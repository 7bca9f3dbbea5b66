/** Reassembly and framing compose: from segments of one direction, in any
    order, to the messages the sender framed. */
module Wire {
  import opened TcpStream
  import opened Reassembly
  import opened Framing

  /** Once every byte of the sender's stream has arrived in some segment, the
      decoded packets are exactly the messages sent, in order. */
  lemma {:induction false} SegmentsToMessages(ms: seq<Message>, isn: u32, cuts: seq<Cut>)
    requires var s := EncodeAll(ms);
             && |s| < TWO64
             && (forall c | c in cuts :: FitsIn(c, s))
             && AllNear(s, Opened(isn), cuts) && LengthsAgree(map[], cuts)
             && !Run(s, Opened(isn), cuts).0.overflow
             && (forall x: nat | x < |s| :: Covered(cuts, x))
    requires forall m | m in ms :: |m.payload| <= MAX_LOGICAL_PACKET
    ensures var chunks := Run(EncodeAll(ms), Opened(isn), cuts).1;
            && !Broken(chunks)
            && Inverts(ms, Whole(chunks).packets)
            && forall i | 0 <= i < |ms| ::
                 Packets(chunks)[i].payload == ms[i].payload && Packets(chunks)[i].firstSeq == ms[i].seqId
  {
    hide Run, AllNear, Decode, EncodeAll;
    var s := EncodeAll(ms);
    var (st, chunks) := Run(s, Opened(isn), cuts);
    PositionIsFirstMissing(s, isn, cuts);
    assert st.nextRel == |s| && s[..|s|] == s;
    DecodeInvertsEncode(ms, 0);
    forall i | 0 <= i < |ms|
      ensures Packets(chunks)[i].payload == ms[i].payload && Packets(chunks)[i].firstSeq == ms[i].seqId
    {
      assert Carries(Whole(chunks).packets[i], ms[i]);
    }
  }
}
