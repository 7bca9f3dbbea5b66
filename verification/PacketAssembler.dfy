/** The incremental packet assembler, proved against one-shot decoding: after
    any sequence of chunks it has produced exactly the packets of the whole
    stream, each with the timestamp of the chunk holding its first byte. */
module PacketAssembler {
  import opened Bytes
  import opened Framing

  datatype OpenPacket = OpenPacket(firstSeq: byte, ts: int, acc: seq<byte>)

  /** The open packet of the reference, timestamped. */
  function OpenAt(p: Option<Partial>, fed: seq<Chunk>): Option<OpenPacket> {
    match p
    case None => None
    case Some(q) => Some(OpenPacket(q.firstSeq, TsAt(fed, q.at), q.acc))
  }

  /** The marks are the starts of the chunks from `d` on; the chunks before
      `d` lie wholly before `consumed`. */
  ghost predicate GoodMarks(marks: seq<(nat, int)>, fed: seq<Chunk>, d: nat, consumed: nat) {
    && d <= |fed| && |marks| == |fed| - d
    && (fed != [] ==> d < |fed| && |Join(fed[..d])| <= consumed)
    && forall i | 0 <= i < |marks| :: marks[i] == (|Join(fed[..d + i])|, fed[d + i].ts)
  }

  class Assembler {
    var buf: seq<byte>
    var marks: seq<(nat, int)>
    var consumed: nat
    var partial: Option<OpenPacket>
    var broken: bool
    /** Every nonempty chunk fed so far, and how many marks were pruned. */
    ghost var fed: seq<Chunk>
    ghost var pruned: nat

    ghost predicate Valid()
      reads this
    {
      && broken == Broken(fed)
      && (!broken ==>
            && buf == Whole(fed).rest
            && consumed + |buf| == |Join(fed)|
            && partial == OpenAt(Whole(fed).partial, fed)
            && GoodMarks(marks, fed, pruned, consumed))
    }

    constructor ()
      ensures Valid() && fed == []
    {
      buf, marks, consumed, partial, broken := [], [], 0, None, false;
      fed, pruned := [], 0;
    }

    /** The packets returned are exactly those the new chunk completes, and an
        intact stream keeps less than one fragment buffered. */
    method Feed(ts: int, data: seq<byte>) returns (out: seq<LogicalPacket>)
      requires Valid()
      modifies this
      ensures Valid()
      ensures fed == if data == [] then old(fed) else old(fed) + [Chunk(ts, data)]
      ensures Packets(fed) == old(Packets(fed)) + out
      ensures !broken ==> |buf| < 0x100_0000 + 3
    {
      hide Decode, Join, JoinFragment, StampAll, OpenAt, FragmentLen, Overruns;
      out := [];
      ghost var before, chunk := fed, Chunk(ts, data);
      if broken || data == [] {
        RestIsShort(Join(fed), None, 0);
        if data != [] {
          PacketsGrow(before, chunk);
          fed := fed + [chunk];
        }
        return;
      }
      JoinNil();
      JoinSnoc(before, chunk);
      AppendMark(marks, fed, pruned, consumed, chunk);
      marks := marks + [(consumed + |buf|, ts)];
      buf := buf + data;
      fed := fed + [chunk];
      ResumeAfter(before, chunk);
      out := TakeFragments(Whole(before).packets, Whole(before).partial);
    }

    /** Take every complete fragment off the buffer; `before` and `first` say
        where decoding had stopped. */
    method TakeFragments(ghost before: seq<Packet>, ghost first: Option<Partial>) returns (out: seq<LogicalPacket>)
      requires !broken && consumed + |buf| == |Join(fed)|
      requires Whole(fed) == Decode(buf, first, consumed).After(before)
      requires partial == OpenAt(first, fed) && GoodMarks(marks, fed, pruned, consumed)
      modifies this
      ensures Valid() && fed == old(fed)
      ensures Packets(fed) == StampAll(before, fed) + out
      ensures !broken ==> |buf| < 0x100_0000 + 3
    {
      hide Decode, Join, JoinFragment, StampAll, OpenAt, FragmentLen, Overruns;
      out := [];
      ghost var done, open := before, first;
      var cursor := 0;
      assert buf[0..] == buf;
      while HasFragment(buf[cursor..])
        invariant 0 <= cursor <= |buf| && consumed + |buf| == |Join(fed)|
        invariant Whole(fed) == Decode(buf[cursor..], open, consumed + cursor).After(done)
        invariant StampAll(done, fed) == StampAll(before, fed) + out
        invariant partial == OpenAt(open, fed)
        invariant GoodMarks(marks, fed, pruned, consumed)
        invariant !broken && fed == old(fed) && buf == old(buf)
        decreases |buf| - cursor
      {
        var rest := buf[cursor..];
        assert HasFragment(rest);
        DecodeStep(rest, open, consumed + cursor);
        var len := FragmentLen(rest);
        var seqId := rest[3];
        var payload := rest[4..4 + len];
        assert rest[4 + len..] == buf[cursor + 4 + len..];
        var ok, joined := Accept(seqId, payload, consumed + cursor, open);
        if !ok {
          broken := true;
          return;
        }
        ghost var next := JoinFragment(open, seqId, consumed + cursor, payload);
        AfterAfter(Decode(rest[4 + len..], next.1, consumed + cursor + 4 + len), done, next.0);
        StampAppend(done, next.0, fed);
        out := out + joined;
        done, open := done + next.0, next.1;
        cursor := cursor + 4 + len;
      }
      DecodeStep(buf[cursor..], open, consumed + cursor);
      RestIsShort(Join(fed), None, 0);
      if cursor > 0 {
        buf := buf[cursor..];
        consumed := consumed + cursor;
      }
      PruneMarks();
      broken := broken || |buf| > MAX_LOGICAL_PACKET;
    }

    /** Join one fragment to the open packet, or refuse a continuation that
        would exceed the cap. */
    method Accept(seqId: byte, payload: seq<byte>, off: nat, ghost open: Option<Partial>)
      returns (ok: bool, out: seq<LogicalPacket>)
      requires partial == OpenAt(open, fed)
      requires GoodMarks(marks, fed, pruned, consumed)
      requires consumed <= off < |Join(fed)|
      modifies `partial
      ensures ok == !Overruns(open, payload)
      ensures ok ==> var joined := JoinFragment(open, seqId, off, payload);
                     partial == OpenAt(joined.1, fed) && out == StampAll(joined.0, fed)
    {
      hide Join, TsAt;
      ok, out := true, [];
      var p: OpenPacket;
      match partial {
        case Some(q) =>
          if |q.acc| + |payload| > MAX_LOGICAL_PACKET {
            return false, [];
          }
          p := q.(acc := q.acc + payload);
        case None =>
          var ts := TsFor(off);
          p := OpenPacket(seqId, ts, payload);
      }
      if |payload| == FRAGMENT {
        partial := Some(p);
      } else {
        partial := None;
        out := [LogicalPacket(p.firstSeq, seqId, p.ts, p.acc)];
      }
    }

    /** Drop the marks of chunks that are wholly consumed. */
    method PruneMarks()
      requires GoodMarks(marks, fed, pruned, consumed)
      modifies `marks, `pruned
      ensures GoodMarks(marks, fed, pruned, consumed)
    {
      while |marks| > 1 && marks[1].0 <= consumed
        invariant GoodMarks(marks, fed, pruned, consumed)
        decreases |marks|
      {
        marks := marks[1..];
        pruned := pruned + 1;
      }
    }

    /** Despite the pruning, the last mark at or before `off` belongs to the
        chunk that holds it. */
    method TsFor(off: nat) returns (ts: int)
      requires GoodMarks(marks, fed, pruned, consumed)
      requires consumed <= off < |Join(fed)|
      ensures ts == TsAt(fed, off)
    {
      hide Join;
      assert fed[..|fed|] == fed;
      JoinNil();
      ts := 0;
      var i := 0;
      while i < |marks| && marks[i].0 <= off
        invariant i <= |marks|
        invariant i > 0 ==> marks[i - 1].0 <= off && ts == marks[i - 1].1
      {
        ts := marks[i].1;
        i := i + 1;
      }
      assert i > 0;
      TsAtWithin(fed, pruned + i - 1, off);
    }
  }

  lemma {:induction false} StampAppend(a: seq<Packet>, b: seq<Packet>, fed: seq<Chunk>)
    ensures StampAll(a + b, fed) == StampAll(a, fed) + StampAll(b, fed)
  {
  }

  lemma {:induction false} AppendMark(marks: seq<(nat, int)>, fed: seq<Chunk>, d: nat, consumed: nat, c: Chunk)
    requires GoodMarks(marks, fed, d, consumed) && consumed <= |Join(fed)|
    requires fed == [] ==> d == 0 && consumed == 0
    ensures GoodMarks(marks + [(|Join(fed)|, c.ts)], fed + [c], d, consumed)
  {
    hide Join;
    forall k | 0 <= k <= |fed| ensures (fed + [c])[..k] == fed[..k] {}
    assert fed[..0] == [];
    JoinNil();
  }

  /** Decoding the stream with one more chunk resumes at the buffered rest. */
  lemma {:induction false} ResumeAfter(before: seq<Chunk>, c: Chunk)
    requires !Broken(before)
    ensures var w := Whole(before);
            && |w.rest| <= |Join(before)|
            && Whole(before + [c])
               == Decode(w.rest + c.bytes, w.partial, |Join(before)| - |w.rest|).After(w.packets)
            && StampAll(w.packets, before + [c]) == Packets(before)
            && OpenAt(w.partial, before + [c]) == OpenAt(w.partial, before)
  {
    hide Decode, Join, TsAt;
    JoinSnoc(before, c);
    DecodeAppend(Join(before), c.bytes, None, 0);
    PacketsStartInside(Join(before), None, 0);
    var w := Whole(before);
    forall i | 0 <= i < |w.packets| ensures Stamp(w.packets[i], before + [c]) == Stamp(w.packets[i], before) {
      TsAtAppend(before, c, w.packets[i].at);
    }
    if w.partial.Some? {
      TsAtAppend(before, c, w.partial.value.at);
    }
  }
}
