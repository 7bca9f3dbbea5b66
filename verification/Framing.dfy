/** MySQL packet framing: a 3-byte little-endian length, a sequence id and the
    payload; a fragment of 0xffffff bytes continues in the next one. */
module Framing {
  import opened Bytes

  const FRAGMENT: nat := 0xff_ffff

  /** Cap on one logical packet. */
  const MAX_LOGICAL_PACKET: nat := 64 * 1024 * 1024

  /** A logical packet and the stream offset of its first byte. */
  datatype Packet = Packet(firstSeq: byte, lastSeq: byte, at: nat, payload: seq<byte>)

  /** A multi-fragment packet whose last fragment has not arrived. */
  datatype Partial = Partial(firstSeq: byte, at: nat, acc: seq<byte>)

  datatype Frames = Frames(packets: seq<Packet>, partial: Option<Partial>, rest: seq<byte>, broken: bool) {
    function After(before: seq<Packet>): Frames {
      this.(packets := before + packets)
    }
  }

  // ---------------------------------------------------------------------
  // Reference: decoding a whole byte stream at once
  // ---------------------------------------------------------------------

  function FragmentLen(b: seq<byte>): nat
    requires |b| >= 3
  {
    b[0] as int + 0x100 * (b[1] as int) + 0x1_0000 * (b[2] as int)
  }

  predicate HasFragment(b: seq<byte>) {
    |b| >= 4 && |b| >= 4 + FragmentLen(b)
  }

  /** One complete fragment joined to the open packet: at most one packet
      comes out, and the packet that stays open. */
  function JoinFragment(open: Option<Partial>, seqId: byte, at: nat, payload: seq<byte>)
    : (seq<Packet>, Option<Partial>)
  {
    var p := match open
      case Some(q) => q.(acc := q.acc + payload)
      case None => Partial(seqId, at, payload);
    if |payload| == FRAGMENT then ([], Some(p)) else ([Packet(p.firstSeq, seqId, p.at, p.acc)], None)
  }

  /** Only a continuation is checked against the cap. */
  predicate Overruns(open: Option<Partial>, payload: seq<byte>) {
    open.Some? && |open.value.acc| + |payload| > MAX_LOGICAL_PACKET
  }

  function Decode(b: seq<byte>, open: Option<Partial>, at: nat): Frames
    decreases |b|
  {
    if !HasFragment(b) then Frames([], open, b, false)
    else
      var n := 4 + FragmentLen(b);
      if Overruns(open, b[4..n]) then Frames([], None, b, true)
      else
        var (packets, open') := JoinFragment(open, b[3], at, b[4..n]);
        Decode(b[n..], open', at + n).After(packets)
  }

  lemma {:induction false} AfterAfter(f: Frames, a: seq<Packet>, b: seq<Packet>)
    ensures f.After(b).After(a) == f.After(a + b)
  {
    assert a + (b + f.packets) == (a + b) + f.packets;
  }

  lemma {:induction false} AfterNil(f: Frames)
    ensures f.After([]) == f
  {
    assert [] + f.packets == f.packets;
  }

  lemma {:induction false} DecodeStep(b: seq<byte>, open: Option<Partial>, at: nat)
    ensures !HasFragment(b) ==> Decode(b, open, at) == Frames([], open, b, false)
    ensures HasFragment(b) && Overruns(open, b[4..4 + FragmentLen(b)]) ==>
              Decode(b, open, at) == Frames([], None, b, true)
    ensures HasFragment(b) && !Overruns(open, b[4..4 + FragmentLen(b)]) ==>
              var n := 4 + FragmentLen(b);
              var (packets, open') := JoinFragment(open, b[3], at, b[4..n]);
              Decode(b, open, at) == Decode(b[n..], open', at + n).After(packets)
  {
  }

  /** Decoding more bytes resumes exactly where decoding stopped. */
  lemma {:induction false} DecodeAppend(a: seq<byte>, b: seq<byte>, open: Option<Partial>, at: nat)
    ensures var r := Decode(a, open, at);
            if r.broken
            then Decode(a + b, open, at).broken && Decode(a + b, open, at).packets == r.packets
            else && |r.rest| <= |a|
                 && Decode(a + b, open, at) == Decode(r.rest + b, r.partial, at + (|a| - |r.rest|)).After(r.packets)
    decreases |a|
  {
    hide Decode, JoinFragment, Overruns;
    DecodeStep(a, open, at);
    if HasFragment(a) {
      DecodeStep(a + b, open, at);
      var n := 4 + FragmentLen(a);
      assert (a + b)[4..n] == a[4..n] && (a + b)[n..] == a[n..] + b;
      if !Overruns(open, a[4..n]) {
        var (packets, open') := JoinFragment(open, a[3], at, a[4..n]);
        DecodeAppend(a[n..], b, open', at + n);
        var r := Decode(a[n..], open', at + n);
        if !r.broken {
          AfterAfter(Decode(r.rest + b, r.partial, at + n + (|a| - n - |r.rest|)), packets, r.packets);
        }
      }
    } else {
      AfterNil(Decode(a + b, open, at));
    }
  }

  /** The bytes kept for the next chunk are an incomplete fragment, so the
      buffer check after the loop never breaks a stream. */
  lemma {:induction false} RestIsShort(b: seq<byte>, open: Option<Partial>, at: nat)
    ensures var r := Decode(b, open, at);
            !r.broken ==> !HasFragment(r.rest) && |r.rest| < 0x100_0000 + 3 && |r.rest| <= |b|
    decreases |b|
  {
    if HasFragment(b) {
      var n := 4 + FragmentLen(b);
      if !Overruns(open, b[4..n]) {
        RestIsShort(b[n..], JoinFragment(open, b[3], at, b[4..n]).1, at + n);
      }
    }
  }

  // ---------------------------------------------------------------------
  // Reference: encoding, and decode after encode
  // ---------------------------------------------------------------------

  function Header(len: nat, seqId: byte): seq<byte>
    requires len <= FRAGMENT
  {
    [len % 0x100, len / 0x100 % 0x100, len / 0x1_0000, seqId]
  }

  /** A payload of a multiple of 0xffffff bytes ends in an empty fragment. */
  function Encode(payload: seq<byte>, seqId: byte): seq<byte>
    decreases |payload|
  {
    if |payload| < FRAGMENT then Header(|payload|, seqId) + payload
    else Header(FRAGMENT, seqId) + payload[..FRAGMENT] + Encode(payload[FRAGMENT..], (seqId + 1) % 256)
  }

  /** The sequence id of the last fragment. */
  function LastSeq(len: nat, seqId: byte): byte {
    (seqId + len / FRAGMENT) % 256
  }

  lemma {:induction false} HeaderDecodes(len: nat, seqId: byte, payload: seq<byte>, rest: seq<byte>)
    requires len == |payload| <= FRAGMENT
    ensures var b := Header(len, seqId) + payload + rest;
            && HasFragment(b) && FragmentLen(b) == len && b[3] == seqId
            && b[4..4 + len] == payload && b[4 + len..] == rest
  {
    var b := Header(len, seqId) + payload + rest;
    assert b[0] == len % 0x100 && b[1] == len / 0x100 % 0x100 && b[2] == len / 0x1_0000;
    assert len / 0x1_0000 * 0x1_0000 + len / 0x100 % 0x100 * 0x100 + len % 0x100 == len;
  }

  /** The packet an encoded payload joins to, after an open packet. */
  function Joined(open: Option<Partial>, seqId: byte, at: nat, payload: seq<byte>): Packet {
    match open
    case Some(p) => Packet(p.firstSeq, LastSeq(|payload|, seqId), p.at, p.acc + payload)
    case None => Packet(seqId, LastSeq(|payload|, seqId), at, payload)
  }

  lemma {:induction false} EncodedContinues(payload: seq<byte>, seqId: byte, open: Option<Partial>, at: nat,
                                            rest: seq<byte>)
    requires open.Some? ==> |open.value.acc| <= MAX_LOGICAL_PACKET
    ensures var b := Encode(payload, seqId);
            var len := |payload| + if open.Some? then |open.value.acc| else 0;
            var r := Decode(b + rest, open, at);
            if len <= MAX_LOGICAL_PACKET
            then r == Decode(rest, None, at + |b|).After([Joined(open, seqId, at, payload)])
            else r.broken && r.packets == []
    decreases |payload|
  {
    hide Decode, LastSeq;
    var b := Encode(payload, seqId);
    DecodeStep(b + rest, open, at);
    if |payload| < FRAGMENT {
      HeaderDecodes(|payload|, seqId, payload, rest);
      LastSeqFits(|payload|, seqId);
    } else {
      var tail := Encode(payload[FRAGMENT..], (seqId + 1) % 256);
      assert b + rest == Header(FRAGMENT, seqId) + payload[..FRAGMENT] + (tail + rest);
      HeaderDecodes(FRAGMENT, seqId, payload[..FRAGMENT], tail + rest);
      if !Overruns(open, payload[..FRAGMENT]) {
        var next := JoinFragment(open, seqId, at, payload[..FRAGMENT]).1;
        EncodedContinues(payload[FRAGMENT..], (seqId + 1) % 256, next, at + 4 + FRAGMENT, rest);
        LastSeqContinues(|payload|, seqId);
        AfterNil(Decode(tail + rest, next, at + 4 + FRAGMENT));
        assert open.Some? ==> open.value.acc + payload[..FRAGMENT] + payload[FRAGMENT..] == open.value.acc + payload;
        assert payload[..FRAGMENT] + payload[FRAGMENT..] == payload;
      }
    }
  }

  lemma {:induction false} LastSeqFits(len: nat, seqId: byte)
    requires len < FRAGMENT
    ensures LastSeq(len, seqId) == seqId
  {
  }

  lemma {:induction false} LastSeqContinues(len: nat, seqId: byte)
    requires len >= FRAGMENT
    ensures LastSeq(len - FRAGMENT, (seqId + 1) % 256) == LastSeq(len, seqId)
  {
    assert (len - FRAGMENT) / FRAGMENT == len / FRAGMENT - 1;
  }

  /** A message the sender frames: its first sequence id and payload. */
  datatype Message = Message(seqId: byte, payload: seq<byte>)

  function EncodeAll(ms: seq<Message>): seq<byte> {
    if ms == [] then [] else Encode(ms[0].payload, ms[0].seqId) + EncodeAll(ms[1..])
  }

  predicate Carries(p: Packet, m: Message) {
    p.payload == m.payload && p.firstSeq == m.seqId && p.lastSeq == LastSeq(|m.payload|, m.seqId)
  }

  /** The packets are the messages, in order. */
  predicate Inverts(ms: seq<Message>, packets: seq<Packet>) {
    |packets| == |ms| && forall i | 0 <= i < |ms| :: Carries(packets[i], ms[i])
  }

  /** Decode after encode is the identity exactly when no payload exceeds the cap. */
  lemma {:induction false} DecodeInvertsEncode(ms: seq<Message>, at: nat)
    ensures var r := Decode(EncodeAll(ms), None, at);
            && ((forall m | m in ms :: |m.payload| <= MAX_LOGICAL_PACKET) <==> !r.broken)
            && (!r.broken ==> Inverts(ms, r.packets) && r.partial == None && r.rest == [])
  {
    hide Decode, Encode, LastSeq;
    if ms == [] {
      DecodeStep([], None, at);
    } else {
      var m, b := ms[0], Encode(ms[0].payload, ms[0].seqId);
      EncodedContinues(m.payload, m.seqId, None, at, EncodeAll(ms[1..]));
      DecodeInvertsEncode(ms[1..], at + |b|);
      assert forall x :: x in ms <==> x == m || x in ms[1..];
      var packets := Decode(EncodeAll(ms[1..]), None, at + |b|).packets;
      var first := Joined(None, m.seqId, at, m.payload);
      assert Carries(first, m);
      assert Inverts(ms[1..], packets) ==> Inverts(ms, [first] + packets) by {
        assert forall i | 0 < i < |ms| :: ms[i] == ms[1..][i - 1] && ([first] + packets)[1..] == packets;
      }
    }
  }

  lemma {:induction false} EncodePrefix(ms: seq<Message>, i: nat)
    requires 0 < i <= |ms|
    ensures EncodeAll(ms[..i]) == Encode(ms[0].payload, ms[0].seqId) + EncodeAll(ms[1..][..i - 1])
  {
    assert ms[..i][1..] == ms[1..][..i - 1];
    hide Encode;
  }

  /** Each packet starts where the bytes of its message do. */
  lemma {:induction false} PacketsStartAtMessages(ms: seq<Message>, at: nat, i: nat)
    requires i < |ms| && forall m | m in ms :: |m.payload| <= MAX_LOGICAL_PACKET
    ensures var packets := Decode(EncodeAll(ms), None, at).packets;
            |packets| == |ms| && packets[i].at == at + |EncodeAll(ms[..i])|
    decreases |ms|
  {
    hide Decode, Encode, LastSeq;
    DecodeInvertsEncode(ms, at);
    var m, b := ms[0], Encode(ms[0].payload, ms[0].seqId);
    EncodedContinues(m.payload, m.seqId, None, at, EncodeAll(ms[1..]));
    if i > 0 {
      EncodePrefix(ms, i);
      PacketsStartAtMessages(ms[1..], at + |b|, i - 1);
    }
  }

  // ---------------------------------------------------------------------
  // Timestamps
  // ---------------------------------------------------------------------

  /** The timestamp of the chunk that holds the stream byte at `off`. */
  function TsAt(chunks: seq<Chunk>, off: nat): int {
    if chunks == [] then 0
    else
      var n := |chunks| - 1;
      if off >= |Join(chunks[..n])| then chunks[n].ts else TsAt(chunks[..n], off)
  }

  lemma {:induction false} TsAtAppend(chunks: seq<Chunk>, c: Chunk, off: nat)
    requires off < |Join(chunks)|
    ensures TsAt(chunks + [c], off) == TsAt(chunks, off)
  {
    assert (chunks + [c])[..|chunks|] == chunks;
  }

  lemma {:induction false} TsAtWithin(chunks: seq<Chunk>, k: nat, off: nat)
    requires k < |chunks| && |Join(chunks[..k])| <= off < |Join(chunks[..k + 1])|
    ensures TsAt(chunks, off) == chunks[k].ts
  {
    var n := |chunks| - 1;
    if k < n {
      JoinPrefix(chunks, k + 1, n);
      assert chunks[..n][..k] == chunks[..k] && chunks[..n][..k + 1] == chunks[..k + 1];
      TsAtWithin(chunks[..n], k, off);
    } else {
      assert chunks[..n] == chunks[..k];
    }
  }

  lemma {:induction false} JoinPrefix(chunks: seq<Chunk>, i: nat, j: nat)
    requires i <= j <= |chunks|
    ensures |Join(chunks[..i])| <= |Join(chunks[..j])|
  {
    JoinAppend(chunks[..i], chunks[i..j]);
    assert chunks[..j] == chunks[..i] + chunks[i..j];
  }

  /** Every packet starts inside the decoded bytes. */
  lemma {:induction false} PacketsStartInside(b: seq<byte>, open: Option<Partial>, at: nat)
    requires open.Some? ==> open.value.at < at
    ensures var r := Decode(b, open, at);
            && (forall p | p in r.packets :: p.at < at + |b|)
            && (r.partial.Some? ==> r.partial.value.at < at + |b| - |r.rest|)
            && |r.rest| <= |b|
    decreases |b|
  {
    hide Decode, Overruns;
    DecodeStep(b, open, at);
    if HasFragment(b) {
      var n := 4 + FragmentLen(b);
      if !Overruns(open, b[4..n]) {
        PacketsStartInside(b[n..], JoinFragment(open, b[3], at, b[4..n]).1, at + n);
      }
    }
  }

  /** A packet as the connection decoder sees it: with the timestamp of the
      chunk that delivered its first byte. */
  datatype LogicalPacket = LogicalPacket(firstSeq: byte, lastSeq: byte, ts: int, payload: seq<byte>)

  function Stamp(p: Packet, chunks: seq<Chunk>): LogicalPacket {
    LogicalPacket(p.firstSeq, p.lastSeq, TsAt(chunks, p.at), p.payload)
  }

  function StampAll(ps: seq<Packet>, chunks: seq<Chunk>): (r: seq<LogicalPacket>)
    ensures |r| == |ps| && forall i | 0 <= i < |ps| :: r[i] == Stamp(ps[i], chunks)
  {
    if ps == [] then [] else [Stamp(ps[0], chunks)] + StampAll(ps[1..], chunks)
  }

  /** The reference: what the chunks fed so far amount to, decoded in one go. */
  function Whole(chunks: seq<Chunk>): Frames {
    Decode(Join(chunks), None, 0)
  }

  function Packets(chunks: seq<Chunk>): seq<LogicalPacket> {
    StampAll(Whole(chunks).packets, chunks)
  }

  function Broken(chunks: seq<Chunk>): bool {
    Whole(chunks).broken
  }

  /** Another chunk only adds packets; a broken stream stays as it was. */
  lemma {:induction false} PacketsGrow(chunks: seq<Chunk>, c: Chunk)
    ensures Packets(chunks) <= Packets(chunks + [c])
    ensures Broken(chunks) ==> Broken(chunks + [c]) && Packets(chunks + [c]) == Packets(chunks)
  {
    hide Decode;
    assert (chunks + [c])[..|chunks|] == chunks;
    DecodeAppend(Join(chunks), c.bytes, None, 0);
    PacketsStartInside(Join(chunks), None, 0);
    var ps := Whole(chunks).packets;
    forall i | 0 <= i < |ps| ensures Packets(chunks + [c])[i] == Packets(chunks)[i] {
      TsAtAppend(chunks, c, ps[i].at);
    }
  }

  /** The packets one more chunk completes. */
  function NewPackets(chunks: seq<Chunk>, c: Chunk): seq<LogicalPacket> {
    PacketsGrow(chunks, c);
    Packets(chunks + [c])[|Packets(chunks)|..]
  }

  // ---------------------------------------------------------------------
  // Chunks that break the stream
  // ---------------------------------------------------------------------

  function OpenLen(open: Option<Partial>): nat {
    if open.Some? then |open.value.acc| else 0
  }

  lemma {:induction false} FragmentPayload(b: seq<byte>)
    requires HasFragment(b)
    ensures |b[4..4 + FragmentLen(b)]| == FragmentLen(b) && |b[4 + FragmentLen(b)..]| == |b| - 4 - FragmentLen(b)
  {
  }

  lemma {:induction false} JoinLen(open: Option<Partial>, seqId: byte, at: nat, payload: seq<byte>)
    ensures var (packets, open') := JoinFragment(open, seqId, at, payload);
            && (packets == [] ==> OpenLen(open') == OpenLen(open) + |payload|)
            && (packets != [] ==> open' == None)
  {
  }

  /** A stream breaks only on more bytes than a packet may have. */
  lemma {:induction false} BrokenIsLong(b: seq<byte>, open: Option<Partial>, at: nat)
    requires Decode(b, open, at).broken
    ensures |b| + OpenLen(open) > MAX_LOGICAL_PACKET
    decreases |b|
  {
    hide Decode, JoinFragment, FragmentLen;
    DecodeStep(b, open, at);
    FragmentPayload(b);
    var n := 4 + FragmentLen(b);
    if !Overruns(open, b[4..n]) {
      JoinLen(open, b[3], at, b[4..n]);
      BrokenIsLong(b[n..], JoinFragment(open, b[3], at, b[4..n]).1, at + n);
    }
  }

  /** When a packet is completed first, all those bytes come behind it. */
  lemma {:induction false} BreakBehindPacket(b: seq<byte>, open: Option<Partial>, at: nat)
    requires Decode(b, open, at).broken && Decode(b, open, at).packets != []
    ensures HasFragment(b) && |b| - (4 + FragmentLen(b)) > MAX_LOGICAL_PACKET
    decreases |b|
  {
    hide Decode, JoinFragment, FragmentLen;
    DecodeStep(b, open, at);
    FragmentPayload(b);
    var n := 4 + FragmentLen(b);
    var (packets, open') := JoinFragment(open, b[3], at, b[4..n]);
    JoinLen(open, b[3], at, b[4..n]);
    if packets == [] {
      AfterNil(Decode(b[n..], open', at + n));
      BreakBehindPacket(b[n..], open', at + n);
    } else {
      BrokenIsLong(b[n..], open', at + n);
    }
  }

  lemma {:induction false} FragmentEndsBehind(rest: seq<byte>, c: seq<byte>)
    requires !HasFragment(rest) && HasFragment(rest + c)
    ensures 4 + FragmentLen(rest + c) > |rest|
  {
  }

  /** A chunk of at most 64 MiB that breaks the stream completes no packet. */
  lemma {:induction false} BreakingChunkIsSilent(chunks: seq<Chunk>, c: Chunk)
    requires !Broken(chunks) && Broken(chunks + [c]) && |c.bytes| <= MAX_LOGICAL_PACKET
    ensures NewPackets(chunks, c) == []
  {
    hide Decode, HasFragment, FragmentLen;
    var a := Join(chunks);
    var r := Whole(chunks);
    assert (chunks + [c])[..|chunks|] == chunks;
    DecodeAppend(a, c.bytes, None, 0);
    RestIsShort(a, None, 0);
    var at := |a| - |r.rest|;
    if Decode(r.rest + c.bytes, r.partial, at).packets != [] {
      BreakBehindPacket(r.rest + c.bytes, r.partial, at);
      FragmentEndsBehind(r.rest, c.bytes);
    }
    PacketsGrow(chunks, c);
  }

  /** A packet and an oversized one behind it: the packet comes out, and the
      stream breaks. */
  lemma {:induction false} OversizedBreaks(m: Message, big: Message, at: nat)
    requires |m.payload| <= MAX_LOGICAL_PACKET < |big.payload|
    ensures var r := Decode(Encode(m.payload, m.seqId) + Encode(big.payload, big.seqId), None, at);
            r.broken && r.packets == [Joined(None, m.seqId, at, m.payload)]
  {
    hide Decode, Encode, Joined;
    var b := Encode(big.payload, big.seqId);
    EncodedContinues(m.payload, m.seqId, None, at, b);
    assert b + [] == b;
    EncodedContinues(big.payload, big.seqId, None, at + |Encode(m.payload, m.seqId)|, []);
  }

  /** Chunk-independence: two ways of cutting one byte stream give the same
      packets, timestamps aside, and the same verdict. */
  lemma {:induction false} ChunkingDoesNotMatter(a: seq<Chunk>, b: seq<Chunk>)
    requires Join(a) == Join(b)
    ensures Broken(a) == Broken(b) && |Packets(a)| == |Packets(b)|
    ensures forall i | 0 <= i < |Packets(a)| :: Packets(b)[i] == Packets(a)[i].(ts := Packets(b)[i].ts)
  {
  }
}
