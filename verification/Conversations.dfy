/** From segments to events: a conversation whose bytes travel in any segments,
    in any order, repeated and overlapping, yields every statement once, closed
    by the response it got. */
module Conversations {
  import opened Bytes
  import opened TcpStream
  import opened Reassembly
  import opened Framing
  import opened Protocol
  import opened Matching
  import opened Connection
  import opened EngineSteps
  import opened SegmentTimes

  function Other(dir: Dir): Dir {
    match dir case Client => Server case Server => Client
  }

  // ---------------------------------------------------------------------
  // Chunks of one direction are its packets
  // ---------------------------------------------------------------------

  lemma {:induction false} PacketsGrowAll(chunks: seq<Chunk>, cs: seq<Chunk>)
    ensures Packets(chunks) <= Packets(chunks + cs)
    ensures Broken(chunks) ==> Broken(chunks + cs)
    decreases |cs|
  {
    if cs == [] {
      assert chunks + cs == chunks;
    } else {
      PacketsGrow(chunks, cs[0]);
      PacketsGrowAll(chunks + [cs[0]], cs[1..]);
      assert (chunks + [cs[0]]) + cs[1..] == chunks + cs;
    }
    hide Packets, Broken;
  }

  /** The packets that further chunks complete. */
  function Further(chunks: seq<Chunk>, cs: seq<Chunk>): seq<LogicalPacket> {
    PacketsGrowAll(chunks, cs);
    Packets(chunks + cs)[|Packets(chunks)|..]
  }

  lemma {:induction false} FurtherNil(chunks: seq<Chunk>)
    ensures Further(chunks, []) == []
  {
    assert chunks + [] == chunks;
    hide Packets;
  }

  lemma {:induction false} FurtherCons(chunks: seq<Chunk>, c: Chunk, cs: seq<Chunk>)
    ensures Further(chunks, [c] + cs) == NewPackets(chunks, c) + Further(chunks + [c], cs)
  {
    PacketsGrow(chunks, c);
    PacketsGrowAll(chunks + [c], cs);
    assert (chunks + [c]) + cs == chunks + ([c] + cs);
    hide Packets;
  }

  /** A decoder that has stopped hears nothing. */
  lemma {:induction false} StoppedHearsNothing(c: Conn, inputs: seq<Input>, codec: Codec)
    requires !c.dec.Decoding()
    ensures AfterInputs(c, inputs, codec) == (c, [])
    decreases |inputs|
  {
    if inputs != [] {
      StoppedHearsNothing(c, inputs[1..], codec);
      assert AfterBytes(c, inputs[0].dir, inputs[0].chunk, codec) == (c, []);
      var none: seq<Event> := [];
      assert none + none == none;
    }
  }

  lemma {:induction false} InputsOfCons(dir: Dir, c: Chunk, cs: seq<Chunk>)
    ensures InputsOf(dir, [c] + cs) == [Input(dir, c)] + InputsOf(dir, cs)
  {
  }

  lemma {:induction false} InputsStep(c: Conn, i: Input, rest: seq<Input>, codec: Codec)
    ensures var (c1, out1) := AfterBytes(c, i.dir, i.chunk, codec);
            var (c2, out2) := AfterInputs(c1, rest, codec);
            AfterInputs(c, [i] + rest, codec) == (c2, out1 + out2)
  {
    assert ([i] + rest)[1..] == rest;
    hide AfterBytes;
  }

  /** A chunk of unbroken streams is its new packets. */
  lemma {:induction false} ChunkIsPackets(c: Conn, dir: Dir, chunk: Chunk, codec: Codec)
    requires c.dec.Decoding() && chunk.bytes != []
    requires !Broken(Fed(c, dir) + [chunk]) && !Broken(Fed(c, Other(dir)))
    ensures var (c1, out) := AfterBytes(c, dir, chunk, codec);
            && (c1.dec, out) == AfterPackets(c.dec, dir, NewPackets(Fed(c, dir), chunk), codec)
            && Fed(c1, dir) == Fed(c, dir) + [chunk] && Fed(c1, Other(dir)) == Fed(c, Other(dir))
  {
    hide AfterPackets, NewPackets, Broken;
  }

  /** What a list of chunks of one direction does. */
  ghost predicate Hears(c: Conn, dir: Dir, cs: seq<Chunk>, codec: Codec) {
    var (c', out) := AfterInputs(c, InputsOf(dir, cs), codec);
    && (c'.dec, out) == AfterPackets(c.dec, dir, Further(Fed(c, dir), cs), codec)
    && (c'.dec.Decoding() ==> Fed(c', dir) == Fed(c, dir) + cs && Fed(c', Other(dir)) == Fed(c, Other(dir)))
  }

  lemma {:induction false} HearsNothing(c: Conn, dir: Dir, codec: Codec)
    ensures Hears(c, dir, [], codec)
  {
    FurtherNil(Fed(c, dir));
    assert InputsOf(dir, []) == [];
    assert Fed(c, dir) + [] == Fed(c, dir);
    hide Further;
  }

  lemma {:induction false} HearsCons(c: Conn, dir: Dir, x: Chunk, cs: seq<Chunk>, codec: Codec)
    requires c.dec.Decoding() && x.bytes != []
    requires !Broken(Fed(c, dir) + [x]) && !Broken(Fed(c, Other(dir)))
    requires var c1 := AfterBytes(c, dir, x, codec).0;
             c1.dec.Decoding() ==> Hears(c1, dir, cs, codec)
    ensures Hears(c, dir, [x] + cs, codec)
  {
    hide AfterBytes, AfterPackets, AfterInputs, NewPackets, Further, Broken, InputsOf, Fed;
    ChunkIsPackets(c, dir, x, codec);
    FurtherCons(Fed(c, dir), x, cs);
    InputsOfCons(dir, x, cs);
    InputsStep(c, Input(dir, x), InputsOf(dir, cs), codec);
    PacketsAppend(c.dec, dir, NewPackets(Fed(c, dir), x), Further(Fed(c, dir) + [x], cs), codec);
    var (c1, out1) := AfterBytes(c, dir, x, codec);
    assert (Fed(c, dir) + [x]) + cs == Fed(c, dir) + ([x] + cs);
    if !c1.dec.Decoding() {
      StoppedHearsNothing(c1, InputsOf(dir, cs), codec);
      StoppedTakesNothing(c1.dec, dir, Further(Fed(c, dir) + [x], cs), codec);
    }
  }

  lemma {:induction false} StoppedTakesNothing(d: Decoder, dir: Dir, pkts: seq<LogicalPacket>, codec: Codec)
    requires !d.Decoding()
    ensures AfterPackets(d, dir, pkts, codec) == (d, [])
  {
  }

  lemma {:induction false} ChunksArePackets(c: Conn, dir: Dir, cs: seq<Chunk>, codec: Codec)
    requires c.dec.Decoding() && NoneEmpty(cs)
    requires !Broken(Fed(c, dir) + cs) && !Broken(Fed(c, Other(dir)))
    ensures Hears(c, dir, cs, codec)
    decreases |cs|
  {
    hide Hears, AfterBytes, Broken, Fed;
    if cs == [] {
      HearsNothing(c, dir, codec);
    } else {
      var x, rest := cs[0], cs[1..];
      assert x in cs && NoneEmpty(rest);
      assert cs == [x] + rest;
      assert (Fed(c, dir) + [x]) + rest == Fed(c, dir) + cs;
      PacketsGrowAll(Fed(c, dir) + [x], rest);
      ChunkIsPackets(c, dir, x, codec);
      if AfterBytes(c, dir, x, codec).0.dec.Decoding() {
        ChunksArePackets(AfterBytes(c, dir, x, codec).0, dir, rest, codec);
      }
      HearsCons(c, dir, x, rest, codec);
    }
  }

  // ---------------------------------------------------------------------
  // Messages in bytes are packets
  // ---------------------------------------------------------------------

  /** Nothing unfinished is left in the assembler. */
  predicate Clean(chunks: seq<Chunk>) {
    var w := Whole(chunks);
    !w.broken && w.partial == None && w.rest == []
  }

  function MessagesOf(ps: seq<LogicalPacket>): (ms: seq<Message>)
    ensures |ms| == |ps| && forall i | 0 <= i < |ps| :: ms[i] == Message(ps[i].firstSeq, ps[i].payload)
  {
    seq(|ps|, i requires 0 <= i < |ps| => Message(ps[i].firstSeq, ps[i].payload))
  }

  /** Packets as a sender can frame them. */
  predicate Framed(ps: seq<LogicalPacket>) {
    forall p | p in ps :: p.lastSeq == LastSeq(|p.payload|, p.firstSeq) && |p.payload| <= MAX_LOGICAL_PACKET
  }

  /** The same packets, seen at other times. */
  predicate SameButTime(a: seq<LogicalPacket>, b: seq<LogicalPacket>) {
    |a| == |b| && forall i | 0 <= i < |a| :: b[i] == a[i].(ts := b[i].ts)
  }

  lemma {:induction false} WholeAppends(chunks: seq<Chunk>, cs: seq<Chunk>)
    requires Clean(chunks)
    ensures Whole(chunks + cs) == Decode(Join(cs), None, |Join(chunks)|).After(Whole(chunks).packets)
  {
    hide Decode, Join;
    var a, b := Join(chunks), Join(cs);
    JoinAppend(chunks, cs);
    DecodeAppend(a, b, None, 0);
    assert [] + b == b;
    assert Decode(a + b, None, 0) == Decode(b, None, |a|).After(Decode(a, None, 0).packets);
  }

  lemma {:induction false} FurtherIs(chunks: seq<Chunk>, cs: seq<Chunk>, more: seq<Packet>)
    requires Whole(chunks + cs).packets == Whole(chunks).packets + more
    ensures Further(chunks, cs) == StampAll(more, chunks + cs)
  {
    hide Whole;
    var all := StampAll(Whole(chunks + cs).packets, chunks + cs);
    assert all[|Whole(chunks).packets|..] == StampAll(more, chunks + cs);
  }

  /** Behind a clean assembler, the bytes of framed packets become these packets. */
  lemma {:induction false} BytesBecomePackets(chunks: seq<Chunk>, cs: seq<Chunk>, ps: seq<LogicalPacket>)
    requires Clean(chunks) && Framed(ps) && Join(cs) == EncodeAll(MessagesOf(ps))
    ensures Clean(chunks + cs) && SameButTime(ps, Further(chunks, cs))
  {
    var ms, at := MessagesOf(ps), |Join(chunks)|;
    WholeAppends(chunks, cs);
    forall m | m in ms ensures |m.payload| <= MAX_LOGICAL_PACKET {
      var i :| 0 <= i < |ms| && m == ms[i];
      assert ps[i] in ps;
    }
    DecodeInvertsEncode(ms, at);
    var more := Decode(EncodeAll(ms), None, at).packets;
    FurtherIs(chunks, cs, more);
    hide Decode, EncodeAll, Further, Whole, LastSeq;
    forall i | 0 <= i < |ps| ensures Further(chunks, cs)[i] == ps[i].(ts := Further(chunks, cs)[i].ts) {
      assert Carries(more[i], ms[i]) && ps[i] in ps;
    }
  }

  /** Such a packet bears the time of the chunk its first byte came in. */
  lemma {:induction false} PacketTimes(chunks: seq<Chunk>, cs: seq<Chunk>, ps: seq<LogicalPacket>, i: nat)
    requires Clean(chunks) && Framed(ps) && Join(cs) == EncodeAll(MessagesOf(ps)) && i < |ps|
    ensures var x := |EncodeAll(MessagesOf(ps)[..i])|;
            i < |Further(chunks, cs)| && x < |Join(cs)| && Further(chunks, cs)[i].ts == TsAt(cs, x)
  {
    var ms, at := MessagesOf(ps), |Join(chunks)|;
    WholeAppends(chunks, cs);
    forall m | m in ms ensures |m.payload| <= MAX_LOGICAL_PACKET {
      var j :| 0 <= j < |ms| && m == ms[j];
      assert ps[j] in ps;
    }
    PacketsStartAtMessages(ms, at, i);
    PacketsStartInside(EncodeAll(ms), None, at);
    var more := Decode(EncodeAll(ms), None, at).packets;
    assert more[i] in more;
    FurtherIs(chunks, cs, more);
    hide Decode, EncodeAll, Further, Whole, TsAt, Join;
    JoinAppend(chunks, cs);
    TsAtConcat(chunks, cs, more[i].at);
  }

  // ---------------------------------------------------------------------
  // The time stamps of a round
  // ---------------------------------------------------------------------

  predicate SameRound(r: Round, r': Round) {
    && SameButTime(r.cmds, r'.cmds) && |r.resps| == |r'.resps|
    && forall i | 0 <= i < |r.resps| :: SameButTime(r.resps[i], r'.resps[i])
  }

  lemma {:induction false} StartIdsSame(a: seq<LogicalPacket>, b: seq<LogicalPacket>)
    requires SameButTime(a, b)
    ensures StartIds(a) == StartIds(b)
    decreases |a|
  {
    if a != [] {
      assert b[0] == a[0].(ts := b[0].ts);
      assert SameButTime(a[1..], b[1..]);
      StartIdsSame(a[1..], b[1..]);
    }
  }

  lemma {:induction false} ResponseSame(start: byte, a: seq<LogicalPacket>, b: seq<LogicalPacket>)
    requires SameButTime(a, b) && IsResponse(start, a)
    ensures IsResponse(start, b) && a != [] && b != [] && EndId(b) == EndId(a)
  {
    assert b[0] == a[0].(ts := b[0].ts);
    forall i | 0 <= i < |b| - 1 ensures b[i + 1].firstSeq == Next(b[i].lastSeq) {
      assert b[i] == a[i].(ts := b[i].ts) && b[i + 1] == a[i + 1].(ts := b[i + 1].ts);
    }
    assert b[|b| - 1] == a[|b| - 1].(ts := b[|b| - 1].ts);
  }

  /** When the packets of a round are seen does not matter to its form. */
  lemma {:induction false} RoundSame(r: Round, r': Round)
    requires SameRound(r, r') && WellFormed(r) && NoCollision(StartIds(r.cmds), r.resps)
    ensures WellFormed(r') && NoCollision(StartIds(r'.cmds), r'.resps)
  {
    hide StartIds, IsResponse;
    StartIdsSame(r.cmds, r'.cmds);
    forall c | c in r'.cmds ensures IsCommand(c) {
      var i :| 0 <= i < |r'.cmds| && r'.cmds[i] == c;
      assert r.cmds[i] in r.cmds;
    }
    var starts := StartIds(r.cmds);
    forall i | 0 <= i < |r'.resps|
      ensures IsResponse(starts[i], r'.resps[i]) && r.resps[i] != [] && r'.resps[i] != []
      ensures EndId(r'.resps[i]) == EndId(r.resps[i])
    {
      assert IsResponse(starts[i], r.resps[i]);
      NonEmpty(starts[i], r.resps[i]);
      ResponseSame(starts[i], r.resps[i], r'.resps[i]);
    }
  }

  lemma {:induction false} NonEmpty(start: byte, resp: seq<LogicalPacket>)
    requires IsResponse(start, resp)
    ensures resp != []
  {
  }

  /** The packets cut into responses of the given sizes. */
  function CutLike(ps: seq<LogicalPacket>, like: seq<seq<LogicalPacket>>): seq<seq<LogicalPacket>>
    requires |ps| == |Flatten(like)|
  {
    if like == [] then []
    else [ps[..|like[0]|]] + CutLike(ps[|like[0]|..], like[1..])
  }

  lemma {:induction false} CutLikeSame(ps: seq<LogicalPacket>, like: seq<seq<LogicalPacket>>)
    requires SameButTime(Flatten(like), ps)
    ensures var cut := CutLike(ps, like);
            && Flatten(cut) == ps && |cut| == |like|
            && forall i | 0 <= i < |like| :: SameButTime(like[i], cut[i])
    decreases |like|
  {
    if like == [] {
      assert ps == [];
    } else {
      var n := |like[0]|;
      var a, b := ps[..n], ps[n..];
      SplitSame(like[0], Flatten(like[1..]), ps);
      CutLikeSame(b, like[1..]);
      var cut := CutLike(ps, like);
      assert cut == [a] + CutLike(b, like[1..]);
      assert cut[1..] == CutLike(b, like[1..]);
      assert a + b == ps;
      forall i | 0 <= i < |like| ensures SameButTime(like[i], cut[i]) {
        if i > 0 { assert SameButTime(like[1..][i - 1], CutLike(b, like[1..])[i - 1]); }
      }
    }
    hide SameButTime;
  }

  lemma {:induction false} SplitSame(a: seq<LogicalPacket>, b: seq<LogicalPacket>, ps: seq<LogicalPacket>)
    requires SameButTime(a + b, ps)
    ensures |a| <= |ps| && SameButTime(a, ps[..|a|]) && SameButTime(b, ps[|a|..])
  {
    forall i | 0 <= i < |a| ensures ps[i] == a[i].(ts := ps[i].ts) {
      assert (a + b)[i] == a[i];
    }
    forall i | 0 <= i < |b| ensures ps[|a| + i] == b[i].(ts := ps[|a| + i].ts) {
      assert (a + b)[|a| + i] == b[i];
    }
  }

  // ---------------------------------------------------------------------
  // Whole conversations
  // ---------------------------------------------------------------------

  /** A round, and the segments that carry its commands and its responses. */
  datatype WireRound = WireRound(round: Round, toServer: seq<Cut>, toClient: seq<Cut>)

  function CommandBytes(r: Round): seq<byte> {
    EncodeAll(MessagesOf(r.cmds))
  }

  function ResponseBytes(r: Round): seq<byte> {
    EncodeAll(MessagesOf(Flatten(r.resps)))
  }

  /** One direction of the connection: all bytes sent, and where reassembly is. */
  datatype Way = Way(bytes: seq<byte>, st: Stream) {
    function Past(n: nat): Way {
      this.(st := st.(nextRel := st.nextRel + n))
    }

    /** `b` comes next, in the segments `cuts`, all of which arrive. */
    ghost predicate Brings(b: seq<byte>, cuts: seq<Cut>) {
      SliceAt(bytes, st.nextRel, b) && Arrives(bytes, st, cuts, st.nextRel + |b|)
    }

    ghost function Chunks(cuts: seq<Cut>): seq<Chunk>
      requires forall c | c in cuts :: FitsIn(c, bytes)
    {
      Run(bytes, st, cuts).1
    }
  }

  ghost predicate RoundTravels(w: WireRound, out: Way, back: Way) {
    && WellFormed(w.round) && NoCollision(StartIds(w.round.cmds), w.round.resps)
    && Framed(w.round.cmds) && Framed(Flatten(w.round.resps))
    && out.Brings(CommandBytes(w.round), w.toServer) && back.Brings(ResponseBytes(w.round), w.toClient)
  }

  /** The commands of each round arrive before its responses, and those before
      the next round; within each the segments come in any order. */
  ghost predicate Travels(wire: seq<WireRound>, out: Way, back: Way)
    decreases |wire|
  {
    wire == [] ||
    (&& RoundTravels(wire[0], out, back)
     && Travels(wire[1..], out.Past(|CommandBytes(wire[0].round)|), back.Past(|ResponseBytes(wire[0].round)|)))
  }

  ghost function RoundInputs(w: WireRound, out: Way, back: Way): seq<Input>
    requires RoundTravels(w, out, back)
  {
    InputsOf(Client, out.Chunks(w.toServer)) + InputsOf(Server, back.Chunks(w.toClient))
  }

  ghost function WireInputs(wire: seq<WireRound>, out: Way, back: Way): seq<Input>
    requires Travels(wire, out, back)
    decreases |wire|
  {
    if wire == [] then []
    else
      RoundInputs(wire[0], out, back)
      + WireInputs(wire[1..], out.Past(|CommandBytes(wire[0].round)|), back.Past(|ResponseBytes(wire[0].round)|))
  }

  /** Between rounds: logged in, nothing in flight, nothing half read. */
  predicate AtRest(c: Conn) {
    Ready(c.dec) && c.dec.pending == [] && Clean(c.client) && Clean(c.server)
  }

  lemma {:induction false} JustOne(chunks: seq<Chunk>, c: Chunk)
    ensures Join([c]) == c.bytes && Further(chunks, [c]) == NewPackets(chunks, c)
  {
    assert [c][..0] == [] && [c] + [] == [c];
    FurtherCons(chunks, c, []);
    FurtherNil(chunks + [c]);
    hide Further, NewPackets;
  }

  /** The packets of a chunk in which an oversized packet follows another one. */
  lemma {:induction false} OversizedBehind(chunks: seq<Chunk>, ts: int, m: Message, big: Message)
    requires Clean(chunks) && |m.payload| <= MAX_LOGICAL_PACKET < |big.payload|
    ensures var c := Chunk(ts, Encode(m.payload, m.seqId) + Encode(big.payload, big.seqId));
            && Broken(chunks + [c]) && |NewPackets(chunks, c)| == 1
            && NewPackets(chunks, c)[0].payload == m.payload && NewPackets(chunks, c)[0].firstSeq == m.seqId
  {
    hide Decode, Encode, Clean, Further, NewPackets, LastSeq, Join, TsAt;
    var c := Chunk(ts, Encode(m.payload, m.seqId) + Encode(big.payload, big.seqId));
    var at := |Join(chunks)|;
    JustOne(chunks, c);
    WholeAppends(chunks, [c]);
    OversizedBreaks(m, big, at);
    FurtherIs(chunks, [c], [Joined(None, m.seqId, at, m.payload)]);
  }

  lemma {:induction false} QueryIsSent(d: Decoder, p: LogicalPacket, codec: Codec)
    requires Ready(d) && !d.queryAttrs && p.firstSeq == 0 && p.payload != [] && p.payload[0] == COM_QUERY
    ensures |SentByPackets(d, Client, [p], codec)| == 1
  {
    hide AfterPacket;
    assert [p][1..] == [];
  }

  /** A query, and in the same chunk a packet above the cap: the query is sent
      and never comes out. */
  lemma {:induction false} OversizedLosesAStatement(c: Conn, ts: int, sql: seq<byte>, big: Message, codec: Codec)
    requires AtRest(c) && !c.dec.queryAttrs && 1 + |sql| <= MAX_LOGICAL_PACKET < |big.payload|
    ensures var chunk := Chunk(ts, Encode([COM_QUERY] + sql, 0) + Encode(big.payload, big.seqId));
            var (c', out) := AfterInputs(c, [Input(Client, chunk)], codec);
            && |Discarded(c, [Input(Client, chunk)], codec)| == 1
            && out == [] && AfterFinish(c'.dec).1 == [] && c'.dec.disposition == BrokenStream
  {
    hide Clean, Encode, NewPackets, Broken, SentByPackets, AfterPackets;
    var m := Message(0, [COM_QUERY] + sql);
    var chunk := Chunk(ts, Encode(m.payload, m.seqId) + Encode(big.payload, big.seqId));
    OversizedBehind(c.client, ts, m, big);
    var ps := NewPackets(c.client, chunk);
    assert ps == [ps[0]];
    QueryIsSent(c.dec, ps[0], codec);
    EncodeNotEmpty(m);
    BytesBreak(c, Client, chunk, codec);
    var inputs := [Input(Client, chunk)];
    assert inputs[1..] == [];
    NoInputs(AfterBytes(c, Client, chunk, codec).0, codec);
    var none: seq<Event> := [];
    assert none + none == none;
  }

  lemma {:induction false} EncodeNotEmpty(m: Message)
    ensures Encode(m.payload, m.seqId) != []
  {
  }

  lemma {:induction false} CleanIsWhole(chunks: seq<Chunk>)
    requires Clean(chunks)
    ensures !Broken(chunks)
  {
  }

  /** Each packet, seen as one of `ps`, bears the time of a segment that carried
      its first byte; the packets lie in the stream from `start` on. */
  ghost predicate PacketsTimed(sent: seq<LogicalPacket>, ps: seq<LogicalPacket>, cuts: seq<Cut>, start: nat) {
    |ps| == |sent|
    && forall i | 0 <= i < |ps| :: TimeOf(cuts, start + |EncodeAll(MessagesOf(sent)[..i])|, ps[i].ts)
  }

  lemma {:induction false} BringsMeans(way: Way, b: seq<byte>, cuts: seq<Cut>)
    requires way.Brings(b, cuts)
    ensures Arrives(way.bytes, way.st, cuts, way.st.nextRel + |b|) && forall c | c in cuts :: FitsIn(c, way.bytes)
    ensures Consistent(way.bytes, way.st) && AllNear(way.bytes, way.st, cuts) && way.st.pending == map[]
    ensures way.bytes[way.st.nextRel..way.st.nextRel + |b|] == b
  {
    hide Run, AllNear, Consistent, LengthsAgree, Covered;
  }

  lemma {:induction false} BringsTimes(chunks: seq<Chunk>, way: Way, ps: seq<LogicalPacket>, cuts: seq<Cut>)
    requires Clean(chunks) && Framed(ps) && way.Brings(EncodeAll(MessagesOf(ps)), cuts)
    requires forall c | c in cuts :: FitsIn(c, way.bytes)
    requires |Further(chunks, way.Chunks(cuts))| == |ps|
    ensures PacketsTimed(ps, Further(chunks, way.Chunks(cuts)), cuts, way.st.nextRel)
  {
    hide Clean, EncodeAll, Further, Framed, Consistent, Arrives, AllNear, Run, TimeOf, TsAt;
    var b := EncodeAll(MessagesOf(ps));
    BringsMeans(way, b, cuts);
    ArrivedIs(way.bytes, way.st, cuts, way.st.nextRel + |b|);
    var cs := way.Chunks(cuts);
    assert Join(cs) == b;
    forall i | 0 <= i < |ps|
      ensures TimeOf(cuts, way.st.nextRel + |EncodeAll(MessagesOf(ps)[..i])|, Further(chunks, cs)[i].ts)
    {
      PacketTimes(chunks, cs, ps, i);
      DeliveredTimes(way.bytes, way.st, cuts, way.st.nextRel + |EncodeAll(MessagesOf(ps)[..i])|);
    }
  }

  /** The bytes a way brings come out as the packets they frame. */
  lemma {:induction false} BringsPackets(c: Conn, dir: Dir, way: Way, ps: seq<LogicalPacket>, cuts: seq<Cut>,
                                         codec: Codec)
    requires c.dec.Decoding() && Clean(c.client) && Clean(c.server)
    requires Framed(ps) && way.Brings(EncodeAll(MessagesOf(ps)), cuts)
    ensures var cs := way.Chunks(cuts);
            && Hears(c, dir, cs, codec) && Clean(Fed(c, dir) + cs)
            && SameButTime(ps, Further(Fed(c, dir), cs))
            && PacketsTimed(ps, Further(Fed(c, dir), cs), cuts, way.st.nextRel)
  {
    hide Run, AllNear, Clean, EncodeAll, Further, Hears, SameButTime, Framed, LengthsAgree, Consistent, PacketsTimed;
    ArrivedIs(way.bytes, way.st, cuts, way.st.nextRel + |EncodeAll(MessagesOf(ps))|);
    RunNoneEmpty(way.bytes, way.st, cuts);
    var cs := way.Chunks(cuts);
    BytesBecomePackets(Fed(c, dir), cs, ps);
    SameSize(ps, Further(Fed(c, dir), cs));
    BringsTimes(Fed(c, dir), way, ps, cuts);
    CleanIsWhole(Fed(c, dir) + cs);
    CleanIsWhole(Fed(c, Other(dir)));
    ChunksArePackets(c, dir, cs, codec);
  }

  lemma {:induction false} NoInputs(c: Conn, codec: Codec)
    ensures AfterInputs(c, [], codec) == (c, [])
  {
  }

  lemma {:induction false} InputsAppend(c: Conn, a: seq<Input>, b: seq<Input>, codec: Codec)
    ensures var (c1, out1) := AfterInputs(c, a, codec);
            var (c2, out2) := AfterInputs(c1, b, codec);
            AfterInputs(c, a + b, codec) == (c2, out1 + out2)
    decreases |a|
  {
    hide *;
    if a == [] {
      NoInputs(c, codec);
      assert a + b == b;
      var out := AfterInputs(c, b, codec).1;
      assert [] + out == out;
    } else {
      var i, rest := a[0], a[1..];
      assert a == [i] + rest && a + b == [i] + (rest + b);
      InputsStep(c, i, rest, codec);
      InputsStep(c, i, rest + b, codec);
      var (c1, out1) := AfterBytes(c, i.dir, i.chunk, codec);
      InputsAppend(c1, rest, b, codec);
      var (c2, out2) := AfterInputs(c1, rest, codec);
      var out3 := AfterInputs(c2, b, codec).1;
      assert out1 + (out2 + out3) == (out1 + out2) + out3;
    }
  }

  lemma {:induction false} HearsMeans(c: Conn, dir: Dir, cs: seq<Chunk>, codec: Codec)
    requires Hears(c, dir, cs, codec)
    ensures var (c', out) := AfterInputs(c, InputsOf(dir, cs), codec);
            && c'.dec == AfterPackets(c.dec, dir, Further(Fed(c, dir), cs), codec).0
            && out == AfterPackets(c.dec, dir, Further(Fed(c, dir), cs), codec).1
            && (c'.dec.Decoding() ==> Fed(c', dir) == Fed(c, dir) + cs && Fed(c', Other(dir)) == Fed(c, Other(dir)))
  {
    hide AfterInputs, AfterPackets, Further, InputsOf;
  }

  lemma {:induction false} RoundTravelsMeans(w: WireRound, out: Way, back: Way)
    requires RoundTravels(w, out, back)
    ensures WellFormed(w.round) && NoCollision(StartIds(w.round.cmds), w.round.resps)
    ensures Framed(w.round.cmds) && Framed(Flatten(w.round.resps))
    ensures out.Brings(EncodeAll(MessagesOf(w.round.cmds)), w.toServer)
    ensures back.Brings(EncodeAll(MessagesOf(Flatten(w.round.resps))), w.toClient)
    ensures forall c | c in w.toServer :: FitsIn(c, out.bytes)
    ensures forall c | c in w.toClient :: FitsIn(c, back.bytes)
    ensures RoundInputs(w, out, back)
         == InputsOf(Client, out.Chunks(w.toServer)) + InputsOf(Server, back.Chunks(w.toClient))
  {
    hide WellFormed, NoCollision, Framed, SliceAt, Consistent, AllNear, LengthsAgree, Run, StartIds, Flatten, EncodeAll;
  }

  lemma {:induction false} FedBoth(c: Conn)
    ensures Fed(c, Client) == c.client && Fed(c, Server) == c.server
    ensures Other(Client) == Server && Other(Server) == Client
  {
  }

  lemma {:induction false} ReadyDecodes(d: Decoder)
    requires Ready(d)
    ensures d.Decoding()
  {
  }

  lemma {:induction false} RestMeans(c: Conn)
    requires AtRest(c)
    ensures Ready(c.dec) && c.dec.pending == [] && Clean(c.client) && Clean(c.server)
  {
  }

  lemma {:induction false} MakeRest(c: Conn)
    requires Ready(c.dec) && c.dec.pending == [] && Clean(c.client) && Clean(c.server)
    ensures AtRest(c)
  {
  }

  lemma {:induction false} CommandsSame(r: Round, ps: seq<LogicalPacket>)
    requires SameButTime(r.cmds, ps) && WellFormed(r)
    ensures forall c | c in ps :: IsCommand(c)
  {
    hide StartIds;
    forall c | c in ps ensures IsCommand(c) {
      var i :| 0 <= i < |ps| && ps[i] == c;
      assert r.cmds[i] in r.cmds;
    }
  }

  lemma {:induction false} MakeSameRound(r: Round, ps: seq<LogicalPacket>, resps: seq<seq<LogicalPacket>>)
    requires SameButTime(r.cmds, ps) && |resps| == |r.resps|
    requires forall i | 0 <= i < |resps| :: SameButTime(r.resps[i], resps[i])
    ensures SameRound(r, Round(ps, resps))
  {
  }

  /** The commands of a round, from segments to requests in flight. */
  lemma {:induction false} CommandsHeard(c: Conn, w: WireRound, out: Way, back: Way, codec: Codec)
    returns (c1: Conn, ps: seq<LogicalPacket>)
    requires AtRest(c) && RoundTravels(w, out, back)
    requires forall x | x in w.toServer :: FitsIn(x, out.bytes)
    ensures AfterInputs(c, InputsOf(Client, out.Chunks(w.toServer)), codec) == (c1, [])
    ensures c1.dec == AfterPackets(c.dec, Client, ps, codec).0 && SameButTime(w.round.cmds, ps)
    ensures PacketsTimed(w.round.cmds, ps, w.toServer, out.st.nextRel)
    ensures c1.dec.Decoding() && Clean(c1.client) && Clean(c1.server)
  {
    hide *;
    RestMeans(c);
    ReadyDecodes(c.dec);
    FedBoth(c);
    RoundTravelsMeans(w, out, back);
    BringsPackets(c, Client, out, w.round.cmds, w.toServer, codec);
    var cs := out.Chunks(w.toServer);
    HearsMeans(c, Client, cs, codec);
    c1, ps := AfterInputs(c, InputsOf(Client, cs), codec).0, Further(c.client, cs);
    CommandsSame(w.round, ps);
    CommandsQueue(c.dec, ps, codec);
    ReadyDecodes(c1.dec);
    FedBoth(c1);
  }

  /** The responses of a round, from segments to packets. */
  lemma {:induction false} ResponsesHeard(c: Conn, w: WireRound, out: Way, back: Way, codec: Codec)
    returns (c1: Conn, evs: seq<Event>, qs: seq<LogicalPacket>)
    requires c.dec.Decoding() && Clean(c.client) && Clean(c.server) && RoundTravels(w, out, back)
    requires forall x | x in w.toClient :: FitsIn(x, back.bytes)
    ensures AfterInputs(c, InputsOf(Server, back.Chunks(w.toClient)), codec) == (c1, evs)
    ensures (c1.dec, evs) == AfterPackets(c.dec, Server, qs, codec) && SameButTime(Flatten(w.round.resps), qs)
    ensures PacketsTimed(Flatten(w.round.resps), qs, w.toClient, back.st.nextRel)
    ensures c1.dec.Decoding() ==> Clean(c1.client) && Clean(c1.server)
  {
    hide *;
    FedBoth(c);
    RoundTravelsMeans(w, out, back);
    BringsPackets(c, Server, back, Flatten(w.round.resps), w.toClient, codec);
    var cs := back.Chunks(w.toClient);
    HearsMeans(c, Server, cs, codec);
    qs := Further(c.server, cs);
    c1, evs := AfterInputs(c, InputsOf(Server, cs), codec).0, AfterInputs(c, InputsOf(Server, cs), codec).1;
    FedBoth(c1);
  }

  /** The packets of a round bear the times of the segments that carried them. */
  ghost predicate RoundTimed(w: WireRound, r: Round, out: Way, back: Way) {
    && PacketsTimed(w.round.cmds, r.cmds, w.toServer, out.st.nextRel)
    && PacketsTimed(Flatten(w.round.resps), Flatten(r.resps), w.toClient, back.st.nextRel)
  }

  lemma {:induction false} MakeRoundTimed(w: WireRound, r: Round, out: Way, back: Way)
    requires PacketsTimed(w.round.cmds, r.cmds, w.toServer, out.st.nextRel)
    requires PacketsTimed(Flatten(w.round.resps), Flatten(r.resps), w.toClient, back.st.nextRel)
    ensures RoundTimed(w, r, out, back)
  {
  }

  /** One round, from segments to events. */
  lemma {:induction false} RoundHeard(c: Conn, w: WireRound, out: Way, back: Way, codec: Codec)
    returns (r: Round, c2: Conn, evs: seq<Event>)
    requires AtRest(c) && RoundTravels(w, out, back)
    ensures SameRound(w.round, r) && WellFormed(r) && NoCollision(StartIds(r.cmds), r.resps)
    ensures RoundTimed(w, r, out, back)
    ensures AfterInputs(c, RoundInputs(w, out, back), codec) == (c2, evs) && AtRest(c2)
    ensures (c2.dec, evs) == AfterPackets(AfterPackets(c.dec, Client, r.cmds, codec).0, Server, Flatten(r.resps), codec)
  {
    hide *;
    RestMeans(c);
    RoundTravelsMeans(w, out, back);
    var c1, ps := CommandsHeard(c, w, out, back, codec);
    var qs;
    c2, evs, qs := ResponsesHeard(c1, w, out, back, codec);
    var a, b := InputsOf(Client, out.Chunks(w.toServer)), InputsOf(Server, back.Chunks(w.toClient));
    InputsAppend(c, a, b, codec);
    assert [] + evs == evs;
    SameSize(Flatten(w.round.resps), qs);
    CutLikeSame(qs, w.round.resps);
    r := Round(ps, CutLike(qs, w.round.resps));
    MakeSameRound(w.round, ps, r.resps);
    RoundSame(w.round, r);
    MakeRoundTimed(w, r, out, back);
    RoundMatchesIff(c.dec, r, codec);
    ReadyDecodes(c2.dec);
    MakeRest(c2);
  }

  lemma {:induction false} SameSize(a: seq<LogicalPacket>, b: seq<LogicalPacket>)
    requires SameButTime(a, b)
    ensures |a| == |b|
  {
  }

  predicate SameRounds(wire: seq<WireRound>, rounds: seq<Round>) {
    |rounds| == |wire| && forall i | 0 <= i < |wire| :: SameRound(wire[i].round, rounds[i])
  }

  ghost predicate RoundsTimed(wire: seq<WireRound>, rounds: seq<Round>, out: Way, back: Way)
    decreases |wire|
  {
    if wire == [] then rounds == []
    else
      && rounds != [] && RoundTimed(wire[0], rounds[0], out, back)
      && RoundsTimed(wire[1..], rounds[1..], out.Past(|CommandBytes(wire[0].round)|),
                     back.Past(|ResponseBytes(wire[0].round)|))
  }

  predicate AllMatch(rounds: seq<Round>) {
    forall r | r in rounds :: WellFormed(r) && NoCollision(StartIds(r.cmds), r.resps)
  }

  lemma {:induction false} WireStep(c: Conn, wire: seq<WireRound>, out: Way, back: Way, codec: Codec,
                                    r: Round, c2: Conn, evs: seq<Event>, rounds: seq<Round>)
    requires wire != [] && Travels(wire, out, back) && RoundTravels(wire[0], out, back)
    requires AfterInputs(c, RoundInputs(wire[0], out, back), codec) == (c2, evs)
    requires var d1 := AfterPackets(c.dec, Client, r.cmds, codec).0;
             (c2.dec, evs) == AfterPackets(d1, Server, Flatten(r.resps), codec)
    requires var out', back' := out.Past(|CommandBytes(wire[0].round)|), back.Past(|ResponseBytes(wire[0].round)|);
             && Travels(wire[1..], out', back')
             && AfterInputs(c2, WireInputs(wire[1..], out', back'), codec).1 == AfterRounds(c2.dec, rounds, codec).1
             && AtRest(AfterInputs(c2, WireInputs(wire[1..], out', back'), codec).0)
    ensures AfterInputs(c, WireInputs(wire, out, back), codec).1 == AfterRounds(c.dec, [r] + rounds, codec).1
    ensures AtRest(AfterInputs(c, WireInputs(wire, out, back), codec).0)
  {
    hide RoundTravels, RoundInputs, AfterInputs, AfterPackets, CommandBytes, ResponseBytes, Flatten, AtRest;
    var out', back' := out.Past(|CommandBytes(wire[0].round)|), back.Past(|ResponseBytes(wire[0].round)|);
    InputsAppend(c, RoundInputs(wire[0], out, back), WireInputs(wire[1..], out', back'), codec);
    assert ([r] + rounds)[1..] == rounds;
  }

  lemma {:induction false} WireRounds(c: Conn, wire: seq<WireRound>, out: Way, back: Way, codec: Codec)
    returns (rounds: seq<Round>)
    requires AtRest(c) && Travels(wire, out, back)
    ensures SameRounds(wire, rounds) && AllMatch(rounds) && RoundsTimed(wire, rounds, out, back)
    ensures AfterInputs(c, WireInputs(wire, out, back), codec).1 == AfterRounds(c.dec, rounds, codec).1
    ensures AtRest(AfterInputs(c, WireInputs(wire, out, back), codec).0)
    decreases |wire|
  {
    hide AtRest, RoundTravels, RoundInputs, AfterInputs, AfterPackets, CommandBytes, ResponseBytes, Flatten, WellFormed,
      StartIds, SameRound, NoCollision, RoundTimed;
    if wire == [] {
      rounds := [];
      NoInputs(c, codec);
    } else {
      var r, c2, evs := RoundHeard(c, wire[0], out, back, codec);
      var out', back' := out.Past(|CommandBytes(wire[0].round)|), back.Past(|ResponseBytes(wire[0].round)|);
      var rest := WireRounds(c2, wire[1..], out', back', codec);
      rounds := [r] + rest;
      assert rounds[1..] == rest;
      WireStep(c, wire, out, back, codec, r, c2, evs, rest);
    }
  }

  /** From the segments of both directions to the events: whatever the order,
      overlap and repetition of the segments within a round, every statement of
      the conversation comes out once, in send order, closed by the first packet
      of its own response; commands and responses bear the timestamps of the
      segments that carried their first bytes. */
  lemma {:induction false} SegmentsToEvents(c: Conn, wire: seq<WireRound>, out: Way, back: Way, codec: Codec)
    returns (rounds: seq<Round>)
    requires AtRest(c) && Travels(wire, out, back)
    ensures SameRounds(wire, rounds) && RoundsTimed(wire, rounds, out, back)
    ensures AllClosed(c.dec, rounds, AfterInputs(c, WireInputs(wire, out, back), codec).1, codec)
    ensures AtRest(AfterInputs(c, WireInputs(wire, out, back), codec).0)
  {
    hide *;
    rounds := WireRounds(c, wire, out, back, codec);
    RestMeans(c);
    AllMatchMeans(rounds);
    ConversationMatches(c.dec, rounds, codec);
  }

  lemma {:induction false} AllMatchMeans(rounds: seq<Round>)
    requires AllMatch(rounds)
    ensures forall r | r in rounds :: WellFormed(r) && NoCollision(StartIds(r.cmds), r.resps)
  {
  }
}
