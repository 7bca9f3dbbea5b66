/** A connection from its first byte: greeting, login and the rest of the
    authentication travel in any segments, and leave the decoder at rest, ready
    for the conversation. */
module Logins {
  import opened Bytes
  import opened TcpStream
  import opened Reassembly
  import opened Framing
  import opened Protocol
  import opened Matching
  import opened Connection
  import opened EngineSteps
  import opened Conversations

  /** Packets one side sends before the other side goes on, and the segments
      that carry them. */
  datatype Leg = Leg(dir: Dir, ps: seq<LogicalPacket>, cuts: seq<Cut>)

  /** The login response of a client the decoder can follow. */
  predicate Accepted(p: seq<byte>) {
    && |p| >= 4 && Has(U32(p, 0), CLIENT_PROTOCOL_41) && !Has(U32(p, 0), CLIENT_SSL)
    && !Has(U32(p, 0), CLIENT_COMPRESS) && !Has(U32(p, 0), CLIENT_ZSTD)
  }

  /** Both sides offered query attributes. */
  predicate BothTag(p: seq<byte>, serverCaps: u32) {
    |p| >= 4 && Has(U32(p, 0), CLIENT_QUERY_ATTRIBUTES) && Has(serverCaps, CLIENT_QUERY_ATTRIBUTES)
  }

  /** What follows a login in the same exchange: the server says anything, the
      client starts no command. */
  predicate IsAuth(leg: Leg) {
    leg.dir == Client ==> forall p | p in leg.ps :: p.firstSeq != 0
  }

  /** Greeting, login response, and the rest of the authentication. */
  predicate IsLogin(legs: seq<Leg>, codec: Codec) {
    && |legs| >= 2 && |legs[0].ps| == |legs[1].ps| == 1
    && legs[0].dir == Server && codec.greeting(legs[0].ps[0].payload).Some?
    && legs[1].dir == Client && Accepted(legs[1].ps[0].payload)
    && forall i | 2 <= i < |legs| :: IsAuth(legs[i])
  }

  function LegBytes(leg: Leg): seq<byte> {
    EncodeAll(MessagesOf(leg.ps))
  }

  /** Both directions of a connection. */
  datatype Ways = Ways(out: Way, back: Way) {
    function Of(dir: Dir): Way {
      match dir case Client => out case Server => back
    }

    function Past(leg: Leg): Ways {
      match leg.dir
      case Client => this.(out := out.Past(|LegBytes(leg)|))
      case Server => this.(back := back.Past(|LegBytes(leg)|))
    }
  }

  ghost predicate LegTravels(leg: Leg, ways: Ways) {
    Framed(leg.ps) && ways.Of(leg.dir).Brings(LegBytes(leg), leg.cuts)
  }

  /** Each leg arrives before the next one; within it the segments come in any
      order. */
  ghost predicate LegsTravel(legs: seq<Leg>, ways: Ways)
    decreases |legs|
  {
    legs == [] || (LegTravels(legs[0], ways) && LegsTravel(legs[1..], ways.Past(legs[0])))
  }

  function WaysAfter(legs: seq<Leg>, ways: Ways): Ways
    decreases |legs|
  {
    if legs == [] then ways else WaysAfter(legs[1..], ways.Past(legs[0]))
  }

  ghost function LegInputs(leg: Leg, ways: Ways): seq<Input>
    requires LegTravels(leg, ways)
  {
    InputsOf(leg.dir, ways.Of(leg.dir).Chunks(leg.cuts))
  }

  ghost function LegsInputs(legs: seq<Leg>, ways: Ways): seq<Input>
    requires LegsTravel(legs, ways)
    decreases |legs|
  {
    if legs == [] then [] else LegInputs(legs[0], ways) + LegsInputs(legs[1..], ways.Past(legs[0]))
  }

  predicate Idle(c: Conn) {
    c.dec.Decoding() && Clean(c.client) && Clean(c.server)
  }

  /** One leg, from segments to packets. */
  lemma {:induction false} LegHeard(c: Conn, leg: Leg, ways: Ways, codec: Codec)
    returns (c1: Conn, ps: seq<LogicalPacket>)
    requires Idle(c) && LegTravels(leg, ways)
    ensures c1 == AfterInputs(c, LegInputs(leg, ways), codec).0 && SameButTime(leg.ps, ps)
    ensures (c1.dec, AfterInputs(c, LegInputs(leg, ways), codec).1) == AfterPackets(c.dec, leg.dir, ps, codec)
    ensures c1.dec.Decoding() ==> Idle(c1)
  {
    hide AfterInputs, AfterPackets, Clean, Framed, SameButTime, EncodeAll, Further, Run, Consistent, AllNear,
      LengthsAgree;
    var cs := ways.Of(leg.dir).Chunks(leg.cuts);
    BringsPackets(c, leg.dir, ways.Of(leg.dir), leg.ps, leg.cuts, codec);
    HearsMeans(c, leg.dir, cs, codec);
    c1, ps := AfterInputs(c, InputsOf(leg.dir, cs), codec).0, Further(Fed(c, leg.dir), cs);
  }

  lemma {:induction false} OnePacket(d: Decoder, dir: Dir, ps: seq<LogicalPacket>, codec: Codec)
    requires |ps| == 1 && d.Decoding()
    ensures AfterPackets(d, dir, ps, codec) == AfterPacket(d, dir, ps[0], codec)
  {
    hide AfterPacket;
    var (d1, out1) := AfterPacket(d, dir, ps[0], codec);
    assert ps[1..] == [] && AfterPackets(d1, dir, [], codec) == (d1, []);
    assert out1 + [] == out1;
  }

  lemma {:induction false} GreetingOpens(d: Decoder, p: LogicalPacket, codec: Codec)
    requires d.phase == AwaitGreeting && d.Decoding() && codec.greeting(p.payload).Some?
    ensures var g := codec.greeting(p.payload).value;
            AfterPacket(d, Server, p, codec)
            == (d.(version := Some(g.version), threadId := Some(g.threadId), serverCaps := g.caps,
                   phase := AwaitLogin), [])
  {
  }

  lemma {:induction false} LoginOpens(d: Decoder, p: LogicalPacket, codec: Codec)
    requires d.phase == AwaitLogin && d.Decoding() && Accepted(p.payload)
    ensures var (d', out) := AfterPacket(d, Client, p, codec);
            && Ready(d') && d'.pending == d.pending && out == []
            && (d'.user, d'.db) == codec.identity(p.payload) && d'.threadId == d.threadId && d'.version == d.version
            && d'.queryAttrs == BothTag(p.payload, d.serverCaps)
  {
    hide Has, U32;
  }

  /** The rest of the authentication is passed over. */
  lemma {:induction false} AuthPasses(d: Decoder, dir: Dir, ps: seq<LogicalPacket>, codec: Codec)
    requires Ready(d) && d.pending == [] && (dir == Client ==> forall p | p in ps :: p.firstSeq != 0)
    ensures var (d', out) := AfterPackets(d, dir, ps, codec);
            out == [] && d' == d.(contSeq := d'.contSeq)
    decreases |ps|
  {
    if ps != [] {
      var (d1, out1) := AfterPacket(d, dir, ps[0], codec);
      assert ps[0] in ps;
      assert out1 == [] && d1 == d.(contSeq := d1.contSeq);
      AuthPasses(d1, dir, ps[1..], codec);
    }
    hide AfterCommand, Next;
  }

  lemma {:induction false} SameFirstSeq(a: seq<LogicalPacket>, b: seq<LogicalPacket>)
    requires SameButTime(a, b) && forall p | p in a :: p.firstSeq != 0
    ensures forall p | p in b :: p.firstSeq != 0
  {
    forall p | p in b ensures p.firstSeq != 0 {
      var i :| 0 <= i < |b| && b[i] == p;
      assert a[i] in a && b[i] == a[i].(ts := b[i].ts);
    }
  }

  lemma {:induction false} LegsStep(c: Conn, legs: seq<Leg>, ways: Ways, codec: Codec)
    requires legs != [] && LegsTravel(legs, ways)
    ensures LegTravels(legs[0], ways) && LegsTravel(legs[1..], ways.Past(legs[0]))
    ensures WaysAfter(legs, ways) == WaysAfter(legs[1..], ways.Past(legs[0]))
    ensures var (c1, out1) := AfterInputs(c, LegInputs(legs[0], ways), codec);
            var (c2, out2) := AfterInputs(c1, LegsInputs(legs[1..], ways.Past(legs[0])), codec);
            AfterInputs(c, LegsInputs(legs, ways), codec) == (c2, out1 + out2)
  {
    hide AfterInputs, LegTravels, LegInputs;
    InputsAppend(c, LegInputs(legs[0], ways), LegsInputs(legs[1..], ways.Past(legs[0])), codec);
  }

  lemma {:induction false} LegsEnd(c: Conn, ways: Ways, codec: Codec)
    ensures LegsTravel([], ways) && AfterInputs(c, LegsInputs([], ways), codec) == (c, [])
  {
  }

  lemma {:induction false} ReadyIdle(c: Conn)
    ensures AtRest(c) <==> Idle(c) && Ready(c.dec) && c.dec.pending == []
  {
  }

  lemma {:induction false} AuthRests(c: Conn, legs: seq<Leg>, ways: Ways, codec: Codec)
    requires AtRest(c) && LegsTravel(legs, ways) && forall i | 0 <= i < |legs| :: IsAuth(legs[i])
    ensures var (c', out) := AfterInputs(c, LegsInputs(legs, ways), codec);
            AtRest(c') && out == [] && c'.dec == c.dec.(contSeq := c'.dec.contSeq)
    decreases |legs|
  {
    hide AfterInputs, AfterPackets, LegTravels, LegInputs, LegsInputs, LegsTravel, AtRest, Idle, SameButTime;
    if legs == [] {
      LegsEnd(c, ways, codec);
    } else {
      LegsStep(c, legs, ways, codec);
      ReadyIdle(c);
      var c1, ps := LegHeard(c, legs[0], ways, codec);
      if legs[0].dir == Client { SameFirstSeq(legs[0].ps, ps); }
      AuthPasses(c.dec, legs[0].dir, ps, codec);
      ReadyIdle(c1);
      AuthRests(c1, legs[1..], ways.Past(legs[0]), codec);
    }
  }

  lemma {:induction false} FirstIs(a: seq<LogicalPacket>, b: seq<LogicalPacket>)
    requires SameButTime(a, b) && |a| == 1
    ensures |b| == 1 && b[0].payload == a[0].payload
  {
  }

  lemma {:induction false} FreshIsIdle()
    ensures Idle(FRESH)
  {
    DecodeStep([], None, 0);
  }

  /** From the segments of a login to a decoder at rest, which knows the
      server's greeting and who logged in. */
  lemma {:induction false} LoginRests(legs: seq<Leg>, ways: Ways, codec: Codec)
    requires IsLogin(legs, codec) && LegsTravel(legs, ways)
    ensures var (c, out) := AfterInputs(FRESH, LegsInputs(legs, ways), codec);
            var g := codec.greeting(legs[0].ps[0].payload).value;
            && AtRest(c) && out == []
            && c.dec.version == Some(g.version) && c.dec.threadId == Some(g.threadId)
            && (c.dec.user, c.dec.db) == codec.identity(legs[1].ps[0].payload)
            && c.dec.queryAttrs == BothTag(legs[1].ps[0].payload, g.caps)
  {
    FreshIsIdle();
    hide AfterInputs, AfterPackets, AfterPacket, LegTravels, LegInputs, LegsInputs, LegsTravel, AtRest, Idle, Accepted,
      SameButTime, WaysAfter, BothTag;
    LegsStep(FRESH, legs, ways, codec);
    var c1, gs := LegHeard(FRESH, legs[0], ways, codec);
    FirstIs(legs[0].ps, gs);
    OnePacket(FRESH.dec, Server, gs, codec);
    GreetingOpens(FRESH.dec, gs[0], codec);
    LegsStep(c1, legs[1..], ways.Past(legs[0]), codec);
    var c2, ls := LegHeard(c1, legs[1], ways.Past(legs[0]), codec);
    FirstIs(legs[1].ps, ls);
    OnePacket(c1.dec, Client, ls, codec);
    LoginOpens(c1.dec, ls[0], codec);
    ReadyIdle(c2);
    assert legs[1..][1..] == legs[2..];
    AuthRests(c2, legs[2..], ways.Past(legs[0]).Past(legs[1]), codec);
  }

  /** From the first byte of a connection: the events are those of its
      statements, each closed by its own response, and none is left to flush. */
  lemma {:induction false} ConnectionToEvents(legs: seq<Leg>, wire: seq<WireRound>, ways: Ways, codec: Codec)
    returns (start: Decoder, rounds: seq<Round>)
    requires IsLogin(legs, codec) && LegsTravel(legs, ways)
    requires Travels(wire, WaysAfter(legs, ways).out, WaysAfter(legs, ways).back)
    ensures start == AfterInputs(FRESH, LegsInputs(legs, ways), codec).0.dec && start.pending == []
    ensures (start.user, start.db) == codec.identity(legs[1].ps[0].payload)
    ensures SameRounds(wire, rounds) && RoundsTimed(wire, rounds, WaysAfter(legs, ways).out, WaysAfter(legs, ways).back)
    ensures var w := WaysAfter(legs, ways);
            var inputs := LegsInputs(legs, ways) + WireInputs(wire, w.out, w.back);
            var (c, evs) := AfterInputs(FRESH, inputs, codec);
            AllClosed(start, rounds, evs, codec) && AfterFinish(c.dec).1 == []
  {
    hide *;
    LoginRests(legs, ways, codec);
    var w := WaysAfter(legs, ways);
    var c := AfterInputs(FRESH, LegsInputs(legs, ways), codec).0;
    start := c.dec;
    RestMeans(c);
    InputsAppend(FRESH, LegsInputs(legs, ways), WireInputs(wire, w.out, w.back), codec);
    rounds := SegmentsToEvents(c, wire, w.out, w.back, codec);
    var (c2, evs) := AfterInputs(c, WireInputs(wire, w.out, w.back), codec);
    assert [] + evs == evs;
    RestMeans(c2);
    NothingToFlush(c2.dec);
  }

  lemma {:induction false} NothingToFlush(d: Decoder)
    requires Ready(d) && d.pending == []
    ensures AfterFinish(d).1 == []
  {
  }
}
