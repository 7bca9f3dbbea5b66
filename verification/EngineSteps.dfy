/** What one captured segment does to the packet-level engine, as a function
    of the engine's state, and what it does to its own flow. */
module EngineSteps {
  import opened Bytes
  import opened TcpStream
  import opened Protocol
  import opened Connection

  datatype Endpoint = Endpoint(addr: seq<byte>, port: nat)

  datatype FlowKey = FlowKey(client: Endpoint, server: Endpoint)

  datatype TcpSegment = TcpSegment(
    src: Endpoint, dst: Endpoint, seqNo: u32, syn: bool, fin: bool, ack: bool, rst: bool, payload: seq<byte>)

  /** A segment with its capture time; `truncated` when the capture cut it short. */
  datatype Captured = Captured(ts: int, seg: TcpSegment, truncated: bool)

  /** `finished` marks a tombstone kept for late retransmissions. */
  datatype ConnState = ConnState(
    conn: Conn, c2s: Stream, s2c: Stream, sessionId: Option<nat>,
    finClient: bool, finServer: bool, finished: bool)

  const FRESH_STATE := ConnState(FRESH, TcpStream.NEW, TcpStream.NEW, None, false, false, false)

  /** Outside the range of MySQL thread ids. */
  const SYNTHETIC_BASE: nat := 0x1_0000_0000_0000

  datatype Counters = Counters(
    packets: nat, truncated: nat, connections: nat,
    decoded: nat, tls: nat, compressed: nat, midstream: nat, broken: nat,
    expanded: nat, inexpandable: nat, ignored: nat, missing: nat)

  const NOTHING_COUNTED := Counters(0, 0, 0, 0, 0, 0, 0, 0, 0, 0, 0, 0)

  type Conns = map<FlowKey, ConnState>

  type Serials = map<FlowKey, nat>

  /** The engine's fields; the events sunk, each with its session id; and, by
      order of appearance, the flow of each connection and what it was fed. */
  datatype EngineState = EngineState(
    conns: Conns, used: set<nat>, syntheticNext: nat, stats: Counters, evbuf: seq<Event>,
    sunk: seq<(nat, Event)>, serial: Serials, flows: seq<FlowKey>, inputs: seq<seq<Input>>)
  {
    /** Every tracked connection has a number and a list of inputs. */
    ghost predicate Booked() {
      serial.Keys == conns.Keys && |flows| == |inputs| && forall k | k in serial :: serial[k] < |inputs|
    }
  }

  const IDLE := EngineState(map[], {}, SYNTHETIC_BASE, NOTHING_COUNTED, [], [], map[], [], [])

  // ---------------------------------------------------------------------
  // One connection
  // ---------------------------------------------------------------------

  lemma {:induction false} InputsSnoc(c: Conn, inputs: seq<Input>, i: Input, codec: Codec)
    ensures var (c1, out1) := AfterInputs(c, inputs, codec);
            var (c2, out2) := AfterBytes(c1, i.dir, i.chunk, codec);
            AfterInputs(c, inputs + [i], codec).0 == c2 && AfterInputs(c, inputs + [i], codec).1 == out1 + out2
    decreases |inputs|
  {
    hide AfterBytes;
    if inputs == [] {
      assert [i][1..] == [];
      assert inputs + [i] == [i];
      var out2 := AfterBytes(c, i.dir, i.chunk, codec).1;
      assert out2 + [] == out2 == [] + out2;
    } else {
      assert (inputs + [i])[1..] == inputs[1..] + [i];
      var (c1, out1) := AfterBytes(c, inputs[0].dir, inputs[0].chunk, codec);
      InputsSnoc(c1, inputs[1..], i, codec);
      var (c2, out2) := AfterInputs(c1, inputs[1..], codec);
      var out3 := AfterBytes(c2, i.dir, i.chunk, codec).1;
      assert out1 + (out2 + out3) == (out1 + out2) + out3;
    }
  }

  function InputsOf(dir: Dir, chunks: seq<Chunk>): (r: seq<Input>)
    ensures |r| == |chunks| && forall i | 0 <= i < |r| :: r[i] == Input(dir, chunks[i])
  {
    seq(|chunks|, i requires 0 <= i < |chunks| => Input(dir, chunks[i]))
  }

  /** The segment reassembled into its direction of the connection. */
  function Reassembled(c: ConnState, dir: Dir, cap: Captured): (ConnState, seq<Chunk>) {
    var stream := if dir == Client then c.c2s else c.s2c;
    var synced := if cap.seg.syn then AfterSyn(stream, cap.seg.seqNo) else stream;
    var (stream', chunks) := AfterData(synced, Segment(cap.ts, cap.seg.seqNo, cap.seg.payload));
    (if dir == Client then c.(c2s := stream') else c.(s2c := stream'), chunks)
  }

  function Closing(c: ConnState, dir: Dir, fin: bool): ConnState {
    if dir == Client then c.(finClient := c.finClient || fin) else c.(finServer := c.finServer || fin)
  }

  predicate Lost(c: ConnState) {
    c.c2s.overflow || c.s2c.overflow
  }

  /** Reset, closed from both ends, or beyond decoding. */
  predicate Over(c: ConnState, rst: bool) {
    rst || (c.finClient && c.finServer) || c.conn.dec.disposition != Active || Lost(c)
  }

  /** The SYN of the connection already tracked, sent again. */
  predicate RepeatsSyn(c: ConnState, seqNo: u32) {
    !c.finished && c.c2s.started && c.c2s.isn == (seqNo + 1) % TWO32
  }

  predicate FreshSyn(dir: Dir, seg: TcpSegment) {
    seg.syn && !seg.ack && dir == Client
  }

  // ---------------------------------------------------------------------
  // The engine
  // ---------------------------------------------------------------------

  /** The server is the end on the MySQL port; the sender, when both are. */
  function Route(seg: TcpSegment, port: nat): Option<(FlowKey, Dir)> {
    if seg.src.port == port then Some((FlowKey(seg.dst, seg.src), Server))
    else if seg.dst.port == port then Some((FlowKey(seg.src, seg.dst), Client))
    else None
  }

  function Noted(s: Counters, truncated: bool): Counters {
    s.(packets := s.packets + 1, truncated := s.truncated + if truncated then 1 else 0)
  }

  /** A connection over in exactly one way; loss makes it broken. */
  function Disposing(s: Counters, disposition: Disposition, lost: bool): Counters {
    match disposition
    case Active => if lost then s.(broken := s.broken + 1) else s.(decoded := s.decoded + 1)
    case Tls => s.(tls := s.tls + 1)
    case Compressed => s.(compressed := s.compressed + 1)
    case BadHandshake => s.(midstream := s.midstream + 1)
    case BrokenStream => s.(broken := s.broken + 1)
  }

  function Summed(s: Counters, d: Stats): Counters {
    s.(expanded := s.expanded + d.expanded, inexpandable := s.inexpandable + d.inexpandable,
       ignored := s.ignored + d.ignored, missing := s.missing + d.missing)
  }

  /** The thread id if nobody has it; else the next synthetic id. */
  function FreeId(preferred: Option<u32>, used: set<nat>, syntheticNext: nat): (nat, nat) {
    if preferred.Some? && preferred.value !in used then (preferred.value, syntheticNext)
    else (syntheticNext, syntheticNext + 1)
  }

  function Assigned(st: EngineState, key: FlowKey): EngineState
    requires key in st.conns
  {
    var c := st.conns[key];
    if c.sessionId.Some? then st
    else
      var (sid, next) := FreeId(c.conn.dec.threadId, st.used, st.syntheticNext);
      st.(conns := st.conns[key := c.(sessionId := Some(sid))], used := st.used + {sid}, syntheticNext := next)
  }

  function WithId(sid: nat, evs: seq<Event>): (r: seq<(nat, Event)>)
    ensures |r| == |evs| && forall i | 0 <= i < |r| :: r[i] == (sid, evs[i])
  {
    seq(|evs|, i requires 0 <= i < |evs| => (sid, evs[i]))
  }

  /** The buffered events sunk under the id of `key`. */
  function Sinking(st: EngineState, key: FlowKey): EngineState
    requires key in st.conns
  {
    if st.evbuf == [] then st
    else
      var st1 := Assigned(st, key);
      st1.(sunk := st1.sunk + WithId(st1.conns[key].sessionId.value, st1.evbuf), evbuf := [])
  }

  /** The connection flushed and sunk. */
  function Flushed(st: EngineState, key: FlowKey): EngineState
    requires key in st.conns
  {
    var c := st.conns[key];
    var (dec, flushed) := AfterFinish(c.conn.dec);
    var c1 := c.(conn := c.conn.(dec := dec), finished := true);
    Sinking(st.(conns := st.conns[key := c1], evbuf := st.evbuf + flushed), key)
  }

  /** The connection flushed, sunk and counted. */
  function Buried(st: EngineState, key: FlowKey): EngineState
    requires key in st.conns
  {
    var c := st.conns[key];
    if c.finished then st
    else
      var st1, dec := Flushed(st, key), AfterFinish(c.conn.dec).0;
      st1.(stats := Summed(Disposing(st1.stats, dec.disposition, Lost(c)), dec.stats))
  }

  function Forgotten(st: EngineState, key: FlowKey): EngineState {
    st.(conns := st.conns - {key}, serial := st.serial - {key})
  }

  /** A connection seen for the first time gets the next number. */
  function Admitted(st: EngineState, key: FlowKey): EngineState {
    st.(conns := st.conns[key := FRESH_STATE], serial := st.serial[key := |st.inputs|],
        flows := st.flows + [key], inputs := st.inputs + [[]],
        stats := st.stats.(connections := st.stats.connections + 1))
  }

  /** A fresh SYN starts a new connection unless it repeats the last one. */
  function Replaced(st: EngineState, key: FlowKey, seqNo: u32): EngineState
    requires key in st.conns
  {
    if RepeatsSyn(st.conns[key], seqNo) then st else Forgotten(Buried(st, key), key)
  }

  function Tracking(st: EngineState, key: FlowKey, dir: Dir, seg: TcpSegment): EngineState {
    var st1 := if FreshSyn(dir, seg) && key in st.conns then Replaced(st, key, seg.seqNo) else st;
    if key in st1.conns then st1 else Admitted(st1, key)
  }

  /** The decoder of `key` takes inputs. */
  function Decoded(st: EngineState, key: FlowKey, ins: seq<Input>, codec: Codec): EngineState
    requires st.Booked() && key in st.conns
  {
    var c, n := st.conns[key], st.serial[key];
    var (conn, evs) := AfterInputs(c.conn, ins, codec);
    st.(conns := st.conns[key := c.(conn := conn)], inputs := st.inputs[n := st.inputs[n] + ins],
        evbuf := st.evbuf + evs)
  }

  /** The live connection `key` hears a segment. */
  function Delivered(st: EngineState, key: FlowKey, dir: Dir, cap: Captured, codec: Codec): EngineState
    requires st.Booked() && key in st.conns
  {
    var (c, chunks) := Reassembled(st.conns[key], dir, cap);
    Decoded(st.(conns := st.conns[key := c]), key, InputsOf(dir, chunks), codec)
  }

  function Settled(st: EngineState, key: FlowKey, dir: Dir, fin: bool, rst: bool): EngineState
    requires key in st.conns
  {
    var c := Closing(st.conns[key], dir, fin);
    var st1 := st.(conns := st.conns[key := c]);
    if Over(c, rst) then Buried(st1, key) else Sinking(st1, key)
  }

  lemma {:induction false} TrackingBooks(st: EngineState, key: FlowKey, dir: Dir, seg: TcpSegment)
    requires st.Booked()
    ensures var st1 := Tracking(st, key, dir, seg); st1.Booked() && key in st1.conns
  {
    hide AfterFinish, Disposing, Summed, RepeatsSyn, FreshSyn;
  }

  lemma {:induction false} SettledBooks(st: EngineState, key: FlowKey, dir: Dir, fin: bool, rst: bool)
    requires st.Booked() && key in st.conns
    ensures Settled(st, key, dir, fin, rst).Booked()
  {
    hide AfterFinish, Disposing, Summed, Over;
  }

  /** The route taken by a segment of the MySQL port. */
  function AfterRouted(st: EngineState, key: FlowKey, dir: Dir, cap: Captured, codec: Codec): EngineState
    requires st.Booked()
  {
    TrackingBooks(st, key, dir, cap.seg);
    var st1 := Tracking(st, key, dir, cap.seg);
    if st1.conns[key].finished then st1
    else Settled(Delivered(st1, key, dir, cap, codec), key, dir, cap.seg.fin, cap.seg.rst)
  }

  function AfterSegment(st: EngineState, cap: Captured, port: nat, codec: Codec): EngineState
    requires st.Booked()
  {
    match Route(cap.seg, port)
    case None => st
    case Some((key, dir)) =>
      AfterRouted(st.(stats := Noted(st.stats, cap.truncated)), key, dir, cap, codec)
  }

  lemma {:induction false} SegmentBooks(st: EngineState, cap: Captured, port: nat, codec: Codec)
    requires st.Booked()
    ensures AfterSegment(st, cap, port, codec).Booked()
  {
    hide Tracking, Settled, AfterInputs, Reassembled, InputsOf, Noted;
    if Route(cap.seg, port).Some? {
      var (key, dir) := Route(cap.seg, port).value;
      var st0 := st.(stats := Noted(st.stats, cap.truncated));
      TrackingBooks(st0, key, dir, cap.seg);
      var st1 := Tracking(st0, key, dir, cap.seg);
      SettledBooks(Delivered(st1, key, dir, cap, codec), key, dir, cap.seg.fin, cap.seg.rst);
    }
  }

  function AfterSegments(st: EngineState, caps: seq<Captured>, port: nat, codec: Codec): (r: EngineState)
    requires st.Booked()
    ensures r.Booked()
  {
    if caps == [] then st
    else
      var n := |caps| - 1;
      var st1 := AfterSegments(st, caps[..n], port, codec);
      SegmentBooks(st1, caps[n], port, codec);
      AfterSegment(st1, caps[n], port, codec)
  }

  /** End of file: bury and forget in the given order. */
  function AllBuried(st: EngineState, order: seq<FlowKey>): EngineState {
    if order == [] then st
    else
      var n := |order| - 1;
      var st1 := AllBuried(st, order[..n]);
      if order[n] in st1.conns then Forgotten(Buried(st1, order[n]), order[n]) else st1
  }

  lemma {:induction false} BuriedSnoc(st: EngineState, order: seq<FlowKey>, key: FlowKey)
    requires key in AllBuried(st, order).conns
    ensures AllBuried(st, order + [key]) == Forgotten(Buried(AllBuried(st, order), key), key)
  {
    assert (order + [key])[..|order|] == order;
    hide Buried, Forgotten;
  }

  lemma {:induction false} BuriedKeeps(st: EngineState, key: FlowKey)
    requires key in st.conns
    ensures var st1 := Buried(st, key);
            st1.inputs == st.inputs && st1.flows == st.flows && st1.serial == st.serial
                && st1.stats.connections == st.stats.connections
            && (st.conns[key].finished ==> st1 == st)
  {
    hide AfterFinish;
  }

  lemma {:induction false} FlushedDecoder(st: EngineState, key: FlowKey)
    requires key in st.conns
    ensures var st1 := Flushed(st, key);
            key in st1.conns && st1.conns[key].conn.dec == AfterFinish(st.conns[key].conn.dec).0
            && st1.stats == st.stats
  {
    hide AfterFinish, FreeId, WithId;
  }

  lemma {:induction false} DecodedNothing(st: EngineState, key: FlowKey, codec: Codec)
    requires st.Booked() && key in st.conns
    ensures Decoded(st, key, [], codec) == st
  {
    assert AfterInputs(st.conns[key].conn, [], codec) == (st.conns[key].conn, []);
    var n := st.serial[key];
    assert st.inputs[n] + [] == st.inputs[n] && st.inputs[n := st.inputs[n]] == st.inputs;
    assert st.evbuf + [] == st.evbuf && st.conns[key := st.conns[key]] == st.conns;
  }

  /** One more input. */
  lemma {:induction false} DecodedSnoc(st: EngineState, key: FlowKey, ins: seq<Input>, i: Input, codec: Codec)
    requires st.Booked() && key in st.conns
    ensures var st1 := Decoded(st, key, ins, codec);
            var (conn, evs) := AfterBytes(st1.conns[key].conn, i.dir, i.chunk, codec);
            Decoded(st, key, ins + [i], codec)
            == st1.(conns := st1.conns[key := st1.conns[key].(conn := conn)], evbuf := st1.evbuf + evs,
                    inputs := st1.inputs[st.serial[key] := st1.inputs[st.serial[key]] + [i]])
  {
    hide AfterBytes, AfterInputs;
    var c, n := st.conns[key], st.serial[key];
    InputsSnoc(c.conn, ins, i, codec);
    var (conn1, out1) := AfterInputs(c.conn, ins, codec);
    var out2 := AfterBytes(conn1, i.dir, i.chunk, codec).1;
    assert st.evbuf + (out1 + out2) == (st.evbuf + out1) + out2;
    assert (st.inputs[n] + ins) + [i] == st.inputs[n] + (ins + [i]);
    var conns1, ins1 := st.conns[key := c.(conn := conn1)], st.inputs[n := st.inputs[n] + ins];
    var conn2 := AfterBytes(conn1, i.dir, i.chunk, codec).0;
    assert conns1[key := conns1[key].(conn := conn2)] == st.conns[key := c.(conn := conn2)];
    assert ins1[n := ins1[n] + [i]] == st.inputs[n := st.inputs[n] + (ins + [i])];
  }
}
