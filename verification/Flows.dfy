/** Flows do not disturb each other: what the engine does for a pair of
    endpoints is decided by the segments of that pair alone, however the
    capture interleaves them with others. */
module Flows {
  import opened Bytes
  import opened TcpStream
  import opened Protocol
  import opened Connection
  import opened EngineSteps

  /** The connection tracked for a flow, its session id aside, and what each of
      the flow's connections was fed, oldest first. */
  datatype Track = Track(cur: Option<ConnState>, feeds: seq<seq<Input>>)

  const UNSEEN := Track(None, [])

  /** What the connections of one flow were fed. */
  function Feeds(flows: seq<FlowKey>, inputs: seq<seq<Input>>, key: FlowKey): seq<seq<Input>>
    requires |flows| == |inputs|
  {
    if flows == [] then []
    else
      var n := |flows| - 1;
      Feeds(flows[..n], inputs[..n], key) + if flows[n] == key then [inputs[n]] else []
  }

  ghost function TrackOf(st: EngineState, key: FlowKey): Track
    requires st.Booked()
  {
    Track(if key in st.conns then Some(st.conns[key].(sessionId := None)) else None,
          Feeds(st.flows, st.inputs, key))
  }

  /** The track of a flow about to hear a segment. */
  function Tracked(t: Track, dir: Dir, seg: TcpSegment): Track {
    if t.cur.None? || (FreshSyn(dir, seg) && !RepeatsSyn(t.cur.value, seg.seqNo))
    then Track(Some(FRESH_STATE), t.feeds + [[]]) else t
  }

  /** A flow by itself: what a segment does to its track. */
  function AfterHeard(t: Track, dir: Dir, cap: Captured, codec: Codec): Track {
    var t1 := Tracked(t, dir, cap.seg);
    if t1.cur.value.finished || t1.feeds == [] then t1
    else
      var (c, ins) := Heard(t1.cur.value, dir, cap, codec);
      var n := |t1.feeds| - 1;
      Track(Some(if Over(c, cap.seg.rst) then Ended(c) else c), t1.feeds[n := t1.feeds[n] + ins])
  }

  /** A live connection after a segment, and what its decoder was fed. */
  function Heard(c: ConnState, dir: Dir, cap: Captured, codec: Codec): (ConnState, seq<Input>) {
    var (c1, chunks) := Reassembled(c, dir, cap);
    var ins := InputsOf(dir, chunks);
    (Closing(c1.(conn := AfterInputs(c1.conn, ins, codec).0), dir, cap.seg.fin), ins)
  }

  function Ended(c: ConnState): ConnState {
    if c.finished then c else c.(conn := c.conn.(dec := AfterFinish(c.conn.dec).0), finished := true)
  }

  /** The segments of one flow, in capture order. */
  function Own(caps: seq<Captured>, port: nat, key: FlowKey): seq<(Dir, Captured)> {
    if caps == [] then []
    else
      var n := |caps| - 1;
      var route := Route(caps[n].seg, port);
      Own(caps[..n], port, key)
      + if route.Some? && route.value.0 == key then [(route.value.1, caps[n])] else []
  }

  function AfterOwn(own: seq<(Dir, Captured)>, codec: Codec): Track {
    if own == [] then UNSEEN
    else var n := |own| - 1; AfterHeard(AfterOwn(own[..n], codec), own[n].0, own[n].1, codec)
  }

  // ---------------------------------------------------------------------
  // Feeds
  // ---------------------------------------------------------------------

  /** `n` is the last connection of its flow. */
  ghost predicate LastOf(flows: seq<FlowKey>, key: FlowKey, n: nat) {
    n < |flows| && flows[n] == key && forall m | n < m < |flows| :: flows[m] != key
  }

  lemma {:induction false} FeedsSnoc(flows: seq<FlowKey>, inputs: seq<seq<Input>>, f: FlowKey, i: seq<Input>,
                                     key: FlowKey)
    requires |flows| == |inputs|
    ensures Feeds(flows + [f], inputs + [i], key) == Feeds(flows, inputs, key) + if f == key then [i] else []
  {
    assert (flows + [f])[..|flows|] == flows && (inputs + [i])[..|inputs|] == inputs;
  }

  lemma {:induction false} FeedsUpdate(flows: seq<FlowKey>, inputs: seq<seq<Input>>, n: nat, x: seq<Input>,
                                       key: FlowKey)
    requires |flows| == |inputs| && n < |flows| && LastOf(flows, flows[n], n)
    ensures var feeds := Feeds(flows, inputs, key);
            && (key == flows[n] ==> feeds != [] && feeds[|feeds| - 1] == inputs[n])
            && Feeds(flows, inputs[n := x], key) == if key == flows[n] then feeds[|feeds| - 1 := x] else feeds
  {
    var m := |flows| - 1;
    if n < m {
      assert inputs[n := x][..m] == inputs[..m][n := x];
      FeedsUpdate(flows[..m], inputs[..m], n, x, key);
      assert flows[m] != flows[n];
    } else {
      assert inputs[n := x][..m] == inputs[..m];
    }
  }

  // ---------------------------------------------------------------------
  // Steps of the engine
  // ---------------------------------------------------------------------

  /** Each tracked connection is the latest of its flow. */
  ghost predicate Latest(st: EngineState) {
    st.Booked() && forall k | k in st.serial :: LastOf(st.flows, k, st.serial[k])
  }

  /** Flow `key` comes to have the track `t`, and the others stay. */
  ghost predicate Moves(st: EngineState, st': EngineState, key: FlowKey, t: Track) {
    && Latest(st) && Latest(st') && TrackOf(st', key) == t
    && forall k: FlowKey | k != key :: TrackOf(st', k) == TrackOf(st, k)
  }

  /** Only the books of `key` differ, and its number and feeds do not. */
  lemma {:induction false} SetsConn(st: EngineState, st': EngineState, key: FlowKey)
    requires Latest(st) && key in st.conns && key in st'.conns
    requires st'.conns == st.conns[key := st'.conns[key]]
    requires st'.serial == st.serial && st'.flows == st.flows && st'.inputs == st.inputs
    ensures Moves(st, st', key, Track(Some(st'.conns[key].(sessionId := None)), TrackOf(st, key).feeds))
  {
    hide Feeds, LastOf;
    assert st'.conns.Keys == st.conns.Keys;
  }

  lemma {:induction false} SinkingMoves(st: EngineState, key: FlowKey)
    requires Latest(st) && key in st.conns
    ensures Moves(st, Sinking(st, key), key, TrackOf(st, key))
  {
    hide Latest, TrackOf, Moves, FreeId, WithId;
    var st1 := Sinking(st, key);
    SetsConn(st, st1, key);
    SameTrack(st, key);
  }

  lemma {:induction false} SameTrack(st: EngineState, key: FlowKey)
    requires Latest(st) && key in st.conns
    ensures TrackOf(st, key) == Track(Some(st.conns[key].(sessionId := None)), TrackOf(st, key).feeds)
  {
  }

  lemma {:induction false} BuriedMoves(st: EngineState, key: FlowKey)
    requires Latest(st) && key in st.conns
    ensures Moves(st, Buried(st, key), key,
                  Track(Some(Ended(st.conns[key]).(sessionId := None)), TrackOf(st, key).feeds))
  {
    hide Latest, TrackOf, Moves, FreeId, WithId, AfterFinish, Disposing, Summed;
    SetsConn(st, Buried(st, key), key);
  }

  lemma {:induction false} ForgottenMoves(st: EngineState, key: FlowKey)
    requires Latest(st)
    ensures Moves(st, Forgotten(st, key), key, Track(None, TrackOf(st, key).feeds))
  {
    hide Feeds, LastOf;
  }

  lemma {:induction false} AdmittedMoves(st: EngineState, key: FlowKey)
    requires Latest(st) && key !in st.conns
    ensures Moves(st, Admitted(st, key), key, Track(Some(FRESH_STATE), TrackOf(st, key).feeds + [[]]))
  {
    hide Feeds;
    var st1 := Admitted(st, key);
    FeedsSnoc(st.flows, st.inputs, key, [], key);
    forall k: FlowKey | k != key ensures TrackOf(st1, k) == TrackOf(st, k) {
      FeedsSnoc(st.flows, st.inputs, key, [], k);
    }
    forall k | k in st1.serial ensures LastOf(st1.flows, k, st1.serial[k]) {
      assert k != key ==> LastOf(st.flows, k, st.serial[k]);
    }
  }

  lemma {:induction false} DecodedMoves(st: EngineState, key: FlowKey, ins: seq<Input>, codec: Codec)
    requires Latest(st) && key in st.conns
    ensures var feeds, c := TrackOf(st, key).feeds, st.conns[key];
            var n := |feeds| - 1;
            feeds != [] &&
            Moves(st, Decoded(st, key, ins, codec), key,
                  Track(Some(c.(conn := AfterInputs(c.conn, ins, codec).0, sessionId := None)),
                        feeds[n := feeds[n] + ins]))
  {
    hide Feeds, AfterInputs;
    var st1, n := Decoded(st, key, ins, codec), st.serial[key];
    assert LastOf(st.flows, key, n);
    FeedsUpdate(st.flows, st.inputs, n, st.inputs[n] + ins, key);
    forall k: FlowKey | k != key ensures Feeds(st.flows, st1.inputs, k) == Feeds(st.flows, st.inputs, k) {
      FeedsUpdate(st.flows, st.inputs, n, st.inputs[n] + ins, k);
    }
    assert st1.conns.Keys == st.conns.Keys;
  }

  // ---------------------------------------------------------------------
  // Segments
  // ---------------------------------------------------------------------

  lemma {:induction false} MovesTwice(st: EngineState, st1: EngineState, st2: EngineState,
                                      key: FlowKey, t1: Track, t2: Track)
    requires Moves(st, st1, key, t1) && Moves(st1, st2, key, t2)
    ensures Moves(st, st2, key, t2)
  {
    hide Latest, TrackOf;
  }

  lemma {:induction false} Stays(st: EngineState, st': EngineState, key: FlowKey)
    requires Latest(st) && st' == st.(stats := st'.stats)
    ensures Moves(st, st', key, TrackOf(st, key))
  {
  }

  lemma {:induction false} TrackingMoves(st: EngineState, key: FlowKey, dir: Dir, seg: TcpSegment)
    requires Latest(st)
    ensures Moves(st, Tracking(st, key, dir, seg), key, Tracked(TrackOf(st, key), dir, seg))
  {
    hide Latest, Moves, Buried, Admitted, Forgotten, Feeds;
    LatestBooks(st);
    var t := TrackOf(st, key);
    if key !in st.conns {
      AdmittedMoves(st, key);
    } else if !FreshSyn(dir, seg) || RepeatsSyn(st.conns[key], seg.seqNo) {
      Stays(st, st, key);
    } else {
      ReplacedMoves(st, key);
    }
  }

  lemma {:induction false} ReplacedMoves(st: EngineState, key: FlowKey)
    requires Latest(st) && key in st.conns
    ensures var st1 := Forgotten(Buried(st, key), key);
            key !in st1.conns && Moves(st, Admitted(st1, key), key,
                                       Track(Some(FRESH_STATE), TrackOf(st, key).feeds + [[]]))
  {
    hide Latest, TrackOf, Buried, Admitted;
    var st1 := Buried(st, key);
    var st2 := Forgotten(st1, key);
    BuriedMoves(st, key);
    ForgottenMoves(st1, key);
    AdmittedMoves(st2, key);
  }

  lemma {:induction false} LatestBooks(st: EngineState)
    requires Latest(st)
    ensures st.Booked()
  {
  }

  /** Session ids play no part in reassembly and decoding. */
  lemma {:induction false} HeardBlind(c: ConnState, dir: Dir, cap: Captured, codec: Codec)
    ensures var (c1, ins) := Heard(c, dir, cap, codec);
            Heard(c.(sessionId := None), dir, cap, codec) == (c1.(sessionId := None), ins)
  {
    hide AfterInputs, AfterData, AfterSyn, InputsOf;
  }

  lemma {:induction false} OverBlind(c: ConnState, rst: bool)
    ensures Over(c.(sessionId := None), rst) == Over(c, rst)
    ensures Ended(c.(sessionId := None)) == Ended(c).(sessionId := None)
  {
  }

  lemma {:induction false} SettledMoves(st: EngineState, key: FlowKey, dir: Dir, fin: bool, rst: bool)
    requires Latest(st) && key in st.conns
    ensures var c := Closing(st.conns[key], dir, fin).(sessionId := None);
            Moves(st, Settled(st, key, dir, fin, rst), key,
                  Track(Some(if Over(c, rst) then Ended(c) else c), TrackOf(st, key).feeds))
  {
    hide Latest, Moves, TrackOf, Closing, Over, Ended, Buried, Sinking;
    LatestBooks(st);
    var c := Closing(st.conns[key], dir, fin);
    var st1 := st.(conns := st.conns[key := c]);
    SetsConn(st, st1, key);
    OverBlind(c, rst);
    MovesMeans(st, st1, key, Track(Some(c.(sessionId := None)), TrackOf(st, key).feeds));
    var st2 := Settled(st, key, dir, fin, rst);
    var t1 := Track(Some(c.(sessionId := None)), TrackOf(st, key).feeds);
    if Over(c, rst) {
      BuriedMoves(st1, key);
    } else {
      SinkingMoves(st1, key);
    }
    MovesTwice(st, st1, st2, key, t1,
               Track(Some(if Over(c, rst) then Ended(c).(sessionId := None) else c.(sessionId := None)), t1.feeds));
  }

  lemma {:induction false} MovesMeans(st: EngineState, st': EngineState, key: FlowKey, t: Track)
    requires Moves(st, st', key, t)
    ensures Latest(st') && TrackOf(st', key) == t && (key in st'.conns <==> t.cur.Some?)
  {
  }

  lemma {:induction false} DeliveredMoves(st: EngineState, key: FlowKey, dir: Dir, cap: Captured, codec: Codec)
    requires Latest(st) && key in st.conns
    ensures var (c, chunks) := Reassembled(st.conns[key], dir, cap);
            var feeds, ins := TrackOf(st, key).feeds, InputsOf(dir, chunks);
            var n := |feeds| - 1;
            feeds != [] &&
            Moves(st, Delivered(st, key, dir, cap, codec), key,
                  Track(Some(c.(conn := AfterInputs(c.conn, ins, codec).0, sessionId := None)),
                        feeds[n := feeds[n] + ins]))
  {
    hide Latest, Moves, TrackOf, AfterInputs, Reassembled, Decoded, InputsOf;
    LatestBooks(st);
    var (c, chunks) := Reassembled(st.conns[key], dir, cap);
    var st1 := st.(conns := st.conns[key := c]);
    SetsConn(st, st1, key);
    var t1 := Track(Some(c.(sessionId := None)), TrackOf(st, key).feeds);
    MovesMeans(st, st1, key, t1);
    var ins := InputsOf(dir, chunks);
    DecodedMoves(st1, key, ins, codec);
    var n := |t1.feeds| - 1;
    MovesTwice(st, st1, Decoded(st1, key, ins, codec), key, t1,
               Track(Some(c.(conn := AfterInputs(c.conn, ins, codec).0, sessionId := None)),
                     t1.feeds[n := t1.feeds[n] + ins]));
  }

  /** A live connection hears a segment and settles. */
  lemma {:induction false} HeardMoves(st: EngineState, key: FlowKey, dir: Dir, cap: Captured, codec: Codec)
    requires Latest(st) && key in st.conns
    ensures var feeds := TrackOf(st, key).feeds;
            var (c, ins) := Heard(st.conns[key].(sessionId := None), dir, cap, codec);
            var n := |feeds| - 1;
            feeds != [] &&
            Moves(st, Settled(Delivered(st, key, dir, cap, codec), key, dir, cap.seg.fin, cap.seg.rst), key,
                  Track(Some(if Over(c, cap.seg.rst) then Ended(c) else c), feeds[n := feeds[n] + ins]))
  {
    hide Latest, Moves, TrackOf, AfterInputs, Reassembled, InputsOf, Settled, Delivered, Over, Ended;
    LatestBooks(st);
    HeardBlind(st.conns[key], dir, cap, codec);
    DeliveredMoves(st, key, dir, cap, codec);
    var (c, chunks) := Reassembled(st.conns[key], dir, cap);
    var feeds, ins := TrackOf(st, key).feeds, InputsOf(dir, chunks);
    var n := |feeds| - 1;
    var st1 := Delivered(st, key, dir, cap, codec);
    var t1 := Track(Some(c.(conn := AfterInputs(c.conn, ins, codec).0, sessionId := None)), feeds[n := feeds[n] + ins]);
    MovesMeans(st, st1, key, t1);
    SettledMoves(st1, key, dir, cap.seg.fin, cap.seg.rst);
    SameTrack(st1, key);
    var c2 := Closing(st1.conns[key], dir, cap.seg.fin).(sessionId := None);
    MovesTwice(st, st1, Settled(st1, key, dir, cap.seg.fin, cap.seg.rst), key, t1,
               Track(Some(if Over(c2, cap.seg.rst) then Ended(c2) else c2), t1.feeds));
  }

  lemma {:induction false} RoutedMoves(st: EngineState, key: FlowKey, dir: Dir, cap: Captured, codec: Codec)
    requires Latest(st)
    ensures st.Booked()
            && Moves(st, AfterRouted(st, key, dir, cap, codec), key, AfterHeard(TrackOf(st, key), dir, cap, codec))
  {
    hide Latest, Moves, TrackOf, Heard, Settled, Delivered, Over, Ended, Tracking, Tracked;
    LatestBooks(st);
    TrackingBooks(st, key, dir, cap.seg);
    TrackingMoves(st, key, dir, cap.seg);
    var st1, t1 := Tracking(st, key, dir, cap.seg), Tracked(TrackOf(st, key), dir, cap.seg);
    MovesMeans(st, st1, key, t1);
    SameTrack(st1, key);
    if !st1.conns[key].finished {
      HeardMoves(st1, key, dir, cap, codec);
      MovesTwice(st, st1, AfterRouted(st, key, dir, cap, codec), key, t1,
                 AfterHeard(TrackOf(st, key), dir, cap, codec));
    }
  }

  lemma {:induction false} SegmentMoves(st: EngineState, cap: Captured, port: nat, codec: Codec, key: FlowKey)
    requires Latest(st)
    ensures st.Booked()
            && var st1, route := AfterSegment(st, cap, port, codec), Route(cap.seg, port);
            && Latest(st1)
            && TrackOf(st1, key) == if route.Some? && route.value.0 == key
                                    then AfterHeard(TrackOf(st, key), route.value.1, cap, codec) else TrackOf(st, key)
  {
    hide Latest, TrackOf, AfterHeard, AfterRouted;
    LatestBooks(st);
    match Route(cap.seg, port) {
      case None =>
      case Some(route) =>
        var (k, dir) := route;
        var st0 := st.(stats := Noted(st.stats, cap.truncated));
        Stays(st, st0, k);
        RoutedMoves(st0, k, dir, cap, codec);
        MovesTwice(st, st0, AfterSegment(st, cap, port, codec), k, TrackOf(st, k),
                   AfterHeard(TrackOf(st, k), dir, cap, codec));
    }
  }

  /** The engine treats each flow as if its segments were the whole capture. */
  lemma {:induction false} FlowsAreIndependent(caps: seq<Captured>, port: nat, codec: Codec, key: FlowKey)
    ensures Latest(AfterSegments(IDLE, caps, port, codec))
    ensures TrackOf(AfterSegments(IDLE, caps, port, codec), key) == AfterOwn(Own(caps, port, key), codec)
  {
    hide AfterSegment, AfterHeard, Route;
    if caps != [] {
      var n := |caps| - 1;
      FlowsAreIndependent(caps[..n], port, codec, key);
      hide Latest, TrackOf;
      SegmentMoves(AfterSegments(IDLE, caps[..n], port, codec), caps[n], port, codec, key);
      var own, route := Own(caps[..n], port, key), Route(caps[n].seg, port);
      if route.Some? && route.value.0 == key {
        assert (own + [(route.value.1, caps[n])])[..|own|] == own;
      } else {
        assert own + [] == own;
      }
    }
  }

  /** Captures that show a flow the same segments in the same order feed its
      connections the same, whatever else they hold. */
  lemma {:induction false} InterleavingDoesNotMatter(a: seq<Captured>, b: seq<Captured>, port: nat, codec: Codec,
                                                     key: FlowKey)
    requires Own(a, port, key) == Own(b, port, key)
    ensures var st, st' := AfterSegments(IDLE, a, port, codec), AfterSegments(IDLE, b, port, codec);
            Feeds(st.flows, st.inputs, key) == Feeds(st'.flows, st'.inputs, key)
  {
    hide AfterSegments, Feeds;
    FlowsAreIndependent(a, port, codec, key);
    FlowsAreIndependent(b, port, codec, key);
  }
}
