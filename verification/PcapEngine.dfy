/** The packet-level engine: connection lifetimes, session ids and the counters
    that account for every connection seen. */
module PcapEngine {
  import opened Bytes
  import opened TcpStream
  import opened Protocol
  import opened Connection
  import opened EngineSteps
  import opened Flows

  /** An event as the sink receives it, with the number of its connection. */
  datatype Sunk = Sunk(serial: nat, sid: nat, ev: Event)

  function EventsOf(log: seq<Sunk>, serial: nat): seq<Event> {
    if log == [] then []
    else
      var n := |log| - 1;
      EventsOf(log[..n], serial) + if log[n].serial == serial then [log[n].ev] else []
  }

  /** Events of one connection under its session id. */
  function Tagged(serial: nat, sid: nat, evs: seq<Event>): (r: seq<Sunk>)
    ensures |r| == |evs| && forall i | 0 <= i < |evs| :: r[i] == Sunk(serial, sid, evs[i])
  {
    if evs == [] then [] else [Sunk(serial, sid, evs[0])] + Tagged(serial, sid, evs[1..])
  }

  lemma {:induction false} EventsOfSnoc(log: seq<Sunk>, x: Sunk, n: nat)
    ensures EventsOf(log + [x], n) == EventsOf(log, n) + if x.serial == n then [x.ev] else []
  {
    assert (log + [x])[..|log|] == log;
  }

  lemma {:induction false} EventsOfTagged(log: seq<Sunk>, serial: nat, sid: nat, evs: seq<Event>, n: nat)
    ensures EventsOf(log + Tagged(serial, sid, evs), n) == EventsOf(log, n) + if n == serial then evs else []
    decreases |evs|
  {
    hide EventsOf;
    if evs == [] {
      assert log + Tagged(serial, sid, evs) == log;
    } else {
      var m := |evs| - 1;
      var init, last := Tagged(serial, sid, evs[..m]), Sunk(serial, sid, evs[m]);
      assert Tagged(serial, sid, evs) == init + [last];
      assert log + (init + [last]) == (log + init) + [last];
      EventsOfSnoc(log + init, last, n);
      EventsOfTagged(log, serial, sid, evs[..m], n);
      assert evs == evs[..m] + [evs[m]];
    }
  }

  /** Everything a connection has to say once it is over. */
  function Complete(inputs: seq<Input>, codec: Codec): seq<Event> {
    AfterInputs(FRESH, inputs, codec).1 + AfterFinish(AfterInputs(FRESH, inputs, codec).0.dec).1
  }

  // ---------------------------------------------------------------------
  // The engine's books
  // ---------------------------------------------------------------------

  /** Connections still being decoded. */
  function LiveKeys(conns: Conns): set<FlowKey> {
    set k | k in conns && !conns[k].finished
  }

  /** Connections counted as over, by disposition. */
  function Disposed(stats: Counters): nat {
    stats.decoded + stats.tls + stats.compressed + stats.midstream + stats.broken
  }

  /** Every connection seen is live or in exactly one disposition counter. */
  predicate Counted(stats: Counters, conns: Conns) {
    stats.connections == Disposed(stats) + |LiveKeys(conns)|
  }

  /** Connections are numbered in order of appearance. */
  ghost predicate Numbered(conns: Conns, serial: Serials, count: nat) {
    && serial.Keys == conns.Keys
    && (forall k | k in serial :: serial[k] < count)
    && (forall k, l | k in serial && l in serial :: serial[k] == serial[l] ==> k == l)
  }

  /** The connection `n` was given the session id `sid`, or none yet. */
  predicate SessionIs(sid: Option<nat>, n: nat, owner: map<nat, nat>) {
    match sid
    case Some(s) => s in owner && owner[s] == n
    case None => forall s | s in owner :: owner[s] != n
  }

  ghost predicate HasSession(k: FlowKey, conns: Conns, serial: Serials, owner: map<nat, nat>) {
    k in conns && k in serial && SessionIs(conns[k].sessionId, serial[k], owner)
  }

  /** A session id belongs to one connection and a connection has one id. */
  ghost predicate SessionsDistinct(owner: map<nat, nat>, used: set<nat>, syntheticNext: nat, count: nat) {
    && owner.Keys == used && SYNTHETIC_BASE <= syntheticNext
    && (forall s | s in used :: s < TWO32 || SYNTHETIC_BASE <= s < syntheticNext)
    && (forall s | s in owner :: owner[s] < count)
    && (forall s, t | s in owner && t in owner :: owner[s] == owner[t] ==> s == t)
  }

  ghost predicate SessionsKnown(conns: Conns, serial: Serials, owner: map<nat, nat>) {
    forall k | k in conns :: HasSession(k, conns, serial, owner)
  }

  /** The sink got every event under the id of the connection it came from. */
  ghost predicate Logged(log: seq<Sunk>, owner: map<nat, nat>, sunk: seq<(nat, Event)>) {
    && (forall x | x in log :: x.sid in owner && owner[x.sid] == x.serial)
    && |sunk| == |log| && (forall i | 0 <= i < |log| :: sunk[i] == (log[i].sid, log[i].ev))
  }

  ghost predicate IsLive(n: nat, conns: Conns, serial: Serials) {
    exists k :: k in conns && k in serial && serial[k] == n && !conns[k].finished
  }

  lemma {:induction false} LiveStays(n: nat, conns: Conns, serial: Serials, conns': Conns, serial': Serials)
    requires forall k | k in conns && k in serial && serial[k] == n && !conns[k].finished ::
               k in conns' && k in serial' && serial'[k] == n && !conns'[k].finished
    ensures IsLive(n, conns, serial) ==> IsLive(n, conns', serial')
  {
  }

  /** The log and the buffered events `rest` are what connection `n`, fed
      `ins`, has emitted, and its decoder is where that run ends. */
  ghost predicate UpToDate(c: Conn, n: nat, ins: seq<Input>, log: seq<Sunk>, rest: seq<Event>, codec: Codec) {
    && c == AfterInputs(FRESH, ins, codec).0
    && EventsOf(log, n) + rest == AfterInputs(FRESH, ins, codec).1
  }

  ghost predicate LiveUpToDate(conns: Conns, serial: Serials, inputs: seq<seq<Input>>, log: seq<Sunk>,
                               evbuf: seq<Event>, cur: Option<FlowKey>, codec: Codec)
  {
    forall k | k in conns && !conns[k].finished ::
      && k in serial && serial[k] < |inputs|
      && UpToDate(conns[k].conn, serial[k], inputs[serial[k]], log, if cur == Some(k) then evbuf else [], codec)
  }

  /** A connection that is over has had all its events sunk. */
  ghost predicate DeadComplete(conns: Conns, serial: Serials, inputs: seq<seq<Input>>, log: seq<Sunk>, codec: Codec) {
    forall n | 0 <= n < |inputs| && !IsLive(n, conns, serial) :: EventsOf(log, n) == Complete(inputs[n], codec)
  }

  /** `conns'` differs from `conns` in connection `key`, and not in its session
      id or in whether it is finished. */
  ghost predicate Advances(conns: Conns, conns': Conns, key: FlowKey) {
    && key in conns && key in conns' && conns' == conns[key := conns'[key]]
    && conns'[key].sessionId == conns[key].sessionId && conns'[key].finished == conns[key].finished
  }

  lemma {:induction false} AdvanceKeeps(conns: Conns, conns': Conns, key: FlowKey, serial: Serials,
                                        owner: map<nat, nat>)
    requires Advances(conns, conns', key)
    ensures LiveKeys(conns') == LiveKeys(conns)
    ensures SessionsKnown(conns, serial, owner) ==> SessionsKnown(conns', serial, owner)
    ensures forall n :: IsLive(n, conns', serial) <==> IsLive(n, conns, serial)
  {
    if SessionsKnown(conns, serial, owner) {
      forall k | k in conns' ensures HasSession(k, conns', serial, owner) {
        assert HasSession(k, conns, serial, owner);
      }
    }
    forall n ensures IsLive(n, conns', serial) <==> IsLive(n, conns, serial) {
      assert forall k :: (k in conns' && !conns'[k].finished) <==> (k in conns && !conns[k].finished);
    }
  }

  /** One more input to the connection at hand. */
  lemma {:induction false} FeedKeepsHistory(conns: Conns, conns': Conns, key: FlowKey, serial: Serials,
                                            inputs: seq<seq<Input>>, log: seq<Sunk>, evbuf: seq<Event>,
                                            i: Input, codec: Codec)
    requires Numbered(conns, serial, |inputs|) && Advances(conns, conns', key) && !conns[key].finished
    requires LiveUpToDate(conns, serial, inputs, log, evbuf, Some(key), codec)
    requires DeadComplete(conns, serial, inputs, log, codec)
    requires conns'[key].conn == AfterBytes(conns[key].conn, i.dir, i.chunk, codec).0
    ensures var n := serial[key];
            var inputs' := inputs[n := inputs[n] + [i]];
            && LiveUpToDate(conns', serial, inputs', log,
                            evbuf + AfterBytes(conns[key].conn, i.dir, i.chunk, codec).1, Some(key), codec)
            && DeadComplete(conns', serial, inputs', log, codec)
  {
    hide AfterBytes, AfterInputs, EventsOf, Complete;
    var n := serial[key];
    var inputs' := inputs[n := inputs[n] + [i]];
    var evs := AfterBytes(conns[key].conn, i.dir, i.chunk, codec).1;
    InputsSnoc(FRESH, inputs[n], i, codec);
    assert (EventsOf(log, n) + evbuf) + evs == EventsOf(log, n) + (evbuf + evs);
    AdvanceKeeps(conns, conns', key, serial, map[]);
    forall k | k in conns' && !conns'[k].finished
      ensures k in serial && serial[k] < |inputs'|
              && UpToDate(conns'[k].conn, serial[k], inputs'[serial[k]], log,
                          if Some(key) == Some(k) then evbuf + evs else [], codec)
    {
      assert UpToDate(conns[k].conn, serial[k], inputs[serial[k]], log,
                      if Some(key) == Some(k) then evbuf else [], codec);
    }
    assert IsLive(n, conns, serial);
  }

  /** A new id for a connection without one. */
  lemma {:induction false} AssignKeeps(conns: Conns, key: FlowKey, sid: nat, serial: Serials, owner: map<nat, nat>,
                                       used: set<nat>, syntheticNext: nat, count: nat,
                                       log: seq<Sunk>, sunk: seq<(nat, Event)>)
    requires Numbered(conns, serial, count) && SessionsDistinct(owner, used, syntheticNext, count)
    requires SessionsKnown(conns, serial, owner) && Logged(log, owner, sunk)
    requires key in conns && conns[key].sessionId == None
    requires sid !in used && (sid < TWO32 || SYNTHETIC_BASE <= sid < syntheticNext)
    ensures var owner' := owner[sid := serial[key]];
            var conns' := conns[key := conns[key].(sessionId := Some(sid))];
            && Numbered(conns', serial, count) && SessionsDistinct(owner', used + {sid}, syntheticNext, count)
            && SessionsKnown(conns', serial, owner') && Logged(log, owner', sunk)
  {
    var owner' := owner[sid := serial[key]];
    var conns' := conns[key := conns[key].(sessionId := Some(sid))];
    assert HasSession(key, conns, serial, owner);
    forall k | k in conns' ensures HasSession(k, conns', serial, owner') {
      assert HasSession(k, conns, serial, owner);
    }
  }

  lemma {:induction false} SinkKeeps(log: seq<Sunk>, owner: map<nat, nat>, sunk: seq<(nat, Event)>,
                                     sunk': seq<(nat, Event)>, n: nat, sid: nat, evs: seq<Event>)
    requires Logged(log, owner, sunk) && sid in owner && owner[sid] == n
    requires |sunk'| == |sunk| + |evs| && sunk <= sunk'
    requires forall j | |sunk| <= j < |sunk'| :: sunk'[j] == (sid, evs[j - |sunk|])
    ensures Logged(log + Tagged(n, sid, evs), owner, sunk')
    ensures Grows(log, log + Tagged(n, sid, evs), n, evs)
  {
    var tagged := Tagged(n, sid, evs);
    assert forall i | |log| <= i < |log + tagged| :: (log + tagged)[i] == tagged[i - |log|];
    forall m: nat ensures EventsOf(log + tagged, m) == EventsOf(log, m) + (if m == n then evs else []) {
      EventsOfTagged(log, n, sid, evs, m);
    }
  }

  /** The log grew by the events `evs` of connection `n`. */
  ghost predicate Grows(log: seq<Sunk>, log': seq<Sunk>, n: nat, evs: seq<Event>) {
    forall m: nat :: EventsOf(log', m) == EventsOf(log, m) + (if m == n then evs else [])
  }

  /** Sinking the buffer leaves the books of a live connection in order. */
  lemma {:induction false} DrainKeepsHistory(conns: Conns, conns': Conns, key: FlowKey, serial: Serials,
                                             inputs: seq<seq<Input>>, log: seq<Sunk>, log': seq<Sunk>,
                                             evbuf: seq<Event>, codec: Codec)
    requires Numbered(conns, serial, |inputs|) && key in conns && !conns[key].finished
    requires LiveUpToDate(conns, serial, inputs, log, evbuf, Some(key), codec)
    requires DeadComplete(conns, serial, inputs, log, codec)
    requires key in conns' && conns' == conns[key := conns[key].(sessionId := conns'[key].sessionId)]
    requires Grows(log, log', serial[key], evbuf)
    ensures LiveUpToDate(conns', serial, inputs, log', [], None, codec)
    ensures DeadComplete(conns', serial, inputs, log', codec)
    ensures LiveKeys(conns') == LiveKeys(conns)
  {
    hide AfterInputs, EventsOf, Complete;
    forall k | k in conns' && !conns'[k].finished
      ensures k in serial && serial[k] < |inputs|
              && UpToDate(conns'[k].conn, serial[k], inputs[serial[k]], log', if None == Some(k) then [] else [], codec)
    {
      assert UpToDate(conns[k].conn, serial[k], inputs[serial[k]], log,
                      if Some(key) == Some(k) then evbuf else [], codec);
    }
    assert IsLive(serial[key], conns, serial);
    forall n | 0 <= n < |inputs| && !IsLive(n, conns', serial)
      ensures EventsOf(log', n) == Complete(inputs[n], codec)
    {
      assert forall k :: (k in conns' && !conns'[k].finished) <==> (k in conns && !conns[k].finished);
      assert !IsLive(n, conns, serial);
      assert EventsOf(log, n) + [] == EventsOf(log, n);
    }
  }

  /** A finished connection has had everything sunk. */
  lemma {:induction false} RetireKeepsHistory(conns: Conns, conns': Conns, key: FlowKey, serial: Serials,
                                              inputs: seq<seq<Input>>, log: seq<Sunk>, log': seq<Sunk>,
                                              evbuf: seq<Event>, codec: Codec)
    requires Numbered(conns, serial, |inputs|) && key in conns && !conns[key].finished
    requires LiveUpToDate(conns, serial, inputs, log, evbuf, Some(key), codec)
    requires DeadComplete(conns, serial, inputs, log, codec)
    requires key in conns' && conns' == conns[key := conns'[key]] && conns'[key].finished
    requires Grows(log, log', serial[key], evbuf + AfterFinish(conns[key].conn.dec).1)
    ensures LiveUpToDate(conns', serial, inputs, log', [], None, codec)
    ensures DeadComplete(conns', serial, inputs, log', codec)
    ensures LiveKeys(conns') == LiveKeys(conns) - {key}
  {
    hide AfterInputs, AfterFinish, EventsOf;
    var n, flushed := serial[key], AfterFinish(conns[key].conn.dec).1;
    assert UpToDate(conns[key].conn, n, inputs[n], log, if Some(key) == Some(key) then evbuf else [], codec);
    assert EventsOf(log, n) + (evbuf + flushed) == (EventsOf(log, n) + evbuf) + flushed;
    assert EventsOf(log', n) == Complete(inputs[n], codec);
    forall k | k in conns' && !conns'[k].finished
      ensures k in serial && serial[k] < |inputs|
              && UpToDate(conns'[k].conn, serial[k], inputs[serial[k]], log', if None == Some(k) then [] else [], codec)
    {
      assert UpToDate(conns[k].conn, serial[k], inputs[serial[k]], log,
                      if Some(key) == Some(k) then evbuf else [], codec);
    }
    forall m | 0 <= m < |inputs| && m != n && !IsLive(m, conns', serial)
      ensures EventsOf(log', m) == Complete(inputs[m], codec)
    {
      LiveStays(m, conns, serial, conns', serial);
      assert EventsOf(log, m) + [] == EventsOf(log, m);
    }
  }

  /** A tombstone can be forgotten. */
  lemma {:induction false} ForgetKeeps(conns: Conns, key: FlowKey, serial: Serials, owner: map<nat, nat>,
                                       inputs: seq<seq<Input>>, log: seq<Sunk>, codec: Codec)
    requires Numbered(conns, serial, |inputs|) && SessionsKnown(conns, serial, owner)
    requires key in conns && conns[key].finished
    requires LiveUpToDate(conns, serial, inputs, log, [], None, codec)
    requires DeadComplete(conns, serial, inputs, log, codec)
    ensures var conns', serial' := conns - {key}, serial - {key};
            && Numbered(conns', serial', |inputs|) && SessionsKnown(conns', serial', owner)
            && LiveKeys(conns') == LiveKeys(conns)
            && LiveUpToDate(conns', serial', inputs, log, [], None, codec)
            && DeadComplete(conns', serial', inputs, log, codec)
  {
    hide AfterInputs, EventsOf, Complete;
    var conns', serial' := conns - {key}, serial - {key};
    forall k | k in conns' ensures HasSession(k, conns', serial', owner) {
      assert HasSession(k, conns, serial, owner);
    }
    forall n | 0 <= n < |inputs| && !IsLive(n, conns', serial')
      ensures EventsOf(log, n) == Complete(inputs[n], codec)
    {
      LiveStays(n, conns, serial, conns', serial');
    }
  }

  lemma {:induction false} NoEvents(log: seq<Sunk>, n: nat)
    requires forall x | x in log :: x.serial != n
    ensures EventsOf(log, n) == []
  {
    if log != [] {
      NoEvents(log[..|log| - 1], n);
    }
  }

  /** A connection seen for the first time gets the next number. */
  lemma {:induction false} AdmitKeepsSessions(conns: Conns, key: FlowKey, serial: Serials, owner: map<nat, nat>,
                                              used: set<nat>, syntheticNext: nat, n: nat)
    requires Numbered(conns, serial, n) && SessionsDistinct(owner, used, syntheticNext, n)
    requires SessionsKnown(conns, serial, owner) && key !in conns
    ensures var conns', serial' := conns[key := FRESH_STATE], serial[key := n];
            && Numbered(conns', serial', n + 1) && SessionsDistinct(owner, used, syntheticNext, n + 1)
            && SessionsKnown(conns', serial', owner)
            && LiveKeys(conns') == LiveKeys(conns) + {key}
  {
    var conns', serial' := conns[key := FRESH_STATE], serial[key := n];
    forall k | k in conns' ensures HasSession(k, conns', serial', owner) {
      assert k != key ==> HasSession(k, conns, serial, owner);
    }
  }

  lemma {:induction false} AdmitCounts(stats: Counters, conns: Conns, key: FlowKey)
    requires Counted(stats, conns) && key !in conns
    ensures Counted(stats.(connections := stats.connections + 1), conns[key := FRESH_STATE])
  {
    assert key !in LiveKeys(conns);
    assert LiveKeys(conns[key := FRESH_STATE]) == LiveKeys(conns) + {key};
  }

  lemma {:induction false} AdmitKeepsHistory(conns: Conns, key: FlowKey, serial: Serials, owner: map<nat, nat>,
                                             used: set<nat>, syntheticNext: nat, inputs: seq<seq<Input>>,
                                             log: seq<Sunk>, sunk: seq<(nat, Event)>, codec: Codec)
    requires Numbered(conns, serial, |inputs|) && Logged(log, owner, sunk)
    requires SessionsDistinct(owner, used, syntheticNext, |inputs|) && key !in conns
    requires LiveUpToDate(conns, serial, inputs, log, [], None, codec)
    requires DeadComplete(conns, serial, inputs, log, codec)
    ensures var conns', serial', inputs' := conns[key := FRESH_STATE], serial[key := |inputs|], inputs + [[]];
            && LiveUpToDate(conns', serial', inputs', log, [], None, codec)
            && DeadComplete(conns', serial', inputs', log, codec)
  {
    hide EventsOf, Complete;
    var n := |inputs|;
    var conns', serial', inputs' := conns[key := FRESH_STATE], serial[key := n], inputs + [[]];
    NoEvents(log, n);
    assert UpToDate(FRESH, n, [], log, [], codec);
    hide AfterInputs;
    forall k | k in conns' && !conns'[k].finished
      ensures k in serial' && serial'[k] < |inputs'|
              && UpToDate(conns'[k].conn, serial'[k], inputs'[serial'[k]], log,
                          if None == Some(k) then [] else [], codec)
    {
      assert k != key ==> UpToDate(conns[k].conn, serial[k], inputs[serial[k]], log,
                                   if None == Some(k) then [] else [], codec);
    }
    assert key in conns' && key in serial' && serial'[key] == n && !conns'[key].finished;
    assert IsLive(n, conns', serial');
    forall m | 0 <= m < |inputs'| && !IsLive(m, conns', serial')
      ensures EventsOf(log, m) == Complete(inputs'[m], codec)
    {
      assert m != n;
      LiveStays(m, conns, serial, conns', serial');
    }
  }

  lemma {:induction false} AdvanceKeepsAll(conns: Conns, conns': Conns, key: FlowKey, serial: Serials,
                                           owner: map<nat, nat>, count: nat, stats: Counters)
    requires Advances(conns, conns', key)
    requires Numbered(conns, serial, count) && SessionsKnown(conns, serial, owner) && Counted(stats, conns)
    ensures Numbered(conns', serial, count) && SessionsKnown(conns', serial, owner) && Counted(stats, conns')
  {
    AdvanceKeeps(conns, conns', key, serial, owner);
    assert conns'.Keys == conns.Keys;
  }

  lemma {:induction false} AllDead(serial: Serials, inputs: seq<seq<Input>>, log: seq<Sunk>, codec: Codec)
    requires DeadComplete(map[], serial, inputs, log, codec)
    ensures forall n | 0 <= n < |inputs| :: EventsOf(log, n) == Complete(inputs[n], codec)
  {
    hide EventsOf, Complete;
    assert forall n :: !IsLive(n, map[], serial);
  }

  /** Two events carry one session id exactly when one connection sent both. */
  lemma {:induction false} IdsIdentify(owner: map<nat, nat>, used: set<nat>, syntheticNext: nat, count: nat,
                                       log: seq<Sunk>, sunk: seq<(nat, Event)>)
    requires SessionsDistinct(owner, used, syntheticNext, count) && Logged(log, owner, sunk)
    ensures forall i, j | 0 <= i < |log| && 0 <= j < |log| ::
              log[i].sid == log[j].sid <==> log[i].serial == log[j].serial
  {
    forall i, j | 0 <= i < |log| && 0 <= j < |log|
      ensures log[i].sid == log[j].sid <==> log[i].serial == log[j].serial
    {
      assert log[i] in log && log[j] in log;
    }
  }

  lemma {:induction false} UpdateKeepsHistory(conns: Conns, key: FlowKey, c: ConnState, serial: Serials,
                                              inputs: seq<seq<Input>>, log: seq<Sunk>, evbuf: seq<Event>, codec: Codec)
    requires Numbered(conns, serial, |inputs|) && key in conns && !conns[key].finished
    requires c.conn == conns[key].conn && c.sessionId == conns[key].sessionId && !c.finished
    requires LiveUpToDate(conns, serial, inputs, log, evbuf, Some(key), codec)
    requires DeadComplete(conns, serial, inputs, log, codec)
    ensures LiveUpToDate(conns[key := c], serial, inputs, log, evbuf, Some(key), codec)
    ensures DeadComplete(conns[key := c], serial, inputs, log, codec)
  {
    hide UpToDate, Complete, EventsOf;
    AdvanceKeeps(conns, conns[key := c], key, serial, map[]);
  }

  lemma {:induction false} RetireKeepsSessions(conns: Conns, conns': Conns, key: FlowKey, serial: Serials,
                                               owner: map<nat, nat>, count: nat)
    requires key in conns && key in conns' && conns' == conns[key := conns'[key]]
    requires conns'[key].sessionId == conns[key].sessionId
    requires Numbered(conns, serial, count) && SessionsKnown(conns, serial, owner)
    ensures Numbered(conns', serial, count) && SessionsKnown(conns', serial, owner)
  {
    assert conns'.Keys == conns.Keys;
    forall k | k in conns' ensures HasSession(k, conns', serial, owner) {
      assert HasSession(k, conns, serial, owner);
    }
  }

  lemma {:induction false} FinishKeepsDisposition(d: Decoder)
    ensures AfterFinish(d).0.disposition == d.disposition
  {
  }

  lemma {:induction false} NothingTracked(codec: Codec)
    ensures Numbered(map[], map[], 0) && SessionsDistinct(map[], {}, SYNTHETIC_BASE, 0)
    ensures SessionsKnown(map[], map[], map[]) && Logged([], map[], [])
    ensures LiveUpToDate(map[], map[], [], [], [], None, codec) && DeadComplete(map[], map[], [], [], codec)
    ensures Counted(NOTHING_COUNTED, map[])
  {
    assert LiveKeys(map[]) == {};
  }

  class Engine {
    const port: nat
    const codec: Codec
    var conns: Conns
    var used: set<nat>
    var syntheticNext: nat
    var stats: Counters
    var evbuf: seq<Event>
    /** What the sink has received: session id and event. */
    var sunk: seq<(nat, Event)>
    /** The same with connection numbers; the number of each tracked connection;
        the connection a session id was given to; the flow of each connection
        and what it was fed. */
    ghost var log: seq<Sunk>
    ghost var serial: Serials
    ghost var owner: map<nat, nat>
    ghost var flows: seq<FlowKey>
    ghost var inputs: seq<seq<Input>>

    ghost predicate Sound()
      reads this
    {
      && Numbered(conns, serial, |inputs|) && |flows| == |inputs| == stats.connections
      && SessionsDistinct(owner, used, syntheticNext, stats.connections)
      && SessionsKnown(conns, serial, owner)
      && Logged(log, owner, sunk)
    }

    /** Between packets `cur` is `None` and the shared buffer is empty; while a
        packet is handled it may hold events of the connection `cur`. */
    ghost predicate Inv(cur: Option<FlowKey>)
      reads this
    {
      && Sound() && Counted(stats, conns)
      && LiveUpToDate(conns, serial, inputs, log, evbuf, cur, codec)
      && DeadComplete(conns, serial, inputs, log, codec)
      && match cur
         case None => evbuf == []
         case Some(k) => k in conns && !conns[k].finished
    }

    ghost function State(): EngineState
      reads this
    {
      EngineState(conns, used, syntheticNext, stats, evbuf, sunk, serial, flows, inputs)
    }

    constructor (port: nat, codec: Codec)
      ensures Inv(None) && State() == IDLE && log == []
      ensures this.port == port && this.codec == codec
    {
      this.port, this.codec := port, codec;
      conns, used, syntheticNext, evbuf, sunk := map[], {}, SYNTHETIC_BASE, [], [];
      stats := NOTHING_COUNTED;
      log, serial, owner, flows, inputs := [], map[], map[], [], [];
      new;
      NothingTracked(codec);
      hide Numbered, SessionsDistinct, SessionsKnown, Logged, LiveUpToDate, DeadComplete, Counted;
    }

    /** Sink the buffered events of `key` under its session id: the thread id
        of its greeting, or a synthetic one when that is taken or missing. */
    method DrainEvents(key: FlowKey)
      requires Sound() && key in conns
      modifies `conns, `used, `syntheticNext, `evbuf, `sunk, `log, `owner
      ensures Sound() && State() == Sinking(old(State()), key)
      ensures key in conns && conns == old(conns)[key := old(conns)[key].(sessionId := conns[key].sessionId)]
      ensures Grows(old(log), log, serial[key], old(evbuf))
    {
      hide Numbered, SessionsDistinct, Logged, EventsOf, Assigned;
      assert key in serial by { assert HasSession(key, conns, serial, owner); }
      if evbuf == [] {
        assert forall n: nat :: EventsOf(log, n) + [] == EventsOf(log, n);
        return;
      }
      AssignSession(key);
      assert HasSession(key, conns, serial, owner);
      hide SessionsKnown;
      var sid := conns[key].sessionId.value;
      ghost var before := sunk;
      Emit(sid, evbuf);
      SinkKeeps(log, owner, before, sunk, serial[key], sid, evbuf);
      log := log + Tagged(serial[key], sid, evbuf);
      evbuf := [];
    }

    /** The session id a connection gets on its first event. */
    method AssignSession(key: FlowKey)
      requires Sound() && key in conns
      modifies `conns, `used, `syntheticNext, `owner
      ensures Sound() && State() == Assigned(old(State()), key)
      ensures key in conns && conns[key].sessionId.Some?
      ensures conns == old(conns)[key := old(conns)[key].(sessionId := conns[key].sessionId)]
    {
      hide Numbered, SessionsDistinct, SessionsKnown, Logged, FreeId;
      if conns[key].sessionId.Some? {
        assert conns == conns[key := conns[key].(sessionId := conns[key].sessionId)];
        return;
      }
      var sid := UnusedId(conns[key].conn.dec.threadId);
      AssignKeeps(conns, key, sid, serial, owner, used, syntheticNext, stats.connections, log, sunk);
      used := used + {sid};
      owner := owner[sid := serial[key]];
      conns := conns[key := conns[key].(sessionId := Some(sid))];
    }

    method UnusedId(preferred: Option<u32>) returns (sid: nat)
      requires SessionsDistinct(owner, used, syntheticNext, stats.connections)
      modifies `syntheticNext
      ensures SessionsDistinct(owner, used, syntheticNext, stats.connections)
      ensures sid !in used && (sid < TWO32 || SYNTHETIC_BASE <= sid < syntheticNext)
      ensures (sid, syntheticNext) == FreeId(preferred, used, old(syntheticNext))
    {
      if preferred.Some? && preferred.value !in used {
        sid := preferred.value;
      } else {
        sid := syntheticNext;
        syntheticNext := syntheticNext + 1;
      }
    }

    method Emit(sid: nat, evs: seq<Event>)
      modifies `sunk
      ensures sunk == old(sunk) + WithId(sid, evs)
    {
      for i := 0 to |evs|
        invariant sunk == old(sunk) + WithId(sid, evs)[..i]
      {
        sunk := sunk + [(sid, evs[i])];
      }
    }

    /** Feed reassembled chunks to the decoder of `key`. */
    method Deliver(key: FlowKey, dir: Dir, chunks: seq<Chunk>)
      requires Inv(Some(key))
      modifies `conns, `evbuf, `inputs
      ensures Inv(Some(key))
      ensures State() == Decoded(old(State()), key, InputsOf(dir, chunks), codec)
    {
      hide Numbered, SessionsDistinct, SessionsKnown, Logged, LiveUpToDate, DeadComplete, Counted, AfterBytes;
      ghost var before, ins := State(), InputsOf(dir, chunks);
      SoundBooks();
      assert ins[..0] == [];
      DecodedNothing(before, key, codec);
      for i := 0 to |chunks|
        invariant Inv(Some(key)) && before.Booked()
        invariant State() == Decoded(before, key, ins[..i], codec)
      {
        var c := conns[key];
        var (conn, evs) := AfterBytes(c.conn, dir, chunks[i], codec);
        ghost var conns' := conns[key := c.(conn := conn)];
        assert ins[i] == Input(dir, chunks[i]) && ins[..i + 1] == ins[..i] + [ins[i]];
        assert Advances(conns, conns', key);
        FeedKeepsHistory(conns, conns', key, serial, inputs, log, evbuf, ins[i], codec);
        AdvanceKeepsAll(conns, conns', key, serial, owner, |inputs|, stats);
        DecodedSnoc(before, key, ins[..i], ins[i], codec);
        inputs := inputs[serial[key] := inputs[serial[key]] + [ins[i]]];
        conns := conns[key := c.(conn := conn)];
        evbuf := evbuf + evs;
      }
      assert ins[..|chunks|] == ins;
    }

    /** Flush and sink a connection that is over; it is yet to be counted. */
    method Flush(key: FlowKey)
      requires Inv(Some(key))
      modifies this
      ensures Sound() && evbuf == [] && State() == Flushed(old(State()), key)
      ensures LiveUpToDate(conns, serial, inputs, log, [], None, codec)
      ensures DeadComplete(conns, serial, inputs, log, codec)
      ensures key in conns && conns[key].finished && conns == old(conns)[key := conns[key]]
      ensures LiveKeys(conns) == LiveKeys(old(conns)) - {key}
    {
      hide Numbered, SessionsDistinct, SessionsKnown, Logged, LiveUpToDate, DeadComplete, Counted;
      hide AfterFinish, Assigned, Grows, LiveKeys;
      var c := conns[key];
      var (dec, flushed) := AfterFinish(c.conn.dec);
      ghost var before, log0 := conns, log;
      ghost var conns' := conns[key := c.(conn := c.conn.(dec := dec), finished := true)];
      RetireKeepsSessions(conns, conns', key, serial, owner, |inputs|);
      evbuf := evbuf + flushed;
      conns := conns[key := c.(conn := c.conn.(dec := dec), finished := true)];
      DrainEvents(key);
      RetireKeepsHistory(before, conns, key, serial, inputs, log0, log, old(evbuf), codec);
    }

    /** Flush, sink, count and bury a connection. */
    method Finalize(key: FlowKey)
      requires Inv(Some(key))
      modifies this
      ensures Inv(None) && State() == Buried(old(State()), key)
      ensures key in conns && conns[key].finished && conns == old(conns)[key := conns[key]]
    {
      hide Numbered, SessionsDistinct, SessionsKnown, Logged, LiveUpToDate, DeadComplete;
      hide AfterFinish, Sinking, Summed, Disposing;
      var c := conns[key];
      Flush(key);
      FinishKeepsDisposition(c.conn.dec);
      FlushedDecoder(old(State()), key);
      CountDisposition(conns[key].conn.dec, c.c2s.overflow || c.s2c.overflow);
      Accumulate(conns[key].conn.dec);
      assert key in LiveKeys(old(conns));
    }

    /** A connection that lost packets is broken, whatever its decoder thinks. */
    method CountDisposition(dec: Decoder, lost: bool)
      modifies `stats
      ensures stats == Disposing(old(stats), dec.disposition, lost)
      ensures Disposed(stats) == Disposed(old(stats)) + 1 && stats.connections == old(stats).connections
    {
      match dec.disposition {
        case Active =>
          if lost {
            stats := stats.(broken := stats.broken + 1);
          } else {
            stats := stats.(decoded := stats.decoded + 1);
          }
        case Tls => stats := stats.(tls := stats.tls + 1);
        case Compressed => stats := stats.(compressed := stats.compressed + 1);
        case BadHandshake => stats := stats.(midstream := stats.midstream + 1);
        case BrokenStream => stats := stats.(broken := stats.broken + 1);
      }
    }

    method Accumulate(dec: Decoder)
      modifies `stats
      ensures stats == Summed(old(stats), dec.stats)
      ensures stats.connections == old(stats).connections && Disposed(stats) == Disposed(old(stats))
    {
      stats := stats.(expanded := stats.expanded + dec.stats.expanded,
                      inexpandable := stats.inexpandable + dec.stats.inexpandable,
                      ignored := stats.ignored + dec.stats.ignored,
                      missing := stats.missing + dec.stats.missing);
    }

    /** A tombstone is dropped. */
    method Forget(key: FlowKey)
      requires Inv(None) && key in conns && conns[key].finished
      modifies `conns, `serial
      ensures Inv(None) && State() == Forgotten(old(State()), key)
    {
      hide Numbered, SessionsDistinct, SessionsKnown, Logged, LiveUpToDate, DeadComplete;
      ForgetKeeps(conns, key, serial, owner, inputs, log, codec);
      conns := conns - {key};
      serial := serial - {key};
    }

    /** A connection seen for the first time. */
    method Admit(key: FlowKey)
      requires Inv(None) && key !in conns
      modifies `conns, `serial, `flows, `inputs, `stats
      ensures Inv(None) && key in conns && State() == Admitted(old(State()), key)
    {
      hide Numbered, SessionsDistinct, SessionsKnown, Logged, LiveUpToDate, DeadComplete, Counted;
      AdmitKeepsSessions(conns, key, serial, owner, used, syntheticNext, |inputs|);
      AdmitKeepsHistory(conns, key, serial, owner, used, syntheticNext, inputs, log, sunk, codec);
      AdmitCounts(stats, conns, key);
      serial := serial[key := |inputs|];
      flows, inputs := flows + [key], inputs + [[]];
      conns := conns[key := FRESH_STATE];
      stats := stats.(connections := stats.connections + 1);
    }

    /** A change to the transport state of a live connection. */
    method Update(key: FlowKey, c: ConnState)
      requires Inv(Some(key))
      requires c.conn == conns[key].conn && c.sessionId == conns[key].sessionId && !c.finished
      modifies `conns
      ensures Inv(Some(key)) && conns == old(conns)[key := c]
    {
      hide SessionsDistinct, Logged, HasSession, UpToDate, IsLive, Complete, EventsOf;
      UpdateKeepsHistory(conns, key, c, serial, inputs, log, evbuf, codec);
      AdvanceKeepsAll(conns, conns[key := c], key, serial, owner, |inputs|, stats);
      hide Numbered, SessionsDistinct, SessionsKnown, Logged, LiveUpToDate, DeadComplete, Counted;
      conns := conns[key := c];
    }

    /** One captured segment of the MySQL port, from the parsed TCP header on. */
    method OnSegment(ts: int, seg: TcpSegment, truncated: bool)
      requires Inv(None)
      modifies this
      ensures Inv(None) && old(State()).Booked()
      ensures State() == AfterSegment(old(State()), Captured(ts, seg, truncated), port, codec)
    {
      hide Numbered, SessionsDistinct, SessionsKnown, Logged, LiveUpToDate, DeadComplete, Counted;
      hide AfterData, AfterBytes, AfterInputs, Advances, Tracking, Settled, InputsOf, Noted;
      SoundBooks();
      var key, dir;
      if seg.src.port == port {
        key, dir := FlowKey(seg.dst, seg.src), Server;
      } else if seg.dst.port == port {
        key, dir := FlowKey(seg.src, seg.dst), Client;
      } else {
        return;
      }
      CountPacket(truncated);
      Track(key, dir, seg);
      if conns[key].finished {
        return;
      }
      BeginPacket(key);
      Hear(key, dir, ts, seg);
      Settle(key, dir, seg.fin, seg.rst);
    }

    ghost method SoundBooks()
      requires Sound()
      ensures State().Booked()
    {
    }

    /** Reassemble a segment and decode what that delivers. */
    method Hear(key: FlowKey, dir: Dir, ts: int, seg: TcpSegment)
      requires Inv(Some(key))
      modifies `conns, `evbuf, `inputs
      ensures Inv(Some(key)) && old(State()).Booked()
      ensures forall truncated ::
                State() == Delivered(old(State()), key, dir, Captured(ts, seg, truncated), codec)
    {
      hide Numbered, SessionsDistinct, SessionsKnown, Logged, LiveUpToDate, DeadComplete, Counted;
      hide AfterData, AfterInputs, AfterSyn, InputsOf;
      SoundBooks();
      var c := conns[key];
      var stream := if dir == Client then c.c2s else c.s2c;
      if seg.syn {
        stream := AfterSyn(stream, seg.seqNo);
      }
      var (stream', chunks) := AfterData(stream, Segment(ts, seg.seqNo, seg.payload));
      Update(key, if dir == Client then c.(c2s := stream') else c.(s2c := stream'));
      Deliver(key, dir, chunks);
    }

    /** Note a FIN; then bury the connection if it is closed, or its decoder or
        reassembly gave up, and otherwise sink what the packet produced. */
    method Settle(key: FlowKey, dir: Dir, fin: bool, rst: bool)
      requires Inv(Some(key))
      modifies this
      ensures Inv(None) && State() == Settled(old(State()), key, dir, fin, rst)
    {
      hide Numbered, SessionsDistinct, SessionsKnown, Logged, LiveUpToDate, DeadComplete, Counted, Buried, Sinking;
      var c := conns[key];
      c := if dir == Client then c.(finClient := c.finClient || fin) else c.(finServer := c.finServer || fin);
      Update(key, c);
      var closed := rst || (c.finClient && c.finServer);
      var done := c.conn.dec.disposition != Active || c.c2s.overflow || c.s2c.overflow;
      if closed || done {
        Finalize(key);
      } else {
        EndPacket(key);
      }
    }

    /** A fresh SYN on a known pair starts a new connection, unless it repeats
        the SYN of the current one; a pair not known is admitted. */
    method Track(key: FlowKey, dir: Dir, seg: TcpSegment)
      requires Inv(None)
      modifies this
      ensures Inv(None) && State() == Tracking(old(State()), key, dir, seg) && key in conns
    {
      hide Numbered, SessionsDistinct, SessionsKnown, Logged, LiveUpToDate, DeadComplete, Counted, Admitted, Replaced;
      if seg.syn && !seg.ack && dir == Client && key in conns {
        ReplaceOnSyn(key, seg.seqNo);
      }
      if key !in conns {
        Admit(key);
      }
    }

    method ReplaceOnSyn(key: FlowKey, seqNo: u32)
      requires Inv(None) && key in conns
      modifies this
      ensures Inv(None) && State() == Replaced(old(State()), key, seqNo)
    {
      hide Numbered, SessionsDistinct, SessionsKnown, Logged, LiveUpToDate, DeadComplete, Counted;
      var c := conns[key];
      if c.finished || !c.c2s.started || c.c2s.isn != (seqNo + 1) % TWO32 {
        if !c.finished {
          BeginPacket(key);
          Finalize(key);
        }
        Forget(key);
      }
    }

    method CountPacket(truncated: bool)
      requires Inv(None)
      modifies `stats
      ensures Inv(None) && stats == Noted(old(stats), truncated)
    {
      hide Numbered, SessionsDistinct, SessionsKnown, Logged, LiveUpToDate, DeadComplete;
      stats := stats.(packets := stats.packets + 1,
                      truncated := stats.truncated + if truncated then 1 else 0);
    }

    /** With the buffer empty any live connection may take it. */
    ghost method BeginPacket(key: FlowKey)
      requires Inv(None) && key in conns && !conns[key].finished
      ensures Inv(Some(key))
    {
    }

    /** Sink what the packet produced. */
    method EndPacket(key: FlowKey)
      requires Inv(Some(key))
      modifies this
      ensures Inv(None) && State() == Sinking(old(State()), key)
    {
      hide Numbered, SessionsDistinct, SessionsKnown, Logged, LiveUpToDate, DeadComplete, Grows;
      ghost var log0 := log;
      DrainEvents(key);
      DrainKeepsHistory(old(conns), conns, key, serial, inputs, log0, log, old(evbuf), codec);
    }

    method OnSegments(caps: seq<Captured>)
      requires Inv(None)
      modifies this
      ensures Inv(None) && old(State()).Booked()
      ensures var st := AfterSegments(old(State()), caps, port, codec);
              State() == st && inputs == st.inputs && flows == st.flows
    {
      hide Inv, AfterSegment;
      IdleBooks();
      for i := 0 to |caps|
        invariant Inv(None) && State() == AfterSegments(old(State()), caps[..i], port, codec)
      {
        assert caps[..i + 1][..i] == caps[..i];
        OnSegment(caps[i].ts, caps[i].seg, caps[i].truncated);
      }
      assert caps[..|caps|] == caps;
    }

    ghost method IdleBooks()
      requires Inv(None)
      ensures State().Booked()
    {
      SoundBooks();
    }

    /** A connection that is over for good. */
    method BuryAndForget(key: FlowKey)
      requires Inv(None) && key in conns
      modifies this
      ensures Inv(None) && State() == Forgotten(Buried(old(State()), key), key)
      ensures conns.Keys == old(conns).Keys - {key}
      ensures inputs == old(inputs) && flows == old(flows) && stats.connections == old(stats).connections
    {
      hide Numbered, SessionsDistinct, SessionsKnown, Logged, LiveUpToDate, DeadComplete, Counted, Buried;
      ghost var before := State();
      if !conns[key].finished {
        BeginPacket(key);
        Finalize(key);
      }
      BuriedKeeps(before, key);
      Forget(key);
    }

    /** The books when no connection is tracked any more. */
    ghost method BooksClosed()
      requires Inv(None) && conns == map[]
      ensures |flows| == |inputs| == stats.connections == Disposed(stats)
      ensures forall n | 0 <= n < stats.connections :: EventsOf(log, n) == Complete(inputs[n], codec)
      ensures forall i, j | 0 <= i < |log| && 0 <= j < |log| ::
                log[i].sid == log[j].sid <==> log[i].serial == log[j].serial
    {
      hide LiveUpToDate, DeadComplete, Logged, SessionsDistinct, Numbered, SessionsKnown, EventsOf, Complete;
      assert LiveKeys(conns) == {};
      AllDead(serial, inputs, log, codec);
      IdsIdentify(owner, used, syntheticNext, stats.connections, log, sunk);
    }

    /** End of file: every connection still open is flushed and counted, in
        some order, so the counters account for all connections, and the sink
        has received every connection's events, each under its own session id. */
    method Finish() returns (ghost order: seq<FlowKey>)
      requires Inv(None)
      modifies this
      ensures Inv(None) && State() == AllBuried(old(State()), order)
      ensures multiset(order) == multiset(old(conns).Keys) && conns == map[]
      ensures inputs == old(inputs) && flows == old(flows) && |flows| == |inputs| == stats.connections
      ensures stats.connections == old(stats).connections == Disposed(stats)
      ensures forall n | 0 <= n < stats.connections :: EventsOf(log, n) == Complete(inputs[n], codec)
      ensures forall i, j | 0 <= i < |log| && 0 <= j < |log| ::
                log[i].sid == log[j].sid <==> log[i].serial == log[j].serial
    {
      hide Inv, Buried, Forgotten, EventsOf, Complete, Disposed;
      var keys := conns.Keys;
      order := [];
      while keys != {}
        invariant Inv(None) && conns.Keys == keys
        invariant State() == AllBuried(old(State()), order)
        invariant inputs == old(inputs) && flows == old(flows) && stats.connections == old(stats).connections
        invariant multiset(order) + multiset(keys) == multiset(old(conns).Keys)
        decreases keys
      {
        var key :| key in keys;
        BuryAndForget(key);
        OneFewer(order, keys, key);
        BuriedSnoc(old(State()), order, key);
        order := order + [key];
        keys := keys - {key};
      }
      BooksClosed();
    }
  }

  lemma {:induction false} OneFewer(order: seq<FlowKey>, keys: set<FlowKey>, key: FlowKey)
    requires key in keys
    ensures multiset(order + [key]) + multiset(keys - {key}) == multiset(order) + multiset(keys)
  {
    assert multiset(keys) == multiset(keys - {key}) + multiset{key};
  }

  /** A whole capture: what each connection was fed is what the segments of
      its own flow say, and that decides the events sunk for it, all of them
      under its own session id. */
  method ScanPcap(caps: seq<Captured>, port: nat, codec: Codec) returns (engine: Engine)
    ensures engine.Inv(None) && engine.conns == map[] && engine.codec == codec
    ensures engine.inputs == AfterSegments(IDLE, caps, port, codec).inputs
    ensures engine.stats.connections == |engine.inputs| == |engine.flows| == Disposed(engine.stats)
    ensures forall key :: Feeds(engine.flows, engine.inputs, key) == AfterOwn(Own(caps, port, key), codec).feeds
    ensures forall n | 0 <= n < |engine.inputs| :: EventsOf(engine.log, n) == Complete(engine.inputs[n], codec)
    ensures forall i, j | 0 <= i < |engine.log| && 0 <= j < |engine.log| ::
              engine.log[i].sid == engine.log[j].sid <==> engine.log[i].serial == engine.log[j].serial
  {
    hide *;
    engine := new Engine(port, codec);
    engine.OnSegments(caps);
    ghost var order := engine.Finish();
    FeedsOfScan(caps, port, codec);
  }

  lemma {:induction false} FeedsOfScan(caps: seq<Captured>, port: nat, codec: Codec)
    ensures var st := AfterSegments(IDLE, caps, port, codec);
            |st.flows| == |st.inputs|
            && forall key :: Feeds(st.flows, st.inputs, key) == AfterOwn(Own(caps, port, key), codec).feeds
  {
    hide AfterSegments, Feeds, Own, AfterOwn, Latest;
    forall key ensures TrackOf(AfterSegments(IDLE, caps, port, codec), key) == AfterOwn(Own(caps, port, key), codec) {
      FlowsAreIndependent(caps, port, codec, key);
    }
  }
}
