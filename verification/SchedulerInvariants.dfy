/** What every step of the replay scheduler keeps. */
module SchedulerInvariants {
  import opened Bytes
  import opened WriteGate
  import opened Scheduler

  // ---------------------------------------------------------------------
  // One task
  // ---------------------------------------------------------------------

  /** The event may reach the server. */
  predicate Cleared(cfg: Config, e: Event) {
    MayRun(cfg, e) && !SkipsUse(cfg, e)
  }

  predicate NeedsEvent(pc: Pc) {
    pc.Due? || pc.Acquire? || pc.Checkout? || pc.Connecting? || pc.Pace? || pc.Switch? || pc.Exec?
  }

  /** What holds of a task at each point: a permit is never awaited while one
      is held, and only cleared events come near the server. */
  predicate TaskOk(cfg: Config, events: seq<Event>, t: Task) {
    && |t.log| <= |events|
    && (t.conn.Some? ==> t.permit)
    && (NeedsEvent(t.pc) ==> |t.log| < |events|)
    && match t.pc
       case Start => !t.permit && t.log == []
       case Due => !t.permit && !cfg.pooled
       case Acquire => !t.permit && (cfg.pooled ==> Cleared(cfg, events[|t.log|]))
       case Checkout => cfg.pooled && t.permit && t.conn.None? && Cleared(cfg, events[|t.log|])
       case Connecting => t.permit && t.conn.None? && (cfg.pooled ==> Cleared(cfg, events[|t.log|]))
       case Fetch => if cfg.pooled then !t.permit else t.conn.Some?
       case Pace => if cfg.pooled then !t.permit else t.conn.Some?
       case Switch =>
         var e := events[|t.log|];
         t.conn.Some? && Cleared(cfg, e) && cfg.useEventDb && e.db.Some?
       case Exec =>
         var e := events[|t.log|];
         t.conn.Some? && Cleared(cfg, e) && (cfg.useEventDb && e.db.Some? ==> t.conn.value.db == e.db)
       case Draining(how) =>
         && (cfg.pooled ==> !t.permit)
         && (how == NotRun || (how == Skipped && !HasExecutable(cfg, events)))
       case Done => !t.permit && |t.log| == |events|
  }

  /** A skip means the event was not cleared; running it means it was. */
  predicate LogOk(cfg: Config, events: seq<Event>, log: seq<Outcome>) {
    |log| <= |events| && forall j | 0 <= j < |log| ::
      && (log[j] == Skipped ==> !Cleared(cfg, events[j]))
      && (log[j] == Executed || log[j] == Errored ==> Cleared(cfg, events[j]))
  }

  /** The tool's idea of the current database is right whenever it has one. */
  predicate Trusted(c: Conn) {
    c.db.Some? ==> c.actual == c.db
  }

  /** A captured USE carries the database it selects, as the wire decoder
      records it; pooled sessions skip USE and need no such promise. */
  predicate UseTagged(cfg: Config) {
    cfg.pooled || forall s | s in cfg.sessions :: forall e | e in s ::
      IsUse(e.query) ==> e.db == Some(cfg.useTarget(e.query))
  }

  // ---------------------------------------------------------------------
  // Sums over tasks
  // ---------------------------------------------------------------------

  predicate HoldsConn(t: Task) {
    t.conn.Some?
  }

  /** The task has a connection or is opening one. */
  predicate IsBusy(t: Task) {
    t.conn.Some? || t.pc == Connecting
  }

  lemma {:induction false} CountUpdate(tasks: seq<Task>, i: nat, t: Task, p: Task -> bool)
    requires i < |tasks|
    ensures CountIf(tasks[i := t], p) + (if p(tasks[i]) then 1 else 0) == CountIf(tasks, p) + if p(t) then 1 else 0
  {
    if i == 0 {
      assert tasks[0 := t][1..] == tasks[1..];
    } else {
      assert tasks[i := t][1..] == tasks[1..][i - 1 := t];
      CountUpdate(tasks[1..], i - 1, t, p);
    }
  }

  lemma {:induction false} CountLe(tasks: seq<Task>, p: Task -> bool, q: Task -> bool)
    requires forall t | t in tasks :: p(t) ==> q(t)
    ensures CountIf(tasks, p) <= CountIf(tasks, q)
  {
    if tasks != [] {
      CountLe(tasks[1..], p, q);
    }
  }

  /** Records of outcome `o` in a log, all or only those of a fingerprint. */
  function CountLog(events: seq<Event>, log: seq<Outcome>, fp: Option<nat>, o: Outcome): nat
    requires |log| <= |events|
  {
    if log == [] then 0
    else
      var n := |log| - 1;
      CountLog(events, log[..n], fp, o)
      + if log[n] == o && (fp == None || fp == Some(events[n].fp)) then 1 else 0
  }

  predicate LogsFit(sessions: seq<seq<Event>>, tasks: seq<Task>) {
    |tasks| == |sessions| && forall i | 0 <= i < |tasks| :: |tasks[i].log| <= |sessions[i]|
  }

  function SumLogs(sessions: seq<seq<Event>>, tasks: seq<Task>, fp: Option<nat>, o: Outcome): nat
    requires LogsFit(sessions, tasks)
  {
    if tasks == [] then 0
    else CountLog(sessions[0], tasks[0].log, fp, o) + SumLogs(sessions[1..], tasks[1..], fp, o)
  }

  lemma {:induction false} SumUpdate(sessions: seq<seq<Event>>, tasks: seq<Task>, i: nat, t: Task, fp: Option<nat>,
                                     o: Outcome)
    requires LogsFit(sessions, tasks) && i < |tasks| && |t.log| <= |sessions[i]|
    ensures SumLogs(sessions, tasks[i := t], fp, o) + CountLog(sessions[i], tasks[i].log, fp, o)
         == SumLogs(sessions, tasks, fp, o) + CountLog(sessions[i], t.log, fp, o)
  {
    if i == 0 {
      assert tasks[0 := t][1..] == tasks[1..];
    } else {
      assert tasks[i := t][1..] == tasks[1..][i - 1 := t];
      SumUpdate(sessions[1..], tasks[1..], i - 1, t, fp, o);
    }
  }

  // ---------------------------------------------------------------------
  // The invariant
  // ---------------------------------------------------------------------

  ghost predicate TasksOk(cfg: Config, st: State) {
    && |st.tasks| == |cfg.sessions|
    && forall i | 0 <= i < |st.tasks| ::
         TaskOk(cfg, cfg.sessions[i], st.tasks[i]) && LogOk(cfg, cfg.sessions[i], st.tasks[i].log)
  }

  /** Permits and connections never exceed the cap, and every successful
      connect is shelved, held, lost to a fatal error, or closed. */
  predicate Bounded(cfg: Config, st: State) {
    && PermitsIn(st.tasks) <= cfg.cap
    && |st.idle| + CountIf(st.tasks, IsBusy) <= cfg.cap
    && st.connects == |st.idle| + CountIf(st.tasks, HoldsConn) + st.discarded + st.closed
    && (cfg.pooled ==> st.closed == 0)
    && (!cfg.pooled ==> st.idle == [])
  }

  /** The counters are exactly the recorded outcomes, in total and per fingerprint. */
  ghost predicate Tallied(cfg: Config, st: State) {
    && LogsFit(cfg.sessions, st.tasks)
    && (forall o: Outcome :: st.metrics.total.Get(o) == SumLogs(cfg.sessions, st.tasks, None, o))
    && (forall fp: nat, o: Outcome :: st.metrics.Of(fp).Get(o) == SumLogs(cfg.sessions, st.tasks, Some(fp), o))
  }

  predicate DbOk(cfg: Config, st: State) {
    UseTagged(cfg) ==>
      && (forall c | c in st.idle :: Trusted(c))
      && (forall t | t in st.tasks :: t.conn.Some? ==> Trusted(t.conn.value))
  }

  /** A sent event was cleared, ran against its own database, and is recorded
      as executed or failed. */
  predicate SentOk(cfg: Config, tasks: seq<Task>, w: Sent) {
    && w.session < |tasks| == |cfg.sessions|
    && w.index < |tasks[w.session].log| <= |cfg.sessions[w.session]|
    && (tasks[w.session].log[w.index] == Executed || tasks[w.session].log[w.index] == Errored)
    && var e := cfg.sessions[w.session][w.index];
       Cleared(cfg, e) && (UseTagged(cfg) && cfg.useEventDb && e.db.Some? ==> w.actual == e.db)
  }

  ghost predicate WireOk(cfg: Config, st: State) {
    && (forall w | w in st.wire :: SentOk(cfg, st.tasks, w))
    && (forall a, b | 0 <= a < b < |st.wire| ::
          !(st.wire[a].session == st.wire[b].session && st.wire[a].index == st.wire[b].index))
  }

  ghost predicate Inv(cfg: Config, st: State) {
    TasksOk(cfg, st) && Bounded(cfg, st) && Tallied(cfg, st) && DbOk(cfg, st) && WireOk(cfg, st)
  }

  // ---------------------------------------------------------------------
  // What a step may change
  // ---------------------------------------------------------------------

  /** Task `i` records `o`, or nothing, and no other task changes. */
  predicate Records(cfg: Config, st: State, st': State, i: nat, o: Option<Outcome>) {
    && i < |st.tasks| == |cfg.sessions| && |st'.tasks| == |st.tasks|
    && st'.tasks == st.tasks[i := st'.tasks[i]]
    && match o
       case None => st'.tasks[i].log == st.tasks[i].log && st'.metrics == st.metrics
       case Some(x) =>
         && InHand(cfg, st, i)
         && st'.tasks[i].log == st.tasks[i].log + [x]
         && st'.metrics == st.metrics.Record(Hand(cfg, st, i).fp, x)
         && (x == Skipped ==> !Cleared(cfg, Hand(cfg, st, i)))
         && (x == Executed || x == Errored ==> Cleared(cfg, Hand(cfg, st, i)))
  }

  function Bit(b: bool): nat {
    if b then 1 else 0
  }

  /** Connections change hands without appearing or vanishing, except that a
      connect adds one to an empty shelf. */
  predicate Balances(cfg: Config, st: State, st': State, i: nat)
    requires i < |st.tasks| && |st'.tasks| == |st.tasks|
  {
    var t, t' := st.tasks[i], st'.tasks[i];
    && (t'.permit ==> t.permit || PermitsIn(st.tasks) < cfg.cap)
    && (|st'.idle| + Bit(IsBusy(t')) <= |st.idle| + Bit(IsBusy(t)) || st'.idle == [])
    && st'.connects + |st.idle| + Bit(HoldsConn(t)) + st.discarded + st.closed
       == st.connects + |st'.idle| + Bit(HoldsConn(t')) + st'.discarded + st'.closed
    && (cfg.pooled ==> st'.closed == st.closed)
    && (!cfg.pooled ==> st'.idle == st.idle)
  }

  predicate KeepsTrust(cfg: Config, st: State, st': State, i: nat)
    requires i < |st.tasks| && |st'.tasks| == |st.tasks|
  {
    UseTagged(cfg) ==>
      && (st'.tasks[i].conn.Some? ==> Trusted(st'.tasks[i].conn.value))
      && forall c | c in st'.idle :: c in st.idle || Trusted(c)
  }

  /** At most the event in hand is sent, and then its outcome is recorded. */
  predicate Sends(cfg: Config, st: State, st': State, i: nat, o: Option<Outcome>)
    requires i < |st.tasks| && |st'.tasks| == |st.tasks|
  {
    || st'.wire == st.wire
    || (&& o.Some? && (o.value == Executed || o.value == Errored) && InHand(cfg, st, i)
        && |st'.wire| == |st.wire| + 1 && st'.wire[..|st.wire|] == st.wire
        && var w := st'.wire[|st.wire|];
           var e := Hand(cfg, st, i);
           w.session == i && w.index == |st.tasks[i].log|
           && (UseTagged(cfg) && cfg.useEventDb && e.db.Some? ==> w.actual == e.db))
  }

  predicate GoodStep(cfg: Config, st: State, st': State, i: nat, o: Option<Outcome>) {
    && Records(cfg, st, st', i, o)
    && TaskOk(cfg, cfg.sessions[i], st'.tasks[i])
    && Balances(cfg, st, st', i)
    && KeepsTrust(cfg, st, st', i)
    && Sends(cfg, st, st', i, o)
  }

  lemma {:induction false} StepKeepsTasks(cfg: Config, st: State, st': State, i: nat, o: Option<Outcome>)
    requires TasksOk(cfg, st) && Records(cfg, st, st', i, o) && TaskOk(cfg, cfg.sessions[i], st'.tasks[i])
    ensures TasksOk(cfg, st')
  {
    hide TaskOk;
    assert TaskOk(cfg, cfg.sessions[i], st.tasks[i]) && LogOk(cfg, cfg.sessions[i], st.tasks[i].log);
    assert LogOk(cfg, cfg.sessions[i], st'.tasks[i].log) by {
      assert |st'.tasks[i].log| <= |cfg.sessions[i]|;
    }
  }

  lemma {:induction false} StepKeepsBounds(cfg: Config, st: State, st': State, i: nat, o: Option<Outcome>)
    requires TasksOk(cfg, st') && Bounded(cfg, st)
    requires Records(cfg, st, st', i, o) && Balances(cfg, st, st', i)
    ensures Bounded(cfg, st')
  {
    CountUpdate(st.tasks, i, st'.tasks[i], HoldsPermit);
    CountUpdate(st.tasks, i, st'.tasks[i], IsBusy);
    CountUpdate(st.tasks, i, st'.tasks[i], HoldsConn);
    forall t | t in st'.tasks ensures IsBusy(t) ==> HoldsPermit(t) {
      var j :| 0 <= j < |st'.tasks| && st'.tasks[j] == t;
      assert TaskOk(cfg, cfg.sessions[j], st'.tasks[j]);
    }
    CountLe(st'.tasks, IsBusy, HoldsPermit);
  }

  lemma {:induction false} CountLogSnoc(events: seq<Event>, log: seq<Outcome>, x: Outcome, fp: Option<nat>, o: Outcome)
    requires |log| < |events|
    ensures CountLog(events, log + [x], fp, o)
         == CountLog(events, log, fp, o) + Bit(x == o && (fp == None || fp == Some(events[|log|].fp)))
  {
    assert (log + [x])[..|log|] == log;
  }

  /** A step adds what it records to the sum of its outcome, and to no other. */
  lemma {:induction false} SumStep(cfg: Config, st: State, st': State, i: nat, o: Option<Outcome>, fp: Option<nat>,
                                   x: Outcome)
    requires LogsFit(cfg.sessions, st.tasks) && LogsFit(cfg.sessions, st'.tasks) && Records(cfg, st, st', i, o)
    ensures SumLogs(cfg.sessions, st'.tasks, fp, x)
         == SumLogs(cfg.sessions, st.tasks, fp, x)
            + Bit(o == Some(x) && (fp == None || fp == Some(Hand(cfg, st, i).fp)))
  {
    hide SumLogs, CountLog;
    SumUpdate(cfg.sessions, st.tasks, i, st'.tasks[i], fp, x);
    if o.Some? { CountLogSnoc(cfg.sessions[i], st.tasks[i].log, o.value, fp, x); }
  }

  lemma {:induction false} CountersStep(cfg: Config, st: State, st': State, i: nat, o: Option<Outcome>, x: Outcome)
    requires Records(cfg, st, st', i, o)
    ensures st'.metrics.total.Get(x) == st.metrics.total.Get(x) + Bit(o == Some(x))
    ensures forall fp: nat :: st'.metrics.Of(fp).Get(x)
              == st.metrics.Of(fp).Get(x) + Bit(o == Some(x) && fp == Hand(cfg, st, i).fp)
  {
    hide Cleared;
  }

  lemma {:induction false} LogsStillFit(cfg: Config, st: State)
    requires TasksOk(cfg, st)
    ensures LogsFit(cfg.sessions, st.tasks)
  {
    forall j | 0 <= j < |st.tasks| ensures |st.tasks[j].log| <= |cfg.sessions[j]| {
      assert TaskOk(cfg, cfg.sessions[j], st.tasks[j]);
    }
  }

  lemma {:induction false} StepKeepsTally(cfg: Config, st: State, st': State, i: nat, o: Option<Outcome>)
    requires TasksOk(cfg, st') && Tallied(cfg, st) && Records(cfg, st, st', i, o)
    ensures Tallied(cfg, st')
  {
    hide SumLogs, LogsFit, Records, TasksOk, Hand;
    LogsStillFit(cfg, st');
    forall x: Outcome ensures st'.metrics.total.Get(x) == SumLogs(cfg.sessions, st'.tasks, None, x) {
      SumStep(cfg, st, st', i, o, None, x);
      CountersStep(cfg, st, st', i, o, x);
    }
    forall fp: nat, x: Outcome ensures st'.metrics.Of(fp).Get(x) == SumLogs(cfg.sessions, st'.tasks, Some(fp), x) {
      SumStep(cfg, st, st', i, o, Some(fp), x);
      CountersStep(cfg, st, st', i, o, x);
    }
  }

  /** A sent event stays accounted for. */
  lemma {:induction false} SentStays(cfg: Config, st: State, st': State, i: nat, o: Option<Outcome>, w: Sent)
    requires Records(cfg, st, st', i, o) && |st'.tasks[i].log| <= |cfg.sessions[i]| && SentOk(cfg, st.tasks, w)
    ensures SentOk(cfg, st'.tasks, w)
    ensures w.session == i ==> w.index < |st.tasks[i].log|
  {
    hide Cleared, UseTagged;
  }

  lemma {:induction false} SentNow(cfg: Config, st: State, st': State, i: nat, o: Option<Outcome>)
    requires Records(cfg, st, st', i, o) && |st'.tasks[i].log| <= |cfg.sessions[i]| && Sends(cfg, st, st', i, o)
    requires st'.wire != st.wire
    ensures var w := st'.wire[|st.wire|];
            st'.wire == st.wire + [w] && SentOk(cfg, st'.tasks, w) && w.session == i && w.index == |st.tasks[i].log|
  {
    hide UseTagged, MayRun, SkipsUse;
  }

  lemma {:induction false} StepKeepsWire(cfg: Config, st: State, st': State, i: nat, o: Option<Outcome>)
    requires TasksOk(cfg, st') && WireOk(cfg, st)
    requires Records(cfg, st, st', i, o) && Sends(cfg, st, st', i, o)
    ensures WireOk(cfg, st')
  {
    assert TaskOk(cfg, cfg.sessions[i], st'.tasks[i]);
    hide TaskOk, TasksOk, SentOk, Sends, Records;
    forall w | w in st.wire ensures SentOk(cfg, st'.tasks, w) && (w.session == i ==> w.index < |st.tasks[i].log|) {
      SentStays(cfg, st, st', i, o, w);
    }
    if st'.wire != st.wire {
      SentNow(cfg, st, st', i, o);
      WireSnoc(cfg, st, st', i);
    }
  }

  lemma {:induction false} WireSnoc(cfg: Config, st: State, st': State, i: nat)
    requires i < |st.tasks| && WireOk(cfg, st) && |st'.wire| == |st.wire| + 1
    requires forall w | w in st.wire :: SentOk(cfg, st'.tasks, w) && (w.session == i ==> w.index < |st.tasks[i].log|)
    requires var w := st'.wire[|st.wire|];
             st'.wire == st.wire + [w] && SentOk(cfg, st'.tasks, w) && w.session == i && w.index == |st.tasks[i].log|
    ensures WireOk(cfg, st')
  {
    hide SentOk;
    forall a, b | 0 <= a < b < |st'.wire|
      ensures !(st'.wire[a].session == st'.wire[b].session && st'.wire[a].index == st'.wire[b].index)
    {
      assert st'.wire[a] in st.wire;
    }
  }

  lemma {:induction false} StepKeepsTrust(cfg: Config, st: State, st': State, i: nat, o: Option<Outcome>)
    requires DbOk(cfg, st) && Records(cfg, st, st', i, o) && KeepsTrust(cfg, st, st', i)
    ensures DbOk(cfg, st')
  {
  }

  lemma {:induction false} GoodStepKeepsInv(cfg: Config, st: State, st': State, i: nat, o: Option<Outcome>)
    requires Inv(cfg, st) && GoodStep(cfg, st, st', i, o)
    ensures Inv(cfg, st')
  {
    hide TasksOk, Bounded, Tallied, DbOk, WireOk, Records, TaskOk, Balances, KeepsTrust, Sends;
    StepKeepsTasks(cfg, st, st', i, o);
    StepKeepsBounds(cfg, st, st', i, o);
    StepKeepsTally(cfg, st, st', i, o);
    StepKeepsWire(cfg, st, st', i, o);
    StepKeepsTrust(cfg, st, st', i, o);
  }
}
