/** Safety, accounting, progress and termination of the replay scheduler over
    every interleaving. */
module SchedulerSafety {
  import opened Bytes
  import opened WriteGate
  import opened Scheduler
  import opened SchedulerInvariants

  // ---------------------------------------------------------------------
  // Every step is a good step
  // ---------------------------------------------------------------------

  /** What the invariant says of task `i` and the shelf before the step. */
  predicate LocalOk(cfg: Config, st: State, i: nat) {
    && i < |st.tasks| == |cfg.sessions|
    && TaskOk(cfg, cfg.sessions[i], st.tasks[i])
    && (!cfg.pooled ==> st.idle == [])
    && (UseTagged(cfg) ==>
          && (forall c | c in st.idle :: Trusted(c))
          && (st.tasks[i].conn.Some? ==> Trusted(st.tasks[i].conn.value)))
  }

  lemma {:induction false} UseConnIsGood(cfg: Config, st: State, i: nat, c: Conn, from: State)
    requires LocalOk(cfg, from, i) && InHand(cfg, from, i) && from.tasks[i].permit && Cleared(cfg, Hand(cfg, from, i))
    requires st.tasks == from.tasks && st.wire == from.wire && st.metrics == from.metrics
    requires UseTagged(cfg) ==> Trusted(c)
    requires Balances(cfg, from, UseConn(cfg, st, i, c, Hand(cfg, from, i)), i)
    requires forall x | x in st.idle :: x in from.idle
    ensures GoodStep(cfg, from, UseConn(cfg, st, i, c, Hand(cfg, from, i)), i, None)
  {
  }

  lemma {:induction false} CheckoutIsGood(cfg: Config, st: State, i: nat)
    requires LocalOk(cfg, st, i) && st.tasks[i].pc == Checkout
    ensures GoodStep(cfg, st, StepCheckout(cfg, st, i), i, None)
  {
    if st.idle != [] {
      var n := |st.idle| - 1;
      var taken := st.(idle := st.idle[..n]);
      UseConnIsGood(cfg, taken, i, st.idle[n], st);
    }
  }

  lemma {:induction false} ConnectIsGood(cfg: Config, st: State, i: nat, choice: Choice)
    requires LocalOk(cfg, st, i) && st.tasks[i].pc == Connecting
    ensures GoodStep(cfg, st, StepConnect(cfg, st, i, choice), i, if choice.Works? then None else Some(NotRun))
  {
    if choice.Works? && cfg.pooled {
      UseConnIsGood(cfg, st.(connects := st.connects + 1), i, Conn(cfg.defaultDb, cfg.defaultDb), st);
    }
  }

  lemma {:induction false} PaceIsGood(cfg: Config, st: State, i: nat) returns (o: Option<Outcome>)
    requires LocalOk(cfg, st, i) && st.tasks[i].pc == Pace
    ensures StepPace(cfg, st, i).Some? && GoodStep(cfg, st, StepPace(cfg, st, i).value, i, o)
  {
    var e := Hand(cfg, st, i);
    o := if st.shutdown then Some(NotRun) else if !Cleared(cfg, e) then Some(Skipped) else None;
    if !st.shutdown && Cleared(cfg, e) && !cfg.pooled {
      UseConnIsGood(cfg, st, i, st.tasks[i].conn.value, st);
    }
  }

  /** Recording the event in hand and handing the connection on. */
  lemma {:induction false} AfterUseIsGood(cfg: Config, st: State, sent: State, i: nat, x: Outcome, c: Conn, fatal: bool)
    requires LocalOk(cfg, st, i) && InHand(cfg, st, i) && st.tasks[i].conn.Some?
    requires x == Executed || x == Errored
    requires Cleared(cfg, Hand(cfg, st, i)) && (UseTagged(cfg) ==> Trusted(c))
    requires sent == st.(wire := sent.wire) && Sends(cfg, st, sent, i, Some(x))
    ensures GoodStep(cfg, st, AfterUse(cfg, Record(cfg, sent, i, x), i, c, fatal), i, Some(x))
  {
    hide UseTagged, HasExecutable, Cleared;
  }

  lemma {:induction false} SwitchIsGood(cfg: Config, st: State, i: nat, choice: Choice)
    requires LocalOk(cfg, st, i) && st.tasks[i].pc == Switch
    ensures GoodStep(cfg, st, StepSwitch(cfg, st, i, st.tasks[i].conn.value, choice), i,
                     if choice.Works? then None else Some(Errored))
  {
    hide UseTagged, HasExecutable, Cleared, AfterUse;
    if choice.Fails? {
      AfterUseIsGood(cfg, st, st, i, Errored, st.tasks[i].conn.value, choice.fatal);
    }
  }

  lemma {:induction false} UseKeepsTrust(cfg: Config, c: Conn, i: nat, j: nat)
    requires i < |cfg.sessions| && j < |cfg.sessions[i]|
    requires UseTagged(cfg) && Trusted(c) && Cleared(cfg, cfg.sessions[i][j])
    requires cfg.useEventDb && cfg.sessions[i][j].db.Some? ==> c.db == cfg.sessions[i][j].db
    ensures Trusted(Executing(cfg, c, cfg.sessions[i][j]))
  {
    assert cfg.sessions[i] in cfg.sessions && cfg.sessions[i][j] in cfg.sessions[i];
  }

  lemma {:induction false} ExecIsGood(cfg: Config, st: State, i: nat, choice: Choice)
    requires LocalOk(cfg, st, i) && st.tasks[i].pc == Exec
    ensures GoodStep(cfg, st, StepExec(cfg, st, i, st.tasks[i].conn.value, choice), i,
                     Some(if choice.Works? then Executed else Errored))
  {
    hide UseTagged, HasExecutable, Cleared, AfterUse, Record, GoodStep, Executing;
    var c, e := st.tasks[i].conn.value, Hand(cfg, st, i);
    var w := Sent(i, |st.tasks[i].log|, c.actual);
    var sent := st.(wire := st.wire + [w]);
    if UseTagged(cfg) {
      UseKeepsTrust(cfg, c, i, |st.tasks[i].log|);
    }
    if choice.Works? {
      AfterUseIsGood(cfg, st, sent, i, Executed, Executing(cfg, c, e), false);
    } else {
      AfterUseIsGood(cfg, st, sent, i, Errored, c, choice.fatal);
    }
  }

  lemma {:induction false} WaitIsGood(cfg: Config, st: State, i: nat, choice: Choice)
    requires LocalOk(cfg, st, i) && (st.tasks[i].pc == Due || st.tasks[i].pc == Acquire)
    requires RunTask(cfg, st, i, choice).Some?
    ensures GoodStep(cfg, st, RunTask(cfg, st, i, choice).value, i, if st.shutdown then Some(NotRun) else None)
  {
    hide UseTagged, HasExecutable;
  }

  lemma {:induction false} DrainIsGood(cfg: Config, st: State, i: nat, choice: Choice)
    requires LocalOk(cfg, st, i) && st.tasks[i].pc.Draining?
    requires RunTask(cfg, st, i, choice).Some?
    ensures GoodStep(cfg, st, RunTask(cfg, st, i, choice).value, i,
                     if InHand(cfg, st, i) then Some(st.tasks[i].pc.how) else None)
  {
    hide UseTagged;
  }

  lemma {:induction false} FetchIsGood(cfg: Config, st: State, i: nat, choice: Choice)
    requires LocalOk(cfg, st, i) && (st.tasks[i].pc == Fetch || st.tasks[i].pc == Start)
    requires RunTask(cfg, st, i, choice).Some?
    ensures GoodStep(cfg, st, RunTask(cfg, st, i, choice).value, i, None)
  {
    hide UseTagged;
  }

  lemma {:induction false} RunTaskIsGood(cfg: Config, st: State, i: nat, choice: Choice) returns (o: Option<Outcome>)
    requires LocalOk(cfg, st, i) && RunTask(cfg, st, i, choice).Some?
    ensures GoodStep(cfg, st, RunTask(cfg, st, i, choice).value, i, o)
  {
    hide GoodStep, StepCheckout, StepConnect, StepPace, StepSwitch, StepExec, StepAcquire, StepStart, GiveUp, Finish;
    o := None;
    match st.tasks[i].pc {
      case Checkout => CheckoutIsGood(cfg, st, i);
      case Connecting =>
        ConnectIsGood(cfg, st, i, choice);
        o := if choice.Works? then None else Some(NotRun);
      case Pace => o := PaceIsGood(cfg, st, i);
      case Switch =>
        SwitchIsGood(cfg, st, i, choice);
        o := if choice.Works? then None else Some(Errored);
      case Exec =>
        ExecIsGood(cfg, st, i, choice);
        o := Some(if choice.Works? then Executed else Errored);
      case Draining(how) =>
        DrainIsGood(cfg, st, i, choice);
        o := if InHand(cfg, st, i) then Some(how) else None;
      case Fetch => FetchIsGood(cfg, st, i, choice);
      case Start => FetchIsGood(cfg, st, i, choice);
      case Done =>
      case _ =>
        WaitIsGood(cfg, st, i, choice);
        o := if st.shutdown then Some(NotRun) else None;
    }
  }

  // ---------------------------------------------------------------------
  // Safety of every run
  // ---------------------------------------------------------------------

  lemma {:induction false} NextKeepsInv(cfg: Config, st: State, step: Step)
    requires Inv(cfg, st) && Next(cfg, st, step).Some?
    ensures Inv(cfg, Next(cfg, st, step).value)
  {
    hide TaskOk, UseTagged;
    match step {
      case Abort =>
      case Run(i, choice) =>
        hide RunTask, GoodStep;
        assert LocalOk(cfg, st, i);
        var o := RunTaskIsGood(cfg, st, i, choice);
        GoodStepKeepsInv(cfg, st, RunTask(cfg, st, i, choice).value, i, o);
    }
  }

  lemma {:induction false} InitCounts(n: nat, p: Task -> bool)
    requires !p(Task(Start, [], false, None))
    ensures CountIf(seq(n, _ => Task(Start, [], false, None)), p) == 0
  {
    if n > 0 {
      assert seq(n, _ => Task(Start, [], false, None))[1..] == seq(n - 1, _ => Task(Start, [], false, None));
      InitCounts(n - 1, p);
    }
  }

  lemma {:induction false} InitSums(sessions: seq<seq<Event>>, fp: Option<nat>, o: Outcome)
    ensures var tasks := seq(|sessions|, _ => Task(Start, [], false, None));
            LogsFit(sessions, tasks) && SumLogs(sessions, tasks, fp, o) == 0
  {
    if sessions != [] {
      assert seq(|sessions|, _ => Task(Start, [], false, None))[1..]
          == seq(|sessions[1..]|, _ => Task(Start, [], false, None));
      InitSums(sessions[1..], fp, o);
    }
  }

  lemma {:induction false} InitInv(cfg: Config)
    ensures Inv(cfg, Init(cfg))
  {
    hide UseTagged, SumLogs, CountIf;
    var st, n := Init(cfg), |cfg.sessions|;
    InitCounts(n, HoldsPermit);
    InitCounts(n, IsBusy);
    InitCounts(n, HoldsConn);
    forall fp: Option<nat>, o: Outcome
        ensures LogsFit(cfg.sessions, st.tasks) && SumLogs(cfg.sessions, st.tasks, fp, o) == 0 {
      InitSums(cfg.sessions, fp, o);
    }
    assert LogsFit(cfg.sessions, st.tasks) by { InitSums(cfg.sessions, None, Executed); }
  }

  /** The state after a run of steps, if every one of them was possible. */
  function After(cfg: Config, st: State, steps: seq<Step>): (r: Option<State>)
    requires |st.tasks| == |cfg.sessions|
    ensures r.Some? ==> |r.value.tasks| == |st.tasks|
    decreases |steps|
  {
    if steps == [] then Some(st)
    else match Next(cfg, st, steps[0])
         case None => None
         case Some(st1) => After(cfg, st1, steps[1..])
  }

  lemma {:induction false} RunsKeepInv(cfg: Config, st: State, steps: seq<Step>)
    requires Inv(cfg, st) && After(cfg, st, steps).Some?
    ensures Inv(cfg, After(cfg, st, steps).value)
    decreases |steps|
  {
    hide Inv, Next;
    InvShape(cfg, st);
    if steps != [] {
      NextKeepsInv(cfg, st, steps[0]);
      RunsKeepInv(cfg, Next(cfg, st, steps[0]).value, steps[1..]);
    }
  }

  lemma {:induction false} InvShape(cfg: Config, st: State)
    requires Inv(cfg, st)
    ensures |st.tasks| == |cfg.sessions|
  {
  }

  /** The state is reached by some interleaving. */
  ghost predicate Reachable(cfg: Config, st: State) {
    exists steps :: After(cfg, Init(cfg), steps) == Some(st)
  }

  lemma {:induction false} ReachableInv(cfg: Config, st: State)
    requires Reachable(cfg, st)
    ensures Inv(cfg, st)
  {
    hide Inv;
    var steps :| After(cfg, Init(cfg), steps) == Some(st);
    InitInv(cfg);
    RunsKeepInv(cfg, Init(cfg), steps);
  }

  /** In every interleaving permits and connections stay within the cap, pooled
      connects exceed it by no more than the connections lost, and no task
      waits for a permit while it holds one or a connection. */
  lemma {:induction false} CapacityIsRespected(cfg: Config, st: State)
    requires Reachable(cfg, st)
    ensures PermitsIn(st.tasks) <= cfg.cap
    ensures |st.idle| + CountIf(st.tasks, IsBusy) <= cfg.cap
    ensures cfg.pooled ==> st.connects <= cfg.cap + st.discarded
    ensures forall t | t in st.tasks && t.pc == Acquire :: !t.permit && t.conn.None?
  {
    ReachableInv(cfg, st);
    CountLe(st.tasks, HoldsConn, IsBusy);
    forall t | t in st.tasks && t.pc == Acquire ensures !t.permit && t.conn.None? {
      var i :| 0 <= i < |st.tasks| && st.tasks[i] == t;
      assert TaskOk(cfg, cfg.sessions[i], st.tasks[i]);
    }
  }

  /** No statement that fails the write gate is ever sent, none is sent twice,
      and what was skipped or not run was never sent. */
  lemma {:induction false} OnlyClearedEventsAreSent(cfg: Config, st: State)
    requires Reachable(cfg, st)
    ensures forall w | w in st.wire ::
              && w.session < |cfg.sessions| && w.index < |cfg.sessions[w.session]|
              && ShouldExecute(cfg.sessions[w.session][w.index].query, cfg.allowWrites)
              && w.index < |st.tasks[w.session].log|
              && (st.tasks[w.session].log[w.index] == Executed || st.tasks[w.session].log[w.index] == Errored)
    ensures forall a, b | 0 <= a < b < |st.wire| ::
              !(st.wire[a].session == st.wire[b].session && st.wire[a].index == st.wire[b].index)
  {
    ReachableInv(cfg, st);
    forall w | w in st.wire ensures SentOk(cfg, st.tasks, w) {}
  }

  /** However connections were shared before, an event runs only while the
      server's current database is its own: always when pooled, and on
      dedicated connections when captured USEs carry the database they select. */
  lemma {:induction false} EventsRunInTheirDatabase(cfg: Config, st: State)
    requires Reachable(cfg, st) && cfg.useEventDb && UseTagged(cfg)
    ensures forall w | w in st.wire ::
              && w.session < |cfg.sessions| && w.index < |cfg.sessions[w.session]|
              && var e := cfg.sessions[w.session][w.index];
                 e.db.Some? ==> w.actual == e.db
  {
    hide UseTagged;
    ReachableInv(cfg, st);
    forall w | w in st.wire ensures SentOk(cfg, st.tasks, w) {}
  }

  // ---------------------------------------------------------------------
  // Accounting
  // ---------------------------------------------------------------------

  /** Events of a list, all or only those of a fingerprint. */
  function CountEvents(events: seq<Event>, fp: Option<nat>): nat {
    if events == [] then 0
    else
      var n := |events| - 1;
      CountEvents(events[..n], fp) + if fp == None || fp == Some(events[n].fp) then 1 else 0
  }

  function SumEvents(sessions: seq<seq<Event>>, fp: Option<nat>): nat {
    if sessions == [] then 0 else CountEvents(sessions[0], fp) + SumEvents(sessions[1..], fp)
  }

  lemma {:induction false} LogCountsEvents(events: seq<Event>, log: seq<Outcome>, fp: Option<nat>)
    requires |log| <= |events|
    ensures CountLog(events, log, fp, Executed) + CountLog(events, log, fp, Skipped)
            + CountLog(events, log, fp, Errored) + CountLog(events, log, fp, NotRun)
            == CountEvents(events[..|log|], fp)
  {
    if log != [] {
      var n := |log| - 1;
      LogCountsEvents(events, log[..n], fp);
      assert events[..|log|][..n] == events[..n];
    }
  }

  /** The events each session has recorded so far. */
  function Recorded(sessions: seq<seq<Event>>, tasks: seq<Task>): seq<seq<Event>>
    requires LogsFit(sessions, tasks)
  {
    if tasks == [] then [] else [sessions[0][..|tasks[0].log|]] + Recorded(sessions[1..], tasks[1..])
  }

  lemma {:induction false} SumsCountEvents(sessions: seq<seq<Event>>, tasks: seq<Task>, fp: Option<nat>)
    requires LogsFit(sessions, tasks)
    ensures SumLogs(sessions, tasks, fp, Executed) + SumLogs(sessions, tasks, fp, Skipped)
            + SumLogs(sessions, tasks, fp, Errored) + SumLogs(sessions, tasks, fp, NotRun)
            == SumEvents(Recorded(sessions, tasks), fp)
  {
    if tasks != [] {
      LogCountsEvents(sessions[0], tasks[0].log, fp);
      SumsCountEvents(sessions[1..], tasks[1..], fp);
      var rest := Recorded(sessions[1..], tasks[1..]);
      assert Recorded(sessions, tasks)[1..] == rest;
    }
  }

  predicate AllDone(st: State) {
    forall t | t in st.tasks :: t.pc == Done
  }

  lemma {:induction false} DoneRecordsAll(sessions: seq<seq<Event>>, tasks: seq<Task>)
    requires LogsFit(sessions, tasks) && forall i | 0 <= i < |tasks| :: |tasks[i].log| == |sessions[i]|
    ensures Recorded(sessions, tasks) == sessions
  {
    if tasks != [] {
      DoneRecordsAll(sessions[1..], tasks[1..]);
      assert sessions[0][..|sessions[0]|] == sessions[0];
      assert sessions == [sessions[0]] + sessions[1..];
    }
  }

  /** At any moment the counters add up to the events recorded, in total and
      per fingerprint, whatever was aborted, refused or lost. */
  lemma {:induction false} CountersAddUp(cfg: Config, st: State)
    requires Reachable(cfg, st)
    ensures LogsFit(cfg.sessions, st.tasks)
    ensures st.metrics.total.Sum() == SumEvents(Recorded(cfg.sessions, st.tasks), None)
    ensures forall fp: nat :: st.metrics.Of(fp).Sum() == SumEvents(Recorded(cfg.sessions, st.tasks), Some(fp))
  {
    ReachableInv(cfg, st);
    hide SumLogs, SumEvents, Recorded;
    var total := st.metrics.total;
    assert total.Sum() == total.Get(Executed) + total.Get(Skipped) + total.Get(Errored) + total.Get(NotRun);
    SumsCountEvents(cfg.sessions, st.tasks, None);
    forall fp: nat ensures st.metrics.Of(fp).Sum() == SumEvents(Recorded(cfg.sessions, st.tasks), Some(fp)) {
      var c := st.metrics.Of(fp);
      assert c.Sum() == c.Get(Executed) + c.Get(Skipped) + c.Get(Errored) + c.Get(NotRun);
      SumsCountEvents(cfg.sessions, st.tasks, Some(fp));
    }
  }

  /** Once every task is done, each event has been recorded exactly once:
      executed, skipped, errors and not-run add up to all events. */
  lemma {:induction false} EveryEventIsRecorded(cfg: Config, st: State)
    requires Reachable(cfg, st) && AllDone(st)
    ensures forall i | 0 <= i < |st.tasks| :: i < |cfg.sessions| && |st.tasks[i].log| == |cfg.sessions[i]|
    ensures st.metrics.total.Sum() == SumEvents(cfg.sessions, None)
    ensures forall fp: nat :: st.metrics.Of(fp).Sum() == SumEvents(cfg.sessions, Some(fp))
    ensures PermitsIn(st.tasks) == 0
  {
    ReachableInv(cfg, st);
    CountersAddUp(cfg, st);
    forall i | 0 <= i < |st.tasks| ensures |st.tasks[i].log| == |cfg.sessions[i]| && !st.tasks[i].permit {
      assert TaskOk(cfg, cfg.sessions[i], st.tasks[i]);
      assert st.tasks[i] in st.tasks;
    }
    DoneRecordsAll(cfg.sessions, st.tasks);
    NonePermits(st.tasks);
  }

  lemma {:induction false} NonePermits(tasks: seq<Task>)
    requires forall t | t in tasks :: !t.permit
    ensures PermitsIn(tasks) == 0
  {
    if tasks != [] {
      NonePermits(tasks[1..]);
    }
  }

  // ---------------------------------------------------------------------
  // Progress and termination
  // ---------------------------------------------------------------------

  lemma {:induction false} SomeHolder(tasks: seq<Task>) returns (i: nat)
    requires PermitsIn(tasks) > 0
    ensures i < |tasks| && tasks[i].permit
  {
    if tasks[0].permit {
      i := 0;
    } else {
      i := SomeHolder(tasks[1..]);
      i := i + 1;
    }
  }

  /** A task stands still only when done, or waiting for a permit. */
  lemma {:induction false} OnlyPermitsBlock(cfg: Config, st: State, i: nat)
    requires Inv(cfg, st) && i < |st.tasks| && st.tasks[i].pc != Done
    requires st.tasks[i].pc == Acquire ==> st.shutdown || PermitsIn(st.tasks) < cfg.cap
    ensures Next(cfg, st, Run(i, Works)).Some?
  {
    assert TaskOk(cfg, cfg.sessions[i], st.tasks[i]);
  }

  /** No reachable state short of the end is stuck. */
  lemma {:induction false} Progress(cfg: Config, st: State) returns (i: nat)
    requires Reachable(cfg, st) && !AllDone(st) && cfg.cap > 0
    ensures |st.tasks| == |cfg.sessions| && Next(cfg, st, Run(i, Works)).Some?
  {
    ReachableInv(cfg, st);
    hide Next;
    var j :| 0 <= j < |st.tasks| && st.tasks[j].pc != Done;
    if st.tasks[j].pc == Acquire && !st.shutdown && PermitsIn(st.tasks) >= cfg.cap {
      i := SomeHolder(st.tasks);
      assert TaskOk(cfg, cfg.sessions[i], st.tasks[i]);
    } else {
      i := j;
    }
    OnlyPermitsBlock(cfg, st, i);
  }

  /** How far a task is from its next record. */
  function PcRank(cfg: Config, pc: Pc): nat {
    match pc
    case Start => 9
    case Due => 8
    case Acquire => if cfg.pooled then 6 else 7
    case Checkout => 5
    case Connecting => if cfg.pooled then 4 else 6
    case Fetch => if cfg.pooled then 8 else 5
    case Pace => if cfg.pooled then 7 else 4
    case Switch => 3
    case Exec => 2
    case Draining(_) => 1
    case Done => 0
  }

  function TaskRank(cfg: Config, events: seq<Event>, t: Task): nat
    requires |t.log| <= |events|
  {
    10 * (|events| - |t.log|) + PcRank(cfg, t.pc)
  }

  function RankSum(cfg: Config, sessions: seq<seq<Event>>, tasks: seq<Task>): nat
    requires LogsFit(sessions, tasks)
  {
    if tasks == [] then 0
    else TaskRank(cfg, sessions[0], tasks[0]) + RankSum(cfg, sessions[1..], tasks[1..])
  }

  lemma {:induction false} RankUpdate(cfg: Config, sessions: seq<seq<Event>>, tasks: seq<Task>, i: nat, t: Task)
    requires LogsFit(sessions, tasks) && i < |tasks| && |t.log| <= |sessions[i]|
    ensures RankSum(cfg, sessions, tasks[i := t]) + TaskRank(cfg, sessions[i], tasks[i])
         == RankSum(cfg, sessions, tasks) + TaskRank(cfg, sessions[i], t)
  {
    if i == 0 {
      assert tasks[0 := t][1..] == tasks[1..];
    } else {
      assert tasks[i := t][1..] == tasks[1..][i - 1 := t];
      RankUpdate(cfg, sessions[1..], tasks[1..], i - 1, t);
    }
  }

  /** The explicit measure of a run: what the tasks have left, and the abort. */
  function Measure(cfg: Config, st: State): nat
    requires LogsFit(cfg.sessions, st.tasks)
  {
    RankSum(cfg, cfg.sessions, st.tasks) + if st.shutdown then 0 else 1
  }

  /** The task recorded something or came nearer to its next record. */
  predicate MovesOn(cfg: Config, st: State, st': State, i: nat)
    requires i < |st.tasks| == |st'.tasks|
  {
    && st'.shutdown == st.shutdown
    && (st'.tasks[i].log != st.tasks[i].log || PcRank(cfg, st'.tasks[i].pc) < PcRank(cfg, st.tasks[i].pc))
  }

  lemma {:induction false} WaitingMovesOn(cfg: Config, st: State, i: nat, choice: Choice)
    requires LocalOk(cfg, st, i) && RunTask(cfg, st, i, choice).Some?
    requires var pc := st.tasks[i].pc; pc == Start || pc == Due || pc == Acquire || pc == Fetch || pc.Draining?
    ensures MovesOn(cfg, st, RunTask(cfg, st, i, choice).value, i)
  {
    hide UseTagged, HasExecutable, Cleared;
  }

  lemma {:induction false} ConnectingMovesOn(cfg: Config, st: State, i: nat, choice: Choice)
    requires LocalOk(cfg, st, i) && RunTask(cfg, st, i, choice).Some?
    requires var pc := st.tasks[i].pc; pc == Checkout || pc == Connecting || pc == Pace
    ensures MovesOn(cfg, st, RunTask(cfg, st, i, choice).value, i)
  {
    hide UseTagged, HasExecutable, Cleared;
  }

  lemma {:induction false} SendingMovesOn(cfg: Config, st: State, i: nat, choice: Choice)
    requires LocalOk(cfg, st, i) && RunTask(cfg, st, i, choice).Some?
    requires var pc := st.tasks[i].pc; pc == Switch || pc == Exec
    ensures MovesOn(cfg, st, RunTask(cfg, st, i, choice).value, i)
  {
    hide UseTagged, HasExecutable, Cleared;
  }

  lemma {:induction false} RunTaskMovesOn(cfg: Config, st: State, i: nat, choice: Choice)
    requires LocalOk(cfg, st, i) && RunTask(cfg, st, i, choice).Some?
    ensures MovesOn(cfg, st, RunTask(cfg, st, i, choice).value, i)
  {
    hide MovesOn, UseTagged, StepCheckout, StepConnect, StepPace, StepSwitch, StepExec, StepAcquire, StepStart,
        Finish, GiveUp;
    match st.tasks[i].pc {
      case Done => assert false;
      case Checkout => ConnectingMovesOn(cfg, st, i, choice);
      case Connecting => ConnectingMovesOn(cfg, st, i, choice);
      case Pace => ConnectingMovesOn(cfg, st, i, choice);
      case Switch => SendingMovesOn(cfg, st, i, choice);
      case Exec => SendingMovesOn(cfg, st, i, choice);
      case _ => WaitingMovesOn(cfg, st, i, choice);
    }
  }

  lemma {:induction false} RunTaskLowersRank(cfg: Config, st: State, i: nat, choice: Choice)
    requires LocalOk(cfg, st, i) && RunTask(cfg, st, i, choice).Some?
    ensures var st' := RunTask(cfg, st, i, choice).value;
            && |st'.tasks[i].log| <= |cfg.sessions[i]|
            && TaskRank(cfg, cfg.sessions[i], st'.tasks[i]) < TaskRank(cfg, cfg.sessions[i], st.tasks[i])
            && st'.tasks == st.tasks[i := st'.tasks[i]] && st'.shutdown == st.shutdown
  {
    hide RunTask, Balances, KeepsTrust, Sends, UseTagged;
    var o := RunTaskIsGood(cfg, st, i, choice);
    RunTaskMovesOn(cfg, st, i, choice);
  }

  lemma {:induction false} NextLowersMeasure(cfg: Config, st: State, step: Step)
    requires Inv(cfg, st) && Next(cfg, st, step).Some?
    ensures LogsFit(cfg.sessions, st.tasks) && LogsFit(cfg.sessions, Next(cfg, st, step).value.tasks)
    ensures Measure(cfg, Next(cfg, st, step).value) < Measure(cfg, st)
  {
    hide TaskOk, UseTagged, RankSum;
    NextKeepsInv(cfg, st, step);
    match step {
      case Abort =>
      case Run(i, choice) =>
        hide RunTask, TaskRank;
        assert LocalOk(cfg, st, i);
        RunTaskLowersRank(cfg, st, i, choice);
        var st' := RunTask(cfg, st, i, choice).value;
        RankUpdate(cfg, cfg.sessions, st.tasks, i, st'.tasks[i]);
    }
  }

  /** No run is longer than the measure of the state it starts in. */
  lemma {:induction false} RunsAreBounded(cfg: Config, st: State, steps: seq<Step>)
    requires Inv(cfg, st) && After(cfg, st, steps).Some?
    ensures LogsFit(cfg.sessions, st.tasks) && |steps| <= Measure(cfg, st)
    decreases |steps|
  {
    hide Next, Measure;
    if steps != [] {
      NextKeepsInv(cfg, st, steps[0]);
      NextLowersMeasure(cfg, st, steps[0]);
      RunsAreBounded(cfg, Next(cfg, st, steps[0]).value, steps[1..]);
    }
  }

  // ---------------------------------------------------------------------
  // Why dedicated sessions need tagged USEs
  // ---------------------------------------------------------------------

  lemma {:induction false} AfterSnoc(cfg: Config, st: State, steps: seq<Step>, step: Step)
    requires |st.tasks| == |cfg.sessions| && After(cfg, st, steps).Some?
    ensures After(cfg, st, steps + [step]) == Next(cfg, After(cfg, st, steps).value, step)
    decreases |steps|
  {
    hide Next;
    if steps == [] {
      assert [step][1..] == [] && [] + [step] == [step];
    } else {
      assert (steps + [step])[1..] == steps[1..] + [step];
      AfterSnoc(cfg, Next(cfg, st, steps[0]).value, steps[1..], step);
    }
  }

  lemma {:induction false} StepReaches(cfg: Config, st: State, i: nat) returns (st': State)
    requires Reachable(cfg, st) && |st.tasks| == |cfg.sessions| && i < |st.tasks|
    requires RunTask(cfg, st, i, Works).Some?
    ensures Reachable(cfg, st') && RunTask(cfg, st, i, Works) == Some(st')
  {
    hide RunTask;
    var steps :| After(cfg, Init(cfg), steps) == Some(st);
    AfterSnoc(cfg, Init(cfg), steps, Run(i, Works));
    st' := RunTask(cfg, st, i, Works).value;
    assert Next(cfg, st, Run(i, Works)) == Some(st');
  }

  /** One dedicated session: a USE of `b` tagged `a`, then an event of `a`. */
  function Misled(use: string, query: string): Config {
    Config(1, false, true, true, None, _ => "b", [[Event(0, use, Some("a")), Event(1, query, Some("a"))]])
  }

  lemma {:induction false} MisledConnects(use: string, query: string) returns (st: State)
    ensures Reachable(Misled(use, query), st) && !st.shutdown
    ensures st.tasks == [Task(Pace, [], true, Some(Conn(None, None)))]
  {
    hide IsUse, ShouldExecute, PermitsIn;
    var cfg := Misled(use, query);
    st := Init(cfg);
    InitReachable(cfg);
    var e := cfg.sessions[0][0];
    MayAlways(cfg, e);
    assert e in cfg.sessions[0] && HasExecutable(cfg, cfg.sessions[0]);
    hide HasExecutable, After, Reachable;
    assert st.tasks == [Task(Start, [], false, None)];
    st := StepReaches(cfg, st, 0);
    assert st.tasks == [Task(Due, [], false, None)] && !st.shutdown;
    st := StepReaches(cfg, st, 0);
    assert st.tasks == [Task(Acquire, [], false, None)] && !st.shutdown;
    NonePermits(st.tasks);
    st := StepReaches(cfg, st, 0);
    assert st.tasks == [Task(Connecting, [], true, None)] && !st.shutdown;
    st := StepReaches(cfg, st, 0);
  }

  lemma {:induction false} MisledRunsUse(use: string, query: string) returns (st: State)
    requires IsUse(use)
    ensures Reachable(Misled(use, query), st) && !st.shutdown
    ensures st.tasks == [Task(Pace, [Executed], true, Some(Conn(Some("a"), Some("b"))))]
  {
    hide IsUse, ShouldExecute, PermitsIn, Reachable;
    var cfg := Misled(use, query);
    var a, b := Some("a"), Some("b");
    st := MisledConnects(use, query);
    MayAlways(cfg, cfg.sessions[0][0]);
    st := StepReaches(cfg, st, 0);
    assert st.tasks == [Task(Switch, [], true, Some(Conn(None, None)))] && !st.shutdown;
    st := StepReaches(cfg, st, 0);
    assert st.tasks == [Task(Exec, [], true, Some(Conn(a, a)))] && !st.shutdown;
    st := StepReaches(cfg, st, 0);
    assert [] + [Executed] == [Executed];
    assert st.tasks == [Task(Fetch, [Executed], true, Some(Conn(a, b)))] && !st.shutdown;
    st := StepReaches(cfg, st, 0);
  }

  /** On a dedicated connection a captured USE moves the server's database
      behind the tool's back: the next event of database `a` runs in `b`. */
  lemma {:induction false} UntaggedUseMisleads(use: string, query: string) returns (st: State)
    requires IsUse(use) && !IsUse(query)
    ensures Reachable(Misled(use, query), st)
    ensures exists i :: 0 <= i < |st.wire| && st.wire[i] == Sent(0, 1, Some("b"))
    ensures Misled(use, query).sessions[0][1].db == Some("a")
  {
    hide IsUse, ShouldExecute, PermitsIn, Reachable;
    var cfg := Misled(use, query);
    var a, b := Some("a"), Some("b");
    st := MisledRunsUse(use, query);
    MayAlways(cfg, cfg.sessions[0][1]);
    st := StepReaches(cfg, st, 0);
    assert st.tasks == [Task(Exec, [Executed], true, Some(Conn(a, b)))];
    var n := |st.wire|;
    st := StepReaches(cfg, st, 0);
    assert st.wire[n] == Sent(0, 1, b);
  }

  lemma {:induction false} MayAlways(cfg: Config, e: Event)
    requires cfg.allowWrites
    ensures MayRun(cfg, e)
  {
  }

  lemma {:induction false} InitReachable(cfg: Config)
    ensures Reachable(cfg, Init(cfg))
  {
    assert After(cfg, Init(cfg), []) == Some(Init(cfg));
  }
}
