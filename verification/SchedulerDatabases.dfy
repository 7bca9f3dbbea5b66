/** When an event can run in a database other than its own: exactly when a
    dedicated session holds a USE that moves the server behind the tool's back
    and, later, an event of the database the tool still believes current. */
module SchedulerDatabases {
  import opened Bytes
  import opened WriteGate
  import opened Scheduler
  import opened SchedulerInvariants
  import opened SchedulerSafety

  /** A cleared event of database `d`. */
  predicate Tagging(cfg: Config, s: seq<Event>, k: nat, d: string) {
    k < |s| && Cleared(cfg, s[k]) && s[k].db == Some(d)
  }

  /** A USE that leaves database `d` while the tool may believe it stays: it is
      tagged `d` itself, or untagged with an event of `d` before it. */
  ghost predicate Mover(cfg: Config, s: seq<Event>, i: nat, d: string) {
    && i < |s| && Cleared(cfg, s[i]) && IsUse(s[i].query) && cfg.useTarget(s[i].query) != d
    && (s[i].db == Some(d) || (s[i].db == None && exists k: nat :: k < i && Tagging(cfg, s, k, d)))
  }

  /** A mover of `d`, and an event of `d` after it. */
  ghost predicate Trap(cfg: Config, s: seq<Event>, i: nat, j: nat, d: string) {
    i < j && Mover(cfg, s, i, d) && Tagging(cfg, s, j, d)
  }

  ghost predicate HasTrap(cfg: Config, s: seq<Event>) {
    exists i: nat, j: nat, d: string :: Trap(cfg, s, i, j, d)
  }

  /** The event was sent while the server's database was not its own. */
  predicate Strays(cfg: Config, w: Sent) {
    && w.session < |cfg.sessions| && w.index < |cfg.sessions[w.session]|
    && var e := cfg.sessions[w.session][w.index];
       e.db.Some? && w.actual != e.db
  }

  /** Some interleaving sends an event into another database. */
  ghost predicate CanStray(cfg: Config) {
    exists st, w :: Reachable(cfg, st) && w in st.wire && Strays(cfg, w)
  }

  // ---------------------------------------------------------------------
  // Strays have traps
  // ---------------------------------------------------------------------

  /** The events a dedicated connection has seen; in `Exec` the one in hand too. */
  function Seen(t: Task): nat {
    |t.log| + if t.pc == Exec then 1 else 0
  }

  ghost predicate Tagged(cfg: Config, s: seq<Event>, n: nat, d: string) {
    exists k: nat :: k < n && Tagging(cfg, s, k, d)
  }

  ghost predicate Moved(cfg: Config, s: seq<Event>, n: nat, d: string) {
    exists i: nat :: i < n && Mover(cfg, s, i, d)
  }

  /** What the tool believes has a reason, and so has a wrong belief. */
  ghost predicate Explained(cfg: Config, s: seq<Event>, t: Task) {
    t.conn.Some? && t.conn.value.db.Some? ==>
      var d := t.conn.value.db.value;
      && Tagged(cfg, s, Seen(t), d)
      && (t.conn.value.actual != Some(d) ==> Moved(cfg, s, |t.log|, d))
  }

  ghost predicate StraysTrapped(cfg: Config, wire: seq<Sent>) {
    forall w | w in wire && Strays(cfg, w) :: HasTrap(cfg, cfg.sessions[w.session])
  }

  ghost predicate AllExplained(cfg: Config, st: State) {
    && |st.tasks| == |cfg.sessions|
    && (forall i | 0 <= i < |st.tasks| :: Explained(cfg, cfg.sessions[i], st.tasks[i]))
    && StraysTrapped(cfg, st.wire)
  }

  /** A task that keeps its connection, or has none to explain, stays explained. */
  lemma {:induction false} KeepsExplained(cfg: Config, s: seq<Event>, t: Task, t': Task)
    requires Explained(cfg, s, t)
    requires t'.conn == t.conn || t'.conn == None || t'.conn.value.db == None
    requires |t.log| <= |t'.log| && Seen(t) <= Seen(t')
    ensures Explained(cfg, s, t')
  {
    if t'.conn == t.conn && t.conn.Some? && t.conn.value.db.Some? {
      var d := t.conn.value.db.value;
      hide Tagging, Mover;
      var k: nat :| k < Seen(t) && Tagging(cfg, s, k, d);
      assert k < Seen(t');
      if t.conn.value.actual != Some(d) {
        var i: nat :| i < |t.log| && Mover(cfg, s, i, d);
        assert i < |t'.log|;
      }
    }
  }

  /** A USE about to run against the belief in `d` is a mover unless it goes to `d`. */
  lemma {:induction false} UseMoves(cfg: Config, s: seq<Event>, t: Task, d: string)
    requires TaskOk(cfg, s, t) && t.pc == Exec && cfg.useEventDb && t.conn.value.db == Some(d)
    requires IsUse(s[|t.log|].query) && cfg.useTarget(s[|t.log|].query) != d && Tagged(cfg, s, Seen(t), d)
    ensures Mover(cfg, s, |t.log|, d)
  {
    hide IsUse, MayRun, SkipsUse;
    var n := |t.log|;
    if s[n].db == None {
      var k: nat :| k < Seen(t) && Tagging(cfg, s, k, d);
      assert k < n && Tagging(cfg, s, k, d);
    }
  }

  /** The statement moves the database; the belief stays. */
  lemma {:induction false} ExecExplained(cfg: Config, s: seq<Event>, t: Task, t': Task)
    requires TaskOk(cfg, s, t) && t.pc == Exec && Explained(cfg, s, t) && cfg.useEventDb
    requires t'.conn == Some(Executing(cfg, t.conn.value, s[|t.log|])) && t'.pc != Exec && |t'.log| == |t.log| + 1
    ensures Explained(cfg, s, t')
  {
    hide IsUse, MayRun, SkipsUse, Mover, Tagging;
    var e, c, n := s[|t.log|], t.conn.value, |t.log|;
    if !IsUse(e.query) || c.db.None? {
      KeepsExplained(cfg, s, t, t');
    } else {
      hide TaskOk;
      var d := c.db.value;
      var k: nat :| k < Seen(t) && Tagging(cfg, s, k, d);
      assert k < Seen(t');
      if cfg.useTarget(e.query) != d {
        UseMoves(cfg, s, t, d);
        assert n < |t'.log|;
      }
    }
  }

  /** A statement sent astray has a trap behind it. */
  lemma {:induction false} SendTrapped(cfg: Config, i: nat, t: Task)
    requires i < |cfg.sessions| && TaskOk(cfg, cfg.sessions[i], t) && t.pc == Exec && cfg.useEventDb
    requires Explained(cfg, cfg.sessions[i], t)
    ensures Strays(cfg, Sent(i, |t.log|, t.conn.value.actual)) ==> HasTrap(cfg, cfg.sessions[i])
  {
    var s, n := cfg.sessions[i], |t.log|;
    var e, c := s[n], t.conn.value;
    if e.db.Some? && c.actual != e.db {
      var d := e.db.value;
      hide Mover;
      var m: nat :| m < n && Mover(cfg, s, m, d);
      assert Trap(cfg, s, m, n, d);
    }
  }

  /** One step of a dedicated task. */
  ghost predicate StepExplains(cfg: Config, st: State, st': State, i: nat) {
    && i < |st.tasks| == |st'.tasks| == |cfg.sessions|
    && Explained(cfg, cfg.sessions[i], st'.tasks[i])
    && (st'.wire == st.wire
        || exists w :: st'.wire == st.wire + [w] && w.session == i
            && (Strays(cfg, w) ==> HasTrap(cfg, cfg.sessions[i])))
  }

  lemma {:induction false} QuietExplains(cfg: Config, st: State, i: nat, choice: Choice)
    requires LocalOk(cfg, st, i) && Explained(cfg, cfg.sessions[i], st.tasks[i]) && !cfg.pooled
    requires RunTask(cfg, st, i, choice).Some? && st.tasks[i].pc != Switch && st.tasks[i].pc != Exec
    ensures StepExplains(cfg, st, RunTask(cfg, st, i, choice).value, i)
  {
    hide Explained, Strays, HasTrap, UseTagged, HasExecutable, MayRun, SkipsUse;
    var st' := RunTask(cfg, st, i, choice).value;
    KeepsExplained(cfg, cfg.sessions[i], st.tasks[i], st'.tasks[i]);
  }

  lemma {:induction false} SwitchExplains(cfg: Config, st: State, i: nat, choice: Choice)
    requires LocalOk(cfg, st, i) && Explained(cfg, cfg.sessions[i], st.tasks[i]) && !cfg.pooled
    requires RunTask(cfg, st, i, choice).Some? && st.tasks[i].pc == Switch
    ensures StepExplains(cfg, st, RunTask(cfg, st, i, choice).value, i)
  {
    hide Strays, HasTrap, UseTagged, HasExecutable, MayRun, SkipsUse;
    var st', t, s := RunTask(cfg, st, i, choice).value, st.tasks[i], cfg.sessions[i];
    if choice.Works? {
      var n := |t.log|;
      assert Tagging(cfg, s, n, s[n].db.value);
      assert n < Seen(st'.tasks[i]);
      assert Tagged(cfg, s, Seen(st'.tasks[i]), s[n].db.value);
    } else {
      KeepsExplained(cfg, s, t, st'.tasks[i]);
    }
  }

  lemma {:induction false} ExecExplains(cfg: Config, st: State, i: nat, choice: Choice)
    requires LocalOk(cfg, st, i) && Explained(cfg, cfg.sessions[i], st.tasks[i]) && !cfg.pooled && cfg.useEventDb
    requires RunTask(cfg, st, i, choice).Some? && st.tasks[i].pc == Exec
    ensures StepExplains(cfg, st, RunTask(cfg, st, i, choice).value, i)
  {
    hide Explained, Strays, HasTrap, UseTagged, HasExecutable, MayRun, SkipsUse, Executing;
    var st', t, s := RunTask(cfg, st, i, choice).value, st.tasks[i], cfg.sessions[i];
    SendTrapped(cfg, i, t);
    var w := Sent(i, |t.log|, t.conn.value.actual);
    assert st'.wire == st.wire + [w];
    if choice.Works? {
      ExecExplained(cfg, s, t, st'.tasks[i]);
    } else {
      KeepsExplained(cfg, s, t, st'.tasks[i]);
    }
  }

  lemma {:induction false} NextExplains(cfg: Config, st: State, step: Step)
    requires Inv(cfg, st) && AllExplained(cfg, st) && !cfg.pooled && cfg.useEventDb
    requires Next(cfg, st, step).Some?
    ensures AllExplained(cfg, Next(cfg, st, step).value)
  {
    hide TaskOk, UseTagged, Explained, Strays, HasTrap;
    match step {
      case Abort =>
      case Run(i, choice) =>
        assert LocalOk(cfg, st, i);
        var st' := RunTask(cfg, st, i, choice).value;
        hide RunTask, LocalOk;
        if st.tasks[i].pc == Switch {
          SwitchExplains(cfg, st, i, choice);
        } else if st.tasks[i].pc == Exec {
          ExecExplains(cfg, st, i, choice);
        } else {
          QuietExplains(cfg, st, i, choice);
        }
        hide Inv;
        var o := RunTaskIsGood(cfg, st, i, choice);
        OneTaskMoves(cfg, st, st', i, o);
    }
  }

  lemma {:induction false} OneTaskMoves(cfg: Config, st: State, st': State, i: nat, o: Option<Outcome>)
    requires AllExplained(cfg, st) && StepExplains(cfg, st, st', i) && GoodStep(cfg, st, st', i, o)
    ensures AllExplained(cfg, st')
  {
    hide TaskOk, Explained, Strays, HasTrap, Balances, KeepsTrust, Sends;
    forall j | 0 <= j < |st'.tasks| ensures Explained(cfg, cfg.sessions[j], st'.tasks[j]) {
      assert j != i ==> st'.tasks[j] == st.tasks[j];
    }
  }

  lemma {:induction false} RunsExplain(cfg: Config, st: State, steps: seq<Step>)
    requires Inv(cfg, st) && AllExplained(cfg, st) && !cfg.pooled && cfg.useEventDb
    requires After(cfg, st, steps).Some?
    ensures AllExplained(cfg, After(cfg, st, steps).value)
    decreases |steps|
  {
    hide Inv, Next, AllExplained;
    InvShape(cfg, st);
    if steps != [] {
      NextKeepsInv(cfg, st, steps[0]);
      NextExplains(cfg, st, steps[0]);
      RunsExplain(cfg, Next(cfg, st, steps[0]).value, steps[1..]);
    }
  }

  lemma {:induction false} StraysHaveTraps(cfg: Config, st: State)
    requires Reachable(cfg, st) && !cfg.pooled && cfg.useEventDb
    ensures forall w | w in st.wire && Strays(cfg, w) :: HasTrap(cfg, cfg.sessions[w.session])
  {
    hide Inv, After, HasTrap, Strays;
    var steps :| After(cfg, Init(cfg), steps) == Some(st);
    InitInv(cfg);
    assert AllExplained(cfg, Init(cfg));
    RunsExplain(cfg, Init(cfg), steps);
  }

  // ---------------------------------------------------------------------
  // Traps close
  // ---------------------------------------------------------------------

  /** A task standing with its dedicated connection. */
  function Holding(pc: Pc, log: seq<Outcome>, c: Conn): Task {
    Task(pc, log, true, Some(c))
  }

  /** Session `n` is at `t` and no other session has started. */
  ghost predicate At(cfg: Config, st: State, n: nat, t: Task) {
    && Reachable(cfg, st) && n < |cfg.sessions| && !st.shutdown
    && st.tasks == Init(cfg).tasks[n := t]
  }

  lemma {:induction false} Reaches(cfg: Config, st: State, n: nat, t: Task, choice: Choice, st': State, t': Task)
    requires At(cfg, st, n, t) && |st.tasks| == |cfg.sessions|
    requires RunTask(cfg, st, n, choice) == Some(st') && !st'.shutdown && st'.tasks == st.tasks[n := t']
    ensures At(cfg, st', n, t')
  {
    hide RunTask;
    var steps :| After(cfg, Init(cfg), steps) == Some(st);
    AfterSnoc(cfg, Init(cfg), steps, Run(n, choice));
    assert Next(cfg, st, Run(n, choice)) == Some(st');
  }

  /** Reading the next event. */
  lemma {:induction false} Fetches(cfg: Config, st: State, n: nat, log: seq<Outcome>, c: Conn) returns (st': State)
    requires At(cfg, st, n, Holding(Fetch, log, c)) && |log| < |cfg.sessions[n]|
    ensures At(cfg, st', n, Holding(Pace, log, c))
  {
    hide Reachable, After;
    st' := RunTask(cfg, st, n, Works).value;
    Reaches(cfg, st, n, Holding(Fetch, log, c), Works, st', Holding(Pace, log, c));
  }

  /** A dedicated session opens its connection. */
  lemma {:induction false} Opens(cfg: Config, n: nat) returns (st: State)
    requires !cfg.pooled && cfg.cap > 0 && n < |cfg.sessions| && HasExecutable(cfg, cfg.sessions[n])
    ensures At(cfg, st, n, Holding(Pace, [], Conn(None, cfg.defaultDb)))
  {
    hide Reachable, After, HasExecutable;
    InitReachable(cfg);
    assert cfg.sessions[n] != [] by { SomeEvent(cfg, cfg.sessions[n]); }
    var st0 := Init(cfg);
    var t0, t1, t2, t3 := Task(Start, [], false, None), Task(Due, [], false, None), Task(Acquire, [], false, None),
                          Task(Connecting, [], true, None);
    assert st0.tasks[n := t0] == st0.tasks;
    var st1 := RunTask(cfg, st0, n, Works).value;
    Reaches(cfg, st0, n, t0, Works, st1, t1);
    var st2 := RunTask(cfg, st1, n, Works).value;
    Reaches(cfg, st1, n, t1, Works, st2, t2);
    NonePermits(st2.tasks);
    var st3 := RunTask(cfg, st2, n, Works).value;
    Reaches(cfg, st2, n, t2, Works, st3, t3);
    st := RunTask(cfg, st3, n, Works).value;
    Reaches(cfg, st3, n, t3, Works, st, Holding(Pace, [], Conn(None, cfg.defaultDb)));
  }

  lemma {:induction false} SomeEvent(cfg: Config, s: seq<Event>)
    requires HasExecutable(cfg, s)
    ensures s != []
  {
  }

  /** The event in hand needs its database selected first. */
  predicate NeedsSwitch(cfg: Config, c: Conn, e: Event) {
    cfg.useEventDb && e.db.Some? && c.db != e.db
  }

  /** A cleared event is about to be sent, or to have its database selected. */
  lemma {:induction false} Paces(cfg: Config, st: State, n: nat, log: seq<Outcome>, c: Conn) returns (st': State)
    requires !cfg.pooled && At(cfg, st, n, Holding(Pace, log, c))
    requires |log| < |cfg.sessions[n]| && Cleared(cfg, cfg.sessions[n][|log|])
    ensures At(cfg, st', n, Holding(if NeedsSwitch(cfg, c, cfg.sessions[n][|log|]) then Switch else Exec, log, c))
  {
    hide Reachable, After, MayRun, SkipsUse;
    st' := RunTask(cfg, st, n, Works).value;
    var e := cfg.sessions[n][|log|];
    assert st.tasks[n] == Holding(Pace, log, c);
    assert st' == UseConn(cfg, st, n, c, e);
    Reaches(cfg, st, n, Holding(Pace, log, c), Works, st',
            Holding(if NeedsSwitch(cfg, c, e) then Switch else Exec, log, c));
  }

  lemma {:induction false} Switches(cfg: Config, st: State, n: nat, log: seq<Outcome>, c: Conn) returns (st': State)
    requires At(cfg, st, n, Holding(Switch, log, c)) && |log| < |cfg.sessions[n]|
    ensures var db := cfg.sessions[n][|log|].db;
            At(cfg, st', n, Holding(Exec, log, Conn(db, db)))
  {
    hide Reachable, After;
    var db := cfg.sessions[n][|log|].db;
    st' := RunTask(cfg, st, n, Works).value;
    Reaches(cfg, st, n, Holding(Switch, log, c), Works, st', Holding(Exec, log, Conn(db, db)));
  }

  /** Selecting the database fails, or the statement does: the connection is
      kept as it was. */
  lemma {:induction false} Errs(cfg: Config, st: State, n: nat, pc: Pc, log: seq<Outcome>, c: Conn) returns (st': State)
    requires !cfg.pooled && At(cfg, st, n, Holding(pc, log, c)) && |log| < |cfg.sessions[n]|
    requires pc == Switch || pc == Exec
    ensures At(cfg, st', n, Holding(Fetch, log + [Errored], c))
  {
    hide Reachable, After;
    var t := Holding(pc, log, c);
    assert st.tasks[n] == t;
    st' := RunTask(cfg, st, n, Fails(false)).value;
    Reaches(cfg, st, n, t, Fails(false), st', Holding(Fetch, log + [Errored], c));
  }

  lemma {:induction false} Executes(cfg: Config, st: State, n: nat, log: seq<Outcome>, c: Conn) returns (st': State)
    requires !cfg.pooled && At(cfg, st, n, Holding(Exec, log, c)) && |log| < |cfg.sessions[n]|
    ensures At(cfg, st', n, Holding(Fetch, log + [Executed], Executing(cfg, c, cfg.sessions[n][|log|])))
    ensures Sent(n, |log|, c.actual) in st'.wire
  {
    hide Reachable, After, Executing;
    var t := Holding(Exec, log, c);
    assert st.tasks[n] == t;
    st' := RunTask(cfg, st, n, Works).value;
    assert st'.wire == st.wire + [Sent(n, |log|, c.actual)];
    Reaches(cfg, st, n, t, Works, st', Holding(Fetch, log + [Executed], Executing(cfg, c, cfg.sessions[n][|log|])));
  }

  lemma {:induction false} Skips(cfg: Config, st: State, n: nat, log: seq<Outcome>, c: Conn) returns (st': State)
    requires !cfg.pooled && At(cfg, st, n, Holding(Pace, log, c))
    requires |log| < |cfg.sessions[n]| && !Cleared(cfg, cfg.sessions[n][|log|])
    ensures At(cfg, st', n, Holding(Fetch, log + [Skipped], c))
  {
    hide Reachable, After, MayRun, SkipsUse;
    var t := Holding(Pace, log, c);
    assert st.tasks[n] == t;
    st' := RunTask(cfg, st, n, Works).value;
    Reaches(cfg, st, n, t, Works, st', Holding(Fetch, log + [Skipped], c));
  }

  /** The connection reaches event `m` as it is: what lies between fails. */
  lemma {:induction false} PassesTo(cfg: Config, st: State, n: nat, log: seq<Outcome>, c: Conn, m: nat)
    returns (st': State, log': seq<Outcome>)
    requires n < |cfg.sessions| && |log| <= m < |cfg.sessions[n]|
    requires !cfg.pooled && At(cfg, st, n, Holding(Pace, log, c))
    ensures |log'| == m && At(cfg, st', n, Holding(Pace, log', c))
    decreases m - |log|
  {
    hide *;
    if |log| == m {
      st', log' := st, log;
    } else {
      var st1, x;
      if Cleared(cfg, cfg.sessions[n][|log|]) {
        st1 := Paces(cfg, st, n, log, c);
        st1 := Errs(cfg, st1, n, if NeedsSwitch(cfg, c, cfg.sessions[n][|log|]) then Switch else Exec, log, c);
        x := Errored;
      } else {
        st1 := Skips(cfg, st, n, log, c);
        x := Skipped;
      }
      st1 := Fetches(cfg, st1, n, log + [x], c);
      st', log' := PassesTo(cfg, st1, n, log + [x], c, m);
    }
  }

  /** From the mover `i`, with `c` at hand and its database as the mover needs
      it, event `j` is sent where the USE went. */
  lemma {:induction false} MoverStrays(cfg: Config, st: State, n: nat, log: seq<Outcome>, c: Conn, j: nat, d: string)
    returns (st': State)
    requires !cfg.pooled && cfg.useEventDb && n < |cfg.sessions| && |log| < j < |cfg.sessions[n]|
    requires At(cfg, st, n, Holding(Exec, log, c)) && c.db == Some(d)
    requires IsUse(cfg.sessions[n][|log|].query) && Tagging(cfg, cfg.sessions[n], j, d)
    ensures Reachable(cfg, st')
    ensures Sent(n, j, Some(cfg.useTarget(cfg.sessions[n][|log|].query))) in st'.wire
  {
    hide At, MayRun, SkipsUse, IsUse, Reachable;
    var c' := Conn(c.db, Some(cfg.useTarget(cfg.sessions[n][|log|].query)));
    st' := Executes(cfg, st, n, log, c);
    var log' := log + [Executed];
    st' := Fetches(cfg, st', n, log', c');
    st', log' := PassesTo(cfg, st', n, log', c', j);
    st' := Paces(cfg, st', n, log', c');
    st' := Executes(cfg, st', n, log', c');
    AtReachable(cfg, st', n, Holding(Fetch, log' + [Executed], Executing(cfg, c', cfg.sessions[n][j])));
  }

  lemma {:induction false} AtReachable(cfg: Config, st: State, n: nat, t: Task)
    requires At(cfg, st, n, t)
    ensures Reachable(cfg, st)
  {
  }

  /** The first cleared event of `d` selects it. */
  lemma {:induction false} Selects(cfg: Config, n: nat, k: nat, d: string) returns (st: State, log: seq<Outcome>)
    requires !cfg.pooled && cfg.useEventDb && cfg.cap > 0 && n < |cfg.sessions| && Tagging(cfg, cfg.sessions[n], k, d)
    ensures |log| == k && At(cfg, st, n, Holding(Exec, log, Conn(Some(d), Some(d))))
  {
    hide At, MayRun, SkipsUse;
    var s, c := cfg.sessions[n], Conn(None, cfg.defaultDb);
    assert HasExecutable(cfg, s) by { assert s[k] in s && MayRun(cfg, s[k]); }
    st := Opens(cfg, n);
    st, log := PassesTo(cfg, st, n, [], c, k);
    st := Paces(cfg, st, n, log, c);
    st := Switches(cfg, st, n, log, c);
  }

  lemma {:induction false} TrapCloses(cfg: Config, n: nat, i: nat, j: nat, d: string) returns (st: State)
    requires !cfg.pooled && cfg.useEventDb && cfg.cap > 0 && n < |cfg.sessions|
    requires Trap(cfg, cfg.sessions[n], i, j, d)
    ensures Reachable(cfg, st)
    ensures Sent(n, j, Some(cfg.useTarget(cfg.sessions[n][i].query))) in st.wire
  {
    hide At, MayRun, SkipsUse, IsUse, Reachable, Tagging;
    var s, c := cfg.sessions[n], Conn(Some(d), Some(d));
    TaggingIn(cfg, s, j, d);
    var log;
    if s[i].db == Some(d) {
      assert Tagging(cfg, s, i, d) by { TaggingMake(cfg, s, i, d); }
      st, log := Selects(cfg, n, i, d);
    } else {
      var k: nat :| k < i && Tagging(cfg, s, k, d);
      st, log := Selects(cfg, n, k, d);
      st := Errs(cfg, st, n, Exec, log, c);
      log := log + [Errored];
      st := Fetches(cfg, st, n, log, c);
      st, log := PassesTo(cfg, st, n, log, c, i);
      st := Paces(cfg, st, n, log, c);
    }
    st := MoverStrays(cfg, st, n, log, c, j, d);
  }

  lemma {:induction false} TaggingIn(cfg: Config, s: seq<Event>, k: nat, d: string)
    requires Tagging(cfg, s, k, d)
    ensures k < |s| && s[k].db == Some(d)
  {
  }

  lemma {:induction false} TaggingMake(cfg: Config, s: seq<Event>, k: nat, d: string)
    requires k < |s| && Cleared(cfg, s[k]) && s[k].db == Some(d)
    ensures Tagging(cfg, s, k, d)
  {
  }

  // ---------------------------------------------------------------------
  // The condition
  // ---------------------------------------------------------------------

  /** Without permits nothing is sent. */
  lemma {:induction false} NoPermitsNoWire(cfg: Config, st: State, steps: seq<Step>)
    requires Inv(cfg, st) && cfg.cap == 0 && st.wire == [] && After(cfg, st, steps).Some?
    ensures After(cfg, st, steps).value.wire == []
    decreases |steps|
  {
    if steps != [] {
      NextKeepsInv(cfg, st, steps[0]);
      NoPermitsNoSend(cfg, st, steps[0]);
      hide Inv, Next;
      NoPermitsNoWire(cfg, Next(cfg, st, steps[0]).value, steps[1..]);
    }
  }

  lemma {:induction false} NoPermitsNoSend(cfg: Config, st: State, step: Step)
    requires Inv(cfg, st) && cfg.cap == 0 && Next(cfg, st, step).Some?
    ensures Next(cfg, st, step).value.wire == st.wire
  {
    hide Tallied, DbOk, WireOk, UseTagged, HasExecutable, MayRun, SkipsUse, CountIf;
    if step.Run? {
      var i := step.i;
      assert TaskOk(cfg, cfg.sessions[i], st.tasks[i]);
      if st.tasks[i].permit { SomePermits(st.tasks, i); }
    }
  }

  lemma {:induction false} SomePermits(tasks: seq<Task>, i: nat)
    requires i < |tasks| && tasks[i].permit
    ensures PermitsIn(tasks) > 0
  {
    if i > 0 {
      SomePermits(tasks[1..], i - 1);
    }
  }

  /** With event databases honoured, some interleaving runs an event in a
      database not its own exactly when connections are dedicated and a session
      holds a trap: all of it can be read off the configuration. */
  lemma {:induction false} DatabaseFailsIff(cfg: Config)
    requires cfg.useEventDb
    ensures CanStray(cfg) <==> !cfg.pooled && cfg.cap > 0 && exists s :: s in cfg.sessions && HasTrap(cfg, s)
  {
    hide Trap, Inv, After, Strays;
    if CanStray(cfg) {
      var st, w :| Reachable(cfg, st) && w in st.wire && Strays(cfg, w);
      StraysNeed(cfg, st, w);
    }
    if !cfg.pooled && cfg.cap > 0 && exists s :: s in cfg.sessions && HasTrap(cfg, s) {
      var s :| s in cfg.sessions && HasTrap(cfg, s);
      var n :| 0 <= n < |cfg.sessions| && cfg.sessions[n] == s;
      var i: nat, j: nat, d :| Trap(cfg, s, i, j, d);
      TrapStrays(cfg, n, i, j, d);
    }
  }

  lemma {:induction false} TrapStrays(cfg: Config, n: nat, i: nat, j: nat, d: string)
    requires !cfg.pooled && cfg.useEventDb && cfg.cap > 0 && n < |cfg.sessions|
    requires Trap(cfg, cfg.sessions[n], i, j, d)
    ensures CanStray(cfg)
  {
    hide Reachable, MayRun, SkipsUse, IsUse;
    var st := TrapCloses(cfg, n, i, j, d);
    var w := Sent(n, j, Some(cfg.useTarget(cfg.sessions[n][i].query)));
    assert w in st.wire && Strays(cfg, w);
  }

  lemma {:induction false} StraysNeed(cfg: Config, st: State, w: Sent)
    requires cfg.useEventDb && Reachable(cfg, st) && w in st.wire && Strays(cfg, w)
    ensures !cfg.pooled && cfg.cap > 0 && cfg.sessions[w.session] in cfg.sessions
        && HasTrap(cfg, cfg.sessions[w.session])
  {
    hide Inv, After, HasTrap;
    if cfg.pooled {
      assert UseTagged(cfg);
      EventsRunInTheirDatabase(cfg, st);
      assert false;
    }
    StraysHaveTraps(cfg, st);
    if cfg.cap == 0 {
      var steps :| After(cfg, Init(cfg), steps) == Some(st);
      InitInv(cfg);
      NoPermitsNoWire(cfg, Init(cfg), steps);
    }
  }
}
