/** The replay scheduler as a step system: many sessions interleave over one
    semaphore and, when pooled, one shelf of idle connections. Every await is a
    step of its own, every outcome of the outside world a choice. */
module Scheduler {
  import opened Bytes
  import opened WriteGate

  datatype Event = Event(fp: nat, query: string, db: Option<string>)

  /** How the run is set up; `useTarget` says which database a USE selects. */
  datatype Config = Config(
    cap: nat, pooled: bool, allowWrites: bool, useEventDb: bool, defaultDb: Option<string>,
    useTarget: string -> string, sessions: seq<seq<Event>>)

  /** A connection: the database the tool believes current, and the server's. */
  datatype Conn = Conn(db: Option<string>, actual: Option<string>)

  datatype Outcome = Executed | Skipped | Errored | NotRun

  /** Where a session task stands. */
  datatype Pc =
    | Start
    | Due           // waiting until the first event is due
    | Acquire       // waiting for a permit
    | Checkout      // about to take a connection from the pool
    | Connecting
    | Fetch         // about to read the next event
    | Pace          // waiting until the event in hand is due
    | Switch        // sending USE
    | Exec          // sending the event's statement
    | Draining(how: Outcome)
    | Done

  /** `log` holds the outcomes recorded so far; the event in hand is the one
      after them. */
  datatype Task = Task(pc: Pc, log: seq<Outcome>, permit: bool, conn: Option<Conn>)

  datatype Counts = Counts(executed: nat, skipped: nat, errored: nat, notRun: nat) {
    function Get(o: Outcome): nat {
      match o case Executed => executed case Skipped => skipped case Errored => errored case NotRun => notRun
    }

    function Bump(o: Outcome): Counts {
      match o
      case Executed => this.(executed := executed + 1)
      case Skipped => this.(skipped := skipped + 1)
      case Errored => this.(errored := errored + 1)
      case NotRun => this.(notRun := notRun + 1)
    }

    function Sum(): nat {
      executed + skipped + errored + notRun
    }
  }

  const NO_COUNTS := Counts(0, 0, 0, 0)

  datatype Metrics = Metrics(total: Counts, perFp: map<nat, Counts>) {
    function Of(fp: nat): Counts {
      if fp in perFp then perFp[fp] else NO_COUNTS
    }

    function Record(fp: nat, o: Outcome): Metrics {
      Metrics(total.Bump(o), perFp[fp := Of(fp).Bump(o)])
    }
  }

  /** A statement that reached the server: event `index` of `session`, and the
      server's current database at that moment. */
  datatype Sent = Sent(session: nat, index: nat, actual: Option<string>)

  datatype State = State(
    tasks: seq<Task>, idle: seq<Conn>, shutdown: bool, metrics: Metrics,
    connects: nat, discarded: nat, closed: nat, connectFailures: nat, wire: seq<Sent>)

  /** What the outside world does with the request of a step. */
  datatype Choice = Works | Fails(fatal: bool)

  datatype Step = Abort | Run(i: nat, choice: Choice)

  // ---------------------------------------------------------------------
  // Steps
  // ---------------------------------------------------------------------

  predicate MayRun(cfg: Config, e: Event) {
    ShouldExecute(e.query, cfg.allowWrites)
  }

  /** A pooled or pinned session never sends a captured USE. */
  predicate SkipsUse(cfg: Config, e: Event) {
    (cfg.pooled || !cfg.useEventDb) && IsUse(e.query)
  }

  predicate HasExecutable(cfg: Config, events: seq<Event>) {
    exists e | e in events :: MayRun(cfg, e)
  }

  function Init(cfg: Config): State {
    State(seq(|cfg.sessions|, _ => Task(Start, [], false, None)), [], false, Metrics(NO_COUNTS, map[]),
          0, 0, 0, 0, [])
  }

  predicate HoldsPermit(t: Task) {
    t.permit
  }

  function CountIf(tasks: seq<Task>, p: Task -> bool): nat {
    if tasks == [] then 0 else (if p(tasks[0]) then 1 else 0) + CountIf(tasks[1..], p)
  }

  function PermitsIn(tasks: seq<Task>): nat {
    CountIf(tasks, HoldsPermit)
  }

  function Put(st: State, i: nat, t: Task): State
    requires i < |st.tasks|
  {
    st.(tasks := st.tasks[i := t])
  }

  /** Record the event in hand as `o`. */
  function Record(cfg: Config, st: State, i: nat, o: Outcome): State
    requires i < |st.tasks| == |cfg.sessions| && |st.tasks[i].log| < |cfg.sessions[i]|
  {
    var t := st.tasks[i];
    Put(st, i, t.(log := t.log + [o])).(metrics := st.metrics.Record(cfg.sessions[i][|t.log|].fp, o))
  }

  function Goto(st: State, i: nat, pc: Pc): State
    requires i < |st.tasks|
  {
    Put(st, i, st.tasks[i].(pc := pc))
  }

  /** A connection is at hand: bring its database in line first, if need be. */
  function UseConn(cfg: Config, st: State, i: nat, c: Conn, e: Event): State
    requires i < |st.tasks|
  {
    var switch := cfg.useEventDb && e.db.Some? && c.db != e.db;
    Put(st, i, st.tasks[i].(conn := Some(c), pc := if switch then Switch else Exec))
  }

  /** The connection goes back to the shelf, or with its session, or is lost. */
  function AfterUse(cfg: Config, st: State, i: nat, c: Conn, fatal: bool): State
    requires i < |st.tasks|
  {
    var t := st.tasks[i];
    if cfg.pooled then
      var free := Put(st, i, t.(conn := None, permit := false, pc := Fetch));
      if fatal then free.(discarded := st.discarded + 1) else free.(idle := st.idle + [c])
    else if fatal then
      Put(st, i, t.(conn := None, pc := Draining(NotRun))).(discarded := st.discarded + 1)
    else Put(st, i, t.(conn := Some(c), pc := Fetch))
  }

  /** The task returns: its connection is closed and its permit released. */
  function Finish(st: State, i: nat): State
    requires i < |st.tasks|
  {
    var t := st.tasks[i];
    Put(st, i, t.(pc := Done, permit := false, conn := None))
      .(closed := st.closed + if t.conn.Some? then 1 else 0)
  }

  /** Session `i` has an event in hand. */
  predicate InHand(cfg: Config, st: State, i: nat) {
    i < |st.tasks| == |cfg.sessions| && |st.tasks[i].log| < |cfg.sessions[i]|
  }

  function Hand(cfg: Config, st: State, i: nat): Event
    requires InHand(cfg, st, i)
  {
    cfg.sessions[i][|st.tasks[i].log|]
  }

  /** On abort the event in hand and all later ones are not run. */
  function GiveUp(cfg: Config, st: State, i: nat): State
    requires InHand(cfg, st, i)
  {
    Goto(Record(cfg, st, i, NotRun), i, Draining(NotRun))
  }

  function StepAcquire(cfg: Config, st: State, i: nat): Option<State>
    requires InHand(cfg, st, i)
  {
    if st.shutdown then Some(GiveUp(cfg, st, i))
    else if PermitsIn(st.tasks) < cfg.cap then
      Some(Put(st, i, st.tasks[i].(permit := true, pc := if cfg.pooled then Checkout else Connecting)))
    else None
  }

  function StepCheckout(cfg: Config, st: State, i: nat): State
    requires InHand(cfg, st, i)
  {
    if st.idle == [] then Goto(st, i, Connecting)
    else
      var n := |st.idle| - 1;
      UseConn(cfg, st.(idle := st.idle[..n]), i, st.idle[n], Hand(cfg, st, i))
  }

  function StepConnect(cfg: Config, st: State, i: nat, choice: Choice): State
    requires InHand(cfg, st, i)
  {
    var st1 := Record(cfg, st, i, NotRun).(connectFailures := st.connectFailures + 1);
    var st2 := st.(connects := st.connects + 1);
    if choice.Works? then
      if cfg.pooled then UseConn(cfg, st2, i, Conn(cfg.defaultDb, cfg.defaultDb), Hand(cfg, st, i))
      else Put(st2, i, st.tasks[i].(conn := Some(Conn(None, cfg.defaultDb)), pc := Pace))
    else
      if cfg.pooled then Put(st1, i, st1.tasks[i].(permit := false, pc := Fetch))
      else Goto(st1, i, Draining(NotRun))
  }

  function StepPace(cfg: Config, st: State, i: nat): Option<State>
    requires InHand(cfg, st, i)
  {
    var e := Hand(cfg, st, i);
    if st.shutdown then Some(GiveUp(cfg, st, i))
    else if !MayRun(cfg, e) || SkipsUse(cfg, e) then Some(Goto(Record(cfg, st, i, Skipped), i, Fetch))
    else if cfg.pooled then Some(Goto(st, i, Acquire))
    else if st.tasks[i].conn.Some? then Some(UseConn(cfg, st, i, st.tasks[i].conn.value, e))
    else None
  }

  function StepSwitch(cfg: Config, st: State, i: nat, c: Conn, choice: Choice): State
    requires InHand(cfg, st, i)
  {
    var db := Hand(cfg, st, i).db;
    if choice.Works? then Put(st, i, st.tasks[i].(conn := Some(Conn(db, db)), pc := Exec))
    else AfterUse(cfg, Record(cfg, st, i, Errored), i, c, choice.fatal)
  }

  /** The server's database after the statement, if the statement works. */
  function Executing(cfg: Config, c: Conn, e: Event): Conn {
    if IsUse(e.query) then c.(actual := Some(cfg.useTarget(e.query))) else c
  }

  function StepExec(cfg: Config, st: State, i: nat, c: Conn, choice: Choice): State
    requires InHand(cfg, st, i)
  {
    var sent := st.(wire := st.wire + [Sent(i, |st.tasks[i].log|, c.actual)]);
    if choice.Works? then
      AfterUse(cfg, Record(cfg, sent, i, Executed), i, Executing(cfg, c, Hand(cfg, st, i)), false)
    else AfterUse(cfg, Record(cfg, sent, i, Errored), i, c, choice.fatal)
  }

  function StepStart(cfg: Config, st: State, i: nat): State
    requires i < |st.tasks| == |cfg.sessions|
  {
    Goto(st, i, if !HasExecutable(cfg, cfg.sessions[i]) then Draining(Skipped) else if cfg.pooled then Fetch else Due)
  }

  /** The task of session `i` takes its next step; `None` when it must wait. */
  function RunTask(cfg: Config, st: State, i: nat, choice: Choice): (r: Option<State>)
    requires i < |st.tasks| == |cfg.sessions|
    ensures r.Some? ==> |r.value.tasks| == |st.tasks|
  {
    var t := st.tasks[i];
    if t.pc == Start then Some(StepStart(cfg, st, i))
    else if t.pc == Done then None
    else if !InHand(cfg, st, i) then
      if t.pc == Fetch || t.pc.Draining? then Some(Finish(st, i)) else None
    else
      match t.pc
      case Draining(how) => Some(Record(cfg, st, i, how))
      case Fetch => Some(Goto(st, i, Pace))
      case Due => Some(if st.shutdown then GiveUp(cfg, st, i) else Goto(st, i, Acquire))
      case Acquire => StepAcquire(cfg, st, i)
      case Checkout => Some(StepCheckout(cfg, st, i))
      case Connecting => Some(StepConnect(cfg, st, i, choice))
      case Pace => StepPace(cfg, st, i)
      case Switch => if t.conn.Some? then Some(StepSwitch(cfg, st, i, t.conn.value, choice)) else None
      case Exec => if t.conn.Some? then Some(StepExec(cfg, st, i, t.conn.value, choice)) else None
      case _ => None
  }

  function Next(cfg: Config, st: State, step: Step): (r: Option<State>)
    requires |st.tasks| == |cfg.sessions|
    ensures r.Some? ==> |r.value.tasks| == |st.tasks|
  {
    match step
    case Abort => if st.shutdown then None else Some(st.(shutdown := true))
    case Run(i, choice) => if i < |st.tasks| then RunTask(cfg, st, i, choice) else None
  }
}
