/** The per-connection MySQL protocol decoder as a function from state and
    input to state and events. Text decoding, parameter expansion and the
    handshake field readers are parameters (`Codec`). */
module Protocol {
  import opened Bytes
  import opened Framing
  import opened TcpStream

  const CLIENT_COMPRESS: nat := 0x20
  const CLIENT_PROTOCOL_41: nat := 0x200
  const CLIENT_SSL: nat := 0x800
  const CLIENT_ZSTD: nat := 0x400_0000
  const CLIENT_QUERY_ATTRIBUTES: nat := 0x800_0000

  const COM_QUIT: byte := 0x01
  const COM_INIT_DB: byte := 0x02
  const COM_QUERY: byte := 0x03
  const COM_STMT_PREPARE: byte := 0x16
  const COM_STMT_EXECUTE: byte := 0x17
  const COM_STMT_SEND_LONG_DATA: byte := 0x18
  const COM_STMT_CLOSE: byte := 0x19
  const COM_STMT_RESET: byte := 0x1a

  datatype Dir = Client | Server

  datatype Disposition = Active | Tls | Compressed | BadHandshake | BrokenStream

  datatype Phase = AwaitGreeting | AwaitLogin | Established

  /** One client statement; `latency` is in microseconds. */
  datatype Event = Event(
    ts: int, query: string, latency: int, responseSeen: bool, db: Option<string>, user: Option<string>)

  datatype Pending = Statement(ev: Event) | Prepare(sql: string) | Silent

  /** A request whose response starts at sequence id `respSeq`. */
  datatype InFlight = InFlight(respSeq: byte, pending: Pending)

  datatype Prepared = Prepared(sql: string, numParams: nat, paramTypes: Option<seq<(byte, byte)>>)

  type LongData = map<(nat, nat), seq<byte>>

  /** What reading a COM_STMT_EXECUTE payload yields: the expanded text if any,
      newly bound parameter types, and whether long data was consumed. */
  datatype Expansion = Expansion(text: Option<string>, types: Option<seq<(byte, byte)>>, consumed: bool)

  datatype Greeting = Greeting(version: string, threadId: u32, caps: u32)

  datatype Codec = Codec(
    text: seq<byte> -> string,
    greeting: seq<byte> -> Option<Greeting>,
    identity: seq<byte> -> (Option<string>, Option<string>),
    queryText: seq<byte> -> Option<seq<byte>>,
    useTarget: string -> Option<string>,
    useStatement: string -> string,
    expand: (bool, Prepared, nat, LongData, seq<byte>) -> Expansion)

  datatype Stats = Stats(expanded: nat, inexpandable: nat, ignored: nat, missing: nat)

  datatype Decoder = Decoder(
    phase: Phase,
    disposition: Disposition,
    serverCaps: u32,
    queryAttrs: bool,
    user: Option<string>,
    db: Option<string>,
    version: Option<string>,
    threadId: Option<u32>,
    stmts: map<nat, Prepared>,
    longData: LongData,
    pending: seq<InFlight>,
    contSeq: Option<byte>,
    stats: Stats,
    finished: bool)
  {
    predicate Decoding() {
      !finished && disposition == Active
    }
  }

  const NEW := Decoder(AwaitGreeting, Active, 0, false, None, None, None, None, map[], map[], [], None,
                       Stats(0, 0, 0, 0), false)

  function Next(seqId: byte): byte {
    (seqId + 1) % 256
  }

  predicate Has(caps: u32, bit: nat)
    requires bit > 0
  {
    caps / bit % 2 == 1
  }

  function U16(p: seq<byte>, i: nat): nat
    requires i + 2 <= |p|
  {
    p[i] as int + 0x100 * (p[i + 1] as int)
  }

  function U32(p: seq<byte>, i: nat): u32
    requires i + 4 <= |p|
  {
    p[i] as int + 0x100 * (p[i + 1] as int) + 0x1_0000 * (p[i + 2] as int) + 0x100_0000 * (p[i + 3] as int)
  }

  // ---------------------------------------------------------------------
  // Server packets
  // ---------------------------------------------------------------------

  /** The packet continues the response being streamed. */
  predicate Continues(d: Decoder, pkt: LogicalPacket) {
    d.contSeq == Some(pkt.firstSeq)
  }

  /** The packet starts the response of the oldest request in flight. */
  predicate Answers(d: Decoder, pkt: LogicalPacket) {
    !Continues(d, pkt) && d.pending != [] && d.pending[0].respSeq == pkt.firstSeq
  }

  function Closed(ev: Event, ts: int): Event {
    ev.(latency := if ts > ev.ts then ts - ev.ts else 0, responseSeen := true)
  }

  /** Register the statement of a prepare-OK packet. */
  function Registered(stmts: map<nat, Prepared>, sql: string, p: seq<byte>): map<nat, Prepared> {
    if |p| >= 9 && p[0] == 0 then stmts[U32(p, 1) := Prepared(sql, U16(p, 7), None)] else stmts
  }

  function AfterServerPacket(d: Decoder, pkt: LogicalPacket, codec: Codec): (Decoder, seq<Event>) {
    match d.phase
    case AwaitGreeting => (
      match codec.greeting(pkt.payload)
      case Some(g) =>
        (d.(version := Some(g.version), threadId := Some(g.threadId), serverCaps := g.caps, phase := AwaitLogin), [])
      case None => (d.(disposition := BadHandshake), []))
    case AwaitLogin => (d.(disposition := BadHandshake), [])
    case Established =>
      if Continues(d, pkt) then (d.(contSeq := Some(Next(pkt.lastSeq))), [])
      else if !Answers(d, pkt) then (d.(contSeq := None), [])
      else
        var d1 := d.(contSeq := Some(Next(pkt.lastSeq)), pending := d.pending[1..]);
        match d.pending[0].pending
        case Statement(ev) => (d1, [Closed(ev, pkt.ts)])
        case Prepare(sql) => (d1.(stmts := Registered(d.stmts, sql, pkt.payload)), [])
        case Silent => (d1, [])
  }

  // ---------------------------------------------------------------------
  // Client packets
  // ---------------------------------------------------------------------

  function AfterLogin(d: Decoder, p: seq<byte>, codec: Codec): Decoder {
    if |p| < 4 then d.(disposition := BadHandshake)
    else
      var caps := U32(p, 0);
      if !Has(caps, CLIENT_PROTOCOL_41) then d.(disposition := BadHandshake)
      else if Has(caps, CLIENT_SSL) then d.(disposition := Tls)
      else if Has(caps, CLIENT_COMPRESS) || Has(caps, CLIENT_ZSTD) then d.(disposition := Compressed)
      else
        var (user, db) := codec.identity(p);
        d.(queryAttrs := Has(caps, CLIENT_QUERY_ATTRIBUTES) && Has(d.serverCaps, CLIENT_QUERY_ATTRIBUTES),
           user := user, db := db, phase := Established)
  }

  function Push(d: Decoder, respSeq: byte, pending: Pending): Decoder {
    d.(pending := d.pending + [InFlight(respSeq, pending)])
  }

  /** A client-issued USE also moves the session's default database. */
  function QueueEvent(d: Decoder, respSeq: byte, ts: int, query: string, codec: Codec): Decoder {
    var target := codec.useTarget(query);
    var db := if target.Some? then target else d.db;
    Push(d.(db := db), respSeq, Statement(Event(ts, query, 0, false, db, d.user)))
  }

  function Without(longData: LongData, stmtId: nat): LongData {
    map k | k in longData && k.0 != stmtId :: longData[k]
  }

  /** COM_STMT_EXECUTE names its statement in the first four bytes. */
  function Expanded(d: Decoder, p: seq<byte>, codec: Codec): (Decoder, Option<string>) {
    if |p| < 9 || U32(p, 0) !in d.stmts then (d, None)
    else
      var id := U32(p, 0);
      var x := codec.expand(d.queryAttrs, d.stmts[id], id, d.longData, p);
      var stmts := if x.types.Some? then d.stmts[id := d.stmts[id].(paramTypes := x.types)] else d.stmts;
      (d.(stmts := stmts, longData := if x.consumed then Without(d.longData, id) else d.longData), x.text)
  }

  /** An execution that cannot be expanded is counted, and waits without an event. */
  function AfterExecute(d: Decoder, respSeq: byte, ts: int, p: seq<byte>, codec: Codec): Decoder {
    var (d1, text) := Expanded(d, p, codec);
    match text
    case Some(query) =>
      QueueEvent(d1.(stats := d.stats.(expanded := d.stats.expanded + 1)), respSeq, ts, query, codec)
    case None =>
      Push(d1.(stats := d.stats.(inexpandable := d.stats.inexpandable + 1)), respSeq, Silent)
  }

  function AfterCommand(d0: Decoder, pkt: LogicalPacket, codec: Codec): Decoder {
    var d := if d0.pending == [] then d0.(contSeq := None) else d0;
    var respSeq := Next(pkt.lastSeq);
    var p := pkt.payload;
    if p == [] then d
    else if p[0] == COM_QUERY then
      var text := if d.queryAttrs then codec.queryText(p[1..]) else Some(p[1..]);
      match text
      case Some(t) => QueueEvent(d, respSeq, pkt.ts, codec.text(t), codec)
      case None => Push(d.(stats := d.stats.(ignored := d.stats.ignored + 1)), respSeq, Silent)
    else if p[0] == COM_INIT_DB then
      var db := codec.text(p[1..]);
      QueueEvent(d.(db := Some(db)), respSeq, pkt.ts, codec.useStatement(db), codec)
    else if p[0] == COM_STMT_PREPARE then
      Push(d, respSeq, Prepare(codec.text(p[1..])))
    else if p[0] == COM_STMT_EXECUTE then
      AfterExecute(d, respSeq, pkt.ts, p[1..], codec)
    else if p[0] == COM_STMT_SEND_LONG_DATA then
      if |p| < 7 then d
      else
        var key := (U32(p, 1) as nat, U16(p, 5));
        var have := if key in d.longData then d.longData[key] else [];
        d.(longData := d.longData[key := have + p[7..]])
    else if p[0] == COM_STMT_CLOSE then
      if |p| < 5 then d
      else d.(stmts := d.stmts - {U32(p, 1)}, longData := Without(d.longData, U32(p, 1)))
    else if p[0] == COM_STMT_RESET then
      var d1 := if |p| < 5 then d else d.(longData := Without(d.longData, U32(p, 1)));
      Push(d1, respSeq, Silent)
    else if p[0] == COM_QUIT then
      d.(finished := true)
    else
      Push(d.(stats := d.stats.(ignored := d.stats.ignored + 1)), respSeq, Silent)
  }

  function AfterClientPacket(d: Decoder, pkt: LogicalPacket, codec: Codec): Decoder {
    match d.phase
    case AwaitGreeting => d.(disposition := BadHandshake)
    case AwaitLogin => AfterLogin(d, pkt.payload, codec)
    case Established => if pkt.firstSeq != 0 then d else AfterCommand(d, pkt, codec)
  }

  // ---------------------------------------------------------------------
  // Runs of packets, chunks, and the end of the connection
  // ---------------------------------------------------------------------

  function AfterPacket(d: Decoder, dir: Dir, pkt: LogicalPacket, codec: Codec): (Decoder, seq<Event>) {
    match dir
    case Client => (AfterClientPacket(d, pkt, codec), [])
    case Server => AfterServerPacket(d, pkt, codec)
  }

  /** Packets are consumed until the decoder gives up. */
  function AfterPackets(d: Decoder, dir: Dir, pkts: seq<LogicalPacket>, codec: Codec): (Decoder, seq<Event>)
    decreases |pkts|
  {
    if pkts == [] || !d.Decoding() then (d, [])
    else
      var (d1, out1) := AfterPacket(d, dir, pkts[0], codec);
      var (d2, out2) := AfterPackets(d1, dir, pkts[1..], codec);
      (d2, out1 + out2)
  }

  function StatementOf(f: InFlight): seq<Event> {
    match f.pending case Statement(ev) => [ev] case _ => []
  }

  /** The events of the statements still in flight, oldest first. */
  function Statements(pending: seq<InFlight>): seq<Event> {
    if pending == [] then [] else StatementOf(pending[0]) + Statements(pending[1..])
  }

  function Unanswered(evs: seq<Event>): (r: seq<Event>)
    ensures |r| == |evs|
  {
    if evs == [] then [] else [evs[0].(responseSeen := false, latency := 0)] + Unanswered(evs[1..])
  }

  /** The end of the connection flushes what is in flight, unless COM_QUIT
      already finished the decoder. */
  function AfterFinish(d: Decoder): (Decoder, seq<Event>) {
    if d.finished then (d, [])
    else
      var flushed := Unanswered(Statements(d.pending));
      (d.(finished := true, pending := [], stats := d.stats.(missing := d.stats.missing + |flushed|)), flushed)
  }

  // ---------------------------------------------------------------------
  // What a client sends
  // ---------------------------------------------------------------------

  /** The statement a command carries: a query that can be read, the change of
      the default database, or the execution of a statement that can be
      expanded. No other command carries one. */
  function SentText(d: Decoder, p: seq<byte>, codec: Codec): Option<string> {
    if p == [] then None
    else if p[0] == COM_QUERY then
      match if d.queryAttrs then codec.queryText(p[1..]) else Some(p[1..])
      case Some(t) => Some(codec.text(t))
      case None => None
    else if p[0] == COM_INIT_DB then Some(codec.useStatement(codec.text(p[1..])))
    else if p[0] == COM_STMT_EXECUTE && |p| >= 10 && U32(p, 1) in d.stmts then
      codec.expand(d.queryAttrs, d.stmts[U32(p, 1)], U32(p, 1), d.longData, p[1..]).text
    else None
  }

  /** The default database once the command is under way. */
  function SentDb(d: Decoder, p: seq<byte>, text: string, codec: Codec): Option<string> {
    if codec.useTarget(text).Some? then codec.useTarget(text)
    else if p != [] && p[0] == COM_INIT_DB then Some(codec.text(p[1..]))
    else d.db
  }

  /** The statements a packet sends: at most one, only from the client, once
      the login is over, and in a packet that starts a command. */
  function SentByPacket(d: Decoder, dir: Dir, pkt: LogicalPacket, codec: Codec): (r: seq<Event>)
    ensures |r| <= 1
  {
    var text := SentText(d, pkt.payload, codec);
    if dir == Server || d.phase != Established || pkt.firstSeq != 0 || text.None? then []
    else [Event(pkt.ts, text.value, 0, false, SentDb(d, pkt.payload, text.value, codec), d.user)]
  }

  function SentByPackets(d: Decoder, dir: Dir, pkts: seq<LogicalPacket>, codec: Codec): seq<Event>
    decreases |pkts|
  {
    if pkts == [] || !d.Decoding() then []
    else SentByPacket(d, dir, pkts[0], codec)
         + SentByPackets(AfterPacket(d, dir, pkts[0], codec).0, dir, pkts[1..], codec)
  }
}
