/** The mutable per-connection decoder, proved against `Protocol` and
    `Connection`. */
module ConnDecoder {
  import opened Bytes
  import opened Framing
  import opened Protocol
  import opened Connection
  import opened Matching
  import opened TcpStream
  import PacketAssembler

  class Decoder {
    var phase: Phase
    var disposition: Disposition
    var serverCaps: u32
    var queryAttrs: bool
    var user: Option<string>
    var db: Option<string>
    var version: Option<string>
    var threadId: Option<u32>
    var stmts: map<nat, Prepared>
    var longData: LongData
    var pending: seq<InFlight>
    var contSeq: Option<byte>
    var stats: Stats
    var finished: bool
    const client: PacketAssembler.Assembler
    const server: PacketAssembler.Assembler
    const codec: Codec

    function State(): Protocol.Decoder
      reads this
    {
      Protocol.Decoder(phase, disposition, serverCaps, queryAttrs, user, db, version, threadId,
                       stmts, longData, pending, contSeq, stats, finished)
    }

    /** The decoder with the chunks its two assemblers were fed. */
    ghost function Conn(): Connection.Conn
      reads this, client, server
    {
      Connection.Conn(State(), client.fed, server.fed)
    }

    ghost predicate Valid()
      reads this, client, server
    {
      && client != server && client.Valid() && server.Valid()
      && (State().Decoding() ==> !client.broken && !server.broken)
    }

    constructor (codec: Codec)
      ensures Valid() && Conn() == FRESH && this.codec == codec
      ensures fresh(client) && fresh(server)
    {
      phase, disposition, serverCaps, queryAttrs := AwaitGreeting, Active, 0, false;
      user, db, version, threadId := None, None, None, None;
      stmts, longData, pending, contSeq := map[], map[], [], None;
      stats, finished := Stats(0, 0, 0, 0), false;
      this.codec := codec;
      client := new PacketAssembler.Assembler();
      server := new PacketAssembler.Assembler();
    }

    method OnData(dir: Dir, ts: int, data: seq<byte>) returns (out: seq<Event>)
      requires Valid()
      modifies this, client, server
      ensures Valid()
      ensures (Conn(), out) == AfterBytes(old(Conn()), dir, Chunk(ts, data), codec)
    {
      hide AfterClientPacket, AfterServerPacket, Packets, Broken;
      out := [];
      if finished || disposition != Active {
        return;
      }
      var packets;
      match dir {
        case Client => packets := client.Feed(ts, data);
        case Server => packets := server.Feed(ts, data);
      }
      if client.broken || server.broken {
        disposition := BrokenStream;
        return;
      }
      assert data != [] ==> packets == NewPackets(Fed(old(Conn()), dir), Chunk(ts, data));
      out := OnPackets(dir, packets);
    }

    /** Packets are handled until the decoder gives up. */
    method OnPackets(dir: Dir, packets: seq<LogicalPacket>) returns (out: seq<Event>)
      modifies this
      ensures (State(), out) == AfterPackets(old(State()), dir, packets, codec)
    {
      hide AfterClientPacket, AfterServerPacket;
      out := [];
      ghost var goal := AfterPackets(State(), dir, packets, codec);
      assert packets[0..] == packets;
      var i := 0;
      while i < |packets| && !finished && disposition == Active
        invariant 0 <= i <= |packets|
        invariant AfterPackets(State(), dir, packets[i..], codec).0 == goal.0
        invariant out + AfterPackets(State(), dir, packets[i..], codec).1 == goal.1
      {
        assert packets[i..][1..] == packets[i + 1..];
        match dir {
          case Client => OnClientPacket(packets[i]);
          case Server =>
            var more := OnServerPacket(packets[i]);
            out := out + more;
        }
        i := i + 1;
      }
      assert out + [] == out;
    }

    method OnServerPacket(pkt: LogicalPacket) returns (out: seq<Event>)
      modifies this
      ensures (State(), out) == AfterServerPacket(old(State()), pkt, codec)
    {
      out := [];
      match phase {
        case AwaitGreeting =>
          match codec.greeting(pkt.payload) {
            case Some(g) =>
              version, threadId, serverCaps, phase := Some(g.version), Some(g.threadId), g.caps, AwaitLogin;
            case None => disposition := BadHandshake;
          }
        case AwaitLogin => disposition := BadHandshake;
        case Established =>
          if contSeq == Some(pkt.firstSeq) {
            contSeq := Some(Next(pkt.lastSeq));
            return;
          }
          if pending == [] || pending[0].respSeq != pkt.firstSeq {
            contSeq := None;
            return;
          }
          contSeq := Some(Next(pkt.lastSeq));
          var front := pending[0];
          pending := pending[1..];
          match front.pending {
            case Statement(ev) => out := [Closed(ev, pkt.ts)];
            case Prepare(sql) => stmts := Registered(stmts, sql, pkt.payload);
            case Silent =>
          }
      }
    }

    method OnClientPacket(pkt: LogicalPacket)
      modifies this
      ensures State() == AfterClientPacket(old(State()), pkt, codec)
    {
      match phase {
        case AwaitGreeting => disposition := BadHandshake;
        case AwaitLogin => OnLogin(pkt.payload);
        case Established =>
          if pkt.firstSeq != 0 {
            return;
          }
          OnCommand(pkt);
      }
    }

    method OnLogin(p: seq<byte>)
      modifies this
      ensures State() == AfterLogin(old(State()), p, codec)
    {
      if |p| < 4 {
        disposition := BadHandshake;
        return;
      }
      var caps := U32(p, 0);
      if !Has(caps, CLIENT_PROTOCOL_41) {
        disposition := BadHandshake;
        return;
      }
      if Has(caps, CLIENT_SSL) {
        disposition := Tls;
        return;
      }
      if Has(caps, CLIENT_COMPRESS) || Has(caps, CLIENT_ZSTD) {
        disposition := Compressed;
        return;
      }
      queryAttrs := Has(caps, CLIENT_QUERY_ATTRIBUTES) && Has(serverCaps, CLIENT_QUERY_ATTRIBUTES);
      var (u, database) := codec.identity(p);
      user, db := u, database;
      phase := Established;
    }

    method PushPending(respSeq: byte, p: Pending)
      modifies this
      ensures State() == Push(old(State()), respSeq, p)
    {
      pending := pending + [InFlight(respSeq, p)];
    }

    method PushEvent(respSeq: byte, ts: int, query: string)
      modifies this
      ensures State() == QueueEvent(old(State()), respSeq, ts, query, codec)
    {
      var target := codec.useTarget(query);
      if target.Some? {
        db := target;
      }
      PushPending(respSeq, Statement(Event(ts, query, 0, false, db, user)));
    }

    method DecodeExecute(p: seq<byte>) returns (text: Option<string>)
      modifies this
      ensures (State(), text) == Expanded(old(State()), p, codec)
    {
      if |p| < 9 || U32(p, 0) !in stmts {
        return None;
      }
      var id: nat := U32(p, 0);
      var x := codec.expand(queryAttrs, stmts[id], id, longData, p);
      if x.types.Some? {
        stmts := stmts[id := stmts[id].(paramTypes := x.types)];
      }
      if x.consumed {
        longData := Without(longData, id);
      }
      text := x.text;
    }

    method OnExecute(respSeq: byte, ts: int, p: seq<byte>)
      modifies this
      ensures State() == AfterExecute(old(State()), respSeq, ts, p, codec)
    {
      hide Expanded, QueueEvent, Push;
      ExpandedKeeps(State(), p, codec);
      var text := DecodeExecute(p);
      match text {
        case Some(query) =>
          stats := stats.(expanded := stats.expanded + 1);
          PushEvent(respSeq, ts, query);
        case None =>
          stats := stats.(inexpandable := stats.inexpandable + 1);
          PushPending(respSeq, Silent);
      }
    }

    method OnCommand(pkt: LogicalPacket)
      modifies this
      ensures State() == AfterCommand(old(State()), pkt, codec)
    {
      hide Next, U32, U16, Without, AfterExecute, QueueEvent, Push;
      if pending == [] {
        contSeq := None;
      }
      var respSeq := Next(pkt.lastSeq);
      var p := pkt.payload;
      if p == [] {
        return;
      }
      var cmd := p[0];
      if cmd == COM_QUERY {
        var text := if queryAttrs then codec.queryText(p[1..]) else Some(p[1..]);
        match text {
          case Some(t) => PushEvent(respSeq, pkt.ts, codec.text(t));
          case None =>
            stats := stats.(ignored := stats.ignored + 1);
            PushPending(respSeq, Silent);
        }
      } else if cmd == COM_INIT_DB {
        var name := codec.text(p[1..]);
        db := Some(name);
        PushEvent(respSeq, pkt.ts, codec.useStatement(name));
      } else if cmd == COM_STMT_PREPARE {
        PushPending(respSeq, Prepare(codec.text(p[1..])));
      } else if cmd == COM_STMT_EXECUTE {
        OnExecute(respSeq, pkt.ts, p[1..]);
      } else if cmd == COM_STMT_SEND_LONG_DATA {
        if |p| >= 7 {
          var key := (U32(p, 1) as nat, U16(p, 5));
          longData := longData[key := (if key in longData then longData[key] else []) + p[7..]];
        }
      } else if cmd == COM_STMT_CLOSE {
        if |p| >= 5 {
          stmts := stmts - {U32(p, 1)};
          longData := Without(longData, U32(p, 1));
        }
      } else if cmd == COM_STMT_RESET {
        if |p| >= 5 {
          longData := Without(longData, U32(p, 1));
        }
        PushPending(respSeq, Silent);
      } else if cmd == COM_QUIT {
        finished := true;
      } else {
        stats := stats.(ignored := stats.ignored + 1);
        PushPending(respSeq, Silent);
      }
    }

    method Finish() returns (out: seq<Event>)
      modifies this
      ensures (State(), out) == AfterFinish(old(State()))
    {
      hide Statements, Unanswered;
      out := [];
      if finished {
        return;
      }
      finished := true;
      var queue := pending;
      pending := [];
      var i := 0;
      assert queue[0..] == queue;
      while i < |queue|
        invariant 0 <= i <= |queue|
        invariant out + Unanswered(Statements(queue[i..])) == Unanswered(Statements(queue))
        invariant stats == old(stats).(missing := old(stats).missing + |out|)
        invariant State() == old(State()).(finished := true, pending := [], stats := stats)
      {
        assert queue[i..][1..] == queue[i + 1..];
        StatementsUnfold(queue[i..]);
        UnansweredAppend(StatementOf(queue[i]), Statements(queue[i + 1..]));
        UnansweredOne(queue[i]);
        match queue[i].pending {
          case Statement(ev) =>
            stats := stats.(missing := stats.missing + 1);
            out := out + [ev.(responseSeen := false, latency := 0)];
          case _ =>
        }
        i := i + 1;
      }
      StatementsUnfold(queue[|queue|..]);
      UnansweredOne(InFlight(0, Silent));
      assert out + [] == out;
    }
  }

  lemma {:induction false} UnansweredOne(f: InFlight)
    ensures Unanswered(StatementOf(f)) ==
            match f.pending case Statement(ev) => [ev.(responseSeen := false, latency := 0)] case _ => []
  {
    if f.pending.Statement? {
      assert [f.pending.ev][1..] == [];
    }
  }
}
