/** Responses find their requests: sequence ids wrap at 256, responses may span
    any number of packets, commands may span several, and several commands may
    be sent before the first response. */
module Matching {
  import opened Bytes
  import opened Framing
  import opened Protocol

  predicate Ready(d: Decoder) {
    d.phase == Established && d.Decoding()
  }

  /** The command is answered by the server. */
  predicate Responds(p: seq<byte>) {
    p != [] && p[0] != COM_STMT_SEND_LONG_DATA && p[0] != COM_STMT_CLOSE && p[0] != COM_QUIT
  }

  /** A client packet that starts a command other than COM_QUIT. */
  predicate IsCommand(pkt: LogicalPacket) {
    pkt.firstSeq == 0 && (pkt.payload != [] ==> pkt.payload[0] != COM_QUIT)
  }

  /** The start ids of the responses a batch of commands will get. */
  function StartIds(cmds: seq<LogicalPacket>): seq<byte> {
    if cmds == [] then []
    else (if Responds(cmds[0].payload) then [Next(cmds[0].lastSeq)] else []) + StartIds(cmds[1..])
  }

  function RespIds(pending: seq<InFlight>): (r: seq<byte>)
    ensures |r| == |pending|
  {
    if pending == [] then [] else [pending[0].respSeq] + RespIds(pending[1..])
  }

  /** A response as the server frames it: consecutive ids from `start` on. */
  predicate IsResponse(start: byte, resp: seq<LogicalPacket>) {
    && resp != [] && resp[0].firstSeq == start
    && forall i | 0 <= i < |resp| - 1 :: resp[i + 1].firstSeq == Next(resp[i].lastSeq)
  }

  predicate AreResponses(starts: seq<byte>, resps: seq<seq<LogicalPacket>>) {
    |resps| == |starts| && forall i | 0 <= i < |resps| :: IsResponse(starts[i], resps[i])
  }

  /** The id that would continue a response. */
  function EndId(resp: seq<LogicalPacket>): byte
    requires resp != []
  {
    Next(resp[|resp| - 1].lastSeq)
  }

  /** No response ends where the next one starts. */
  predicate NoCollision(starts: seq<byte>, resps: seq<seq<LogicalPacket>>)
    requires AreResponses(starts, resps)
  {
    forall i | 0 <= i < |resps| - 1 :: EndId(resps[i]) != starts[i + 1]
  }

  /** Every response's first packet, and no other packet, closes the oldest
      request in flight. */
  predicate FirstPacketsClose(d: Decoder, resps: seq<seq<LogicalPacket>>, codec: Codec)
    decreases |resps|
  {
    resps == [] ||
    (&& resps[0] != []
     && Answers(d, resps[0][0])
     && var d1 := AfterServerPacket(d, resps[0][0], codec).0;
        && NoneAnswers(d1, resps[0][1..], codec)
        && FirstPacketsClose(AfterPackets(d1, Server, resps[0][1..], codec).0, resps[1..], codec))
  }

  predicate NoneAnswers(d: Decoder, pkts: seq<LogicalPacket>, codec: Codec)
    decreases |pkts|
  {
    pkts == [] || (!Answers(d, pkts[0]) && NoneAnswers(AfterServerPacket(d, pkts[0], codec).0, pkts[1..], codec))
  }

  /** The events of requests closed by the first packets of their responses. */
  function ClosedEvents(pending: seq<InFlight>, resps: seq<seq<LogicalPacket>>): seq<Event> {
    if pending == [] || resps == [] || resps[0] == [] then []
    else
      (match pending[0].pending case Statement(ev) => [Closed(ev, resps[0][0].ts)] case _ => [])
      + ClosedEvents(pending[1..], resps[1..])
  }

  function Flatten(resps: seq<seq<LogicalPacket>>): seq<LogicalPacket> {
    if resps == [] then [] else resps[0] + Flatten(resps[1..])
  }

  lemma {:induction false} PacketsAppend(d: Decoder, dir: Dir, a: seq<LogicalPacket>, b: seq<LogicalPacket>,
                                         codec: Codec)
    ensures var (d1, out1) := AfterPackets(d, dir, a, codec);
            var (d2, out2) := AfterPackets(d1, dir, b, codec);
            AfterPackets(d, dir, a + b, codec).0 == d2 && AfterPackets(d, dir, a + b, codec).1 == out1 + out2
    decreases |a|
  {
    hide AfterPacket;
    if a == [] {
      assert a + b == b;
      assert [] + AfterPackets(d, dir, b, codec).1 == AfterPackets(d, dir, b, codec).1;
    } else if d.Decoding() {
      assert (a + b)[1..] == a[1..] + b;
      var (d1, out1) := AfterPacket(d, dir, a[0], codec);
      PacketsAppend(d1, dir, a[1..], b, codec);
      var (d2, out2) := AfterPackets(d1, dir, a[1..], codec);
      assert out1 + (out2 + AfterPackets(d2, dir, b, codec).1) == (out1 + out2) + AfterPackets(d2, dir, b, codec).1;
    }
  }

  /** Continuation packets close nothing and leave the queue alone. */
  lemma {:induction false} ContinuationsPass(d: Decoder, pkts: seq<LogicalPacket>, codec: Codec)
    requires Ready(d)
    requires pkts != [] ==> Continues(d, pkts[0])
    requires forall i | 0 <= i < |pkts| - 1 :: pkts[i + 1].firstSeq == Next(pkts[i].lastSeq)
    ensures NoneAnswers(d, pkts, codec)
    ensures var (d', out) := AfterPackets(d, Server, pkts, codec);
            && out == [] && d' == d.(contSeq := d'.contSeq)
            && d'.contSeq == if pkts == [] then d.contSeq else Some(EndId(pkts))
    decreases |pkts|
  {
    if pkts != [] {
      var d1 := AfterServerPacket(d, pkts[0], codec).0;
      ContinuationsPass(d1, pkts[1..], codec);
    }
  }

  /** The first packet of a response that is not mistaken for a continuation
      closes the oldest request; the rest of the response passes. */
  lemma {:induction false} FirstPacketDecides(d: Decoder, start: byte, resp: seq<LogicalPacket>, codec: Codec)
    requires Ready(d) && IsResponse(start, resp)
    requires d.pending != [] && d.pending[0].respSeq == start && d.contSeq != Some(start)
    ensures Answers(d, resp[0]) && NoneAnswers(AfterServerPacket(d, resp[0], codec).0, resp[1..], codec)
    ensures var (d', out) := AfterPackets(d, Server, resp, codec);
            && Ready(d') && d'.pending == d.pending[1..] && d'.contSeq == Some(EndId(resp))
            && d' == AfterPackets(AfterServerPacket(d, resp[0], codec).0, Server, resp[1..], codec).0
            && out == match d.pending[0].pending case Statement(ev) => [Closed(ev, resp[0].ts)] case _ => []
  {
    var d1 := AfterServerPacket(d, resp[0], codec).0;
    ContinuationsPass(d1, resp[1..], codec);
  }

  /** FIFO matching of a batch holds exactly when no response's continuation id
      is the start id of the response behind it. */
  lemma {:induction false} BatchMatchesIff(d: Decoder, resps: seq<seq<LogicalPacket>>, codec: Codec)
    requires Ready(d) && AreResponses(RespIds(d.pending), resps)
    requires d.pending != [] ==> d.contSeq != Some(d.pending[0].respSeq)
    ensures FirstPacketsClose(d, resps, codec) <==> NoCollision(RespIds(d.pending), resps)
    ensures NoCollision(RespIds(d.pending), resps) ==>
              var (d', out) := AfterPackets(d, Server, Flatten(resps), codec);
              Ready(d') && d'.pending == [] && out == ClosedEvents(d.pending, resps)
    decreases |resps|
  {
    var starts := RespIds(d.pending);
    if resps != [] {
      FirstPacketDecides(d, starts[0], resps[0], codec);
      var d1 := AfterPackets(d, Server, resps[0], codec).0;
      PacketsAppend(d, Server, resps[0], Flatten(resps[1..]), codec);
      assert RespIds(d1.pending) == starts[1..];
      assert forall i | 0 <= i < |resps| - 1 :: IsResponse(starts[1..][i], resps[1..][i]);
      if |resps| > 1 && EndId(resps[0]) == starts[1] {
        assert Continues(d1, resps[1][0]);
      } else {
        BatchMatchesIff(d1, resps[1..], codec);
        CollisionTail(starts, resps);
      }
    }
  }

  lemma {:induction false} CollisionTail(starts: seq<byte>, resps: seq<seq<LogicalPacket>>)
    requires resps != [] && AreResponses(starts, resps) && AreResponses(starts[1..], resps[1..])
    requires |resps| > 1 ==> EndId(resps[0]) != starts[1]
    ensures NoCollision(starts, resps) <==> NoCollision(starts[1..], resps[1..])
  {
    if NoCollision(starts[1..], resps[1..]) {
      forall i | 0 <= i < |resps| - 1 ensures EndId(resps[i]) != starts[i + 1] {
        if i > 0 {
          assert EndId(resps[1..][i - 1]) != starts[1..][i];
        }
      }
    }
    if NoCollision(starts, resps) {
      forall i | 0 <= i < |resps[1..]| - 1 ensures EndId(resps[1..][i]) != starts[1..][i + 1] {
        assert EndId(resps[i + 1]) != starts[i + 2];
      }
    }
  }

  // ---------------------------------------------------------------------
  // Commands queue requests
  // ---------------------------------------------------------------------

  /** What a command asks for: the answer to the statement it carries, a
      prepared statement, or something no event hangs on. */
  function Asked(d: Decoder, cmd: LogicalPacket, codec: Codec): Pending {
    var sent := SentByPacket(d, Client, cmd, codec);
    if sent != [] then Statement(sent[0])
    else if cmd.payload != [] && cmd.payload[0] == COM_STMT_PREPARE then Prepare(codec.text(cmd.payload[1..]))
    else Silent
  }

  /** The request a command puts in flight, if the server answers it. */
  function RequestOf(d: Decoder, cmd: LogicalPacket, codec: Codec): seq<InFlight> {
    if Responds(cmd.payload) then [InFlight(Next(cmd.lastSeq), Asked(d, cmd, codec))] else []
  }

  function RequestsOf(d: Decoder, cmds: seq<LogicalPacket>, codec: Codec): seq<InFlight>
    decreases |cmds|
  {
    if cmds == [] then []
    else RequestOf(d, cmds[0], codec) + RequestsOf(AfterClientPacket(d, cmds[0], codec), cmds[1..], codec)
  }

  lemma {:induction false} ExpandedKeeps(d: Decoder, p: seq<byte>, codec: Codec)
    ensures var d' := Expanded(d, p, codec).0;
            d' == d.(stmts := d'.stmts, longData := d'.longData)
  {
  }

  /** `d'` has one more request in flight: `pending`, answered from `respSeq` on. */
  predicate Pushes(d: Decoder, d': Decoder, respSeq: byte, pending: Pending) {
    d'.pending == d.pending + [InFlight(respSeq, pending)]
  }

  lemma {:induction false} PushPushes(d: Decoder, e: Decoder, respSeq: byte, pending: Pending)
    requires e.pending == d.pending
    ensures Pushes(d, Push(e, respSeq, pending), respSeq, pending)
  {
  }

  lemma {:induction false} EventPushes(d: Decoder, e: Decoder, respSeq: byte, ts: int, query: string, codec: Codec)
    requires e.pending == d.pending
    ensures var target := codec.useTarget(query);
            Pushes(d, QueueEvent(e, respSeq, ts, query, codec), respSeq,
                   Statement(Event(ts, query, 0, false, if target.Some? then target else e.db, e.user)))
  {
  }

  lemma {:induction false} ExecuteText(d: Decoder, p: seq<byte>, codec: Codec)
    requires p != [] && p[0] == COM_STMT_EXECUTE
    ensures Expanded(d, p[1..], codec).1 == SentText(d, p, codec)
  {
    assert |p| >= 10 ==> U32(p[1..], 0) == U32(p, 1);
  }

  lemma {:induction false} ExecutePushes(d: Decoder, cmd: LogicalPacket, codec: Codec)
    requires d.phase == Established && cmd.firstSeq == 0
    requires cmd.payload != [] && cmd.payload[0] == COM_STMT_EXECUTE
    ensures Pushes(d, AfterCommand(d, cmd, codec), Next(cmd.lastSeq), Asked(d, cmd, codec))
  {
    hide Next, U32, U16, Push, Pushes, Expanded, QueueEvent, SentText;
    var p, respSeq := cmd.payload, Next(cmd.lastSeq);
    var e := if d.pending == [] then d.(contSeq := None) else d;
    var (x, text) := Expanded(e, p[1..], codec);
    ExpandedKeeps(e, p[1..], codec);
    ExecuteText(e, p, codec);
    SentTextSees(d, e, p, codec);
    var x1 := x.(stats := e.stats.(inexpandable := e.stats.inexpandable + 1));
    var x2 := x.(stats := e.stats.(expanded := e.stats.expanded + 1));
    PushPushes(d, x1, respSeq, Silent);
    if text.Some? { EventPushes(d, x2, respSeq, cmd.ts, text.value, codec); }
  }

  lemma {:induction false} SentTextSees(d: Decoder, e: Decoder, p: seq<byte>, codec: Codec)
    requires e == d.(contSeq := e.contSeq)
    ensures SentText(e, p, codec) == SentText(d, p, codec)
  {
  }

  /** A command that is answered pushes exactly what it asks for. */
  lemma {:induction false} AnsweredPushes(d: Decoder, cmd: LogicalPacket, codec: Codec)
    requires d.phase == Established && cmd.firstSeq == 0 && Responds(cmd.payload)
    ensures Pushes(d, AfterCommand(d, cmd, codec), Next(cmd.lastSeq), Asked(d, cmd, codec))
  {
    hide Next, U32, U16, Without, Push, Pushes, Expanded, QueueEvent;
    var p, respSeq := cmd.payload, Next(cmd.lastSeq);
    var e := if d.pending == [] then d.(contSeq := None) else d;
    var e1 := e.(stats := e.stats.(ignored := e.stats.ignored + 1));
    if p[0] == COM_STMT_EXECUTE {
      ExecutePushes(d, cmd, codec);
    } else if p[0] == COM_QUERY {
      var t := if e.queryAttrs then codec.queryText(p[1..]) else Some(p[1..]);
      PushPushes(d, e1, respSeq, Silent);
      if t.Some? { EventPushes(d, e, respSeq, cmd.ts, codec.text(t.value), codec); }
    } else if p[0] == COM_INIT_DB {
      var db := codec.text(p[1..]);
      EventPushes(d, e.(db := Some(db)), respSeq, cmd.ts, codec.useStatement(db), codec);
    } else if p[0] == COM_STMT_PREPARE {
      PushPushes(d, e, respSeq, Prepare(codec.text(p[1..])));
    } else if p[0] == COM_STMT_RESET {
      PushPushes(d, if |p| < 5 then e else e.(longData := Without(e.longData, U32(p, 1))), respSeq, Silent);
    } else {
      PushPushes(d, e1, respSeq, Silent);
    }
  }

  /** A command puts in flight its own request, if any, and nothing else. */
  lemma {:induction false} CommandAsks(d: Decoder, cmd: LogicalPacket, codec: Codec)
    requires d.phase == Established && cmd.firstSeq == 0
    ensures AfterCommand(d, cmd, codec).pending == d.pending + RequestOf(d, cmd, codec)
    ensures !Responds(cmd.payload) ==> SentByPacket(d, Client, cmd, codec) == []
  {
    hide Next, U32, U16, Without, Asked, Expanded;
    if Responds(cmd.payload) {
      hide AfterCommand;
      AnsweredPushes(d, cmd, codec);
    } else {
      assert d.pending + [] == d.pending;
    }
  }

  /** `d'` is `d` with, at the end of the queue, the request `cmd` makes. */
  predicate Queued(d: Decoder, d': Decoder, cmd: LogicalPacket, codec: Codec) {
    && Ready(d') && d'.contSeq == (if d.pending == [] then None else d.contSeq)
    && d'.pending == d.pending + RequestOf(d, cmd, codec)
  }

  lemma {:induction false} CommandQueues(d: Decoder, cmd: LogicalPacket, codec: Codec)
    requires Ready(d) && IsCommand(cmd)
    ensures Queued(d, AfterClientPacket(d, cmd, codec), cmd, codec)
  {
    hide RequestOf;
    CommandAsks(d, cmd, codec);
    CommandKeepsReady(d, cmd, codec);
  }

  /** The two decoders stand alike in the protocol. */
  predicate StandsLike(d: Decoder, d': Decoder) {
    d'.phase == d.phase && d'.disposition == d.disposition && d'.contSeq == d.contSeq && d'.finished == d.finished
  }

  lemma {:induction false} PushStands(d: Decoder, e: Decoder, respSeq: byte, pending: Pending)
    requires StandsLike(d, e)
    ensures StandsLike(d, Push(e, respSeq, pending))
  {
  }

  lemma {:induction false} EventStands(d: Decoder, e: Decoder, respSeq: byte, ts: int, query: string, codec: Codec)
    requires StandsLike(d, e)
    ensures StandsLike(d, QueueEvent(e, respSeq, ts, query, codec))
  {
  }

  lemma {:induction false} ExecuteStands(d: Decoder, cmd: LogicalPacket, codec: Codec)
    requires cmd.payload != [] && cmd.payload[0] == COM_STMT_EXECUTE
    ensures StandsLike(if d.pending == [] then d.(contSeq := None) else d, AfterCommand(d, cmd, codec))
  {
    hide Next, U32, U16, Expanded, Push, QueueEvent, StandsLike;
    var p, respSeq := cmd.payload, Next(cmd.lastSeq);
    var e := if d.pending == [] then d.(contSeq := None) else d;
    var (x, text) := Expanded(e, p[1..], codec);
    var x1 := x.(stats := e.stats.(inexpandable := e.stats.inexpandable + 1));
    var x2 := x.(stats := e.stats.(expanded := e.stats.expanded + 1));
    assert StandsLike(e, x1) && StandsLike(e, x2) by { ExpandedStands(e, p[1..], codec); }
    PushStands(e, x1, respSeq, Silent);
    if text.Some? { EventStands(e, x2, respSeq, cmd.ts, text.value, codec); }
  }

  lemma {:induction false} ExpandedStands(d: Decoder, p: seq<byte>, codec: Codec)
    ensures var x := Expanded(d, p, codec).0;
            forall stats :: StandsLike(d, x.(stats := stats))
  {
    ExpandedKeeps(d, p, codec);
    hide Expanded;
  }

  /** Only COM_QUIT changes how the decoder stands, apart from ending a response
      nothing waits for. */
  lemma {:induction false} CommandStands(d: Decoder, cmd: LogicalPacket, codec: Codec)
    requires cmd.payload != [] ==> cmd.payload[0] != COM_QUIT
    ensures StandsLike(if d.pending == [] then d.(contSeq := None) else d, AfterCommand(d, cmd, codec))
  {
    hide Next, U32, U16, Without, Expanded, Push, QueueEvent, StandsLike;
    var p, respSeq := cmd.payload, Next(cmd.lastSeq);
    var e := if d.pending == [] then d.(contSeq := None) else d;
    StandsUpdated(e);
    if p == [] {
    } else if p[0] == COM_STMT_EXECUTE {
      ExecuteStands(d, cmd, codec);
    } else if p[0] == COM_QUERY {
      var t := if e.queryAttrs then codec.queryText(p[1..]) else Some(p[1..]);
      if t.Some? { EventStands(e, e, respSeq, cmd.ts, codec.text(t.value), codec); }
      PushStands(e, e.(stats := e.stats.(ignored := e.stats.ignored + 1)), respSeq, Silent);
    } else if p[0] == COM_INIT_DB {
      var db := codec.text(p[1..]);
      EventStands(e, e.(db := Some(db)), respSeq, cmd.ts, codec.useStatement(db), codec);
    } else if p[0] == COM_STMT_PREPARE {
      PushStands(e, e, respSeq, Prepare(codec.text(p[1..])));
    } else if p[0] == COM_STMT_RESET {
      PushStands(e, if |p| < 5 then e else e.(longData := Without(e.longData, U32(p, 1))), respSeq, Silent);
    } else if p[0] != COM_STMT_SEND_LONG_DATA && p[0] != COM_STMT_CLOSE {
      PushStands(e, e.(stats := e.stats.(ignored := e.stats.ignored + 1)), respSeq, Silent);
    }
  }

  lemma {:induction false} StandsUpdated(e: Decoder)
    ensures StandsLike(e, e)
    ensures forall stats :: StandsLike(e, e.(stats := stats))
    ensures forall db :: StandsLike(e, e.(db := db))
    ensures forall longData :: StandsLike(e, e.(longData := longData))
    ensures forall stmts, longData :: StandsLike(e, e.(stmts := stmts, longData := longData))
  {
  }

  lemma {:induction false} CommandKeepsReady(d: Decoder, cmd: LogicalPacket, codec: Codec)
    requires Ready(d) && IsCommand(cmd)
    ensures var d' := AfterClientPacket(d, cmd, codec);
            Ready(d') && d'.contSeq == (if d.pending == [] then None else d.contSeq)
  {
    hide AfterCommand;
    CommandStands(d, cmd, codec);
  }

  lemma {:induction false} CommandsQueue(d: Decoder, cmds: seq<LogicalPacket>, codec: Codec)
    requires Ready(d) && (forall c | c in cmds :: IsCommand(c))
    requires d.pending != [] ==> d.contSeq == None
    ensures var (d', out) := AfterPackets(d, Client, cmds, codec);
            && Ready(d') && out == [] && (d'.pending != [] ==> d'.contSeq == None)
            && d'.pending == d.pending + RequestsOf(d, cmds, codec)
    decreases |cmds|
  {
    hide AfterClientPacket, RequestOf, Next;
    if cmds == [] {
      assert d.pending + [] == d.pending;
    } else {
      CommandQueues(d, cmds[0], codec);
      var d1 := AfterClientPacket(d, cmds[0], codec);
      CommandsQueue(d1, cmds[1..], codec);
      var d' := AfterPackets(d, Client, cmds, codec).0;
      assert d' == AfterPackets(d1, Client, cmds[1..], codec).0;
      var r, rs := RequestOf(d, cmds[0], codec), RequestsOf(d1, cmds[1..], codec);
      assert (d.pending + r) + rs == d.pending + (r + rs);
    }
  }

  lemma {:induction false} IdsOfRequests(d: Decoder, cmds: seq<LogicalPacket>, codec: Codec)
    ensures RespIds(RequestsOf(d, cmds, codec)) == StartIds(cmds)
    decreases |cmds|
  {
    hide Next, Asked;
    if cmds != [] {
      var d1 := AfterClientPacket(d, cmds[0], codec);
      IdsOfRequests(d1, cmds[1..], codec);
      var rs := RequestsOf(d1, cmds[1..], codec);
      if Responds(cmds[0].payload) {
        var r := RequestOf(d, cmds[0], codec);
        assert (r + rs)[1..] == rs;
      } else {
        assert [] + rs == rs && [] + StartIds(cmds[1..]) == StartIds(cmds[1..]);
      }
    }
  }

  // ---------------------------------------------------------------------
  // Whole conversations
  // ---------------------------------------------------------------------

  /** Commands sent back to back, then their responses in order. */
  datatype Round = Round(cmds: seq<LogicalPacket>, resps: seq<seq<LogicalPacket>>)

  predicate WellFormed(r: Round) {
    (forall c | c in r.cmds :: IsCommand(c)) && AreResponses(StartIds(r.cmds), r.resps)
  }

  /** A round matches exactly when its responses do not collide. */
  lemma {:induction false} RoundMatchesIff(d: Decoder, r: Round, codec: Codec)
    requires Ready(d) && d.pending == [] && WellFormed(r)
    ensures var d1 := AfterPackets(d, Client, r.cmds, codec).0;
            && d1.pending == RequestsOf(d, r.cmds, codec)
            && (FirstPacketsClose(d1, r.resps, codec) <==> NoCollision(StartIds(r.cmds), r.resps))
            && (NoCollision(StartIds(r.cmds), r.resps) ==>
                  var (d2, out) := AfterPackets(d1, Server, Flatten(r.resps), codec);
                  Ready(d2) && d2.pending == [] && out == ClosedEvents(d1.pending, r.resps))
  {
    CommandsQueue(d, r.cmds, codec);
    var d1 := AfterPackets(d, Client, r.cmds, codec).0;
    assert [] + RequestsOf(d, r.cmds, codec) == RequestsOf(d, r.cmds, codec);
    IdsOfRequests(d, r.cmds, codec);
    BatchMatchesIff(d1, r.resps, codec);
  }

  /** With one command per round nothing can collide, however long the
      responses are and however many packets the command spans. */
  lemma {:induction false} OneAtATimeNeverCollides(r: Round)
    requires WellFormed(r) && |r.cmds| == 1
    ensures NoCollision(StartIds(r.cmds), r.resps)
  {
    assert |StartIds(r.cmds)| <= 1;
  }

  function AfterRounds(d: Decoder, rounds: seq<Round>, codec: Codec): (Decoder, seq<Event>)
    decreases |rounds|
  {
    if rounds == [] then (d, [])
    else
      var d1 := AfterPackets(d, Client, rounds[0].cmds, codec).0;
      var (d2, out) := AfterPackets(d1, Server, Flatten(rounds[0].resps), codec);
      var (d3, more) := AfterRounds(d2, rounds[1..], codec);
      (d3, out + more)
  }

  /** Every statement of the conversation, in send order, is closed by the
      first packet of its own response, and nothing stays in flight. */
  ghost predicate AllClosed(d: Decoder, rounds: seq<Round>, evs: seq<Event>, codec: Codec)
    decreases |rounds|
  {
    if rounds == [] then evs == []
    else
      var d1 := AfterPackets(d, Client, rounds[0].cmds, codec).0;
      var d2 := AfterPackets(d1, Server, Flatten(rounds[0].resps), codec).0;
      var n := |Statements(d1.pending)|;
      && d1.pending == RequestsOf(d, rounds[0].cmds, codec)
      && FirstPacketsClose(d1, rounds[0].resps, codec)
      && n <= |evs| && evs[..n] == ClosedEvents(d1.pending, rounds[0].resps)
      && d2.pending == []
      && AllClosed(d2, rounds[1..], evs[n..], codec)
  }

  lemma {:induction false} ClosedCount(fs: seq<InFlight>, resps: seq<seq<LogicalPacket>>)
    requires |resps| == |fs| && forall i | 0 <= i < |resps| :: resps[i] != []
    ensures |ClosedEvents(fs, resps)| == |Statements(fs)|
  {
    if fs != [] {
      ClosedCount(fs[1..], resps[1..]);
    }
  }

  lemma {:induction false} ConversationMatches(d: Decoder, rounds: seq<Round>, codec: Codec)
    requires Ready(d) && d.pending == []
    requires forall r | r in rounds :: WellFormed(r) && NoCollision(StartIds(r.cmds), r.resps)
    ensures AllClosed(d, rounds, AfterRounds(d, rounds, codec).1, codec)
    ensures AfterRounds(d, rounds, codec).0.pending == []
    decreases |rounds|
  {
    if rounds != [] {
      var r := rounds[0];
      RoundMatchesIff(d, r, codec);
      var d1 := AfterPackets(d, Client, r.cmds, codec).0;
      var (d2, out) := AfterPackets(d1, Server, Flatten(r.resps), codec);
      assert forall i | 0 <= i < |r.resps| :: IsResponse(StartIds(r.cmds)[i], r.resps[i]);
      IdsOfRequests(d, r.cmds, codec);
      ClosedCount(d1.pending, r.resps);
      ConversationMatches(d2, rounds[1..], codec);
      var evs := AfterRounds(d, rounds, codec).1;
      assert evs == out + AfterRounds(d2, rounds[1..], codec).1;
      assert evs[..|out|] == out && evs[|out|..] == AfterRounds(d2, rounds[1..], codec).1;
    }
  }

  lemma {:induction false} FlattenTwo(resps: seq<seq<LogicalPacket>>)
    requires |resps| == 2
    ensures Flatten(resps) == resps[0] + resps[1]
  {
    assert Flatten(resps[1..]) == resps[1] + Flatten(resps[1..][1..]) == resps[1] + [];
  }

  /** When ids collide the later response is taken for more of the earlier one,
      as for two one-packet commands whose first response has 256 packets. */
  lemma {:induction false} CollisionLosesAResponse(d: Decoder, r: Round, codec: Codec)
    requires Ready(d) && d.pending == [] && WellFormed(r)
    requires |r.resps| == 2 && EndId(r.resps[0]) == StartIds(r.cmds)[1]
    ensures var d1 := AfterPackets(d, Client, r.cmds, codec).0;
            var d2 := AfterPackets(d1, Server, Flatten(r.resps), codec).0;
            |d1.pending| == 2 && d2.pending == [d1.pending[1]]
  {
    hide AfterServerPacket, AfterClientPacket, Responds, StartIds, Next, AfterPackets, RequestsOf, Flatten, NoneAnswers;
    CommandsQueue(d, r.cmds, codec);
    var d1 := AfterPackets(d, Client, r.cmds, codec).0;
    assert [] + RequestsOf(d, r.cmds, codec) == RequestsOf(d, r.cmds, codec);
    IdsOfRequests(d, r.cmds, codec);
    var starts := StartIds(r.cmds);
    assert IsResponse(starts[0], r.resps[0]) && IsResponse(starts[1], r.resps[1]);
    FirstPacketDecides(d1, starts[0], r.resps[0], codec);
    var e := AfterPackets(d1, Server, r.resps[0], codec).0;
    ContinuationsPass(e, r.resps[1], codec);
    PacketsAppend(d1, Server, r.resps[0], r.resps[1], codec);
    FlattenTwo(r.resps);
    assert d1.pending[1..] == [d1.pending[1]];
  }

  /** A round that collides: two one-byte commands sent together, the first of
      them answered in 256 packets. */
  function CollidingRound(ts: int): Round {
    var cmd := LogicalPacket(0, 0, ts, [0x0e]);
    Round([cmd, cmd],
          [seq(256, i requires 0 <= i < 256 => LogicalPacket((i + 1) % 256, (i + 1) % 256, ts, [0])),
           [LogicalPacket(1, 1, ts, [0])]])
  }

  lemma {:induction false} SomeRoundsCollide(ts: int)
    ensures var r := CollidingRound(ts);
            WellFormed(r) && StartIds(r.cmds) == [1, 1] && !NoCollision(StartIds(r.cmds), r.resps)
  {
    var r := CollidingRound(ts);
    var cmd, resps := r.cmds[0], r.resps;
    assert StartIds(r.cmds) == [1, 1] by {
      assert r.cmds[1..] == [cmd] && [cmd][1..] == [];
      assert StartIds([cmd]) == [1] + StartIds([]) == [1];
    }
    assert IsResponse(1, resps[0]) && IsResponse(1, resps[1]);
    hide IsResponse, StartIds;
    assert EndId(resps[0]) == 1;
  }
}
