/** One connection: both directions' bytes in, statement events out. Every
    statement sent comes out once, in send order, but for those that a COM_QUIT
    leaves in flight or the chunk that breaks the framing discards. */
module Connection {
  import opened Bytes
  import opened Framing
  import opened Protocol
  import opened Matching

  /** The decoder and the chunks each direction has been fed. */
  datatype Conn = Conn(dec: Decoder, client: seq<Chunk>, server: seq<Chunk>)

  const FRESH := Conn(NEW, [], [])

  function Fed(c: Conn, dir: Dir): seq<Chunk> {
    match dir case Client => c.client case Server => c.server
  }

  function Feed(c: Conn, dir: Dir, chunk: Chunk): Conn {
    match dir
    case Client => c.(client := c.client + [chunk])
    case Server => c.(server := c.server + [chunk])
  }

  /** A chunk that breaks the framing discards the packets it completed. */
  function AfterBytes(c: Conn, dir: Dir, chunk: Chunk, codec: Codec): (Conn, seq<Event>) {
    if !c.dec.Decoding() || chunk.bytes == [] then (c, [])
    else
      var c1 := Feed(c, dir, chunk);
      if Broken(c1.client) || Broken(c1.server) then (c1.(dec := c.dec.(disposition := BrokenStream)), [])
      else
        var (dec, out) := AfterPackets(c.dec, dir, NewPackets(Fed(c, dir), chunk), codec);
        (c1.(dec := dec), out)
  }

  datatype Input = Input(dir: Dir, chunk: Chunk)

  function AfterInputs(c: Conn, inputs: seq<Input>, codec: Codec): (Conn, seq<Event>)
    decreases |inputs|
  {
    if inputs == [] then (c, [])
    else
      var (c1, out1) := AfterBytes(c, inputs[0].dir, inputs[0].chunk, codec);
      var (c2, out2) := AfterInputs(c1, inputs[1..], codec);
      (c2, out1 + out2)
  }

  // ---------------------------------------------------------------------
  // Conservation
  // ---------------------------------------------------------------------

  /** What the chunk makes the client have sent, whether or not it is decoded. */
  function SentByBytes(c: Conn, dir: Dir, chunk: Chunk, codec: Codec): seq<Event> {
    if !c.dec.Decoding() || chunk.bytes == [] then []
    else SentByPackets(c.dec, dir, NewPackets(Fed(c, dir), chunk), codec)
  }

  /** The chunk breaks the framing. */
  predicate Breaks(c: Conn, dir: Dir, chunk: Chunk) {
    var c1 := Feed(c, dir, chunk);
    c.dec.Decoding() && chunk.bytes != [] && (Broken(c1.client) || Broken(c1.server))
  }

  /** The statements completed in the chunk that breaks the framing. */
  function Discarded(c: Conn, inputs: seq<Input>, codec: Codec): seq<Event>
    decreases |inputs|
  {
    if inputs == [] then []
    else if Breaks(c, inputs[0].dir, inputs[0].chunk) then SentByBytes(c, inputs[0].dir, inputs[0].chunk, codec)
    else Discarded(AfterBytes(c, inputs[0].dir, inputs[0].chunk, codec).0, inputs[1..], codec)
  }

  function Sent(c: Conn, inputs: seq<Input>, codec: Codec): seq<Event>
    decreases |inputs|
  {
    if inputs == [] then []
    else SentByBytes(c, inputs[0].dir, inputs[0].chunk, codec)
         + Sent(AfterBytes(c, inputs[0].dir, inputs[0].chunk, codec).0, inputs[1..], codec)
  }

  /** In flight, a statement has no answer yet. */
  predicate Bare(d: Decoder) {
    Unanswered(Statements(d.pending)) == Statements(d.pending)
  }

  lemma {:induction false} UnansweredAppend(a: seq<Event>, b: seq<Event>)
    ensures Unanswered(a + b) == Unanswered(a) + Unanswered(b)
  {
    if a == [] {
      assert a + b == b;
    } else {
      assert (a + b)[1..] == a[1..] + b;
      UnansweredAppend(a[1..], b);
    }
  }

  lemma {:induction false} StatementsUnfold(a: seq<InFlight>)
    ensures Statements(a) == if a == [] then [] else StatementOf(a[0]) + Statements(a[1..])
  {
  }

  lemma {:induction false} StatementsAppend(a: seq<InFlight>, b: seq<InFlight>)
    ensures Statements(a + b) == Statements(a) + Statements(b)
    decreases |a|
  {
    hide Statements, StatementOf;
    StatementsUnfold(a);
    if a == [] {
      assert a + b == b && [] + Statements(b) == Statements(b);
    } else {
      StatementsUnfold(a + b);
      assert (a + b)[1..] == a[1..] + b;
      StatementsAppend(a[1..], b);
      var h, x, y := StatementOf(a[0]), Statements(a[1..]), Statements(b);
      assert h + (x + y) == (h + x) + y;
    }
  }

  /** Out plus in flight after equals in flight before plus newly sent. */
  ghost predicate Conserves(d: Decoder, d': Decoder, out: seq<Event>, sent: seq<Event>) {
    Bare(d') && Unanswered(out) + Statements(d'.pending) == Statements(d.pending) + sent
  }

  lemma {:induction false} Regroup(o1: seq<Event>, o2: seq<Event>, c: seq<Event>, b: seq<Event>, s2: seq<Event>,
                                   a: seq<Event>, s1: seq<Event>)
    requires o2 + c == b + s2 && o1 + b == a + s1
    ensures (o1 + o2) + c == a + (s1 + s2)
  {
    assert (o1 + o2) + c == o1 + (o2 + c);
    assert o1 + (b + s2) == (o1 + b) + s2;
    assert (a + s1) + s2 == a + (s1 + s2);
  }

  lemma {:induction false} ConservesTrans(a: Decoder, b: Decoder, c: Decoder,
                       out1: seq<Event>, out2: seq<Event>, sent1: seq<Event>, sent2: seq<Event>)
    requires Conserves(a, b, out1, sent1) && Conserves(b, c, out2, sent2)
    ensures Conserves(a, c, out1 + out2, sent1 + sent2)
  {
    hide Unanswered, Statements;
    UnansweredAppend(out1, out2);
    Regroup(Unanswered(out1), Unanswered(out2), Statements(c.pending), Statements(b.pending), sent2,
            Statements(a.pending), sent1);
  }

  /** The queue grows by at most one request, which holds the statement sent. */
  predicate PushesOne(d: Decoder, d': Decoder, sent: seq<Event>) {
    if d'.pending == d.pending then sent == []
    else
      && |d'.pending| == |d.pending| + 1 && d'.pending[..|d.pending|] == d.pending
      && StatementOf(d'.pending[|d.pending|]) == sent
  }

  /** A command puts in flight the statement it carries, and no other. */
  lemma {:induction false} CommandPushesOne(d: Decoder, pkt: LogicalPacket, codec: Codec)
    requires pkt.payload != [] && d.phase == Established && pkt.firstSeq == 0
    ensures PushesOne(d, AfterCommand(d, pkt, codec), SentByPacket(d, Client, pkt, codec))
  {
    hide Next, SentText, SentDb, AfterCommand;
    CommandAsks(d, pkt, codec);
  }

  lemma {:induction false} ClientPushesOne(d: Decoder, pkt: LogicalPacket, codec: Codec)
    ensures PushesOne(d, AfterClientPacket(d, pkt, codec), SentByPacket(d, Client, pkt, codec))
  {
    hide AfterLogin, PushesOne;
    LoginKeepsQueue(d, pkt.payload, codec);
    if d.phase == Established && pkt.firstSeq == 0 && pkt.payload != [] {
      CommandPushesOne(d, pkt, codec);
    } else {
      KeepsQueue(d, AfterClientPacket(d, pkt, codec));
    }
  }

  lemma {:induction false} LoginKeepsQueue(d: Decoder, p: seq<byte>, codec: Codec)
    ensures AfterLogin(d, p, codec).pending == d.pending
  {
    hide U32, Has;
  }

  lemma {:induction false} KeepsQueue(d: Decoder, e: Decoder)
    requires e.pending == d.pending
    ensures PushesOne(d, e, [])
  {
  }

  /** Closing the oldest request keeps the books. */
  lemma {:induction false} PopConserves(pending: seq<InFlight>, ts: int)
    requires pending != [] && Unanswered(Statements(pending)) == Statements(pending)
    ensures var out := match pending[0].pending case Statement(ev) => [Closed(ev, ts)] case _ => [];
            && Unanswered(out) + Statements(pending[1..]) == Statements(pending)
            && Unanswered(Statements(pending[1..])) == Statements(pending[1..])
  {
    var rest := Statements(pending[1..]);
    if pending[0].pending.Statement? {
      var ev := pending[0].pending.ev;
      assert ([ev] + rest)[1..] == rest;
      assert Unanswered([ev] + rest) == [ev.(responseSeen := false, latency := 0)] + Unanswered(rest);
      assert [Closed(ev, ts)][1..] == [];
    } else {
      assert Statements(pending) == [] + rest == rest;
      assert Unanswered([]) + rest == rest;
    }
  }

  lemma {:induction false} ServerConserves(d: Decoder, pkt: LogicalPacket, codec: Codec)
    requires Bare(d)
    ensures var (d', out) := AfterServerPacket(d, pkt, codec);
            Conserves(d, d', out, [])
  {
    hide Next, Registered, Unanswered, Statements;
    assert Unanswered([]) == [];
    assert [] + Statements(d.pending) == Statements(d.pending) == Statements(d.pending) + [];
    if d.pending != [] {
      PopConserves(d.pending, pkt.ts);
    }
  }

  lemma {:induction false} SentIsBare(d: Decoder, dir: Dir, pkt: LogicalPacket, codec: Codec)
    ensures Unanswered(SentByPacket(d, dir, pkt, codec)) == SentByPacket(d, dir, pkt, codec)
  {
    hide SentText, SentDb;
    var sent := SentByPacket(d, dir, pkt, codec);
    if sent != [] {
      assert sent[1..] == [];
    }
  }

  /** The statements in flight grow by what the client sends. */
  lemma {:induction false} PushedStatements(d: Decoder, d': Decoder, sent: seq<Event>)
    requires PushesOne(d, d', sent)
    ensures Statements(d'.pending) == Statements(d.pending) + sent
  {
    hide Statements, StatementOf;
    if d'.pending != d.pending {
      var f := d'.pending[|d.pending|];
      assert d'.pending == d.pending + [f];
      StatementsAppend(d.pending, [f]);
      StatementsUnfold([f]);
      StatementsUnfold([]);
      assert [f][1..] == [] && StatementOf(f) + [] == StatementOf(f);
    } else {
      assert Statements(d.pending) + [] == Statements(d.pending);
    }
  }

  lemma {:induction false} PacketConserves(d: Decoder, dir: Dir, pkt: LogicalPacket, codec: Codec)
    requires Bare(d)
    ensures var (d', out) := AfterPacket(d, dir, pkt, codec);
            Conserves(d, d', out, SentByPacket(d, dir, pkt, codec))
  {
    hide AfterClientPacket, AfterServerPacket, Statements, Unanswered, SentText, SentDb, PushesOne;
    if dir == Client {
      ClientPushesOne(d, pkt, codec);
      var d', sent := AfterClientPacket(d, pkt, codec), SentByPacket(d, dir, pkt, codec);
      assert Unanswered([]) == [] && [] + Statements(d'.pending) == Statements(d'.pending);
      PushedStatements(d, d', sent);
      UnansweredAppend(Statements(d.pending), sent);
      SentIsBare(d, dir, pkt, codec);
    } else {
      ServerConserves(d, pkt, codec);
    }
  }

  lemma {:induction false} PacketsConserve(d: Decoder, dir: Dir, pkts: seq<LogicalPacket>, codec: Codec)
    requires Bare(d)
    ensures var (d', out) := AfterPackets(d, dir, pkts, codec);
            Conserves(d, d', out, SentByPackets(d, dir, pkts, codec))
    decreases |pkts|
  {
    hide AfterPacket, SentByPacket;
    if pkts != [] && d.Decoding() {
      PacketConserves(d, dir, pkts[0], codec);
      var (d1, out1) := AfterPacket(d, dir, pkts[0], codec);
      PacketsConserve(d1, dir, pkts[1..], codec);
      ConservesTrans(d, d1, AfterPackets(d1, dir, pkts[1..], codec).0, out1, AfterPackets(d1, dir, pkts[1..], codec).1,
                     SentByPacket(d, dir, pkts[0], codec), SentByPackets(d1, dir, pkts[1..], codec));
    }
  }

  /** A decoder that has given up stays as it is. */
  lemma {:induction false} GivenUp(c: Conn, inputs: seq<Input>, codec: Codec)
    requires !c.dec.Decoding()
    ensures AfterInputs(c, inputs, codec) == (c, []) && Sent(c, inputs, codec) == [] && !QuitAmong(c, inputs, codec)
    ensures Discarded(c, inputs, codec) == []
    decreases |inputs|
  {
    hide AfterPackets, SentByPackets, Broken, NewPackets, QuitAmongPackets;
    if inputs != [] {
      GivenUp(c, inputs[1..], codec);
      var nothing: seq<Event> := [];
      assert nothing + nothing == nothing;
    }
  }

  lemma {:induction false} BytesConserve(c: Conn, dir: Dir, chunk: Chunk, codec: Codec)
    requires Bare(c.dec) && !Breaks(c, dir, chunk)
    ensures var (c', out) := AfterBytes(c, dir, chunk, codec);
            Conserves(c.dec, c'.dec, out, SentByBytes(c, dir, chunk, codec))
  {
    hide AfterPackets, SentByPackets, Broken, NewPackets, Statements;
    PacketsConserve(c.dec, dir, NewPackets(Fed(c, dir), chunk), codec);
    if !c.dec.Decoding() || chunk.bytes == [] {
      assert Unanswered([]) == [] && [] + Statements(c.dec.pending) == Statements(c.dec.pending) + [];
    }
  }

  lemma {:induction false} BytesBreak(c: Conn, dir: Dir, chunk: Chunk, codec: Codec)
    requires Breaks(c, dir, chunk)
    ensures var (c', out) := AfterBytes(c, dir, chunk, codec);
            out == [] && c'.dec == c.dec.(disposition := BrokenStream) && !QuitInBytes(c, dir, chunk, codec)
  {
    hide AfterPackets, Broken, NewPackets, QuitAmongPackets;
  }

  /** Out plus in flight plus discarded equals in flight before plus newly sent. */
  ghost predicate Accounts(d: Decoder, d': Decoder, out: seq<Event>, discarded: seq<Event>, sent: seq<Event>) {
    Bare(d') && Unanswered(out) + Statements(d'.pending) + discarded == Statements(d.pending) + sent
  }

  lemma {:induction false} AccountsTrans(a: Decoder, b: Decoder, c: Decoder, out1: seq<Event>, out2: seq<Event>,
                                         discarded: seq<Event>, sent1: seq<Event>, sent2: seq<Event>)
    requires Conserves(a, b, out1, sent1) && Accounts(b, c, out2, discarded, sent2)
    ensures Accounts(a, c, out1 + out2, discarded, sent1 + sent2)
  {
    hide Unanswered, Statements;
    UnansweredAppend(out1, out2);
    var st := Statements(c.pending);
    Regroup(Unanswered(out1), Unanswered(out2), st + discarded, Statements(b.pending), sent2, Statements(a.pending),
            sent1);
    assert Unanswered(out2) + st + discarded == Unanswered(out2) + (st + discarded);
    assert (Unanswered(out1) + Unanswered(out2)) + st + discarded
        == (Unanswered(out1) + Unanswered(out2)) + (st + discarded);
  }

  lemma {:induction false} NothingIn(d: Decoder, d': Decoder, sent: seq<Event>)
    requires Bare(d) && d'.pending == d.pending
    ensures Accounts(d, d', [], sent, sent)
  {
    assert Unanswered([]) == [] && [] + Statements(d.pending) == Statements(d.pending);
  }

  lemma {:induction false} InputsConserve(c: Conn, inputs: seq<Input>, codec: Codec)
    requires Bare(c.dec)
    ensures var (c', out) := AfterInputs(c, inputs, codec);
            Accounts(c.dec, c'.dec, out, Discarded(c, inputs, codec), Sent(c, inputs, codec))
    ensures QuitAmong(c, inputs, codec) ==> Discarded(c, inputs, codec) == []
    decreases |inputs|
  {
    hide AfterBytes, SentByBytes, Breaks, Conserves, Accounts, QuitInBytes, Bare;
    if inputs == [] {
      NothingIn(c.dec, c.dec, []);
    } else {
      var i := inputs[0];
      var (c1, out1) := AfterBytes(c, i.dir, i.chunk, codec);
      var sent1, sent2 := SentByBytes(c, i.dir, i.chunk, codec), Sent(c1, inputs[1..], codec);
      var (c2, out2) := AfterInputs(c1, inputs[1..], codec);
      if Breaks(c, i.dir, i.chunk) {
        BytesBreak(c, i.dir, i.chunk, codec);
        GivenUp(c1, inputs[1..], codec);
        NothingIn(c.dec, c1.dec, sent1);
        var nothing: seq<Event> := [];
        assert sent1 + nothing == sent1 && nothing + nothing == nothing;
      } else {
        BytesConserve(c, i.dir, i.chunk, codec);
        StaysBare(c.dec, c1.dec, out1, sent1);
        InputsConserve(c1, inputs[1..], codec);
        AccountsTrans(c.dec, c1.dec, c2.dec, out1, out2, Discarded(c1, inputs[1..], codec), sent1, sent2);
        assert QuitInBytes(c, i.dir, i.chunk, codec) ==> Discarded(c1, inputs[1..], codec) == [] by {
          if QuitInBytes(c, i.dir, i.chunk, codec) {
            QuitInBytesStops(c, i.dir, i.chunk, codec);
            GivenUp(c1, inputs[1..], codec);
          }
        }
      }
    }
  }

  lemma {:induction false} StaysBare(d: Decoder, d': Decoder, out: seq<Event>, sent: seq<Event>)
    requires Conserves(d, d', out, sent)
    ensures Bare(d')
  {
  }

  // ---------------------------------------------------------------------
  // Discarded statements
  // ---------------------------------------------------------------------

  /** While the decoder is at work neither direction is broken. */
  predicate Sound(c: Conn) {
    c.dec.Decoding() ==> !Broken(c.client) && !Broken(c.server)
  }

  lemma {:induction false} BytesSound(c: Conn, dir: Dir, chunk: Chunk, codec: Codec)
    requires Sound(c)
    ensures Sound(AfterBytes(c, dir, chunk, codec).0)
    ensures Breaks(c, dir, chunk) && |chunk.bytes| <= MAX_LOGICAL_PACKET ==> SentByBytes(c, dir, chunk, codec) == []
  {
    hide AfterPackets, Broken, NewPackets;
    if Breaks(c, dir, chunk) && |chunk.bytes| <= MAX_LOGICAL_PACKET {
      BreakingChunkIsSilent(Fed(c, dir), chunk);
    }
  }

  /** No chunk of at most 64 MiB loses a statement by breaking the framing. */
  lemma {:induction false} SmallChunksDiscardNothing(c: Conn, inputs: seq<Input>, codec: Codec)
    requires Sound(c) && forall i | 0 <= i < |inputs| :: |inputs[i].chunk.bytes| <= MAX_LOGICAL_PACKET
    ensures Discarded(c, inputs, codec) == []
    decreases |inputs|
  {
    hide AfterBytes, SentByBytes, Breaks, Sound;
    if inputs != [] {
      BytesSound(c, inputs[0].dir, inputs[0].chunk, codec);
      SmallChunksDiscardNothing(AfterBytes(c, inputs[0].dir, inputs[0].chunk, codec).0, inputs[1..], codec);
    }
  }

  lemma {:induction false} FreshIsSound()
    ensures Sound(FRESH) && Bare(FRESH.dec)
  {
    DecodeStep([], None, 0);
  }

  // ---------------------------------------------------------------------
  // COM_QUIT
  // ---------------------------------------------------------------------

  /** The client says goodbye. */
  predicate Quits(d: Decoder, dir: Dir, pkt: LogicalPacket) {
    && dir == Client && d.phase == Established && pkt.firstSeq == 0
    && pkt.payload != [] && pkt.payload[0] == COM_QUIT
  }

  predicate QuitAmongPackets(d: Decoder, dir: Dir, pkts: seq<LogicalPacket>, codec: Codec)
    decreases |pkts|
  {
    && pkts != [] && d.Decoding()
    && (Quits(d, dir, pkts[0]) || QuitAmongPackets(AfterPacket(d, dir, pkts[0], codec).0, dir, pkts[1..], codec))
  }

  predicate QuitInBytes(c: Conn, dir: Dir, chunk: Chunk, codec: Codec) {
    var c1 := Feed(c, dir, chunk);
    && c.dec.Decoding() && chunk.bytes != [] && !Broken(c1.client) && !Broken(c1.server)
    && QuitAmongPackets(c.dec, dir, NewPackets(Fed(c, dir), chunk), codec)
  }

  /** A COM_QUIT is among the packets the decoder handles. */
  predicate QuitAmong(c: Conn, inputs: seq<Input>, codec: Codec)
    decreases |inputs|
  {
    && inputs != []
    && (|| QuitInBytes(c, inputs[0].dir, inputs[0].chunk, codec)
        || QuitAmong(AfterBytes(c, inputs[0].dir, inputs[0].chunk, codec).0, inputs[1..], codec))
  }

  lemma {:induction false} QuitFinishes(d: Decoder, dir: Dir, pkt: LogicalPacket, codec: Codec)
    ensures AfterPacket(d, dir, pkt, codec).0.finished <==> d.finished || Quits(d, dir, pkt)
  {
    if dir == Client && d.phase == Established && pkt.firstSeq == 0 {
      hide U32, U16, Has, Without, Expanded;
      if !Quits(d, dir, pkt) {
        hide AfterCommand;
        CommandStands(d, pkt, codec);
      }
    } else {
      hide AfterCommand, U32, Has, Registered, Continues, Answers;
    }
  }

  lemma {:induction false} QuitAmongFinishes(d: Decoder, dir: Dir, pkts: seq<LogicalPacket>, codec: Codec)
    ensures AfterPackets(d, dir, pkts, codec).0.finished <==> d.finished || QuitAmongPackets(d, dir, pkts, codec)
    decreases |pkts|
  {
    hide AfterPacket, Quits;
    if pkts != [] && d.Decoding() {
      QuitFinishes(d, dir, pkts[0], codec);
      var d1 := AfterPacket(d, dir, pkts[0], codec).0;
      QuitAmongFinishes(d1, dir, pkts[1..], codec);
    }
  }

  lemma {:induction false} OnlyQuitFinishes(c: Conn, inputs: seq<Input>, codec: Codec)
    ensures AfterInputs(c, inputs, codec).0.dec.finished <==> c.dec.finished || QuitAmong(c, inputs, codec)
    decreases |inputs|
  {
    hide AfterPackets, QuitAmongPackets, Broken, NewPackets;
    if inputs != [] {
      var i := inputs[0];
      QuitAmongFinishes(c.dec, i.dir, NewPackets(Fed(c, i.dir), i.chunk), codec);
      OnlyQuitFinishes(AfterBytes(c, i.dir, i.chunk, codec).0, inputs[1..], codec);
    }
  }

  lemma {:induction false} QuitInBytesStops(c: Conn, dir: Dir, chunk: Chunk, codec: Codec)
    requires QuitInBytes(c, dir, chunk, codec)
    ensures !AfterBytes(c, dir, chunk, codec).0.dec.Decoding()
  {
    hide AfterPackets, QuitAmongPackets, Broken, NewPackets;
    QuitAmongFinishes(c.dec, dir, NewPackets(Fed(c, dir), chunk), codec);
  }

  lemma {:induction false} LengthsAdd(a: seq<Event>, b: seq<Event>, c: seq<Event>, sent: seq<Event>)
    requires a + b + c == sent
    ensures a == sent <==> b == [] && c == []
    ensures a + b == sent <==> c == []
  {
  }

  /** Over a whole connection every statement sent comes out exactly once and in
      send order, the unanswered ones counted as missing, exactly unless a
      COM_QUIT left statements in flight, or the chunk that broke the framing
      completed some; and none when no chunk is longer than 64 MiB. */
  lemma {:induction false} EveryStatementOnce(inputs: seq<Input>, codec: Codec)
    ensures var (c, out) := AfterInputs(FRESH, inputs, codec);
            var (d, flushed) := AfterFinish(c.dec);
            var sent, quit := Sent(FRESH, inputs, codec), QuitAmong(FRESH, inputs, codec);
            var discarded := Discarded(FRESH, inputs, codec);
            && (Unanswered(out + flushed) == sent
                <==> (!quit || Statements(c.dec.pending) == []) && discarded == [])
            && (quit ==> flushed == [] && Unanswered(out) + Statements(c.dec.pending) == sent)
            && (!quit ==> Unanswered(out + flushed) + discarded == sent)
            && ((forall i | 0 <= i < |inputs| :: |inputs[i].chunk.bytes| <= MAX_LOGICAL_PACKET) ==> discarded == [])
            && d.stats.missing == c.dec.stats.missing + |flushed|
            && (forall e | e in flushed :: !e.responseSeen && e.latency == 0)
            && AfterFinish(d) == (d, [])
  {
    FreshIsSound();
    hide AfterInputs, Sent, QuitAmong, Discarded, Sound, Statements, Unanswered;
    InputsConserve(FRESH, inputs, codec);
    OnlyQuitFinishes(FRESH, inputs, codec);
    if forall i | 0 <= i < |inputs| :: |inputs[i].chunk.bytes| <= MAX_LOGICAL_PACKET {
      SmallChunksDiscardNothing(FRESH, inputs, codec);
    }
    var (c, out) := AfterInputs(FRESH, inputs, codec);
    var (d, flushed) := AfterFinish(c.dec);
    var sent, discarded := Sent(FRESH, inputs, codec), Discarded(FRESH, inputs, codec);
    UnansweredAppend(out, flushed);
    UnansweredIdempotent(Statements(c.dec.pending));
    NothingInFlight(sent);
    LengthsAdd(Unanswered(out), Statements(c.dec.pending), discarded, sent);
    assert c.dec.finished ==> out + flushed == out;
  }

  lemma {:induction false} NothingInFlight(sent: seq<Event>)
    ensures Statements(FRESH.dec.pending) + sent == sent && forall a: seq<Event> :: a + [] == a
    ensures Unanswered([]) == []
  {
    assert Statements([]) == [];
    assert forall a: seq<Event> :: a + [] == a;
  }

  lemma {:induction false} QuitPacket(d: Decoder, quit: LogicalPacket, codec: Codec)
    requires Ready(d) && Quits(d, Client, quit)
    ensures var (d', out) := AfterPackets(d, Client, [quit], codec);
            out == [] && d'.finished && SentByPackets(d, Client, [quit], codec) == []
  {
    var d' := AfterPacket(d, Client, quit, codec).0;
    assert [quit][1..] == [];
    assert AfterPackets(d', Client, [], codec) == (d', []);
  }

  /** A query, and COM_QUIT before its answer: the query is sent and never
      comes out. */
  lemma {:induction false} QuitLosesAStatement(d: Decoder, ts: int, sql: seq<byte>, codec: Codec)
    requires Ready(d) && d.pending == [] && !d.queryAttrs
    ensures var pkts := [LogicalPacket(0, 0, ts, [COM_QUERY] + sql), LogicalPacket(0, 0, ts, [COM_QUIT])];
            var (d', out) := AfterPackets(d, Client, pkts, codec);
            |SentByPackets(d, Client, pkts, codec)| == 1 && out == [] && AfterFinish(d') == (d', [])
  {
    hide AfterCommand;
    var query, quit := LogicalPacket(0, 0, ts, [COM_QUERY] + sql), LogicalPacket(0, 0, ts, [COM_QUIT]);
    assert [query, quit][1..] == [quit] && query.payload[1..] == sql;
    CommandKeepsReady(d, query, codec);
    QuitPacket(AfterPacket(d, Client, query, codec).0, quit, codec);
  }

  lemma {:induction false} UnansweredIdempotent(evs: seq<Event>)
    ensures Unanswered(Unanswered(evs)) == Unanswered(evs)
    ensures forall e | e in Unanswered(evs) :: !e.responseSeen && e.latency == 0
  {
    if evs != [] {
      UnansweredIdempotent(evs[1..]);
    }
  }
}
