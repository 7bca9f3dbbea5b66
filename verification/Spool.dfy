/** The on-disk spool: two passes over a capture lay every session's events out
    in a contiguous region of one file, and a cursor reads them back. */
module Spool {
  import opened Bytes
  import opened Grouping
  import opened WriteGate

  const TWO32: nat := 0x1_0000_0000

  // ---------------------------------------------------------------------
  // Filters
  // ---------------------------------------------------------------------

  datatype Window = Window(start: Option<int>, end: Option<int>) {
    predicate Contains(ts: int) {
      (start.Some? ==> ts >= start.value) && (end.Some? ==> ts < end.value)
    }
  }

  datatype Filters = Filters(db: Option<string>, user: Option<string>, window: Option<Window>) {
    predicate Matches(e: Event) {
      && (db.Some? ==> e.db == db)
      && (user.Some? ==> e.user == user)
      && (window.Some? ==> window.value.Contains(e.ts))
    }
  }

  function Included(f: Filters, events: seq<Event>): seq<Event> {
    if events == [] then []
    else
      var n := |events| - 1;
      Included(f, events[..n]) + if f.Matches(events[n]) then [events[n]] else []
  }

  lemma {:induction false} IncludedSnoc(f: Filters, events: seq<Event>, e: Event)
    ensures Included(f, events + [e]) == Included(f, events) + if f.Matches(e) then [e] else []
  {
    assert (events + [e])[..|events|] == events;
  }

  /** A capture read one event further. */
  lemma {:induction false} IncludedNext(f: Filters, capture: seq<Event>, k: nat)
    requires k < |capture|
    ensures Included(f, capture[..k + 1]) ==
            if f.Matches(capture[k]) then Included(f, capture[..k]) + [capture[k]] else Included(f, capture[..k])
  {
    assert capture[..k + 1] == capture[..k] + [capture[k]];
    IncludedSnoc(f, capture[..k], capture[k]);
  }

  lemma {:induction false} IncludedEnds(f: Filters, capture: seq<Event>)
    ensures Included(f, capture[..0]) == [] && Included(f, capture[..|capture|]) == Included(f, capture)
  {
    assert capture[..|capture|] == capture;
  }

  // ---------------------------------------------------------------------
  // Records
  // ---------------------------------------------------------------------

  /** The JSON encoding, of which only decode-after-encode is used. */
  datatype Json = Json(enc: Event -> seq<byte>, dec: seq<byte> -> Option<Event>) {
    ghost predicate Faithful() {
      forall e :: dec(enc(e)) == Some(e)
    }
  }

  /** A length as four little-endian bytes, cut to 32 bits. */
  function Le32(n: nat): (b: seq<byte>)
    ensures |b| == 4
  {
    var n1, n2, n3 := n / 0x100, n / 0x100 / 0x100, n / 0x100 / 0x100 / 0x100;
    [n % 0x100, n1 % 0x100, n2 % 0x100, n3 % 0x100]
  }

  function FromLe32(b: seq<byte>): nat
    requires |b| == 4
  {
    b[0] as int + 0x100 * (b[1] as int) + 0x1_0000 * (b[2] as int) + 0x100_0000 * (b[3] as int)
  }

  lemma {:induction false} Le32Inverts(n: nat)
    ensures FromLe32(Le32(n)) == n % TWO32
  {
    var n1, n2, n3 := n / 0x100, n / 0x100 / 0x100, n / 0x100 / 0x100 / 0x100;
    var r := n % 0x100 + 0x100 * (n1 % 0x100) + 0x1_0000 * (n2 % 0x100) + 0x100_0000 * (n3 % 0x100);
    RemainderIs(n, n3 / 0x100, r);
  }

  lemma {:induction false} RemainderIs(n: nat, q: nat, r: nat)
    requires n == q * TWO32 + r && r < TWO32
    ensures n % TWO32 == r
  {
  }

  function Encode(json: Json, e: Event): seq<byte> {
    Le32(|json.enc(e)|) + json.enc(e)
  }

  function Records(json: Json, events: seq<Event>): seq<byte> {
    if events == [] then []
    else
      var n := |events| - 1;
      Records(json, events[..n]) + Encode(json, events[n])
  }

  lemma {:induction false} RecordsSnoc(json: Json, events: seq<Event>, e: Event)
    ensures Records(json, events + [e]) == Records(json, events) + Encode(json, e)
  {
    assert (events + [e])[..|events|] == events;
  }

  lemma {:induction false} RecordsCons(json: Json, e: Event, events: seq<Event>)
    ensures Records(json, [e] + events) == Encode(json, e) + Records(json, events)
    decreases |events|
  {
    hide Encode;
    if events == [] {
      assert [e] + events == [] + [e];
      RecordsSnoc(json, [], e);
      assert [] + Encode(json, e) == Encode(json, e) + [];
    } else {
      var n := |events| - 1;
      var x, y, z := Encode(json, e), Records(json, events[..n]), Encode(json, events[n]);
      assert Records(json, events) == y + z;
      hide Records;
      RecordsCons(json, e, events[..n]);
      assert [e] + events == ([e] + events[..n]) + [events[n]];
      RecordsSnoc(json, [e] + events[..n], events[n]);
      assert (x + y) + z == x + (y + z);
    }
  }

  // ---------------------------------------------------------------------
  // Reading back
  // ---------------------------------------------------------------------

  datatype ReadError = Overrun | CorruptRecord

  datatype Read = End | Next(ev: Event, size: nat) | Failed(error: ReadError)

  /** The next record of a region. */
  function ReadOne(json: Json, region: seq<byte>): (r: Read)
    ensures r.Next? ==> 0 < r.size <= |region|
  {
    if region == [] then End
    else if |region| < 4 then Failed(Overrun)
    else
      var len := FromLe32(region[..4]);
      if 4 + len > |region| then Failed(Overrun)
      else match json.dec(region[4..4 + len])
           case None => Failed(CorruptRecord)
           case Some(e) => Next(e, 4 + len)
  }

  /** Reading a region to its end; `None` when a record does not read back. */
  function ReadAll(json: Json, region: seq<byte>): Option<seq<Event>>
    decreases |region|
  {
    match ReadOne(json, region)
    case End => Some([])
    case Failed(_) => None
    case Next(e, size) =>
      match ReadAll(json, region[size..])
      case None => None
      case Some(more) => Some([e] + more)
  }

  /** No record is longer than its 32-bit length prefix can say. */
  predicate Fits(json: Json, events: seq<Event>) {
    forall i | 0 <= i < |events| :: |json.enc(events[i])| < TWO32
  }

  lemma {:induction false} ReadOneEncoded(json: Json, e: Event, rest: seq<byte>)
    requires json.Faithful() && |json.enc(e)| < TWO32
    ensures ReadOne(json, Encode(json, e) + rest) == Next(e, |Encode(json, e)|)
    ensures (Encode(json, e) + rest)[|Encode(json, e)|..] == rest
  {
    var body := json.enc(e);
    var region := Encode(json, e) + rest;
    Le32Inverts(|body|);
    assert region[..4] == Le32(|body|) && region[4..4 + |body|] == body;
  }

  /** Reading inverts writing. */
  lemma {:induction false} ReadAllRecords(json: Json, events: seq<Event>)
    requires json.Faithful() && Fits(json, events)
    ensures ReadAll(json, Records(json, events)) == Some(events)
    decreases |events|
  {
    hide Encode, ReadOne;
    if events == [] {
      assert ReadOne(json, []) == End by { ReadNothing(json); }
    } else {
      assert events == [events[0]] + events[1..];
      RecordsCons(json, events[0], events[1..]);
      ReadOneEncoded(json, events[0], Records(json, events[1..]));
      ReadAllRecords(json, events[1..]);
    }
  }

  lemma {:induction false} ReadNothing(json: Json)
    ensures ReadOne(json, []) == End
  {
  }

  // ---------------------------------------------------------------------
  // Layout
  // ---------------------------------------------------------------------

  /** One session's region. */
  datatype Region = Region(sessionId: nat, start: nat, end: nat, eventCount: nat, hasExecutable: bool)

  /** Regions lie end to end from `from` to `to`. */
  predicate Tiles(index: seq<Region>, from: nat, to: nat) {
    if index == [] then from == to
    else index[0].start == from <= index[0].end && Tiles(index[1..], index[0].end, to)
  }

  lemma {:induction false} TilesSnoc(index: seq<Region>, r: Region, from: nat, mid: nat)
    requires Tiles(index, from, mid) && r.start == mid <= r.end
    ensures Tiles(index + [r], from, r.end)
  {
    if index == [] {
      assert ([] + [r])[1..] == [];
    } else {
      assert (index + [r])[1..] == index[1..] + [r];
      TilesSnoc(index[1..], r, index[0].end, mid);
    }
  }

  /** Tiled regions do not overlap and stay within the file. */
  lemma {:induction false} TilesDisjoint(index: seq<Region>, from: nat, to: nat)
    requires Tiles(index, from, to)
    ensures forall i | 0 <= i < |index| :: from <= index[i].start <= index[i].end <= to
    ensures forall i, j | 0 <= i < j < |index| :: index[i].end <= index[j].start
    ensures from <= to
  {
    if index != [] {
      TilesDisjoint(index[1..], index[0].end, to);
      forall i | 0 <= i < |index| ensures from <= index[i].start <= index[i].end <= to {
        assert i > 0 ==> index[i] == index[1..][i - 1];
      }
      forall i, j | 0 <= i < j < |index| ensures index[i].end <= index[j].start {
        assert index[j] == index[1..][j - 1];
        assert i > 0 ==> index[i] == index[1..][i - 1];
      }
    }
  }

  predicate AnyExecutable(events: seq<Event>, allowWrites: bool) {
    exists e | e in events :: ShouldExecute(e.query, allowWrites)
  }

  /** The index the first pass plans for the included events. */
  predicate Planned(json: Json, index: seq<Region>, inc: seq<Event>, allowWrites: bool) {
    && |index| == |Order(inc)|
    && forall i | 0 <= i < |index| ::
         var es := Of(inc, Order(inc)[i]);
         && index[i].sessionId == Order(inc)[i]
         && index[i].end - index[i].start == |Records(json, es)|
         && index[i].eventCount == |es|
         && index[i].hasExecutable == AnyExecutable(es, allowWrites)
  }

  // ---------------------------------------------------------------------
  // Building
  // ---------------------------------------------------------------------

  /** What the first pass knows of a session; `writePos` is set by the layout. */
  datatype Build = Build(bytes: nat, eventCount: nat, hasExecutable: bool, writePos: nat)

  datatype Spooled = Spooled(
    data: seq<byte>, index: seq<Region>, baseTs: int, eventCount: nat, filtered: nat, bytes: nat)

  datatype BuildResult = Built(spool: Spooled) | AllFiltered(filtered: nat) | CaptureChanged

  /** A positioned write; writing past the end extends the file with zeros. */
  function WriteAt(data: seq<byte>, pos: nat, rec: seq<byte>): seq<byte> {
    var padded := if pos <= |data| then data else data + seq(pos - |data|, _ => 0);
    padded[..pos] + rec + (if pos + |rec| <= |padded| then padded[pos + |rec|..] else [])
  }

  predicate Sized(json: Json, sessions: map<nat, Build>, inc: seq<Event>, allowWrites: bool) {
    && (forall sid | sid in sessions :: sid in Order(inc))
    && (forall sid | sid in Order(inc) :: sid in sessions
          && sessions[sid] == Build(|Records(json, Of(inc, sid))|, |Of(inc, sid)|,
                                    AnyExecutable(Of(inc, sid), allowWrites), sessions[sid].writePos))
  }

  lemma {:induction false} SizedSnoc(json: Json, sessions: map<nat, Build>, inc: seq<Event>, e: Event,
                                     allowWrites: bool)
    requires Sized(json, sessions, inc, allowWrites)
    ensures var sid := e.sessionId;
            var b := if sid in sessions then sessions[sid] else Build(0, 0, false, 0);
            var b' := Build(b.bytes + |Encode(json, e)|, b.eventCount + 1,
                            b.hasExecutable || ShouldExecute(e.query, allowWrites), b.writePos);
            Sized(json, sessions[sid := b'], inc + [e], allowWrites)
  {
    hide Encode, ShouldExecute, Records;
    var sid := e.sessionId;
    OrderSnoc(inc, e);
    OrderIsExact(inc);
    OfSnoc(inc, e, sid);
    RecordsSnoc(json, Of(inc, sid), e);
    EmptyRecords(json);
    hide Order, Of;
    var es := Of(inc, sid);
    assert AnyExecutable(es + [e], allowWrites)
           <==> (AnyExecutable(es, allowWrites) || ShouldExecute(e.query, allowWrites)) by {
      if AnyExecutable(es, allowWrites) {
        var x :| x in es && ShouldExecute(x.query, allowWrites);
        assert x in es + [e];
      }
      assert e in es + [e];
    }
    assert sid !in sessions ==> es == [];
    forall t | t in Order(inc + [e]) && t != sid ensures Of(inc + [e], t) == Of(inc, t) {
      OfSnoc(inc, e, t);
    }
  }

  lemma {:induction false} EmptyRecords(json: Json)
    ensures Records(json, []) == []
  {
  }

  lemma {:induction false} SizedKeys(json: Json, sessions: map<nat, Build>, inc: seq<Event>, allowWrites: bool,
                                     sid: nat)
    requires Sized(json, sessions, inc, allowWrites)
    ensures sid in sessions <==> sid in Order(inc)
  {
  }

  lemma {:induction false} NothingSized(json: Json, allowWrites: bool)
    ensures Sized(json, map[], [], allowWrites) && IsMinTs([], None)
  {
  }

  /** The pacing origin: the earliest timestamp among the included events. */
  predicate IsMinTs(inc: seq<Event>, base: Option<int>) {
    match base
    case None => inc == []
    case Some(t) => (forall e | e in inc :: t <= e.ts) && exists e | e in inc :: e.ts == t
  }

  lemma {:induction false} MinTsSnoc(inc: seq<Event>, e: Event, base: Option<int>)
    requires IsMinTs(inc, base)
    ensures IsMinTs(inc + [e], if base == None || e.ts < base.value then Some(e.ts) else base)
  {
    assert e in inc + [e];
    if base.Some? && e.ts >= base.value {
      var x :| x in inc && x.ts == base.value;
      assert x in inc + [e];
    }
  }

  method PassA(json: Json, capture: seq<Event>, f: Filters, allowWrites: bool)
    returns (order: seq<nat>, sessions: map<nat, Build>, baseTs: Option<int>, included: nat, filtered: nat)
    ensures var inc := Included(f, capture);
            && order == Order(inc) && Sized(json, sessions, inc, allowWrites)
            && included == |inc| && filtered == |capture| - |inc|
            && IsMinTs(inc, baseTs)
  {
    IncludedEnds(f, capture);
    hide Records, Of, Order, Encode, Sized, IsMinTs, ShouldExecute, Included;
    order, sessions, baseTs, included, filtered := [], map[], None, 0, 0;
    OrderNil();
    NothingSized(json, allowWrites);
    for k := 0 to |capture|
      invariant var inc := Included(f, capture[..k]);
                && order == Order(inc) && Sized(json, sessions, inc, allowWrites)
                && included == |inc| && filtered == k - |inc|
                && IsMinTs(inc, baseTs)
    {
      var e := capture[k];
      ghost var inc := Included(f, capture[..k]);
      IncludedNext(f, capture, k);
      if !f.Matches(e) {
        filtered := filtered + 1;
      } else {
        included := included + 1;
        SizedSnoc(json, sessions, inc, e, allowWrites);
        OrderSnoc(inc, e);
        var sid := e.sessionId;
        SizedKeys(json, sessions, inc, allowWrites, sid);
        if sid !in sessions {
          order := order + [sid];
        }
        var b := if sid in sessions then sessions[sid] else Build(0, 0, false, 0);
        sessions := sessions[sid := Build(b.bytes + 4 + |json.enc(e)|, b.eventCount + 1,
                                          b.hasExecutable || ShouldExecute(e.query, allowWrites), b.writePos)];
        assert 4 + |json.enc(e)| == |Encode(json, e)| by { EncodedSize(json, e); }
        MinTsSnoc(inc, e, baseTs);
        baseTs := if baseTs == None || e.ts < baseTs.value then Some(e.ts) else baseTs;
      }
    }
  }

  lemma {:induction false} EncodedSize(json: Json, e: Event)
    ensures |Encode(json, e)| == 4 + |json.enc(e)|
  {
  }

  predicate HasRegion(index: seq<Region>, sid: nat) {
    exists i :: 0 <= i < |index| && index[i].sessionId == sid
  }

  /** Every region knows its id, and no two regions share one. */
  predicate Indexed(index: seq<Region>, sessions: map<nat, Build>) {
    && (forall i | 0 <= i < |index| :: index[i].sessionId in sessions)
    && (forall i, j | 0 <= i < j < |index| :: index[i].sessionId != index[j].sessionId)
    && (forall sid | sid in sessions :: HasRegion(index, sid))
  }

  /** The region of a session as the layout plans it. */
  predicate PlansRegion(r: Region, sid: nat, b: Build) {
    && r.sessionId == sid && r.start + b.bytes == r.end
    && r.eventCount == b.eventCount && r.hasExecutable == b.hasExecutable
  }

  /** The sessions of `sizes`, with the first `|index|` ones placed. */
  predicate LaidOut(index: seq<Region>, order: seq<nat>, sizes: map<nat, Build>, sessions: map<nat, Build>) {
    && |index| <= |order|
    && (forall i | 0 <= i < |order| :: order[i] in sizes && order[i] in sessions)
    && (forall sid | sid in sessions :: sid in order)
    && (forall i, j | 0 <= i < j < |order| :: order[i] != order[j])
    && (forall i | 0 <= i < |order| :: sessions[order[i]] == sizes[order[i]].(writePos := sessions[order[i]].writePos))
    && forall i | 0 <= i < |index| ::
         PlansRegion(index[i], order[i], sizes[order[i]]) && sessions[order[i]].writePos == index[i].start
  }

  lemma {:induction false} LayoutMeans(json: Json, index: seq<Region>, order: seq<nat>, sizes: map<nat, Build>,
                                       sessions: map<nat, Build>, inc: seq<Event>, allowWrites: bool)
    requires order == Order(inc) && Sized(json, sizes, inc, allowWrites)
    requires LaidOut(index, order, sizes, sessions) && |index| == |order|
    ensures Planned(json, index, inc, allowWrites) && Indexed(index, sessions)
    ensures forall i | 0 <= i < |index| :: sessions[index[i].sessionId].writePos == index[i].start
    ensures forall sid :: sid in sessions <==> sid in order
  {
    hide Order, Of, Records;
    forall i | 0 <= i < |index| ensures order[i] in order && PlansRegion(index[i], order[i], sizes[order[i]]) {}
    forall sid | sid in sessions ensures HasRegion(index, sid) {
      var i :| 0 <= i < |order| && order[i] == sid;
      assert index[i].sessionId == sid;
    }
  }

  /** Regions end to end in order of first appearance; the write position of a
      session is the start of its region. */
  method Layout(order: seq<nat>, sizes: map<nat, Build>)
      returns (index: seq<Region>, sessions: map<nat, Build>, offset: nat)
    requires LaidOut([], order, sizes, sizes)
    ensures LaidOut(index, order, sizes, sessions) && |index| == |order| && Tiles(index, 0, offset)
  {
    hide Tiles;
    index, sessions, offset := [], sizes, 0;
    assert Tiles(index, 0, offset) by { NoTiles(); }
    for k := 0 to |order|
      invariant |index| == k && Tiles(index, 0, offset)
      invariant LaidOut(index, order, sizes, sessions)
    {
      var sid := order[k];
      var b := sessions[sid];
      var r := Region(sid, offset, offset + b.bytes, b.eventCount, b.hasExecutable);
      TilesSnoc(index, r, 0, offset);
      sessions := sessions[sid := b.(writePos := offset)];
      index := index + [r];
      offset := offset + b.bytes;
    }
  }

  lemma {:induction false} NoTiles()
    ensures Tiles([], 0, 0)
  {
  }

  predicate Holds(data: seq<byte>, start: nat, bytes: seq<byte>) {
    start + |bytes| <= |data| && data[start..start + |bytes|] == bytes
  }

  /** No session has written past its region. */
  predicate Within(index: seq<Region>, held: seq<seq<byte>>)
    requires |held| == |index|
  {
    forall i | 0 <= i < |index| :: index[i].start + |held[i]| <= index[i].end
  }

  /** As long as no region overran, the file holds in each what was written. */
  predicate FileHolds(index: seq<Region>, held: seq<seq<byte>>, data: seq<byte>, size: nat) {
    && |held| == |index|
    && (Within(index, held) ==>
          |data| == size && forall i | 0 <= i < |index| :: Holds(data, index[i].start, held[i]))
  }

  lemma {:induction false} WriteAtHolds(data: seq<byte>, pos: nat, rec: seq<byte>, start: nat, bytes: seq<byte>)
    requires pos + |rec| <= |data| && Holds(data, start, bytes)
    ensures |WriteAt(data, pos, rec)| == |data|
    ensures start + |bytes| <= pos || pos + |rec| <= start ==> Holds(WriteAt(data, pos, rec), start, bytes)
    ensures start + |bytes| == pos ==> Holds(WriteAt(data, pos, rec), start, bytes + rec)
  {
    var data' := WriteAt(data, pos, rec);
    assert data' == data[..pos] + rec + data[pos + |rec|..];
  }

  /** Writing a record behind what region `s` holds touches no other region,
      unless a region is overrun. */
  lemma {:induction false} WriteKeepsFile(index: seq<Region>, held: seq<seq<byte>>, data: seq<byte>, size: nat,
                                          s: nat, rec: seq<byte>)
    requires Tiles(index, 0, size) && FileHolds(index, held, data, size) && s < |index|
    ensures FileHolds(index, held[s := held[s] + rec], WriteAt(data, index[s].start + |held[s]|, rec), size)
  {
    hide WriteAt, Tiles;
    var held' := held[s := held[s] + rec];
    var pos := index[s].start + |held[s]|;
    TilesDisjoint(index, 0, size);
    if Within(index, held') {
      forall i | 0 <= i < |index| ensures index[i].start + |held[i]| <= index[i].end {
        assert index[i].start + |held'[i]| <= index[i].end;
      }
      forall i | 0 <= i < |index| ensures Holds(WriteAt(data, pos, rec), index[i].start, held'[i]) {
        assert index[s].start + |held'[s]| <= index[s].end;
        WriteAtHolds(data, pos, rec, index[i].start, held[i]);
      }
      WriteAtHolds(data, pos, rec, index[s].start, held[s]);
    }
  }

  /** What each region should hold after the events `es`. */
  function HeldOf(json: Json, index: seq<Region>, es: seq<Event>): (h: seq<seq<byte>>)
    ensures |h| == |index| && forall i | 0 <= i < |index| :: h[i] == Records(json, Of(es, index[i].sessionId))
  {
    seq(|index|, i requires 0 <= i < |index| => Records(json, Of(es, index[i].sessionId)))
  }

  lemma {:induction false} HeldOfSnoc(json: Json, index: seq<Region>, es: seq<Event>, e: Event, s: nat)
    requires s < |index| && index[s].sessionId == e.sessionId
    requires forall i, j | 0 <= i < j < |index| :: index[i].sessionId != index[j].sessionId
    ensures var h := HeldOf(json, index, es);
            HeldOf(json, index, es + [e]) == h[s := h[s] + Encode(json, e)]
  {
    hide Encode, Records, Of;
    var h, h' := HeldOf(json, index, es), HeldOf(json, index, es + [e]);
    forall i | 0 <= i < |index| ensures h'[i] == h[s := h[s] + Encode(json, e)][i] {
      OfSnoc(es, e, index[i].sessionId);
      if i == s {
        RecordsSnoc(json, Of(es, e.sessionId), e);
      } else {
        assert Of(es, index[i].sessionId) + [] == Of(es, index[i].sessionId);
      }
    }
  }

  /** Each write position is behind what its region holds. */
  predicate PositionsAt(index: seq<Region>, sessions: map<nat, Build>, held: seq<seq<byte>>) {
    && Indexed(index, sessions) && |held| == |index|
    && forall i | 0 <= i < |index| :: sessions[index[i].sessionId].writePos == index[i].start + |held[i]|
  }

  lemma {:induction false} EmptyHeld(json: Json, index: seq<Region>, i: nat)
    requires i < |index|
    ensures HeldOf(json, index, [])[i] == []
  {
  }
}
