/** Building the spool from two passes over a capture, and reading it back:
    the file refines the in-memory grouping. */
module SpoolBuild {
  import opened Bytes
  import opened Grouping
  import opened Spool

  // ---------------------------------------------------------------------
  // The second pass
  // ---------------------------------------------------------------------

  /** Every event belongs to a session the first pass saw. */
  predicate AllKnown(index: seq<Region>, es: seq<Event>) {
    forall e | e in es :: HasRegion(index, e.sessionId)
  }

  lemma {:induction false} UnknownStays(index: seq<Region>, f: Filters, capture: seq<Event>, k: nat)
    requires k <= |capture| && !AllKnown(index, Included(f, capture[..k]))
    ensures !AllKnown(index, Included(f, capture))
    decreases |capture| - k
  {
    hide HasRegion;
    if k == |capture| {
      assert capture[..k] == capture;
    } else {
      IncludedNext(f, capture, k);
      UnknownStays(index, f, capture, k + 1);
    }
  }

  /** The state of the second pass after the events `es`. */
  ghost predicate Writing(json: Json, index: seq<Region>, sessions: map<nat, Build>, data: seq<byte>, size: nat,
                          es: seq<Event>) {
    && AllKnown(index, es)
    && PositionsAt(index, sessions, HeldOf(json, index, es))
    && FileHolds(index, HeldOf(json, index, es), data, size)
  }

  /** Moving one write position behind the record just written. */
  lemma {:induction false} PositionsStep(index: seq<Region>, sessions: map<nat, Build>, held: seq<seq<byte>>, s: nat,
                                         rec: seq<byte>)
    requires PositionsAt(index, sessions, held) && s < |index|
    ensures var sid := index[s].sessionId;
            var b := sessions[sid];
            b.writePos == index[s].start + |held[s]|
            && PositionsAt(index, sessions[sid := b.(writePos := b.writePos + |rec|)], held[s := held[s] + rec])
  {
    hide HasRegion;
  }

  /** The file and the write positions after one positioned write. */
  lemma {:induction false} WriteStep(json: Json, index: seq<Region>, sessions: map<nat, Build>, es: seq<Event>,
                                     e: Event,
                                     data: seq<byte>, size: nat)
    requires Tiles(index, 0, size) && e.sessionId in sessions && Writing(json, index, sessions, data, size, es)
    ensures var b := sessions[e.sessionId];
            Writing(json, index, sessions[e.sessionId := b.(writePos := b.writePos + |Encode(json, e)|)],
                    WriteAt(data, b.writePos, Encode(json, e)), size, es + [e])
  {
    hide *;
    var s := WritingRegion(json, index, sessions, es, e.sessionId, data, size);
    var held := HeldOf(json, index, es);
    PositionsStep(index, sessions, held, s, Encode(json, e));
    HeldOfSnoc(json, index, es, e, s);
    WriteKeepsFile(index, held, data, size, s, Encode(json, e));
    KnownSnoc(index, es, e, s);
    MakeWriting(json, index,
                sessions[e.sessionId :=
                           sessions[e.sessionId].(writePos := sessions[e.sessionId].writePos + |Encode(json, e)|)],
                WriteAt(data, sessions[e.sessionId].writePos, Encode(json, e)), size, es + [e]);
  }

  lemma {:induction false} WritingRegion(json: Json, index: seq<Region>, sessions: map<nat, Build>, es: seq<Event>,
                                         sid: nat,
                                         data: seq<byte>, size: nat) returns (s: nat)
    requires sid in sessions && Writing(json, index, sessions, data, size, es)
    ensures s < |index| && index[s].sessionId == sid
    ensures PositionsAt(index, sessions, HeldOf(json, index, es))
    ensures FileHolds(index, HeldOf(json, index, es), data, size) && AllKnown(index, es)
    ensures forall i, j | 0 <= i < j < |index| :: index[i].sessionId != index[j].sessionId
  {
    hide FileHolds, HeldOf, AllKnown;
    assert HasRegion(index, sid);
    s :| 0 <= s < |index| && index[s].sessionId == sid;
  }

  lemma {:induction false} KnownSnoc(index: seq<Region>, es: seq<Event>, e: Event, s: nat)
    requires AllKnown(index, es) && s < |index| && index[s].sessionId == e.sessionId
    ensures AllKnown(index, es + [e])
  {
    assert HasRegion(index, e.sessionId);
    hide HasRegion;
  }

  lemma {:induction false} MakeWriting(json: Json, index: seq<Region>, sessions: map<nat, Build>, data: seq<byte>,
                                       size: nat, es: seq<Event>)
    requires AllKnown(index, es) && PositionsAt(index, sessions, HeldOf(json, index, es))
    requires FileHolds(index, HeldOf(json, index, es), data, size)
    ensures Writing(json, index, sessions, data, size, es)
  {
  }

  /** The sessions of the build are those of the index. */
  lemma {:induction false} WritingKnows(json: Json, index: seq<Region>, sessions: map<nat, Build>, es: seq<Event>,
                                        e: Event,
                                        data: seq<byte>, size: nat)
    requires Writing(json, index, sessions, data, size, es)
    ensures e.sessionId !in sessions ==> !AllKnown(index, es + [e])
  {
    hide FileHolds, HeldOf;
    assert e in es + [e];
  }

  lemma {:induction false} NothingHeld(json: Json, index: seq<Region>, sessions: map<nat, Build>, size: nat)
    requires Tiles(index, 0, size) && Indexed(index, sessions)
    requires forall i | 0 <= i < |index| :: sessions[index[i].sessionId].writePos == index[i].start
    ensures Writing(json, index, sessions, seq(size, _ => 0), size, [])
  {
    hide Tiles;
    TilesDisjoint(index, 0, size);
    forall i | 0 <= i < |index| ensures HeldOf(json, index, [])[i] == [] {
      EmptyHeld(json, index, i);
    }
  }

  /** Pass B: every included event is written into its session's region, and a
      session the first pass never saw ends the build. */
  method PassB(json: Json, capture: seq<Event>, f: Filters, index: seq<Region>, size: nat, sized: map<nat, Build>)
    returns (ok: bool, data: seq<byte>, sessions: map<nat, Build>)
    requires Tiles(index, 0, size) && Indexed(index, sized)
    requires forall i | 0 <= i < |index| :: sized[index[i].sessionId].writePos == index[i].start
    ensures ok ==> Writing(json, index, sessions, data, size, Included(f, capture))
    ensures !ok ==> !AllKnown(index, Included(f, capture))
  {
    hide *;
    NothingHeld(json, index, sized, size);
    data, sessions := seq(size, _ => 0), sized;
    IncludedEnds(f, capture);
    for k := 0 to |capture|
      invariant Writing(json, index, sessions, data, size, Included(f, capture[..k]))
    {
      var e := capture[k];
      ghost var inc := Included(f, capture[..k]);
      IncludedNext(f, capture, k);
      if !f.Matches(e) {
      } else if e.sessionId !in sessions {
        WritingKnows(json, index, sessions, inc, e, data, size);
        UnknownStays(index, f, capture, k + 1);
        return false, data, sessions;
      } else {
        WriteStep(json, index, sessions, inc, e, data, size);
        var b := sessions[e.sessionId];
        var rec := Encode(json, e);
        data := WriteAt(data, b.writePos, rec);
        sessions := sessions[e.sessionId := b.(writePos := b.writePos + |rec|)];
      }
    }
    ok := true;
  }

  // ---------------------------------------------------------------------
  // The build
  // ---------------------------------------------------------------------

  /** The second pass filled every region exactly. */
  predicate Filled(json: Json, index: seq<Region>, es: seq<Event>) {
    forall i | 0 <= i < |index| ::
      index[i].start + |Records(json, Of(es, index[i].sessionId))| == index[i].end
  }

  /** The second pass saw only sessions of the first, and as many bytes for each. */
  predicate SameShape(json: Json, first: seq<Event>, second: seq<Event>) {
    && (forall e | e in second :: e.sessionId in Order(first))
    && (forall sid | sid in Order(first) ::
          |Records(json, Of(second, sid))| == |Records(json, Of(first, sid))|)
  }

  /** The index covers exactly the sessions of the first pass. */
  lemma {:induction false} ShapeMeansFilled(json: Json, index: seq<Region>, first: seq<Event>, second: seq<Event>,
                                            allowWrites: bool)
    requires Planned(json, index, first, allowWrites)
    ensures SameShape(json, first, second) <==> AllKnown(index, second) && Filled(json, index, second)
  {
    hide Records, Of, Order, AnyExecutable;
    var order := Order(first);
    forall sid ensures sid in order <==> HasRegion(index, sid) {
      if sid in order {
        var i :| 0 <= i < |order| && order[i] == sid;
        assert index[i].sessionId == sid;
      }
    }
    if SameShape(json, first, second) {
      forall i | 0 <= i < |index|
        ensures index[i].start + |Records(json, Of(second, index[i].sessionId))| == index[i].end
      {
        assert order[i] in order;
      }
    }
    if AllKnown(index, second) && Filled(json, index, second) {
      forall sid | sid in order
        ensures |Records(json, Of(second, sid))| == |Records(json, Of(first, sid))|
      {
        var i :| 0 <= i < |order| && order[i] == sid;
        assert index[i].sessionId == sid;
      }
    }
  }

  /** What a spool built from these two passes contains. */
  predicate BuiltFrom(json: Json, s: Spooled, captured: nat, first: seq<Event>, second: seq<Event>, allowWrites: bool) {
    && Planned(json, s.index, first, allowWrites)
    && Tiles(s.index, 0, s.bytes) && |s.data| == s.bytes
    && s.eventCount == |first| && s.filtered == captured - |first|
    && (if first == [] then s.baseTs == 0 else IsMinTs(first, Some(s.baseTs)))
    && RegionsHold(json, s, second)
  }

  /** Each region holds exactly its session's records, from start to end. */
  predicate RegionsHold(json: Json, s: Spooled, es: seq<Event>) {
    forall i | 0 <= i < |s.index| ::
      && s.index[i].start <= s.index[i].end <= |s.data|
      && s.data[s.index[i].start..s.index[i].end] == Records(json, Of(es, s.index[i].sessionId))
  }

  lemma {:induction false} FullFileHolds(json: Json, s: Spooled, es: seq<Event>, size: nat)
    requires Filled(json, s.index, es) && FileHolds(s.index, HeldOf(json, s.index, es), s.data, size)
    ensures RegionsHold(json, s, es) && |s.data| == size
  {
    hide Records, Of;
    var h := HeldOf(json, s.index, es);
    forall i | 0 <= i < |s.index| ensures s.index[i].start + |h[i]| == s.index[i].end {}
    assert Within(s.index, h);
    forall i | 0 <= i < |s.index|
      ensures s.index[i].start <= s.index[i].end <= |s.data|
      ensures s.data[s.index[i].start..s.index[i].end] == Records(json, Of(es, s.index[i].sessionId))
    {
      assert Holds(s.data, s.index[i].start, h[i]);
    }
  }

  lemma {:induction false} WritingHolds(json: Json, index: seq<Region>, sessions: map<nat, Build>, data: seq<byte>,
                                        size: nat,
                                        es: seq<Event>)
    requires Writing(json, index, sessions, data, size, es)
    ensures FileHolds(index, HeldOf(json, index, es), data, size) && AllKnown(index, es)
  {
  }

  /** The last check of the build: every write position is its region's end. */
  method AllFull(json: Json, index: seq<Region>, sessions: map<nat, Build>, ghost data: seq<byte>, ghost size: nat,
                 ghost es: seq<Event>) returns (full: bool)
    requires Writing(json, index, sessions, data, size, es)
    ensures full <==> Filled(json, index, es)
  {
    hide Records, Of;
    for i := 0 to |index|
      invariant forall j | 0 <= j < i ::
                  index[j].start + |Records(json, Of(es, index[j].sessionId))| == index[j].end
    {
      if sessions[index[i].sessionId].writePos != index[i].end {
        return false;
      }
    }
    full := true;
  }

  lemma {:induction false} ReadyForLayout(json: Json, order: seq<nat>, sizes: map<nat, Build>, inc: seq<Event>,
                                          allowWrites: bool)
    requires order == Order(inc) && Sized(json, sizes, inc, allowWrites)
    ensures LaidOut([], order, sizes, sizes)
  {
    hide Order, Records, Of, AnyExecutable;
    OrderIsExact(inc);
    forall i | 0 <= i < |order| ensures order[i] in sizes {
      assert order[i] in order;
    }
  }

  /** `Spool::build`; `captureB` is what the second read of the capture saw. */
  method BuildSpool(json: Json, captureA: seq<Event>, captureB: seq<Event>, f: Filters, allowWrites: bool)
    returns (r: BuildResult)
    ensures var first, second := Included(f, captureA), Included(f, captureB);
            match r
            case AllFiltered(n) => first == [] && captureA != [] && n == |captureA|
            case CaptureChanged => (first != [] || captureA == []) && !SameShape(json, first, second)
            case Built(s) => (first != [] || captureA == []) && SameShape(json, first, second)
                             && BuiltFrom(json, s, |captureA|, first, second, allowWrites)
  {
    hide *;
    ghost var first, second := Included(f, captureA), Included(f, captureB);
    var order, sizes, base, included, filtered := PassA(json, captureA, f, allowWrites);
    if included == 0 && filtered > 0 {
      return AllFiltered(filtered);
    }
    ReadyForLayout(json, order, sizes, first, allowWrites);
    var index, laid, size := Layout(order, sizes);
    LayoutMeans(json, index, order, sizes, laid, first, allowWrites);
    ShapeMeansFilled(json, index, first, second, allowWrites);
    var ok, data, sessions := PassB(json, captureB, f, index, size, laid);
    if !ok {
      return CaptureChanged;
    }
    var full := AllFull(json, index, sessions, data, size, second);
    if !full {
      return CaptureChanged;
    }
    BaseIsSome(first, base);
    var s := Spooled(data, index, if included > 0 then base.value else 0, included, filtered, size);
    WritingHolds(json, index, sessions, data, size, second);
    FullFileHolds(json, s, second, size);
    MakeBuilt(json, s, |captureA|, first, second, allowWrites);
    r := Built(s);
  }

  lemma {:induction false} BaseIsSome(inc: seq<Event>, base: Option<int>)
    requires IsMinTs(inc, base)
    ensures inc != [] ==> base.Some?
  {
  }

  lemma {:induction false} MakeBuilt(json: Json, s: Spooled, captured: nat, first: seq<Event>, second: seq<Event>,
                                     allowWrites: bool)
    requires Planned(json, s.index, first, allowWrites)
    requires Tiles(s.index, 0, s.bytes) && |s.data| == s.bytes
    requires s.eventCount == |first| && s.filtered == captured - |first|
    requires if first == [] then s.baseTs == 0 else IsMinTs(first, Some(s.baseTs))
    requires RegionsHold(json, s, second)
    ensures BuiltFrom(json, s, captured, first, second, allowWrites)
  {
  }

  // ---------------------------------------------------------------------
  // The cursor
  // ---------------------------------------------------------------------

  /** What a cursor at `pos` of a region ending at `end` still has to read. */
  function Rest(data: seq<byte>, pos: nat, end: nat): seq<byte>
    requires pos <= end <= |data|
  {
    data[pos..end]
  }

  lemma {:induction false} Subslice(data: seq<byte>, pos: nat, end: nat, a: nat, b: nat)
    requires pos <= end <= |data| && a <= b <= end - pos
    ensures data[pos..end][a..b] == data[pos + a..pos + b]
  {
    var x, y := data[pos..end][a..b], data[pos + a..pos + b];
    assert |x| == |y| && forall i | 0 <= i < |x| :: x[i] == y[i];
  }

  class SpoolCursor {
    const json: Json
    const data: seq<byte>
    const end: nat
    var pos: nat

    ghost predicate Valid()
      reads this
    {
      pos <= end <= |data|
    }

    constructor (json: Json, s: Spooled, region: Region)
      requires region.start <= region.end <= |s.data|
      ensures Valid() && this.json == json
      ensures Rest(data, pos, end) == s.data[region.start..region.end]
    {
      this.json := json;
      data := s.data;
      pos := region.start;
      end := region.end;
    }

    /** One event per call; the reads are of the shared file, and only the
        bounds of the region keep them from running into the next one. */
    method NextEvent() returns (r: Read)
      requires Valid()
      modifies this
      ensures Valid()
      ensures var before := old(Rest(data, pos, end));
              r == ReadOne(json, before)
              && (r.Next? ==> Rest(data, pos, end) == before[r.size..])
    {
      if pos >= end {
        return End;
      }
      if pos + 4 > |data| {
        return Failed(Overrun);
      }
      var len := FromLe32(data[pos..pos + 4]);
      if pos + 4 + len > end {
        if pos + 4 <= end {
          Subslice(data, pos, end, 0, 4);
        }
        return Failed(Overrun);
      }
      Subslice(data, pos, end, 0, 4);
      Subslice(data, pos, end, 4, 4 + len);
      Subslice(data, pos, end, 4 + len, end - pos);
      var body := data[pos + 4..pos + 4 + len];
      pos := pos + 4 + len;
      match json.dec(body) {
        case None => r := Failed(CorruptRecord);
        case Some(e) => r := Next(e, 4 + len);
      }
    }
  }

  /** Draining a cursor: the events read, and whether the region ended cleanly. */
  method Drain(c: SpoolCursor) returns (events: seq<Event>, clean: bool)
    requires c.Valid()
    modifies c
    ensures var all := ReadAll(c.json, old(Rest(c.data, c.pos, c.end)));
            clean == all.Some? && (clean ==> events == all.value)
  {
    hide ReadOne;
    ghost var region := Rest(c.data, c.pos, c.end);
    events, clean := [], true;
    assert forall more: seq<Event> :: [] + more == more;
    while true
      invariant c.Valid()
      invariant ReadAll(c.json, region) ==
                match ReadAll(c.json, Rest(c.data, c.pos, c.end)) case None => None
                    case Some(more) => Some(events + more)
      decreases |Rest(c.data, c.pos, c.end)|
    {
      ghost var before := Rest(c.data, c.pos, c.end);
      var r := c.NextEvent();
      match r {
        case End => return;
        case Failed(_) => clean := false; return;
        case Next(e, size) =>
          assert forall more: seq<Event> :: events + ([e] + more) == (events + [e]) + more;
          events := events + [e];
      }
    }
  }

  // ---------------------------------------------------------------------
  // The spool refines grouping
  // ---------------------------------------------------------------------

  /** Reading region by region. */
  function ReadRegions(json: Json, s: Spooled): seq<Option<seq<Event>>>
    requires forall i | 0 <= i < |s.index| :: s.index[i].start <= s.index[i].end <= |s.data|
  {
    seq(|s.index|, i requires 0 <= i < |s.index| => ReadAll(json, s.data[s.index[i].start..s.index[i].end]))
  }

  lemma {:induction false} FitsOf(json: Json, events: seq<Event>, sid: nat)
    requires Fits(json, events)
    ensures Fits(json, Of(events, sid))
  {
    if events != [] {
      FitsOf(json, events[..|events| - 1], sid);
    }
  }

  /** A build that succeeded reads back, region by region, as exactly what its
      second pass saw of each session. */
  lemma {:induction false} RegionsReadBack(json: Json, s: Spooled, captured: nat, first: seq<Event>, second: seq<Event>,
                                           allowWrites: bool)
    requires json.Faithful() && Fits(json, second) && BuiltFrom(json, s, captured, first, second, allowWrites)
    ensures forall i | 0 <= i < |s.index| :: s.index[i].start <= s.index[i].end <= |s.data|
    ensures forall i | 0 <= i < |s.index| :: ReadRegions(json, s)[i] == Some(Of(second, s.index[i].sessionId))
  {
    hide Planned, Tiles, Records, Of, ReadAll;
    forall i | 0 <= i < |s.index| ensures ReadRegions(json, s)[i] == Some(Of(second, s.index[i].sessionId)) {
      FitsOf(json, second, s.index[i].sessionId);
      ReadAllRecords(json, Of(second, s.index[i].sessionId));
    }
  }

  /** The spool refines `group_sessions`: from one unchanged capture, the regions
      read back as the groups of the included events, in the same order. */
  lemma {:induction false} SpoolRefinesGrouping(json: Json, s: Spooled, capture: seq<Event>, f: Filters,
                                                allowWrites: bool)
    requires json.Faithful() && Fits(json, Included(f, capture))
    requires BuiltFrom(json, s, |capture|, Included(f, capture), Included(f, capture), allowWrites)
    ensures forall i | 0 <= i < |s.index| :: s.index[i].start <= s.index[i].end <= |s.data|
    ensures |s.index| == |Groups(Included(f, capture))|
    ensures forall i | 0 <= i < |s.index| ::
              ReadRegions(json, s)[i] == Some(Groups(Included(f, capture))[i])
    ensures forall i | 0 <= i < |s.index| ::
              s.index[i].eventCount == |Groups(Included(f, capture))[i]|
  {
    var inc := Included(f, capture);
    RegionsReadBack(json, s, |capture|, inc, inc, allowWrites);
    hide Tiles, Records, Of, Order, ReadRegions, RegionsHold;
  }

  /** An unchanged capture always has the same shape. */
  lemma {:induction false} UnchangedShape(json: Json, inc: seq<Event>)
    ensures SameShape(json, inc, inc)
  {
    OrderIsExact(inc);
  }

  /** A capture read twice alike builds, unless the filters left nothing of it. */
  method BuildUnchanged(json: Json, capture: seq<Event>, f: Filters, allowWrites: bool) returns (r: BuildResult)
    requires json.Faithful() && Fits(json, Included(f, capture))
    ensures r.Built? <==> Included(f, capture) != [] || capture == []
    ensures r.Built? ==>
              && |r.spool.index| == |Groups(Included(f, capture))|
              && forall i | 0 <= i < |r.spool.index| ::
                   && r.spool.index[i].start <= r.spool.index[i].end <= |r.spool.data|
                   && ReadAll(json, r.spool.data[r.spool.index[i].start..r.spool.index[i].end])
                      == Some(Groups(Included(f, capture))[i])
  {
    hide SameShape, BuiltFrom, ReadAll, Included, Groups, Fits;
    r := BuildSpool(json, capture, capture, f, allowWrites);
    UnchangedShape(json, Included(f, capture));
    if r.Built? {
      SpoolRefinesGrouping(json, r.spool, capture, f, allowWrites);
      assert forall i | 0 <= i < |r.spool.index| ::
          ReadRegions(json, r.spool)[i] == ReadAll(json, r.spool.data[r.spool.index[i].start..r.spool.index[i].end]);
    }
  }
}
