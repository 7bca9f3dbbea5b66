/** Which segment's timestamp a delivered byte gets: always that of one which
    carried it, and of the first one whenever segments repeat each other whole. */
module SegmentTimes {
  import opened Bytes
  import opened TcpStream
  import opened Reassembly
  import opened Framing

  /** The timestamp of the first segment that carries byte `x`. */
  function FirstTs(cuts: seq<Cut>, x: nat): int {
    if cuts == [] then 0 else if InCut(cuts[0], x) then cuts[0].ts else FirstTs(cuts[1..], x)
  }

  /** A segment repeats another whole, or has no byte in common with it. */
  predicate WholeOrApart(a: Cut, b: Cut) {
    (a.off == b.off && a.len == b.len) || a.off + a.len <= b.off || b.off + b.len <= a.off
  }

  predicate Tiled(cuts: seq<Cut>) {
    forall i, j | 0 <= i < j < |cuts| :: WholeOrApart(cuts[i], cuts[j])
  }

  ghost predicate CarriedAt(cuts: seq<Cut>, x: nat, ts: int) {
    exists i :: 0 <= i < |cuts| && InCut(cuts[i], x) && cuts[i].ts == ts
  }

  /** A segment with this timestamp carried the byte, the first one if no two
      segments overlap in part. */
  ghost predicate TimeOf(cuts: seq<Cut>, x: nat, ts: int) {
    CarriedAt(cuts, x, ts) && (Tiled(cuts) ==> ts == FirstTs(cuts, x))
  }

  // ---------------------------------------------------------------------
  // More segments
  // ---------------------------------------------------------------------

  lemma {:induction false} FirstOfMore(a: seq<Cut>, b: seq<Cut>, x: nat)
    ensures FirstTs(a + b, x) == if Covered(a, x) then FirstTs(a, x) else FirstTs(b, x)
    decreases |a|
  {
    hide InCut;
    if a == [] {
      assert a + b == b;
    } else {
      CoveredCons(a, x);
      assert (a + b)[1..] == a[1..] + b;
      FirstOfMore(a[1..], b, x);
    }
  }

  lemma {:induction false} TiledFront(a: seq<Cut>, b: seq<Cut>)
    requires Tiled(a + b)
    ensures Tiled(a)
  {
    forall i, j | 0 <= i < j < |a| ensures WholeOrApart(a[i], a[j]) {
      assert (a + b)[i] == a[i] && (a + b)[j] == a[j];
    }
    hide WholeOrApart;
  }

  lemma {:induction false} CoveredMore(a: seq<Cut>, b: seq<Cut>, x: nat, ts: int)
    requires CarriedAt(a, x, ts)
    ensures CarriedAt(a + b, x, ts) && Covered(a, x)
  {
    var i :| 0 <= i < |a| && InCut(a[i], x) && a[i].ts == ts;
    assert (a + b)[i] == a[i];
  }

  lemma {:induction false} TimeStays(a: seq<Cut>, b: seq<Cut>, x: nat, ts: int)
    requires TimeOf(a, x, ts)
    ensures TimeOf(a + b, x, ts)
  {
    hide CarriedAt, Tiled, FirstTs, Covered;
    CoveredMore(a, b, x, ts);
    FirstOfMore(a, b, x);
    if Tiled(a + b) {
      TiledFront(a, b);
    }
  }

  lemma {:induction false} TimeOfNew(seen: seq<Cut>, c: Cut, x: nat)
    requires InCut(c, x) && (Tiled(seen + [c]) ==> !Covered(seen, x))
    ensures TimeOf(seen + [c], x, c.ts)
  {
    assert (seen + [c])[|seen|] == c;
    FirstOfMore(seen, [c], x);
    hide Tiled, Covered;
  }

  // ---------------------------------------------------------------------
  // The timestamps of what is delivered
  // ---------------------------------------------------------------------

  /** `out`, delivered from position `at` on. */
  ghost predicate OutTimed(at: nat, out: seq<Chunk>, cuts: seq<Cut>) {
    forall x: nat | x < |Join(out)| :: TimeOf(cuts, at + x, TsAt(out, x))
  }

  lemma {:induction false} TsAtConcat(a: seq<Chunk>, b: seq<Chunk>, x: nat)
    requires x < |Join(a + b)|
    ensures TsAt(a + b, x) == if x < |Join(a)| then TsAt(a, x) else TsAt(b, x - |Join(a)|)
    decreases |b|
  {
    if b == [] {
      assert a + b == a;
    } else {
      var n := |b| - 1;
      assert (a + b)[..|a + b| - 1] == a + b[..n];
      JoinAppend(a, b[..n]);
      if x < |Join(a + b[..n])| { TsAtConcat(a, b[..n], x); }
    }
  }

  lemma {:induction false} OutNone(at: nat, cuts: seq<Cut>)
    ensures OutTimed(at, [], cuts)
  {
    JoinNil();
  }

  lemma {:induction false} OutOne(at: nat, c: Chunk, cuts: seq<Cut>)
    requires forall y: nat | at <= y < at + |c.bytes| :: TimeOf(cuts, y, c.ts)
    ensures OutTimed(at, [c], cuts) && Join([c]) == c.bytes
  {
    assert [c][..0] == [] && Join([c]) == Join([]) + c.bytes;
    hide TimeOf;
    forall x: nat | x < |Join([c])| ensures TimeOf(cuts, at + x, TsAt([c], x)) {
      assert TimeOf(cuts, at + x, c.ts);
    }
  }

  lemma {:induction false} OutAppend(at: nat, a: seq<Chunk>, b: seq<Chunk>, cuts: seq<Cut>)
    requires OutTimed(at, a, cuts) && OutTimed(at + |Join(a)|, b, cuts)
    ensures OutTimed(at, a + b, cuts)
  {
    hide TimeOf, Join, TsAt;
    JoinAppend(a, b);
    forall x: nat | x < |Join(a + b)| ensures TimeOf(cuts, at + x, TsAt(a + b, x)) {
      TsAtConcat(a, b, x);
      if x >= |Join(a)| {
        var y := x - |Join(a)|;
        assert TimeOf(cuts, at + |Join(a)| + y, TsAt(b, y));
      }
    }
  }

  lemma {:induction false} OutStays(at: nat, out: seq<Chunk>, a: seq<Cut>, b: seq<Cut>)
    requires OutTimed(at, out, a)
    ensures OutTimed(at, out, a + b)
  {
    hide TimeOf, Join, TsAt;
    forall x: nat | x < |Join(out)| ensures TimeOf(a + b, at + x, TsAt(out, x)) {
      TimeStays(a, b, at + x, TsAt(out, x));
    }
  }

  // ---------------------------------------------------------------------
  // The timestamps of what is buffered
  // ---------------------------------------------------------------------

  ghost predicate EntriesTimed(st: Stream, cuts: seq<Cut>) {
    forall k, x: nat | InEntry(st.pending, k, x) :: TimeOf(cuts, x, st.pending[k].ts)
  }

  ghost predicate IsSeen(cuts: seq<Cut>, off: nat, len: nat) {
    exists i :: 0 <= i < |cuts| && cuts[i].off == off && cuts[i].len == len
  }

  /** Every entry is a segment that was seen, whole and with its timestamp;
      and of segments that only repeat each other no byte was given up. */
  ghost predicate Remembers(st: Stream, seen: seq<Cut>) {
    && EntriesTimed(st, seen)
    && (forall k | k in st.pending :: IsSeen(seen, k, |st.pending[k].bytes|))
    && (Tiled(seen) ==> forall x: nat | Covered(seen, x) :: Held(st, x))
  }

  lemma {:induction false} EntriesStay(st: Stream, a: seq<Cut>, b: seq<Cut>)
    requires EntriesTimed(st, a)
    ensures EntriesTimed(st, a + b)
  {
    hide TimeOf;
    forall k, x: nat | InEntry(st.pending, k, x) ensures TimeOf(a + b, x, st.pending[k].ts) {
      TimeStays(a, b, x, st.pending[k].ts);
    }
  }

  lemma {:induction false} PopTimes(s: seq<byte>, st: Stream, k: nat, cuts: seq<Cut>)
    requires Drainable(s, st) && EntriesTimed(st, cuts) && k in st.pending && k <= st.nextRel
    ensures var (next, out) := Pop(st, k);
            && OutTimed(st.nextRel, out, cuts) && EntriesTimed(next, cuts) && next.nextRel == st.nextRel + |Join(out)|
  {
    hide TimeOf, Drainable;
    var c := st.pending[k];
    var (next, out) := Pop(st, k);
    if out == [] {
      OutNone(st.nextRel, cuts);
      JoinNil();
    } else {
      forall y: nat | st.nextRel <= y < st.nextRel + |out[0].bytes| ensures TimeOf(cuts, y, c.ts) {
        assert InEntry(st.pending, k, y);
      }
      OutOne(st.nextRel, out[0], cuts);
      assert out == [out[0]];
    }
    forall j, x: nat | InEntry(next.pending, j, x) ensures TimeOf(cuts, x, next.pending[j].ts) {
      assert InEntry(st.pending, j, x);
    }
  }

  lemma {:induction false} DrainTimes(s: seq<byte>, st: Stream, cuts: seq<Cut>)
    requires Drainable(s, st) && EntriesTimed(st, cuts)
    ensures OutTimed(st.nextRel, Drained(st).1, cuts)
    decreases |st.pending|
  {
    hide OutTimed, EntriesTimed, Drainable;
    if Reached(st) {
      var k := MinKey(st.pending.Keys);
      var (next, out) := Pop(st, k);
      PopDelivers(s, st, k, Cut(0, 0, 0));
      PopTimes(s, st, k, cuts);
      DrainTimes(s, next, cuts);
      OutAppend(st.nextRel, out, Drained(next).1, cuts);
    } else {
      OutNone(st.nextRel, cuts);
    }
  }

  // ---------------------------------------------------------------------
  // One segment
  // ---------------------------------------------------------------------

  /** Of segments that only repeat each other, a byte not yet held is new. */
  lemma {:induction false} NewByte(st: Stream, seen: seq<Cut>, c: Cut, x: nat)
    requires Remembers(st, seen) && !Held(st, x)
    ensures Tiled(seen + [c]) ==> !Covered(seen, x)
  {
    hide Held, Covered, Tiled, EntriesTimed, IsSeen;
    if Tiled(seen + [c]) {
      TiledFront(seen, [c]);
    }
  }

  /** Such a segment shares no byte with an entry stored at another offset. */
  lemma {:induction false} EntriesApart(st: Stream, seen: seq<Cut>, c: Cut, k: nat)
    requires Remembers(st, seen) && k in st.pending && Tiled(seen + [c])
    ensures WholeOrApart(Cut(0, k, |st.pending[k].bytes|), c)
  {
    hide EntriesTimed, Covered, Held;
    assert IsSeen(seen, k, |st.pending[k].bytes|);
    var i :| 0 <= i < |seen| && seen[i].off == k && seen[i].len == |st.pending[k].bytes|;
    assert (seen + [c])[i] == seen[i] && (seen + [c])[|seen|] == c;
    assert WholeOrApart((seen + [c])[i], (seen + [c])[|seen|]);
  }

  /** A byte of a segment that is not yet delivered and not stored at its
      offset is not held. */
  lemma {:induction false} NotHeld(st: Stream, seen: seq<Cut>, c: Cut, x: nat)
    requires Remembers(st, seen) && InCut(c, x) && x >= st.nextRel && c.off !in st.pending && Tiled(seen + [c])
    ensures !Held(st, x)
  {
    hide Remembers, Tiled;
    forall k | k in st.pending ensures !InEntry(st.pending, k, x) {
      EntriesApart(st, seen, c, k);
    }
  }

  lemma {:induction false} NewTime(st: Stream, seen: seq<Cut>, c: Cut, x: nat)
    requires Remembers(st, seen) && InCut(c, x) && x >= st.nextRel && c.off !in st.pending
    ensures TimeOf(seen + [c], x, c.ts)
  {
    hide Remembers, Tiled, Covered, Held, TimeOf, InCut;
    if Tiled(seen + [c]) {
      NotHeld(st, seen, c, x);
      NewByte(st, seen, c, x);
    }
    TimeOfNew(seen, c, x);
  }

  lemma {:induction false} SeenStays(seen: seq<Cut>, c: Cut, off: nat, len: nat)
    ensures IsSeen(seen, off, len) ==> IsSeen(seen + [c], off, len)
    ensures IsSeen(seen + [c], c.off, c.len)
  {
    assert (seen + [c])[|seen|] == c;
    if IsSeen(seen, off, len) {
      var i :| 0 <= i < |seen| && seen[i].off == off && seen[i].len == len;
      assert (seen + [c])[i] == seen[i];
    }
  }

  lemma {:induction false} CoveredSnoc(seen: seq<Cut>, c: Cut, x: nat)
    ensures Covered(seen + [c], x) <==> Covered(seen, x) || InCut(c, x)
  {
    hide InCut;
    assert (seen + [c])[|seen|] == c;
    if Covered(seen, x) {
      var i :| 0 <= i < |seen| && InCut(seen[i], x);
      assert (seen + [c])[i] == seen[i];
    }
    if Covered(seen + [c], x) && !InCut(c, x) {
      var i :| 0 <= i < |seen + [c]| && InCut((seen + [c])[i], x);
      assert seen[i] == (seen + [c])[i];
    }
  }

  /** Segments that only repeat each other lose no byte. */
  lemma {:induction false} NoTailLost(s: seq<byte>, st: Stream, seen: seq<Cut>, c: Cut)
    requires Consistent(s, st) && Remembers(st, seen) && Tiled(seen + [c])
    ensures !LosesTail(st, c)
  {
    hide Remembers, Tiled, Held, Size, SliceAt;
    if LosesTail(st, c) {
      EntriesApart(st, seen, c, c.off);
    }
  }

  lemma {:induction false} HoldsAll(s: seq<byte>, st: Stream, seen: seq<Cut>, c: Cut)
    requires Consistent(s, st) && !st.overflow && Remembers(st, seen)
    requires FitsIn(c, s) && AbsDiff(c.off, st.nextRel) < TWO31
    ensures var st' := AfterData(st, SegmentOf(s, st.isn, c)).0;
            !st'.overflow && Tiled(seen + [c]) ==> forall x: nat | Covered(seen + [c], x) :: Held(st', x)
  {
    hide AfterData, SegmentOf, Consistent, Tiled, Covered, Held, EntriesTimed, IsSeen, InCut, HasRoom, LosesTail;
    var st' := AfterData(st, SegmentOf(s, st.isn, c)).0;
    if !st'.overflow && Tiled(seen + [c]) {
      NoTailLost(s, st, seen, c);
      OverflowsIff(s, st, c);
      StepCoversIff(s, st, c);
      TiledFront(seen, [c]);
      forall x: nat | Covered(seen + [c], x) ensures Held(st', x) {
        CoveredSnoc(seen, c, x);
      }
    }
  }

  /** What one segment delivers and stores is timed by the segments so far. */
  lemma {:induction false} StepOut(s: seq<byte>, st: Stream, seen: seq<Cut>, c: Cut)
    requires Consistent(s, st) && !st.overflow && Remembers(st, seen)
    requires FitsIn(c, s) && AbsDiff(c.off, st.nextRel) < TWO31
    ensures var (st', out) := AfterData(st, SegmentOf(s, st.isn, c));
            OutTimed(st.nextRel, out, seen + [c])
  {
    hide Drained, Rel, Remembers, OutTimed, EntriesTimed, TimeOf, Size;
    RelOfCut(s, st, c);
    RemembersMeans(st, seen);
    OutNone(st.nextRel, seen + [c]);
    var payload := s[c.off..c.off + c.len];
    if c.off <= st.nextRel < c.off + c.len {
      var head := Chunk(c.ts, payload[st.nextRel - c.off..]);
      forall y: nat | st.nextRel <= y < st.nextRel + |head.bytes| ensures TimeOf(seen + [c], y, c.ts) {
        NewTime(st, seen, c, y);
      }
      OutOne(st.nextRel, head, seen + [c]);
      EntriesStay(st, seen, [c]);
      var next := st.(nextRel := c.off + c.len);
      EntriesOnly(st, next, seen + [c]);
      DrainTimes(s, next, seen + [c]);
      OutAppend(st.nextRel, [head], Drained(next).1, seen + [c]);
    }
  }

  lemma {:induction false} EntriesOnly(st: Stream, st': Stream, cuts: seq<Cut>)
    requires EntriesTimed(st, cuts) && forall k | k in st'.pending :: k in st.pending && st'.pending[k] == st.pending[k]
    ensures EntriesTimed(st', cuts)
  {
    hide TimeOf;
    forall k, x: nat | InEntry(st'.pending, k, x) ensures TimeOf(cuts, x, st'.pending[k].ts) {
      assert InEntry(st.pending, k, x);
    }
  }

  lemma {:induction false} RemembersMeans(st: Stream, seen: seq<Cut>)
    requires Remembers(st, seen)
    ensures EntriesTimed(st, seen) && forall k | k in st.pending :: IsSeen(seen, k, |st.pending[k].bytes|)
  {
    hide EntriesTimed, IsSeen, Tiled, Held, Covered;
  }

  /** An entry is an old one, or the segment itself with its timestamp. */
  lemma {:induction false} EntryIs(s: seq<byte>, st: Stream, c: Cut, k: nat)
    requires Consistent(s, st) && !st.overflow
    requires FitsIn(c, s) && AbsDiff(c.off, st.nextRel) < TWO31
    requires k in AfterData(st, SegmentOf(s, st.isn, c)).0.pending
    ensures var e := AfterData(st, SegmentOf(s, st.isn, c)).0.pending[k];
            || (k in st.pending && e == st.pending[k])
            || (k == c.off && k !in st.pending && k > st.nextRel && |e.bytes| == c.len && e.ts == c.ts)
  {
    hide Drained, Rel, Size;
    RelOfCut(s, st, c);
    if c.off <= st.nextRel < c.off + c.len {
      DrainDelivers(s, st.(nextRel := c.off + c.len), Cut(0, |s|, 0));
      assert Consistent(s, Drained(st.(nextRel := c.off + c.len)).0);
    }
  }

  lemma {:induction false} StepTimes(s: seq<byte>, st: Stream, seen: seq<Cut>, c: Cut)
    requires Consistent(s, st) && !st.overflow && Remembers(st, seen)
    requires FitsIn(c, s) && AbsDiff(c.off, st.nextRel) < TWO31
    ensures var (st', out) := AfterData(st, SegmentOf(s, st.isn, c));
            OutTimed(st.nextRel, out, seen + [c]) && (!st'.overflow ==> Remembers(st', seen + [c]))
  {
    StepOut(s, st, seen, c);
    HoldsAll(s, st, seen, c);
    RemembersMeans(st, seen);
    EntriesStay(st, seen, [c]);
    var st' := AfterData(st, SegmentOf(s, st.isn, c)).0;
    hide AfterData, SegmentOf, Consistent, OutTimed, TimeOf, IsSeen, Tiled, Covered, Held;
    forall k | k in st'.pending ensures IsSeen(seen + [c], k, |st'.pending[k].bytes|) {
      EntryIs(s, st, c, k);
      SeenStays(seen, c, k, |st'.pending[k].bytes|);
    }
    forall k, x: nat | InEntry(st'.pending, k, x) ensures TimeOf(seen + [c], x, st'.pending[k].ts) {
      EntryIs(s, st, c, k);
      if k in st.pending && st'.pending[k] == st.pending[k] {
        assert InEntry(st.pending, k, x);
      } else {
        hide Remembers, EntriesTimed;
        NewTime(st, seen, c, x);
      }
    }
  }

  // ---------------------------------------------------------------------
  // Whole runs
  // ---------------------------------------------------------------------

  lemma {:induction false} RunTimes(s: seq<byte>, st: Stream, seen: seq<Cut>, cuts: seq<Cut>)
    requires forall c | c in cuts :: FitsIn(c, s)
    requires Consistent(s, st) && AllNear(s, st, cuts) && (!st.overflow ==> Remembers(st, seen))
    ensures OutTimed(st.nextRel, Run(s, st, cuts).1, seen + cuts)
    decreases |cuts|
  {
    hide OutTimed, Remembers, AfterData, SegmentOf, Consistent;
    if st.overflow {
      OverflowIsFinal(s, st, cuts);
      OutNone(st.nextRel, seen + cuts);
    } else if cuts == [] {
      OutNone(st.nextRel, seen + cuts);
    } else {
      var c, rest := cuts[0], cuts[1..];
      assert cuts == [c] + rest && (seen + [c]) + rest == seen + cuts;
      var (st1, out1) := AfterData(st, SegmentOf(s, st.isn, c));
      StepTimes(s, st, seen, c);
      StepDelivers(s, st, c);
      OutStays(st.nextRel, out1, seen + [c], rest);
      RunTimes(s, st1, seen + [c], rest);
      OutAppend(st.nextRel, out1, Run(s, st1, rest).1, seen + cuts);
    }
  }

  /** Every delivered byte bears the timestamp of a segment that carried it, and
      of the first such segment when segments repeat each other only whole. */
  lemma {:induction false} DeliveredTimes(s: seq<byte>, st: Stream, cuts: seq<Cut>, x: nat)
    requires forall c | c in cuts :: FitsIn(c, s)
    requires Consistent(s, st) && AllNear(s, st, cuts) && st.pending == map[]
    requires st.nextRel <= x < Run(s, st, cuts).0.nextRel
    ensures TimeOf(cuts, x, TsAt(Run(s, st, cuts).1, x - st.nextRel))
  {
    hide Run, AllNear, TimeOf, Size, TsAt;
    assert Remembers(st, []);
    RunTimes(s, st, [], cuts);
    RunDelivers(s, st, cuts);
    assert [] + cuts == cuts;
    assert st.nextRel + (x - st.nextRel) == x;
  }

  lemma {:induction false} MiddleIsStored(s: seq<byte>, isn: u32, early: int)
    requires |s| == 3
    ensures AfterData(Opened(isn), SegmentOf(s, isn, Cut(early, 1, 1)))
         == (Opened(isn).(pending := map[1 := Chunk(early, s[1..2])], pendingBytes := 1), [])
  {
    var c := Cut(early, 1, 1);
    RelOfCut(s, Opened(isn), c);
    assert SegmentOf(s, isn, c).payload == s[1..2] && |s[1..2]| == 1;
    hide Rel, Drained;
  }

  lemma {:induction false} WholeIsDelivered(s: seq<byte>, st: Stream, late: int)
    requires |s| == 3 && Consistent(s, st) && st.nextRel == 0 && !st.overflow
    ensures TsAt(AfterData(st, SegmentOf(s, st.isn, Cut(late, 0, 3))).1, 1) == late
    ensures 1 < |Join(AfterData(st, SegmentOf(s, st.isn, Cut(late, 0, 3))).1)|
  {
    var c := Cut(late, 0, 3);
    RelOfCut(s, st, c);
    hide Rel, Drained, Consistent, Join, TsAt;
    var head, more := [Chunk(late, s[0..3])], Drained(st.(nextRel := 3)).1;
    assert SegmentOf(s, st.isn, c).payload == s[0..3] && s[0..3][0..] == s[0..3];
    assert AfterData(st, SegmentOf(s, st.isn, c)).1 == head + more;
    JoinAppend(head, more);
    OneChunk(head[0]);
    TsAtConcat(head, more, 1);
  }

  lemma {:induction false} OneChunk(c: Chunk)
    ensures Join([c]) == c.bytes && TsAt([c], 0) == TsAt([c], 1) == c.ts
  {
    assert [c][..0] == [];
  }

  lemma {:induction false} TwoSteps(s: seq<byte>, st: Stream, a: Cut, b: Cut)
    requires FitsIn(a, s) && FitsIn(b, s)
    ensures var (st1, out1) := AfterData(st, SegmentOf(s, st.isn, a));
            var (st2, out2) := AfterData(st1, SegmentOf(s, st1.isn, b));
            (forall c | c in [a, b] :: FitsIn(c, s)) && Run(s, st, [a, b]) == (st2, out1 + out2)
  {
    hide AfterData, SegmentOf;
    assert [a, b][1..] == [b] && [b][1..] == [];
    var (st1, out1) := AfterData(st, SegmentOf(s, st.isn, a));
    var (st2, out2) := AfterData(st1, SegmentOf(s, st1.isn, b));
    assert Run(s, st2, []) == (st2, []);
    assert out2 + [] == out2;
  }

  /** A segment that overlaps a buffered one takes its bytes over: the middle byte
      was carried first at `early` and bears the timestamp `late`. */
  lemma {:induction false} OverlapTakesOver(s: seq<byte>, isn: u32, early: int, late: int)
    requires |s| == 3
    ensures var cuts := [Cut(early, 1, 1), Cut(late, 0, 3)];
            && (forall c | c in cuts :: FitsIn(c, s))
            && FirstTs(cuts, 1) == early && TsAt(Run(s, Opened(isn), cuts).1, 1) == late
  {
    var a, b := Cut(early, 1, 1), Cut(late, 0, 3);
    MiddleIsStored(s, isn, early);
    EmptySums();
    assert Consistent(s, Opened(isn));
    hide AfterData, SegmentOf, Consistent, Run, TsAt;
    StepDelivers(s, Opened(isn), a);
    var (st1, out1) := AfterData(Opened(isn), SegmentOf(s, isn, a));
    WholeIsDelivered(s, st1, late);
    TwoSteps(s, Opened(isn), a, b);
    var out2 := AfterData(st1, SegmentOf(s, isn, b)).1;
    assert out1 + out2 == out2;
  }
}
