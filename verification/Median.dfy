/** Median aggregation over repeated passes. */
module Median {
  import opened Bytes

  // ---------------------------------------------------------------------
  // Order statistics by counting
  // ---------------------------------------------------------------------

  /** How many values are at most `x`. */
  function AtMost(v: seq<nat>, x: int): nat {
    if v == [] then 0 else AtMost(v[..|v| - 1], x) + if v[|v| - 1] <= x then 1 else 0
  }

  predicate Sorted(s: seq<nat>) {
    forall i, j | 0 <= i < j < |s| :: s[i] <= s[j]
  }

  /** `x` is the value with `k` values before it in ascending order. */
  predicate IsKth(v: seq<nat>, k: nat, x: nat) {
    AtMost(v, x - 1) <= k < AtMost(v, x)
  }

  lemma {:induction false} AtMostAppend(a: seq<nat>, b: seq<nat>, x: int)
    ensures AtMost(a + b, x) == AtMost(a, x) + AtMost(b, x)
    decreases |b|
  {
    if b == [] {
      assert a + b == a;
    } else {
      var n := |b| - 1;
      assert (a + b)[..|a + b| - 1] == a + b[..n];
      AtMostAppend(a, b[..n], x);
    }
  }

  lemma {:induction false} AtMostAll(v: seq<nat>, x: int)
    requires forall i | 0 <= i < |v| :: v[i] <= x
    ensures AtMost(v, x) == |v|
  {
    if v != [] { AtMostAll(v[..|v| - 1], x); }
  }

  lemma {:induction false} AtMostNone(v: seq<nat>, x: int)
    requires forall i | 0 <= i < |v| :: v[i] > x
    ensures AtMost(v, x) == 0
  {
    if v != [] { AtMostNone(v[..|v| - 1], x); }
  }

  lemma {:induction false} AtMostGrows(v: seq<nat>, x: int, y: int)
    requires x <= y
    ensures AtMost(v, x) <= AtMost(v, y) <= |v|
  {
    if v != [] { AtMostGrows(v[..|v| - 1], x, y); }
  }

  /** In a sorted list the `k`-th value is at index `k`. */
  lemma {:induction false} SortedKth(s: seq<nat>, k: nat)
    requires Sorted(s) && k < |s|
    ensures IsKth(s, k, s[k])
  {
    hide AtMost;
    var x: int := s[k];
    SortedSplit(s, k + 1, x);
    SortedSplit(s, k, x - 1);
    AtMostAll(s[..k + 1], x);
    AtMostNone(s[k..], x - 1);
    AtMostGrows(s[..k], x - 1, x - 1);
  }

  lemma {:induction false} SortedSplit(s: seq<nat>, k: nat, x: int)
    requires k <= |s|
    ensures AtMost(s, x) == AtMost(s[..k], x) + AtMost(s[k..], x)
  {
    hide AtMost;
    assert s == s[..k] + s[k..];
    AtMostAppend(s[..k], s[k..], x);
  }

  lemma {:induction false} KthIsUnique(v: seq<nat>, k: nat, x: nat, y: nat)
    requires IsKth(v, k, x) && IsKth(v, k, y)
    ensures x == y
  {
    if x < y { AtMostGrows(v, x, y - 1); }
    if y < x { AtMostGrows(v, y, x - 1); }
    hide AtMost;
  }

  lemma {:induction false} AtMostRemoved(v: seq<nat>, i: nat, x: int)
    requires i < |v|
    ensures AtMost(v, x) == AtMost(Removed(v, i), x) + if v[i] <= x then 1 else 0
    decreases |v|
  {
    var n := |v| - 1;
    if i < n {
      AtMostRemoved(v[..n], i, x);
      RemovedLast(v, i);
    } else {
      assert Removed(v, i) == v[..n];
    }
  }

  lemma {:induction false} AtMostBag(a: seq<nat>, b: seq<nat>, x: int)
    requires multiset(a) == multiset(b)
    ensures AtMost(a, x) == AtMost(b, x)
    decreases |a|
  {
    assert |a| == |multiset(a)| && |b| == |multiset(b)|;
    if a != [] {
      var n := |a| - 1;
      assert a[n] in multiset(b);
      var i :| 0 <= i < |b| && b[i] == a[n];
      RemovedBag(b, i);
      assert a == a[..n] + [a[n]];
      AtMostBag(a[..n], Removed(b, i), x);
      AtMostRemoved(b, i, x);
      AtMostStep(a, x);
      hide Removed, AtMost;
    }
  }

  lemma {:induction false} AtMostStep(v: seq<nat>, x: int)
    requires v != []
    ensures AtMost(v, x) == AtMost(v[..|v| - 1], x) + if v[|v| - 1] <= x then 1 else 0
  {
  }

  // ---------------------------------------------------------------------
  // Sorting and the median
  // ---------------------------------------------------------------------

  function Insert(s: seq<nat>, x: nat): (t: seq<nat>) {
    if s == [] || s[|s| - 1] <= x then s + [x]
    else Insert(s[..|s| - 1], x) + [s[|s| - 1]]
  }

  function Sort(v: seq<nat>): seq<nat> {
    if v == [] then [] else Insert(Sort(v[..|v| - 1]), v[|v| - 1])
  }

  lemma {:induction false} BagSnoc(s: seq<nat>, x: nat)
    ensures multiset(s + [x]) == multiset(s) + multiset{x}
  {
  }

  lemma {:induction false} InsertBag(s: seq<nat>, x: nat)
    ensures multiset(Insert(s, x)) == multiset(s) + multiset{x}
    decreases |s|
  {
    if s == [] || s[|s| - 1] <= x {
      BagSnoc(s, x);
    } else {
      var n := |s| - 1;
      InsertBag(s[..n], x);
      BagSnoc(s[..n], s[n]);
      assert s == s[..n] + [s[n]];
      BagSnoc(Insert(s[..n], x), s[n]);
    }
  }

  predicate AllAtMost(s: seq<nat>, y: nat) {
    forall i | 0 <= i < |s| :: s[i] <= y
  }

  lemma {:induction false} InsertBounded(s: seq<nat>, x: nat, y: nat)
    requires AllAtMost(s, y) && x <= y
    ensures AllAtMost(Insert(s, x), y)
    decreases |s|
  {
    if s != [] && s[|s| - 1] > x {
      InsertBounded(s[..|s| - 1], x, y);
    }
  }

  lemma {:induction false} InsertSorts(s: seq<nat>, x: nat)
    requires Sorted(s)
    ensures Sorted(Insert(s, x))
    decreases |s|
  {
    if s != [] && s[|s| - 1] > x {
      var n := |s| - 1;
      InsertSorts(s[..n], x);
      InsertBounded(s[..n], x, s[n]);
    }
  }

  lemma {:induction false} SortSorts(v: seq<nat>)
    ensures Sorted(Sort(v)) && multiset(Sort(v)) == multiset(v)
    ensures |Sort(v)| == |v|
  {
    if v != [] {
      var n := |v| - 1;
      SortSorts(v[..n]);
      InsertSorts(Sort(v[..n]), v[n]);
      InsertBag(Sort(v[..n]), v[n]);
      assert v == v[..n] + [v[n]];
    }
    assert |multiset(Sort(v))| == |Sort(v)| && |multiset(v)| == |v|;
  }

  /** The `k`-th value in ascending order. */
  function Kth(v: seq<nat>, k: nat): (x: nat)
    requires k < |v|
  {
    SortSorts(v);
    Sort(v)[k]
  }

  /** Counting pins the `k`-th value down, both ways. */
  lemma {:induction false} KthIff(v: seq<nat>, k: nat, x: nat)
    requires k < |v|
    ensures Kth(v, k) == x <==> IsKth(v, k, x)
  {
    hide Sort, AtMost;
    SortSorts(v);
    var s := Sort(v);
    SortedKth(s, k);
    var y: int := s[k];
    AtMostBag(s, v, y);
    AtMostBag(s, v, y - 1);
    if IsKth(v, k, x) { KthIsUnique(v, k, x, y); }
  }

  /** `median_u64`: the middle value, or the floored mean of the two middle ones. */
  function MedianOf(v: seq<nat>): nat
    requires v != []
  {
    var n := |v|;
    if n % 2 == 1 then Kth(v, n / 2) else (Kth(v, n / 2 - 1) + Kth(v, n / 2)) / 2
  }

  lemma {:induction false} KthIsIn(v: seq<nat>, k: nat)
    requires k < |v|
    ensures Kth(v, k) in v
  {
    SortSorts(v);
    assert Sort(v)[k] in multiset(v);
  }

  /** The mean of two values that fit 64 bits fits 64 bits, so the final cast
      loses nothing although the sum may not fit. */
  lemma {:induction false} MedianIsWithin(v: seq<nat>, lo: nat, hi: nat)
    requires v != [] && forall x | x in v :: lo <= x <= hi
    ensures lo <= MedianOf(v) <= hi
  {
    var n := |v|;
    KthIsIn(v, n / 2);
    if n % 2 == 0 { KthIsIn(v, n / 2 - 1); }
    hide Kth;
  }

  // ---------------------------------------------------------------------
  // Laws
  // ---------------------------------------------------------------------

  lemma {:induction false} KthBag(v: seq<nat>, w: seq<nat>, k: nat)
    requires multiset(v) == multiset(w) && k < |v| && k < |w|
    ensures Kth(v, k) == Kth(w, k)
  {
    hide AtMost, Kth;
    var x: int := Kth(v, k);
    KthIff(v, k, x);
    KthIff(w, k, x);
    AtMostBag(v, w, x);
    AtMostBag(v, w, x - 1);
  }

  /** The order of the passes is irrelevant. */
  lemma {:induction false} PassOrderDoesNotMatter(v: seq<nat>, w: seq<nat>)
    requires v != [] && w != [] && multiset(v) == multiset(w)
    ensures MedianOf(v) == MedianOf(w)
  {
    assert |v| == |multiset(v)| && |w| == |multiset(w)|;
    hide Kth;
    KthBag(v, w, |v| / 2);
    if |v| % 2 == 0 { KthBag(v, w, |v| / 2 - 1); }
  }

  predicate Below(v: seq<nat>, w: seq<nat>) {
    |v| == |w| && forall i | 0 <= i < |v| :: v[i] <= w[i]
  }

  lemma {:induction false} AtMostBelow(v: seq<nat>, w: seq<nat>, x: int)
    requires Below(v, w)
    ensures AtMost(w, x) <= AtMost(v, x)
  {
    if v != [] { AtMostBelow(v[..|v| - 1], w[..|w| - 1], x); }
  }

  lemma {:induction false} KthBelow(v: seq<nat>, w: seq<nat>, k: nat)
    requires Below(v, w) && k < |v|
    ensures Kth(v, k) <= Kth(w, k)
  {
    hide AtMost, Kth;
    var a, b := Kth(v, k), Kth(w, k);
    KthIff(v, k, a);
    KthIff(w, k, b);
    if b < a {
      AtMostBelow(v, w, b);
      AtMostGrows(v, b, a - 1);
    }
  }

  /** Pointwise order survives the median. */
  lemma {:induction false} MedianKeepsOrder(v: seq<nat>, w: seq<nat>)
    requires v != [] && Below(v, w)
    ensures MedianOf(v) <= MedianOf(w)
  {
    hide Kth;
    KthBelow(v, w, |v| / 2);
    if |v| % 2 == 0 { KthBelow(v, w, |v| / 2 - 1); }
  }

  // ---------------------------------------------------------------------
  // Outliers
  // ---------------------------------------------------------------------

  /** `w` differs from `v` at most at the passes in `changed`. */
  predicate DiffersAt(v: seq<nat>, w: seq<nat>, changed: set<nat>) {
    |v| == |w| && forall i: nat | i < |v| && i !in changed :: w[i] == v[i]
  }

  /** If every counted value sits at a changed pass, there are no more of them than
      changed passes. */
  lemma {:induction false} CountedAreChanged(w: seq<nat>, x: int, changed: set<nat>)
    requires forall i: nat | i < |w| && w[i] <= x :: i in changed
    ensures AtMost(w, x) <= |changed|
  {
    if w != [] {
      var n := |w| - 1;
      if w[n] <= x {
        CountedAreChanged(w[..n], x, changed - {n});
      } else {
        CountedAreChanged(w[..n], x, changed);
      }
    }
  }

  lemma {:induction false} UncountedAreChanged(w: seq<nat>, x: int, changed: set<nat>)
    requires forall i: nat | i < |w| && w[i] > x :: i in changed
    ensures |w| - AtMost(w, x) <= |changed|
  {
    if w != [] {
      var n := |w| - 1;
      if w[n] > x {
        UncountedAreChanged(w[..n], x, changed - {n});
      } else {
        UncountedAreChanged(w[..n], x, changed);
      }
    }
  }

  /** Some pass outside `changed` has a value of at most `x`. */
  lemma {:induction false} SomeBelow(w: seq<nat>, k: nat, changed: set<nat>) returns (i: nat)
    requires k < |w| && |changed| <= k
    ensures i < |w| && i !in changed && w[i] <= Kth(w, k)
  {
    hide AtMost, Kth;
    var x: int := Kth(w, k);
    KthIff(w, k, x);
    if forall j: nat | j < |w| && w[j] <= x :: j in changed {
      CountedAreChanged(w, x, changed);
      assert false;
    }
    i :| i < |w| && w[i] <= x && i !in changed;
  }

  lemma {:induction false} SomeAbove(w: seq<nat>, k: nat, changed: set<nat>) returns (i: nat)
    requires k < |w| && |changed| < |w| - k
    ensures i < |w| && i !in changed && w[i] >= Kth(w, k)
  {
    hide AtMost, Kth;
    var x: int := Kth(w, k);
    KthIff(w, k, x);
    if forall j: nat | j < |w| && w[j] > x - 1 :: j in changed {
      UncountedAreChanged(w, x - 1, changed);
      assert false;
    }
    i :| i < |w| && w[i] > x - 1 && i !in changed;
  }

  /** As long as fewer than half of the passes are arbitrarily wrong, the median
      stays between two values of the others. */
  lemma {:induction false} OutliersDoNotMatter(v: seq<nat>, w: seq<nat>, changed: set<nat>) returns (i: nat, j: nat)
    requires v != [] && DiffersAt(v, w, changed) && 2 * |changed| < |v|
    ensures i < |v| && j < |v| && i !in changed && j !in changed
    ensures v[i] <= MedianOf(w) <= v[j]
  {
    hide AtMost, Kth;
    var n := |w|;
    if n % 2 == 1 {
      i := SomeBelow(w, n / 2, changed);
    } else {
      i := SomeBelow(w, n / 2 - 1, changed);
      KthGrows(w, n / 2 - 1, n / 2);
    }
    j := SomeAbove(w, n / 2, changed);
  }

  lemma {:induction false} KthGrows(v: seq<nat>, j: nat, k: nat)
    requires j <= k < |v|
    ensures Kth(v, j) <= Kth(v, k)
  {
    SortSorts(v);
    hide Sort;
  }

  /** The values with those at `changed` replaced by `big`. */
  function Spoiled(v: seq<nat>, changed: set<nat>, big: nat): (w: seq<nat>)
    ensures |w| == |v| && forall i: nat | i < |v| :: w[i] == if i in changed then big else v[i]
  {
    seq(|v|, i requires 0 <= i < |v| => if i in changed then big else v[i])
  }

  lemma {:induction false} SpoiledCount(w: seq<nat>, x: int, changed: set<nat>)
    requires forall i | i in changed :: i < |w| && w[i] > x
    ensures AtMost(w, x) + |changed| <= |w|
  {
    if w == [] {
      assert changed == {};
    } else {
      var n := |w| - 1;
      if n in changed {
        SpoiledCount(w[..n], x, changed - {n});
      } else {
        SpoiledCount(w[..n], x, changed);
      }
    }
  }

  /** Half of the passes are enough to carry the median anywhere. */
  lemma {:induction false} HalfIsTooMany(v: seq<nat>, changed: set<nat>, bound: nat)
    requires v != [] && (forall i | i in changed :: i < |v|) && 2 * |changed| >= |v|
    ensures DiffersAt(v, Spoiled(v, changed, 2 * bound + 2), changed)
    ensures MedianOf(Spoiled(v, changed, 2 * bound + 2)) > bound
  {
    hide AtMost, Kth;
    var big := 2 * bound + 2;
    var w := Spoiled(v, changed, big);
    var k := |w| / 2;
    SpoiledCount(w, big - 1, changed);
    var x: int := Kth(w, k);
    KthIff(w, k, x);
    if x < big { AtMostGrows(w, x, big - 1); }
  }

  // ---------------------------------------------------------------------
  // Latency reports
  // ---------------------------------------------------------------------

  /** The latency fields of a report row. */
  datatype Latency = Latency(p50: nat, p95: nat, p99: nat, max: nat)

  predicate Ordered(l: Latency) {
    l.p50 <= l.p95 <= l.p99 <= l.max
  }

  function P50s(ls: seq<Latency>): (v: seq<nat>)
    ensures |v| == |ls| && forall i | 0 <= i < |ls| :: v[i] == ls[i].p50
  {
    seq(|ls|, i requires 0 <= i < |ls| => ls[i].p50)
  }

  function P95s(ls: seq<Latency>): (v: seq<nat>)
    ensures |v| == |ls| && forall i | 0 <= i < |ls| :: v[i] == ls[i].p95
  {
    seq(|ls|, i requires 0 <= i < |ls| => ls[i].p95)
  }

  function P99s(ls: seq<Latency>): (v: seq<nat>)
    ensures |v| == |ls| && forall i | 0 <= i < |ls| :: v[i] == ls[i].p99
  {
    seq(|ls|, i requires 0 <= i < |ls| => ls[i].p99)
  }

  function Maxes(ls: seq<Latency>): (v: seq<nat>)
    ensures |v| == |ls| && forall i | 0 <= i < |ls| :: v[i] == ls[i].max
  {
    seq(|ls|, i requires 0 <= i < |ls| => ls[i].max)
  }

  /** Field by field, over the passes a statement class or size decade appears in. */
  function Aggregate(ls: seq<Latency>): Latency
    requires ls != []
  {
    Latency(MedianOf(P50s(ls)), MedianOf(P95s(ls)), MedianOf(P99s(ls)), MedianOf(Maxes(ls)))
  }

  /** The aggregate is no single pass, but its percentiles are still in order. */
  lemma {:induction false} AggregateIsOrdered(ls: seq<Latency>)
    requires ls != [] && forall i | 0 <= i < |ls| :: Ordered(ls[i])
    ensures Ordered(Aggregate(ls))
  {
    hide MedianOf;
    forall i | 0 <= i < |ls| ensures P50s(ls)[i] <= P95s(ls)[i] <= P99s(ls)[i] <= Maxes(ls)[i] {
      assert Ordered(ls[i]);
    }
    MedianKeepsOrder(P50s(ls), P95s(ls));
    MedianKeepsOrder(P95s(ls), P99s(ls));
    MedianKeepsOrder(P99s(ls), Maxes(ls));
  }

  // ---------------------------------------------------------------------
  // The method
  // ---------------------------------------------------------------------

  lemma {:induction false} InsertDown(s: seq<nat>, x: nat, j: nat)
    requires 0 < j <= |s| && s[j - 1] > x
    ensures Insert(s[..j], x) + s[j..] == Insert(s[..j - 1], x) + s[j - 1..]
  {
    assert s[..j][..j - 1] == s[..j - 1];
    assert [s[j - 1]] + s[j..] == s[j - 1..];
  }

  lemma {:induction false} InsertHere(s: seq<nat>, x: nat, j: nat)
    requires j <= |s| && (j > 0 ==> s[j - 1] <= x)
    ensures Insert(s[..j], x) + s[j..] == s[..j] + [x] + s[j..]
  {
  }

  /** `now` is `was` with the gap at `j` instead of at `n`, what lay between moved
      up by one. */
  predicate Shifted(was: seq<nat>, now: seq<nat>, j: nat, n: nat) {
    && j <= n < |was| == |now|
    && now[..j] == was[..j] && now[j + 1..n + 1] == was[j..n] && now[n + 1..] == was[n + 1..]
  }

  lemma {:induction false} ShiftDown(was: seq<nat>, now: seq<nat>, j: nat, n: nat)
    requires 0 < j && Shifted(was, now, j, n)
    ensures now[j - 1] == was[j - 1] && Shifted(was, now[j := now[j - 1]], j - 1, n)
  {
    var next := now[j := now[j - 1]];
    assert now[j - 1] == now[..j][j - 1];
    assert next[..j - 1] == now[..j][..j - 1];
    assert next[j..n + 1] == [now[j - 1]] + now[j + 1..n + 1];
    assert next[n + 1..] == now[n + 1..];
  }

  lemma {:induction false} ShiftedFilled(was: seq<nat>, now: seq<nat>, j: nat, n: nat, x: nat)
    requires Shifted(was, now, j, n)
    ensures now[j := x][..n + 1] == was[..n][..j] + [x] + was[..n][j..] && now[j := x][n + 1..] == was[n + 1..]
  {
    assert now[j := x][..n + 1] == now[..j] + [x] + now[j + 1..n + 1];
    assert was[..n][..j] == was[..j] && was[..n][j..] == was[j..n];
  }

  /** One step of the sort: the value at `n` moves down to its place. */
  method InsertInPlace(a: array<nat>, n: nat)
    requires n < a.Length
    modifies a
    ensures a[..n + 1] == Insert(old(a[..n]), old(a[n])) && a[n + 1..] == old(a[n + 1..])
  {
    hide Insert, Shifted;
    var x := a[n];
    var j := n;
    ghost var was, s := a[..], a[..n];
    assert s == was[..n] && s[..n] == s && Insert(s, x) + s[n..] == Insert(s, x);
    assert Shifted(was, a[..], n, n) by { NotShifted(was, n); }
    while j > 0 && a[j - 1] > x
      invariant 0 <= j <= n && Shifted(was, a[..], j, n)
      invariant Insert(s, x) == Insert(s[..j], x) + s[j..]
    {
      ghost var now := a[..];
      ShiftDown(was, now, j, n);
      InsertDown(s, x, j);
      a[j] := a[j - 1];
      assert a[..] == now[j := now[j - 1]];
      j := j - 1;
    }
    ghost var now := a[..];
    if j > 0 { ShiftDown(was, now, j, n); }
    InsertHere(s, x, j);
    ShiftedFilled(was, now, j, n, x);
    a[j] := x;
    assert a[..] == now[j := x];
    assert a[..n + 1] == a[..][..n + 1] && a[n + 1..] == a[..][n + 1..];
  }

  lemma {:induction false} NotShifted(was: seq<nat>, n: nat)
    requires n < |was|
    ensures Shifted(was, was, n, n)
  {
  }

  method SortInPlace(a: array<nat>)
    modifies a
    ensures a[..] == Sort(old(a[..]))
  {
    ghost var v := a[..];
    assert Sort(v[..0]) == [];
    for n := 0 to a.Length
      invariant a[..n] == Sort(v[..n]) && a[n..] == v[n..]
    {
      assert v[..n + 1][..n] == v[..n] && a[n] == v[n];
      InsertInPlace(a, n);
      assert v[n..][1..] == v[n + 1..];
    }
    assert v[..a.Length] == v && a[..a.Length] == a[..];
  }

  lemma {:induction false} KthAt(v: seq<nat>, k: nat)
    requires k < |v|
    ensures |Sort(v)| == |v| && Kth(v, k) == Sort(v)[k]
  {
    SortSorts(v);
    hide Sort;
  }

  /** `median_u64`, which owns the vector it sorts. */
  method MedianU64(a: array<nat>) returns (m: nat)
    requires a.Length > 0
    modifies a
    ensures m == MedianOf(old(a[..]))
  {
    hide Sort, Kth;
    ghost var v := a[..];
    SortInPlace(a);
    var n := a.Length;
    KthAt(v, n / 2);
    if n % 2 == 1 {
      m := a[n / 2];
    } else {
      KthAt(v, n / 2 - 1);
      m := (a[n / 2 - 1] + a[n / 2]) / 2;
    }
  }
}
