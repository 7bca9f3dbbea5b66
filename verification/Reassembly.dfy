/** What TCP reassembly guarantees over whole runs: the delivered bytes are
    always the true prefix of the stream, the buffer holds only true slices of
    what lies beyond it, and the stream position is the first byte not yet
    received, whatever the order, duplication and overlap of the segments. */
module Reassembly {
  import opened Bytes
  import opened TcpStream

  /** A segment the sender cut from its byte stream. */
  datatype Cut = Cut(ts: int, off: nat, len: nat)

  predicate FitsIn(c: Cut, s: seq<byte>) {
    c.off + c.len <= |s|
  }

  function SegmentOf(s: seq<byte>, isn: u32, c: Cut): Segment
    requires FitsIn(c, s)
  {
    Segment(c.ts, (isn + c.off) % TWO32, s[c.off..c.off + c.len])
  }

  /** `bytes` is what `s` holds at offset `off`. */
  predicate SliceAt(s: seq<byte>, off: nat, bytes: seq<byte>) {
    off + |bytes| <= |s| && bytes == s[off..off + |bytes|]
  }

  /** The buffer agrees with the true stream `s`: every entry is a nonempty
      slice of it strictly beyond the position, and the byte count is exact. */
  ghost predicate Consistent(s: seq<byte>, st: Stream) {
    && st.started
    && st.nextRel <= |s| < TWO64
    && (forall k | k in st.pending ::
          k > st.nextRel && st.pending[k].bytes != [] && SliceAt(s, k, st.pending[k].bytes))
    && st.pendingBytes == Size(st.pending) <= MAX_PENDING
  }

  predicate InCut(c: Cut, x: nat) {
    c.off <= x < c.off + c.len
  }

  ghost predicate Covered(cuts: seq<Cut>, x: nat) {
    exists i :: 0 <= i < |cuts| && InCut(cuts[i], x)
  }

  predicate InEntry(pending: map<nat, Chunk>, k: nat, x: nat) {
    k in pending && k <= x < k + |pending[k].bytes|
  }

  /** Byte `x` has been delivered or is buffered. */
  ghost predicate Held(st: Stream, x: nat) {
    x < st.nextRel || exists k :: InEntry(st.pending, k, x)
  }

  /** Going from `st` to `st'` delivered exactly the true bytes in between. */
  ghost predicate Delivers(s: seq<byte>, st: Stream, st': Stream, out: seq<Chunk>) {
    && st.nextRel <= st'.nextRel <= |s|
    && st'.isn == st.isn
    && Join(out) == s[st.nextRel..st'.nextRel]
  }

  ghost predicate SameHeld(st: Stream, st': Stream) {
    forall x: nat :: Held(st', x) <==> Held(st, x)
  }

  /** Every entry is an old one, or the cut `c` itself. */
  ghost predicate KeepsEntries(st: Stream, st': Stream, c: Cut) {
    forall k | k in st'.pending ::
      || (k in st.pending && st'.pending[k] == st.pending[k])
      || (k == c.off && |st'.pending[k].bytes| == c.len)
  }

  ghost predicate AddsExactly(st: Stream, st': Stream, c: Cut) {
    forall x: nat :: Held(st', x) <==> Held(st, x) || InCut(c, x)
  }

  /** Like `Consistent`, but some entries may already lie behind the position,
      as they do while draining. */
  ghost predicate Drainable(s: seq<byte>, st: Stream) {
    && st.started
    && st.nextRel <= |s| < TWO64
    && (forall k | k in st.pending :: st.pending[k].bytes != [] && SliceAt(s, k, st.pending[k].bytes))
    && st.pendingBytes == Size(st.pending) <= MAX_PENDING
  }

  lemma {:induction false} SliceSuffix(s: seq<byte>, k: nat, bytes: seq<byte>, at: nat)
    requires SliceAt(s, k, bytes) && k <= at <= k + |bytes|
    ensures bytes[at - k..] == s[at..k + |bytes|]
  {
  }

  lemma {:induction false} JoinCons(c: Chunk, out: seq<Chunk>)
    ensures Join([c] + out) == c.bytes + Join(out)
  {
    JoinAppend([c], out);
    assert [c][..0] == [];
    assert Join([c]) == Join([]) + c.bytes;
  }

  lemma {:induction false} EmptySums()
    ensures Join([]) == [] && Size(map[]) == 0
  {
  }

  lemma {:induction false} SliceSplit(s: seq<byte>, a: nat, b: nat, c: nat)
    requires a <= b <= c <= |s|
    ensures s[a..b] + s[b..c] == s[a..c]
  {
  }

  /** Popping a reached entry delivers a true slice and changes no byte's status. */
  lemma {:induction false} PopDelivers(s: seq<byte>, st: Stream, k: nat, c0: Cut)
    requires Drainable(s, st) && k in st.pending && k <= st.nextRel
    ensures var (next, out) := Pop(st, k);
            && Drainable(s, next) && next.overflow == st.overflow
            && Delivers(s, st, next, out) && SameHeld(st, next) && KeepsEntries(st, next, c0)
  {
    hide Join, Size;
    EmptySums();
    var c := st.pending[k];
    var (next, out) := Pop(st, k);
    SizeRemove(st.pending, k);
    SliceSuffix(s, k, c.bytes, if st.nextRel <= k + |c.bytes| then st.nextRel else k);
    JoinCons(Chunk(c.ts, if out == [] then [] else out[0].bytes), []);
    assert out != [] ==> out == [out[0]] + [];
    forall x: nat ensures Held(next, x) <==> Held(st, x) {
      assert forall j | j != k :: InEntry(st.pending, j, x) <==> InEntry(next.pending, j, x);
      assert !InEntry(next.pending, k, x);
      assert st.nextRel <= x < k + |c.bytes| ==> InEntry(st.pending, k, x);
    }
  }

  lemma {:induction false} DeliversTrans(s: seq<byte>, a: Stream, b: Stream, c: Stream, out: seq<Chunk>,
                                         more: seq<Chunk>)
    requires Delivers(s, a, b, out) && Delivers(s, b, c, more)
    ensures Delivers(s, a, c, out + more)
  {
    JoinAppend(out, more);
    SliceSplit(s, a.nextRel, b.nextRel, c.nextRel);
  }

  lemma {:induction false} DrainDelivers(s: seq<byte>, st: Stream, c0: Cut)
    requires Drainable(s, st)
    ensures var (st', out) := Drained(st);
            && Consistent(s, st') && st'.overflow == st.overflow
            && Delivers(s, st, st', out) && SameHeld(st, st') && KeepsEntries(st, st', c0)
    decreases |st.pending|
  {
    if Reached(st) {
      var k := MinKey(st.pending.Keys);
      var (next, out) := Pop(st, k);
      PopDelivers(s, st, k, c0);
      DrainDelivers(s, next, c0);
      DeliversTrans(s, st, next, Drained(next).0, out, Drained(next).1);
    } else {
      forall k | k in st.pending ensures k > st.nextRel {
        assert MinKey(st.pending.Keys) <= k;
      }
    }
  }

  // ---------------------------------------------------------------------
  // One segment
  // ---------------------------------------------------------------------

  /** The sender's numbering and the unwrapping are inverse while the segment
      lies within 2^31 of the position, across any number of wraps. */
  lemma {:induction false} RelOfCut(s: seq<byte>, st: Stream, c: Cut)
    requires FitsIn(c, s) && st.nextRel <= |s| < TWO64
    requires AbsDiff(c.off, st.nextRel) < TWO31
    ensures Rel(st, SegmentOf(s, st.isn, c).seqNo) == c.off
  {
    var off, isn := c.off, st.isn;
    assert ((isn + off) % TWO32 - isn) % TWO32 == off % TWO32 by {
      var w, q := (isn + off) / TWO32, off / TWO32;
      assert (isn + off) % TWO32 - isn == off % TWO32 + (q - w) * TWO32;
      ModShift(off % TWO32, q - w);
    }
    UnwrapExact(off % TWO32, st.nextRel, off);
  }

  lemma {:induction false} ModShift(r: u32, q: int)
    ensures (r + q * TWO32) % TWO32 == r
  {
  }

  /** A longer segment arriving at an occupied offset is dropped whole. */
  ghost predicate LosesTail(st: Stream, c: Cut) {
    && c.off > st.nextRel && c.off in st.pending
    && exists x :: c.off + |st.pending[c.off].bytes| <= x < c.off + c.len && !Held(st, x)
  }

  /** A segment reaching the position delivers its new part and drains. */
  lemma {:induction false} ReachingSegment(s: seq<byte>, st: Stream, c: Cut)
    requires Consistent(s, st) && FitsIn(c, s)
    requires c.off <= st.nextRel < c.off + c.len
    ensures var payload := s[c.off..c.off + c.len];
            var (st', out) := Drained(st.(nextRel := c.off + c.len));
            && Consistent(s, st') && st'.overflow == st.overflow
            && Delivers(s, st, st', [Chunk(c.ts, payload[st.nextRel - c.off..])] + out)
            && KeepsEntries(st, st', c) && AddsExactly(st, st', c)
  {
    var payload := s[c.off..c.off + c.len];
    var next := st.(nextRel := c.off + c.len);
    var head := Chunk(c.ts, payload[st.nextRel - c.off..]);
    assert Delivers(s, st, next, [head]) by {
      JoinCons(head, []);
      assert [head] == [head] + [];
      SliceSuffix(s, c.off, payload, st.nextRel);
    }
    DrainDelivers(s, next, c);
    DeliversTrans(s, st, next, Drained(next).0, [head], Drained(next).1);
    forall x: nat ensures Held(next, x) <==> Held(st, x) || InCut(c, x) {
      assert forall k :: InEntry(st.pending, k, x) <==> InEntry(next.pending, k, x);
    }
  }

  /** A segment past the position is stored under its offset. */
  lemma {:induction false} StoredSegment(s: seq<byte>, st: Stream, c: Cut)
    requires Consistent(s, st) && FitsIn(c, s)
    requires st.nextRel < c.off && c.off !in st.pending && c.len > 0
    requires st.pendingBytes + c.len <= MAX_PENDING
    ensures var st' := st.(pending := st.pending[c.off := Chunk(c.ts, s[c.off..c.off + c.len])],
                           pendingBytes := st.pendingBytes + c.len);
            Consistent(s, st') && KeepsEntries(st, st', c) && AddsExactly(st, st', c)
  {
    var st' := st.(pending := st.pending[c.off := Chunk(c.ts, s[c.off..c.off + c.len])],
                   pendingBytes := st.pendingBytes + c.len);
    SizeRemove(st'.pending, c.off);
    assert st'.pending - {c.off} == st.pending;
    forall x: nat ensures Held(st', x) <==> Held(st, x) || InCut(c, x) {
      assert forall k | k != c.off :: InEntry(st.pending, k, x) <==> InEntry(st'.pending, k, x);
      assert InEntry(st'.pending, c.off, x) <==> InCut(c, x);
      assert !InEntry(st.pending, c.off, x);
    }
  }

  /** One segment extends the delivered prefix by true bytes only. */
  lemma {:induction false} StepDelivers(s: seq<byte>, st: Stream, c: Cut)
    requires Consistent(s, st) && !st.overflow
    requires FitsIn(c, s) && AbsDiff(c.off, st.nextRel) < TWO31
    ensures var (st', out) := AfterData(st, SegmentOf(s, st.isn, c));
            Consistent(s, st') && Delivers(s, st, st', out) && KeepsEntries(st, st', c)
  {
    hide Drained, Join, Size;
    EmptySums();
    RelOfCut(s, st, c);
    if c.len > 0 && c.off + c.len > st.nextRel {
      if c.off <= st.nextRel {
        ReachingSegment(s, st, c);
      } else if st.pendingBytes + c.len <= MAX_PENDING && c.off !in st.pending {
        StoredSegment(s, st, c);
      }
    }
  }

  /** The segment has room in the buffer, or needs none. */
  predicate HasRoom(st: Stream, c: Cut) {
    c.off <= st.nextRel || st.pendingBytes + c.len <= MAX_PENDING
  }

  /** A segment without room is counted even when it is buffered already. */
  lemma {:induction false} OverflowsIff(s: seq<byte>, st: Stream, c: Cut)
    requires Consistent(s, st) && !st.overflow
    requires FitsIn(c, s) && AbsDiff(c.off, st.nextRel) < TWO31
    ensures var st' := AfterData(st, SegmentOf(s, st.isn, c)).0;
            && (st'.overflow <==> !HasRoom(st, c))
            && (st'.overflow ==> st'.pending == map[])
  {
    hide Drained, Size;
    RelOfCut(s, st, c);
    if c.len > 0 && c.off <= st.nextRel < c.off + c.len {
      ReachingSegment(s, st, c);
    }
  }

  /** One segment adds exactly its own bytes to those held, if and only if it
      has room and does not meet a shorter one stored at its offset. */
  lemma {:induction false} StepCoversIff(s: seq<byte>, st: Stream, c: Cut)
    requires Consistent(s, st) && !st.overflow
    requires FitsIn(c, s) && AbsDiff(c.off, st.nextRel) < TWO31
    ensures var st' := AfterData(st, SegmentOf(s, st.isn, c)).0;
            AddsExactly(st, st', c) <==> HasRoom(st, c) && !LosesTail(st, c)
  {
    hide Drained, Join, Size;
    RelOfCut(s, st, c);
    OverflowsIff(s, st, c);
    var st' := AfterData(st, SegmentOf(s, st.isn, c)).0;
    var end := c.off + c.len;
    if c.len == 0 || end <= st.nextRel {
      assert st' == st;
      assert forall x | InCut(c, x) :: Held(st, x);
    } else if c.off <= st.nextRel {
      ReachingSegment(s, st, c);
    } else if st'.overflow {
      assert InCut(c, c.off) && !Held(st', c.off);
    } else if c.off in st.pending {
      assert st' == st;
      assert forall x: nat | x < c.off + |st.pending[c.off].bytes| && InCut(c, x) :: InEntry(st.pending, c.off, x);
    } else {
      StoredSegment(s, st, c);
    }
  }

  /** Bytes carried by a list of segments. */
  function Total(cuts: seq<Cut>): nat {
    if cuts == [] then 0 else cuts[0].len + Total(cuts[1..])
  }

  lemma {:induction false} SizeSubmap(a: map<nat, Chunk>, b: map<nat, Chunk>)
    requires forall k | k in a :: k in b && a[k] == b[k]
    ensures Size(a) <= Size(b)
    decreases |a|
  {
    if a != map[] {
      var k := MinKey(a.Keys);
      SizeRemove(b, k);
      SizeSubmap(a - {k}, b - {k});
    }
  }

  /** A segment adds at most its own length to the buffered bytes. */
  lemma {:induction false} StepBuffers(s: seq<byte>, st: Stream, c: Cut)
    requires Consistent(s, st) && !st.overflow && FitsIn(c, s)
    requires AbsDiff(c.off, st.nextRel) < TWO31 && st.pendingBytes + c.len <= MAX_PENDING
    ensures var st' := AfterData(st, SegmentOf(s, st.isn, c)).0;
            !st'.overflow && st'.pendingBytes <= st.pendingBytes + c.len
  {
    hide Drained, Join, Size;
    RelOfCut(s, st, c);
    if c.len > 0 && c.off <= st.nextRel < c.off + c.len {
      var next := st.(nextRel := c.off + c.len);
      DrainDelivers(s, next, Cut(0, |s|, 0));
      SizeSubmap(Drained(next).0.pending, st.pending);
    }
  }

  // ---------------------------------------------------------------------
  // Whole runs
  // ---------------------------------------------------------------------

  ghost function Run(s: seq<byte>, st: Stream, cuts: seq<Cut>): (Stream, seq<Chunk>)
    requires forall c | c in cuts :: FitsIn(c, s)
    decreases |cuts|
  {
    if cuts == [] then (st, [])
    else
      var (st1, out1) := AfterData(st, SegmentOf(s, st.isn, cuts[0]));
      var (st2, out2) := Run(s, st1, cuts[1..]);
      (st2, out1 + out2)
  }

  /** Every segment lies within 2^31 bytes of the position it meets. */
  ghost predicate AllNear(s: seq<byte>, st: Stream, cuts: seq<Cut>)
    requires forall c | c in cuts :: FitsIn(c, s)
    decreases |cuts|
  {
    cuts != [] && !st.overflow ==>
      && AbsDiff(cuts[0].off, st.nextRel) < TWO31
      && AllNear(s, AfterData(st, SegmentOf(s, st.isn, cuts[0])).0, cuts[1..])
  }

  /** On a stream shorter than 2^31 bytes every segment is near. */
  lemma {:induction false} ShortStreamIsNear(s: seq<byte>, st: Stream, cuts: seq<Cut>)
    requires forall c | c in cuts :: FitsIn(c, s)
    requires Consistent(s, st) && |s| < TWO31
    ensures AllNear(s, st, cuts)
    decreases |cuts|
  {
    if cuts != [] && !st.overflow {
      StepDelivers(s, st, cuts[0]);
      ShortStreamIsNear(s, AfterData(st, SegmentOf(s, st.isn, cuts[0])).0, cuts[1..]);
    }
  }

  lemma {:induction false} OverflowIsFinal(s: seq<byte>, st: Stream, cuts: seq<Cut>)
    requires forall c | c in cuts :: FitsIn(c, s)
    requires st.overflow
    ensures Run(s, st, cuts).0 == st && Run(s, st, cuts).1 == []
    decreases |cuts|
  {
    if cuts != [] {
      OverflowIsFinal(s, st, cuts[1..]);
    }
  }

  /** Reassembly refines the true stream: whatever the order, duplication and
      overlap of the segments, exactly the bytes of the prefix come out. */
  lemma {:induction false} RunDelivers(s: seq<byte>, st: Stream, cuts: seq<Cut>)
    requires forall c | c in cuts :: FitsIn(c, s)
    requires Consistent(s, st) && AllNear(s, st, cuts)
    ensures var (st', out) := Run(s, st, cuts);
            Consistent(s, st') && Delivers(s, st, st', out)
    decreases |cuts|
  {
    if st.overflow {
      OverflowIsFinal(s, st, cuts);
    } else if cuts != [] {
      StepDelivers(s, st, cuts[0]);
      var (st1, out1) := AfterData(st, SegmentOf(s, st.isn, cuts[0]));
      RunDelivers(s, st1, cuts[1..]);
      DeliversTrans(s, st, st1, Run(s, st1, cuts[1..]).0, out1, Run(s, st1, cuts[1..]).1);
    }
  }

  /** Segments at one offset all have one length, the stored one included. */
  ghost predicate LengthsAgree(pending: map<nat, Chunk>, cuts: seq<Cut>) {
    && (forall i, j | 0 <= i < |cuts| && 0 <= j < |cuts| :: cuts[i].off == cuts[j].off ==> cuts[i].len == cuts[j].len)
    && (forall i | 0 <= i < |cuts| :: cuts[i].off in pending ==> |pending[cuts[i].off].bytes| == cuts[i].len)
  }

  lemma {:induction false} CoveredCons(cuts: seq<Cut>, x: nat)
    requires cuts != []
    ensures Covered(cuts, x) <==> InCut(cuts[0], x) || Covered(cuts[1..], x)
  {
    if Covered(cuts, x) && !InCut(cuts[0], x) {
      var i :| 0 <= i < |cuts| && InCut(cuts[i], x);
      assert InCut(cuts[1..][i - 1], x);
    }
    if Covered(cuts[1..], x) {
      var i :| 0 <= i < |cuts[1..]| && InCut(cuts[1..][i], x);
      assert InCut(cuts[i + 1], x);
    }
  }

  /** Nothing is lost: a byte is delivered or buffered exactly when it was
      held before or some segment carried it. */
  lemma {:induction false} RunHolds(s: seq<byte>, st: Stream, cuts: seq<Cut>, x: nat)
    requires forall c | c in cuts :: FitsIn(c, s)
    requires Consistent(s, st) && AllNear(s, st, cuts)
    requires LengthsAgree(st.pending, cuts)
    requires !Run(s, st, cuts).0.overflow
    ensures Held(Run(s, st, cuts).0, x) <==> Held(st, x) || Covered(cuts, x)
    decreases |cuts|
  {
    if st.overflow {
      OverflowIsFinal(s, st, cuts);
    } else if cuts != [] {
      var c, rest := cuts[0], cuts[1..];
      StepDelivers(s, st, c);
      var st1 := AfterData(st, SegmentOf(s, st.isn, c)).0;
      if st1.overflow {
        OverflowIsFinal(s, st1, rest);
      } else {
        assert !LosesTail(st, c);
        OverflowsIff(s, st, c);
        StepCoversIff(s, st, c);
        RunHolds(s, st1, rest, x);
        CoveredCons(cuts, x);
      }
    }
  }

  /** A fresh stream on which a SYN fixed the initial sequence number. */
  function Opened(isn: u32): Stream {
    Stream(true, isn, 0, map[], 0, false)
  }

  /** The position is exactly the first byte no segment carried. */
  lemma {:induction false} PositionIsFirstMissing(s: seq<byte>, isn: u32, cuts: seq<Cut>)
    requires |s| < TWO64
    requires forall c | c in cuts :: FitsIn(c, s)
    requires AllNear(s, Opened(isn), cuts) && LengthsAgree(map[], cuts)
    requires !Run(s, Opened(isn), cuts).0.overflow
    ensures var (st, out) := Run(s, Opened(isn), cuts);
            && !Covered(cuts, st.nextRel)
            && (forall x | 0 <= x < st.nextRel :: Covered(cuts, x))
            && st.nextRel <= |s| && Join(out) == s[..st.nextRel]
  {
    var (st, out) := Run(s, Opened(isn), cuts);
    RunDelivers(s, Opened(isn), cuts);
    RunHolds(s, Opened(isn), cuts, st.nextRel);
    assert forall k :: !InEntry(st.pending, k, st.nextRel);
    forall x | 0 <= x < st.nextRel ensures Covered(cuts, x) {
      RunHolds(s, Opened(isn), cuts, x);
      assert forall k :: !InEntry(Opened(isn).pending, k, x);
    }
  }

  /** The result depends only on which bytes arrived, not on how the segments
      were ordered, repeated or cut. */
  lemma {:induction false} OrderDoesNotMatter(s: seq<byte>, isn: u32, a: seq<Cut>, b: seq<Cut>)
    requires |s| < TWO64
    requires (forall c | c in a :: FitsIn(c, s)) && (forall c | c in b :: FitsIn(c, s))
    requires AllNear(s, Opened(isn), a) && LengthsAgree(map[], a)
    requires AllNear(s, Opened(isn), b) && LengthsAgree(map[], b)
    requires !Run(s, Opened(isn), a).0.overflow && !Run(s, Opened(isn), b).0.overflow
    requires forall x :: Covered(a, x) <==> Covered(b, x)
    ensures Run(s, Opened(isn), a).0.nextRel == Run(s, Opened(isn), b).0.nextRel
    ensures Join(Run(s, Opened(isn), a).1) == Join(Run(s, Opened(isn), b).1)
  {
    PositionIsFirstMissing(s, isn, a);
    PositionIsFirstMissing(s, isn, b);
  }

  /** A stream within the buffer cap never overflows the buffer. */
  lemma {:induction false} NoOverflow(s: seq<byte>, st: Stream, cuts: seq<Cut>)
    requires forall c | c in cuts :: FitsIn(c, s)
    requires Consistent(s, st) && !st.overflow && |s| < TWO31
    requires st.pendingBytes + Total(cuts) <= MAX_PENDING
    ensures !Run(s, st, cuts).0.overflow
    decreases |cuts|
  {
    if cuts != [] {
      StepDelivers(s, st, cuts[0]);
      StepBuffers(s, st, cuts[0]);
      NoOverflow(s, AfterData(st, SegmentOf(s, st.isn, cuts[0])).0, cuts[1..]);
    }
  }

  lemma {:induction false} RunSkips(s: seq<byte>, st: Stream, c0: Cut, c1: Cut, c2: Cut)
    requires FitsIn(c0, s) && FitsIn(c1, s) && FitsIn(c2, s)
    requires var st1 := AfterData(st, SegmentOf(s, st.isn, c0)).0;
             AfterData(st1, SegmentOf(s, st1.isn, c1)).0 == st1
    ensures Run(s, st, [c0, c1, c2]).0 == Run(s, st, [c0, c2]).0
  {
    hide AfterData;
    assert [c0, c1, c2][1..] == [c1, c2] && [c1, c2][1..] == [c2] && [c0, c2][1..] == [c2];
    var st1 := AfterData(st, SegmentOf(s, st.isn, c0)).0;
    assert Run(s, st1, [c1, c2]).0 == Run(s, st1, [c2]).0;
  }

  /** A longer segment at an occupied offset leaves the stream as it was. */
  lemma {:induction false} LongerIsDropped(s: seq<byte>, off: nat, short: nat, long: nat)
    requires 0 < off && 0 < short < long && off + long <= |s| < TWO31 && off + short + long <= MAX_PENDING
    ensures var st1 := AfterData(Opened(0), SegmentOf(s, 0, Cut(0, off, short))).0;
            st1.isn == 0 && AfterData(st1, SegmentOf(s, 0, Cut(0, off, long))).0 == st1
  {
    hide Drained, Join, Size;
    RelOfCut(s, Opened(0), Cut(0, off, short));
    var st1 := Opened(0).(pending := map[off := Chunk(0, s[off..off + short])], pendingBytes := short);
    assert AfterData(Opened(0), SegmentOf(s, 0, Cut(0, off, short))).0 == st1;
    RelOfCut(s, st1, Cut(0, off, long));
  }

  /** Without the equal-length hypothesis a received byte can stay missing: a
      segment longer than the one stored at its offset is dropped, and the
      position stops at the end of the shorter one. */
  lemma {:induction false} LongerSegmentIsLost(s: seq<byte>, off: nat, short: nat, long: nat)
    requires 0 < off && 0 < short < long && off + long <= |s| < TWO31 && off + short + long <= MAX_PENDING
    ensures var cuts := [Cut(0, off, short), Cut(0, off, long), Cut(0, 0, off)];
            && Covered(cuts, off + short) && AllNear(s, Opened(0), cuts)
            && Run(s, Opened(0), cuts).0.nextRel == off + short
  {
    hide AfterData, AllNear, Run, Size, Join;
    var c0, c1, c2, st := Cut(0, off, short), Cut(0, off, long), Cut(0, 0, off), Opened(0);
    var cuts := [c0, c2];
    EmptySums();
    assert Covered([c0, c1, c2], off + short) by { assert InCut([c0, c1, c2][1], off + short); }
    ShortStreamIsNear(s, st, [c0, c1, c2]);
    LongerIsDropped(s, off, short, long);
    RunSkips(s, st, c0, c1, c2);
    assert Total(cuts) == short + off by {
      assert cuts[1..] == [c2] && [c2][1..] == [];
      assert Total([c2]) == off;
    }
    ShortStreamIsNear(s, st, cuts);
    NoOverflow(s, st, cuts);
    PositionIsFirstMissing(s, 0, cuts);
    CoveredTwo(c0, c2);
    var edge: nat := off + short;
    assert !Covered(cuts, edge);
  }

  lemma {:induction false} CoveredTwo(a: Cut, b: Cut)
    ensures forall x: nat :: Covered([a, b], x) <==> InCut(a, x) || InCut(b, x)
  {
    forall x: nat ensures Covered([a, b], x) <==> InCut(a, x) || InCut(b, x) {
      assert InCut([a, b][0], x) <==> InCut(a, x);
      assert InCut([a, b][1], x) <==> InCut(b, x);
    }
  }

  /** A stretch of the stream that arrives whole, in segments that reach no
      further: the position moves to its end, and nothing stays buffered. */
  ghost predicate Arrives(s: seq<byte>, st: Stream, cuts: seq<Cut>, end: nat) {
    && Consistent(s, st) && st.pending == map[] && !st.overflow
    && st.nextRel <= end <= |s|
    && (forall c | c in cuts :: FitsIn(c, s) && c.off + c.len <= end)
    && AllNear(s, st, cuts) && LengthsAgree(map[], cuts) && !Run(s, st, cuts).0.overflow
    && (forall x: nat | st.nextRel <= x < end :: Covered(cuts, x))
  }

  lemma {:induction false} ArrivedHolds(s: seq<byte>, st: Stream, cuts: seq<Cut>, end: nat, x: nat)
    requires Arrives(s, st, cuts, end)
    ensures Held(Run(s, st, cuts).0, x) <==> x < end
  {
    hide Run, AllNear, Size;
    RunHolds(s, st, cuts, x);
    assert Held(st, x) <==> x < st.nextRel;
    if Covered(cuts, x) {
      var i :| 0 <= i < |cuts| && InCut(cuts[i], x);
      assert cuts[i] in cuts;
    }
  }

  lemma {:induction false} HeldToTheEnd(s: seq<byte>, st: Stream, end: nat)
    requires Consistent(s, st) && forall x: nat :: Held(st, x) <==> x < end
    ensures st.nextRel == end && st.pending == map[]
  {
    assert !Held(st, end);
    assert forall k :: !InEntry(st.pending, k, st.nextRel);
    assert !Held(st, st.nextRel);
    forall k | k in st.pending ensures Held(st, k) {
      assert InEntry(st.pending, k, k);
    }
  }

  lemma {:induction false} ArrivedIs(s: seq<byte>, st: Stream, cuts: seq<Cut>, end: nat)
    requires Arrives(s, st, cuts, end)
    ensures Run(s, st, cuts).0 == st.(nextRel := end) && Join(Run(s, st, cuts).1) == s[st.nextRel..end]
  {
    RunDelivers(s, st, cuts);
    forall x: nat ensures Held(Run(s, st, cuts).0, x) <==> x < end {
      ArrivedHolds(s, st, cuts, end, x);
    }
    HeldToTheEnd(s, Run(s, st, cuts).0, end);
    EmptySums();
    hide Run, AllNear, Size, Held;
  }

  /** No chunk is delivered empty. */
  predicate NoneEmpty(out: seq<Chunk>) {
    forall c | c in out :: c.bytes != []
  }

  lemma {:induction false} DrainedNoneEmpty(st: Stream)
    ensures NoneEmpty(Drained(st).1)
    decreases |st.pending|
  {
    if Reached(st) {
      var k := MinKey(st.pending.Keys);
      DrainedNoneEmpty(Pop(st, k).0);
    }
  }

  lemma {:induction false} RunNoneEmpty(s: seq<byte>, st: Stream, cuts: seq<Cut>)
    requires forall c | c in cuts :: FitsIn(c, s)
    ensures NoneEmpty(Run(s, st, cuts).1)
    decreases |cuts|
  {
    if cuts != [] {
      var seg := SegmentOf(s, st.isn, cuts[0]);
      StepNoneEmpty(st, seg);
      RunNoneEmpty(s, AfterData(st, seg).0, cuts[1..]);
    }
    hide AfterData, SegmentOf;
  }

  lemma {:induction false} StepNoneEmpty(st: Stream, seg: Segment)
    ensures NoneEmpty(AfterData(st, seg).1)
  {
    hide Drained, Rel;
    if seg.payload != [] {
      var s1 := Started(st, seg.seqNo);
      DrainedNoneEmpty(s1.(nextRel := Rel(s1, seg.seqNo) + |seg.payload|));
    }
  }

  // ---------------------------------------------------------------------
  // A SYN in mid-stream
  // ---------------------------------------------------------------------

  /** A repeated SYN does nothing exactly while nothing has arrived. */
  lemma {:induction false} SynHarmlessIff(s: seq<byte>, st: Stream, seqNo: u32)
    requires Consistent(s, st)
    ensures AfterSyn(st, seqNo) == st
       <==> st.isn == (seqNo + 1) % TWO32 && st.nextRel == 0 && st.pending == map[]
  {
    EmptySums();
  }

  /** Otherwise the SYN repeated makes bytes come out again: a retransmission of
      what was delivered already delivers nothing without it, and all of itself
      behind it. */
  lemma {:induction false} SynReplaysTheStream(s: seq<byte>, st: Stream, seqNo: u32, c: Cut)
    requires Consistent(s, st) && !st.overflow && (seqNo + 1) % TWO32 == st.isn
    requires FitsIn(c, s) && c.off == 0 < c.len <= st.nextRel < TWO31
    ensures AfterData(st, SegmentOf(s, st.isn, c)) == (st, [])
    ensures var (st', out) := AfterData(AfterSyn(st, seqNo), SegmentOf(s, st.isn, c));
            st'.nextRel == c.len && Join(out) == s[..c.len]
  {
    hide Size, Join;
    EmptySums();
    var st1 := AfterSyn(st, seqNo);
    RelOfCut(s, st, c);
    RelOfCut(s, st1, c);
    StepDelivers(s, st1, c);
    var next := st1.(nextRel := c.len);
    assert !Reached(next);
  }

  lemma {:induction false} StepPastDeliversNothing(s: seq<byte>, st: Stream, c: Cut)
    requires Consistent(s, st) && st.nextRel == 0 && FitsIn(c, s) && 0 < c.off < TWO31
    ensures var (st', out) := AfterData(st, SegmentOf(s, st.isn, c));
            out == [] && st'.nextRel == 0 && st'.isn == st.isn
  {
    RelOfCut(s, st, c);
  }

  /** And once byte 0 is past it stays past: whatever the sender goes on to send
      from there, nothing more is delivered. */
  lemma {:induction false} NothingPastDelivers(s: seq<byte>, st: Stream, cuts: seq<Cut>)
    requires forall c | c in cuts :: FitsIn(c, s) && c.off > 0
    requires Consistent(s, st) && st.nextRel == 0 && AllNear(s, st, cuts)
    ensures Run(s, st, cuts).1 == [] && Run(s, st, cuts).0.nextRel == 0
    decreases |cuts|
  {
    hide AfterData, Size;
    if st.overflow {
      OverflowIsFinal(s, st, cuts);
    } else if cuts != [] {
      StepDelivers(s, st, cuts[0]);
      StepPastDeliversNothing(s, st, cuts[0]);
      NothingPastDelivers(s, AfterData(st, SegmentOf(s, st.isn, cuts[0])).0, cuts[1..]);
    }
  }

  /** After a SYN repeated at position `p`, the segments cut from `p` on, which
      would have gone on with the stream, deliver nothing. */
  lemma {:induction false} SynStopsTheStream(s: seq<byte>, st: Stream, seqNo: u32, cuts: seq<Cut>)
    requires Consistent(s, st) && st.nextRel > 0
    requires forall c | c in cuts :: FitsIn(c, s) && c.off >= st.nextRel
    requires AllNear(s, AfterSyn(st, seqNo), cuts)
    ensures Run(s, AfterSyn(st, seqNo), cuts).1 == []
  {
    EmptySums();
    NothingPastDelivers(s, AfterSyn(st, seqNo), cuts);
  }
}
