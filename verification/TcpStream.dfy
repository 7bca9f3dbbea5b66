/** One direction of a TCP connection: 32-bit sequence numbers are unwrapped
    to 64-bit offsets, segments may arrive late, twice or overlapping, and the
    bytes are delivered in stream order. */
module TcpStream {
  import opened Bytes

  const TWO31: nat := 0x8000_0000
  const TWO32: nat := 0x1_0000_0000
  const TWO64: nat := 0x1_0000_0000_0000_0000

  /** Cap on buffered out-of-order bytes. */
  const MAX_PENDING: nat := 8 * 1024 * 1024

  type u32 = x: int | 0 <= x < 0x1_0000_0000
  type u64 = x: int | 0 <= x < 0x1_0000_0000_0000_0000

  datatype Segment = Segment(ts: int, seqNo: u32, payload: seq<byte>)

  /** The state of a `SeqStream`. */
  datatype Stream = Stream(
    started: bool,
    isn: u32,
    nextRel: nat,
    pending: map<nat, Chunk>,
    pendingBytes: int,
    overflow: bool)

  const NEW := Stream(false, 0, 0, map[], 0, false)

  // ---------------------------------------------------------------------
  // Sequence-number unwrapping
  // ---------------------------------------------------------------------

  function AbsDiff(a: nat, b: nat): nat {
    if a < b then b - a else a - b
  }

  /** `k << 32` on a 64-bit word. */
  function Shl32(k: u64): (w: u64)
    ensures w % TWO32 == 0 && w + TWO32 <= TWO64
  {
    (k % TWO32) * TWO32
  }

  /** The 64-bit offset congruent to `low` that lies nearest to `base`; a tie
      stays in the 2^32-byte window of `base`. */
  function Unwrap(low: u32, base: nat): nat {
    var b := base % TWO32;
    var window := base - b;
    if low > b + TWO31 && window > 0 then window - TWO32 + low
    else if low + TWO31 < b && window + TWO32 < TWO64 then window + TWO32 + low
    else window + low
  }

  /** Unwrapping is exact: whenever some natural offset congruent to `low`
      lies less than 2^31 away from `base`, that offset is the result; and the
      result is that close only then. */
  lemma {:induction false} UnwrapExact(low: u32, base: u64, m: u64)
    requires m % TWO32 == low
    ensures Unwrap(low, base) % TWO32 == low
    ensures AbsDiff(Unwrap(low, base), base) <= AbsDiff(m, base)
    ensures AbsDiff(m, base) < TWO31 ==> Unwrap(low, base) == m
  {
    var b, k, q := base % TWO32, base / TWO32, m / TWO32;
    assert base == k * TWO32 + b && m == q * TWO32 + low;
    var j := if low > b + TWO31 && k > 0 then k - 1
             else if low + TWO31 < b && k + 1 < TWO32 then k + 1 else k;
    assert Unwrap(low, base) == j * TWO32 + low;
    Congruent(j, low);
    NearestWindow(b, low, k, q, j);
  }

  lemma {:induction false} Congruent(j: nat, low: u32)
    ensures (j * TWO32 + low) % TWO32 == low
  {
  }

  lemma {:induction false} NearestWindow(b: u32, low: u32, k: nat, q: nat, j: nat)
    requires k < TWO32 && q < TWO32
    requires j == if low > b + TWO31 && k > 0 then k - 1
                  else if low + TWO31 < b && k + 1 < TWO32 then k + 1 else k
    ensures AbsDiff(j * TWO32 + low, k * TWO32 + b) <= AbsDiff(q * TWO32 + low, k * TWO32 + b)
    ensures AbsDiff(q * TWO32 + low, k * TWO32 + b) < TWO31 ==> j == q
  {
  }

  /** `(k << 32) | low` on a 64-bit word. */
  function Word(k: u64, low: u32): u64 {
    Shl32(k) + low
  }

  /** `cand` when it is strictly nearer to `base` than `best`. */
  function Closer(cand: u64, best: u64, base: u64): u64 {
    if AbsDiff(cand, base) < AbsDiff(best, base) then cand else best
  }

  /** Trying the window of `base` and its two neighbours, on wrapping 64-bit
      words, finds the unwrapped offset. */
  lemma {:induction false} CandidatesUnwrap(low: u32, base: u64)
    ensures var k := base / TWO32;
            Closer(Word((k + 1) % TWO64, low), Closer(Word((k - 1) % TWO64, low), Word(k, low), base), base)
            == Unwrap(low, base)
  {
    var k, b := base / TWO32, base % TWO32;
    assert base == k * TWO32 + b;
    NeighbourWords(k, low);
    NearestOfThree(k, b, low);
  }

  lemma {:induction false} NeighbourWords(k: nat, low: u32)
    requires k < TWO32
    ensures Word(k, low) == k * TWO32 + low
    ensures Word((k - 1) % TWO64, low) == if k > 0 then (k - 1) * TWO32 + low else TWO64 - TWO32 + low
    ensures Word((k + 1) % TWO64, low) == if k + 1 < TWO32 then (k + 1) * TWO32 + low else low
  {
  }

  lemma {:induction false} NearestOfThree(k: nat, b: u32, low: u32)
    requires k < TWO32
    ensures var base := k * TWO32 + b;
            var below := if k > 0 then (k - 1) * TWO32 + low else TWO64 - TWO32 + low;
            var above := if k + 1 < TWO32 then (k + 1) * TWO32 + low else low;
            Closer(above, Closer(below, k * TWO32 + low, base), base)
            == if low > b + TWO31 && k > 0 then below
               else if low + TWO31 < b && k + 1 < TWO32 then above else k * TWO32 + low
  {
  }

  // ---------------------------------------------------------------------
  // The reassembly buffer
  // ---------------------------------------------------------------------

  /** The least key, as `BTreeMap::first_key_value` finds it. */
  function MinKey(keys: set<nat>): (k: nat)
    requires keys != {}
    ensures k in keys && forall j | j in keys :: k <= j
  {
    var x :| x in keys;
    MinExists(keys, x);
    var k :| k in keys && forall j | j in keys :: k <= j;
    k
  }

  lemma {:induction false} MinExists(keys: set<nat>, x: nat)
    requires x in keys
    ensures exists k :: k in keys && forall j | j in keys :: k <= j
  {
    if y :| y in keys && y < x {
      MinExists(keys, y);
    }
  }

  /** Bytes held in a reassembly buffer. */
  ghost function Size(pending: map<nat, Chunk>): nat
    decreases |pending|
  {
    if pending == map[] then 0
    else
      var k := MinKey(pending.Keys);
      |pending[k].bytes| + Size(pending - {k})
  }

  lemma {:induction false} SizeRemove(pending: map<nat, Chunk>, k: nat)
    requires k in pending
    ensures Size(pending) == |pending[k].bytes| + Size(pending - {k})
    decreases |pending|
  {
    var j := MinKey(pending.Keys);
    if j != k {
      SizeRemove(pending - {j}, k);
      SizeRemove(pending - {k}, j);
      assert pending - {j} - {k} == pending - {k} - {j};
    }
  }

  /** Some buffered segment starts at or before the stream position. */
  predicate Reached(st: Stream) {
    st.pending != map[] && MinKey(st.pending.Keys) <= st.nextRel
  }

  /** Take the buffered segment `k` out; deliver what lies past the position. */
  function Pop(st: Stream, k: nat): (Stream, seq<Chunk>)
    requires k in st.pending && k <= st.nextRel
  {
    var c := st.pending[k];
    var end := k + |c.bytes|;
    var rest := st.(pending := st.pending - {k}, pendingBytes := st.pendingBytes - |c.bytes|);
    if end <= st.nextRel then (rest, [])
    else (rest.(nextRel := end), [Chunk(c.ts, c.bytes[st.nextRel - k..])])
  }

  /** Deliver every buffered segment the stream position reaches. */
  function Drained(st: Stream): (Stream, seq<Chunk>)
    decreases |st.pending|
  {
    if !Reached(st) then (st, [])
    else
      var popped := Pop(st, MinKey(st.pending.Keys));
      var more := Drained(popped.0);
      (more.0, popped.1 + more.1)
  }

  lemma {:induction false} DrainedPops(st: Stream, k: nat)
    requires k in st.pending && k <= st.nextRel
    requires forall j | j in st.pending :: k <= j
    ensures var (next, out) := Pop(st, k);
            Drained(st).0 == Drained(next).0 && Drained(st).1 == out + Drained(next).1
  {
    assert k == MinKey(st.pending.Keys);
  }

  lemma {:induction false} DrainedStops(st: Stream)
    requires forall j | j in st.pending :: st.nextRel < j
    ensures Drained(st) == (st, [])
  {
  }

  function AfterSyn(st: Stream, seqNo: u32): Stream {
    Stream(true, (seqNo + 1) % TWO32, 0, map[], 0, st.overflow)
  }

  /** A stream whose first byte was missed takes the first segment as its origin. */
  function Started(st: Stream, seqNo: u32): Stream {
    if st.started then st else st.(started := true, isn := seqNo)
  }

  function Rel(st: Stream, seqNo: u32): nat {
    Unwrap((seqNo - st.isn) % TWO32, st.nextRel)
  }

  function AfterData(st: Stream, seg: Segment): (Stream, seq<Chunk>) {
    if seg.payload == [] || st.overflow then (st, [])
    else
      var s := Started(st, seg.seqNo);
      var rel := Rel(s, seg.seqNo);
      var end := rel + |seg.payload|;
      if end <= s.nextRel then (s, [])
      else if rel <= s.nextRel then
        var (s', out) := Drained(s.(nextRel := end));
        (s', [Chunk(seg.ts, seg.payload[s.nextRel - rel..])] + out)
      else if s.pendingBytes + |seg.payload| > MAX_PENDING then
        (s.(overflow := true, pending := map[], pendingBytes := 0), [])
      else if rel in s.pending then (s, [])
      else
        (s.(pending := s.pending[rel := Chunk(seg.ts, seg.payload)],
            pendingBytes := s.pendingBytes + |seg.payload|), [])
  }

  // ---------------------------------------------------------------------
  // The mutable reassembler
  // ---------------------------------------------------------------------

  class SeqStream {
    var started: bool
    var isn: u32
    var nextRel: u64
    var pending: map<nat, Chunk>
    var pendingBytes: int
    var overflow: bool

    ghost function State(): Stream
      reads this
    {
      Stream(started, isn, nextRel, pending, pendingBytes, overflow)
    }

    constructor ()
      ensures State() == NEW
    {
      started, isn, nextRel, pending, pendingBytes, overflow := false, 0, 0, map[], 0, false;
    }

    /** SYN consumes one sequence number; the overflow mark survives it. */
    method OnSyn(seqNo: u32)
      modifies this
      ensures State() == AfterSyn(old(State()), seqNo)
    {
      isn := (seqNo + 1) % TWO32;
      started := true;
      nextRel := 0;
      pending := map[];
      pendingBytes := 0;
    }

    /** Try the window of the stream position and its two wrapping neighbours. */
    method RelOf(seqNo: u32) returns (best: u64)
      ensures best == Rel(State(), seqNo)
    {
      hide Unwrap, Word, AbsDiff;
      var low: u32 := (seqNo - isn) % TWO32;
      var k: u64 := nextRel / TWO32;
      best := Word(k, low);
      for i := 0 to 2
        invariant i == 0 ==> best == Word(k, low)
        invariant i == 1 ==> best == Closer(Word((k - 1) % TWO64, low), Word(k, low), nextRel)
        invariant i == 2 ==> best == Unwrap(low, nextRel)
      {
        var cand := Word(if i == 0 then (k - 1) % TWO64 else (k + 1) % TWO64, low);
        if AbsDiff(cand, nextRel) < AbsDiff(best, nextRel) {
          best := cand;
        }
        CandidatesUnwrap(low, nextRel);
      }
    }

    /** Offsets are 64-bit: the segment must end below 2^64. */
    method OnData(ts: int, seqNo: u32, payload: seq<byte>) returns (out: seq<Chunk>)
      requires Rel(Started(State(), seqNo), seqNo) + |payload| < TWO64
      requires forall k | k in pending :: k + |pending[k].bytes| < TWO64
      modifies this
      ensures (State(), out) == AfterData(old(State()), Segment(ts, seqNo, payload))
      ensures forall k | k in pending :: k + |pending[k].bytes| < TWO64
    {
      out := [];
      if payload == [] || overflow {
        return;
      }
      if !started {
        isn := seqNo;
        started := true;
      }
      var rel := RelOf(seqNo);
      var end := rel + |payload|;
      if end <= nextRel {
        return;
      }
      if rel <= nextRel {
        var skip := nextRel - rel;
        nextRel := end;
        var more := Drain();
        out := [Chunk(ts, payload[skip..])] + more;
      } else {
        if pendingBytes + |payload| > MAX_PENDING {
          overflow := true;
          pending := map[];
          pendingBytes := 0;
          return;
        }
        if rel !in pending {
          pendingBytes := pendingBytes + |payload|;
          pending := pending[rel := Chunk(ts, payload)];
        }
      }
    }

    method PopAt(rel: nat) returns (out: seq<Chunk>)
      requires rel in pending && rel <= nextRel
      requires forall k | k in pending :: k + |pending[k].bytes| < TWO64
      modifies this
      ensures (State(), out) == Pop(old(State()), rel)
      ensures pending == old(pending) - {rel}
    {
      var chunk := pending[rel];
      pending := pending - {rel};
      pendingBytes := pendingBytes - |chunk.bytes|;
      var end := rel + |chunk.bytes|;
      out := [];
      if end > nextRel {
        out := [Chunk(chunk.ts, chunk.bytes[nextRel - rel..])];
        nextRel := end;
      }
    }

    method Drain() returns (out: seq<Chunk>)
      requires forall k | k in pending :: k + |pending[k].bytes| < TWO64
      modifies this
      ensures (State(), out) == Drained(old(State()))
      ensures forall k | k in pending :: k + |pending[k].bytes| < TWO64
    {
      hide Drained, Pop;
      out := [];
      ghost var goal := Drained(State());
      while pending != map[]
        invariant forall k | k in pending :: k + |pending[k].bytes| < TWO64
        invariant Drained(State()).0 == goal.0
        invariant out + Drained(State()).1 == goal.1
        decreases |pending|
      {
        ghost var some :| some in pending.Keys;
        MinExists(pending.Keys, some);
        var rel :| rel in pending && forall j | j in pending :: rel <= j;
        if rel > nextRel {
          break;
        }
        DrainedPops(State(), rel);
        var part := PopAt(rel);
        out := out + part;
      }
      DrainedStops(State());
      assert out + [] == out;
    }
  }
}
