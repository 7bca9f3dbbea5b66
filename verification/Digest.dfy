/** Order-insensitive result digests: one per result set, and one over the result
    sets of a statement class. */
module Digest {
  import opened Bytes

  const WORD: nat := 0x1_0000_0000_0000_0000

  type u64 = x: nat | x < WORD witness 0

  /** A row as the digest sees it. */
  datatype Row = Row(hash: u64, bytes: nat)

  datatype RowState = RowState(sum: u64, xor: u64, rows: nat, bytes: nat)

  /** `wrapping_add`. */
  function Plus(a: u64, b: u64): u64 {
    (a + b) % WORD
  }

  /** Exclusive or, bit by bit. */
  function Xor(a: nat, b: nat): nat
    decreases a + b
  {
    if a == 0 then b
    else if b == 0 then a
    else 2 * Xor(a / 2, b / 2) + (a + b) % 2
  }

  lemma {:induction false} XorStep(a: nat, b: nat)
    ensures Xor(a, b) % 2 == (a + b) % 2 && Xor(a, b) / 2 == Xor(a / 2, b / 2)
  {
    XorCases(a, b);
    XorCases(a / 2, b / 2);
    hide Xor;
    if a != 0 && b != 0 {
      TwiceAndBit(Xor(a / 2, b / 2), (a + b) % 2);
    }
  }

  lemma {:induction false} XorCases(a: nat, b: nat)
    ensures Xor(a, b) == if a == 0 then b else if b == 0 then a else 2 * Xor(a / 2, b / 2) + (a + b) % 2
  {
  }

  lemma {:induction false} TwiceAndBit(y: nat, r: nat)
    requires r < 2
    ensures (2 * y + r) % 2 == r && (2 * y + r) / 2 == y
  {
  }

  lemma {:induction false} XorTwice(x: nat, a: nat, b: nat)
    ensures Xor(Xor(x, a), b) % 2 == (x + a + b) % 2
    ensures Xor(Xor(x, a), b) / 2 == Xor(Xor(x / 2, a / 2), b / 2)
  {
    hide Xor;
    XorStep(x, a);
    XorStep(Xor(x, a), b);
  }

  lemma {:induction false} XorCommutes(x: nat, a: nat, b: nat)
    ensures Xor(Xor(x, a), b) == Xor(Xor(x, b), a)
    decreases x + a + b
  {
    hide Xor;
    if x + a + b > 0 {
      XorCommutes(x / 2, a / 2, b / 2);
      XorTwice(x, a, b);
      XorTwice(x, b, a);
    }
  }

  lemma {:induction false} XorCancels(x: nat, a: nat, b: nat)
    requires Xor(x, a) == Xor(x, b)
    ensures a == b
    decreases x + a + b
  {
    hide Xor;
    if x + a + b > 0 {
      XorStep(x, a);
      XorStep(x, b);
      XorCancels(x / 2, a / 2, b / 2);
      SameParity(x, a, b);
    }
  }

  lemma {:induction false} SameParity(x: nat, a: nat, b: nat)
    requires (x + a) % 2 == (x + b) % 2
    ensures a % 2 == b % 2
  {
  }

  function Pow2(k: nat): nat {
    if k == 0 then 1 else 2 * Pow2(k - 1)
  }

  lemma {:induction false} XorFits(a: nat, b: nat, k: nat)
    requires a < Pow2(k) && b < Pow2(k)
    ensures Xor(a, b) < Pow2(k)
    decreases k
  {
    if k > 0 {
      XorFits(a / 2, b / 2, k - 1);
      XorStep(a, b);
    }
  }

  /** Exclusive or of two words. */
  function XorWord(a: u64, b: u64): u64 {
    WordFits(a, b);
    Xor(a, b)
  }

  lemma {:induction false} WordFits(a: u64, b: u64)
    ensures Xor(a, b) < WORD
  {
    assert Pow2(4) == 16 && Pow2(8) == 0x100 by { Pow2Adds(4, 4); }
    assert Pow2(16) == 0x1_0000 && Pow2(32) == 0x1_0000_0000 by {
      Pow2Adds(8, 8);
      Pow2Adds(16, 16);
    }
    assert Pow2(64) == WORD by { Pow2Adds(32, 32); }
    XorFits(a, b, 64);
  }

  lemma {:induction false} Pow2Adds(j: nat, k: nat)
    ensures Pow2(j + k) == Pow2(j) * Pow2(k)
    decreases k
  {
    if k > 0 {
      Pow2Adds(j, k - 1);
    }
  }

  lemma {:induction false} PlusIs(a: u64, b: u64)
    ensures Plus(a, b) == if a + b < WORD then a + b else a + b - WORD
  {
  }

  lemma {:induction false} PlusCommutes(x: u64, a: u64, b: u64)
    ensures Plus(Plus(x, a), b) == Plus(Plus(x, b), a)
  {
    PlusIs(x, a);
    PlusIs(x, b);
    PlusIs(Plus(x, a), b);
    PlusIs(Plus(x, b), a);
    hide Plus;
  }

  lemma {:induction false} WordsCommute(x: u64, a: u64, b: u64)
    ensures Plus(Plus(x, a), b) == Plus(Plus(x, b), a) && XorWord(XorWord(x, a), b) == XorWord(XorWord(x, b), a)
  {
    PlusCommutes(x, a, b);
    XorCommutes(x, a, b);
    hide Xor, Plus;
  }

  lemma {:induction false} WordsCancel(x: u64, a: u64, b: u64)
    requires Plus(x, a) == Plus(x, b) || XorWord(x, a) == XorWord(x, b)
    ensures a == b
  {
    PlusIs(x, a);
    PlusIs(x, b);
    if XorWord(x, a) == XorWord(x, b) { XorCancels(x, a, b); }
    hide Xor, Plus;
  }

  function AddRow(s: RowState, r: Row): RowState {
    RowState(Plus(s.sum, r.hash), XorWord(s.xor, r.hash), s.rows + 1, s.bytes + r.bytes)
  }

  /** The state behind these rows; the sum wraps at 64 bits. */
  function StateOf(rows: seq<Row>): RowState {
    if rows == [] then RowState(0, 0, 0, 0)
    else AddRow(StateOf(rows[..|rows| - 1]), rows[|rows| - 1])
  }

  lemma {:induction false} AddCommutes(s: RowState, a: Row, b: Row)
    ensures AddRow(AddRow(s, a), b) == AddRow(AddRow(s, b), a)
  {
    hide Plus, XorWord;
    WordsCommute(s.sum, a.hash, b.hash);
    WordsCommute(s.xor, a.hash, b.hash);
  }

  /** Any row may as well have come last. */
  lemma {:induction false} RowLast(rows: seq<Row>, i: nat)
    requires i < |rows|
    ensures StateOf(rows) == AddRow(StateOf(Removed(rows, i)), rows[i])
    decreases |rows|
  {
    var n := |rows| - 1;
    if i == n {
      assert Removed(rows, i) == rows[..n];
    } else {
      RowLast(rows[..n], i);
      RemovedLast(rows, i);
      var w := Removed(rows, i);
      assert StateOf(w) == AddRow(StateOf(Removed(rows[..n], i)), rows[n]);
      hide StateOf, AddRow, Removed;
      AddCommutes(StateOf(Removed(rows[..n], i)), rows[i], rows[n]);
      assert StateOf(rows) == AddRow(StateOf(rows[..n]), rows[n]) by { StateStep(rows); }
    }
  }

  lemma {:induction false} StateStep(rows: seq<Row>)
    requires rows != []
    ensures StateOf(rows) == AddRow(StateOf(rows[..|rows| - 1]), rows[|rows| - 1])
  {
  }

  /** The same rows in any order give the same state. */
  lemma {:induction false} RowOrderDoesNotMatter(a: seq<Row>, b: seq<Row>)
    requires multiset(a) == multiset(b)
    ensures StateOf(a) == StateOf(b)
    decreases |a|
  {
    assert |a| == |multiset(a)| && |b| == |multiset(b)|;
    if a != [] {
      var n := |a| - 1;
      assert a[n] in multiset(b);
      var i :| 0 <= i < |b| && b[i] == a[n];
      RemovedBag(b, i);
      assert a == a[..n] + [a[n]];
      RowOrderDoesNotMatter(a[..n], Removed(b, i));
      RowLast(b, i);
      StateStep(a);
      hide StateOf, AddRow, Removed;
    }
  }

  lemma {:induction false} HashTells(s: RowState, a: Row, b: Row)
    requires a.hash != b.hash
    ensures AddRow(s, a).xor != AddRow(s, b).xor && AddRow(s, a).sum != AddRow(s, b).sum
  {
    hide Plus, XorWord;
    if Plus(s.sum, a.hash) == Plus(s.sum, b.hash) { WordsCancel(s.sum, a.hash, b.hash); }
    if XorWord(s.xor, a.hash) == XorWord(s.xor, b.hash) { WordsCancel(s.xor, a.hash, b.hash); }
  }

  /** Changing the hash of exactly one row always changes both the sum and the xor. */
  lemma {:induction false} OneChangedRowShows(rows: seq<Row>, i: nat, r: Row)
    requires i < |rows| && r.hash != rows[i].hash
    ensures StateOf(rows[i := r]).sum != StateOf(rows).sum && StateOf(rows[i := r]).xor != StateOf(rows).xor
  {
    RowLast(rows, i);
    RowLast(rows[i := r], i);
    assert Removed(rows[i := r], i) == Removed(rows, i);
    HashTells(StateOf(Removed(rows, i)), rows[i], r);
    hide StateOf, AddRow, Removed;
  }

  // ---------------------------------------------------------------------
  // What is hashed
  // ---------------------------------------------------------------------

  /** The column names, each closed by a zero byte. */
  function NameBytes(columns: seq<seq<byte>>): seq<byte> {
    if columns == [] then [] else columns[0] + [0] + NameBytes(columns[1..])
  }

  lemma {:induction false} FirstNameEnds(a: seq<byte>, x: seq<byte>, b: seq<byte>, y: seq<byte>)
    requires 0 !in a && 0 !in b && a + [0] + x == b + [0] + y
    ensures a == b && x == y
  {
    var s, t := a + [0] + x, b + [0] + y;
    assert s[|a|] == 0 && t[|b|] == 0;
    assert forall i | 0 <= i < |a| :: s[i] == a[i] && a[i] in a;
    assert forall i | 0 <= i < |b| :: t[i] == b[i] && b[i] in b;
    assert |a| == |b|;
    assert s[..|a|] == a && t[..|b|] == b;
    assert s[|a| + 1..] == x && t[|b| + 1..] == y;
  }

  predicate NoZero(columns: seq<seq<byte>>) {
    forall i | 0 <= i < |columns| :: 0 !in columns[i]
  }

  lemma {:induction false} NamesAreHashedApart(a: seq<seq<byte>>, b: seq<seq<byte>>)
    requires NoZero(a) && NoZero(b) && NameBytes(a) == NameBytes(b)
    ensures a == b
    decreases |a|
  {
    if a != [] && b != [] {
      FirstNameEnds(a[0], NameBytes(a[1..]), b[0], NameBytes(b[1..]));
      NamesAreHashedApart(a[1..], b[1..]);
      assert a == [a[0]] + a[1..] && b == [b[0]] + b[1..];
    }
  }

  /** The pieces of a name between its zero bytes. */
  function Pieces(name: seq<byte>): (ps: seq<seq<byte>>)
    ensures ps != []
  {
    if name == [] then [[]]
    else
      var ps := Pieces(name[1..]);
      if name[0] == 0 then [[]] + ps else [[name[0]] + ps[0]] + ps[1..]
  }

  /** All names cut at their zero bytes. */
  function AllPieces(columns: seq<seq<byte>>): seq<seq<byte>> {
    if columns == [] then [] else Pieces(columns[0]) + AllPieces(columns[1..])
  }

  lemma {:induction false} NameBytesCons(name: seq<byte>, rest: seq<seq<byte>>)
    ensures NameBytes([name] + rest) == name + [0] + NameBytes(rest)
  {
    assert ([name] + rest)[1..] == rest;
  }

  lemma {:induction false} NameBytesAppend(a: seq<seq<byte>>, b: seq<seq<byte>>)
    ensures NameBytes(a + b) == NameBytes(a) + NameBytes(b)
    decreases |a|
  {
    hide NameBytes;
    if a == [] {
      assert a + b == b;
      NoNames();
      assert [] + NameBytes(b) == NameBytes(b);
    } else {
      assert a == [a[0]] + a[1..] && a + b == [a[0]] + (a[1..] + b);
      NameBytesCons(a[0], a[1..]);
      NameBytesCons(a[0], a[1..] + b);
      NameBytesAppend(a[1..], b);
      assert a[0] + [0] + (NameBytes(a[1..]) + NameBytes(b)) == (a[0] + [0] + NameBytes(a[1..])) + NameBytes(b);
    }
  }

  lemma {:induction false} NoNames()
    ensures NameBytes([]) == []
  {
  }

  /** The pieces have no zero byte, and are hashed as the name is. */
  lemma {:induction false} PiecesHash(name: seq<byte>)
    ensures NoZero(Pieces(name)) && NameBytes(Pieces(name)) == name + [0]
    ensures 0 !in name <==> Pieces(name) == [name]
    decreases |name|
  {
    if name == [] {
      NameBytesCons([], []);
      NoNames();
      assert Pieces(name) == [[]] + [];
    } else {
      var ps := Pieces(name[1..]);
      PiecesHash(name[1..]);
      assert name == [name[0]] + name[1..];
      assert ps == [ps[0]] + ps[1..];
      NameBytesCons(ps[0], ps[1..]);
      if name[0] == 0 {
        NameBytesCons([], ps);
        assert [] + [0] + NameBytes(ps) == [0] + NameBytes(ps);
        assert |Pieces(name)| == 1 + |ps|;
      } else {
        NameBytesCons([name[0]] + ps[0], ps[1..]);
        var x := NameBytes(ps[1..]);
        assert ([name[0]] + ps[0]) + [0] + x == [name[0]] + (ps[0] + [0] + x);
        assert [name[0]] + (name[1..] + [0]) == name + [0];
        if Pieces(name) == [name] {
          assert ps[1..] == [] && ([name[0]] + ps[0])[1..] == ps[0];
        }
      }
    }
    hide NameBytes;
  }

  lemma {:induction false} NoZeroAppend(a: seq<seq<byte>>, b: seq<seq<byte>>)
    ensures NoZero(a + b) <==> NoZero(a) && NoZero(b)
  {
    forall i | 0 <= i < |a| ensures (a + b)[i] == a[i] {}
    forall i | 0 <= i < |b| ensures (a + b)[|a| + i] == b[i] {}
    if NoZero(a + b) {
      forall i | 0 <= i < |a| ensures 0 !in a[i] { assert 0 !in (a + b)[i]; }
      forall i | 0 <= i < |b| ensures 0 !in b[i] { assert 0 !in (a + b)[|a| + i]; }
    }
  }

  lemma {:induction false} AllPiecesHash(columns: seq<seq<byte>>)
    ensures NoZero(AllPieces(columns)) && NameBytes(AllPieces(columns)) == NameBytes(columns)
    ensures NoZero(columns) <==> AllPieces(columns) == columns
    decreases |columns|
  {
    if columns != [] {
      var c, rest := columns[0], columns[1..];
      AllPiecesHash(rest);
      PiecesHash(c);
      NameBytesAppend(Pieces(c), AllPieces(rest));
      NoZeroAppend(Pieces(c), AllPieces(rest));
      assert columns == [c] + rest;
      NameBytesCons(c, rest);
      NoZeroAppend([c], rest);
    }
    hide NameBytes, Pieces;
  }

  /** Two lists of names are hashed alike if and only if cutting all names at
      their zero bytes makes them equal. */
  lemma {:induction false} HashedAlikeIff(a: seq<seq<byte>>, b: seq<seq<byte>>)
    ensures NameBytes(a) == NameBytes(b) <==> AllPieces(a) == AllPieces(b)
  {
    AllPiecesHash(a);
    AllPiecesHash(b);
    if NameBytes(a) == NameBytes(b) {
      NamesAreHashedApart(AllPieces(a), AllPieces(b));
    }
    hide NameBytes, AllPieces, NoZero;
  }

  /** Only lists without zero bytes are told from all other such lists. */
  lemma {:induction false} ToldApartIff(a: seq<seq<byte>>)
    ensures (forall b | NoZero(b) && NameBytes(b) == NameBytes(a) :: b == a) <==> NoZero(a)
  {
    AllPiecesHash(a);
    if NoZero(a) {
      forall b | NoZero(b) && NameBytes(b) == NameBytes(a) ensures b == a {
        NamesAreHashedApart(b, a);
      }
    }
    hide NameBytes, AllPieces, NoZero;
  }

  /** A list is told from all others exactly when it is a single name without
      zero bytes, or empty: two names can always be one with a zero byte in it. */
  lemma {:induction false} UniqueIff(a: seq<seq<byte>>)
    ensures (forall b | NameBytes(b) == NameBytes(a) :: b == a) <==> |AllPieces(a)| <= 1
  {
    AllPiecesHash(a);
    if |AllPieces(a)| <= 1 {
      forall b | NameBytes(b) == NameBytes(a) ensures b == a {
        HashedAlikeIff(a, b);
        FewPieces(a);
        FewPieces(b);
      }
    } else {
      var b, c := AllPieces(a), Merged(AllPieces(a));
      MergedHash(b);
      assert |c| < |b|;
    }
    hide NameBytes, AllPieces, NoZero, Merged;
  }

  /** The first two names as one. */
  function Merged(b: seq<seq<byte>>): (c: seq<seq<byte>>)
    requires |b| > 1
    ensures |c| == |b| - 1
  {
    [b[0] + [0] + b[1]] + b[2..]
  }

  lemma {:induction false} MergedHash(b: seq<seq<byte>>)
    requires |b| > 1
    ensures NameBytes(Merged(b)) == NameBytes(b)
  {
    hide NameBytes;
    assert b == [b[0]] + b[1..] && b[1..] == [b[1]] + b[2..];
    NameBytesCons(b[0], b[1..]);
    NameBytesCons(b[1], b[2..]);
    NameBytesCons(b[0] + [0] + b[1], b[2..]);
    var x := NameBytes(b[2..]);
    assert (b[0] + [0] + b[1]) + [0] + x == b[0] + [0] + (b[1] + [0] + x);
  }

  /** With at most one piece the list is its pieces. */
  lemma {:induction false} FewPieces(a: seq<seq<byte>>)
    requires |AllPieces(a)| <= 1
    ensures AllPieces(a) == a
  {
    if a != [] {
      var rest := AllPieces(a[1..]);
      assert |Pieces(a[0])| == 1 && rest == [];
      OnePiece(a[0]);
      NoPieces(a[1..]);
      assert a == [a[0]] + a[1..];
    }
  }

  lemma {:induction false} NoPieces(a: seq<seq<byte>>)
    requires AllPieces(a) == []
    ensures a == []
  {
  }

  lemma {:induction false} OnePiece(name: seq<byte>)
    requires |Pieces(name)| == 1
    ensures Pieces(name) == [name]
    decreases |name|
  {
    if name != [] && name[0] != 0 {
      OnePiece(name[1..]);
      assert name == [name[0]] + name[1..];
    }
  }

  /** Such a pair, differing in a zero byte. */
  lemma {:induction false} ZeroByteMergesNames()
    ensures NameBytes([[0x61, 0, 0x62]]) == NameBytes([[0x61], [0x62]])
  {
    hide NameBytes;
    var b := [[0x61 as byte], [0x62 as byte]];
    MergedHash(b);
    assert b[0] + [0] + b[1] == [0x61, 0, 0x62] && b[2..] == [];
    var none: seq<seq<byte>> := [];
    assert [[0x61, 0, 0x62]] + none == [[0x61, 0, 0x62]];
  }

  // ---------------------------------------------------------------------
  // One result set
  // ---------------------------------------------------------------------

  /** The hash of the digest input, of which nothing but determinism is used. */
  type Hash = (seq<byte>, u64, u64, nat) -> u64

  datatype ResultChecksum = ResultChecksum(digest: u64, rowCount: nat, bytesTotal: nat, columns: seq<seq<byte>>)

  function ChecksumOf(h: Hash, columns: seq<seq<byte>>, rows: seq<Row>): ResultChecksum {
    var s := StateOf(rows);
    ResultChecksum(h(NameBytes(columns), s.sum, s.xor, s.rows), s.rows, s.bytes, columns)
  }

  class ChecksumBuilder {
    var columns: seq<seq<byte>>
    var sum: u64
    var xor: u64
    var rows: nat
    var bytes: nat
    ghost var seen: seq<Row>

    ghost predicate Valid()
      reads this
    {
      RowState(sum, xor, rows, bytes) == StateOf(seen)
    }

    constructor ()
      ensures Valid() && seen == [] && columns == []
    {
      columns, sum, xor, rows, bytes, seen := [], 0, 0, 0, 0, [];
    }

    /** The first result set that has columns wins. */
    method SetColumns(names: seq<seq<byte>>)
      requires Valid()
      modifies `columns
      ensures Valid() && columns == if old(columns) == [] then names else old(columns)
    {
      if columns == [] {
        columns := names;
      }
    }

    method AddRow(h: u64, size: nat)
      requires Valid()
      modifies `sum, `xor, `rows, `bytes, `seen
      ensures Valid() && seen == old(seen) + [Row(h, size)]
    {
      hide Plus, XorWord, StateOf;
      sum := Plus(sum, h);
      xor := XorWord(xor, h);
      rows := rows + 1;
      bytes := bytes + size;
      ghost var r := Row(h, size);
      StateStep(seen + [r]);
      assert (seen + [r])[..|seen|] == seen;
      seen := seen + [r];
    }

    method Finish(hash: Hash) returns (c: ResultChecksum)
      requires Valid()
      ensures c == ChecksumOf(hash, columns, seen)
    {
      hide StateOf;
      c := ResultChecksum(hash(NameBytes(columns), sum, xor, rows), rows, bytes, columns);
    }
  }

  // ---------------------------------------------------------------------
  // All result sets of a statement class
  // ---------------------------------------------------------------------

  datatype Outcome = Off | NoResult | Set(cs: ResultChecksum)

  datatype Agg = Agg(
    events: nat, noResult: nat, rowsTotal: nat, sum: u64, xor: u64, columns: seq<seq<byte>>, shapeVaried: bool)

  function AddOutcome(a: Agg, o: Outcome): Agg {
    match o
    case Off => a
    case NoResult => a.(noResult := a.noResult + 1)
    case Set(cs) =>
      var b := a.(events := a.events + 1, rowsTotal := a.rowsTotal + cs.rowCount, sum := Plus(a.sum, cs.digest),
                  xor := XorWord(a.xor, cs.digest));
      if a.columns == [] && b.events == 1 then b.(columns := cs.columns)
      else if a.columns != cs.columns then b.(shapeVaried := true)
      else b
  }

  function AggOf(os: seq<Outcome>): Agg {
    if os == [] then Agg(0, 0, 0, 0, 0, [], false)
    else AddOutcome(AggOf(os[..|os| - 1]), os[|os| - 1])
  }

  /** The checksummed events among the outcomes. */
  function Sets(os: seq<Outcome>): seq<ResultChecksum> {
    if os == [] then []
    else
      var n := |os| - 1;
      Sets(os[..n]) + if os[n].Set? then [os[n].cs] else []
  }

  predicate ShapesDiffer(os: seq<Outcome>) {
    exists o, p | o in os && p in os :: o.Set? && p.Set? && o.cs.columns != p.cs.columns
  }

  lemma {:induction false} SetsAre(os: seq<Outcome>)
    ensures forall c :: c in Sets(os) <==> Set(c) in os
  {
    if os != [] {
      var n := |os| - 1;
      SetsAre(os[..n]);
      assert os == os[..n] + [os[n]];
    }
  }

  predicate Varied(s: seq<ResultChecksum>) {
    exists i | 0 <= i < |s| :: s[i].columns != s[0].columns
  }

  lemma {:induction false} VariedSnoc(s: seq<ResultChecksum>, c: ResultChecksum)
    ensures Varied(s + [c]) <==> s != [] && (Varied(s) || c.columns != s[0].columns)
  {
    var t := s + [c];
    if Varied(s) {
      var i :| 0 <= i < |s| && s[i].columns != s[0].columns;
      assert t[i].columns != t[0].columns;
    }
    if s != [] && c.columns != s[0].columns { assert t[|s|].columns != t[0].columns; }
  }

  /** The columns kept are those of the first checksummed event, and the shape
      varied when some later event had others. */
  lemma {:induction false} AggShape(os: seq<Outcome>)
    ensures var a, s := AggOf(os), Sets(os);
            && a.events == |s|
            && a.columns == (if s == [] then [] else s[0].columns)
            && (a.shapeVaried <==> Varied(s))
  {
    hide Plus, XorWord, Varied;
    NeverVaried();
    if os != [] {
      var n := |os| - 1;
      AggShape(os[..n]);
      if os[n].Set? {
        VariedSnoc(Sets(os[..n]), os[n].cs);
      } else {
        assert Sets(os) == Sets(os[..n]);
      }
    }
  }

  lemma {:induction false} NeverVaried()
    ensures !Varied([])
  {
  }

  /** The shape flag is set if and only if two checksummed events of the class had
      different column lists. */
  lemma {:induction false} ShapeVariedIff(os: seq<Outcome>)
    ensures AggOf(os).shapeVaried <==> ShapesDiffer(os)
  {
    AggShape(os);
    SetsAre(os);
    var s := Sets(os);
    hide AggOf, Sets;
    if AggOf(os).shapeVaried {
      var i :| 0 <= i < |s| && s[i].columns != s[0].columns;
      assert s[i] in s && s[0] in s;
      assert Set(s[i]) in os && Set(s[0]) in os;
    }
    if ShapesDiffer(os) {
      var o, p :| o in os && p in os && o.Set? && p.Set? && o.cs.columns != p.cs.columns;
      assert Set(o.cs) in os && Set(p.cs) in os;
      var i :| 0 <= i < |s| && s[i] == o.cs;
      var j :| 0 <= j < |s| && s[j] == p.cs;
      assert s[i].columns != s[0].columns || s[j].columns != s[0].columns;
    }
  }

  /** The part of the aggregate that goes into the report's digest and counters. */
  datatype Tally = Tally(events: nat, noResult: nat, rowsTotal: nat, sum: u64, xor: u64)

  function TallyOf(os: seq<Outcome>): Tally {
    var a := AggOf(os);
    Tally(a.events, a.noResult, a.rowsTotal, a.sum, a.xor)
  }

  function AddTally(t: Tally, o: Outcome): Tally {
    match o
    case Off => t
    case NoResult => t.(noResult := t.noResult + 1)
    case Set(cs) => Tally(t.events + 1, t.noResult, t.rowsTotal + cs.rowCount, Plus(t.sum, cs.digest),
                          XorWord(t.xor, cs.digest))
  }

  lemma {:induction false} TallyStep(os: seq<Outcome>)
    requires os != []
    ensures TallyOf(os) == AddTally(TallyOf(os[..|os| - 1]), os[|os| - 1])
  {
    hide Plus, XorWord;
  }

  lemma {:induction false} TallyCommutes(t: Tally, o: Outcome, p: Outcome)
    ensures AddTally(AddTally(t, o), p) == AddTally(AddTally(t, p), o)
  {
    hide Plus, XorWord;
    if o.Set? && p.Set? {
      WordsCommute(t.sum, o.cs.digest, p.cs.digest);
      WordsCommute(t.xor, o.cs.digest, p.cs.digest);
    }
  }

  lemma {:induction false} OutcomeLast(os: seq<Outcome>, i: nat)
    requires i < |os|
    ensures TallyOf(os) == AddTally(TallyOf(Removed(os, i)), os[i])
    decreases |os|
  {
    var n := |os| - 1;
    TallyStep(os);
    if i == n {
      assert Removed(os, i) == os[..n];
    } else {
      OutcomeLast(os[..n], i);
      RemovedLast(os, i);
      TallyStep(Removed(os, i));
      hide TallyOf, AddTally, Removed;
      TallyCommutes(TallyOf(Removed(os[..n], i)), os[i], os[n]);
    }
  }

  lemma {:induction false} TallyOrderDoesNotMatter(a: seq<Outcome>, b: seq<Outcome>)
    requires multiset(a) == multiset(b)
    ensures TallyOf(a) == TallyOf(b)
    decreases |a|
  {
    assert |a| == |multiset(a)| && |b| == |multiset(b)|;
    if a != [] {
      var n := |a| - 1;
      assert a[n] in multiset(b);
      var i :| 0 <= i < |b| && b[i] == a[n];
      RemovedBag(b, i);
      assert a == a[..n] + [a[n]];
      TallyOrderDoesNotMatter(a[..n], Removed(b, i));
      OutcomeLast(b, i);
      TallyStep(a);
      hide TallyOf, AddTally, Removed;
    } else {
      assert b == [];
    }
  }

  lemma {:induction false} SameMembers(a: seq<Outcome>, b: seq<Outcome>)
    requires multiset(a) == multiset(b)
    ensures forall o :: o in a <==> o in b
  {
    assert forall o :: o in a <==> o in multiset(a);
    assert forall o :: o in b <==> o in multiset(b);
  }

  /** However the sessions interleave, the class reports the same counters and
      digest and the same shape flag. */
  lemma {:induction false} InterleavingDoesNotMatter(a: seq<Outcome>, b: seq<Outcome>)
    requires multiset(a) == multiset(b)
    ensures TallyOf(a) == TallyOf(b) && AggOf(a).shapeVaried == AggOf(b).shapeVaried
  {
    TallyOrderDoesNotMatter(a, b);
    SameMembers(a, b);
    ShapeVariedIff(a);
    ShapeVariedIff(b);
    hide AggOf, TallyOf;
  }

  /** The column list a class reports is the same for every order of its events if
      and only if the shape did not vary. */
  lemma {:induction false} ColumnsDependOnOrderIff(a: seq<Outcome>)
    ensures (forall b | multiset(b) == multiset(a) :: AggOf(b).columns == AggOf(a).columns) <==> !AggOf(a).shapeVaried
  {
    hide AggOf;
    if AggOf(a).shapeVaried {
      ShapeVariedIff(a);
      OtherColumnsFirst(a);
    } else {
      forall b | multiset(b) == multiset(a) ensures AggOf(b).columns == AggOf(a).columns {
        SameColumns(a, b);
      }
    }
  }

  lemma {:induction false} SameColumns(a: seq<Outcome>, b: seq<Outcome>)
    requires multiset(b) == multiset(a) && !AggOf(a).shapeVaried
    ensures AggOf(b).columns == AggOf(a).columns
  {
    AggShape(a);
    AggShape(b);
    SetsAre(a);
    SetsAre(b);
    SameMembers(a, b);
    ShapeVariedIff(a);
    hide AggOf, Sets;
    var s, t := Sets(a), Sets(b);
    if s != [] { assert s[0] in s && Set(s[0]) in b && s[0] in t; }
    if t != [] { assert t[0] in t && Set(t[0]) in a && t[0] in s; }
  }

  /** Move a differing event to the front. */
  lemma {:induction false} OtherColumnsFirst(a: seq<Outcome>)
    requires ShapesDiffer(a)
    ensures exists b :: multiset(b) == multiset(a) && AggOf(b).columns != AggOf(a).columns
  {
    var o, p :| o in a && p in a && o.Set? && p.Set? && o.cs.columns != p.cs.columns;
    hide AggOf;
    var q := if AggOf(a).columns == o.cs.columns then p else o;
    var b := ToFront(a, q);
  }

  lemma {:induction false} ToFront(a: seq<Outcome>, q: Outcome) returns (b: seq<Outcome>)
    requires q in a && q.Set?
    ensures multiset(b) == multiset(a) && AggOf(b).columns == q.cs.columns
  {
    hide AggOf, Sets, Varied;
    var i :| 0 <= i < |a| && a[i] == q;
    b := [q] + Removed(a, i);
    RemovedBag(a, i);
    assert q in multiset(a);
    assert multiset(b) == multiset{q} + multiset(Removed(a, i));
    AggShape(b);
    FrontSet(q, Removed(a, i));
  }

  lemma {:induction false} FrontSet(q: Outcome, rest: seq<Outcome>)
    requires q.Set?
    ensures Sets([q] + rest) != [] && Sets([q] + rest)[0] == q.cs
    decreases |rest|
  {
    var os := [q] + rest;
    if rest == [] {
      assert os[..0] == [] && Sets([]) == [];
    } else {
      var n := |rest| - 1;
      assert os[..|os| - 1] == [q] + rest[..n];
      FrontSet(q, rest[..n]);
    }
  }

  class FpChecksumAgg {
    var events: nat
    var noResult: nat
    var rowsTotal: nat
    var sum: u64
    var xor: u64
    var columns: seq<seq<byte>>
    var shapeVaried: bool
    ghost var seen: seq<Outcome>

    ghost predicate Valid()
      reads this
    {
      Agg(events, noResult, rowsTotal, sum, xor, columns, shapeVaried) == AggOf(seen)
    }

    constructor ()
      ensures Valid() && seen == []
    {
      events, noResult, rowsTotal, sum, xor, columns, shapeVaried, seen := 0, 0, 0, 0, 0, [], false, [];
    }

    method Add(outcome: Outcome)
      requires Valid()
      modifies this
      ensures Valid() && seen == old(seen) + [outcome]
    {
      hide Plus, XorWord;
      match outcome {
        case Off =>
        case NoResult =>
          noResult := noResult + 1;
        case Set(cs) =>
          events := events + 1;
          rowsTotal := rowsTotal + cs.rowCount;
          sum := Plus(sum, cs.digest);
          xor := XorWord(xor, cs.digest);
          if columns == [] && events == 1 {
            columns := cs.columns;
          } else if columns != cs.columns {
            shapeVaried := true;
          }
      }
      assert (seen + [outcome])[..|seen|] == seen;
      seen := seen + [outcome];
    }
  }
}
