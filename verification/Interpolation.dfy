/** Filling the placeholders of a prepared statement: which `?` are
    placeholders, and what the filled-in text is. */
module Interpolation {
  import opened Bytes
  import opened Utf8
  import opened Fingerprints

  // ---------------------------------------------------------------------
  // The parts of the text
  // ---------------------------------------------------------------------

  datatype Part = Quotes | LineComment | BlockComment | Hole | Plain

  /** From inside a backtick identifier to just past its end, byte by byte. */
  function InTicks(r: seq<byte>): (n: nat)
    ensures n <= |r| && (n < |r| ==> n > 0 && r[n - 1] == TICK)
  {
    if r == [] then 0
    else if r[0] == TICK then if |r| > 1 && r[1] == TICK then 2 + InTicks(r[2..]) else 1
    else 1 + InTicks(r[1..])
  }

  function Conts(r: seq<byte>): (n: nat)
    ensures n <= |r| && (n < |r| ==> !IsCont(r[n]))
    ensures forall i | 0 <= i < n :: IsCont(r[i])
  {
    if r == [] || !IsCont(r[0]) then 0 else 1 + Conts(r[1..])
  }

  function PartOf(r: seq<byte>): Part
    requires r != []
  {
    if r[0] == QUOTE || r[0] == DQUOTE || r[0] == TICK then Quotes
    else if r[0] == MINUS && |r| > 1 && r[1] == MINUS && (|r| <= 2 || IsWs(r[2])) then LineComment
    else if r[0] == HASH then LineComment
    else if r[0] == SLASH && |r| > 1 && r[1] == STAR then BlockComment
    else if r[0] == MARK then Hole
    else Plain
  }

  function PartWidth(r: seq<byte>): (n: nat)
    requires r != []
    ensures 0 < n <= |r|
  {
    match PartOf(r)
    case Quotes => 1 + if r[0] == TICK then InTicks(r[1..]) else InString(r[1..], r[0])
    case LineComment => InLine(r)
    case BlockComment => 2 + InBlock(r[2..])
    case Hole => 1
    case Plain => 1 + Conts(r[1..])
  }

  /** The number of placeholders. */
  function Holes(r: seq<byte>): nat
    decreases |r|
  {
    if r == [] then 0
    else Holes(r[PartWidth(r)..]) + if PartOf(r) == Hole then 1 else 0
  }

  /** The text with its placeholders replaced in order, as long as there are values. */
  function Image(r: seq<byte>, vals: seq<seq<byte>>): seq<byte>
    decreases |r|
  {
    if r == [] then []
    else if PartOf(r) == Hole && vals != [] then vals[0] + Image(r[1..], vals[1..])
    else r[..PartWidth(r)] + Image(r[PartWidth(r)..], vals)
  }

  /** `interpolate`: nothing unless the count is as expected and there are enough values. */
  function Interpolated(sql: seq<byte>, vals: seq<seq<byte>>, expected: nat): Option<seq<byte>> {
    if Holes(sql) == expected && expected <= |vals| then Some(Image(sql, vals)) else None
  }

  lemma {:induction false} HolesStep(r: seq<byte>)
    requires r != []
    ensures Holes(r) == Holes(r[PartWidth(r)..]) + if PartOf(r) == Hole then 1 else 0
  {
  }

  lemma {:induction false} ImageStep(r: seq<byte>, vals: seq<seq<byte>>)
    requires r != [] && Holes(r) <= |vals|
    ensures PartOf(r) == Hole ==>
              Holes(r) > 0 && Holes(r[1..]) <= |vals[1..]| && Image(r, vals) == vals[0] + Image(r[1..], vals[1..])
    ensures PartOf(r) != Hole ==>
              Holes(r[PartWidth(r)..]) == Holes(r)
              && Image(r, vals) == r[..PartWidth(r)] + Image(r[PartWidth(r)..], vals)
  {
  }

  // ---------------------------------------------------------------------
  // Slices fall on character boundaries
  // ---------------------------------------------------------------------

  lemma {:induction false} StringEndsInQuote(r: seq<byte>, q: byte)
    ensures var n := InString(r, q);
            n < |r| ==> n > 0 && r[n - 1] == q
    decreases |r|
  {
    if r != [] {
      StringEndsInQuote(r[1..], q);
      if |r| >= 2 { StringEndsInQuote(r[2..], q); }
    }
  }

  lemma {:induction false} BlockEndsInSlash(r: seq<byte>)
    ensures var n := InBlock(r);
            n < |r| ==> n > 0 && r[n - 1] == SLASH
    decreases |r|
  {
    if |r| >= 2 { BlockEndsInSlash(r[1..]); }
  }

  lemma {:induction false} PartEnd(r: seq<byte>)
    requires r != []
    ensures var w := PartWidth(r);
            w < |r| ==> r[w - 1] < 0x80 || !IsCont(r[w])
  {
    var w := PartWidth(r);
    if w < |r| {
      match PartOf(r) {
        case Quotes => if r[0] != TICK { StringEndsInQuote(r[1..], r[0]); }
        case LineComment => assert r[w] == NEWLINE;
        case BlockComment => BlockEndsInSlash(r[2..]);
        case Hole =>
        case Plain => assert r[w] == r[1..][w - 1];
      }
    }
    hide InString, InBlock, InTicks, InLine, Conts;
  }

  /** Every part of a valid text is valid, even behind a backslash that skipped
      half a character. */
  lemma {:induction false} PartIsValid(r: seq<byte>)
    requires Valid(r) && r != []
    ensures Boundary(r, PartWidth(r)) && Valid(r[..PartWidth(r)]) && Valid(r[PartWidth(r)..])
  {
    var w := PartWidth(r);
    hide Valid, PartWidth;
    PartEnd(r);
    if w < |r| && r[w - 1] < 0x80 { AfterAscii(r, w); }
    SplitAt(r, w);
  }

  /** Filling valid values into a valid text gives a valid text. */
  lemma {:induction false} ImageValid(r: seq<byte>, vals: seq<seq<byte>>)
    requires Valid(r) && Holes(r) <= |vals| && forall v | v in vals :: Valid(v)
    ensures Valid(Image(r, vals))
    decreases |r|
  {
    if r != [] {
      ImageStep(r, vals);
      hide Valid, Image, PartWidth, PartOf, Holes;
      PartIsValid(r);
      var w := PartWidth(r);
      if PartOf(r) == Hole {
        assert w == 1 by { HoleWidth(r); }
        ImageValid(r[1..], vals[1..]);
        Glue(vals[0], Image(r[1..], vals[1..]));
      } else {
        ImageValid(r[w..], vals);
        Glue(r[..w], Image(r[w..], vals));
      }
    }
  }

  lemma {:induction false} HoleWidth(r: seq<byte>)
    requires r != [] && PartOf(r) == Hole
    ensures PartWidth(r) == 1 && r[0] == MARK
  {
  }

  // ---------------------------------------------------------------------
  // Only placeholders change
  // ---------------------------------------------------------------------

  /** The text between the placeholders. */
  function Pieces(r: seq<byte>): (ps: seq<seq<byte>>)
    ensures |ps| == Holes(r) + 1
    decreases |r|
  {
    if r == [] then [[]]
    else
      var w := PartWidth(r);
      var ps := Pieces(r[w..]);
      if PartOf(r) == Hole then [[]] + ps else [r[..w] + ps[0]] + ps[1..]
  }

  function Weave(ps: seq<seq<byte>>, vals: seq<seq<byte>>): seq<byte>
    requires 0 < |ps| <= |vals| + 1
  {
    if |ps| == 1 then ps[0] else ps[0] + vals[0] + Weave(ps[1..], vals[1..])
  }

  lemma {:induction false} WeaveFirst(p: seq<byte>, q: seq<byte>, ps: seq<seq<byte>>, vals: seq<seq<byte>>)
    requires |ps| <= |vals|
    ensures Weave([p + q] + ps, vals) == p + Weave([q] + ps, vals)
  {
    if ps != [] {
      assert ([p + q] + ps)[1..] == ps && ([q] + ps)[1..] == ps;
      assert (p + q) + vals[0] + Weave(ps, vals[1..]) == p + (q + vals[0] + Weave(ps, vals[1..]));
    }
  }

  lemma {:induction false} PiecesStep(r: seq<byte>) returns (ps: seq<seq<byte>>)
    requires r != []
    ensures ps == Pieces(r[PartWidth(r)..]) && ps != []
    ensures Pieces(r) == if PartOf(r) == Hole then [[]] + ps else [r[..PartWidth(r)] + ps[0]] + ps[1..]
  {
    ps := Pieces(r[PartWidth(r)..]);
  }

  lemma {:induction false} WeaveStep(ps: seq<seq<byte>>, vals: seq<seq<byte>>)
    requires 0 < |ps| <= |vals|
    ensures Weave([[]] + ps, vals) == vals[0] + Weave(ps, vals[1..])
  {
    assert ([[]] + ps)[1..] == ps;
    assert [] + vals[0] == vals[0];
  }

  /** The filled-in text is the pieces with the values between them. */
  lemma {:induction false} ImageWeaves(r: seq<byte>, vals: seq<seq<byte>>)
    requires Holes(r) <= |vals|
    ensures Image(r, vals) == Weave(Pieces(r), vals)
    decreases |r|
  {
    if r == [] {
      assert Pieces(r) == [[]];
    } else {
      ImageStep(r, vals);
      var ps := PiecesStep(r);
      var w := PartWidth(r);
      if PartOf(r) == Hole {
        HoleWidth(r);
        ImageWeaves(r[1..], vals[1..]);
        WeaveStep(ps, vals);
      } else {
        ImageWeaves(r[w..], vals);
        WeaveFirst(r[..w], ps[0], ps[1..], vals);
        assert [ps[0]] + ps[1..] == ps;
      }
    }
    hide Image, PartOf, Holes, Pieces, Weave, PartWidth;
  }

  predicate AllMarks(vals: seq<seq<byte>>) {
    forall v | v in vals :: v == [MARK]
  }

  lemma {:induction false} MarksHead(vals: seq<seq<byte>>)
    requires AllMarks(vals) && vals != []
    ensures vals[0] == [MARK] && AllMarks(vals[1..])
  {
    assert vals[0] in vals;
    assert forall v | v in vals[1..] :: v in vals;
  }

  lemma {:induction false} ImageNil(vals: seq<seq<byte>>)
    ensures Image([], vals) == []
  {
  }

  lemma {:induction false} MarksChangeNothing(r: seq<byte>, vals: seq<seq<byte>>)
    requires Holes(r) <= |vals| && AllMarks(vals)
    ensures Image(r, vals) == r
    decreases |r|
  {
    hide *;
    if r == [] {
      ImageNil(vals);
    } else {
      ImageStep(r, vals);
      HolesStep(r);
      var w := PartWidth(r);
      if PartOf(r) == Hole {
        HoleWidth(r);
        MarksHead(vals);
        MarksChangeNothing(r[1..], vals[1..]);
        assert r == [MARK] + r[1..];
      } else {
        MarksChangeNothing(r[w..], vals);
        assert r == r[..w] + r[w..];
      }
    }
  }

  /** The statement itself is the pieces with question marks between them. */
  lemma {:induction false} SqlWeaves(r: seq<byte>, vals: seq<seq<byte>>)
    requires Holes(r) <= |vals| && AllMarks(vals)
    ensures Weave(Pieces(r), vals) == r
  {
    hide *;
    ImageWeaves(r, vals);
    MarksChangeNothing(r, vals);
  }
}
