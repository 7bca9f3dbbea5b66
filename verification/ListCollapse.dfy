/** Collapsing literal lists in normalized text: `in (?, ?)` and
    `values (?, ?), (?, ?)`. */
module ListCollapse {
  import opened Bytes
  import opened Utf8

  /** The two passes; each collapses one kind of list. */
  datatype List = In | Values

  function Word(l: List): (w: seq<byte>)
    ensures w != [] && forall i | 1 <= i < |w| :: w[i] != w[0]
    ensures forall i | 0 <= i < |w| :: IsLower(w[i])
  {
    match l
    case In => [0x69, 0x6E]
    case Values => [0x76, 0x61, 0x6C, 0x75, 0x65, 0x73]
  }

  /** ` (?+)` */
  const COLLAPSED: seq<byte> := [SPACE, OPEN, MARK, PLUS, CLOSE]

  function Text(l: List): seq<byte> {
    Word(l) + COLLAPSED
  }

  /** No identifier runs up to here. */
  predicate AtWordEdge(prev: Option<byte>) {
    prev.Some? ==> !InIdent(prev.value) && prev.value != TICK
  }

  function Head(r: seq<byte>): Option<byte> {
    if r == [] then None else Some(r[0])
  }

  predicate StartsWith(r: seq<byte>, w: seq<byte>) {
    |w| <= |r| && r[..|w|] == w
  }

  predicate WordAt(prev: Option<byte>, r: seq<byte>, w: seq<byte>) {
    StartsWith(r, w) && AtWordEdge(prev) && AtWordEdge(Head(r[|w|..]))
  }

  function Spaces(r: seq<byte>): (n: nat)
    ensures n <= |r|
  {
    if r == [] || r[0] != SPACE then 0 else 1 + Spaces(r[1..])
  }

  /** From inside a group of `?`, `,` and spaces to just past its `)`. */
  function GroupRest(r: seq<byte>, seen: bool): (n: Option<nat>)
    ensures n.Some? ==> 0 < n.value <= |r| && r[n.value - 1] == CLOSE
  {
    if r == [] then None
    else if r[0] == MARK then More(GroupRest(r[1..], true))
    else if r[0] == COMMA || r[0] == SPACE then More(GroupRest(r[1..], seen))
    else if r[0] == CLOSE && seen then Some(1)
    else None
  }

  function More(n: Option<nat>): Option<nat> {
    match n case None => None case Some(k) => Some(k + 1)
  }

  /** Spaces and a group. */
  function SpacedGroup(r: seq<byte>): (n: Option<nat>)
    ensures n.Some? ==> 0 < n.value <= |r| && r[n.value - 1] == CLOSE
  {
    var m := Spaces(r);
    if m < |r| && r[m] == OPEN then
      match GroupRest(r[m + 1..], false)
      case None => None
      case Some(k) => Some(m + 1 + k)
    else None
  }

  /** Past the comma between two tuples, if there is one. */
  function TupleStart(r: seq<byte>): (c: nat)
    ensures c <= |r|
  {
    var m := Spaces(r);
    if m < |r| && r[m] == COMMA then m + 1 else 0
  }

  /** The further tuples of a `values` list, each behind an optional comma. */
  function MoreTuples(r: seq<byte>): (n: nat)
    ensures n <= |r| && (n > 0 ==> r[n - 1] == CLOSE)
    decreases |r|
  {
    var c := TupleStart(r);
    match SpacedGroup(r[c..])
    case None => 0
    case Some(k) => c + k + MoreTuples(r[c + k..])
  }

  /** The size of the list that starts here, or 0. */
  function ListAt(l: List, prev: Option<byte>, r: seq<byte>): (n: nat)
    ensures n <= |r| && (n > 0 ==> r[n - 1] == CLOSE && StartsWith(r, Word(l)))
  {
    var w := Word(l);
    if WordAt(prev, r, w) then
      match SpacedGroup(r[|w|..])
      case None => 0
      case Some(k) => |w| + k + if l == Values then MoreTuples(r[|w| + k..]) else 0
    else 0
  }

  /** One collapsing pass over the text that follows `prev`. */
  function Collapse(l: List, prev: Option<byte>, r: seq<byte>): seq<byte>
    decreases |r|
  {
    if r == [] then []
    else
      var n := ListAt(l, prev, r);
      if n > 0 then Text(l) + Collapse(l, Some(r[n - 1]), r[n..])
      else [r[0]] + Collapse(l, Some(r[0]), r[1..])
  }

  lemma {:induction false} CollapseStep(l: List, prev: Option<byte>, r: seq<byte>)
    requires r != []
    ensures var n := ListAt(l, prev, r);
            Collapse(l, prev, r) == if n > 0 then Text(l) + Collapse(l, Some(CLOSE), r[n..])
                                    else [r[0]] + Collapse(l, Some(r[0]), r[1..])
  {
  }

  lemma {:induction false} NoWordNoList(l: List, prev: Option<byte>, r: seq<byte>)
    requires r != [] && r[0] != Word(l)[0]
    ensures ListAt(l, prev, r) == 0
  {
    hide Word, MoreTuples, SpacedGroup;
    assert |Word(l)| <= |r| ==> r[..|Word(l)|][0] == r[0];
  }

  lemma {:induction false} Copied(l: List, prev: Option<byte>, r: seq<byte>)
    requires r != [] && r[0] != Word(l)[0]
    ensures Collapse(l, prev, r) == [r[0]] + Collapse(l, Some(r[0]), r[1..])
    ensures Collapse(l, prev, r)[1..] == Collapse(l, Some(r[0]), r[1..])
  {
    hide *;
    NoWordNoList(l, prev, r);
    CollapseStep(l, prev, r);
  }

  // ---------------------------------------------------------------------
  // The output starts like the input
  // ---------------------------------------------------------------------

  lemma {:induction false} HeadSync(l: List, prev: Option<byte>, r: seq<byte>)
    ensures Head(Collapse(l, prev, r)) == Head(r)
  {
    if r != [] {
      CollapseStep(l, prev, r);
      hide Collapse, Word, ListAt;
      if ListAt(l, prev, r) > 0 {
        assert r[0] == r[..|Word(l)|][0];
      }
    }
  }

  predicate Lists(b: byte) {
    b == SPACE || b == COMMA || b == OPEN || b == CLOSE || b == MARK || b == PLUS
  }

  lemma {:induction false} NotInWord(l: List, b: byte)
    requires Lists(b) || b >= 0x80
    ensures b != Word(l)[0]
  {
    hide Word;
  }

  lemma {:induction false} SpacesSync(l: List, prev: Option<byte>, r: seq<byte>)
    ensures Spaces(Collapse(l, prev, r)) == Spaces(r)
    ensures exists p :: Collapse(l, prev, r)[Spaces(r)..] == Collapse(l, p, r[Spaces(r)..])
    decreases |r|
  {
    hide Collapse, Word;
    var o := Collapse(l, prev, r);
    HeadSync(l, prev, r);
    if r != [] && r[0] == SPACE {
      NotInWord(l, SPACE);
      Copied(l, prev, r);
      SpacesSync(l, Some(SPACE), r[1..]);
      var n := Spaces(r[1..]);
      assert r[1 + n..] == r[1..][n..] && o[1 + n..] == o[1..][n..];
    } else {
      assert o[0..] == o && r[0..] == r;
    }
  }

  lemma {:induction false} GroupSync(l: List, prev: Option<byte>, r: seq<byte>, seen: bool)
    ensures GroupRest(Collapse(l, prev, r), seen) == GroupRest(r, seen)
    decreases |r|
  {
    hide Collapse, Word;
    HeadSync(l, prev, r);
    if r != [] && (r[0] == MARK || r[0] == COMMA || r[0] == SPACE) {
      NotInWord(l, r[0]);
      Copied(l, prev, r);
      GroupSync(l, Some(r[0]), r[1..], seen || r[0] == MARK);
    }
  }

  lemma {:induction false} SpacedGroupSync(l: List, prev: Option<byte>, r: seq<byte>)
    ensures SpacedGroup(Collapse(l, prev, r)) == SpacedGroup(r)
  {
    hide Collapse, Word, Spaces, GroupRest;
    var o, m := Collapse(l, prev, r), Spaces(r);
    SpacesSync(l, prev, r);
    var p :| o[m..] == Collapse(l, p, r[m..]);
    HeadSync(l, p, r[m..]);
    assert m < |r| ==> r[m..][0] == r[m];
    assert m < |o| ==> o[m..][0] == o[m];
    if m < |r| && r[m] == OPEN {
      NotInWord(l, OPEN);
      Copied(l, p, r[m..]);
      assert o[m..][1..] == o[m + 1..] && r[m..][1..] == r[m + 1..];
      GroupSync(l, Some(OPEN), r[m + 1..], false);
    }
  }

  /** A piece of text without the first letter of the word is copied. */
  lemma {:induction false} PieceSync(l: List, prev: Option<byte>, r: seq<byte>, t: seq<byte>)
    requires forall i | 0 <= i < |t| :: t[i] != Word(l)[0]
    ensures StartsWith(Collapse(l, prev, r), t) == StartsWith(r, t)
    ensures StartsWith(r, t) ==> exists p :: Collapse(l, prev, r)[|t|..] == Collapse(l, p, r[|t|..])
    decreases |t|
  {
    hide Collapse, Word;
    var o := Collapse(l, prev, r);
    if t == [] {
      assert o[0..] == o && r[0..] == r;
    } else {
      HeadSync(l, prev, r);
      StartsCons(r, t);
      StartsCons(o, t);
      if r != [] && r[0] == t[0] {
        Copied(l, prev, r);
        PieceSync(l, Some(r[0]), r[1..], t[1..]);
        assert |t| <= |r| ==> r[|t|..] == r[1..][|t| - 1..];
        assert |t| <= |o| ==> o[|t|..] == o[1..][|t| - 1..];
      }
    }
  }

  lemma {:induction false} StartsCons(r: seq<byte>, t: seq<byte>)
    requires t != []
    ensures StartsWith(r, t) <==> r != [] && r[0] == t[0] && StartsWith(r[1..], t[1..])
  {
    if |t| <= |r| {
      assert r[..|t|] == [r[0]] + r[1..][..|t| - 1] && t == [t[0]] + t[1..];
    }
  }

  /** Where the input starts no list, the output starts none either. */
  lemma {:induction false} StillNoList(l: List, prev: Option<byte>, r: seq<byte>)
    requires r != [] && ListAt(l, prev, r) == 0
    ensures ListAt(l, prev, Collapse(l, prev, r)) == 0
  {
    var o, w := Collapse(l, prev, r), Word(l);
    CollapseStep(l, prev, r);
    hide Collapse, Word, SpacedGroup, MoreTuples;
    assert o[1..] == Collapse(l, Some(r[0]), r[1..]);
    StartsCons(r, w);
    StartsCons(o, w);
    PieceSync(l, Some(r[0]), r[1..], w[1..]);
    if StartsWith(r, w) {
      var p :| o[1..][|w| - 1..] == Collapse(l, p, r[1..][|w| - 1..]);
      assert o[|w|..] == o[1..][|w| - 1..] && r[|w|..] == r[1..][|w| - 1..];
      HeadSync(l, p, r[|w|..]);
      SpacedGroupSync(l, p, r[|w|..]);
    }
  }

  // ---------------------------------------------------------------------
  // Collapsing twice is collapsing once
  // ---------------------------------------------------------------------

  lemma {:induction false} NoListInText(l: List, prev: Option<byte>, x: seq<byte>)
    ensures ListAt(l, prev, Text(l) + x) == 0
  {
    hide Word, SpacedGroup;
    var w := Word(l);
    assert (Text(l) + x)[|w|..] == COLLAPSED + x;
    NoGroup(x);
  }

  lemma {:induction false} TextTail(l: List) returns (t: seq<byte>)
    ensures t != [] && t[|t| - 1] == CLOSE && Text(l) == [Word(l)[0]] + t
    ensures forall i | 0 <= i < |t| :: t[i] != Word(l)[0]
  {
    var w := Word(l);
    t := w[1..] + COLLAPSED;
    assert w == [w[0]] + w[1..];
  }

  /** What a pass writes, it does not collapse again. */
  lemma {:induction false} CollapsedStays(l: List, prev: Option<byte>, x: seq<byte>)
    ensures Collapse(l, prev, Text(l) + x) == Text(l) + Collapse(l, Some(CLOSE), x)
  {
    hide *;
    NoListInText(l, prev, x);
    var t := TextTail(l);
    var h := [Word(l)[0]];
    CollapseStep(l, prev, Text(l) + x);
    assert (Text(l) + x)[1..] == t + x;
    CopyPiece(l, Some(Word(l)[0]), t, x);
    assert h + (t + Collapse(l, Some(CLOSE), x)) == (h + t) + Collapse(l, Some(CLOSE), x);
  }

  lemma {:induction false} NoGroup(x: seq<byte>)
    ensures SpacedGroup(COLLAPSED + x) == None
  {
    var s := COLLAPSED + x;
    assert s[1..][0] == OPEN && Spaces(s[1..]) == 0 && Spaces(s) == 1;
    assert s[2..][0] == MARK && s[2..][1..][0] == PLUS;
    assert GroupRest(s[2..][1..], true) == None;
  }

  lemma {:induction false} CopyPiece(l: List, prev: Option<byte>, t: seq<byte>, x: seq<byte>)
    requires t != [] && forall i | 0 <= i < |t| :: t[i] != Word(l)[0]
    ensures Collapse(l, prev, t + x) == t + Collapse(l, Some(t[|t| - 1]), x)
    decreases |t|
  {
    hide Collapse, Word;
    Copied(l, prev, t + x);
    assert (t + x)[1..] == t[1..] + x;
    if |t| > 1 {
      CopyPiece(l, Some(t[0]), t[1..], x);
      assert t == [t[0]] + t[1..];
      assert [t[0]] + (t[1..] + Collapse(l, Some(t[|t| - 1]), x)) == t + Collapse(l, Some(t[|t| - 1]), x);
    } else {
      assert t[1..] + x == x;
    }
  }

  /** Each pass is idempotent. */
  lemma {:induction false} CollapseTwice(l: List, prev: Option<byte>, r: seq<byte>)
    ensures Collapse(l, prev, Collapse(l, prev, r)) == Collapse(l, prev, r)
    decreases |r|
  {
    if r != [] {
      CollapseStep(l, prev, r);
      hide Collapse, ListAt, Text;
      var n, o := ListAt(l, prev, r), Collapse(l, prev, r);
      if n > 0 {
        CollapsedStays(l, prev, Collapse(l, Some(CLOSE), r[n..]));
        CollapseTwice(l, Some(CLOSE), r[n..]);
      } else {
        StillNoList(l, prev, r);
        CollapseStep(l, prev, o);
        assert o[1..] == Collapse(l, Some(r[0]), r[1..]);
        CollapseTwice(l, Some(r[0]), r[1..]);
      }
    }
  }

  // ---------------------------------------------------------------------
  // UTF-8
  // ---------------------------------------------------------------------

  lemma {:induction false} TextIsValid(l: List)
    ensures Valid(Text(l))
  {
    hide Word;
    AsciiIsValid(Text(l));
  }

  /** Each pass keeps the text valid UTF-8. */
  lemma {:induction false} CollapseValid(l: List, prev: Option<byte>, r: seq<byte>)
    requires Valid(r)
    ensures Valid(Collapse(l, prev, r))
    decreases |r|
  {
    if r != [] {
      CollapseStep(l, prev, r);
      var n := ListAt(l, prev, r);
      if n > 0 {
        AfterAscii(r, n);
        SplitAt(r, n);
        CollapseValid(l, Some(CLOSE), r[n..]);
        TextIsValid(l);
        Glue(Text(l), Collapse(l, Some(CLOSE), r[n..]));
      } else {
        var c, t := FirstChar(r);
        CollapseChar(l, prev, c, t);
        CollapseValid(l, Some(c[|c| - 1]), t);
        ValidCons(c, Collapse(l, Some(c[|c| - 1]), t));
      }
    }
    hide *;
  }

  lemma {:induction false} CollapseChar(l: List, prev: Option<byte>, c: seq<byte>, t: seq<byte>)
    requires IsChar(c) && ListAt(l, prev, c + t) == 0
    ensures Collapse(l, prev, c + t) == c + Collapse(l, Some(c[|c| - 1]), t)
  {
    if |c| == 1 {
      CollapseStep(l, prev, c + t);
    } else {
      HighBytes(c);
      forall i | 0 <= i < |c| ensures c[i] != Word(l)[0] {
        NotInWord(l, c[i]);
      }
      CopyPiece(l, prev, c, t);
    }
    hide Collapse, ListAt, IsChar, Word;
  }

  lemma {:induction false} HighBytes(c: seq<byte>)
    requires IsChar(c) && |c| > 1
    ensures forall i | 0 <= i < |c| :: c[i] >= 0x80
  {
  }
}
