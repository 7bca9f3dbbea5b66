/** The classes statements are grouped into, and the laws of the grouping. */
module StatementClasses {
  import opened Bytes
  import opened Utf8
  import opened Fingerprints
  import opened Interpolation
  import opened ListCollapse
  import opened Literals
  import opened Padding
  import opened Shadows
  import opened Templates

  /** `fingerprint`. */
  function Fingerprint(q: seq<byte>): seq<byte> {
    Collapse(Values, None, Collapse(In, None, Normalize(q)))
  }

  // ---------------------------------------------------------------------
  // Metamorphic laws
  // ---------------------------------------------------------------------

  /** Letter case and surrounding white space never change the class. */
  lemma {:induction false} CaseAndPadding(q: seq<byte>, before: seq<byte>, after: seq<byte>)
    requires AllWs(before) && AllWs(after)
    ensures Fingerprint(before + Upper(q) + after) == Fingerprint(q)
  {
    PaddingDoesNotMatter(before, Upper(q), after);
    CaseDoesNotMatter(q, []);
    hide Pass, Collapse, Upper;
  }

  // ---------------------------------------------------------------------
  // A template and its executions
  // ---------------------------------------------------------------------

  /** The normalized template, and the same after list collapsing: shadows are
      the marks no execution has. */
  function ShadowedText(q: seq<byte>): seq<Symbol> {
    CutSemicolons(CutStart(CutEnd(Shadowed(q, []))))
  }

  function ShadowedClass(q: seq<byte>): seq<Symbol> {
    Folded(Values, None, Folded(In, None, ShadowedText(q)))
  }

  lemma {:induction false} TextShows(q: seq<byte>, image: seq<byte>)
    requires Drop(Shadowed(q, [])) == Pass(image, [])
    ensures Led(ShadowedText(q)) && Show(ShadowedText(q)) == Normalize(q) && Drop(ShadowedText(q)) == Normalize(image)
    ensures SHADOW !in ShadowedText(q) <==> SHADOW !in Shadowed(q, [])
  {
    var s := Shadowed(q, []);
    ShadowedLed(q, []);
    ShadowedShows(q, []);
    CutEndAlike(s);
    var t := CutEnd(s);
    CutMeans(s, t, TrimEnd(Show(s)), TrimEnd(Drop(s)));
    CutStartAlike(t);
    var u := CutStart(t);
    CutMeans(t, u, TrimStart(Show(t)), TrimStart(Drop(t)));
    CutSemicolonsAlike(u);
    var v := CutSemicolons(u);
    CutMeans(u, v, StripSemicolons(Show(u)), StripSemicolons(Drop(u)));
    CutTwice(s, t, u, Show(t), Drop(t), Show(u), Drop(u));
    CutTwice(s, u, v, Show(u), Drop(u), Show(v), Drop(v));
    AlikeIff(s);
    AlikeIff(v);
    hide Shadowed, CutEnd, CutStart, CutSemicolons, TrimEnd, TrimStart, StripSemicolons, Led, Drop, Show, Pass;
  }

  lemma {:induction false} ClassShows(q: seq<byte>, image: seq<byte>)
    requires Drop(Shadowed(q, [])) == Pass(image, [])
    ensures Show(ShadowedClass(q)) == Fingerprint(q) && Drop(ShadowedClass(q)) == Fingerprint(image)
  {
    TextShows(q, image);
    var s := ShadowedText(q);
    var t := Folded(In, None, s);
    FoldedShows(In, None, s);
    FoldedDrops(In, None, None, s);
    FoldedLed(In, None, s);
    FoldedShows(Values, None, t);
    FoldedDrops(Values, None, None, t);
    hide ShadowedText, Folded, Collapse, Normalize, Led, Drop, Show, Shadowed, Pass;
  }

  /** The string parameters as literals. */
  function AsLiterals(params: seq<seq<byte>>): (vals: seq<seq<byte>>)
    ensures |vals| == |params| && forall i | 0 <= i < |vals| :: vals[i] == Literal(params[i])
  {
    seq(|params|, i requires 0 <= i < |params| => Literal(params[i]))
  }

  lemma {:induction false} LiteralsAreStrings(params: seq<seq<byte>>)
    ensures Strings(AsLiterals(params))
  {
    forall v | v in AsLiterals(params) ensures IsString(v) {
      var i :| 0 <= i < |params| && v == AsLiterals(params)[i];
      LiteralIsString(params[i]);
    }
  }

  lemma {:induction false} ExecutionIsDropped(sql: seq<byte>, params: seq<seq<byte>>, expected: nat)
    requires Valid(sql) && Interpolated(sql, AsLiterals(params), expected).Some?
    ensures Drop(Shadowed(sql, [])) == Pass(Interpolated(sql, AsLiterals(params), expected).value, [])
    ensures SHADOW !in Shadowed(sql, []) <==> Touches(sql) == 0
  {
    var vals := AsLiterals(params);
    LiteralsAreStrings(params);
    WholeText(sql, vals, []);
    ShadowsAreTouches(sql, vals, []);
    hide Pass, Valid, Holes, Image, Touches, Strings, Drop, Shadowed;
  }

  /** For string parameters an execution normalizes to the same text as its
      template exactly when no placeholder touches a single-quoted string or
      another placeholder. */
  lemma {:induction false} ExecutionNormalizesAlike(sql: seq<byte>, params: seq<seq<byte>>, expected: nat)
    requires Valid(sql) && Interpolated(sql, AsLiterals(params), expected).Some?
    ensures Normalize(Interpolated(sql, AsLiterals(params), expected).value) == Normalize(sql) <==> Touches(sql) == 0
  {
    hide *;
    ExecutionIsDropped(sql, params, expected);
    TextShows(sql, Interpolated(sql, AsLiterals(params), expected).value);
    AlikeIff(ShadowedText(sql));
  }

  /** A prepared statement and each of its executions fall into one class
      exactly when, of placeholders and strings that touch, all the marks in
      shadow lie inside lists that are collapsed. */
  lemma {:induction false} ExecutionSharesClassIff(sql: seq<byte>, params: seq<seq<byte>>, expected: nat)
    requires Valid(sql) && Interpolated(sql, AsLiterals(params), expected).Some?
    ensures Fingerprint(Interpolated(sql, AsLiterals(params), expected).value) == Fingerprint(sql)
       <==> SHADOW !in ShadowedClass(sql)
  {
    hide *;
    ExecutionIsDropped(sql, params, expected);
    ClassShows(sql, Interpolated(sql, AsLiterals(params), expected).value);
    AlikeIff(ShadowedClass(sql));
  }

  /** In particular whenever nothing touches. */
  lemma {:induction false} ExecutionSharesClass(sql: seq<byte>, params: seq<seq<byte>>, expected: nat)
    requires Valid(sql) && Interpolated(sql, AsLiterals(params), expected).Some? && Touches(sql) == 0
    ensures Fingerprint(Interpolated(sql, AsLiterals(params), expected).value) == Fingerprint(sql)
  {
    hide Valid, Interpolated, Touches, Normalize, Collapse, AsLiterals;
    ExecutionNormalizesAlike(sql, params, expected);
  }

  // ---------------------------------------------------------------------
  // Why touching placeholders are excluded
  // ---------------------------------------------------------------------

  lemma {:induction false} TwoHoles()
    ensures Holes([MARK, MARK]) == 2 && Touches([MARK, MARK]) == 1
  {
    assert [MARK, MARK][1..] == [MARK] && [MARK][1..] == [];
    HolesStep([MARK, MARK]);
    HolesStep([MARK]);
    TouchesStep([MARK, MARK]);
    TouchesStep([MARK]);
  }

  lemma {:induction false} TwoMarksFilled(v: seq<byte>, u: seq<byte>)
    ensures Image([MARK, MARK], [v, u]) == v + u
  {
    TwoHoles();
    assert [MARK, MARK][1..] == [MARK] && [MARK][1..] == [] && [v, u][1..] == [u];
    ImageStep([MARK, MARK], [v, u]);
    ImageStep([MARK], [u]);
    assert Image([], [u][1..]) == [];
    assert u + [] == u;
    hide Image, Holes;
  }

  lemma {:induction false} FilledPass(a: seq<byte>, b: seq<byte>)
    ensures Pass(Literal(a) + Literal(b), []) == [MARK]
  {
    BodyIsClosed(a);
    BodyIsClosed(b);
    var t, u := Body(a) + [QUOTE], Body(b) + [QUOTE];
    StringsMerge(t, u);
    var m := t + [QUOTE] + u;
    assert Literal(a) + Literal(b) == [QUOTE] + m + [];
    StringStep(m, [], []);
    PassNil([MARK]);
    assert [] + [MARK] == [MARK];
    hide Pass, Closed, Body;
  }

  lemma {:induction false} MarksPass()
    ensures Pass([MARK, MARK], []) == [MARK, MARK]
  {
    var sql := [MARK, MARK];
    assert sql[PartWidth(sql)..] == [MARK] && [MARK][PartWidth([MARK])..] == [];
    StringyStep(sql, []);
    StringyStep([MARK], [] + [MARK]);
    PassNil([MARK] + [MARK]);
    assert [] + [MARK] == [MARK] && [MARK] + [MARK] == [MARK, MARK];
    hide Pass, PartWidth;
  }

  lemma {:induction false} NoSpaceAtMark(s: seq<byte>, n: nat)
    requires AtMark(s) && s[|s| - 1] == MARK && 1 <= n <= |s|
    ensures !IsSpaceChar(s[|s| - n..]) && !IsSpaceChar(s[..n])
  {
    var c, d := s[|s| - n..], s[..n];
    assert c[n - 1] == MARK && d[0] == MARK;
    if IsSpaceChar(c) { SpaceHasNoMark(c); }
    if IsSpaceChar(d) { SpaceHasNoMark(d); }
    hide IsSpaceChar;
  }

  lemma {:induction false} NothingToTrim(s: seq<byte>)
    requires AtMark(s) && s[|s| - 1] == MARK
    ensures SpaceAtEnd(s) == 0 && SpaceAtStart(s) == 0
  {
    hide IsSpaceChar;
    NoSpaceAtMark(s, 1);
    if |s| >= 2 { NoSpaceAtMark(s, 2); }
    if |s| >= 3 { NoSpaceAtMark(s, 3); }
  }

  lemma {:induction false} NothingTrimmed(s: seq<byte>)
    requires SpaceAtEnd(s) == 0 && SpaceAtStart(s) == 0
    ensures Trim(s) == s
  {
    hide SpaceAtEnd, SpaceAtStart;
    TrimEndStep(s);
  }

  lemma {:induction false} MarksStay(s: seq<byte>)
    requires AtMark(s) && s[|s| - 1] == MARK
    ensures StripSemicolons(Trim(s)) == s
  {
    NothingToTrim(s);
    NothingTrimmed(s);
    hide SpaceAtEnd, SpaceAtStart, Trim, TrimEnd;
  }

  lemma {:induction false} MarksCollapse(s: seq<byte>)
    requires s != [] && forall i | 0 <= i < |s| :: s[i] == MARK
    ensures Collapse(Values, None, Collapse(In, None, s)) == s
  {
    NotInWord(In, MARK);
    NotInWord(Values, MARK);
    hide Word;
    assert s + [] == s;
    CopyPiece(In, None, s, []);
    CopyPiece(Values, None, s, []);
  }

  lemma {:induction false} FingerprintIs(q: seq<byte>, p: seq<byte>)
    requires Pass(q, []) == p && StripSemicolons(Trim(p)) == p
    requires Collapse(Values, None, Collapse(In, None, p)) == p
    ensures Fingerprint(q) == p
  {
    hide Pass, Collapse, Trim, StripSemicolons;
  }

  /** The statement `??`: its two literals read as one string, so no execution
      falls into the class of the template. */
  lemma {:induction false} TouchingPlaceholdersSplitTheClass(a: seq<byte>, b: seq<byte>)
    ensures Valid([MARK, MARK])
    ensures Interpolated([MARK, MARK], AsLiterals([a, b]), 2) == Some(Literal(a) + Literal(b))
    ensures Fingerprint(Literal(a) + Literal(b)) == [MARK]
    ensures Fingerprint([MARK, MARK]) == [MARK, MARK]
  {
    hide Fingerprint, Literal, Holes, Image, Valid, AsLiterals, Touches;
    AsciiIsValid([MARK, MARK]);
    TwoHoles();
    assert AsLiterals([a, b]) == [Literal(a), Literal(b)];
    TwoMarksFilled(Literal(a), Literal(b));
    OneMarkLeft(a, b);
    TwoMarksKept();
  }

  lemma {:induction false} OneMarkLeft(a: seq<byte>, b: seq<byte>)
    ensures Fingerprint(Literal(a) + Literal(b)) == [MARK]
  {
    hide *;
    FilledPass(a, b);
    assert AtMark([MARK]) by { IsAtMark([MARK]); }
    MarksStay([MARK]);
    MarksCollapse([MARK]);
    FingerprintIs(Literal(a) + Literal(b), [MARK]);
  }

  lemma {:induction false} TwoMarksKept()
    ensures Fingerprint([MARK, MARK]) == [MARK, MARK]
  {
    hide *;
    MarksPass();
    IsAtMark([MARK, MARK]);
    MarksStay([MARK, MARK]);
    MarksCollapse([MARK, MARK]);
    FingerprintIs([MARK, MARK], [MARK, MARK]);
  }

  lemma {:induction false} IsAtMark(s: seq<byte>)
    requires s != [] && s[0] == MARK
    ensures AtMark(s)
  {
  }

  // ---------------------------------------------------------------------
  // A list can hide that they touch
  // ---------------------------------------------------------------------

  /** `in (??)` */
  const TOUCHING_LIST: seq<byte> := [0x69, 0x6E, SPACE, OPEN, MARK, MARK, CLOSE]

  lemma {:induction false} CopiesByte(b: byte, r: seq<byte>, out: seq<byte>)
    requires b < 0x80 && !IsUpper(b) && b != MARK && KindOf([b] + r) == Char
    ensures Shadowed([b] + r, out) == Shadowed(r, out + [b])
  {
    ShadowedStep([b] + r, out);
    assert ([b] + r)[1..] == r;
    hide Shadowed, ShadowTail;
  }

  lemma {:induction false} CopiesSpace(r: seq<byte>, out: seq<byte>)
    requires out != [] && out[|out| - 1] != SPACE
    ensures Shadowed([SPACE] + r, out) == Shadowed(r, out + [SPACE])
  {
    ShadowedStep([SPACE] + r, out);
    assert ([SPACE] + r)[1..] == r;
    hide Shadowed, ShadowTail;
  }

  lemma {:induction false} TwoTouch(r: seq<byte>, out: seq<byte>)
    requires !Stringy(r)
    ensures Shadowed([MARK, MARK] + r, out) == out + ([SHADOW] + Shadowed(r, [MARK]))
  {
    var s := [MARK, MARK] + r;
    ShadowedStep(s, out);
    assert s[1..] == [MARK] + r && s[1..][1..] == r;
    TailStep(s[1..]);
    TailStep(r);
    hide Shadowed, ShadowTail;
  }

  lemma {:induction false} TouchingListShadowed()
    ensures Shadowed(TOUCHING_LIST, []) == [0x69, 0x6E, SPACE, OPEN, SHADOW, MARK, CLOSE]
  {
    hide Shadowed, ShadowTail;
    var r1, r2, r3, r4: seq<byte> := [0x6E, SPACE, OPEN, MARK, MARK, CLOSE], [SPACE, OPEN, MARK, MARK, CLOSE],
                                     [OPEN, MARK, MARK, CLOSE], [MARK, MARK, CLOSE];
    var o1, o2, o3, o4: seq<byte> := [0x69], [0x69, 0x6E], [0x69, 0x6E, SPACE], [0x69, 0x6E, SPACE, OPEN];
    assert TOUCHING_LIST == [0x69] + r1 && r1 == [0x6E] + r2 && r2 == [SPACE] + r3 && r3 == [OPEN] + r4;
    assert o1 == [] + [0x69] && o2 == o1 + [0x6E] && o3 == o2 + [SPACE] && o4 == o3 + [OPEN];
    CopiesByte(0x69, r1, []);
    CopiesByte(0x6E, r2, o1);
    CopiesSpace(r3, o2);
    CopiesByte(OPEN, r4, o3);
    assert r4 == [MARK, MARK] + [CLOSE];
    TwoTouch([CLOSE], o4);
    assert [CLOSE] == [CLOSE] + [];
    CopiesByte(CLOSE, [], [MARK]);
    ShadowedStep([], [MARK, CLOSE]);
    assert [MARK] + [CLOSE] == [MARK, CLOSE];
  }

  lemma {:induction false} TouchingListIsList()
    ensures ListAt(In, None, TOUCHING_LIST) == 7
  {
    var r := TOUCHING_LIST;
    assert r[..2] == Word(In) && Head(r[2..]) == Some(SPACE);
    assert r[2..][1..] == r[3..] && Spaces(r[3..]) == 0 && Spaces(r[2..]) == 1;
    assert r[2..][2..] == r[4..] && r[4..][1..] == r[5..] && r[5..][1..] == r[6..];
    assert GroupRest(r[6..], true) == Some(1);
    assert GroupRest(r[5..], true) == Some(2);
    assert GroupRest(r[4..], false) == Some(3);
  }

  lemma {:induction false} TouchingListUncut()
    ensures StripSemicolons(Trim(TOUCHING_LIST)) == TOUCHING_LIST
  {
    assert SpaceAtEnd(TOUCHING_LIST) == 0 && SpaceAtStart(TOUCHING_LIST) == 0;
    NothingTrimmed(TOUCHING_LIST);
    hide Trim, SpaceAtEnd, SpaceAtStart;
  }

  /** In `in (??)` two placeholders touch, and yet the template and all its
      executions are one class: their lists collapse to the same text. */
  lemma {:induction false} ListsHideTouching()
    ensures SHADOW in ShadowedText(TOUCHING_LIST) && SHADOW !in ShadowedClass(TOUCHING_LIST)
    ensures forall params, expected | Interpolated(TOUCHING_LIST, AsLiterals(params), expected).Some? ::
              Fingerprint(Interpolated(TOUCHING_LIST, AsLiterals(params), expected).value) == Fingerprint(TOUCHING_LIST)
  {
    hide *;
    var q := TOUCHING_LIST;
    var s: seq<Symbol> := [0x69, 0x6E, SPACE, OPEN, SHADOW, MARK, CLOSE];
    TouchingListShadowed();
    ListIsShown(s);
    TouchingListUncut();
    UncutText(q, s);
    TouchingListIsList();
    FoldedStep(In, None, s);
    FoldedEnd(s);
    assert s[4] == SHADOW;
    TextHasLight(In);
    FoldedLight(Values, None, Text(In));
    ClassIs(q, s);
    TouchingListValid();
    forall params, expected | Interpolated(q, AsLiterals(params), expected).Some?
      ensures Fingerprint(Interpolated(q, AsLiterals(params), expected).value) == Fingerprint(q)
    {
      ExecutionSharesClassIff(q, params, expected);
    }
  }

  lemma {:induction false} TouchingListValid()
    ensures Valid(TOUCHING_LIST)
  {
    AsciiIsValid(TOUCHING_LIST);
  }

  lemma {:induction false} ListIsShown(s: seq<Symbol>)
    requires s == [0x69, 0x6E, SPACE, OPEN, SHADOW, MARK, CLOSE]
    ensures Show(s) == TOUCHING_LIST && |s| == 7
  {
  }

  lemma {:induction false} UncutText(q: seq<byte>, s: seq<Symbol>)
    requires Shadowed(q, []) == s && StripSemicolons(Trim(Show(s))) == Show(s)
    ensures ShadowedText(q) == s
  {
    var x := Show(s);
    StripIsFront(Trim(x));
    assert |Trim(x)| == |x| == |TrimEnd(x)|;
    assert CutEnd(s) == s && CutStart(s) == s && CutSemicolons(s) == s;
  }

  lemma {:induction false} FoldedEnd(s: seq<Symbol>)
    ensures Folded(In, Some(CLOSE), s[|s|..]) == []
  {
  }

  lemma {:induction false} TextHasLight(l: List)
    ensures SHADOW !in Text(l) && Text(l) + [] == Text(l)
  {
  }

  lemma {:induction false} ClassIs(q: seq<byte>, s: seq<Symbol>)
    requires ShadowedText(q) == s
    ensures ShadowedClass(q) == Folded(Values, None, Folded(In, None, s))
  {
  }
}
