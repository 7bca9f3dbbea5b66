/** Normalized text in which some marks are only shadows: the text of a template
    shows them, the text of its executions drops them. What becomes of a shadow
    in trimming and list collapsing. */
module Shadows {
  import opened Bytes
  import opened Utf8
  import opened Fingerprints
  import opened ListCollapse

  /** A byte, or the shadow of a mark. */
  type Symbol = x: int | 0 <= x <= 0x100

  const SHADOW: Symbol := 0x100

  function ShowOne(x: Symbol): byte {
    if x == SHADOW then MARK else x
  }

  /** Shadows read as marks. */
  function Show(s: seq<Symbol>): (t: seq<byte>)
    ensures |t| == |s|
  {
    seq(|s|, i requires 0 <= i < |s| => ShowOne(s[i]))
  }

  /** Shadows read as nothing. */
  function Drop(s: seq<Symbol>): (t: seq<byte>)
    ensures |t| <= |s|
  {
    if s == [] then [] else (if s[0] == SHADOW then [] else [s[0]]) + Drop(s[1..])
  }

  /** A shadow stands before another or before the mark it belongs to. */
  predicate Led(s: seq<Symbol>) {
    forall i | 0 <= i < |s| && s[i] == SHADOW :: i + 1 < |s| && (s[i + 1] == SHADOW || s[i + 1] == MARK)
  }

  lemma {:induction false} DropStep(s: seq<Symbol>)
    requires s != []
    ensures Drop(s) == (if s[0] == SHADOW then [] else [s[0]]) + Drop(s[1..])
  {
  }

  lemma {:induction false} DropAppend(a: seq<Symbol>, b: seq<Symbol>)
    ensures Drop(a + b) == Drop(a) + Drop(b)
    decreases |a|
  {
    if a == [] {
      assert a + b == b;
    } else {
      assert (a + b)[1..] == a[1..] + b;
      DropAppend(a[1..], b);
    }
  }

  lemma {:induction false} DropBytes(a: seq<byte>)
    ensures Drop(a) == a && Show(a) == a && Led(a)
    decreases |a|
  {
    if a != [] {
      DropBytes(a[1..]);
      assert a == [a[0]] + a[1..];
    }
  }

  lemma {:induction false} ShowSlice(s: seq<Symbol>, i: nat, j: nat)
    requires i <= j <= |s|
    ensures Show(s[i..j]) == Show(s)[i..j]
  {
  }

  lemma {:induction false} LedTail(s: seq<Symbol>, k: nat)
    requires Led(s) && k <= |s|
    ensures Led(s[k..])
  {
    var t := s[k..];
    forall i | 0 <= i < |t| && t[i] == SHADOW ensures i + 1 < |t| && (t[i + 1] == SHADOW || t[i + 1] == MARK) {
      assert s[k + i] == t[i];
    }
  }

  /** A text can be cut where no shadow belongs to what follows. */
  lemma {:induction false} LedFront(s: seq<Symbol>, k: nat)
    requires Led(s) && k <= |s| && (k < |s| ==> s[k] != SHADOW && s[k] != MARK)
    ensures Led(s[..k])
  {
    var t := s[..k];
    forall i | 0 <= i < |t| && t[i] == SHADOW ensures i + 1 < |t| && (t[i + 1] == SHADOW || t[i + 1] == MARK) {
      assert s[i] == t[i];
    }
  }

  lemma {:induction false} LedAppend(a: seq<Symbol>, b: seq<Symbol>)
    requires Led(a) && Led(b)
    ensures Led(a + b)
  {
    var s := a + b;
    forall i | 0 <= i < |s| && s[i] == SHADOW ensures i + 1 < |s| && (s[i + 1] == SHADOW || s[i + 1] == MARK) {
      if i >= |a| { assert b[i - |a|] == s[i]; } else { assert a[i] == s[i]; }
    }
  }

  /** The two readings are equal exactly when there is no shadow. */
  lemma {:induction false} AlikeIff(s: seq<Symbol>)
    ensures Show(s) == Drop(s) <==> SHADOW !in s
    ensures |Drop(s)| == |s| <==> SHADOW !in s
    decreases |s|
  {
    if s != [] {
      AlikeIff(s[1..]);
      assert SHADOW in s <==> s[0] == SHADOW || SHADOW in s[1..] by { assert s == [s[0]] + s[1..]; }
      assert s[0] != SHADOW && Show(s[1..]) == Drop(s[1..]) ==> Show(s) == Drop(s) by {
        assert Show(s) == [ShowOne(s[0])] + Show(s[1..]);
      }
    }
  }

  /** Both readings begin alike. */
  lemma {:induction false} HeadsAlike(s: seq<Symbol>)
    requires Led(s)
    ensures Head(Drop(s)) == Head(Show(s))
    decreases |s|
  {
    if s != [] && s[0] == SHADOW {
      LedTail(s, 1);
      HeadsAlike(s[1..]);
    }
  }

  // ---------------------------------------------------------------------
  // Trimming
  // ---------------------------------------------------------------------

  /** Both readings end alike as far as there is no mark. */
  lemma {:induction false} EndsAlike(s: seq<Symbol>, n: nat)
    requires Led(s) && n <= |s|
    requires MARK !in Show(s)[|s| - n..]
    ensures n <= |Drop(s)| && Show(s)[|s| - n..] == Drop(s)[|Drop(s)| - n..]
    ensures Drop(s[..|s| - n]) == Drop(s)[..|Drop(s)| - n] && Led(s[..|s| - n])
  {
    var k := |s| - n;
    var a, b := s[..k], s[k..];
    assert s == a + b;
    DropAppend(a, b);
    assert Show(s)[k..] == Show(b);
    forall i | 0 <= i < n ensures b[i] != SHADOW && b[i] != MARK {
      assert Show(b)[i] == ShowOne(b[i]) && Show(b)[i] in Show(b);
    }
    NoShadow(b);
    assert n > 0 ==> b[0] == s[k];
    LedFront(s, k);
  }

  lemma {:induction false} NoShadow(s: seq<Symbol>)
    requires forall i | 0 <= i < |s| :: s[i] != SHADOW
    ensures Drop(s) == Show(s)
  {
    AlikeIff(s);
  }

  lemma {:induction false} StartsAlike(s: seq<Symbol>, n: nat)
    requires Led(s) && n <= |s|
    requires MARK !in Show(s)[..n]
    ensures n <= |Drop(s)| && Show(s)[..n] == Drop(s)[..n]
    ensures Drop(s[n..]) == Drop(s)[n..] && Led(s[n..])
  {
    var a, b := s[..n], s[n..];
    assert s == a + b;
    DropAppend(a, b);
    assert Show(s)[..n] == Show(a);
    forall i | 0 <= i < n ensures a[i] != SHADOW {
      assert Show(a)[i] == ShowOne(a[i]) && Show(a)[i] in Show(a);
    }
    NoShadow(a);
    LedTail(s, n);
  }

  lemma {:induction false} LastOfBoth(s: seq<Symbol>)
    requires Led(s) && s != []
    ensures s[|s| - 1] != SHADOW
    ensures Drop(s) == Drop(s[..|s| - 1]) + [s[|s| - 1]]
    ensures Show(s) == Show(s[..|s| - 1]) + [ShowOne(s[|s| - 1])]
  {
    var m := |s| - 1;
    assert s == s[..m] + [s[m]];
    DropAppend(s[..m], [s[m]]);
    assert [s[m]][1..] == [] && Drop([]) == [];
  }

  lemma {:induction false} Ending(d: seq<byte>, x: byte, n: nat)
    requires 0 < n <= |d| + 1
    ensures (d + [x])[|d| + 1 - n..] == d[|d| - (n - 1)..] + [x]
  {
  }

  /** If the last bytes of the dropped text hold no mark, no shadow is among them. */
  lemma {:induction false} EndsAlikeBack(s: seq<Symbol>, n: nat)
    requires Led(s) && n <= |Drop(s)| && MARK !in Drop(s)[|Drop(s)| - n..]
    ensures n <= |s| && MARK !in Show(s)[|s| - n..]
    decreases n
  {
    hide Led, Drop, Show;
    if n > 0 {
      var x, t := s[|s| - 1], s[..|s| - 1];
      LastOfBoth(s);
      Ending(Drop(t), x, n);
      assert x != MARK && MARK !in Drop(t)[|Drop(t)| - (n - 1)..];
      LedShort(s);
      EndsAlikeBack(t, n - 1);
      Ending(Show(t), ShowOne(x), n);
    }
  }

  lemma {:induction false} LedShort(s: seq<Symbol>)
    requires Led(s) && s != [] && s[|s| - 1] != SHADOW && s[|s| - 1] != MARK
    ensures Led(s[..|s| - 1])
  {
    LedFront(s, |s| - 1);
  }

  predicate EndsInSpace(s: seq<byte>, n: nat) {
    n <= |s| && IsSpaceChar(s[|s| - n..])
  }

  predicate StartsWithSpace(s: seq<byte>, n: nat) {
    n <= |s| && IsSpaceChar(s[..n])
  }

  /** The last `n` bytes are a white space character of one reading when they
      are one of the other. */
  lemma {:induction false} SpaceEndsAlike(s: seq<Symbol>, n: nat)
    requires Led(s) && n > 0
    ensures EndsInSpace(Show(s), n) <==> EndsInSpace(Drop(s), n)
  {
    hide IsSpaceChar, Led, Drop;
    if n <= |s| && IsSpaceChar(Show(s)[|s| - n..]) {
      SpaceHasNoMark(Show(s)[|s| - n..]);
      EndsAlike(s, n);
    }
    if n <= |Drop(s)| && IsSpaceChar(Drop(s)[|Drop(s)| - n..]) {
      SpaceHasNoMark(Drop(s)[|Drop(s)| - n..]);
      EndsAlikeBack(s, n);
      EndsAlike(s, n);
    }
  }

  lemma {:induction false} SpaceStartsAlike(s: seq<Symbol>, n: nat)
    requires Led(s) && n > 0
    ensures StartsWithSpace(Show(s), n) <==> StartsWithSpace(Drop(s), n)
  {
    hide IsSpaceChar, Led, Drop;
    if n <= |s| && IsSpaceChar(Show(s)[..n]) {
      SpaceHasNoMark(Show(s)[..n]);
      StartsAlike(s, n);
    }
    if n <= |Drop(s)| && IsSpaceChar(Drop(s)[..n]) {
      SpaceHasNoMark(Drop(s)[..n]);
      StartsAlikeBack(s, n);
      StartsAlike(s, n);
    }
  }

  lemma {:induction false} StartsAlikeBack(s: seq<Symbol>, n: nat)
    requires Led(s) && n <= |Drop(s)| && MARK !in Drop(s)[..n]
    ensures n <= |s| && MARK !in Show(s)[..n]
    decreases n
  {
    if n > 0 {
      HeadsAlike(s);
      assert Drop(s)[0] in Drop(s)[..n];
      assert s[0] != SHADOW;
      assert Drop(s)[..n] == [s[0]] + Drop(s[1..])[..n - 1];
      LedTail(s, 1);
      StartsAlikeBack(s[1..], n - 1);
      assert Show(s)[..n] == [ShowOne(s[0])] + Show(s[1..])[..n - 1];
    }
  }

  lemma {:induction false} SpaceAtEndIs(s: seq<byte>)
    ensures SpaceAtEnd(s) == if EndsInSpace(s, 1) then 1 else if EndsInSpace(s, 2) then 2
                             else if EndsInSpace(s, 3) then 3 else 0
    ensures SpaceAtStart(s) == if StartsWithSpace(s, 1) then 1 else if StartsWithSpace(s, 2) then 2
                               else if StartsWithSpace(s, 3) then 3 else 0
  {
    hide IsSpaceChar;
  }

  lemma {:induction false} SpacesAlike(s: seq<Symbol>)
    requires Led(s)
    ensures SpaceAtEnd(Drop(s)) == SpaceAtEnd(Show(s)) && SpaceAtStart(Drop(s)) == SpaceAtStart(Show(s))
  {
    hide *;
    SpaceEndsAlike(s, 1);
    SpaceEndsAlike(s, 2);
    SpaceEndsAlike(s, 3);
    SpaceStartsAlike(s, 1);
    SpaceStartsAlike(s, 2);
    SpaceStartsAlike(s, 3);
    SpaceAtEndIs(Show(s));
    SpaceAtEndIs(Drop(s));
  }

  /** What both readings become when `k` bytes that are no marks are cut off. */
  predicate CutAlike(s: seq<Symbol>, t: seq<Symbol>, show: seq<byte>, drop: seq<byte>) {
    && Led(t) && Show(t) == show && Drop(t) == drop
    && |s| - |t| == |Drop(s)| - |Drop(t)|
  }

  /** `trim_end` on the shadowed text. */
  function CutEnd(s: seq<Symbol>): seq<Symbol> {
    s[..|TrimEnd(Show(s))|]
  }

  lemma {:induction false} CutEndAlike(s: seq<Symbol>)
    requires Led(s)
    ensures CutAlike(s, CutEnd(s), TrimEnd(Show(s)), TrimEnd(Drop(s)))
    decreases |s|
  {
    hide IsSpaceChar, Led, Drop, SpaceAtEnd, TrimEnd;
    SpacesAlike(s);
    TrimEndStep(Show(s));
    TrimEndStep(Drop(s));
    var n := SpaceAtEnd(Show(s));
    if n == 0 {
      assert s[..|s|] == s;
    } else {
      SpaceHasNoMark(Show(s)[|s| - n..]);
      EndsAlike(s, n);
      var t := s[..|s| - n];
      ShowSlice(s, 0, |s| - n);
      CutEndAlike(t);
      assert CutEnd(t) == CutEnd(s);
    }
  }

  lemma {:induction false} TrimStartStep(s: seq<byte>)
    ensures TrimStart(s) == if SpaceAtStart(s) == 0 then s else TrimStart(s[SpaceAtStart(s)..])
  {
  }

  function CutStart(s: seq<Symbol>): seq<Symbol> {
    s[|s| - |TrimStart(Show(s))|..]
  }

  lemma {:induction false} CutStartAlike(s: seq<Symbol>)
    requires Led(s)
    ensures CutAlike(s, CutStart(s), TrimStart(Show(s)), TrimStart(Drop(s)))
    decreases |s|
  {
    hide IsSpaceChar, Led, Drop, SpaceAtStart, TrimStart;
    SpacesAlike(s);
    TrimStartStep(Show(s));
    TrimStartStep(Drop(s));
    var n := SpaceAtStart(Show(s));
    if n == 0 {
      assert s[0..] == s;
    } else {
      SpaceHasNoMark(Show(s)[..n]);
      StartsAlike(s, n);
      var t := s[n..];
      ShowSlice(s, n, |s|);
      CutStartAlike(t);
      assert Show(t) == Show(s)[n..];
      var k := |TrimStart(Show(t))|;
      assert s[n..][|t| - k..] == s[|s| - k..];
    }
  }

  lemma {:induction false} StripIsFront(s: seq<byte>)
    ensures StripSemicolons(s) <= s
    decreases |s|
  {
    if s != [] && s[|s| - 1] == SEMICOLON {
      StripIsFront(TrimEnd(s[..|s| - 1]));
    }
  }

  lemma {:induction false} StripStep(s: seq<byte>)
    ensures StripSemicolons(s) == if s != [] && s[|s| - 1] == SEMICOLON
                                  then StripSemicolons(TrimEnd(s[..|s| - 1])) else s
  {
  }

  function CutSemicolons(s: seq<Symbol>): seq<Symbol> {
    StripIsFront(Show(s));
    s[..|StripSemicolons(Show(s))|]
  }

  /** One reading ends in a semicolon when the other does. */
  lemma {:induction false} SemicolonsAlike(s: seq<Symbol>)
    requires Led(s)
    ensures var x, y := Show(s), Drop(s);
            (x != [] && x[|x| - 1] == SEMICOLON) <==> (y != [] && y[|y| - 1] == SEMICOLON)
    ensures s != [] && s[|s| - 1] == SEMICOLON
        ==> CutAlike(s, s[..|s| - 1], Show(s)[..|s| - 1], Drop(s)[..|Drop(s)| - 1])
  {
    hide Led, Drop;
    var x, y := Show(s), Drop(s);
    if x != [] && x[|x| - 1] == SEMICOLON {
      EndsAlike(s, 1);
      ShowSlice(s, 0, |s| - 1);
      assert x[|x| - 1..][0] == y[|y| - 1..][0];
    }
    if y != [] && y[|y| - 1] == SEMICOLON {
      EndsAlikeBack(s, 1);
      EndsAlike(s, 1);
      assert x[|x| - 1..][0] == y[|y| - 1..][0];
    }
  }

  lemma {:induction false} CutTwice(s: seq<Symbol>, t: seq<Symbol>, u: seq<Symbol>,
                                    show: seq<byte>, drop: seq<byte>, show': seq<byte>, drop': seq<byte>)
    requires CutAlike(s, t, show, drop) && CutAlike(t, u, show', drop')
    ensures CutAlike(s, u, show', drop')
  {
  }

  lemma {:induction false} CutNothing(s: seq<Symbol>)
    requires Led(s)
    ensures CutAlike(s, s, Show(s), Drop(s))
  {
  }

  lemma {:induction false} CutMeans(s: seq<Symbol>, t: seq<Symbol>, show: seq<byte>, drop: seq<byte>)
    requires CutAlike(s, t, show, drop)
    ensures Led(t) && Show(t) == show && Drop(t) == drop
  {
  }

  /** One semicolon and the space before it. */
  lemma {:induction false} OneSemicolon(s: seq<Symbol>) returns (u: seq<Symbol>)
    requires Led(s) && s != [] && Show(s)[|s| - 1] == SEMICOLON
    ensures u <= s && |u| < |s| && CutAlike(s, u, Show(u), Drop(u))
    ensures StripSemicolons(Show(s)) == StripSemicolons(Show(u))
    ensures StripSemicolons(Drop(s)) == StripSemicolons(Drop(u))
  {
    hide *;
    var t := s[..|s| - 1];
    SemicolonCut(s);
    CutEndAlike(t);
    u := CutEnd(t);
    CutEndIsFront(t);
    CutMeans(t, u, TrimEnd(Show(t)), TrimEnd(Drop(t)));
    CutTwice(s, t, u, Show(t), Drop(t), Show(u), Drop(u));
  }

  lemma {:induction false} SemicolonCut(s: seq<Symbol>)
    requires Led(s) && s != [] && Show(s)[|s| - 1] == SEMICOLON
    ensures var t := s[..|s| - 1];
            && Led(t) && CutAlike(s, t, Show(t), Drop(t))
            && StripSemicolons(Show(s)) == StripSemicolons(TrimEnd(Show(t)))
            && StripSemicolons(Drop(s)) == StripSemicolons(TrimEnd(Drop(t)))
  {
    hide *;
    LastShown(s);
    SemicolonsAlike(s);
    StripStep(Show(s));
    StripStep(Drop(s));
    CutMeans(s, s[..|s| - 1], Show(s)[..|s| - 1], Drop(s)[..|Drop(s)| - 1]);
  }

  lemma {:induction false} LastShown(s: seq<Symbol>)
    requires s != []
    ensures Show(s)[|s| - 1] == ShowOne(s[|s| - 1])
    ensures Show(s)[|s| - 1] == SEMICOLON ==> s[|s| - 1] == SEMICOLON
  {
  }

  lemma {:induction false} CutWhole(s: seq<Symbol>)
    requires StripSemicolons(Show(s)) == Show(s)
    ensures CutSemicolons(s) == s
  {
    assert s[..|s|] == s;
    hide StripSemicolons;
  }

  lemma {:induction false} NoSemicolon(s: seq<Symbol>)
    requires Led(s) && (s == [] || Show(s)[|s| - 1] != SEMICOLON)
    ensures CutSemicolons(s) == s && StripSemicolons(Show(s)) == Show(s) && StripSemicolons(Drop(s)) == Drop(s)
  {
    hide *;
    SemicolonsAlike(s);
    StripStep(Show(s));
    StripStep(Drop(s));
    CutWhole(s);
  }

  lemma {:induction false} CutSemicolonsAlike(s: seq<Symbol>)
    requires Led(s)
    ensures CutAlike(s, CutSemicolons(s), StripSemicolons(Show(s)), StripSemicolons(Drop(s)))
    decreases |s|
  {
    hide *;
    if s != [] && Show(s)[|s| - 1] == SEMICOLON {
      var u := OneSemicolon(s);
      CutMeans(s, u, Show(u), Drop(u));
      CutSemicolonsAlike(u);
      CutTwice(s, u, CutSemicolons(u), Show(u), Drop(u), StripSemicolons(Show(u)), StripSemicolons(Drop(u)));
      CutTo(s, u);
    } else {
      NoSemicolon(s);
      CutNothing(s);
    }
  }

  lemma {:induction false} CutEndIsFront(s: seq<Symbol>)
    ensures CutEnd(s) <= s
  {
  }

  lemma {:induction false} CutTo(s: seq<Symbol>, u: seq<Symbol>)
    requires u <= s && StripSemicolons(Show(u)) == StripSemicolons(Show(s))
    ensures CutSemicolons(u) == CutSemicolons(s)
  {
    StripIsFront(Show(u));
    hide StripSemicolons;
  }

  // ---------------------------------------------------------------------
  // Collapsing lists
  // ---------------------------------------------------------------------

  /** The first `n` symbols are `m` bytes of the dropped text. */
  predicate Counts(s: seq<Symbol>, n: nat, m: nat) {
    n <= |s| && m == |Drop(s[..n])|
  }

  lemma {:induction false} CountsTail(s: seq<Symbol>, n: nat, m: nat)
    requires Counts(s, n, m) && Led(s)
    ensures n <= |s| && m <= |Drop(s)| && Drop(s)[m..] == Drop(s[n..]) && Led(s[n..])
    ensures Show(s)[n..] == Show(s[n..])
  {
    assert s == s[..n] + s[n..];
    DropAppend(s[..n], s[n..]);
    LedTail(s, n);
  }

  lemma {:induction false} CountsAdd(s: seq<Symbol>, n: nat, m: nat, j: nat, k: nat)
    requires Counts(s, n, m) && Counts(s[n..], j, k)
    ensures Counts(s, n + j, m + k)
  {
    assert s[..n + j] == s[..n] + s[n..][..j];
    DropAppend(s[..n], s[n..][..j]);
  }

  lemma {:induction false} CountsNone(s: seq<Symbol>)
    ensures Counts(s, 0, 0)
  {
    assert s[..0] == [];
  }

  lemma {:induction false} CountsOne(s: seq<Symbol>)
    requires s != []
    ensures Counts(s, 1, if s[0] == SHADOW then 0 else 1)
  {
    assert s[..1] == [s[0]] && [s[0]][1..] == [];
  }

  lemma {:induction false} SpacesCount(s: seq<Symbol>)
    requires Led(s)
    ensures Spaces(Drop(s)) == Spaces(Show(s)) && Counts(s, Spaces(Show(s)), Spaces(Show(s)))
    decreases |s|
  {
    hide Led, Counts;
    HeadsAlike(s);
    if s != [] && s[0] == SPACE {
      CountsOne(s);
      CountsTail(s, 1, 1);
      SpacesCount(s[1..]);
      CountsAdd(s, 1, 1, Spaces(Show(s[1..])), Spaces(Show(s[1..])));
    } else {
      CountsNone(s);
    }
  }

  lemma {:induction false} SeenByMark(r: seq<byte>, seen: bool)
    requires r != [] && r[0] == MARK
    ensures GroupRest(r, seen) == GroupRest(r, true)
  {
  }

  lemma {:induction false} GroupStep(r: seq<byte>, seen: bool)
    ensures GroupRest(r, seen) == if r == [] then None
                                  else if r[0] == MARK then More(GroupRest(r[1..], true))
                                  else if r[0] == COMMA || r[0] == SPACE then More(GroupRest(r[1..], seen))
                                  else if r[0] == CLOSE && seen then Some(1) else None
  {
  }

  /** A group of the one reading is a group of the other. */
  predicate SameGroup(s: seq<Symbol>, show: Option<nat>, drop: Option<nat>) {
    match show
    case None => drop == None
    case Some(n) => drop.Some? && Counts(s, n, drop.value)
  }

  lemma {:induction false} GroupGrows(s: seq<Symbol>, show: Option<nat>, drop: Option<nat>)
    requires s != [] && SameGroup(s[1..], show, drop)
    ensures SameGroup(s, More(show), if s[0] == SHADOW then drop else More(drop))
  {
    hide Counts;
    CountsOne(s);
    if show.Some? {
      CountsAdd(s, 1, if s[0] == SHADOW then 0 else 1, show.value, drop.value);
    }
  }

  lemma {:induction false} GroupsAlike(s: seq<Symbol>, seen: bool)
    requires Led(s)
    ensures SameGroup(s, GroupRest(Show(s), seen), GroupRest(Drop(s), seen))
    decreases |s|
  {
    hide SameGroup, GroupRest, More;
    var x, y := Show(s), Drop(s);
    GroupStep(x, seen);
    GroupStep(y, seen);
    HeadsAlike(s);
    if s == [] {
      NoGroupHere(s);
    } else {
      LedTail(s, 1);
      assert x[1..] == Show(s[1..]);
      if s[0] == SHADOW {
        HeadsAlike(s[1..]);
        assert y == Drop(s[1..]);
        SeenByMark(y, seen);
        GroupsAlike(s[1..], true);
        GroupGrows(s, GroupRest(x[1..], true), GroupRest(y, true));
      } else {
        assert y[1..] == Drop(s[1..]);
        GroupsAlike(s[1..], seen || s[0] == MARK);
        GroupGrows(s, GroupRest(x[1..], seen || s[0] == MARK), GroupRest(y[1..], seen || s[0] == MARK));
        NoGroupHere(s);
      }
    }
  }

  lemma {:induction false} NoGroupHere(s: seq<Symbol>)
    ensures SameGroup(s, None, None)
    ensures s != [] && s[0] != SHADOW ==> SameGroup(s, Some(1), Some(1))
  {
    if s != [] { CountsOne(s); }
  }

  lemma {:induction false} SpacedGroupsAlike(s: seq<Symbol>)
    requires Led(s)
    ensures SameGroup(s, SpacedGroup(Show(s)), SpacedGroup(Drop(s)))
  {
    hide Led, Counts, GroupRest, Spaces, Drop;
    SpacesCount(s);
    var m := Spaces(Show(s));
    CountsTail(s, m, m);
    var t := s[m..];
    HeadsAlike(t);
    assert m < |s| ==> Show(t)[0] == Show(s)[m];
    assert m < |Drop(s)| ==> Drop(t)[0] == Drop(s)[m];
    if m < |s| && Show(s)[m] == OPEN {
      assert t[0] == OPEN;
      CountsOne(t);
      CountsAdd(s, m, m, 1, 1);
      CountsTail(s, m + 1, m + 1);
      GroupsAlike(s[m + 1..], false);
      var g, h := GroupRest(Show(s[m + 1..]), false), GroupRest(Drop(s[m + 1..]), false);
      if g.Some? { CountsAdd(s, m + 1, m + 1, g.value, h.value); }
    }
  }

  lemma {:induction false} TupleStartsAlike(s: seq<Symbol>)
    requires Led(s)
    ensures TupleStart(Drop(s)) == TupleStart(Show(s)) && Counts(s, TupleStart(Show(s)), TupleStart(Show(s)))
  {
    hide Led, Counts, Spaces, Drop;
    SpacesCount(s);
    CountsNone(s);
    var m := Spaces(Show(s));
    CountsTail(s, m, m);
    var t := s[m..];
    HeadsAlike(t);
    assert m < |s| ==> Show(t)[0] == Show(s)[m];
    assert m < |Drop(s)| ==> Drop(t)[0] == Drop(s)[m];
    if m < |s| && Show(s)[m] == COMMA {
      CountsOne(t);
      CountsAdd(s, m, m, 1, 1);
    }
  }

  lemma {:induction false} TuplesStep(r: seq<byte>)
    ensures MoreTuples(r) == match SpacedGroup(r[TupleStart(r)..])
                             case None => 0
                             case Some(k) => TupleStart(r) + k + MoreTuples(r[TupleStart(r) + k..])
  {
  }

  lemma {:induction false} SameGroupMeans(s: seq<Symbol>, n: nat, g: Option<nat>, h: Option<nat>)
    requires Led(s) && Counts(s, n, n) && n <= |s| && SameGroup(s[n..], g, h)
    ensures g.Some? == h.Some?
    ensures g.Some? ==> n + g.value <= |s| && n + h.value <= |Drop(s)| && Counts(s, n + g.value, n + h.value)
    ensures g.Some? ==> Show(s)[n + g.value..] == Show(s[n + g.value..]) && Led(s[n + g.value..])
    ensures g.Some? ==> Drop(s)[n + h.value..] == Drop(s[n + g.value..])
  {
    hide Led, Counts, Drop;
    if g.Some? {
      CountsAdd(s, n, n, g.value, h.value);
      CountsTail(s, n + g.value, n + h.value);
    }
  }

  /** The next tuple, if there is one. */
  lemma {:induction false} TuplesHere(s: seq<Symbol>) returns (c: nat, g: Option<nat>, h: Option<nat>)
    requires Led(s)
    ensures c <= |s| && Counts(s, c, c) && SameGroup(s[c..], g, h) && g == SpacedGroup(Show(s[c..]))
    ensures g.None? ==> MoreTuples(Show(s)) == 0 == MoreTuples(Drop(s))
    ensures g.Some? ==>
              && h.Some? && c + g.value <= |s| && c + h.value <= |Drop(s)|
              && MoreTuples(Show(s)) == c + g.value + MoreTuples(Show(s)[c + g.value..])
              && MoreTuples(Drop(s)) == c + h.value + MoreTuples(Drop(s)[c + h.value..])
  {
    hide *;
    TuplesStep(Show(s));
    TuplesStep(Drop(s));
    TupleStartsAlike(s);
    c := TupleStart(Show(s));
    CountsTail(s, c, c);
    SpacedGroupsAlike(s[c..]);
    g, h := SpacedGroup(Show(s[c..])), SpacedGroup(Drop(s[c..]));
    SameGroupMeans(s, c, g, h);
  }

  lemma {:induction false} MoreTuplesAlike(s: seq<Symbol>)
    requires Led(s)
    ensures Counts(s, MoreTuples(Show(s)), MoreTuples(Drop(s)))
    decreases |s|
  {
    hide *;
    var c, g, h := TuplesHere(s);
    SameGroupMeans(s, c, g, h);
    CountsNone(s);
    if g.Some? {
      var u := s[c + g.value..];
      MoreTuplesAlike(u);
      CountsAdd(s, c + g.value, c + h.value, MoreTuples(Show(u)), MoreTuples(Drop(u)));
    }
  }

  lemma {:induction false} WordsAlike(s: seq<Symbol>, w: seq<byte>)
    requires Led(s) && forall i | 0 <= i < |w| :: IsLower(w[i])
    ensures StartsWith(Drop(s), w) <==> StartsWith(Show(s), w)
    ensures StartsWith(Show(s), w) ==> Counts(s, |w|, |w|)
    decreases |w|
  {
    hide Led, Counts, StartsWith, Drop;
    if w == [] {
      CountsNone(s);
      StartsNil(Show(s));
      StartsNil(Drop(s));
    } else {
      HeadsAlike(s);
      StartsCons(Show(s), w);
      StartsCons(Drop(s), w);
      if s != [] && Show(s)[0] == w[0] {
        assert s[0] == w[0];
        CountsOne(s);
        CountsTail(s, 1, 1);
        WordsAlike(s[1..], w[1..]);
        if StartsWith(Show(s), w) { CountsAdd(s, 1, 1, |w| - 1, |w| - 1); }
      }
    }
  }

  lemma {:induction false} StartsNil(r: seq<byte>)
    ensures StartsWith(r, [])
  {
  }

  /** The size of the list behind its word, or 0. */
  function ListBehind(l: List, r: seq<byte>, k: nat): nat
    requires k <= |r|
  {
    match SpacedGroup(r[k..])
    case None => 0
    case Some(n) => k + n + if l == Values then MoreTuples(r[k + n..]) else 0
  }

  lemma {:induction false} ListAtIs(l: List, prev: Option<byte>, r: seq<byte>)
    ensures ListAt(l, prev, r) == if WordAt(prev, r, Word(l)) then ListBehind(l, r, |Word(l)|) else 0
  {
    hide Word, SpacedGroup, MoreTuples, AtWordEdge;
  }

  lemma {:induction false} ListsBehindAlike(l: List, s: seq<Symbol>, k: nat)
    requires Led(s) && Counts(s, k, k) && k <= |s| && k <= |Drop(s)| && k > 0
    ensures Counts(s, ListBehind(l, Show(s), k), ListBehind(l, Drop(s), k))
    ensures ListBehind(l, Show(s), k) > 0 <==> ListBehind(l, Drop(s), k) > 0
  {
    hide Led, Counts, SpacedGroup, MoreTuples, Drop, Show, SameGroup;
    CountsTail(s, k, k);
    SpacedGroupsAlike(s[k..]);
    var g, h := SpacedGroup(Show(s[k..])), SpacedGroup(Drop(s[k..]));
    SameGroupMeans(s, k, g, h);
    CountsNone(s);
    if g.Some? {
      var u := s[k + g.value..];
      MoreTuplesAlike(u);
      CountsAdd(s, k + g.value, k + h.value, MoreTuples(Show(u)), MoreTuples(Drop(u)));
    }
  }

  lemma {:induction false} WordAtAlike(prev: Option<byte>, s: seq<Symbol>, w: seq<byte>)
    requires Led(s) && forall i | 0 <= i < |w| :: IsLower(w[i])
    ensures WordAt(prev, Drop(s), w) <==> WordAt(prev, Show(s), w)
    ensures WordAt(prev, Show(s), w) ==> Counts(s, |w|, |w|)
  {
    hide Led, Counts, Drop, AtWordEdge;
    WordsAlike(s, w);
    if StartsWith(Show(s), w) {
      CountsTail(s, |w|, |w|);
      HeadsAlike(s[|w|..]);
    }
  }

  /** A list of the one reading is a list of the other. */
  lemma {:induction false} ListsAlike(l: List, prev: Option<byte>, s: seq<Symbol>)
    requires Led(s)
    ensures var n, m := ListAt(l, prev, Show(s)), ListAt(l, prev, Drop(s));
            Counts(s, n, m) && (n > 0 <==> m > 0)
  {
    var w := Word(l);
    WordAtAlike(prev, s, w);
    ListAtIs(l, prev, Show(s));
    ListAtIs(l, prev, Drop(s));
    CountsNone(s);
    if WordAt(prev, Show(s), w) {
      CountsTail(s, |w|, |w|);
      ListsBehindAlike(l, s, |w|);
    }
    hide *;
  }

  /** A collapsing pass over shadowed text: shadows inside lists are gone. */
  function Folded(l: List, prev: Option<byte>, s: seq<Symbol>): seq<Symbol>
    decreases |s|
  {
    if s == [] then []
    else
      var n := ListAt(l, prev, Show(s));
      if n > 0 then Text(l) + Folded(l, Some(CLOSE), s[n..])
      else [s[0]] + Folded(l, Some(ShowOne(s[0])), s[1..])
  }

  lemma {:induction false} FoldedStep(l: List, prev: Option<byte>, s: seq<Symbol>)
    requires s != []
    ensures var n := ListAt(l, prev, Show(s));
            Folded(l, prev, s) == if n > 0 then Text(l) + Folded(l, Some(CLOSE), s[n..])
                                  else [s[0]] + Folded(l, Some(ShowOne(s[0])), s[1..])
  {
  }

  lemma {:induction false} ShowCons(x: Symbol, s: seq<Symbol>)
    ensures Show([x] + s) == [ShowOne(x)] + Show(s)
  {
  }

  lemma {:induction false} ShowBehind(a: seq<byte>, s: seq<Symbol>)
    ensures Show(a + s) == a + Show(s)
  {
  }

  lemma {:induction false} ShowTail(s: seq<Symbol>, k: nat)
    requires k <= |s|
    ensures Show(s)[k..] == Show(s[k..])
    ensures s != [] ==> Show(s)[0] == ShowOne(s[0])
  {
  }

  lemma {:induction false} FoldedShows(l: List, prev: Option<byte>, s: seq<Symbol>)
    ensures Show(Folded(l, prev, s)) == Collapse(l, prev, Show(s))
    decreases |s|
  {
    if s == [] {
      assert Show(s) == [];
    } else {
      FoldedStep(l, prev, s);
      CollapseStep(l, prev, Show(s));
      var n := ListAt(l, prev, Show(s));
      if n > 0 {
        FoldedShows(l, Some(CLOSE), s[n..]);
        ShowTail(s, n);
        ShowBehind(Text(l), Folded(l, Some(CLOSE), s[n..]));
      } else {
        FoldedShows(l, Some(ShowOne(s[0])), s[1..]);
        ShowTail(s, 1);
        ShowCons(s[0], Folded(l, Some(ShowOne(s[0])), s[1..]));
      }
    }
    hide *;
  }

  predicate Marked(s: seq<Symbol>) {
    s != [] && (s[0] == SHADOW || s[0] == MARK)
  }

  lemma {:induction false} MarkedCopies(l: List, prev: Option<byte>, s: seq<Symbol>)
    requires Marked(s)
    ensures Folded(l, prev, s) == [s[0]] + Folded(l, Some(MARK), s[1..])
  {
    NotInWord(l, MARK);
    NoWordNoList(l, prev, Show(s));
    FoldedStep(l, prev, s);
    hide Folded, ListAt, Word;
  }

  /** What precedes a mark does not matter to it. */
  lemma {:induction false} MarkCopied(l: List, prev: Option<byte>, r: seq<byte>)
    requires AtMark(r)
    ensures Collapse(l, prev, r) == [MARK] + Collapse(l, Some(MARK), r[1..])
  {
    NotInWord(l, MARK);
    Copied(l, prev, r);
    hide Collapse, Word;
  }

  lemma {:induction false} FoldedLed(l: List, prev: Option<byte>, s: seq<Symbol>)
    requires Led(s)
    ensures Led(Folded(l, prev, s)) && (Marked(s) ==> Marked(Folded(l, prev, s)))
    decreases |s|
  {
    if s != [] {
      FoldedStep(l, prev, s);
      var n := ListAt(l, prev, Show(s));
      if Marked(s) { MarkedCopies(l, prev, s); }
      hide Folded, ListAt, Text;
      if n > 0 {
        LedTail(s, n);
        FoldedLed(l, Some(CLOSE), s[n..]);
        DropBytes(Text(l));
        LedAppend(Text(l), Folded(l, Some(CLOSE), s[n..]));
      } else {
        LedTail(s, 1);
        FoldedLed(l, Some(ShowOne(s[0])), s[1..]);
        LedCons(s[0], Folded(l, Some(ShowOne(s[0])), s[1..]));
      }
    }
  }

  lemma {:induction false} LedCons(x: Symbol, s: seq<Symbol>)
    requires Led(s) && (x == SHADOW ==> Marked(s))
    ensures Led([x] + s)
  {
    var t := [x] + s;
    forall i | 0 <= i < |t| && t[i] == SHADOW ensures i + 1 < |t| && (t[i + 1] == SHADOW || t[i + 1] == MARK) {
      assert t[i] == if i == 0 then x else s[i - 1];
    }
  }

  lemma {:induction false} DropCons(x: Symbol, s: seq<Symbol>)
    ensures Drop([x] + s) == (if x == SHADOW then [] else [x]) + Drop(s)
  {
    assert ([x] + s)[1..] == s;
  }

  lemma {:induction false} DropBehind(a: seq<byte>, s: seq<Symbol>)
    ensures Drop(a + s) == a + Drop(s)
  {
    DropAppend(a, s);
    DropBytes(a);
  }

  /** A shadow, or a mark, is copied. */
  lemma {:induction false} FoldedMark(l: List, p: Option<byte>, q: Option<byte>, s: seq<Symbol>)
    requires Led(s) && Marked(s)
    requires s[0] == SHADOW ==> Drop(Folded(l, Some(MARK), s[1..])) == Collapse(l, q, Drop(s[1..]))
    requires s[0] == MARK ==> Drop(Folded(l, Some(MARK), s[1..])) == Collapse(l, Some(MARK), Drop(s[1..]))
    ensures Drop(Folded(l, p, s)) == Collapse(l, q, Drop(s))
  {
    MarkedCopies(l, p, s);
    DropStep(s);
    DropCons(s[0], Folded(l, Some(MARK), s[1..]));
    hide Folded, Collapse, Drop, Led;
    if s[0] == MARK {
      MarkCopied(l, q, Drop(s));
      assert Drop(s)[1..] == Drop(s[1..]);
    } else {
      assert [] + Drop(s[1..]) == Drop(s[1..]);
      var f := Drop(Folded(l, Some(MARK), s[1..]));
      assert [] + f == f;
    }
  }

  /** A list, or a byte that is no mark. */
  lemma {:induction false} FoldedByte(l: List, p: Option<byte>, s: seq<Symbol>)
    requires Led(s) && s != [] && !Marked(s)
    requires var n := ListAt(l, p, Show(s));
             if n > 0 then Drop(Folded(l, Some(CLOSE), s[n..])) == Collapse(l, Some(CLOSE), Drop(s[n..]))
             else Drop(Folded(l, Some(ShowOne(s[0])), s[1..])) == Collapse(l, Some(ShowOne(s[0])), Drop(s[1..]))
    ensures Drop(Folded(l, p, s)) == Collapse(l, p, Drop(s))
  {
    FoldedStep(l, p, s);
    ListsAlike(l, p, s);
    DropStep(s);
    CollapseStep(l, p, Drop(s));
    assert ShowOne(s[0]) == s[0];
    var n, m := ListAt(l, p, Show(s)), ListAt(l, p, Drop(s));
    CountsTail(s, n, m);
    hide *;
    if n > 0 {
      DropBehind(Text(l), Folded(l, Some(CLOSE), s[n..]));
    } else {
      DropCons(s[0], Folded(l, Some(s[0]), s[1..]));
      assert ([s[0]] + Drop(s[1..]))[1..] == Drop(s[1..]);
    }
  }

  lemma {:induction false} FoldedDrops(l: List, p: Option<byte>, q: Option<byte>, s: seq<Symbol>)
    requires Led(s) && (p == q || Marked(s))
    ensures Drop(Folded(l, p, s)) == Collapse(l, q, Drop(s))
    decreases |s|
  {
    if s != [] {
      if Marked(s) {
        LedTail(s, 1);
        if s[0] == SHADOW {
          FoldedDrops(l, Some(MARK), q, s[1..]);
        } else {
          FoldedDrops(l, Some(MARK), Some(MARK), s[1..]);
        }
        FoldedMark(l, p, q, s);
      } else {
        var n := ListAt(l, p, Show(s));
        LedTail(s, if n > 0 then n else 1);
        if n > 0 {
          FoldedDrops(l, Some(CLOSE), Some(CLOSE), s[n..]);
        } else {
          FoldedDrops(l, Some(ShowOne(s[0])), Some(ShowOne(s[0])), s[1..]);
        }
        FoldedByte(l, p, s);
      }
    }
    hide Folded, Collapse, ListAt;
  }

  /** Collapsing casts no shadow. */
  lemma {:induction false} FoldedLight(l: List, prev: Option<byte>, s: seq<Symbol>)
    requires SHADOW !in s
    ensures SHADOW !in Folded(l, prev, s)
    decreases |s|
  {
    if s != [] {
      FoldedStep(l, prev, s);
      hide Folded, ListAt, Text;
      var n := ListAt(l, prev, Show(s));
      if n > 0 {
        FoldedLight(l, Some(CLOSE), s[n..]);
      } else {
        FoldedLight(l, Some(ShowOne(s[0])), s[1..]);
      }
    }
  }
}
