/** A prepared statement and its executions share a fingerprint. */
module Templates {
  import opened Bytes
  import opened Utf8
  import opened Fingerprints
  import opened Literals
  import opened Interpolation
  import opened Shadows

  // ---------------------------------------------------------------------
  // Touching quotes
  // ---------------------------------------------------------------------

  /** A part whose image is a single-quoted string. */
  predicate Stringy(r: seq<byte>) {
    r != [] && (r[0] == QUOTE || r[0] == MARK)
  }

  /** How many placeholders and single-quoted strings directly follow another. */
  function Touches(r: seq<byte>): nat
    decreases |r|
  {
    if r == [] then 0
    else
      var rest := r[PartWidth(r)..];
      Touches(rest) + if Stringy(r) && Stringy(rest) then 1 else 0
  }

  lemma {:induction false} TouchesStep(r: seq<byte>)
    requires r != []
    ensures var rest := r[PartWidth(r)..];
            Touches(r) == Touches(rest) + if Stringy(r) && Stringy(rest) then 1 else 0
  {
  }

  predicate Strings(vals: seq<seq<byte>>) {
    forall v | v in vals :: IsString(v)
  }

  /** A placeholder has become a string, everything else starts as it did. */
  predicate SameHead(y: seq<byte>, z: seq<byte>) {
    if y == [] then z == []
    else z != [] && z[0] == if y[0] == MARK then QUOTE else y[0]
  }

  predicate Ready(r: seq<byte>, vals: seq<seq<byte>>) {
    Valid(r) && Holes(r) <= |vals| && Strings(vals)
  }

  lemma {:induction false} HeadSync(r: seq<byte>, vals: seq<seq<byte>>)
    requires Ready(r, vals)
    ensures SameHead(r, Image(r, vals))
  {
    if r != [] {
      ImageStep(r, vals);
      if PartOf(r) == Hole {
        HoleWidth(r);
        assert vals[0] in vals;
      }
    }
  }

  /** The first `k` bytes are copied, and no string or placeholder is among them. */
  predicate Runs(r: seq<byte>, vals: seq<seq<byte>>, k: nat) {
    && k <= |r| && Holes(r) <= |vals|
    && Ready(r[k..], vals) && Touches(r[k..]) == Touches(r)
    && Image(r, vals) == r[..k] + Image(r[k..], vals)
  }

  lemma {:induction false} RunsPart(r: seq<byte>, vals: seq<seq<byte>>)
    requires Ready(r, vals) && r != [] && !Stringy(r)
    ensures Runs(r, vals, PartWidth(r))
  {
    assert PartOf(r) != Hole;
    ImageStep(r, vals);
    PartIsValid(r);
    TouchesStep(r);
    hide Image, Holes, PartOf, PartWidth, Valid, Touches, Strings;
  }

  lemma {:induction false} RunsNone(r: seq<byte>, vals: seq<seq<byte>>)
    requires Ready(r, vals)
    ensures Runs(r, vals, 0)
  {
    assert r[0..] == r && r[..0] == [];
    hide Image, Holes, Valid, Touches, Strings;
  }

  lemma {:induction false} RunsFacts(r: seq<byte>, vals: seq<seq<byte>>, k: nat)
    requires Runs(r, vals, k)
    ensures k <= |r| && Holes(r) <= |vals| && Ready(r[k..], vals) && Touches(r[k..]) == Touches(r)
    ensures Image(r, vals) == r[..k] + Image(r[k..], vals)
  {
  }

  lemma {:induction false} MakeRuns(r: seq<byte>, vals: seq<seq<byte>>, k: nat, rest: seq<byte>)
    requires k <= |r| && rest == r[k..] && Holes(r) <= |vals| && Ready(rest, vals) && Touches(rest) == Touches(r)
    requires Image(r, vals) == r[..k] + Image(rest, vals)
    ensures Runs(r, vals, k)
  {
  }

  lemma {:induction false} RunsAdd(r: seq<byte>, vals: seq<seq<byte>>, j: nat, k: nat)
    requires Runs(r, vals, j) && Runs(r[j..], vals, k)
    ensures Runs(r, vals, j + k)
  {
    hide *;
    RunsFacts(r, vals, j);
    RunsFacts(r[j..], vals, k);
    var a, b, c := r[..j], r[j..][..k], r[j..][k..];
    assert c == r[j + k..];
    assert a + b == r[..j + k];
    assert (a + b) + Image(c, vals) == a + (b + Image(c, vals));
    MakeRuns(r, vals, j + k, c);
  }

  /** A byte that starts nothing special. */
  lemma {:induction false} RunsOne(r: seq<byte>, vals: seq<seq<byte>>)
    requires Ready(r, vals) && r != [] && r[0] < 0x80 && PartOf(r) == Plain
    ensures Runs(r, vals, 1) && Image(r, vals) == [r[0]] + Image(r[1..], vals)
  {
    AfterAscii(r, 1);
    assert PartWidth(r) == 1;
    assert !Stringy(r);
    assert r[..1] == [r[0]];
    hide PartWidth, Stringy, Ready, Touches, Image, Holes;
    RunsPart(r, vals);
  }

  lemma {:induction false} RunsMean(r: seq<byte>, vals: seq<seq<byte>>, k: nat)
    requires Runs(r, vals, k)
    ensures k <= |r| && Ready(r[k..], vals) && Image(r, vals)[k..] == Image(r[k..], vals)
    ensures Image(r, vals)[..k] == r[..k]
  {
    hide Image, Holes, Ready, Touches;
    assert (r[..k] + Image(r[k..], vals))[k..] == Image(r[k..], vals);
  }

  // ---------------------------------------------------------------------
  // Numbers
  // ---------------------------------------------------------------------

  lemma {:induction false} DigitsSync(r: seq<byte>, vals: seq<seq<byte>>)
    requires Ready(r, vals)
    ensures Digits(Image(r, vals)) == Digits(r) && Runs(r, vals, Digits(r))
    decreases |r|
  {
    hide Ready, Runs, Image, Touches, Holes;
    HeadSync(r, vals);
    if r != [] && IsDigit(r[0]) {
      RunsOne(r, vals);
      assert ([r[0]] + Image(r[1..], vals))[1..] == Image(r[1..], vals);
      RunsMean(r, vals, 1);
      DigitsSync(r[1..], vals);
      RunsAdd(r, vals, 1, Digits(r[1..]));
    } else {
      RunsNone(r, vals);
    }
  }

  lemma {:induction false} HexSync(r: seq<byte>, vals: seq<seq<byte>>)
    requires Ready(r, vals)
    ensures HexDigits(Image(r, vals)) == HexDigits(r) && Runs(r, vals, HexDigits(r))
    decreases |r|
  {
    hide Ready, Runs, Image, Touches, Holes;
    HeadSync(r, vals);
    if r != [] && IsHexDigit(r[0]) {
      RunsOne(r, vals);
      assert ([r[0]] + Image(r[1..], vals))[1..] == Image(r[1..], vals);
      RunsMean(r, vals, 1);
      HexSync(r[1..], vals);
      RunsAdd(r, vals, 1, HexDigits(r[1..]));
    } else {
      RunsNone(r, vals);
    }
  }

  lemma {:induction false} FractionSync(r: seq<byte>, vals: seq<seq<byte>>)
    requires Ready(r, vals)
    ensures Fraction(Image(r, vals)) == Fraction(r) && Runs(r, vals, Fraction(r))
  {
    hide Ready, Runs, Image, Touches, Holes, Digits;
    HeadSync(r, vals);
    if r != [] && r[0] == DOT {
      RunsOne(r, vals);
      RunsMean(r, vals, 1);
      DigitsSync(r[1..], vals);
      RunsAdd(r, vals, 1, Digits(r[1..]));
    } else {
      RunsNone(r, vals);
    }
  }

  /** The byte behind a copied one. */
  lemma {:induction false} SecondSync(r: seq<byte>, vals: seq<seq<byte>>)
    requires Ready(r, vals) && r != [] && !Stringy(r)
    ensures var i := Image(r, vals);
            && i != [] && i[0] == r[0]
            && (SameHead(r[1..], i[1..]) || (|r| > 1 && |i| > 1 && i[1] == r[1]))
  {
    var w := PartWidth(r);
    hide PartWidth, Ready, Image, Touches, Holes, Stringy;
    RunsPart(r, vals);
    RunsMean(r, vals, w);
    var i := Image(r, vals);
    assert i[..w][0] == r[..w][0];
    if w > 1 {
      assert i[..w][1] == r[..w][1];
    } else {
      HeadSync(r[1..], vals);
    }
  }

  lemma {:induction false} ExponentSync(r: seq<byte>, vals: seq<seq<byte>>)
    requires Ready(r, vals)
    ensures Exponent(Image(r, vals)) == Exponent(r) && Runs(r, vals, Exponent(r))
  {
    hide Ready, Runs, Image, Touches, Holes, Digits;
    HeadSync(r, vals);
    RunsNone(r, vals);
    if r != [] && (r[0] == 0x65 || r[0] == 0x45) {
      RunsOne(r, vals);
      RunsMean(r, vals, 1);
      HeadSync(r[1..], vals);
      SignSync(r[1..], vals);
      assert Image(r, vals)[1..] == Image(r[1..], vals);
      ExponentIs(r);
      ExponentIs(Image(r, vals));
      hide Exponent;
      if Exponent(r) > 0 { RunsAdd(r, vals, 1, Exponent(r) - 1); }
    }
  }

  /** The exponent behind its `e`: an optional sign and digits, or nothing. */
  function SignedDigits(r: seq<byte>): (n: nat)
    ensures n <= |r|
  {
    var s := if r != [] && IsSign(r[0]) then 1 else 0;
    if s < |r| && IsDigit(r[s]) then s + Digits(r[s..]) else 0
  }

  lemma {:induction false} ExponentIs(r: seq<byte>)
    requires r != [] && (r[0] == 0x65 || r[0] == 0x45)
    ensures Exponent(r) == if SignedDigits(r[1..]) > 0 then 1 + SignedDigits(r[1..]) else 0
  {
    if |r| > 1 { assert r[1..][1..] == r[2..]; }
    assert r[1..][0..] == r[1..];
  }

  lemma {:induction false} SignSync(r: seq<byte>, vals: seq<seq<byte>>)
    requires Ready(r, vals)
    ensures SignedDigits(Image(r, vals)) == SignedDigits(r) && Runs(r, vals, SignedDigits(r))
  {
    hide Ready, Runs, Image, Touches, Holes, Digits;
    HeadSync(r, vals);
    RunsNone(r, vals);
    var i := Image(r, vals);
    if r != [] && IsSign(r[0]) {
      SecondSync(r, vals);
      if |r| > 1 && IsDigit(r[1]) {
        RunsOne(r, vals);
        RunsMean(r, vals, 1);
        DigitsSync(r[1..], vals);
        RunsAdd(r, vals, 1, Digits(r[1..]));
        assert i[1..] == Image(r[1..], vals);
      }
    } else {
      DigitsSync(r, vals);
      assert r[0..] == r && i[0..] == i;
    }
  }

  lemma {:induction false} NumberSync(r: seq<byte>, vals: seq<seq<byte>>)
    requires Ready(r, vals)
    ensures InNumber(Image(r, vals)) == InNumber(r) && Runs(r, vals, InNumber(r))
  {
    hide Ready, Runs, Image, Touches, Holes, Digits, HexDigits, Fraction, Exponent, InNumber;
    var i := Image(r, vals);
    HexStartSync(r, vals);
    if StartsHex(r) {
      InHex(r);
      InHex(i);
      HexSync(r[2..], vals);
      RunsMean(r, vals, 2);
      RunsAdd(r, vals, 2, HexDigits(r[2..]));
    } else {
      DigitsSync(r, vals);
      var d := Digits(r);
      RunsMean(r, vals, d);
      FractionSync(r[d..], vals);
      var f := d + Fraction(r[d..]);
      RunsAdd(r, vals, d, Fraction(r[d..]));
      RunsMean(r, vals, f);
      ExponentSync(r[f..], vals);
      RunsAdd(r, vals, f, Exponent(r[f..]));
      InDecimal(r, d, f);
      InDecimal(i, d, f);
    }
  }

  lemma {:induction false} HexStartSync(r: seq<byte>, vals: seq<seq<byte>>)
    requires Ready(r, vals)
    ensures StartsHex(Image(r, vals)) == StartsHex(r)
    ensures StartsHex(r) ==> Runs(r, vals, 2) && Ready(r[2..], vals)
  {
    hide Ready, Runs, Image, Touches, Holes;
    HeadSync(r, vals);
    if r != [] && r[0] == ZERO {
      RunsOne(r, vals);
      RunsMean(r, vals, 1);
      HeadSync(r[1..], vals);
      assert Image(r, vals)[1..] == Image(r[1..], vals);
      if StartsHex(r) {
        RunsOne(r[1..], vals);
        RunsAdd(r, vals, 1, 1);
        RunsMean(r, vals, 2);
      }
    }
  }

  // ---------------------------------------------------------------------
  // Tokens that are copied whole
  // ---------------------------------------------------------------------

  lemma {:induction false} ReString(r: seq<byte>, x: seq<byte>, q: byte)
    requires var n := InString(r, q);
             if n == |r| then x == [] else x != [] && x[0] != q
    ensures InString(r[..InString(r, q)] + x, q) == InString(r, q)
    decreases |r|
  {
    var n := InString(r, q);
    var s := r[..n] + x;
    if n == |r| {
      assert s == r;
    } else if r[0] == BACKSLASH || (r[0] == q && |r| > 1 && r[1] == q) {
      ReString(r[2..], x, q);
      assert s[2..] == r[2..][..n - 2] + x;
    } else if r[0] == q {
      assert s == [q] + x;
    } else {
      ReString(r[1..], x, q);
      assert s[1..] == r[1..][..n - 1] + x;
    }
  }

  /** No quote follows a closed string. */
  lemma {:induction false} NotDoubled(r: seq<byte>, q: byte)
    ensures InString(r, q) < |r| ==> r[InString(r, q)] != q
    decreases |r|
  {
    if r != [] {
      NotDoubled(r[1..], q);
      if |r| >= 2 { NotDoubled(r[2..], q); }
    }
  }

  lemma {:induction false} TicksPair(t: seq<byte>)
    ensures InTicks([TICK, TICK] + t) == 2 + InTicks(t)
  {
    assert ([TICK, TICK] + t)[2..] == t;
  }

  lemma {:induction false} TicksEnd(x: seq<byte>)
    requires x == [] || x[0] != TICK
    ensures InTicks([TICK] + x) == 1
  {
    assert x != [] ==> ([TICK] + x)[1] == x[0];
  }

  /** The scanners agree, and what follows is no backtick. */
  predicate TicksMatch(r: seq<byte>) {
    InTicks(r) == InTick(r) && (InTick(r) < |r| ==> r[InTick(r)] != TICK)
  }

  lemma {:induction false} TicksMatchBehind(c: seq<byte>, t: seq<byte>)
    requires InTicks(c + t) == |c| + InTicks(t) && InTick(c + t) == |c| + InTick(t) && TicksMatch(t)
    ensures TicksMatch(c + t)
  {
    hide InTick, InTicks;
  }

  lemma {:induction false} TicksMatchEnd(x: seq<byte>)
    requires x == [] || x[0] != TICK
    ensures TicksMatch([TICK] + x)
  {
    TickEnd(x);
    TicksEnd(x);
    hide InTick, InTicks;
  }

  lemma {:induction false} TicksMatchNil()
    ensures TicksMatch([])
  {
  }

  lemma {:induction false} TicksMatching(r: seq<byte>)
    requires Valid(r)
    ensures TicksMatch(r)
    decreases |r|
  {
    hide *;
    if r == [] {
      TicksMatchNil();
    } else {
      var c, t := FirstChar(r);
      if c[0] != TICK {
        TicksMatching(t);
        NoTickIn(c);
        InTicksOver(c, t);
        TickOver(c, t);
        TicksMatchBehind(c, t);
      } else {
        TickChar(c);
        if t != [] && t[0] == TICK {
          var d, u := FirstChar(t);
          TickChar(d);
          assert r == [TICK, TICK] + u;
          TicksMatching(u);
          TickPair(u);
          TicksPair(u);
          TicksMatchBehind([TICK, TICK], u);
        } else {
          TicksMatchEnd(t);
        }
      }
    }
  }

  lemma {:induction false} NoTickIn(c: seq<byte>)
    requires IsChar(c) && c[0] != TICK
    ensures TICK !in c
  {
  }

  /** On valid text the two identifier scanners agree, and stop at a lone backtick. */
  lemma {:induction false} TicksAgree(r: seq<byte>)
    requires Valid(r)
    ensures InTicks(r) == InTick(r)
    ensures InTick(r) < |r| ==> r[InTick(r)] != TICK
  {
    TicksMatching(r);
    hide InTick, InTicks;
  }

  lemma {:induction false} InTicksOver(c: seq<byte>, t: seq<byte>)
    requires TICK !in c
    ensures InTicks(c + t) == |c| + InTicks(t)
    decreases |c|
  {
    if c == [] {
      assert c + t == t;
    } else {
      assert c[0] in c && forall b | b in c[1..] :: b in c;
      assert (c + t)[1..] == c[1..] + t;
      InTicksOver(c[1..], t);
    }
  }

  lemma {:induction false} TickOver(c: seq<byte>, t: seq<byte>)
    requires IsChar(c) && c[0] != TICK
    ensures InTick(c + t) == |c| + InTick(t) && TickText(c + t) == CharText(c) + TickText(t)
  {
    SameChar(c, t, []);
    CharIs(c, t);
    assert c + [] == c;
    assert (c + t)[0] == c[0];
    hide IsChar, StartsChar, CharWidth, CharText;
  }

  lemma {:induction false} TickPair(t: seq<byte>)
    ensures InTick([TICK, TICK] + t) == 2 + InTick(t)
    ensures TickText([TICK, TICK] + t) == [TICK, TICK] + TickText(t)
  {
    assert ([TICK, TICK] + t)[2..] == t;
  }

  lemma {:induction false} TickEnd(x: seq<byte>)
    requires x == [] || x[0] != TICK
    ensures InTick([TICK] + x) == 1 && TickText([TICK] + x) == [TICK]
  {
    assert x != [] ==> ([TICK] + x)[1] == x[0];
  }

  lemma {:induction false} ReTick(r: seq<byte>, x: seq<byte>)
    requires Valid(r)
    requires if InTick(r) == |r| then x == [] else x != [] && x[0] != TICK
    ensures InTick(r[..InTick(r)] + x) == InTick(r) && TickText(r[..InTick(r)] + x) == TickText(r)
    decreases |r|
  {
    hide *;
    var n := InTick(r);
    var s := r[..n] + x;
    if n == |r| {
      assert s == r;
    } else {
      var c, t := FirstChar(r);
      if c[0] != TICK {
        TickOver(c, t);
        ReTick(t, x);
        CutBehind(c, t, n, x);
        TickOver(c, t[..n - |c|] + x);
      } else {
        TickChar(c);
        if t != [] && t[0] == TICK {
          var d, u := FirstChar(t);
          TickChar(d);
          assert r == [TICK, TICK] + u;
          TickPair(u);
          ReTick(u, x);
          CutBehind([TICK, TICK], u, n, x);
          TickPair(u[..n - 2] + x);
        } else {
          TickEnd(t);
          TickEnd(x);
          CutBehind([TICK], t, n, x);
          assert [TICK] + (t[..0] + x) == [TICK] + x;
        }
      }
    }
  }

  lemma {:induction false} CutBehind(c: seq<byte>, t: seq<byte>, n: nat, x: seq<byte>)
    requires |c| <= n <= |c + t|
    ensures (c + t)[..n] + x == c + (t[..n - |c|] + x)
  {
  }

  lemma {:induction false} TickChar(c: seq<byte>)
    requires IsChar(c) && c[0] == TICK
    ensures c == [TICK]
  {
  }

  /** A character reads the same whatever follows it. */
  lemma {:induction false} SameChar(c: seq<byte>, x: seq<byte>, y: seq<byte>)
    requires IsChar(c)
    ensures CharWidth(c + x) == CharWidth(c + y) == |c| && CharText(c + x) == CharText(c + y)
  {
    CharIs(c, x);
    CharIs(c, y);
    assert (c + x)[0] == (c + y)[0] == c[0];
  }

  lemma {:induction false} ReBlock(r: seq<byte>, x: seq<byte>)
    requires InBlock(r) == |r| ==> x == []
    ensures InBlock(r[..InBlock(r)] + x) == InBlock(r)
    decreases |r|
  {
    var n := InBlock(r);
    var s := r[..n] + x;
    if n == |r| {
      assert s == r;
    } else if r[0] == STAR && r[1] == SLASH {
      assert s[0] == STAR && s[1] == SLASH;
    } else {
      ReBlock(r[1..], x);
      assert s[1..] == r[1..][..n - 1] + x;
      assert n >= 2 by { if |r| < 2 {} }
      assert s[0] == r[0] && s[1] == r[1];
    }
  }

  lemma {:induction false} ReLine(r: seq<byte>, x: seq<byte>)
    requires x != [] ==> x[0] == NEWLINE
    ensures InLine(r[..InLine(r)] + x) == InLine(r)
    decreases |r|
  {
    var n := InLine(r);
    var s := r[..n] + x;
    if n == 0 {
      assert s == x;
    } else {
      ReLine(r[1..], x);
      assert s[1..] == r[1..][..n - 1] + x;
    }
  }

  // ---------------------------------------------------------------------
  // One token of the template and of its image
  // ---------------------------------------------------------------------

  lemma {:induction false} ThirdSync(r: seq<byte>, vals: seq<seq<byte>>)
    requires Ready(r, vals) && |r| > 1 && r[0] == MINUS && r[1] == MINUS
    ensures var i := Image(r, vals);
            && |i| > 1 && i[0] == MINUS && i[1] == MINUS
            && (SameHead(r[2..], i[2..]) || (|r| > 2 && |i| > 2 && i[2] == r[2]))
  {
    var w := PartWidth(r);
    hide PartWidth, Ready, Image, Touches, Holes;
    RunsPart(r, vals);
    RunsMean(r, vals, w);
    var i := Image(r, vals);
    assert forall k | 0 <= k < w :: i[..w][k] == r[..w][k];
    if w == 1 {
      SecondSync(r[1..], vals);
      assert i[1..] == Image(r[1..], vals);
      assert r[1..][1..] == r[2..] && i[1..][1..] == i[2..];
    } else if w == 2 {
      HeadSync(r[2..], vals);
    }
  }

  lemma {:induction false} KindSync(r: seq<byte>, vals: seq<seq<byte>>)
    requires Ready(r, vals) && r != [] && !Stringy(r)
    ensures Image(r, vals) != [] && Image(r, vals)[0] == r[0] && KindOf(Image(r, vals)) == KindOf(r)
  {
    hide Ready, Image;
    SecondSync(r, vals);
    if |r| > 1 && r[0] == MINUS && r[1] == MINUS { ThirdSync(r, vals); }
  }

  lemma {:induction false} CopiedPart(r: seq<byte>, vals: seq<seq<byte>>) returns (x: seq<byte>)
    requires Ready(r, vals) && r != [] && !Stringy(r)
    ensures Runs(r, vals, PartWidth(r)) && Image(r, vals) == r[..PartWidth(r)] + x
    ensures SameHead(r[PartWidth(r)..], x)
  {
    RunsPart(r, vals);
    x := Image(r[PartWidth(r)..], vals);
    HeadSync(r[PartWidth(r)..], vals);
    hide Image, Ready, PartWidth, SameHead;
  }

  lemma {:induction false} QuotedSync(r: seq<byte>, vals: seq<seq<byte>>)
    requires Ready(r, vals) && r != [] && r[0] == DQUOTE
    ensures Runs(r, vals, 1 + InString(r[1..], DQUOTE))
    ensures Image(r, vals) != [] && InString(Image(r, vals)[1..], DQUOTE) == InString(r[1..], DQUOTE)
  {
    var x := CopiedPart(r, vals);
    var n := InString(r[1..], DQUOTE);
    assert PartWidth(r) == 1 + n;
    hide Ready, Runs, Image, InString;
    NotDoubled(r[1..], DQUOTE);
    assert Image(r, vals)[1..] == r[1..][..n] + x;
    ReString(r[1..], x, DQUOTE);
  }

  lemma {:induction false} TickedWidth(r: seq<byte>)
    requires Valid(r) && r != [] && r[0] == TICK
    ensures Valid(r[1..]) && PartWidth(r) == 1 + InTick(r[1..])
    ensures 1 + InTick(r[1..]) < |r| ==> r[1 + InTick(r[1..])] != TICK
  {
    AfterAscii(r, 1);
    SplitAt(r, 1);
    TicksAgree(r[1..]);
    hide Valid, InTick, InTicks;
  }

  lemma {:induction false} TickedSync(r: seq<byte>, vals: seq<seq<byte>>)
    requires Ready(r, vals) && r != [] && r[0] == TICK
    ensures Runs(r, vals, 1 + InTick(r[1..]))
    ensures Image(r, vals) != [] && InTick(Image(r, vals)[1..]) == InTick(r[1..])
    ensures TickText(Image(r, vals)[1..]) == TickText(r[1..])
  {
    hide Runs, Image, InTick, TickText, Valid, PartWidth, Holes;
    TickedWidth(r);
    var x := CopiedPart(r, vals);
    var n := InTick(r[1..]);
    assert Image(r, vals)[1..] == r[1..][..n] + x;
    ReTick(r[1..], x);
  }

  lemma {:induction false} BlockSync(r: seq<byte>, vals: seq<seq<byte>>)
    requires Ready(r, vals) && r != [] && KindOf(r) == Block
    ensures |r| > 1 && Runs(r, vals, 2 + InBlock(r[2..]))
    ensures |Image(r, vals)| > 1 && InBlock(Image(r, vals)[2..]) == InBlock(r[2..])
  {
    var x := CopiedPart(r, vals);
    var n := InBlock(r[2..]);
    assert PartWidth(r) == 2 + n;
    hide Ready, Runs, Image, InBlock;
    assert Image(r, vals)[2..] == r[2..][..n] + x;
    ReBlock(r[2..], x);
  }

  lemma {:induction false} LineSync(r: seq<byte>, vals: seq<seq<byte>>)
    requires Ready(r, vals) && r != [] && KindOf(r) == Line
    ensures Runs(r, vals, InLine(r)) && InLine(Image(r, vals)) == InLine(r)
  {
    var x := CopiedPart(r, vals);
    assert PartWidth(r) == InLine(r);
    hide Ready, Runs, Image, InLine;
    ReLine(r, x);
  }

  /** A plain part is one character. */
  lemma {:induction false} PlainSync(r: seq<byte>, vals: seq<seq<byte>>)
    requires Ready(r, vals) && r != [] && PartOf(r) == Plain
    ensures Runs(r, vals, CharWidth(r)) && Image(r, vals) != []
    ensures CharWidth(Image(r, vals)) == CharWidth(r) && CharText(Image(r, vals)) == CharText(r)
    ensures r[0] < 0x80 ==> CharWidth(r) == 1
  {
    var c, t := FirstChar(r);
    var x := CopiedPart(r, vals);
    PlainWidth(r, c, t);
    assert r[..|c|] == c;
    SameChar(c, t, x);
    assert c + [] == c;
    CharHigh(c);
    hide Ready, Runs, Image, CharText, SameHead;
  }

  lemma {:induction false} PlainWidth(r: seq<byte>, c: seq<byte>, t: seq<byte>)
    requires r == c + t && Valid(t) && IsChar(c) && PartOf(r) == Plain
    requires forall i | 1 <= i < |c| :: IsCont(r[i])
    ensures PartWidth(r) == |c|
  {
    var k := Conts(r[1..]);
    if t != [] { CharShape(t); assert r[|c|] == t[0]; }
    assert forall i | 1 <= i < |r| :: r[1..][i - 1] == r[i];
    hide Conts, Valid, IsCont;
  }

  predicate SameKind(r: seq<byte>, i: seq<byte>) {
    r != [] && i != [] && i[0] == r[0] && KindOf(i) == KindOf(r)
  }

  /** One step of the fingerprint loop agrees on the template and its image. */
  predicate StepAgrees(r: seq<byte>, vals: seq<seq<byte>>, out: seq<byte>)
    requires r != []
  {
    var i := Image(r, vals);
    && i != [] && Width(i, EndsIdent(out)) == Width(r, EndsIdent(out)) && Emit(i, out) == Emit(r, out)
    && Runs(r, vals, Width(r, EndsIdent(out)))
  }

  lemma {:induction false} QuotedAgrees(r: seq<byte>, vals: seq<seq<byte>>, out: seq<byte>)
    requires Ready(r, vals) && r != [] && !Stringy(r) && KindOf(r) == Quoted && SameKind(r, Image(r, vals))
    ensures StepAgrees(r, vals, out)
  {
    QuotedSync(r, vals);
    hide KindOf, InString, InTick, TickText, InBlock, InLine, InNumber, CharWidth, CharText, FoldSign, PushSpace,
        EndsIdent,
      Ready, Runs, Image, Stringy, Holes;
  }

  lemma {:induction false} MakeAgrees(r: seq<byte>, vals: seq<seq<byte>>, out: seq<byte>, w: nat, e: seq<byte>)
    requires r != [] && Image(r, vals) != [] && Runs(r, vals, w)
    requires Width(r, EndsIdent(out)) == w == Width(Image(r, vals), EndsIdent(out))
    requires Emit(r, out) == e == Emit(Image(r, vals), out)
    ensures StepAgrees(r, vals, out)
  {
  }

  lemma {:induction false} TickedStep(r: seq<byte>, b: bool, out: seq<byte>)
    requires r != [] && KindOf(r) == Ticked
    ensures Width(r, b) == 1 + InTick(r[1..]) && Emit(r, out) == out + [TICK] + TickText(r[1..])
  {
    hide InTick, TickText, KindOf;
  }

  lemma {:induction false} NumberStep(r: seq<byte>, b: bool, out: seq<byte>)
    requires r != [] && KindOf(r) == Number
    ensures Width(r, b) == if b then 1 else InNumber(r)
    ensures Emit(r, out) == if EndsIdent(out) then out + [r[0]] else FoldSign(out) + [MARK]
  {
    hide InNumber, FoldSign, KindOf, EndsIdent;
  }

  lemma {:induction false} StartsTicked(r: seq<byte>)
    requires r != [] && KindOf(r) == Ticked
    ensures r[0] == TICK
  {
  }

  lemma {:induction false} SameKindMeans(r: seq<byte>, i: seq<byte>)
    requires SameKind(r, i)
    ensures r != [] && i != [] && i[0] == r[0] && KindOf(i) == KindOf(r)
  {
  }

  lemma {:induction false} TickedAgrees(r: seq<byte>, vals: seq<seq<byte>>, out: seq<byte>)
    requires Ready(r, vals) && r != [] && !Stringy(r) && KindOf(r) == Ticked && SameKind(r, Image(r, vals))
    ensures StepAgrees(r, vals, out)
  {
    hide *;
    var i := Image(r, vals);
    SameKindMeans(r, i);
    StartsTicked(r);
    TickedSync(r, vals);
    TickedStep(r, EndsIdent(out), out);
    TickedStep(i, EndsIdent(out), out);
    MakeAgrees(r, vals, out, 1 + InTick(r[1..]), out + [TICK] + TickText(r[1..]));
  }

  lemma {:induction false} BlockAgrees(r: seq<byte>, vals: seq<seq<byte>>, out: seq<byte>)
    requires Ready(r, vals) && r != [] && !Stringy(r) && KindOf(r) == Block && SameKind(r, Image(r, vals))
    ensures StepAgrees(r, vals, out)
  {
    BlockSync(r, vals);
    hide KindOf, InString, InTick, TickText, InBlock, InLine, InNumber, CharWidth, CharText, FoldSign, PushSpace,
        EndsIdent,
      Ready, Runs, Image, Stringy, Holes;
  }

  lemma {:induction false} LineAgrees(r: seq<byte>, vals: seq<seq<byte>>, out: seq<byte>)
    requires Ready(r, vals) && r != [] && !Stringy(r) && KindOf(r) == Line && SameKind(r, Image(r, vals))
    ensures StepAgrees(r, vals, out)
  {
    LineSync(r, vals);
    hide KindOf, InString, InTick, TickText, InBlock, InLine, InNumber, CharWidth, CharText, FoldSign, PushSpace,
        EndsIdent,
      Ready, Runs, Image, Stringy, Holes;
  }

  lemma {:induction false} SpaceAgrees(r: seq<byte>, vals: seq<seq<byte>>, out: seq<byte>)
    requires Ready(r, vals) && r != [] && !Stringy(r) && KindOf(r) == Space && SameKind(r, Image(r, vals))
    ensures StepAgrees(r, vals, out)
  {
    PlainSync(r, vals);
    hide KindOf, InString, InTick, TickText, InBlock, InLine, InNumber, CharWidth, CharText, FoldSign, PushSpace,
        EndsIdent,
      Ready, Runs, Image, Stringy, Holes;
  }

  lemma {:induction false} NumberIsPlain(r: seq<byte>)
    requires r != [] && KindOf(r) == Number
    ensures PartOf(r) == Plain && r[0] < 0x80
  {
  }

  lemma {:induction false} NumberAgrees(r: seq<byte>, vals: seq<seq<byte>>, out: seq<byte>)
    requires Ready(r, vals) && r != [] && !Stringy(r) && KindOf(r) == Number && SameKind(r, Image(r, vals))
    ensures StepAgrees(r, vals, out)
  {
    hide *;
    var i := Image(r, vals);
    SameKindMeans(r, i);
    NumberIsPlain(r);
    PlainSync(r, vals);
    NumberSync(r, vals);
    NumberStep(r, EndsIdent(out), out);
    NumberStep(i, EndsIdent(out), out);
    MakeAgrees(r, vals, out, if EndsIdent(out) then 1 else InNumber(r),
               if EndsIdent(out) then out + [r[0]] else FoldSign(out) + [MARK]);
  }

  lemma {:induction false} CharAgrees(r: seq<byte>, vals: seq<seq<byte>>, out: seq<byte>)
    requires Ready(r, vals) && r != [] && !Stringy(r) && KindOf(r) == Char && SameKind(r, Image(r, vals))
    ensures StepAgrees(r, vals, out)
  {
    PlainSync(r, vals);
    hide KindOf, InString, InTick, TickText, InBlock, InLine, InNumber, CharWidth, CharText, FoldSign, PushSpace,
        EndsIdent,
      Ready, Runs, Image, Stringy, Holes;
  }

  /** A part that is no string and no placeholder is one step of the fingerprint
      loop, on the template and on its image alike. */
  lemma {:induction false} TokenSync(r: seq<byte>, vals: seq<seq<byte>>, out: seq<byte>)
    requires Ready(r, vals) && r != [] && !Stringy(r)
    ensures StepAgrees(r, vals, out)
  {
    KindSync(r, vals);
    assert SameKind(r, Image(r, vals));
    hide *;
    match KindOf(r) {
      case Quoted => QuotedAgrees(r, vals, out);
      case Ticked => TickedAgrees(r, vals, out);
      case Block => BlockAgrees(r, vals, out);
      case Line => LineAgrees(r, vals, out);
      case Space => SpaceAgrees(r, vals, out);
      case Number => NumberAgrees(r, vals, out);
      case Char => CharAgrees(r, vals, out);
    }
  }

  // ---------------------------------------------------------------------
  // Strings
  // ---------------------------------------------------------------------

  /** What the image of a string or placeholder is. */
  predicate SplitsAs(r: seq<byte>, vals: seq<seq<byte>>, t: seq<byte>, rest: seq<byte>, more: seq<seq<byte>>)
    requires r != []
  {
    && rest == r[PartWidth(r)..] && |rest| < |r| && Ready(rest, more)
    && Image(r, vals) == [QUOTE] + t + Image(rest, more)
    && (Closed(t) || (rest == [] && InString(t, QUOTE) == |t|))
  }

  lemma {:induction false} HoleSplit(r: seq<byte>, vals: seq<seq<byte>>) returns (t: seq<byte>, more: seq<seq<byte>>)
    requires Ready(r, vals) && r != [] && PartOf(r) == Hole
    ensures SplitsAs(r, vals, t, r[1..], more)
  {
    ImageStep(r, vals);
    PartIsValid(r);
    HoleWidth(r);
    assert vals[0] in vals;
    assert forall v | v in vals[1..] :: v in vals;
    t, more := vals[0][1..], vals[1..];
    assert vals[0] == [QUOTE] + t;
    hide Image, Valid, InString, Closed, Holes, PartOf, PartWidth;
  }

  lemma {:induction false} QuotedWidth(r: seq<byte>)
    requires r != [] && r[0] == QUOTE
    ensures PartOf(r) == Quotes && PartWidth(r) == 1 + InString(r[1..], QUOTE)
  {
  }

  lemma {:induction false} MakeSplit(r: seq<byte>, vals: seq<seq<byte>>, t: seq<byte>)
    requires r != [] && Ready(r[PartWidth(r)..], vals)
    requires Image(r, vals) == [QUOTE] + t + Image(r[PartWidth(r)..], vals)
    requires Closed(t) || (PartWidth(r) == |r| && InString(t, QUOTE) == |t|)
    ensures SplitsAs(r, vals, t, r[PartWidth(r)..], vals)
  {
    hide Ready, Image, PartWidth, InString, Closed;
  }

  lemma {:induction false} ReadyBehind(r: seq<byte>, vals: seq<seq<byte>>)
    requires Ready(r, vals) && r != [] && PartOf(r) != Hole
    ensures Ready(r[PartWidth(r)..], vals)
    ensures Image(r, vals) == r[..PartWidth(r)] + Image(r[PartWidth(r)..], vals)
  {
    ImageStep(r, vals);
    PartIsValid(r);
    hide Image, Valid, Holes, Strings, PartWidth, PartOf;
  }

  lemma {:induction false} StringSplit(r: seq<byte>, vals: seq<seq<byte>>) returns (t: seq<byte>, rest: seq<byte>)
    requires Ready(r, vals) && r != [] && r[0] == QUOTE
    ensures SplitsAs(r, vals, t, rest, vals)
  {
    hide *;
    QuotedWidth(r);
    ReadyBehind(r, vals);
    var w := PartWidth(r);
    StringEnds(r[1..]);
    t, rest := r[1..][..w - 1], r[w..];
    assert r[..w] == [QUOTE] + t;
    assert w == |r| ==> t == r[1..];
    MakeSplit(r, vals, t);
  }

  /** A string or placeholder: its image is a string `[QUOTE] + t`, complete
      unless it is the unclosed end of the text. */
  lemma {:induction false} StringySplit(r: seq<byte>, vals: seq<seq<byte>>)
      returns (t: seq<byte>, rest: seq<byte>, more: seq<seq<byte>>)
    requires Ready(r, vals) && Stringy(r)
    ensures rest == r[PartWidth(r)..] && |rest| < |r| && Ready(rest, more)
    ensures Image(r, vals) == [QUOTE] + t + Image(rest, more)
    ensures Closed(t) || (rest == [] && InString(t, QUOTE) == |t|)
  {
    if r[0] == QUOTE {
      t, rest := StringSplit(r, vals);
      more := vals;
    } else {
      rest := r[1..];
      t, more := HoleSplit(r, vals);
    }
    hide Image, Ready, InString, Closed, Holes, PartWidth;
  }

  /** The fingerprint loop on a placeholder or a string of the template. */
  lemma {:induction false} StringyStep(r: seq<byte>, out: seq<byte>)
    requires Stringy(r)
    ensures Pass(r, out) == Pass(r[PartWidth(r)..], out + [MARK])
  {
    PassStep(r, out);
    if r[0] == MARK { assert ToLower(r[0]) == MARK; }
    hide Pass, InString;
  }

  lemma {:induction false} QuotedStep(t: seq<byte>, x: seq<byte>, out: seq<byte>)
    ensures var r := [QUOTE] + (t + x);
            Width(r, EndsIdent(out)) == 1 + InString(t + x, QUOTE) && Emit(r, out) == out + [MARK]
  {
    var r := [QUOTE] + (t + x);
    assert r[1..] == t + x && KindOf(r) == Quoted;
    hide InString, KindOf;
  }

  /** The fingerprint loop on a complete string. */
  lemma {:induction false} StringStep(t: seq<byte>, x: seq<byte>, out: seq<byte>)
    requires Closed(t) && (x == [] || x[0] != QUOTE)
    ensures Pass([QUOTE] + t + x, out) == Pass(x, out + [MARK])
  {
    hide *;
    var r := [QUOTE] + (t + x);
    assert [QUOTE] + t + x == r;
    PassStep(r, out);
    SkipsExactly(t, x);
    QuotedStep(t, x, out);
    assert r[1 + |t|..] == x;
  }

  /** The fingerprint loop on a string that takes the rest of the text. */
  lemma {:induction false} LastStringStep(t: seq<byte>, out: seq<byte>)
    requires InString(t, QUOTE) == |t|
    ensures Pass([QUOTE] + t, out) == out + [MARK]
  {
    hide *;
    var r := [QUOTE] + (t + []);
    assert t + [] == t;
    PassStep(r, out);
    QuotedStep(t, [], out);
    assert r[1 + |t|..] == [];
    PassNil(out + [MARK]);
  }

  lemma {:induction false} StringIntoRest(t: seq<byte>, u: seq<byte>)
    requires Closed(t) && InString(u, QUOTE) == |u|
    ensures InString(t + [QUOTE] + u, QUOTE) == |t + [QUOTE] + u|
  {
    SkipsExactly(t, [QUOTE] + u);
    assert t + [QUOTE] + u == t + ([QUOTE] + u);
    assert ([QUOTE] + u)[1..] == u;
    hide Closed, InString;
  }

  // ---------------------------------------------------------------------
  // The whole text
  // ---------------------------------------------------------------------

  /** The fingerprint loop, with all but the last mark of touching strings and
      placeholders in shadow. */
  function Shadowed(r: seq<byte>, out: seq<byte>): seq<Symbol>
    decreases |r|, 0
  {
    if r == [] then out
    else if Stringy(r) then out + ShadowTail(r[PartWidth(r)..])
    else Shadowed(r[Width(r, EndsIdent(out))..], Emit(r, out))
  }

  /** The mark of a string or placeholder that `r` follows, and the rest. */
  function ShadowTail(r: seq<byte>): seq<Symbol>
    decreases |r|, 1
  {
    if Stringy(r) then [SHADOW] + ShadowTail(r[PartWidth(r)..]) else Shadowed(r, [MARK])
  }

  lemma {:induction false} ShadowedStep(r: seq<byte>, out: seq<byte>)
    ensures r == [] ==> Shadowed(r, out) == out
    ensures Stringy(r) ==> Shadowed(r, out) == out + ShadowTail(r[PartWidth(r)..])
    ensures r != [] && !Stringy(r) ==> Shadowed(r, out) == Shadowed(r[Width(r, EndsIdent(out))..], Emit(r, out))
  {
  }

  lemma {:induction false} TailStep(r: seq<byte>)
    ensures ShadowTail(r) == if Stringy(r) then [SHADOW] + ShadowTail(r[PartWidth(r)..]) else Shadowed(r, [MARK])
  {
  }

  lemma {:induction false} MarkStays(r: seq<byte>, out: seq<byte>)
    requires AtMark(out)
    ensures Marked(Shadowed(r, out))
    decreases |r|
  {
    ShadowedStep(r, out);
    hide Shadowed, ShadowTail;
    if r != [] && !Stringy(r) {
      EmitBehindMark(r, [], out);
      MarkStays(r[Width(r, EndsIdent(out))..], Emit(r, out));
    }
    hide Emit, Width, EndsIdent, Stringy, PartWidth;
  }

  /** Shadows stand before the mark they belong to. */
  lemma {:induction false} ShadowedLed(r: seq<byte>, out: seq<byte>)
    ensures Led(Shadowed(r, out))
    decreases |r|, 0
  {
    ShadowedStep(r, out);
    DropBytes(out);
    if Stringy(r) {
      TailLed(r[PartWidth(r)..]);
      LedAppend(out, ShadowTail(r[PartWidth(r)..]));
    } else if r != [] {
      ShadowedLed(r[Width(r, EndsIdent(out))..], Emit(r, out));
    }
    hide *;
  }

  lemma {:induction false} TailLed(r: seq<byte>)
    ensures Led(ShadowTail(r)) && Marked(ShadowTail(r))
    decreases |r|, 1
  {
    TailStep(r);
    if Stringy(r) {
      TailLed(r[PartWidth(r)..]);
      LedCons(SHADOW, ShadowTail(r[PartWidth(r)..]));
      ShadowIsMarked(ShadowTail(r[PartWidth(r)..]));
    } else {
      ShadowedLed(r, [MARK]);
      MarkStays(r, [MARK]);
    }
    hide *;
  }

  lemma {:induction false} ShadowIsMarked(s: seq<Symbol>)
    ensures Marked([SHADOW] + s)
  {
  }

  /** Shown, it is the run on the template. */
  lemma {:induction false} ShadowedShows(r: seq<byte>, out: seq<byte>)
    ensures Show(Shadowed(r, out)) == Pass(r, out)
    decreases |r|, 0
  {
    ShadowedStep(r, out);
    if r == [] {
      PassNil(out);
      DropBytes(out);
    } else if Stringy(r) {
      var rest := r[PartWidth(r)..];
      TailShows(rest);
      StringyStep(r, out);
      PassBehindMark(rest, out, [MARK]);
      assert AtMark([MARK]);
      ShowBehind(out, ShadowTail(rest));
    } else {
      ShadowedShows(r[Width(r, EndsIdent(out))..], Emit(r, out));
      PassStep(r, out);
    }
    hide *;
  }

  lemma {:induction false} TailShows(r: seq<byte>)
    ensures Show(ShadowTail(r)) == Pass(r, [MARK])
    decreases |r|, 1
  {
    TailStep(r);
    if Stringy(r) {
      var rest := r[PartWidth(r)..];
      TailShows(rest);
      StringyStep(r, [MARK]);
      PassBehindMark(rest, [MARK], [MARK]);
      assert AtMark([MARK]);
      ShowCons(SHADOW, ShadowTail(rest));
      assert ShowOne(SHADOW) == MARK;
    } else {
      ShadowedShows(r, [MARK]);
    }
    hide *;
  }

  /** There is a shadow exactly when something touches. */
  lemma {:induction false} ShadowsAreTouches(r: seq<byte>, vals: seq<seq<byte>>, out: seq<byte>)
    requires Ready(r, vals)
    ensures SHADOW !in Shadowed(r, out) <==> Touches(r) == 0
    decreases |r|, 0
  {
    ShadowedStep(r, out);
    hide Shadowed, ShadowTail;
    if r != [] {
      if Stringy(r) {
        var t, rest, more := StringySplit(r, vals);
        TailsAreTouches(rest, more);
        TouchesStep(r);
        hide Touches, Stringy, PartWidth, Ready;
      } else {
        var w, e := TokenStep(r, vals, out);
        ShadowsAreTouches(r[w..], vals, e);
      }
    }
  }

  lemma {:induction false} TailsAreTouches(r: seq<byte>, vals: seq<seq<byte>>)
    requires Ready(r, vals)
    ensures SHADOW !in ShadowTail(r) <==> Touches(r) == 0 && !Stringy(r)
    decreases |r|, 1
  {
    TailStep(r);
    if !Stringy(r) {
      ShadowsAreTouches(r, vals, [MARK]);
    }
    hide *;
  }

  lemma {:induction false} NothingLeft(vals: seq<seq<byte>>)
    ensures Image([], vals) == [] && ShadowTail([]) == [MARK]
  {
    ShadowedStep([], [MARK]);
  }

  /** The run on an image behind a complete string `[QUOTE] + t`. */
  lemma {:induction false} AfterString(t: seq<byte>, r: seq<byte>, vals: seq<seq<byte>>, out: seq<byte>)
    requires Closed(t) && Ready(r, vals)
    ensures Pass([QUOTE] + t + Image(r, vals), out) == out + Drop(ShadowTail(r))
    decreases |r|, 1
  {
    TailStep(r);
    hide *;
    if !Stringy(r) {
      NoStringAhead(r, vals);
      StringStep(t, Image(r, vals), out);
      MarkIsMark();
      PassBehindMark(Image(r, vals), out, [MARK]);
      WholeText(r, vals, [MARK]);
    } else {
      var u, rest, more := StringySplit(r, vals);
      var x := Image(rest, more);
      assert [QUOTE] + t + ([QUOTE] + u + x) == [QUOTE] + (t + [QUOTE] + u) + x;
      ShadowDropped(ShadowTail(rest));
      if Closed(u) {
        StringsMerge(t, u);
        AfterString(t + [QUOTE] + u, rest, more, out);
      } else {
        StringIntoRest(t, u);
        LastStringStep(t + [QUOTE] + u, out);
        NothingLeft(more);
        DropBytes([MARK]);
        assert [QUOTE] + (t + [QUOTE] + u) + [] == [QUOTE] + (t + [QUOTE] + u);
      }
    }
  }

  lemma {:induction false} MarkIsMark()
    ensures AtMark([MARK])
  {
  }

  lemma {:induction false} ShadowDropped(s: seq<Symbol>)
    ensures Drop([SHADOW] + s) == Drop(s)
  {
    DropCons(SHADOW, s);
    assert [] + Drop(s) == Drop(s);
  }

  lemma {:induction false} NoStringAhead(r: seq<byte>, vals: seq<seq<byte>>)
    requires Ready(r, vals) && !Stringy(r)
    ensures Image(r, vals) == [] || Image(r, vals)[0] != QUOTE
  {
    HeadSync(r, vals);
  }

  /** With its shadows dropped, the run on the template is the run on each of
      its executions. */
  lemma {:induction false} WholeText(r: seq<byte>, vals: seq<seq<byte>>, out: seq<byte>)
    requires Ready(r, vals)
    ensures Pass(Image(r, vals), out) == Drop(Shadowed(r, out))
    decreases |r|, 0
  {
    ShadowedStep(r, out);
    hide *;
    DropBytes(out);
    if r == [] {
      NothingLeft(vals);
      PassNil(out);
    } else if Stringy(r) {
      var t, rest, more := StringySplit(r, vals);
      DropBehind(out, ShadowTail(rest));
      if Closed(t) {
        AfterString(t, rest, more, out);
      } else {
        NothingLeft(more);
        DropBytes([MARK]);
        assert [QUOTE] + t + [] == [QUOTE] + t;
        LastStringStep(t, out);
      }
    } else {
      var w, e := TokenStep(r, vals, out);
      WholeText(r[w..], vals, e);
    }
  }

  lemma {:induction false} TokenStep(r: seq<byte>, vals: seq<seq<byte>>, out: seq<byte>) returns (w: nat, e: seq<byte>)
    requires Ready(r, vals) && r != [] && !Stringy(r)
    ensures 0 < w <= |r| && Ready(r[w..], vals) && Touches(r) == Touches(r[w..])
    ensures Shadowed(r, out) == Shadowed(r[w..], e) && Pass(Image(r, vals), out) == Pass(Image(r[w..], vals), e)
  {
    TokenSync(r, vals, out);
    ShadowedStep(r, out);
    var i := Image(r, vals);
    w, e := Width(r, EndsIdent(out)), Emit(r, out);
    PassStep(i, out);
    RunsFacts(r, vals, w);
    RunsMean(r, vals, w);
    hide Pass, Width, Emit, EndsIdent, Image, Ready, Touches, Runs, Stringy, Holes, Shadowed;
  }
}
