/** The fingerprint of valid text is valid text, so none of the conversions back
    to a string can fail. */
module FingerprintUtf8 {
  import opened Bytes
  import opened Utf8
  import opened Fingerprints
  import opened Interpolation
  import opened ListCollapse
  import opened Literals
  import opened StatementClasses
  import opened Templates

  predicate AllAscii(s: seq<byte>) {
    forall i | 0 <= i < |s| :: s[i] < 0x80
  }

  lemma {:induction false} DigitsAscii(r: seq<byte>)
    ensures AllAscii(r[..Digits(r)]) && AllAscii(r[..HexDigits(r)])
    decreases |r|
  {
    if r != [] {
      DigitsAscii(r[1..]);
      assert forall k | 1 <= k <= |r| :: r[..k] == [r[0]] + r[1..][..k - 1];
    }
  }

  lemma {:induction false} PartsAscii(r: seq<byte>)
    ensures AllAscii(r[..Fraction(r)]) && AllAscii(r[..Exponent(r)])
  {
    hide Digits;
    if r != [] {
      DigitsAscii(r[1..]);
      var d := Digits(r[1..]);
      assert r[..1 + d] == [r[0]] + r[1..][..d];
      if |r| > 1 {
        DigitsAscii(r[2..]);
        var e := Digits(r[2..]);
        assert r[..2 + e] == [r[0], r[1]] + r[2..][..e];
      }
    }
  }

  lemma {:induction false} AsciiAdds(r: seq<byte>, j: nat, k: nat)
    requires j + k <= |r| && AllAscii(r[..j]) && AllAscii(r[j..][..k])
    ensures AllAscii(r[..j + k])
  {
    assert r[..j + k] == r[..j] + r[j..][..k];
  }

  lemma {:induction false} NumberAscii(r: seq<byte>)
    ensures AllAscii(r[..InNumber(r)])
  {
    hide Digits, HexDigits, Fraction, Exponent, AllAscii, InNumber;
    if StartsHex(r) {
      InHex(r);
      DigitsAscii(r[2..]);
      assert AllAscii(r[..2]) by { HexAscii(r); }
      AsciiAdds(r, 2, HexDigits(r[2..]));
    } else {
      var d := Digits(r);
      var f := d + Fraction(r[d..]);
      InDecimal(r, d, f);
      DigitsAscii(r);
      PartsAscii(r[d..]);
      AsciiAdds(r, d, Fraction(r[d..]));
      PartsAscii(r[f..]);
      AsciiAdds(r, f, Exponent(r[f..]));
    }
  }

  lemma {:induction false} HexAscii(r: seq<byte>)
    requires StartsHex(r)
    ensures AllAscii(r[..2])
  {
  }

  /** Behind an identifier the text is valid, and so is what was kept of it. */
  predicate KeepsValid(r: seq<byte>) {
    Valid(r[InTick(r)..]) && Valid(TickText(r))
  }

  lemma {:induction false} MakeKeepsValid(r: seq<byte>, n: nat, u: seq<byte>, text: seq<byte>)
    requires n == InTick(r) && u == r[n..] && text == TickText(r) && Valid(u) && Valid(text)
    ensures KeepsValid(r)
  {
  }

  lemma {:induction false} NothingKept()
    ensures KeepsValid([])
  {
  }

  lemma {:induction false} TickValid(r: seq<byte>)
    requires Valid(r)
    ensures KeepsValid(r)
    decreases |r|
  {
    hide *;
    if r == [] {
      NothingKept();
    } else {
      var c, t := FirstChar(r);
      if c[0] != TICK {
        TickValid(t);
        TickOver(c, t);
        KeptMeans(t);
        CharKept(c, c, []);
        Glue(CharText(c), TickText(t));
        MakeKeepsValid(r, |c| + InTick(t), t[InTick(t)..], CharText(c) + TickText(t));
      } else {
        TickChar(c);
        AsciiIsValid([TICK, TICK]);
        AsciiIsValid([TICK]);
        if t != [] && t[0] == TICK {
          var d, u := FirstChar(t);
          TickChar(d);
          assert r == [TICK, TICK] + u;
          TickPair(u);
          TickValid(u);
          KeptMeans(u);
          Glue([TICK, TICK], TickText(u));
          MakeKeepsValid(r, 2 + InTick(u), u[InTick(u)..], [TICK, TICK] + TickText(u));
        } else {
          TickEnd(t);
          MakeKeepsValid(r, 1, t, [TICK]);
        }
      }
    }
  }

  lemma {:induction false} KeptMeans(r: seq<byte>)
    requires KeepsValid(r)
    ensures Valid(r[InTick(r)..]) && Valid(TickText(r))
  {
  }

  lemma {:induction false} CharKept(r: seq<byte>, c: seq<byte>, t: seq<byte>)
    requires r == c + t && IsChar(c)
    ensures CharWidth(r) == |c| && r[|c|..] == t && Valid(CharText(r))
  {
    CharIs(c, t);
    assert r[0] == c[0];
    CharHigh(c);
    OneCharIsValid(c);
    if r[0] < 0x80 { AsciiIsValid([ToLower(r[0])]); }
    hide IsChar, Valid;
  }

  lemma {:induction false} FoldValid(out: seq<byte>)
    requires Valid(out)
    ensures Valid(FoldSign(out))
  {
    var t := TrimEnd(out);
    if EndsInUnary(t) {
      assert out[|t| - 1] == t[|t| - 1];
      SplitAt(out, |t| - 1);
    }
    hide Valid, TrimEnd, EndsInUnary;
  }

  lemma {:induction false} GlueAscii(out: seq<byte>, b: byte)
    requires Valid(out) && b < 0x80
    ensures Valid(out + [b])
  {
    AsciiIsValid([b]);
    Glue(out, [b]);
  }

  lemma {:induction false} EmitValid(r: seq<byte>, out: seq<byte>)
    requires Valid(r) && Valid(out) && r != []
    ensures Valid(Emit(r, out))
  {
    match KindOf(r) {
      case Quoted => GlueAscii(out, MARK);
      case Ticked =>
        AfterAscii(r, 1);
        SplitAt(r, 1);
        TickValid(r[1..]);
        KeptMeans(r[1..]);
        GlueAscii(out, TICK);
        Glue(out + [TICK], TickText(r[1..]));
      case Block => GlueAscii(out, SPACE);
      case Line =>
      case Space => GlueAscii(out, SPACE);
      case Number =>
        FoldValid(out);
        GlueAscii(FoldSign(out), MARK);
        GlueAscii(out, r[0]);
      case Char =>
        var c, t := FirstChar(r);
        CharKept(r, c, t);
        Glue(out, CharText(r));
    }
    hide Valid, TickText, CharText, FoldSign, KindOf, EndsIdent;
  }

  lemma {:induction false} BehindString(r: seq<byte>, n: nat)
    requires Valid(r) && r != [] && (r[0] == QUOTE || r[0] == DQUOTE) && n == 1 + InString(r[1..], r[0])
    ensures n <= |r| && Valid(r[n..])
  {
    StringEndsInQuote(r[1..], r[0]);
    BehindAscii(r, n);
    hide InString, Valid;
  }

  lemma {:induction false} BehindTick(r: seq<byte>, n: nat)
    requires Valid(r) && r != [] && r[0] == TICK && n == 1 + InTick(r[1..])
    ensures n <= |r| && Valid(r[n..])
  {
    AfterAscii(r, 1);
    SplitAt(r, 1);
    TickValid(r[1..]);
    KeptMeans(r[1..]);
    assert r[n..] == r[1..][n - 1..];
    hide InTick, Valid;
  }

  lemma {:induction false} BehindBlock(r: seq<byte>, n: nat)
    requires Valid(r) && |r| > 1 && r[0] == SLASH && n == 2 + InBlock(r[2..])
    ensures n <= |r| && Valid(r[n..])
  {
    BlockEndsInSlash(r[2..]);
    if n == 2 { assert InBlock(r[2..]) == |r[2..]|; }
    BehindAscii(r, n);
    hide InBlock, Valid;
  }

  lemma {:induction false} BehindNumber(r: seq<byte>, n: nat)
    requires Valid(r) && r != [] && n == InNumber(r) && n > 0
    ensures n <= |r| && Valid(r[n..])
  {
    NumberAscii(r);
    assert r[..n][n - 1] == r[n - 1];
    BehindAscii(r, n);
    hide InNumber, Valid;
  }

  lemma {:induction false} KindStarts(r: seq<byte>)
    requires r != []
    ensures KindOf(r) == Quoted ==> r[0] == QUOTE || r[0] == DQUOTE
    ensures KindOf(r) == Ticked ==> r[0] == TICK
    ensures KindOf(r) == Block ==> |r| > 1 && r[0] == SLASH
  {
  }

  lemma {:induction false} BehindLine(r: seq<byte>)
    requires Valid(r)
    ensures Valid(r[InLine(r)..])
  {
    SplitAt(r, InLine(r));
    hide InLine, Valid;
  }

  lemma {:induction false} WidthBoundary(r: seq<byte>, inIdent: bool)
    requires Valid(r) && r != []
    ensures Valid(r[Width(r, inIdent)..])
  {
    hide *;
    var w := Width(r, inIdent);
    WidthIs(r, inIdent);
    KindStarts(r);
    match KindOf(r) {
      case Quoted => BehindString(r, w);
      case Ticked => BehindTick(r, w);
      case Block => BehindBlock(r, w);
      case Line => BehindLine(r);
      case Space => BehindAscii(r, 1);
      case Number => if inIdent { BehindAscii(r, 1); } else { BehindNumber(r, w); }
      case Char =>
        var c, t := FirstChar(r);
        CharKept(r, c, t);
    }
  }

  lemma {:induction false} BehindAscii(r: seq<byte>, w: nat)
    requires Valid(r) && 0 < w <= |r| && (w < |r| ==> r[w - 1] < 0x80)
    ensures Valid(r[w..])
  {
    if w < |r| { AfterAscii(r, w); }
    SplitAt(r, w);
    hide Valid;
  }

  lemma {:induction false} PassValid(r: seq<byte>, out: seq<byte>)
    requires Valid(r) && Valid(out)
    ensures Valid(Pass(r, out))
    decreases |r|
  {
    if r != [] {
      PassStep(r, out);
      EmitValid(r, out);
      WidthBoundary(r, EndsIdent(out));
      PassValid(r[Width(r, EndsIdent(out))..], Emit(r, out));
    } else {
      PassNil(out);
    }
    hide *;
  }

  lemma {:induction false} StripValid(s: seq<byte>)
    requires Valid(s)
    ensures Valid(StripSemicolons(s))
    decreases |s|
  {
    if s != [] && s[|s| - 1] == SEMICOLON {
      SplitAt(s, |s| - 1);
      TrimEndValid(s[..|s| - 1]);
      StripValid(TrimEnd(s[..|s| - 1]));
    }
    hide Valid, TrimEnd;
  }

  /** Valid UTF-8 in, valid UTF-8 out, through every stage. */
  lemma {:induction false} FingerprintValid(q: seq<byte>)
    requires Valid(q)
    ensures Valid(Fingerprint(q))
  {
    AsciiIsValid([]);
    PassValid(q, []);
    TrimEndValid(Pass(q, []));
    TrimStartValid(TrimEnd(Pass(q, [])));
    StripValid(Trim(Pass(q, [])));
    CollapseValid(In, None, Normalize(q));
    CollapseValid(Values, None, Collapse(In, None, Normalize(q)));
    hide Valid, Pass, Collapse, TrimEnd, TrimStart, StripSemicolons;
  }

  /** So is an execution of a valid statement with valid parameters, and its
      fingerprint. */
  lemma {:induction false} ExecutionValid(sql: seq<byte>, params: seq<seq<byte>>, expected: nat)
    requires Valid(sql) && forall p | p in params :: Valid(p)
    requires Interpolated(sql, AsLiterals(params), expected).Some?
    ensures var text := Interpolated(sql, AsLiterals(params), expected).value;
            Valid(text) && Valid(Fingerprint(text))
  {
    hide Valid, Image, Holes, Literal, Fingerprint;
    var vals := AsLiterals(params);
    forall v | v in vals ensures Valid(v) {
      var i :| 0 <= i < |vals| && v == vals[i];
      assert params[i] in params;
      LiteralValid(params[i]);
    }
    ImageValid(sql, vals);
    FingerprintValid(Image(sql, vals));
  }
}
