/** White space around a statement never changes its fingerprint, not even
    behind an unterminated string, comment or identifier. */
module Padding {
  import opened Bytes
  import opened Utf8
  import opened Fingerprints

  predicate AllWs(w: seq<byte>) {
    forall b | b in w :: IsWs(b)
  }

  lemma {:induction false} WsTail(w: seq<byte>, k: nat)
    requires AllWs(w) && k <= |w|
    ensures AllWs(w[k..])
  {
  }

  lemma {:induction false} WsHead(w: seq<byte>)
    requires AllWs(w) && w != []
    ensures IsWs(w[0]) && AllWs(w[1..])
  {
    assert w[0] in w;
    WsTail(w, 1);
  }

  // ---------------------------------------------------------------------
  // Leading white space
  // ---------------------------------------------------------------------

  lemma {:induction false} LeadingWs(w: seq<byte>, r: seq<byte>)
    requires AllWs(w)
    ensures Pass(w + r, []) == Pass(r, [])
    decreases |w|
  {
    if w == [] {
      assert w + r == r;
    } else {
      WsHead(w);
      PassStep(w + r, []);
      assert KindOf(w + r) == Space;
      assert (w + r)[1..] == w[1..] + r;
      LeadingWs(w[1..], r);
    }
  }

  // ---------------------------------------------------------------------
  // Trailing white space, token by token
  // ---------------------------------------------------------------------

  /** A token of `n` of the bytes of `r` either ends where it did, or ran to
      the end of the text and still does. */
  predicate SameOrToEnd(r: seq<byte>, w: seq<byte>, n: nat, m: nat) {
    m == n || (n == |r| && m == |r + w|)
  }

  lemma {:induction false} TrailString(r: seq<byte>, w: seq<byte>, q: byte)
    requires AllWs(w) && !IsWs(q)
    ensures SameOrToEnd(r, w, InString(r, q), InString(r + w, q))
    decreases |r| + |w|
  {
    var s := r + w;
    if r == [] {
      assert s == w;
      if w != [] {
        WsHead(w);
        TrailString([], w[1..], q);
        assert [] + w[1..] == w[1..];
      }
    } else if r[0] == BACKSLASH {
      if |r| >= 2 {
        assert s[2..] == r[2..] + w;
        TrailString(r[2..], w, q);
      } else if w != [] {
        WsHead(w);
        assert s[2..] == [] + w[1..];
        TrailString([], w[1..], q);
      }
    } else if r[0] == q {
      if |r| >= 2 {
        assert s[2..] == r[2..] + w;
        TrailString(r[2..], w, q);
      } else if w != [] {
        WsHead(w);
      }
    } else {
      assert s[1..] == r[1..] + w;
      TrailString(r[1..], w, q);
    }
  }

  lemma {:induction false} TrailBlock(r: seq<byte>, w: seq<byte>)
    requires AllWs(w)
    ensures SameOrToEnd(r, w, InBlock(r), InBlock(r + w))
    decreases |r| + |w|
  {
    var s := r + w;
    if r == [] {
      assert s == w;
      if w != [] {
        WsHead(w);
        TrailBlock([], w[1..]);
        assert [] + w[1..] == w[1..];
      }
    } else {
      assert s[1..] == r[1..] + w;
      if |r| == 1 && w != [] { WsHead(w); }
      TrailBlock(r[1..], w);
    }
  }

  lemma {:induction false} TrailLine(r: seq<byte>, w: seq<byte>)
    requires AllWs(w)
    ensures InLine(r + w) == InLine(r) || (InLine(r) == |r| && AllWs((r + w)[InLine(r + w)..]))
    decreases |r|
  {
    var s := r + w;
    if r == [] {
      assert s == w;
      WsTail(w, InLine(w));
    } else {
      assert s[1..] == r[1..] + w;
      TrailLine(r[1..], w);
      assert r[0] != NEWLINE ==> s[InLine(s)..] == s[1..][InLine(s[1..])..];
    }
  }

  lemma {:induction false} TrailDigits(r: seq<byte>, w: seq<byte>)
    requires AllWs(w)
    ensures Digits(r + w) == Digits(r) && HexDigits(r + w) == HexDigits(r)
    decreases |r|
  {
    if r == [] {
      assert r + w == w;
      if w != [] { WsHead(w); }
    } else {
      assert (r + w)[1..] == r[1..] + w;
      TrailDigits(r[1..], w);
    }
  }

  lemma {:induction false} TrailExponent(r: seq<byte>, w: seq<byte>)
    requires AllWs(w)
    ensures Exponent(r + w) == Exponent(r) && Fraction(r + w) == Fraction(r)
  {
    hide Digits;
    if w != [] { WsHead(w); } else { assert r + w == r; }
    if r == [] {
      assert r + w == w;
    } else {
      assert (r + w)[1..] == r[1..] + w;
      TrailDigits(r[1..], w);
      if |r| > 1 {
        assert (r + w)[2..] == r[2..] + w;
        TrailDigits(r[2..], w);
      }
    }
  }

  lemma {:induction false} TrailHex(r: seq<byte>, w: seq<byte>)
    requires AllWs(w)
    ensures StartsHex(r + w) == StartsHex(r)
    ensures StartsHex(r) ==> HexDigits((r + w)[2..]) == HexDigits(r[2..])
  {
    hide HexDigits;
    if w != [] { WsHead(w); } else { assert r + w == r; }
    if |r| > 1 {
      assert (r + w)[2..] == r[2..] + w;
      TrailDigits(r[2..], w);
    }
  }

  lemma {:induction false} TrailNumber(r: seq<byte>, w: seq<byte>)
    requires AllWs(w)
    ensures InNumber(r + w) == InNumber(r)
  {
    var s := r + w;
    TrailHex(r, w);
    hide *;
    if StartsHex(r) {
      InHex(r);
      InHex(s);
    } else {
      TrailDigits(r, w);
      var d := Digits(r);
      assert s[d..] == r[d..] + w;
      TrailExponent(r[d..], w);
      var f := d + Fraction(r[d..]);
      assert s[f..] == r[f..] + w;
      TrailExponent(r[f..], w);
      InDecimal(r, d, f);
      InDecimal(s, d, f);
    }
  }

  lemma {:induction false} TrailChar(r: seq<byte>, w: seq<byte>)
    requires AllWs(w) && r != []
    ensures CharWidth(r + w) == CharWidth(r) && CharText(r + w) == CharText(r)
  {
    var n := LeadLen(r[0]);
    if n <= |r| {
      assert (r + w)[..n] == r[..n];
    } else if n <= |r + w| {
      var c := (r + w)[..n];
      assert c[n - 1] == w[n - 1 - |r|] && w[n - 1 - |r|] in w;
      assert !IsCont(c[n - 1]);
    }
  }

  lemma {:induction false} WsTick(w: seq<byte>)
    requires AllWs(w)
    ensures InTick(w) == |w| && TickText(w) == w
    decreases |w|
  {
    if w != [] {
      WsHead(w);
      WsTick(w[1..]);
      assert CharWidth(w) == 1 && CharText(w) == [w[0]];
      assert w == [w[0]] + w[1..];
    }
  }

  lemma {:induction false} TrailTick(r: seq<byte>, w: seq<byte>)
    requires AllWs(w)
    ensures SameOrToEnd(r, w, InTick(r), InTick(r + w))
    ensures TickText(r + w) == TickText(r)
            || (InTick(r) == |r| && InTick(r + w) == |r + w| && TickText(r + w) == TickText(r) + w)
    decreases |r|
  {
    hide CharWidth, CharText;
    var s := r + w;
    if r == [] {
      assert s == w && [] + w == w;
      WsTick(w);
    } else if r[0] == TICK {
      if |r| > 1 {
        assert s[2..] == r[2..] + w;
        TrailTick(r[2..], w);
        assert [TICK, TICK] + (TickText(r[2..]) + w) == ([TICK, TICK] + TickText(r[2..])) + w;
      } else if w != [] {
        WsHead(w);
      }
    } else {
      TrailChar(r, w);
      var n := CharWidth(r);
      assert s[n..] == r[n..] + w;
      TrailTick(r[n..], w);
      assert CharText(r) + (TickText(r[n..]) + w) == (CharText(r) + TickText(r[n..])) + w;
    }
  }

  lemma {:induction false} TrailKind(r: seq<byte>, w: seq<byte>)
    requires AllWs(w) && r != []
    ensures KindOf(r + w) == KindOf(r)
  {
    if w != [] { WsHead(w); } else { assert r + w == r; }
  }

  /** One token of the padded text: as before, or it took the rest of the text
      and what is left is white space. */
  predicate TokenPadded(r: seq<byte>, w: seq<byte>, out: seq<byte>)
    requires r != []
  {
    var i := EndsIdent(out);
    || (Width(r + w, i) == Width(r, i) && Emit(r + w, out) == Emit(r, out))
    || (Width(r, i) == |r| && AllWs((r + w)[Width(r + w, i)..])
        && (Emit(r + w, out) == Emit(r, out) || Emit(r + w, out) == Emit(r, out) + w))
  }

  lemma {:induction false} TrailQuoted(r: seq<byte>, w: seq<byte>)
    requires AllWs(w) && r != [] && KindOf(r) == Quoted
    ensures SameOrToEnd(r, w, 1 + InString(r[1..], r[0]), 1 + InString((r + w)[1..], r[0]))
  {
    assert (r + w)[1..] == r[1..] + w;
    hide InString;
    TrailString(r[1..], w, r[0]);
  }

  lemma {:induction false} TrailBlockToken(r: seq<byte>, w: seq<byte>)
    requires AllWs(w) && r != [] && KindOf(r) == Block
    ensures |r| > 1 && SameOrToEnd(r, w, 2 + InBlock(r[2..]), 2 + InBlock((r + w)[2..]))
  {
    assert (r + w)[2..] == r[2..] + w;
    hide InBlock;
    TrailBlock(r[2..], w);
  }

  lemma {:induction false} TrailTicked(r: seq<byte>, w: seq<byte>, out: seq<byte>)
    requires AllWs(w) && r != [] && KindOf(r) == Ticked && KindOf(r + w) == Ticked
    ensures TokenPadded(r, w, out)
  {
    var s := r + w;
    assert s[1..] == r[1..] + w;
    TrailTick(r[1..], w);
    assert (out + [TICK]) + (TickText(r[1..]) + w) == ((out + [TICK]) + TickText(r[1..])) + w;
    hide InTick, TickText, EndsIdent, KindOf;
    assert 1 + InTick(s[1..]) == |s| ==> AllWs(s[|s|..]);
  }

  lemma {:induction false} TrailToken(r: seq<byte>, w: seq<byte>, out: seq<byte>)
    requires AllWs(w) && r != []
    ensures TokenPadded(r, w, out)
  {
    var s := r + w;
    TrailKind(r, w);
    assert AllWs(s[|s|..]);
    match KindOf(r) {
      case Quoted => TrailQuoted(r, w);
      case Ticked => TrailTicked(r, w, out);
      case Block => TrailBlockToken(r, w);
      case Line => TrailLine(r, w);
      case Space =>
      case Number => TrailNumber(r, w);
      case Char => TrailChar(r, w);
    }
    hide AllWs, KindOf, InString, InTick, TickText, InBlock, InLine, InNumber, CharWidth, CharText, FoldSign,
        PushSpace, EndsIdent;
  }

  /** White space read behind any output is trimmed away again. */
  lemma {:induction false} WsPass(w: seq<byte>, out: seq<byte>)
    requires AllWs(w)
    ensures TrimEnd(Pass(w, out)) == TrimEnd(out)
    decreases |w|
  {
    if w != [] {
      WsHead(w);
      PassStep(w, out);
      assert KindOf(w) == Space;
      WsPass(w[1..], PushSpace(out));
      SpaceLast(out, SPACE);
    }
  }

  lemma {:induction false} LastToken(rest: seq<byte>, w: seq<byte>, out: seq<byte>, padded: seq<byte>)
    requires AllWs(rest) && AllWs(w) && (padded == out || padded == out + w)
    ensures TrimEnd(Pass(rest, padded)) == TrimEnd(Pass([], out))
  {
    hide Pass;
    WsPass(rest, padded);
    TrimEndWs(out, w);
    PassNil(out);
  }

  /** The loop's next step on the text and on the padded text. */
  lemma {:induction false} TokenCases(r: seq<byte>, w: seq<byte>, out: seq<byte>)
    returns (n: nat, m: nat, e: seq<byte>, f: seq<byte>)
    requires AllWs(w) && r != []
    ensures 0 < n <= |r| && m <= |r + w|
    ensures Pass(r, out) == Pass(r[n..], e) && Pass(r + w, out) == Pass((r + w)[m..], f)
    ensures (m == n && f == e) || (r[n..] == [] && AllWs((r + w)[m..]) && (f == e || f == e + w))
  {
    TrailToken(r, w, out);
    PassStep(r, out);
    PassStep(r + w, out);
    n, m := Width(r, EndsIdent(out)), Width(r + w, EndsIdent(out));
    e, f := Emit(r, out), Emit(r + w, out);
    assert TokenPadded(r, w, out);
    hide Pass, Width, Emit, EndsIdent, AllWs;
  }

  lemma {:induction false} TrailingWs(r: seq<byte>, w: seq<byte>, out: seq<byte>)
    requires AllWs(w)
    ensures TrimEnd(Pass(r + w, out)) == TrimEnd(Pass(r, out))
    decreases |r|
  {
    hide *;
    if r == [] {
      assert r + w == w;
      PassNil(out);
      WsPass(w, out);
    } else {
      var n, m, e, f := TokenCases(r, w, out);
      if m == n && f == e {
        assert (r + w)[n..] == r[n..] + w;
        TrailingWs(r[n..], w, e);
      } else {
        LastToken((r + w)[m..], w, e, f);
      }
    }
  }

  /** Padding on both sides is invisible in the normalized text. */
  lemma {:induction false} PaddingDoesNotMatter(before: seq<byte>, q: seq<byte>, after: seq<byte>)
    requires AllWs(before) && AllWs(after)
    ensures Normalize(before + q + after) == Normalize(q)
  {
    hide Pass;
    assert before + q + after == before + (q + after);
    LeadingWs(before, q + after);
    TrailingWs(q, after, []);
  }
}
