/** UTF-8 as far as the byte-level SQL scanners need it: well-formed text, its
    character boundaries, and white space. */
module Utf8 {
  import opened Bytes

  const TAB: byte := 0x09
  const NEWLINE: byte := 0x0A
  const SPACE: byte := 0x20
  const DQUOTE: byte := 0x22
  const HASH: byte := 0x23
  const DOLLAR: byte := 0x24
  const PERCENT: byte := 0x25
  const QUOTE: byte := 0x27
  const OPEN: byte := 0x28
  const CLOSE: byte := 0x29
  const STAR: byte := 0x2A
  const PLUS: byte := 0x2B
  const COMMA: byte := 0x2C
  const MINUS: byte := 0x2D
  const DOT: byte := 0x2E
  const SLASH: byte := 0x2F
  const ZERO: byte := 0x30
  const SEMICOLON: byte := 0x3B
  const LESS: byte := 0x3C
  const EQUALS: byte := 0x3D
  const GREATER: byte := 0x3E
  const MARK: byte := 0x3F
  const BACKSLASH: byte := 0x5C
  const UNDERSCORE: byte := 0x5F
  const TICK: byte := 0x60

  predicate IsDigit(b: byte) { 0x30 <= b <= 0x39 }

  predicate IsUpper(b: byte) { 0x41 <= b <= 0x5A }

  predicate IsLower(b: byte) { 0x61 <= b <= 0x7A }

  predicate IsHexDigit(b: byte) { IsDigit(b) || 0x41 <= b <= 0x46 || 0x61 <= b <= 0x66 }

  /** `u8::is_ascii_whitespace`: no vertical tab. */
  predicate IsWs(b: byte) { b == 0x20 || b == 0x09 || b == 0x0A || b == 0x0C || b == 0x0D }

  predicate InIdent(b: byte) { IsDigit(b) || IsUpper(b) || IsLower(b) || b == UNDERSCORE || b == DOLLAR }

  function ToLower(b: byte): byte { if IsUpper(b) then b + 0x20 else b }

  function ToUpper(b: byte): byte { if IsLower(b) then b - 0x20 else b }

  // ---------------------------------------------------------------------
  // Characters
  // ---------------------------------------------------------------------

  predicate IsCont(b: byte) { 0x80 <= b < 0xC0 }

  /** The length a lead byte announces. */
  function LeadLen(first: byte): (n: nat)
    ensures 1 <= n <= 4
  {
    if 0xC0 <= first <= 0xDF then 2
    else if 0xE0 <= first <= 0xEF then 3
    else if 0xF0 <= first <= 0xF7 then 4
    else 1
  }

  /** One well-formed character (table 3-7 of the Unicode Standard). */
  predicate IsChar(c: seq<byte>) {
    || (|c| == 1 && c[0] < 0x80)
    || (|c| == 2 && 0xC2 <= c[0] <= 0xDF && IsCont(c[1]))
    || (|c| == 3 && IsCont(c[1]) && IsCont(c[2])
        && (|| (c[0] == 0xE0 && c[1] >= 0xA0) || (0xE1 <= c[0] <= 0xEC)
            || (c[0] == 0xED && c[1] < 0xA0) || (0xEE <= c[0] <= 0xEF)))
    || (|c| == 4 && IsCont(c[1]) && IsCont(c[2]) && IsCont(c[3])
        && (|| (c[0] == 0xF0 && c[1] >= 0x90) || (0xF1 <= c[0] <= 0xF3) || (c[0] == 0xF4 && c[1] < 0x90)))
  }

  /** The text starts with a whole character. */
  predicate StartsChar(s: seq<byte>)
    requires s != []
  {
    LeadLen(s[0]) <= |s| && IsChar(s[..LeadLen(s[0])])
  }

  predicate Valid(s: seq<byte>) {
    s != [] ==> StartsChar(s) && Valid(s[LeadLen(s[0])..])
  }

  /** `str::is_char_boundary`. */
  predicate Boundary(s: seq<byte>, i: nat) {
    i == |s| || (i < |s| && !IsCont(s[i]))
  }

  lemma {:induction false} CharShape(s: seq<byte>)
    requires s != [] && StartsChar(s)
    ensures !IsCont(s[0])
    ensures s[0] < 0x80 <==> LeadLen(s[0]) == 1
    ensures forall i | 1 <= i < LeadLen(s[0]) :: IsCont(s[i])
  {
    var c := s[..LeadLen(s[0])];
    assert forall i | 0 <= i < |c| :: c[i] == s[i];
  }

  lemma {:induction false} CharIs(c: seq<byte>, s: seq<byte>)
    requires IsChar(c)
    ensures StartsChar(c + s) && LeadLen(c[0]) == |c| && (c + s)[..|c|] == c && (c + s)[|c|..] == s
  {
    assert (c + s)[..|c|] == c;
  }

  /** Valid text is a character and valid text. */
  lemma {:induction false} ValidCons(c: seq<byte>, s: seq<byte>)
    requires IsChar(c)
    ensures Valid(c + s) == Valid(s)
  {
    CharIs(c, s);
  }

  lemma {:induction false} FirstChar(s: seq<byte>) returns (c: seq<byte>, t: seq<byte>)
    requires Valid(s) && s != []
    ensures s == c + t && IsChar(c) && |c| == LeadLen(s[0]) && Valid(t)
    ensures !IsCont(s[0]) && forall i | 1 <= i < |c| :: IsCont(s[i])
  {
    var n := LeadLen(s[0]);
    c, t := s[..n], s[n..];
    CharShape(s);
  }

  lemma {:induction false} SliceBehind(c: seq<byte>, t: seq<byte>, k: nat)
    requires |c| <= k <= |c + t|
    ensures (c + t)[..k] == c + t[..k - |c|] && (c + t)[k..] == t[k - |c|..]
  {
  }

  lemma {:induction false} BoundaryBehind(c: seq<byte>, t: seq<byte>, k: nat)
    requires Boundary(c + t, k) && k > 0 && forall i | 1 <= i < |c| :: IsCont((c + t)[i])
    ensures |c| <= k <= |c + t| && Boundary(t, k - |c|)
  {
  }

  /** Valid text splits at every boundary. */
  lemma {:induction false} SplitAt(s: seq<byte>, k: nat)
    requires Valid(s) && Boundary(s, k)
    ensures k <= |s| && Valid(s[..k]) && Valid(s[k..])
    decreases |s|
  {
    if k == 0 {
      assert s[0..] == s && s[..0] == [];
    } else {
      var c, t := FirstChar(s);
      BoundaryBehind(c, t, k);
      SplitAt(t, k - |c|);
      SliceBehind(c, t, k);
      ValidCons(c, t[..k - |c|]);
    }
    hide IsChar, LeadLen, IsCont, StartsChar;
  }

  lemma {:induction false} Glue(a: seq<byte>, b: seq<byte>)
    requires Valid(a) && Valid(b)
    ensures Valid(a + b)
    decreases |a|
  {
    if a == [] {
      assert a + b == b;
    } else {
      var c, t := FirstChar(a);
      hide *;
      Glue(t, b);
      assert a + b == c + (t + b);
      ValidCons(c, t + b);
    }
  }

  /** Behind an ASCII byte there is always a boundary. */
  lemma {:induction false} AfterAscii(s: seq<byte>, k: nat)
    requires Valid(s) && 0 < k <= |s| && s[k - 1] < 0x80
    ensures Boundary(s, k)
    decreases |s|
  {
    CharShape(s);
    var n := LeadLen(s[0]);
    if k > n {
      AfterAscii(s[n..], k - n);
    } else if k < |s| {
      var t := s[n..];
      assert t[0] == s[n];
      CharShape(t);
    }
  }

  /** A well-formed character, or all of an ASCII text, is valid. */
  lemma {:induction false} AsciiIsValid(s: seq<byte>)
    requires forall b | b in s :: b < 0x80
    ensures Valid(s)
    decreases |s|
  {
    if s != [] {
      assert s[0] in s;
      assert forall b | b in s[1..] :: b in s;
      AsciiIsValid(s[1..]);
    }
  }

  lemma {:induction false} OneCharIsValid(c: seq<byte>)
    requires IsChar(c)
    ensures Valid(c)
  {
    CharIs(c, []);
    assert c + [] == c;
  }

  // ---------------------------------------------------------------------
  // White space
  // ---------------------------------------------------------------------

  /** The characters `char::is_whitespace` accepts. */
  predicate IsSpaceChar(c: seq<byte>) {
    || (|c| == 1 && (c[0] == 0x20 || 0x09 <= c[0] <= 0x0D))
    || (|c| == 2 && c[0] == 0xC2 && (c[1] == 0x85 || c[1] == 0xA0))
    || (|c| == 3 && c[0] == 0xE1 && c[1] == 0x9A && c[2] == 0x80)
    || (|c| == 3 && c[0] == 0xE2 && c[1] == 0x80
        && (0x80 <= c[2] <= 0x8A || c[2] == 0xA8 || c[2] == 0xA9 || c[2] == 0xAF))
    || (|c| == 3 && c[0] == 0xE2 && c[1] == 0x81 && c[2] == 0x9F)
    || (|c| == 3 && c[0] == 0xE3 && c[1] == 0x80 && c[2] == 0x80)
  }

  /** The size of the white space character the text ends with, or 0. */
  function SpaceAtEnd(s: seq<byte>): (n: nat)
    ensures n <= |s| && n <= 3
    ensures n > 0 ==> IsSpaceChar(s[|s| - n..])
  {
    if |s| >= 1 && IsSpaceChar(s[|s| - 1..]) then 1
    else if |s| >= 2 && IsSpaceChar(s[|s| - 2..]) then 2
    else if |s| >= 3 && IsSpaceChar(s[|s| - 3..]) then 3
    else 0
  }

  function SpaceAtStart(s: seq<byte>): (n: nat)
    ensures n <= |s| && n <= 3
    ensures n > 0 ==> IsSpaceChar(s[..n])
  {
    if |s| >= 1 && IsSpaceChar(s[..1]) then 1
    else if |s| >= 2 && IsSpaceChar(s[..2]) then 2
    else if |s| >= 3 && IsSpaceChar(s[..3]) then 3
    else 0
  }

  function TrimEnd(s: seq<byte>): (t: seq<byte>)
    ensures t <= s && SpaceAtEnd(t) == 0
    decreases |s|
  {
    var n := SpaceAtEnd(s);
    if n == 0 then s else TrimEnd(s[..|s| - n])
  }

  function TrimStart(s: seq<byte>): (t: seq<byte>)
    ensures |t| <= |s| && SpaceAtStart(t) == 0
    decreases |s|
  {
    var n := SpaceAtStart(s);
    if n == 0 then s else TrimStart(s[n..])
  }

  function Trim(s: seq<byte>): seq<byte> {
    TrimStart(TrimEnd(s))
  }

  lemma {:induction false} TrimEndStep(s: seq<byte>)
    ensures TrimEnd(s) == if SpaceAtEnd(s) == 0 then s else TrimEnd(s[..|s| - SpaceAtEnd(s)])
  {
  }

  lemma {:induction false} SpaceLast(s: seq<byte>, b: byte)
    requires IsWs(b)
    ensures TrimEnd(s + [b]) == TrimEnd(s)
  {
    assert (s + [b])[|s|..] == [b];
    assert SpaceAtEnd(s + [b]) == 1;
    assert (s + [b])[..|s|] == s;
    hide SpaceAtEnd, IsSpaceChar;
    TrimEndStep(s + [b]);
  }

  /** Trimming ASCII white space off. */
  lemma {:induction false} TrimEndWs(s: seq<byte>, w: seq<byte>)
    requires forall b | b in w :: IsWs(b)
    ensures TrimEnd(s + w) == TrimEnd(s)
    decreases |w|
  {
    hide IsWs, TrimEnd;
    if w == [] {
      assert s + w == s;
    } else {
      var n := |w| - 1;
      assert w == w[..n] + [w[n]];
      assert s + w == (s + w[..n]) + [w[n]];
      SpaceLast(s + w[..n], w[n]);
      TrimEndWs(s, w[..n]);
    }
  }

  /** Trimming keeps text valid. */
  lemma {:induction false} TrimEndValid(s: seq<byte>)
    requires Valid(s)
    ensures Valid(TrimEnd(s))
    decreases |s|
  {
    var n := SpaceAtEnd(s);
    if n > 0 {
      assert s[|s| - n..][0] == s[|s| - n];
      SplitAt(s, |s| - n);
      TrimEndValid(s[..|s| - n]);
    }
  }

  lemma {:induction false} TrimStartValid(s: seq<byte>)
    requires Valid(s)
    ensures Valid(TrimStart(s))
    decreases |s|
  {
    var n := SpaceAtStart(s);
    if n > 0 {
      assert forall i | 0 <= i < n :: s[..n][i] == s[i];
      CharShape(s);
      assert n == LeadLen(s[0]);
      TrimStartValid(s[n..]);
    }
  }

  // ---------------------------------------------------------------------
  // White space and marks
  // ---------------------------------------------------------------------

  lemma {:induction false} SpaceHasNoMark(c: seq<byte>)
    requires IsSpaceChar(c)
    ensures MARK !in c
  {
  }

  /** Trimming never reaches past a mark. */
  lemma {:induction false} TrimEndBehindMark(p: seq<byte>, t: seq<byte>)
    requires t != [] && t[0] == MARK
    ensures TrimEnd(p + t) == p + TrimEnd(t) && TrimEnd(t) != [] && TrimEnd(t)[0] == MARK
    decreases |t|
  {
    hide SpaceAtEnd, IsSpaceChar;
    SpaceBehindMark(p, t);
    var n := SpaceAtEnd(t);
    TrimEndStep(t);
    TrimEndStep(p + t);
    if n > 0 {
      assert t[..|t| - n][0] == MARK;
      assert (p + t)[..|p + t| - n] == p + t[..|t| - n];
      TrimEndBehindMark(p, t[..|t| - n]);
    }
  }

  /** The last `n` bytes are white space only if they stop short of the mark. */
  lemma {:induction false} EndBehindMark(p: seq<byte>, t: seq<byte>, n: nat)
    requires t != [] && t[0] == MARK && 1 <= n <= |p + t|
    ensures IsSpaceChar((p + t)[|p + t| - n..]) ==> n < |t|
    ensures n <= |t| ==> (p + t)[|p + t| - n..] == t[|t| - n..]
    ensures n == |t| ==> !IsSpaceChar(t)
  {
    var c := (p + t)[|p + t| - n..];
    assert n >= |t| ==> c[n - |t|] == MARK && MARK in c;
    if IsSpaceChar(c) { SpaceHasNoMark(c); }
    if IsSpaceChar(t) { SpaceHasNoMark(t); }
  }

  lemma {:induction false} SpaceBehindMark(p: seq<byte>, t: seq<byte>)
    requires t != [] && t[0] == MARK
    ensures SpaceAtEnd(p + t) == SpaceAtEnd(t) < |t|
  {
    hide IsSpaceChar;
    EndBehindMark(p, t, 1);
    assert t[|t| - |t|..] == t;
    if |p + t| >= 2 { EndBehindMark(p, t, 2); }
    if |p + t| >= 3 { EndBehindMark(p, t, 3); }
  }
}
