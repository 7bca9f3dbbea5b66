/** String parameters as SQL literals, and how they read back. */
module Literals {
  import opened Bytes
  import opened Utf8
  import opened Fingerprints

  function Escape(b: byte): (e: seq<byte>)
    ensures |e| == 1 || |e| == 2
  {
    if b == QUOTE then [QUOTE, QUOTE]
    else if b == BACKSLASH then [BACKSLASH, BACKSLASH]
    else if b == 0 then [BACKSLASH, ZERO]
    else if b == NEWLINE then [BACKSLASH, 0x6E]
    else if b == 0x0D then [BACKSLASH, 0x72]
    else if b == 0x1A then [BACKSLASH, 0x5A]
    else [b]
  }

  function Body(s: seq<byte>): seq<byte> {
    if s == [] then [] else Escape(s[0]) + Body(s[1..])
  }

  function Literal(s: seq<byte>): seq<byte> {
    [QUOTE] + Body(s) + [QUOTE]
  }

  // ---------------------------------------------------------------------
  // MySQL's reading of a string, section 9.1.1 of the MySQL 8.0 Reference Manual
  // ---------------------------------------------------------------------

  /** What an escape sequence stands for. */
  function Meaning(b: byte): seq<byte> {
    if b == ZERO then [0]
    else if b == 0x62 then [0x08]
    else if b == 0x6E then [NEWLINE]
    else if b == 0x72 then [0x0D]
    else if b == 0x74 then [TAB]
    else if b == 0x5A then [0x1A]
    else if b == PERCENT || b == UNDERSCORE then [BACKSLASH, b]
    else [b]
  }

  /** The value of a string, read from behind its opening quote, and what follows it. */
  function ReadString(r: seq<byte>): Option<(seq<byte>, seq<byte>)> {
    if r == [] then None
    else if r[0] == BACKSLASH then if |r| < 2 then None else Prepend(Meaning(r[1]), ReadString(r[2..]))
    else if r[0] == QUOTE then
      if |r| > 1 && r[1] == QUOTE then Prepend([QUOTE], ReadString(r[2..])) else Some(([], r[1..]))
    else Prepend([r[0]], ReadString(r[1..]))
  }

  function Prepend(v: seq<byte>, rest: Option<(seq<byte>, seq<byte>)>): Option<(seq<byte>, seq<byte>)> {
    match rest case None => None case Some(p) => Some((v + p.0, p.1))
  }

  /** MySQL reads a literal back as the parameter, unless a quote follows it. */
  lemma {:induction false} ReadsBack(s: seq<byte>, rest: seq<byte>)
    requires rest == [] || rest[0] != QUOTE
    ensures ReadString(Body(s) + [QUOTE] + rest) == Some((s, rest))
    decreases |s|
  {
    var r := Body(s) + [QUOTE] + rest;
    if s == [] {
      assert r == [QUOTE] + rest && r[1..] == rest;
    } else {
      var e := Escape(s[0]);
      var t := Body(s[1..]) + [QUOTE] + rest;
      assert r == e + t && r[|e|..] == t;
      ReadsBack(s[1..], rest);
      assert [s[0]] + s[1..] == s;
    }
  }

  // ---------------------------------------------------------------------
  // Complete strings
  // ---------------------------------------------------------------------

  /** The rest of a string, closing quote included and nothing behind it. */
  predicate Closed(t: seq<byte>) {
    && t != []
    && if t[0] == BACKSLASH then |t| >= 2 && Closed(t[2..])
       else if t[0] == QUOTE then |t| == 1 || (t[1] == QUOTE && Closed(t[2..]))
       else Closed(t[1..])
  }

  /** A complete single-quoted string. */
  predicate IsString(v: seq<byte>) {
    v != [] && v[0] == QUOTE && Closed(v[1..])
  }

  lemma {:induction false} BodyIsClosed(s: seq<byte>)
    ensures Closed(Body(s) + [QUOTE])
    decreases |s|
  {
    var r := Body(s) + [QUOTE];
    if s == [] {
      assert r == [QUOTE];
    } else {
      var e := Escape(s[0]);
      assert r == e + (Body(s[1..]) + [QUOTE]) && r[|e|..] == Body(s[1..]) + [QUOTE];
      BodyIsClosed(s[1..]);
    }
  }

  lemma {:induction false} LiteralIsString(s: seq<byte>)
    ensures IsString(Literal(s))
  {
    BodyIsClosed(s);
    assert Literal(s)[1..] == Body(s) + [QUOTE];
  }

  /** The skippers consume exactly a complete string, unless a quote follows it:
      then they read on through the string that quote seems to continue. */
  lemma {:induction false} SkipsExactly(t: seq<byte>, x: seq<byte>)
    requires Closed(t)
    ensures InString(t + x, QUOTE) == if x != [] && x[0] == QUOTE then |t| + 1 + InString(x[1..], QUOTE) else |t|
    decreases |t|
  {
    var r := t + x;
    if t[0] == BACKSLASH {
      assert r[2..] == t[2..] + x;
      SkipsExactly(t[2..], x);
    } else if t[0] == QUOTE {
      if |t| == 1 {
        assert r[1..] == x;
        if x != [] && x[0] == QUOTE { assert r[2..] == x[1..]; }
      } else {
        assert r[2..] == t[2..] + x;
        SkipsExactly(t[2..], x);
      }
    } else {
      assert r[1..] == t[1..] + x;
      SkipsExactly(t[1..], x);
    }
  }

  /** Two complete strings side by side read as one. */
  lemma {:induction false} StringsMerge(t: seq<byte>, u: seq<byte>)
    requires Closed(t) && Closed(u)
    ensures Closed(t + [QUOTE] + u)
    decreases |t|
  {
    var r := t + [QUOTE] + u;
    if t[0] == BACKSLASH {
      assert r[2..] == t[2..] + [QUOTE] + u;
      StringsMerge(t[2..], u);
    } else if t[0] == QUOTE {
      if |t| == 1 {
        assert r[2..] == u;
      } else {
        assert r[2..] == t[2..] + [QUOTE] + u;
        StringsMerge(t[2..], u);
      }
    } else {
      assert r[1..] == t[1..] + [QUOTE] + u;
      StringsMerge(t[1..], u);
    }
  }

  /** A string either closes, with no quote behind it, or runs to the end. */
  lemma {:induction false} StringEnds(r: seq<byte>)
    ensures var n := InString(r, QUOTE);
            if Closed(r[..n]) then n == |r| || r[n] != QUOTE else n == |r|
    decreases |r|
  {
    var n := InString(r, QUOTE);
    if r != [] {
      if r[0] == BACKSLASH || (r[0] == QUOTE && |r| > 1 && r[1] == QUOTE) {
        if |r| >= 2 {
          StringEnds(r[2..]);
          assert r[..n][2..] == r[2..][..n - 2];
        }
      } else if r[0] == QUOTE {
        assert r[..n] == [QUOTE];
      } else {
        StringEnds(r[1..]);
        assert r[..n][1..] == r[1..][..n - 1];
      }
    }
  }

  // ---------------------------------------------------------------------
  // UTF-8
  // ---------------------------------------------------------------------

  lemma {:induction false} BodyHigh(c: seq<byte>, s: seq<byte>)
    requires forall i | 0 <= i < |c| :: c[i] >= 0x80
    ensures Body(c + s) == c + Body(s)
    decreases |c|
  {
    if c == [] {
      assert c + s == s;
    } else {
      assert (c + s)[1..] == c[1..] + s;
      BodyHigh(c[1..], s);
      assert c == [c[0]] + c[1..];
    }
  }

  /** Escaping works on whole characters. */
  lemma {:induction false} BodyValid(s: seq<byte>)
    requires Valid(s)
    ensures Valid(Body(s))
    decreases |s|
  {
    if s != [] {
      var c, t := FirstChar(s);
      BodyValid(t);
      if |c| == 1 {
        assert s[0] == c[0] && s[1..] == t;
        assert Body(s) == Escape(s[0]) + Body(t);
        EscapeValid(s[0]);
        Glue(Escape(s[0]), Body(t));
      } else {
        CharHigh(c);
        BodyHigh(c, t);
        ValidCons(c, Body(t));
      }
    }
    hide *;
  }

  lemma {:induction false} CharHigh(c: seq<byte>)
    requires IsChar(c)
    ensures |c| == 1 ==> c[0] < 0x80
    ensures |c| > 1 ==> forall i | 0 <= i < |c| :: c[i] >= 0x80
  {
  }

  lemma {:induction false} EscapeValid(b: byte)
    requires b < 0x80
    ensures Valid(Escape(b))
  {
    AsciiIsValid(Escape(b));
  }

  lemma {:induction false} LiteralValid(s: seq<byte>)
    requires Valid(s)
    ensures Valid(Literal(s))
  {
    BodyValid(s);
    AsciiIsValid([QUOTE]);
    Glue([QUOTE], Body(s));
    Glue([QUOTE] + Body(s), [QUOTE]);
    hide *;
  }

  /** One character of the literal. */
  function OneLiteral(c: seq<byte>): seq<byte>
    requires c != []
  {
    if c[0] < 0x80 then Escape(c[0]) else c
  }

  lemma {:induction false} NextChar(s: seq<byte>, i: nat) returns (c: seq<byte>, t: seq<byte>)
    requires i < |s| && Valid(s[i..])
    ensures var n := LeadLen(s[i]);
            i + n <= |s| && c == s[i..i + n] && t == s[i + n..] && Valid(t)
    ensures c != [] && c[0] == s[i] && Body(s[i..]) == OneLiteral(c) + Body(t)
  {
    c, t := FirstChar(s[i..]);
    var n := LeadLen(s[i]);
    assert s[i..][..n] == s[i..i + n] && s[i..][n..] == s[i + n..];
    OneChar(c, t);
    CharHigh(c);
    hide Valid, Body, Escape, IsChar, IsCont;
  }

  /** `string_literal`: character by character. */
  method StringLiteral(s: seq<byte>) returns (out: seq<byte>)
    requires Valid(s)
    ensures out == Literal(s)
  {
    hide Body, Escape, Valid, LeadLen;
    out := [QUOTE];
    var i := 0;
    assert s[0..] == s;
    while i < |s|
      invariant 0 <= i <= |s| && Valid(s[i..])
      invariant out + Body(s[i..]) == [QUOTE] + Body(s)
    {
      ghost var c, t := NextChar(s, i);
      var n := LeadLen(s[i]);
      ghost var before := out;
      if s[i] < 0x80 {
        out := out + Escape(s[i]);
      } else {
        out := out + s[i..i + n];
      }
      assert (before + OneLiteral(c)) + Body(t) == before + (OneLiteral(c) + Body(t));
      i := i + n;
    }
    assert s[i..] == [];
    NoBody();
    out := out + [QUOTE];
  }

  lemma {:induction false} NoBody()
    ensures Body([]) == []
  {
  }

  lemma {:induction false} OneChar(c: seq<byte>, t: seq<byte>)
    requires IsChar(c)
    ensures c != [] && Body(c + t) == OneLiteral(c) + Body(t)
  {
    CharHigh(c);
    if |c| == 1 {
      assert (c + t)[1..] == t;
    } else {
      BodyHigh(c, t);
    }
  }
}
