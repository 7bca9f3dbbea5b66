/** The fingerprint of a statement: its normalized text before list collapsing.
    Every function works on the text still to be read. */
module Fingerprints {
  import opened Bytes
  import opened Utf8

  // ---------------------------------------------------------------------
  // Widths of the tokens
  // ---------------------------------------------------------------------

  /** From inside a quoted string to just past its closing quote, or to the end. */
  function InString(r: seq<byte>, q: byte): (n: nat)
    ensures n <= |r| && (r != [] ==> n > 0)
  {
    if r == [] then 0
    else if r[0] == BACKSLASH then if |r| < 2 then 1 else 2 + InString(r[2..], q)
    else if r[0] == q then if |r| > 1 && r[1] == q then 2 + InString(r[2..], q) else 1
    else 1 + InString(r[1..], q)
  }

  /** From inside a block comment to just past its end. */
  function InBlock(r: seq<byte>): (n: nat)
    ensures n <= |r|
  {
    if |r| < 2 then |r|
    else if r[0] == STAR && r[1] == SLASH then 2
    else 1 + InBlock(r[1..])
  }

  /** To the end of the line, newline excluded. */
  function InLine(r: seq<byte>): (n: nat)
    ensures n <= |r| && (n < |r| ==> r[n] == NEWLINE)
    ensures r != [] && r[0] != NEWLINE ==> n > 0
  {
    if r == [] || r[0] == NEWLINE then 0 else 1 + InLine(r[1..])
  }

  function Digits(r: seq<byte>): (n: nat)
    ensures n <= |r|
  {
    if r == [] || !IsDigit(r[0]) then 0 else 1 + Digits(r[1..])
  }

  function HexDigits(r: seq<byte>): (n: nat)
    ensures n <= |r|
  {
    if r == [] || !IsHexDigit(r[0]) then 0 else 1 + HexDigits(r[1..])
  }

  function Fraction(r: seq<byte>): (n: nat)
    ensures n <= |r|
  {
    if r != [] && r[0] == DOT then 1 + Digits(r[1..]) else 0
  }

  /** An exponent counts only when it has a digit. */
  function Exponent(r: seq<byte>): (n: nat)
    ensures n <= |r|
  {
    if r != [] && (r[0] == 0x65 || r[0] == 0x45) then
      var s := if |r| > 1 && (r[1] == PLUS || r[1] == MINUS) then 2 else 1;
      if s < |r| && IsDigit(r[s]) then s + Digits(r[s..]) else 0
    else 0
  }

  predicate StartsHex(r: seq<byte>) {
    |r| > 1 && r[0] == ZERO && (r[1] == 0x78 || r[1] == 0x58)
  }

  function InNumber(r: seq<byte>): (n: nat)
    ensures n <= |r|
  {
    if StartsHex(r) then 2 + HexDigits(r[2..])
    else
      var d := Digits(r);
      var f := d + Fraction(r[d..]);
      f + Exponent(r[f..])
  }

  /** The decimal reading: `d` digits, up to `f` with the fraction. */
  lemma {:induction false} InDecimal(r: seq<byte>, d: nat, f: nat)
    requires !StartsHex(r) && d == Digits(r) && f == d + Fraction(r[d..])
    ensures f <= |r| && InNumber(r) == f + Exponent(r[f..])
  {
  }

  lemma {:induction false} InHex(r: seq<byte>)
    requires StartsHex(r)
    ensures |r| > 1 && InNumber(r) == 2 + HexDigits(r[2..])
  {
  }

  /** One character, or one junk byte. */
  function CharWidth(r: seq<byte>): (n: nat)
    requires r != []
    ensures 0 < n <= |r|
  {
    if r[0] >= 0x80 && StartsChar(r) then LeadLen(r[0]) else 1
  }

  /** A character lower-cased; junk becomes U+FFFD. */
  function CharText(r: seq<byte>): (t: seq<byte>)
    requires r != []
    ensures t != []
  {
    if r[0] < 0x80 then [ToLower(r[0])]
    else if StartsChar(r) then r[..LeadLen(r[0])]
    else [0xEF, 0xBF, 0xBD]
  }

  /** From inside a backtick identifier to just past its end. */
  function InTick(r: seq<byte>): (n: nat)
    ensures n <= |r|
  {
    if r == [] then 0
    else if r[0] == TICK then if |r| > 1 && r[1] == TICK then 2 + InTick(r[2..]) else 1
    else CharWidth(r) + InTick(r[CharWidth(r)..])
  }

  function TickText(r: seq<byte>): seq<byte> {
    if r == [] then []
    else if r[0] == TICK then if |r| > 1 && r[1] == TICK then [TICK, TICK] + TickText(r[2..]) else [TICK]
    else CharText(r) + TickText(r[CharWidth(r)..])
  }

  // ---------------------------------------------------------------------
  // One token
  // ---------------------------------------------------------------------

  datatype Kind = Quoted | Ticked | Block | Line | Space | Number | Char

  function KindOf(r: seq<byte>): Kind
    requires r != []
  {
    if r[0] == QUOTE || r[0] == DQUOTE then Quoted
    else if r[0] == TICK then Ticked
    else if r[0] == SLASH && |r| > 1 && r[1] == STAR then Block
    else if r[0] == MINUS && |r| > 1 && r[1] == MINUS && (|r| <= 2 || IsWs(r[2])) then Line
    else if r[0] == HASH then Line
    else if IsWs(r[0]) then Space
    else if IsDigit(r[0]) || (r[0] == DOT && |r| > 1 && IsDigit(r[1])) then Number
    else Char
  }

  predicate EndsIdent(out: seq<byte>) {
    out != [] && (InIdent(out[|out| - 1]) || out[|out| - 1] >= 0x80)
  }

  function PushSpace(out: seq<byte>): seq<byte> {
    if out != [] && out[|out| - 1] != SPACE then out + [SPACE] else out
  }

  predicate IsSign(b: byte) { b == MINUS || b == PLUS }

  /** What a sign may follow and still be unary. */
  predicate BeforeUnary(b: byte) {
    || b == OPEN || b == COMMA || b == EQUALS || b == LESS || b == GREATER
    || b == PLUS || b == MINUS || b == STAR || b == SLASH || b == PERCENT
  }

  /** The trimmed output ends in a unary sign. */
  predicate EndsInUnary(t: seq<byte>) {
    && t != [] && IsSign(t[|t| - 1])
    && var u := TrimEnd(t[..|t| - 1]);
       u == [] || BeforeUnary(u[|u| - 1])
  }

  function FoldSign(out: seq<byte>): (t: seq<byte>)
    ensures t <= out
  {
    var t := TrimEnd(out);
    if EndsInUnary(t) then out[..|t| - 1] else out
  }

  /** The bytes a token takes; a digit behind an identifier belongs to it. */
  function Width(r: seq<byte>, inIdent: bool): (n: nat)
    requires r != []
    ensures 0 < n <= |r|
  {
    match KindOf(r)
    case Quoted => 1 + InString(r[1..], r[0])
    case Ticked => 1 + InTick(r[1..])
    case Block => 2 + InBlock(r[2..])
    case Line => InLine(r)
    case Space => 1
    case Number => if inIdent then 1 else NumberWidth(r)
    case Char => CharWidth(r)
  }

  function NumberWidth(r: seq<byte>): (n: nat)
    requires r != [] && KindOf(r) == Number
    ensures n == InNumber(r) && 0 < n <= |r|
  {
    assert r[0] == DOT ==> Digits(r) == 0 && r[0..] == r;
    InNumber(r)
  }

  function Emit(r: seq<byte>, out: seq<byte>): seq<byte>
    requires r != []
  {
    match KindOf(r)
    case Quoted => out + [MARK]
    case Ticked => out + [TICK] + TickText(r[1..])
    case Block => PushSpace(out)
    case Line => out
    case Space => PushSpace(out)
    case Number => if EndsIdent(out) then out + [r[0]] else FoldSign(out) + [MARK]
    case Char => out + CharText(r)
  }

  /** The main loop: the rest of the text read behind what is already out. */
  function Pass(r: seq<byte>, out: seq<byte>): seq<byte>
    decreases |r|
  {
    if r == [] then out
    else Pass(r[Width(r, EndsIdent(out))..], Emit(r, out))
  }

  /** Trailing semicolons and the space around them. */
  function StripSemicolons(s: seq<byte>): seq<byte>
    decreases |s|
  {
    if s != [] && s[|s| - 1] == SEMICOLON then StripSemicolons(TrimEnd(s[..|s| - 1])) else s
  }

  /** The normalized text, its lists not yet collapsed. */
  function Normalize(q: seq<byte>): seq<byte> {
    StripSemicolons(Trim(Pass(q, [])))
  }

  lemma {:induction false} PassStep(r: seq<byte>, out: seq<byte>)
    requires r != []
    ensures Pass(r, out) == Pass(r[Width(r, EndsIdent(out))..], Emit(r, out))
  {
  }

  lemma {:induction false} PassNil(out: seq<byte>)
    ensures Pass([], out) == out
  {
  }

  // ---------------------------------------------------------------------
  // Output behind a mark is independent of what precedes the mark
  // ---------------------------------------------------------------------

  predicate AtMark(t: seq<byte>) {
    t != [] && t[0] == MARK
  }

  lemma {:induction false} UnaryBehindMark(p: seq<byte>, t: seq<byte>)
    requires AtMark(t)
    ensures EndsInUnary(p + t) == EndsInUnary(t) && (EndsInUnary(t) ==> |t| > 1)
  {
    hide TrimEnd;
    if IsSign(t[|t| - 1]) {
      assert t[..|t| - 1][0] == MARK;
      assert (p + t)[..|p + t| - 1] == p + t[..|t| - 1];
      TrimEndBehindMark(p, t[..|t| - 1]);
    }
  }

  lemma {:induction false} FoldSignIs(out: seq<byte>)
    ensures var t := TrimEnd(out);
            |t| <= |out| && (EndsInUnary(t) ==> t != [])
            && FoldSign(out) == if EndsInUnary(t) then out[..|t| - 1] else out
  {
    hide TrimEnd;
  }

  lemma {:induction false} FoldBehindMark(p: seq<byte>, t: seq<byte>)
    requires AtMark(t)
    ensures FoldSign(p + t) == p + FoldSign(t) && AtMark(FoldSign(t))
  {
    var u := TrimEnd(t);
    TrimEndBehindMark(p, t);
    UnaryBehindMark(p, u);
    FoldSignIs(t);
    FoldSignIs(p + t);
    hide TrimEnd, EndsInUnary, FoldSign;
    if EndsInUnary(u) {
      TakeBehind(p, t, |u| - 1);
      assert t[..|u| - 1][0] == t[0];
    }
  }

  lemma {:induction false} TakeBehind(p: seq<byte>, t: seq<byte>, k: nat)
    requires k <= |t|
    ensures (p + t)[..|p| + k] == p + t[..k]
  {
  }

  lemma {:induction false} AddBehind(p: seq<byte>, t: seq<byte>, x: seq<byte>)
    requires AtMark(t)
    ensures (p + t) + x == p + (t + x) && AtMark(t + x)
  {
  }

  lemma {:induction false} SpaceBehind(p: seq<byte>, t: seq<byte>)
    requires AtMark(t)
    ensures PushSpace(p + t) == p + PushSpace(t) && AtMark(PushSpace(t))
    ensures EndsIdent(p + t) == EndsIdent(t)
  {
    AddBehind(p, t, [SPACE]);
    assert (p + t)[|p + t| - 1] == t[|t| - 1];
  }

  lemma {:induction false} WidthIs(r: seq<byte>, inIdent: bool)
    requires r != []
    ensures var w := Width(r, inIdent);
            match KindOf(r)
            case Quoted => w == 1 + InString(r[1..], r[0])
            case Ticked => w == 1 + InTick(r[1..])
            case Block => |r| > 1 && w == 2 + InBlock(r[2..])
            case Line => w == InLine(r)
            case Space => w == 1 && r[0] < 0x80
            case Number => w == (if inIdent then 1 else InNumber(r)) && r[0] < 0x80
            case Char => w == CharWidth(r)
  {
  }

  lemma {:induction false} EmitIs(r: seq<byte>, out: seq<byte>)
    requires r != []
    ensures Emit(r, out) == match KindOf(r)
                            case Quoted => out + [MARK]
                            case Ticked => (out + [TICK]) + TickText(r[1..])
                            case Block => PushSpace(out)
                            case Line => out
                            case Space => PushSpace(out)
                            case Number => if EndsIdent(out) then out + [r[0]] else FoldSign(out) + [MARK]
                            case Char => out + CharText(r)
  {
    hide KindOf, FoldSign, CharText, TickText, PushSpace, EndsIdent;
  }

  lemma {:induction false} EmitBehindMark(r: seq<byte>, p: seq<byte>, t: seq<byte>)
    requires r != [] && AtMark(t)
    ensures Emit(r, p + t) == p + Emit(r, t) && AtMark(Emit(r, t))
    ensures EndsIdent(p + t) == EndsIdent(t)
  {
    hide *;
    EmitIs(r, t);
    EmitIs(r, p + t);
    SpaceBehind(p, t);
    match KindOf(r) {
      case Quoted => AddBehind(p, t, [MARK]);
      case Ticked =>
        AddBehind(p, t, [TICK]);
        AddBehind(p, t + [TICK], TickText(r[1..]));
      case Block =>
      case Line =>
      case Space =>
      case Number =>
        FoldBehindMark(p, t);
        AddBehind(p, FoldSign(t), [MARK]);
        AddBehind(p, t, [r[0]]);
      case Char => AddBehind(p, t, CharText(r));
    }
  }

  /** What stands before a mark is never touched again. */
  lemma {:induction false} PassBehindMark(r: seq<byte>, p: seq<byte>, t: seq<byte>)
    requires AtMark(t)
    ensures Pass(r, p + t) == p + Pass(r, t)
    decreases |r|
  {
    if r == [] {
    } else {
      PassStep(r, p + t);
      PassStep(r, t);
      hide Pass, Emit, EndsIdent, Width;
      EmitBehindMark(r, p, t);
      PassBehindMark(r[Width(r, EndsIdent(t))..], p, Emit(r, t));
    }
  }

  // ---------------------------------------------------------------------
  // Case
  // ---------------------------------------------------------------------

  /** `to_ascii_uppercase`. */
  function Upper(r: seq<byte>): (u: seq<byte>)
    ensures |u| == |r| && forall i | 0 <= i < |r| :: u[i] == ToUpper(r[i])
  {
    seq(|r|, i requires 0 <= i < |r| => ToUpper(r[i]))
  }

  lemma {:induction false} UpperDrop(r: seq<byte>, k: nat)
    requires k <= |r|
    ensures Upper(r)[k..] == Upper(r[k..])
  {
  }

  lemma {:induction false} UpperString(r: seq<byte>, q: byte)
    requires !IsLower(q) && !IsUpper(q)
    ensures InString(Upper(r), q) == InString(r, q)
    decreases |r|
  {
    if r == [] {
      assert Upper(r) == [];
    } else {
      UpperDrop(r, 1);
      UpperString(r[1..], q);
      if |r| > 1 {
        UpperDrop(r, 2);
        UpperString(r[2..], q);
      }
    }
  }

  lemma {:induction false} UpperComments(r: seq<byte>)
    ensures InBlock(Upper(r)) == InBlock(r) && InLine(Upper(r)) == InLine(r)
    decreases |r|
  {
    if r == [] {
      assert Upper(r) == [];
    } else {
      UpperDrop(r, 1);
      UpperComments(r[1..]);
    }
  }

  lemma {:induction false} UpperDigits(r: seq<byte>)
    ensures Digits(Upper(r)) == Digits(r) && HexDigits(Upper(r)) == HexDigits(r)
    decreases |r|
  {
    if r == [] {
      assert Upper(r) == [];
    } else {
      UpperDrop(r, 1);
      UpperDigits(r[1..]);
    }
  }

  lemma {:induction false} UpperExponent(r: seq<byte>)
    ensures Exponent(Upper(r)) == Exponent(r) && Fraction(Upper(r)) == Fraction(r)
  {
    hide Digits;
    if r != [] {
      UpperDrop(r, 1);
      UpperDigits(r[1..]);
      if |r| > 1 {
        UpperDrop(r, 2);
        UpperDigits(r[2..]);
      }
    }
  }

  lemma {:induction false} UpperNumber(r: seq<byte>)
    ensures InNumber(Upper(r)) == InNumber(r)
  {
    hide Digits, HexDigits, Fraction, Exponent;
    UpperDigits(r);
    var d := Digits(r);
    UpperDrop(r, d);
    UpperExponent(r[d..]);
    var f := d + Fraction(r[d..]);
    UpperDrop(r, f);
    UpperExponent(r[f..]);
    if |r| > 1 {
      UpperDrop(r, 2);
      UpperDigits(r[2..]);
    }
  }

  lemma {:induction false} UpperChar(r: seq<byte>)
    requires r != []
    ensures CharWidth(Upper(r)) == CharWidth(r) && CharText(Upper(r)) == CharText(r)
  {
    var u, n := Upper(r), LeadLen(r[0]);
    if r[0] >= 0x80 && n <= |r| {
      assert forall i | 0 <= i < n :: u[..n][i] == ToUpper(r[..n][i]);
      UpperIsChar(r[..n], u[..n]);
      if StartsChar(r) {
        CharShape(r);
        assert u[..n] == r[..n];
      }
    }
  }

  lemma {:induction false} UpperIsChar(c: seq<byte>, u: seq<byte>)
    requires |u| == |c| && forall i | 0 <= i < |c| :: u[i] == ToUpper(c[i])
    ensures IsChar(u) == IsChar(c)
  {
  }

  lemma {:induction false} UpperTick(r: seq<byte>)
    ensures InTick(Upper(r)) == InTick(r) && TickText(Upper(r)) == TickText(r)
    decreases |r|
  {
    hide CharWidth, CharText;
    if r == [] {
      assert Upper(r) == [];
    } else {
      UpperChar(r);
      UpperDrop(r, CharWidth(r));
      UpperTick(r[CharWidth(r)..]);
      if |r| > 1 {
        UpperDrop(r, 2);
        UpperTick(r[2..]);
      }
    }
  }

  lemma {:induction false} UpperKind(r: seq<byte>)
    requires r != []
    ensures KindOf(Upper(r)) == KindOf(r)
  {
  }

  lemma {:induction false} UpperQuoted(r: seq<byte>)
    requires r != [] && KindOf(r) == Quoted
    ensures Upper(r)[0] == r[0] && InString(Upper(r)[1..], r[0]) == InString(r[1..], r[0])
  {
    hide InString;
    UpperDrop(r, 1);
    UpperString(r[1..], r[0]);
  }

  lemma {:induction false} UpperBlock(r: seq<byte>)
    requires r != [] && KindOf(r) == Block
    ensures |r| > 1 && InBlock(Upper(r)[2..]) == InBlock(r[2..])
  {
    hide InBlock;
    UpperDrop(r, 2);
    UpperComments(r[2..]);
  }

  lemma {:induction false} UpperHead(r: seq<byte>)
    requires r != [] && KindOf(r) == Number
    ensures Upper(r)[0] == r[0]
  {
  }

  lemma {:induction false} UpperToken(r: seq<byte>, out: seq<byte>)
    requires r != []
    ensures Width(Upper(r), EndsIdent(out)) == Width(r, EndsIdent(out))
    ensures Emit(Upper(r), out) == Emit(r, out)
  {
    UpperKind(r);
    match KindOf(r) {
      case Quoted => UpperQuoted(r);
      case Ticked => UpperDrop(r, 1); UpperTick(r[1..]);
      case Block => UpperBlock(r);
      case Line => UpperComments(r);
      case Space =>
      case Number => UpperHead(r); UpperNumber(r);
      case Char => UpperChar(r);
    }
    hide KindOf, InString, InTick, TickText, InBlock, InLine, InNumber, CharWidth, CharText, FoldSign, PushSpace,
        EndsIdent;
  }

  /** Upper-casing the query changes nothing, wherever the letters stand. */
  lemma {:induction false} CaseDoesNotMatter(r: seq<byte>, out: seq<byte>)
    ensures Pass(Upper(r), out) == Pass(r, out)
    decreases |r|
  {
    if r == [] {
      assert Upper(r) == [];
    } else {
      PassStep(r, out);
      PassStep(Upper(r), out);
      hide Pass, Width, Emit, EndsIdent;
      UpperToken(r, out);
      var w := Width(r, EndsIdent(out));
      UpperDrop(r, w);
      CaseDoesNotMatter(r[w..], Emit(r, out));
    }
  }
}
