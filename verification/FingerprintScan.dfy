/** The index-driven loops of the fingerprint and of `interpolate`, proved
    against `Fingerprints`, `ListCollapse` and `Interpolation`. */
module FingerprintScan {
  import opened Bytes
  import opened Utf8
  import opened Fingerprints
  import opened ListCollapse
  import opened StatementClasses

  // ---------------------------------------------------------------------
  // Skippers
  // ---------------------------------------------------------------------

  /** One past the closing quote; the index may run past the end inside. */
  method SkipString(b: seq<byte>, start: nat) returns (i: nat)
    requires start < |b|
    ensures i == start + 1 + InString(b[start + 1..], b[start])
  {
    var n, quote := |b|, b[start];
    i := start + 1;
    while i < n
      invariant start < i <= n + 1
      invariant i <= n ==> start + 1 + InString(b[start + 1..], quote) == i + InString(b[i..], quote)
      invariant i > n ==> start + 1 + InString(b[start + 1..], quote) == n
      decreases n - i
    {
      assert b[i..][1..] == b[i + 1..] && (i + 2 <= n ==> b[i..][2..] == b[i + 2..]);
      if b[i] == BACKSLASH {
        i := i + 2;
        continue;
      }
      if b[i] == quote {
        if i + 1 < n && b[i + 1] == quote {
          i := i + 2;
          continue;
        }
        return i + 1;
      }
      i := i + 1;
    }
    i := n;
  }

  method SkipDigits(b: seq<byte>, start: nat) returns (i: nat)
    requires start <= |b|
    ensures i == start + Digits(b[start..])
  {
    i := start;
    while i < |b| && IsDigit(b[i])
      invariant start <= i <= |b| && start + Digits(b[start..]) == i + Digits(b[i..])
    {
      assert b[i..][1..] == b[i + 1..];
      i := i + 1;
    }
  }

  method SkipHexDigits(b: seq<byte>, start: nat) returns (i: nat)
    requires start <= |b|
    ensures i == start + HexDigits(b[start..])
  {
    i := start;
    while i < |b| && IsHexDigit(b[i])
      invariant start <= i <= |b| && start + HexDigits(b[start..]) == i + HexDigits(b[i..])
    {
      assert b[i..][1..] == b[i + 1..];
      i := i + 1;
    }
  }

  method SkipFraction(b: seq<byte>, start: nat) returns (i: nat)
    requires start <= |b|
    ensures i == start + Fraction(b[start..])
  {
    i := start;
    if i < |b| && b[i] == DOT {
      assert b[start..][1..] == b[start + 1..];
      i := SkipDigits(b, i + 1);
    }
  }

  method SkipExponent(b: seq<byte>, start: nat) returns (i: nat)
    requires start <= |b|
    ensures i == start + Exponent(b[start..])
  {
    i := start;
    if i < |b| && (b[i] == 0x65 || b[i] == 0x45) {
      var j := i + 1;
      if j < |b| && IsSign(b[j]) {
        j := j + 1;
      }
      if j < |b| && IsDigit(b[j]) {
        assert b[start..][j - start..] == b[j..];
        i := SkipDigits(b, j);
      }
    }
  }

  method SkipNumber(b: seq<byte>, start: nat) returns (i: nat)
    requires start <= |b|
    ensures i == start + InNumber(b[start..])
  {
    hide Digits, HexDigits, Fraction, Exponent, InNumber;
    ghost var r := b[start..];
    if start + 1 < |b| && b[start] == ZERO && (b[start + 1] == 0x78 || b[start + 1] == 0x58) {
      InHex(r);
      assert r[2..] == b[start + 2..];
      i := SkipHexDigits(b, start + 2);
      return;
    }
    i := SkipDigits(b, start);
    ghost var d := i - start;
    assert r[d..] == b[i..];
    i := SkipFraction(b, i);
    ghost var f := i - start;
    assert r[f..] == b[i..];
    i := SkipExponent(b, i);
    InDecimal(r, d, f);
  }

  method SkipBlock(b: seq<byte>, start: nat) returns (i: nat)
    requires start <= |b|
    ensures i == start + InBlock(b[start..])
  {
    i := start;
    while i + 1 < |b| && !(b[i] == STAR && b[i + 1] == SLASH)
      invariant start <= i <= |b| && start + InBlock(b[start..]) == i + InBlock(b[i..])
    {
      assert b[i..][1..] == b[i + 1..];
      i := i + 1;
    }
    i := if i + 2 < |b| then i + 2 else |b|;
  }

  method SkipLine(b: seq<byte>, start: nat) returns (i: nat)
    requires start <= |b|
    ensures i == start + InLine(b[start..])
  {
    i := start;
    while i < |b| && b[i] != NEWLINE
      invariant start <= i <= |b| && start + InLine(b[start..]) == i + InLine(b[i..])
    {
      assert b[i..][1..] == b[i + 1..];
      i := i + 1;
    }
  }

  /** A backtick identifier, copied lower-cased behind `out`. */
  method CopyTicked(b: seq<byte>, start: nat, out: seq<byte>) returns (i: nat, o: seq<byte>)
    requires start < |b| && b[start] == TICK
    ensures i == start + 1 + InTick(b[start + 1..])
    ensures o == out + [TICK] + TickText(b[start + 1..])
  {
    hide CharWidth, CharText;
    i, o := start + 1, out + [TICK];
    while i < |b|
      invariant start < i <= |b|
      invariant start + 1 + InTick(b[start + 1..]) == i + InTick(b[i..])
      invariant out + [TICK] + TickText(b[start + 1..]) == o + TickText(b[i..])
    {
      ghost var r := b[i..];
      assert forall x, y: seq<byte> :: o + (x + y) == (o + x) + y;
      if b[i] == TICK {
        if i + 1 < |b| && b[i + 1] == TICK {
          assert r[2..] == b[i + 2..];
          o := o + [TICK, TICK];
          i := i + 2;
          continue;
        }
        o := o + [TICK];
        i := i + 1;
        return;
      }
      assert r[CharWidth(r)..] == b[i + CharWidth(r)..];
      o := o + CharText(b[i..]);
      i := i + CharWidth(b[i..]);
    }
  }

  // ---------------------------------------------------------------------
  // The main loop
  // ---------------------------------------------------------------------

  /** One round of the loop: the token at `i`, behind `out`. */
  method ReadToken(b: seq<byte>, i: nat, out: seq<byte>) returns (j: nat, o: seq<byte>)
    requires i < |b|
    ensures j == i + Width(b[i..], EndsIdent(out)) && o == Emit(b[i..], out)
  {
    ghost var r := b[i..];
    assert r[1..] == b[i + 1..] && (i + 2 <= |b| ==> r[2..] == b[i + 2..]);
    match KindOf(b[i..]) {
      case Quoted =>
        j := SkipString(b, i);
        o := out + [MARK];
      case Ticked =>
        j, o := CopyTicked(b, i, out);
      case Block =>
        j := SkipBlock(b, i + 2);
        o := PushSpace(out);
      case Line =>
        j := SkipLine(b, i);
        o := out;
      case Space =>
        j, o := i + 1, PushSpace(out);
      case Number =>
        if EndsIdent(out) {
          j, o := i + 1, out + [b[i]];
        } else {
          j := SkipNumber(b, i);
          o := FoldSign(out) + [MARK];
        }
      case Char =>
        j, o := i + CharWidth(b[i..]), out + CharText(b[i..]);
    }
    hide KindOf, InString, InTick, TickText, InBlock, InLine, InNumber, CharWidth, CharText, FoldSign, PushSpace,
        EndsIdent;
  }

  lemma {:induction false} PassStepAt(b: seq<byte>, i: nat, out: seq<byte>)
    requires i < |b|
    ensures Pass(b[i..], out) == Pass(b[i + Width(b[i..], EndsIdent(out))..], Emit(b[i..], out))
  {
    PassStep(b[i..], out);
    var w := Width(b[i..], EndsIdent(out));
    assert b[i..][w..] == b[i + w..];
    hide Pass, Width, Emit, EndsIdent;
  }

  /** The main loop. */
  method RunPass(q: seq<byte>) returns (out: seq<byte>)
    ensures out == Pass(q, [])
  {
    hide *;
    var i := 0;
    out := [];
    assert q[0..] == q;
    while i < |q|
      invariant 0 <= i <= |q| && Pass(q[i..], out) == Pass(q, [])
    {
      PassStepAt(q, i, out);
      i, out := ReadToken(q, i, out);
    }
    assert q[i..] == [];
    PassNil(out);
  }

  method NormalizeText(q: seq<byte>) returns (s: seq<byte>)
    ensures s == Normalize(q)
  {
    hide Pass, TrimEnd, TrimStart;
    s := RunPass(q);
    s := Trim(s);
    while s != [] && s[|s| - 1] == SEMICOLON
      invariant StripSemicolons(s) == Normalize(q)
      decreases |s|
    {
      s := TrimEnd(s[..|s| - 1]);
    }
  }

  // ---------------------------------------------------------------------
  // Collapsing
  // ---------------------------------------------------------------------

  method SkipSpaces(b: seq<byte>, start: nat) returns (i: nat)
    requires start <= |b|
    ensures i == start + Spaces(b[start..])
  {
    i := start;
    while i < |b| && b[i] == SPACE
      invariant start <= i <= |b| && start + Spaces(b[start..]) == i + Spaces(b[i..])
    {
      assert b[i..][1..] == b[i + 1..];
      i := i + 1;
    }
  }

  function Shift(k: nat, n: Option<nat>): Option<nat> {
    match n case None => None case Some(m) => Some(k + m)
  }

  lemma {:induction false} GroupStep(b: seq<byte>, k: nat, seen: bool)
    requires k < |b|
    ensures GroupRest(b[k..], seen) ==
            if b[k] == MARK then More(GroupRest(b[k + 1..], true))
            else if b[k] == COMMA || b[k] == SPACE then More(GroupRest(b[k + 1..], seen))
            else if b[k] == CLOSE && seen then Some(1)
            else None
  {
    assert b[k..][1..] == b[k + 1..];
  }

  lemma {:induction false} GroupNil(b: seq<byte>, seen: bool)
    ensures GroupRest(b[|b|..], seen) == None
  {
  }

  /** `placeholder_group_end`. */
  method GroupEnd(b: seq<byte>, open: nat) returns (end: Option<nat>)
    requires open < |b| && b[open] == OPEN
    ensures end == Shift(open + 1, GroupRest(b[open + 1..], false))
  {
    hide GroupRest;
    var k, placeholders := open + 1, 0;
    while k < |b|
      invariant open < k <= |b|
      invariant Shift(open + 1, GroupRest(b[open + 1..], false)) == Shift(k, GroupRest(b[k..], placeholders > 0))
    {
      GroupStep(b, k, placeholders > 0);
      if b[k] == MARK {
        placeholders := placeholders + 1;
        k := k + 1;
      } else if b[k] == COMMA || b[k] == SPACE {
        k := k + 1;
      } else if b[k] == CLOSE && placeholders > 0 {
        return Some(k + 1);
      } else {
        return None;
      }
    }
    GroupNil(b, placeholders > 0);
    end := None;
  }

  /** Spaces and a group, from `start`. */
  method SpacedGroupEnd(b: seq<byte>, start: nat) returns (end: Option<nat>)
    requires start <= |b|
    ensures end == Shift(start, SpacedGroup(b[start..]))
    ensures end.Some? ==> start < end.value <= |b|
  {
    hide Spaces, GroupRest;
    var j := SkipSpaces(b, start);
    if j < |b| && b[j] == OPEN {
      assert b[start..][j - start + 1..] == b[j + 1..];
      end := GroupEnd(b, j);
    } else {
      end := None;
    }
  }

  function Before(b: seq<byte>, i: nat): Option<byte>
    requires i <= |b|
  {
    if i == 0 then None else Some(b[i - 1])
  }

  /** `word_at`. */
  method IsWordAt(b: seq<byte>, i: nat, word: seq<byte>) returns (yes: bool)
    requires i <= |b|
    ensures yes == WordAt(Before(b, i), b[i..], word)
    ensures yes ==> i + |word| <= |b|
  {
    if i + |word| > |b| || b[i..i + |word|] != word {
      assert |word| <= |b[i..]| ==> b[i..][..|word|] == b[i..i + |word|];
      return false;
    }
    assert b[i..][..|word|] == b[i..i + |word|] && b[i..][|word|..] == b[i + |word|..];
    var after := i + |word|;
    yes := (i == 0 || (!InIdent(b[i - 1]) && b[i - 1] != TICK))
           && (after >= |b| || (!InIdent(b[after]) && b[after] != TICK));
  }

  lemma {:induction false} CollapseStepAt(l: List, b: seq<byte>, i: nat, n: nat)
    requires i < |b| && n == ListAt(l, Before(b, i), b[i..])
    ensures i + n <= |b|
    ensures Collapse(l, Before(b, i), b[i..]) ==
            if n > 0 then Text(l) + Collapse(l, Before(b, i + n), b[i + n..])
            else [b[i]] + Collapse(l, Before(b, i + 1), b[i + 1..])
  {
    CollapseStep(l, Before(b, i), b[i..]);
    assert b[i..][1..] == b[i + 1..] && b[i..][n..] == b[i + n..];
    assert n > 0 ==> b[i..][n - 1] == b[i + n - 1];
    hide Collapse, ListAt, Text;
  }

  lemma {:induction false} CollapseNil(l: List, prev: Option<byte>, out: seq<byte>)
    ensures out + Collapse(l, prev, []) == out
  {
  }

  lemma {:induction false} Regroup(out: seq<byte>, x: seq<byte>, y: seq<byte>)
    ensures out + (x + y) == (out + x) + y
  {
  }

  /** The `in` list at `i`, as its loop finds it. */
  method InListEnd(b: seq<byte>, i: nat) returns (end: nat)
    requires i < |b|
    ensures end == i + ListAt(In, Before(b, i), b[i..])
  {
    hide WordAt, SpacedGroup, Word;
    var word := IsWordAt(b, i, Word(In));
    if word {
      assert b[i..][|Word(In)|..] == b[i + |Word(In)|..];
      var group := SpacedGroupEnd(b, i + |Word(In)|);
      if group.Some? {
        return group.value;
      }
    }
    end := i;
  }

  method CollapseInLists(b: seq<byte>) returns (out: seq<byte>)
    ensures out == Collapse(In, None, b)
  {
    hide Collapse, ListAt, Text;
    var i := 0;
    out := [];
    assert b[0..] == b && [] + Collapse(In, None, b) == Collapse(In, None, b);
    while i < |b|
      invariant 0 <= i <= |b| && out + Collapse(In, Before(b, i), b[i..]) == Collapse(In, None, b)
    {
      var end := InListEnd(b, i);
      CollapseStepAt(In, b, i, end - i);
      if end > i {
        Regroup(out, Text(In), Collapse(In, Before(b, end), b[end..]));
        out := out + Text(In);
        i := end;
        continue;
      }
      Regroup(out, [b[i]], Collapse(In, Before(b, i + 1), b[i + 1..]));
      out := out + [b[i]];
      i := i + 1;
    }
    assert b[i..] == [];
    CollapseNil(In, Before(b, i), out);
  }

  /** What a `values` list still has from `k` on, given whether it has a tuple yet. */
  function TuplesFrom(b: seq<byte>, k: nat, some: bool): (n: nat)
    requires k <= |b|
    ensures k + n <= |b|
  {
    if some then MoreTuples(b[k..])
    else match SpacedGroup(b[k..]) case None => 0 case Some(n) => n + MoreTuples(b[k + n..])
  }

  lemma {:induction false} DropDrop(b: seq<byte>, k: nat, j: nat)
    requires k + j <= |b|
    ensures b[k..][j..] == b[k + j..]
  {
  }

  /** The value of `TuplesFrom`, from the group found at `from`. */
  function AfterGroup(b: seq<byte>, k: nat, from: nat): nat
    requires k <= from <= |b|
  {
    match SpacedGroup(b[from..]) case None => 0 case Some(n) => from - k + n + MoreTuples(b[from + n..])
  }

  lemma {:induction false} FirstTuple(b: seq<byte>, k: nat)
    requires k <= |b|
    ensures TuplesFrom(b, k, false) == AfterGroup(b, k, k)
  {
    hide SpacedGroup, MoreTuples;
  }

  lemma {:induction false} StartAt(b: seq<byte>, k: nat)
    requires k <= |b|
    ensures var m := k + Spaces(b[k..]);
            k + TupleStart(b[k..]) == if m < |b| && b[m] == COMMA then m + 1 else k
  {
    hide Spaces;
  }

  lemma {:induction false} NextTuple(b: seq<byte>, k: nat, c: nat)
    requires k <= |b| && c == TupleStart(b[k..])
    ensures k + c <= |b| && TuplesFrom(b, k, true) == AfterGroup(b, k, k + c)
  {
    hide *;
    var r := b[k..];
    MoreFrom(b, k);
    MoreStep(r, c);
    DropDrop(b, k, c);
    var n := SpacedGroup(b[k + c..]);
    AfterGroupIs(b, k, k + c, n);
    if n.Some? {
      DropDrop(b, k, c + n.value);
    }
  }

  lemma {:induction false} AfterGroupIs(b: seq<byte>, k: nat, from: nat, n: Option<nat>)
    requires k <= from <= |b| && n == SpacedGroup(b[from..])
    ensures n.Some? ==>
              && from + n.value <= |b|
              && AfterGroup(b, k, from) == from - k + n.value + MoreTuples(b[from + n.value..])
    ensures n.None? ==> AfterGroup(b, k, from) == 0
  {
    hide SpacedGroup, MoreTuples;
  }

  lemma {:induction false} MoreStep(r: seq<byte>, c: nat)
    requires c == TupleStart(r)
    ensures MoreTuples(r) == match SpacedGroup(r[c..]) case None => 0 case Some(k) => c + k + MoreTuples(r[c + k..])
  {
    hide SpacedGroup, TupleStart;
  }

  lemma {:induction false} MoreFrom(b: seq<byte>, k: nat)
    requires k <= |b|
    ensures TuplesFrom(b, k, true) == MoreTuples(b[k..])
  {
  }

  method TuplesEnd(b: seq<byte>, start: nat) returns (k: nat, tuples: nat)
    requires start <= |b|
    ensures k == start + TuplesFrom(b, start, false) && (tuples > 0 <==> k > start)
  {
    hide SpacedGroup, TuplesFrom, MoreTuples, Spaces;
    k, tuples := start, 0;
    while true
      invariant start <= k <= |b| && (tuples > 0 <==> k > start)
      invariant start + TuplesFrom(b, start, false) == k + TuplesFrom(b, k, tuples > 0)
      decreases |b| - k
    {
      var m := SkipSpaces(b, k);
      var from := if tuples > 0 && m < |b| && b[m] == COMMA then m + 1 else k;
      if tuples > 0 {
        StartAt(b, k);
        NextTuple(b, k, from - k);
      } else {
        FirstTuple(b, k);
      }
      var end := SpacedGroupEnd(b, from);
      if end.None? {
        return;
      }
      assert TuplesFrom(b, end.value, true) == MoreTuples(b[end.value..]) by { MoreFrom(b, end.value); }
      tuples := tuples + 1;
      k := end.value;
    }
  }

  /** The `values` list at `i`, as its loop finds it. */
  method ValuesListEnd(b: seq<byte>, i: nat) returns (end: nat)
    requires i < |b|
    ensures end == i + ListAt(Values, Before(b, i), b[i..])
  {
    hide WordAt, SpacedGroup, Word, MoreTuples;
    var word := IsWordAt(b, i, Word(Values));
    if word {
      var from := i + |Word(Values)|;
      ghost var r := b[i..];
      assert r[|Word(Values)|..] == b[from..];
      ghost var n := SpacedGroup(b[from..]);
      if n.Some? { assert r[|Word(Values)| + n.value..] == b[from + n.value..]; }
      var k, tuples := TuplesEnd(b, from);
      if tuples > 0 {
        return k;
      }
    }
    end := i;
  }

  method CollapseValuesLists(b: seq<byte>) returns (out: seq<byte>)
    ensures out == Collapse(Values, None, b)
  {
    hide Collapse, ListAt, Text;
    var i := 0;
    out := [];
    assert b[0..] == b && [] + Collapse(Values, None, b) == Collapse(Values, None, b);
    while i < |b|
      invariant 0 <= i <= |b| && out + Collapse(Values, Before(b, i), b[i..]) == Collapse(Values, None, b)
    {
      var end := ValuesListEnd(b, i);
      CollapseStepAt(Values, b, i, end - i);
      if end > i {
        Regroup(out, Text(Values), Collapse(Values, Before(b, end), b[end..]));
        out := out + Text(Values);
        i := end;
        continue;
      }
      Regroup(out, [b[i]], Collapse(Values, Before(b, i + 1), b[i + 1..]));
      out := out + [b[i]];
      i := i + 1;
    }
    assert b[i..] == [];
    CollapseNil(Values, Before(b, i), out);
  }

  method ComputeFingerprint(q: seq<byte>) returns (s: seq<byte>)
    ensures s == Fingerprint(q)
  {
    hide Collapse, Normalize;
    s := NormalizeText(q);
    s := CollapseInLists(s);
    s := CollapseValuesLists(s);
  }
}
