/** The loops of `interpolate`, and the registry that numbers the classes. */
module InterpolationScan {
  import opened Bytes
  import opened Utf8
  import opened Fingerprints
  import opened FingerprintScan
  import opened Interpolation
  import opened Shadows
  import opened StatementClasses
  import opened Templates

  /** `&sql[i..j]`, which panics off a character boundary. */
  function Slice(s: seq<byte>, i: nat, j: nat): seq<byte>
    requires i <= j <= |s| && Boundary(s, i) && Boundary(s, j)
  {
    s[i..j]
  }

  /** The body of `'..'`, `".."` or `` `..` ``. */
  function InQuotes(r: seq<byte>, q: byte): (n: nat)
    ensures n <= |r|
  {
    if q == TICK then InTicks(r) else InString(r, q)
  }

  lemma {:induction false} InQuotesAt(b: seq<byte>, i: nat, q: byte)
    requires i < |b| && q != BACKSLASH
    ensures InQuotes(b[i..], q) ==
            if b[i] == BACKSLASH && q != TICK then if i + 2 <= |b| then 2 + InQuotes(b[i + 2..], q) else |b| - i
            else if b[i] == q then if i + 1 < |b| && b[i + 1] == q then 2 + InQuotes(b[i + 2..], q) else 1
            else 1 + InQuotes(b[i + 1..], q)
  {
    assert b[i..][1..] == b[i + 1..] && (i + 2 <= |b| ==> b[i..][2..] == b[i + 2..]);
  }

  method SkipQuotes(b: seq<byte>, start: nat) returns (i: nat)
    requires start < |b| && b[start] != BACKSLASH
    ensures i == start + 1 + InQuotes(b[start + 1..], b[start])
  {
    hide InQuotes;
    var n, q := |b|, b[start];
    i := start + 1;
    while i < n
      invariant start < i <= n
      invariant start + 1 + InQuotes(b[start + 1..], q) == i + InQuotes(b[i..], q)
    {
      InQuotesAt(b, i, q);
      if b[i] == BACKSLASH && q != TICK {
        i := if i + 2 < n then i + 2 else n;
      } else if b[i] == q {
        if i + 1 < n && b[i + 1] == q {
          i := i + 2;
        } else {
          i := i + 1;
          break;
        }
      } else {
        i := i + 1;
      }
    }
    assert b[n..] == [];
  }

  method SkipConts(b: seq<byte>, start: nat) returns (i: nat)
    requires start <= |b|
    ensures i == start + Conts(b[start..])
  {
    i := start;
    while i < |b| && IsCont(b[i])
      invariant start <= i <= |b| && start + Conts(b[start..]) == i + Conts(b[i..])
    {
      assert b[i..][1..] == b[i + 1..];
      i := i + 1;
    }
  }

  method SkipPart(b: seq<byte>, i: nat) returns (j: nat)
    requires i < |b|
    ensures j == i + PartWidth(b[i..])
  {
    ghost var r := b[i..];
    assert r[1..] == b[i + 1..] && (i + 2 <= |b| ==> r[2..] == b[i + 2..]);
    match PartOf(b[i..]) {
      case Quotes => j := SkipQuotes(b, i);
      case LineComment => j := SkipLine(b, i);
      case BlockComment => j := SkipBlock(b, i + 2);
      case Hole => j := i + 1;
      case Plain => j := SkipConts(b, i + 1);
    }
    hide PartOf, InString, InTicks, InBlock, InLine, Conts;
  }

  /** One part of the statement, at `i`. */
  lemma {:induction false} PartAt(b: seq<byte>, i: nat, j: nat)
    requires i < |b| && Valid(b[i..]) && j == i + PartWidth(b[i..])
    ensures j <= |b| && Valid(b[j..])
    ensures Holes(b[i..]) == Holes(b[j..]) + if PartOf(b[i..]) == Hole then 1 else 0
  {
    hide *;
    HolesStep(b[i..]);
    PartIsValid(b[i..]);
    DropDrop(b, i, j - i);
  }

  lemma {:induction false} FillAt(b: seq<byte>, i: nat, j: nat, vals: seq<seq<byte>>, out: seq<byte>)
    requires i < |b| && j == i + PartWidth(b[i..])
    ensures out + Image(b[i..], vals) ==
            if PartOf(b[i..]) == Hole && vals != [] then (out + vals[0]) + Image(b[j..], vals[1..])
            else (out + b[i..j]) + Image(b[j..], vals)
  {
    hide *;
    var r := b[i..];
    ImageSplit(r, vals);
    DropDrop(b, i, j - i);
    assert r[..j - i] == b[i..j];
    if PartOf(r) == Hole && vals != [] {
      Regroup(out, vals[0], Image(b[j..], vals[1..]));
    } else {
      Regroup(out, b[i..j], Image(b[j..], vals));
    }
  }

  lemma {:induction false} ImageSplit(r: seq<byte>, vals: seq<seq<byte>>)
    requires r != []
    ensures Image(r, vals) ==
            if PartOf(r) == Hole && vals != [] then vals[0] + Image(r[PartWidth(r)..], vals[1..])
            else r[..PartWidth(r)] + Image(r[PartWidth(r)..], vals)
  {
    if PartOf(r) == Hole { HoleWidth(r); }
  }

  lemma {:induction false} TailBoundary(s: seq<byte>, i: nat)
    requires i <= |s| && Valid(s[i..])
    ensures Boundary(s, i)
  {
    if i < |s| { CharShape(s[i..]); }
  }

  method Interpolate(sql: seq<byte>, values: seq<seq<byte>>, expected: nat) returns (result: Option<seq<byte>>)
    requires Valid(sql)
    ensures result == Interpolated(sql, values, expected)
  {
    hide Valid, Boundary, Image, Holes, PartOf, PartWidth;
    var i, used := 0, 0;
    var out := [];
    assert sql[0..] == sql && values[0..] == values && [] + Image(sql, values) == Image(sql, values);
    while i < |sql|
      invariant 0 <= i <= |sql| && used <= |values| && Valid(sql[i..])
      invariant Holes(sql) == used + Holes(sql[i..])
      invariant out + Image(sql[i..], values[used..]) == Image(sql, values)
    {
      TailBoundary(sql, i);
      var j := SkipPart(sql, i);
      PartAt(sql, i, j);
      FillAt(sql, i, j, values[used..], out);
      TailBoundary(sql, j);
      if PartOf(sql[i..]) == Hole {
        if used >= |values| {
          return None;
        }
        DropValue(values, used);
        out := out + values[used];
        used := used + 1;
      } else {
        out := out + Slice(sql, i, j);
      }
      i := j;
    }
    assert sql[i..] == [];
    NothingMore(values[used..], out);
    result := if used == expected then Some(out) else None;
  }

  lemma {:induction false} DropValue(values: seq<seq<byte>>, k: nat)
    requires k < |values|
    ensures values[k..] != [] && values[k..][0] == values[k] && values[k..][1..] == values[k + 1..]
  {
  }

  lemma {:induction false} NothingMore(vals: seq<seq<byte>>, out: seq<byte>)
    ensures Holes([]) == 0 && out + Image([], vals) == out
  {
  }

  // ---------------------------------------------------------------------
  // The registry
  // ---------------------------------------------------------------------

  const ID_RANGE: nat := 0x1_0000_0000

  /** Texts are numbered in order of arrival, ids cut to 32 bits. */
  predicate Numbered(ids: map<seq<byte>, nat>, texts: seq<seq<byte>>) {
    && (forall k | 0 <= k < |texts| :: texts[k] in ids && ids[texts[k]] == k % ID_RANGE)
    && (forall t | t in ids :: t in texts)
    && (forall j, k | 0 <= j < k < |texts| :: texts[j] != texts[k])
  }

  /** Below 2^32 classes an id stands for exactly one text. */
  lemma {:induction false} IdsAreExact(ids: map<seq<byte>, nat>, texts: seq<seq<byte>>)
    requires Numbered(ids, texts) && |texts| <= ID_RANGE
    ensures forall t | t in ids :: ids[t] < |texts| && texts[ids[t]] == t
    ensures forall t, u | t in ids && u in ids :: ids[t] == ids[u] <==> t == u
  {
    forall t | t in ids ensures ids[t] < |texts| && texts[ids[t]] == t {
      var k :| 0 <= k < |texts| && texts[k] == t;
    }
  }

  class FingerprintRegistry {
    var ids: map<seq<byte>, nat>
    var texts: seq<seq<byte>>

    ghost predicate Valid()
      reads this
    {
      Numbered(ids, texts)
    }

    constructor ()
      ensures Valid() && texts == []
    {
      ids, texts := map[], [];
    }

    method Intern(query: seq<byte>) returns (id: nat)
      requires Valid()
      modifies this
      ensures Valid()
      ensures Fingerprint(query) in ids && id == ids[Fingerprint(query)]
      ensures texts == old(texts) + if Fingerprint(query) in old(ids) then [] else [Fingerprint(query)]
      ensures forall t | t in old(ids) :: t in ids && ids[t] == old(ids)[t]
    {
      hide Fingerprint;
      var fp := ComputeFingerprint(query);
      if fp in ids {
        return ids[fp];
      }
      id := |texts| % ID_RANGE;
      texts := texts + [fp];
      ids := ids[fp := id];
    }
  }

  /** The texts once `fp` is among them. */
  function With(texts: seq<seq<byte>>, fp: seq<byte>): seq<seq<byte>> {
    if fp in texts then texts else texts + [fp]
  }

  /** Template and execution get one id exactly when no mark in shadow is left
      behind the lists, and the execution adds no text then. */
  method InternExecution(reg: FingerprintRegistry, sql: seq<byte>, params: seq<seq<byte>>, expected: nat)
    returns (template: nat, execution: nat)
    requires reg.Valid() && Utf8.Valid(sql)
    requires Interpolated(sql, AsLiterals(params), expected).Some?
    modifies reg
    ensures reg.Valid()
    ensures var text := Interpolated(sql, AsLiterals(params), expected).value;
            reg.texts == With(With(old(reg.texts), Fingerprint(sql)), Fingerprint(text))
    ensures |reg.texts| <= ID_RANGE ==> (template == execution <==> SHADOW !in ShadowedClass(sql))
    ensures SHADOW !in ShadowedClass(sql) ==>
              template == execution && reg.texts == With(old(reg.texts), Fingerprint(sql))
  {
    hide Fingerprint, Interpolated, Utf8.Valid, ShadowedClass;
    template := reg.Intern(sql);
    ExecutionSharesClassIff(sql, params, expected);
    var text := Interpolate(sql, AsLiterals(params), expected);
    execution := reg.Intern(text.value);
    if |reg.texts| <= ID_RANGE {
      IdsAreExact(reg.ids, reg.texts);
    }
  }
}
