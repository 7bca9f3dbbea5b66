/** The slow-log scanner and the scanner of `interpolate` were written apart; they
    agree on where strings and comments end. */
module ScannerAgreement {
  import opened Bytes
  import opened Utf8
  import F = Fingerprints
  import opened Interpolation
  import opened SlowLog

  /** A question mark on the next line. */
  const PROBE: seq<byte> := [NEWLINE, MARK]

  /** The body of a quoted part, as `interpolate` skips it. */
  function Body(r: seq<byte>, q: byte): (n: nat)
    ensures n <= |r|
  {
    if q == TICK then InTicks(r) else F.InString(r, q)
  }

  /** Both scanners leave the string at the same byte, or neither leaves it. */
  predicate StringAgrees(r: seq<byte>, q: byte) {
    var n, m := Body(r, q), Body(r + PROBE, q);
    || (m == n && Scan(InString(q), r) == Scan(Normal, r[n..]))
    || (n == |r| && m == |r| + 2 && Scan(InString(q), r) == InString(q))
  }

  lemma {:induction false} BodyStep(r: seq<byte>, q: byte)
    requires r != [] && IsQuoteMark(q)
    ensures Body(r, q) ==
            if r[0] == BACKSLASH && q != TICK then if |r| < 2 then 1 else 2 + Body(r[2..], q)
            else if r[0] == q then if |r| > 1 && r[1] == q then 2 + Body(r[2..], q) else 1
            else 1 + Body(r[1..], q)
  {
  }

  lemma {:induction false} ProbeBody(q: byte)
    requires IsQuoteMark(q)
    ensures Body([], q) == 0 && Body([MARK], q) == 1 && Body(PROBE, q) == 2
  {
    assert PROBE[1..] == [MARK] && [MARK][1..] == [];
    BodyStep(PROBE, q);
    BodyStep([MARK], q);
  }

  lemma {:induction false} LaterAgrees(r: seq<byte>, q: byte, k: nat)
    requires k <= |r| && StringAgrees(r[k..], q) && Scan(InString(q), r) == Scan(InString(q), r[k..])
    requires Body(r, q) == k + Body(r[k..], q) && Body(r + PROBE, q) == k + Body((r + PROBE)[k..], q)
    ensures StringAgrees(r, q)
  {
    hide Body, Scan;
    assert (r + PROBE)[k..] == r[k..] + PROBE;
    var n := Body(r[k..], q);
    assert r[k..][n..] == r[k + n..];
  }

  lemma {:induction false} StringsAgree(r: seq<byte>, q: byte)
    requires IsQuoteMark(q)
    ensures StringAgrees(r, q)
    decreases |r|
  {
    hide Body, Scan;
    var s := r + PROBE;
    ProbeBody(q);
    ScanDone(InString(q));
    if r == [] {
      assert s == PROBE;
    } else {
      BodyStep(r, q);
      BodyStep(s, q);
      ScanStep(InString(q), r);
      if |r| >= 2 { assert s[2..] == r[2..] + PROBE; } else { assert s[1..] == PROBE && s[2..] == [MARK]; }
      if r[0] == BACKSLASH && q != TICK {
        if |r| >= 2 {
          StringsAgree(r[2..], q);
          LaterAgrees(r, q, 2);
        }
      } else if r[0] == q {
        if |r| > 1 && r[1] == q {
          StringsAgree(r[2..], q);
          LaterAgrees(r, q, 2);
        }
      } else {
        StringsAgree(r[1..], q);
        assert s[1..] == r[1..] + PROBE;
        LaterAgrees(r, q, 1);
      }
    }
  }

  predicate BlockAgrees(r: seq<byte>) {
    var n, m := F.InBlock(r), F.InBlock(r + PROBE);
    || (m == n && Scan(InComment, r) == Scan(Normal, r[n..]))
    || (n == |r| && m == |r| + 2 && Scan(InComment, r) == InComment)
  }

  lemma {:induction false} BlocksAgree(r: seq<byte>)
    ensures BlockAgrees(r)
    decreases |r|
  {
    var s := r + PROBE;
    if r == [] {
      assert s == PROBE && PROBE[1..] == [MARK] && F.InBlock([MARK]) == 1 && F.InBlock(PROBE) == 2;
    } else {
      ScanStep(InComment, r);
      assert s[1..] == r[1..] + PROBE;
      hide Scan;
      ScanDone(InComment);
      BlocksAgree(r[1..]);
      var n := F.InBlock(r[1..]);
      assert r[1..][n..] == r[1 + n..];
      if |r| == 1 { assert r[1..] == []; }
    }
  }

  /** One part of the text, with and without the probe. */
  predicate PartAgrees(r: seq<byte>)
    requires r != []
  {
    var n, m := PartWidth(r), PartWidth(r + PROBE);
    && PartOf(r + PROBE) == PartOf(r)
    && (|| (m == n && Scan(Normal, r) == Scan(Normal, r[n..]))
        || (n == |r| && m == |r| + 2 && Scan(Normal, r) != Normal && PartOf(r) != Hole))
  }

  lemma {:induction false} QuotesAgree(r: seq<byte>)
    requires r != [] && PartOf(r) == Quotes
    ensures PartAgrees(r)
  {
    var q := r[0];
    ScanStep(Normal, r);
    hide Scan, F.InString, InTicks;
    StringsAgree(r[1..], q);
    assert (r + PROBE)[1..] == r[1..] + PROBE;
    assert r[1..][Body(r[1..], q)..] == r[1 + Body(r[1..], q)..];
  }

  lemma {:induction false} BlockPartAgrees(r: seq<byte>)
    requires r != [] && PartOf(r) == BlockComment
    ensures PartAgrees(r)
  {
    ScanStep(Normal, r);
    hide Scan, F.InBlock;
    BlocksAgree(r[2..]);
    assert (r + PROBE)[2..] == r[2..] + PROBE;
    assert r[2..][F.InBlock(r[2..])..] == r[2 + F.InBlock(r[2..])..];
  }

  lemma {:induction false} LinePartAgrees(r: seq<byte>)
    requires r != [] && PartOf(r) == LineComment
    ensures PartAgrees(r)
  {
    ScanStep(Normal, r);
    InLineOver(r, [MARK]);
    assert r + [NEWLINE] + [MARK] == r + PROBE;
    hide Scan, F.InLine;
  }

  lemma {:induction false} ContsAgree(r: seq<byte>)
    ensures Conts(r + PROBE) == Conts(r) && Scan(Normal, r) == Scan(Normal, r[Conts(r)..])
    decreases |r|
  {
    var s := r + PROBE;
    if r == [] {
      assert s[0] == NEWLINE;
    } else if IsCont(r[0]) {
      assert s[1..] == r[1..] + PROBE;
      ContsAgree(r[1..]);
      ScanStep(Normal, r);
      assert r[1..][Conts(r[1..])..] == r[Conts(r)..];
      hide Scan;
    } else {
      assert r[0..] == r;
      hide Scan;
    }
  }

  lemma {:induction false} PlainPartAgrees(r: seq<byte>)
    requires r != [] && (PartOf(r) == Plain || PartOf(r) == Hole)
    ensures PartAgrees(r)
  {
    ScanStep(Normal, r);
    hide Scan, Conts;
    ContsAgree(r[1..]);
    assert (r + PROBE)[1..] == r[1..] + PROBE;
    assert r[1..][Conts(r[1..])..] == r[1 + Conts(r[1..])..];
  }

  lemma {:induction false} PartsAgree(r: seq<byte>)
    requires r != []
    ensures PartAgrees(r)
  {
    hide PartAgrees, PartWidth;
    match PartOf(r) {
      case Quotes => QuotesAgree(r);
      case LineComment => LinePartAgrees(r);
      case BlockComment => BlockPartAgrees(r);
      case Hole => PlainPartAgrees(r);
      case Plain => PlainPartAgrees(r);
    }
  }

  lemma {:induction false} ProbeIsHole()
    ensures Holes(PROBE) == 1 && Holes([]) == 0
  {
    assert PROBE[1..] == [MARK] && [MARK][1..] == [];
    HolesStep(PROBE);
    HolesStep([MARK]);
  }

  /** The slow-log scanner is outside strings and comments at the end of a text if
      and only if `interpolate` takes a `?` on the next line for a placeholder. */
  lemma {:induction false} ScannersAgree(r: seq<byte>)
    ensures Holes(r + PROBE) == Holes(r) + if Scan(Normal, r) == Normal then 1 else 0
    decreases |r|
  {
    if r == [] {
      assert r + PROBE == PROBE;
      ProbeIsHole();
      ScanDone(Normal);
    } else {
      PartsAgree(r);
      HolesStep(r);
      HolesStep(r + PROBE);
      var n, m := PartWidth(r), PartWidth(r + PROBE);
      if m == n && Scan(Normal, r) == Scan(Normal, r[n..]) {
        assert (r + PROBE)[n..] == r[n..] + PROBE;
        ScannersAgree(r[n..]);
      } else {
        assert (r + PROBE)[m..] == [];
        assert r[n..] == [];
        ProbeIsHole();
      }
    }
    hide Scan, Holes, PartWidth, PartOf;
  }
}
