/** The lines of a logged statement are read back whole, and exactly when. */
module SlowLogRoundTrip {
  import opened Bytes
  import opened Utf8
  import opened SlowLog

  // ---------------------------------------------------------------------
  // Trimming nothing
  // ---------------------------------------------------------------------

  /** No white space starts or ends with this byte. */
  predicate Solid(b: byte) {
    b < 0x80 && b != 0x20 && !(0x09 <= b <= 0x0D)
  }

  lemma {:induction false} SolidIsNoSpace(c: seq<byte>)
    requires c != [] && (Solid(c[0]) || Solid(c[|c| - 1]))
    ensures !IsSpaceChar(c)
  {
  }

  lemma {:induction false} SolidTail(s: seq<byte>, n: nat)
    requires s != [] && Solid(s[|s| - 1]) && 1 <= n <= |s|
    ensures !IsSpaceChar(s[|s| - n..])
  {
    hide IsSpaceChar, Solid;
    assert s[|s| - n..][n - 1] == s[|s| - 1];
    SolidIsNoSpace(s[|s| - n..]);
  }

  lemma {:induction false} SolidAtEnd(s: seq<byte>)
    requires s != [] && Solid(s[|s| - 1])
    ensures SpaceAtEnd(s) == 0
  {
    hide IsSpaceChar, Solid;
    SolidTail(s, 1);
    if |s| >= 2 { SolidTail(s, 2); }
    if |s| >= 3 { SolidTail(s, 3); }
  }

  lemma {:induction false} SolidHead(s: seq<byte>, n: nat)
    requires s != [] && Solid(s[0]) && 1 <= n <= |s|
    ensures !IsSpaceChar(s[..n])
  {
    hide IsSpaceChar, Solid;
    assert s[..n][0] == s[0];
    SolidIsNoSpace(s[..n]);
  }

  lemma {:induction false} SolidAtStart(s: seq<byte>)
    requires s != [] && Solid(s[0])
    ensures SpaceAtStart(s) == 0
  {
    hide IsSpaceChar, Solid;
    SolidHead(s, 1);
    if |s| >= 2 { SolidHead(s, 2); }
    if |s| >= 3 { SolidHead(s, 3); }
  }

  lemma {:induction false} SolidEnd(s: seq<byte>)
    requires s != [] && Solid(s[|s| - 1])
    ensures TrimEnd(s) == s
  {
    hide *;
    SolidAtEnd(s);
    TrimEndStep(s);
  }

  lemma {:induction false} TrimStartStep(s: seq<byte>)
    requires SpaceAtStart(s) == 0
    ensures TrimStart(s) == s
  {
    hide SpaceAtStart;
  }

  lemma {:induction false} SolidStart(s: seq<byte>)
    requires s != [] && Solid(s[0])
    ensures TrimStart(s) == s
  {
    hide *;
    SolidAtStart(s);
    TrimStartStep(s);
  }

  lemma {:induction false} SolidTrim(s: seq<byte>)
    requires s != [] && Solid(s[0]) && Solid(s[|s| - 1])
    ensures Trim(s) == s
  {
    hide TrimEnd, TrimStart, Solid;
    SolidEnd(s);
    SolidStart(s);
  }

  // ---------------------------------------------------------------------
  // One statement
  // ---------------------------------------------------------------------

  predicate NoCr(line: seq<byte>) {
    line != [] ==> line[|line| - 1] != 0x0D
  }

  /** This line begins a statement; behind a `SET timestamp` line (`stamped`)
      even if it reads as a `use` line. */
  predicate Begins(f: Fields, stamped: bool, line: seq<byte>) {
    && line != [] && line[0] != HASH && !IsRestartBanner(line) && !IsColumnHeader(line)
    && Trim(line) != [] && (stamped || ParseUse(Trim(line)) == None) && ParseStamp(f, Trim(line)) == None
  }

  /** The line ends a statement when it stands outside strings and comments. */
  predicate LooksLikeHeader(line: seq<byte>) {
    IsEntryHeader(line) || IsRestartBanner(line)
  }

  /** Line `i` looks like a header, and the text before it ends outside strings
      and comments. */
  predicate CutAt(lines: seq<seq<byte>>, i: int) {
    1 <= i < |lines| && LooksLikeHeader(lines[i]) && Scan(Normal, Joined(lines[..i])) == Normal
  }

  ghost predicate Undisturbed(f: Fields, stamped: bool, lines: seq<seq<byte>>) {
    lines != [] && Begins(f, stamped, lines[0]) && forall i :: !CutAt(lines, i)
  }

  lemma {:induction false} Front(f: Fields, stamped: bool, lines: seq<seq<byte>>, k: nat)
    requires 1 <= k <= |lines| && Begins(f, stamped, lines[0]) && forall i | i < k :: !CutAt(lines, i)
    ensures Undisturbed(f, stamped, lines[..k])
  {
    hide Begins, LooksLikeHeader, Scan;
    forall i ensures !CutAt(lines[..k], i) {
      if 1 <= i < k {
        assert lines[..k][..i] == lines[..i];
        assert !CutAt(lines, i);
      }
    }
  }

  predicate AllNoCr(lines: seq<seq<byte>>) {
    forall i | 0 <= i < |lines| :: NoCr(lines[i])
  }

  /** The statement was taken whole, and nothing was cut off it. */
  predicate Whole(f: Fields, p: Parser, lines: seq<seq<byte>>) {
    var q := AfterLines(f, p, lines);
    q.inQuery && q.buf == Joined(lines) && AllEmitted(f, p, lines) == []
  }

  lemma {:induction false} NotStripped(line: seq<byte>)
    requires NoCr(line)
    ensures StripCr(line) == line
  {
  }

  lemma {:induction false} MetaBegins(f: Fields, p: Parser, line: seq<byte>)
    requires !p.inQuery
    ensures if Begins(f, p.stamp.Some?, line) then AfterMeta(f, p, line) == StartQuery(p, line)
            else !AfterMeta(f, p, line).inQuery
  {
    TrimNothing();
    HeaderKeeps(f, p, line);
    hide IsRestartBanner, IsColumnHeader, Trim, ParseUse, ParseStamp, AfterHeader, StartQuery;
  }

  /** Outside statement text, a line goes to `consume_meta_line`. */
  lemma {:induction false} MetaLine(f: Fields, p: Parser, line: seq<byte>)
    requires !p.inQuery && NoCr(line)
    ensures Emitted(p, line) == None && AfterLine(f, p, line) == AfterMeta(f, p, line)
  {
    NotStripped(line);
    hide AfterMeta, StripCr;
  }

  lemma {:induction false} FirstLine(f: Fields, p: Parser, line: seq<byte>)
    requires !p.inQuery && NoCr(line)
    ensures Emitted(p, line) == None
    ensures if Begins(f, p.stamp.Some?, line) then AfterLine(f, p, line) == StartQuery(p, line)
            else !AfterLine(f, p, line).inQuery
  {
    hide *;
    MetaLine(f, p, line);
    MetaBegins(f, p, line);
  }

  lemma {:induction false} NextLine(f: Fields, p: Parser, line: seq<byte>)
    requires p.inQuery && NoCr(line)
    ensures LooksLikeHeader(line) && p.sql == Normal ==> !AfterLine(f, p, line).inQuery
    ensures !(LooksLikeHeader(line) && p.sql == Normal) ==>
              AfterLine(f, p, line) == Append(p, line) && Emitted(p, line) == None
  {
    NotStripped(line);
    if LooksLikeHeader(line) {
      HeaderShape(line);
      hide IsRestartBanner, IsEntryHeader, IsColumnHeader, Trim, ParseUse, ParseStamp, Ascii, StartQuery, Append,
          AfterHeader;
      HeaderKeeps(f, AfterTake(p), line);
    }
    hide IsRestartBanner, IsEntryHeader, Append;
  }

  lemma {:induction false} HeaderShape(line: seq<byte>)
    requires IsEntryHeader(line)  || IsRestartBanner(line)
    ensures IsEntryHeader(line) ==> line != [] && line[0] == HASH
  {
    hide Contains, EndsWith;
  }

  lemma {:induction false} HeaderKeeps(f: Fields, p: Parser, line: seq<byte>)
    ensures AfterHeader(f, p, line).inQuery == p.inQuery
    ensures AfterHeader(f, p, line).db == p.db
  {
    hide Ascii, Trim;
  }

  /** The state with a statement read this far. */
  function Reading(p: Parser, text: seq<byte>): Parser {
    p.(inQuery := true, buf := text, sql := Scan(Normal, text))
  }

  lemma {:induction false} ReadsOn(p: Parser, text: seq<byte>, line: seq<byte>)
    requires text != []
    ensures Append(Reading(p, text), line) == Reading(p, text + [NEWLINE] + line)
  {
    hide Scan;
    ScanNewline(Normal, text, line);
  }

  /** The lines so far, all of them one statement being read. */
  predicate ReadSoFar(f: Fields, p: Parser, lines: seq<seq<byte>>) {
    && AfterLines(f, p, lines) == Reading(p, Joined(lines)) && AllEmitted(f, p, lines) == []
    && Joined(lines) != []
  }

  lemma {:induction false} FirstRead(f: Fields, p: Parser, line: seq<byte>)
    requires !p.inQuery && NoCr(line) && Begins(f, p.stamp.Some?, line) && line != []
    ensures ReadSoFar(f, p, [line])
  {
    LinesSnoc(f, p, [], line);
    JoinedSnoc([], line);
    assert [] + [line] == [line];
    FirstLine(f, p, line);
    StartsReading(p, line);
    NothingRead(f, p);
    hide Scan, AfterLine, Emitted, StartQuery, Begins, Joined;
  }

  lemma {:induction false} NextRead(f: Fields, p: Parser, front: seq<seq<byte>>, line: seq<byte>)
    requires ReadSoFar(f, p, front) && front != [] && NoCr(line)
    requires !(LooksLikeHeader(line) && Scan(Normal, Joined(front)) == Normal)
    ensures ReadSoFar(f, p, front + [line])
  {
    hide Scan, LooksLikeHeader, AfterLine, Emitted, Append, AfterLines, AllEmitted, Joined, NoCr;
    LinesSnoc(f, p, front, line);
    JoinedSnoc(front, line);
    NextLine(f, Reading(p, Joined(front)), line);
    ReadsOn(p, Joined(front), line);
  }

  lemma {:induction false} UndisturbedEnd(f: Fields, stamped: bool, lines: seq<seq<byte>>)
    requires AllNoCr(lines) && Undisturbed(f, stamped, lines)
    ensures var n := |lines| - 1;
            && n >= 0 && lines == lines[..n] + [lines[n]] && NoCr(lines[n])
            && (n == 0 ==> Begins(f, stamped, lines[n]) && lines[n] != [])
            && (n > 0 ==> AllNoCr(lines[..n]) && Undisturbed(f, stamped, lines[..n])
                          && !(LooksLikeHeader(lines[n]) && Scan(Normal, Joined(lines[..n])) == Normal))
  {
    hide Scan, LooksLikeHeader, Joined;
    var n := |lines| - 1;
    if n > 0 {
      assert !CutAt(lines, n);
      Front(f, stamped, lines, n);
    }
  }

  lemma {:induction false} SoFar(f: Fields, p: Parser, lines: seq<seq<byte>>)
    requires !p.inQuery && AllNoCr(lines) && Undisturbed(f, p.stamp.Some?, lines)
    ensures ReadSoFar(f, p, lines)
    decreases |lines|
  {
    hide *;
    UndisturbedEnd(f, p.stamp.Some?, lines);
    var n := |lines| - 1;
    if n == 0 {
      assert lines[..0] + [lines[0]] == [lines[0]];
      FirstRead(f, p, lines[0]);
    } else {
      SoFar(f, p, lines[..n]);
      NextRead(f, p, lines[..n], lines[n]);
    }
  }

  lemma {:induction false} WholeSoFar(f: Fields, p: Parser, lines: seq<seq<byte>>)
    requires !p.inQuery && AllNoCr(lines) && Undisturbed(f, p.stamp.Some?, lines)
    ensures AfterLines(f, p, lines) == Reading(p, Joined(lines)) && AllEmitted(f, p, lines) == []
    ensures Joined(lines) != []
  {
    SoFar(f, p, lines);
    hide AfterLines, AllEmitted, Joined, Reading;
  }

  lemma {:induction false} StartsReading(p: Parser, line: seq<byte>)
    ensures StartQuery(p, line) == Reading(p, line)
  {
    hide Scan;
  }

  // ---------------------------------------------------------------------
  // Exactly the undisturbed statements survive
  // ---------------------------------------------------------------------

  lemma {:induction false} JoinedAppend(a: seq<seq<byte>>, b: seq<seq<byte>>)
    requires a != [] && b != []
    ensures |Joined(a + b)| == |Joined(a)| + 1 + |Joined(b)|
    decreases |b|
  {
    var n := |b| - 1;
    assert (a + b)[..|a + b| - 1] == a + b[..n];
    if n == 0 {
      assert a + b[..0] == a;
    } else {
      JoinedAppend(a, b[..n]);
    }
  }

  /** What is read after a cut is at most the lines read after it. */
  lemma {:induction false} ReadAfter(f: Fields, p: Parser, lines: seq<seq<byte>>)
    requires !p.inQuery
    ensures var q := AfterLines(f, p, lines);
            q.inQuery ==> lines != [] && |q.buf| <= |Joined(lines)|
    decreases |lines|
  {
    hide AfterLine;
    if lines != [] {
      var n := |lines| - 1;
      ReadAfter(f, p, lines[..n]);
      OneMore(f, AfterLines(f, p, lines[..n]), lines[n]);
    }
  }

  lemma {:induction false} OneMore(f: Fields, p: Parser, line: seq<byte>)
    ensures var q := AfterLine(f, p, line);
            q.inQuery ==> |q.buf| <= |StripCr(line)| + if p.inQuery then |p.buf| + 1 else 0
  {
    hide AfterHeader, IsRestartBanner, IsEntryHeader, IsColumnHeader, Trim, ParseUse, ParseStamp, Ascii, Scan;
    HeaderKeeps(f, AfterTake(p), StripCr(line));
  }

  lemma {:induction false} Shorter(line: seq<byte>)
    ensures |StripCr(line)| <= |line| && (!NoCr(line) ==> |StripCr(line)| < |line|)
  {
  }

  lemma {:induction false} JoinedSize(front: seq<seq<byte>>, line: seq<byte>)
    ensures |Joined(front + [line])| == |line| + if front == [] then 0 else |Joined(front)| + 1
  {
    JoinedSnoc(front, line);
    hide Joined;
  }

  /** A carriage return at the end of a line is never read back. */
  lemma {:induction false} CrIsLost(f: Fields, p: Parser, lines: seq<seq<byte>>)
    requires !p.inQuery && !AllNoCr(lines)
    ensures var q := AfterLines(f, p, lines);
            q.inQuery ==> |q.buf| < |Joined(lines)|
    decreases |lines|
  {
    hide AfterLine, AfterLines, Joined, NoCr, StripCr, AllEmitted;
    var n := |lines| - 1;
    var front := lines[..n];
    assert lines == front + [lines[n]];
    LinesSnoc(f, p, front, lines[n]);
    OneMore(f, AfterLines(f, p, front), lines[n]);
    Shorter(lines[n]);
    JoinedSize(front, lines[n]);
    ReadAfter(f, p, front);
    if NoCr(lines[n]) {
      assert !AllNoCr(front);
      CrIsLost(f, p, front);
    }
  }

  /** A statement cut at line `i` never comes out whole. */
  lemma {:induction false} CutIsLost(f: Fields, p: Parser, lines: seq<seq<byte>>, i: nat)
    requires i < |lines| && !AfterLines(f, p, lines[..i + 1]).inQuery
    ensures !Whole(f, p, lines)
  {
    hide AfterLine, Joined;
    var a, b := lines[..i + 1], lines[i + 1..];
    assert lines == a + b;
    LinesAppend(f, p, a, b);
    ReadAfter(f, AfterLines(f, p, a), b);
    if b != [] { JoinedAppend(a, b); }
  }

  lemma {:induction false} BadStart(f: Fields, p: Parser, lines: seq<seq<byte>>)
    requires !p.inQuery && lines != [] && NoCr(lines[0]) && !Begins(f, p.stamp.Some?, lines[0])
    ensures !Whole(f, p, lines)
  {
    hide *;
    FirstLine(f, p, lines[0]);
    assert lines[..1] == [] + [lines[0]];
    LinesSnoc(f, p, [], lines[0]);
    NothingRead(f, p);
    CutIsLost(f, p, lines, 0);
  }

  lemma {:induction false} BadLine(f: Fields, p: Parser, lines: seq<seq<byte>>, i: nat)
    requires !p.inQuery && 1 <= i < |lines| && AllNoCr(lines) && Undisturbed(f, p.stamp.Some?, lines[..i])
    requires CutAt(lines, i)
    ensures !Whole(f, p, lines)
  {
    hide *;
    CutMeans(p, lines, i);
    WholeSoFar(f, p, lines[..i]);
    NextLine(f, AfterLines(f, p, lines[..i]), lines[i]);
    assert lines[..i + 1] == lines[..i] + [lines[i]];
    LinesSnoc(f, p, lines[..i], lines[i]);
    CutIsLost(f, p, lines, i);
  }

  lemma {:induction false} CutMeans(p: Parser, lines: seq<seq<byte>>, i: nat)
    requires 1 <= i < |lines| && AllNoCr(lines) && CutAt(lines, i)
    ensures LooksLikeHeader(lines[i]) && NoCr(lines[i]) && AllNoCr(lines[..i])
    ensures Reading(p, Joined(lines[..i])).inQuery && Reading(p, Joined(lines[..i])).sql == Normal
  {
    hide Scan, LooksLikeHeader, Joined, NoCr;
  }

  lemma {:induction false} CrIsNotWhole(f: Fields, p: Parser, lines: seq<seq<byte>>)
    requires !p.inQuery && !AllNoCr(lines)
    ensures !Whole(f, p, lines)
  {
    CrIsLost(f, p, lines);
    hide AfterLines, AllEmitted, Joined, AllNoCr;
  }

  lemma {:induction false} NothingRead(f: Fields, p: Parser)
    ensures AfterLines(f, p, []) == p && (!p.inQuery ==> !Whole(f, p, []))
  {
  }

  lemma {:induction false} CutsAreInside(lines: seq<seq<byte>>)
    ensures forall k | CutAt(lines, k) :: k >= 1
  {
    hide Scan, LooksLikeHeader, Joined;
  }

  lemma {:induction false} FirstCut(lines: seq<seq<byte>>) returns (i: nat)
    requires exists k :: CutAt(lines, k)
    ensures CutAt(lines, i) && forall k | k < i :: !CutAt(lines, k)
  {
    hide CutAt;
    var k :| CutAt(lines, k);
    CutsAreInside(lines);
    i := 0;
    while !CutAt(lines, i)
      invariant i <= k && forall j | j < i :: !CutAt(lines, j)
      decreases k - i
    {
      i := i + 1;
    }
  }

  /** A logged statement is read back whole if and only if none of its lines ends
      in a carriage return, it does not start like metadata, and no line of it
      that looks like a header stands outside its strings and comments. */
  lemma {:induction false} SurvivesIff(f: Fields, p: Parser, lines: seq<seq<byte>>)
    requires !p.inQuery
    ensures Whole(f, p, lines) <==> AllNoCr(lines) && Undisturbed(f, p.stamp.Some?, lines)
  {
    if !AllNoCr(lines) {
      CrIsNotWhole(f, p, lines);
    } else if Undisturbed(f, p.stamp.Some?, lines) {
      WholeSoFar(f, p, lines);
    } else if lines == [] {
      NothingRead(f, p);
    } else if !Begins(f, p.stamp.Some?, lines[0]) {
      BadStart(f, p, lines);
    } else {
      var i := FirstCut(lines);
      Front(f, p.stamp.Some?, lines, i);
      BadLine(f, p, lines, i);
    }
    hide Scan, Begins, CutAt, AfterLines, AllEmitted, AllNoCr;
  }

  lemma {:induction false} ContainsNoLonger(r: seq<byte>, s: seq<byte>)
    requires |r| < |s|
    ensures !Contains(r, s)
    decreases |r|
  {
    if r != [] { ContainsNoLonger(r[1..], s); }
  }

  lemma {:induction false} NoColumns(line: seq<byte>)
    requires line != [] && Solid(line[0]) && line[0] != 0x54
    ensures !IsColumnHeader(line)
  {
    SolidStart(line);
    assert Ascii("Tcp port:")[0] == 0x54 && Ascii("TCP Port:")[0] == 0x54 && Ascii("Time")[0] == 0x54;
    hide Contains, TrimStart, Ascii, Solid;
  }

  lemma {:induction false} ShortNoBanner(line: seq<byte>)
    requires |line| <= 4
    ensures !IsRestartBanner(line)
  {
    assert |Ascii(", Version: ")| == 11;
    ContainsNoLonger(line, Ascii(", Version: "));
    hide Contains, Ascii, TrimEnd;
  }

  lemma {:induction false} ShortNoMeta(f: Fields, t: seq<byte>)
    requires |t| <= 4
    ensures ParseUse(t) == None && ParseStamp(f, t) == None
  {
    hide StartsFolded, Trim, TrimSemicolons, Ascii, Undouble, HasSpace;
  }

  lemma {:induction false} NoHash(line: seq<byte>)
    requires line != [] && line[0] != HASH
    ensures !IsEntryHeader(line)
  {
    assert Ascii("# Time: ")[0] == HASH && Ascii("# User@Host: ")[0] == HASH && Ascii("# Query_time: ")[0] == HASH
        && Ascii("# Thread_id: ")[0] == HASH && Ascii("# administrator command:")[0] == HASH;
    hide Ascii;
  }

  lemma {:induction false} MakeBegins(f: Fields, stamped: bool, line: seq<byte>)
    requires line != [] && line[0] != HASH && !IsRestartBanner(line) && !IsColumnHeader(line) && Trim(line) != []
    requires ParseUse(Trim(line)) == None && ParseStamp(f, Trim(line)) == None
    ensures Begins(f, stamped, line)
  {
    hide IsRestartBanner, IsColumnHeader, Trim, ParseUse, ParseStamp;
  }

  /** A line of at most four bytes that starts with a quote or a letter `b`. */
  lemma {:induction false} ShortLine(f: Fields, stamped: bool, line: seq<byte>)
    requires 1 <= |line| <= 4 && (line[0] == QUOTE || line[0] == 0x62) && Trim(line) != [] && |Trim(line)| <= 4
    ensures Begins(f, stamped, line) && !LooksLikeHeader(line)
  {
    assert Solid(line[0]) && line[0] != HASH;
    ShortNoBanner(line);
    NoHash(line);
    assert LooksLikeHeader(line) <==> IsEntryHeader(line) || IsRestartBanner(line);
    hide *;
    NoColumns(line);
    ShortNoMeta(f, Trim(line));
    MakeBegins(f, stamped, line);
  }

  lemma {:induction false} QuoteTrims()
    ensures var c, b: seq<byte> := [QUOTE, 0x61], [0x62, QUOTE];
            Trim(c) == c && Trim(b) == b && Trim(c + [0x0D]) == c
  {
    var c, b: seq<byte> := [QUOTE, 0x61], [0x62, QUOTE];
    SolidTrim(c);
    SolidTrim(b);
    SpaceLast(c, 0x0D);
    hide TrimEnd, TrimStart;
  }

  /** The two lines `'a` with a carriage return behind it, and `b'`: no header
      in sight, and the string literal is read back without the carriage return. */
  lemma {:induction false} CrInAString(f: Fields, p: Parser)
    requires !p.inQuery
    ensures var lines: seq<seq<byte>> := [[QUOTE, 0x61, 0x0D], [0x62, QUOTE]];
            var q := AfterLines(f, p, lines);
            && Undisturbed(f, p.stamp.Some?, lines) && !Whole(f, p, lines)
            && q.inQuery && q.buf == [QUOTE, 0x61, NEWLINE, 0x62, QUOTE]
  {
    var a, b, c: seq<byte> := [QUOTE, 0x61, 0x0D], [0x62, QUOTE], [QUOTE, 0x61];
    assert a == c + [0x0D] && NoCr(b);
    assert c + [NEWLINE] + b == [QUOTE, 0x61, NEWLINE, 0x62, QUOTE];
    hide *;
    QuoteTrims();
    ShortLine(f, p.stamp.Some?, a);
    ShortLine(f, p.stamp.Some?, b);
    ShortLine(f, p.stamp.Some?, c);
    CrLines(f, p, a, b, c);
    CrIsNotWhole(f, p, [a, b]);
  }

  lemma {:induction false} CrLines(f: Fields, p: Parser, a: seq<byte>, b: seq<byte>, c: seq<byte>)
    requires !p.inQuery && a == c + [0x0D] && Begins(f, p.stamp.Some?, a) && Begins(f, p.stamp.Some?, c)
    requires !LooksLikeHeader(b) && c != [] && NoCr(b)
    ensures Undisturbed(f, p.stamp.Some?, [a, b]) && !AllNoCr([a, b])
    ensures var q := AfterLines(f, p, [a, b]); q.inQuery && q.buf == c + [NEWLINE] + b
  {
    hide Begins, LooksLikeHeader, Scan, AfterMeta, IsEntryHeader, IsRestartBanner;
    assert [a, b] == [a] + [b] && [] + [a] == [a];
    LinesSnoc(f, p, [], a);
    LinesSnoc(f, p, [a], b);
    NothingRead(f, p);
    MetaBegins(f, p, c);
    assert StripCr(a) == c && AfterTake(p) == p;
    NextLine(f, AfterLines(f, p, [a]), b);
    assert !NoCr([a, b][0]);
  }
}
