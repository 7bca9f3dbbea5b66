/** Rendering slow-log entries and parsing the lines gives the entries back. */
module SlowLogEntries {
  import opened Bytes
  import opened Utf8
  import opened SlowLog
  import opened SlowLogRoundTrip

  // ---------------------------------------------------------------------
  // Metadata lines
  // ---------------------------------------------------------------------

  /** `replace("`", "``")`. */
  function Double(s: seq<byte>): seq<byte> {
    if s == [] then []
    else (if s[0] == TICK then [TICK, TICK] else [s[0]]) + Double(s[1..])
  }

  lemma {:induction false} UndoubleInverts(s: seq<byte>)
    ensures Undouble(Double(s)) == s
    decreases |s|
  {
    if s != [] {
      UndoubleInverts(s[1..]);
      var d := Double(s);
      if s[0] == TICK {
        assert d[2..] == Double(s[1..]);
      } else {
        assert d[1..] == Double(s[1..]);
      }
      assert s == [s[0]] + s[1..];
    }
  }

  function UseLine(db: seq<byte>): seq<byte> {
    Ascii("use `") + Double(db) + [TICK, SEMICOLON]
  }

  function StampLine(v: seq<byte>): seq<byte> {
    Ascii("SET timestamp=") + v + [SEMICOLON]
  }

  function UserLine(rest: seq<byte>): seq<byte> {
    Ascii("# User@Host: ") + rest
  }

  function TimeLine(rest: seq<byte>): seq<byte> {
    Ascii("# Query_time: ") + rest
  }

  /** A line that ends in a semicolon is no banner. */
  lemma {:induction false} NoBanner(line: seq<byte>)
    requires line != [] && line[|line| - 1] == SEMICOLON
    ensures !IsRestartBanner(line) && NoCr(line)
  {
    SolidEnd(line);
    var s := Ascii("started with:");
    assert s[|s| - 1] == 0x3A;
    assert |s| <= |line| ==> line[|line| - |s|..][|s| - 1] == SEMICOLON;
    hide Contains, TrimEnd, Ascii;
  }

  lemma {:induction false} UseShape(db: seq<byte>)
    ensures var line := UseLine(db);
            && line[..4] == [0x75, 0x73, 0x65, 0x20] && |line| >= 5 && line[|line| - 1] == SEMICOLON && line[0] == 0x75
            && line[4..] == [TICK] + Double(db) + [TICK] + [SEMICOLON]
            && StartsFolded(line, Ascii("use "))
  {
    assert Ascii("use `") == [0x75, 0x73, 0x65, 0x20, TICK];
    assert Ascii("use ") == [0x75, 0x73, 0x65, 0x20];
    hide Double, Ascii;
  }

  lemma {:induction false} Unquoted(d: seq<byte>)
    ensures var q := [TICK] + d + [TICK];
            q != [] && q[0] == TICK && q[|q| - 1] == TICK && |q| >= 2 && q[1..|q| - 1] == d
  {
  }

  /** What stands between the backticks is the name. */
  lemma {:induction false} QuotedName(t: seq<byte>, d: seq<byte>)
    requires |t| >= 5 && StartsFolded(t, Ascii("use ")) && Undouble(d) != []
    requires Trim(TrimSemicolons(Trim(t[4..]))) == [TICK] + d + [TICK]
    ensures ParseUse(t) == Some(Undouble(d))
  {
    hide Trim, TrimSemicolons, StartsFolded, Undouble, Ascii, HasSpace;
    var db := Trim(TrimSemicolons(Trim(t[4..])));
    Unquoted(d);
    assert db != [] && db[0] == TICK && db[|db| - 1] == TICK && |db| >= 2;
    assert db[1..|db| - 1] == d;
  }

  lemma {:induction false} UseParses(db: seq<byte>)
    requires db != []
    ensures var line := UseLine(db);
            && line != [] && line[0] == 0x75 && line[|line| - 1] == SEMICOLON
            && Trim(line) == line && ParseUse(line) == Some(db)
  {
    var line := UseLine(db);
    var quoted := [TICK] + Double(db) + [TICK];
    UseShape(db);
    assert (quoted + [SEMICOLON])[..|quoted|] == quoted;
    assert TrimSemicolons(quoted + [SEMICOLON]) == quoted;
    hide Trim, Double, Undouble, Ascii, UseLine, TrimSemicolons, StartsFolded, ParseUse;
    SolidTrim(line);
    SolidTrim(quoted + [SEMICOLON]);
    SolidTrim(quoted);
    UndoubleInverts(db);
    QuotedName(line, Double(db));
  }

  predicate AllDigits(v: seq<byte>) {
    v != [] && forall i | 0 <= i < |v| :: IsDigit(v[i])
  }

  lemma {:induction false} StampShape(v: seq<byte>)
    requires AllDigits(v)
    ensures var line := StampLine(v);
            && line != [] && line[0] == 0x53 && line[|line| - 1] == SEMICOLON && Solid(line[0]) && Solid(SEMICOLON)
            && Solid(v[0]) && Solid(v[|v| - 1]) && v[|v| - 1] != SEMICOLON
  {
    assert Ascii("SET timestamp=")[0] == 0x53;
    assert IsDigit(v[0]) && IsDigit(v[|v| - 1]);
    hide Ascii;
  }

  lemma {:induction false} StampParses(f: Fields, v: seq<byte>)
    requires AllDigits(v)
    ensures var line := StampLine(v);
            && line != [] && line[0] == 0x53 && line[|line| - 1] == SEMICOLON
            && Trim(line) == line && ParseUse(line) == None && ParseStamp(f, line) == f.seconds(v)
  {
    StampShape(v);
    assert v != [];
    hide *;
    var line := StampLine(v);
    SolidTrim(line);
    SolidTrim(v);
    SetPrefix(v);
    NotUse(line);
    StampIs(f, line, v);
  }

  lemma {:induction false} NotFolded(t: seq<byte>)
    requires t != [] && t[0] == 0x53
    ensures !StartsFolded(t, Ascii("use "))
  {
    assert Ascii("use ")[0] == 0x75 && ToLower(0x53) == 0x73;
  }

  lemma {:induction false} NotUse(t: seq<byte>)
    requires t != [] && t[0] == 0x53
    ensures ParseUse(t) == None
  {
    NotFolded(t);
    hide StartsFolded, Trim, TrimSemicolons, Ascii, Undouble, HasSpace;
  }

  lemma {:induction false} StampIs(f: Fields, t: seq<byte>, v: seq<byte>)
    requires |t| > 14 && StartsFolded(t, Ascii("set timestamp=")) && t[14..] == v + [SEMICOLON]
    requires v != [] && v[|v| - 1] != SEMICOLON && Trim(v) == v
    ensures ParseStamp(f, t) == f.seconds(v)
  {
    assert (v + [SEMICOLON])[..|v|] == v;
    assert TrimSemicolons(v + [SEMICOLON]) == v;
    hide Trim, TrimSemicolons, Ascii, StartsFolded;
  }

  lemma {:induction false} SetPrefix(v: seq<byte>)
    requires v != []
    ensures |StampLine(v)| > 14 && StampLine(v)[14..] == v + [SEMICOLON]
    ensures StartsFolded(StampLine(v), Ascii("set timestamp="))
  {
    var line, pre := StampLine(v), Ascii("SET timestamp=");
    assert forall i | 0 <= i < 14 :: line[i] == pre[i];
  }

  // ---------------------------------------------------------------------
  // Entries
  // ---------------------------------------------------------------------

  /** A logged statement: the texts of the headers the log prints for it, its
      database and its timestamp digits as far as they are printed, and the lines
      of its text. */
  datatype Entry = Entry(
    time: Option<seq<byte>>, userHost: Option<seq<byte>>, queryTime: Option<seq<byte>>,
    db: Option<seq<byte>>, stamp: Option<seq<byte>>, lines: seq<seq<byte>>)

  function DateLine(rest: seq<byte>): seq<byte> {
    Ascii("# Time: ") + rest
  }

  /** The statement text with the semicolon the server adds. */
  function Terminated(lines: seq<seq<byte>>): seq<seq<byte>>
    requires lines != []
  {
    lines[..|lines| - 1] + [lines[|lines| - 1] + [SEMICOLON]]
  }

  /** What the log has said last, in whatever entry. */
  datatype Known = Known(time: Option<int>, user: Option<seq<byte>>, thread: Option<nat>, db: Option<seq<byte>>)

  /** The key-value header of the entry, if it has one. */
  function PairsOf(f: Fields, e: Entry): Pairs {
    if e.queryTime.Some? then f.pairs(TimeLine(e.queryTime.value)) else Pairs(None, None, None)
  }

  /** What an entry leaves unsaid stays as the entries before it said it. */
  function Learn(f: Fields, k: Known, e: Entry): Known {
    Known(
      if e.time.Some? then Newer(k.time, f.time(Trim(e.time.value))) else k.time,
      if e.userHost.Some? then Newer(k.user, f.user(e.userHost.value)) else k.user,
      Newer(if e.userHost.Some? then Newer(k.thread, f.id(e.userHost.value)) else k.thread, PairsOf(f, e).thread),
      Newer(k.db, e.db))
  }

  function KnownAfter(f: Fields, entries: seq<Entry>): Known {
    if entries == [] then Known(None, None, None, None)
    else Learn(f, KnownAfter(f, entries[..|entries| - 1]), entries[|entries| - 1])
  }

  /** What the parser must report for an entry behind which `k` is known: its own
      timestamp, or the date last printed; its own query time and schema, or none. */
  function Expect(f: Fields, k: Known, e: Entry): Parsed {
    var stamp := if e.stamp.Some? then f.seconds(e.stamp.value) else None;
    Parsed(OrElse(Newer(k.time, stamp), 0), OrElse(k.thread, 0), k.user, Newer(k.db, PairsOf(f, e).schema),
           Joined(e.lines), OrElse(PairsOf(f, e).queryTime, 0))
  }

  function Opt(o: Option<seq<byte>>, line: seq<byte> -> seq<byte>): seq<seq<byte>> {
    if o.Some? then [line(o.value)] else []
  }

  function Headers(e: Entry): seq<seq<byte>> {
    Opt(e.time, DateLine) + Opt(e.userHost, UserLine) + Opt(e.queryTime, TimeLine)
  }

  /** The entry has a header, its lines are whole, and its statement survives
      the log. */
  ghost predicate Loggable(f: Fields, e: Entry) {
    && Headers(e) != [] && AllNoCr(Headers(e))
    && (e.stamp.Some? ==> AllDigits(e.stamp.value) && f.seconds(e.stamp.value).Some?)
    && (e.db.Some? ==> e.db.value != [])
    && e.lines != [] && AllNoCr(Terminated(e.lines)) && Undisturbed(f, e.stamp.Some?, Terminated(e.lines))
    && Joined(e.lines) != [] && TrimEnd(Joined(e.lines)) == Joined(e.lines)
  }

  /** The statement's text ends outside strings and comments. */
  predicate Complete(e: Entry)
    requires e.lines != []
  {
    Scan(Normal, Joined(Terminated(e.lines))) == Normal
  }

  function DbLines(e: Entry, db: Option<seq<byte>>): seq<seq<byte>> {
    if e.db.Some? && e.db != db then [UseLine(e.db.value)] else []
  }

  /** The lines of an entry, when the log last named the database `db`. */
  function EntryLines(e: Entry, db: Option<seq<byte>>): seq<seq<byte>>
    requires e.lines != []
  {
    Headers(e) + DbLines(e, db) + Opt(e.stamp, StampLine) + Terminated(e.lines)
  }

  lemma {:induction false} OneLine(f: Fields, p: Parser, line: seq<byte>)
    ensures AfterLines(f, p, [line]) == AfterLine(f, p, line) && AllEmitted(f, p, [line]) == ToSeq(Emitted(p, line))
  {
    hide AfterLine, Emitted;
    LinesSnoc(f, p, [], line);
    assert [] + [line] == [line];
    NothingRead(f, p);
    assert AllEmitted(f, p, []) == [];
  }

  // ---------------------------------------------------------------------
  // Headers
  // ---------------------------------------------------------------------

  predicate IsHeader(line: seq<byte>) {
    line != [] && line[0] == HASH && IsEntryHeader(line)
  }

  lemma {:induction false} UserHeader(f: Fields, p: Parser, rest: seq<byte>)
    ensures IsHeader(UserLine(rest))
    ensures AfterHeader(f, p, UserLine(rest))
         == p.(user := Newer(p.user, f.user(rest)), thread := Newer(p.thread, f.id(rest)))
  {
    var line := UserLine(rest);
    var pre := Ascii("# User@Host: ");
    assert line[2] == pre[2] == 0x55 && Ascii("# Time: ")[2] == 0x54;
    assert line[0] == pre[0] == HASH && line[13..] == rest;
  }

  lemma {:induction false} DateHeader(f: Fields, p: Parser, rest: seq<byte>)
    ensures IsHeader(DateLine(rest))
    ensures AfterHeader(f, p, DateLine(rest)) == p.(time := Newer(p.time, f.time(Trim(rest))))
  {
    var line := DateLine(rest);
    var pre := Ascii("# Time: ");
    assert line[0] == pre[0] == HASH && line[8..] == rest;
    hide Trim;
  }

  lemma {:induction false} TimeHeader(f: Fields, p: Parser, rest: seq<byte>)
    ensures IsHeader(TimeLine(rest))
    ensures var kv := f.pairs(TimeLine(rest));
            AfterHeader(f, p, TimeLine(rest))
            == p.(queryTime := if kv.queryTime.Some? then kv.queryTime.value else p.queryTime,
                  thread := Newer(p.thread, kv.thread), schema := Newer(p.schema, kv.schema))
  {
    var line := TimeLine(rest);
    var pre := Ascii("# Query_time: ");
    assert line[2] == pre[2] == 0x51 && line[0] == pre[0] == HASH;
    assert Ascii("# Time: ")[2] == 0x54 && Ascii("# User@Host: ")[2] == 0x55
        && Ascii("# administrator command:")[2] == 0x61;
  }

  /** A header completes the statement being read. */
  lemma {:induction false} HeaderStage(f: Fields, p: Parser, line: seq<byte>)
    requires IsHeader(line) && NoCr(line) && (p.inQuery ==> p.sql == Normal)
    ensures Emitted(p, line) == Taken(p) && AfterLine(f, p, line) == AfterHeader(f, AfterTake(p), line)
  {
    NotStripped(line);
    hide IsEntryHeader, IsRestartBanner, IsColumnHeader, Trim, ParseUse, ParseStamp, Ascii, StripCr, StartQuery,
      Statement, AfterHeader;
  }

  /** Headers outside a statement. */
  function AfterHeaders(f: Fields, p: Parser, hs: seq<seq<byte>>): Parser {
    if hs == [] then p else AfterHeader(f, AfterHeaders(f, p, hs[..|hs| - 1]), hs[|hs| - 1])
  }

  predicate AllHeaders(hs: seq<seq<byte>>) {
    forall i | 0 <= i < |hs| :: IsHeader(hs[i])
  }

  lemma {:induction false} TakeTwice(p: Parser)
    ensures !AfterTake(p).inQuery && (!p.inQuery ==> AfterTake(p) == p && Taken(p) == None)
  {
    hide Statement;
  }

  lemma {:induction false} HeadersOutside(f: Fields, p: Parser, hs: seq<seq<byte>>)
    requires !p.inQuery
    ensures !AfterHeaders(f, p, hs).inQuery
    decreases |hs|
  {
    hide AfterHeader;
    if hs != [] {
      HeadersOutside(f, p, hs[..|hs| - 1]);
      HeaderKeeps(f, AfterHeaders(f, p, hs[..|hs| - 1]), hs[|hs| - 1]);
    }
  }

  /** The first header completes the statement before it, and all are heeded. */
  lemma {:induction false} HeadersRun(f: Fields, p: Parser, hs: seq<seq<byte>>)
    requires hs != [] && AllHeaders(hs) && AllNoCr(hs) && (p.inQuery ==> p.sql == Normal)
    ensures AfterLines(f, p, hs) == AfterHeaders(f, AfterTake(p), hs) && AllEmitted(f, p, hs) == ToSeq(Taken(p))
    decreases |hs|
  {
    hide AfterHeader, AfterLine, Emitted, IsHeader, NoCr, AfterTake, Taken;
    var n := |hs| - 1;
    var front, last := hs[..n], hs[n];
    assert hs == front + [last];
    TakeTwice(p);
    LinesSnoc(f, p, front, last);
    if n == 0 {
      NothingRead(f, p);
      HeaderStage(f, p, last);
    } else {
      HeadersRun(f, p, front);
      HeadersOutside(f, AfterTake(p), front);
      var q := AfterHeaders(f, AfterTake(p), front);
      TakeTwice(q);
      HeaderStage(f, q, last);
      assert ToSeq(Taken(p)) + ToSeq(Taken(q)) == ToSeq(Taken(p)) by { NoneIsEmpty(); }
    }
  }

  lemma {:induction false} NoneIsEmpty()
    ensures ToSeq<Parsed>(None) == []
  {
  }

  lemma {:induction false} HeadersSnoc(f: Fields, p: Parser, hs: seq<seq<byte>>, line: seq<byte>)
    ensures AfterHeaders(f, p, hs + [line]) == AfterHeader(f, AfterHeaders(f, p, hs), line)
    ensures AfterHeaders(f, p, []) == p && hs + [] == hs
    ensures AllHeaders(hs) && IsHeader(line) ==> AllHeaders(hs + [line])
  {
    assert (hs + [line])[..|hs|] == hs;
    hide AfterHeader, IsHeader;
  }

  /** What the headers of an entry say. */
  lemma {:induction false} HeadersSay(f: Fields, p: Parser, e: Entry)
    requires p.schema == None && p.queryTime == 0
    ensures AllHeaders(Headers(e))
    ensures var k := Learn(f, Known(p.time, p.user, p.thread, p.db), e);
            AfterHeaders(f, p, Headers(e))
            == p.(time := k.time, user := k.user, thread := k.thread, schema := PairsOf(f, e).schema,
                  queryTime := OrElse(PairsOf(f, e).queryTime, 0))
  {
    hide AfterHeader, IsHeader, DateLine, UserLine, TimeLine, Trim;
    var a, b, c := Opt(e.time, DateLine), Opt(e.userHost, UserLine), Opt(e.queryTime, TimeLine);
    var q := AfterHeaders(f, p, a);
    assert AllHeaders([]);
    if e.time.Some? {
      HeadersSnoc(f, p, [], DateLine(e.time.value));
      DateHeader(f, p, e.time.value);
      assert [] + a == a;
    }
    var r := AfterHeaders(f, p, a + b);
    if e.userHost.Some? {
      HeadersSnoc(f, p, a, UserLine(e.userHost.value));
      UserHeader(f, q, e.userHost.value);
    } else {
      assert a + b == a;
    }
    if e.queryTime.Some? {
      HeadersSnoc(f, p, a + b, TimeLine(e.queryTime.value));
      TimeHeader(f, r, e.queryTime.value);
    } else {
      assert a + b + c == a + b;
    }
  }

  // ---------------------------------------------------------------------
  // Database and timestamp
  // ---------------------------------------------------------------------

  lemma {:induction false} UseStage(f: Fields, p: Parser, db: seq<byte>)
    requires !p.inQuery && p.stamp == None && db != []
    ensures Emitted(p, UseLine(db)) == None && AfterLine(f, p, UseLine(db)) == p.(db := Some(db))
  {
    var line := UseLine(db);
    UseParses(db);
    NoBanner(line);
    NoColumns(line);
    MetaLine(f, p, line);
    hide UseLine, IsRestartBanner, IsColumnHeader, Trim, ParseUse, ParseStamp, StartQuery, AfterLine, Emitted,
        AfterHeader;
  }

  lemma {:induction false} DbStage(f: Fields, p: Parser, e: Entry)
    requires !p.inQuery && p.stamp == None && (e.db.Some? ==> e.db.value != [])
    ensures AfterLines(f, p, DbLines(e, p.db)) == p.(db := Newer(p.db, e.db))
    ensures AllEmitted(f, p, DbLines(e, p.db)) == []
  {
    hide UseLine, AfterLine, Emitted;
    if e.db.Some? && e.db != p.db {
      OneLine(f, p, UseLine(e.db.value));
      UseStage(f, p, e.db.value);
    } else {
      NothingRead(f, p);
    }
  }

  lemma {:induction false} StampStage(f: Fields, p: Parser, v: seq<byte>)
    requires !p.inQuery && AllDigits(v) && f.seconds(v).Some?
    ensures Emitted(p, StampLine(v)) == None && AfterLine(f, p, StampLine(v)) == p.(stamp := f.seconds(v))
  {
    var line := StampLine(v);
    StampParses(f, v);
    NoBanner(line);
    NoColumns(line);
    MetaLine(f, p, line);
    hide StampLine, IsRestartBanner, IsColumnHeader, Trim, ParseUse, ParseStamp, StartQuery, AfterLine, Emitted,
        AfterHeader;
  }

  lemma {:induction false} StampsStage(f: Fields, p: Parser, stamp: Option<seq<byte>>)
    requires !p.inQuery && p.stamp == None
    requires stamp.Some? ==> AllDigits(stamp.value) && f.seconds(stamp.value).Some?
    ensures AllEmitted(f, p, Opt(stamp, StampLine)) == []
    ensures AfterLines(f, p, Opt(stamp, StampLine))
         == p.(stamp := if stamp.Some? then f.seconds(stamp.value) else None)
  {
    hide StampLine, AfterLine, Emitted, AllDigits;
    if stamp.Some? {
      OneLine(f, p, StampLine(stamp.value));
      StampStage(f, p, stamp.value);
    } else {
      NothingRead(f, p);
    }
  }

  // ---------------------------------------------------------------------
  // One entry
  // ---------------------------------------------------------------------

  lemma {:induction false} TerminatedJoins(lines: seq<seq<byte>>)
    requires lines != []
    ensures Joined(Terminated(lines)) == Joined(lines) + [SEMICOLON]
  {
    hide Joined;
    var n := |lines| - 1;
    var front, last := lines[..n], lines[n];
    assert lines == front + [last];
    JoinedSnoc(front, last + [SEMICOLON]);
    JoinedSnoc(front, last);
    assert Joined(front) + [NEWLINE] + (last + [SEMICOLON]) == (Joined(front) + [NEWLINE] + last) + [SEMICOLON];
  }

  lemma {:induction false} TextOf(t: seq<byte>)
    requires t != [] && TrimEnd(t) == t
    ensures Statement(t + [SEMICOLON]) == t
  {
    hide TrimEnd;
    SolidEnd(t + [SEMICOLON]);
    assert (t + [SEMICOLON])[..|t|] == t;
  }

  lemma {:induction false} TerminatedText(lines: seq<seq<byte>>)
    requires lines != [] && Joined(lines) != [] && TrimEnd(Joined(lines)) == Joined(lines)
    ensures Joined(Terminated(lines)) == Joined(lines) + [SEMICOLON]
    ensures Statement(Joined(lines) + [SEMICOLON]) == Joined(lines)
  {
    hide *;
    TerminatedJoins(lines);
    TextOf(Joined(lines));
  }

  function KnownBy(p: Parser): Known {
    Known(p.time, p.user, p.thread, p.db)
  }

  /** The state behind an entry: its statement is pending, and would be reported
      as expected. */
  predicate Pending(f: Fields, p: Parser, k: Known, e: Entry)
    requires e.lines != []
  {
    && p.inQuery && p.sql == Scan(Normal, Joined(Terminated(e.lines)))
    && Taken(p) == Some(Expect(f, k, e)) && KnownBy(p) == k
  }

  /** Nothing is left over from the entry before but what the log has said. */
  predicate Settled(p: Parser, k: Known) {
    && (p.inQuery ==> p.sql == Normal)
    && (!p.inQuery ==> p.stamp == None && p.schema == None && p.queryTime == 0)
    && KnownBy(p) == k
  }

  /** The metadata an entry leaves behind its last line of metadata. */
  function Prepared(f: Fields, p: Parser, e: Entry): Parser {
    var k := Learn(f, KnownBy(p), e);
    AfterTake(p).(time := k.time, user := k.user, thread := k.thread, schema := PairsOf(f, e).schema,
                  queryTime := OrElse(PairsOf(f, e).queryTime, 0), db := k.db,
                  stamp := if e.stamp.Some? then f.seconds(e.stamp.value) else None)
  }

  lemma {:induction false} TakeSettles(p: Parser)
    requires Settled(p, KnownBy(p))
    ensures var q := AfterTake(p);
            !q.inQuery && q.stamp == None && q.schema == None && q.queryTime == 0 && KnownBy(q) == KnownBy(p)
  {
  }

  lemma {:induction false} LoggableMeans(f: Fields, e: Entry)
    requires Loggable(f, e)
    ensures Headers(e) != [] && AllNoCr(Headers(e)) && (e.db.Some? ==> e.db.value != [])
    ensures e.stamp.Some? ==> AllDigits(e.stamp.value) && f.seconds(e.stamp.value).Some?
    ensures e.lines != [] && AllNoCr(Terminated(e.lines)) && Undisturbed(f, e.stamp.Some?, Terminated(e.lines))
    ensures Joined(e.lines) != [] && TrimEnd(Joined(e.lines)) == Joined(e.lines)
  {
  }

  lemma {:induction false} MetaRun(f: Fields, p: Parser, e: Entry)
    requires Loggable(f, e) && Settled(p, KnownBy(p))
    ensures var head := Headers(e) + DbLines(e, p.db) + Opt(e.stamp, StampLine);
            AfterLines(f, p, head) == Prepared(f, p, e) && AllEmitted(f, p, head) == ToSeq(Taken(p))
  {
    LoggableMeans(f, e);
    TakeSettles(p);
    var q := AfterTake(p);
    hide AfterLines, AllEmitted, AllDigits, Headers, AfterHeaders, DbLines, Opt, Loggable, AfterTake, Taken, Joined,
      Terminated, AllNoCr, Undisturbed, TrimEnd, Learn, PairsOf;
    HeadersSay(f, q, e);
    HeadersRun(f, p, Headers(e));
    var r := AfterHeaders(f, q, Headers(e));
    LearnKeepsDb(f, KnownBy(p), e);
    DbStage(f, r, e);
    LinesAppend(f, p, Headers(e), DbLines(e, p.db));
    var s := r.(db := Newer(r.db, e.db));
    StampsStage(f, s, e.stamp);
    LinesAppend(f, p, Headers(e) + DbLines(e, p.db), Opt(e.stamp, StampLine));
    assert ToSeq(Taken(p)) + [] + [] == ToSeq(Taken(p));
  }

  lemma {:induction false} LearnKeepsDb(f: Fields, k: Known, e: Entry)
    ensures Learn(f, k, e).db == Newer(k.db, e.db)
  {
  }

  lemma {:induction false} PendingIs(f: Fields, p: Parser, e: Entry)
    requires Loggable(f, e)
    ensures e.lines != []
    ensures Pending(f, Reading(Prepared(f, p, e), Joined(Terminated(e.lines))), Learn(f, KnownBy(p), e), e)
  {
    LoggableMeans(f, e);
    TerminatedText(e.lines);
    hide Loggable, Undisturbed, AllNoCr, Terminated, Joined, TrimEnd, AllDigits, Scan, Statement, Learn, PairsOf,
      AfterTake;
  }

  /** The statement's lines do not depend on what was prepared. */
  lemma {:induction false} StatementRun(f: Fields, p: Parser, e: Entry)
    requires Loggable(f, e)
    ensures e.lines != []
    ensures var q, lines := Prepared(f, p, e), Terminated(e.lines);
            AfterLines(f, q, lines) == Reading(q, Joined(lines)) && AllEmitted(f, q, lines) == []
  {
    LoggableMeans(f, e);
    TakeTwice(p);
    hide Loggable, Undisturbed, AllNoCr, Terminated, Joined, TrimEnd, AllDigits, Scan, AfterLines, AllEmitted,
      AfterTake, Learn, PairsOf, Reading;
    WholeSoFar(f, Prepared(f, p, e), Terminated(e.lines));
  }

  /** Pushing the lines of an entry completes the one before it and leaves this
      one pending. */
  lemma {:induction false} EntryRun(f: Fields, p: Parser, e: Entry)
    requires Loggable(f, e) && Settled(p, KnownBy(p))
    ensures e.lines != []
    ensures AllEmitted(f, p, EntryLines(e, p.db)) == ToSeq(Taken(p))
    ensures Pending(f, AfterLines(f, p, EntryLines(e, p.db)), Learn(f, KnownBy(p), e), e)
  {
    LoggableMeans(f, e);
    LinesAre(e, p.db);
    hide *;
    MetaRun(f, p, e);
    StatementRun(f, p, e);
    PendingIs(f, p, e);
    LinesAppend(f, p, Headers(e) + DbLines(e, p.db) + Opt(e.stamp, StampLine), Terminated(e.lines));
    assert ToSeq(Taken(p)) + [] == ToSeq(Taken(p));
  }

  lemma {:induction false} LinesAre(e: Entry, db: Option<seq<byte>>)
    requires e.lines != []
    ensures EntryLines(e, db) == (Headers(e) + DbLines(e, db) + Opt(e.stamp, StampLine)) + Terminated(e.lines)
  {
    hide Headers, DbLines, Opt, Terminated;
  }

  // ---------------------------------------------------------------------
  // Whole logs
  // ---------------------------------------------------------------------

  /** Every entry can be logged, and all but the last are complete statements. */
  ghost predicate LoggableAll(f: Fields, entries: seq<Entry>) {
    && (forall e | e in entries :: Loggable(f, e))
    && (forall i | 0 <= i < |entries| - 1 :: entries[i].lines != [] && Complete(entries[i]))
  }

  function LastDb(entries: seq<Entry>): Option<seq<byte>> {
    if entries == [] then None else Newer(LastDb(entries[..|entries| - 1]), entries[|entries| - 1].db)
  }

  function Render(entries: seq<Entry>): seq<seq<byte>>
    requires forall e | e in entries :: e.lines != []
  {
    if entries == [] then []
    else
      var n := |entries| - 1;
      Render(entries[..n]) + EntryLines(entries[n], LastDb(entries[..n]))
  }

  function Expected(f: Fields, entries: seq<Entry>): seq<Parsed> {
    if entries == [] then []
    else
      var n := |entries| - 1;
      Expected(f, entries[..n]) + [Expect(f, KnownAfter(f, entries), entries[n])]
  }

  lemma {:induction false} KnowsDb(f: Fields, entries: seq<Entry>)
    ensures KnownAfter(f, entries).db == LastDb(entries)
  {
    if entries != [] {
      KnowsDb(f, entries[..|entries| - 1]);
      LearnKeepsDb(f, KnownAfter(f, entries[..|entries| - 1]), entries[|entries| - 1]);
    }
    hide Learn;
  }

  lemma {:induction false} KnownStep(f: Fields, entries: seq<Entry>)
    requires entries != []
    ensures KnownAfter(f, entries) == Learn(f, KnownAfter(f, entries[..|entries| - 1]), entries[|entries| - 1])
  {
  }

  lemma {:induction false} FrontLoggable(f: Fields, entries: seq<Entry>)
    requires LoggableAll(f, entries) && entries != []
    ensures var n := |entries| - 1;
            && LoggableAll(f, entries[..n]) && Loggable(f, entries[n])
            && (n > 0 ==> entries[n - 1].lines != [] && Complete(entries[n - 1]))
  {
    hide Loggable, Complete;
    var n := |entries| - 1;
    assert forall e | e in entries[..n] :: e in entries;
    assert entries[n] in entries;
  }

  lemma {:induction false} AllHaveLines(f: Fields, entries: seq<Entry>)
    requires LoggableAll(f, entries)
    ensures forall e | e in entries :: e.lines != []
  {
    forall e | e in entries ensures e.lines != [] {
      assert Loggable(f, e);
    }
  }

  /** Between two entries everything but the pending statement is settled. */
  lemma {:induction false} PendingSettles(f: Fields, p: Parser, k: Known, e: Entry)
    requires e.lines != [] && Complete(e) && Pending(f, p, k, e)
    ensures Settled(p, k)
  {
    hide Scan, Statement, Expect;
  }

  /** What a log yields when it ends with the pending statement of its last entry. */
  predicate Reported(f: Fields, p: Parser, emitted: seq<Parsed>, entries: seq<Entry>)
    requires forall e | e in entries :: e.lines != []
  {
    if entries == [] then p == FRESH && emitted == []
    else
      var n := |entries| - 1;
      emitted == Expected(f, entries[..n]) && Pending(f, p, KnownAfter(f, entries), entries[n])
  }

  lemma {:induction false} NothingRendered(f: Fields)
    ensures Reported(f, AfterLines(f, FRESH, Render([])), AllEmitted(f, FRESH, Render([])), [])
  {
  }

  lemma {:induction false} MakeReported(f: Fields, p: Parser, emitted: seq<Parsed>, entries: seq<Entry>)
    requires entries != [] && forall e | e in entries :: e.lines != []
    requires emitted == Expected(f, entries[..|entries| - 1])
    requires Pending(f, p, KnownAfter(f, entries), entries[|entries| - 1])
    ensures Reported(f, p, emitted, entries)
  {
    hide Pending, Expected, KnownAfter;
  }

  lemma {:induction false} RenderStep(entries: seq<Entry>)
    requires entries != [] && forall e | e in entries :: e.lines != []
    ensures var n := |entries| - 1;
            && (forall e | e in entries[..n] :: e.lines != []) && entries[n].lines != []
            && Render(entries) == Render(entries[..n]) + EntryLines(entries[n], LastDb(entries[..n]))
  {
    var n := |entries| - 1;
    assert forall e | e in entries[..n] :: e in entries;
    assert entries[n] in entries;
  }

  lemma {:induction false} SettledKnows(p: Parser, k: Known)
    requires Settled(p, k)
    ensures KnownBy(p) == k && p.db == k.db
  {
  }

  lemma {:induction false} LogRuns(f: Fields, entries: seq<Entry>)
    requires LoggableAll(f, entries)
    ensures forall e | e in entries :: e.lines != []
    ensures Reported(f, AfterLines(f, FRESH, Render(entries)), AllEmitted(f, FRESH, Render(entries)), entries)
    decreases |entries|
  {
    hide *;
    AllHaveLines(f, entries);
    if entries == [] {
      NothingRendered(f);
    } else {
      var n := |entries| - 1;
      var front, e := entries[..n], entries[n];
      FrontLoggable(f, entries);
      RenderStep(entries);
      LogRuns(f, front);
      var p, emitted := AfterLines(f, FRESH, Render(front)), AllEmitted(f, FRESH, Render(front));
      assert n > 0 ==> front[|front| - 1] == entries[n - 1];
      Between(f, p, emitted, front);
      SettledKnows(p, KnownAfter(f, front));
      KnowsDb(f, front);
      KnownStep(f, entries);
      Flushed(f, p, emitted, front);
      LinesAppend(f, FRESH, Render(front), EntryLines(e, LastDb(front)));
      EntryRun(f, p, e);
      MakeReported(f, AfterLines(f, FRESH, Render(entries)), AllEmitted(f, FRESH, Render(entries)), entries);
    }
  }

  lemma {:induction false} Between(f: Fields, p: Parser, emitted: seq<Parsed>, entries: seq<Entry>)
    requires forall e | e in entries :: e.lines != []
    requires entries != [] ==> Complete(entries[|entries| - 1])
    requires Reported(f, p, emitted, entries)
    ensures Settled(p, KnownAfter(f, entries))
  {
    hide Complete, Expect, Statement, Scan;
    if entries != [] {
      PendingSettles(f, p, KnownAfter(f, entries), entries[|entries| - 1]);
    }
  }

  lemma {:induction false} Flushed(f: Fields, p: Parser, emitted: seq<Parsed>, entries: seq<Entry>)
    requires forall e | e in entries :: e.lines != []
    requires Reported(f, p, emitted, entries)
    ensures emitted + ToSeq(Taken(p)) == Expected(f, entries)
  {
    hide Expect, Statement, Scan, KnownAfter;
  }

  /** The log round trip: the parser reports exactly the rendered entries, in
      order; what an entry does not say is what the log said last. */
  lemma {:induction false} LogRoundTrip(f: Fields, entries: seq<Entry>)
    requires LoggableAll(f, entries)
    ensures forall e | e in entries :: e.lines != []
    ensures ParsedLog(f, Render(entries)) == Expected(f, entries)
  {
    LogRuns(f, entries);
    Flushed(f, AfterLines(f, FRESH, Render(entries)), AllEmitted(f, FRESH, Render(entries)), entries);
    hide LoggableAll, Render, AfterLines, AllEmitted, Expected, Reported, Taken;
  }
}
