/** The slow query log parser as a function of its state and one line, and the
    scanner that keeps track of strings and comments across lines. */
module SlowLog {
  import opened Bytes
  import opened Utf8
  import opened Fingerprints

  // ---------------------------------------------------------------------
  // String and comment state
  // ---------------------------------------------------------------------

  datatype SqlState = Normal | InString(quote: byte) | InComment

  predicate IsQuoteMark(b: byte) {
    b == QUOTE || b == DQUOTE || b == TICK
  }

  predicate Sane(st: SqlState) {
    st.InString? ==> IsQuoteMark(st.quote)
  }

  /** `scan_sql_state`. A line comment ends with its line, so on one line it ends
      the scan, and on a text of several lines it ends at the newline. */
  function Scan(st: SqlState, r: seq<byte>): SqlState
    decreases |r|
  {
    if r == [] then st
    else match st
      case InString(q) =>
        if r[0] == BACKSLASH && q != TICK then Scan(st, if |r| < 2 then [] else r[2..])
        else if r[0] == q then if |r| > 1 && r[1] == q then Scan(st, r[2..]) else Scan(Normal, r[1..])
        else Scan(st, r[1..])
      case InComment =>
        if r[0] == STAR && |r| > 1 && r[1] == SLASH then Scan(Normal, r[2..]) else Scan(st, r[1..])
      case Normal =>
        if IsQuoteMark(r[0]) then Scan(InString(r[0]), r[1..])
        else if r[0] == SLASH && |r| > 1 && r[1] == STAR then Scan(InComment, r[2..])
        else if r[0] == MINUS && |r| > 1 && r[1] == MINUS && (|r| <= 2 || IsWs(r[2])) then Scan(Normal, r[InLine(r)..])
        else if r[0] == HASH then Scan(Normal, r[InLine(r)..])
        else Scan(Normal, r[1..])
  }

  /** The lines joined by newlines. */
  function Joined(lines: seq<seq<byte>>): seq<byte> {
    if lines == [] then []
    else if |lines| == 1 then lines[0]
    else Joined(lines[..|lines| - 1]) + [NEWLINE] + lines[|lines| - 1]
  }

  /** The state line by line. */
  function ScanLines(st: SqlState, lines: seq<seq<byte>>): SqlState {
    if lines == [] then st
    else Scan(ScanLines(st, lines[..|lines| - 1]), lines[|lines| - 1])
  }

  lemma {:induction false} InLineOver(a: seq<byte>, b: seq<byte>)
    ensures InLine(a + [NEWLINE] + b) == InLine(a)
    decreases |a|
  {
    var r := a + [NEWLINE] + b;
    if a != [] {
      assert r[1..] == a[1..] + [NEWLINE] + b;
      InLineOver(a[1..], b);
    }
  }

  /** Going on behind a newline is going on with the next line. */
  lemma {:induction false} ScanNewline(st: SqlState, a: seq<byte>, b: seq<byte>)
    requires Sane(st)
    ensures Scan(st, a + [NEWLINE] + b) == Scan(Scan(st, a), b)
    decreases |a|
  {
    var r := a + [NEWLINE] + b;
    if a == [] {
      assert r[1..] == b;
      ScanAtNewline(st, r);
    } else {
      assert r[1..] == a[1..] + [NEWLINE] + b;
      if |a| >= 2 { assert r[2..] == a[2..] + [NEWLINE] + b; } else { assert r[2..] == b; }
      InLineOver(a, b);
      var k := InLine(a);
      assert r[k..] == a[k..] + [NEWLINE] + b;
      ScanStep(st, r);
      ScanStep(st, a);
      hide Scan, InLine;
      ScanDone(st);
      ScanNewline(st, a[1..], b);
      ScanNewline(Normal, a[1..], b);
      if IsQuoteMark(a[0]) { ScanNewline(InString(a[0]), a[1..], b); }
      if |a| >= 2 {
        ScanNewline(st, a[2..], b);
        ScanNewline(Normal, a[2..], b);
        ScanNewline(InComment, a[2..], b);
      }
      if k > 0 { ScanNewline(Normal, a[k..], b); }
    }
  }

  lemma {:induction false} ScanDone(st: SqlState)
    ensures Scan(st, []) == st
  {
  }

  lemma {:induction false} ScanAtNewline(st: SqlState, r: seq<byte>)
    requires r != [] && r[0] == NEWLINE && Sane(st)
    ensures Scan(st, r) == Scan(st, r[1..])
  {
  }

  lemma {:induction false} ScanStep(st: SqlState, r: seq<byte>)
    requires r != []
    ensures Scan(st, r) ==
            match st
            case InString(q) =>
              if r[0] == BACKSLASH && q != TICK then Scan(st, if |r| < 2 then [] else r[2..])
              else if r[0] == q then if |r| > 1 && r[1] == q then Scan(st, r[2..]) else Scan(Normal, r[1..])
              else Scan(st, r[1..])
            case InComment =>
              if r[0] == STAR && |r| > 1 && r[1] == SLASH then Scan(Normal, r[2..]) else Scan(st, r[1..])
            case Normal =>
              if IsQuoteMark(r[0]) then Scan(InString(r[0]), r[1..])
              else if r[0] == SLASH && |r| > 1 && r[1] == STAR then Scan(InComment, r[2..])
              else if r[0] == MINUS && |r| > 1 && r[1] == MINUS && (|r| <= 2 || IsWs(r[2]))
                  then Scan(Normal, r[InLine(r)..])
              else if r[0] == HASH then Scan(Normal, r[InLine(r)..])
              else Scan(Normal, r[1..])
  {
  }

  lemma {:induction false} JoinedSnoc(lines: seq<seq<byte>>, line: seq<byte>)
    ensures Joined(lines + [line]) == if lines == [] then line else Joined(lines) + [NEWLINE] + line
  {
    assert (lines + [line])[..|lines|] == lines;
  }

  /** Folding the scanner over the lines is one scan of the joined text. */
  lemma {:induction false} LinesScanAsOneText(st: SqlState, lines: seq<seq<byte>>)
    requires Sane(st) && lines != []
    ensures ScanLines(st, lines) == Scan(st, Joined(lines))
    decreases |lines|
  {
    hide Scan;
    var n := |lines| - 1;
    if n == 0 {
      assert ScanLines(st, lines[..0]) == st;
    } else {
      LinesScanAsOneText(st, lines[..n]);
      ScanNewline(st, Joined(lines[..n]), lines[n]);
    }
  }

  // ---------------------------------------------------------------------
  // Text predicates
  // ---------------------------------------------------------------------

  /** The bytes of an ASCII literal. */
  function Ascii(s: string): (b: seq<byte>)
    ensures |b| == |s| && forall i | 0 <= i < |s| :: b[i] == s[i] as int % 0x80
  {
    seq(|s|, i requires 0 <= i < |s| => s[i] as int % 0x80)
  }

  predicate Contains(r: seq<byte>, s: seq<byte>) {
    s <= r || (r != [] && Contains(r[1..], s))
  }

  predicate EndsWith(r: seq<byte>, s: seq<byte>) {
    |s| <= |r| && r[|r| - |s|..] == s
  }

  /** The text starts with the lower-case `word`, in any case. */
  predicate StartsFolded(t: seq<byte>, word: seq<byte>) {
    |word| <= |t| && forall i | 0 <= i < |word| :: ToLower(t[i]) == word[i]
  }

  predicate HasSpace(s: seq<byte>) {
    s != [] && (SpaceAtStart(s) > 0 || HasSpace(s[1..]))
  }

  function TrimSemicolons(s: seq<byte>): seq<byte> {
    if s != [] && s[|s| - 1] == SEMICOLON then TrimSemicolons(s[..|s| - 1]) else s
  }

  /** `replace("``", "`")`. */
  function Undouble(s: seq<byte>): seq<byte> {
    if s == [] then []
    else if |s| > 1 && s[0] == TICK && s[1] == TICK then [TICK] + Undouble(s[2..])
    else [s[0]] + Undouble(s[1..])
  }

  predicate IsEntryHeader(line: seq<byte>) {
    || Ascii("# Time: ") <= line
    || Ascii("# User@Host: ") <= line
    || Ascii("# Query_time: ") <= line
    || Ascii("# Thread_id: ") <= line
    || Ascii("# administrator command:") <= line
  }

  predicate IsRestartBanner(line: seq<byte>) {
    Contains(line, Ascii(", Version: ")) && EndsWith(TrimEnd(line), Ascii("started with:"))
  }

  /** The lines a server prints below its banner. */
  predicate IsColumnHeader(line: seq<byte>) {
    || Ascii("Tcp port:") <= line
    || Ascii("TCP Port:") <= line
    || (var t := TrimStart(line);
        Ascii("Time") <= t && Contains(t, Ascii("Id")) && Contains(t, Ascii("Command"))
            && Contains(t, Ascii("Argument")))
  }

  // ---------------------------------------------------------------------
  // The parser
  // ---------------------------------------------------------------------

  datatype Pairs = Pairs(queryTime: Option<int>, thread: Option<nat>, schema: Option<seq<byte>>)

  /** How single fields are read: dates, user names, ids and numbers. */
  datatype Fields = Fields(
    time: seq<byte> -> Option<int>,
    user: seq<byte> -> Option<seq<byte>>,
    id: seq<byte> -> Option<nat>,
    pairs: seq<byte> -> Pairs,
    seconds: seq<byte> -> Option<int>)

  datatype Parsed = Parsed(
    ts: int, thread: nat, user: Option<seq<byte>>, db: Option<seq<byte>>, query: seq<byte>, queryTime: int)

  datatype Parser = Parser(
    time: Option<int>, stamp: Option<int>, user: Option<seq<byte>>, thread: Option<nat>, schema: Option<seq<byte>>,
    queryTime: int, db: Option<seq<byte>>, buf: seq<byte>, inQuery: bool, sql: SqlState, admin: nat, restarts: nat)

  const FRESH: Parser := Parser(None, None, None, None, None, 0, None, [], false, Normal, 0, 0)

  /** The second if it is there, else the first. */
  function Newer<T>(a: Option<T>, b: Option<T>): Option<T> {
    if b.Some? then b else a
  }

  function ResetEntry(p: Parser): Parser {
    p.(stamp := None, schema := None, queryTime := 0)
  }

  /** `handle_header`. */
  function AfterHeader(f: Fields, p: Parser, line: seq<byte>): Parser {
    if Ascii("# Time: ") <= line then p.(time := Newer(p.time, f.time(Trim(line[8..]))))
    else if Ascii("# User@Host: ") <= line then
      p.(user := Newer(p.user, f.user(line[13..])), thread := Newer(p.thread, f.id(line[13..])))
    else if Ascii("# administrator command:") <= line then ResetEntry(p.(admin := p.admin + 1))
    else
      var kv := f.pairs(line);
      p.(queryTime := if kv.queryTime.Some? then kv.queryTime.value else p.queryTime,
         thread := Newer(p.thread, kv.thread), schema := Newer(p.schema, kv.schema))
  }

  /** A `use` line of the log. */
  function ParseUse(t: seq<byte>): Option<seq<byte>> {
    if |t| < 5 || !StartsFolded(t, Ascii("use ")) then None
    else
      var db := Trim(TrimSemicolons(Trim(t[4..])));
      if db != [] && db[0] == TICK && db[|db| - 1] == TICK && |db| >= 2 then
        var name := Undouble(db[1..|db| - 1]);
        if name == [] then None else Some(name)
      else if db == [] || HasSpace(db) then None
      else Some(db)
  }

  function ParseStamp(f: Fields, t: seq<byte>): Option<int> {
    if |t| <= 14 || !StartsFolded(t, Ascii("set timestamp=")) then None
    else f.seconds(Trim(TrimSemicolons(t[14..])))
  }

  function Append(p: Parser, line: seq<byte>): Parser {
    p.(buf := if p.buf == [] then line else p.buf + [NEWLINE] + line, sql := Scan(p.sql, line))
  }

  function StartQuery(p: Parser, line: seq<byte>): Parser {
    Append(p.(inQuery := true, buf := [], sql := Normal), line)
  }

  /** A line outside statement text. */
  function AfterMeta(f: Fields, p: Parser, line: seq<byte>): Parser {
    var t := Trim(line);
    if line != [] && line[0] == HASH then AfterHeader(f, p, line)
    else if IsRestartBanner(line) then p.(restarts := p.restarts + 1, db := None, stamp := None)
    else if IsColumnHeader(line) || t == [] then p
    else if p.stamp == None && ParseUse(t).Some? then p.(db := ParseUse(t))
    else if ParseStamp(f, t).Some? then p.(stamp := ParseStamp(f, t))
    else StartQuery(p, line)
  }

  /** The statement text without its end: one semicolon and the space around it. */
  function Statement(buf: seq<byte>): seq<byte> {
    var q := TrimEnd(buf);
    if q != [] && q[|q| - 1] == SEMICOLON then TrimEnd(q[..|q| - 1]) else q
  }

  function OrElse<T>(o: Option<T>, d: T): T {
    if o.Some? then o.value else d
  }

  function ParsedOf(p: Parser): Parsed {
    Parsed(OrElse(Newer(p.time, p.stamp), 0), OrElse(p.thread, 0), p.user, Newer(p.db, p.schema), Statement(p.buf),
           p.queryTime)
  }

  /** `take_query`: the state behind the statement, and the statement unless it is empty. */
  function AfterTake(p: Parser): Parser {
    if p.inQuery then ResetEntry(p.(inQuery := false, sql := Normal, buf := [])) else p
  }

  function Taken(p: Parser): Option<Parsed> {
    if p.inQuery && Statement(p.buf) != [] then Some(ParsedOf(p)) else None
  }

  function StripCr(line: seq<byte>): seq<byte> {
    if line != [] && line[|line| - 1] == 0x0D then line[..|line| - 1] else line
  }

  /** The line ends the statement being read. */
  predicate EndsStatement(p: Parser, line: seq<byte>) {
    p.inQuery && p.sql == Normal && (IsEntryHeader(line) || IsRestartBanner(line))
  }

  /** `push_line`. */
  function AfterLine(f: Fields, p: Parser, raw: seq<byte>): Parser {
    var line := StripCr(raw);
    if p.inQuery && !EndsStatement(p, line) then Append(p, line)
    else AfterMeta(f, AfterTake(p), line)
  }

  function Emitted(p: Parser, raw: seq<byte>): Option<Parsed> {
    if EndsStatement(p, StripCr(raw)) then Taken(p) else None
  }

  // ---------------------------------------------------------------------
  // Whole logs
  // ---------------------------------------------------------------------

  function ToSeq<T>(o: Option<T>): seq<T> {
    if o.Some? then [o.value] else []
  }

  function AfterLines(f: Fields, p: Parser, lines: seq<seq<byte>>): Parser {
    if lines == [] then p
    else AfterLine(f, AfterLines(f, p, lines[..|lines| - 1]), lines[|lines| - 1])
  }

  /** The statements completed by these lines, in order. */
  function AllEmitted(f: Fields, p: Parser, lines: seq<seq<byte>>): seq<Parsed> {
    if lines == [] then []
    else
      var n := |lines| - 1;
      AllEmitted(f, p, lines[..n]) + ToSeq(Emitted(AfterLines(f, p, lines[..n]), lines[n]))
  }

  /** Everything a log yields: what its lines complete, and what `finish` flushes. */
  function ParsedLog(f: Fields, lines: seq<seq<byte>>): seq<Parsed> {
    AllEmitted(f, FRESH, lines) + ToSeq(Taken(AfterLines(f, FRESH, lines)))
  }

  lemma {:induction false} LinesAppend(f: Fields, p: Parser, a: seq<seq<byte>>, b: seq<seq<byte>>)
    ensures AfterLines(f, p, a + b) == AfterLines(f, AfterLines(f, p, a), b)
    ensures AllEmitted(f, p, a + b) == AllEmitted(f, p, a) + AllEmitted(f, AfterLines(f, p, a), b)
    decreases |b|
  {
    hide AfterLine, Emitted;
    if b == [] {
      assert a + b == a;
    } else {
      var n := |b| - 1;
      assert (a + b)[..|a + b| - 1] == a + b[..n];
      LinesAppend(f, p, a, b[..n]);
    }
  }

  lemma {:induction false} LinesSnoc(f: Fields, p: Parser, a: seq<seq<byte>>, line: seq<byte>)
    ensures AfterLines(f, p, a + [line]) == AfterLine(f, AfterLines(f, p, a), line)
    ensures AllEmitted(f, p, a + [line]) == AllEmitted(f, p, a) + ToSeq(Emitted(AfterLines(f, p, a), line))
  {
    hide AfterLine, Emitted;
    assert (a + [line])[..|a|] == a;
  }

  // ---------------------------------------------------------------------
  // What every run keeps
  // ---------------------------------------------------------------------

  /** Within a statement the tracked state is the state of all its text so far. */
  predicate Tracked(p: Parser) {
    p.inQuery ==> p.buf != [] && p.sql == Scan(Normal, p.buf)
  }

  lemma {:induction false} AppendTracks(p: Parser, line: seq<byte>)
    requires p.inQuery && Tracked(p)
    ensures Tracked(Append(p, line))
  {
    ScanNewline(Normal, p.buf, line);
    hide Scan;
  }

  lemma {:induction false} StartTracks(p: Parser, line: seq<byte>)
    requires line != []
    ensures Tracked(StartQuery(p, line))
  {
    hide Scan;
  }

  lemma {:induction false} TrimNothing()
    ensures Trim([]) == []
  {
  }

  lemma {:induction false} HeaderTracks(f: Fields, p: Parser, line: seq<byte>)
    requires !p.inQuery && line != []
    ensures Tracked(AfterHeader(f, p, line))
  {
    hide Scan;
  }

  /** A line outside a statement starts one, or leaves the parser outside. */
  lemma {:induction false} MetaCases(f: Fields, p: Parser, line: seq<byte>)
    requires !p.inQuery
    ensures var p' := AfterMeta(f, p, line);
            || !p'.inQuery || (line != [] && (p' == AfterHeader(f, p, line) || p' == StartQuery(p, line)))
  {
    TrimNothing();
    hide IsRestartBanner, IsColumnHeader, ParseUse, ParseStamp, Trim, Ascii, StartQuery, AfterHeader;
  }

  lemma {:induction false} OutsideTracks(p: Parser)
    requires !p.inQuery
    ensures Tracked(p)
  {
  }

  lemma {:induction false} MetaTracks(f: Fields, p: Parser, line: seq<byte>)
    requires !p.inQuery
    ensures Tracked(AfterMeta(f, p, line))
  {
    hide *;
    MetaCases(f, p, line);
    if !AfterMeta(f, p, line).inQuery {
      OutsideTracks(AfterMeta(f, p, line));
    } else {
      StartTracks(p, line);
      HeaderTracks(f, p, line);
    }
  }

  /** After any lines, the parser knows whether it stands inside a string or comment. */
  lemma {:induction false} RunTracks(f: Fields, lines: seq<seq<byte>>)
    ensures Tracked(AfterLines(f, FRESH, lines))
    decreases |lines|
  {
    hide Scan, AfterMeta, Append, EndsStatement;
    if lines != [] {
      var n := |lines| - 1;
      RunTracks(f, lines[..n]);
      var p := AfterLines(f, FRESH, lines[..n]);
      if p.inQuery { AppendTracks(p, StripCr(lines[n])); }
      MetaTracks(f, AfterTake(p), StripCr(lines[n]));
    }
  }

  predicate NoneEmpty(qs: seq<Parsed>) {
    forall q | q in qs :: q.query != []
  }

  lemma {:induction false} EmittedNotEmpty(f: Fields, p: Parser, lines: seq<seq<byte>>)
    ensures NoneEmpty(AllEmitted(f, p, lines))
    decreases |lines|
  {
    if lines != [] {
      var n := |lines| - 1;
      EmittedNotEmpty(f, p, lines[..n]);
      hide Statement, EndsStatement, AfterLine;
    }
  }

  /** No log yields an empty statement, and `finish` yields nothing a second time. */
  lemma {:induction false} FinishOnce(f: Fields, lines: seq<seq<byte>>)
    ensures NoneEmpty(ParsedLog(f, lines))
    ensures Taken(AfterTake(AfterLines(f, FRESH, lines))) == None
  {
    EmittedNotEmpty(f, FRESH, lines);
    hide Statement, AfterLines, AllEmitted;
  }
}
