/** The slow-log parser as the object it is, proved line by line against `SlowLog`. */
module SlowLogParsing {
  import opened Bytes
  import opened Utf8
  import opened Fingerprints
  import opened SlowLog

  lemma {:induction false} ScanAt(st: SqlState, b: seq<byte>, i: nat)
    requires i < |b|
    ensures Scan(st, b[i..]) ==
            match st
            case InString(q) =>
              if b[i] == BACKSLASH && q != TICK then Scan(st, if i + 2 <= |b| then b[i + 2..] else [])
              else if b[i] == q then
                if i + 1 < |b| && b[i + 1] == q then Scan(st, b[i + 2..]) else Scan(Normal, b[i + 1..])
              else Scan(st, b[i + 1..])
            case InComment =>
              if b[i] == STAR && i + 1 < |b| && b[i + 1] == SLASH then Scan(Normal, b[i + 2..])
                  else Scan(st, b[i + 1..])
            case Normal =>
              if IsQuoteMark(b[i]) then Scan(InString(b[i]), b[i + 1..])
              else if b[i] == SLASH && i + 1 < |b| && b[i + 1] == STAR then Scan(InComment, b[i + 2..])
              else if b[i] == MINUS && i + 1 < |b| && b[i + 1] == MINUS && (i + 2 >= |b| || IsWs(b[i + 2])) then
                Scan(Normal, b[i..][InLine(b[i..])..])
              else if b[i] == HASH then Scan(Normal, b[i..][InLine(b[i..])..])
              else Scan(Normal, b[i + 1..])
  {
    ScanStep(st, b[i..]);
    assert b[i..][1..] == b[i + 1..] && (i + 2 <= |b| ==> b[i..][2..] == b[i + 2..]);
    hide Scan, InLine;
  }

  lemma {:induction false} WholeLine(r: seq<byte>)
    requires NEWLINE !in r
    ensures InLine(r) == |r|
  {
    if r != [] {
      WholeLine(r[1..]);
    }
  }

  /** `scan_sql_state`: a line comment ends the loop. */
  method ScanSqlState(st: SqlState, line: seq<byte>) returns (state: SqlState)
    requires NEWLINE !in line
    ensures state == Scan(st, line)
  {
    hide Scan, InLine;
    var n, i := |line|, 0;
    state := st;
    assert line[0..] == line;
    ScanDone(Normal);
    while i < n
      invariant 0 <= i
      invariant Scan(st, line) == if i <= n then Scan(state, line[i..]) else state
      decreases n - i
    {
      ScanAt(state, line, i);
      ScanDone(state);
      match state {
        case InString(q) =>
          if line[i] == BACKSLASH && q != TICK {
            i := i + 2;
          } else if line[i] == q {
            if i + 1 < n && line[i + 1] == q {
              i := i + 2;
            } else {
              state := Normal;
              i := i + 1;
            }
          } else {
            i := i + 1;
          }
        case InComment =>
          if line[i] == STAR && i + 1 < n && line[i + 1] == SLASH {
            state := Normal;
            i := i + 2;
          } else {
            i := i + 1;
          }
        case Normal =>
          if IsQuoteMark(line[i]) {
            state := InString(line[i]);
            i := i + 1;
          } else if line[i] == SLASH && i + 1 < n && line[i + 1] == STAR {
            state := InComment;
            i := i + 2;
          } else if line[i] == HASH
                    || (line[i] == MINUS && i + 1 < n && line[i + 1] == MINUS && (i + 2 >= n || IsWs(line[i + 2]))) {
            WholeLine(line[i..]);
            assert line[i..][|line[i..]|..] == [];
            return;
          } else {
            i := i + 1;
          }
      }
    }
    ScanDone(state);
    assert i == n ==> line[i..] == [];
  }

  /** The end of the text cut off: space, one semicolon, and space again. */
  method StatementText(buf: seq<byte>) returns (q: seq<byte>)
    ensures q == Statement(buf)
  {
    hide TrimEnd;
    q := TrimEnd(buf);
    if q != [] && q[|q| - 1] == SEMICOLON {
      q := TrimEnd(q[..|q| - 1]);
    }
  }

  class SlowLogParser {
    const fields: Fields
    var timeMicros: Option<int>
    var setTs: Option<int>
    var user: Option<seq<byte>>
    var threadId: Option<nat>
    var schema: Option<seq<byte>>
    var queryTime: int
    var currentDb: Option<seq<byte>>
    var buf: seq<byte>
    var inQuery: bool
    var sqlState: SqlState
    var adminCommands: nat
    var restarts: nat

    /** The parser's state as a value. */
    function State(): Parser
      reads this
    {
      Parser(timeMicros, setTs, user, threadId, schema, queryTime, currentDb, buf, inQuery, sqlState, adminCommands,
             restarts)
    }

    constructor (fields: Fields)
      ensures this.fields == fields && State() == FRESH
    {
      this.fields := fields;
      timeMicros, setTs, user, threadId, schema := None, None, None, None, None;
      queryTime, currentDb, buf, inQuery, sqlState := 0, None, [], false, Normal;
      adminCommands, restarts := 0, 0;
    }

    method ResetFields()
      modifies `setTs, `schema, `queryTime
      ensures State() == ResetEntry(old(State()))
    {
      setTs, schema, queryTime := None, None, 0;
    }

    method HandleHeader(line: seq<byte>)
      modifies `timeMicros, `user, `threadId, `schema, `queryTime, `adminCommands, `setTs
      ensures State() == AfterHeader(fields, old(State()), line)
    {
      hide Ascii, Trim;
      if Ascii("# Time: ") <= line {
        timeMicros := Newer(timeMicros, fields.time(Trim(line[8..])));
      } else if Ascii("# User@Host: ") <= line {
        user := Newer(user, fields.user(line[13..]));
        threadId := Newer(threadId, fields.id(line[13..]));
      } else if Ascii("# administrator command:") <= line {
        adminCommands := adminCommands + 1;
        ResetFields();
      } else {
        var kv := fields.pairs(line);
        if kv.queryTime.Some? {
          queryTime := kv.queryTime.value;
        }
        threadId := Newer(threadId, kv.thread);
        schema := Newer(schema, kv.schema);
      }
    }

    /** Whether the line was a banner or a column header, and its effect. */
    method HandleBanner(line: seq<byte>) returns (consumed: bool)
      modifies `restarts, `currentDb, `setTs
      ensures consumed == (IsRestartBanner(line) || IsColumnHeader(line))
      ensures var p := old(State());
              State() == if IsRestartBanner(line) then p.(restarts := p.restarts + 1, db := None, stamp := None) else p
    {
      hide IsRestartBanner, IsColumnHeader;
      if IsRestartBanner(line) {
        restarts := restarts + 1;
        currentDb := None;
        setTs := None;
        return true;
      }
      consumed := IsColumnHeader(line);
    }

    method AppendQueryLine(line: seq<byte>)
      requires NEWLINE !in line
      modifies `buf, `sqlState
      ensures State() == Append(old(State()), line)
    {
      if buf != [] {
        buf := buf + [NEWLINE];
      }
      buf := buf + line;
      sqlState := ScanSqlState(sqlState, line);
    }

    method ConsumeMetaLine(line: seq<byte>)
      requires NEWLINE !in line
      modifies this
      ensures State() == AfterMeta(fields, old(State()), line)
    {
      hide IsRestartBanner, IsColumnHeader, Trim, ParseUse, ParseStamp, AfterHeader, Scan, Ascii;
      if line != [] && line[0] == HASH {
        HandleHeader(line);
        return;
      }
      var consumed := HandleBanner(line);
      if consumed {
        return;
      }
      var t := Trim(line);
      if t == [] {
        return;
      }
      if setTs == None {
        var db := ParseUse(t);
        if db.Some? {
          currentDb := db;
          return;
        }
      }
      var ts := ParseStamp(fields, t);
      if ts.Some? {
        setTs := ts;
        return;
      }
      inQuery := true;
      buf := [];
      sqlState := Normal;
      AppendQueryLine(line);
    }

    method TakeQuery() returns (done: Option<Parsed>)
      modifies this
      ensures State() == AfterTake(old(State())) && done == Taken(old(State()))
    {
      hide Statement;
      if !inQuery {
        return None;
      }
      inQuery := false;
      sqlState := Normal;
      var q := StatementText(buf);
      buf := [];
      var ts := OrElse(Newer(timeMicros, setTs), 0);
      var thread := OrElse(threadId, 0);
      var db := Newer(currentDb, schema);
      var seconds := queryTime;
      ResetFields();
      done := if q == [] then None else Some(Parsed(ts, thread, user, db, q, seconds));
    }

    /** One line of the log, without its newline. */
    method PushLine(raw: seq<byte>) returns (done: Option<Parsed>)
      requires NEWLINE !in raw
      modifies this
      ensures State() == AfterLine(fields, old(State()), raw) && done == Emitted(old(State()), raw)
    {
      hide IsEntryHeader, IsRestartBanner, AfterMeta, Append, Statement;
      var line := StripCr(raw);
      assert forall b | b in line :: b in raw;
      done := None;
      if inQuery {
        if sqlState == Normal && (IsEntryHeader(line) || IsRestartBanner(line)) {
          done := TakeQuery();
          ConsumeMetaLine(line);
          return;
        }
        AppendQueryLine(line);
        return;
      }
      ConsumeMetaLine(line);
    }

    method Finish() returns (done: Option<Parsed>)
      modifies this
      ensures State() == AfterTake(old(State())) && done == Taken(old(State()))
    {
      done := TakeQuery();
    }
  }

  /** A whole log: every line pushed, then `finish`. */
  method ParseLog(fields: Fields, lines: seq<seq<byte>>) returns (qs: seq<Parsed>)
    requires forall l | l in lines :: NEWLINE !in l
    ensures qs == ParsedLog(fields, lines)
  {
    hide AfterLine, Emitted, Taken;
    var p := new SlowLogParser(fields);
    qs := [];
    assert lines[..0] == [];
    for k := 0 to |lines|
      invariant p.fields == fields && p.State() == AfterLines(fields, FRESH, lines[..k])
      invariant qs == AllEmitted(fields, FRESH, lines[..k])
    {
      assert lines[..k + 1] == lines[..k] + [lines[k]];
      LinesSnoc(fields, FRESH, lines[..k], lines[k]);
      var done := p.PushLine(lines[k]);
      qs := qs + ToSeq(done);
    }
    assert lines[..|lines|] == lines;
    var last := p.Finish();
    qs := qs + ToSeq(last);
  }
}
