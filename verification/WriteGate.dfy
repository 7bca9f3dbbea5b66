/** The write gate: which statements are provably read-only, and the two
    scanners it rests on. The reference functions work on the text that is
    still to be read; the methods advance an index. */
module WriteGate {
  import opened Bytes

  datatype QueryClass = Read | Write

  predicate IsSpace(c: char) {
    c == ' ' || c == '\t' || c == '\n' || c == '\r' || c == '\U{000C}'
  }

  predicate IsDigit(c: char) {
    '0' <= c <= '9'
  }

  predicate IsAlpha(c: char) {
    'a' <= c <= 'z' || 'A' <= c <= 'Z'
  }

  predicate StartsWord(c: char) {
    IsAlpha(c) || c == '_'
  }

  predicate InWord(c: char) {
    IsAlpha(c) || IsDigit(c) || c == '_' || c == '$'
  }

  predicate IsQuote(c: char) {
    c == '\'' || c == '"' || c == '`'
  }

  // ---------------------------------------------------------------------
  // Skipping quotes and comments
  // ---------------------------------------------------------------------

  /** What follows the closing quote `q`; `None` when the text ends first. */
  function AfterQuote(r: string, q: char): (t: Option<string>)
    ensures t.Some? ==> |t.value| < |r|
  {
    if r == "" then None
    else if r[0] == '\\' && q != '`' then if |r| >= 2 then AfterQuote(r[2..], q) else None
    else if r[0] == q then if |r| > 1 && r[1] == q then AfterQuote(r[2..], q) else Some(r[1..])
    else AfterQuote(r[1..], q)
  }

  /** What follows the first `*` `/`; `None` when there is none. */
  function AfterBlock(r: string): (t: Option<string>)
    ensures t.Some? ==> |t.value| < |r|
  {
    if |r| < 2 then None
    else if r[0] == '*' && r[1] == '/' then Some(r[2..])
    else AfterBlock(r[1..])
  }

  /** The text from the next newline on. */
  function AfterLine(r: string): (t: string)
    ensures |t| <= |r|
  {
    if r == "" || r[0] == '\n' then r else AfterLine(r[1..])
  }

  function AfterDigits(r: string): (t: string)
    ensures |t| <= |r|
  {
    if r == "" || !IsDigit(r[0]) then r else AfterDigits(r[1..])
  }

  function Rest(t: Option<string>): string {
    match t case Some(r) => r case None => ""
  }

  predicate StartsBlock(r: string) {
    |r| >= 2 && r[0] == '/' && r[1] == '*'
  }

  /** A version-conditional comment, whose contents the server executes. */
  predicate StartsConditional(r: string) {
    StartsBlock(r) && |r| >= 3 && r[2] == '!'
  }

  predicate StartsLine(r: string) {
    r != "" && (r[0] == '#' || (|r| >= 2 && r[0] == '-' && r[1] == '-' && (|r| == 2 || IsSpace(r[2]))))
  }

  // ---------------------------------------------------------------------
  // Multi-statement text
  // ---------------------------------------------------------------------

  /** Code-level semicolons, and everything else that is neither blank nor comment. */
  datatype Tok = Semi | Content

  /** One token at most, and the text behind it. */
  function LexStep(r: string): (res: (seq<Tok>, string))
    requires r != ""
    ensures |res.1| < |r| && (res.0 == [] || res.0 == [Semi] || res.0 == [Content])
  {
    if StartsConditional(r) then ([], AfterDigits(r[3..]))
    else if StartsBlock(r) then ([], Rest(AfterBlock(r[2..])))
    else if StartsLine(r) then ([], AfterLine(r[1..]))
    else if IsSpace(r[0]) then ([], r[1..])
    else if r[0] == ';' then ([Semi], r[1..])
    else if IsQuote(r[0]) then ([Content], Rest(AfterQuote(r[1..], r[0])))
    else ([Content], r[1..])
  }

  function Lex(r: string): seq<Tok>
    decreases |r|
  {
    if r == "" then [] else LexStep(r).0 + Lex(LexStep(r).1)
  }

  /** The scan of `has_trailing_statement` from the text `r` on. */
  function Trailing(r: string, afterSemi: bool): bool
    decreases |r|
  {
    if r == "" then false
    else if StartsConditional(r) then Trailing(AfterDigits(r[3..]), afterSemi)
    else if StartsBlock(r) then Trailing(Rest(AfterBlock(r[2..])), afterSemi)
    else if StartsLine(r) then Trailing(AfterLine(r[1..]), afterSemi)
    else if IsSpace(r[0]) then Trailing(r[1..], afterSemi)
    else if r[0] == ';' then Trailing(r[1..], true)
    else if afterSemi then true
    else if IsQuote(r[0]) then Trailing(Rest(AfterQuote(r[1..], r[0])), afterSemi)
    else Trailing(r[1..], afterSemi)
  }

  predicate ContentAfterSemi(ts: seq<Tok>) {
    exists i, j :: 0 <= i < j < |ts| && ts[i] == Semi && ts[j] == Content
  }

  lemma {:induction false} ContentAfterSemiCons(t: Tok, ts: seq<Tok>)
    ensures ContentAfterSemi([t] + ts) <==> ContentAfterSemi(ts) || (t == Semi && Content in ts)
  {
    var all := [t] + ts;
    if ContentAfterSemi(all) {
      var i, j :| 0 <= i < j < |all| && all[i] == Semi && all[j] == Content;
      assert ts[j - 1] == Content;
      if i > 0 {
        assert ts[i - 1] == Semi;
      }
    }
    if ContentAfterSemi(ts) {
      var i, j :| 0 <= i < j < |ts| && ts[i] == Semi && ts[j] == Content;
      assert all[i + 1] == Semi && all[j + 1] == Content;
    }
    if t == Semi && Content in ts {
      var j :| 0 <= j < |ts| && ts[j] == Content;
      assert all[0] == Semi && all[j + 1] == Content;
    }
  }

  lemma {:induction false} TrailingStep(r: string, afterSemi: bool)
    requires r != ""
    ensures var (ts, rest) := LexStep(r);
            Trailing(r, afterSemi) == if ts == [Semi] then Trailing(rest, true)
                                      else (ts == [Content] && afterSemi) || Trailing(rest, afterSemi)
  {
  }

  /** The scan finds exactly the texts in which content follows a semicolon. */
  lemma {:induction false} TrailingMeans(r: string, afterSemi: bool)
    ensures Trailing(r, afterSemi) <==> ContentAfterSemi(Lex(r)) || (afterSemi && Content in Lex(r))
    decreases |r|
  {
    hide Trailing, LexStep, ContentAfterSemi;
    if r == "" {
      assert !Trailing(r, afterSemi) && !ContentAfterSemi([]) by { NothingTrails(afterSemi); }
    } else {
      TrailingStep(r, afterSemi);
      var (ts, rest) := LexStep(r);
      TrailingMeans(rest, afterSemi || ts == [Semi]);
      if ts == [] {
        assert Lex(r) == Lex(rest);
      } else {
        assert Lex(r) == [ts[0]] + Lex(rest);
        ContentAfterSemiCons(ts[0], Lex(rest));
      }
    }
  }

  lemma {:induction false} NothingTrails(afterSemi: bool)
    ensures !Trailing("", afterSemi) && !ContentAfterSemi([])
  {
  }

  // ---------------------------------------------------------------------
  // Words
  // ---------------------------------------------------------------------

  function Lower(c: char): char {
    if 'A' <= c <= 'Z' then c + 'a' - 'A' else c
  }

  function LowerAll(w: string): (l: string)
    ensures |l| == |w|
  {
    if w == "" then "" else [Lower(w[0])] + LowerAll(w[1..])
  }

  function WordLen(r: string): (n: nat)
    ensures n <= |r|
  {
    if r == "" || !InWord(r[0]) then 0 else 1 + WordLen(r[1..])
  }

  /** Where a token scanner stands: the text to be read and the depth of
      parentheses. */
  datatype Scan = Scan(r: string, depth: int)

  /** A lowercased word and the depth it starts at. */
  datatype Word = Word(text: string, depth: int)

  /** The next word outside strings and comments. */
  function NextWord(s: Scan): (res: (Scan, Option<Word>))
    ensures |res.0.r| <= |s.r| && (res.1.Some? ==> |res.0.r| < |s.r|)
    decreases |s.r|
  {
    var r := s.r;
    if r == "" then (s, None)
    else if r[0] == '(' then NextWord(Scan(r[1..], s.depth + 1))
    else if r[0] == ')' then NextWord(Scan(r[1..], s.depth - 1))
    else if IsQuote(r[0]) then NextWord(Scan(Rest(AfterQuote(r[1..], r[0])), s.depth))
    else if StartsConditional(r) then NextWord(Scan(AfterDigits(r[3..]), s.depth))
    else if StartsBlock(r) then NextWord(Scan(Rest(AfterBlock(r[2..])), s.depth))
    else if StartsLine(r) then NextWord(Scan(AfterLine(r[1..]), s.depth))
    else if StartsWord(r[0]) then
      var n := WordLen(r);
      (Scan(r[n..], s.depth), Some(Word(LowerAll(r[..n]), s.depth)))
    else NextWord(Scan(r[1..], s.depth))
  }

  /** `INTO OUTFILE` and `INTO DUMPFILE` write files on the server. */
  function SelectTail(s: Scan, afterInto: bool): QueryClass
    decreases |s.r|
  {
    var (s', w) := NextWord(s);
    match w
    case None => Read
    case Some(w) =>
      if (w.text == "outfile" || w.text == "dumpfile") && afterInto then Write
      else SelectTail(s', w.text == "into")
  }

  /** The first top-level verb after the common table expressions decides. */
  function WithTail(s: Scan): QueryClass
    decreases |s.r|
  {
    var (s', w) := NextWord(s);
    match w
    case None => Write
    case Some(w) =>
      if w.depth == 0 && w.text == "select" then SelectTail(s', false)
      else if w.depth == 0 && w.text in ["insert", "update", "delete", "replace"] then Write
      else WithTail(s')
  }

  /** `EXPLAIN ANALYZE` executes the statement it explains. */
  function AnalyzeTail(s: Scan): QueryClass
    decreases |s.r|
  {
    var (s', w) := NextWord(s);
    match w
    case None => Write
    case Some(w) =>
      if w.text in ["format", "tree", "json"] then AnalyzeTail(s')
      else if w.text in ["select", "table"] then SelectTail(s', false)
      else if w.text == "with" then WithTail(s')
      else Write
  }

  function FirstVerb(s: Scan): QueryClass {
    var (s1, first) := NextWord(s);
    match first
    case None => Write
    case Some(w) =>
      if w.text == "select" then SelectTail(s1, false)
      else if w.text in ["show", "use", "help"] then Read
      else if w.text in ["explain", "describe", "desc"] then
        var (s2, second) := NextWord(s1);
        if second.Some? && second.value.text == "analyze" then AnalyzeTail(s2) else Read
      else if w.text == "set" then
        var second := NextWord(s1).1;
        if second.Some? && second.value.text in ["global", "persist", "persist_only", "password", "default"] then Write
        else Read
      else if w.text == "with" then WithTail(s1)
      else Write
  }

  function Classify(sql: string): QueryClass {
    if Trailing(sql, false) then Write else FirstVerb(Scan(sql, 0))
  }

  /** Whether a statement may run. */
  function ShouldExecute(sql: string, allowWrites: bool): bool {
    allowWrites || Classify(sql) == Read
  }

  function IsUse(sql: string): bool {
    var w := NextWord(Scan(sql, 0)).1;
    w.Some? && w.value.text == "use"
  }

  // ---------------------------------------------------------------------
  // The independent lexer
  // ---------------------------------------------------------------------

  datatype EndState = Normal | InString | InBlockComment

  /** The lexical state at the end of the text. */
  function StateAtEnd(r: string): EndState
    decreases |r|
  {
    if r == "" then Normal
    else if IsQuote(r[0]) then
      (match AfterQuote(r[1..], r[0]) case None => InString case Some(t) => StateAtEnd(t))
    else if StartsConditional(r) then StateAtEnd(AfterDigits(r[3..]))
    else if StartsBlock(r) then
      (match AfterBlock(r[2..]) case None => InBlockComment case Some(t) => StateAtEnd(t))
    else if StartsLine(r) then StateAtEnd(AfterLine(r[1..]))
    else StateAtEnd(r[1..])
  }

  lemma {:induction false} AfterQuoteAppend(r: string, q: char, x: string)
    requires AfterQuote(r, q).Some? && x != "" && x[0] != q
    ensures AfterQuote(r + x, q) == Some(AfterQuote(r, q).value + x)
  {
    var k := if r[0] == '\\' && q != '`' then 2
             else if r[0] == q && |r| > 1 && r[1] == q then 2 else 1;
    assert (r + x)[k..] == r[k..] + x;
    if r[0] == q && k == 1 && r[0] != '\\' {
    } else if AfterQuote(r[k..], q).Some? {
      AfterQuoteAppend(r[k..], q, x);
    }
  }

  lemma {:induction false} AfterBlockAppend(r: string, x: string)
    requires AfterBlock(r).Some?
    ensures AfterBlock(r + x) == Some(AfterBlock(r).value + x)
  {
    if r[0] == '*' && r[1] == '/' {
      assert (r + x)[2..] == r[2..] + x;
    } else {
      assert (r + x)[1..] == r[1..] + x;
      AfterBlockAppend(r[1..], x);
    }
  }

  lemma {:induction false} AfterLineAppend(r: string, x: string)
    requires x != "" && x[0] == '\n'
    ensures AfterLine(r + x) == AfterLine(r) + x
  {
    if r != "" && r[0] != '\n' {
      assert (r + x)[1..] == r[1..] + x;
      AfterLineAppend(r[1..], x);
    } else {
      assert r == "" ==> r + x == x;
    }
  }

  lemma {:induction false} AfterDigitsAppend(r: string, x: string)
    requires x != "" && !IsDigit(x[0])
    ensures AfterDigits(r + x) == AfterDigits(r) + x
  {
    if r != "" && IsDigit(r[0]) {
      assert (r + x)[1..] == r[1..] + x;
      AfterDigitsAppend(r[1..], x);
    } else {
      assert r == "" ==> r + x == x;
    }
  }

  lemma {:induction false} LexStepAppend(r: string, x: string)
    requires r != "" && StateAtEnd(r) == Normal && x != "" && x[0] == '\n'
    ensures StateAtEnd(LexStep(r).1) == Normal
    ensures LexStep(r + x) == (LexStep(r).0, LexStep(r).1 + x)
  {
    assert (r + x)[1..] == r[1..] + x;
    if StartsConditional(r) {
      assert (r + x)[3..] == r[3..] + x;
      AfterDigitsAppend(r[3..], x);
    } else if StartsBlock(r) {
      assert (r + x)[2..] == r[2..] + x;
      AfterBlockAppend(r[2..], x);
    } else if StartsLine(r) {
      AfterLineAppend(r[1..], x);
    } else if IsQuote(r[0]) {
      AfterQuoteAppend(r[1..], r[0], x);
    }
  }

  /** Text that ends outside strings and block comments lexes independently of
      what a new line adds to it. */
  lemma {:induction false} LexAppend(r: string, x: string)
    requires StateAtEnd(r) == Normal && x != "" && x[0] == '\n'
    ensures Lex(r + x) == Lex(r) + Lex(x)
    decreases |r|
  {
    hide LexStep, StateAtEnd;
    if r == "" {
      assert r + x == x && [] + Lex(x) == Lex(x);
    } else {
      LexStepAppend(r, x);
      var (ts, rest) := LexStep(r);
      LexAppend(rest, x);
      assert ts + (Lex(rest) + Lex(x)) == (ts + Lex(rest)) + Lex(x);
    }
  }

  /** The gate agrees with the independent lexer: after any text that ends in
      the normal state, a further statement makes the whole a write. */
  lemma {:induction false} SecondStatementIsWrite(s: string, stmt: string)
    requires StateAtEnd(s) == Normal && Content in Lex(stmt)
    ensures Classify(s + "\n;" + stmt) == Write
    ensures !ShouldExecute(s + "\n;" + stmt, false)
  {
    hide Lex, LexStep, Trailing, StateAtEnd, FirstVerb, ContentAfterSemi;
    var x := "\n;" + stmt;
    assert s + "\n;" + stmt == s + x;
    LexNewStatement(stmt);
    LexAppend(s, x);
    FoundAfter(Lex(s), Lex(stmt));
    TrailingMeans(s + x, false);
  }

  lemma {:induction false} LexNewStatement(stmt: string)
    ensures Lex("\n;" + stmt) == [Semi] + Lex(stmt)
  {
    var x := "\n;" + stmt;
    assert x[1..] == ";" + stmt && (";" + stmt)[1..] == stmt;
    assert LexStep(x) == ([], ";" + stmt) && LexStep(";" + stmt) == ([Semi], stmt);
    hide LexStep;
    assert Lex(";" + stmt) == [Semi] + Lex(stmt);
  }

  lemma {:induction false} FoundAfter(a: seq<Tok>, b: seq<Tok>)
    requires Content in b
    ensures ContentAfterSemi(a + ([Semi] + b))
  {
    var ts := a + ([Semi] + b);
    var j :| 0 <= j < |b| && b[j] == Content;
    assert ts[|a|] == Semi && ts[|a| + 1 + j] == Content;
  }

  /** The guard statement of the fuzz target. */
  lemma {:induction false} FuzzGuardIsWrite(s: string)
    requires StateAtEnd(s) == Normal
    ensures Classify(s + "\n;" + "DROP TABLE fuzz_guard") == Write
  {
    var stmt := "DROP TABLE fuzz_guard";
    assert LexStep(stmt).0 == [Content];
    hide LexStep;
    assert Lex(stmt)[0] == Content;
    SecondStatementIsWrite(s, stmt);
  }

  // ---------------------------------------------------------------------
  // Inert prefixes
  // ---------------------------------------------------------------------

  predicate AllDigits(d: string) {
    forall i | 0 <= i < |d| :: IsDigit(d[i])
  }

  /** The opener of a conditional comment, at once closed again. */
  function EmptyConditional(digits: string): string {
    "/*!" + (digits + " */ ")
  }

  /** A blank, a complete comment, or an empty conditional comment. */
  ghost predicate Inert(p: string) {
    || (|p| == 1 && IsSpace(p[0]))
    || (StartsBlock(p) && !StartsConditional(p) && AfterBlock(p[2..]) == Some(""))
    || (StartsLine(p) && AfterLine(p[1..]) == "\n")
    || (exists d :: AllDigits(d) && p == EmptyConditional(d))
  }

  lemma {:induction false} AfterLineWithin(r: string, x: string)
    requires AfterLine(r) != ""
    ensures AfterLine(r + x) == AfterLine(r) + x
  {
    if r[0] != '\n' {
      assert (r + x)[1..] == r[1..] + x;
      AfterLineWithin(r[1..], x);
    }
  }

  lemma {:induction false} AfterDigitsSkips(d: string, x: string)
    requires AllDigits(d) && x != "" && !IsDigit(x[0])
    ensures AfterDigits(d + x) == x
  {
    if d != "" {
      assert (d + x)[1..] == d[1..] + x;
      AfterDigitsSkips(d[1..], x);
    } else {
      assert d + x == x;
    }
  }

  /** Where both scanners stand after a blank, a comment, a conditional opener
      or a stray `*` or `/` at the start of `r`. */
  function SkipTo(r: string): Option<string> {
    if r == "" then None
    else if StartsConditional(r) then Some(AfterDigits(r[3..]))
    else if StartsBlock(r) then Some(Rest(AfterBlock(r[2..])))
    else if StartsLine(r) then Some(AfterLine(r[1..]))
    else if IsSpace(r[0]) || r[0] == '*' || r[0] == '/' then Some(r[1..])
    else None
  }

  lemma {:induction false} SkipsTogether(r: string, depth: int)
    requires SkipTo(r).Some?
    ensures Trailing(r, false) == Trailing(SkipTo(r).value, false)
    ensures NextWord(Scan(r, depth)) == NextWord(Scan(SkipTo(r).value, depth))
  {
    hide AfterDigits, AfterBlock, AfterLine, AfterQuote;
  }

  /** Both scanners run over an inert prefix as if it were not there. */
  lemma {:induction false} InertSkips(p: string, s: string, depth: int)
    requires Inert(p)
    ensures Trailing(p + s, false) == Trailing(s, false)
    ensures NextWord(Scan(p + s, depth)) == NextWord(Scan(s, depth))
  {
    hide Trailing, NextWord;
    if |p| == 1 && IsSpace(p[0]) {
      assert (p + s)[1..] == s;
      SkipsTogether(p + s, depth);
    } else if StartsBlock(p) && !StartsConditional(p) && AfterBlock(p[2..]) == Some("") {
      BlockSkips(p, s);
      SkipsTogether(p + s, depth);
    } else if StartsLine(p) && AfterLine(p[1..]) == "\n" {
      LineSkips(p, s);
      SkipsTogether(p + s, depth);
      SkipsTogether("\n" + s, depth);
    } else {
      var d :| AllDigits(d) && p == EmptyConditional(d);
      ConditionalSkips(d, s, depth);
    }
  }

  lemma {:induction false} BlockSkips(p: string, s: string)
    requires StartsBlock(p) && !StartsConditional(p) && AfterBlock(p[2..]) == Some("")
    ensures SkipTo(p + s) == Some(s)
  {
    hide AfterBlock, AfterDigits, AfterLine;
    AfterBlockAppend(p[2..], s);
    var r := p + s;
    assert r[2..] == p[2..] + s;
    assert "" + s == s;
    assert |p| > 2 by { NothingCloses(p[2..]); }
    assert r[0] == p[0] && r[1] == p[1] && r[2] == p[2];
  }

  lemma {:induction false} NothingCloses(r: string)
    requires AfterBlock(r).Some?
    ensures r != ""
  {
  }

  lemma {:induction false} LineSkips(p: string, s: string)
    requires StartsLine(p) && AfterLine(p[1..]) == "\n"
    ensures SkipTo(p + s) == Some("\n" + s) && SkipTo("\n" + s) == Some(s)
  {
    AfterLineWithin(p[1..], s);
    assert (p + s)[1..] == p[1..] + s && ("\n" + s)[1..] == s;
  }

  lemma {:induction false} ConditionalSkips(d: string, s: string, depth: int)
    requires AllDigits(d)
    ensures Trailing(EmptyConditional(d) + s, false) == Trailing(s, false)
    ensures NextWord(Scan(EmptyConditional(d) + s, depth)) == NextWord(Scan(s, depth))
  {
    hide Trailing, NextWord, AfterDigits;
    var t := " */ " + s;
    var r := EmptyConditional(d) + s;
    assert r == "/*!" + (d + t) && r[3..] == d + t;
    AfterDigitsSkips(d, t);
    SkipsTogether(r, depth);
    StarSlashSkips(s, depth);
  }

  lemma {:induction false} StarSlashSkips(s: string, depth: int)
    ensures Trailing(" */ " + s, false) == Trailing(s, false)
    ensures NextWord(Scan(" */ " + s, depth)) == NextWord(Scan(s, depth))
  {
    hide Trailing, NextWord;
    assert (" */ " + s)[1..] == "*/ " + s && ("*/ " + s)[1..] == "/ " + s;
    assert ("/ " + s)[1..] == " " + s && (" " + s)[1..] == s;
    SkipsTogether(" */ " + s, depth);
    SkipsTogether("*/ " + s, depth);
    SkipsTogether("/ " + s, depth);
    SkipsTogether(" " + s, depth);
  }

  function Concat(ps: seq<string>): string {
    if ps == [] then "" else ps[0] + Concat(ps[1..])
  }

  /** Padding a statement with complete comments and blanks never changes its class. */
  lemma {:induction false} PaddingIsNeutral(ps: seq<string>, s: string)
    requires forall p | p in ps :: Inert(p)
    ensures Classify(Concat(ps) + s) == Classify(s) && IsUse(Concat(ps) + s) == IsUse(s)
  {
    if ps == [] {
      assert Concat(ps) + s == s;
    } else {
      hide Trailing, NextWord, SelectTail, WithTail, AnalyzeTail, Inert;
      assert Concat(ps) + s == ps[0] + (Concat(ps[1..]) + s);
      InertSkips(ps[0], Concat(ps[1..]) + s, 0);
      PaddingIsNeutral(ps[1..], s);
    }
  }

  // ---------------------------------------------------------------------
  // Empty conditional comments without a space behind them
  // ---------------------------------------------------------------------

  predicate AllBlank(b: string) {
    forall i | 0 <= i < |b| :: IsSpace(b[i])
  }

  /** A conditional comment with nothing in it, and nothing behind it. */
  function ClosedConditional(digits: string, blanks: string): string {
    "/*!" + (digits + (blanks + "*/"))
  }

  /** Both scanners read the two texts alike. */
  predicate ReadAlike(r: string, t: string) {
    Trailing(r, false) == Trailing(t, false) && NextWord(Scan(r, 0)) == NextWord(Scan(t, 0))
  }

  lemma {:induction false} AlikeClassify(r: string, t: string)
    requires ReadAlike(r, t)
    ensures Classify(r) == Classify(t)
  {
    hide Trailing, NextWord, SelectTail, WithTail, AnalyzeTail;
  }

  lemma {:induction false} SkipAlike(r: string, t: string)
    requires SkipTo(r) == Some(t)
    ensures ReadAlike(r, t)
  {
    hide Trailing, NextWord, SkipTo;
    SkipsTogether(r, 0);
  }

  lemma {:induction false} AlikeTrans(r: string, t: string, u: string)
    requires ReadAlike(r, t) && ReadAlike(t, u)
    ensures ReadAlike(r, u)
  {
    hide Trailing, NextWord;
  }

  lemma {:induction false} SkipOne(r: string)
    requires r != "" && !StartsBlock(r) && !StartsLine(r) && (IsSpace(r[0]) || r[0] == '*' || r[0] == '/')
    ensures ReadAlike(r, r[1..])
  {
    assert SkipTo(r) == Some(r[1..]);
    hide *;
    SkipAlike(r, r[1..]);
  }

  lemma {:induction false} BlanksSkip(b: string, x: string)
    requires AllBlank(b)
    ensures ReadAlike(b + x, x)
    decreases |b|
  {
    hide Trailing, NextWord;
    if b == "" {
      assert b + x == x;
    } else {
      assert (b + x)[1..] == b[1..] + x;
      SkipOne(b + x);
      BlanksSkip(b[1..], x);
    }
  }

  /** Behind the comment's star, its slash and the statement are still to be read. */
  lemma {:induction false} ClosedSkips(d: string, b: string, s: string)
    requires AllDigits(d) && AllBlank(b)
    ensures ReadAlike(ClosedConditional(d, b) + s, "/" + s)
  {
    var t := b + ("*/" + s);
    var r := ClosedConditional(d, b) + s;
    assert r == "/*!" + (d + t) && r[3..] == d + t;
    AfterDigitsSkips(d, t);
    assert SkipTo(r) == Some(t);
    assert ("*/" + s)[1..] == "/" + s;
    hide Trailing, NextWord, SkipTo, ReadAlike;
    SkipAlike(r, t);
    BlanksSkip(b, "*/" + s);
    SkipOne("*/" + s);
    AlikeTrans(r, t, "*/" + s);
    AlikeTrans(r, "*/" + s, "/" + s);
  }

  /** The text behind a comment whose opener has just been read. */
  function AfterOpener(r: string): string {
    if r != "" && r[0] == '!' then AfterDigits(r[1..]) else Rest(AfterBlock(r))
  }

  /** A slash in front of a star opens a comment; any other is skipped. */
  lemma {:induction false} SlashSkips(s: string)
    ensures s == "" || s[0] != '*' ==> ReadAlike("/" + s, s)
    ensures s != "" && s[0] == '*' ==> ReadAlike("/" + s, AfterOpener(s[1..])) && ReadAlike(s, s[1..])
  {
    var r := "/" + s;
    assert r[1..] == s;
    if s != "" && s[0] == '*' {
      assert r[2..] == s[1..];
      assert |r| >= 3 ==> r[2] == s[1] && r[3..] == s[1..][1..];
      assert SkipTo(r) == Some(AfterOpener(s[1..]));
      SkipOne(s);
    }
    hide *;
    if s != "" && s[0] == '*' {
      SkipAlike(r, AfterOpener(s[1..]));
    } else {
      SlashAlone(s);
    }
  }

  lemma {:induction false} SlashAlone(s: string)
    requires s == "" || s[0] != '*'
    ensures ReadAlike("/" + s, s)
  {
    assert ("/" + s)[1..] == s;
    hide Trailing, NextWord;
    SkipOne("/" + s);
  }

  /** An empty conditional comment is neutral in front of a statement if and only
      if the statement does not start with a star, or the comment that star
      completes hides nothing that matters. */
  lemma {:induction false} ClosedConditionalIsNeutralIff(d: string, b: string, s: string)
    requires AllDigits(d) && AllBlank(b)
    ensures Classify(ClosedConditional(d, b) + s) == Classify(s) <==>
            s == "" || s[0] != '*' || Classify(s[1..]) == Classify(AfterOpener(s[1..]))
  {
    hide *;
    var r := ClosedConditional(d, b) + s;
    ClosedSkips(d, b, s);
    SlashSkips(s);
    AlikeClassify(r, "/" + s);
    if s != "" && s[0] == '*' {
      AlikeClassify("/" + s, AfterOpener(s[1..]));
      AlikeClassify(s, s[1..]);
    } else {
      AlikeClassify("/" + s, s);
    }
  }

  /** One statement that is swallowed: the closing slash opens a comment. */
  lemma {:induction false} UnspacedConditionalFlips(w: string)
    requires w == "select"
    ensures Classify("* " + w) == Read
    ensures Classify(ClosedConditional("", " ") + ("* " + w)) == Write
  {
    assert AllDigits("") && AllBlank(" ") && ("* " + w)[1..] == " " + w;
    ClosedConditionalIsNeutralIff("", " ", "* " + w);
    hide *;
    StarWord(w);
    SwallowedWord(w);
  }

  lemma {:induction false} StarWord(w: string)
    requires w == "select"
    ensures Classify("* " + w) == Read && Classify(" " + w) == Read
  {
    assert ("* " + w)[1..] == " " + w && (" " + w)[1..] == w;
    hide Trailing, NextWord, Classify;
    SkipOne("* " + w);
    SkipOne(" " + w);
    AlikeClassify("* " + w, " " + w);
    AlikeClassify(" " + w, w);
    SelectIsRead(w);
  }

  lemma {:induction false} SelectIsRead(w: string)
    requires w == "select"
    ensures Classify(w) == Read
  {
    LettersDoNotTrail(w);
    WordAlone(w);
    NothingToRead();
    hide Trailing, NextWord;
  }

  lemma {:induction false} SwallowedWord(w: string)
    requires forall i | 0 <= i < |w| :: w[i] != '*'
    ensures AfterOpener(" " + w) == "" && Classify("") == Write
  {
    NoClose(" " + w);
    NothingToRead();
    hide AfterBlock, Trailing, NextWord;
  }

  lemma {:induction false} NothingToRead()
    ensures NextWord(Scan("", 0)).1 == None
  {
  }

  lemma {:induction false} WordAlone(w: string)
    requires w != "" && StartsWord(w[0]) && forall i | 0 <= i < |w| :: InWord(w[i]) && Lower(w[i]) == w[i]
    ensures NextWord(Scan(w, 0)) == (Scan("", 0), Some(Word(w, 0)))
  {
    WholeWord(w);
    assert w[..|w|] == w && w[|w|..] == "";
  }

  lemma {:induction false} WholeWord(w: string)
    requires forall i | 0 <= i < |w| :: InWord(w[i]) && Lower(w[i]) == w[i]
    ensures WordLen(w) == |w| && LowerAll(w) == w
  {
    if w != "" {
      WholeWord(w[1..]);
    }
  }

  lemma {:induction false} LettersDoNotTrail(w: string)
    requires forall i | 0 <= i < |w| :: IsAlpha(w[i])
    ensures !Trailing(w, false)
  {
    if w != "" {
      LettersDoNotTrail(w[1..]);
    }
  }

  lemma {:induction false} NoClose(r: string)
    requires forall i | 0 <= i < |r| :: r[i] != '*'
    ensures AfterBlock(r) == None
  {
    if r != "" {
      NoClose(r[1..]);
    }
  }
}
