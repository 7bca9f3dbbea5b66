/** The index-driven scanners of the write gate and of its fuzz target, proved
    against `WriteGate`. */
module WriteGateScan {
  import opened Bytes
  import opened WriteGate

  /** One past the closing quote, or the end of the text. */
  method SkipQuoted(b: string, start: nat) returns (i: nat)
    requires start < |b| && IsQuote(b[start])
    ensures start < i <= |b| && b[i..] == Rest(AfterQuote(b[start + 1..], b[start]))
  {
    var n, quote := |b|, b[start];
    i := start + 1;
    while i < n
      invariant start < i
      invariant i <= n ==> AfterQuote(b[start + 1..], quote) == AfterQuote(b[i..], quote)
      invariant i > n ==> AfterQuote(b[start + 1..], quote) == None
      decreases n - i
    {
      AfterQuoteSteps(b, i, quote);
      if b[i] == '\\' && quote != '`' {
        i := i + 2;
        continue;
      }
      if b[i] == quote {
        if i + 1 < n && b[i + 1] == quote {
          i := i + 2;
          continue;
        }
        return i + 1;
      }
      i := i + 1;
    }
    return n;
  }

  lemma {:induction false} AfterQuoteSteps(b: string, i: nat, q: char)
    requires i < |b|
    ensures AfterQuote(b[i..], q) ==
            if b[i] == '\\' && q != '`' then if i + 2 <= |b| then AfterQuote(b[i + 2..], q) else None
            else if b[i] == q then
              if i + 1 < |b| && b[i + 1] == q then AfterQuote(b[i + 2..], q) else Some(b[i + 1..])
            else AfterQuote(b[i + 1..], q)
  {
    assert b[i..][1..] == b[i + 1..];
    assert i + 2 <= |b| ==> b[i..][2..] == b[i + 2..];
  }

  /** One past the `*` `/` that closes a block comment, or the end. */
  method SkipBlock(b: string, start: nat) returns (i: nat)
    requires start <= |b|
    ensures start <= i <= |b| && b[i..] == Rest(AfterBlock(b[start..]))
  {
    var n := |b|;
    i := start;
    while i + 1 < n && !(b[i] == '*' && b[i + 1] == '/')
      invariant start <= i <= n
      invariant AfterBlock(b[start..]) == AfterBlock(b[i..])
    {
      assert b[i..][1..] == b[i + 1..];
      i := i + 1;
    }
    assert i + 2 <= n ==> b[i..][2..] == b[i + 2..];
    i := if i + 2 < n then i + 2 else n;
  }

  method SkipLine(b: string, start: nat) returns (i: nat)
    requires start <= |b|
    ensures start <= i <= |b| && b[i..] == AfterLine(b[start..])
  {
    i := start;
    while i < |b| && b[i] != '\n'
      invariant start <= i <= |b| && AfterLine(b[start..]) == AfterLine(b[i..])
    {
      assert b[i..][1..] == b[i + 1..];
      i := i + 1;
    }
  }

  method SkipDigits(b: string, start: nat) returns (i: nat)
    requires start <= |b|
    ensures start <= i <= |b| && b[i..] == AfterDigits(b[start..])
  {
    i := start;
    while i < |b| && IsDigit(b[i])
      invariant start <= i <= |b| && AfterDigits(b[start..]) == AfterDigits(b[i..])
    {
      assert b[i..][1..] == b[i + 1..];
      i := i + 1;
    }
  }

  /** The index form of the comment tests. */
  lemma {:induction false} StartsAt(b: string, i: nat)
    requires i < |b|
    ensures StartsBlock(b[i..]) <==> b[i] == '/' && i + 1 < |b| && b[i + 1] == '*'
    ensures StartsConditional(b[i..]) <==> StartsBlock(b[i..]) && i + 2 < |b| && b[i + 2] == '!'
    ensures StartsLine(b[i..]) <==>
            b[i] == '#' || (b[i] == '-' && i + 1 < |b| && b[i + 1] == '-' && (i + 2 >= |b| || IsSpace(b[i + 2])))
    ensures b[i..][1..] == b[i + 1..]
    ensures i + 2 <= |b| ==> b[i..][2..] == b[i + 2..]
    ensures i + 3 <= |b| ==> b[i..][3..] == b[i + 3..]
  {
  }

  /** What follows the comment, or the conditional opener, at the start of `r`. */
  function CommentRest(r: string): string
    requires StartsBlock(r) || StartsLine(r)
  {
    if StartsConditional(r) then AfterDigits(r[3..])
    else if StartsBlock(r) then Rest(AfterBlock(r[2..]))
    else AfterLine(r[1..])
  }

  predicate CommentAt(b: string, i: nat)
    requires i < |b|
  {
    || (b[i] == '/' && i + 1 < |b| && b[i + 1] == '*')
    || b[i] == '#'
    || (b[i] == '-' && i + 1 < |b| && b[i + 1] == '-' && (i + 2 >= |b| || IsSpace(b[i + 2])))
  }

  method SkipComment(b: string, start: nat) returns (i: nat)
    requires start < |b| && CommentAt(b, start)
    ensures StartsBlock(b[start..]) || StartsLine(b[start..])
    ensures start < i <= |b| && b[i..] == CommentRest(b[start..])
  {
    StartsAt(b, start);
    if b[start] == '/' {
      if start + 2 < |b| && b[start + 2] == '!' {
        i := SkipDigits(b, start + 3);
      } else {
        i := SkipBlock(b, start + 2);
      }
    } else {
      i := SkipLine(b, start + 1);
    }
  }

  /** True exactly when content follows a code-level semicolon. */
  method HasTrailingStatement(b: string) returns (r: bool)
    ensures r == Trailing(b, false)
    ensures r <==> ContentAfterSemi(Lex(b))
  {
    hide ContentAfterSemi, Lex, AfterQuote, AfterBlock, AfterLine, AfterDigits;
    hide StartsBlock, StartsConditional, StartsLine, IsSpace;
    TrailingMeans(b, false);
    var n := |b|;
    var i, afterSemi := 0, false;
    assert b[0..] == b;
    while i < n
      invariant 0 <= i <= n
      invariant Trailing(b, false) == Trailing(b[i..], afterSemi)
      decreases n - i
    {
      StartsAt(b, i);
      var c := b[i];
      if CommentAt(b, i) {
        i := SkipComment(b, i);
      } else if IsSpace(c) {
        i := i + 1;
      } else if c == ';' {
        afterSemi := true;
        i := i + 1;
      } else if afterSemi {
        return true;
      } else if c == '\'' || c == '"' || c == '`' {
        i := SkipQuoted(b, i);
      } else {
        i := i + 1;
      }
    }
    return false;
  }

  lemma {:induction false} NextWordSteps(r: string, depth: int)
    ensures NextWord(Scan(r, depth)) ==
            if r == "" then (Scan(r, depth), None)
            else if r[0] == '(' then NextWord(Scan(r[1..], depth + 1))
            else if r[0] == ')' then NextWord(Scan(r[1..], depth - 1))
            else if IsQuote(r[0]) then NextWord(Scan(Rest(AfterQuote(r[1..], r[0])), depth))
            else if StartsBlock(r) || StartsLine(r) then NextWord(Scan(CommentRest(r), depth))
            else if StartsWord(r[0]) then
              (Scan(r[WordLen(r)..], depth), Some(Word(LowerAll(r[..WordLen(r)]), depth)))
            else NextWord(Scan(r[1..], depth))
  {
  }

  lemma {:induction false} NextWordAt(b: string, i: nat, depth: int)
    requires i < |b|
    ensures NextWord(Scan(b[i..], depth)) ==
            if b[i] == '(' then NextWord(Scan(b[i + 1..], depth + 1))
            else if b[i] == ')' then NextWord(Scan(b[i + 1..], depth - 1))
            else if IsQuote(b[i]) then NextWord(Scan(Rest(AfterQuote(b[i + 1..], b[i])), depth))
            else if StartsBlock(b[i..]) || StartsLine(b[i..]) then NextWord(Scan(CommentRest(b[i..]), depth))
            else if StartsWord(b[i]) then
              (Scan(b[i..][WordLen(b[i..])..], depth), Some(Word(LowerAll(b[i..][..WordLen(b[i..])]), depth)))
            else NextWord(Scan(b[i + 1..], depth))
  {
    NextWordSteps(b[i..], depth);
    assert b[i..][1..] == b[i + 1..] && b[i..][0] == b[i];
    hide *;
  }

  /** Yields lowercased words with the parenthesis depth they start at. */
  class TokenScanner {
    const b: string
    var i: nat
    var depth: int
    var wordDepth: int

    ghost predicate Valid()
      reads this`i
    {
      i <= |b|
    }

    function At(): Scan
      requires i <= |b|
      reads this`i, this`depth
    {
      Scan(b[i..], depth)
    }

    constructor (sql: string)
      ensures Valid() && At() == Scan(sql, 0) && b == sql
    {
      b, i, depth, wordDepth := sql, 0, 0, 0;
    }

    method Next() returns (w: Option<string>)
      requires Valid()
      modifies this
      ensures Valid()
      ensures var (s, word) := NextWord(old(At()));
              && At() == s
              && match word
                 case None => w == None
                 case Some(x) => w == Some(x.text) && wordDepth == x.depth
    {
      hide NextWord, AfterQuote, AfterBlock, AfterLine, AfterDigits, WordLen, LowerAll;
      hide StartsBlock, StartsConditional, StartsLine, StartsWord, IsSpace, CommentRest;
      var n := |b|;
      ghost var goal := NextWord(At());
      while i < n
        invariant i <= n && NextWord(At()) == goal
        decreases n - i
      {
        StartsAt(b, i);
        NextWordAt(b, i, depth);
        var c := b[i];
        if c == '(' {
          depth := depth + 1;
          i := i + 1;
        } else if c == ')' {
          depth := depth - 1;
          i := i + 1;
        } else if c == '\'' || c == '"' || c == '`' {
          i := SkipQuoted(b, i);
        } else if CommentAt(b, i) {
          i := SkipComment(b, i);
        } else if StartsWord(c) {
          w := TakeWord();
          return;
        } else {
          i := i + 1;
        }
      }
      NextWordSteps(b[i..], depth);
      w := None;
    }

    method TakeWord() returns (w: Option<string>)
      requires i < |b| && StartsWord(b[i])
      modifies this
      ensures i <= |b| && depth == old(depth) && wordDepth == old(depth)
      ensures var r := old(b[i..]);
              b[i..] == r[WordLen(r)..] && w == Some(LowerAll(r[..WordLen(r)]))
    {
      wordDepth := depth;
      var start := i;
      while i < |b| && InWord(b[i])
        invariant start <= i <= |b| && depth == old(depth) && wordDepth == depth
        invariant WordLen(b[start..]) == i - start + WordLen(b[i..])
        decreases |b| - i
      {
        assert b[i..][1..] == b[i + 1..];
        i := i + 1;
      }
      assert b[start..][..i - start] == b[start..i];
      assert b[start..][i - start..] == b[i..];
      w := Some(LowerAll(b[start..i]));
    }
  }

  method ClassifySelectTail(scan: TokenScanner) returns (c: QueryClass)
    requires scan.Valid()
    modifies scan
    ensures scan.Valid() && c == SelectTail(old(scan.At()), false)
  {
    hide NextWord;
    var afterInto := false;
    ghost var goal := SelectTail(scan.At(), false);
    var w := scan.Next();
    while w.Some?
      invariant scan.Valid()
      invariant goal == match w
                        case None => Read
                        case Some(x) =>
                          if (x == "outfile" || x == "dumpfile") && afterInto then Write
                          else SelectTail(scan.At(), x == "into")
      decreases |scan.b| - scan.i, w.Some?
    {
      if (w.value == "outfile" || w.value == "dumpfile") && afterInto {
        return Write;
      }
      afterInto := w.value == "into";
      w := scan.Next();
    }
    return Read;
  }

  method ClassifyWithTail(scan: TokenScanner) returns (c: QueryClass)
    requires scan.Valid()
    modifies scan
    ensures scan.Valid() && c == WithTail(old(scan.At()))
  {
    hide NextWord, SelectTail;
    ghost var goal := WithTail(scan.At());
    var w := scan.Next();
    while w.Some?
      invariant scan.Valid()
      invariant goal == match w
                        case None => Write
                        case Some(x) =>
                          if scan.wordDepth == 0 && x == "select" then SelectTail(scan.At(), false)
                          else if scan.wordDepth == 0 && x in ["insert", "update", "delete", "replace"] then Write
                          else WithTail(scan.At())
      decreases |scan.b| - scan.i, w.Some?
    {
      if scan.wordDepth == 0 {
        if w.value == "select" {
          c := ClassifySelectTail(scan);
          return;
        }
        if w.value in ["insert", "update", "delete", "replace"] {
          return Write;
        }
      }
      w := scan.Next();
    }
    return Write;
  }

  method ClassifyAnalyzeTail(scan: TokenScanner) returns (c: QueryClass)
    requires scan.Valid()
    modifies scan
    ensures scan.Valid() && c == AnalyzeTail(old(scan.At()))
  {
    hide NextWord, SelectTail, WithTail;
    ghost var goal := AnalyzeTail(scan.At());
    var w := scan.Next();
    while w.Some? && w.value in ["format", "tree", "json"]
      invariant scan.Valid()
      invariant goal == match w
                        case None => Write
                        case Some(x) =>
                          if x in ["format", "tree", "json"] then AnalyzeTail(scan.At())
                          else if x in ["select", "table"] then SelectTail(scan.At(), false)
                          else if x == "with" then WithTail(scan.At())
                          else Write
      decreases |scan.b| - scan.i, w.Some?
    {
      w := scan.Next();
    }
    if w == None {
      return Write;
    }
    if w.value in ["select", "table"] {
      c := ClassifySelectTail(scan);
    } else if w.value == "with" {
      c := ClassifyWithTail(scan);
    } else {
      c := Write;
    }
  }

  method ClassifySql(sql: string) returns (c: QueryClass)
    ensures c == Classify(sql)
  {
    hide NextWord, SelectTail, WithTail, AnalyzeTail, Trailing;
    var multi := HasTrailingStatement(sql);
    if multi {
      return Write;
    }
    var scan := new TokenScanner(sql);
    var w := scan.Next();
    if w == None {
      return Write;
    }
    var first := w.value;
    if first == "select" {
      c := ClassifySelectTail(scan);
    } else if first in ["show", "use", "help"] {
      c := Read;
    } else if first in ["explain", "describe", "desc"] {
      w := scan.Next();
      if w == Some("analyze") {
        c := ClassifyAnalyzeTail(scan);
      } else {
        c := Read;
      }
    } else if first == "set" {
      w := scan.Next();
      c := if w.Some? && w.value in ["global", "persist", "persist_only", "password", "default"] then Write else Read;
    } else if first == "with" {
      c := ClassifyWithTail(scan);
    } else {
      c := Write;
    }
  }

  // ---------------------------------------------------------------------
  // The independent lexer of the fuzz target
  // ---------------------------------------------------------------------

  /** Nested loops over one index; unterminated strings and block comments are
      told apart from a normal end. */
  method EndStateOf(b: string) returns (e: EndState)
    ensures e == StateAtEnd(b)
  {
    hide AfterQuote, AfterBlock, AfterLine, AfterDigits;
    var n := |b|;
    var i := 0;
    assert b[0..] == b;
    while i < n
      invariant 0 <= i <= n && StateAtEnd(b) == StateAtEnd(b[i..])
      decreases n - i
    {
      StartsAt(b, i);
      var c := b[i];
      if c == '\'' || c == '"' || c == '`' {
        var closed, j := StringEnd(b, i + 1, c);
        if !closed {
          return InString;
        }
        i := j;
      } else if c == '/' && i + 1 < n && b[i + 1] == '*' {
        if i + 2 < n && b[i + 2] == '!' {
          i := SkipDigits(b, i + 3);
        } else {
          var closed, j := BlockEnd(b, i + 2);
          if !closed {
            return InBlockComment;
          }
          i := j;
        }
      } else if c == '#' || (c == '-' && i + 1 < n && b[i + 1] == '-' && (i + 2 >= n || IsSpace(b[i + 2]))) {
        i := SkipLine(b, i + 1);
      } else {
        i := i + 1;
      }
    }
    return Normal;
  }

  method StringEnd(b: string, start: nat, q: char) returns (closed: bool, i: nat)
    requires start <= |b|
    ensures closed == AfterQuote(b[start..], q).Some?
    ensures closed ==> start < i <= |b| && AfterQuote(b[start..], q) == Some(b[i..])
  {
    var n := |b|;
    i := start;
    while true
      invariant start <= i
      invariant i <= n ==> AfterQuote(b[start..], q) == AfterQuote(b[i..], q)
      invariant i > n ==> AfterQuote(b[start..], q) == None
      decreases n - i
    {
      if i >= n {
        return false, i;
      }
      AfterQuoteSteps(b, i, q);
      if b[i] == '\\' && q != '`' {
        i := i + 2;
      } else if b[i] == q {
        if i + 1 < n && b[i + 1] == q {
          i := i + 2;
        } else {
          return true, i + 1;
        }
      } else {
        i := i + 1;
      }
    }
  }

  method BlockEnd(b: string, start: nat) returns (closed: bool, i: nat)
    requires start <= |b|
    ensures closed == AfterBlock(b[start..]).Some?
    ensures closed ==> start < i <= |b| && AfterBlock(b[start..]) == Some(b[i..])
  {
    var n := |b|;
    i := start;
    while true
      invariant start <= i <= n && AfterBlock(b[start..]) == AfterBlock(b[i..])
      decreases n - i
    {
      if i + 1 >= n {
        return false, i;
      }
      assert b[i..][1..] == b[i + 1..] && b[i..][2..] == b[i + 2..];
      if b[i] == '*' && b[i + 1] == '/' {
        return true, i + 2;
      }
      i := i + 1;
    }
  }
}
