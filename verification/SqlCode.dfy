// scanSql (packages/db/src/fixes.ts): the code and the top-level statements of a SQL text, as images of its one
// reading, and the loop that computes them.
module SqlCode {
  import opened Basics
  import opened SqlGrammar
  import opened SqlScan

  /** What a token leaves in one level's text: comments and dollar bodies blank, strings emptied, the rest as is. */
  function VisibleOf(t: Token): string {
    match t
    case LineComment(_) => " "
    case BlockComment(_) => " "
    case Str(escapes, pieces, _) => if !escapes && '\\' in PiecesText(pieces) then "'\\'" else "''"
    case QuotedId(_, _) => TokenText(t)
    case Dollar(_, _, _) => " "
    case Semi => ";"
    case Plain(c) => [c]
  }

  function Visible(ts: seq<Token>): string {
    if ts == [] then "" else VisibleOf(ts[0]) + Visible(ts[1..])
  }

  function CodeOf(t: Token): string
    decreases t, 0
  {
    if t.Dollar? then " " + Code(t.body) + " " else VisibleOf(t)
  }

  /** Every level's code at once: a dollar body stays, read on its own. */
  function Code(ts: seq<Token>): string
    decreases ts, 1
  {
    if ts == [] then "" else CodeOf(ts[0]) + Code(ts[1..])
  }

  /** The statements of the top level, `current` being read. */
  function StmtsFrom(current: string, ts: seq<Token>): seq<string>
    decreases |ts|
  {
    if ts == [] then [current]
    else if ts[0].Semi? then [current] + StmtsFrom("", ts[1..])
    else StmtsFrom(current + VisibleOf(ts[0]), ts[1..])
  }

  function Kept(stmts: seq<string>): seq<string> {
    if stmts == [] then []
    else (if Trim(stmts[0]) != "" then [stmts[0]] else []) + Kept(stmts[1..])
  }

  function Join(parts: seq<string>, sep: string): string {
    if parts == [] then "" else if |parts| == 1 then parts[0] else parts[0] + sep + Join(parts[1..], sep)
  }

  function CodeText(sql: string): string { Code(Tokenize("", sql)) }

  /** The statements before the blank ones are dropped. */
  function Statements(sql: string): seq<string> { StmtsFrom("", Tokenize("", sql)) }

  lemma FirstJoined(first: string, rest: seq<string>)
    requires rest != []
    ensures Join([first] + rest, ";") == first + ";" + Join(rest, ";")
  {
    assert ([first] + rest)[1..] == rest;
  }

  lemma VisibleStep(current: string, ts: seq<Token>)
    requires ts != []
    ensures current + Visible(ts) == (current + VisibleOf(ts[0])) + Visible(ts[1..])
  {
    assert current + (VisibleOf(ts[0]) + Visible(ts[1..])) == (current + VisibleOf(ts[0])) + Visible(ts[1..]);
  }

  lemma {:induction false} JoinedFrom(current: string, ts: seq<Token>)
    ensures StmtsFrom(current, ts) != []
    ensures Join(StmtsFrom(current, ts), ";") == current + Visible(ts)
    decreases |ts|
  {
    if ts == [] {
    } else if ts[0].Semi? {
      JoinedFrom("", ts[1..]);
      FirstJoined(current, StmtsFrom("", ts[1..]));
      VisibleStep(current, ts);
      assert "" + Visible(ts[1..]) == Visible(ts[1..]);
    } else {
      JoinedFrom(current + VisibleOf(ts[0]), ts[1..]);
      VisibleStep(current, ts);
    }
  }

  /** Splitting at semicolons loses nothing: the statements rejoin to the text with every dollar body blank. */
  lemma StatementsRejoin(sql: string)
    ensures Join(Statements(sql), ";") == Visible(Tokenize("", sql))
  {
    JoinedFrom("", Tokenize("", sql));
  }

  // ---------- The loop ----------

  /** Where a block comment read from `i`, `depth` levels deep, ends. */
  function CommentEnd(sql: string, i: nat, depth: nat): nat
    requires i <= |sql|
  {
    i + |LexesText(Lexes(sql[i..], depth))|
  }

  lemma CommentStep(sql: string, i: nat, depth: nat)
    requires depth > 0 && i < |sql|
    ensures var (c, next) := (sql[i], sql[i + 1..]);
      if c == '/' && StartsWith(next, '*') then CommentEnd(sql, i, depth) == CommentEnd(sql, i + 2, depth + 1)
      else if c == '*' && StartsWith(next, '/') then CommentEnd(sql, i, depth) == CommentEnd(sql, i + 2, depth - 1)
      else CommentEnd(sql, i, depth) == CommentEnd(sql, i + 1, depth)
  {
    var s := sql[i..];
    var xs := Lexes(s, depth);
    assert s[1..] == sql[i + 1..];
    if s[0] == '/' && StartsWith(s[1..], '*') {
      assert s[2..] == sql[i + 2..];
      assert xs[1..] == Lexes(s[2..], depth + 1);
    } else if s[0] == '*' && StartsWith(s[1..], '/') {
      assert s[2..] == sql[i + 2..];
      assert xs[1..] == Lexes(s[2..], depth - 1);
    } else {
      assert xs[1..] == Lexes(s[1..], depth);
    }
  }

  /** From just after a comment's opening mark to just after the mark that closes it, nested ones included. */
  method SkipComment(sql: string, start: nat) returns (i: nat)
    requires start <= |sql|
    ensures i == CommentEnd(sql, start, 1)
    ensures i <= |sql|
  {
    i := start;
    var depth := 1;
    while i < |sql| && depth > 0
      invariant depth >= 0 && i <= |sql|
      invariant CommentEnd(sql, i, depth) == CommentEnd(sql, start, 1)
    {
      CommentStep(sql, i, depth);
      if sql[i] == '/' && StartsWith(sql[i + 1..], '*') {
        depth := depth + 1;
        i := i + 2;
      } else if sql[i] == '*' && StartsWith(sql[i + 1..], '/') {
        depth := depth - 1;
        i := i + 2;
      } else {
        i := i + 1;
      }
    }
  }

  /** Where a quoted body read from `i` ends: at its closing quote, or with the text. */
  function BodyEnd(sql: string, i: nat, quote: char, escapes: bool): nat
    requires i <= |sql|
  {
    i + |PiecesText(Body(sql[i..], quote, escapes).0)|
  }

  predicate Escaping(sql: string, i: nat, quote: char, escapes: bool)
    requires i < |sql|
  {
    (escapes && sql[i] == '\\') || (sql[i] == quote && StartsWith(sql[i + 1..], quote))
  }

  lemma BodyStep(sql: string, i: nat, quote: char, escapes: bool)
    requires i < |sql|
    ensures
      if Escaping(sql, i, quote, escapes) then
        BodyEnd(sql, i, quote, escapes) == if i + 1 == |sql| then |sql| else BodyEnd(sql, i + 2, quote, escapes)
      else if sql[i] == quote then BodyEnd(sql, i, quote, escapes) == i
      else BodyEnd(sql, i, quote, escapes) == BodyEnd(sql, i + 1, quote, escapes)
  {
    var s := sql[i..];
    var ps := Body(s, quote, escapes).0;
    assert s[1..] == sql[i + 1..];
    if Escaping(sql, i, quote, escapes) {
      if i + 1 == |sql| {
        assert ps == [One('\\')];
        assert PiecesText(ps) == "\\";
      } else {
        assert s[2..] == sql[i + 2..];
        assert ps[1..] == Body(s[2..], quote, escapes).0;
      }
    } else if s[0] != quote {
      assert ps[1..] == Body(s[1..], quote, escapes).0;
    }
  }

  /** From just after an opening quote to its closing quote, or to the end of the text. */
  method SkipQuoted(sql: string, start: nat, quote: char, escapes: bool) returns (i: nat)
    requires start <= |sql|
    ensures i == BodyEnd(sql, start, quote, escapes)
    ensures i <= |sql|
  {
    i := start;
    while i < |sql|
      invariant i <= |sql|
      invariant BodyEnd(sql, i, quote, escapes) == BodyEnd(sql, start, quote, escapes)
    {
      BodyStep(sql, i, quote, escapes);
      if Escaping(sql, i, quote, escapes) {
        if i + 1 == |sql| { return |sql|; }
        i := i + 2;
      } else if sql[i] == quote {
        return i;
      } else {
        i := i + 1;
      }
    }
  }

  lemma {:induction false} UnclosedRunsOut(ps: seq<Piece>, quote: char, escapes: bool, rest: string)
    requires BodyOk(ps, quote, escapes, false, rest)
    ensures rest == ""
  {
    if ps != [] && !(rest == "" && escapes && ps == [One('\\')]) { UnclosedRunsOut(ps[1..], quote, escapes, rest); }
  }

  lemma ClosedShort(s: string, quote: char, escapes: bool)
    ensures var (ps, closed) := Body(s, quote, escapes);
      |PiecesText(ps)| <= |s| && (closed <==> |PiecesText(ps)| < |s|)
  {
    BodyReads(s, quote, escapes);
    var (ps, closed) := Body(s, quote, escapes);
    if !closed { UnclosedRunsOut(ps, quote, escapes, s[|PiecesText(ps)|..]); }
  }

  lemma Cut(s: string, i: nat, head: string)
    requires i <= |s| && head <= s[i..]
    ensures i + |head| <= |s| && s[..i] + head == s[..i + |head|] && s[i..][|head|..] == s[i + |head|..]
  {
  }

  lemma CutHead(s: string, i: nat, head: string)
    requires i <= |s| && head <= s[i..]
    ensures i + |head| <= |s| && s[i..i + |head|] == head
  {
  }

  /** The tokens from `i` on. */
  function Ahead(sql: string, i: nat): seq<Token>
    requires i <= |sql|
  {
    Tokenize(sql[..i], sql[i..])
  }

  /** The raw token at `i`, and where the next one starts. */
  function RawAt(sql: string, i: nat): (r: Raw)
    requires i < |sql|
    ensures r.Quoted? ==> r.tag != ""
  {
    NextRawReads(sql[..i], sql[i..]);
    NextRaw(sql[..i], sql[i..])
  }

  function After(sql: string, i: nat): (next: nat)
    requires i < |sql|
    ensures i < next <= |sql|
  {
    NextRawReads(sql[..i], sql[i..]);
    i + |RawText(RawAt(sql, i))|
  }

  lemma AheadFrom(sql: string, i: nat, text: string)
    requires i <= |sql| && text <= sql[i..]
    ensures i + |text| <= |sql| && Tokenize(sql[..i] + text, sql[i..][|text|..]) == Ahead(sql, i + |text|)
  {
    Cut(sql, i, text);
  }

  lemma TurnTo(sql: string, i: nat, r: Raw, n: nat)
    requires i < |sql| && r == NextRaw(sql[..i], sql[i..]) && n == i + |RawText(r)|
    ensures n <= |sql| && (r.Quoted? ==> r.tag != "") && Ahead(sql, i) == [Scanned(r)] + Ahead(sql, n)
  {
    hide Tokenize, NextRaw;
    TokenizeStep(sql[..i], sql[i..]);
    AheadFrom(sql, i, RawText(r));
  }

  /** One turn of the scanner takes one token. */
  lemma Turn(sql: string, i: nat)
    requires i < |sql|
    ensures Ahead(sql, i) == [Scanned(RawAt(sql, i))] + Ahead(sql, After(sql, i))
  {
    TurnTo(sql, i, RawAt(sql, i), After(sql, i));
  }

  /** What one flat token starting at `i` emits, and where the scan goes on. */
  ghost predicate Emits(sql: string, i: nat, next: nat, text: string)
    requires i < |sql|
  {
    var r := RawAt(sql, i);
    r.Flat? && !r.t.Semi? && !r.t.Dollar? && next == After(sql, i) && text == VisibleOf(r.t)
  }

  method ReadComment(sql: string, i: nat) returns (next: nat)
    requires i < |sql|
    requires (sql[i] == '-' && StartsWith(sql[i + 1..], '-')) || (sql[i] == '/' && StartsWith(sql[i + 1..], '*'))
    ensures Emits(sql, i, next, " ")
  {
    assert sql[i..][1..] == sql[i + 1..] && sql[i..][2..] == sql[i + 2..];
    if sql[i] == '-' {
      next := i + 2 + |Line(sql[i + 2..])|;
    } else {
      next := SkipComment(sql, i + 2);
    }
  }

  lemma QuotedHead(before: string, s: string, tail: string)
    requires s != "" && tail == s[1..] && (s[0] == '\'' || s[0] == '"')
    ensures var r, escapes := NextRaw(before, s), s[0] == '\'' && AfterE(before);
      var n := |PiecesText(Body(tail, s[0], escapes).0)|;
      && r.Flat? && (if s[0] == '"' then r.t.QuotedId? else r.t.Str? && r.t.escapes == escapes)
      && |RawText(r)| == if n < |tail| then n + 2 else |s|
  {
    var escapes := s[0] == '\'' && AfterE(before);
    ClosedShort(tail, s[0], escapes);
  }

  lemma QuotedTurn(sql: string, i: nat, next: nat)
    requires i < |sql| && (sql[i] == '\'' || sql[i] == '"')
    requires var end := BodyEnd(sql, i + 1, sql[i], sql[i] == '\'' && AfterE(sql[..i]));
      next == if end < |sql| then end + 1 else |sql|
    ensures next == After(sql, i)
    ensures var r := RawAt(sql, i);
      r.Flat? && if sql[i] == '"' then r.t.QuotedId? else r.t.Str? && r.t.escapes == AfterE(sql[..i])
  {
    var before, s, tail := sql[..i], sql[i..], sql[i + 1..];
    assert s[1..] == tail;
    QuotedHead(before, s, tail);
  }

  lemma TextAt(sql: string, i: nat)
    requires i < |sql|
    ensures sql[i..After(sql, i)] == RawText(RawAt(sql, i))
  {
    NextRawReads(sql[..i], sql[i..]);
    CutHead(sql, i, RawText(RawAt(sql, i)));
  }

  method ReadQuoted(sql: string, i: nat) returns (next: nat, text: string)
    requires i < |sql| && (sql[i] == '\'' || sql[i] == '"')
    ensures Emits(sql, i, next, text)
  {
    var backslash := sql[i] == '\'' && AfterE(sql[..i]);
    var j := SkipQuoted(sql, i + 1, sql[i], backslash);
    next := if j < |sql| then j + 1 else |sql|;
    QuotedTurn(sql, i, next);
    TextAt(sql, i);
    if sql[i] == '"' {
      text := sql[i..next];
    } else {
      ghost var t := RawAt(sql, i).t;
      InQuotes(sql[i..next], '\'', PiecesText(t.pieces), t.closed, '\\');
      text := if !backslash && '\\' in sql[i..next] then "'\\'" else "''";
    }
  }

  lemma InQuotes(s: string, quote: char, inner: string, closed: bool, c: char)
    requires s == [quote] + inner + (if closed then [quote] else "") && c != quote
    ensures c in s <==> c in inner
  {
  }

  /** One token of the scan that is neither a semicolon nor a dollar quote. */
  method ReadFlat(sql: string, i: nat) returns (next: nat, text: string)
    requires i < |sql| && sql[i] != ';'
    requires !(sql[i] == '$' && !AfterWord(sql[..i]) && TagAt(sql[i..]).Some?)
    ensures Emits(sql, i, next, text)
  {
    var c, rest := sql[i], sql[i + 1..];
    if (c == '-' && StartsWith(rest, '-')) || (c == '/' && StartsWith(rest, '*')) {
      next := ReadComment(sql, i);
      text := " ";
    } else if c == '\'' || c == '"' {
      next, text := ReadQuoted(sql, i);
    } else {
      assert sql[i..][1..] == rest;
      next, text := i + 1, [c];
    }
  }

  /** What has been emitted and what is to come, against the whole. */
  ghost predicate Between(ts: seq<Token>, code: string, all: seq<string>, stmt: string, sql: string) {
    && code + Code(ts) == CodeText(sql)
    && all + StmtsFrom(stmt, ts) == Statements(sql)
  }

  lemma FirstOf(t: Token, ts: seq<Token>, stmt: string)
    ensures Code([t] + ts) == CodeOf(t) + Code(ts)
    ensures StmtsFrom(stmt, [t] + ts) ==
      if t.Semi? then [stmt] + StmtsFrom("", ts) else StmtsFrom(stmt + VisibleOf(t), ts)
  {
    assert ([t] + ts)[1..] == ts;
  }

  lemma Pass(t: Token, ts: seq<Token>, code: string, all: seq<string>, stmt: string, sql: string)
    requires Between([t] + ts, code, all, stmt, sql)
    ensures if t.Semi? then Between(ts, code + CodeOf(t), all + [stmt], "", sql)
      else Between(ts, code + CodeOf(t), all, stmt + VisibleOf(t), sql)
  {
    FirstOf(t, ts, stmt);
    assert code + (CodeOf(t) + Code(ts)) == code + CodeOf(t) + Code(ts);
    if t.Semi? { assert all + ([stmt] + StmtsFrom("", ts)) == all + [stmt] + StmtsFrom("", ts); }
  }

  lemma Start(sql: string)
    ensures Between(Ahead(sql, 0), "", [], "", sql)
  {
    assert sql[..0] == "" && sql[0..] == sql;
  }

  lemma Finish(sql: string, code: string, all: seq<string>, stmt: string)
    requires Between(Ahead(sql, |sql|), code, all, stmt, sql)
    ensures code == CodeText(sql) && all + [stmt] == Statements(sql)
  {
    assert sql[|sql|..] == "";
  }

  lemma DollarHead(before: string, s: string, tag: string, body: string)
    requires s != "" && s[0] == '$' && !AfterWord(before) && TagAt(s) == Some(tag)
    requires tag <= s && body == s[|tag|..]
    ensures var end := FindTag(body, tag);
      NextRaw(before, s) == Quoted(tag, body[..end], end < |body|)
  {
  }

  lemma DollarTurn(sql: string, i: nat, tag: string, body: string, end: nat)
    requires i < |sql| && sql[i] == '$' && !AfterWord(sql[..i]) && TagAt(sql[i..]) == Some(tag)
    requires tag <= sql[i..] && body == sql[i + |tag|..] && end == FindTag(body, tag)
    ensures RawAt(sql, i) == Quoted(tag, body[..end], end < |body|)
    ensures end + (if end < |body| then |tag| else 0) <= |body|
    ensures After(sql, i) == if end < |body| then i + |tag| + end + |tag| else |sql|
  {
    var s := sql[i..];
    assert s[|tag|..] == body;
    DollarHead(sql[..i], s, tag, body);
    QuotedIsPrefix(s, tag);
    assert |RawText(Quoted(tag, body[..end], end < |body|))| == |tag| + end + if end < |body| then |tag| else 0;
  }

  /** A dollar quote: its body is scanned on its own. */
  method ReadDollar(sql: string, i: nat) returns (next: nat, inner: string)
    requires i < |sql| && sql[i] == '$' && !AfterWord(sql[..i]) && TagAt(sql[i..]).Some?
    ensures next == After(sql, i) && RawAt(sql, i).Quoted? && inner == CodeText(RawAt(sql, i).body)
    decreases |sql|, 0
  {
    var tag := TagAt(sql[i..]).value;
    TagAtIsTag(sql[i..]);
    var body := sql[i + |tag|..];
    var end := FindTag(body, tag);
    DollarTurn(sql, i, tag, body, end);
    var code, _ := ScanSql(body[..end]);
    inner := code;
    next := if end == |body| then |sql| else i + |tag| + end + |tag|;
  }

  lemma SemiAt(sql: string, i: nat)
    requires i < |sql| && sql[i] == ';'
    ensures Scanned(RawAt(sql, i)) == Semi && After(sql, i) == i + 1
  {
  }

  lemma PassSemi(sql: string, i: nat, code: string, all: seq<string>, stmt: string)
    requires i < |sql| && sql[i] == ';' && Between(Ahead(sql, i), code, all, stmt, sql)
    ensures Between(Ahead(sql, i + 1), code + ";", all + [stmt], "", sql)
  {
    hide Tokenize, NextRaw;
    SemiAt(sql, i);
    Turn(sql, i);
    Pass(Semi, Ahead(sql, i + 1), code, all, stmt, sql);
  }

  lemma PassFlat(sql: string, i: nat, next: nat, text: string, code: string, all: seq<string>, stmt: string)
    requires i < |sql| && Emits(sql, i, next, text) && Between(Ahead(sql, i), code, all, stmt, sql)
    ensures i < next <= |sql| && Between(Ahead(sql, next), code + text, all, stmt + text, sql)
  {
    Turn(sql, i);
    Pass(RawAt(sql, i).t, Ahead(sql, next), code, all, stmt, sql);
  }

  lemma PassDollar(sql: string, i: nat, next: nat, inner: string, code: string, all: seq<string>, stmt: string)
    requires i < |sql| && Between(Ahead(sql, i), code, all, stmt, sql)
    requires next == After(sql, i) && RawAt(sql, i).Quoted? && inner == CodeText(RawAt(sql, i).body)
    ensures i < next <= |sql| && Between(Ahead(sql, next), code + (" " + inner + " "), all, stmt + " ", sql)
  {
    Turn(sql, i);
    Pass(Scanned(RawAt(sql, i)), Ahead(sql, next), code, all, stmt, sql);
  }

  /** The scanner: its two results are the images of the one reading of the text. */
  method ScanSql(sql: string) returns (code: string, statements: seq<string>)
    ensures code == CodeText(sql)
    ensures statements == Kept(Statements(sql))
    decreases |sql|, 1
  {
    code := "";
    var stmt, all := "", [];
    var i := 0;
    Start(sql);
    while i < |sql|
      invariant i <= |sql| && Between(Ahead(sql, i), code, all, stmt, sql)
      decreases |sql| - i
    {
      if sql[i] == '$' && !AfterWord(sql[..i]) && TagAt(sql[i..]).Some? {
        var next, inner := ReadDollar(sql, i);
        PassDollar(sql, i, next, inner, code, all, stmt);
        code, stmt, i := code + (" " + inner + " "), stmt + " ", next;
      } else if sql[i] == ';' {
        PassSemi(sql, i, code, all, stmt);
        code, all, stmt, i := code + ";", all + [stmt], "", i + 1;
      } else {
        var next, text := ReadFlat(sql, i);
        PassFlat(sql, i, next, text, code, all, stmt);
        code, stmt, i := code + text, stmt + text, next;
      }
    }
    Finish(sql, code, all, stmt);
    statements := Kept(all + [stmt]);
  }
}
