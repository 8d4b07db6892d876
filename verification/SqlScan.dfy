// The scanner of packages/db/src/fixes.ts as a function from text to tokens, proved to find the one reading of
// every text that the grammar allows.
module SqlScan {
  import opened Basics
  import opened SqlGrammar

  /** A token as the scanner meets it: the body of a dollar quote is still text. */
  datatype Raw = Flat(t: Token) | Quoted(tag: string, body: string, closed: bool)

  function RawText(r: Raw): string {
    match r
    case Flat(t) => TokenText(t)
    case Quoted(tag, body, closed) => tag + body + if closed then tag else ""
  }

  /** Up to the first line end. */
  function Line(s: string): string {
    if s == "" || IsEol(s[0]) then "" else [s[0]] + Line(s[1..])
  }

  /** The rest of a block comment, `depth` levels deep. */
  function Lexes(s: string, depth: nat): seq<Lex> {
    if depth == 0 || s == "" then []
    else if s[0] == '/' && StartsWith(s[1..], '*') then [Opens] + Lexes(s[2..], depth + 1)
    else if s[0] == '*' && StartsWith(s[1..], '/') then [Closes] + Lexes(s[2..], depth - 1)
    else [Other(s[0])] + Lexes(s[1..], depth)
  }

  /** The rest of a quoted form, and whether its closing quote was found. */
  function Body(s: string, quote: char, escapes: bool): (seq<Piece>, bool) {
    if s == "" then ([], false)
    else if escapes && s[0] == '\\' then
      if |s| == 1 then ([One('\\')], false)
      else var r := Body(s[2..], quote, escapes); ([Pair(s[0], s[1])] + r.0, r.1)
    else if s[0] == quote then
      if StartsWith(s[1..], quote) then
        var r := Body(s[2..], quote, escapes); ([Pair(s[0], s[1])] + r.0, r.1)
      else ([], true)
    else var r := Body(s[1..], quote, escapes); ([One(s[0])] + r.0, r.1)
  }

  function TagChars(s: string): (n: nat)
    ensures n <= |s|
  {
    if s == "" || !IsTagChar(s[0]) then 0 else 1 + TagChars(s[1..])
  }

  /** The delimiter the text starts with, if it starts with one. */
  function TagAt(s: string): (tag: Option<string>)
    ensures tag.Some? ==> 2 <= |tag.value| <= |s|
  {
    if !StartsWith(s, '$') then None
    else
      var n := TagChars(s[1..]);
      if 1 + n < |s| && s[1 + n] == '$' && (n == 0 || IsTagStart(s[1])) then Some(s[..n + 2]) else None
  }

  /** Where a copy of the tag first stands; |s| when there is none. */
  function FindTag(s: string, tag: string): (i: nat)
    ensures i <= |s|
  {
    if s == "" || OccursAt(s, tag, 0) then 0 else 1 + FindTag(s[1..], tag)
  }

  function NextRaw(before: string, s: string): Raw
    requires s != ""
  {
    var c := s[0];
    if c == '-' && StartsWith(s[1..], '-') then Flat(LineComment(Line(s[2..])))
    else if c == '/' && StartsWith(s[1..], '*') then Flat(BlockComment(Lexes(s[2..], 1)))
    else if c == '\'' then
      var r := Body(s[1..], c, AfterE(before)); Flat(Str(AfterE(before), r.0, r.1))
    else if c == '"' then
      var r := Body(s[1..], c, false); Flat(QuotedId(r.0, r.1))
    else if c == ';' then Flat(Semi)
    else if c == '$' && !AfterWord(before) && TagAt(s).Some? then
      var tag := TagAt(s).value;
      var rest := s[|tag|..];
      var end := FindTag(rest, tag);
      Quoted(tag, rest[..end], end < |rest|)
    else Flat(Plain(c))
  }

  // ---------- Each form takes a prefix of the text ----------

  lemma {:induction false} LineReads(s: string)
    ensures Line(s) <= s
    ensures forall i :: 0 <= i < |Line(s)| ==> !IsEol(Line(s)[i])
    ensures |Line(s)| == |s| || IsEol(s[|Line(s)|])
  {
    if s != "" && !IsEol(s[0]) { LineReads(s[1..]); }
  }

  lemma {:induction false} LexesRead(s: string, depth: nat)
    ensures LexesText(Lexes(s, depth)) <= s
    ensures CommentFrom(Lexes(s, depth), depth, s[|LexesText(Lexes(s, depth))|..])
    decreases |s|
  {
    var xs := Lexes(s, depth);
    if depth == 0 || s == "" {
    } else if s[0] == '/' && StartsWith(s[1..], '*') {
      LexesRead(s[2..], depth + 1);
      LexesStep(s, Opens, Lexes(s[2..], depth + 1));
    } else if s[0] == '*' && StartsWith(s[1..], '/') {
      LexesRead(s[2..], depth - 1);
      LexesStep(s, Closes, Lexes(s[2..], depth - 1));
    } else {
      LexesRead(s[1..], depth);
      LexesStep(s, Other(s[0]), Lexes(s[1..], depth));
    }
  }

  lemma LexesStep(s: string, x: Lex, xs: seq<Lex>)
    requires LexText(x) <= s && LexesText(xs) <= s[|LexText(x)|..]
    ensures var all := LexesText([x] + xs);
      && all == LexText(x) + LexesText(xs) && all <= s
      && s[|all|..] == s[|LexText(x)|..][|LexesText(xs)|..]
      && LexesText(xs) + s[|all|..] == s[|LexText(x)|..]
  {
    assert ([x] + xs)[1..] == xs;
  }

  /** What is known of a quoted body read from `s`. */
  predicate BodyRead(s: string, ps: seq<Piece>, closed: bool, quote: char, escapes: bool) {
    && PiecesText(ps) <= s
    && (closed ==> |PiecesText(ps)| < |s| && s[|PiecesText(ps)|] == quote)
    && BodyOk(ps, quote, escapes, closed, s[|PiecesText(ps)| + (if closed then 1 else 0)..])
  }

  lemma {:induction false} BodyReads(s: string, quote: char, escapes: bool)
    ensures BodyRead(s, Body(s, quote, escapes).0, Body(s, quote, escapes).1, quote, escapes)
    decreases |s|
  {
    if s == "" {
    } else if escapes && s[0] == '\\' && |s| == 1 {
      assert PiecesText([One('\\')]) == "\\";
    } else if (escapes && s[0] == '\\') || (s[0] == quote && StartsWith(s[1..], quote)) {
      BodyReads(s[2..], quote, escapes);
      var r := Body(s[2..], quote, escapes);
      PieceRead(s, Pair(s[0], s[1]), r.0, r.1, quote, escapes);
    } else if s[0] != quote {
      BodyReads(s[1..], quote, escapes);
      var r := Body(s[1..], quote, escapes);
      PieceRead(s, One(s[0]), r.0, r.1, quote, escapes);
    }
  }

  lemma PieceRead(s: string, p: Piece, ps: seq<Piece>, closed: bool, quote: char, escapes: bool)
    requires PieceText(p) <= s && PieceOk(p, quote, escapes)
    requires BodyRead(s[|PieceText(p)|..], ps, closed, quote, escapes)
    ensures BodyRead(s, [p] + ps, closed, quote, escapes)
  {
    assert ([p] + ps)[1..] == ps;
    var rest := s[|PieceText(p)|..];
    var k := |PiecesText(ps)| + if closed then 1 else 0;
    assert rest[k..] == s[|PieceText(p)| + k..];
  }

  lemma BodyIsPrefix(s: string, quote: char, escapes: bool)
    requires s != "" && s[0] == quote
    ensures var (ps, closed) := Body(s[1..], quote, escapes);
      [quote] + PiecesText(ps) + (if closed then [quote] else "") <= s
  {
    BodyReads(s[1..], quote, escapes);
  }

  lemma MarkedIsPrefix(s: string, mark: string, inner: string)
    requires mark <= s && inner <= s[|mark|..]
    ensures mark + inner <= s
  {
  }

  lemma {:induction false} TagCharsRun(s: string)
    ensures forall i :: 0 <= i < TagChars(s) ==> IsTagChar(s[i])
    ensures TagChars(s) < |s| ==> !IsTagChar(s[TagChars(s)])
  {
    if s != "" && IsTagChar(s[0]) { TagCharsRun(s[1..]); }
  }

  lemma TagAtIsTag(s: string)
    requires TagAt(s).Some?
    ensures IsTag(TagAt(s).value) && TagAt(s).value <= s
  {
    TagCharsRun(s[1..]);
    var tag := TagAt(s).value;
    forall i | 1 <= i < |tag| - 1 ensures IsTagChar(tag[i]) {
      assert tag[i] == s[1..][i - 1];
    }
  }

  lemma OccursLater(s: string, tag: string, i: nat)
    requires s != ""
    ensures OccursAt(s, tag, i + 1) <==> OccursAt(s[1..], tag, i)
  {
    if i + 1 + |tag| <= |s| { assert s[i + 1..i + 1 + |tag|] == s[1..][i..i + |tag|]; }
  }

  lemma {:induction false} FindTagFinds(s: string, tag: string)
    ensures FindTag(s, tag) < |s| ==> OccursAt(s, tag, FindTag(s, tag))
  {
    if s != "" && !OccursAt(s, tag, 0) {
      FindTagFinds(s[1..], tag);
      OccursLater(s, tag, FindTag(s[1..], tag));
    }
  }

  lemma {:induction false} FindTagIsNotLate(s: string, tag: string, k: nat)
    requires OccursAt(s, tag, k)
    ensures FindTag(s, tag) <= k
  {
    if s != "" && !OccursAt(s, tag, 0) {
      OccursLater(s, tag, k - 1);
      FindTagIsNotLate(s[1..], tag, k - 1);
    }
  }

  lemma ClosedIsPrefix(s: string, tag: string, end: nat)
    requires tag <= s && end <= |s[|tag|..]| && OccursAt(s[|tag|..], tag, end)
    ensures tag + s[|tag|..][..end] + tag <= s
  {
    var rest := s[|tag|..];
    assert rest == rest[..end] + rest[end..end + |tag|] + rest[end + |tag|..];
  }

  lemma QuotedIsPrefix(s: string, tag: string)
    requires tag <= s
    ensures var end := FindTag(s[|tag|..], tag);
      tag + s[|tag|..][..end] + (if end < |s[|tag|..]| then tag else "") <= s
  {
    var rest := s[|tag|..];
    var end := FindTag(rest, tag);
    if end < |rest| {
      FindTagFinds(rest, tag);
      ClosedIsPrefix(s, tag, end);
    }
  }

  lemma NextRawReads(before: string, s: string)
    requires s != ""
    ensures RawText(NextRaw(before, s)) != "" && RawText(NextRaw(before, s)) <= s
  {
    var r := NextRaw(before, s);
    match r
    case Quoted(tag, _, _) => TagAtIsTag(s); QuotedIsPrefix(s, tag);
    case Flat(LineComment(line)) =>
      LineReads(s[2..]);
      MarkedIsPrefix(s, "--", line);
    case Flat(BlockComment(lexes)) =>
      LexesRead(s[2..], 1);
      MarkedIsPrefix(s, "/*", LexesText(lexes));
    case Flat(Str(_, _, _)) => BodyIsPrefix(s, '\'', AfterE(before));
    case Flat(QuotedId(_, _)) => BodyIsPrefix(s, '"', false);
    case Flat(_) =>
  }

  function Tokenize(before: string, s: string): seq<Token>
    decreases |s|, 1
  {
    if s == "" then []
    else
      NextRawReads(before, s);
      var r := NextRaw(before, s);
      [Scanned(r)] + Tokenize(before + RawText(r), s[|RawText(r)|..])
  }

  /** The token a raw one becomes: a dollar body is scanned on its own, as if nothing stood before it. */
  function Scanned(r: Raw): Token
    requires r.Quoted? ==> r.tag != ""
    decreases |RawText(r)|, 0
  {
    match r
    case Flat(t) => t
    case Quoted(tag, body, closed) => Dollar(tag, Tokenize("", body), closed)
  }

  // ---------- What it finds is a reading ----------

  lemma TagIsUnique(tag: string, rest: string)
    requires IsTag(tag)
    ensures TagAt(tag + rest) == Some(tag)
  {
    var s := tag + rest;
    var n := TagChars(s[1..]);
    TagCharsRun(s[1..]);
    assert forall i :: 0 <= i < |tag| - 2 ==> s[1..][i] == tag[i + 1];
    assert s[1..][|tag| - 2] == '$';
    assert n == |tag| - 2;
    assert s[..n + 2] == tag;
  }

  lemma TagIsFound(s: string)
    requires StartsWith(s, '$')
    ensures TagAt(s).Some? <==> TagAhead(s[1..])
  {
    if TagAt(s).Some? {
      var tag := TagAt(s).value;
      TagAtIsTag(s);
      assert "$" + s[1..][..|tag| - 1] == tag;
    }
    if TagAhead(s[1..]) {
      var n: nat :| n <= |s[1..]| && IsTag("$" + s[1..][..n]);
      TagIsUnique("$" + s[1..][..n], s[1..][n..]);
      assert s == ("$" + s[1..][..n]) + s[1..][n..];
    }
  }

  lemma OccursInPrefix(s: string, tag: string, k: nat, n: nat)
    requires k + |tag| <= n <= |s|
    ensures OccursAt(s[..n], tag, k) <==> OccursAt(s, tag, k)
  {
    assert s[..n][k..k + |tag|] == s[k..k + |tag|];
  }

  lemma FindTagIsFirst(tag: string, body: string, closed: bool, rest: string)
    requires DollarOk(tag, body, closed, rest)
    ensures var s := body + ((if closed then tag else "") + rest);
      FindTag(s, tag) == |body| && (closed <==> |body| < |s|)
  {
    var s := body + ((if closed then tag else "") + rest);
    var i := FindTag(s, tag);
    FindTagFinds(s, tag);
    if closed {
      assert s[|body|..|body| + |tag|] == tag;
      FindTagIsNotLate(s, tag, |body|);
      if i < |body| {
        assert body + tag == s[..|body| + |tag|];
        OccursInPrefix(s, tag, i, |body| + |tag|);
      }
    } else {
      assert s == body;
    }
  }

  lemma FoundTagIsClosed(s: string, tag: string)
    requires IsTag(tag) && FindTag(s, tag) < |s|
    ensures var i := FindTag(s, tag); i + |tag| <= |s| && DollarOk(tag, s[..i], true, s[i + |tag|..])
  {
    var i := FindTag(s, tag);
    FindTagFinds(s, tag);
    assert s[..i] + tag == s[..i + |tag|];
    forall k | 0 <= k < i ensures !OccursAt(s[..i] + tag, tag, k) {
      if OccursAt(s[..i] + tag, tag, k) {
        OccursInPrefix(s, tag, k, i + |tag|);
        FindTagIsNotLate(s, tag, k);
      }
    }
  }

  lemma LostTagIsOpen(s: string, tag: string)
    requires IsTag(tag) && FindTag(s, tag) == |s|
    ensures DollarOk(tag, s, false, "")
  {
    forall k | 0 <= k <= |s| ensures !OccursAt(s, tag, k) {
      if OccursAt(s, tag, k) { FindTagIsNotLate(s, tag, k); }
    }
  }

  /** The text after a head made of an opening mark, a body and a closing mark. */
  lemma AfterParts(s: string, mark: string, inner: string, close: string)
    requires mark + inner + close <= s
    ensures mark <= s && inner <= s[|mark|..]
    ensures s[|mark + inner + close|..] == s[|mark|..][|inner| + |close|..]
    ensures s[|mark|..][|inner|..] == close + s[|mark + inner + close|..]
  {
  }

  lemma BodyTokenIsOk(s: string, quote: char, escapes: bool)
    requires s != "" && s[0] == quote
    ensures var (ps, closed) := Body(s[1..], quote, escapes);
      var text := [quote] + PiecesText(ps) + (if closed then [quote] else "");
      text <= s && BodyOk(ps, quote, escapes, closed, s[|text|..])
  {
    BodyIsPrefix(s, quote, escapes);
    BodyReads(s[1..], quote, escapes);
    var (ps, closed) := Body(s[1..], quote, escapes);
    AfterParts(s, [quote], PiecesText(ps), if closed then [quote] else "");
  }

  lemma QuotedIsOk(s: string, tag: string)
    requires IsTag(tag) && tag <= s
    ensures var rest := s[|tag|..];
      var end := FindTag(rest, tag);
      var text := tag + rest[..end] + (if end < |rest| then tag else "");
      text <= s && DollarOk(tag, rest[..end], end < |rest|, s[|text|..])
  {
    var rest := s[|tag|..];
    var end := FindTag(rest, tag);
    QuotedIsPrefix(s, tag);
    AfterParts(s, tag, rest[..end], if end < |rest| then tag else "");
    if end < |rest| {
      FoundTagIsClosed(rest, tag);
    } else {
      LostTagIsOpen(rest, tag);
      assert rest[..end] == rest;
    }
  }

  /** The tokens are a reading of this text. */
  ghost predicate Reads(before: string, s: string, ts: seq<Token>) {
    Text(ts) == s && Reading(before, ts)
  }

  /** The token may stand at the head of this text. */
  ghost predicate Heads(before: string, s: string, t: Token) {
    TokenText(t) <= s && TokenOk(before, t, s[|TokenText(t)|..])
  }

  lemma LineHeads(before: string, s: string)
    requires "--" <= s
    ensures Heads(before, s, LineComment(Line(s[2..])))
  {
    LineReads(s[2..]);
    MarkedIsPrefix(s, "--", Line(s[2..]));
  }

  lemma BlockHeads(before: string, s: string)
    requires "/*" <= s
    ensures Heads(before, s, BlockComment(Lexes(s[2..], 1)))
  {
    LexesRead(s[2..], 1);
    MarkedIsPrefix(s, "/*", LexesText(Lexes(s[2..], 1)));
    AfterParts(s, "/*", LexesText(Lexes(s[2..], 1)), "");
  }

  lemma StrHeads(before: string, s: string)
    requires StartsWith(s, '\'')
    ensures var r := Body(s[1..], '\'', AfterE(before)); Heads(before, s, Str(AfterE(before), r.0, r.1))
  {
    BodyTokenIsOk(s, '\'', AfterE(before));
  }

  lemma IdHeads(before: string, s: string)
    requires StartsWith(s, '"')
    ensures var r := Body(s[1..], '"', false); Heads(before, s, QuotedId(r.0, r.1))
  {
    BodyTokenIsOk(s, '"', false);
  }

  lemma QuotedHeads(before: string, s: string, tag: string, body: string, closed: bool, ts: seq<Token>)
    requires !AfterWord(before) && Reads("", body, ts)
    requires var text := tag + body + (if closed then tag else "");
      text <= s && DollarOk(tag, body, closed, s[|text|..])
    ensures Heads(before, s, Dollar(tag, ts, closed))
  {
  }

  lemma CharReads(before: string, s: string)
    requires s != ""
    requires var r := NextRaw(before, s); r == Flat(Semi) || r == Flat(Plain(s[0]))
    ensures Heads(before, s, NextRaw(before, s).t)
  {
    if s[0] == '$' { TagIsFound(s); }
  }

  /** The head of a text, given that its dollar body (if it has one) was read soundly. */
  lemma NextIsOk(before: string, s: string)
    requires s != ""
    requires var r := NextRaw(before, s); r.Quoted? ==> r.tag != "" && Reads("", r.body, Tokenize("", r.body))
    ensures var r := NextRaw(before, s);
      Heads(before, s, Scanned(r)) && TokenText(Scanned(r)) == RawText(r)
  {
    var r := NextRaw(before, s);
    match r
    case Quoted(tag, body, closed) =>
      TagAtIsTag(s);
      QuotedIsOk(s, tag);
      QuotedHeads(before, s, tag, body, closed, Tokenize("", body));
    case Flat(LineComment(line)) => LineHeads(before, s);
    case Flat(BlockComment(lexes)) => BlockHeads(before, s);
    case Flat(Str(_, _, _)) => StrHeads(before, s);
    case Flat(QuotedId(_, _)) => IdHeads(before, s);
    case Flat(_) => CharReads(before, s);
  }

  lemma ReadingGrows(before: string, s: string, t: Token, ts: seq<Token>)
    requires Heads(before, s, t) && Reads(before + TokenText(t), s[|TokenText(t)|..], ts)
    ensures Reads(before, s, [t] + ts)
  {
    assert ([t] + ts)[1..] == ts;
  }

  lemma TokenizeStep(before: string, s: string)
    requires s != ""
    ensures var r := NextRaw(before, s);
      && (r.Quoted? ==> r.tag != "")
      && RawText(r) != "" && RawText(r) <= s
      && Tokenize(before, s) == [Scanned(r)] + Tokenize(before + RawText(r), s[|RawText(r)|..])
  {
    NextRawReads(before, s);
  }

  /** Every text has a reading, and the scanner's tokens are one. */
  lemma {:induction false} TokenizeReads(before: string, s: string)
    ensures Reads(before, s, Tokenize(before, s))
    decreases |s|
  {
    if s != "" {
      TokenizeStep(before, s);
      var r := NextRaw(before, s);
      var text := RawText(r);
      if r.Quoted? { TokenizeReads("", r.body); }
      NextIsOk(before, s);
      TokenizeReads(before + text, s[|text|..]);
      ReadingGrows(before, s, Scanned(r), Tokenize(before + text, s[|text|..]));
    }
  }

  // ---------- And no other sequence of tokens is one ----------

  lemma {:induction false} LineIsUnique(line: string, rest: string)
    requires forall i :: 0 <= i < |line| ==> !IsEol(line[i])
    requires rest == "" || IsEol(rest[0])
    ensures Line(line + rest) == line
  {
    if line == "" {
      assert line + rest == rest;
    } else {
      assert (line + rest)[1..] == line[1..] + rest;
      LineIsUnique(line[1..], rest);
    }
  }

  /** The depth after a piece of a comment. */
  function DepthAfter(x: Lex, depth: nat): nat
    requires depth > 0
  {
    match x case Opens => depth + 1 case Closes => depth - 1 case Other(_) => depth
  }

  lemma LexesSkip(s: string, x: Lex, depth: nat)
    requires depth > 0 && LexText(x) <= s
    requires x.Other? ==>
      !(x.c == '/' && StartsWith(s[1..], '*')) && !(x.c == '*' && StartsWith(s[1..], '/'))
    ensures Lexes(s, depth) == [x] + Lexes(s[|LexText(x)|..], DepthAfter(x, depth))
  {
  }

  lemma {:induction false} LexesAreUnique(s: string, xs: seq<Lex>, depth: nat, rest: string)
    requires s == LexesText(xs) + rest && CommentFrom(xs, depth, rest)
    ensures Lexes(s, depth) == xs
    decreases xs
  {
    if xs == [] {
      assert s == rest;
    } else {
      var x, tail := xs[0], LexesText(xs[1..]) + rest;
      assert s == LexText(x) + tail;
      assert s[|LexText(x)|..] == tail;
      LexesSkip(s, x, depth);
      LexesAreUnique(tail, xs[1..], DepthAfter(x, depth), rest);
      assert [x] + xs[1..] == xs;
    }
  }

  lemma BodySkips(s: string, p: Piece, quote: char, escapes: bool)
    requires PieceText(p) <= s && PieceOk(p, quote, escapes) && quote != '\\'
    ensures var r := Body(s[|PieceText(p)|..], quote, escapes);
      Body(s, quote, escapes) == ([p] + r.0, r.1)
  {
  }

  lemma BodyEnds(quote: char, escapes: bool, close: string, rest: string)
    requires quote != '\\'
    requires if close == "" then rest == "" else close == [quote] && !StartsWith(rest, quote)
    ensures Body(close + rest, quote, escapes) == ([], close != "")
  {
    if close != "" { assert (close + rest)[1..] == rest; }
  }

  lemma {:induction false} BodyIsUnique(s: string, ps: seq<Piece>, quote: char, escapes: bool, close: string, rest: string)
    requires s == PiecesText(ps) + (close + rest) && quote != '\\'
    requires close == "" || close == [quote]
    requires BodyOk(ps, quote, escapes, close != "", rest)
    ensures Body(s, quote, escapes) == (ps, close != "")
    decreases ps
  {
    if ps == [] {
      assert s == close + rest;
      BodyEnds(quote, escapes, close, rest);
    } else if close == "" && rest == "" && escapes && ps == [One('\\')] {
      assert s == "\\";
    } else {
      assert PieceText(ps[0]) <= s;
      assert s[|PieceText(ps[0])|..] == PiecesText(ps[1..]) + (close + rest);
      BodyIsUnique(s[|PieceText(ps[0])|..], ps[1..], quote, escapes, close, rest);
      BodySkips(s, ps[0], quote, escapes);
      assert [ps[0]] + ps[1..] == ps;
    }
  }

  lemma TailOf(c: char, a: string, b: string, d: string)
    ensures ([c] + a + b + d)[0] == c && ([c] + a + b + d)[1..] == a + (b + d)
  {
  }

  lemma QuoteHeads(quote: char, ps: seq<Piece>, escapes: bool, closed: bool, rest: string)
    requires quote == '\'' || quote == '"'
    requires BodyOk(ps, quote, escapes, closed, rest)
    ensures var s := [quote] + PiecesText(ps) + (if closed then [quote] else "") + rest;
      s[0] == quote && Body(s[1..], quote, escapes) == (ps, closed)
  {
    var close := if closed then [quote] else "";
    var s := [quote] + PiecesText(ps) + close + rest;
    TailOf(quote, PiecesText(ps), close, rest);
    BodyIsUnique(s[1..], ps, quote, escapes, close, rest);
  }

  lemma DollarHeads(before: string, tag: string, body: string, closed: bool, rest: string)
    requires !AfterWord(before) && DollarOk(tag, body, closed, rest)
    ensures NextRaw(before, tag + body + (if closed then tag else "") + rest) == Quoted(tag, body, closed)
  {
    var close := if closed then tag else "";
    FindTagIsFirst(tag, body, closed, rest);
    TagIsUnique(tag, body + (close + rest));
    DollarParts(before, tag + body + close + rest, tag, body, close + rest);
  }

  lemma DollarParts(before: string, s: string, tag: string, body: string, after: string)
    requires !AfterWord(before) && TagAt(tag + (body + after)) == Some(tag) && s == tag + body + after
    requires FindTag(body + after, tag) == |body|
    ensures NextRaw(before, s) == Quoted(tag, body, after != "")
  {
    assert s == tag + (body + after);
    assert s[|tag|..] == body + after;
    assert (body + after)[..|body|] == body;
  }

  lemma MarkHeads(before: string, t: Token, rest: string)
    requires (t.LineComment? || t.BlockComment?) && TokenOk(before, t, rest)
    ensures NextRaw(before, TokenText(t) + rest) == Flat(t)
  {
    var s := TokenText(t) + rest;
    match t
    case LineComment(line) => LineIsUnique(line, rest); assert s[2..] == line + rest;
    case BlockComment(lexes) => assert s[2..] == LexesText(lexes) + rest; LexesAreUnique(s[2..], lexes, 1, rest);
  }

  lemma CharHeads(before: string, t: Token, rest: string)
    requires (t.Semi? || t.Plain?) && TokenOk(before, t, rest)
    ensures NextRaw(before, TokenText(t) + rest) == Flat(t)
  {
    var s := TokenText(t) + rest;
    assert s[1..] == rest;
    if t.Plain? && t.c == '$' { TagIsFound(s); }
  }

  /** Any token that may stand here is the one the scanner reads here. */
  lemma NextIsUnique(before: string, t: Token, rest: string)
    requires TokenOk(before, t, rest)
    requires t.Dollar? ==> Tokenize("", Text(t.body)) == t.body
    ensures TokenText(t) + rest != ""
    ensures var r := NextRaw(before, TokenText(t) + rest);
      RawText(r) == TokenText(t) && (r.Quoted? ==> r.tag != "") && Scanned(r) == t
  {
    match t
    case LineComment(_) => MarkHeads(before, t, rest);
    case BlockComment(_) => MarkHeads(before, t, rest);
    case Str(escapes, pieces, closed) => QuoteHeads('\'', pieces, escapes, closed, rest);
    case QuotedId(pieces, closed) => QuoteHeads('"', pieces, false, closed, rest);
    case Dollar(tag, body, closed) => DollarHeads(before, tag, Text(body), closed, rest);
    case _ => CharHeads(before, t, rest);
  }

  /** A text has only one reading. */
  lemma {:induction false} ReadingIsUnique(before: string, ts: seq<Token>)
    requires Reading(before, ts)
    ensures Tokenize(before, Text(ts)) == ts
    decreases ts
  {
    if ts != [] {
      var t, rest := ts[0], Text(ts[1..]);
      if t.Dollar? { ReadingIsUnique("", t.body); }
      NextIsUnique(before, t, rest);
      ReadingIsUnique(before + TokenText(t), ts[1..]);
      assert Text(ts)[|TokenText(t)|..] == rest;
      assert [t] + ts[1..] == ts;
    }
  }
}
