// The token grammar behind the fix linter's scanner (packages/db/src/fixes.ts): what a SQL text is made of,
// said without saying how to find it.
module SqlGrammar {
  import opened Basics

  predicate IsLetter(c: char) { 'a' <= c <= 'z' || 'A' <= c <= 'Z' }

  predicate IsAscii(c: char) { c < '\U{0080}' }

  /** JavaScript's \w. */
  predicate IsAsciiWord(c: char) { IsLetter(c) || IsDigit(c) || c == '_' }

  /** A Postgres identifier character, `$` and every non-ASCII character included. */
  predicate IsWordChar(c: char) { IsAsciiWord(c) || c == '$' || !IsAscii(c) }

  predicate IsTagStart(c: char) { IsLetter(c) || c == '_' || !IsAscii(c) }

  predicate IsTagChar(c: char) { IsAsciiWord(c) || !IsAscii(c) }

  predicate IsEol(c: char) { c == '\n' || c == '\r' }

  /** A dollar-quote delimiter: `$$`, or `$tag$` with an identifier that holds no `$`. */
  predicate IsTag(tag: string) {
    && |tag| >= 2 && tag[0] == '$' && tag[|tag| - 1] == '$'
    && (|tag| > 2 ==> IsTagStart(tag[1]))
    && forall i :: 1 <= i < |tag| - 1 ==> IsTagChar(tag[i])
  }

  /** The pieces of a block comment after its opening mark. */
  datatype Lex = Opens | Closes | Other(c: char)

  /** The pieces of a quoted body: a single character, or a pair that escapes one. */
  datatype Piece = One(c: char) | Pair(a: char, b: char)

  datatype Token =
    | LineComment(line: string)
    | BlockComment(lexes: seq<Lex>)
    | Str(escapes: bool, pieces: seq<Piece>, closed: bool)
    | QuotedId(pieces: seq<Piece>, closed: bool)
    | Dollar(tag: string, body: seq<Token>, closed: bool)
    | Semi
    | Plain(c: char)

  // ---------- The text of each form ----------

  function LexText(x: Lex): string {
    match x case Opens => "/*" case Closes => "*/" case Other(c) => [c]
  }

  function LexesText(xs: seq<Lex>): string {
    if xs == [] then "" else LexText(xs[0]) + LexesText(xs[1..])
  }

  function PieceText(p: Piece): string {
    match p case One(c) => [c] case Pair(a, b) => [a, b]
  }

  function PiecesText(ps: seq<Piece>): string {
    if ps == [] then "" else PieceText(ps[0]) + PiecesText(ps[1..])
  }

  function TokenText(t: Token): (s: string)
    ensures s != "" || (t.Dollar? && t.tag == "")
    decreases t, 0
  {
    match t
    case LineComment(line) => "--" + line
    case BlockComment(lexes) => "/*" + LexesText(lexes)
    case Str(_, pieces, closed) => "'" + PiecesText(pieces) + if closed then "'" else ""
    case QuotedId(pieces, closed) => "\"" + PiecesText(pieces) + if closed then "\"" else ""
    case Dollar(tag, body, closed) => tag + Text(body) + if closed then tag else ""
    case Semi => ";"
    case Plain(c) => [c]
  }

  function Text(ts: seq<Token>): string
    decreases ts, 1
  {
    if ts == [] then "" else TokenText(ts[0]) + Text(ts[1..])
  }

  // ---------- Which sequences of tokens are a reading of their text ----------

  predicate StartsWith(s: string, c: char) { s != "" && s[0] == c }

  /** A `$` here would be part of the identifier before it. */
  predicate AfterWord(before: string) { before != "" && IsWordChar(before[|before| - 1]) }

  /** An `e` that is not the end of a longer name makes the next string an E'...' one. */
  predicate AfterE(before: string) {
    && before != "" && (before[|before| - 1] == 'e' || before[|before| - 1] == 'E')
    && (|before| >= 2 ==> !IsWordChar(before[|before| - 2]))
  }

  /** Comment pieces from nesting depth `depth` on: they close it exactly at their end, or the text ends first.
      No lone character spells a mark together with what follows it. */
  predicate CommentFrom(xs: seq<Lex>, depth: nat, rest: string) {
    if depth == 0 then xs == []
    else if xs == [] then rest == ""
    else
      match xs[0]
      case Opens => CommentFrom(xs[1..], depth + 1, rest)
      case Closes => CommentFrom(xs[1..], depth - 1, rest)
      case Other(c) =>
        var next := LexesText(xs[1..]) + rest;
        && !(c == '/' && StartsWith(next, '*')) && !(c == '*' && StartsWith(next, '/'))
        && CommentFrom(xs[1..], depth, rest)
  }

  predicate PieceOk(p: Piece, quote: char, escapes: bool) {
    match p
    case One(c) => c != quote && !(escapes && c == '\\')
    case Pair(a, b) => (escapes && a == '\\') || (a == quote && b == quote && !(escapes && a == '\\'))
  }

  /** A quoted body: closed by a quote that no other follows, or run out of text, perhaps on a lone backslash. */
  predicate BodyOk(ps: seq<Piece>, quote: char, escapes: bool, closed: bool, rest: string) {
    if ps == [] then if closed then !StartsWith(rest, quote) else rest == ""
    else if !closed && rest == "" && escapes && ps == [One('\\')] then true
    else PieceOk(ps[0], quote, escapes) && BodyOk(ps[1..], quote, escapes, closed, rest)
  }

  predicate OccursAt(s: string, sub: string, i: nat) {
    i + |sub| <= |s| && s[i..i + |sub|] == sub
  }

  /** The body of a dollar quote runs to the first copy of its own tag, whatever lies between. */
  predicate DollarOk(tag: string, body: string, closed: bool, rest: string) {
    && IsTag(tag)
    && (closed ==> forall i :: 0 <= i < |body| ==> !OccursAt(body + tag, tag, i))
    && (!closed ==> rest == "" && forall i :: 0 <= i <= |body| ==> !OccursAt(body, tag, i))
  }

  /** `$` starts a delimiter together with the text after it. */
  ghost predicate TagAhead(rest: string) {
    exists n: nat :: n <= |rest| && IsTag("$" + rest[..n])
  }

  ghost predicate TokenOk(before: string, t: Token, rest: string)
    decreases t, 0
  {
    match t
    case LineComment(line) =>
      && (forall i :: 0 <= i < |line| ==> !IsEol(line[i]))
      && (rest == "" || IsEol(rest[0]))
    case BlockComment(lexes) => CommentFrom(lexes, 1, rest)
    case Str(escapes, pieces, closed) => escapes == AfterE(before) && BodyOk(pieces, '\'', escapes, closed, rest)
    case QuotedId(pieces, closed) => BodyOk(pieces, '"', false, closed, rest)
    case Dollar(tag, body, closed) =>
      !AfterWord(before) && DollarOk(tag, Text(body), closed, rest) && Reading("", body)
    case Semi => true
    case Plain(c) =>
      && c != ';' && c != '\'' && c != '"'
      && !(c == '-' && StartsWith(rest, '-')) && !(c == '/' && StartsWith(rest, '*'))
      && !(c == '$' && !AfterWord(before) && TagAhead(rest))
  }

  /** The tokens are a reading of their own text, standing after `before`. */
  ghost predicate Reading(before: string, ts: seq<Token>)
    decreases ts, 1
  {
    ts == [] || (TokenOk(before, ts[0], Text(ts[1..])) && Reading(before + TokenText(ts[0]), ts[1..]))
  }
}
