// What the scanner cannot see: rewriting comments and plain strings in place changes neither the code nor the
// statements of a fix (packages/db/src/fixes.ts).
module SqlBlank {
  import opened Basics
  import opened SqlGrammar
  import opened SqlScan
  import opened SqlCode

  /** A string body with nothing to escape. */
  predicate PlainPiece(p: Piece) { p.One? && p.c != '\'' && p.c != '\\' }

  predicate PlainBody(ps: seq<Piece>) { forall i :: 0 <= i < |ps| ==> PlainPiece(ps[i]) }

  /** The comment's own text closes it, whatever follows. */
  predicate ClosesItself(lexes: seq<Lex>) { CommentFrom(lexes, 1, " ") }

  /** `u` may stand in for `t`: another comment ending at the same place, another plain string, a dollar body so
      rewritten that its delimiter still first returns at its end, or the same token. */
  ghost predicate Alike(t: Token, u: Token)
    decreases t, 0
  {
    match t
    case LineComment(_) => u.LineComment? && forall i :: 0 <= i < |u.line| ==> !IsEol(u.line[i])
    case BlockComment(a) =>
      u.BlockComment? && CommentFrom(u.lexes, 1, "") && (ClosesItself(a) ==> ClosesItself(u.lexes))
    case Str(e, a, c) =>
      u.Str? && u.escapes == e && u.closed == c && (u.pieces == a || (PlainBody(a) && PlainBody(u.pieces)))
    case Dollar(tag, a, c) =>
      u.Dollar? && u.tag == tag && u.closed == c && AllAlike(a, u.body) && DollarOk(tag, Text(u.body), c, "")
    case _ => u == t
  }

  ghost predicate AllAlike(ts: seq<Token>, us: seq<Token>)
    decreases ts, 1
  {
    |ts| == |us| && (ts != [] ==> Alike(ts[0], us[0]) && AllAlike(ts[1..], us[1..]))
  }

  // ---------- The images are the same ----------

  lemma {:induction false} PlainHasNoBackslash(ps: seq<Piece>)
    requires PlainBody(ps)
    ensures '\\' !in PiecesText(ps)
  {
    if ps != [] {
      PlainHasNoBackslash(ps[1..]);
      assert PlainPiece(ps[0]);
    }
  }

  lemma {:induction false} AlikeShowsAlike(t: Token, u: Token)
    requires Alike(t, u)
    ensures CodeOf(t) == CodeOf(u) && VisibleOf(t) == VisibleOf(u) && t.Semi? == u.Semi?
    decreases t, 0
  {
    match t
    case Str(_, a, _) =>
      if u.pieces != a {
        PlainHasNoBackslash(a);
        PlainHasNoBackslash(u.pieces);
      }
    case Dollar(_, a, _) => SameImages(a, u.body, "");
    case _ =>
  }

  lemma {:induction false} SameImages(ts: seq<Token>, us: seq<Token>, current: string)
    requires AllAlike(ts, us)
    ensures Code(ts) == Code(us) && StmtsFrom(current, ts) == StmtsFrom(current, us)
    decreases ts, 1
  {
    if ts != [] {
      AlikeShowsAlike(ts[0], us[0]);
      SameImages(ts[1..], us[1..], if ts[0].Semi? then "" else current + VisibleOf(ts[0]));
    }
  }

  // ---------- And the reading stands ----------

  /** The two texts put the same demands on what follows. */
  predicate SameContext(b: string, c: string) {
    AfterWord(b) == AfterWord(c) && AfterE(b) == AfterE(c)
  }

  lemma ContextGrows(b: string, c: string, x: string)
    requires SameContext(b, c) && x != ""
    ensures SameContext(b + x, c + x)
  {
    assert (b + x)[|b + x| - 1] == x[|x| - 1] == (c + x)[|c + x| - 1];
    if |x| >= 2 {
      assert (b + x)[|b + x| - 2] == x[|x| - 2] == (c + x)[|c + x| - 2];
    } else {
      assert b != "" ==> (b + x)[|b + x| - 2] == b[|b| - 1];
      assert c != "" ==> (c + x)[|c + x| - 2] == c[|c| - 1];
    }
  }

  /** A mark that is no name character settles the context alone, unless it is an `e`. */
  lemma ContextSet(b: string, c: string)
    requires b != "" && c != "" && b[|b| - 1] == c[|c| - 1]
    requires b[|b| - 1] != 'e' && b[|b| - 1] != 'E'
    ensures SameContext(b, c)
  {
  }

  lemma {:induction false} SettledComment(xs: seq<Lex>, depth: nat, rest: string, other: string)
    requires CommentFrom(xs, depth, rest) && rest != ""
    ensures CommentFrom(xs, depth, other)
  {
    if depth != 0 {
      match xs[0]
      case Opens => SettledComment(xs[1..], depth + 1, rest, other);
      case Closes => SettledComment(xs[1..], depth - 1, rest, other);
      case Other(c) =>
        SettledComment(xs[1..], depth, rest, other);
        assert xs[1..] != [];
        assert LexText(xs[1]) != "";
    }
  }

  lemma {:induction false} ClosedCommentEnds(xs: seq<Lex>, depth: nat, rest: string)
    requires CommentFrom(xs, depth, rest) && rest != "" && depth > 0
    ensures LexesText(xs) != "" && LexesText(xs)[|LexesText(xs)| - 1] == '/'
  {
    var tail := LexesText(xs[1..]);
    assert LexesText(xs) == LexText(xs[0]) + tail;
    if xs[0].Closes? && depth == 1 {
      assert xs[1..] == [];
      assert tail == "";
    } else {
      var d := match xs[0] case Opens => depth + 1 case Closes => depth - 1 case Other(_) => depth;
      ClosedCommentEnds(xs[1..], d, rest);
    }
  }

  lemma TextOfSome(before: string, ts: seq<Token>)
    requires ts != [] && Reading(before, ts)
    ensures TokenText(ts[0]) != "" && Text(ts) != "" && Text(ts)[0] == TokenText(ts[0])[0]
  {
  }

  lemma AlikeStartsAlike(before: string, t: Token, u: Token, rest: string)
    requires TokenOk(before, t, rest) && Alike(t, u)
    ensures TokenText(t) != "" && TokenText(u) != "" && TokenText(t)[0] == TokenText(u)[0]
  {
  }

  lemma SameHead(before: string, ts: seq<Token>, us: seq<Token>)
    requires Reading(before, ts) && AllAlike(ts, us)
    ensures (Text(ts) == "") == (Text(us) == "")
    ensures Text(ts) != "" ==> Text(ts)[0] == Text(us)[0]
    ensures Text(ts) == "" <==> ts == []
  {
    if ts != [] { AlikeStartsAlike(before, ts[0], us[0], Text(ts[1..])); }
  }

  /** After a name character, a delimiter's worth of text is spelled by plain tokens, which are the same in both. */
  lemma {:induction false} SameRun(before: string, ts: seq<Token>, us: seq<Token>, n: nat)
    requires Reading(before, ts) && AllAlike(ts, us) && AfterWord(before)
    requires n <= |Text(us)|
    requires forall i :: 0 <= i < n ==> IsWordChar(Text(us)[i])
    ensures n <= |Text(ts)| && Text(ts)[..n] == Text(us)[..n]
    decreases n
  {
    if n > 0 {
      var t, u := ts[0], us[0];
      AlikeStartsAlike(before, t, u, Text(ts[1..]));
      assert IsWordChar(Text(us)[0]);
      assert t.Plain? && u == t;
      var (x, y) := (Text(ts[1..]), Text(us[1..]));
      assert Text(us) == [t.c] + y && Text(ts) == [t.c] + x;
      forall i | 0 <= i < n - 1 ensures IsWordChar(y[i]) {
        assert y[i] == Text(us)[i + 1];
      }
      assert AfterWord(before + TokenText(t));
      SameRun(before + TokenText(t), ts[1..], us[1..], n - 1);
      assert Text(ts)[..n] == [t.c] + x[..n - 1];
      assert Text(us)[..n] == [t.c] + y[..n - 1];
    }
  }

  lemma TagIsRun(rest: string, n: nat)
    requires n <= |rest| && IsTag("$" + rest[..n])
    ensures forall i :: 0 <= i < n ==> IsWordChar(rest[i])
  {
    var tag := "$" + rest[..n];
    forall i | 0 <= i < n ensures IsWordChar(rest[i]) {
      assert rest[i] == tag[i + 1];
    }
  }

  lemma SameTagAhead(before: string, ts: seq<Token>, us: seq<Token>)
    requires Reading(before, ts) && AllAlike(ts, us) && AfterWord(before)
    requires TagAhead(Text(us))
    ensures TagAhead(Text(ts))
  {
    var n: nat :| n <= |Text(us)| && IsTag("$" + Text(us)[..n]);
    TagIsRun(Text(us), n);
    SameRun(before, ts, us, n);
    assert IsTag("$" + Text(ts)[..n]);
  }

  /** A line end needs nothing from the text before it. */
  predicate Resumes(b: string, c: string, ts: seq<Token>) {
    ts == [] || SameContext(b, c) || (ts[0].Plain? && IsEol(ts[0].c))
  }

  lemma StrStillOk(e: bool, a: seq<Piece>, d: seq<Piece>, closed: bool, rest: string, other: string)
    requires BodyOk(a, '\'', e, closed, rest)
    requires d == a || (PlainBody(a) && PlainBody(d))
    requires (rest == "") == (other == "") && (rest != "" ==> rest[0] == other[0])
    ensures BodyOk(d, '\'', e, closed, other)
  {
    if d == a {
      SettledBody(a, '\'', e, closed, rest, other);
    } else {
      PlainEnds(a, e, closed, rest);
      PlainBodyOk(d, e, closed, other);
    }
  }

  lemma BlockStillOk(a: seq<Lex>, d: seq<Lex>, rest: string, other: string)
    requires CommentFrom(a, 1, rest) && CommentFrom(d, 1, "") && (ClosesItself(a) ==> ClosesItself(d))
    requires (rest == "") == (other == "")
    ensures CommentFrom(d, 1, other)
  {
    if rest != "" {
      SettledComment(a, 1, rest, " ");
      SettledComment(d, 1, " ", other);
    }
  }

  lemma PlainStillOk(b: string, c: string, ch: char, ts: seq<Token>, us: seq<Token>)
    requires TokenOk(b, Plain(ch), Text(ts)) && Reading(b + [ch], ts) && AllAlike(ts, us)
    requires SameContext(b, c) || IsEol(ch)
    ensures TokenOk(c, Plain(ch), Text(us))
  {
    SameHead(b + [ch], ts, us);
    if ch == '$' && !AfterWord(c) && TagAhead(Text(us)) {
      assert AfterWord(b + [ch]);
      SameTagAhead(b + [ch], ts, us);
    }
  }

  lemma StillOk(b: string, c: string, t: Token, u: Token, ts: seq<Token>, us: seq<Token>)
    requires TokenOk(b, t, Text(ts)) && Reading(b + TokenText(t), ts)
    requires Alike(t, u) && AllAlike(ts, us)
    requires SameContext(b, c) || (t.Plain? && IsEol(t.c))
    requires u.Dollar? ==> Reading("", u.body)
    ensures TokenOk(c, u, Text(us))
  {
    var rest, other := Text(ts), Text(us);
    SameHead(b + TokenText(t), ts, us);
    match t
    case BlockComment(lexes) => BlockStillOk(lexes, u.lexes, rest, other);
    case Str(e, a, closed) => StrStillOk(e, a, u.pieces, closed, rest, other);
    case QuotedId(a, closed) => SettledBody(a, '"', false, closed, rest, other);
    case Plain(ch) => PlainStillOk(b, c, ch, ts, us);
    case _ =>
  }

  lemma {:induction false} SettledBody(ps: seq<Piece>, quote: char, escapes: bool, closed: bool, rest: string, other: string)
    requires BodyOk(ps, quote, escapes, closed, rest)
    requires (rest == "") == (other == "") && (rest != "" ==> rest[0] == other[0])
    ensures BodyOk(ps, quote, escapes, closed, other)
  {
    if ps != [] && !(!closed && rest == "" && escapes && ps == [One('\\')]) {
      SettledBody(ps[1..], quote, escapes, closed, rest, other);
    }
  }

  lemma {:induction false} PlainEnds(ps: seq<Piece>, escapes: bool, closed: bool, rest: string)
    requires PlainBody(ps) && BodyOk(ps, '\'', escapes, closed, rest)
    ensures if closed then !StartsWith(rest, '\'') else rest == ""
  {
    if ps != [] {
      assert PlainPiece(ps[0]);
      PlainEnds(ps[1..], escapes, closed, rest);
    }
  }

  lemma {:induction false} PlainBodyOk(ps: seq<Piece>, escapes: bool, closed: bool, rest: string)
    requires PlainBody(ps)
    requires if closed then !StartsWith(rest, '\'') else rest == ""
    ensures BodyOk(ps, '\'', escapes, closed, rest)
  {
    if ps != [] {
      assert PlainPiece(ps[0]);
      PlainBodyOk(ps[1..], escapes, closed, rest);
    }
  }

  /** A token that another follows closes; its last character settles the context after it. */
  ghost predicate Settles(t: Token, ch: char) {
    |TokenText(t)| > 0 && TokenText(t)[|TokenText(t)| - 1] == ch
  }

  lemma BlockSettles(lexes: seq<Lex>, rest: string)
    requires CommentFrom(lexes, 1, rest) && rest != ""
    ensures Settles(BlockComment(lexes), '/') && ClosesItself(lexes)
  {
    ClosedCommentEnds(lexes, 1, rest);
    SettledComment(lexes, 1, rest, " ");
  }

  lemma StrSettles(b: string, t: Token, rest: string)
    requires t.Str? && TokenOk(b, t, rest) && rest != ""
    ensures t.closed && Settles(t, '\'')
  {
    if !t.closed { UnclosedRunsOut(t.pieces, '\'', t.escapes, rest); }
  }

  lemma DollarSettles(t: Token, rest: string)
    requires t.Dollar? && t.closed && IsTag(t.tag)
    ensures Settles(t, '$')
  {
  }

  lemma SettledContext(b: string, c: string, t: Token, u: Token, ch: char)
    requires Settles(t, ch) && Settles(u, ch) && ch != 'e' && ch != 'E'
    ensures SameContext(b + TokenText(t), c + TokenText(u))
  {
    var x, y := TokenText(t), TokenText(u);
    assert (b + x)[|b + x| - 1] == x[|x| - 1];
    assert (c + y)[|c + y| - 1] == y[|y| - 1];
    ContextSet(b + x, c + y);
  }

  lemma ContextAfter(b: string, c: string, t: Token, u: Token, ts: seq<Token>)
    requires TokenOk(b, t, Text(ts)) && Reading(b + TokenText(t), ts) && Alike(t, u)
    requires SameContext(b, c) || (t.Plain? && IsEol(t.c))
    ensures Resumes(b + TokenText(t), c + TokenText(u), ts)
  {
    if ts != [] {
      var rest := Text(ts);
      TextOfSome(b + TokenText(t), ts);
      match t
      case LineComment(_) => assert ts[0].Plain?;
      case BlockComment(lexes) =>
        BlockSettles(lexes, rest);
        BlockSettles(u.lexes, " ");
        SettledContext(b, c, t, u, '/');
      case Str(_, _, _) =>
        StrSettles(b, t, rest);
        assert Settles(u, '\'');
        SettledContext(b, c, t, u, '\'');
      case Dollar(_, _, _) =>
        DollarSettles(t, rest);
        DollarSettles(u, rest);
        SettledContext(b, c, t, u, '$');
      case Plain(ch) => if IsEol(ch) { SettledContext(b, c, t, u, ch); } else { ContextGrows(b, c, TokenText(t)); }
      case _ => ContextGrows(b, c, TokenText(t));
    }
  }

  /** Alike tokens are a reading where the ones they stand in for were. */
  lemma {:induction false} StillReading(b: string, c: string, ts: seq<Token>, us: seq<Token>)
    requires Reading(b, ts) && AllAlike(ts, us) && Resumes(b, c, ts)
    ensures Reading(c, us)
    decreases ts
  {
    if ts != [] {
      var t, u := ts[0], us[0];
      if t.Dollar? { StillReading("", "", t.body, u.body); }
      StillOk(b, c, t, u, ts[1..], us[1..]);
      ContextAfter(b, c, t, u, ts[1..]);
      StillReading(b + TokenText(t), c + TokenText(u), ts[1..], us[1..]);
    }
  }

  /** Blanking is complete: rewrite the comments and plain strings of a text, at every dollar depth, and the scanner
      reads the rewritten tokens back and returns the same code and the same statements. */
  lemma BlankedTextIsUnseen(sql: string, us: seq<Token>)
    requires AllAlike(Tokenize("", sql), us)
    ensures Tokenize("", Text(us)) == us
    ensures CodeText(Text(us)) == CodeText(sql)
    ensures Statements(Text(us)) == Statements(sql)
  {
    var ts := Tokenize("", sql);
    TokenizeReads("", sql);
    StillReading("", "", ts, us);
    ReadingIsUnique("", us);
    SameImages(ts, us, "");
  }
}
