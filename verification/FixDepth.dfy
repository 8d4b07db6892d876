// What an accepted fix cannot hide: the linter reads one flat text, and still sees every dollar-quote depth.
module FixDepth {
  import opened Basics
  import opened SqlGrammar
  import opened SqlScan
  import opened SqlCode
  import opened SqlBlank
  import opened FixLint

  /** A reading and every dollar body inside it, at any depth. */
  function Levels(ts: seq<Token>): seq<seq<Token>>
    decreases ts, 1
  {
    [ts] + Bodies(ts)
  }

  function Bodies(ts: seq<Token>): seq<seq<Token>>
    decreases ts, 0
  {
    if ts == [] then []
    else (if ts[0].Dollar? then Levels(ts[0].body) else []) + Bodies(ts[1..])
  }

  // ---------- Whole words do not cross a blank ----------

  lemma StandsBefore(a: string, b: string, w: string, i: nat)
    requires AllWord(w) && i + |w| <= |a|
    ensures Stands(a, w, i) <==> Stands(a + " " + b, w, i)
  {
    var s := a + " " + b;
    assert s[i..i + |w|] == a[i..i + |w|];
  }

  lemma StandsAfter(a: string, b: string, w: string, i: nat)
    requires AllWord(w)
    ensures Stands(b, w, i) <==> Stands(a + " " + b, w, |a| + 1 + i)
  {
    var s := a + " " + b;
    if i + |w| <= |b| { assert s[|a| + 1 + i..|a| + 1 + i + |w|] == b[i..i + |w|]; }
  }

  lemma StandsAside(a: string, b: string, w: string, i: nat)
    requires AllWord(w) && Stands(a + " " + b, w, i)
    ensures i + |w| <= |a| || |a| < i
  {
    var s := a + " " + b;
    UpperWord(s[i..i + |w|], w);
    assert s[|a|] == ' ' && forall k :: i <= k < i + |w| ==> s[i..i + |w|][k - i] == s[k];
  }

  lemma BlankSplits(a: string, b: string, w: string)
    requires AllWord(w)
    ensures HasWord(a + " " + b, w) <==> HasWord(a, w) || HasWord(b, w)
  {
    if i: nat :| Stands(a + " " + b, w, i) {
      StandsAside(a, b, w, i);
      if i + |w| <= |a| { StandsBefore(a, b, w, i); } else { StandsAfter(a, b, w, i - |a| - 1); }
    }
    if i: nat :| Stands(a, w, i) { StandsBefore(a, b, w, i); }
    if i: nat :| Stands(b, w, i) { StandsAfter(a, b, w, i); }
  }

  /** A U& escape does not cross a blank either: none of its characters is one. */
  lemma BlankSplitsMarks(a: string, b: string)
    ensures HasUnicodeMark(a + " " + b) <==> HasUnicodeMark(a) || HasUnicodeMark(b)
  {
    var s := a + " " + b;
    if i :| 0 <= i < |s| && UnicodeMark(s, i) {
      if i + 3 <= |a| { assert UnicodeMark(a, i); } else { assert s[|a|] == ' ' && UnicodeMark(b, i - |a| - 1); }
    }
    if i :| 0 <= i < |a| && UnicodeMark(a, i) { assert UnicodeMark(s, i); }
    if i :| 0 <= i < |b| && UnicodeMark(b, i) { assert UnicodeMark(s, |a| + 1 + i); }
  }

  // ---------- One flat code, every level ----------

  /** Something a text can have on either side of a blank, never across it. */
  ghost predicate SplitsAt(has: string -> bool, a: string, b: string) { has(a + " " + b) <==> has(a) || has(b) }

  ghost predicate NeverAcrossBlanks(has: string -> bool) { forall a, b :: SplitsAt(has, a, b) }

  ghost predicate Shown(levels: seq<seq<Token>>, has: string -> bool) {
    exists k :: 0 <= k < |levels| && has(Visible(levels[k]))
  }

  lemma ShownInJoin(xs: seq<seq<Token>>, ys: seq<seq<Token>>, has: string -> bool)
    ensures Shown(xs + ys, has) <==> Shown(xs, has) || Shown(ys, has)
  {
    var zs := xs + ys;
    if Shown(xs, has) {
      var k :| 0 <= k < |xs| && has(Visible(xs[k]));
      assert zs[k] == xs[k];
    }
    if Shown(ys, has) {
      var k :| 0 <= k < |ys| && has(Visible(ys[k]));
      assert zs[|xs| + k] == ys[k];
    }
  }

  lemma Regroup(x: string, y: string, z: string)
    ensures x + (y + z) == x + y + z
  {
  }

  lemma RegroupBlanks(x: string, y: string, z: string)
    ensures x + (" " + y + " " + z) == x + " " + (y + " " + z)
  {
  }

  lemma FirstToken(ts: seq<Token>)
    requires ts != []
    ensures Code(ts) == CodeOf(ts[0]) + Code(ts[1..]) && Visible(ts) == VisibleOf(ts[0]) + Visible(ts[1..])
    ensures Bodies(ts) == if ts[0].Dollar? then Levels(ts[0].body) + Bodies(ts[1..]) else Bodies(ts[1..])
  {
  }

  /** The text `x` followed by the code of `ts`. */
  lemma {:induction false} CodeShows(x: string, ts: seq<Token>, has: string -> bool)
    requires NeverAcrossBlanks(has)
    ensures has(x + Code(ts)) <==> has(x + Visible(ts)) || Shown(Bodies(ts), has)
    decreases ts, 0
  {
    if ts == [] {
    } else if ts[0].Dollar? {
      var body, rest := ts[0].body, ts[1..];
      FirstToken(ts);
      RegroupBlanks(x, Code(body), Code(rest));
      Regroup(x, " ", Visible(rest));
      assert SplitsAt(has, x, Code(body) + " " + Code(rest)) && SplitsAt(has, Code(body), Code(rest));
      assert SplitsAt(has, x, Visible(rest));
      CodeShowsAlone(rest, has);
      CodeShowsEveryLevel(body, has);
      ShownInJoin(Levels(body), Bodies(rest), has);
    } else {
      FirstToken(ts);
      Regroup(x, VisibleOf(ts[0]), Code(ts[1..]));
      Regroup(x, VisibleOf(ts[0]), Visible(ts[1..]));
      CodeShows(x + VisibleOf(ts[0]), ts[1..], has);
    }
  }

  lemma {:induction false} CodeShowsAlone(ts: seq<Token>, has: string -> bool)
    requires NeverAcrossBlanks(has)
    ensures has(Code(ts)) <==> has(Visible(ts)) || Shown(Bodies(ts), has)
    decreases ts, 1
  {
    CodeShows("", ts, has);
    assert "" + Code(ts) == Code(ts) && "" + Visible(ts) == Visible(ts);
  }

  /** The flat code has it exactly when the visible text of some level has it. */
  lemma {:induction false} CodeShowsEveryLevel(ts: seq<Token>, has: string -> bool)
    requires NeverAcrossBlanks(has)
    ensures has(Code(ts)) <==> Shown(Levels(ts), has)
    decreases ts, 2
  {
    CodeShowsAlone(ts, has);
    ShownInJoin([ts], Bodies(ts), has);
    assert Shown([ts], has) <==> has(Visible(ts)) by {
      assert [ts][0] == ts;
    }
  }

  ghost predicate ShowsWord(levels: seq<seq<Token>>, w: string) {
    exists k :: 0 <= k < |levels| && HasWord(Visible(levels[k]), w)
  }

  /** A word stands in the flat code exactly when it stands in the visible text of some level. */
  lemma WordsAtEveryLevel(ts: seq<Token>, w: string)
    requires AllWord(w)
    ensures HasWord(Code(ts), w) <==> ShowsWord(Levels(ts), w)
  {
    ghost var has := (s: string) => HasWord(s, w);
    forall a, b ensures SplitsAt(has, a, b) { BlankSplits(a, b, w); }
    CodeShowsEveryLevel(ts, has);
    assert Shown(Levels(ts), has) <==> ShowsWord(Levels(ts), w);
  }

  ghost predicate ShowsChar(levels: seq<seq<Token>>, c: char) {
    exists k :: 0 <= k < |levels| && c in Visible(levels[k])
  }

  /** A character other than a blank is in the flat code exactly when some level shows it. */
  lemma CharsAtEveryLevel(ts: seq<Token>, c: char)
    requires c != ' '
    ensures c in Code(ts) <==> ShowsChar(Levels(ts), c)
  {
    var has := (s: string) => c in s;
    forall a, b ensures SplitsAt(has, a, b) { }
    CodeShowsEveryLevel(ts, has);
    assert Shown(Levels(ts), has) <==> ShowsChar(Levels(ts), c);
  }

  ghost predicate ShowsMark(levels: seq<seq<Token>>) {
    exists k :: 0 <= k < |levels| && HasUnicodeMark(Visible(levels[k]))
  }

  /** A U& escape opens in the flat code exactly when one opens in the visible text of some level. */
  lemma MarksAtEveryLevel(ts: seq<Token>)
    ensures HasUnicodeMark(Code(ts)) <==> ShowsMark(Levels(ts))
  {
    var has := (s: string) => HasUnicodeMark(s);
    forall a, b ensures SplitsAt(has, a, b) { BlankSplitsMarks(a, b); }
    CodeShowsEveryLevel(ts, has);
    assert Shown(Levels(ts), has) <==> ShowsMark(Levels(ts));
  }

  lemma {:induction false} TokenIsVisible(ts: seq<Token>, k: nat, c: char)
    requires k < |ts| && c in VisibleOf(ts[k])
    ensures c in Visible(ts)
  {
    if k > 0 { TokenIsVisible(ts[1..], k - 1, c); }
  }

  // ---------- The linter's promise ----------

  /** Outside comments and literals: no forbidden word and no trace of the record table, no stray dollar sign, no U&
      escape, and no backslash that another string setting could read as an escape. */
  ghost predicate CleanLevel(level: seq<Token>) {
    && (forall w :: w in FORBIDDEN_WORDS ==> !HasWord(Visible(level), w))
    && !HasWord(Visible(level), RECORD_TABLE) && !HasUnicodeMark(Visible(level))
    && Plain('$') !in level && Plain('\\') !in level
    && (forall k :: 0 <= k < |level| && level[k].Str? && !level[k].escapes ==> '\\' !in PiecesText(level[k].pieces))
  }

  /** No statement of the top level takes over the runner's transaction. */
  ghost predicate LeavesTransactionAlone(sql: string) {
    forall stmt :: stmt in Statements(sql) ==> Opening(stmt) !in TX_CONTROL_STARTS
  }

  lemma NotInCode(sql: string, p: Problem)
    requires Accepted(sql)
    ensures !CodeBroken(CodeText(sql), p)
  {
    assert !Broken(sql, p);
  }

  lemma NoWordFrom(sql: string, levels: seq<seq<Token>>, k: nat, w: string)
    requires Accepted(sql) && levels == Levels(Tokenize("", sql)) && k < |levels|
    requires w in FORBIDDEN_WORDS || w == RECORD_TABLE
    ensures !HasWord(Visible(levels[k]), w)
  {
    ForbiddenAreWords(w);
    WordsAtEveryLevel(Tokenize("", sql), w);
    NotInCode(sql, if w == RECORD_TABLE then TouchesRecord else Forbidden(w));
  }

  lemma NoCharFrom(sql: string, levels: seq<seq<Token>>, k: nat, j: nat, c: char)
    requires Accepted(sql) && levels == Levels(Tokenize("", sql)) && k < |levels| && j < |levels[k]|
    requires c == '$' || c == '\\'
    ensures c !in VisibleOf(levels[k][j])
  {
    CharsAtEveryLevel(Tokenize("", sql), c);
    NotInCode(sql, if c == '$' then StrayDollar else StrayBackslash);
    if c in VisibleOf(levels[k][j]) { TokenIsVisible(levels[k], j, c); }
  }

  lemma NotShown(levels: seq<seq<Token>>, k: nat)
    requires !ShowsMark(levels) && k < |levels|
    ensures !HasUnicodeMark(Visible(levels[k]))
  {
  }

  lemma NoMarkFrom(sql: string, levels: seq<seq<Token>>, k: nat)
    requires Accepted(sql) && levels == Levels(Tokenize("", sql)) && k < |levels|
    ensures !HasUnicodeMark(Visible(levels[k]))
  {
    var ts := Tokenize("", sql);
    NotInCode(sql, UnicodeEscape);
    assert !HasUnicodeMark(Code(ts));
    MarksAtEveryLevel(ts);
    NotShown(levels, k);
  }

  lemma CleanFrom(sql: string, levels: seq<seq<Token>>, k: nat)
    requires Accepted(sql) && levels == Levels(Tokenize("", sql)) && k < |levels|
    ensures CleanLevel(levels[k])
  {
    forall w | w in FORBIDDEN_WORDS || w == RECORD_TABLE ensures !HasWord(Visible(levels[k]), w) {
      NoWordFrom(sql, levels, k, w);
    }
    NoMarkFrom(sql, levels, k);
    forall j | 0 <= j < |levels[k]| ensures '$' !in VisibleOf(levels[k][j]) && '\\' !in VisibleOf(levels[k][j]) {
      NoCharFrom(sql, levels, k, j, '$');
      NoCharFrom(sql, levels, k, j, '\\');
    }
  }

  /** An accepted file is clean at every dollar-quote depth, and its top level starts no transaction control. */
  lemma AcceptedHidesNothing(sql: string)
    requires Accepted(sql)
    ensures forall level :: level in Levels(Tokenize("", sql)) ==> CleanLevel(level)
    ensures LeavesTransactionAlone(sql)
  {
    var levels := Levels(Tokenize("", sql));
    forall level | level in levels ensures CleanLevel(level) {
      var k :| 0 <= k < |levels| && levels[k] == level;
      CleanFrom(sql, levels, k);
    }
    forall stmt | stmt in Statements(sql) ensures Opening(stmt) !in TX_CONTROL_STARTS {
      assert !Broken(sql, TxStart(Opening(stmt)));
    }
  }

  /** The verdict on everything but the preview comment depends only on what is outside comments and strings. */
  lemma VerdictIgnoresBlanked(sql: string, us: seq<Token>, p: Problem)
    requires AllAlike(Tokenize("", sql), us) && !p.MissingPreview?
    ensures Broken(Text(us), p) <==> Broken(sql, p)
  {
    BlankedTextIsUnseen(sql, us);
  }
}
