// lintFixSql (packages/db/src/fixes.ts): what may not appear in a data fix, and the proof that an accepted file
// hides none of it at any dollar-quote depth.
module FixLint {
  import opened Basics
  import opened SqlGrammar
  import opened SqlScan
  import opened SqlCode

  datatype Problem =
    | MissingPreview
    | NoApplySql
    | TxStart(word: string)
    | Forbidden(word: string)
    | TouchesRecord
    | StrayDollar
    | UnicodeEscape
    | StrayBackslash

  const FORBIDDEN_WORDS: seq<string> :=
    ["CREATE", "ALTER", "DROP", "TRUNCATE", "GRANT", "REVOKE", "COMMIT", "ROLLBACK", "SAVEPOINT", "EXECUTE"]

  const TX_CONTROL_STARTS: seq<string> := ["BEGIN", "START", "END", "ABORT", "RELEASE", "PREPARE"]

  const RECORD_TABLE: string := "DATA_FIXES"

  // ---------- Words ----------

  function UpperChar(c: char): char {
    if 'a' <= c <= 'z' then (c as int - 32) as char else c
  }

  function Upper(s: string): (u: string)
    ensures |u| == |s|
  {
    seq(|s|, i requires 0 <= i < |s| => UpperChar(s[i]))
  }

  predicate AllWord(w: string) { w != "" && forall i :: 0 <= i < |w| ==> IsAsciiWord(w[i]) }

  /** `w` stands at `i` as a whole word, in any case. */
  predicate Stands(s: string, w: string, i: nat) {
    && i + |w| <= |s| && Upper(s[i..i + |w|]) == w
    && (i == 0 || !IsAsciiWord(s[i - 1]))
    && (i + |w| == |s| || !IsAsciiWord(s[i + |w|]))
  }

  ghost predicate HasWord(s: string, w: string) { exists i: nat :: Stands(s, w, i) }

  function RunLength(s: string): (n: nat)
    ensures n <= |s|
    ensures forall i :: 0 <= i < n ==> IsAsciiWord(s[i])
    ensures n < |s| ==> !IsAsciiWord(s[n])
  {
    if s == "" || !IsAsciiWord(s[0]) then 0 else 1 + RunLength(s[1..])
  }

  /** The longest runs of word characters, left to right. */
  function Runs(s: string): seq<string> {
    if s == "" then []
    else
      var n := RunLength(s);
      if n == 0 then Runs(s[1..]) else [s[..n]] + Runs(s[n..])
  }

  lemma StandsLater(s: string, w: string, n: nat, i: nat)
    requires n <= |s| && AllWord(w)
    requires n == 0 || n == |s| || !IsAsciiWord(s[n - 1]) || !IsAsciiWord(s[n])
    ensures Stands(s[n..], w, i) <==> Stands(s, w, n + i)
  {
    if n + i + |w| <= |s| {
      assert s[n..][i..i + |w|] == s[n + i..n + i + |w|];
      if i == 0 && n > 0 && n < |s| {
        UpperWord(s[n..n + |w|], w);
      }
    }
  }

  lemma UpperWord(s: string, w: string)
    requires AllWord(w)
    ensures Upper(s) == w ==> AllWord(s)
  {
    if Upper(s) == w {
      forall i | 0 <= i < |s| ensures IsAsciiWord(s[i]) {
        assert IsAsciiWord(w[i]) && w[i] == UpperChar(s[i]);
      }
    }
  }

  lemma StandsFirst(s: string, w: string, n: nat, i: nat)
    requires n == RunLength(s) && n > 0 && AllWord(w) && Stands(s, w, i) && i < n
    ensures i == 0 && |w| == n
  {
    UpperWord(s[i..i + |w|], w);
    assert forall k :: i <= k < i + |w| ==> s[i..i + |w|][k - i] == s[k];
  }

  /** Some run spells `w`, in any case. */
  predicate Listed(runs: seq<string>, w: string) {
    runs != [] && (Upper(runs[0]) == w || Listed(runs[1..], w))
  }

  lemma {:induction false} WordIsListed(s: string, w: string, i: nat)
    requires AllWord(w) && Stands(s, w, i)
    ensures Listed(Runs(s), w)
    decreases |s|
  {
    var n := RunLength(s);
    if n > 0 && i < n {
      StandsFirst(s, w, n, i);
    } else if i == 0 {
      UpperWord(s[..|w|], w);
      assert false;
    } else {
      var m := if n == 0 then 1 else n;
      StandsLater(s, w, m, i - m);
      WordIsListed(s[m..], w, i - m);
    }
  }

  lemma {:induction false} ListedIsWord(s: string, w: string) returns (i: nat)
    requires AllWord(w) && Listed(Runs(s), w)
    ensures Stands(s, w, i)
    decreases |s|
  {
    var n := RunLength(s);
    if n > 0 && Upper(s[..n]) == w {
      i := 0;
    } else {
      var m := if n == 0 then 1 else n;
      var j := ListedIsWord(s[m..], w);
      StandsLater(s, w, m, j);
      i := m + j;
    }
  }

  /** The runs of word characters list exactly the words that stand in a text. */
  lemma RunsAreWords(s: string, w: string)
    requires AllWord(w)
    ensures Listed(Runs(s), w) <==> HasWord(s, w)
  {
    if i: nat :| Stands(s, w, i) { WordIsListed(s, w, i); }
    if Listed(Runs(s), w) { var _ := ListedIsWord(s, w); }
  }

  // ---------- The other checks ----------

  function FirstLetters(s: string): string {
    if s == "" || !IsLetter(s[0]) then "" else [s[0]] + FirstLetters(s[1..])
  }

  /** The first word of a statement, upper-cased. */
  function Opening(stmt: string): string { Upper(FirstLetters(Trim(stmt))) }

  /** A U& escape opens at `i`. */
  predicate UnicodeMark(s: string, i: nat) {
    && i + 3 <= |s| && UpperChar(s[i]) == 'U' && s[i + 1] == '&' && (s[i + 2] == '"' || s[i + 2] == '\'')
    && (i == 0 || !IsAsciiWord(s[i - 1]))
  }

  predicate HasUnicodeMark(s: string) { exists i :: 0 <= i < |s| && UnicodeMark(s, i) }

  /** A block comment opened by the word preview starts at `i`. */
  predicate PreviewAt(s: string, i: nat) {
    && OccursAt(s, "/*", i)
    && var rest := TrimStart(s[i + 2..]);
      |rest| >= 7 && Upper(rest[..7]) == "PREVIEW" && (|rest| == 7 || !IsAsciiWord(rest[7]))
  }

  predicate HasPreview(s: string) { exists i :: 0 <= i < |s| && PreviewAt(s, i) }

  /** What the complaints about a file's code say. */
  ghost predicate CodeBroken(code: string, p: Problem) {
    match p
    case Forbidden(w) => w in FORBIDDEN_WORDS && HasWord(code, w)
    case TouchesRecord => HasWord(code, RECORD_TABLE)
    case StrayDollar => '$' in code
    case UnicodeEscape => HasUnicodeMark(code)
    case StrayBackslash => '\\' in code
    case _ => false
  }

  /** What the complaints about its top-level statements say. */
  ghost predicate StatementsBroken(statements: seq<string>, p: Problem) {
    match p
    case NoApplySql => forall stmt :: stmt in statements ==> Trim(stmt) == ""
    case TxStart(w) => w in TX_CONTROL_STARTS && exists stmt :: stmt in statements && Opening(stmt) == w
    case _ => false
  }

  ghost predicate Broken(sql: string, p: Problem) {
    || (p.MissingPreview? && !HasPreview(sql))
    || StatementsBroken(Statements(sql), p)
    || CodeBroken(CodeText(sql), p)
  }

  ghost predicate Accepted(sql: string) { forall p :: !Broken(sql, p) }

  lemma {:induction false} KeptAreNotBlank(stmts: seq<string>, x: string)
    ensures x in Kept(stmts) <==> x in stmts && Trim(x) != ""
  {
    if stmts != [] { KeptAreNotBlank(stmts[1..], x); }
  }

  lemma ForbiddenAreWords(w: string)
    requires w in FORBIDDEN_WORDS || w == RECORD_TABLE
    ensures AllWord(w)
  {
  }

  method TxStarts(statements: seq<string>) returns (problems: seq<Problem>)
    ensures forall p :: p in problems <==>
      p.TxStart? && p.word in TX_CONTROL_STARTS && exists stmt :: stmt in statements && Opening(stmt) == p.word
  {
    problems := [];
    for i := 0 to |statements|
      invariant forall p :: p in problems <==>
        p.TxStart? && p.word in TX_CONTROL_STARTS && exists k :: 0 <= k < i && Opening(statements[k]) == p.word
    {
      var first := Opening(statements[i]);
      if first in TX_CONTROL_STARTS {
        problems := problems + [TxStart(first)];
      }
    }
  }

  method ForbiddenWords(code: string) returns (problems: seq<Problem>)
    ensures forall p :: p in problems <==> p.Forbidden? && p.word in FORBIDDEN_WORDS && HasWord(code, p.word)
  {
    problems := [];
    var runs := Runs(code);
    for i := 0 to |runs|
      invariant forall p :: p in problems <==>
        p.Forbidden? && p.word in FORBIDDEN_WORDS && exists k :: 0 <= k < i && Upper(runs[k]) == p.word
    {
      var word := Upper(runs[i]);
      if word in FORBIDDEN_WORDS && Forbidden(word) !in problems {
        problems := problems + [Forbidden(word)];
      }
    }
    forall w | w in FORBIDDEN_WORDS
      ensures HasWord(code, w) <==> exists k :: 0 <= k < |runs| && Upper(runs[k]) == w
    {
      ForbiddenAreWords(w);
      RunsAreWords(code, w);
      ListedIsThere(runs, w);
    }
  }

  lemma {:induction false} ListedIsThere(runs: seq<string>, w: string)
    ensures Listed(runs, w) <==> exists k :: 0 <= k < |runs| && Upper(runs[k]) == w
  {
    if runs != [] {
      ListedIsThere(runs[1..], w);
      if k :| 0 <= k < |runs| && Upper(runs[k]) == w && k > 0 {
        assert runs[1..][k - 1] == runs[k];
      }
      if k :| 0 <= k < |runs[1..]| && Upper(runs[1..][k]) == w {
        assert runs[k + 1] == runs[1..][k];
      }
    }
  }

  method StatementProblems(statements: seq<string>) returns (problems: seq<Problem>)
    requires forall x :: x in statements ==> Trim(x) != ""
    ensures forall p :: p in problems <==> StatementsBroken(statements, p)
  {
    problems := TxStarts(statements);
    if statements == [] {
      problems := [NoApplySql] + problems;
    } else {
      assert statements[0] in statements;
    }
  }

  method CodeProblems(code: string) returns (problems: seq<Problem>)
    ensures forall p :: p in problems <==> CodeBroken(code, p)
  {
    problems := ForbiddenWords(code);
    ForbiddenAreWords(RECORD_TABLE);
    RunsAreWords(code, RECORD_TABLE);
    if Listed(Runs(code), RECORD_TABLE) { problems := problems + [TouchesRecord]; }
    if '$' in code { problems := problems + [StrayDollar]; }
    if HasUnicodeMark(code) { problems := problems + [UnicodeEscape]; }
    if '\\' in code { problems := problems + [StrayBackslash]; }
  }

  /** Dropping the blank statements changes no complaint. */
  lemma KeptSayTheSame(stmts: seq<string>, p: Problem)
    ensures StatementsBroken(Kept(stmts), p) <==> StatementsBroken(stmts, p)
  {
    forall x ensures x in Kept(stmts) <==> x in stmts && Trim(x) != "" {
      KeptAreNotBlank(stmts, x);
    }
    forall w, x | w in TX_CONTROL_STARTS && Opening(x) == w ensures Trim(x) != "" {
      assert w != "";
      assert |FirstLetters(Trim(x))| > 0;
    }
  }

  /** The linter: its list holds exactly what is wrong with the file. */
  method LintFixSql(sql: string) returns (problems: seq<Problem>)
    ensures forall p :: p in problems <==> Broken(sql, p)
    ensures problems == [] <==> Accepted(sql)
  {
    var code, statements := ScanSql(sql);
    forall x | x in statements ensures Trim(x) != "" {
      KeptAreNotBlank(Statements(sql), x);
    }
    var ofStatements := StatementProblems(statements);
    var ofCode := CodeProblems(code);
    var ofPreview := if HasPreview(sql) then [] else [MissingPreview];
    problems := ofPreview + ofStatements + ofCode;
    forall p ensures p in problems <==> Broken(sql, p) {
      KeptSayTheSame(Statements(sql), p);
    }
    assert problems != [] ==> problems[0] in problems;
  }
}
