// parseFixes (packages/db/src/fixes.ts): which sets of files are a list of fixes numbered 1..N.
module FixFiles {
  import opened Basics
  import opened SqlGrammar
  import opened FixLint
  import opened Sorting

  datatype File = File(name: string, content: string)

  datatype Fix = Fix(id: nat, name: string, sql: string, sha256: string)

  datatype FileProblem =
    | NotAFixName(name: string)
    | InFile(name: string, problem: Problem)
    | Gap(id: nat)
    | Duplicate(id: nat)
    | StartsAtZero

  predicate IsSlugChar(c: char) { 'a' <= c <= 'z' || IsDigit(c) }

  /** Non-empty groups of lower-case letters and digits, joined by single hyphens. */
  predicate IsSlug(s: string) {
    && s != "" && s[0] != '-' && s[|s| - 1] != '-'
    && (forall i :: 0 <= i < |s| ==> IsSlugChar(s[i]) || s[i] == '-')
    && (forall i :: 0 < i < |s| ==> !(s[i] == '-' && s[i - 1] == '-'))
  }

  predicate IsFixName(name: string) {
    && |name| > 9 && (forall i :: 0 <= i < 4 ==> IsDigit(name[i])) && name[4] == '-'
    && name[|name| - 4..] == ".sql" && IsSlug(name[5..|name| - 4])
  }

  function DigitOf(c: char): nat
    requires IsDigit(c)
  {
    c as int - '0' as int
  }

  /** The NNNN of a fix name. */
  function FixId(name: string): nat
    requires IsFixName(name)
  {
    1000 * DigitOf(name[0]) + 100 * DigitOf(name[1]) + 10 * DigitOf(name[2]) + DigitOf(name[3])
  }

  function Normalized(content: string): string {
    if content == "" then ""
    else if content[0] == '\r' && StartsWith(content[1..], '\n') then "\n" + Normalized(content[2..])
    else [content[0]] + Normalized(content[1..])
  }

  function FixOf(f: File, sha: string -> string): Fix
    requires IsFixName(f.name)
  {
    Fix(FixId(f.name), f.name, f.content, sha(Normalized(f.content)))
  }

  /** The fixes of the well-named files, in the order given. */
  function FixesOf(files: seq<File>, sha: string -> string): seq<Fix> {
    if files == [] then []
    else (if IsFixName(files[0].name) then [FixOf(files[0], sha)] else []) + FixesOf(files[1..], sha)
  }

  predicate SortedById(fixes: seq<Fix>) {
    forall i, j :: 0 <= i < j < |fixes| ==> fixes[i].id <= fixes[j].id
  }

  /** The stable sort by number; the order of equal numbers does not matter here. */
  function Sorted(fixes: seq<Fix>): seq<Fix> { Sort(fixes, (f: Fix) => f.id as real) }

  lemma SortedKeeps(fixes: seq<Fix>)
    ensures SortedById(Sorted(fixes)) && multiset(Sorted(fixes)) == multiset(fixes)
  {
    SortSorts(fixes, (f: Fix) => f.id as real);
  }

  /** The numbers of a list of fixes are exactly 1..N, in order. */
  predicate Numbered(fixes: seq<Fix>) {
    forall i :: 0 <= i < |fixes| ==> fixes[i].id == i + 1
  }

  /** How many fixes carry a number. */
  function CountOf(fixes: seq<Fix>, id: nat): nat {
    if fixes == [] then 0 else (if fixes[0].id == id then 1 else 0) + CountOf(fixes[1..], id)
  }

  lemma {:induction false} CountsSplit(a: seq<Fix>, b: seq<Fix>, id: nat)
    ensures CountOf(a + b, id) == CountOf(a, id) + CountOf(b, id)
  {
    if a == [] {
      assert a + b == b;
    } else {
      assert (a + b)[1..] == a[1..] + b;
      CountsSplit(a[1..], b, id);
    }
  }

  lemma {:induction false} CountOne(fixes: seq<Fix>, k: nat)
    requires k < |fixes|
    ensures CountOf(fixes, fixes[k].id) >= 1
  {
    if k > 0 { CountOne(fixes[1..], k - 1); }
  }

  lemma {:induction false} CountNone(fixes: seq<Fix>, id: nat)
    requires forall k :: 0 <= k < |fixes| ==> fixes[k].id != id
    ensures CountOf(fixes, id) == 0
  {
    if fixes != [] { CountNone(fixes[1..], id); }
  }

  lemma CountTwo(fixes: seq<Fix>, i: nat, j: nat)
    requires i < j < |fixes| && fixes[i].id == fixes[j].id
    ensures CountOf(fixes, fixes[i].id) >= 2
  {
    CountsSplit(fixes[..j], fixes[j..], fixes[i].id);
    assert fixes == fixes[..j] + fixes[j..];
    CountOne(fixes[..j], i);
    CountOne(fixes[j..], 0);
  }

  lemma {:induction false} CountedOnce(fixes: seq<Fix>, id: nat)
    requires CountOf(fixes, id) >= 1
    ensures exists k :: 0 <= k < |fixes| && fixes[k].id == id
  {
    if fixes[0].id != id {
      CountedOnce(fixes[1..], id);
      var k :| 0 <= k < |fixes[1..]| && fixes[1..][k].id == id;
      assert fixes[k + 1].id == id;
    }
  }

  ghost predicate OnceBelow(fixes: seq<Fix>, n: nat) {
    forall id: nat :: 1 <= id < n ==> CountOf(fixes, id) == 1
  }

  /** No number between 1 and the largest is missing or repeated, and none is 0. */
  ghost predicate NothingWrong(fixes: seq<Fix>) {
    && OnceBelow(fixes, Last(fixes) + 1)
    && (forall k :: 0 <= k < |fixes| ==> fixes[k].id != 0)
  }

  function Last(fixes: seq<Fix>): nat { if fixes == [] then 0 else fixes[|fixes| - 1].id }

  /** The checks on the numbers find nothing exactly when the sorted list runs 1..N. */
  lemma NumbersAreRight(fixes: seq<Fix>)
    requires SortedById(fixes)
    ensures NothingWrong(fixes) <==> Numbered(fixes)
  {
    if NothingWrong(fixes) { CountsNumber(fixes, |fixes|); }
    if Numbered(fixes) {
      forall id: nat | 1 <= id <= Last(fixes) ensures CountOf(fixes, id) == 1 { NumbersCount(fixes, id); }
    }
  }

  lemma NumbersCount(fixes: seq<Fix>, id: nat)
    requires Numbered(fixes) && 1 <= id <= |fixes|
    ensures CountOf(fixes, id) == 1
  {
    var a, b := fixes[..id], fixes[id..];
    assert fixes == a + b;
    CountsSplit(a, b, id);
    CountNone(b, id);
    assert a == a[..id - 1] + [fixes[id - 1]];
    CountsSplit(a[..id - 1], [fixes[id - 1]], id);
    CountNone(a[..id - 1], id);
  }

  lemma {:induction false} CountsNumber(fixes: seq<Fix>, n: nat)
    requires SortedById(fixes) && NothingWrong(fixes) && n <= |fixes|
    ensures forall i :: 0 <= i < n ==> fixes[i].id == i + 1
  {
    if n > 0 {
      CountsNumber(fixes, n - 1);
      var id := fixes[n - 1].id;
      if n > 1 && id == fixes[n - 2].id { CountTwo(fixes, n - 2, n - 1); }
      assert id >= n;
      if id > n {
        CountedOnce(fixes, n);
      }
    }
  }

  ghost predicate FileOk(f: File) { IsFixName(f.name) && Accepted(f.content) }

  method LintFile(f: File) returns (problems: seq<FileProblem>)
    requires IsFixName(f.name)
    ensures problems == [] <==> Accepted(f.content)
    ensures forall p :: p in problems <==> p.InFile? && p.name == f.name && Broken(f.content, p.problem)
  {
    var found := LintFixSql(f.content);
    problems := [];
    for i := 0 to |found|
      invariant |problems| == i
      invariant forall k :: 0 <= k < i ==> problems[k] == InFile(f.name, found[k])
    {
      problems := problems + [InFile(f.name, found[i])];
    }
    forall p: FileProblem | p.InFile? && p.name == f.name && Broken(f.content, p.problem) ensures p in problems {
      assert p.problem in found;
      var k :| 0 <= k < |found| && found[k] == p.problem;
      assert problems[k] == p;
    }
  }

  method CheckFile(f: File) returns (problems: seq<FileProblem>)
    ensures problems == [] <==> FileOk(f)
  {
    if IsFixName(f.name) {
      problems := LintFile(f);
    } else {
      problems := [NotAFixName(f.name)];
    }
  }

  ghost predicate FilesOk(files: seq<File>) {
    files == [] || (FilesOk(files[..|files| - 1]) && FileOk(files[|files| - 1]))
  }

  lemma OneMoreFile(files: seq<File>, i: nat, sha: string -> string)
    requires i < |files|
    ensures FixesOf(files[..i + 1], sha) ==
      FixesOf(files[..i], sha) + if IsFixName(files[i].name) then [FixOf(files[i], sha)] else []
    ensures FilesOk(files[..i + 1]) <==> FilesOk(files[..i]) && FileOk(files[i])
  {
    var head := files[..i + 1];
    assert head[..|head| - 1] == files[..i];
    assert head == files[..i] + [files[i]];
    FixesGrow(files[..i], files[i], sha);
  }

  /** The loop over the files: the well-named ones in order, and every complaint about a name or a content. */
  method ReadFiles(files: seq<File>, sha: string -> string) returns (fixes: seq<Fix>, problems: seq<FileProblem>)
    ensures fixes == FixesOf(files, sha)
    ensures problems == [] <==> FilesOk(files)
  {
    fixes, problems := [], [];
    for i := 0 to |files|
      invariant fixes == FixesOf(files[..i], sha)
      invariant problems == [] <==> FilesOk(files[..i])
    {
      OneMoreFile(files, i, sha);
      var found := CheckFile(files[i]);
      problems := problems + found;
      if IsFixName(files[i].name) { fixes := fixes + [FixOf(files[i], sha)]; }
    }
    assert files[..|files|] == files;
  }

  lemma {:induction false} EveryFileIsOk(files: seq<File>)
    ensures FilesOk(files) <==> forall k :: 0 <= k < |files| ==> FileOk(files[k])
  {
    if files != [] { EveryFileIsOk(files[..|files| - 1]); }
  }

  /** The files are fixes 1..N, each acceptable, exactly when nothing is reported; the fixes come sorted. */
  method ParseFixes(files: seq<File>, sha: string -> string) returns (fixes: seq<Fix>, problems: seq<FileProblem>)
    ensures SortedById(fixes) && multiset(fixes) == multiset(FixesOf(files, sha))
    ensures problems == [] <==> (forall k :: 0 <= k < |files| ==> FileOk(files[k])) && Numbered(fixes)
  {
    var unsorted, found := ReadFiles(files, sha);
    SortedKeeps(unsorted);
    fixes := Sorted(unsorted);
    var numbering := CheckNumbers(fixes);
    problems := found + numbering;
    EveryFileIsOk(files);
  }

  lemma {:induction false} FixesGrow(files: seq<File>, f: File, sha: string -> string)
    ensures FixesOf(files + [f], sha) == FixesOf(files, sha) + if IsFixName(f.name) then [FixOf(f, sha)] else []
  {
    if files == [] {
      assert FixesOf([f], sha) == (if IsFixName(f.name) then [FixOf(f, sha)] else []) + FixesOf([], sha);
    } else {
      FixesGrow(files[1..], f, sha);
      assert (files + [f])[1..] == files[1..] + [f];
    }
  }

  method CheckNumbers(fixes: seq<Fix>) returns (problems: seq<FileProblem>)
    requires SortedById(fixes)
    ensures problems == [] <==> Numbered(fixes)
  {
    problems := [];
    for id := 1 to Last(fixes) + 1
      invariant problems == [] <==> OnceBelow(fixes, id)
    {
      var same := CountOf(fixes, id);
      assert OnceBelow(fixes, id + 1) <==> OnceBelow(fixes, id) && same == 1;
      if same == 0 { problems := problems + [Gap(id)]; }
      if same > 1 { problems := problems + [Duplicate(id)]; }
    }
    if exists k :: 0 <= k < |fixes| && fixes[k].id == 0 { problems := problems + [StartsAtZero]; }
    NumbersAreRight(fixes);
  }
}
