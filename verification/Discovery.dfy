// One discovery run (packages/discovery/src/discover.ts): which candidates are probed, and where every probed row
// is counted.
module Discovery {
  import opened Basics
  import opened ProbePool
  import opened SeedResolve

  /** A stored company. */
  datatype Row = Row(id: nat, source: string, slug: string, active: bool)

  type Results = seq<Option<ProbeResult<Candidate>>>

  datatype Counts = Counts(
    alreadyActive: nat, probeWorklist: nat,
    probed: nat, live: nat, liveEmpty: nat, absent: nat, indeterminate: nat, transientFailed: nat, upserted: nat,
    reprobed: nat, refreshedLive: nat, markedFailed: nat, reprobeInconclusive: nat,
    budgetSkipped: nat, rateLimited: nat, serverError: nat)

  const EMPTY_COUNTS: Counts := Counts(0, 0, 0, 0, 0, 0, 0, 0, 0, 0, 0, 0, 0, 0, 0, 0)

  // ---------- The partition ----------

  function RowKey(ad: Adapters, row: Row): Key { KeyFor(ad, row.source, row.slug) }

  /** The row each key is known by: an active one wherever there is one. */
  function Known(ad: Adapters, rows: seq<Row>): map<Key, Row> {
    if rows == [] then map[]
    else
      var (before, row) := (Known(ad, rows[..|rows| - 1]), rows[|rows| - 1]);
      var k := RowKey(ad, row);
      if k in before && before[k].active then before else before[k := row]
  }

  predicate HasRow(ad: Adapters, rows: seq<Row>, k: Key) { exists i :: 0 <= i < |rows| && RowKey(ad, rows[i]) == k }

  predicate HasActiveRow(ad: Adapters, rows: seq<Row>, k: Key) {
    exists i :: 0 <= i < |rows| && RowKey(ad, rows[i]) == k && rows[i].active
  }

  lemma {:induction false} KnownIsRight(ad: Adapters, rows: seq<Row>, k: Key)
    ensures k in Known(ad, rows) <==> HasRow(ad, rows, k)
    ensures k in Known(ad, rows) ==>
      && RowKey(ad, Known(ad, rows)[k]) == k && Known(ad, rows)[k] in rows
      && (Known(ad, rows)[k].active <==> HasActiveRow(ad, rows, k))
  {
    if rows != [] {
      var n := |rows| - 1;
      KnownIsRight(ad, rows[..n], k);
      assert rows == rows[..n] + [rows[n]];
      if HasRow(ad, rows[..n], k) {
        var i :| 0 <= i < n && RowKey(ad, rows[..n][i]) == k;
        assert RowKey(ad, rows[i]) == k;
      }
      if HasActiveRow(ad, rows[..n], k) {
        var i :| 0 <= i < n && RowKey(ad, rows[..n][i]) == k && rows[..n][i].active;
        assert RowKey(ad, rows[i]) == k && rows[i].active;
      }
      if HasRow(ad, rows, k) {
        var i :| 0 <= i < |rows| && RowKey(ad, rows[i]) == k;
        if i < n { assert RowKey(ad, rows[..n][i]) == k; }
      }
      if HasActiveRow(ad, rows, k) {
        var i :| 0 <= i < |rows| && RowKey(ad, rows[i]) == k && rows[i].active;
        if i < n { assert RowKey(ad, rows[..n][i]) == k && rows[..n][i].active; }
      }
    }
  }

  /** What a candidate is probed as: not at all when a row of its key is active, else under the stored slug if any. */
  function ProbedAs(ad: Adapters, known: map<Key, Row>, c: Candidate): seq<Candidate> {
    var k := KeyOf(ad, c);
    if k !in known then [c]
    else if known[k].active then []
    else [c.(slug := known[k].slug, rawSlug := known[k].slug)]
  }

  function Worklist(ad: Adapters, known: map<Key, Row>, cs: seq<Candidate>): seq<Candidate> {
    if cs == [] then [] else ProbedAs(ad, known, cs[0]) + Worklist(ad, known, cs[1..])
  }

  lemma {:induction false} WorklistJoins(ad: Adapters, known: map<Key, Row>, a: seq<Candidate>, b: seq<Candidate>)
    ensures Worklist(ad, known, a + b) == Worklist(ad, known, a) + Worklist(ad, known, b)
  {
    if a == [] {
      assert a + b == b;
    } else {
      assert (a + b)[1..] == a[1..] + b;
      WorklistJoins(ad, known, a[1..], b);
    }
  }

  method ReadKnown(ad: Adapters, rows: seq<Row>) returns (known: map<Key, Row>)
    ensures known == Known(ad, rows)
  {
    known := map[];
    for i := 0 to |rows|
      invariant known == Known(ad, rows[..i])
    {
      assert rows[..i + 1][..i] == rows[..i];
      var k := RowKey(ad, rows[i]);
      if !(k in known && known[k].active) { known := known[k := rows[i]]; }
    }
    assert rows[..|rows|] == rows;
  }

  method Partition(ad: Adapters, cs: seq<Candidate>, rows: seq<Row>) returns (worklist: seq<Candidate>)
    ensures worklist == Worklist(ad, Known(ad, rows), cs)
  {
    var known := ReadKnown(ad, rows);
    worklist := [];
    assert cs[..0] == [];
    for i := 0 to |cs|
      invariant worklist == Worklist(ad, known, cs[..i])
    {
      var c := cs[i];
      assert cs[..i + 1] == cs[..i] + [c];
      WorklistJoins(ad, known, cs[..i], [c]);
      assert Worklist(ad, known, [c]) == ProbedAs(ad, known, c);
      var k := KeyOf(ad, c);
      if k in known {
        if !known[k].active { worklist := worklist + [c.(slug := known[k].slug, rawSlug := known[k].slug)]; }
      } else {
        worklist := worklist + [c];
      }
    }
    assert cs[..|cs|] == cs;
  }

  lemma ProbedAsSameBoard(ad: Adapters, rows: seq<Row>, c: Candidate, w: Candidate)
    requires w in ProbedAs(ad, Known(ad, rows), c)
    ensures KeyOf(ad, w) == KeyOf(ad, c) && !HasActiveRow(ad, rows, KeyOf(ad, c))
    ensures HasRow(ad, rows, KeyOf(ad, c)) ==>
      exists row :: row in rows && RowKey(ad, row) == KeyOf(ad, c) && w.slug == row.slug
  {
    KnownIsRight(ad, rows, KeyOf(ad, c));
  }

  /** No key of the worklist has an active row; a board that has only inactive ones is probed under a stored slug; and
      every candidate without an active row is there. */
  lemma {:induction false} WorklistIsInactive(ad: Adapters, rows: seq<Row>, cs: seq<Candidate>)
    ensures forall w :: w in Worklist(ad, Known(ad, rows), cs) ==>
      && !HasActiveRow(ad, rows, KeyOf(ad, w))
      && (HasRow(ad, rows, KeyOf(ad, w)) ==>
        exists row :: row in rows && RowKey(ad, row) == KeyOf(ad, w) && w.slug == row.slug)
    ensures forall c :: c in cs && !HasActiveRow(ad, rows, KeyOf(ad, c)) ==>
      exists w :: w in Worklist(ad, Known(ad, rows), cs) && KeyOf(ad, w) == KeyOf(ad, c)
  {
    var known := Known(ad, rows);
    if cs != [] {
      WorklistIsInactive(ad, rows, cs[1..]);
      forall w | w in ProbedAs(ad, known, cs[0])
        ensures !HasActiveRow(ad, rows, KeyOf(ad, w))
        ensures HasRow(ad, rows, KeyOf(ad, w)) ==>
          exists row :: row in rows && RowKey(ad, row) == KeyOf(ad, w) && w.slug == row.slug
      {
        ProbedAsSameBoard(ad, rows, cs[0], w);
      }
      forall c | c in cs && !HasActiveRow(ad, rows, KeyOf(ad, c))
        ensures exists w :: w in Worklist(ad, known, cs) && KeyOf(ad, w) == KeyOf(ad, c)
      {
        if c == cs[0] {
          KnownIsRight(ad, rows, KeyOf(ad, c));
          var w := ProbedAs(ad, known, c)[0];
          ProbedAsSameBoard(ad, rows, c, w);
          assert w in Worklist(ad, known, cs);
        } else {
          var w :| w in Worklist(ad, known, cs[1..]) && KeyOf(ad, w) == KeyOf(ad, c);
          assert w in Worklist(ad, known, cs);
        }
      }
    }
  }

  lemma {:induction false} WorklistIsNoLonger(ad: Adapters, known: map<Key, Row>, cs: seq<Candidate>)
    ensures |Worklist(ad, known, cs)| <= |cs|
  {
    if cs != [] { WorklistIsNoLonger(ad, known, cs[1..]); }
  }

  // ---------- Counting outcomes ----------

  function At(results: Results, i: nat): Option<ProbeResult<Candidate>> {
    if i < |results| then results[i] else None
  }

  predicate IsLive(r: ProbeResult<Candidate>) { r.outcome.Live? || r.outcome.LiveEmpty? }

  function TallyStatus(c: Counts, status: nat): Counts {
    if status == 429 then c.(rateLimited := c.rateLimited + 1)
    else if status >= 500 then c.(serverError := c.serverError + 1)
    else c
  }

  /** One worklist result: status 0 is a probe that spent its retries, whatever its outcome says. */
  function Tally(c: Counts, r: ProbeResult<Candidate>): Counts {
    if r.status == 0 then c.(transientFailed := c.transientFailed + 1)
    else
      var t := TallyStatus(c, r.status);
      match r.outcome
      case Live => t.(live := t.live + 1)
      case LiveEmpty => t.(liveEmpty := t.liveEmpty + 1)
      case Absent => t.(absent := t.absent + 1)
      case Indeterminate => t.(indeterminate := t.indeterminate + 1)
  }

  /** The worklist's buckets add up to what was probed. */
  predicate ProbedAddsUp(c: Counts) {
    c.probed == c.live + c.liveEmpty + c.absent + c.indeterminate + c.transientFailed
  }

  /** The reprobe's buckets add up to what was reprobed. */
  predicate ReprobedAddsUp(c: Counts) {
    c.reprobed == c.refreshedLive + c.markedFailed + c.reprobeInconclusive
  }

  /** The first n of the worklist whose probe came back live. */
  function LiveOnes(worklist: seq<Candidate>, results: Results, n: nat): seq<Candidate>
    requires n <= |worklist|
  {
    if n == 0 then []
    else
      LiveOnes(worklist, results, n - 1)
      + if At(results, n - 1).Some? && IsLive(At(results, n - 1).value) then [worklist[n - 1]] else []
  }

  method ProbeAndUpsert(worklist: seq<Candidate>, results: Results, counts: Counts, dryRun: bool)
    returns (c: Counts, upserts: seq<Candidate>)
    requires ProbedAddsUp(counts)
    ensures ProbedAddsUp(c) && c.probed + c.budgetSkipped == counts.probed + counts.budgetSkipped + |worklist|
    ensures c.upserted == counts.upserted + |LiveOnes(worklist, results, |worklist|)|
    ensures upserts == if dryRun then [] else LiveOnes(worklist, results, |worklist|)
    ensures c.reprobed == counts.reprobed && c.refreshedLive == counts.refreshedLive
    ensures c.markedFailed == counts.markedFailed && c.reprobeInconclusive == counts.reprobeInconclusive
    ensures c.alreadyActive == counts.alreadyActive && c.probeWorklist == counts.probeWorklist
  {
    c, upserts := counts, [];
    for i := 0 to |worklist|
      invariant ProbedAddsUp(c) && c.probed + c.budgetSkipped == counts.probed + counts.budgetSkipped + i
      invariant c.upserted == counts.upserted + |LiveOnes(worklist, results, i)|
      invariant upserts == if dryRun then [] else LiveOnes(worklist, results, i)
      invariant c.reprobed == counts.reprobed && c.refreshedLive == counts.refreshedLive
      invariant c.markedFailed == counts.markedFailed && c.reprobeInconclusive == counts.reprobeInconclusive
      invariant c.alreadyActive == counts.alreadyActive && c.probeWorklist == counts.probeWorklist
    {
      var r := At(results, i);
      if r.None? {
        c := c.(budgetSkipped := c.budgetSkipped + 1);
      } else {
        c := Tally(c.(probed := c.probed + 1), r.value);
        if IsLive(r.value) {
          if !dryRun { upserts := upserts + [worklist[i]]; }
          c := c.(upserted := c.upserted + 1);
        }
      }
    }
  }

  /** What an outcome says of a stored company. */
  datatype Verdict = Alive | Gone | Inconclusive

  function VerdictOf(r: ProbeResult<Candidate>): Verdict {
    if IsLive(r) then Alive else if r.outcome.Absent? then Gone else Inconclusive
  }

  /** The ids among the first n rows whose probe came back, with that verdict. */
  function IdsOf(rows: seq<Row>, results: Results, verdict: Verdict, n: nat): seq<nat>
    requires n <= |rows|
  {
    if n == 0 then []
    else
      IdsOf(rows, results, verdict, n - 1)
      + if At(results, n - 1).Some? && VerdictOf(At(results, n - 1).value) == verdict then [rows[n - 1].id] else []
  }

  /** What one reprobe writes: refreshed, aged, and moved down the queue. */
  datatype Marks = Marks(live: seq<nat>, absent: seq<nat>, inconclusive: seq<nat>)

  method ReprobeActive(rows: seq<Row>, results: Results, counts: Counts) returns (c: Counts, marks: Marks)
    requires counts.reprobed == counts.refreshedLive == counts.markedFailed == counts.reprobeInconclusive == 0
    ensures ReprobedAddsUp(c) && c.reprobed + c.budgetSkipped == counts.budgetSkipped + |rows|
    ensures marks == Marks(IdsOf(rows, results, Alive, |rows|), IdsOf(rows, results, Gone, |rows|),
                           IdsOf(rows, results, Inconclusive, |rows|))
    ensures c.refreshedLive == |marks.live| && c.markedFailed == |marks.absent|
      && c.reprobeInconclusive == |marks.inconclusive|
    ensures ProbedAddsUp(counts) ==> ProbedAddsUp(c)
    ensures c.probed == counts.probed && c.upserted == counts.upserted
    ensures c.alreadyActive == counts.alreadyActive && c.probeWorklist == counts.probeWorklist
  {
    c := counts;
    var live: seq<nat>, absent: seq<nat>, inconclusive: seq<nat> := [], [], [];
    for i := 0 to |rows|
      invariant c.reprobed == |live| + |absent| + |inconclusive|
      invariant c.reprobed + c.budgetSkipped == counts.budgetSkipped + i
      invariant live == IdsOf(rows, results, Alive, i)
      invariant absent == IdsOf(rows, results, Gone, i)
      invariant inconclusive == IdsOf(rows, results, Inconclusive, i)
      invariant c == counts.(reprobed := c.reprobed, budgetSkipped := c.budgetSkipped,
                             rateLimited := c.rateLimited, serverError := c.serverError)
    {
      var r := At(results, i);
      if r.None? {
        c := c.(budgetSkipped := c.budgetSkipped + 1);
      } else {
        c := TallyStatus(c.(reprobed := c.reprobed + 1), r.value.status);
        if IsLive(r.value) {
          live := live + [rows[i].id];
        } else if r.value.outcome.Absent? {
          absent := absent + [rows[i].id];
        } else {
          inconclusive := inconclusive + [rows[i].id];
        }
      }
    }
    c := c.(refreshedLive := |live|, markedFailed := |absent|, reprobeInconclusive := |inconclusive|);
    marks := Marks(live, absent, inconclusive);
  }

  // ---------- A run ----------

  datatype Plan = Plan(only: Option<string>, limit: Option<nat>, dryRun: bool)

  datatype Report = Report(counts: Counts, drops: Drops, tallies: Tallies, upserts: seq<Candidate>, marks: Option<Marks>)

  /** What the run probes: the capped head of the candidates without an active row. */
  function Scoped(ad: Adapters, p: Plan, lanes: seq<Lane>, rows: seq<Row>): seq<Candidate> {
    var worklist := Worklist(ad, Known(ad, rows), Resolved(ad, p.only, Fetched(lanes)));
    if p.limit.Some? && p.limit.value < |worklist| then worklist[..p.limit.value] else worklist
  }

  /** Every row and candidate a run set out to probe is counted once: probed into exactly one bucket of its own pass,
      or skipped for the budget. */
  method RunDiscovery(ad: Adapters, p: Plan, lanes: seq<Lane>, rows: seq<Row>, reprobeRows: seq<Row>,
                      reprobes: Results, probes: Results)
    returns (r: Result<Report, string>)
    ensures r.Err? <==> exists i :: 0 <= i < |lanes| && FailsLoud(lanes[i])
    ensures r.Ok? ==>
      var c := r.value.counts;
      && ProbedAddsUp(c) && ReprobedAddsUp(c) && Tallied(Credits(ad, p.only, lanes), r.value.tallies)
      && c.probeWorklist == |Scoped(ad, p, lanes, rows)|
      && (if p.dryRun then 0 else |reprobeRows|) + c.probeWorklist == c.reprobed + c.probed + c.budgetSkipped
    ensures r.Ok? && p.dryRun ==> r.value.upserts == [] && r.value.marks == None
    ensures r.Ok? && !p.dryRun ==>
      var scoped := Scoped(ad, p, lanes, rows); r.value.upserts == LiveOnes(scoped, probes, |scoped|)
  {
    var resolved, tallies := ResolveLanes(ad, lanes, p.only);
    if resolved.Err? { return Err(resolved.error); }
    var (candidates, drops) := resolved.value;
    var worklist := Partition(ad, candidates, rows);
    WorklistIsNoLonger(ad, Known(ad, rows), candidates);
    var scoped := if p.limit.Some? && p.limit.value < |worklist| then worklist[..p.limit.value] else worklist;
    var counts := EMPTY_COUNTS.(alreadyActive := |candidates| - |worklist|, probeWorklist := |scoped|);
    var marks: Option<Marks> := None;
    if !p.dryRun {
      var c, m := ReprobeActive(reprobeRows, reprobes, counts);
      counts, marks := c, Some(m);
    }
    var c, upserts := ProbeAndUpsert(scoped, probes, counts, p.dryRun);
    return Ok(Report(c, drops, tallies, upserts, marks));
  }
}
