// What a digest holds (packages/inngest/src/digest.ts) and what a delivery event records
// (packages/inngest/src/delivery.ts).
module DigestItems {
  import opened Basics

  /** A reranked job, best first. */
  datatype Scored = Scored(jobId: int, score: real)

  /** One synthesis result; what went wrong when it did. */
  datatype Synthesis = Synthesis(succeeded: bool, stopReason: Option<string>, text: string, error: string)

  /** A stored digest item. */
  datatype Ranked = Ranked(jobId: int, rank: nat, score: real, reason: string)

  /** A note, or why there is none. `isLink` finds a link or an email address. */
  function SynthesisNote(isLink: string -> bool, s: Option<Synthesis>): Result<string, string> {
    match s
    case None => Err("missing")
    case Some(r) =>
      if !r.succeeded then Err(r.error)
      else if r.stopReason != Some("end_turn") && r.stopReason != Some("stop_sequence") then
        Err(match r.stopReason case None => "no-stop-reason" case Some(why) => why)
      else
        var note := Trim(r.text);
        if note == "" then Err("empty") else if isLink(note) then Err("link") else Ok(note)
  }

  predicate Usable(isLink: string -> bool, note: string) { note != "" && Trimmed(note) && !isLink(note) }

  lemma NotesAreUsable(isLink: string -> bool, s: Option<Synthesis>)
    ensures SynthesisNote(isLink, s).Ok? ==> Usable(isLink, SynthesisNote(isLink, s).value)
  {
    if s.Some? { TrimLeavesTrimmed(s.value.text); }
  }

  /** The notes of one batch, by job. */
  datatype Batch = Batch(isLink: string -> bool, results: map<int, Synthesis>)

  function NoteFor(b: Batch, jobId: int): Result<string, string> { SynthesisNote(b.isLink, Get(b.results, jobId)) }

  /** The items with a usable note, ranked from `rank` on. */
  function KeptFrom(b: Batch, items: seq<Scored>, rank: nat): seq<Ranked> {
    if items == [] then []
    else
      match NoteFor(b, items[0].jobId)
      case Ok(note) => [Ranked(items[0].jobId, rank, items[0].score, note)] + KeptFrom(b, items[1..], rank + 1)
      case Err(_) => KeptFrom(b, items[1..], rank)
  }

  function Kept(b: Batch, items: seq<Scored>): seq<Ranked> { KeptFrom(b, items, 1) }

  /** The reranked jobs that have a usable note, in rerank order. */
  function WithNotes(b: Batch, items: seq<Scored>): seq<Scored> {
    if items == [] then []
    else if NoteFor(b, items[0].jobId).Ok? then [items[0]] + WithNotes(b, items[1..])
    else WithNotes(b, items[1..])
  }

  /** The item of a job at a rank, with the score and the usable note of that job. */
  predicate IsItem(b: Batch, x: Ranked, job: Scored, rank: nat) {
    && x.rank == rank && x.jobId == job.jobId && x.score == job.score
    && NoteFor(b, x.jobId) == Ok(x.reason) && Usable(b.isLink, x.reason)
  }

  /** Ranked from `first` on without a gap, one item a job. */
  predicate RankedFrom(b: Batch, kept: seq<Ranked>, jobs: seq<Scored>, first: nat) {
    |kept| == |jobs| && forall i :: 0 <= i < |kept| ==> IsItem(b, kept[i], jobs[i], first + i)
  }

  lemma RankedAhead(b: Batch, x: Ranked, job: Scored, kept: seq<Ranked>, jobs: seq<Scored>, rank: nat)
    requires IsItem(b, x, job, rank) && RankedFrom(b, kept, jobs, rank + 1)
    ensures RankedFrom(b, [x] + kept, [job] + jobs, rank)
  {
    var (xs, js) := ([x] + kept, [job] + jobs);
    forall i | 0 <= i < |xs| ensures IsItem(b, xs[i], js[i], rank + i) {
      if i > 0 { assert IsItem(b, kept[i - 1], jobs[i - 1], rank + 1 + (i - 1)); }
    }
  }

  /** What is kept is the jobs with a usable note, in rerank order, ranked 1..N. */
  lemma {:induction false} KeptIsRanked(b: Batch, items: seq<Scored>, rank: nat)
    ensures RankedFrom(b, KeptFrom(b, items, rank), WithNotes(b, items), rank)
  {
    if items != [] {
      var note := NoteFor(b, items[0].jobId);
      if note.Ok? {
        NotesAreUsable(b.isLink, Get(b.results, items[0].jobId));
        KeptIsRanked(b, items[1..], rank + 1);
        RankedAhead(b, Ranked(items[0].jobId, rank, items[0].score, note.value), items[0],
                    KeptFrom(b, items[1..], rank + 1), WithNotes(b, items[1..]), rank);
      } else {
        KeptIsRanked(b, items[1..], rank);
      }
    }
  }

  lemma {:induction false} KeptJoins(b: Batch, a: seq<Scored>, x: Scored, rank: nat)
    ensures KeptFrom(b, a + [x], rank) == KeptFrom(b, a, rank) + KeptFrom(b, [x], rank + |KeptFrom(b, a, rank)|)
  {
    if a == [] {
      assert a + [x] == [x];
    } else {
      assert (a + [x])[1..] == a[1..] + [x];
      KeptJoins(b, a[1..], x, if NoteFor(b, a[0].jobId).Ok? then rank + 1 else rank);
    }
  }

  /** Why the other items have no note. */
  function Dropped(b: Batch, items: seq<Scored>): multiset<string> {
    if items == [] then multiset{}
    else
      Dropped(b, items[..|items| - 1])
      + match NoteFor(b, items[|items| - 1].jobId) case Ok(_) => multiset{} case Err(why) => multiset{why}
  }

  lemma DroppedStep(b: Batch, a: seq<Scored>, x: Scored)
    ensures Dropped(b, a + [x]) == Dropped(b, a) + match NoteFor(b, x.jobId) case Ok(_) => multiset{} case Err(why) => multiset{why}
  {
    assert (a + [x])[..|a|] == a;
  }

  lemma KeptStep(b: Batch, a: seq<Scored>, x: Scored)
    ensures Kept(b, a + [x]) == Kept(b, a)
      + match NoteFor(b, x.jobId)
        case Ok(note) => [Ranked(x.jobId, |Kept(b, a)| + 1, x.score, note)]
        case Err(_) => []
  {
    KeptJoins(b, a, x, 1);
    assert [x][1..] == [];
  }

  /** Every item is kept or dropped with a reason. */
  lemma {:induction false} KeptOrDropped(b: Batch, items: seq<Scored>)
    ensures |Kept(b, items)| + |Dropped(b, items)| == |items|
  {
    if items != [] {
      var n := |items| - 1;
      KeptOrDropped(b, items[..n]);
      assert items == items[..n] + [items[n]];
      KeptStep(b, items[..n], items[n]);
    }
  }

  /** The loop of the persist step: what it keeps, and what it dropped and why. */
  method BuildItems(b: Batch, items: seq<Scored>) returns (kept: seq<Ranked>, dropped: multiset<string>)
    ensures kept == Kept(b, items) && dropped == Dropped(b, items)
  {
    kept, dropped := [], multiset{};
    for i := 0 to |items|
      invariant kept == Kept(b, items[..i]) && dropped == Dropped(b, items[..i])
    {
      KeptStep(b, items[..i], items[i]);
      DroppedStep(b, items[..i], items[i]);
      assert items[..i] + [items[i]] == items[..i + 1];
      var out := NoteFor(b, items[i].jobId);
      match out {
        case Ok(note) => kept := kept + [Ranked(items[i].jobId, |kept| + 1, items[i].score, note)];
        case Err(why) => dropped := dropped + multiset{why};
      }
    }
    assert items[..|items|] == items;
  }

  /** The items left when some jobs are taken out. */
  function Without(items: seq<Ranked>, jobs: set<int>): seq<Ranked> {
    if items == [] then []
    else if items[0].jobId in jobs then Without(items[1..], jobs)
    else [items[0]] + Without(items[1..], jobs)
  }

  lemma {:induction false} WithoutTwice(items: seq<Ranked>, a: set<int>, c: set<int>)
    ensures Without(Without(items, a), c) == Without(items, a + c)
  {
    if items != [] {
      WithoutTwice(items[1..], a, c);
      if items[0].jobId !in a {
        var left := Without(items, a);
        assert left[0] == items[0] && left[1..] == Without(items[1..], a);
      }
    }
  }

  /** How many items are of those jobs. */
  function CountIn(items: seq<Ranked>, jobs: set<int>): nat {
    if items == [] then 0 else (if items[0].jobId in jobs then 1 else 0) + CountIn(items[1..], jobs)
  }

  /** Counting only the jobs that still stand misses exactly the items whose job is gone. */
  lemma {:induction false} CountGap(items: seq<Ranked>, dead: set<int>, pruned: set<int>)
    ensures |Without(Without(items, pruned), dead)| + CountIn(items, pruned) == |Without(items, dead - pruned)|
  {
    if items != [] {
      CountGap(items[1..], dead, pruned);
      if items[0].jobId !in pruned {
        var left := Without(items, pruned);
        assert left[0] == items[0] && left[1..] == Without(items[1..], pruned);
      }
    }
  }

  lemma {:induction false} WithoutNone(items: seq<Ranked>)
    ensures Without(items, {}) == items
  {
    if items != [] { WithoutNone(items[1..]); }
  }

  // ---------- Delivery ----------

  datatype Delivery = Unsent | Sent | Delivered | Bounced | FailedToSend

  /** What a delivery event records: the status, whether to stop sending, and whether it was a hard bounce. */
  datatype Recorded = Recorded(status: Delivery, suppress: bool, hardBounce: bool)

  predicate IsTerminalEvent(event: string) {
    event in {"delivered", "opened", "clicked", "bounced", "complained", "failed", "suppressed"}
  }

  function MapDeliveryEvent(event: string): Recorded {
    if event == "delivered" || event == "opened" || event == "clicked" then Recorded(Delivered, false, false)
    else if event == "bounced" then Recorded(Bounced, true, true)
    else if event == "complained" then Recorded(Delivered, true, false)
    else if event == "suppressed" then Recorded(FailedToSend, true, false)
    else if event == "failed" then Recorded(FailedToSend, false, false)
    else Recorded(Sent, false, false)
  }

  /** Polling stops exactly on the events that settle the outcome; a hard bounce is always suppressed, and no event
      takes a sent digest back to unsent. */
  lemma TerminalEventsSettle(event: string)
    ensures IsTerminalEvent(event) <==> MapDeliveryEvent(event) != Recorded(Sent, false, false)
    ensures MapDeliveryEvent(event).hardBounce ==> MapDeliveryEvent(event).suppress
    ensures MapDeliveryEvent(event).status != Unsent
  {
  }
}
