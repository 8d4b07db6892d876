// applyPendingFixes (packages/db/src/fixes.ts) as it is written: one runner driving its connection query by query,
// among any others on the same database. Every query may fail, between any two of them the others may do anything they
// can, and the proof is that what the loop does is a run of the system FixRunner speaks of.
module FixClient {
  import opened Basics
  import opened FixFiles
  import opened FixRunner

  /** One event takes one state to the next. */
  ghost predicate Takes<D>(run: (D, string) -> D, s: System<D>, e: Event, t: System<D>) {
    t == Step(run, s, e)
  }

  /** The states a trace passes through. */
  ghost predicate Passes<D>(run: (D, string) -> D, states: seq<System<D>>, trace: seq<Event>) {
    && |states| == |trace| + 1
    && forall i :: 0 <= i < |trace| ==> Takes(run, states[i], trace[i], states[i + 1])
  }

  lemma {:induction false} PassesIsExec<D>(run: (D, string) -> D, states: seq<System<D>>, trace: seq<Event>)
    requires Passes(run, states, trace)
    ensures Exec(run, states[0], trace) == states[|trace|]
    decreases |trace|
  {
    if trace != [] {
      var n := |trace| - 1;
      var (before, earlier) := (states[..|trace|], trace[..n]);
      forall i | 0 <= i < n ensures Takes(run, before[i], earlier[i], before[i + 1]) {
        assert Takes(run, states[i], trace[i], states[i + 1]);
      }
      PassesIsExec(run, before, earlier);
      assert Takes(run, states[n], trace[n], states[n + 1]);
    }
  }

  lemma PassesOn<D>(run: (D, string) -> D, states: seq<System<D>>, trace: seq<Event>, e: Event, t: System<D>)
    requires Passes(run, states, trace) && Takes(run, states[|trace|], e, t)
    ensures Passes(run, states + [t], trace + [e])
  {
  }

  /** What everyone else may do: a turn of another runner, or the database settling a lost COMMIT. */
  predicate OfOthers(e: Event, me: nat) { e.Settle? || e.r != me }

  lemma OthersLeaveMe<D>(run: (D, string) -> D, s: System<D>, e: Event, me: nat)
    requires OfOthers(e, me) && me < |s.runners|
    ensures var t := Step(run, s, e); |t.runners| == |s.runners| && t.runners[me] == s.runners[me]
  {
  }

  lemma MyTurn<D>(run: (D, string) -> D, s: System<D>, e: Event, me: nat)
    requires !e.Settle? && !e.SendCommit? && e.r == me < |s.runners| && !Waits(s, s.runners[me], e)
    ensures Step(run, s, e) == s.(runners := s.runners[me := Turn(run, s.base, s.runners[me], e)])
  {
  }

  /** A COMMIT lets go of the runner's key, or leaves it in doubt. */
  lemma CommitReleases<D>(run: (D, string) -> D, s: System<D>, r: nat, answer: Answer)
    requires r < |s.runners|
    ensures var t := Step(run, s, SendCommit(r, answer));
      && |t.runners| == |s.runners| && !Holding(t.runners[r])
      && forall q :: 0 <= q < |s.runners| && q != r ==> t.runners[q] == s.runners[q]
  {
  }

  predicate Holding<D>(x: Runner<D>) { x.phase.Inserted? && x.phase.next < |x.fixes| }

  /** One connection among any number of runners. `world` is the database and everyone using it; of the runner of this
      connection it holds what the queries so far amount to. */
  class Connection<D> {
    const run: (D, string) -> D
    const me: nat
    var world: System<D>
    ghost const start: System<D>
    ghost var trace: seq<Event>
    ghost var states: seq<System<D>>

    /** The world is reached from where it started by the events so far, one step each. */
    ghost predicate Valid()
      reads this
    {
      && Passes(run, states, trace) && states[0] == start && states[|trace|] == world
      && me < |world.runners|
    }

    ghost function Mine(): Runner<D>
      reads this
      requires me < |world.runners|
    {
      world.runners[me]
    }

    constructor (run: (D, string) -> D, world: System<D>, me: nat)
      requires me < |world.runners|
      ensures Valid() && this.run == run && this.world == world && this.me == me && start == world && trace == []
    {
      this.run, this.world, this.me, this.start := run, world, me, world;
      this.trace, this.states := [], [world];
    }

    /** One event of anyone's. */
    method Happens(e: Event)
      requires Valid()
      modifies this
      ensures Passes(run, states, trace) && states[0] == start && states[|trace|] == world
      ensures world == Step(run, old(world), e) && trace == old(trace) + [e]
    {
      PassesOn(run, states, trace, e, Step(run, world, e));
      world := Step(run, world, e);
      trace, states := trace + [e], states + [world];
    }

    method OthersDo(e: Event)
      requires Valid() && OfOthers(e, me)
      modifies this
      ensures Valid() && world == Step(run, old(world), e) && old(trace) <= trace && Mine() == old(Mine())
    {
      OthersLeaveMe(run, world, e, me);
      Happens(e);
    }

    /** Between two queries of this runner: any number of events of the others. */
    method LetOthersRun()
      requires Valid()
      modifies this
      ensures Valid() && old(trace) <= trace && Mine() == old(Mine())
    {
      var events: seq<Event> := *;
      for i := 0 to |events|
        invariant Valid() && old(trace) <= trace && Mine() == old(Mine())
      {
        if OfOthers(events[i], me) { OthersDo(events[i]); }
      }
    }

    /** This runner's own query, other than COMMIT. */
    method Query(e: Event)
      requires Valid() && !e.Settle? && !e.SendCommit? && e.r == me && !Waits(world, Mine(), e)
      modifies this
      ensures Valid() && old(trace) <= trace && world.base == old(world.base)
      ensures Mine() == Turn(run, old(world.base), old(Mine()), e)
    {
      MyTurn(run, world, e, me);
      Happens(e);
    }

    /** SELECT id, sha256 FROM data_fixes, and the two checks that stop a run before it applies anything. */
    method ReadRecords(fixes: seq<Fix>) returns (recorded: Option<map<nat, string>>)
      requires Valid() && Mine().phase.Reading? && Mine().fixes == fixes
      modifies this
      ensures Valid() && old(trace) <= trace
      ensures Mine() == old(Mine()).(phase := if recorded.Some? then Considering(0, recorded.value) else Done)
      ensures recorded.Some? ==> recorded.value == world.base.records && FilesMatch(fixes, recorded.value)
    {
      LetOthersRun();
      var answered: bool := *;
      Query(Read(me, answered));
      recorded := if answered && FilesMatch(fixes, world.base.records) then Some(world.base.records) else None;
    }

    method BeginTransaction(ghost next: nat) returns (ok: bool)
      requires Valid() && Mine().phase.Considering? && Mine().phase.next == next < |Mine().fixes|
      requires Mine().fixes[next].id !in Mine().phase.recorded
      modifies this
      ensures Valid() && old(trace) <= trace
      ensures Mine() == if ok then old(Mine()).(phase := Began(next, old(Mine()).phase.recorded)) else Fail(old(Mine()), next)
    {
      LetOthersRun();
      ok := *;
      Query(Begin(me, ok));
    }

    method RunFix(sql: string, ghost next: nat) returns (ok: bool)
      requires Valid() && Mine().phase.Began? && Mine().phase.next == next < |Mine().fixes| && Mine().fixes[next].sql == sql
      modifies this
      ensures Valid() && old(trace) <= trace
      ensures if ok then
          Mine() == old(Mine()).(phase := RanSql(next, old(Mine()).phase.recorded, run(world.base.data, sql)))
        else Mine() == Fail(old(Mine()), next)
    {
      LetOthersRun();
      ok := *;
      Query(RunSql(me, ok));
    }

    /** Every other open transaction comes to its end: its COMMIT is sent, and a lost one is settled. */
    method OthersLetGo(ghost id: nat)
      requires Valid() && Mine().phase.RanSql?
      modifies this
      ensures Valid() && old(trace) <= trace && Mine() == old(Mine()) && !Held(world, id)
    {
      for r := 0 to |world.runners|
        invariant Valid() && old(trace) <= trace && Mine() == old(Mine()) && |world.runners| == |old(world.runners)|
        invariant forall q :: 0 <= q < r ==> !Holding(world.runners[q])
      {
        if r != me {
          var answer: Answer := *;
          CommitReleases(run, world, r, answer);
          OthersDo(SendCommit(r, answer));
        }
      }
      while |world.doubt| > 0
        invariant Valid() && old(trace) <= trace && Mine() == old(Mine())
        invariant forall q :: 0 <= q < |world.runners| ==> !Holding(world.runners[q])
        decreases |world.doubt|
      {
        var commits: bool := *;
        OthersDo(Event.Settle(0, commits));
      }
    }

    /** While another transaction holds the key this waits for that one to end. */
    method InsertFix(fix: Fix, ghost next: nat) returns (ok: bool)
      requires Valid() && Mine().phase.RanSql? && Mine().phase.next == next < |Mine().fixes| && Mine().fixes[next] == fix
      modifies this
      ensures Valid() && old(trace) <= trace
      ensures if ok then
          Mine() == old(Mine()).(phase := Inserted(next, old(Mine()).phase.recorded, old(Mine()).phase.pending))
        else Mine() == Fail(old(Mine()), next)
    {
      LetOthersRun();
      if Held(world, fix.id) { OthersLetGo(fix.id); }
      var answered: bool := *;
      ok := answered && fix.id !in world.base.records;
      Query(InsertRecord(me, answered));
    }

    method Commit(fix: Fix, ghost next: nat) returns (acked: bool)
      requires Valid() && Mine().phase.Inserted? && Mine().phase.next == next < |Mine().fixes| && Mine().fixes[next] == fix
      modifies this
      ensures Valid() && old(trace) <= trace
      ensures if acked then
          && Mine() == old(Mine()).(phase := Considering(next + 1, old(Mine()).phase.recorded),
                                    reports := old(Mine()).reports + [Applied(fix.id)])
        else Mine() == old(Mine()).(phase := Done, reports := old(Mine()).reports + [Unconfirmed(fix.id)])
    {
      LetOthersRun();
      var answer: Answer := *;
      acked := answer.Acked?;
      Happens(SendCommit(me, answer));
    }

    /** BEGIN, the fix, its record and COMMIT; a failure before the COMMIT is rolled back. */
    method ApplyFix(fix: Fix, ghost next: nat) returns (report: Report)
      requires Valid() && Mine().phase.Considering? && Mine().phase.next == next < |Mine().fixes|
      requires Mine().fixes[next] == fix && fix.id !in Mine().phase.recorded
      modifies this
      ensures Valid() && old(trace) <= trace
      ensures report.id == fix.id
      ensures Mine() == old(Mine()).(
          phase := if report.Applied? then Considering(next + 1, old(Mine()).phase.recorded) else Done,
          reports := old(Mine()).reports + [report])
    {
      var ok := BeginTransaction(next);
      if ok { ok := RunFix(fix.sql, next); }
      if ok { ok := InsertFix(fix, next); }
      if !ok { return Failed(fix.id); }
      var acked := Commit(fix, next);
      return if acked then Applied(fix.id) else Unconfirmed(fix.id);
    }
  }

  /** Where the world started in order, everything committed by whomever still is, and every report is true. */
  lemma StillInOrder<D>(db: Connection<D>, seed: D)
    requires db.Valid() && AllOk(db.run, seed, db.start)
    ensures AllOk(db.run, seed, db.world)
  {
    ExecKeeps(db.run, seed, db.start, db.trace);
    PassesIsExec(db.run, db.states, db.trace);
  }

  /** Apply every fix not yet recorded, in order, one transaction each; stop at the first failure. None when the run
      threw before applying anything. Whatever the others do meanwhile, all of it is one run of the system. */
  method ApplyPendingFixes<D>(db: Connection<D>, fixes: seq<Fix>) returns (outcomes: Option<seq<Report>>)
    requires db.Valid() && db.Mine() == Runner(fixes, Reading, [])
    modifies db
    ensures db.Valid() && old(db.trace) <= db.trace
    ensures outcomes.None? ==> db.Mine() == Runner(fixes, Done, [])
    ensures outcomes.Some? ==>
      || (exists recorded :: db.Mine() == Runner(fixes, Considering(|fixes|, recorded), outcomes.value))
      || (db.Mine() == Runner(fixes, Done, outcomes.value) && outcomes.value != []
          && !outcomes.value[|outcomes.value| - 1].Applied?)
    ensures outcomes.Some? ==> forall k :: 0 <= k < |outcomes.value| - 1 ==> outcomes.value[k].Applied?
  {
    var read := db.ReadRecords(fixes);
    if read.None? { return None; }
    var recorded := read.value;
    var reports: seq<Report> := [];
    for i := 0 to |fixes|
      invariant db.Valid() && old(db.trace) <= db.trace
      invariant db.Mine() == Runner(fixes, Considering(i, recorded), reports)
      invariant forall k :: 0 <= k < |reports| ==> reports[k].Applied?
    {
      if fixes[i].id in recorded {
        db.Query(Advance(db.me));
      } else {
        var report := db.ApplyFix(fixes[i], i);
        reports := reports + [report];
        if !report.Applied? { return Some(reports); }
      }
    }
    return Some(reports);
  }

  /** A run that reports no failure leaves every one of its fixes committed. */
  lemma NoFailureMeansAll<D>(db: Connection<D>, seed: D, recorded: map<nat, string>, reports: seq<Report>)
    requires db.Valid() && AllOk(db.run, seed, db.start)
    requires db.Mine() == Runner(db.Mine().fixes, Considering(|db.Mine().fixes|, recorded), reports)
    ensures |db.Mine().fixes| <= |db.world.base.history| && BaseOk(db.run, seed, db.world.base)
  {
    StillInOrder(db, seed);
    assert RunnerOk(db.run, db.world.base, db.Mine());
  }

  /** The reports it returns are true of the whole database: what it says it applied is committed, and by its own
      transaction; what is committed by its transactions it reported as applied or as possibly applied. */
  lemma ReportsHold<D>(db: Connection<D>, seed: D, id: nat)
    requires db.Valid() && Initial(seed, db.start)
    ensures var b := db.world.base;
      && (Applied(id) in db.Mine().reports ==> 1 <= id <= |b.history| && b.history[id - 1].runner == db.me)
      && (1 <= id <= |b.history| && b.history[id - 1].runner == db.me ==> Claims(db.Mine(), id))
  {
    PassesIsExec(db.run, db.states, db.trace);
    ReportsStayTrue(db.run, seed, db.start, db.trace);
    assert ReportsTrue(db.world);
    if 1 <= id <= |db.world.base.history| && db.world.base.history[id - 1].runner == db.me {
      var c := db.world.base.history[id - 1];
      assert Claims(db.world.runners[c.runner], (id - 1) + 1);
    }
  }
}
