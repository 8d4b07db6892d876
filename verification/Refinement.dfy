// The interleaved protocol against an atomic one, and the change log as the state's whole history.
module Refinement {
  import opened Basics
  import opened Registry
  import opened Targets
  import opened Resolve
  import opened Classify
  import opened Store
  import opened Service
  import opened Protocol
  import opened Ratchet

  lemma AdvancePending(r: Registry, db: Db, task: Task)
    requires Pending(task)
    ensures Pending(Advance(r, db, task).1)
  {
    match task {
      case Fresh(req) =>
        if req.ChangeReq? { ChangeOutcomes(r, req, db.state); }
        else if req.ProposeReq? { ProposeShape(r, req, db.state); }
      case GotProposal(req, p) => DecisionShape(req, p, Get(db.state, p.target), ApprovableNow(r, db.state, p));
      case _ =>
    }
  }

  /** A request that makes n database calls with nothing else in between. */
  function Uninterrupted(r: Registry, db: Db, task: Task, n: nat): (Db, Task)
    requires Pending(task)
    decreases n
  {
    if n == 0 then (db, task)
    else
      var (after, next) := Advance(r, db, task);
      AdvancePending(r, db, task);
      Uninterrupted(r, after, next, n - 1)
  }

  /** The atomic machine: read, classify and write at one instant. No request needs more than three calls. */
  function Atomically(r: Registry, db: Db, req: Request): (Db, Task) {
    Uninterrupted(r, db, Fresh(req), 3)
  }

  lemma DoneStays(r: Registry, db: Db, task: Task, n: nat)
    requires task.Done?
    ensures Uninterrupted(r, db, task, n) == (db, task)
  {
  }

  lemma TripAttemptOnlyLabels(r: Registry, req: Request, state: StateMap, attempt: nat, input: ApplyInput)
    requires req.TripReq? && DecideTrip(r, req, state, attempt) == Committing(req, input, attempt)
    ensures DecideTrip(r, req, state, 1) == Committing(req, input, 1)
  {
  }

  lemma CommitAlone(r: Registry, db: Db, task: Task, first: Task)
    requires task.Committing? && Guard(db, task.input) && Pending(task)
    requires Advance(r, db, Fresh(task.req)) == (db, first) && first.Committing? && first.input == task.input
    ensures Atomically(r, db, task.req) == Advance(r, db, task)
  {
    var (after, next) := Advance(r, db, first);
    assert Advance(r, db, task) == (after, next);
    AdvancePending(r, db, Fresh(task.req));
    DoneStays(r, after, next, 1);
    assert Uninterrupted(r, db, first, 2) == (after, next);
  }

  lemma ApproveAlone(r: Registry, db: Db, task: Task)
    requires task.Committing? && task.req.ApproveReq? && task.req.caller.role == Owner && Guard(db, task.input)
    requires task.input.proposal == Some(ApprovalOf(task.req.id, task.req.caller, task.req.note)) && task.input.now == task.req.now
    requires DecideOnProposal(r, task.req, db.proposals[task.req.id - 1], db.state) == task
    ensures Atomically(r, db, task.req) == Advance(r, db, task)
  {
    var got := GotProposal(task.req, db.proposals[task.req.id - 1]);
    assert Advance(r, db, Fresh(task.req)) == (db, got);
    assert Advance(r, db, got) == (db, task);
    var (after, next) := Advance(r, db, task);
    DoneStays(r, after, next, 0);
    assert Uninterrupted(r, db, task, 1) == (after, next);
    assert Uninterrupted(r, db, got, 2) == (after, next);
  }

  lemma ChangeIsAtomic(r: Registry, db: Db, task: Task)
    requires task.Committing? && task.req.ChangeReq? && CommittingOk(r, db.proposals, task) && Guard(db, task.input)
    ensures Atomically(r, db, task.req) == Advance(r, db, task)
  {
    var row := RowOnly(task.input.target, task.input.expected);
    RowOnlyReads(task.input.target, task.input.expected);
    ChangeDecided(r, task.req, row);
    ChangeReadsOneRow(r, task.req, db.state, row);
    CommitAlone(r, db, task, task);
  }

  lemma TripIsAtomic(r: Registry, db: Db, task: Task)
    requires task.Committing? && task.req.TripReq? && CommittingOk(r, db.proposals, task) && Guard(db, task.input)
    ensures Atomically(r, db, task.req) == Advance(r, db, task)
  {
    var row := RowOnly(task.input.target, task.input.expected);
    RowOnlyReads(task.input.target, task.input.expected);
    TripDecided(r, task.req, row, task.attempt);
    TripReadsOneRow(r, task.req, db.state, row, task.attempt);
    TripAttemptOnlyLabels(r, task.req, db.state, task.attempt, task.input);
    CommitAlone(r, db, task, Committing(task.req, task.input, 1));
  }

  lemma ApprovalIsAtomic(r: Registry, db: Db, task: Task)
    requires task.Committing? && task.req.ApproveReq? && CommittingOk(r, db.proposals, task) && Guard(db, task.input)
    requires var p := db.proposals[task.req.id - 1]; Trim(p.target) == p.target
    ensures Atomically(r, db, task.req) == Advance(r, db, task)
  {
    ApprovalHolds(r, db, task);
    ApproveAlone(r, db, task);
  }

  /** At a commit that wins, the approval is what deciding on the proposal in this very state gives. */
  lemma ApprovalHolds(r: Registry, db: Db, task: Task)
    requires task.Committing? && task.req.ApproveReq? && CommittingOk(r, db.proposals, task) && Guard(db, task.input)
    requires var p := db.proposals[task.req.id - 1]; Trim(p.target) == p.target
    ensures var p := db.proposals[task.req.id - 1];
      && DecideOnProposal(r, task.req, p, db.state) == task
      && ApprovableNow(r, db.state, p) == Approvable(task.input.from, task.input.to)
      && task.input.target == p.target && task.input.actor == task.req.caller && task.input.now == task.req.now
      && task.input.proposal == Some(ApprovalOf(task.req.id, task.req.caller, task.req.note))
  {
    var p := db.proposals[task.req.id - 1];
    var state: StateMap :| Get(state, p.target) == task.input.expected && DecideOnProposal(r, task.req, p, state) == task;
    ApprovalDecided(task.req, p, Get(state, p.target), ApprovableNow(r, state, p));
    DecisionReadsOneRow(r, task.req, p, p, db.state, state);
    ApprovalDecided(task.req, p, Get(db.state, p.target), ApprovableNow(r, db.state, p));
  }

  /**
   * A commit that wins its compare-and-set is the atomic request run at that very instant: same tables
   * after, same answer, even if the row changed and changed back since it was read.
   */
  lemma CommitIsAtomic(r: Registry, db: Db, task: Task)
    requires WellFormed(r) && NothingShadowed(r) && AddressesTrimmed(db.proposals)
    requires task.Committing? && TaskOk(r, db.proposals, task) && Guard(db, task.input)
    ensures Atomically(r, db, task.req) == Advance(r, db, task)
  {
    if task.req.ChangeReq? {
      ChangeIsAtomic(r, db, task);
    } else if task.req.TripReq? {
      TripIsAtomic(r, db, task);
    } else {
      ApprovalIsAtomic(r, db, task);
    }
  }

  /** A lost race writes nothing at all. */
  lemma LostRaceWritesNothing(r: Registry, db: Db, task: Task)
    requires task.Committing? && !Guard(db, task.input)
    ensures var (after, next) := Advance(r, db, task);
      after == db && (next == Refuse(Conflict) || next == Retrying(task.req, task.attempt + 1))
  {
  }

  // ---------- The change log replays to the state ----------

  /** The state after applying a run of change-log rows to a seed, oldest first. */
  function Replay(seed: StateMap, log: seq<ChangeRow>): StateMap {
    if log == [] then seed
    else
      var last := log[|log| - 1];
      Write(Replay(seed, log[..|log| - 1]), last.target, last.to)
  }

  /** The row says what its target resolved to just before, and stores a value that reads back as itself. */
  ghost predicate EntryOk(r: Registry, before: StateMap, row: ChangeRow) {
    exists t :: Readable(r, t) && FormatTarget(t) == row.target
      && row.from == DesiredValue(r, before, t) && ReadRow(r, t, row.to) == row.to
  }

  ghost predicate AuditOk(r: Registry, seed: StateMap, log: seq<ChangeRow>, state: StateMap) {
    && Replay(seed, log) == state
    && forall i :: 0 <= i < |log| ==> EntryOk(r, Replay(seed, log[..i]), log[i])
  }

  lemma EntryIs(r: Registry, state: StateMap, input: ApplyInput, t: Target)
    requires Readable(r, t) && FormatTarget(t) == input.target
    requires Get(state, input.target) == input.expected
    requires input.from == ReadRow(r, t, input.expected) && ReadRow(r, t, input.to) == input.to
    ensures EntryOk(r, state, LogRow(input))
  {
    assert LogRow(input).from == DesiredValue(r, state, t);
  }

  lemma ChangeEntry(r: Registry, db: Db, task: Task)
    requires WellFormed(r)
    requires task.Committing? && task.req.ChangeReq? && CommittingOk(r, db.proposals, task) && Guard(db, task.input)
    ensures EntryOk(r, db.state, LogRow(task.input))
  {
    RowOnlyReads(task.input.target, task.input.expected);
    ChangeDecided(r, task.req, RowOnly(task.input.target, task.input.expected));
    var t := ParseAsk(r, task.req.target, task.req.value).value.0;
    WriteThenRead(r, t, task.req.value);
    EntryIs(r, db.state, task.input, t);
  }

  lemma TripEntry(r: Registry, db: Db, task: Task)
    requires task.Committing? && task.req.TripReq? && CommittingOk(r, db.proposals, task) && Guard(db, task.input)
    ensures EntryOk(r, db.state, LogRow(task.input))
  {
    RowOnlyReads(task.input.target, task.input.expected);
    TripDecided(r, task.req, RowOnly(task.input.target, task.input.expected), task.attempt);
    EntryIs(r, db.state, task.input, ModeTarget(StageEntry(task.req.stage)));
  }

  /** What approving a proposal writes under this registry: its value typed again and parsed. */
  ghost predicate ParsesTo(r: Registry, p: ProposalRow, to: Option<string>) {
    ParseAsk(r, p.target, Retyped(p.to)).Ok? && ParseAsk(r, p.target, Retyped(p.to)).value.1 == to
  }

  /** The proposed value is one this registry's parser produces for the proposal's target. */
  ghost predicate ProposesCanonical(r: Registry, p: ProposalRow) {
    ParseTarget(r, p.target).Ok? && Settable(r, ParseTarget(r, p.target).value)
    && Canonical(r, ParseTarget(r, p.target).value, p.to)
  }

  /**
   * Whatever the proposal holds, an approval carries its target and its from, and writes what its value parses
   * to today.
   */
  lemma ApprovalFields(r: Registry, ps: seq<ProposalRow>, task: Task)
    requires task.Committing? && task.req.ApproveReq? && CommittingOk(r, ps, task)
    ensures var p := ps[task.req.id - 1];
      && task.input.target == p.target && task.input.from == p.from && ParsesTo(r, p, task.input.to)
      && task.input.proposal == Some(ApprovalOf(task.req.id, task.req.caller, task.req.note))
  {
    var p := ps[task.req.id - 1];
    var state: StateMap :| Get(state, p.target) == task.input.expected && DecideOnProposal(r, task.req, p, state) == task;
    ApprovalDecided(task.req, p, Get(state, p.target), ApprovableNow(r, state, p));
  }

  lemma ApprovalEntry(r: Registry, db: Db, task: Task)
    requires WellFormed(r)
    requires task.Committing? && task.req.ApproveReq? && CommittingOk(r, db.proposals, task) && Guard(db, task.input)
    requires var p := db.proposals[task.req.id - 1]; Trim(p.target) == p.target
    ensures EntryOk(r, db.state, LogRow(task.input))
  {
    var p := db.proposals[task.req.id - 1];
    ApprovalHolds(r, db, task);
    FormatParse(r, p.target);
    var t := ParseAsk(r, p.target, Retyped(p.to)).value.0;
    WriteThenRead(r, t, Retyped(p.to));
    EntryIs(r, db.state, task.input, t);
  }

  /** The value an approval writes is the proposal's own exactly when that one is canonical today. */
  lemma ProposedToIsApplied(r: Registry, p: ProposalRow, to: Option<string>)
    requires WellFormed(r) && ParsesTo(r, p, to)
    ensures to == p.to <==> ProposesCanonical(r, p)
  {
    var t := ParseAsk(r, p.target, Retyped(p.to)).value.0;
    if ProposesCanonical(r, p) {
      var raw :| ParseValue(r, t, raw) == Ok(p.to);
      ParseValueIdempotent(r, t, raw);
    }
    if to == p.to { assert ParseValue(r, t, Retyped(p.to)) == Ok(p.to); }
  }

  lemma CommitEntryOk(r: Registry, db: Db, task: Task)
    requires WellFormed(r) && NothingShadowed(r) && AddressesTrimmed(db.proposals)
    requires task.Committing? && TaskOk(r, db.proposals, task) && Guard(db, task.input)
    ensures EntryOk(r, db.state, LogRow(task.input))
  {
    if task.req.ChangeReq? {
      ChangeEntry(r, db, task);
    } else if task.req.TripReq? {
      TripEntry(r, db, task);
    } else {
      ApprovalEntry(r, db, task);
    }
  }

  lemma ReplayAppend(seed: StateMap, log: seq<ChangeRow>, row: ChangeRow)
    ensures Replay(seed, log + [row]) == Write(Replay(seed, log), row.target, row.to)
  {
    assert (log + [row])[..|log|] == log;
  }

  lemma AuditAppend(r: Registry, seed: StateMap, log: seq<ChangeRow>, state: StateMap, row: ChangeRow)
    requires AuditOk(r, seed, log, state) && EntryOk(r, state, row)
    ensures AuditOk(r, seed, log + [row], Write(state, row.target, row.to))
  {
    ReplayAppend(seed, log, row);
    var after := log + [row];
    forall i | 0 <= i < |after| ensures EntryOk(r, Replay(seed, after[..i]), after[i]) {
      assert after[..i] == if i < |log| then log[..i] else log;
      assert i == |log| ==> log[..i] == log;
    }
  }

  lemma AuditEffect(r: Registry, db: Db, eff: Effect)
    requires WellFormed(r) && NothingShadowed(r) && AddressesTrimmed(db.proposals)
    requires EffectOk(r, db.proposals, eff) && !eff.Overwrites?
    ensures var after := ApplyEffect(db, eff);
      if eff.Commits? && Guard(db, eff.input)
      then after.log == db.log + [LogRow(eff.input)] && EntryOk(r, db.state, LogRow(eff.input))
           && after.state == Write(db.state, eff.input.target, eff.input.to)
      else after.log == db.log && after.state == db.state
  {
    if eff.Commits? && Guard(db, eff.input) {
      var req, attempt :| CommittingOk(r, db.proposals, Committing(req, eff.input, attempt));
      CommitEntryOk(r, db, Committing(req, eff.input, attempt));
    }
  }

  lemma AuditStep(r: Registry, seed: StateMap, base: nat, s: System, e: Event, s': System)
    requires WellFormed(r) && NothingShadowed(r) && TasksOk(r, s) && Step(r, s, e, s') && !e.ByHand?
    requires AddressesTrimmed(s.db.proposals)
    requires base <= |s.db.log| && AuditOk(r, seed, s.db.log[base..], s.db.state)
    ensures s.db.log <= s'.db.log && AuditOk(r, seed, s'.db.log[base..], s'.db.state)
  {
    var eff := StepEffect(s, e);
    StepHasEffect(r, s, e, s');
    StepEffectOk(r, s, e);
    AuditEffect(r, s.db, eff);
    if eff.Commits? && Guard(s.db, eff.input) {
      AuditGrows(r, seed, base, s.db, s'.db, LogRow(eff.input));
    }
  }

  lemma AuditGrows(r: Registry, seed: StateMap, base: nat, db: Db, after: Db, row: ChangeRow)
    requires base <= |db.log| && AuditOk(r, seed, db.log[base..], db.state) && EntryOk(r, db.state, row)
    requires after.log == db.log + [row] && after.state == Write(db.state, row.target, row.to)
    ensures AuditOk(r, seed, after.log[base..], after.state)
  {
    assert after.log[base..] == db.log[base..] + [row];
    AuditAppend(r, seed, db.log[base..], db.state, row);
  }

  /**
   * Once trimmed, always trimmed; and what is filed in a run is canonical under the registry it runs with.
   */
  lemma {:induction false} FilingsThroughout(r: Registry, events: seq<Event>, states: seq<System>, k: nat)
    requires WellFormed(r) && NothingShadowed(r) && IsRun(r, events, states) && TasksOk(r, states[0]) && k < |states|
    ensures |states[0].db.proposals| <= |states[k].db.proposals|
    ensures AddressesTrimmed(states[0].db.proposals) ==> AddressesTrimmed(states[k].db.proposals)
    ensures CanonicalFrom(r, states[k].db.proposals, |states[0].db.proposals|)
  {
    if k > 0 {
      FilingsThroughout(r, events, states, k - 1);
      TasksOkThroughout(r, events, states, k - 1);
      StepKeepsTasks(r, states[k - 1], events[k - 1], states[k]);
      StepKeepsFilings(r, states[k - 1], events[k - 1], states[k], |states[0].db.proposals|);
    }
  }

  /**
   * In every run without writes by hand, replaying the rows logged since the start over the starting state
   * gives exactly the current state, and every one of them says what its target resolved to just before.
   */
  lemma {:induction false} AuditTrail(r: Registry, events: seq<Event>, states: seq<System>, k: nat)
    requires WellFormed(r) && NothingShadowed(r) && IsRun(r, events, states) && TasksOk(r, states[0])
    requires AddressesTrimmed(states[0].db.proposals) && k < |states| && forall i :: 0 <= i < k ==> !events[i].ByHand?
    ensures states[0].db.log <= states[k].db.log
    ensures AuditOk(r, states[0].db.state, states[k].db.log[|states[0].db.log|..], states[k].db.state)
  {
    var seed, base := states[0].db.state, |states[0].db.log|;
    if k == 0 {
      assert states[0].db.log[base..] == [];
    } else {
      AuditTrail(r, events, states, k - 1);
      TasksOkThroughout(r, events, states, k - 1);
      FilingsThroughout(r, events, states, k - 1);
      AuditStep(r, seed, base, states[k - 1], events[k - 1], states[k]);
    }
  }

  lemma {:induction false} ReplayUntouched(seed: StateMap, log: seq<ChangeRow>, i: nat, j: nat, key: string)
    requires i <= j <= |log| && forall k :: i <= k < j ==> log[k].target != key
    ensures Get(Replay(seed, log[..j]), key) == Get(Replay(seed, log[..i]), key)
  {
    if i < j {
      ReplayUntouched(seed, log, i, j - 1, key);
      assert log[..j][..j - 1] == log[..j - 1];
    }
  }

  lemma JoinUp(r: Registry, s1: StateMap, s2: StateMap, row1: ChangeRow, row2: ChangeRow)
    requires WellFormed(r) && NothingShadowed(r) && EntryOk(r, s1, row1) && EntryOk(r, s2, row2)
    requires row1.target == row2.target && Get(s2, row2.target) == row1.to
    ensures row2.from == row1.to
  {
    var t :| Readable(r, t) && FormatTarget(t) == row1.target && row1.from == DesiredValue(r, s1, t) && ReadRow(r, t, row1.to) == row1.to;
    var u :| Readable(r, u) && FormatTarget(u) == row2.target && row2.from == DesiredValue(r, s2, u) && ReadRow(r, u, row2.to) == row2.to;
    FormatInjective(r, t, u);
  }

  lemma ReplayLast(seed: StateMap, log: seq<ChangeRow>, i: nat, j: nat)
    requires i < j <= |log| && forall k :: i < k < j ==> log[k].target != log[i].target
    ensures Get(Replay(seed, log[..j]), log[i].target) == log[i].to
  {
    ReplayUntouched(seed, log, i + 1, j, log[i].target);
    assert log[..i + 1] == log[..i] + [log[i]];
    ReplayAppend(seed, log[..i], log[i]);
  }

  /** Consecutive rows of one target join up: the later one starts from exactly what the earlier one stored. */
  lemma EntriesJoinUp(r: Registry, seed: StateMap, log: seq<ChangeRow>, state: StateMap, i: nat, j: nat)
    requires WellFormed(r) && NothingShadowed(r) && AuditOk(r, seed, log, state)
    requires i < j < |log| && log[i].target == log[j].target
    requires forall k :: i < k < j ==> log[k].target != log[i].target
    ensures log[j].from == log[i].to
  {
    ReplayLast(seed, log, i, j);
    JoinUp(r, Replay(seed, log[..i]), Replay(seed, log[..j]), log[i], log[j]);
  }
}
