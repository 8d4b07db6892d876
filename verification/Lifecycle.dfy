// What becomes of a proposal, and how many there can be.
module Lifecycle {
  import opened Basics
  import opened Registry
  import opened Targets
  import opened Resolve
  import opened Classify
  import opened Store
  import opened Service
  import opened Protocol
  import opened Ratchet
  import opened Refinement

  // ---------- Leaving `open` ----------

  /** A row is left alone, or decided: from open, at a time before its expiry, with nothing else changed. */
  predicate KeptOrDecided(p: ProposalRow, p': ProposalRow) {
    || p' == p
    || (p.status.Open? && !p'.status.Open? && SameProposal(p, p')
        && p'.decidedAt.Some? && p'.decidedAt.value < p.expiresAt && p'.decidedBy.Some?)
  }

  lemma StepDecides(r: Registry, s: System, e: Event, s': System, k: nat)
    requires Step(r, s, e, s') && k < |s.db.proposals|
    ensures k < |s'.db.proposals| && KeptOrDecided(s.db.proposals[k], s'.db.proposals[k])
  {
    StepHasEffect(r, s, e, s');
    StepClosesAsDecided(s, e);
    EffectDecides(s.db, StepEffect(s, e), k);
  }

  lemma StepClosesAsDecided(s: System, e: Event)
    ensures StepEffect(s, e).Closes? ==> !StepEffect(s, e).status.Open? && !StepEffect(s, e).status.Approved?
  {
  }

  lemma EffectDecides(db: Db, eff: Effect, k: nat)
    requires k < |db.proposals| && (eff.Closes? ==> !eff.status.Open?)
    ensures var after := ApplyEffect(db, eff);
      k < |after.proposals| && KeptOrDecided(db.proposals[k], after.proposals[k])
  {
  }

  /** A proposal leaves `open` at most once, never at or after its expiry, and is never touched again. */
  lemma {:induction false} DecidedOnce(r: Registry, events: seq<Event>, states: seq<System>, i: nat, j: nat, k: nat)
    requires IsRun(r, events, states) && i <= j < |states| && k < |states[i].db.proposals|
    ensures k < |states[j].db.proposals| && KeptOrDecided(states[i].db.proposals[k], states[j].db.proposals[k])
    decreases j
  {
    if i < j {
      DecidedOnce(r, events, states, i, j - 1, k);
      StepDecides(r, states[j - 1], events[j - 1], states[j], k);
    }
  }

  // ---------- Approval and the change log ----------

  ghost predicate LogMatches(log: seq<ChangeRow>, ps: seq<ProposalRow>, k: nat)
    requires k < |log|
  {
    log[k].proposalId.Some? ==>
      && HasProposal(ps, log[k].proposalId.value)
      && var p := ps[log[k].proposalId.value - 1];
         p.status.Approved? && log[k].target == p.target && log[k].from == p.from
  }

  ghost predicate Carries(log: seq<ChangeRow>, id: nat) {
    exists k :: 0 <= k < |log| && log[k].proposalId == Some(id)
  }

  /**
   * Approved exactly when one single row of the log carries the id; that row is on the proposed target, from the
   * proposed value. No registry is mentioned: the tables keep this across deploys.
   */
  ghost predicate ApprovalsOk(db: Db) {
    && (forall k :: 0 <= k < |db.log| ==> LogMatches(db.log, db.proposals, k))
    && (forall i, j :: 0 <= i < j < |db.log| && db.log[i].proposalId.Some? ==> db.log[i].proposalId != db.log[j].proposalId)
    && (forall id: nat :: HasProposal(db.proposals, id) && db.proposals[id - 1].status.Approved? ==> Carries(db.log, id))
  }

  /** Any one write, against the approvals. */
  lemma EffectKeepsApprovals(r: Registry, db: Db, eff: Effect)
    requires EffectOk(r, db.proposals, eff) && ApprovalsOk(db)
    ensures ApprovalsOk(ApplyEffect(db, eff))
  {
    match eff {
      case Commits(input) =>
        if Guard(db, input) {
          var req, attempt :| CommittingOk(r, db.proposals, Committing(req, input, attempt));
          CommitMatches(r, db.proposals, Committing(req, input, attempt));
          CommitKeeps(r, db, input);
        }
      case Closes(id, status, decider, note, now) => CloseKeeps(db, id, status, decider, note, now);
      case Files(p) => FileKeeps(db, p);
      case _ => OverwriteKeeps(db, ApplyEffect(db, eff));
    }
  }

  lemma OverwriteKeeps(db: Db, after: Db)
    requires ApprovalsOk(db) && after.log == db.log && after.proposals == db.proposals
    ensures ApprovalsOk(after)
  {
    forall k | 0 <= k < |after.log| ensures LogMatches(after.log, after.proposals, k) {
      assert LogMatches(db.log, db.proposals, k);
    }
    forall id: nat | HasProposal(after.proposals, id) && after.proposals[id - 1].status.Approved? ensures Carries(after.log, id) {
      assert Carries(db.log, id);
    }
  }

  lemma OnlyApprovalsCarryProposals(r: Registry, ps: seq<ProposalRow>, task: Task)
    requires task.Committing? && CommittingOk(r, ps, task) && task.input.proposal.Some?
    ensures task.req.ApproveReq?
  {
    var row := RowOnly(task.input.target, task.input.expected);
    if task.req.ChangeReq? { ChangeDecided(r, task.req, row); }
    if task.req.TripReq? { TripDecided(r, task.req, row, task.attempt); }
  }

  /** A log row of a proposal writes what that proposal's value parses to under this registry. */
  ghost predicate RowAsParsed(r: Registry, ps: seq<ProposalRow>, row: ChangeRow) {
    row.proposalId.Some? ==>
      HasProposal(ps, row.proposalId.value) && ParsesTo(r, ps[row.proposalId.value - 1], row.to)
  }

  /** The commit is of the proposal it carries, if any: its target, its from, and what its value parses to. */
  ghost predicate CommitsAsProposed(r: Registry, ps: seq<ProposalRow>, input: ApplyInput) {
    && (input.proposal.Some? ==>
      && HasProposal(ps, input.proposal.value.id)
      && var p := ps[input.proposal.value.id - 1];
         input.target == p.target && input.from == p.from)
    && RowAsParsed(r, ps, LogRow(input))
  }

  lemma ApprovalIsAsProposed(r: Registry, ps: seq<ProposalRow>, input: ApplyInput, a: ApprovalOf)
    requires input.proposal == Some(a) && HasProposal(ps, a.id)
    requires var p := ps[a.id - 1]; input.target == p.target && input.from == p.from && ParsesTo(r, p, input.to)
    ensures CommitsAsProposed(r, ps, input)
  {
    var row := LogRow(input);
    assert row.proposalId == Some(a.id) && row.to == input.to;
  }

  lemma PlainIsAsProposed(r: Registry, ps: seq<ProposalRow>, input: ApplyInput)
    requires input.proposal.None?
    ensures CommitsAsProposed(r, ps, input)
  {
    assert LogRow(input).proposalId.None?;
  }

  lemma CommitMatches(r: Registry, ps: seq<ProposalRow>, task: Task)
    requires task.Committing? && CommittingOk(r, ps, task)
    ensures CommitsAsProposed(r, ps, task.input)
  {
    if task.input.proposal.Some? {
      OnlyApprovalsCarryProposals(r, ps, task);
      ApprovalFields(r, ps, task);
      ApprovalIsAsProposed(r, ps, task.input, ApprovalOf(task.req.id, task.req.caller, task.req.note));
    } else {
      PlainIsAsProposed(r, ps, task.input);
    }
  }

  lemma CommitKeeps(r: Registry, db: Db, input: ApplyInput)
    requires ApprovalsOk(db) && Guard(db, input) && CommitsAsProposed(r, db.proposals, input)
    ensures ApprovalsOk(Commit(db, input))
  {
    if input.proposal.Some? { ApproveKeeps(db, input); } else { PlainCommitKeeps(db, input); }
  }

  lemma ApproveKeeps(db: Db, input: ApplyInput)
    requires ApprovalsOk(db) && Guard(db, input) && input.proposal.Some?
    requires var p := db.proposals[input.proposal.value.id - 1];
      input.target == p.target && input.from == p.from
    ensures ApprovalsOk(Commit(db, input))
  {
    var after := Commit(db, input);
    var id := input.proposal.value.id;
    assert after.log[|db.log|].proposalId == Some(id);
    forall k | 0 <= k < |after.log| ensures LogMatches(after.log, after.proposals, k) {
      if k < |db.log| { assert LogMatches(db.log, db.proposals, k); }
    }
    forall other: nat | HasProposal(after.proposals, other) && after.proposals[other - 1].status.Approved?
      ensures Carries(after.log, other)
    {
      if other != id {
        assert Carries(db.log, other);
        var k :| 0 <= k < |db.log| && db.log[k].proposalId == Some(other);
        assert after.log[k].proposalId == Some(other);
      }
    }
    forall i, j | 0 <= i < j < |after.log| && after.log[i].proposalId.Some?
      ensures after.log[i].proposalId != after.log[j].proposalId
    {
      assert LogMatches(db.log, db.proposals, i);
    }
  }

  lemma PlainCommitKeeps(db: Db, input: ApplyInput)
    requires ApprovalsOk(db) && Guard(db, input) && input.proposal.None?
    ensures ApprovalsOk(Commit(db, input))
  {
    var after := Commit(db, input);
    forall k | 0 <= k < |after.log| ensures LogMatches(after.log, after.proposals, k) {
      if k < |db.log| { assert LogMatches(db.log, db.proposals, k); }
    }
    forall id: nat | HasProposal(after.proposals, id) && after.proposals[id - 1].status.Approved? ensures Carries(after.log, id) {
      var k :| 0 <= k < |db.log| && db.log[k].proposalId == Some(id);
      assert after.log[k].proposalId == Some(id);
    }
  }

  lemma CloseKeeps(db: Db, id: nat, status: Status, decider: Caller, note: Option<string>, now: int)
    requires ApprovalsOk(db) && !status.Approved?
    ensures ApprovalsOk(CloseProposal(db, id, status, decider, note, now).0)
  {
    var after := CloseProposal(db, id, status, decider, note, now).0;
    forall k | 0 <= k < |after.log| ensures LogMatches(after.log, after.proposals, k) {
      assert LogMatches(db.log, db.proposals, k);
    }
  }

  lemma FileKeeps(db: Db, input: NewProposal)
    requires ApprovalsOk(db)
    ensures ApprovalsOk(FileProposal(db, input, MAX_OPEN_PROPOSALS).0)
  {
    var after := FileProposal(db, input, MAX_OPEN_PROPOSALS).0;
    forall k | 0 <= k < |after.log| ensures LogMatches(after.log, after.proposals, k) {
      assert LogMatches(db.log, db.proposals, k);
    }
  }

  lemma StepKeepsApprovals(r: Registry, s: System, e: Event, s': System)
    requires TasksOk(r, s) && Step(r, s, e, s') && ApprovalsOk(s.db)
    ensures ApprovalsOk(s'.db)
  {
    StepHasEffect(r, s, e, s');
    StepEffectOk(r, s, e);
    EffectKeepsApprovals(r, s.db, StepEffect(s, e));
  }

  lemma {:induction false} ApprovalsOkThroughout(r: Registry, events: seq<Event>, states: seq<System>, k: nat)
    requires WellFormed(r) && NothingShadowed(r) && IsRun(r, events, states) && TasksOk(r, states[0])
    requires ApprovalsOk(states[0].db) && k < |states|
    ensures ApprovalsOk(states[k].db)
  {
    if k > 0 {
      ApprovalsOkThroughout(r, events, states, k - 1);
      TasksOkThroughout(r, events, states, k - 1);
      StepKeepsApprovals(r, states[k - 1], events[k - 1], states[k]);
    }
  }

  ghost predicate LoggedAsParsed(r: Registry, db: Db, base: nat) {
    forall k :: base <= k < |db.log| ==> RowAsParsed(r, db.proposals, db.log[k])
  }

  lemma RowKept(r: Registry, ps: seq<ProposalRow>, ps': seq<ProposalRow>, row: ChangeRow)
    requires RowAsParsed(r, ps, row) && Extends(ps, ps')
    ensures RowAsParsed(r, ps', row)
  {
    if row.proposalId.Some? {
      var id := row.proposalId.value;
      SameParse(r, ps[id - 1], ps'[id - 1], row.to);
    }
  }

  lemma SameParse(r: Registry, p: ProposalRow, q: ProposalRow, to: Option<string>)
    requires SameProposal(p, q) && ParsesTo(r, p, to)
    ensures ParsesTo(r, q, to)
  {
  }

  lemma LogGrows(r: Registry, db: Db, after: Db, base: nat)
    requires LoggedAsParsed(r, db, base) && Extends(db.proposals, after.proposals)
    requires after.log == db.log || (|after.log| == |db.log| + 1 && db.log < after.log && RowAsParsed(r, db.proposals, after.log[|db.log|]))
    ensures LoggedAsParsed(r, after, base)
  {
    forall k | base <= k < |after.log| ensures RowAsParsed(r, after.proposals, after.log[k]) {
      RowKept(r, db.proposals, after.proposals, after.log[k]);
    }
  }

  /** The log gains the row of a commit that wins, and nothing else. */
  lemma EffectLogs(db: Db, eff: Effect)
    ensures var after := ApplyEffect(db, eff);
      && Extends(db.proposals, after.proposals)
      && after.log == if eff.Commits? && Guard(db, eff.input) then db.log + [LogRow(eff.input)] else db.log
  {
  }

  lemma EffectLogsAsParsed(r: Registry, db: Db, eff: Effect, base: nat)
    requires EffectOk(r, db.proposals, eff) && LoggedAsParsed(r, db, base)
    ensures LoggedAsParsed(r, ApplyEffect(db, eff), base)
  {
    EffectLogs(db, eff);
    if eff.Commits? && Guard(db, eff.input) { EffectCommitsAsProposed(r, db.proposals, eff.input); }
    LogGrows(r, db, ApplyEffect(db, eff), base);
  }

  lemma EffectCommitsAsProposed(r: Registry, ps: seq<ProposalRow>, input: ApplyInput)
    requires EffectOk(r, ps, Commits(input))
    ensures CommitsAsProposed(r, ps, input)
  {
    var req, attempt :| CommittingOk(r, ps, Committing(req, input, attempt));
    CommitMatches(r, ps, Committing(req, input, attempt));
  }

  lemma StepLogsAsParsed(r: Registry, s: System, e: Event, s': System, base: nat)
    requires TasksOk(r, s) && Step(r, s, e, s') && LoggedAsParsed(r, s.db, base)
    ensures s.db.log <= s'.db.log && LoggedAsParsed(r, s'.db, base)
  {
    StepHasEffect(r, s, e, s');
    StepEffectOk(r, s, e);
    EffectLogs(s.db, StepEffect(s, e));
    EffectLogsAsParsed(r, s.db, StepEffect(s, e), base);
  }

  lemma {:induction false} LoggedAsParsedThroughout(r: Registry, events: seq<Event>, states: seq<System>, k: nat)
    requires WellFormed(r) && NothingShadowed(r) && IsRun(r, events, states) && TasksOk(r, states[0]) && k < |states|
    ensures states[0].db.log <= states[k].db.log && LoggedAsParsed(r, states[k].db, |states[0].db.log|)
  {
    if k > 0 {
      LoggedAsParsedThroughout(r, events, states, k - 1);
      TasksOkThroughout(r, events, states, k - 1);
      StepLogsAsParsed(r, states[k - 1], events[k - 1], states[k], |states[0].db.log|);
    }
  }

  /** A row of the proposal, logged under this registry: what it wrote, and when that is what was proposed. */
  ghost predicate WrittenAsParsed(r: Registry, p: ProposalRow, to: Option<string>) {
    ParsesTo(r, p, to) && (to == p.to <==> ProposesCanonical(r, p))
  }

  lemma LoggedIsWritten(r: Registry, db: Db, base: nat, i: nat, id: nat)
    requires WellFormed(r) && LoggedAsParsed(r, db, base) && base <= i < |db.log|
    requires HasProposal(db.proposals, id) && db.log[i].proposalId == Some(id)
    ensures WrittenAsParsed(r, db.proposals[id - 1], db.log[i].to)
  {
    assert RowAsParsed(r, db.proposals, db.log[i]);
    ProposedToIsApplied(r, db.proposals[id - 1], db.log[i].to);
  }

  lemma FiledIsCanonical(r: Registry, ps: seq<ProposalRow>, base: nat, id: nat)
    requires CanonicalFrom(r, ps, base) && base < id <= |ps|
    ensures ProposesCanonical(r, ps[id - 1])
  {
    assert CanonicalAsk(r, ps[id - 1].target, ps[id - 1].to);
    FormatParse(r, ps[id - 1].target);
  }

  /**
   * In every state of every run, over whatever proposals the tables held at its start: a proposal is approved
   * exactly when one single row of the change log carries its id, and that row is on its target and from its from;
   * a rejected, withdrawn, stale or lapsed one has none.
   */
  lemma ApprovedExactlyWhenLogged(r: Registry, events: seq<Event>, states: seq<System>, k: nat, id: nat)
    requires WellFormed(r) && NothingShadowed(r) && IsRun(r, events, states) && TasksOk(r, states[0])
    requires ApprovalsOk(states[0].db) && k < |states| && HasProposal(states[k].db.proposals, id)
    ensures var db := states[k].db; var p := db.proposals[id - 1];
      && (p.status.Approved? <==> Carries(db.log, id))
      && (forall i, j :: 0 <= i < |db.log| && 0 <= j < |db.log| && db.log[i].proposalId == Some(id) && db.log[j].proposalId == Some(id) ==> i == j)
      && (forall i :: 0 <= i < |db.log| && db.log[i].proposalId == Some(id) ==> db.log[i].target == p.target && db.log[i].from == p.from)
  {
    ApprovalsOkThroughout(r, events, states, k);
    ApprovedIffCarried(states[k].db, id);
  }

  /**
   * A row logged in the run for a proposal writes what the proposed value parses to today, which is the proposed
   * value exactly when that one is canonical today; a proposal filed in the run always is.
   */
  lemma ApprovalsWriteTheProposed(r: Registry, events: seq<Event>, states: seq<System>, k: nat, i: nat, id: nat)
    requires WellFormed(r) && NothingShadowed(r) && IsRun(r, events, states) && TasksOk(r, states[0])
    requires k < |states| && |states[0].db.log| <= i < |states[k].db.log| && states[k].db.log[i].proposalId == Some(id)
    ensures var db := states[k].db;
      && HasProposal(db.proposals, id) && WrittenAsParsed(r, db.proposals[id - 1], db.log[i].to)
      && (id > |states[0].db.proposals| ==> db.log[i].to == db.proposals[id - 1].to)
  {
    LoggedAsParsedThroughout(r, events, states, k);
    FilingsThroughout(r, events, states, k);
    var db := states[k].db;
    assert RowAsParsed(r, db.proposals, db.log[i]);
    LoggedIsWritten(r, db, |states[0].db.log|, i, id);
    if id > |states[0].db.proposals| { FiledIsCanonical(r, db.proposals, |states[0].db.proposals|, id); }
  }

  // ---------- Where an approval starts from ----------

  /** The step of the run that logged row i of the final log. */
  ghost predicate LoggedBy(states: seq<System>, m: nat, k: nat, i: nat)
    requires m < k < |states| && i < |states[k].db.log|
  {
    |states[m].db.log| == i && states[m + 1].db.log == states[m].db.log + [states[k].db.log[i]]
  }

  lemma {:induction false} EveryRowWasLogged(r: Registry, events: seq<Event>, states: seq<System>, k: nat, i: nat) returns (m: nat)
    requires IsRun(r, events, states) && k < |states| && |states[0].db.log| <= i < |states[k].db.log|
    ensures m < k && LoggedBy(states, m, k, i)
  {
    StepHasEffect(r, states[k - 1], events[k - 1], states[k]);
    EffectLogs(states[k - 1].db, StepEffect(states[k - 1], events[k - 1]));
    if i < |states[k - 1].db.log| {
      m := EveryRowWasLogged(r, events, states, k - 1, i);
    } else {
      m := k - 1;
    }
  }

  lemma LoggingStep(r: Registry, s: System, e: Event, s': System)
    requires WellFormed(r) && NothingShadowed(r) && TasksOk(r, s) && Step(r, s, e, s') && AddressesTrimmed(s.db.proposals)
    requires |s'.db.log| > |s.db.log|
    ensures EntryOk(r, s.db.state, s'.db.log[|s.db.log|])
  {
    var eff := StepEffect(s, e);
    StepHasEffect(r, s, e, s');
    StepEffectOk(r, s, e);
    EffectLogs(s.db, eff);
    AuditEffect(r, s.db, eff);
  }

  /**
   * Just before the one step that logs a proposal's approval, its target resolved to the value it was proposed
   * from; writes by hand may come before and after.
   */
  lemma ApprovalStartsFromTheProposed(r: Registry, events: seq<Event>, states: seq<System>, k: nat, i: nat, id: nat) returns (m: nat, t: Target)
    requires WellFormed(r) && NothingShadowed(r) && IsRun(r, events, states) && TasksOk(r, states[0])
    requires ApprovalsOk(states[0].db) && AddressesTrimmed(states[0].db.proposals)
    requires k < |states| && |states[0].db.log| <= i < |states[k].db.log| && states[k].db.log[i].proposalId == Some(id)
    ensures m < k && LoggedBy(states, m, k, i) && HasProposal(states[k].db.proposals, id)
    ensures var p := states[k].db.proposals[id - 1];
      && Readable(r, t) && FormatTarget(t) == p.target && DesiredValue(r, states[m].db.state, t) == p.from
      && DesiredValue(r, states[m + 1].db.state, t) == states[k].db.log[i].to
  {
    m := EveryRowWasLogged(r, events, states, k, i);
    LoggedInRun(r, events, states, m);
    ApprovalsOkThroughout(r, events, states, k);
    RowIsTheProposals(states[k].db, i, id);
    t := EntryTarget(r, states[m].db.state, states[m + 1].db.state, states[k].db.log[i]);
  }

  lemma LoggedInRun(r: Registry, events: seq<Event>, states: seq<System>, m: nat)
    requires WellFormed(r) && NothingShadowed(r) && IsRun(r, events, states) && TasksOk(r, states[0])
    requires AddressesTrimmed(states[0].db.proposals)
    requires m + 1 < |states| && |states[m + 1].db.log| > |states[m].db.log|
    ensures var row := states[m + 1].db.log[|states[m].db.log|];
      EntryOk(r, states[m].db.state, row) && Get(states[m + 1].db.state, row.target) == row.to
  {
    TasksOkThroughout(r, events, states, m);
    FilingsThroughout(r, events, states, m);
    LoggingStep(r, states[m], events[m], states[m + 1]);
    LoggedWrites(r, states[m], events[m], states[m + 1]);
  }

  lemma RowIsTheProposals(db: Db, i: nat, id: nat)
    requires ApprovalsOk(db) && i < |db.log| && db.log[i].proposalId == Some(id)
    ensures HasProposal(db.proposals, id)
    ensures db.log[i].target == db.proposals[id - 1].target && db.log[i].from == db.proposals[id - 1].from
  {
    assert LogMatches(db.log, db.proposals, i);
  }

  lemma EntryTarget(r: Registry, before: StateMap, after: StateMap, row: ChangeRow) returns (t: Target)
    requires EntryOk(r, before, row) && Get(after, row.target) == row.to
    ensures Readable(r, t) && FormatTarget(t) == row.target
    ensures DesiredValue(r, before, t) == row.from && DesiredValue(r, after, t) == row.to
  {
    t :| Readable(r, t) && FormatTarget(t) == row.target && row.from == DesiredValue(r, before, t) && ReadRow(r, t, row.to) == row.to;
  }

  /** A step that logs a row stores that row's to under its target. */
  lemma LoggedWrites(r: Registry, s: System, e: Event, s': System)
    requires Step(r, s, e, s') && |s'.db.log| > |s.db.log|
    ensures Get(s'.db.state, s'.db.log[|s.db.log|].target) == s'.db.log[|s.db.log|].to
  {
    StepHasEffect(r, s, e, s');
    EffectLogs(s.db, StepEffect(s, e));
  }

  lemma ApprovedIffCarried(db: Db, id: nat)
    requires ApprovalsOk(db) && HasProposal(db.proposals, id)
    ensures db.proposals[id - 1].status.Approved? <==> Carries(db.log, id)
    ensures forall i :: 0 <= i < |db.log| && db.log[i].proposalId == Some(id) ==> LogMatches(db.log, db.proposals, i)
  {
    if Carries(db.log, id) {
      var k :| 0 <= k < |db.log| && db.log[k].proposalId == Some(id);
      assert LogMatches(db.log, db.proposals, k);
    }
  }

  // ---------- Filing is idempotent and capped ----------

  predicate SameAsks(p: ProposalRow, q: ProposalRow) {
    SameAsk(p, q.target, q.from, q.to)
  }

  /** An open row had lapsed before the same ask was filed again; a proposer was under the cap at each filing. */
  ghost predicate FilingsOk(ps: seq<ProposalRow>) {
    && (forall i, j :: 0 <= i < j < |ps| && SameAsks(ps[i], ps[j]) && ps[i].status.Open? ==> ps[i].expiresAt <= ps[j].createdAt)
    && (forall j :: 0 <= j < |ps| ==> CountLive(ps[..j], ps[j].proposer, ps[j].createdAt) < MAX_OPEN_PROPOSALS)
  }

  /** Rows only ever close, so a count of live ones only falls. */
  lemma {:induction false} CountFalls(ps: seq<ProposalRow>, ps': seq<ProposalRow>, proposer: Caller, now: int)
    requires |ps| == |ps'| && forall k :: 0 <= k < |ps| ==> KeptOrDecided(ps[k], ps'[k])
    ensures CountLive(ps', proposer, now) <= CountLive(ps, proposer, now)
  {
    if ps != [] {
      CountFalls(ps[..|ps| - 1], ps'[..|ps| - 1], proposer, now);
      assert KeptOrDecided(ps[|ps| - 1], ps'[|ps| - 1]);
    }
  }

  lemma {:induction false} CountFallsLater(ps: seq<ProposalRow>, proposer: Caller, now: int, later: int)
    requires now <= later
    ensures CountLive(ps, proposer, later) <= CountLive(ps, proposer, now)
  {
    if ps != [] { CountFallsLater(ps[..|ps| - 1], proposer, now, later); }
  }

  lemma ClosingKeepsFilings(ps: seq<ProposalRow>, ps': seq<ProposalRow>)
    requires FilingsOk(ps) && |ps| == |ps'| && forall k :: 0 <= k < |ps| ==> KeptOrDecided(ps[k], ps'[k])
    ensures FilingsOk(ps')
  {
    forall j | 0 <= j < |ps'|
      ensures CountLive(ps'[..j], ps'[j].proposer, ps'[j].createdAt) < MAX_OPEN_PROPOSALS
    {
      assert KeptOrDecided(ps[j], ps'[j]);
      CountFalls(ps[..j], ps'[..j], ps[j].proposer, ps[j].createdAt);
    }
    forall i, j | 0 <= i < j < |ps'| && SameAsks(ps'[i], ps'[j]) && ps'[i].status.Open?
      ensures ps'[i].expiresAt <= ps'[j].createdAt
    {
      assert KeptOrDecided(ps[i], ps'[i]) && KeptOrDecided(ps[j], ps'[j]);
    }
  }

  lemma FilingKeepsFilings(ps: seq<ProposalRow>, input: NewProposal)
    requires FilingsOk(ps) && MayInsert(ps, input, MAX_OPEN_PROPOSALS)
    ensures FilingsOk(ps + [NewRow(input)])
  {
    var after := ps + [NewRow(input)];
    forall j | 0 <= j < |after|
      ensures CountLive(after[..j], after[j].proposer, after[j].createdAt) < MAX_OPEN_PROPOSALS
    {
      assert after[..j] == ps[..j];
      assert j == |ps| ==> ps[..j] == ps;
    }
  }

  lemma EffectKeepsFilings(db: Db, eff: Effect)
    requires FilingsOk(db.proposals) && (eff.Closes? ==> !eff.status.Open?)
    ensures FilingsOk(ApplyEffect(db, eff).proposals)
  {
    if eff.Files? && MayInsert(db.proposals, eff.proposal, MAX_OPEN_PROPOSALS) {
      FilingKeepsFilings(db.proposals, eff.proposal);
    } else {
      var after := ApplyEffect(db, eff);
      forall i | 0 <= i < |db.proposals| ensures KeptOrDecided(db.proposals[i], after.proposals[i]) {
        EffectDecides(db, eff, i);
      }
      ClosingKeepsFilings(db.proposals, after.proposals);
    }
  }

  lemma {:induction false} FilingsOkThroughout(r: Registry, events: seq<Event>, states: seq<System>, k: nat)
    requires IsRun(r, events, states) && FilingsOk(states[0].db.proposals) && k < |states|
    ensures FilingsOk(states[k].db.proposals)
  {
    if k > 0 {
      FilingsOkThroughout(r, events, states, k - 1);
      StepHasEffect(r, states[k - 1], events[k - 1], states[k]);
      StepClosesAsDecided(states[k - 1], events[k - 1]);
      EffectKeepsFilings(states[k - 1].db, StepEffect(states[k - 1], events[k - 1]));
    }
  }

  /** The clock is at or past every filing time recorded. */
  predicate NotBefore(ps: seq<ProposalRow>, now: int) {
    forall k :: 0 <= k < |ps| ==> ps[k].createdAt <= now
  }

  lemma {:induction false} CapHolds(ps: seq<ProposalRow>, proposer: Caller, now: int)
    requires FilingsOk(ps) && NotBefore(ps, now)
    ensures CountLive(ps, proposer, now) <= MAX_OPEN_PROPOSALS
  {
    if ps != [] {
      var init, last := ps[..|ps| - 1], ps[|ps| - 1];
      assert forall j :: 0 <= j < |init| ==> init[..j] == ps[..j];
      CapHolds(init, proposer, now);
      if last.proposer == proposer && Live(last, now) {
        CountFallsLater(init, proposer, last.createdAt, now);
        assert init == ps[..|ps| - 1];
      }
    }
  }

  /**
   * At any time not before a clock already used: no ask is live twice, and no proposer holds more than the
   * cap. (A slower clock may still see an ask as live that a faster one has already filed again.)
   */
  lemma AskedOnceAndCapped(r: Registry, events: seq<Event>, states: seq<System>, k: nat, now: int)
    requires IsRun(r, events, states) && FilingsOk(states[0].db.proposals) && k < |states|
    requires NotBefore(states[k].db.proposals, now)
    ensures var ps := states[k].db.proposals;
      && (forall i, j :: 0 <= i < j < |ps| && Live(ps[i], now) && Live(ps[j], now) ==> !SameAsks(ps[i], ps[j]))
      && (forall proposer :: CountLive(ps, proposer, now) <= MAX_OPEN_PROPOSALS)
  {
    FilingsOkThroughout(r, events, states, k);
    forall proposer ensures CountLive(states[k].db.proposals, proposer, now) <= MAX_OPEN_PROPOSALS {
      CapHolds(states[k].db.proposals, proposer, now);
    }
  }

  /** Refiling a live ask adds nothing and returns that same row, even for a proposer at the cap. */
  lemma RefilingReturnsTheSame(db: Db, input: NewProposal, id: nat)
    requires FilingsOk(db.proposals) && NotBefore(db.proposals, input.now)
    requires HasProposal(db.proposals, id) && LiveAsk(db.proposals[id - 1], input)
    ensures FileProposal(db, input, MAX_OPEN_PROPOSALS) == (db, Some(Filed(id, true)))
  {
    var found := NewestLiveAsk(db.proposals, input);
    assert found >= id && SameAsks(db.proposals[id - 1], db.proposals[found - 1]);
  }

  /** A first filing under the cap appends exactly one open row and returns its id; at the cap, nothing. */
  lemma FirstFiling(db: Db, input: NewProposal)
    requires forall k :: 0 <= k < |db.proposals| ==> !LiveAsk(db.proposals[k], input)
    requires input.expiresAt > input.now
    ensures FileProposal(db, input, MAX_OPEN_PROPOSALS) ==
      if CountLive(db.proposals, input.proposer, input.now) < MAX_OPEN_PROPOSALS
      then (db.(proposals := db.proposals + [NewRow(input)]), Some(Filed(|db.proposals| + 1, false)))
      else (db, None)
  {
    assert NewestLiveAsk(db.proposals, input) == 0;
    assert NewestLiveAsk(db.proposals + [NewRow(input)], input) == |db.proposals| + 1;
  }
}
