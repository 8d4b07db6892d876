// Nobody but the owner ever makes anything more on, in any interleaving.
module Ratchet {
  import opened Basics
  import opened Registry
  import opened Targets
  import opened Resolve
  import opened Classify
  import opened Store
  import opened Service
  import opened Protocol

  lemma {:induction false} TasksOkThroughout(r: Registry, events: seq<Event>, states: seq<System>, k: nat)
    requires WellFormed(r) && NothingShadowed(r)
    requires IsRun(r, events, states) && TasksOk(r, states[0]) && k < |states|
    ensures TasksOk(r, states[k])
  {
    if k > 0 {
      TasksOkThroughout(r, events, states, k - 1);
      StepKeepsTasks(r, states[k - 1], events[k - 1], states[k]);
    }
  }

  lemma SafeToApply(r: Registry, state: StateMap, t: Target, raw: Option<string>, to: Option<string>, role: Role)
    requires WellFormed(r) && NothingShadowed(r) && Readable(r, t) && role != Owner
    requires Get(state, FormatTarget(t)) == raw && ReadRow(r, t, to) == to
    requires ClassifyChange(r, t, ReadRow(r, t, raw), to, role).outcome.Apply?
    ensures NoTargetRiskier(r, state, Write(state, FormatTarget(t), to))
  {
    ResolvedIsMeasured(r, t, raw);
    ResolvedIsMeasured(r, t, to);
    NonOwnerNeverRaises(r, t, ReadRow(r, t, raw), to, role);
    SafeWrite(r, state, t, to);
  }

  /**
   * A commit decided by anyone but the owner, whenever it lands: the compare-and-set makes the old reading
   * of its own row still true, and every other row may meanwhile hold anything.
   */
  lemma CommitIsSafe(r: Registry, db: Db, task: Task)
    requires WellFormed(r) && NothingShadowed(r)
    requires task.Committing? && TaskOk(r, db.proposals, task) && Guard(db, task.input)
    requires task.input.actor.role != Owner
    ensures NoTargetRiskier(r, db.state, Commit(db, task.input).state)
  {
    var row := RowOnly(task.input.target, task.input.expected);
    RowOnlyReads(task.input.target, task.input.expected);
    OnlyOwnersApprove(r, db.proposals, task);
    match task.req {
      case ChangeReq(_, _, _, _, _, _, _, _, _) =>
        ChangeDecided(r, task.req, row);
        var (t, to) := ParseAsk(r, task.req.target, task.req.value).value;
        WriteThenRead(r, t, task.req.value);
        SafeToApply(r, db.state, t, task.input.expected, to, task.req.caller.role);
      case TripReq(_, _, _, _, _) =>
        TripDecided(r, task.req, row, task.attempt);
        SafeToApply(r, db.state, ModeTarget(StageEntry(task.req.stage)), task.input.expected, Some("off"), Runtime);
      case _ =>
    }
  }

  /** A commit that is neither a change nor a trip is an approval, and its actor is the owner. */
  lemma OnlyOwnersApprove(r: Registry, ps: seq<ProposalRow>, task: Task)
    requires task.Committing? && TaskOk(r, ps, task)
    ensures task.req.ChangeReq? || task.req.TripReq? || (task.req.ApproveReq? && task.input.actor.role == Owner)
  {
    if task.req.ApproveReq? {
      var p := ps[task.req.id - 1];
      var state: StateMap :| Get(state, p.target) == task.input.expected && DecideOnProposal(r, task.req, p, state) == task;
      ApprovalDecided(task.req, p, Get(state, p.target), ApprovableNow(r, state, p));
    }
  }

  lemma TripDecided(r: Registry, req: Request, state: StateMap, attempt: nat)
    requires req.TripReq? && DecideTrip(r, req, state, attempt).Committing?
    ensures var task := DecideTrip(r, req, state, attempt);
      && req.stage in r.stages && req.caller.role == Runtime && task.input.actor == req.caller
      && task.input.target == req.stage && task.input.to == Some("off") && task.input.proposal.None?
      && task.input.expected == Get(state, req.stage)
      && var t := ModeTarget(StageEntry(req.stage));
         && FormatTarget(t) == req.stage && task.input.from == ReadRow(r, t, task.input.expected)
         && ClassifyChange(r, t, task.input.from, Some("off"), Runtime).outcome.Apply?
    ensures ReadRow(r, ModeTarget(StageEntry(req.stage)), Some("off")) == Some("off")
  {
  }

  lemma ApprovalDecided(req: Request, p: ProposalRow, raw: Option<string>, a: Approvable)
    requires req.ApproveReq? && OnProposal(req, p, raw, a).Committing?
    ensures var input := OnProposal(req, p, raw, a).input;
      && a.Approvable? && input.actor == req.caller && input.target == p.target && input.expected == raw
      && input.from == a.from && input.to == a.to
      && input.proposal == Some(ApprovalOf(req.id, req.caller, req.note)) && input.now == req.now
  {
  }

  lemma StepIsSafe(r: Registry, s: System, e: Event, s': System)
    requires WellFormed(r) && NothingShadowed(r) && TasksOk(r, s) && Step(r, s, e, s') && !e.ByHand?
    ensures s'.db.state != s.db.state ==>
      && |s'.db.log| == |s.db.log| + 1 && s.db.log < s'.db.log
      && (s'.db.log[|s.db.log|].actor.role != Owner ==> NoTargetRiskier(r, s.db.state, s'.db.state))
  {
    StepHasEffect(r, s, e, s');
    StepEffectOk(r, s, e);
    EffectIsSafe(r, s.db, StepEffect(s, e));
  }

  lemma EffectIsSafe(r: Registry, db: Db, eff: Effect)
    requires WellFormed(r) && NothingShadowed(r) && EffectOk(r, db.proposals, eff) && !eff.Overwrites?
    ensures var after := ApplyEffect(db, eff);
      after.state != db.state ==>
      && |after.log| == |db.log| + 1 && db.log < after.log
      && (after.log[|db.log|].actor.role != Owner ==> NoTargetRiskier(r, db.state, after.state))
  {
    if eff.Commits? && Guard(db, eff.input) && eff.input.actor.role != Owner {
      var req, attempt :| CommittingOk(r, db.proposals, Committing(req, eff.input, attempt));
      CommitIsSafe(r, db, Committing(req, eff.input, attempt));
    }
  }

  /** The step logged a change of the owner's, or was a write by hand outside the service. */
  predicate OwnerActed(s: System, e: Event, s': System) {
    || e.ByHand?
    || (s.db.log < s'.db.log && |s'.db.log| == |s.db.log| + 1 && s'.db.log[|s.db.log|].actor.role == Owner)
  }

  lemma QuietStep(r: Registry, s: System, e: Event, s': System)
    requires WellFormed(r) && NothingShadowed(r) && TasksOk(r, s) && Step(r, s, e, s') && !OwnerActed(s, e, s')
    ensures s.db.state == s'.db.state || NoTargetRiskier(r, s.db.state, s'.db.state)
  {
    StepIsSafe(r, s, e, s');
  }

  ghost predicate OwnerActedBetween(events: seq<Event>, states: seq<System>, i: nat, j: nat) {
    exists k :: i <= k < j && k < |events| && k + 1 < |states| && OwnerActed(states[k], events[k], states[k + 1])
  }

  lemma QuietStepsDoNotRaise(r: Registry, s: System, e: Event, s': System, measure: StateMap -> real)
    requires WellFormed(r) && NothingShadowed(r) && TasksOk(r, s) && Step(r, s, e, s') && !OwnerActed(s, e, s')
    requires forall before, after :: NoTargetRiskier(r, before, after) ==> measure(after) <= measure(before)
    ensures measure(s'.db.state) <= measure(s.db.state)
  {
    QuietStep(r, s, e, s');
  }

  /** A measure of the state that no quiet step raises rises only where the owner acted. */
  lemma {:induction false} RisesNeedTheOwner(r: Registry, events: seq<Event>, states: seq<System>, i: nat, j: nat, measure: StateMap -> real)
    requires WellFormed(r) && NothingShadowed(r) && IsRun(r, events, states) && TasksOk(r, states[0])
    requires i <= j < |states|
    requires forall before, after :: NoTargetRiskier(r, before, after) ==> measure(after) <= measure(before)
    requires measure(states[j].db.state) > measure(states[i].db.state)
    ensures OwnerActedBetween(events, states, i, j)
    decreases j
  {
    var k := j - 1;
    TasksOkThroughout(r, events, states, k);
    assert Step(r, states[k], events[k], states[j]);
    if !OwnerActed(states[k], events[k], states[j]) {
      QuietStepsDoNotRaise(r, states[k], events[k], states[j], measure);
      RisesNeedTheOwner(r, events, states, i, k, measure);
    }
  }

  /**
   * Ratchet safety. In every run, from any stored values and any filed proposals, with requests of every role
   * interleaved at every database call: when the effective mode of the switch, a policy or any slice of a stage is more on
   * later than earlier, the owner changed something in between.
   */
  lemma EveryRiseIsTheOwners(r: Registry, events: seq<Event>, states: seq<System>, i: nat, j: nat, ref: Ref)
    requires WellFormed(r) && NothingShadowed(r) && IsRun(r, events, states) && TasksOk(r, states[0])
    requires i <= j < |states| && RefOk(r, ref)
    requires EffectiveRank(r, states[j].db.state, ref) > EffectiveRank(r, states[i].db.state, ref)
    ensures OwnerActedBetween(events, states, i, j)
  {
    forall before, after | NoTargetRiskier(r, before, after)
      ensures EffectiveRank(r, after, ref) <= EffectiveRank(r, before, ref)
    {
      EffectiveMonotone(r, before, after, ref);
    }
    RisesNeedTheOwner(r, events, states, i, j, state => EffectiveRank(r, state, ref) as real);
  }

  /** A knob's number on its riskier side. */
  function KnobRisk(r: Registry, state: StateMap, t: Target): real
    requires Readable(r, t) && t.KnobTarget?
  {
    if KnobDef(r, t).riskier.RiskUp? then KnobValue(r, state, t).value else -KnobValue(r, state, t).value
  }

  /** The same for every knob: it resolves further to its riskier side only through the owner. */
  lemma EveryRiskierKnobIsTheOwners(r: Registry, events: seq<Event>, states: seq<System>, i: nat, j: nat, t: Target)
    requires WellFormed(r) && NothingShadowed(r) && IsRun(r, events, states) && TasksOk(r, states[0])
    requires i <= j < |states| && Readable(r, t) && t.KnobTarget?
    requires KnobRisk(r, states[j].db.state, t) > KnobRisk(r, states[i].db.state, t)
    ensures OwnerActedBetween(events, states, i, j)
  {
    forall before, after | NoTargetRiskier(r, before, after)
      ensures KnobRisk(r, after, t) <= KnobRisk(r, before, t)
    {
      KnobMonotone(r, before, after, t);
    }
    RisesNeedTheOwner(r, events, states, i, j, state => KnobRisk(r, state, t));
  }
}
