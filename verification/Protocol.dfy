// Requests in flight, their database calls interleaved in any order, over tables holding anything.
module Protocol {
  import opened Basics
  import opened Registry
  import opened Targets
  import opened Resolve
  import opened Classify
  import opened Store
  import opened Service

  datatype System = System(db: Db, tasks: seq<Task>)

  /** A request arrives; one task makes its next database call; or someone writes the state table by hand. */
  datatype Event = Arrive(req: Request) | Run(i: nat) | ByHand(state: StateMap)

  predicate Step(r: Registry, s: System, e: Event, s': System) {
    match e
    case Arrive(req) => s' == System(s.db, s.tasks + [Fresh(req)])
    case Run(i) =>
      && i < |s.tasks| && Pending(s.tasks[i])
      && var (db, task) := Advance(r, s.db, s.tasks[i]);
         s' == System(db, s.tasks[i := task])
    case ByHand(state) => s' == System(s.db.(state := state), s.tasks)
  }

  ghost predicate IsRun(r: Registry, events: seq<Event>, states: seq<System>) {
    && |states| == |events| + 1
    && forall k :: 0 <= k < |events| ==> Step(r, states[k], events[k], states[k + 1])
  }

  // ---------- What every in-flight request carries ----------

  /** Only the row a request classified against, as a state of its own. */
  function RowOnly(key: string, raw: Option<string>): StateMap {
    Write(map[], key, raw)
  }

  /** What never changes about a filed proposal. */
  predicate SameProposal(p: ProposalRow, q: ProposalRow) {
    && p.createdAt == q.createdAt && p.expiresAt == q.expiresAt && p.proposer == q.proposer
    && p.target == q.target && p.from == q.from && p.to == q.to && p.reason == q.reason
  }

  /** Filed under its canonical address, with a value the parser produces. */
  ghost predicate CanonicalAsk(r: Registry, address: string, to: Option<string>) {
    && ParseTarget(r, address).Ok?
    && var t := ParseTarget(r, address).value;
       Readable(r, t) && FormatTarget(t) == address && Canonical(r, t, to)
  }

  /** An approval or rejection is what one read of the state decided, and carries the row that read saw. */
  ghost predicate DecidedOn(r: Registry, req: Request, p: ProposalRow, task: Task)
    requires (req.ApproveReq? || req.RejectReq?) && task.Committing?
  {
    exists state: StateMap :: Get(state, p.target) == task.input.expected && DecideOnProposal(r, req, p, state) == task
  }

  ghost predicate CommittingOk(r: Registry, ps: seq<ProposalRow>, task: Task)
    requires task.Committing?
  {
    var row := RowOnly(task.input.target, task.input.expected);
    match task.req
    case ChangeReq(_, _, _, _, _, _, _, _, _) => DecideChange(r, task.req, row) == task
    case TripReq(_, _, _, _, _) => DecideTrip(r, task.req, row, task.attempt) == task
    case ApproveReq(caller, id, _, _, now) =>
      && caller.role == Owner && HasProposal(ps, id) && ps[id - 1].expiresAt > now
      && DecidedOn(r, task.req, ps[id - 1], task)
    case _ => false
  }

  ghost predicate TaskOk(r: Registry, ps: seq<ProposalRow>, task: Task) {
    match task
    case Committing(_, _, _) => CommittingOk(r, ps, task)
    case GotProposal(req, row) =>
      && (req.ApproveReq? || req.RejectReq?) && req.caller.role == Owner
      && HasProposal(ps, req.id) && SameProposal(row, ps[req.id - 1]) && row.status.Open? && row.expiresAt > req.now
    case Filing(req, p) =>
      CanonicalAsk(r, p.target, p.to) && p.proposer.role != Runtime && p.expiresAt == p.now + PROPOSAL_TTL_MS
    case _ => Pending(task)
  }

  /** Holds of every system with no request in flight, whatever its tables hold. */
  ghost predicate TasksOk(r: Registry, s: System) {
    forall i :: 0 <= i < |s.tasks| ==> TaskOk(r, s.db.proposals, s.tasks[i])
  }

  /** Addresses as every registry's filings write them: no white space around. */
  predicate AddressesTrimmed(ps: seq<ProposalRow>) {
    forall k :: 0 <= k < |ps| ==> Trim(ps[k].target) == ps[k].target
  }

  /** The proposals from some row on are canonical under this registry; earlier ones may predate it. */
  ghost predicate CanonicalFrom(r: Registry, ps: seq<ProposalRow>, base: nat) {
    forall k :: base <= k < |ps| ==> CanonicalAsk(r, ps[k].target, ps[k].to)
  }

  /** Proposals are only appended, and a filed one only changes its decision. */
  ghost predicate Extends(ps: seq<ProposalRow>, ps': seq<ProposalRow>) {
    |ps| <= |ps'| && forall k :: 0 <= k < |ps| ==> SameProposal(ps[k], ps'[k])
  }

  lemma ParsedValueIsCanonical(r: Registry, t: Target, raw: string)
    requires Readable(r, t) && ParseValue(r, t, raw).Ok?
    ensures Canonical(r, t, ParseValue(r, t, raw).value)
  {
  }

  lemma AskIsCanonical(r: Registry, address: string, raw: string)
    requires WellFormed(r) && NothingShadowed(r) && ParseAsk(r, address, raw).Ok?
    ensures var (t, to) := ParseAsk(r, address, raw).value; CanonicalAsk(r, FormatTarget(t), to)
  {
    FormatParse(r, address);
    var t := ParseTarget(r, address).value;
    ParseFormat(r, t);
    ParsedValueIsCanonical(r, t, raw);
  }

  lemma RowOnlyReads(key: string, raw: Option<string>)
    ensures Get(RowOnly(key, raw), key) == raw
  {
  }

  /** Deciding a change reads one row: the same raw row gives the same decision. */
  lemma ChangeReadsOneRow(r: Registry, req: Request, s1: StateMap, s2: StateMap)
    requires req.ChangeReq?
    requires var ask := ParseAsk(r, req.target, req.value);
      ask.Ok? ==> Get(s1, FormatTarget(ask.value.0)) == Get(s2, FormatTarget(ask.value.0))
    ensures DecideChange(r, req, s1) == DecideChange(r, req, s2)
  {
  }

  lemma TripReadsOneRow(r: Registry, req: Request, s1: StateMap, s2: StateMap, attempt: nat)
    requires req.TripReq? && Get(s1, req.stage) == Get(s2, req.stage)
    ensures DecideTrip(r, req, s1, attempt) == DecideTrip(r, req, s2, attempt)
  {
  }

  /** Deciding on a proposal reads one row too, whatever the proposal holds: the one its address names. */
  lemma DecisionReadsOneRow(r: Registry, req: Request, p: ProposalRow, q: ProposalRow, s1: StateMap, s2: StateMap)
    requires (req.ApproveReq? || req.RejectReq?) && SameProposal(p, q) && Trim(p.target) == p.target
    requires Get(s1, p.target) == Get(s2, p.target)
    ensures DecideOnProposal(r, req, p, s1) == DecideOnProposal(r, req, q, s2)
  {
    if ParseTarget(r, p.target).Ok? { FormatParse(r, p.target); }
  }

  /** A change that is ready to commit carries what the classification of its own row allowed. */
  lemma ChangeDecided(r: Registry, req: Request, state: StateMap)
    requires req.ChangeReq? && DecideChange(r, req, state).Committing?
    ensures var task := DecideChange(r, req, state);
      && task.req == req && task.attempt == 1 && ParseAsk(r, req.target, req.value).Ok?
      && var (t, to) := ParseAsk(r, req.target, req.value).value;
         && task.input.target == FormatTarget(t) && task.input.to == to
         && task.input.expected == Get(state, FormatTarget(t))
         && task.input.from == ReadRow(r, t, task.input.expected)
         && task.input.actor == req.caller && task.input.proposal.None?
         && ClassifyChange(r, t, task.input.from, to, req.caller.role).outcome.Apply?
  {
    var (t, to) := ParseAsk(r, req.target, req.value).value;
    var raw := Get(state, FormatTarget(t));
    var from := ReadRow(r, t, raw);
    assert DecideChange(r, req, state)
      == ChangeTask(req, FormatTarget(t), raw, from, to, ClassifyChange(r, t, from, to, req.caller.role));
  }

  lemma StepKeepsTasks(r: Registry, s: System, e: Event, s': System)
    requires WellFormed(r) && NothingShadowed(r) && TasksOk(r, s) && Step(r, s, e, s')
    ensures TasksOk(r, s') && Extends(s.db.proposals, s'.db.proposals)
  {
    if e.Run? {
      AdvanceKeepsTask(r, s.db, s.tasks[e.i]);
      forall i | 0 <= i < |s'.tasks| ensures TaskOk(r, s'.db.proposals, s'.tasks[i]) {
        if i != e.i { TaskOkExtends(r, s.db.proposals, s'.db.proposals, s.tasks[i]); }
      }
    }
  }

  lemma SameDecision(r: Registry, req: Request, p: ProposalRow, q: ProposalRow, task: Task)
    requires (req.ApproveReq? || req.RejectReq?) && task.Committing? && SameProposal(p, q) && DecidedOn(r, req, p, task)
    ensures DecidedOn(r, req, q, task)
  {
    var state: StateMap :| Get(state, p.target) == task.input.expected && DecideOnProposal(r, req, p, state) == task;
    assert DecideOnProposal(r, req, q, state) == task;
  }

  lemma TaskOkExtends(r: Registry, ps: seq<ProposalRow>, ps': seq<ProposalRow>, task: Task)
    requires TaskOk(r, ps, task) && Extends(ps, ps')
    ensures TaskOk(r, ps', task)
  {
    if task.Committing? && task.req.ApproveReq? {
      var id := task.req.id;
      assert SameProposal(ps[id - 1], ps'[id - 1]);
      SameDecision(r, task.req, ps[id - 1], ps'[id - 1], task);
    }
  }

  lemma ReadKeepsTask(r: Registry, db: Db, task: Task)
    requires WellFormed(r) && NothingShadowed(r) && (task.Fresh? || task.GotProposal? || task.Retrying?)
    requires TaskOk(r, db.proposals, task)
    ensures Pending(task) && Advance(r, db, task).0 == db && TaskOk(r, db.proposals, Advance(r, db, task).1)
  {
    match task {
      case Fresh(req) => FreshKeepsTask(r, db, req);
      case GotProposal(req, p) => DecidingKeepsTask(r, db, req, p);
      case Retrying(req, attempt) => TripKeepsTask(r, db, req, attempt);
    }
  }

  lemma DecidingKeepsTask(r: Registry, db: Db, req: Request, p: ProposalRow)
    requires TaskOk(r, db.proposals, GotProposal(req, p))
    ensures TaskOk(r, db.proposals, DecideOnProposal(r, req, p, db.state))
  {
    var next := DecideOnProposal(r, req, p, db.state);
    DecisionShape(req, p, Get(db.state, p.target), ApprovableNow(r, db.state, p));
    if next.Committing? {
      assert DecidedOn(r, req, p, next);
      SameDecision(r, req, p, db.proposals[req.id - 1], next);
    }
  }

  lemma AdvanceKeepsTask(r: Registry, db: Db, task: Task)
    requires WellFormed(r) && NothingShadowed(r) && Pending(task) && TaskOk(r, db.proposals, task)
    ensures var (after, next) := Advance(r, db, task);
      Extends(db.proposals, after.proposals) && TaskOk(r, after.proposals, next)
  {
    if task.Fresh? || task.GotProposal? || task.Retrying? {
      ReadKeepsTask(r, db, task);
    } else {
      WritesExtend(r, db, task);
    }
  }

  /** The table writes: at most one proposal appended, and what they leave of each filed one. */
  ghost predicate ExtendedBy(ps: seq<ProposalRow>, ps': seq<ProposalRow>, p: Option<NewProposal>) {
    && Extends(ps, ps')
    && (p.None? ==> |ps'| == |ps|)
    && (p.Some? ==> forall k :: |ps| <= k < |ps'| ==> ps'[k] == NewRow(p.value))
  }

  lemma WritesExtend(r: Registry, db: Db, task: Task)
    requires (task.Committing? || task.Filing? || task.Closing? || task.Done?) && Pending(task)
    ensures var (after, next) := Advance(r, db, task);
      && ExtendedBy(db.proposals, after.proposals, if task.Filing? then Some(task.proposal) else None)
      && (next.Done? || (next.Retrying? && Pending(next)))
  {
  }

  lemma DecisionShape(req: Request, p: ProposalRow, raw: Option<string>, a: Approvable)
    requires req.ApproveReq? || req.RejectReq?
    ensures var next := OnProposal(req, p, raw, a);
      && (next.Committing? || (next.Closing? && Pending(next)))
      && (next.Committing? ==>
        && req.ApproveReq? && next.req == req && next.input.target == p.target && next.input.expected == raw)
  {
  }

  lemma TripKeepsTask(r: Registry, db: Db, req: Request, attempt: nat)
    requires req.TripReq?
    ensures TaskOk(r, db.proposals, DecideTrip(r, req, db.state, attempt))
  {
    RowOnlyReads(req.stage, Get(db.state, req.stage));
    TripReadsOneRow(r, req, db.state, RowOnly(req.stage, Get(db.state, req.stage)), attempt);
  }

  lemma FreshKeepsTask(r: Registry, db: Db, req: Request)
    requires WellFormed(r) && NothingShadowed(r)
    ensures TaskOk(r, db.proposals, Advance(r, db, Fresh(req)).1)
  {
    match req {
      case ChangeReq(_, _, _, _, _, _, _, _, _) => FreshChangeKeeps(r, db, req);
      case TripReq(_, _, _, _, _) => TripKeepsTask(r, db, req, 1);
      case ProposeReq(_, _, _, _, _) => FreshProposeKeeps(r, db, req);
      case _ => FreshOnProposalKeeps(r, db, req);
    }
  }

  lemma FreshProposeKeeps(r: Registry, db: Db, req: Request)
    requires WellFormed(r) && NothingShadowed(r) && req.ProposeReq?
    ensures TaskOk(r, db.proposals, DecidePropose(r, req, db.state))
  {
    var next := DecidePropose(r, req, db.state);
    ProposeShape(r, req, db.state);
    if next.Filing? { AskIsCanonical(r, req.target, req.value); }
  }

  lemma ProposeShape(r: Registry, req: Request, state: StateMap)
    requires req.ProposeReq?
    ensures var next := DecidePropose(r, req, state);
      && (next.Filing? || next.Done?)
      && (next.Filing? ==>
        && ParseAsk(r, req.target, req.value).Ok? && req.caller.role != Runtime
        && var (t, to) := ParseAsk(r, req.target, req.value).value;
           && next.proposal.target == FormatTarget(t) && next.proposal.to == to
           && next.proposal.proposer == req.caller
           && next.proposal.expiresAt == next.proposal.now + PROPOSAL_TTL_MS)
  {
  }

  lemma FreshOnProposalKeeps(r: Registry, db: Db, req: Request)
    requires req.ApproveReq? || req.RejectReq? || req.WithdrawReq?
    ensures TaskOk(r, db.proposals, BeginOnProposal(req, db.proposals))
  {
  }

  /** A change that becomes a proposal is an agent's, under the same address and value. */
  lemma ChangeFiled(r: Registry, req: Request, state: StateMap)
    requires req.ChangeReq? && DecideChange(r, req, state).Filing?
    ensures var task := DecideChange(r, req, state);
      && ParseAsk(r, req.target, req.value).Ok?
      && var (t, to) := ParseAsk(r, req.target, req.value).value;
         && task.proposal.target == FormatTarget(t) && task.proposal.to == to
         && task.proposal.proposer == req.caller && req.caller.role == Agent
         && task.proposal.expiresAt == task.proposal.now + PROPOSAL_TTL_MS
  {
    var (t, to) := ParseAsk(r, req.target, req.value).value;
    var raw := Get(state, FormatTarget(t));
    var from := ReadRow(r, t, raw);
    assert DecideChange(r, req, state)
      == ChangeTask(req, FormatTarget(t), raw, from, to, ClassifyChange(r, t, from, to, req.caller.role));
  }

  lemma ChangeOutcomes(r: Registry, req: Request, state: StateMap)
    requires req.ChangeReq?
    ensures var task := DecideChange(r, req, state); task.Committing? || task.Filing? || task.Done?
  {
  }

  lemma FreshChangeKeeps(r: Registry, db: Db, req: Request)
    requires WellFormed(r) && NothingShadowed(r) && req.ChangeReq?
    ensures TaskOk(r, db.proposals, DecideChange(r, req, db.state))
  {
    var next := DecideChange(r, req, db.state);
    ChangeOutcomes(r, req, db.state);
    if next.Committing? {
      ChangeDecided(r, req, db.state);
      var key := next.input.target;
      RowOnlyReads(key, Get(db.state, key));
      ChangeReadsOneRow(r, req, db.state, RowOnly(key, Get(db.state, key)));
    } else if next.Filing? {
      ChangeFiled(r, req, db.state);
      AskIsCanonical(r, req.target, req.value);
    }
  }

  // ---------- What one step may write ----------

  /** The one thing a database call does to the tables. */
  datatype Effect =
    | Nothing
    | Commits(input: ApplyInput)
    | Files(proposal: NewProposal)
    | Closes(id: nat, status: Status, decider: Caller, note: Option<string>, now: int)
    | Overwrites(state: StateMap)

  function EffectOf(task: Task): Effect
    requires Pending(task)
  {
    match task
    case Committing(_, input, _) => Commits(input)
    case Filing(_, p) => Files(p)
    case Closing(req, status, note) => Closes(req.id, status, req.caller, note, req.now)
    case _ => Nothing
  }

  function StepEffect(s: System, e: Event): Effect {
    match e
    case Arrive(_) => Nothing
    case ByHand(state) => Overwrites(state)
    case Run(i) => if i < |s.tasks| && Pending(s.tasks[i]) then EffectOf(s.tasks[i]) else Nothing
  }

  function ApplyEffect(db: Db, eff: Effect): Db {
    match eff
    case Nothing => db
    case Commits(input) => ApplyChange(db, input).0
    case Files(p) => FileProposal(db, p, MAX_OPEN_PROPOSALS).0
    case Closes(id, status, decider, note, now) => CloseProposal(db, id, status, decider, note, now).0
    case Overwrites(state) => db.(state := state)
  }

  lemma StepHasEffect(r: Registry, s: System, e: Event, s': System)
    requires Step(r, s, e, s')
    ensures s'.db == ApplyEffect(s.db, StepEffect(s, e))
  {
  }

  // ---------- What the filed proposals keep ----------

  lemma FiledAddressIsTrimmed(r: Registry, address: string, to: Option<string>)
    requires CanonicalAsk(r, address, to)
    ensures Trim(address) == address
  {
    FormatParse(r, address);
  }

  lemma TrimmedExtend(ps: seq<ProposalRow>, ps': seq<ProposalRow>, p: Option<NewProposal>)
    requires AddressesTrimmed(ps) && ExtendedBy(ps, ps', p) && (p.Some? ==> Trim(p.value.target) == p.value.target)
    ensures AddressesTrimmed(ps')
  {
    forall k | 0 <= k < |ps'| ensures Trim(ps'[k].target) == ps'[k].target {
      if k < |ps| { assert SameProposal(ps[k], ps'[k]); }
    }
  }

  lemma CanonicalExtend(r: Registry, ps: seq<ProposalRow>, ps': seq<ProposalRow>, p: Option<NewProposal>, base: nat)
    requires CanonicalFrom(r, ps, base) && ExtendedBy(ps, ps', p) && (p.Some? ==> CanonicalAsk(r, p.value.target, p.value.to))
    ensures CanonicalFrom(r, ps', base)
  {
    forall k | base <= k < |ps'| ensures CanonicalAsk(r, ps'[k].target, ps'[k].to) {
      if k < |ps| { assert CanonicalAsk(r, ps[k].target, ps[k].to) && SameProposal(ps[k], ps'[k]); }
    }
  }

  lemma StepFiles(r: Registry, s: System, e: Event, s': System)
    requires TasksOk(r, s) && Step(r, s, e, s')
    ensures var eff := StepEffect(s, e);
      && ExtendedBy(s.db.proposals, s'.db.proposals, if eff.Files? then Some(eff.proposal) else None)
      && (eff.Files? ==> CanonicalAsk(r, eff.proposal.target, eff.proposal.to) && Trim(eff.proposal.target) == eff.proposal.target)
  {
    StepHasEffect(r, s, e, s');
    var eff := StepEffect(s, e);
    FilingEffect(s.db, eff);
    if eff.Files? {
      assert TaskOk(r, s.db.proposals, s.tasks[e.i]);
      FiledAddressIsTrimmed(r, eff.proposal.target, eff.proposal.to);
    }
  }

  /** Filings stay trimmed, and those made under this registry canonical under it, in every run. */
  lemma StepKeepsFilings(r: Registry, s: System, e: Event, s': System, base: nat)
    requires TasksOk(r, s) && Step(r, s, e, s') && base <= |s.db.proposals|
    ensures AddressesTrimmed(s.db.proposals) ==> AddressesTrimmed(s'.db.proposals)
    ensures CanonicalFrom(r, s.db.proposals, base) ==> CanonicalFrom(r, s'.db.proposals, base)
  {
    StepFiles(r, s, e, s');
    var filed := if StepEffect(s, e).Files? then Some(StepEffect(s, e).proposal) else None;
    if AddressesTrimmed(s.db.proposals) { TrimmedExtend(s.db.proposals, s'.db.proposals, filed); }
    if CanonicalFrom(r, s.db.proposals, base) { CanonicalExtend(r, s.db.proposals, s'.db.proposals, filed, base); }
  }

  lemma FilingEffect(db: Db, eff: Effect)
    ensures ExtendedBy(db.proposals, ApplyEffect(db, eff).proposals, if eff.Files? then Some(eff.proposal) else None)
  {
  }

  /** What TaskOk means for the write a step is about to make. */
  ghost predicate EffectOk(r: Registry, ps: seq<ProposalRow>, eff: Effect) {
    match eff
    case Commits(input) => exists req, attempt :: CommittingOk(r, ps, Committing(req, input, attempt))
    case Closes(_, status, _, _, _) => status.Rejected? || status.Withdrawn? || status.Stale?
    case _ => true
  }

  lemma StepEffectOk(r: Registry, s: System, e: Event)
    requires TasksOk(r, s)
    ensures EffectOk(r, s.db.proposals, StepEffect(s, e))
  {
    if e.Run? && e.i < |s.tasks| && s.tasks[e.i].Committing? {
      var task := s.tasks[e.i];
      assert CommittingOk(r, s.db.proposals, Committing(task.req, task.input, task.attempt));
    }
  }
}
