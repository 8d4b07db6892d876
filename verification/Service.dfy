// The control plane's operations as steps that each touch the database once: apps/control/src/service.ts.
// Between two steps of one request any other request may run.
module Service {
  import opened Basics
  import opened Registry
  import opened Targets
  import opened Resolve
  import opened Classify
  import opened Store

  const MAX_OPEN_PROPOSALS := 20
  const PROPOSAL_TTL_MS := 7 * 24 * 60 * 60 * 1000
  const TRIP_ATTEMPTS := 3

  /** A reason as normalizeReason leaves it: blank, unusable (not text, too long), or one line. */
  datatype ReasonText = BlankReason | BadReason | Reason(text: string)

  datatype Request =
    | ChangeReq(caller: Caller, target: string, value: string, seen: Option<string>, reason: ReasonText,
                channel: Channel, now: int, dryRun: bool, proposeIfNeeded: bool)
    | ProposeReq(caller: Caller, target: string, value: string, reason: ReasonText, now: int)
    | ApproveReq(caller: Caller, id: nat, note: Option<string>, channel: Channel, now: int)
    | RejectReq(caller: Caller, id: nat, note: Option<string>, now: int)
    | WithdrawReq(caller: Caller, id: nat, now: int)
    | TripReq(caller: Caller, stage: string, tripReason: Option<string>, channel: Channel, now: int)

  datatype Refusal =
    | InvalidTarget | InvalidValue | InvalidReason | InvalidTrip | Moved | Forbidden | NeedsApproval | Conflict
    | TooManyProposals | NoChange | NotFound | Expired | NotOpen | StaleProposal | NotProposer

  datatype Response =
    | Applied(changeId: nat, from: Option<string>, to: Option<string>)
    | Noop | DryRun(decision: Classification)
    | Proposed(filed: Filed)
    | Closed(status: Status)
    | Refused(why: Refusal)

  /** Where a request is between two database calls. */
  datatype Task =
    | Fresh(req: Request)
    | GotProposal(req: Request, row: ProposalRow)
    | Committing(req: Request, input: ApplyInput, attempt: nat)
    | Retrying(req: Request, attempt: nat)
    | Filing(req: Request, proposal: NewProposal)
    | Closing(req: Request, status: Status, note: Option<string>)
    | Done(response: Response)

  function Refuse(why: Refusal): Task { Done(Refused(why)) }

  // ---------- requestChange and propose ----------

  /** requestChange once its target, value and row are known. */
  function ChangeTask(req: Request, address: string, expected: Option<string>, from: Option<string>, to: Option<string>, decision: Classification): Task
    requires req.ChangeReq?
  {
    var reason := if req.reason.Reason? then Some(req.reason.text) else None;
    if to == expected || (expected == None && to == from) then Done(Noop)
    else if req.seen.Some? && req.seen.value != Retyped(from) then Refuse(Moved)
    else if req.dryRun then Done(DryRun(decision))
    else match decision.outcome
      case Deny => Refuse(Forbidden)
      case Propose =>
        if req.proposeIfNeeded && reason.Some?
        then Filing(req, NewProposal(req.caller, address, from, to, reason.value, req.now, req.now + PROPOSAL_TTL_MS))
        else Refuse(NeedsApproval)
      case Apply =>
        Committing(req, ApplyInput(address, expected, from, to, req.caller, req.channel, reason, req.now, None), 1)
  }

  /** A request's target and value, parsed; or why it is refused before any read. */
  function ParseAsk(r: Registry, target: string, raw: string): (ask: Result<(Target, Option<string>), Refusal>)
    ensures ask.Ok? ==> Settable(r, ask.value.0)
  {
    var parsed := ParseTarget(r, target);
    if parsed.Err? then Err(InvalidTarget)
    else
      FormatParse(r, target);
      var value := ParseValue(r, parsed.value, raw);
      if value.Err? then Err(InvalidValue) else Ok((parsed.value, value.value))
  }

  function ChangeOnRow(r: Registry, req: Request, t: Target, to: Option<string>, raw: Option<string>): Task
    requires req.ChangeReq? && Readable(r, t)
  {
    var from := ReadRow(r, t, raw);
    ChangeTask(req, FormatTarget(t), raw, from, to, ClassifyChange(r, t, from, to, req.caller.role))
  }

  /** The owner may leave the reason out; anyone else must give a usable one. */
  predicate ReasonMissing(req: Request)
    requires req.ChangeReq?
  {
    req.reason.BadReason? || (req.reason.BlankReason? && req.caller.role != Owner)
  }

  /** requestChange up to its write, from one read of the state. */
  function DecideChange(r: Registry, req: Request, state: StateMap): Task
    requires req.ChangeReq?
  {
    var ask := ParseAsk(r, req.target, req.value);
    if ask.Err? then Refuse(ask.error)
    else if ReasonMissing(req) then Refuse(InvalidReason)
    else ChangeOnRow(r, req, ask.value.0, ask.value.1, Get(state, FormatTarget(ask.value.0)))
  }

  function DecidePropose(r: Registry, req: Request, state: StateMap): Task
    requires req.ProposeReq?
  {
    if req.caller.role == Runtime then Refuse(Forbidden)
    else
      var ask := ParseAsk(r, req.target, req.value);
      if ask.Err? then Refuse(ask.error)
      else if !req.reason.Reason? then Refuse(InvalidReason)
      else
        var (t, to) := ask.value;
        var from := DesiredValue(r, state, t);
        if to == from then Refuse(NoChange)
        else Filing(req, NewProposal(req.caller, FormatTarget(t), from, to, req.reason.text, req.now, req.now + PROPOSAL_TTL_MS))
  }

  // ---------- approve, reject, withdraw ----------

  /** openProposal: the row, when it exists, is open and has not lapsed. */
  function ReadOpen(ps: seq<ProposalRow>, id: nat, now: int): Result<ProposalRow, Refusal> {
    if !HasProposal(ps, id) then Err(NotFound)
    else if ps[id - 1].status.Open? && ps[id - 1].expiresAt <= now then Err(Expired)
    else if !ps[id - 1].status.Open? then Err(NotOpen)
    else Ok(ps[id - 1])
  }

  datatype Approvable = Approvable(from: Option<string>, to: Option<string>) | NotApprovable

  /** What approving would apply now, or that it is stale. */
  function ApprovableNow(r: Registry, state: StateMap, p: ProposalRow): Approvable {
    var ask := ParseAsk(r, p.target, Retyped(p.to));
    if ask.Err? then NotApprovable
    else
      var from := DesiredValue(r, state, ask.value.0);
      if from != p.from || ask.value.1 == from then NotApprovable else Approvable(from, ask.value.1)
  }

  function OnProposal(req: Request, p: ProposalRow, raw: Option<string>, a: Approvable): Task
    requires req.ApproveReq? || req.RejectReq?
  {
    if a.NotApprovable? then Closing(req, Stale, Some("stale"))
    else if req.RejectReq? then Closing(req, Rejected, req.note)
    else
      Committing(req, ApplyInput(p.target, raw, a.from, a.to, req.caller, req.channel, Some(p.reason),
                                 req.now, Some(ApprovalOf(req.id, req.caller, req.note))), 1)
  }

  function DecideOnProposal(r: Registry, req: Request, p: ProposalRow, state: StateMap): Task
    requires req.ApproveReq? || req.RejectReq?
  {
    OnProposal(req, p, Get(state, p.target), ApprovableNow(r, state, p))
  }

  function BeginOnProposal(req: Request, ps: seq<ProposalRow>): Task
    requires req.ApproveReq? || req.RejectReq? || req.WithdrawReq?
  {
    if (if req.WithdrawReq? then req.caller.role == Runtime else req.caller.role != Owner) then Refuse(Forbidden)
    else
      var p := ReadOpen(ps, req.id, req.now);
      if p.Err? then Refuse(p.error)
      else if !req.WithdrawReq? then GotProposal(req, p.value)
      else if p.value.proposer != req.caller then Refuse(NotProposer)
      else Closing(req, Withdrawn, None)
  }

  // ---------- trip ----------

  /** Why a trip is refused before it reads: not a runtime, not its own stage, not a listed reason. */
  function TripRefusal(r: Registry, req: Request): Option<Refusal>
    requires req.TripReq?
  {
    if req.caller.role != Runtime then Some(Forbidden)
    else if req.stage !in r.stages then Some(InvalidTrip)
    else if r.stages[req.stage].runtime != req.caller.name then Some(Forbidden)
    else if req.tripReason.None? then Some(InvalidTrip)
    else None
  }

  function DecideTrip(r: Registry, req: Request, state: StateMap, attempt: nat): Task
    requires req.TripReq?
  {
    if TripRefusal(r, req).Some? then Refuse(TripRefusal(r, req).value)
    else
      var t := ModeTarget(StageEntry(req.stage));
      var expected := Get(state, req.stage);
      var from := ReadRow(r, t, expected);
      if expected == Some("off") || (expected == None && from == Some("off")) then Done(Noop)
      else if !ClassifyChange(r, t, from, Some("off"), req.caller.role).outcome.Apply? then Refuse(Forbidden)
      else
        Committing(req, ApplyInput(req.stage, expected, from, Some("off"), req.caller, req.channel, req.tripReason, req.now, None), attempt)
  }

  // ---------- One database call of one request ----------

  predicate Pending(task: Task) {
    match task
    case GotProposal(req, _) => req.ApproveReq? || req.RejectReq?
    case Retrying(req, _) => req.TripReq?
    case Closing(req, status, _) =>
      && (req.ApproveReq? || req.RejectReq? || req.WithdrawReq?)
      && (status.Rejected? || status.Withdrawn? || status.Stale?)
    case _ => true
  }

  function Advance(r: Registry, db: Db, task: Task): (Db, Task)
    requires Pending(task)
  {
    match task
    case Fresh(req) =>
      (db, match req
        case ChangeReq(_, _, _, _, _, _, _, _, _) => DecideChange(r, req, db.state)
        case ProposeReq(_, _, _, _, _) => DecidePropose(r, req, db.state)
        case TripReq(_, _, _, _, _) => DecideTrip(r, req, db.state, 1)
        case _ => BeginOnProposal(req, db.proposals))
    case GotProposal(req, p) => (db, DecideOnProposal(r, req, p, db.state))
    case Retrying(req, attempt) => (db, DecideTrip(r, req, db.state, attempt))
    case Committing(req, input, attempt) =>
      var (after, changeId) := ApplyChange(db, input);
      (after,
       if changeId.Some? then Done(Applied(changeId.value, input.from, input.to))
       else if req.TripReq? && attempt < TRIP_ATTEMPTS then Retrying(req, attempt + 1)
       else Refuse(Conflict))
    case Filing(_, p) =>
      var (after, filed) := FileProposal(db, p, MAX_OPEN_PROPOSALS);
      (after, if filed.Some? then Done(Proposed(filed.value)) else Refuse(TooManyProposals))
    case Closing(req, status, note) =>
      var (after, closed) := CloseProposal(db, req.id, status, req.caller, note, req.now);
      (after, if !closed then Refuse(Conflict) else if req.ApproveReq? then Refuse(StaleProposal) else Done(Closed(status)))
    case Done(_) => (db, task)
  }
}
