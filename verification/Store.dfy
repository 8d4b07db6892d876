// The three tables and their guarded batches: apps/control/src/store.ts.
module Store {
  import opened Basics
  import opened Registry
  import opened Resolve
  import opened Classify

  datatype Caller = Caller(role: Role, name: string)

  datatype Channel = Panel | Api | Cli | Rpc

  datatype ChangeRow = ChangeRow(
    at: int, actor: Caller, target: string, from: Option<string>, to: Option<string>,
    reason: Option<string>, channel: Channel, proposalId: Option<nat>)

  datatype Status = Open | Approved | Rejected | Withdrawn | Stale

  datatype ProposalRow = ProposalRow(
    createdAt: int, expiresAt: int, proposer: Caller, target: string, from: Option<string>, to: Option<string>,
    reason: string, status: Status, decidedAt: Option<int>, decidedBy: Option<Caller>, note: Option<string>)

  /** Row ids count from 1 in insertion order: rows are never deleted. */
  datatype Db = Db(state: StateMap, log: seq<ChangeRow>, proposals: seq<ProposalRow>)

  datatype ApprovalOf = ApprovalOf(id: nat, decidedBy: Caller, note: Option<string>)

  datatype ApplyInput = ApplyInput(
    target: string, expected: Option<string>, from: Option<string>, to: Option<string>,
    actor: Caller, channel: Channel, reason: Option<string>, now: int, proposal: Option<ApprovalOf>)

  datatype NewProposal = NewProposal(
    proposer: Caller, target: string, from: Option<string>, to: Option<string>,
    reason: string, now: int, expiresAt: int)

  predicate HasProposal(ps: seq<ProposalRow>, id: nat) { 1 <= id <= |ps| }

  predicate Live(p: ProposalRow, now: int) { p.status.Open? && p.expiresAt > now }

  // ---------- applyChange ----------

  /** The shared guard: the row still holds what was classified and, for an approval, the proposal is live. */
  predicate Guard(db: Db, input: ApplyInput) {
    && Get(db.state, input.target) == input.expected
    && (input.proposal.Some? ==>
      HasProposal(db.proposals, input.proposal.value.id) && Live(db.proposals[input.proposal.value.id - 1], input.now))
  }

  function LogRow(input: ApplyInput): ChangeRow {
    ChangeRow(input.now, input.actor, input.target, input.from, input.to, input.reason, input.channel,
              if input.proposal.Some? then Some(input.proposal.value.id) else None)
  }

  function Decide(p: ProposalRow, status: Status, now: int, decider: Caller, note: Option<string>): ProposalRow {
    p.(status := status, decidedAt := Some(now), decidedBy := Some(decider), note := note)
  }

  /** All three writes, as one step. */
  function Commit(db: Db, input: ApplyInput): Db
    requires Guard(db, input)
  {
    var closed := match input.proposal
      case None => db.proposals
      case Some(a) => db.proposals[a.id - 1 := Decide(db.proposals[a.id - 1], Approved, input.now, a.decidedBy, a.note)];
    Db(Write(db.state, input.target, input.to), db.log + [LogRow(input)], closed)
  }

  /** All of the batch or none of it; the id of the log row when it applied. */
  function ApplyChange(db: Db, input: ApplyInput): (Db, Option<nat>) {
    if Guard(db, input) then (Commit(db, input), Some(|db.log| + 1)) else (db, None)
  }

  /** A change-log row carries a proposal's id only once that proposal is approved. */
  ghost predicate LoggedIsApproved(db: Db) {
    forall k :: 0 <= k < |db.log| && db.log[k].proposalId.Some? ==>
      HasProposal(db.proposals, db.log[k].proposalId.value) && db.proposals[db.log[k].proposalId.value - 1].status.Approved?
  }

  // ---------- fileProposal and closeProposal ----------

  predicate SameAsk(p: ProposalRow, target: string, from: Option<string>, to: Option<string>) {
    p.target == target && p.from == from && p.to == to
  }

  predicate LiveAsk(p: ProposalRow, input: NewProposal) {
    SameAsk(p, input.target, input.from, input.to) && Live(p, input.now)
  }

  /** The newest row satisfying the filing's own conditions; 0 when there is none. */
  function NewestLiveAsk(ps: seq<ProposalRow>, input: NewProposal): (id: nat)
    ensures id <= |ps|
    ensures id > 0 ==> LiveAsk(ps[id - 1], input)
    ensures forall k :: id <= k < |ps| ==> !LiveAsk(ps[k], input)
  {
    if ps == [] then 0
    else if LiveAsk(ps[|ps| - 1], input) then |ps|
    else NewestLiveAsk(ps[..|ps| - 1], input)
  }

  /** How many of the rows this proposer holds open and unexpired at a time. */
  function CountLive(ps: seq<ProposalRow>, proposer: Caller, now: int): nat {
    if ps == [] then 0
    else CountLive(ps[..|ps| - 1], proposer, now)
         + if ps[|ps| - 1].proposer == proposer && Live(ps[|ps| - 1], now) then 1 else 0
  }

  function NewRow(input: NewProposal): ProposalRow {
    ProposalRow(input.now, input.expiresAt, input.proposer, input.target, input.from, input.to, input.reason,
                Open, None, None, None)
  }

  datatype Filed = Filed(id: nat, duplicate: bool)

  predicate MayInsert(ps: seq<ProposalRow>, input: NewProposal, maxOpen: nat) {
    NewestLiveAsk(ps, input) == 0 && CountLive(ps, input.proposer, input.now) < maxOpen
  }

  /** Insert unless an identical ask is live or the proposer is at the cap, then read the live ask back. */
  function FileProposal(db: Db, input: NewProposal, maxOpen: nat): (Db, Option<Filed>) {
    var insert := MayInsert(db.proposals, input, maxOpen);
    var ps := if insert then db.proposals + [NewRow(input)] else db.proposals;
    var id := NewestLiveAsk(ps, input);
    (db.(proposals := ps), if id == 0 then None else Some(Filed(id, !insert)))
  }

  function CloseProposal(db: Db, id: nat, status: Status, decider: Caller, note: Option<string>, now: int): (Db, bool) {
    if HasProposal(db.proposals, id) && Live(db.proposals[id - 1], now)
    then (db.(proposals := db.proposals[id - 1 := Decide(db.proposals[id - 1], status, now, decider, note)]), true)
    else (db, false)
  }

  // ---------- The store itself ----------

  class ControlStore {
    var state: StateMap
    var changeLog: seq<ChangeRow>
    var proposals: seq<ProposalRow>

    function Snapshot(): Db
      reads this
    {
      Db(state, changeLog, proposals)
    }

    ghost predicate Valid()
      reads this
    {
      LoggedIsApproved(Snapshot())
    }

    constructor ()
      ensures Valid() && Snapshot() == Db(map[], [], [])
    {
      state, changeLog, proposals := map[], [], [];
    }

    /** Three statements, each under its own condition. The third does not repeat the guard: it relies on the
        log row the first one wrote, so that it fires exactly with them rests on Valid(). */
    method Apply(input: ApplyInput) returns (changeId: Option<nat>)
      requires Valid()
      modifies this
      ensures Valid()
      ensures (Snapshot(), changeId) == ApplyChange(old(Snapshot()), input)
    {
      var guard := Guard(Snapshot(), input);
      changeId := None;
      if guard {
        changeLog := changeLog + [LogRow(input)];
        changeId := Some(|changeLog|);
      }
      // The first statement touched neither state nor proposals, so the same guard reads the same values.
      if Guard(Snapshot(), input) {
        state := Write(state, input.target, input.to);
      }
      assert guard ==> changeLog[|changeLog| - 1] == LogRow(input);
      if input.proposal.Some? {
        var a := input.proposal.value;
        if HasProposal(proposals, a.id) && proposals[a.id - 1].status.Open?
           && (exists k :: 0 <= k < |changeLog| && changeLog[k].proposalId == Some(a.id)) {
          proposals := proposals[a.id - 1 := Decide(proposals[a.id - 1], Approved, input.now, a.decidedBy, a.note)];
        }
      }
    }

    method File(input: NewProposal, maxOpen: nat) returns (filed: Option<Filed>)
      requires Valid()
      modifies this`proposals
      ensures Valid()
      ensures (Snapshot(), filed) == FileProposal(old(Snapshot()), input, maxOpen)
    {
      var inserted := MayInsert(proposals, input, maxOpen);
      if inserted {
        proposals := proposals + [NewRow(input)];
      }
      var id := NewestLiveAsk(proposals, input);
      filed := if id == 0 then None else Some(Filed(id, !inserted));
    }

    method Close(id: nat, status: Status, decider: Caller, note: Option<string>, now: int) returns (closed: bool)
      requires Valid() && (status.Rejected? || status.Withdrawn? || status.Stale?)
      modifies this`proposals
      ensures Valid()
      ensures (Snapshot(), closed) == CloseProposal(old(Snapshot()), id, status, decider, note, now)
    {
      closed := HasProposal(proposals, id) && Live(proposals[id - 1], now);
      if closed {
        proposals := proposals[id - 1 := Decide(proposals[id - 1], status, now, decider, note)];
      }
    }
  }
}
