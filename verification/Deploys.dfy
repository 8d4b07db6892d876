// What a deploy that changes the registry leaves of a proposal filed before it.
module Deploys {
  import opened Basics
  import opened Registry
  import opened Targets
  import opened Resolve
  import opened Classify
  import opened Store
  import opened Service
  import opened Protocol
  import opened Refinement
  import opened RegistryExample

  function TopMode(r: Registry, t: Target): string
    requires t.DimTarget? && t.stage in r.stages && r.stages[t.stage].modes != []
  {
    r.stages[t.stage].modes[|r.stages[t.stage].modes| - 1]
  }

  /** The one thing that can happen to a value over a deploy: its slice's stage now tops out at it. */
  predicate NowTheTop(r: Registry, t: Target, v: Option<string>)
    requires Readable(r, t)
  {
    t.DimTarget? && r.stages[t.stage].modes != [] && v == Some(TopMode(r, t))
  }

  lemma ModeText(m: string)
    requires IsMode(m)
    ensures Trim(m) == m && m != INHERIT && !IsDecimal(m)
  {
    TrimLeavesTrimmed(m);
  }

  /** A canonical value, as text: a mode name, a cleared override, or a number as it prints. */
  lemma CanonicalText(r: Registry, t: Target, v: Option<string>)
    requires WellFormed(r) && Readable(r, t) && Canonical(r, t, v)
    ensures t.KnobTarget? ==> v.Some? && r.numerics.number(v.value).Some? && r.numerics.show(r.numerics.number(v.value).value) == v.value
    ensures !t.KnobTarget? && v.Some? ==> IsMode(v.value)
    ensures v.None? ==> t.DimTarget?
    ensures Trim(Retyped(v)) == Retyped(v)
  {
    var raw :| ParseValue(r, t, raw) == Ok(v);
    TrimTwice(raw);
    if t.KnobTarget? {
      LawfulNumbers(r);
      KnobWriteThenRead(r.numerics, KnobDef(r, t), Trim(raw));
    } else if t.DimTarget? {
      ModesKnown(r, StageEntry(t.stage));
      if v.Some? { ModeText(v.value); }
    } else {
      ModesKnown(r, t.entry);
      ModeText(v.value);
    }
  }

  /** The address alone tells a slice override from the rest, whatever the registry. */
  lemma SameKind(r0: Registry, r: Registry, address: string)
    requires ParseTarget(r0, address).Ok? && ParseTarget(r, address).Ok?
    ensures ParseTarget(r0, address).value.DimTarget? <==> ParseTarget(r, address).value.DimTarget?
  {
  }

  lemma OverrideRetyped(modes: seq<string>, v: Option<string>)
    requires modes != [] && (v.Some? ==> IsMode(v.value)) && Trim(Retyped(v)) == Retyped(v)
    requires ParseOverrideValue(modes, Retyped(v)).Ok?
    ensures ParseOverrideValue(modes, Retyped(v)) == Ok(if v == Some(modes[|modes| - 1]) then None else v)
  {
    if v.Some? { ModeText(v.value); }
  }

  lemma RetypedElsewhere(r0: Registry, t0: Target, r: Registry, t: Target, v: Option<string>)
    requires WellFormed(r0) && Readable(r0, t0) && Canonical(r0, t0, v)
    requires WellFormed(r) && Readable(r, t) && r.numerics == r0.numerics
    requires (t0.DimTarget? <==> t.DimTarget?) && ParseValue(r, t, Retyped(v)).Ok?
    ensures var to := ParseValue(r, t, Retyped(v)).value;
      (to == v <==> !NowTheTop(r, t, v)) && (to != v ==> to == None)
  {
    CanonicalText(r0, t0, v);
    if t.KnobTarget? {
      if !t0.KnobTarget? { ModeText(v.value); }
    } else if t.DimTarget? {
      ModesKnown(r, StageEntry(t.stage));
      OverrideRetyped(r.stages[t.stage].modes, v);
    }
  }

  /**
   * Approving a proposal filed under another registry writes the proposed value, unless it is an override at what
   * is now its stage's top mode, which is written as "no override"; or it is refused as stale.
   */
  lemma AcrossADeploy(r0: Registry, r: Registry, p: ProposalRow, to: Option<string>)
    requires WellFormed(r0) && WellFormed(r) && r.numerics == r0.numerics
    requires CanonicalAsk(r0, p.target, p.to) && ParsesTo(r, p, to)
    ensures var t := ParseTarget(r, p.target).value;
      && Readable(r, t)
      && (to == p.to <==> !NowTheTop(r, t, p.to)) && (to != p.to ==> to == None)
  {
    SameKind(r0, r, p.target);
    RetypedElsewhere(r0, ParseTarget(r0, p.target).value, r, ParseTarget(r, p.target).value, p.to);
  }

  /** A mode is canonical for a slice exactly below the stage's top. */
  lemma OverridesAreCanonical(r: Registry, t: Target, m: string)
    requires Readable(r, t) && t.DimTarget? && m in r.stages[t.stage].modes && IsMode(m)
    ensures Canonical(r, t, Some(m)) <==> m != TopMode(r, t)
  {
    ModeText(m);
    if m != TopMode(r, t) { assert ParseValue(r, t, m) == Ok(Some(m)); }
  }

  lemma TopIsApprovedAsNone(r: Registry, state: StateMap, p: ProposalRow, t: Target)
    requires ParseTarget(r, p.target) == Ok(t) && Readable(r, t) && NowTheTop(r, t, p.to) && IsMode(p.to.value)
    requires DesiredValue(r, state, t) == p.from && p.from.Some?
    ensures ApprovableNow(r, state, p) == Approvable(p.from, None)
  {
    ModeText(p.to.value);
    assert ParseValue(r, t, Retyped(p.to)) == Ok(None);
  }

  // ---------- The value it writes instead caps exactly as much ----------

  lemma {:induction false} TopCapsNothing(r: Registry, s1: StateMap, s2: StateMap, t: Target, dims: seq<string>, slice: map<string, string>)
    requires Readable(r, t) && t.DimTarget? && r.stages[t.stage].modes != []
    requires NameRank(TopMode(r, t)) <= TOP_RANK && forall d :: d in dims ==> d in r.stages[t.stage].dims
    requires OverrideMode(r, s1, t.stage, t.dim, t.value).value == Some(TopMode(r, t))
    requires OverrideMode(r, s2, t.stage, t.dim, t.value).value == None
    requires forall d, v :: d in r.stages[t.stage].dims && (d != t.dim || v != t.value) ==>
      OverrideMode(r, s1, t.stage, d, v).value == OverrideMode(r, s2, t.stage, d, v).value
    ensures Min(NameRank(TopMode(r, t)), SliceRank(r, s1, t.stage, dims, slice))
      == Min(NameRank(TopMode(r, t)), SliceRank(r, s2, t.stage, dims, slice))
  {
    if dims != [] {
      TopCapsNothing(r, s1, s2, t, dims[1..], slice);
    }
  }

  lemma ModesRise(r: Registry, t: Target, state: StateMap)
    requires WellFormed(r) && Readable(r, t) && t.DimTarget?
    ensures r.stages[t.stage].modes != [] && IsMode(TopMode(r, t))
    ensures NameRank(DesiredMode(r, state, StageEntry(t.stage)).value) <= NameRank(TopMode(r, t))
  {
    ModesKnown(r, StageEntry(t.stage));
  }

  /** An override at its stage's top mode and no override at all leave every effective mode the same. */
  lemma TopIsNoOverride(r: Registry, state: StateMap, t: Target, ref: Ref)
    requires WellFormed(r) && NothingShadowed(r) && Readable(r, t) && t.DimTarget? && RefOk(r, ref)
    ensures r.stages[t.stage].modes != []
    ensures EffectiveRank(r, Write(state, FormatTarget(t), Some(TopMode(r, t))), ref)
      == EffectiveRank(r, Write(state, FormatTarget(t), None), ref)
  {
    ModesRise(r, t, state);
    var s1, s2 := Write(state, FormatTarget(t), Some(TopMode(r, t))), Write(state, FormatTarget(t), None);
    OthersAgree(r, state, t, ref);
    if ref.StageRef? {
      ModesRise(r, t, s1);
      SlicesAgree(r, state, t, ref.stage, r.stages[ref.stage].dims, ref.slice);
    }
  }

  lemma OthersAgree(r: Registry, state: StateMap, t: Target, ref: Ref)
    requires WellFormed(r) && NothingShadowed(r) && Readable(r, t) && t.DimTarget? && RefOk(r, ref) && r.stages[t.stage].modes != []
    ensures var s1, s2 := Write(state, FormatTarget(t), Some(TopMode(r, t))), Write(state, FormatTarget(t), None);
      && DesiredMode(r, s1, GlobalEntry).value == DesiredMode(r, s2, GlobalEntry).value
      && DesiredMode(r, s1, RefEntry(ref)).value == DesiredMode(r, s2, RefEntry(ref)).value
  {
    forall e | e == GlobalEntry || e == RefEntry(ref)
      ensures var s1, s2 := Write(state, FormatTarget(t), Some(TopMode(r, t))), Write(state, FormatTarget(t), None);
        DesiredMode(r, s1, e).value == DesiredMode(r, s2, e).value
    {
      WriteReads(r, state, t, Some(TopMode(r, t)), ModeTarget(e));
      WriteReads(r, state, t, None, ModeTarget(e));
    }
  }

  lemma SlicesAgree(r: Registry, state: StateMap, t: Target, stage: string, dims: seq<string>, slice: map<string, string>)
    requires WellFormed(r) && NothingShadowed(r) && Readable(r, t) && t.DimTarget? && r.stages[t.stage].modes != []
    requires stage in r.stages && dims == r.stages[stage].dims && IsMode(TopMode(r, t))
    ensures var s1, s2 := Write(state, FormatTarget(t), Some(TopMode(r, t))), Write(state, FormatTarget(t), None);
      var n1, n2 := SliceRank(r, s1, stage, dims, slice), SliceRank(r, s2, stage, dims, slice);
      if stage == t.stage then Min(NameRank(TopMode(r, t)), n1) == Min(NameRank(TopMode(r, t)), n2) else n1 == n2
  {
    var s1, s2 := Write(state, FormatTarget(t), Some(TopMode(r, t))), Write(state, FormatTarget(t), None);
    forall d, v | d in r.stages[stage].dims && DimTarget(stage, d, v) != t
      ensures OverrideMode(r, s1, stage, d, v).value == OverrideMode(r, s2, stage, d, v).value
    {
      WriteReads(r, state, t, Some(TopMode(r, t)), DimTarget(stage, d, v));
      WriteReads(r, state, t, None, DimTarget(stage, d, v));
    }
    if stage == t.stage {
      TopCapsNothing(r, s1, s2, t, dims, slice);
    } else {
      SameOverrides(r, s1, s2, stage, dims, slice);
    }
  }

  lemma {:induction false} SameOverrides(r: Registry, s1: StateMap, s2: StateMap, stage: string, dims: seq<string>, slice: map<string, string>)
    requires stage in r.stages && forall d :: d in dims ==> d in r.stages[stage].dims
    requires forall d, v :: d in r.stages[stage].dims ==> OverrideMode(r, s1, stage, d, v).value == OverrideMode(r, s2, stage, d, v).value
    ensures SliceRank(r, s1, stage, dims, slice) == SliceRank(r, s2, stage, dims, slice)
  {
    if dims != [] { SameOverrides(r, s1, s2, stage, dims[1..], slice); }
  }

  // ---------- The case is real ----------

  /** A deploy that gives one stage other modes. */
  function WithModes(r: Registry, id: string, modes: seq<string>): Registry
    requires id in r.stages
  {
    r.(stages := r.stages[id := r.stages[id].(modes := modes)])
  }

  lemma WithModesIsWellFormed(r: Registry, id: string, modes: seq<string>)
    requires WellFormed(r) && NothingShadowed(r) && id in r.stages && ModesOk(modes, r.stages[id].initial)
    ensures WellFormed(WithModes(r, id, modes)) && NothingShadowed(WithModes(r, id, modes))
  {
    var r' := WithModes(r, id, modes);
    forall a: Aspect ensures AspectOk(r', a) {
      assert AspectOk(r, a);
      if a.StageDefs? { StagesStayOk(r, id, modes); }
    }
    forall t | Readable(r', t) ensures !Shadowed(r', t) {
      assert Readable(r, t) && !Shadowed(r, t);
    }
  }

  lemma StagesStayOk(r: Registry, id: string, modes: seq<string>)
    requires WellFormed(r) && id in r.stages && ModesOk(modes, r.stages[id].initial)
    ensures AspectOk(WithModes(r, id, modes), StageDefs)
  {
    forall s | s in r.stages ensures StageOk(WithModes(r, id, modes), WithModes(r, id, modes).stages[s]) {
      StageIsOk(r, s);
    }
  }

  const TWO_MODES := ["off", "shadow"]

  /** The small registry after a deploy that takes the stage's top mode away. */
  function Narrowed(): Registry { WithModes(Small(), "digest", TWO_MODES) }

  lemma NarrowedIsWellFormed()
    ensures WellFormed(Narrowed()) && NothingShadowed(Narrowed())
  {
    SmallIsWellFormed();
    SmallHidesNothing();
    WithModesIsWellFormed(Small(), "digest", TWO_MODES);
  }

  const LEVER := "digest@source=lever"

  /** Filed while the stage still had "on" above "shadow". */
  function Asked(): ProposalRow {
    NewRow(NewProposal(Caller(Agent, "helper"), LEVER, Some("off"), Some("shadow"), "quieter", 0, PROPOSAL_TTL_MS))
  }

  function AskedDb(): Db { Db(map[LEVER := "off"], [], [Asked()]) }

  const LEVER_SLICE := DimTarget("digest", "source", "lever")

  lemma LeverIsSettable()
    ensures Settable(Small(), LEVER_SLICE) && Settable(Narrowed(), LEVER_SLICE)
    ensures FormatTarget(LEVER_SLICE) == LEVER
  {
  }

  lemma LeverParses()
    ensures ParseTarget(Small(), LEVER) == Ok(LEVER_SLICE) && ParseTarget(Narrowed(), LEVER) == Ok(LEVER_SLICE)
    ensures Settable(Small(), LEVER_SLICE) && Settable(Narrowed(), LEVER_SLICE)
  {
    SmallIsWellFormed();
    NarrowedIsWellFormed();
    LeverIsSettable();
    ParseFormat(Small(), LEVER_SLICE);
    ParseFormat(Narrowed(), LEVER_SLICE);
  }

  lemma ApprovableAsNone()
    ensures ApprovableNow(Narrowed(), AskedDb().state, Asked()) == Approvable(Some("off"), None)
  {
    LeverParses();
    LeverReads();
    TopIsApprovedAsNone(Narrowed(), AskedDb().state, Asked(), LEVER_SLICE);
  }

  lemma LeverReads()
    ensures Readable(Narrowed(), LEVER_SLICE) && NowTheTop(Narrowed(), LEVER_SLICE, Some("shadow"))
    ensures DesiredValue(Narrowed(), AskedDb().state, LEVER_SLICE) == Some("off")
  {
    StageModes();
    assert FormatTarget(LEVER_SLICE) == LEVER;
  }

  lemma CanonicalOnlyBefore()
    ensures ProposesCanonical(Small(), Asked()) && !ProposesCanonical(Narrowed(), Asked())
  {
    LeverParses();
    StageModes();
    CanonicalFor(Small(), Asked(), LEVER_SLICE, "shadow");
    CanonicalFor(Narrowed(), Asked(), LEVER_SLICE, "shadow");
  }

  lemma StageModes()
    ensures Small().stages["digest"].modes == ["off", "shadow", "on"]
    ensures Narrowed().stages["digest"].modes == TWO_MODES
  {
  }

  lemma CanonicalFor(r: Registry, p: ProposalRow, t: Target, m: string)
    requires ParseTarget(r, p.target) == Ok(t) && Settable(r, t) && t.DimTarget? && p.to == Some(m)
    requires m in r.stages[t.stage].modes && IsMode(m)
    ensures ProposesCanonical(r, p) <==> m != TopMode(r, t)
  {
    OverridesAreCanonical(r, t, m);
  }

  function AskedInput(owner: Caller): ApplyInput {
    ApplyInput(LEVER, Some("off"), Some("off"), None, owner, Api, Some("quieter"), 1, Some(ApprovalOf(1, owner, None)))
  }

  function AskedApproval(owner: Caller): Request { ApproveReq(owner, 1, None, Api, 1) }

  lemma ApprovedAlone(owner: Caller)
    requires owner.role == Owner
    ensures Atomically(Narrowed(), AskedDb(), AskedApproval(owner))
      == Advance(Narrowed(), AskedDb(), Committing(AskedApproval(owner), AskedInput(owner), 1))
  {
    ApprovableAsNone();
    var req, p, raw := AskedApproval(owner), Asked(), Some("off");
    assert Get(AskedDb().state, LEVER) == raw;
    assert OnProposal(req, p, raw, Approvable(Some("off"), None)) == Committing(req, AskedInput(owner), 1);
    ApproveAlone(Narrowed(), AskedDb(), Committing(req, AskedInput(owner), 1));
  }

  /** The whole of the tables and the answer after the approval. */
  predicate ClearedInstead(after: Db, task: Task) {
    && task == Done(Applied(1, Some("off"), None))
    && |after.log| == 1 && after.log[0].proposalId == Some(1) && after.log[0].to == None
    && after.state == map[] && |after.proposals| == 1 && after.proposals[0].status.Approved?
  }

  lemma CommitClears(owner: Caller)
    ensures var (after, task) := Advance(Narrowed(), AskedDb(), Committing(AskedApproval(owner), AskedInput(owner), 1));
      ClearedInstead(after, task)
  {
    assert Guard(AskedDb(), AskedInput(owner));
    assert Write(AskedDb().state, LEVER, None) == map[];
  }

  /**
   * The failing case: the proposal was canonical when it was filed and is not today, and approving it clears the
   * override where "shadow" was proposed.
   */
  lemma TopModeIsWrittenAsNone(owner: Caller)
    requires owner.role == Owner
    ensures ProposesCanonical(Small(), Asked()) && !ProposesCanonical(Narrowed(), Asked()) && Asked().to == Some("shadow")
    ensures var (after, task) := Atomically(Narrowed(), AskedDb(), AskedApproval(owner)); ClearedInstead(after, task)
  {
    CanonicalOnlyBefore();
    ApprovedAlone(owner);
    CommitClears(owner);
  }
}
