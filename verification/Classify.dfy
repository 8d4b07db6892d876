// The ratchet rule: who may apply a change themselves (packages/control/src/classify.ts).
module Classify {
  import opened Basics
  import opened Registry
  import opened Targets
  import opened Resolve

  datatype Role = Owner | Agent | Runtime

  datatype Direction = Down | Up | NoMove

  datatype Outcome = Apply | Propose | Deny

  datatype Classification = Classification(outcome: Outcome, direction: Direction)

  function ModeRank(value: Option<string>): nat {
    if value.None? then TOP_RANK else NameRank(value.value)
  }

  /** Number(null) is 0. */
  function NumberOf(num: Numerics, value: Option<string>): Option<real> {
    if value.None? then Some(0.0) else num.number(value.value)
  }

  function DirectionOf(r: Registry, t: Target, from: Option<string>, to: Option<string>): Direction
    requires Readable(r, t)
  {
    if from == to then NoMove
    else if t.KnobTarget? then
      var a, b := NumberOf(r.numerics, from), NumberOf(r.numerics, to);
      if a.None? || b.None? then Up
      else if a == b then NoMove
      else if (b.value > a.value) == KnobDef(r, t).riskier.RiskUp? then Up else Down
    else
      var a, b := ModeRank(from), ModeRank(to);
      if a == b then NoMove else if b < a then Down else Up
  }

  function AgentRuleOf(r: Registry, t: Target): AgentRule
    requires Readable(r, t)
  {
    match OwnerOf(t)
    case GlobalEntry => r.global.agent
    case StageEntry(id) => r.stages[id].agent
    case PolicyEntry(id) => r.policies[id].agent
  }

  function ClassifyChange(r: Registry, t: Target, from: Option<string>, to: Option<string>, role: Role): Classification
    requires Readable(r, t)
  {
    var dir := DirectionOf(r, t, from, to);
    match role
    case Owner => Classification(Apply, dir)
    case Runtime =>
      if t.ModeTarget? && t.entry.StageEntry? && to == Some("off") then Classification(Apply, dir)
      else Classification(Deny, dir)
    case Agent =>
      if dir.NoMove? then Classification(Apply, dir)
      else if AgentRuleOf(r, t).Approval? then Classification(Propose, dir)
      else if dir.Down? then Classification(Apply, dir)
      else Classification(Propose, dir)
  }

  // ---------- The rule against a risk order of its own ----------

  /** How much spend or risk a resolved value stands for; for a knob, its number on the riskier side. */
  function Risk(r: Registry, t: Target, value: Option<string>): real
    requires Readable(r, t) && (t.KnobTarget? ==> value.Some? && r.numerics.number(value.value).Some?)
  {
    if t.KnobTarget? then
      var n := r.numerics.number(value.value).value;
      if KnobDef(r, t).riskier.RiskUp? then n else -n
    else ModeRank(value) as real
  }

  /** A value the resolver or the parser can produce, so that its risk is defined. */
  predicate Measured(r: Registry, t: Target, value: Option<string>)
    requires Readable(r, t)
  {
    t.KnobTarget? ==> value.Some? && r.numerics.number(value.value).Some?
  }

  /** An agent applies exactly the moves that do not raise risk, under "approval" exactly those that do not
      move it; every other move is a proposal, never a refusal. */
  lemma AgentAppliesExactly(r: Registry, t: Target, from: Option<string>, to: Option<string>)
    requires Readable(r, t) && Measured(r, t, from) && Measured(r, t, to)
    ensures var c := ClassifyChange(r, t, from, to, Agent).outcome;
      && (c.Apply? <==> Risk(r, t, to) == Risk(r, t, from) || (AgentRuleOf(r, t).SafeDirection? && Risk(r, t, to) < Risk(r, t, from)))
      && (c.Propose? <==> !c.Apply?)
  {
  }

  /** Whoever is not the owner and is allowed to apply a change to a target does not raise its risk. */
  lemma NonOwnerNeverRaises(r: Registry, t: Target, from: Option<string>, to: Option<string>, role: Role)
    requires WellFormed(r) && Readable(r, t) && Measured(r, t, from) && Measured(r, t, to)
    requires role != Owner && ClassifyChange(r, t, from, to, role).outcome.Apply?
    ensures Risk(r, t, to) <= Risk(r, t, from)
  {
    if role == Agent { AgentAppliesExactly(r, t, from, to); }
  }

  lemma ResolvedIsMeasured(r: Registry, t: Target, raw: Option<string>)
    requires WellFormed(r) && Readable(r, t)
    ensures Measured(r, t, ReadRow(r, t, raw))
  {
    if t.KnobTarget? {
      LawfulNumbers(r);
      KnobNamePlain(r, t);
      KnobReadsADouble(r.numerics, KnobDef(r, t), raw);
      ShownText(r.numerics, ReadKnob(r.numerics, KnobDef(r, t), raw).value);
    }
  }

  // ---------- One write against every effective mode and knob ----------

  /** The state write of a change: a value, or the removal of an override's row. */
  function Write(state: StateMap, key: string, to: Option<string>): StateMap {
    if to.None? then state - {key} else state[key := to.value]
  }

  lemma WriteReads(r: Registry, state: StateMap, t: Target, to: Option<string>, u: Target)
    requires WellFormed(r) && NothingShadowed(r) && Readable(r, t) && Readable(r, u)
    ensures var after := Write(state, FormatTarget(t), to);
      DesiredValue(r, after, u) == if u == t then ReadRow(r, t, to) else DesiredValue(r, state, u)
  {
    if u != t && FormatTarget(u) == FormatTarget(t) {
      FormatInjective(r, u, t);
    }
  }

  ghost predicate RowNoRiskier(r: Registry, before: StateMap, after: StateMap, t: Target)
    requires Readable(r, t)
  {
    && Measured(r, t, DesiredValue(r, before, t)) && Measured(r, t, DesiredValue(r, after, t))
    && Risk(r, t, DesiredValue(r, after, t)) <= Risk(r, t, DesiredValue(r, before, t))
  }

  /** No target of the registry reads as riskier than before. */
  ghost predicate NoTargetRiskier(r: Registry, before: StateMap, after: StateMap) {
    forall t :: Readable(r, t) ==> RowNoRiskier(r, before, after, t)
  }

  lemma SafeWrite(r: Registry, state: StateMap, t: Target, to: Option<string>)
    requires WellFormed(r) && NothingShadowed(r) && Readable(r, t)
    requires Measured(r, t, DesiredValue(r, state, t)) && Measured(r, t, ReadRow(r, t, to))
    requires Risk(r, t, ReadRow(r, t, to)) <= Risk(r, t, DesiredValue(r, state, t))
    ensures NoTargetRiskier(r, state, Write(state, FormatTarget(t), to))
  {
    var after := Write(state, FormatTarget(t), to);
    forall u | Readable(r, u) ensures RowNoRiskier(r, state, after, u) {
      WriteReads(r, state, t, to, u);
      ResolvedIsMeasured(r, u, Get(state, FormatTarget(u)));
    }
  }

  lemma {:induction false} SliceRankMonotone(r: Registry, before: StateMap, after: StateMap, stage: string, dims: seq<string>, slice: map<string, string>)
    requires WellFormed(r) && stage in r.stages && forall d :: d in dims ==> d in r.stages[stage].dims
    requires NoTargetRiskier(r, before, after)
    ensures SliceRank(r, after, stage, dims, slice) <= SliceRank(r, before, stage, dims, slice)
  {
    if dims != [] {
      SliceRankMonotone(r, before, after, stage, dims[1..], slice);
      if dims[0] in slice {
        assert RowNoRiskier(r, before, after, DimTarget(stage, dims[0], slice[dims[0]]));
      }
    }
  }

  /** Then no effective mode, of the switch, a policy or any slice of any stage, is more on than before. */
  lemma EffectiveMonotone(r: Registry, before: StateMap, after: StateMap, ref: Ref)
    requires WellFormed(r) && RefOk(r, ref) && NoTargetRiskier(r, before, after)
    ensures EffectiveRank(r, after, ref) <= EffectiveRank(r, before, ref)
  {
    assert RowNoRiskier(r, before, after, ModeTarget(GlobalEntry));
    assert RowNoRiskier(r, before, after, ModeTarget(RefEntry(ref)));
    if ref.StageRef? {
      SliceRankMonotone(r, before, after, ref.stage, r.stages[ref.stage].dims, ref.slice);
    }
  }

  /** And no knob resolves further to its riskier side. */
  lemma KnobMonotone(r: Registry, before: StateMap, after: StateMap, t: Target)
    requires WellFormed(r) && Readable(r, t) && t.KnobTarget? && NoTargetRiskier(r, before, after)
    ensures var a, b := KnobValue(r, before, t).value, KnobValue(r, after, t).value;
      if KnobDef(r, t).riskier.RiskUp? then b <= a else b >= a
  {
    assert RowNoRiskier(r, before, after, t);
    LawfulNumbers(r);
    KnobNamePlain(r, t);
    KnobReadsADouble(r.numerics, KnobDef(r, t), Get(before, FormatTarget(t)));
    KnobReadsADouble(r.numerics, KnobDef(r, t), Get(after, FormatTarget(t)));
    ShownText(r.numerics, KnobValue(r, before, t).value);
    ShownText(r.numerics, KnobValue(r, after, t).value);
  }
}
