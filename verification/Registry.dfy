// The control plane's registry as a parameter: every switch, its modes, knobs and dimensions
// (packages/control/src/registry.ts). The proofs quantify over every well-formed registry instead of
// enumerating the constants of one release.
module Registry {
  import opened Basics

  const TOP_RANK := 2

  /** The four mode names, least spend or risk first; `on` and `enforce` share the top rank. */
  predicate IsMode(m: string) {
    m == "off" || m == "shadow" || m == "on" || m == "enforce"
  }

  /** MODE_RANK extended to any string: an unknown name ranks above every real one. */
  function NameRank(m: string): nat {
    if m == "off" then 0
    else if m == "shadow" then 1
    else if m == "on" || m == "enforce" then TOP_RANK
    else TOP_RANK + 1
  }

  datatype AgentRule = SafeDirection | Approval

  datatype Riskier = RiskUp | RiskDown

  datatype Knob = Knob(default: real, min: real, max: real, riskier: Riskier, whole: bool)

  datatype GlobalDef = GlobalDef(modes: seq<string>, initial: string, agent: AgentRule)

  datatype StageDef = StageDef(
    modes: seq<string>, initial: string, dims: seq<string>,
    knobIds: seq<string>, knobs: map<string, Knob>, agent: AgentRule, runtime: string)

  datatype PolicyDef = PolicyDef(
    modes: seq<string>, initial: string, readBy: seq<string>, watches: Option<string>,
    knobIds: seq<string>, knobs: map<string, Knob>, agent: AgentRule)

  /**
   * JavaScript's numbers: which reals are doubles, Number(text) (None when not finite) and String(number).
   * Only the laws of Lawful are used.
   */
  datatype Numerics = Numerics(double: real -> bool, number: string -> Option<real>, show: real -> string) {
    ghost predicate Lawful() {
      && (forall x: real {:trigger show(x)} :: double(x) ==>
        && number(show(x)) == Some(x)
        && show(x) != "" && Trimmed(show(x)))
      && (forall s: string {:trigger number(s)} :: number(s).Some? ==> double(number(s).value))
    }
  }

  datatype Registry = Registry(
    global: GlobalDef,
    stageIds: seq<string>, stages: map<string, StageDef>,
    policyIds: seq<string>, policies: map<string, PolicyDef>,
    dimensions: map<string, seq<string>>,
    numerics: Numerics)

  predicate IsWhole(x: real) {
    x.Floor as real == x
  }

  /** Ids, knob names and dimension values are free of the address separators and of white space. */
  predicate PlainId(id: string) {
    && id != ""
    && forall i :: 0 <= i < |id| ==> id[i] != '@' && id[i] != '=' && !IsSpace(id[i])
  }

  predicate PlainKnobName(id: string) {
    PlainId(id) && forall i :: 0 <= i < |id| ==> id[i] != '.'
  }

  predicate ModesOk(modes: seq<string>, initial: string) {
    && initial in modes
    && (forall i :: 0 <= i < |modes| ==> IsMode(modes[i]))
    && (forall i, j :: 0 <= i < j < |modes| ==> NameRank(modes[i]) < NameRank(modes[j]))
  }

  predicate KnobOk(num: Numerics, k: Knob) {
    && num.double(k.min) && num.double(k.default) && num.double(k.max)
    && k.min <= k.default <= k.max
    && (k.whole ==> IsWhole(k.min) && IsWhole(k.default) && IsWhole(k.max))
  }

  ghost predicate KnobsOk(num: Numerics, ids: seq<string>, knobs: map<string, Knob>) {
    && NoDuplicates(ids)
    && (forall k :: k in ids <==> k in knobs)
    && (forall k :: k in knobs ==> PlainKnobName(k) && KnobOk(num, knobs[k]))
  }

  ghost predicate StageOk(r: Registry, s: StageDef) {
    && ModesOk(s.modes, s.initial)
    && KnobsOk(r.numerics, s.knobIds, s.knobs)
    && NoDuplicates(s.dims)
    && forall d :: d in s.dims ==> d in r.dimensions
  }

  ghost predicate PolicyOk(r: Registry, p: PolicyDef) {
    ModesOk(p.modes, p.initial) && KnobsOk(r.numerics, p.knobIds, p.knobs)
  }

  /** The structural facts packages/control/src/registry.test.ts pins, plus what its types state. */
  datatype Aspect = Numbers | Switch | StageIds | PolicyIds | StageDefs | PolicyDefs | Dimensions

  ghost predicate AspectOk(r: Registry, a: Aspect) {
    match a
    case Numbers => r.numerics.Lawful()
    case Switch =>
      && ModesOk(r.global.modes, r.global.initial)
      && forall m :: m in r.global.modes ==> m == "off" || m == "on"
    case StageIds =>
      && NoDuplicates(r.stageIds)
      && (forall id :: id in r.stageIds <==> id in r.stages)
      && forall id :: id in r.stages ==> id != "global" && id !in r.policies && PlainId(id)
    case PolicyIds =>
      && NoDuplicates(r.policyIds)
      && (forall id :: id in r.policyIds <==> id in r.policies)
      && forall id :: id in r.policies ==> id != "global" && PlainId(id)
    case StageDefs => forall id :: id in r.stages ==> StageOk(r, r.stages[id])
    case PolicyDefs => forall id :: id in r.policies ==> PolicyOk(r, r.policies[id])
    case Dimensions =>
      && (forall d :: d in r.dimensions ==> PlainId(d) && NoDuplicates(r.dimensions[d]))
      && forall d, v :: d in r.dimensions && v in r.dimensions[d] ==> PlainId(v)
  }

  ghost predicate WellFormed(r: Registry) {
    forall a :: AspectOk(r, a)
  }

  lemma LawfulNumbers(r: Registry)
    requires WellFormed(r)
    ensures r.numerics.Lawful()
  {
    assert AspectOk(r, Numbers);
  }

  lemma StageIsOk(r: Registry, id: string)
    requires WellFormed(r) && id in r.stages
    ensures StageOk(r, r.stages[id]) && PlainId(id) && id in r.stageIds && id != "global" && id !in r.policies
  {
    assert AspectOk(r, StageDefs) && AspectOk(r, StageIds);
  }

  lemma PolicyIsOk(r: Registry, id: string)
    requires WellFormed(r) && id in r.policies
    ensures PolicyOk(r, r.policies[id]) && PlainId(id) && id in r.policyIds && id != "global"
  {
    assert AspectOk(r, PolicyDefs) && AspectOk(r, PolicyIds);
  }

  lemma DimensionIsOk(r: Registry, dim: string)
    requires WellFormed(r) && dim in r.dimensions
    ensures PlainId(dim) && NoDuplicates(r.dimensions[dim]) && forall v :: v in r.dimensions[dim] ==> PlainId(v)
  {
    assert AspectOk(r, Dimensions);
  }
}
