// The gate answer a runtime obeys: packages/control/src/views.ts.
module Views {
  import opened Basics
  import opened Registry
  import opened Targets
  import opened Resolve

  datatype OverrideView = OverrideView(dim: string, value: string, override: string, source: Source, effective: string)

  datatype PolicyGate = PolicyGate(mode: string, knobs: map<string, real>, watchedStageOff: Option<bool>)

  datatype GateView = GateView(
    stage: string, mode: string, desired: string, cappedBy: CappedBy, global: string,
    knobs: map<string, real>, policies: map<string, PolicyGate>,
    overrides: map<string, map<string, string>>)

  ghost predicate KnobsResolved(r: Registry, state: StateMap, e: EntryRef, knobs: map<string, real>)
    requires EntryExists(r, e) && !e.GlobalEntry?
  {
    && knobs.Keys == EntryKnobs(r, e).Keys
    && forall k :: k in knobs ==> knobs[k] == KnobValue(r, state, KnobTarget(e, k)).value
  }

  method KnobViews(r: Registry, state: StateMap, e: EntryRef) returns (knobs: map<string, real>)
    requires WellFormed(r) && EntryExists(r, e) && !e.GlobalEntry?
    ensures KnobsResolved(r, state, e, knobs)
  {
    var ids := KnobIds(r, e);
    EntryKnobsOk(r, e);
    knobs := map[];
    for i := 0 to |ids|
      invariant forall k :: k in knobs <==> k in ids[..i]
      invariant forall k :: k in knobs ==> k in EntryKnobs(r, e) && knobs[k] == KnobValue(r, state, KnobTarget(e, k)).value
    {
      knobs := knobs[ids[i] := KnobValue(r, state, KnobTarget(e, ids[i])).value];
    }
    assert ids[..|ids|] == ids;
  }

  /** A slice with an override row among the values the registry knows. */
  predicate OverrideSet(r: Registry, state: StateMap, stage: string, dim: string, value: string)
    requires stage in r.stages
  {
    && dim in r.stages[stage].dims && dim in r.dimensions && value in r.dimensions[dim]
    && OverrideMode(r, state, stage, dim, value).value.Some?
  }

  /** The rank a runtime may give a one-dimension slice: the stage's own effective rank under the override. */
  function OneSliceRank(r: Registry, state: StateMap, stage: string, dim: string, value: string): nat
    requires Readable(r, DimTarget(stage, dim, value))
  {
    Min(EffectiveRank(r, state, StageRef(stage, map[])),
        OverrideRank(OverrideMode(r, state, stage, dim, value).value))
  }

  ghost predicate OverrideViewOk(r: Registry, state: StateMap, stage: string, o: OverrideView)
    requires stage in r.stages
  {
    && OverrideSet(r, state, stage, o.dim, o.value)
    && OverrideMode(r, state, stage, o.dim, o.value) == Resolved(Some(o.override), o.source)
    && IsMode(o.effective) && NameRank(o.effective) == OneSliceRank(r, state, stage, o.dim, o.value)
  }

  lemma {:induction false} SliceRankOfEmpty(r: Registry, state: StateMap, stage: string, dims: seq<string>)
    requires stage in r.stages && forall d :: d in dims ==> d in r.stages[stage].dims
    ensures SliceRank(r, state, stage, dims, map[]) == TOP_RANK
  {
    if dims != [] { SliceRankOfEmpty(r, state, stage, dims[1..]); }
  }

  lemma {:induction false} SliceRankOfOne(r: Registry, state: StateMap, stage: string, dims: seq<string>, dim: string, value: string)
    requires WellFormed(r) && stage in r.stages && dim in r.stages[stage].dims
    requires NoDuplicates(dims) && forall d :: d in dims ==> d in r.stages[stage].dims
    ensures SliceRank(r, state, stage, dims, map[dim := value])
      == if dim in dims then OverrideRank(OverrideMode(r, state, stage, dim, value).value) else TOP_RANK
  {
    OverrideIsMode(r, state, stage, dim, value);
    if dims != [] {
      assert forall d :: d in dims[1..] ==> d != dims[0];
      SliceRankOfOne(r, state, stage, dims[1..], dim, value);
    }
  }

  lemma OneSliceIs(r: Registry, state: StateMap, stage: string, dim: string, value: string)
    requires WellFormed(r) && Readable(r, DimTarget(stage, dim, value))
    ensures EffectiveRank(r, state, StageRef(stage, map[dim := value])) == OneSliceRank(r, state, stage, dim, value)
    ensures EffectiveRank(r, state, StageRef(stage, map[])) <= TOP_RANK
  {
    var dims := r.stages[stage].dims;
    StageIsOk(r, stage);
    SliceRankOfOne(r, state, stage, dims, dim, value);
    SliceRankOfEmpty(r, state, stage, dims);
    OverrideIsMode(r, state, stage, dim, value);
    DesiredIsMode(r, state, StageEntry(stage));
  }

  /** stageView's override rows: every known slice with a row, once each, with its effective mode. */
  method StageOverrides(r: Registry, state: StateMap, stage: string) returns (views: seq<OverrideView>)
    requires WellFormed(r) && stage in r.stages
    ensures forall o :: o in views ==> OverrideViewOk(r, state, stage, o)
    ensures forall d, v :: OverrideSet(r, state, stage, d, v) ==> exists o :: o in views && o.dim == d && o.value == v
    ensures forall i, j :: 0 <= i < j < |views| ==> views[i].dim != views[j].dim || views[i].value != views[j].value
  {
    var dims := r.stages[stage].dims;
    StageIsOk(r, stage);
    views := [];
    for i := 0 to |dims|
      invariant forall o :: o in views ==> OverrideViewOk(r, state, stage, o) && o.dim in dims[..i]
      invariant forall d, v :: d in dims[..i] && OverrideSet(r, state, stage, d, v) ==> exists o :: o in views && o.dim == d && o.value == v
      invariant forall i, j :: 0 <= i < j < |views| ==> views[i].dim != views[j].dim || views[i].value != views[j].value
    {
      var dim := dims[i];
      var more := DimensionOverrides(r, state, stage, dim);
      assert dim !in dims[..i];
      var was := views;
      views := views + more;
      forall d, v | d in dims[..i + 1] && OverrideSet(r, state, stage, d, v)
        ensures exists o :: o in views && o.dim == d && o.value == v
      {
        if d == dim {
          var o :| o in more && o.value == v;
          assert o in views;
        } else {
          assert d in dims[..i];
          var o :| o in was && o.dim == d && o.value == v;
          assert o in views;
        }
      }
    }
    assert dims[..|dims|] == dims;
  }

  /** The view row of one slice, when it has an override. */
  method SliceOverride(r: Registry, state: StateMap, stage: string, dim: string, value: string) returns (view: Option<OverrideView>)
    requires WellFormed(r) && stage in r.stages && dim in r.stages[stage].dims && dim in r.dimensions && value in r.dimensions[dim]
    ensures view.Some? <==> OverrideSet(r, state, stage, dim, value)
    ensures view.Some? ==> OverrideViewOk(r, state, stage, view.value) && view.value.dim == dim && view.value.value == value
  {
    var o := OverrideMode(r, state, stage, dim, value);
    if o.value.None? { return None; }
    var eff := EffectiveMode(r, state, StageRef(stage, map[dim := value]));
    OneSliceIs(r, state, stage, dim, value);
    return Some(OverrideView(dim, value, o.value.value, o.source, eff.mode));
  }

  /** The view rows of a dimension's first values: one for each of them that has an override. */
  ghost predicate ListsValues(r: Registry, state: StateMap, stage: string, dim: string, views: seq<OverrideView>, values: seq<string>)
    requires stage in r.stages
  {
    && (forall o :: o in views ==> OverrideViewOk(r, state, stage, o) && o.dim == dim && o.value in values)
    && (forall v :: v in values && OverrideSet(r, state, stage, dim, v) ==> exists o :: o in views && o.value == v)
    && (forall i, j :: 0 <= i < j < |views| ==> views[i].value != views[j].value)
  }

  lemma OneMoreValue(r: Registry, state: StateMap, stage: string, dim: string, views: seq<OverrideView>, values: seq<string>,
                     value: string, view: Option<OverrideView>)
    requires stage in r.stages && ListsValues(r, state, stage, dim, views, values) && value !in values
    requires view.Some? <==> OverrideSet(r, state, stage, dim, value)
    requires view.Some? ==> OverrideViewOk(r, state, stage, view.value) && view.value.dim == dim && view.value.value == value
    ensures ListsValues(r, state, stage, dim, if view.Some? then views + [view.value] else views, values + [value])
  {
    var after := if view.Some? then views + [view.value] else views;
    forall v | v in values + [value] && OverrideSet(r, state, stage, dim, v) ensures exists o :: o in after && o.value == v {
      if v == value {
        assert view.value in after;
      } else {
        var o :| o in views && o.value == v;
        assert o in after;
      }
    }
  }

  method DimensionOverrides(r: Registry, state: StateMap, stage: string, dim: string) returns (views: seq<OverrideView>)
    requires WellFormed(r) && stage in r.stages && dim in r.stages[stage].dims
    ensures forall o :: o in views ==> OverrideViewOk(r, state, stage, o) && o.dim == dim
    ensures forall v :: OverrideSet(r, state, stage, dim, v) ==> exists o :: o in views && o.value == v
    ensures forall i, j :: 0 <= i < j < |views| ==> views[i].value != views[j].value
  {
    StageIsOk(r, stage);
    DimensionIsOk(r, dim);
    var values := r.dimensions[dim];
    views := [];
    ghost var seen: seq<string> := [];
    for i := 0 to |values|
      invariant seen == values[..i] && ListsValues(r, state, stage, dim, views, seen)
    {
      assert values[i] !in seen;
      var view := SliceOverride(r, state, stage, dim, values[i]);
      OneMoreValue(r, state, stage, dim, views, seen, values[i], view);
      if view.Some? { views := views + [view.value]; }
      seen := seen + [values[i]];
    }
    assert seen == values;
  }

  // ---------- One unnarrowed gate answers for every known slice ----------

  /** The rank a runtime derives from a gate answer's overrides map for one slice. */
  function GateSliceRank(overrides: map<string, map<string, string>>, dims: seq<string>, slice: map<string, string>): nat {
    if dims == [] then TOP_RANK
    else
      var rest := GateSliceRank(overrides, dims[1..], slice);
      var d := dims[0];
      if d in slice && d in overrides && slice[d] in overrides[d] then Min(NameRank(overrides[d][slice[d]]), rest) else rest
  }

  ghost predicate OverridesComplete(r: Registry, state: StateMap, stage: string, overrides: map<string, map<string, string>>)
    requires stage in r.stages
  {
    && (forall d, v :: (d in overrides && v in overrides[d]) <==> OverrideSet(r, state, stage, d, v))
    && (forall d, v :: d in overrides && v in overrides[d] ==> NameRank(overrides[d][v]) == OneSliceRank(r, state, stage, d, v))
  }

  ghost predicate PolicyGateOk(r: Registry, state: StateMap, p: string, g: PolicyGate) {
    && p in r.policies
    && IsMode(g.mode) && NameRank(g.mode) == EffectiveRank(r, state, PolicyRef(p))
    && KnobsResolved(r, state, PolicyEntry(p), g.knobs)
    && (g.watchedStageOff.Some? <==> r.policies[p].watches.Some? && r.policies[p].watches.value in r.stages)
    && (g.watchedStageOff.Some? ==>
      (g.watchedStageOff.value <==> EffectiveRank(r, state, StageRef(r.policies[p].watches.value, map[])) == 0))
  }

  /** The types make a watched stage a registry stage; here the lookup says so. */
  method ReadPolicyGate(r: Registry, state: StateMap, p: string) returns (g: PolicyGate)
    requires WellFormed(r) && p in r.policies
    ensures PolicyGateOk(r, state, p, g)
  {
    var eff := EffectiveMode(r, state, PolicyRef(p));
    var knobs := KnobViews(r, state, PolicyEntry(p));
    var watched := r.policies[p].watches;
    var off := None;
    if watched.Some? && watched.value in r.stages {
      var stage := EffectiveMode(r, state, StageRef(watched.value, map[]));
      off := Some(stage.mode == "off");
    }
    g := PolicyGate(eff.mode, knobs, off);
  }

  ghost predicate PoliciesComplete(r: Registry, state: StateMap, stage: string, policies: map<string, PolicyGate>) {
    && (forall p :: p in policies <==> p in r.policies && stage in r.policies[p].readBy)
    && (forall p :: p in policies ==> PolicyGateOk(r, state, p, policies[p]))
  }

  method GatePolicies(r: Registry, state: StateMap, stage: string) returns (policies: map<string, PolicyGate>)
    requires WellFormed(r)
    ensures PoliciesComplete(r, state, stage, policies)
  {
    policies := map[];
    assert AspectOk(r, PolicyIds);
    for i := 0 to |r.policyIds|
      invariant forall p :: p in policies <==> p in r.policyIds[..i] && p in r.policies && stage in r.policies[p].readBy
      invariant forall p :: p in policies ==> PolicyGateOk(r, state, p, policies[p])
    {
      var id := r.policyIds[i];
      if stage in r.policies[id].readBy {
        var gate := ReadPolicyGate(r, state, id);
        policies := policies[id := gate];
      }
    }
    assert r.policyIds[..|r.policyIds|] == r.policyIds;
  }

  ghost predicate Holds(overrides: map<string, map<string, string>>, d: string, v: string) {
    d in overrides && v in overrides[d]
  }

  method OverrideTable(views: seq<OverrideView>) returns (overrides: map<string, map<string, string>>)
    requires forall i, j :: 0 <= i < j < |views| ==> views[i].dim != views[j].dim || views[i].value != views[j].value
    ensures forall o :: o in views ==> Holds(overrides, o.dim, o.value) && overrides[o.dim][o.value] == o.effective
    ensures forall d, v :: Holds(overrides, d, v) ==> exists o :: o in views && o.dim == d && o.value == v
  {
    overrides := map[];
    for i := 0 to |views|
      invariant forall k :: 0 <= k < i ==> Holds(overrides, views[k].dim, views[k].value) && overrides[views[k].dim][views[k].value] == views[k].effective
      invariant forall d, v :: Holds(overrides, d, v) ==> exists o :: o in views && o.dim == d && o.value == v
    {
      var o := views[i];
      var known := if o.dim in overrides then overrides[o.dim] else map[];
      ghost var was := overrides;
      overrides := overrides[o.dim := known[o.value := o.effective]];
      forall d, v | Holds(overrides, d, v) ensures exists o :: o in views && o.dim == d && o.value == v {
        if d == o.dim && v == o.value { assert o in views; } else { assert Holds(was, d, v); }
      }
    }
  }

  lemma TableIsComplete(r: Registry, state: StateMap, stage: string, views: seq<OverrideView>, overrides: map<string, map<string, string>>)
    requires stage in r.stages
    requires forall o :: o in views ==> OverrideViewOk(r, state, stage, o)
    requires forall d, v :: OverrideSet(r, state, stage, d, v) ==> exists o :: o in views && o.dim == d && o.value == v
    requires forall o :: o in views ==> Holds(overrides, o.dim, o.value) && overrides[o.dim][o.value] == o.effective
    requires forall d, v :: Holds(overrides, d, v) ==> exists o :: o in views && o.dim == d && o.value == v
    ensures OverridesComplete(r, state, stage, overrides)
  {
    forall d, v ensures (d in overrides && v in overrides[d]) <==> OverrideSet(r, state, stage, d, v) {
      if OverrideSet(r, state, stage, d, v) { var o :| o in views && o.dim == d && o.value == v; }
      if d in overrides && v in overrides[d] { assert Holds(overrides, d, v); }
    }
    forall d, v | d in overrides && v in overrides[d]
      ensures OverrideSet(r, state, stage, d, v) && NameRank(overrides[d][v]) == OneSliceRank(r, state, stage, d, v)
    {
      assert Holds(overrides, d, v);
      var o :| o in views && o.dim == d && o.value == v;
    }
  }

  /** gateView: with a slice given, `mode` is already narrowed; `overrides` never is. */
  method ReadGateView(r: Registry, state: StateMap, stage: string, slice: map<string, string>) returns (g: GateView)
    requires WellFormed(r) && stage in r.stages
    ensures g.stage == stage && IsMode(g.mode) && NameRank(g.mode) == EffectiveRank(r, state, StageRef(stage, slice))
    ensures g.desired == DesiredMode(r, state, StageEntry(stage)).value
    ensures g.global == DesiredMode(r, state, GlobalEntry).value
    ensures KnobsResolved(r, state, StageEntry(stage), g.knobs)
    ensures OverridesComplete(r, state, stage, g.overrides)
    ensures PoliciesComplete(r, state, stage, g.policies)
  {
    var views := StageOverrides(r, state, stage);
    var eff := EffectiveMode(r, state, StageRef(stage, slice));
    var knobs := KnobViews(r, state, StageEntry(stage));
    var policies := GatePolicies(r, state, stage);
    var overrides := OverrideTable(views);
    TableIsComplete(r, state, stage, views, overrides);
    g := GateView(stage, eff.mode, eff.desired, eff.cappedBy, DesiredMode(r, state, GlobalEntry).value, knobs, policies, overrides);
  }

  /** The slice names known values only. */
  predicate KnownSlice(r: Registry, stage: string, dims: seq<string>, slice: map<string, string>)
    requires stage in r.stages
  {
    forall d :: d in dims && d in slice ==> d in r.dimensions && slice[d] in r.dimensions[d]
  }

  lemma {:induction false} GateSliceRankIs(r: Registry, state: StateMap, stage: string, overrides: map<string, map<string, string>>, dims: seq<string>, slice: map<string, string>)
    requires WellFormed(r) && stage in r.stages && forall d :: d in dims ==> d in r.stages[stage].dims
    requires OverridesComplete(r, state, stage, overrides)
    ensures var own := EffectiveRank(r, state, StageRef(stage, map[]));
      && Min(own, SliceRank(r, state, stage, dims, slice)) <= Min(own, GateSliceRank(overrides, dims, slice))
      && (KnownSlice(r, stage, dims, slice) ==>
        Min(own, SliceRank(r, state, stage, dims, slice)) == Min(own, GateSliceRank(overrides, dims, slice)))
  {
    if dims != [] {
      GateSliceRankIs(r, state, stage, overrides, dims[1..], slice);
      var d := dims[0];
      if d in slice {
        OneSliceIs(r, state, stage, d, slice[d]);
        assert (d in overrides && slice[d] in overrides[d]) <==> OverrideSet(r, state, stage, d, slice[d]);
      }
    }
  }

  /**
   * One unnarrowed gate read decides every slice: the lowest of its mode and its overrides' entries is the
   * rank a narrowed read would give, for every combination of known values. For a value the registry does
   * not know it can only be higher: such a row is read by a narrowed gate and listed by none.
   */
  lemma GateDeterminesSlices(r: Registry, state: StateMap, g: GateView, slice: map<string, string>)
    requires WellFormed(r) && g.stage in r.stages
    requires NameRank(g.mode) == EffectiveRank(r, state, StageRef(g.stage, map[]))
    requires OverridesComplete(r, state, g.stage, g.overrides)
    ensures var dims := r.stages[g.stage].dims;
      var derived := Min(NameRank(g.mode), GateSliceRank(g.overrides, dims, slice));
      && EffectiveRank(r, state, StageRef(g.stage, slice)) <= derived
      && (KnownSlice(r, g.stage, dims, slice) ==> EffectiveRank(r, state, StageRef(g.stage, slice)) == derived)
  {
    var dims := r.stages[g.stage].dims;
    GateSliceRankIs(r, state, g.stage, g.overrides, dims, slice);
    SliceRankOfEmpty(r, state, g.stage, dims);
    DesiredIsMode(r, state, StageEntry(g.stage));
  }
}
