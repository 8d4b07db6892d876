// Stored rows to desired and effective values, failing closed: packages/control/src/resolve.ts.
module Resolve {
  import opened Basics
  import opened Registry
  import opened Targets

  type StateMap = map<string, string>

  datatype Source = SetRow | DefaultRow | Clamped | Invalid

  datatype Resolved<+V> = Resolved(value: V, source: Source)

  function ReadMode(modes: seq<string>, initial: string, raw: Option<string>): Resolved<string> {
    match raw
    case None => Resolved(initial, DefaultRow)
    case Some(m) => if m in modes then Resolved(m, SetRow) else Resolved("off", Invalid)
  }

  function DesiredMode(r: Registry, state: StateMap, e: EntryRef): Resolved<string>
    requires EntryExists(r, e)
  {
    ReadMode(EntryModes(r, e), EntryInitial(r, e), Get(state, FormatTarget(ModeTarget(e))))
  }

  function ReadOverride(modes: seq<string>, raw: Option<string>): Resolved<Option<string>> {
    match raw
    case None => Resolved(None, DefaultRow)
    case Some(m) => if m in modes then Resolved(Some(m), SetRow) else Resolved(Some("off"), Invalid)
  }

  function OverrideMode(r: Registry, state: StateMap, stage: string, dim: string, value: string): Resolved<Option<string>>
    requires Readable(r, DimTarget(stage, dim, value))
  {
    ReadOverride(r.stages[stage].modes, Get(state, FormatTarget(DimTarget(stage, dim, value))))
  }

  function SafestKnobValue(k: Knob): real {
    if k.riskier.RiskUp? then k.min else k.max
  }

  function Clamp(n: real, lo: real, hi: real): real {
    var raised := if n < lo then lo else n;
    if raised > hi then hi else raised
  }

  function ReadKnob(num: Numerics, k: Knob, raw: Option<string>): Resolved<real> {
    match raw
    case None => Resolved(k.default, DefaultRow)
    case Some(text) =>
      var n := if Trim(text) == "" then None else num.number(text);
      if n.None? || (k.whole && !IsWhole(n.value)) then Resolved(SafestKnobValue(k), Invalid)
      else
        var value := Clamp(n.value, k.min, k.max);
        Resolved(value, if value == n.value then SetRow else Clamped)
  }

  function KnobValue(r: Registry, state: StateMap, t: Target): Resolved<real>
    requires Readable(r, t) && t.KnobTarget?
  {
    ReadKnob(r.numerics, KnobDef(r, t), Get(state, FormatTarget(t)))
  }

  /** What a raw stored row of a target reads as, in the canonical form the change log records. */
  function ReadRow(r: Registry, t: Target, raw: Option<string>): Option<string>
    requires Readable(r, t)
  {
    match t
    case ModeTarget(e) => Some(ReadMode(EntryModes(r, e), EntryInitial(r, e), raw).value)
    case KnobTarget(_, _) => Some(r.numerics.show(ReadKnob(r.numerics, KnobDef(r, t), raw).value))
    case DimTarget(s, _, _) => ReadOverride(r.stages[s].modes, raw).value
  }

  /** The stored-or-default value of any target: a function of that target's own row alone. */
  function DesiredValue(r: Registry, state: StateMap, t: Target): Option<string>
    requires Readable(r, t)
  {
    ReadRow(r, t, Get(state, FormatTarget(t)))
  }

  /** The values ParseValue can return for a target. */
  ghost predicate Canonical(r: Registry, t: Target, v: Option<string>)
    requires Readable(r, t)
  {
    exists raw: string :: ParseValue(r, t, raw) == Ok(v)
  }

  lemma ModesKnown(r: Registry, e: EntryRef)
    requires WellFormed(r) && EntryExists(r, e)
    ensures ModesOk(EntryModes(r, e), EntryInitial(r, e))
  {
    match e {
      case GlobalEntry => assert AspectOk(r, Switch);
      case StageEntry(id) => StageIsOk(r, id);
      case PolicyEntry(id) => PolicyIsOk(r, id);
    }
  }

  lemma ShownText(num: Numerics, n: real)
    requires num.Lawful() && num.double(n)
    ensures num.number(num.show(n)) == Some(n) && num.show(n) != "" && Trim(num.show(n)) == num.show(n)
  {
    TrimLeavesTrimmed(num.show(n));
  }

  /** A knob's reading is always a number of the program: one that was stored, or a bound, or the default. */
  lemma KnobReadsADouble(num: Numerics, k: Knob, raw: Option<string>)
    requires num.Lawful() && KnobOk(num, k)
    ensures num.double(ReadKnob(num, k, raw).value) && k.min <= ReadKnob(num, k, raw).value <= k.max
  {
  }

  lemma KnobWriteThenRead(num: Numerics, k: Knob, value: string)
    requires num.Lawful() && ParseKnobValue(num, k, value).Ok?
    ensures var v := ParseKnobValue(num, k, value).value;
      && v.Some? && Trim(v.value) == v.value && num.number(v.value) == num.number(value)
      && num.number(value).Some? && ReadKnob(num, k, v) == Resolved(num.number(value).value, SetRow)
      && v.value == num.show(num.number(value).value)
  {
    ShownText(num, num.number(value).value);
  }

  lemma KnobValueIdempotent(num: Numerics, k: Knob, value: string)
    requires num.Lawful() && ParseKnobValue(num, k, value).Ok?
    ensures var v := ParseKnobValue(num, k, value).value;
      v.Some? && ParseKnobValue(num, k, v.value) == if IsDecimal(v.value) then Ok(v) else Err(NotANumber)
  {
    KnobWriteThenRead(num, k, value);
  }

  /** Reading back what was accepted: a row holding a canonical value resolves to exactly that value. */
  lemma WriteThenRead(r: Registry, t: Target, raw: string)
    requires WellFormed(r) && Readable(r, t) && ParseValue(r, t, raw).Ok?
    ensures var v := ParseValue(r, t, raw).value; ReadRow(r, t, v) == v
  {
    if t.KnobTarget? {
      LawfulNumbers(r);
      KnobWriteThenRead(r.numerics, KnobDef(r, t), Trim(raw));
    }
  }

  lemma OverrideValueIdempotent(modes: seq<string>, value: string)
    requires (forall m :: m in modes ==> IsMode(m)) && ParseOverrideValue(modes, value).Ok?
    ensures var v := ParseOverrideValue(modes, value).value;
      ParseOverrideValue(modes, if v.Some? then v.value else INHERIT) == Ok(v)
  {
  }

  lemma TrimTwice(raw: string)
    ensures Trim(Trim(raw)) == Trim(raw) && Trim(INHERIT) == INHERIT
  {
    TrimLeavesTrimmed(raw);
    TrimLeavesTrimmed(Trim(raw));
    TrimLeavesTrimmed(INHERIT);
  }

  /** What a value typed back is: a cleared override is spelled "inherit". */
  function Retyped(v: Option<string>): string {
    if v.Some? then v.value else INHERIT
  }

  lemma OverrideTextIdempotent(modes: seq<string>, initial: string, raw: string)
    requires ModesOk(modes, initial) && ParseOverrideValue(modes, Trim(raw)).Ok?
    ensures ParseOverrideValue(modes, Trim(Retyped(ParseOverrideValue(modes, Trim(raw)).value))) == ParseOverrideValue(modes, Trim(raw))
  {
    TrimTwice(raw);
    OverrideValueIdempotent(modes, Trim(raw));
  }

  lemma KnobTextIdempotent(num: Numerics, k: Knob, raw: string)
    requires num.Lawful() && ParseKnobValue(num, k, Trim(raw)).Ok?
    ensures var v := ParseKnobValue(num, k, Trim(raw)).value;
      && v.Some?
      && ParseKnobValue(num, k, Trim(Retyped(v))) == if IsDecimal(v.value) then Ok(v) else Err(NotANumber)
  {
    KnobWriteThenRead(num, k, Trim(raw));
    KnobValueIdempotent(num, k, Trim(raw));
  }

  /**
   * Canonical output is accepted again unchanged exactly when a knob's number prints as a plain decimal.
   * JavaScript prints a magnitude below 1e-6, or from 1e21, with an exponent.
   */
  lemma ParseValueIdempotent(r: Registry, t: Target, raw: string)
    requires WellFormed(r) && Readable(r, t) && ParseValue(r, t, raw).Ok?
    ensures var v := ParseValue(r, t, raw).value;
      var again := ParseValue(r, t, Retyped(v));
      && (!t.KnobTarget? ==> again == Ok(v))
      && (t.KnobTarget? ==> v.Some? && again == if IsDecimal(v.value) then Ok(v) else Err(NotANumber))
  {
    if t.KnobTarget? {
      LawfulNumbers(r);
      var num, k := r.numerics, KnobDef(r, t);
      assert ParseValue(r, t, raw) == ParseKnobValue(num, k, Trim(raw));
      KnobTextIdempotent(num, k, raw);
    } else if t.DimTarget? {
      ModesKnown(r, StageEntry(t.stage));
      OverrideTextIdempotent(r.stages[t.stage].modes, r.stages[t.stage].initial, raw);
    } else {
      TrimTwice(raw);
    }
  }

  /** The failing case is reachable: a knob accepts 0.0000001, stores "1e-7", and then refuses that text. */
  lemma ExponentIsRefusedOnReentry(num: Numerics, k: Knob)
    requires !k.whole && k.min <= 0.0000001 <= k.max
    requires num.number("0.0000001") == Some(0.0000001) && num.show(0.0000001) == "1e-7"
    ensures ParseKnobValue(num, k, "0.0000001") == Ok(Some("1e-7"))
    ensures ParseKnobValue(num, k, "1e-7") == Err(NotANumber)
  {
    var s := "0.0000001";
    IndexOfIs(s, '.', 1);
    assert s[..1] == "0" && s[2..] == "0000001";
    var t := "1e-7";
    assert IndexOf(t, '.') == |t|;
    assert t[..|t|][1] == 'e';
  }

  // ---------- Effective modes ----------

  datatype CappedBy = Uncapped | CappedByGlobal | CappedBySlice(dim: string, value: string)

  datatype Effective = Effective(mode: string, desired: string, cappedBy: CappedBy)

  datatype Ref = GlobalRef | PolicyRef(policy: string) | StageRef(stage: string, slice: map<string, string>)

  predicate RefOk(r: Registry, ref: Ref) {
    match ref
    case GlobalRef => true
    case PolicyRef(p) => p in r.policies
    case StageRef(s, _) => s in r.stages
  }

  function RefEntry(ref: Ref): EntryRef {
    match ref
    case GlobalRef => GlobalEntry
    case PolicyRef(p) => PolicyEntry(p)
    case StageRef(s, _) => StageEntry(s)
  }

  function OverrideRank(o: Option<string>): nat {
    if o.None? then TOP_RANK else NameRank(o.value)
  }

  /** The lowest rank among the overrides of the listed dimensions that the slice names. */
  function SliceRank(r: Registry, state: StateMap, stage: string, dims: seq<string>, slice: map<string, string>): nat
    requires stage in r.stages && forall d :: d in dims ==> d in r.stages[stage].dims
  {
    if dims == [] then TOP_RANK
    else
      var rest := SliceRank(r, state, stage, dims[1..], slice);
      if dims[0] in slice
      then Min(OverrideRank(OverrideMode(r, state, stage, dims[0], slice[dims[0]]).value), rest)
      else rest
  }

  /** The rank a runtime must obey: the lowest of the master switch, the entry and the slice's overrides. */
  function EffectiveRank(r: Registry, state: StateMap, ref: Ref): nat
    requires RefOk(r, ref)
  {
    var global := NameRank(DesiredMode(r, state, GlobalEntry).value);
    var own := NameRank(DesiredMode(r, state, RefEntry(ref)).value);
    match ref
    case GlobalRef => global
    case PolicyRef(_) => Min(global, own)
    case StageRef(s, slice) => Min(Min(global, own), SliceRank(r, state, s, r.stages[s].dims, slice))
  }

  lemma DesiredIsMode(r: Registry, state: StateMap, e: EntryRef)
    requires WellFormed(r) && EntryExists(r, e)
    ensures IsMode(DesiredMode(r, state, e).value)
    ensures e.GlobalEntry? ==> DesiredMode(r, state, e).value == "off" || DesiredMode(r, state, e).value == "on"
  {
    ModesKnown(r, e);
    if e.GlobalEntry? { assert AspectOk(r, Switch); }
  }

  /** The resolver's own loop: the caps are applied one after another, in registry order. */
  method EffectiveMode(r: Registry, state: StateMap, ref: Ref) returns (eff: Effective)
    requires WellFormed(r) && RefOk(r, ref)
    ensures IsMode(eff.mode) && NameRank(eff.mode) == EffectiveRank(r, state, ref)
    ensures eff.desired == DesiredMode(r, state, RefEntry(ref)).value
    ensures eff.cappedBy.Uncapped? <==> eff.mode == eff.desired
    ensures NameRank(eff.mode) <= NameRank(eff.desired)
    ensures eff.cappedBy.CappedBySlice? ==>
      && ref.StageRef? && eff.cappedBy.dim in r.stages[ref.stage].dims
      && eff.cappedBy.dim in ref.slice && ref.slice[eff.cappedBy.dim] == eff.cappedBy.value
      && OverrideMode(r, state, ref.stage, eff.cappedBy.dim, eff.cappedBy.value).value == Some(eff.mode)
  {
    var global := DesiredMode(r, state, GlobalEntry).value;
    DesiredIsMode(r, state, GlobalEntry);
    if ref.GlobalRef? {
      return Effective(global, global, Uncapped);
    }
    var desired := DesiredMode(r, state, RefEntry(ref)).value;
    DesiredIsMode(r, state, RefEntry(ref));
    var mode := desired;
    var cappedBy := Uncapped;
    if global == "off" && NameRank(mode) > NameRank("off") {
      mode, cappedBy := "off", CappedByGlobal;
    }
    if ref.StageRef? {
      var stage, slice := ref.stage, ref.slice;
      var dims := r.stages[stage].dims;
      assert NameRank(mode) == Min(NameRank(global), NameRank(desired));
      ghost var whole := Min(NameRank(mode), SliceRank(r, state, stage, dims, slice));
      for i := 0 to |dims|
        invariant IsMode(mode) && NameRank(mode) <= NameRank(desired)
        invariant whole == Min(NameRank(mode), SliceRank(r, state, stage, dims[i..], slice))
        invariant cappedBy.Uncapped? <==> mode == desired
        invariant cappedBy.CappedBySlice? ==>
          && cappedBy.dim in dims && cappedBy.dim in slice && slice[cappedBy.dim] == cappedBy.value
          && OverrideMode(r, state, stage, cappedBy.dim, cappedBy.value).value == Some(mode)
      {
        assert dims[i..][1..] == dims[i + 1..];
        var dim := dims[i];
        if dim in slice {
          var override := OverrideMode(r, state, stage, dim, slice[dim]).value;
          OverrideIsMode(r, state, stage, dim, slice[dim]);
          if override.Some? && NameRank(override.value) < NameRank(mode) {
            mode, cappedBy := override.value, CappedBySlice(dim, slice[dim]);
          }
        }
      }
    }
    return Effective(mode, desired, cappedBy);
  }

  lemma OverrideIsMode(r: Registry, state: StateMap, stage: string, dim: string, value: string)
    requires WellFormed(r) && Readable(r, DimTarget(stage, dim, value))
    ensures var o := OverrideMode(r, state, stage, dim, value).value; o.Some? ==> IsMode(o.value)
    ensures OverrideRank(OverrideMode(r, state, stage, dim, value).value) <= TOP_RANK
  {
    ModesKnown(r, StageEntry(stage));
  }

  // ---------- Narrowing does not depend on the order of dimensions ----------

  lemma {:induction false} SliceRankIsLowest(r: Registry, state: StateMap, stage: string, dims: seq<string>, slice: map<string, string>)
    requires WellFormed(r) && stage in r.stages && forall d :: d in dims ==> d in r.stages[stage].dims
    ensures var n := SliceRank(r, state, stage, dims, slice);
      && n <= TOP_RANK
      && (forall d :: d in dims && d in slice ==> n <= OverrideRank(OverrideMode(r, state, stage, d, slice[d]).value))
      && (n == TOP_RANK || exists d :: d in dims && d in slice && n == OverrideRank(OverrideMode(r, state, stage, d, slice[d]).value))
  {
    if dims != [] {
      SliceRankIsLowest(r, state, stage, dims[1..], slice);
      if dims[0] in slice { OverrideIsMode(r, state, stage, dims[0], slice[dims[0]]); }
      forall d | d in dims && d in slice
        ensures SliceRank(r, state, stage, dims, slice) <= OverrideRank(OverrideMode(r, state, stage, d, slice[d]).value)
      {
        assert d == dims[0] || d in dims[1..];
      }
    }
  }

  /** Any two listings of the same dimensions narrow a slice to the same rank. */
  lemma DimensionOrderIrrelevant(r: Registry, state: StateMap, stage: string, a: seq<string>, b: seq<string>, slice: map<string, string>)
    requires WellFormed(r) && stage in r.stages
    requires (forall d :: d in a <==> d in b) && forall d :: d in a ==> d in r.stages[stage].dims
    ensures SliceRank(r, state, stage, a, slice) == SliceRank(r, state, stage, b, slice)
  {
    SliceRankIsLowest(r, state, stage, a, slice);
    SliceRankIsLowest(r, state, stage, b, slice);
  }
}
