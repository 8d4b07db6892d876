// Target addresses and proposed values: packages/control/src/targets.ts.
module Targets {
  import opened Basics
  import opened Registry

  datatype EntryRef = GlobalEntry | StageEntry(id: string) | PolicyEntry(id: string)

  datatype Target =
    | ModeTarget(entry: EntryRef)
    | KnobTarget(entry: EntryRef, knob: string)
    | DimTarget(stage: string, dim: string, value: string)

  const INHERIT := "inherit"
  const MAX_ADDRESS := 128

  datatype TargetError =
    | BadLength | UnknownStage | NotAnOverride | UnknownDimension | UnknownDimensionValue
    | UnknownKnob | UnknownTarget

  datatype ValueError = NotAMode | NotANumber | NotWhole | OutOfRange

  function EntryRefOf(r: Registry, id: string): Option<EntryRef> {
    if id == "global" then Some(GlobalEntry)
    else if id in r.stages then Some(StageEntry(id))
    else if id in r.policies then Some(PolicyEntry(id))
    else None
  }

  function EntryId(e: EntryRef): string {
    if e.GlobalEntry? then "global" else e.id
  }

  predicate EntryExists(r: Registry, e: EntryRef) {
    match e
    case GlobalEntry => true
    case StageEntry(id) => id in r.stages
    case PolicyEntry(id) => id in r.policies
  }

  function EntryModes(r: Registry, e: EntryRef): seq<string>
    requires EntryExists(r, e)
  {
    match e
    case GlobalEntry => r.global.modes
    case StageEntry(id) => r.stages[id].modes
    case PolicyEntry(id) => r.policies[id].modes
  }

  function EntryInitial(r: Registry, e: EntryRef): string
    requires EntryExists(r, e)
  {
    match e
    case GlobalEntry => r.global.initial
    case StageEntry(id) => r.stages[id].initial
    case PolicyEntry(id) => r.policies[id].initial
  }

  function EntryKnobs(r: Registry, e: EntryRef): map<string, Knob>
    requires EntryExists(r, e)
  {
    match e
    case GlobalEntry => map[]
    case StageEntry(id) => r.stages[id].knobs
    case PolicyEntry(id) => r.policies[id].knobs
  }

  /** A target whose state row the resolver may read: a slice's dimension value may be one the registry
      does not know. */
  predicate Readable(r: Registry, t: Target) {
    match t
    case ModeTarget(e) => EntryExists(r, e)
    case KnobTarget(e, k) => !e.GlobalEntry? && EntryExists(r, e) && k in EntryKnobs(r, e)
    case DimTarget(s, d, _) => s in r.stages && d in r.stages[s].dims
  }

  /** A target that can be set: a readable one whose dimension value, if any, is a known one. */
  predicate Settable(r: Registry, t: Target) {
    && Readable(r, t)
    && (t.DimTarget? ==> t.dim in r.dimensions && t.value in r.dimensions[t.dim])
  }

  function FormatTarget(t: Target): string {
    match t
    case ModeTarget(e) => EntryId(e)
    case KnobTarget(e, k) => EntryId(e) + "." + k
    case DimTarget(s, d, v) => s + "@" + d + "=" + v
  }

  function ParseOverride(r: Registry, addr: string, at: nat): Result<Target, TargetError>
    requires at < |addr|
  {
    var stage, rest := addr[..at], addr[at + 1..];
    var eq := IndexOf(rest, '=');
    if stage !in r.stages then Err(UnknownStage)
    else if eq == |rest| then Err(NotAnOverride)
    else
      var dim, value := rest[..eq], rest[eq + 1..];
      if dim !in r.stages[stage].dims then Err(UnknownDimension)
      else if dim !in r.dimensions || value !in r.dimensions[dim] then Err(UnknownDimensionValue)
      else Ok(DimTarget(stage, dim, value))
  }

  function ParseKnob(r: Registry, addr: string): Result<Target, TargetError> {
    var dot := LastIndexOf(addr, '.');
    if dot <= 0 then Err(UnknownTarget)
    else
      var entry := EntryRefOf(r, addr[..dot]);
      var knob := addr[dot + 1..];
      if entry.None? || entry.value.GlobalEntry? then Err(UnknownTarget)
      else if knob in EntryKnobs(r, entry.value) then Ok(KnobTarget(entry.value, knob))
      else Err(UnknownKnob)
  }

  /** An exact entry match is tried before a knob, which splits at the last dot: policy ids may hold dots. */
  function ParseTrimmed(r: Registry, addr: string): Result<Target, TargetError> {
    var at := IndexOf(addr, '@');
    if at < |addr| then ParseOverride(r, addr, at)
    else if EntryRefOf(r, addr).Some? then Ok(ModeTarget(EntryRefOf(r, addr).value))
    else ParseKnob(r, addr)
  }

  function ParseTarget(r: Registry, address: string): Result<Target, TargetError> {
    var addr := Trim(address);
    if |addr| == 0 || |addr| > MAX_ADDRESS then Err(BadLength) else ParseTrimmed(r, addr)
  }

  function KnobDef(r: Registry, t: Target): Knob
    requires Readable(r, t) && t.KnobTarget?
  {
    EntryKnobs(r, t.entry)[t.knob]
  }

  predicate AllDigits(s: string) { forall i :: 0 <= i < |s| ==> IsDigit(s[i]) }

  /** The DECIMAL pattern: an optional minus, an integer part with no leading zero, an optional fraction. */
  predicate IsDecimal(s: string) {
    var body := if s != "" && s[0] == '-' then s[1..] else s;
    var dot := IndexOf(body, '.');
    var whole := body[..dot];
    && whole != "" && AllDigits(whole) && (|whole| > 1 ==> whole[0] != '0')
    && (dot < |body| ==> dot + 1 < |body| && AllDigits(body[dot + 1..]))
  }

  function ParseModeValue(modes: seq<string>, value: string): Result<Option<string>, ValueError> {
    if value in modes then Ok(Some(value)) else Err(NotAMode)
  }

  /** An override at the stage's top mode caps nothing, so it is stored as "no override". */
  function ParseOverrideValue(modes: seq<string>, value: string): Result<Option<string>, ValueError> {
    if value == INHERIT then Ok(None)
    else if value !in modes then Err(NotAMode)
    else if value == modes[|modes| - 1] then Ok(None)
    else Ok(Some(value))
  }

  function ParseKnobValue(num: Numerics, knob: Knob, value: string): Result<Option<string>, ValueError> {
    if !IsDecimal(value) then Err(NotANumber)
    else
      var n := num.number(value);
      if knob.whole && (n.None? || !IsWhole(n.value)) then Err(NotWhole)
      else if n.None? || n.value < knob.min || n.value > knob.max then Err(OutOfRange)
      else Ok(Some(num.show(n.value)))
  }

  /** Validate and canonicalize a proposed value; Ok(None) clears a dimension override. */
  function ParseValue(r: Registry, t: Target, raw: string): Result<Option<string>, ValueError>
    requires Readable(r, t)
  {
    match t
    case ModeTarget(e) => ParseModeValue(EntryModes(r, e), Trim(raw))
    case DimTarget(s, _, _) => ParseOverrideValue(r.stages[s].modes, Trim(raw))
    case KnobTarget(_, _) => ParseKnobValue(r.numerics, KnobDef(r, t), Trim(raw))
  }

  // ---------- Addresses ----------

  lemma IndexOfIs(s: string, c: char, i: nat)
    requires i < |s| && s[i] == c && forall k :: 0 <= k < i ==> s[k] != c
    ensures IndexOf(s, c) == i
  {
  }

  lemma LastIndexOfIs(s: string, c: char, i: nat)
    requires i < |s| && s[i] == c && forall k :: i < k < |s| ==> s[k] != c
    ensures LastIndexOf(s, c) == i
  {
  }

  lemma EntryIdPlain(r: Registry, e: EntryRef)
    requires WellFormed(r) && EntryExists(r, e)
    ensures PlainId(EntryId(e))
    ensures EntryRefOf(r, EntryId(e)) == Some(e)
  {
    match e {
      case GlobalEntry =>
      case StageEntry(id) => StageIsOk(r, id);
      case PolicyEntry(id) => PolicyIsOk(r, id); assert AspectOk(r, StageIds);
    }
  }

  function KnobIds(r: Registry, e: EntryRef): seq<string>
    requires EntryExists(r, e)
  {
    match e
    case GlobalEntry => []
    case StageEntry(id) => r.stages[id].knobIds
    case PolicyEntry(id) => r.policies[id].knobIds
  }

  lemma EntryKnobsOk(r: Registry, e: EntryRef)
    requires WellFormed(r) && EntryExists(r, e)
    ensures KnobsOk(r.numerics, KnobIds(r, e), EntryKnobs(r, e))
  {
    match e {
      case GlobalEntry =>
      case StageEntry(id) => StageIsOk(r, id);
      case PolicyEntry(id) => PolicyIsOk(r, id);
    }
  }

  lemma OverridePlain(r: Registry, t: Target)
    requires WellFormed(r) && Readable(r, t) && t.DimTarget?
    ensures PlainId(t.stage) && PlainId(t.dim)
    ensures t.dim in r.dimensions && (Settable(r, t) ==> PlainId(t.value))
  {
    StageIsOk(r, t.stage);
    DimensionIsOk(r, t.dim);
  }

  lemma KnobNamePlain(r: Registry, t: Target)
    requires WellFormed(r) && Readable(r, t) && t.KnobTarget?
    ensures PlainKnobName(t.knob) && KnobOk(r.numerics, KnobDef(r, t))
  {
    EntryKnobsOk(r, t.entry);
  }

  /** An entry id that spells a knob's address hides that knob: the exact match is tried first. */
  predicate Shadowed(r: Registry, t: Target) {
    t.KnobTarget? && EntryRefOf(r, FormatTarget(t)).Some?
  }

  ghost predicate NothingShadowed(r: Registry) {
    forall t :: Readable(r, t) ==> !Shadowed(r, t)
  }

  lemma KnobAddress(e: string, k: string)
    requires PlainId(e) && PlainKnobName(k)
    ensures var a := e + "." + k;
      && PlainId(a) && Trimmed(a) && LastIndexOf(a, '.') == |e|
      && a[..|e|] == e && a[|e| + 1..] == k
  {
    var a := e + "." + k;
    forall i | 0 <= i < |a| ensures a[i] != '@' && a[i] != '=' && !IsSpace(a[i]) {
      if i > |e| { assert a[i] == k[i - |e| - 1]; }
    }
    forall i | |e| < i < |a| ensures a[i] != '.' { assert a[i] == k[i - |e| - 1]; }
    LastIndexOfIs(a, '.', |e|);
  }

  lemma OverrideAddress(s: string, d: string, v: string)
    requires PlainId(s) && PlainId(d)
    ensures var a := s + "@" + d + "=" + v;
      && IndexOf(a, '@') == |s| && a[..|s|] == s
      && var rest := a[|s| + 1..];
         && IndexOf(rest, '=') == |d| && rest[..|d|] == d && rest[|d| + 1..] == v
  {
    var a := s + "@" + d + "=" + v;
    IndexOfIs(a, '@', |s|);
    var rest := a[|s| + 1..];
    assert rest == d + "=" + v;
    IndexOfIs(rest, '=', |d|);
  }

  lemma PlainHasNoAt(a: string)
    requires PlainId(a)
    ensures IndexOf(a, '@') == |a| && Trimmed(a)
  {
  }

  lemma ModeRoundTrip(r: Registry, e: EntryRef)
    requires WellFormed(r) && EntryExists(r, e)
    ensures Trimmed(EntryId(e)) && ParseTrimmed(r, EntryId(e)) == Ok(ModeTarget(e))
  {
    EntryIdPlain(r, e);
    PlainHasNoAt(EntryId(e));
  }

  lemma KnobRoundTrip(r: Registry, t: Target)
    requires WellFormed(r) && Readable(r, t) && t.KnobTarget?
    ensures Trimmed(FormatTarget(t)) && (ParseTrimmed(r, FormatTarget(t)) == Ok(t) <==> !Shadowed(r, t))
  {
    EntryIdPlain(r, t.entry);
    KnobNamePlain(r, t);
    KnobAddress(EntryId(t.entry), t.knob);
    PlainHasNoAt(FormatTarget(t));
  }

  lemma OverrideRoundTrip(r: Registry, s: string, d: string, v: string)
    requires PlainId(s) && PlainId(d) && PlainId(v)
    requires s in r.stages && d in r.stages[s].dims && d in r.dimensions && v in r.dimensions[d]
    ensures var a := s + "@" + d + "=" + v; Trimmed(a) && ParseTrimmed(r, a) == Ok(DimTarget(s, d, v))
  {
    OverrideAddress(s, d, v);
    var a := s + "@" + d + "=" + v;
    assert a[0] == s[0] && a[|a| - 1] == v[|v| - 1];
  }

  /**
   * Round trip: every settable target's address that fits parses back to that target, except a knob
   * hidden behind an entry id of the same spelling, which parses as that entry.
   */
  lemma ParseFormat(r: Registry, t: Target)
    requires WellFormed(r) && Settable(r, t)
    ensures Trim(FormatTarget(t)) == FormatTarget(t)
    ensures ParseTarget(r, FormatTarget(t)) == Ok(t) <==> |FormatTarget(t)| <= MAX_ADDRESS && !Shadowed(r, t)
  {
    match t {
      case ModeTarget(e) => ModeRoundTrip(r, e);
      case KnobTarget(e, k) => KnobRoundTrip(r, t);
      case DimTarget(s, d, v) =>
        OverridePlain(r, t);
        OverrideRoundTrip(r, s, d, v);
    }
    TrimLeavesTrimmed(FormatTarget(t));
    AddressNonEmpty(r, t);
  }

  lemma AddressNonEmpty(r: Registry, t: Target)
    requires WellFormed(r) && Readable(r, t)
    ensures FormatTarget(t) != ""
  {
    if t.ModeTarget? { EntryIdPlain(r, t.entry); }
  }

  lemma OverrideParsed(r: Registry, addr: string, at: nat)
    requires at < |addr| && addr[at] == '@' && ParseOverride(r, addr, at).Ok?
    ensures var t := ParseOverride(r, addr, at).value; Settable(r, t) && FormatTarget(t) == addr
  {
    var rest := addr[at + 1..];
    var eq := IndexOf(rest, '=');
    assert rest == rest[..eq] + "=" + rest[eq + 1..];
    assert addr == addr[..at] + "@" + rest;
  }

  lemma KnobParsed(r: Registry, addr: string)
    requires ParseKnob(r, addr).Ok?
    ensures var t := ParseKnob(r, addr).value; Settable(r, t) && FormatTarget(t) == addr
  {
    var dot := LastIndexOf(addr, '.');
    assert addr == addr[..dot] + "." + addr[dot + 1..];
  }

  /** An accepted address names a settable target and is, once trimmed, exactly that target's address. */
  lemma FormatParse(r: Registry, address: string)
    requires ParseTarget(r, address).Ok?
    ensures var t := ParseTarget(r, address).value;
      Settable(r, t) && FormatTarget(t) == Trim(address)
  {
    var addr := Trim(address);
    var at := IndexOf(addr, '@');
    if at < |addr| {
      OverrideParsed(r, addr, at);
    } else if EntryRefOf(r, addr).None? {
      KnobParsed(r, addr);
    }
  }

  /** Distinct readable targets have distinct addresses, whatever value a slice names. */
  lemma FormatInjective(r: Registry, t: Target, u: Target)
    requires WellFormed(r) && NothingShadowed(r) && Readable(r, t) && Readable(r, u)
    requires FormatTarget(t) == FormatTarget(u)
    ensures t == u
  {
    AddressKind(r, t);
    AddressKind(r, u);
    match t {
      case ModeTarget(e) =>
        EntryIdPlain(r, e);
        if u.ModeTarget? { EntryIdPlain(r, u.entry); }
      case KnobTarget(e, k) =>
        EntryIdPlain(r, e);
        KnobNamePlain(r, t);
        KnobAddress(EntryId(e), k);
        EntryIdPlain(r, u.entry);
        if u.KnobTarget? {
          KnobNamePlain(r, u);
          KnobAddress(EntryId(u.entry), u.knob);
        }
      case DimTarget(s, d, v) =>
        OverridePlain(r, t);
        OverridePlain(r, u);
        OverrideAddress(s, d, v);
        OverrideAddress(u.stage, u.dim, u.value);
    }
  }

  lemma AddressKind(r: Registry, t: Target)
    requires WellFormed(r) && Readable(r, t)
    ensures t.DimTarget? <==> '@' in FormatTarget(t)
  {
    match t {
      case ModeTarget(e) => EntryIdPlain(r, e);
      case KnobTarget(e, k) =>
        EntryIdPlain(r, e);
        KnobNamePlain(r, t);
        KnobAddress(EntryId(e), k);
      case DimTarget(s, d, v) => assert FormatTarget(t)[|s|] == '@';
    }
  }

  // ---------- The listing of every settable target ----------

  function OwnerOf(t: Target): EntryRef {
    if t.DimTarget? then StageEntry(t.stage) else t.entry
  }

  ghost predicate ListsEntry(r: Registry, out: seq<Target>, e: EntryRef) {
    && NoDuplicates(out)
    && forall t :: t in out <==> Settable(r, t) && OwnerOf(t) == e
  }

  method EntryTargets(r: Registry, e: EntryRef) returns (out: seq<Target>)
    requires WellFormed(r) && EntryExists(r, e) && !e.GlobalEntry?
    ensures ListsEntry(r, out, e)
  {
    var knobIds := KnobIds(r, e);
    EntryKnobsOk(r, e);
    out := [ModeTarget(e)];
    for i := 0 to |knobIds|
      invariant NoDuplicates(out)
      invariant forall t :: t in out <==> t == ModeTarget(e) || (t.KnobTarget? && t.entry == e && t.knob in knobIds[..i])
    {
      assert knobIds[i] !in knobIds[..i];
      out := out + [KnobTarget(e, knobIds[i])];
    }
    assert knobIds[..|knobIds|] == knobIds;
    if e.StageEntry? {
      out := OverrideTargets(r, e.id, out);
    }
  }

  method OverrideTargets(r: Registry, stage: string, before: seq<Target>) returns (out: seq<Target>)
    requires WellFormed(r) && stage in r.stages
    requires NoDuplicates(before) && forall t :: t in before ==> !t.DimTarget?
    ensures NoDuplicates(out)
    ensures forall t :: t in out <==> t in before || (t.DimTarget? && t.stage == stage && Settable(r, t))
  {
    var dims := r.stages[stage].dims;
    StageIsOk(r, stage);
    out := before;
    for i := 0 to |dims|
      invariant NoDuplicates(out)
      invariant forall t :: t in out <==> t in before || (t.DimTarget? && t.stage == stage && t.dim in dims[..i] && Settable(r, t))
    {
      var dim := dims[i];
      DimensionIsOk(r, dim);
      var values := r.dimensions[dim];
      assert dim !in dims[..i];
      ghost var done := out;
      for j := 0 to |values|
        invariant NoDuplicates(out)
        invariant forall t :: t in out <==> t in done || (t.DimTarget? && t.stage == stage && t.dim == dim && t.value in values[..j])
      {
        assert values[j] !in values[..j];
        out := out + [DimTarget(stage, dim, values[j])];
      }
      assert values[..|values|] == values && dims[..i + 1] == dims[..i] + [dim];
    }
    assert dims[..|dims|] == dims;
  }

  /** Every settable target exactly once: global, each stage's, each policy's. */
  method AllTargets(r: Registry) returns (out: seq<Target>)
    requires WellFormed(r)
    ensures NoDuplicates(out)
    ensures forall t :: t in out <==> Settable(r, t)
  {
    out := [ModeTarget(GlobalEntry)];
    assert AspectOk(r, StageIds) && AspectOk(r, PolicyIds);
    for i := 0 to |r.stageIds|
      invariant NoDuplicates(out)
      invariant forall t :: t in out <==> Settable(r, t) && (OwnerOf(t) == GlobalEntry || (OwnerOf(t).StageEntry? && OwnerOf(t).id in r.stageIds[..i]))
    {
      assert r.stageIds[i] !in r.stageIds[..i];
      var more := EntryTargets(r, StageEntry(r.stageIds[i]));
      ConcatNoDuplicates(out, more);
      out := out + more;
    }
    assert r.stageIds[..|r.stageIds|] == r.stageIds;
    for i := 0 to |r.policyIds|
      invariant NoDuplicates(out)
      invariant forall t :: t in out <==> Settable(r, t) && (!OwnerOf(t).PolicyEntry? || OwnerOf(t).id in r.policyIds[..i])
    {
      assert r.policyIds[i] !in r.policyIds[..i];
      var more := EntryTargets(r, PolicyEntry(r.policyIds[i]));
      ConcatNoDuplicates(out, more);
      out := out + more;
    }
    assert r.policyIds[..|r.policyIds|] == r.policyIds;
  }
}
