// A small registry that meets every demand the proofs make of one: the theorems about all well-formed registries are
// about something.
module RegistryExample {
  import opened Basics
  import opened Registry
  import opened Targets

  function Show(x: real): string { if x == 0.0 then "0" else "1" }

  function Number(s: string): Option<real> {
    if s == "0" then Some(0.0) else if s == "1" then Some(1.0) else None
  }

  function SmallNumbers(): Numerics { Numerics(x => x == 0.0 || x == 1.0, s => Number(s), x => Show(x)) }

  function SmallKnob(): Knob { Knob(0.0, 0.0, 1.0, RiskUp, true) }

  function SmallStage(): StageDef {
    StageDef(["off", "shadow", "on"], "off", ["source"], ["limit"], map["limit" := SmallKnob()], SafeDirection, "worker")
  }

  function SmallPolicy(): PolicyDef {
    PolicyDef(["off", "enforce"], "off", ["digest"], None, [], map[], Approval)
  }

  /** One stage with a dimension and a knob, one policy with a dotted id. */
  function Small(): Registry {
    Registry(GlobalDef(["off", "on"], "on", SafeDirection),
             ["digest"], map["digest" := SmallStage()], ["close.gone"], map["close.gone" := SmallPolicy()],
             map["source" := ["lever"]], SmallNumbers())
  }

  lemma NumbersAreLawful()
    ensures SmallNumbers().Lawful()
  {
  }

  lemma StageIsLawful()
    ensures StageOk(Small(), SmallStage())
  {
    var s, k := SmallStage(), SmallKnob();
    assert IsWhole(0.0) && IsWhole(1.0);
    assert KnobOk(SmallNumbers(), k);
    assert PlainKnobName("limit");
    assert ModesOk(s.modes, s.initial);
  }

  lemma PolicyIsLawful()
    ensures PolicyOk(Small(), SmallPolicy())
  {
  }

  lemma IdsArePlain()
    ensures PlainId("digest") && PlainId("close.gone") && PlainId("source") && PlainId("lever")
  {
  }

  lemma SmallIsWellFormed()
    ensures WellFormed(Small())
  {
    NumbersAreLawful();
    StageIsLawful();
    PolicyIsLawful();
    IdsArePlain();
    forall a: Aspect ensures AspectOk(Small(), a) {
    }
  }

  lemma SmallHidesNothing()
    ensures NothingShadowed(Small())
  {
    var r := Small();
    forall t | Readable(r, t) ensures !Shadowed(r, t) {
      if t.KnobTarget? {
        assert FormatTarget(t) == "digest.limit";
      }
    }
  }
}
