// The probe worker pool and its per-host throttle (packages/discovery/src/probe.ts), as cooperative workers that
// interleave only where the source awaits.
module ProbePool {
  import opened Basics

  datatype Outcome = Live | LiveEmpty | Absent | Indeterminate

  datatype ProbeResult<C> = ProbeResult(candidate: C, status: nat, outcome: Outcome)

  datatype Slot = Slot(inFlight: nat, lastStart: int)

  /** A worker between two awaits: about to draw an index, polling for its host's slot, holding it, or probing.
      A worker that stops for the deadline leaves its index behind. */
  datatype Worker =
    | Idle
    | Waiting(i: nat, host: string)
    | Acquired(i: nat, host: string)
    | Probing(i: nat, host: string)
    | Finished
    | Left(i: nat)

  datatype Options = Options(concurrency: int, minInterval: nat, deadline: Option<int>)

  /** One started probe: the host and the clock it was granted at. */
  datatype Start = Start(host: string, at: int)

  datatype Pool<C> = Pool(
    cursor: nat, results: seq<Option<ProbeResult<C>>>, slots: map<string, Slot>, workers: seq<Worker>,
    starts: seq<Start>, sawDeadline: bool)

  // ---------- The throttle ----------

  function SlotOf(slots: map<string, Slot>, host: string): Slot {
    if host in slots then slots[host] else Slot(0, 0)
  }

  predicate MayStart(o: Options, s: Slot, now: int) {
    s.inFlight < o.concurrency && now - s.lastStart >= o.minInterval
  }

  function Granted(slots: map<string, Slot>, host: string, now: int): map<string, Slot> {
    slots[host := Slot(SlotOf(slots, host).inFlight + 1, now)]
  }

  function Released(slots: map<string, Slot>, host: string): map<string, Slot> {
    if host in slots then
      slots[host := slots[host].(inFlight := if slots[host].inFlight == 0 then 0 else slots[host].inFlight - 1)]
    else slots
  }

  class HostThrottle {
    const options: Options
    var slots: map<string, Slot>

    constructor (options: Options)
      ensures this.options == options && slots == map[]
    {
      this.options, slots := options, map[];
    }

    /** One poll of acquire: the check and the increment have no await between them. */
    method TryAcquire(host: string, now: int) returns (ok: bool)
      modifies this
      ensures ok <==> MayStart(options, SlotOf(old(slots), host), now)
      ensures slots == if ok then Granted(old(slots), host, now) else old(slots)
    {
      var s := if host in slots then slots[host] else Slot(0, 0);
      ok := s.inFlight < options.concurrency && now - s.lastStart >= options.minInterval;
      if ok { slots := slots[host := Slot(s.inFlight + 1, now)]; }
    }

    method Release(host: string)
      modifies this
      ensures slots == Released(old(slots), host)
    {
      if host in slots {
        var s := slots[host];
        slots := slots[host := s.(inFlight := if s.inFlight == 0 then 0 else s.inFlight - 1)];
      }
    }
  }

  // ---------- The workers ----------

  datatype Event<C> =
    | Draw(w: nat)
    | Poll(w: nat, now: int)
    | CheckDeadline(w: nat, now: int)
    | Finish(w: nat, probed: Option<(nat, Outcome)>)

  /** Status 0 is inconclusive: what a probe that threw leaves. */
  function Thrown<C>(c: C): ProbeResult<C> { ProbeResult(c, 0, Indeterminate) }

  function Move<C>(p: Pool<C>, w: nat, worker: Worker): Pool<C>
    requires w < |p.workers|
  {
    p.(workers := p.workers[w := worker])
  }

  function Write<C>(p: Pool<C>, i: nat, r: ProbeResult<C>): Pool<C> {
    if i < |p.results| then p.(results := p.results[i := Some(r)]) else p
  }

  /** One turn of a worker. `hostOf` is None where no probe request can be built for the candidate. */
  function Step<C>(o: Options, cs: seq<C>, hostOf: C -> Option<string>, p: Pool<C>, e: Event<C>): Pool<C> {
    if e.w >= |p.workers| then p
    else
      var x := p.workers[e.w];
      match e
      case Draw(w) =>
        if !x.Idle? then p
        else if p.cursor >= |cs| then Move(p.(cursor := p.cursor + 1), w, Finished)
        else
          var i, q := p.cursor, p.(cursor := p.cursor + 1);
          var host := hostOf(cs[i]);
          if host.None? then Write(q, i, Thrown(cs[i])) else Move(q, w, Waiting(i, host.value))
      case Poll(w, now) =>
        if !(x.Waiting? && MayStart(o, SlotOf(p.slots, x.host), now)) then p
        else
          Move(p.(slots := Granted(p.slots, x.host, now), starts := p.starts + [Start(x.host, now)]),
               w, Acquired(x.i, x.host))
      case CheckDeadline(w, now) =>
        if !x.Acquired? then p
        else if o.deadline.Some? && now >= o.deadline.value then
          Move(p.(slots := Released(p.slots, x.host), sawDeadline := true), w, Left(x.i))
        else Move(p, w, Probing(x.i, x.host))
      case Finish(w, probed) =>
        if !(x.Probing? && x.i < |cs|) then p
        else
          var r := if probed.Some? then ProbeResult(cs[x.i], probed.value.0, probed.value.1) else Thrown(cs[x.i]);
          Move(Write(p.(slots := Released(p.slots, x.host)), x.i, r), w, Idle)
  }

  function Exec<C>(o: Options, cs: seq<C>, hostOf: C -> Option<string>, p: Pool<C>, es: seq<Event<C>>): Pool<C> {
    if es == [] then p else Step(o, cs, hostOf, Exec(o, cs, hostOf, p, es[..|es| - 1]), es[|es| - 1])
  }

  function Opened<C>(cs: seq<C>, globalConcurrency: int): Pool<C> {
    var most := if globalConcurrency < 1 then 1 else globalConcurrency;
    var n := if |cs| < 1 then 1 else |cs|;
    Pool(0, seq(|cs|, _ => None), map[], seq(if most < n then most else n, _ => Idle), [], false)
  }

  // ---------- What every schedule keeps ----------

  predicate HoldsHost(x: Worker, host: string) { (x.Acquired? || x.Probing?) && x.host == host }

  predicate HasIndex(x: Worker) { x.Waiting? || x.Acquired? || x.Probing? || x.Left? }

  /** How many workers are between acquire and release on a host. */
  function Holding(xs: seq<Worker>, host: string): nat {
    if xs == [] then 0 else (if HoldsHost(xs[0], host) then 1 else 0) + Holding(xs[1..], host)
  }

  lemma {:induction false} HoldingAfter(xs: seq<Worker>, w: nat, x: Worker, host: string)
    requires w < |xs|
    ensures Holding(xs[w := x], host) + (if HoldsHost(xs[w], host) then 1 else 0)
      == Holding(xs, host) + (if HoldsHost(x, host) then 1 else 0)
  {
    if w > 0 {
      assert xs[w := x][1..] == xs[1..][w - 1 := x];
      HoldingAfter(xs[1..], w - 1, x, host);
    } else {
      assert xs[w := x][1..] == xs[1..];
    }
  }

  /** The throttle counts exactly the workers between acquire and release, and never past its cap. */
  ghost predicate ThrottleOk<C>(o: Options, p: Pool<C>) {
    forall host :: SlotOf(p.slots, host).inFlight == Holding(p.workers, host) && HoldingFits(o, p, host)
  }

  predicate HoldingFits<C>(o: Options, p: Pool<C>, host: string) {
    Holding(p.workers, host) == 0 || Holding(p.workers, host) <= o.concurrency
  }

  /** Two starts on one host are at least the minimum interval apart. */
  ghost predicate Spaced(o: Options, starts: seq<Start>) {
    forall a, b :: 0 <= a < b < |starts| && starts[a].host == starts[b].host ==>
      starts[b].at - starts[a].at >= o.minInterval
  }

  /** The slot remembers its host's last start. */
  ghost predicate LastStartOk<C>(p: Pool<C>) {
    forall a :: 0 <= a < |p.starts| ==> p.starts[a].at <= SlotOf(p.slots, p.starts[a].host).lastStart
  }

  /** Each index is with one worker, or answered, or not drawn yet; a result is for its own candidate. */
  ghost predicate IndexesOk<C>(cs: seq<C>, p: Pool<C>) {
    && |p.results| == |cs|
    && (forall w :: 0 <= w < |p.workers| && HasIndex(p.workers[w]) ==>
      p.workers[w].i < p.cursor && p.workers[w].i < |cs| && p.results[p.workers[w].i].None?)
    && (forall v, w :: 0 <= v < w < |p.workers| && HasIndex(p.workers[v]) && HasIndex(p.workers[w]) ==>
      p.workers[v].i != p.workers[w].i)
    && (forall i :: 0 <= i < |cs| && p.results[i].Some? ==> i < p.cursor && p.results[i].value.candidate == cs[i])
    && (forall i :: 0 <= i < |cs| && i < p.cursor && p.results[i].None? ==> Assigned(p.workers, i))
  }

  ghost predicate Assigned(xs: seq<Worker>, i: nat) {
    exists w :: 0 <= w < |xs| && HasIndex(xs[w]) && xs[w].i == i
  }

  /** A worker stops only at the end of the list, or at the deadline. */
  ghost predicate StopsOk<C>(o: Options, cs: seq<C>, p: Pool<C>) {
    && (forall w :: 0 <= w < |p.workers| && p.workers[w].Finished? ==> p.cursor >= |cs|)
    && (forall w :: 0 <= w < |p.workers| && p.workers[w].Left? ==> p.sawDeadline)
    && (p.sawDeadline ==> o.deadline.Some?)
  }

  lemma ThrottleKept<C>(o: Options, cs: seq<C>, hostOf: C -> Option<string>, p: Pool<C>, e: Event<C>)
    requires ThrottleOk(o, p)
    ensures ThrottleOk(o, Step(o, cs, hostOf, p, e))
  {
    var q := Step(o, cs, hostOf, p, e);
    if e.w < |p.workers| {
      forall host ensures SlotOf(q.slots, host).inFlight == Holding(q.workers, host) && HoldingFits(o, q, host) {
        assert SlotOf(p.slots, host).inFlight == Holding(p.workers, host) && HoldingFits(o, p, host);
        HoldingAfter(p.workers, e.w, q.workers[e.w], host);
      }
    }
  }

  lemma SpacingKept<C>(o: Options, cs: seq<C>, hostOf: C -> Option<string>, p: Pool<C>, e: Event<C>)
    requires Spaced(o, p.starts) && LastStartOk(p)
    ensures var q := Step(o, cs, hostOf, p, e); Spaced(o, q.starts) && LastStartOk(q)
  {
  }

  lemma StopsKept<C>(o: Options, cs: seq<C>, hostOf: C -> Option<string>, p: Pool<C>, e: Event<C>)
    requires StopsOk(o, cs, p)
    ensures StopsOk(o, cs, Step(o, cs, hostOf, p, e))
  {
  }

  lemma StillAssigned(xs: seq<Worker>, w: nat, x: Worker, i: nat)
    requires w < |xs| && Assigned(xs, i)
    requires HasIndex(xs[w]) && xs[w].i == i ==> HasIndex(x) && x.i == i
    ensures Assigned(xs[w := x], i)
  {
    var v :| 0 <= v < |xs| && HasIndex(xs[v]) && xs[v].i == i;
    assert HasIndex(xs[w := x][v]) && xs[w := x][v].i == i;
  }

  /** A worker that keeps its index, or never had one, moves on. */
  lemma MoveKeepsIndexes<C>(cs: seq<C>, p: Pool<C>, w: nat, x: Worker)
    requires IndexesOk(cs, p) && w < |p.workers|
    requires if HasIndex(p.workers[w]) then HasIndex(x) && x.i == p.workers[w].i else !HasIndex(x)
    ensures IndexesOk(cs, Move(p, w, x))
  {
    forall i | 0 <= i < |cs| && i < p.cursor && p.results[i].None? ensures Assigned(p.workers[w := x], i) {
      StillAssigned(p.workers, w, x, i);
    }
  }

  lemma DrawKeepsIndexes<C>(cs: seq<C>, p: Pool<C>, w: nat, x: Worker)
    requires IndexesOk(cs, p) && w < |p.workers| && !HasIndex(p.workers[w])
    requires p.cursor < |cs| && HasIndex(x) && x.i == p.cursor
    ensures IndexesOk(cs, Move(p.(cursor := p.cursor + 1), w, x))
  {
    var ys := p.workers[w := x];
    forall i | 0 <= i < |cs| && i < p.cursor + 1 && p.results[i].None? ensures Assigned(ys, i) {
      if i == p.cursor { assert HasIndex(ys[w]) && ys[w].i == i; } else { StillAssigned(p.workers, w, x, i); }
    }
  }

  lemma FinishKeepsIndexes<C>(cs: seq<C>, p: Pool<C>, w: nat, r: ProbeResult<C>)
    requires IndexesOk(cs, p) && w < |p.workers| && HasIndex(p.workers[w]) && r.candidate == cs[p.workers[w].i]
    ensures IndexesOk(cs, Move(Write(p, p.workers[w].i, r), w, Idle))
  {
    var q := Move(Write(p, p.workers[w].i, r), w, Idle);
    forall i | 0 <= i < |cs| && i < p.cursor && q.results[i].None? ensures Assigned(q.workers, i) {
      StillAssigned(p.workers, w, Idle, i);
    }
  }

  lemma RefusedKeepsIndexes<C>(cs: seq<C>, p: Pool<C>)
    requires IndexesOk(cs, p) && p.cursor < |cs|
    ensures IndexesOk(cs, Write(p.(cursor := p.cursor + 1), p.cursor, Thrown(cs[p.cursor])))
  {
  }

  lemma SameIndexes<C>(cs: seq<C>, p: Pool<C>, q: Pool<C>)
    requires IndexesOk(cs, p)
    requires q.workers == p.workers && q.results == p.results
    requires q.cursor == p.cursor || (q.cursor == p.cursor + 1 && p.cursor >= |cs|)
    ensures IndexesOk(cs, q)
  {
  }

  lemma IndexesKept<C>(o: Options, cs: seq<C>, hostOf: C -> Option<string>, p: Pool<C>, e: Event<C>)
    requires IndexesOk(cs, p)
    ensures IndexesOk(cs, Step(o, cs, hostOf, p, e))
  {
    var q := Step(o, cs, hostOf, p, e);
    if e.w < |p.workers| && q != p {
      var x, base := p.workers[e.w], q.(workers := p.workers);
      match e
      case Draw(w) =>
        if p.cursor >= |cs| { SameIndexes(cs, p, base); MoveKeepsIndexes(cs, base, w, Finished); }
        else if hostOf(cs[p.cursor]).None? { RefusedKeepsIndexes(cs, p); }
        else { DrawKeepsIndexes(cs, p, w, q.workers[w]); }
      case Finish(w, probed) =>
        var freed := p.(slots := q.slots);
        SameIndexes(cs, p, freed);
        FinishKeepsIndexes(cs, freed, w, q.results[x.i].value);
      case _ =>
        SameIndexes(cs, p, base);
        MoveKeepsIndexes(cs, base, e.w, q.workers[e.w]);
    }
  }

  /** All of it, for a pool in the middle of a schedule. */
  ghost predicate PoolOk<C>(o: Options, cs: seq<C>, p: Pool<C>) {
    && ThrottleOk(o, p) && Spaced(o, p.starts) && LastStartOk(p) && IndexesOk(cs, p) && StopsOk(o, cs, p)
    && p.workers != []
  }

  lemma {:induction false} NoneHolding(xs: seq<Worker>, host: string)
    requires forall w :: 0 <= w < |xs| ==> xs[w].Idle?
    ensures Holding(xs, host) == 0
  {
    if xs != [] { NoneHolding(xs[1..], host); }
  }

  lemma {:induction false} EverySchedule<C>(
    o: Options, cs: seq<C>, hostOf: C -> Option<string>, globalConcurrency: int, es: seq<Event<C>>)
    ensures PoolOk(o, cs, Exec(o, cs, hostOf, Opened(cs, globalConcurrency), es))
  {
    var p := Opened(cs, globalConcurrency);
    if es == [] {
      forall host ensures Holding(p.workers, host) == 0 { NoneHolding(p.workers, host); }
    } else {
      EverySchedule(o, cs, hostOf, globalConcurrency, es[..|es| - 1]);
      var q, e := Exec(o, cs, hostOf, p, es[..|es| - 1]), es[|es| - 1];
      ThrottleKept(o, cs, hostOf, q, e);
      SpacingKept(o, cs, hostOf, q, e);
      IndexesKept(o, cs, hostOf, q, e);
      StopsKept(o, cs, hostOf, q, e);
    }
  }

  predicate AllStopped<C>(p: Pool<C>) {
    forall w :: 0 <= w < |p.workers| ==> p.workers[w].Finished? || p.workers[w].Left?
  }

  /** Some worker looked at the clock and found the deadline behind it. */
  ghost predicate DeadlinePassed<C>(o: Options, es: seq<Event<C>>) {
    o.deadline.Some? && exists k :: 0 <= k < |es| && es[k].CheckDeadline? && es[k].now >= o.deadline.value
  }

  lemma {:induction false} DeadlineWasSeen<C>(o: Options, cs: seq<C>, hostOf: C -> Option<string>, p: Pool<C>, es: seq<Event<C>>)
    requires !p.sawDeadline && Exec(o, cs, hostOf, p, es).sawDeadline
    ensures DeadlinePassed(o, es)
  {
    if es != [] {
      var before, e := es[..|es| - 1], es[|es| - 1];
      if Exec(o, cs, hostOf, p, before).sawDeadline {
        DeadlineWasSeen(o, cs, hostOf, p, before);
        var k :| 0 <= k < |before| && before[k].CheckDeadline? && before[k].now >= o.deadline.value;
        assert es[k] == before[k];
      } else {
        assert es[|es| - 1].CheckDeadline?;
      }
    }
  }

  /** An index is drawn once and answered once: what stands in its place never changes. */
  lemma AnswersStay<C>(o: Options, cs: seq<C>, hostOf: C -> Option<string>, p: Pool<C>, e: Event<C>, i: nat)
    requires IndexesOk(cs, p) && i < |cs| && p.results[i].Some?
    ensures Step(o, cs, hostOf, p, e).results[i] == p.results[i]
  {
  }

  /** A finished batch answers each candidate in its own place, and leaves a hole only where the deadline passed. */
  lemma FinishedBatch<C>(o: Options, cs: seq<C>, hostOf: C -> Option<string>, globalConcurrency: int, es: seq<Event<C>>)
    requires AllStopped(Exec(o, cs, hostOf, Opened(cs, globalConcurrency), es))
    ensures var p := Exec(o, cs, hostOf, Opened(cs, globalConcurrency), es);
      && |p.results| == |cs|
      && (forall i :: 0 <= i < |cs| && p.results[i].Some? ==> p.results[i].value.candidate == cs[i])
      && (forall i :: 0 <= i < |cs| && p.results[i].None? ==> DeadlinePassed(o, es))
      && (forall host :: SlotOf(p.slots, host).inFlight == 0)
  {
    EverySchedule(o, cs, hostOf, globalConcurrency, es);
    var p := Exec(o, cs, hostOf, Opened(cs, globalConcurrency), es);
    forall i | 0 <= i < |cs| && p.results[i].None? ensures DeadlinePassed(o, es) {
      if i < p.cursor {
        var w :| 0 <= w < |p.workers| && HasIndex(p.workers[w]) && p.workers[w].i == i;
        assert p.workers[w].Left?;
      } else {
        assert p.workers[0].Left?;
      }
      DeadlineWasSeen(o, cs, hostOf, Opened(cs, globalConcurrency), es);
    }
    forall host ensures SlotOf(p.slots, host).inFlight == 0 {
      NoneHoldingStopped(p.workers, host);
    }
  }

  lemma {:induction false} NoneHoldingStopped(xs: seq<Worker>, host: string)
    requires forall w :: 0 <= w < |xs| ==> !HoldsHost(xs[w], host)
    ensures Holding(xs, host) == 0
  {
    if xs != [] { NoneHoldingStopped(xs[1..], host); }
  }

  // ---------- The pool itself ----------

  /** The shared state of one batch; each method is what a worker does between two awaits. */
  class Batch<C> {
    const candidates: seq<C>
    const hostOf: C -> Option<string>
    const throttle: HostThrottle
    const results: array<Option<ProbeResult<C>>>
    var cursor: nat
    var workers: seq<Worker>
    ghost var starts: seq<Start>
    ghost var sawDeadline: bool

    ghost function State(): Pool<C>
      reads this, throttle, results
    {
      Pool(cursor, results[..], throttle.slots, workers, starts, sawDeadline)
    }

    constructor (candidates: seq<C>, hostOf: C -> Option<string>, options: Options, globalConcurrency: int)
      ensures fresh(throttle) && fresh(results) && throttle.options == options
      ensures this.candidates == candidates && this.hostOf == hostOf
      ensures State() == Opened(candidates, globalConcurrency)
    {
      this.candidates, this.hostOf := candidates, hostOf;
      throttle := new HostThrottle(options);
      results := new Option<ProbeResult<C>>[|candidates|](_ => None);
      cursor, starts, sawDeadline := 0, [], false;
      var most := if globalConcurrency < 1 then 1 else globalConcurrency;
      var n := if |candidates| < 1 then 1 else |candidates|;
      workers := seq(if most < n then most else n, _ => Idle);
    }

    method Draw(w: nat)
      requires w < |workers| && workers[w].Idle? && results.Length == |candidates|
      modifies this, results
      ensures State() == Step(throttle.options, candidates, hostOf, old(State()), Event.Draw(w))
    {
      var i := cursor;
      cursor := cursor + 1;
      if i >= |candidates| {
        workers := workers[w := Finished];
        return;
      }
      var c := candidates[i];
      var host := hostOf(c);
      if host.None? {
        results[i] := Some(Thrown(c));
      } else {
        workers := workers[w := Waiting(i, host.value)];
      }
    }

    method Poll(w: nat, now: int)
      requires w < |workers| && workers[w].Waiting?
      modifies this, throttle
      ensures State() == Step(throttle.options, candidates, hostOf, old(State()), Event.Poll(w, now))
    {
      var x := workers[w];
      var ok := throttle.TryAcquire(x.host, now);
      if ok {
        starts := starts + [Start(x.host, now)];
        workers := workers[w := Acquired(x.i, x.host)];
      }
    }

    method CheckDeadline(w: nat, now: int)
      requires w < |workers| && workers[w].Acquired?
      modifies this, throttle
      ensures State() == Step(throttle.options, candidates, hostOf, old(State()), Event.CheckDeadline(w, now))
    {
      var x := workers[w];
      if throttle.options.deadline.Some? && now >= throttle.options.deadline.value {
        throttle.Release(x.host);
        sawDeadline := true;
        workers := workers[w := Left(x.i)];
      } else {
        workers := workers[w := Probing(x.i, x.host)];
      }
    }

    /** The probe came back, or threw: the slot is given up either way. */
    method Finish(w: nat, probed: Option<(nat, Outcome)>)
      requires w < |workers| && workers[w].Probing? && workers[w].i < |candidates| == results.Length
      modifies this, throttle, results
      ensures State() == Step(throttle.options, candidates, hostOf, old(State()), Event.Finish(w, probed))
    {
      var x := workers[w];
      var c := candidates[x.i];
      throttle.Release(x.host);
      results[x.i] := Some(match probed
        case Some((status, outcome)) => ProbeResult(c, status, outcome)
        case None => Thrown(c));
      workers := workers[w := Idle];
    }
  }
}
