// The Access signing-key cache (apps/control/src/key-cache.ts): freshness, staleness, refresh spacing and backoff,
// over every clock and every load outcome. A get spends its loads for itself, so gets overlap at their awaits.
module KeyCache {
  import opened Basics

  datatype Options = Options(ttl: int, minRefresh: int, maxStale: int, backoffBase: int, backoffMax: int)

  /** The class's fields; None stands for negative infinity. */
  datatype Fields<K> = Fields(
    keys: Option<map<string, K>>, fetchedAt: Option<int>, lastAttemptAt: Option<int>, nextAttemptAt: Option<int>,
    failures: nat)

  datatype Reply<K> = Key(key: K) | NoSuchKey | Unavailable

  predicate Younger(now: int, since: Option<int>, age: int) { since.Some? && now - since.value < age }

  predicate Fresh<K>(o: Options, c: Fields<K>, now: int) { c.keys.Some? && Younger(now, c.fetchedAt, o.ttl) }

  predicate Hit<K>(o: Options, c: Fields<K>, kid: string, now: int) {
    Fresh(o, c, now) && kid in c.keys.value
  }

  /** Not backing off, and not within the refresh spacing of an unknown id on fresh keys. */
  predicate Allowed<K>(o: Options, c: Fields<K>, now: int) {
    && (c.nextAttemptAt.Some? ==> now >= c.nextAttemptAt.value)
    && (Fresh(o, c, now) ==> !Younger(now, c.lastAttemptAt, o.minRefresh))
  }

  function Power2(n: nat): nat { if n == 0 then 1 else 2 * Power2(n - 1) }

  /** The wait after the k-th failure in a row. */
  function Wait(o: Options, k: nat): int
    requires k > 0
  {
    var w := o.backoffBase * Power2(k - 1);
    if w < o.backoffMax then w else o.backoffMax
  }

  /** A load that started then came back; None, or no key at all, is a failure. */
  function Settled<K>(o: Options, c: Fields<K>, started: int, loaded: Option<map<string, K>>): Fields<K> {
    if loaded.Some? && |loaded.value| > 0 then
      c.(keys := loaded, fetchedAt := Some(started), nextAttemptAt := None, failures := 0)
    else
      c.(failures := c.failures + 1, nextAttemptAt := Some(started + Wait(o, c.failures + 1)))
  }

  function Answered<K>(o: Options, c: Fields<K>, kid: string, after: int): Reply<K> {
    if c.keys.Some? && Younger(after, c.fetchedAt, o.maxStale) then
      if kid in c.keys.value then Key(c.keys.value[kid]) else NoSuchKey
    else Unavailable
  }

  // ---------- The class ----------

  class KeyCache<K> {
    const options: Options
    var keys: Option<map<string, K>>
    var fetchedAt: Option<int>
    var lastAttemptAt: Option<int>
    var nextAttemptAt: Option<int>
    var failures: nat

    function State(): Fields<K>
      reads this
    {
      Fields(keys, fetchedAt, lastAttemptAt, nextAttemptAt, failures)
    }

    constructor (options: Options)
      ensures this.options == options && State() == Fields(None, None, None, None, 0)
    {
      this.options := options;
      keys, fetchedAt, lastAttemptAt, nextAttemptAt, failures := None, None, None, None, 0;
    }

    /** get up to its first await: a fresh hit answers; otherwise whether a load goes out, started at `started`. */
    method Ask(kid: string, now: int, started: int) returns (reply: Option<Reply<K>>, loads: bool)
      modifies this
      ensures reply == if Hit(options, old(State()), kid, now) then Some(Key(old(State()).keys.value[kid])) else None
      ensures loads <==> !Hit(options, old(State()), kid, now) && Allowed(options, old(State()), now)
      ensures State() == if loads then old(State()).(lastAttemptAt := Some(started)) else old(State())
    {
      var isFresh := keys.Some? && fetchedAt.Some? && now - fetchedAt.value < options.ttl;
      if isFresh && kid in keys.value { return Some(Key(keys.value[kid])), false; }
      loads := (nextAttemptAt.None? || now >= nextAttemptAt.value)
        && (!isFresh || lastAttemptAt.None? || now - lastAttemptAt.value >= options.minRefresh);
      if loads { lastAttemptAt := Some(started); }
      reply := None;
    }

    /** The load came back. */
    method Settle(started: int, loaded: Option<map<string, K>>)
      modifies this
      ensures State() == Settled(options, old(State()), started, loaded)
    {
      if loaded.Some? && |loaded.value| > 0 {
        keys, fetchedAt, failures, nextAttemptAt := loaded, Some(started), 0, None;
      } else {
        failures := failures + 1;
        nextAttemptAt := Some(started + Wait(options, failures));
      }
    }

    /** get after its load, if it made one. */
    method Answer(kid: string, after: int) returns (reply: Reply<K>)
      ensures reply == Answered(options, State(), kid, after)
    {
      if keys.Some? && fetchedAt.Some? && after - fetchedAt.value < options.maxStale {
        return if kid in keys.value then Key(keys.value[kid]) else NoSuchKey;
      }
      return Unavailable;
    }
  }

  // ---------- Overlapping gets ----------

  datatype Stage = Loading(started: int) | Answering | Gone

  datatype Get = Get(kid: string, stage: Stage)

  /** A load that went out: when, and whether an unknown id on fresh keys sent it. */
  datatype Start = Start(at: int, unknownId: bool)

  /** A load that succeeded. */
  datatype Win<K> = Win(started: int, keys: map<string, K>)

  /** A reply, the clock it was given at, and the win its keys came from. */
  datatype Given<K> = Given(kid: string, at: int, reply: Reply<K>, win: nat)

  /** `failed` is how each load that came back ended, in the order they came back. */
  datatype System<K> = System(
    cache: Fields<K>, gets: seq<Get>, clock: int, starts: seq<Start>, wins: seq<Win<K>>, current: nat,
    given: seq<Given<K>>, failed: seq<bool>)

  /** `now` and `started` are the clock readings a get makes. */
  datatype Event<K> =
    | Asks(kid: string, now: int, started: int)
    | Settles(g: nat, loaded: Option<map<string, K>>)
    | Answers(g: nat, now: int)

  function Begun<K>(): System<K> {
    System(Fields(None, None, None, None, 0), [], 0, [], [], 0, [], [])
  }

  function Step<K>(o: Options, s: System<K>, e: Event<K>): System<K> {
    match e
    case Asks(kid, now, started) =>
      if Hit(o, s.cache, kid, now) then
        s.(clock := now, given := s.given + [Given(kid, now, Key(s.cache.keys.value[kid]), s.current)])
      else if Allowed(o, s.cache, now) then
        s.(clock := started, cache := s.cache.(lastAttemptAt := Some(started)),
           gets := s.gets + [Get(kid, Loading(started))],
           starts := s.starts + [Start(started, Fresh(o, s.cache, now))])
      else
        s.(clock := now, gets := s.gets + [Get(kid, Answering)])
    case Settles(g, loaded) =>
      if g >= |s.gets| || !s.gets[g].stage.Loading? then s
      else
        var started := s.gets[g].stage.started;
        var won := loaded.Some? && |loaded.value| > 0;
        var t := s.(cache := Settled(o, s.cache, started, loaded), gets := s.gets[g := s.gets[g].(stage := Answering)],
                    failed := s.failed + [!won]);
        if won then
          t.(wins := s.wins + [Win(started, loaded.value)], current := |s.wins|)
        else t
    case Answers(g, now) =>
      if g >= |s.gets| || !s.gets[g].stage.Answering? then s
      else
        var kid := s.gets[g].kid;
        s.(clock := now, gets := s.gets[g := s.gets[g].(stage := Gone)],
           given := s.given + [Given(kid, now, Answered(o, s.cache, kid, now), s.current)])
  }

  function Exec<K>(o: Options, es: seq<Event<K>>): System<K> {
    if es == [] then Begun() else Step(o, Exec(o, es[..|es| - 1]), es[|es| - 1])
  }

  // ---------- Which keys answer ----------

  /** The cached keys are those of the current win, as old as the start of its load. */
  ghost predicate CacheIsWin<K>(s: System<K>) {
    && (s.cache.keys.Some? <==> s.cache.fetchedAt.Some?)
    && (s.cache.keys.Some? ==>
      && s.current < |s.wins|
      && s.cache.keys == Some(s.wins[s.current].keys) && s.cache.fetchedAt == Some(s.wins[s.current].started))
  }

  /** The reply is what a key set says, and the set's load had started less than `age` before. */
  ghost predicate FromWin<K>(g: Given<K>, wins: seq<Win<K>>, age: int) {
    && g.win < |wins| && g.at - wins[g.win].started < age
    && g.reply == if g.kid in wins[g.win].keys then Key(wins[g.win].keys[g.kid]) else NoSuchKey
  }

  ghost predicate GivenOk<K>(o: Options, s: System<K>) {
    forall k :: 0 <= k < |s.given| && !s.given[k].reply.Unavailable? ==>
      FromWin(s.given[k], s.wins, if o.ttl <= o.maxStale then o.maxStale else o.ttl)
  }

  lemma {:induction false} GivenFromWins<K>(o: Options, es: seq<Event<K>>)
    ensures CacheIsWin(Exec(o, es)) && GivenOk(o, Exec(o, es))
  {
    if es != [] {
      GivenFromWins(o, es[..|es| - 1]);
      StepKeepsGiven(o, Exec(o, es[..|es| - 1]), es[|es| - 1]);
    }
  }

  lemma StepKeepsGiven<K>(o: Options, s: System<K>, e: Event<K>)
    requires CacheIsWin(s) && GivenOk(o, s)
    ensures CacheIsWin(Step(o, s, e)) && GivenOk(o, Step(o, s, e))
  {
  }

  /** A get that answers uses the key set of a successful load started less than `maxStale` before the answer. */
  lemma AnswersAreRecent<K>(o: Options, es: seq<Event<K>>, k: nat)
    requires o.ttl <= o.maxStale
    requires k < |Exec(o, es).given| && !Exec(o, es).given[k].reply.Unavailable?
    ensures FromWin(Exec(o, es).given[k], Exec(o, es).wins, o.maxStale)
  {
    GivenFromWins(o, es);
  }

  /** Without that order of the two options it does not hold: a fresh hit is not checked against `maxStale`. */
  lemma LongFreshnessOutlivesStaleness<K>(o: Options, kid: string, key: K) returns (es: seq<Event<K>>)
    requires o.ttl > o.maxStale
    ensures var s := Exec(o, es);
      |s.given| == 1 && s.given[0].reply == Key(key) && !FromWin(s.given[0], s.wins, o.maxStale)
  {
    var loaded := map[kid := key];
    assert kid in loaded;
    var e0, e1, e2 := Asks(kid, 0, 0), Settles(0, Some(loaded)), Asks(kid, o.maxStale, o.maxStale);
    es := [e0, e1, e2];
    assert es[..2] == [e0, e1] && [e0, e1][..1] == [e0] && [e0][..0] == [];
    var s1 := Exec(o, [e0]);
    assert Exec(o, [e0][..0]) == Begun<K>();
    assert s1 == Step(o, Begun<K>(), e0);
    var s2 := Exec(o, [e0, e1]);
    assert s2 == Step(o, s1, e1);
    assert Exec(o, es) == Step(o, s2, e2);
  }

  // ---------- How often loads start ----------

  /** The clock does not run backwards. */
  predicate Forward<K>(s: System<K>, e: Event<K>) {
    match e
    case Asks(_, now, started) => s.clock <= now <= started
    case Answers(_, now) => s.clock <= now
    case Settles(_, _) => true
  }

  predicate AllForward<K>(o: Options, es: seq<Event<K>>) {
    es == [] || (AllForward(o, es[..|es| - 1]) && Forward(Exec(o, es[..|es| - 1]), es[|es| - 1]))
  }

  /** The last attempt is the last start, and every load for an unknown id came well after all those before it. */
  ghost predicate StartsOk<K>(o: Options, s: System<K>) {
    && (s.starts == [] <==> s.cache.lastAttemptAt.None?)
    && (forall k :: 0 <= k < |s.starts| ==> s.starts[k].at <= s.cache.lastAttemptAt.value <= s.clock)
    && (forall j, k :: 0 <= j < k < |s.starts| && s.starts[k].unknownId ==>
      s.starts[k].at - s.starts[j].at >= o.minRefresh)
  }

  lemma {:induction false} UnknownIdsAreSpaced<K>(o: Options, es: seq<Event<K>>)
    requires AllForward(o, es)
    ensures StartsOk(o, Exec(o, es))
  {
    if es != [] {
      UnknownIdsAreSpaced(o, es[..|es| - 1]);
      StepKeepsStarts(o, Exec(o, es[..|es| - 1]), es[|es| - 1]);
    }
  }

  lemma StepKeepsStarts<K>(o: Options, s: System<K>, e: Event<K>)
    requires StartsOk(o, s) && Forward(s, e)
    ensures StartsOk(o, Step(o, s, e))
  {
  }

  /** No get begins while another is at its load. */
  predicate Alone<K>(s: System<K>, e: Event<K>) {
    e.Asks? ==> forall g :: 0 <= g < |s.gets| ==> !s.gets[g].stage.Loading?
  }

  /** A run of gets one after the other, on a clock that does not run back, whatever their loads come to. */
  predicate OneAfterAnother<K>(o: Options, es: seq<Event<K>>) {
    es == [] || (
      var s, e := Exec(o, es[..|es| - 1]), es[|es| - 1];
      OneAfterAnother(o, es[..|es| - 1]) && Forward(s, e) && Alone(s, e))
  }

  /** How many of the first k loads failed in a row, up to and including the k-th. */
  function InARow(failed: seq<bool>, k: nat): nat
    requires k <= |failed|
  {
    if k == 0 || !failed[k - 1] then 0 else InARow(failed, k - 1) + 1
  }

  lemma {:induction false} InARowStays(failed: seq<bool>, x: bool, k: nat)
    requires k <= |failed|
    ensures InARow(failed + [x], k) == InARow(failed, k)
  {
    if k > 0 { InARowStays(failed, x, k - 1); }
  }

  /** The wait the loads before this point ask for; none after a success. */
  function Asked(o: Options, failed: seq<bool>, k: nat): int
    requires k <= |failed|
  {
    var n := InARow(failed, k);
    if n == 0 then 0 else Wait(o, n)
  }

  predicate NoneLoading<K>(s: System<K>) { forall g :: 0 <= g < |s.gets| ==> !s.gets[g].stage.Loading? }

  /** A load still out is the last one started, and the count of failures is that of the loads before it. */
  ghost predicate LoadingOk<K>(s: System<K>) {
    && (forall g, h :: 0 <= g < h < |s.gets| && s.gets[g].stage.Loading? ==> !s.gets[h].stage.Loading?)
    && (forall g :: 0 <= g < |s.gets| && s.gets[g].stage.Loading? ==>
      s.starts != [] && s.gets[g].stage.started == s.starts[|s.starts| - 1].at && |s.failed| == |s.starts| - 1)
    && (NoneLoading(s) ==> |s.failed| == |s.starts|)
    && |s.starts| - 1 <= |s.failed| <= |s.starts|
    && s.cache.failures == InARow(s.failed, |s.failed|)
  }

  /** With no load out, the next one is allowed once the wait for the failures in a row is over. */
  ghost predicate NextOk<K>(o: Options, s: System<K>) {
    NoneLoading(s) && |s.failed| == |s.starts| && s.cache.failures > 0 ==>
      s.starts != [] && s.cache.nextAttemptAt == Some(s.starts[|s.starts| - 1].at + Wait(o, s.cache.failures))
  }

  /** Between two loads lies at least the wait that those before the later one ask for. */
  ghost predicate Spaced<K>(o: Options, s: System<K>) {
    && (forall k :: 0 <= k < |s.starts| ==> s.starts[k].at <= s.clock)
    && |s.starts| - 1 <= |s.failed|
    && forall k :: 1 <= k < |s.starts| ==>
      s.starts[k].at >= s.starts[k - 1].at && s.starts[k].at - s.starts[k - 1].at >= Asked(o, s.failed, k)
  }

  ghost predicate BackedOff<K>(o: Options, s: System<K>) { LoadingOk(s) && NextOk(o, s) && Spaced(o, s) }

  lemma AskKeepsBackoff<K>(o: Options, s: System<K>, e: Event<K>)
    requires BackedOff(o, s) && e.Asks? && Forward(s, e) && Alone(s, e)
    ensures BackedOff(o, Step(o, s, e))
  {
    var t := Step(o, s, e);
    if |t.starts| > |s.starts| { assert t.gets[|s.gets|].stage.Loading?; }
    assert forall h :: 0 <= h < |s.gets| ==> t.gets[h] == s.gets[h];
  }

  lemma SpacedLater<K>(o: Options, s: System<K>, t: System<K>, x: bool)
    requires Spaced(o, s) && t.starts == s.starts && t.clock == s.clock && t.failed == s.failed + [x]
    ensures Spaced(o, t)
  {
    forall k | 1 <= k < |t.starts|
      ensures t.starts[k].at >= t.starts[k - 1].at && t.starts[k].at - t.starts[k - 1].at >= Asked(o, t.failed, k)
    {
      InARowStays(s.failed, x, k);
    }
  }

  lemma SettleKeepsBackoff<K>(o: Options, s: System<K>, g: nat, loaded: Option<map<string, K>>)
    requires BackedOff(o, s)
    ensures BackedOff(o, Step(o, s, Settles(g, loaded)))
  {
    if g < |s.gets| && s.gets[g].stage.Loading? {
      var x := !(loaded.Some? && |loaded.value| > 0);
      assert forall h :: 0 <= h < |s.gets| && h != g ==> !s.gets[h].stage.Loading?;
      InARowStays(s.failed, x, |s.failed|);
      SpacedLater(o, s, Step(o, s, Settles(g, loaded)), x);
    }
  }

  lemma AnswerKeepsBackoff<K>(o: Options, s: System<K>, g: nat, now: int)
    requires BackedOff(o, s) && s.clock <= now
    ensures BackedOff(o, Step(o, s, Answers(g, now)))
  {
    var t := Step(o, s, Answers(g, now));
    assert forall h :: 0 <= h < |s.gets| ==> s.gets[h].stage.Loading? == t.gets[h].stage.Loading?;
  }

  lemma StepKeepsBackoff<K>(o: Options, s: System<K>, e: Event<K>)
    requires BackedOff(o, s) && Forward(s, e) && Alone(s, e)
    ensures BackedOff(o, Step(o, s, e))
  {
    match e
    case Asks(_, _, _) => AskKeepsBackoff(o, s, e);
    case Settles(g, loaded) => SettleKeepsBackoff(o, s, g, loaded);
    case Answers(g, now) => AnswerKeepsBackoff(o, s, g, now);
  }

  /** With gets one after the other, whatever happened before: after the k-th failure in a row the next load starts at
      least the k-th wait after the failed one. */
  lemma {:induction false} FailuresBackOff<K>(o: Options, es: seq<Event<K>>)
    requires OneAfterAnother(o, es)
    ensures BackedOff(o, Exec(o, es))
  {
    if es != [] {
      FailuresBackOff(o, es[..|es| - 1]);
      StepKeepsBackoff(o, Exec(o, es[..|es| - 1]), es[|es| - 1]);
    }
  }

  /** The waits asked for before loads i+1..j, added up. */
  function Waits(o: Options, failed: seq<bool>, i: nat, j: nat): int
    requires 1 <= i <= j <= |failed| + 1
  {
    if i == j then 0 else Waits(o, failed, i, j - 1) + Asked(o, failed, j - 1)
  }

  /** Which bounds the loads in any window: it holds loads i..j only if it is as long as the waits between them. */
  lemma {:induction false} WindowsAreBounded<K>(o: Options, s: System<K>, i: nat, j: nat)
    requires BackedOff(o, s) && 1 <= i <= j <= |s.starts|
    ensures s.starts[j - 1].at - s.starts[i - 1].at >= Waits(o, s.failed, i, j)
  {
    if i < j { WindowsAreBounded(o, s, i, j - 1); }
  }

  /** While nothing but failures came back since load i, the waits are those after 1, 2, 3 failures and so on. */
  lemma {:induction false} FailuresInARow(failed: seq<bool>, i: nat, k: nat)
    requires i <= k <= |failed| && (i == 0 || !failed[i - 1]) && forall j :: i <= j < k ==> failed[j]
    ensures InARow(failed, k) == k - i
  {
    if i < k { FailuresInARow(failed, i, k - 1); }
  }
}
