// One user's digest for one run (packages/inngest/src/digest.ts, packages/inngest/src/delivery.ts), under steps whose
// bodies may crash and be executed again before their result is memoized, and under reruns from the dashboard.
module DigestRun {
  import opened Basics
  import opened DigestItems

  /** A digests row of this (user, run). */
  datatype Row = Row(id: nat, itemCount: nat, items: seq<Ranked>, emailId: Option<nat>, delivery: Delivery)

  /** Where a step body that writes the row stands between two statements. */
  datatype At = CheckSent | Delete | InsertRow | InsertItems(id: nat) | Memoize(id: nat)

  datatype End = AlreadySent | NotEligible | EmptyRecord | AllDead | NoSend | Emailed

  /** The step a run is at. What earlier steps memoized is in its parameters. */
  datatype Pc =
    | Loading
    | Choosing
    | Recording(at: At)
    | Persisting(kept: seq<Ranked>, at: At)
    | Probing(kept: seq<Ranked>, id: nat)
    | Sending(kept: seq<Ranked>, id: nat)
    | RecordingSent(kept: seq<Ranked>, id: nat, email: nat)
    | Polling(kept: seq<Ranked>, id: nat, email: nat)
    | RecordingFailure(id: nat)
    | Finished(end: End, kept: seq<Ranked>)
    | Failed

  /** `keys` is the mail provider's memory: the email it accepted under each send key. */
  datatype State = State(rows: seq<Row>, nextId: nat, keys: map<nat, nat>, nextEmail: nat, pc: Pc)

  datatype Event =
    | Load(eligible: bool)
    | ChooseEmpty
    | ChooseItems(batch: Batch, items: seq<Scored>)
    | Advance
    | MissingSnapshot
    | Crash
    | GiveUp
    | Probe(dead: set<int>, pruned: set<int>, memoized: bool)
    | SkipSend
    | Send(memoized: bool)
    | RecordSent(memoized: bool)
    | RecordDelivery(event: string, memoized: bool)
    | RecordFailure(memoized: bool)
    | Rerun
    | RerunPersist(batch: Batch, items: seq<Scored>)

  // ---------- Statements ----------

  /** hasSentDigestForRun. */
  predicate HasSent(rows: seq<Row>) { exists i :: 0 <= i < |rows| && rows[i].emailId.Some? }

  predicate Has(rows: seq<Row>, id: nat) { exists i :: 0 <= i < |rows| && rows[i].id == id }

  /** An UPDATE of the row with that id. */
  function Updated(rows: seq<Row>, id: nat, f: Row -> Row): seq<Row> {
    if rows == [] then [] else [if rows[0].id == id then f(rows[0]) else rows[0]] + Updated(rows[1..], id, f)
  }

  function ItemsOf(rows: seq<Row>, id: nat): seq<Ranked> {
    if rows == [] then [] else if rows[0].id == id then rows[0].items else ItemsOf(rows[1..], id)
  }

  // ---------- Steps ----------

  /** The next statement of record-no-candidates, record-no-strong or persist. */
  function Write(s: State, kept: seq<Ranked>, at: At, back: At -> Pc, done: nat -> Pc): State {
    match at
    case CheckSent => s.(pc := if HasSent(s.rows) then Failed else back(Delete))
    case Delete => s.(rows := [], pc := if s.pc.Persisting? && kept == [] then Failed else back(InsertRow))
    case InsertRow =>
      if s.rows != [] then s.(pc := back(CheckSent))
      else
        var row := Row(s.nextId, |kept|, [], None, Unsent);
        s.(rows := [row], nextId := s.nextId + 1, pc := back(if kept == [] then Memoize(s.nextId) else InsertItems(s.nextId)))
    case InsertItems(id) => s.(rows := Updated(s.rows, id, (r: Row) => r.(items := kept)), pc := back(Memoize(id)))
    case Memoize(id) => s.(pc := done(id))
  }

  /** liveness-probe: drop the dead links among the items whose job still stands, and recount. */
  function Probed(s: State, kept: seq<Ranked>, id: nat, dead: set<int>, pruned: set<int>, memoized: bool): State {
    var items := ItemsOf(s.rows, id);
    var targets := Without(items, pruned);
    var left := |Without(targets, dead)|;
    var t := if targets == [] then s
      else s.(rows := Updated(s.rows, id, (r: Row) => r.(items := Without(items, dead - pruned), itemCount := left)));
    if !memoized then t else if left == 0 then t.(pc := Finished(AllDead, kept)) else t.(pc := Sending(kept, id))
  }

  /** Resend: the first send under a key is accepted, a later one gets the same email back. */
  function SendUnder(s: State, id: nat): State {
    if id in s.keys then s else s.(keys := s.keys[id := s.nextEmail], nextEmail := s.nextEmail + 1)
  }

  /** Every accepted email has been recorded on its digest. */
  predicate AllRecorded(s: State) {
    forall id :: id in s.keys ==> exists i :: 0 <= i < |s.rows| && s.rows[i].id == id && s.rows[i].emailId.Some?
  }

  predicate Over(pc: Pc) { pc.Finished? || pc.Failed? }

  function Step(s: State, e: Event): State {
    match e
    case Load(eligible) =>
      if !s.pc.Loading? then s
      else if HasSent(s.rows) then s.(pc := Finished(AlreadySent, []))
      else if !eligible then s.(pc := Finished(NotEligible, []))
      else s.(pc := Choosing)
    case ChooseEmpty => if s.pc.Choosing? then s.(pc := Recording(CheckSent)) else s
    case ChooseItems(b, items) => if s.pc.Choosing? then s.(pc := Persisting(Kept(b, items), CheckSent)) else s
    case Advance =>
      (match s.pc
       case Recording(at) => Write(s, [], at, (a: At) => Recording(a), (id: nat) => Finished(EmptyRecord, []))
       case Persisting(kept, at) => Write(s, kept, at, (a: At) => Persisting(kept, a), (id: nat) => Probing(kept, id))
       case _ => s)
    case MissingSnapshot => if s.pc.Persisting? && s.pc.at.InsertItems? then s.(pc := Failed) else s
    case Crash =>
      if s.pc.Recording? then s.(pc := Recording(CheckSent))
      else if s.pc.Persisting? then s.(pc := Persisting(s.pc.kept, CheckSent))
      else s
    case GiveUp =>
      if Over(s.pc) then s
      else if s.pc.Sending? then s.(pc := RecordingFailure(s.pc.id))
      else s.(pc := Failed)
    case Probe(dead, pruned, memoized) =>
      if s.pc.Probing? then Probed(s, s.pc.kept, s.pc.id, dead, pruned, memoized) else s
    case SkipSend => if s.pc.Sending? then s.(pc := Finished(NoSend, s.pc.kept)) else s
    case Send(memoized) =>
      if !(s.pc.Sending? && ItemsOf(s.rows, s.pc.id) != []) then s
      else
        var t := SendUnder(s, s.pc.id);
        if memoized then t.(pc := RecordingSent(s.pc.kept, s.pc.id, t.keys[s.pc.id])) else t
    case RecordSent(memoized) =>
      if !(s.pc.RecordingSent? && Has(s.rows, s.pc.id)) then s
      else
        var email := s.pc.email;
        var t := s.(rows := Updated(s.rows, s.pc.id, (r: Row) => r.(emailId := Some(email), delivery := Sent)));
        if memoized then t.(pc := Polling(s.pc.kept, s.pc.id, email)) else t
    case RecordDelivery(event, memoized) =>
      if !(s.pc.Polling? && Has(s.rows, s.pc.id)) then s
      else
        var status := MapDeliveryEvent(event).status;
        var t := s.(rows := Updated(s.rows, s.pc.id, (r: Row) => r.(delivery := status)));
        if memoized then t.(pc := Finished(Emailed, s.pc.kept)) else t
    case RecordFailure(memoized) =>
      if !s.pc.RecordingFailure? then s
      else
        var t := s.(rows := Updated(s.rows, s.pc.id, (r: Row) => if r.emailId.None? then r.(delivery := FailedToSend) else r));
        if memoized then t.(pc := Failed) else t
    case Rerun => if Over(s.pc) && AllRecorded(s) then s.(pc := Loading) else s
    case RerunPersist(b, items) =>
      if Over(s.pc) && AllRecorded(s) then s.(pc := Persisting(Kept(b, items), CheckSent)) else s
  }

  function Exec(es: seq<Event>): State {
    if es == [] then State([], 0, map[], 0, Loading) else Step(Exec(es[..|es| - 1]), es[|es| - 1])
  }

  // ---------- What holds throughout ----------

  /** The one row of this (user, run), holding what is left of the kept items. */
  predicate IsRow(s: State, id: nat) { |s.rows| == 1 && s.rows[0].id == id }

  ghost predicate Holds(s: State, kept: seq<Ranked>) {
    |s.rows| == 1 && exists dropped: set<int> :: s.rows[0].items == Without(kept, dropped)
  }

  /** No email went out for this (user, run), or exactly one did and its digest says so. */
  predicate Settled(s: State) {
    || (s.keys == map[] && !HasSent(s.rows))
    || SentAndRecorded(s)
  }

  predicate SentAndRecorded(s: State) {
    |s.rows| == 1 && s.rows[0].id in s.keys && |s.keys| == 1 && s.rows[0].emailId == Some(s.keys[s.rows[0].id])
  }

  /** No email yet, or one under this digest's key. */
  predicate AtMostUnder(s: State, id: nat) {
    s.keys == map[] || (|s.keys| == 1 && id in s.keys)
  }

  predicate Unrecorded(s: State) { !HasSent(s.rows) }

  ghost predicate PcOk(s: State) {
    match s.pc
    case Loading => Settled(s)
    case Choosing => Settled(s)
    case Recording(at) => AtOk(s, [], at)
    case Persisting(kept, at) => AtOk(s, kept, at)
    case Probing(kept, id) => s.keys == map[] && Unrecorded(s) && IsRow(s, id) && Holds(s, kept)
    case Sending(kept, id) => AtMostUnder(s, id) && Unrecorded(s) && IsRow(s, id) && Holds(s, kept)
    case RecordingSent(kept, id, email) =>
      && |s.keys| == 1 && id in s.keys && s.keys[id] == email && IsRow(s, id) && Holds(s, kept)
      && (Unrecorded(s) || SentAndRecorded(s))
    case Polling(kept, id, email) => SentAndRecorded(s) && IsRow(s, id) && Holds(s, kept)
    case RecordingFailure(id) => AtMostUnder(s, id) && Unrecorded(s) && IsRow(s, id)
    case Finished(end, kept) => FinishedOk(s, end, kept)
    case Failed => |s.keys| <= 1 && (HasSent(s.rows) ==> SentAndRecorded(s))
  }

  /** Past its check, a writing step knows that nothing was sent. */
  ghost predicate AtOk(s: State, kept: seq<Ranked>, at: At) {
    match at
    case CheckSent => Settled(s)
    case Delete => s.keys == map[] && Unrecorded(s)
    case InsertRow => s.keys == map[] && s.rows == []
    case InsertItems(id) => s.keys == map[] && Unrecorded(s) && IsRow(s, id) && kept != [] && s.rows[0].itemCount == |kept|
    case Memoize(id) =>
      s.keys == map[] && Unrecorded(s) && IsRow(s, id) && s.rows[0].items == kept && s.rows[0].itemCount == |kept|
  }

  ghost predicate FinishedOk(s: State, end: End, kept: seq<Ranked>) {
    match end
    case AlreadySent => SentAndRecorded(s)
    case NotEligible => Settled(s)
    case EmptyRecord => s.keys == map[] && Unrecorded(s) && |s.rows| == 1 && s.rows[0].items == [] && s.rows[0].itemCount == 0
    case AllDead => s.keys == map[] && Unrecorded(s) && Holds(s, kept)
    case NoSend => |s.keys| <= 1 && Unrecorded(s) && Holds(s, kept)
    case Emailed => SentAndRecorded(s) && Holds(s, kept)
  }

  ghost predicate Ok(s: State) {
    && |s.rows| <= 1 && |s.keys| <= 1
    && (s.rows != [] ==> s.rows[0].id < s.nextId)
    && (forall id :: id in s.keys ==> id < s.nextId)
    && PcOk(s)
  }

  lemma UpdatedRow(rows: seq<Row>, id: nat, f: Row -> Row)
    requires |rows| == 1 && rows[0].id == id
    ensures Updated(rows, id, f) == [f(rows[0])] && ItemsOf(rows, id) == rows[0].items && Has(rows, id)
  {
    assert rows[1..] == [];
  }

  lemma SentRow(rows: seq<Row>)
    requires |rows| <= 1
    ensures HasSent(rows) <==> |rows| == 1 && rows[0].emailId.Some?
  {
  }

  lemma WriteKeeps(s: State, e: Event)
    requires Ok(s) && (e.Advance? || e.Crash? || e.MissingSnapshot?) && (s.pc.Recording? || s.pc.Persisting?)
    ensures Ok(Step(s, e))
  {
    SentRow(s.rows);
    var kept := if s.pc.Persisting? then s.pc.kept else [];
    WithoutNone(kept);
    if s.pc.at.InsertItems? { UpdatedRow(s.rows, s.pc.at.id, (r: Row) => r.(items := kept)); }
  }

  lemma ProbeKeeps(s: State, dead: set<int>, pruned: set<int>, memoized: bool)
    requires Ok(s) && s.pc.Probing?
    ensures Ok(Step(s, Probe(dead, pruned, memoized)))
  {
    var id, kept := s.pc.id, s.pc.kept;
    SentRow(s.rows);
    var items := s.rows[0].items;
    var left := |Without(Without(items, pruned), dead)|;
    UpdatedRow(s.rows, id, (r: Row) => r.(items := Without(items, dead - pruned), itemCount := left));
    var dropped: set<int> :| items == Without(kept, dropped);
    WithoutTwice(kept, dropped, dead - pruned);
    var t := Step(s, Probe(dead, pruned, memoized));
    assert t.rows[0].items == Without(kept, dropped) || t.rows[0].items == Without(kept, dropped + (dead - pruned));
    SentRow(t.rows);
  }

  lemma SendKeeps(s: State, memoized: bool)
    requires Ok(s) && s.pc.Sending?
    ensures Ok(Step(s, Send(memoized)))
  {
    if s.keys == map[] { assert |s.keys[s.pc.id := s.nextEmail]| == 1; }
  }

  lemma RecordKeeps(s: State, memoized: bool)
    requires Ok(s) && s.pc.RecordingSent?
    ensures Ok(Step(s, RecordSent(memoized)))
  {
    var email := s.pc.email;
    UpdatedRow(s.rows, s.pc.id, (r: Row) => r.(emailId := Some(email), delivery := Sent));
  }

  lemma DeliveryKeeps(s: State, event: string, memoized: bool)
    requires Ok(s) && s.pc.Polling?
    ensures Ok(Step(s, RecordDelivery(event, memoized)))
  {
    var status := MapDeliveryEvent(event).status;
    UpdatedRow(s.rows, s.pc.id, (r: Row) => r.(delivery := status));
  }

  lemma FailureKeeps(s: State, memoized: bool)
    requires Ok(s) && s.pc.RecordingFailure?
    ensures Ok(Step(s, RecordFailure(memoized)))
  {
    UpdatedRow(s.rows, s.pc.id, (r: Row) => if r.emailId.None? then r.(delivery := FailedToSend) else r);
    SentRow(s.rows);
    SentRow(Step(s, RecordFailure(memoized)).rows);
  }

  lemma OneKey(keys: map<nat, nat>, id: nat)
    requires |keys| <= 1 && id in keys
    ensures |keys| == 1 && forall k :: k in keys ==> k == id
  {
    assert keys.Keys == {id} + (keys.Keys - {id});
    assert |keys.Keys| == |keys|;
  }

  /** Between runs, either nothing was sent or the one digest sent says so. */
  lemma BetweenRuns(s: State)
    requires Ok(s) && Over(s.pc) && AllRecorded(s)
    ensures Settled(s)
  {
    SentRow(s.rows);
    if k :| k in s.keys {
      OneKey(s.keys, k);
    } else {
      assert s.keys == map[];
    }
  }

  lemma StepKeeps(s: State, e: Event)
    requires Ok(s)
    ensures Ok(Step(s, e))
  {
    SentRow(s.rows);
    match e
    case Advance => if s.pc.Recording? || s.pc.Persisting? { WriteKeeps(s, e); }
    case Crash => if s.pc.Recording? || s.pc.Persisting? { WriteKeeps(s, e); }
    case MissingSnapshot => if s.pc.Persisting? { WriteKeeps(s, e); }
    case Probe(dead, pruned, memoized) => if s.pc.Probing? { ProbeKeeps(s, dead, pruned, memoized); }
    case Send(memoized) => if s.pc.Sending? { SendKeeps(s, memoized); }
    case RecordSent(memoized) => if s.pc.RecordingSent? { RecordKeeps(s, memoized); }
    case RecordDelivery(event, memoized) => if s.pc.Polling? { DeliveryKeeps(s, event, memoized); }
    case RecordFailure(memoized) => if s.pc.RecordingFailure? { FailureKeeps(s, memoized); }
    case Rerun => if Over(s.pc) && AllRecorded(s) { BetweenRuns(s); }
    case RerunPersist(_, _) => if Over(s.pc) && AllRecorded(s) { BetweenRuns(s); }
    case GiveUp => GiveUpKeeps(s);
    case _ =>
  }

  lemma GiveUpKeeps(s: State)
    requires Ok(s)
    ensures Ok(Step(s, GiveUp))
  {
    SentRow(s.rows);
  }

  lemma {:induction false} AlwaysOk(es: seq<Event>)
    ensures Ok(Exec(es))
  {
    if es != [] {
      AlwaysOk(es[..|es| - 1]);
      StepKeeps(Exec(es[..|es| - 1]), es[|es| - 1]);
    }
  }

  // ---------- The promises ----------

  /** Over any runs and reruns of one digest, whatever crashes, at most one email is ever accepted. */
  lemma AtMostOneEmail(es: seq<Event>)
    ensures |Exec(es).keys| <= 1
  {
    AlwaysOk(es);
  }

  /** A run that finishes past the load gate leaves exactly one digest row: the empty record, or what is left of the
      items it kept. */
  lemma FinishedLeavesOneRow(es: seq<Event>)
    requires var pc := Exec(es).pc; pc.Finished? && !pc.end.NotEligible?
    ensures var s := Exec(es);
      && |s.rows| == 1
      && (s.pc.end.EmptyRecord? ==> s.rows[0].items == [] && s.rows[0].itemCount == 0 && s.rows[0].emailId.None?)
      && (s.pc.end.Emailed? ==> s.rows[0].emailId.Some?)
      && (s.pc.end.AllDead? || s.pc.end.NoSend? || s.pc.end.Emailed? ==> Holds(s, s.pc.kept))
  {
    AlwaysOk(es);
  }

  // ---------- Where a digest's items come from ----------

  /** The items a run works with from persist on. */
  function Carried(pc: Pc): Option<seq<Ranked>> {
    match pc
    case Persisting(kept, _) => Some(kept)
    case Probing(kept, _) => Some(kept)
    case Sending(kept, _) => Some(kept)
    case RecordingSent(kept, _, _) => Some(kept)
    case Polling(kept, _, _) => Some(kept)
    case Finished(end, kept) => if end.AllDead? || end.NoSend? || end.Emailed? then Some(kept) else None
    case _ => None
  }

  /** This very event sets the items of the run: the notes of its batch for its reranked jobs. */
  predicate Chooses(s: State, e: Event, kept: seq<Ranked>) {
    && (e.ChooseItems? || e.RerunPersist?) && kept == Kept(e.batch, e.items)
    && if e.ChooseItems? then s.pc.Choosing? else Over(s.pc) && AllRecorded(s)
  }

  lemma StepCarries(s: State, e: Event)
    requires Carried(Step(s, e).pc).Some?
    ensures Chooses(s, e, Carried(Step(s, e).pc).value) || Carried(Step(s, e).pc) == Carried(s.pc)
  {
  }

  lemma {:induction false} ExecJoins(a: seq<Event>, b: seq<Event>, e: Event)
    ensures Exec(a + (b + [e])) == Step(Exec(a + b), e)
  {
    var all := a + (b + [e]);
    assert all[..|all| - 1] == a + b;
  }

  /** After the first j events the run carried what it carries after all of them. */
  predicate CarriedAfter(es: seq<Event>, j: nat)
    requires j <= |es|
  {
    Carried(Exec(es[..j]).pc) == Carried(Exec(es).pc)
  }

  /** Since the k-th event the run has carried the items that event chose. */
  ghost predicate ChosenAt(es: seq<Event>, k: nat) {
    && k < |es| && Carried(Exec(es).pc).Some?
    && Chooses(Exec(es[..k]), es[k], Carried(Exec(es).pc).value)
    && forall j :: k < j <= |es| ==> CarriedAfter(es, j)
  }

  /** The items a run carries are those its own choosing event made of that event's batch and reranked jobs. */
  lemma {:induction false} ItemsAreChosen(es: seq<Event>) returns (k: nat)
    requires Carried(Exec(es).pc).Some?
    ensures ChosenAt(es, k)
  {
    assert es != [];
    var n := |es| - 1;
    var init := es[..n];
    assert es[..|es|] == es;
    StepCarries(Exec(init), es[n]);
    if Chooses(Exec(init), es[n], Carried(Exec(es).pc).value) {
      k := n;
    } else {
      k := ItemsAreChosen(init);
      forall j | k < j <= |es| ensures CarriedAfter(es, j) {
        if j < |es| { assert init[..j] == es[..j] && CarriedAfter(init, j); }
      }
      assert init[..k] == es[..k];
    }
  }

  /** Every job taken out since the k-th event was reported dead by a probe that found its posting. */
  ghost predicate OnlyDead(es: seq<Event>, k: nat, dropped: set<int>) {
    forall x :: x in dropped ==> FoundDead(es, k, x)
  }

  predicate FoundDead(es: seq<Event>, k: nat, x: int) {
    exists j :: k < j < |es| && ReportsDead(es[j], x)
  }

  predicate ReportsDead(e: Event, x: int) { e.Probe? && x in e.dead && x !in e.pruned }

  /** What the row holds once its items are in: those carried, without some that a probe reported dead. */
  ghost predicate LeftOf(es: seq<Event>, k: nat, rows: seq<Row>, kept: seq<Ranked>) {
    |rows| == 1 && exists dropped: set<int> :: rows[0].items == Without(kept, dropped) && OnlyDead(es, k, dropped)
  }

  lemma OnlyDeadLater(es: seq<Event>, e: Event, k: nat, dropped: set<int>)
    requires OnlyDead(es, k, dropped)
    ensures OnlyDead(es + [e], k, dropped)
  {
    forall x | x in dropped ensures FoundDead(es + [e], k, x) {
      var j :| k < j < |es| && ReportsDead(es[j], x);
      assert (es + [e])[j] == es[j];
    }
  }

  lemma OnlyDeadGrows(es: seq<Event>, e: Event, k: nat, dropped: set<int>)
    requires OnlyDead(es, k, dropped) && e.Probe? && k < |es|
    ensures OnlyDead(es + [e], k, dropped + (e.dead - e.pruned))
  {
    OnlyDeadLater(es, e, k, dropped);
    forall x | x in e.dead - e.pruned ensures FoundDead(es + [e], k, x) {
      assert ReportsDead((es + [e])[|es|], x);
    }
  }

  lemma LeftLater(es: seq<Event>, e: Event, k: nat, rows: seq<Row>, rows': seq<Row>, kept: seq<Ranked>)
    requires LeftOf(es, k, rows, kept) && |rows'| == 1 && rows'[0].items == rows[0].items
    ensures LeftOf(es + [e], k, rows', kept)
  {
    var dropped: set<int> :| rows[0].items == Without(kept, dropped) && OnlyDead(es, k, dropped);
    OnlyDeadLater(es, e, k, dropped);
  }

  lemma ProbeLeaves(es: seq<Event>, e: Event, k: nat, rows: seq<Row>, rows': seq<Row>, kept: seq<Ranked>)
    requires LeftOf(es, k, rows, kept) && e.Probe? && k < |es| && |rows'| == 1
    requires rows'[0].items == Without(rows[0].items, e.dead - e.pruned)
    ensures LeftOf(es + [e], k, rows', kept)
  {
    var dropped: set<int> :| rows[0].items == Without(kept, dropped) && OnlyDead(es, k, dropped);
    OnlyDeadGrows(es, e, k, dropped);
    WithoutTwice(kept, dropped, e.dead - e.pruned);
  }

  predicate ItemsAreIn(pc: Pc) { Carried(pc).Some? && !pc.Persisting? }

  /** A step of a run whose items are in leaves them, or takes out what its probe reported dead. */
  lemma StepLeaves(s: State, e: Event)
    requires Ok(s) && ItemsAreIn(s.pc) && ItemsAreIn(Step(s, e).pc)
    ensures var t := Step(s, e);
      && |s.rows| == 1 && |t.rows| == 1
      && (t.rows[0].items == s.rows[0].items || (e.Probe? && t.rows[0].items == Without(s.rows[0].items, e.dead - e.pruned)))
  {
    SentRow(s.rows);
    match e
    case Probe(dead, pruned, _) =>
      if s.pc.Probing? {
        var left := |Without(Without(s.rows[0].items, pruned), dead)|;
        UpdatedRow(s.rows, s.pc.id, (r: Row) => r.(items := Without(s.rows[0].items, dead - pruned), itemCount := left));
      }
    case RecordSent(_) =>
      if s.pc.RecordingSent? {
        var email := s.pc.email;
        UpdatedRow(s.rows, s.pc.id, (r: Row) => r.(emailId := Some(email), delivery := Sent));
      }
    case RecordDelivery(event, _) =>
      if s.pc.Polling? {
        var status := MapDeliveryEvent(event).status;
        UpdatedRow(s.rows, s.pc.id, (r: Row) => r.(delivery := status));
      }
    case _ =>
  }

  lemma StepEnters(s: State, e: Event)
    requires Ok(s) && !ItemsAreIn(s.pc) && ItemsAreIn(Step(s, e).pc)
    ensures var t := Step(s, e); |t.rows| == 1 && t.rows[0].items == Carried(t.pc).value && Carried(s.pc) == Carried(t.pc)
  {
    SentRow(s.rows);
  }

  lemma LeftStep(es: seq<Event>, e: Event, k: nat)
    requires k < |es| && ItemsAreIn(Step(Exec(es), e).pc) && Carried(Exec(es).pc) == Carried(Step(Exec(es), e).pc)
    requires ItemsAreIn(Exec(es).pc) ==> LeftOf(es, k, Exec(es).rows, Carried(Exec(es).pc).value)
    ensures LeftOf(es + [e], k, Step(Exec(es), e).rows, Carried(Exec(es).pc).value)
  {
    var s := Exec(es);
    var t := Step(s, e);
    var kept := Carried(t.pc).value;
    AlwaysOk(es);
    if ItemsAreIn(s.pc) {
      StepLeaves(s, e);
      if t.rows[0].items == s.rows[0].items { LeftLater(es, e, k, s.rows, t.rows, kept); }
      else { ProbeLeaves(es, e, k, s.rows, t.rows, kept); }
    } else {
      StepEnters(s, e);
      WithoutNone(kept);
      assert OnlyDead(es + [e], k, {});
    }
  }

  lemma ExecPrefix(es: seq<Event>, j: nat)
    requires 1 <= j <= |es|
    ensures es[..j] == es[..j - 1] + [es[j - 1]] && Exec(es[..j]) == Step(Exec(es[..j - 1]), es[j - 1])
  {
    assert es[..j][..j - 1] == es[..j - 1];
  }

  lemma ChoosingComesFirst(s: State, e: Event, kept: seq<Ranked>)
    requires Chooses(s, e, kept)
    ensures !ItemsAreIn(Step(s, e).pc)
  {
  }

  /** The states of a run since it chose its items. */
  lemma SinceChosen(es: seq<Event>, k: nat, j: nat)
    requires ChosenAt(es, k) && k < j <= |es|
    ensures CarriedAfter(es, j)
    ensures if j == k + 1 then !ItemsAreIn(Exec(es[..j]).pc) else CarriedAfter(es, j - 1)
  {
    if j == k + 1 {
      ExecPrefix(es, j);
      ChoosingComesFirst(Exec(es[..k]), es[k], Carried(Exec(es).pc).value);
    }
  }

  lemma {:induction false} RowHoldsTheChosen(es: seq<Event>, k: nat, j: nat)
    requires ChosenAt(es, k) && k < j <= |es| && ItemsAreIn(Exec(es[..j]).pc)
    ensures LeftOf(es[..j], k, Exec(es[..j]).rows, Carried(Exec(es).pc).value)
    decreases j
  {
    SinceChosen(es, k, j);
    ExecPrefix(es, j);
    if j > k + 1 {
      var init := es[..j - 1];
      if ItemsAreIn(Exec(init).pc) { RowHoldsTheChosen(es, k, j - 1); }
      LeftStep(init, es[j - 1], k);
    }
  }

  /**
   * A run that finishes with a digest leaves the one row holding what its own batch and its own reranked jobs give:
   * the jobs with a usable note, in rerank order, ranked 1..N, less only those a probe of this run reported dead.
   */
  lemma FinishedHoldsTheChosen(es: seq<Event>) returns (k: nat)
    requires Exec(es).pc.Finished? && Carried(Exec(es).pc).Some?
    ensures ChosenAt(es, k)
    ensures var b, jobs := es[k].batch, es[k].items;
      && LeftOf(es, k, Exec(es).rows, Kept(b, jobs))
      && RankedFrom(b, Kept(b, jobs), WithNotes(b, jobs), 1)
  {
    k := ItemsAreChosen(es);
    assert es[..|es|] == es;
    RowHoldsTheChosen(es, k, |es|);
    KeptIsRanked(es[k].batch, es[k].items, 1);
  }

  // ---------- A sent digest is final ----------

  /** The same row, with the same items and the same email. */
  predicate SameDigest(rows: seq<Row>, rows': seq<Row>) {
    && |rows| == 1 && |rows'| == 1
    && rows'[0].id == rows[0].id && rows'[0].items == rows[0].items && rows'[0].emailId == rows[0].emailId
    && rows'[0].itemCount == rows[0].itemCount
  }

  lemma SentStaysOneStep(s: State, e: Event)
    requires Ok(s) && HasSent(s.rows)
    ensures SameDigest(s.rows, Step(s, e).rows) && HasSent(Step(s, e).rows)
  {
    SentRow(s.rows);
    match e
    case RecordSent(_) =>
      if s.pc.RecordingSent? {
        var email := s.pc.email;
        UpdatedRow(s.rows, s.pc.id, (r: Row) => r.(emailId := Some(email), delivery := Sent));
      }
    case RecordDelivery(event, _) =>
      if s.pc.Polling? {
        var status := MapDeliveryEvent(event).status;
        UpdatedRow(s.rows, s.pc.id, (r: Row) => r.(delivery := status));
      }
    case _ =>
  }

  /** A digest recorded as sent is never replaced: whatever happens afterwards, its row, its items and its email stay. */
  lemma {:induction false} SentStays(es: seq<Event>, more: seq<Event>)
    requires HasSent(Exec(es).rows)
    ensures SameDigest(Exec(es).rows, Exec(es + more).rows) && HasSent(Exec(es + more).rows)
    decreases |more|
  {
    AlwaysOk(es);
    SentRow(Exec(es).rows);
    if more == [] {
      assert es + more == es;
    } else {
      var n := |more| - 1;
      SentStays(es, more[..n]);
      AlwaysOk(es + more[..n]);
      SentStaysOneStep(Exec(es + more[..n]), more[n]);
      assert more == more[..n] + [more[n]];
      ExecJoins(es, more[..n], more[n]);
    }
  }

  // ---------- The recount ----------

  /** The probe's recount is the number of items left exactly when no item's job was pruned in the meantime: the
      items are read with their jobs joined, and an item without its job is neither probed nor counted. */
  lemma RecountMatches(s: State, dead: set<int>, pruned: set<int>, memoized: bool)
    requires Ok(s) && s.pc.Probing? && Without(s.rows[0].items, pruned) != []
    ensures var row := Step(s, Probe(dead, pruned, memoized)).rows[0];
      row.itemCount == |row.items| <==> CountIn(s.rows[0].items, pruned) == 0
  {
    var items := s.rows[0].items;
    var left := |Without(Without(items, pruned), dead)|;
    UpdatedRow(s.rows, s.pc.id, (r: Row) => r.(items := Without(items, dead - pruned), itemCount := left));
    CountGap(items, dead, pruned);
  }

  lemma ExecThen(es: seq<Event>, e: Event)
    ensures Exec(es + [e]) == Step(Exec(es), e)
  {
    ExecJoins(es, [], e);
    assert es + ([] + [e]) == es + [e] && es + [] == es;
  }

  /** The first run of a digest, up to its probe. */
  function ToProbe(b: Batch, jobs: seq<Scored>): seq<Event> {
    [Load(true), ChooseItems(b, jobs)] + [Advance] + [Advance] + [Advance] + [Advance] + [Advance]
  }

  lemma Chosen(b: Batch, jobs: seq<Scored>)
    ensures Exec([Load(true), ChooseItems(b, jobs)]) == State([], 0, map[], 0, Persisting(Kept(b, jobs), CheckSent))
  {
    ExecThen([], Load(true));
    ExecThen([Load(true)], ChooseItems(b, jobs));
    assert [] + [Load(true)] == [Load(true)];
    assert [Load(true)] + [ChooseItems(b, jobs)] == [Load(true), ChooseItems(b, jobs)];
  }

  lemma Written(kept: seq<Ranked>)
    requires kept != []
    ensures var s0 := State([], 0, map[], 0, Persisting(kept, CheckSent));
      var s3 := Step(Step(Step(s0, Advance), Advance), Advance);
      s3 == State([Row(0, |kept|, [], None, Unsent)], 1, map[], 0, Persisting(kept, InsertItems(0)))
    ensures var s3 := State([Row(0, |kept|, [], None, Unsent)], 1, map[], 0, Persisting(kept, InsertItems(0)));
      Step(Step(s3, Advance), Advance) == State([Row(0, |kept|, kept, None, Unsent)], 1, map[], 0, Probing(kept, 0))
  {
    UpdatedRow([Row(0, |kept|, [], None, Unsent)], 0, (r: Row) => r.(items := kept));
  }

  lemma AtProbe(b: Batch, jobs: seq<Scored>)
    requires Kept(b, jobs) != []
    ensures var kept := Kept(b, jobs);
      Exec(ToProbe(b, jobs)) == State([Row(0, |kept|, kept, None, Unsent)], 1, map[], 0, Probing(kept, 0))
  {
    var es := [Load(true), ChooseItems(b, jobs)];
    Chosen(b, jobs);
    Written(Kept(b, jobs));
    ExecThen(es, Advance);
    ExecThen(es + [Advance], Advance);
    ExecThen(es + [Advance] + [Advance], Advance);
    ExecThen(es + [Advance] + [Advance] + [Advance], Advance);
    ExecThen(es + [Advance] + [Advance] + [Advance] + [Advance], Advance);
  }

  /** The wrong recount is reachable: in any first run where some but not all of the kept items' jobs are pruned before
      a probe that finds no link dead, every item stays and the pruned ones are missing from the count. */
  lemma PrunedRunMiscounts(b: Batch, jobs: seq<Scored>, pruned: set<int>)
    requires Without(Kept(b, jobs), pruned) != [] && CountIn(Kept(b, jobs), pruned) > 0
    ensures var rows := Exec(ToProbe(b, jobs) + [Probe({}, pruned, true)]).rows;
      |rows| == 1 && rows[0].items == Kept(b, jobs) && rows[0].itemCount == |rows[0].items| - CountIn(rows[0].items, pruned)
  {
    var kept := Kept(b, jobs);
    assert kept != [];
    AtProbe(b, jobs);
    ExecThen(ToProbe(b, jobs), Probe({}, pruned, true));
    var left := |Without(Without(kept, pruned), {})|;
    UpdatedRow(Exec(ToProbe(b, jobs)).rows, 0, (r: Row) => r.(items := Without(kept, {} - pruned), itemCount := left));
    CountGap(kept, {}, pruned);
    assert {} - pruned == {};
    WithoutNone(kept);
  }

  /** And there are such runs: two jobs with a note each, the first of them pruned. */
  lemma TwoJobsOnePruned() returns (b: Batch, jobs: seq<Scored>, pruned: set<int>)
    ensures var rows := Exec(ToProbe(b, jobs) + [Probe({}, pruned, true)]).rows;
      |rows| == 1 && rows[0].itemCount == 1 && |rows[0].items| == 2
  {
    var note := Synthesis(true, Some("end_turn"), "good", "");
    b := Batch((s: string) => false, map[1 := note, 2 := note]);
    var first, second := Scored(1, 0.9), Scored(2, 0.8);
    jobs, pruned := [first, second], {1};
    TrimLeavesTrimmed("good");
    var items := [Ranked(1, 1, 0.9, "good"), Ranked(2, 2, 0.8, "good")];
    assert NoteFor(b, 1) == Result.Ok("good") && NoteFor(b, 2) == Result.Ok("good");
    assert jobs[1..] == [second] && [second][1..] == [] && items[1..] == [items[1]] && items[1..][1..] == [];
    assert KeptFrom(b, [second], 2) == [items[1]];
    assert Kept(b, jobs) == items;
    PrunedRunMiscounts(b, jobs, pruned);
  }
}
