// applyPendingFixes (packages/db/src/fixes.ts) as the runs of many runners against one database: any query may
// fail, a COMMIT may take effect without its answer arriving, or settle only later.
module FixRunner {
  import opened FixFiles

  /** One committed transaction: which fix, and which runner's. */
  datatype Commit = Commit(fix: Fix, runner: nat)

  /** What is committed: the record table (id to hash), the data, and the commits that made them. */
  datatype Base<D> = Base(records: map<nat, string>, data: D, history: seq<Commit>)

  datatype Report = Applied(id: nat) | Failed(id: nat) | Unconfirmed(id: nat)

  /** Where a runner stands between two queries. `pending` is the data as its open transaction sees it. */
  datatype Phase<D> =
    | Reading
    | Considering(next: nat, recorded: map<nat, string>)
    | Began(next: nat, recorded: map<nat, string>)
    | RanSql(next: nat, recorded: map<nat, string>, pending: D)
    | Inserted(next: nat, recorded: map<nat, string>, pending: D)
    | Done

  datatype Runner<D> = Runner(fixes: seq<Fix>, phase: Phase<D>, reports: seq<Report>)

  /** A transaction whose COMMIT was sent and not answered; the database still settles it. */
  datatype InDoubt<D> = InDoubt(fix: Fix, runner: nat, pending: D)

  datatype System<D> = System(base: Base<D>, doubt: seq<InDoubt<D>>, runners: seq<Runner<D>>)

  datatype Answer = Acked | TookEffect | WasDropped | Unsettled

  datatype Event =
    | Read(r: nat, ok: bool)
    | Advance(r: nat)
    | Begin(r: nat, ok: bool)
    | RunSql(r: nat, ok: bool)
    | InsertRecord(r: nat, ok: bool)
    | SendCommit(r: nat, answer: Answer)
    | Settle(k: nat, commits: bool)

  // ---------- One query ----------

  function Install<D>(b: Base<D>, fix: Fix, pending: D, runner: nat): Base<D> {
    Base(b.records[fix.id := fix.sha256], pending, b.history + [Commit(fix, runner)])
  }

  /** The checks before anything is applied: no recorded file is gone, none has changed. */
  predicate FilesMatch(fixes: seq<Fix>, records: map<nat, string>) {
    && (forall id :: id in records ==> exists k :: 0 <= k < |fixes| && fixes[k].id == id)
    && (forall k :: 0 <= k < |fixes| && fixes[k].id in records ==> records[fixes[k].id] == fixes[k].sha256)
  }

  /** The runner's current fix failed: rolled back, reported, and the run stops. */
  function Fail<D>(x: Runner<D>, next: nat): Runner<D>
    requires next < |x.fixes|
  {
    x.(phase := Done, reports := x.reports + [Failed(x.fixes[next].id)])
  }

  /** A query that touches nothing shared: the runner after it. Inserting the record is one once its key is free. */
  function Turn<D>(run: (D, string) -> D, b: Base<D>, x: Runner<D>, e: Event): Runner<D> {
    match e
    case Read(_, ok) =>
      if !x.phase.Reading? then x
      else if ok && FilesMatch(x.fixes, b.records) then x.(phase := Considering(0, b.records))
      else x.(phase := Done)
    case Advance(_) =>
      if !x.phase.Considering? then x
      else if x.phase.next >= |x.fixes| then x.(phase := Done)
      else if x.fixes[x.phase.next].id in x.phase.recorded then
        x.(phase := Considering(x.phase.next + 1, x.phase.recorded))
      else x
    case Begin(_, ok) =>
      if !(x.phase.Considering? && x.phase.next < |x.fixes| && x.fixes[x.phase.next].id !in x.phase.recorded) then x
      else if ok then x.(phase := Began(x.phase.next, x.phase.recorded))
      else Fail(x, x.phase.next)
    case RunSql(_, ok) =>
      if !(x.phase.Began? && x.phase.next < |x.fixes|) then x
      else if ok then
        x.(phase := RanSql(x.phase.next, x.phase.recorded, run(b.data, x.fixes[x.phase.next].sql)))
      else Fail(x, x.phase.next)
    case InsertRecord(_, ok) =>
      if !(x.phase.RanSql? && x.phase.next < |x.fixes|) then x
      else if ok && x.fixes[x.phase.next].id !in b.records then
        x.(phase := Inserted(x.phase.next, x.phase.recorded, x.phase.pending))
      else Fail(x, x.phase.next)
    case _ => x
  }

  /** An open transaction holds this record's key. */
  predicate Held<D>(s: System<D>, id: nat) {
    || (exists k :: 0 <= k < |s.doubt| && s.doubt[k].fix.id == id)
    || (exists r :: 0 <= r < |s.runners| && Holds(s.runners[r], id))
  }

  predicate Holds<D>(x: Runner<D>, id: nat) {
    x.phase.Inserted? && x.phase.next < |x.fixes| && x.fixes[x.phase.next].id == id
  }

  /** An insert that must wait for another transaction's answer. */
  predicate Waits<D>(s: System<D>, x: Runner<D>, e: Event) {
    && e.InsertRecord? && e.ok && x.phase.RanSql? && x.phase.next < |x.fixes|
    && x.fixes[x.phase.next].id !in s.base.records && Held(s, x.fixes[x.phase.next].id)
  }

  function CommitTurn<D>(s: System<D>, r: nat, answer: Answer): System<D>
    requires r < |s.runners|
  {
    var x := s.runners[r];
    if !(x.phase.Inserted? && x.phase.next < |x.fixes|) then s
    else
      var fix, pending := x.fixes[x.phase.next], x.phase.pending;
      var going := x.(phase := Considering(x.phase.next + 1, x.phase.recorded), reports := x.reports + [Applied(fix.id)]);
      var lost := x.(phase := Done, reports := x.reports + [Unconfirmed(fix.id)]);
      match answer
      case Acked => System(Install(s.base, fix, pending, r), s.doubt, s.runners[r := going])
      case TookEffect => System(Install(s.base, fix, pending, r), s.doubt, s.runners[r := lost])
      case WasDropped => System(s.base, s.doubt, s.runners[r := lost])
      case Unsettled => System(s.base, s.doubt + [InDoubt(fix, r, pending)], s.runners[r := lost])
  }

  function Step<D>(run: (D, string) -> D, s: System<D>, e: Event): System<D> {
    match e
    case Settle(k, commits) =>
      if k >= |s.doubt| then s
      else
        var d, rest := s.doubt[k], s.doubt[..k] + s.doubt[k + 1..];
        System(if commits then Install(s.base, d.fix, d.pending, d.runner) else s.base, rest, s.runners)
    case SendCommit(r, answer) => if r >= |s.runners| then s else CommitTurn(s, r, answer)
    case _ =>
      if e.r >= |s.runners| || Waits(s, s.runners[e.r], e) then s
      else s.(runners := s.runners[e.r := Turn(run, s.base, s.runners[e.r], e)])
  }

  function Exec<D>(run: (D, string) -> D, s: System<D>, es: seq<Event>): System<D> {
    if es == [] then s else Step(run, Exec(run, s, es[..|es| - 1]), es[|es| - 1])
  }

  // ---------- What holds throughout ----------

  /** The committed fixes' SQL, each run once, in order. */
  function Replayed<D>(run: (D, string) -> D, seed: D, history: seq<Commit>): D {
    if history == [] then seed
    else run(Replayed(run, seed, history[..|history| - 1]), history[|history| - 1].fix.sql)
  }

  /** The records are exactly ids 1..k, each with its file's hash, and the data is fixes 1..k applied once each. */
  ghost predicate BaseOk<D>(run: (D, string) -> D, seed: D, b: Base<D>) {
    && (forall id :: id in b.records <==> 1 <= id <= |b.history|)
    && (forall i :: 0 <= i < |b.history| ==>
      b.history[i].fix.id == i + 1 && b.records[i + 1] == b.history[i].fix.sha256)
    && b.data == Replayed(run, seed, b.history)
  }

  /** The transaction ran the next fix on the data as it now stands. */
  ghost predicate Ready<D>(run: (D, string) -> D, b: Base<D>, fix: Fix, pending: D) {
    fix.id == |b.history| + 1 && pending == run(b.data, fix.sql)
  }

  /** All fixes before `next` are committed, and the runner still sees a past state of the records. */
  ghost predicate UpTo<D>(b: Base<D>, next: nat, recorded: map<nat, string>) {
    next <= |b.history| && forall id :: id in recorded ==> 1 <= id <= |b.history|
  }

  ghost predicate RunnerOk<D>(run: (D, string) -> D, b: Base<D>, x: Runner<D>) {
    && Numbered(x.fixes)
    && match x.phase
      case Considering(next, recorded) => next <= |x.fixes| && UpTo(b, next, recorded)
      case Began(next, recorded) => next < |x.fixes| && UpTo(b, next, recorded)
      case RanSql(next, recorded, pending) =>
        && next < |x.fixes| && UpTo(b, next, recorded)
        && (next < |b.history| || Ready(run, b, x.fixes[next], pending))
      case Inserted(next, recorded, pending) =>
        next < |x.fixes| && UpTo(b, next, recorded) && Ready(run, b, x.fixes[next], pending)
      case _ => true
  }

  /** At most one transaction is past its insert, and it is the next fix on the current data. */
  ghost predicate SoleHolder<D>(run: (D, string) -> D, s: System<D>) {
    && |s.doubt| <= 1
    && (forall k :: 0 <= k < |s.doubt| ==> Ready(run, s.base, s.doubt[k].fix, s.doubt[k].pending))
    && (forall r :: 0 <= r < |s.runners| && s.runners[r].phase.Inserted? ==> s.doubt == [])
    && (forall q, r :: 0 <= q < r < |s.runners| ==> !(s.runners[q].phase.Inserted? && s.runners[r].phase.Inserted?))
  }

  ghost predicate AllOk<D>(run: (D, string) -> D, seed: D, s: System<D>) {
    && BaseOk(run, seed, s.base)
    && (forall r :: 0 <= r < |s.runners| ==> RunnerOk(run, s.base, s.runners[r]))
    && SoleHolder(run, s)
  }

  lemma InstallOk<D>(run: (D, string) -> D, seed: D, b: Base<D>, fix: Fix, pending: D, runner: nat)
    requires BaseOk(run, seed, b) && Ready(run, b, fix, pending)
    ensures BaseOk(run, seed, Install(b, fix, pending, runner))
  {
    var c := Install(b, fix, pending, runner);
    assert c.history[..|c.history| - 1] == b.history;
  }

  /** Another's commit leaves a runner in order, provided it was not past its own insert. */
  lemma OthersStayOk<D>(run: (D, string) -> D, b: Base<D>, x: Runner<D>, fix: Fix, pending: D, runner: nat)
    requires RunnerOk(run, b, x) && !x.phase.Inserted?
    ensures RunnerOk(run, Install(b, fix, pending, runner), x)
  {
  }

  lemma TurnOk<D>(run: (D, string) -> D, seed: D, b: Base<D>, x: Runner<D>, e: Event)
    requires BaseOk(run, seed, b) && RunnerOk(run, b, x)
    ensures RunnerOk(run, b, Turn(run, b, x, e))
    ensures var y := Turn(run, b, x, e);
      y.phase.Inserted? && !x.phase.Inserted? ==>
        e.InsertRecord? && e.ok && x.phase.RanSql? && x.fixes[x.phase.next].id !in b.records
  {
  }

  lemma FreeKey<D>(run: (D, string) -> D, seed: D, s: System<D>, id: nat)
    requires AllOk(run, seed, s) && id == |s.base.history| + 1 && !Held(s, id)
    ensures s.doubt == [] && forall r :: 0 <= r < |s.runners| ==> !s.runners[r].phase.Inserted?
  {
    assert s.doubt != [] ==> s.doubt[0].fix.id == id;
    forall r | 0 <= r < |s.runners| ensures !s.runners[r].phase.Inserted? {
      assert RunnerOk(run, s.base, s.runners[r]);
      assert !Holds(s.runners[r], id);
    }
  }

  lemma TurnKeeps<D>(run: (D, string) -> D, seed: D, s: System<D>, e: Event)
    requires AllOk(run, seed, s) && !e.Settle? && !e.SendCommit?
    ensures AllOk(run, seed, Step(run, s, e))
  {
    if e.r < |s.runners| && !Waits(s, s.runners[e.r], e) {
      var x := s.runners[e.r];
      var y := Turn(run, s.base, x, e);
      TurnOk(run, seed, s.base, x, e);
      if y.phase.Inserted? && !x.phase.Inserted? {
        FreeKey(run, seed, s, x.fixes[x.phase.next].id);
      }
      Replace(run, seed, s, e.r, y);
    }
  }

  lemma Replace<D>(run: (D, string) -> D, seed: D, s: System<D>, r: nat, y: Runner<D>)
    requires AllOk(run, seed, s) && r < |s.runners| && RunnerOk(run, s.base, y)
    requires y.phase.Inserted? && !s.runners[r].phase.Inserted? ==>
      s.doubt == [] && forall q :: 0 <= q < |s.runners| ==> !s.runners[q].phase.Inserted?
    ensures AllOk(run, seed, s.(runners := s.runners[r := y]))
  {
  }

  /** A state in which nothing holds a key. */
  lemma NoHolders<D>(run: (D, string) -> D, seed: D, s: System<D>, b: Base<D>, r: nat, y: Runner<D>)
    requires AllOk(run, seed, s) && r < |s.runners| && s.runners[r].phase.Inserted?
    requires BaseOk(run, seed, b) && RunnerOk(run, b, y) && !y.phase.Inserted?
    requires forall q :: 0 <= q < |s.runners| && q != r ==> RunnerOk(run, b, s.runners[q])
    ensures AllOk(run, seed, System(b, [], s.runners[r := y])) && s.doubt == []
    ensures var after := s.runners[r := y]; forall q :: 0 <= q < |after| ==> !after[q].phase.Inserted?
  {
  }

  lemma CommitInstalls<D>(run: (D, string) -> D, seed: D, s: System<D>, r: nat, y: Runner<D>)
    requires AllOk(run, seed, s) && r < |s.runners| && s.runners[r].phase.Inserted? && !y.phase.Inserted?
    requires var x := s.runners[r];
      RunnerOk(run, Install(s.base, x.fixes[x.phase.next], x.phase.pending, r), y)
    ensures var x := s.runners[r];
      AllOk(run, seed, System(Install(s.base, x.fixes[x.phase.next], x.phase.pending, r), s.doubt, s.runners[r := y]))
  {
    var x := s.runners[r];
    var fix := x.fixes[x.phase.next];
    InstallOk(run, seed, s.base, fix, x.phase.pending, r);
    var b := Install(s.base, fix, x.phase.pending, r);
    forall q | 0 <= q < |s.runners| && q != r ensures RunnerOk(run, b, s.runners[q]) {
      OthersStayOk(run, s.base, s.runners[q], fix, x.phase.pending, r);
    }
    NoHolders(run, seed, s, b, r, y);
  }

  lemma CommitKeeps<D>(run: (D, string) -> D, seed: D, s: System<D>, r: nat, answer: Answer)
    requires AllOk(run, seed, s) && r < |s.runners|
    ensures AllOk(run, seed, CommitTurn(s, r, answer))
  {
    var x := s.runners[r];
    if x.phase.Inserted? {
      var id := x.fixes[x.phase.next].id;
      var going := x.(phase := Considering(x.phase.next + 1, x.phase.recorded), reports := x.reports + [Applied(id)]);
      var lost := x.(phase := Done, reports := x.reports + [Unconfirmed(id)]);
      match answer
      case Acked => CommitInstalls(run, seed, s, r, going);
      case TookEffect => CommitInstalls(run, seed, s, r, lost);
      case WasDropped => Replace(run, seed, s, r, lost);
      case Unsettled => NoHolders(run, seed, s, s.base, r, lost);
    }
  }

  lemma SettleKeeps<D>(run: (D, string) -> D, seed: D, s: System<D>, e: Event)
    requires AllOk(run, seed, s) && e.Settle?
    ensures AllOk(run, seed, Step(run, s, e))
  {
    if e.k < |s.doubt| {
      var d := s.doubt[e.k];
      InstallOk(run, seed, s.base, d.fix, d.pending, d.runner);
      forall q | 0 <= q < |s.runners| ensures RunnerOk(run, Install(s.base, d.fix, d.pending, d.runner), s.runners[q]) {
        OthersStayOk(run, s.base, s.runners[q], d.fix, d.pending, d.runner);
      }
    }
  }

  lemma StepKeeps<D>(run: (D, string) -> D, seed: D, s: System<D>, e: Event)
    requires AllOk(run, seed, s)
    ensures AllOk(run, seed, Step(run, s, e))
  {
    match e
    case Settle(_, _) => SettleKeeps(run, seed, s, e);
    case SendCommit(r, answer) => if r < |s.runners| { CommitKeeps(run, seed, s, r, answer); }
    case _ => TurnKeeps(run, seed, s, e);
  }

  /** Before anything runs: an empty record table, and runners whose files passed the numbering check. */
  ghost predicate Initial<D>(seed: D, s: System<D>) {
    && s.base == Base(map[], seed, []) && s.doubt == []
    && forall r :: 0 <= r < |s.runners| ==>
      Numbered(s.runners[r].fixes) && s.runners[r].phase == Reading && s.runners[r].reports == []
  }

  lemma {:induction false} ExecKeeps<D>(run: (D, string) -> D, seed: D, s: System<D>, es: seq<Event>)
    requires AllOk(run, seed, s)
    ensures AllOk(run, seed, Exec(run, s, es))
  {
    if es != [] {
      ExecKeeps(run, seed, s, es[..|es| - 1]);
      StepKeeps(run, seed, Exec(run, s, es[..|es| - 1]), es[|es| - 1]);
    }
  }

  /** Over any runs, concurrent or not, with any query failing and any COMMIT left in doubt: the committed records
      are always ids 1..k, and the committed data is fixes 1..k applied once each, in order. */
  lemma AppliedOnceInOrder<D>(run: (D, string) -> D, seed: D, s: System<D>, es: seq<Event>)
    requires Initial(seed, s)
    ensures BaseOk(run, seed, Exec(run, s, es).base)
  {
    ExecKeeps(run, seed, s, es);
  }

  // ---------- Nothing committed is undone, and the reports are true ----------

  lemma HistoryGrows<D>(run: (D, string) -> D, s: System<D>, e: Event)
    ensures s.base.history <= Step(run, s, e).base.history
  {
  }

  /** A commit, once made, stays: later states only add to it. */
  lemma {:induction false} CommittedStays<D>(run: (D, string) -> D, s: System<D>, es: seq<Event>, more: seq<Event>)
    ensures Exec(run, s, es).base.history <= Exec(run, s, es + more).base.history
  {
    if more == [] {
      assert es + more == es;
    } else {
      var all := es + more;
      CommittedStays(run, s, es, more[..|more| - 1]);
      assert all[..|all| - 1] == es + more[..|more| - 1];
      HistoryGrows(run, Exec(run, s, all[..|all| - 1]), all[|all| - 1]);
    }
  }

  /** Every commit is of a file the committing runner holds. */
  ghost predicate FromFiles<D>(s: System<D>) {
    && (forall i :: 0 <= i < |s.base.history| ==>
      var c := s.base.history[i]; c.runner < |s.runners| && c.fix in s.runners[c.runner].fixes)
    && (forall k :: 0 <= k < |s.doubt| ==>
      var d := s.doubt[k]; d.runner < |s.runners| && d.fix in s.runners[d.runner].fixes)
  }

  ghost predicate SameFiles<D>(xs: seq<Runner<D>>, ys: seq<Runner<D>>) {
    |xs| == |ys| && forall r :: 0 <= r < |xs| ==> ys[r].fixes == xs[r].fixes
  }

  lemma TurnKeepsFiles<D>(run: (D, string) -> D, b: Base<D>, x: Runner<D>, e: Event)
    ensures Turn(run, b, x, e).fixes == x.fixes
  {
  }

  lemma CommitKeepsFiles<D>(s: System<D>, r: nat, answer: Answer)
    requires FromFiles(s) && r < |s.runners|
    ensures FromFiles(CommitTurn(s, r, answer)) && SameFiles(s.runners, CommitTurn(s, r, answer).runners)
  {
  }

  lemma StepKeepsFiles<D>(run: (D, string) -> D, s: System<D>, e: Event)
    requires FromFiles(s)
    ensures FromFiles(Step(run, s, e)) && SameFiles(s.runners, Step(run, s, e).runners)
  {
    match e
    case Settle(k, _) => if k < |s.doubt| { assert s.doubt[k].fix in s.runners[s.doubt[k].runner].fixes; }
    case SendCommit(r, answer) => if r < |s.runners| { CommitKeepsFiles(s, r, answer); }
    case _ => if e.r < |s.runners| { TurnKeepsFiles(run, s.base, s.runners[e.r], e); }
  }

  lemma {:induction false} ExecKeepsFiles<D>(run: (D, string) -> D, seed: D, s: System<D>, es: seq<Event>)
    requires Initial(seed, s)
    ensures var t := Exec(run, s, es);
      FromFiles(t) && SameFiles(s.runners, t.runners)
  {
    if es != [] {
      ExecKeepsFiles(run, seed, s, es[..|es| - 1]);
      StepKeepsFiles(run, Exec(run, s, es[..|es| - 1]), es[|es| - 1]);
    }
  }

  lemma InPrefix(fix: Fix, fixes: seq<Fix>, all: seq<Fix>)
    requires fix in fixes && fixes <= all && Numbered(all)
    ensures 1 <= fix.id <= |all| && all[fix.id - 1] == fix
  {
    var k :| 0 <= k < |fixes| && fixes[k] == fix;
    assert all[k] == fix;
  }

  lemma FromList<D>(t: System<D>, all: seq<Fix>, i: nat)
    requires FromFiles(t) && i < |t.base.history| && t.base.history[i].fix.id == i + 1 && Numbered(all)
    requires forall r :: 0 <= r < |t.runners| ==> t.runners[r].fixes <= all
    ensures i < |all| && t.base.history[i].fix == all[i]
  {
    var c := t.base.history[i];
    InPrefix(c.fix, t.runners[c.runner].fixes, all);
  }

  /** With an append-only file list, what is committed is a prefix of that list, in order. */
  lemma AppendOnly<D>(run: (D, string) -> D, seed: D, s: System<D>, es: seq<Event>, all: seq<Fix>)
    requires Initial(seed, s) && Numbered(all)
    requires forall r :: 0 <= r < |s.runners| ==> s.runners[r].fixes <= all
    ensures var b := Exec(run, s, es).base;
      && BaseOk(run, seed, b) && |b.history| <= |all|
      && forall i :: 0 <= i < |b.history| ==> b.history[i].fix == all[i]
  {
    AppliedOnceInOrder(run, seed, s, es);
    ExecKeepsFiles(run, seed, s, es);
    var t := Exec(run, s, es);
    forall i | 0 <= i < |t.base.history| ensures i < |all| && t.base.history[i].fix == all[i] {
      FromList(t, all, i);
    }
    var n := |t.base.history|;
    if n > 0 { FromList(t, all, n - 1); }
  }

  /** How many fixes are behind a runner that is still going. */
  function Behind<D>(phase: Phase<D>): nat {
    match phase
    case Considering(next, _) => next
    case Began(next, _) => next
    case RanSql(next, _, _) => next
    case Inserted(next, _, _) => next
    case _ => 0
  }

  /** Reports come in order of number, and none is beyond what the runner has behind it. */
  ghost predicate ReportsInOrder<D>(x: Runner<D>) {
    && (forall i, j :: 0 <= i < j < |x.reports| ==> x.reports[i].id < x.reports[j].id)
    && (!x.phase.Done? ==> forall i :: 0 <= i < |x.reports| ==> x.reports[i].id <= Behind(x.phase))
  }

  /** The runner reported this fix as applied, or as possibly applied. */
  ghost predicate Claims<D>(x: Runner<D>, id: nat) { Applied(id) in x.reports || Unconfirmed(id) in x.reports }

  /** Every commit was claimed by the runner that made it, and no other runner says it applied it. */
  ghost predicate ReportsTrue<D>(s: System<D>) {
    && (forall r :: 0 <= r < |s.runners| ==> ReportsInOrder(s.runners[r]))
    && (forall r, id: nat :: 0 <= r < |s.runners| && Applied(id) in s.runners[r].reports ==>
      1 <= id <= |s.base.history| && s.base.history[id - 1].runner == r)
    && (forall i :: 0 <= i < |s.base.history| ==>
      var c := s.base.history[i]; c.runner < |s.runners| && Claims(s.runners[c.runner], i + 1))
    && (forall k :: 0 <= k < |s.doubt| ==>
      var d := s.doubt[k]; d.runner < |s.runners| && Claims(s.runners[d.runner], d.fix.id))
  }

  /** A turn adds at most one report: that the fix in hand failed. */
  lemma TurnReports<D>(run: (D, string) -> D, b: Base<D>, x: Runner<D>, e: Event)
    requires RunnerOk(run, b, x) && ReportsInOrder(x)
    ensures var y := Turn(run, b, x, e);
      && ReportsInOrder(y)
      && (forall id: nat :: Claims(y, id) <==> Claims(x, id))
      && (forall id: nat :: Applied(id) in y.reports <==> Applied(id) in x.reports)
  {
  }

  lemma TurnKeepsReports<D>(run: (D, string) -> D, s: System<D>, e: Event)
    requires ReportsTrue(s) && !e.Settle? && !e.SendCommit?
    requires forall r :: 0 <= r < |s.runners| ==> RunnerOk(run, s.base, s.runners[r])
    ensures ReportsTrue(Step(run, s, e))
  {
    if e.r < |s.runners| { TurnReports(run, s.base, s.runners[e.r], e); }
  }

  lemma ClaimReports<D>(x: Runner<D>, y: Runner<D>, report: Report)
    requires ReportsInOrder(x) && !x.phase.Done? && Behind(x.phase) < report.id
    requires y.reports == x.reports + [report] && (y.phase.Done? || Behind(y.phase) == report.id)
    ensures ReportsInOrder(y)
    ensures forall id: nat :: Claims(x, id) ==> Claims(y, id)
    ensures forall id: nat :: Applied(id) in y.reports <==> Applied(id) in x.reports || report == Applied(id)
  {
  }

  /** The committing runner's new report is borne out by what its transaction became. */
  lemma ClaimBorneOut<D>(s: System<D>, r: nat, y: Runner<D>, report: Report, b: Base<D>, doubt: seq<InDoubt<D>>)
    requires ReportsTrue(s) && r < |s.runners| && ReportsInOrder(y)
    requires forall id: nat :: Claims(s.runners[r], id) ==> Claims(y, id)
    requires forall id: nat :: Applied(id) in y.reports <==> Applied(id) in s.runners[r].reports || report == Applied(id)
    requires Claims(y, report.id)
    requires b.history == s.base.history
      || (|b.history| == report.id == |s.base.history| + 1 && b.history[..report.id - 1] == s.base.history
          && b.history[report.id - 1].runner == r)
    requires report.Applied? ==> b.history != s.base.history
    requires doubt == s.doubt || exists d: InDoubt<D> :: doubt == s.doubt + [d] && d.runner == r && d.fix.id == report.id
    ensures ReportsTrue(System(b, doubt, s.runners[r := y]))
  {
    var t := System(b, doubt, s.runners[r := y]);
    forall i | 0 <= i < |b.history|
      ensures var c := b.history[i]; c.runner < |t.runners| && Claims(t.runners[c.runner], i + 1)
    {
      if i < |s.base.history| { assert b.history[i] == s.base.history[i]; }
    }
    forall q, id: nat | 0 <= q < |t.runners| && Applied(id) in t.runners[q].reports
      ensures 1 <= id <= |b.history| && b.history[id - 1].runner == q
    {
      if q != r || Applied(id) in s.runners[r].reports {
        assert Applied(id) in s.runners[q].reports;
        assert b.history[id - 1] == s.base.history[id - 1];
      }
    }
  }

  lemma CommitKeepsReports<D>(run: (D, string) -> D, s: System<D>, r: nat, answer: Answer)
    requires ReportsTrue(s) && r < |s.runners| && RunnerOk(run, s.base, s.runners[r])
    ensures ReportsTrue(CommitTurn(s, r, answer))
  {
    var x := s.runners[r];
    if x.phase.Inserted? {
      var t := CommitTurn(s, r, answer);
      var id := x.fixes[x.phase.next].id;
      var report := if answer.Acked? then Applied(id) else Unconfirmed(id);
      ClaimReports(x, t.runners[r], report);
      assert Claims(t.runners[r], id);
      ClaimBorneOut(s, r, t.runners[r], report, t.base, t.doubt);
    }
  }

  lemma StepKeepsReports<D>(run: (D, string) -> D, s: System<D>, e: Event)
    requires ReportsTrue(s) && SoleHolder(run, s)
    requires forall r :: 0 <= r < |s.runners| ==> RunnerOk(run, s.base, s.runners[r])
    ensures ReportsTrue(Step(run, s, e))
  {
    match e
    case Settle(k, _) => if k < |s.doubt| { assert Ready(run, s.base, s.doubt[k].fix, s.doubt[k].pending); }
    case SendCommit(r, answer) => if r < |s.runners| { CommitKeepsReports(run, s, r, answer); }
    case _ => TurnKeepsReports(run, s, e);
  }

  lemma {:induction false} ReportsStayTrue<D>(run: (D, string) -> D, seed: D, s: System<D>, es: seq<Event>)
    requires Initial(seed, s)
    ensures ReportsTrue(Exec(run, s, es))
  {
    if es != [] {
      ExecKeeps(run, seed, s, es[..|es| - 1]);
      ReportsStayTrue(run, seed, s, es[..|es| - 1]);
      StepKeepsReports(run, Exec(run, s, es[..|es| - 1]), es[|es| - 1]);
    }
  }

  /** A runner that reports a fix as applied committed it; one that reports it as failed did not, and no transaction
      of its own for it is still in doubt. */
  lemma ReportsAreTrue<D>(run: (D, string) -> D, seed: D, s: System<D>, es: seq<Event>, r: nat, id: nat)
    requires Initial(seed, s) && r < |Exec(run, s, es).runners|
    ensures var t := Exec(run, s, es);
      && (Applied(id) in t.runners[r].reports ==>
        1 <= id <= |t.base.history| && t.base.history[id - 1].runner == r)
      && (Failed(id) in t.runners[r].reports ==>
        && !(1 <= id <= |t.base.history| && t.base.history[id - 1].runner == r)
        && forall k :: 0 <= k < |t.doubt| ==> !(t.doubt[k].runner == r && t.doubt[k].fix.id == id))
  {
    ReportsStayTrue(run, seed, s, es);
    var t := Exec(run, s, es);
    var x := t.runners[r];
    if Failed(id) in x.reports {
      OneReportEach(x, id);
      if 1 <= id <= |t.base.history| { assert !Claims(x, id) && t.base.history[id - 1].runner < |t.runners|; }
    }
  }

  lemma OneReportEach<D>(x: Runner<D>, id: nat)
    requires ReportsInOrder(x) && Failed(id) in x.reports
    ensures !Claims(x, id)
  {
    var i :| 0 <= i < |x.reports| && x.reports[i] == Failed(id);
    forall j | 0 <= j < |x.reports| && j != i ensures x.reports[j].id != id {
      assert i < j ==> x.reports[i].id < x.reports[j].id;
    }
  }
}
