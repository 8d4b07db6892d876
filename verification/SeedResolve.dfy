// Turning seed records into candidates, one lane or many (packages/discovery/src/resolve.ts,
// packages/discovery/src/discover.ts): what counts is the records, not how they were split into lanes.
module SeedResolve {
  import opened Basics

  datatype Candidate = Candidate(source: string, slug: string, rawSlug: string, sourceUrl: string)

  /** What a link is: nothing, not a URL, no adapter's, or a board of a source. */
  datatype Look = Blank | BadUrl | NoAdapter | Board(source: string, rawSlug: string)

  /** A seed record's links; one that is not text is a blank. */
  datatype SeedRecord = SeedRecord(links: seq<string>)

  /** The adapters: how a link reads, how a source brands a slug (None below its floor), and how it folds one for
      comparison (to lower case where its API ignores case). */
  datatype Adapters = Adapters(
    look: string -> Look, normalize: (string, string) -> Option<string>, fold: (string, string) -> string)

  /** What boards are told apart by. */
  datatype Key = Key(source: string, folded: string)

  function KeyFor(ad: Adapters, source: string, slug: string): Key { Key(source, ad.fold(source, slug)) }

  /** What was scanned and what was dropped, by reason. */
  datatype Drops = Drops(seedRecords: nat, atsLinks: nat, badUrl: nat, deferredNoAdapter: nat, invalidSlug: nat)

  function AddDrops(a: Drops, b: Drops): Drops {
    Drops(a.seedRecords + b.seedRecords, a.atsLinks + b.atsLinks, a.badUrl + b.badUrl,
          a.deferredNoAdapter + b.deferredNoAdapter, a.invalidSlug + b.invalidSlug)
  }

  const NO_DROPS: Drops := Drops(0, 0, 0, 0, 0)

  predicate InScope(only: Option<string>, source: string) { only == None || only == Some(source) }

  /** The candidate a link stands for, if it stands for one. */
  function CandidateOf(ad: Adapters, only: Option<string>, link: string): Option<Candidate> {
    match ad.look(link)
    case Board(source, rawSlug) =>
      if !InScope(only, source) then None
      else
        (match ad.normalize(source, rawSlug)
         case None => None
         case Some(slug) => Some(Candidate(source, slug, rawSlug, link)))
    case _ => None
  }

  function DropOf(ad: Adapters, only: Option<string>, link: string): Drops {
    match ad.look(link)
    case Blank => NO_DROPS
    case BadUrl => Drops(0, 1, 1, 0, 0)
    case NoAdapter => Drops(0, 1, 0, 1, 0)
    case Board(source, rawSlug) =>
      Drops(0, 1, 0, 0, if InScope(only, source) && ad.normalize(source, rawSlug) == None then 1 else 0)
  }

  function One(c: Option<Candidate>): seq<Candidate> { if c.None? then [] else [c.value] }

  function LinkCandidates(ad: Adapters, only: Option<string>, links: seq<string>): seq<Candidate> {
    if links == [] then []
    else
      LinkCandidates(ad, only, links[..|links| - 1]) + One(CandidateOf(ad, only, links[|links| - 1]))
  }

  function LinkDrops(ad: Adapters, only: Option<string>, links: seq<string>): Drops {
    if links == [] then NO_DROPS
    else AddDrops(LinkDrops(ad, only, links[..|links| - 1]), DropOf(ad, only, links[|links| - 1]))
  }

  /** Every candidate of the records, repeats included. */
  function AllCandidates(ad: Adapters, only: Option<string>, records: seq<SeedRecord>): seq<Candidate> {
    if records == [] then []
    else
      AllCandidates(ad, only, records[..|records| - 1]) + LinkCandidates(ad, only, records[|records| - 1].links)
  }

  function AllDrops(ad: Adapters, only: Option<string>, records: seq<SeedRecord>): Drops {
    if records == [] then NO_DROPS
    else
      AddDrops(AllDrops(ad, only, records[..|records| - 1]),
               AddDrops(Drops(1, 0, 0, 0, 0), LinkDrops(ad, only, records[|records| - 1].links)))
  }

  // ---------- Keeping the first of each key ----------

  function KeyOf(ad: Adapters, c: Candidate): Key { KeyFor(ad, c.source, c.slug) }

  function KeysOf(ad: Adapters, cs: seq<Candidate>): set<Key> {
    if cs == [] then {} else {KeyOf(ad, cs[0])} + KeysOf(ad, cs[1..])
  }

  lemma {:induction false} KeysAreKeys(ad: Adapters, cs: seq<Candidate>, k: Key)
    ensures k in KeysOf(ad, cs) <==> exists i :: 0 <= i < |cs| && KeyOf(ad, cs[i]) == k
  {
    if cs != [] {
      KeysAreKeys(ad, cs[1..], k);
      if i :| 0 <= i < |cs| && KeyOf(ad, cs[i]) == k && i > 0 { assert KeyOf(ad, cs[1..][i - 1]) == k; }
      if i :| 0 <= i < |cs[1..]| && KeyOf(ad, cs[1..][i]) == k { assert KeyOf(ad, cs[i + 1]) == k; }
    }
  }

  /** The candidates whose key stands neither in `seen` nor earlier in the list. */
  function Fresh(ad: Adapters, seen: set<Key>, cs: seq<Candidate>): seq<Candidate>
    decreases |cs|
  {
    if cs == [] then []
    else if KeyOf(ad, cs[0]) in seen then Fresh(ad, seen, cs[1..])
    else [cs[0]] + Fresh(ad, seen + {KeyOf(ad, cs[0])}, cs[1..])
  }

  lemma {:induction false} FreshJoins(ad: Adapters, seen: set<Key>, a: seq<Candidate>, b: seq<Candidate>)
    ensures Fresh(ad, seen, a + b) == Fresh(ad, seen, a) + Fresh(ad, seen + KeysOf(ad, a), b)
    decreases |a|
  {
    if a == [] {
      assert a + b == b && seen + KeysOf(ad, a) == seen;
    } else {
      var k := KeyOf(ad, a[0]);
      var next := if k in seen then seen else seen + {k};
      assert (a + b)[1..] == a[1..] + b;
      FreshJoins(ad, next, a[1..], b);
      assert next + KeysOf(ad, a[1..]) == seen + KeysOf(ad, a);
      if k !in seen {
        assert Fresh(ad, seen, a + b) == [a[0]] + (Fresh(ad, next, a[1..]) + Fresh(ad, seen + KeysOf(ad, a), b));
      }
    }
  }

  lemma {:induction false} FreshKeys(ad: Adapters, seen: set<Key>, a: seq<Candidate>)
    ensures seen + KeysOf(ad, Fresh(ad, seen, a)) == seen + KeysOf(ad, a)
    decreases |a|
  {
    if a != [] {
      var k := KeyOf(ad, a[0]);
      if k in seen {
        FreshKeys(ad, seen, a[1..]);
      } else {
        FreshKeys(ad, seen + {k}, a[1..]);
        var f := Fresh(ad, seen, a);
        assert f[1..] == Fresh(ad, seen + {k}, a[1..]);
      }
    }
  }

  /** Taking the first of each key twice is taking it once. */
  lemma {:induction false} FreshTwice(ad: Adapters, seen: set<Key>, more: set<Key>, a: seq<Candidate>)
    requires more <= seen
    ensures Fresh(ad, seen, Fresh(ad, more, a)) == Fresh(ad, seen, a)
    decreases |a|
  {
    if a != [] {
      var k := KeyOf(ad, a[0]);
      if k in more {
        FreshTwice(ad, seen, more, a[1..]);
      } else {
        var rest := Fresh(ad, more + {k}, a[1..]);
        assert Fresh(ad, more, a)[1..] == rest;
        if k in seen {
          FreshTwice(ad, seen, more + {k}, a[1..]);
        } else {
          FreshTwice(ad, seen + {k}, more + {k}, a[1..]);
        }
      }
    }
  }

  /** What one pass over the records yields. */
  function Resolved(ad: Adapters, only: Option<string>, records: seq<SeedRecord>): seq<Candidate> {
    Fresh(ad, {}, AllCandidates(ad, only, records))
  }

  predicate DistinctKeys(ad: Adapters, cs: seq<Candidate>) {
    forall i, j :: 0 <= i < j < |cs| ==> KeyOf(ad, cs[i]) != KeyOf(ad, cs[j])
  }

  predicate Among(ad: Adapters, fs: seq<Candidate>, cs: seq<Candidate>, seen: set<Key>) {
    forall i :: 0 <= i < |fs| ==> KeyOf(ad, fs[i]) !in seen && fs[i] in cs
  }

  /** What is kept has no key twice, none of `seen`, and comes from the list. */
  lemma {:induction false} FreshIsDistinct(ad: Adapters, seen: set<Key>, cs: seq<Candidate>)
    ensures DistinctKeys(ad, Fresh(ad, seen, cs)) && Among(ad, Fresh(ad, seen, cs), cs, seen)
    decreases |cs|
  {
    if cs != [] {
      var k := KeyOf(ad, cs[0]);
      var next := if k in seen then seen else seen + {k};
      var rest := Fresh(ad, next, cs[1..]);
      FreshIsDistinct(ad, next, cs[1..]);
      forall i | 0 <= i < |rest| ensures KeyOf(ad, rest[i]) !in next && rest[i] in cs { }
      assert Fresh(ad, seen, cs) == if k in seen then rest else [cs[0]] + rest;
    }
  }

  // ---------- resolveSeed ----------

  /** What one link adds to the candidates, given the keys so far. */
  function Taken(ad: Adapters, only: Option<string>, seen: set<Key>, link: string): seq<Candidate> {
    match CandidateOf(ad, only, link)
    case None => []
    case Some(c) => if KeyOf(ad, c) in seen then [] else [c]
  }

  method TakeLink(ad: Adapters, only: Option<string>, link: string, candidates: seq<Candidate>, seen: set<Key>, drops: Drops)
    returns (candidates': seq<Candidate>, seen': set<Key>, drops': Drops)
    ensures candidates' == candidates + Taken(ad, only, seen, link)
    ensures seen' == seen + KeysOf(ad, Taken(ad, only, seen, link))
    ensures drops' == AddDrops(drops, DropOf(ad, only, link))
  {
    candidates', seen', drops' := candidates, seen, drops;
    var look := ad.look(link);
    match look {
      case Blank =>
      case BadUrl => drops' := drops.(atsLinks := drops.atsLinks + 1, badUrl := drops.badUrl + 1);
      case NoAdapter => drops' := drops.(atsLinks := drops.atsLinks + 1, deferredNoAdapter := drops.deferredNoAdapter + 1);
      case Board(source, rawSlug) =>
        drops' := drops.(atsLinks := drops.atsLinks + 1);
        if InScope(only, source) {
          var slug := ad.normalize(source, rawSlug);
          if slug == None {
            drops' := drops'.(invalidSlug := drops.invalidSlug + 1);
          } else if KeyFor(ad, source, slug.value) !in seen {
            seen' := seen + {KeyFor(ad, source, slug.value)};
            candidates' := candidates + [Candidate(source, slug.value, rawSlug, link)];
          }
        }
    }
  }

  /** The loop's state after the candidates `all`, repeats included. */
  ghost predicate Scanned(ad: Adapters, all: seq<Candidate>, candidates: seq<Candidate>, seen: set<Key>) {
    candidates == Fresh(ad, {}, all) && seen == KeysOf(ad, all)
  }

  /** The first `j` links of a record are taken, after the candidates and the drops of those before it. */
  ghost predicate LinksTaken(ad: Adapters, only: Option<string>, before: seq<Candidate>, dropped: Drops, links: seq<string>,
                             j: nat, candidates: seq<Candidate>, seen: set<Key>, drops: Drops)
    requires j <= |links|
  {
    && Scanned(ad, before + LinkCandidates(ad, only, links[..j]), candidates, seen)
    && drops == AddDrops(dropped, LinkDrops(ad, only, links[..j]))
  }

  lemma NoLinksTaken(ad: Adapters, only: Option<string>, before: seq<Candidate>, dropped: Drops, links: seq<string>,
                     candidates: seq<Candidate>, seen: set<Key>)
    requires Scanned(ad, before, candidates, seen)
    ensures LinksTaken(ad, only, before, dropped, links, 0, candidates, seen, dropped)
  {
    assert before + LinkCandidates(ad, only, links[..0]) == before;
  }

  lemma LinkTaken(ad: Adapters, only: Option<string>, before: seq<Candidate>, dropped: Drops, links: seq<string>,
                  j: nat, candidates: seq<Candidate>, seen: set<Key>, drops: Drops)
    requires j < |links| && LinksTaken(ad, only, before, dropped, links, j, candidates, seen, drops)
    ensures var taken := Taken(ad, only, seen, links[j]);
      LinksTaken(ad, only, before, dropped, links, j + 1, candidates + taken, seen + KeysOf(ad, taken),
                 AddDrops(drops, DropOf(ad, only, links[j])))
  {
    LinkStep(ad, only, links, j);
    ScanLink(ad, only, before, links, j, candidates, seen);
  }

  lemma AllLinksTaken(ad: Adapters, only: Option<string>, before: seq<Candidate>, dropped: Drops, links: seq<string>,
                      candidates: seq<Candidate>, seen: set<Key>, drops: Drops)
    requires LinksTaken(ad, only, before, dropped, links, |links|, candidates, seen, drops)
    ensures Scanned(ad, before + LinkCandidates(ad, only, links), candidates, seen)
    ensures drops == AddDrops(dropped, LinkDrops(ad, only, links))
  {
    assert links[..|links|] == links;
  }

  method TakeLinks(ad: Adapters, only: Option<string>, links: seq<string>, candidates: seq<Candidate>, seen: set<Key>,
                   drops: Drops, ghost before: seq<Candidate>)
    returns (candidates': seq<Candidate>, seen': set<Key>, drops': Drops)
    requires Scanned(ad, before, candidates, seen)
    ensures Scanned(ad, before + LinkCandidates(ad, only, links), candidates', seen')
    ensures drops' == AddDrops(drops, LinkDrops(ad, only, links))
  {
    candidates', seen', drops' := candidates, seen, drops;
    NoLinksTaken(ad, only, before, drops, links, candidates, seen);
    for j := 0 to |links|
      invariant LinksTaken(ad, only, before, drops, links, j, candidates', seen', drops')
    {
      LinkTaken(ad, only, before, drops, links, j, candidates', seen', drops');
      candidates', seen', drops' := TakeLink(ad, only, links[j], candidates', seen', drops');
    }
    AllLinksTaken(ad, only, before, drops, links, candidates', seen', drops');
  }

  /** The records `a` are read. */
  ghost predicate RecordsRead(ad: Adapters, only: Option<string>, a: seq<SeedRecord>,
                              candidates: seq<Candidate>, seen: set<Key>, drops: Drops)
  {
    Scanned(ad, AllCandidates(ad, only, a), candidates, seen) && drops == AllDrops(ad, only, a)
  }

  lemma RecordRead(ad: Adapters, only: Option<string>, a: seq<SeedRecord>, r: SeedRecord, drops: Drops, added: Drops,
                   candidates: seq<Candidate>, seen: set<Key>)
    requires drops == AllDrops(ad, only, a)
    requires added == AddDrops(drops.(seedRecords := drops.seedRecords + 1), LinkDrops(ad, only, r.links))
    requires Scanned(ad, AllCandidates(ad, only, a) + LinkCandidates(ad, only, r.links), candidates, seen)
    ensures RecordsRead(ad, only, a + [r], candidates, seen, added)
  {
    AllStep(ad, only, a, r);
    DropsRegroup(drops, LinkDrops(ad, only, r.links));
  }

  lemma DropsRegroup(a: Drops, b: Drops)
    ensures AddDrops(a, AddDrops(Drops(1, 0, 0, 0, 0), b)) == AddDrops(a.(seedRecords := a.seedRecords + 1), b)
  {
  }

  method ResolveSeed(ad: Adapters, records: seq<SeedRecord>, only: Option<string>)
    returns (candidates: seq<Candidate>, drops: Drops)
    ensures candidates == Resolved(ad, only, records)
    ensures drops == AllDrops(ad, only, records)
  {
    candidates, drops := [], NO_DROPS;
    var seen: set<Key> := {};
    ghost var done: seq<SeedRecord> := [];
    for i := 0 to |records|
      invariant done == records[..i]
      invariant RecordsRead(ad, only, done, candidates, seen, drops)
    {
      candidates, seen, drops := TakeRecord(ad, only, records[i], candidates, seen, drops, done);
      done := done + [records[i]];
    }
    AllRead(ad, only, records, done, candidates, seen, drops);
  }

  lemma AllRead(ad: Adapters, only: Option<string>, records: seq<SeedRecord>, done: seq<SeedRecord>,
                candidates: seq<Candidate>, seen: set<Key>, drops: Drops)
    requires done == records[..|records|] && RecordsRead(ad, only, done, candidates, seen, drops)
    ensures candidates == Resolved(ad, only, records) && drops == AllDrops(ad, only, records)
  {
    assert done == records;
  }

  /** One record: counted, and its links taken. */
  method TakeRecord(ad: Adapters, only: Option<string>, record: SeedRecord, candidates: seq<Candidate>, seen: set<Key>,
                    drops: Drops, ghost done: seq<SeedRecord>)
    returns (candidates': seq<Candidate>, seen': set<Key>, drops': Drops)
    requires RecordsRead(ad, only, done, candidates, seen, drops)
    ensures RecordsRead(ad, only, done + [record], candidates', seen', drops')
  {
    ghost var before := AllCandidates(ad, only, done);
    drops' := drops.(seedRecords := drops.seedRecords + 1);
    candidates', seen', drops' := TakeLinks(ad, only, record.links, candidates, seen, drops', before);
    RecordRead(ad, only, done, record, drops, drops', candidates', seen');
  }

  lemma LinkStep(ad: Adapters, only: Option<string>, links: seq<string>, j: nat)
    requires j < |links|
    ensures LinkCandidates(ad, only, links[..j + 1]) == LinkCandidates(ad, only, links[..j]) + One(CandidateOf(ad, only, links[j]))
    ensures LinkDrops(ad, only, links[..j + 1]) == AddDrops(LinkDrops(ad, only, links[..j]), DropOf(ad, only, links[j]))
  {
    assert links[..j + 1][..j] == links[..j];
  }

  /** One more link: at most one more candidate, kept when its key is new. */
  lemma ScanOne(ad: Adapters, only: Option<string>, cs: seq<Candidate>, link: string, candidates: seq<Candidate>, seen: set<Key>)
    requires Scanned(ad, cs, candidates, seen)
    ensures var taken := Taken(ad, only, seen, link);
      Scanned(ad, cs + One(CandidateOf(ad, only, link)), candidates + taken, seen + KeysOf(ad, taken))
  {
    match CandidateOf(ad, only, link)
    case None => assert cs + [] == cs;
    case Some(c) =>
      FreshJoins(ad, {}, cs, [c]);
      JoinKeys(ad, cs, [c]);
      assert {} + KeysOf(ad, cs) == KeysOf(ad, cs);
  }

  lemma ScanLink(ad: Adapters, only: Option<string>, before: seq<Candidate>, links: seq<string>, j: nat,
                 candidates: seq<Candidate>, seen: set<Key>)
    requires j < |links| && Scanned(ad, before + LinkCandidates(ad, only, links[..j]), candidates, seen)
    ensures var taken := Taken(ad, only, seen, links[j]);
      Scanned(ad, before + LinkCandidates(ad, only, links[..j + 1]), candidates + taken, seen + KeysOf(ad, taken))
  {
    var cs := LinkCandidates(ad, only, links[..j]);
    LinkStep(ad, only, links, j);
    Regroup(before, cs, One(CandidateOf(ad, only, links[j])));
    ScanOne(ad, only, before + cs, links[j], candidates, seen);
  }

  // ---------- resolveLanes ----------

  /** A lane's fetch came back with records, or failed. */
  datatype Lane = Lane(name: string, failLoud: bool, records: Option<seq<SeedRecord>>)

  /** The records of the lanes that fetched, end to end. */
  function Fetched(lanes: seq<Lane>): seq<SeedRecord> {
    if lanes == [] then []
    else Fetched(lanes[..|lanes| - 1]) + match lanes[|lanes| - 1].records case None => [] case Some(rs) => rs
  }

  predicate FailsLoud(lane: Lane) { lane.failLoud && lane.records.None? }

  lemma Regroup<T>(a: seq<T>, b: seq<T>, c: seq<T>)
    ensures a + (b + c) == a + b + c
  {
  }

  lemma AllStep(ad: Adapters, only: Option<string>, records: seq<SeedRecord>, r: SeedRecord)
    ensures AllCandidates(ad, only, records + [r]) == AllCandidates(ad, only, records) + LinkCandidates(ad, only, r.links)
    ensures AllDrops(ad, only, records + [r]) ==
      AddDrops(AllDrops(ad, only, records), AddDrops(Drops(1, 0, 0, 0, 0), LinkDrops(ad, only, r.links)))
  {
    assert (records + [r])[..|records|] == records;
  }

  lemma Appended<T>(a: seq<T>, b: seq<T>)
    requires b != []
    ensures b == b[..|b| - 1] + [b[|b| - 1]] && a + b == a + b[..|b| - 1] + [b[|b| - 1]]
  {
  }

  lemma {:induction false} DropsJoin(ad: Adapters, only: Option<string>, a: seq<SeedRecord>, b: seq<SeedRecord>)
    ensures AllDrops(ad, only, a + b) == AddDrops(AllDrops(ad, only, a), AllDrops(ad, only, b))
  {
    if b == [] {
      assert a + b == a;
    } else {
      Appended(a, b);
      DropsJoin(ad, only, a, b[..|b| - 1]);
      AllStep(ad, only, a + b[..|b| - 1], b[|b| - 1]);
      AllStep(ad, only, b[..|b| - 1], b[|b| - 1]);
    }
  }

  lemma {:induction false} CandidatesJoin(ad: Adapters, only: Option<string>, a: seq<SeedRecord>, b: seq<SeedRecord>)
    ensures AllCandidates(ad, only, a + b) == AllCandidates(ad, only, a) + AllCandidates(ad, only, b)
  {
    if b == [] {
      assert a + b == a;
    } else {
      Appended(a, b);
      CandidatesJoin(ad, only, a, b[..|b| - 1]);
      AllStep(ad, only, a + b[..|b| - 1], b[|b| - 1]);
      AllStep(ad, only, b[..|b| - 1], b[|b| - 1]);
      Regroup(AllCandidates(ad, only, a), AllCandidates(ad, only, b[..|b| - 1]), LinkCandidates(ad, only, b[|b| - 1].links));
    }
  }

  /** Firsts merged with firsts are the firsts of both. */
  lemma FreshMerges(ad: Adapters, a: seq<Candidate>, b: seq<Candidate>)
    ensures Fresh(ad, {}, a + b) == Fresh(ad, {}, a) + Fresh(ad, KeysOf(ad, Fresh(ad, {}, a)), Fresh(ad, {}, b))
  {
    FreshJoins(ad, {}, a, b);
    FreshKeys(ad, {}, a);
    assert {} + KeysOf(ad, a) == KeysOf(ad, a);
    assert {} + KeysOf(ad, Fresh(ad, {}, a)) == KeysOf(ad, Fresh(ad, {}, a));
    FreshTwice(ad, KeysOf(ad, a), {}, b);
  }

  /** One lane merged in: its own firsts, less what earlier lanes already gave, are the firsts of it all. */
  lemma LaneMerges(ad: Adapters, only: Option<string>, before: seq<SeedRecord>, records: seq<SeedRecord>)
    ensures Resolved(ad, only, before + records) ==
      Resolved(ad, only, before) + Fresh(ad, KeysOf(ad, Resolved(ad, only, before)), Resolved(ad, only, records))
  {
    CandidatesJoin(ad, only, before, records);
    FreshMerges(ad, AllCandidates(ad, only, before), AllCandidates(ad, only, records));
  }

  method MergeLane(ad: Adapters, lane: seq<Candidate>, candidates: seq<Candidate>, seen: set<Key>)
    returns (candidates': seq<Candidate>, seen': set<Key>)
    requires seen == KeysOf(ad, candidates)
    ensures candidates' == candidates + Fresh(ad, seen, lane)
    ensures seen' == KeysOf(ad, candidates')
  {
    candidates', seen' := candidates, seen;
    assert lane[..0] == [];
    for i := 0 to |lane|
      invariant candidates' == candidates + Fresh(ad, seen, lane[..i])
      invariant seen' == KeysOf(ad, candidates') == seen + KeysOf(ad, lane[..i])
    {
      var c := lane[i];
      assert lane[..i + 1] == lane[..i] + [c];
      FreshJoins(ad, seen, lane[..i], [c]);
      JoinKeys(ad, lane[..i], [c]);
      JoinKeys(ad, candidates', [c]);
      if KeyOf(ad, c) !in seen' {
        seen' := seen' + {KeyOf(ad, c)};
        candidates' := candidates' + [c];
      }
    }
    assert lane[..|lane|] == lane;
  }

  lemma {:induction false} JoinKeys(ad: Adapters, a: seq<Candidate>, b: seq<Candidate>)
    ensures KeysOf(ad, a + b) == KeysOf(ad, a) + KeysOf(ad, b)
  {
    if a == [] {
      assert a + b == b;
    } else {
      assert (a + b)[1..] == a[1..] + b;
      JoinKeys(ad, a[1..], b);
    }
  }

  /** The lanes before the `i`-th are merged, as one pass over their records would have it. */
  ghost predicate LanesMerged(ad: Adapters, only: Option<string>, lanes: seq<Lane>, i: nat,
                              candidates: seq<Candidate>, seen: set<Key>, drops: Drops)
    requires i <= |lanes|
  {
    var records := Fetched(lanes[..i]);
    candidates == Resolved(ad, only, records) && seen == KeysOf(ad, candidates) && drops == AllDrops(ad, only, records)
  }

  lemma LaneMerged(ad: Adapters, only: Option<string>, lanes: seq<Lane>, i: nat,
                   candidates: seq<Candidate>, seen: set<Key>, drops: Drops)
    requires i < |lanes| && LanesMerged(ad, only, lanes, i, candidates, seen, drops) && lanes[i].records.Some?
    ensures var records := lanes[i].records.value;
      var all := candidates + Fresh(ad, seen, Resolved(ad, only, records));
      LanesMerged(ad, only, lanes, i + 1, all, KeysOf(ad, all), AddDrops(drops, AllDrops(ad, only, records)))
  {
    var before, records := Fetched(lanes[..i]), lanes[i].records.value;
    assert lanes[..i + 1][..i] == lanes[..i];
    assert Fetched(lanes[..i + 1]) == before + records;
    DropsJoin(ad, only, before, records);
    LaneMerges(ad, only, before, records);
  }

  lemma LaneSkipped(ad: Adapters, only: Option<string>, lanes: seq<Lane>, i: nat,
                    candidates: seq<Candidate>, seen: set<Key>, drops: Drops)
    requires i < |lanes| && LanesMerged(ad, only, lanes, i, candidates, seen, drops) && lanes[i].records.None?
    ensures LanesMerged(ad, only, lanes, i + 1, candidates, seen, drops)
  {
    assert lanes[..i + 1][..i] == lanes[..i];
    assert Fetched(lanes[..i + 1]) == Fetched(lanes[..i]);
  }

  // ---------- What each lane is credited with ----------

  /** Candidates and failed fetches by lane name. */
  datatype Tallies = Tallies(candidates: map<string, nat>, errors: map<string, nat>)

  function Bump(m: map<string, nat>, name: string, n: nat): map<string, nat> {
    m[name := n + if name in m then m[name] else 0]
  }

  /** What one lane is credited with: a failed fetch, or the candidates it was the first to give. */
  datatype Credit = Credit(name: string, failed: bool, count: nat)

  function CreditOf(ad: Adapters, only: Option<string>, before: seq<SeedRecord>, lane: Lane): Credit {
    match lane.records
    case None => Credit(lane.name, true, 1)
    case Some(records) => Credit(lane.name, false, |Fresh(ad, KeysOf(ad, Resolved(ad, only, before)), Resolved(ad, only, records))|)
  }

  function Credits(ad: Adapters, only: Option<string>, lanes: seq<Lane>): seq<Credit> {
    if lanes == [] then []
    else
      var init := lanes[..|lanes| - 1];
      Credits(ad, only, init) + [CreditOf(ad, only, Fetched(init), lanes[|lanes| - 1])]
  }

  /** The credits of one name and kind, added up. */
  function Credited(credits: seq<Credit>, name: string, failed: bool): nat {
    if credits == [] then 0
    else
      var last := credits[|credits| - 1];
      Credited(credits[..|credits| - 1], name, failed) + if last.name == name && last.failed == failed then last.count else 0
  }

  predicate HasCredit(credits: seq<Credit>, name: string, failed: bool) {
    exists i :: 0 <= i < |credits| && credits[i].name == name && credits[i].failed == failed
  }

  ghost predicate TalliedFor(credits: seq<Credit>, m: map<string, nat>, failed: bool) {
    && (forall name :: name in m <==> HasCredit(credits, name, failed))
    && (forall name :: name in m ==> m[name] == Credited(credits, name, failed))
  }

  /** A name is tallied exactly when a lane bears it, with all that lanes of that name are credited with. */
  ghost predicate Tallied(credits: seq<Credit>, t: Tallies) {
    TalliedFor(credits, t.candidates, false) && TalliedFor(credits, t.errors, true)
  }

  lemma {:induction false} NothingCredited(credits: seq<Credit>, name: string, failed: bool)
    requires !HasCredit(credits, name, failed)
    ensures Credited(credits, name, failed) == 0
  {
    if credits != [] {
      var init := credits[..|credits| - 1];
      assert forall i :: 0 <= i < |init| ==> init[i] == credits[i];
      NothingCredited(init, name, failed);
    }
  }

  lemma MoreCredit(credits: seq<Credit>, c: Credit, name: string, failed: bool)
    ensures Credited(credits + [c], name, failed)
      == Credited(credits, name, failed) + if c.name == name && c.failed == failed then c.count else 0
    ensures HasCredit(credits + [c], name, failed) <==> HasCredit(credits, name, failed) || (c.name == name && c.failed == failed)
  {
    var all := credits + [c];
    assert all[..|credits|] == credits;
    if HasCredit(credits, name, failed) {
      var i :| 0 <= i < |credits| && credits[i].name == name && credits[i].failed == failed;
      assert all[i] == credits[i];
    }
    assert all[|credits|] == c;
  }

  lemma CreditTallied(credits: seq<Credit>, c: Credit, m: map<string, nat>, failed: bool)
    requires TalliedFor(credits, m, failed)
    ensures TalliedFor(credits + [c], if c.failed == failed then Bump(m, c.name, c.count) else m, failed)
  {
    forall name
      ensures Credited(credits + [c], name, failed)
        == Credited(credits, name, failed) + if c.name == name && c.failed == failed then c.count else 0
      ensures HasCredit(credits + [c], name, failed) <==> HasCredit(credits, name, failed) || (c.name == name && c.failed == failed)
    {
      MoreCredit(credits, c, name, failed);
    }
    if !HasCredit(credits, c.name, failed) { NothingCredited(credits, c.name, failed); }
  }

  lemma LaneCredited(ad: Adapters, only: Option<string>, lanes: seq<Lane>, i: nat)
    requires i < |lanes|
    ensures Credits(ad, only, lanes[..i + 1]) == Credits(ad, only, lanes[..i]) + [CreditOf(ad, only, Fetched(lanes[..i]), lanes[i])]
  {
    assert lanes[..i + 1][..i] == lanes[..i];
  }

  /** Candidates credited under any name. */
  function AllCredited(credits: seq<Credit>): nat {
    if credits == [] then 0
    else AllCredited(credits[..|credits| - 1]) + if credits[|credits| - 1].failed then 0 else credits[|credits| - 1].count
  }

  /** Every candidate is credited to exactly one lane: what the lanes are credited with adds up to all of them. */
  lemma {:induction false} CreditsAddUp(ad: Adapters, only: Option<string>, lanes: seq<Lane>)
    ensures AllCredited(Credits(ad, only, lanes)) == |Resolved(ad, only, Fetched(lanes))|
  {
    if lanes == [] {
      assert Resolved(ad, only, []) == [];
    } else {
      var n := |lanes| - 1;
      var init, lane := lanes[..n], lanes[n];
      var credits := Credits(ad, only, init);
      CreditsAddUp(ad, only, init);
      assert (credits + [CreditOf(ad, only, Fetched(init), lane)])[..|credits|] == credits;
      if lane.records.Some? {
        LaneMerges(ad, only, Fetched(init), lane.records.value);
      } else {
        assert Fetched(lanes) == Fetched(init);
      }
    }
  }

  /** The lanes before the `i`-th are merged and tallied. */
  ghost predicate LanesDone(ad: Adapters, only: Option<string>, lanes: seq<Lane>, i: nat,
                            candidates: seq<Candidate>, seen: set<Key>, drops: Drops, t: Tallies)
    requires i <= |lanes|
  {
    LanesMerged(ad, only, lanes, i, candidates, seen, drops) && Tallied(Credits(ad, only, lanes[..i]), t)
  }

  lemma Begun(ad: Adapters, only: Option<string>, lanes: seq<Lane>)
    ensures LanesDone(ad, only, lanes, 0, [], {}, NO_DROPS, Tallies(map[], map[]))
  {
    assert lanes[..0] == [];
  }

  lemma FetchedDone(ad: Adapters, only: Option<string>, lanes: seq<Lane>, i: nat,
                    candidates: seq<Candidate>, seen: set<Key>, drops: Drops, t: Tallies)
    requires i < |lanes| && LanesDone(ad, only, lanes, i, candidates, seen, drops, t) && lanes[i].records.Some?
    ensures var records := lanes[i].records.value;
      var more := Fresh(ad, seen, Resolved(ad, only, records));
      LanesDone(ad, only, lanes, i + 1, candidates + more, KeysOf(ad, candidates + more),
                AddDrops(drops, AllDrops(ad, only, records)), t.(candidates := Bump(t.candidates, lanes[i].name, |more|)))
  {
    var credits, credit := Credits(ad, only, lanes[..i]), CreditOf(ad, only, Fetched(lanes[..i]), lanes[i]);
    LaneMerged(ad, only, lanes, i, candidates, seen, drops);
    LaneCredited(ad, only, lanes, i);
    CreditTallied(credits, credit, t.candidates, false);
    CreditTallied(credits, credit, t.errors, true);
  }

  lemma FailedDone(ad: Adapters, only: Option<string>, lanes: seq<Lane>, i: nat,
                   candidates: seq<Candidate>, seen: set<Key>, drops: Drops, t: Tallies)
    requires i < |lanes| && LanesDone(ad, only, lanes, i, candidates, seen, drops, t) && lanes[i].records.None?
    ensures LanesDone(ad, only, lanes, i + 1, candidates, seen, drops, t.(errors := Bump(t.errors, lanes[i].name, 1)))
  {
    var credits, credit := Credits(ad, only, lanes[..i]), CreditOf(ad, only, Fetched(lanes[..i]), lanes[i]);
    LaneSkipped(ad, only, lanes, i, candidates, seen, drops);
    LaneCredited(ad, only, lanes, i);
    CreditTallied(credits, credit, t.candidates, false);
    CreditTallied(credits, credit, t.errors, true);
  }

  /** One fetched lane: its own firsts merged in and credited to it. */
  method TakeLane(ad: Adapters, only: Option<string>, lanes: seq<Lane>, i: nat,
                  candidates: seq<Candidate>, seen: set<Key>, drops: Drops, tallies: Tallies)
    returns (candidates': seq<Candidate>, seen': set<Key>, drops': Drops, tallies': Tallies)
    requires i < |lanes| && LanesDone(ad, only, lanes, i, candidates, seen, drops, tallies) && lanes[i].records.Some?
    ensures LanesDone(ad, only, lanes, i + 1, candidates', seen', drops', tallies')
  {
    FetchedDone(ad, only, lanes, i, candidates, seen, drops, tallies);
    var own, dropped := ResolveSeed(ad, lanes[i].records.value, only);
    drops' := AddDrops(drops, dropped);
    candidates', seen' := MergeLane(ad, own, candidates, seen);
    tallies' := tallies.(candidates := Bump(tallies.candidates, lanes[i].name, |candidates'| - |candidates|));
  }

  lemma AllDone(ad: Adapters, only: Option<string>, lanes: seq<Lane>,
                candidates: seq<Candidate>, seen: set<Key>, drops: Drops, t: Tallies)
    requires LanesDone(ad, only, lanes, |lanes|, candidates, seen, drops, t)
    ensures candidates == Resolved(ad, only, Fetched(lanes)) && drops == AllDrops(ad, only, Fetched(lanes))
    ensures Tallied(Credits(ad, only, lanes), t)
  {
    assert lanes[..|lanes|] == lanes;
  }

  /** Over the lanes that fetched, the candidates, their order and the drop counts are those of one pass over their
      records end to end, and each lane is credited with those it was the first to give; only a failed lane that fails
      loud ends the run, tallied too. */
  method ResolveLanes(ad: Adapters, lanes: seq<Lane>, only: Option<string>)
    returns (r: Result<(seq<Candidate>, Drops), string>, tallies: Tallies)
    ensures r.Err? <==> exists i :: 0 <= i < |lanes| && FailsLoud(lanes[i])
    ensures r.Ok? ==> r.value == (Resolved(ad, only, Fetched(lanes)), AllDrops(ad, only, Fetched(lanes)))
    ensures r.Ok? ==> Tallied(Credits(ad, only, lanes), tallies)
    ensures r.Err? ==> exists i :: 0 <= i < |lanes| && FailsLoud(lanes[i]) && Tallied(Credits(ad, only, lanes[..i + 1]), tallies)
  {
    var candidates: seq<Candidate>, seen: set<Key>, drops := [], {}, NO_DROPS;
    tallies := Tallies(map[], map[]);
    Begun(ad, only, lanes);
    for i := 0 to |lanes|
      invariant forall k :: 0 <= k < i ==> !FailsLoud(lanes[k])
      invariant LanesDone(ad, only, lanes, i, candidates, seen, drops, tallies)
    {
      var lane := lanes[i];
      if lane.records.None? {
        FailedDone(ad, only, lanes, i, candidates, seen, drops, tallies);
        tallies := tallies.(errors := Bump(tallies.errors, lane.name, 1));
        if lane.failLoud { return Err(lane.name), tallies; }
      } else {
        candidates, seen, drops, tallies := TakeLane(ad, only, lanes, i, candidates, seen, drops, tallies);
      }
    }
    AllDone(ad, only, lanes, candidates, seen, drops, tallies);
    r := Ok((candidates, drops));
  }
}
