// Ranking quality: binary-gain NDCG (packages/eval/src/metrics.ts) and the permutation guard before it
// (packages/eval/src/runner.ts). The discount 1 / log2(position + 2) is any positive, strictly falling function.
module Ndcg {
  import opened Basics
  import opened Sorting

  type Discount = nat -> real

  ghost predicate Falling(d: Discount) {
    && (forall i: nat :: d(i) > 0.0)
    && (forall i: nat, j: nat :: i < j ==> d(j) < d(i))
  }

  /** Precision, recall and NDCG at k; None stands for NaN. */
  datatype Metrics = Metrics(k: nat, precision: real, recall: Option<real>, ndcg: Option<real>)

  function Hits(ranked: seq<int>, good: set<int>, n: nat): nat
    requires n <= |ranked|
  {
    if n == 0 then 0 else Hits(ranked, good, n - 1) + if ranked[n - 1] in good then 1 else 0
  }

  /** The discounted gain of the first n positions. */
  function Dcg(ranked: seq<int>, good: set<int>, d: Discount, n: nat): real
    requires n <= |ranked|
  {
    if n == 0 then 0.0 else Dcg(ranked, good, d, n - 1) + if ranked[n - 1] in good then d(n - 1) else 0.0
  }

  /** The gain of m relevant items at the top. */
  function Ideal(d: Discount, m: nat): real {
    if m == 0 then 0.0 else Ideal(d, m - 1) + d(m - 1)
  }

  function ToSet(xs: seq<int>): set<int> { set x | x in xs }

  function Score(ranked: seq<int>, good: set<int>, d: Discount, k: nat): Metrics {
    var n := Min(k, |ranked|);
    var hits, dcg, idcg := Hits(ranked, good, n), Dcg(ranked, good, d, n), Ideal(d, Min(k, |good|));
    Metrics(k,
            if n == 0 then 0.0 else hits as real / n as real,
            if |good| == 0 then None else Some(hits as real / |good| as real),
            if idcg == 0.0 then None else Some(dcg / idcg))
  }

  method ScoreRanking(ranked: seq<int>, good: seq<int>, d: Discount, k: nat) returns (m: Metrics)
    ensures m == Score(ranked, ToSet(good), d, k)
  {
    var goodSet := ToSet(good);
    var topK := ranked[..Min(k, |ranked|)];
    var denom := Min(k, |ranked|);
    var hits: nat, dcg := 0, 0.0;
    for i := 0 to |topK|
      invariant hits == Hits(ranked, goodSet, i) && dcg == Dcg(ranked, goodSet, d, i)
    {
      if topK[i] in goodSet {
        hits := hits + 1;
        dcg := dcg + d(i);
      }
    }
    var idealHits := Min(k, |goodSet|);
    var idcg := 0.0;
    for i := 0 to idealHits
      invariant idcg == Ideal(d, i)
    {
      idcg := idcg + d(i);
    }
    m := Metrics(k,
                 if denom == 0 then 0.0 else hits as real / denom as real,
                 if |goodSet| == 0 then None else Some(hits as real / |goodSet| as real),
                 if idcg == 0.0 then None else Some(dcg / idcg));
  }

  // ---------- Hits ----------

  /** The relevant ids among the first n, as a set: without repeats, one per hit. */
  lemma {:induction false} HitsCount(ranked: seq<int>, good: set<int>, n: nat) returns (found: set<int>)
    requires NoDuplicates(ranked) && n <= |ranked|
    ensures found <= good && |found| == Hits(ranked, good, n)
    ensures forall x :: x in found ==> exists i :: 0 <= i < n && ranked[i] == x
  {
    found := {};
    if n > 0 {
      var before := HitsCount(ranked, good, n - 1);
      found := before;
      if ranked[n - 1] in good { found := before + {ranked[n - 1]}; }
    }
  }

  lemma HitsFit(ranked: seq<int>, good: set<int>, n: nat)
    requires NoDuplicates(ranked) && n <= |ranked|
    ensures Hits(ranked, good, n) <= Min(n, |good|)
  {
    var found := HitsCount(ranked, good, n);
    SubsetSize(found, good);
    HitsAtMost(ranked, good, n);
  }

  lemma {:induction false} HitsAtMost(ranked: seq<int>, good: set<int>, n: nat)
    requires n <= |ranked|
    ensures Hits(ranked, good, n) <= n
  {
    if n > 0 { HitsAtMost(ranked, good, n - 1); }
  }

  lemma SubsetSize(a: set<int>, b: set<int>)
    requires a <= b
    ensures |a| <= |b|
  {
    assert b == a + (b - a);
  }

  // ---------- The bound ----------

  lemma {:induction false} IdealGrows(d: Discount, m: nat, n: nat)
    requires Falling(d) && m <= n
    ensures Ideal(d, m) <= Ideal(d, n) && (m < n ==> Ideal(d, m) < Ideal(d, n))
  {
    if m < n { IdealGrows(d, m, n - 1); }
  }

  /** As many hits as there are could not gain more than at the top. */
  lemma {:induction false} GainIsBounded(ranked: seq<int>, good: set<int>, d: Discount, n: nat)
    requires Falling(d) && n <= |ranked|
    ensures Dcg(ranked, good, d, n) <= Ideal(d, Hits(ranked, good, n))
  {
    if n > 0 {
      GainIsBounded(ranked, good, d, n - 1);
      HitsAtMost(ranked, good, n - 1);
      var h := Hits(ranked, good, n - 1);
      assert h < n - 1 ==> d(n - 1) < d(h);
    }
  }

  /** And gain as much only when they are at the top. */
  lemma {:induction false} FullGainIsTop(ranked: seq<int>, good: set<int>, d: Discount, n: nat)
    requires Falling(d) && n <= |ranked|
    requires Dcg(ranked, good, d, n) == Ideal(d, Hits(ranked, good, n))
    ensures Hits(ranked, good, n) <= n && forall i :: 0 <= i < Hits(ranked, good, n) ==> ranked[i] in good
  {
    HitsAtMost(ranked, good, n);
    if n > 0 {
      GainIsBounded(ranked, good, d, n - 1);
      HitsAtMost(ranked, good, n - 1);
      var h := Hits(ranked, good, n - 1);
      assert h < n - 1 ==> d(n - 1) < d(h);
      FullGainIsTop(ranked, good, d, n - 1);
    }
  }

  lemma {:induction false} TopGains(ranked: seq<int>, good: set<int>, d: Discount, m: nat, n: nat)
    requires Falling(d) && m <= n <= |ranked| && forall i :: 0 <= i < m ==> ranked[i] in good
    ensures Dcg(ranked, good, d, n) >= Ideal(d, m)
  {
    if n > 0 {
      if m == n { TopGains(ranked, good, d, m - 1, n - 1); } else { TopGains(ranked, good, d, m, n - 1); }
      assert d(n - 1) > 0.0;
    }
  }

  /** DCG never exceeds IDCG. */
  lemma DcgIsAtMostIdcg(ranked: seq<int>, good: set<int>, d: Discount, k: nat)
    requires Falling(d) && NoDuplicates(ranked)
    ensures Dcg(ranked, good, d, Min(k, |ranked|)) <= Ideal(d, Min(k, |good|))
  {
    var n := Min(k, |ranked|);
    GainIsBounded(ranked, good, d, n);
    HitsFit(ranked, good, n);
    IdealGrows(d, Hits(ranked, good, n), Min(k, |good|));
  }

  /** They are equal exactly when every position an ideal ranking fills holds a relevant id. */
  lemma DcgIsIdcg(ranked: seq<int>, good: set<int>, d: Discount, k: nat)
    requires Falling(d) && NoDuplicates(ranked)
    ensures var m := Min(k, |good|);
      Dcg(ranked, good, d, Min(k, |ranked|)) == Ideal(d, m) <==>
        m <= |ranked| && forall i :: 0 <= i < m ==> ranked[i] in good
  {
    var n, m := Min(k, |ranked|), Min(k, |good|);
    var h := Hits(ranked, good, n);
    GainIsBounded(ranked, good, d, n);
    HitsFit(ranked, good, n);
    IdealGrows(d, h, m);
    DcgIsAtMostIdcg(ranked, good, d, k);
    if Dcg(ranked, good, d, n) == Ideal(d, m) {
      FullGainIsTop(ranked, good, d, n);
    }
    if m <= |ranked| && forall i :: 0 <= i < m ==> ranked[i] in good {
      TopGains(ranked, good, d, m, n);
    }
  }

  lemma Quotient(a: real, b: real)
    requires 0.0 < b && 0.0 <= a <= b
    ensures 0.0 <= a / b <= 1.0 && (a / b == 1.0 <==> a == b)
  {
    var q := a / b;
    assert q * b == a;
    assert q > 1.0 ==> q * b > b;
    assert q < 0.0 ==> q * b < 0.0;
  }

  lemma {:induction false} DcgIsPositive(ranked: seq<int>, good: set<int>, d: Discount, n: nat)
    requires Falling(d) && n <= |ranked|
    ensures Dcg(ranked, good, d, n) >= 0.0
  {
    if n > 0 { DcgIsPositive(ranked, good, d, n - 1); assert d(n - 1) > 0.0; }
  }

  /** NDCG is undefined exactly without an ideal hit; otherwise it lies in [0, 1], and is 1 exactly when the first
      min(k, relevant) positions are all relevant. */
  lemma NdcgBound(ranked: seq<int>, good: set<int>, d: Discount, k: nat)
    requires Falling(d) && NoDuplicates(ranked)
    ensures var (m, ndcg) := (Min(k, |good|), Score(ranked, good, d, k).ndcg);
      && (ndcg.None? <==> m == 0)
      && (ndcg.Some? ==> 0.0 <= ndcg.value <= 1.0)
      && (ndcg.Some? ==>
        (ndcg.value == 1.0 <==> m <= |ranked| && forall i :: 0 <= i < m ==> ranked[i] in good))
  {
    var m := Min(k, |good|);
    IdealGrows(d, 0, m);
    if m > 0 {
      DcgIsPositive(ranked, good, d, Min(k, |ranked|));
      DcgIsAtMostIdcg(ranked, good, d, k);
      DcgIsIdcg(ranked, good, d, k);
      Quotient(Dcg(ranked, good, d, Min(k, |ranked|)), Ideal(d, m));
    }
  }

  // ---------- Moving a relevant id forward ----------

  function Swap(ranked: seq<int>, p: nat): (s: seq<int>)
    requires p + 1 < |ranked|
    ensures |s| == |ranked|
  {
    ranked[p := ranked[p + 1]][p + 1 := ranked[p]]
  }

  /** The id at `j` moved to the earlier place `i`, those between one place later. */
  function MoveUp(ranked: seq<int>, j: nat, i: nat): (s: seq<int>)
    requires i <= j < |ranked|
    ensures |s| == |ranked|
    decreases j
  {
    if i == j then ranked else MoveUp(Swap(ranked, j - 1), j - 1, i)
  }

  lemma {:induction false} MoveUpIsMove(ranked: seq<int>, j: nat, i: nat)
    requires i <= j < |ranked|
    ensures MoveUp(ranked, j, i) == ranked[..i] + [ranked[j]] + ranked[i..j] + ranked[j + 1..]
    decreases j
  {
    if i < j { MoveUpIsMove(Swap(ranked, j - 1), j - 1, i); }
  }

  lemma {:induction false} SwapGains(ranked: seq<int>, good: set<int>, d: Discount, p: nat, n: nat)
    requires Falling(d) && p + 1 < |ranked| && n <= |ranked| && ranked[p + 1] in good
    ensures Dcg(Swap(ranked, p), good, d, n) >= Dcg(ranked, good, d, n)
    ensures n != p + 1 && (n <= p || ranked[p] in good) ==> Dcg(Swap(ranked, p), good, d, n) == Dcg(ranked, good, d, n)
  {
    if n > 0 {
      SwapGains(ranked, good, d, p, n - 1);
      assert d(p) > d(p + 1) > 0.0;
      if n == p + 2 {
        var s := Swap(ranked, p);
        SwapGains(ranked, good, d, p, p);
        assert Dcg(s, good, d, n) == Dcg(s, good, d, p) + d(p) + if ranked[p] in good then d(p + 1) else 0.0;
        assert Dcg(ranked, good, d, n) == Dcg(ranked, good, d, p) + (if ranked[p] in good then d(p) else 0.0) + d(p + 1);
      }
    }
  }

  /** Moving a relevant id ahead of others, relevant or not, never lowers the gain at any cutoff. */
  lemma {:induction false} MovingUpGains(ranked: seq<int>, good: set<int>, d: Discount, j: nat, i: nat, n: nat)
    requires Falling(d) && i <= j < |ranked| && n <= |ranked| && ranked[j] in good
    ensures Dcg(MoveUp(ranked, j, i), good, d, n) >= Dcg(ranked, good, d, n)
    decreases j
  {
    if i < j {
      SwapGains(ranked, good, d, j - 1, n);
      MovingUpGains(Swap(ranked, j - 1), good, d, j - 1, i, n);
    }
  }

  /** So neither does it lower the NDCG. */
  lemma MovingUpKeepsNdcg(ranked: seq<int>, good: set<int>, d: Discount, j: nat, i: nat, k: nat)
    requires Falling(d) && i <= j < |ranked| && ranked[j] in good
    ensures var (before, after) := (Score(ranked, good, d, k).ndcg, Score(MoveUp(ranked, j, i), good, d, k).ndcg);
      if before.None? then after.None? else after.Some? && after.value >= before.value
  {
    var m := Min(k, |good|);
    var n := Min(k, |ranked|);
    IdealGrows(d, 0, m);
    MovingUpGains(ranked, good, d, j, i, n);
    if Ideal(d, m) > 0.0 { Divided(Dcg(ranked, good, d, n), Dcg(MoveUp(ranked, j, i), good, d, n), Ideal(d, m)); }
  }

  lemma Divided(a: real, b: real, c: real)
    requires a <= b && c > 0.0
    ensures a / c <= b / c
  {
    var p, q := a / c, b / c;
    assert p * c == a && q * c == b;
    assert p > q ==> p * c > q * c;
  }

  // ---------- The guard ----------

  function SortInts(xs: seq<int>): seq<int> { Sort(xs, (x: int) => x as real) }

  predicate Rising(xs: seq<int>) { forall i, j :: 0 <= i < j < |xs| ==> xs[i] <= xs[j] }

  lemma SortIntsSorts(xs: seq<int>)
    ensures Rising(SortInts(xs)) && multiset(SortInts(xs)) == multiset(xs) && |SortInts(xs)| == |xs|
  {
    SortSorts(xs, (x: int) => x as real);
  }

  lemma FirstIsLeast(a: seq<int>, b: seq<int>)
    requires Rising(a) && a != [] && b != [] && b[0] in multiset(a)
    ensures a[0] <= b[0]
  {
    assert b[0] in a;
  }

  lemma TailElements(a: seq<int>)
    requires a != []
    ensures multiset(a[1..]) == multiset(a) - multiset{a[0]}
  {
    assert a == [a[0]] + a[1..];
  }

  /** Two ascending lists of the same elements are the same list. */
  lemma {:induction false} SortedIsUnique(a: seq<int>, b: seq<int>)
    requires Rising(a) && Rising(b) && multiset(a) == multiset(b) && |a| == |b|
    ensures a == b
  {
    if a != [] {
      assert a[0] in multiset(a) && b[0] in multiset(b);
      FirstIsLeast(a, b);
      FirstIsLeast(b, a);
      TailElements(a);
      TailElements(b);
      SortedIsUnique(a[1..], b[1..]);
      assert a == [a[0]] + a[1..] && b == [b[0]] + b[1..];
    }
  }

  lemma SortedAgree(xs: seq<int>, ys: seq<int>)
    ensures |SortInts(xs)| == |xs|
    ensures SortInts(xs) == SortInts(ys) <==> multiset(xs) == multiset(ys)
  {
    SortIntsSorts(xs);
    SortIntsSorts(ys);
    if multiset(xs) == multiset(ys) { SortedIsUnique(SortInts(xs), SortInts(ys)); }
  }

  /** Accepts exactly the permutations of the pool. */
  method AssertPermutation(ranked: seq<int>, pool: seq<int>) returns (ok: bool)
    ensures ok <==> multiset(ranked) == multiset(pool)
  {
    SortedAgree(ranked, pool);
    SortedAgree(pool, ranked);
    if |ranked| != |pool| { return false; }
    var a, b := SortInts(ranked), SortInts(pool);
    for i := 0 to |a|
      invariant forall k :: 0 <= k < i ==> a[k] == b[k]
    {
      if a[i] != b[i] { return false; }
    }
    assert a == b;
    return true;
  }

  lemma {:induction false} CountTwice(xs: seq<int>, i: nat, j: nat)
    requires i < j < |xs| && xs[i] == xs[j]
    ensures multiset(xs)[xs[i]] >= 2
  {
    assert xs == xs[..j] + xs[j..];
    assert xs[i] in xs[..j] && xs[j] in xs[j..];
    assert xs[..j][i] == xs[i] && xs[j..][0] == xs[j];
    assert multiset(xs) == multiset(xs[..j]) + multiset(xs[j..]);
  }

  lemma {:induction false} CountOnce(xs: seq<int>, x: int)
    requires NoDuplicates(xs)
    ensures multiset(xs)[x] <= 1
  {
    if xs != [] {
      CountOnce(xs[1..], x);
      assert xs == [xs[0]] + xs[1..];
      if x == xs[0] { assert x !in xs[1..]; }
    }
  }

  /** What the bound needs of a ranking, the guard gives: over a pool without repeats, an accepted ranking has none,
      and every relevant id of the pool is in it. */
  lemma AcceptedIsRankable(ranked: seq<int>, pool: seq<int>, good: seq<int>)
    requires NoDuplicates(pool) && multiset(ranked) == multiset(pool)
    requires forall x :: x in good ==> x in pool
    ensures NoDuplicates(ranked) && forall x :: x in good ==> x in ranked
  {
    forall i, j | 0 <= i < j < |ranked| ensures ranked[i] != ranked[j] {
      if ranked[i] == ranked[j] {
        CountTwice(ranked, i, j);
        CountOnce(pool, ranked[i]);
      }
    }
    forall x | x in good ensures x in ranked {
      assert x in multiset(pool);
      assert x in multiset(ranked);
    }
  }
}
