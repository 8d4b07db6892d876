// Embedding requests: greedy chunking under two limits, and responses put back in input order
// (packages/embeddings/src/contract.ts, packages/embeddings/src/embed.ts).
module Embeddings {
  import opened Basics

  datatype Limits = Limits(maxItems: int, maxTokens: int)

  // ---------- Chunking ----------

  /** The estimated tokens of a chunk; `est` stands for a text's bytes divided by chars per token, rounded up. */
  function Cost<T>(est: T -> nat, chunk: seq<T>): nat {
    if chunk == [] then 0 else Cost(est, chunk[..|chunk| - 1]) + est(chunk[|chunk| - 1])
  }

  /** A chunk a request may carry: within both limits, or one text alone. */
  predicate Fits<T>(l: Limits, est: T -> nat, chunk: seq<T>) {
    |chunk| == 1 || (1 < |chunk| <= l.maxItems && Cost(est, chunk) <= l.maxTokens)
  }

  /** A split of `texts` into consecutive chunks that all fit. */
  predicate Splits<T(==)>(l: Limits, est: T -> nat, chunks: seq<seq<T>>, texts: seq<T>) {
    if chunks == [] then texts == []
    else Fits(l, est, chunks[0]) && chunks[0] <= texts && Splits(l, est, chunks[1..], texts[|chunks[0]|..])
  }

  /** The longest chunk that fits at the head of the texts, once `n` of them are in. */
  function Grow<T>(l: Limits, est: T -> nat, texts: seq<T>, n: nat): (m: nat)
    requires n <= |texts|
    ensures n <= m <= |texts|
    decreases |texts| - n
  {
    if n < |texts| && Fits(l, est, texts[..n + 1]) then Grow(l, est, texts, n + 1) else n
  }

  function Greedy<T>(l: Limits, est: T -> nat, texts: seq<T>): seq<seq<T>> {
    if texts == [] then []
    else
      var n := Grow(l, est, texts, 1);
      [texts[..n]] + Greedy(l, est, texts[n..])
  }

  lemma {:induction false} CostSplits<T>(est: T -> nat, a: seq<T>, b: seq<T>)
    ensures Cost(est, a + b) == Cost(est, a) + Cost(est, b)
  {
    if b == [] {
      assert a + b == a;
    } else {
      var c := a + b;
      assert c[..|c| - 1] == a + b[..|b| - 1];
      CostSplits(est, a, b[..|b| - 1]);
    }
  }

  /** What fits still fits when texts are taken off either end. */
  lemma PartFits<T>(l: Limits, est: T -> nat, chunk: seq<T>, i: nat, j: nat)
    requires Fits(l, est, chunk) && i < j <= |chunk|
    ensures Fits(l, est, chunk[i..j])
  {
    assert chunk == chunk[..i] + chunk[i..] && chunk[i..] == chunk[i..j] + chunk[j..];
    CostSplits(est, chunk[..i], chunk[i..]);
    CostSplits(est, chunk[i..j], chunk[j..]);
  }

  lemma {:induction false} GrowFits<T>(l: Limits, est: T -> nat, texts: seq<T>, n: nat)
    requires 1 <= n <= |texts| && Fits(l, est, texts[..n])
    ensures Fits(l, est, texts[..Grow(l, est, texts, n)])
    decreases |texts| - n
  {
    if n < |texts| && Fits(l, est, texts[..n + 1]) { GrowFits(l, est, texts, n + 1); }
  }

  /** No longer chunk fits. */
  lemma {:induction false} GrowIsMost<T>(l: Limits, est: T -> nat, texts: seq<T>, n: nat, m: nat)
    requires 1 <= n <= |texts| && m <= |texts| && m >= 1 && Fits(l, est, texts[..m])
    ensures m <= Grow(l, est, texts, n)
    decreases |texts| - n
  {
    if n < m {
      PartFits(l, est, texts[..m], 0, n + 1);
      assert texts[..m][0..n + 1] == texts[..n + 1];
      GrowIsMost(l, est, texts, n + 1, m);
    }
  }

  lemma {:induction false} GreedySplits<T>(l: Limits, est: T -> nat, texts: seq<T>)
    ensures Splits(l, est, Greedy(l, est, texts), texts)
  {
    if texts != [] {
      var n := Grow(l, est, texts, 1);
      GrowFits(l, est, texts, 1);
      GreedySplits(l, est, texts[n..]);
    }
  }

  lemma Dropped<T>(s: seq<T>, i: nat, j: nat)
    requires i + j <= |s|
    ensures s[i..][j..] == s[i + j..]
  {
  }

  /** Starting inside the first chunk reaches at least its end. */
  lemma ReachesAsFar<T>(l: Limits, est: T -> nat, texts: seq<T>, i: nat)
    requires texts != [] && i < Grow(l, est, texts, 1)
    ensures i + Grow(l, est, texts[i..], 1) >= Grow(l, est, texts, 1)
  {
    var n := Grow(l, est, texts, 1);
    GrowFits(l, est, texts, 1);
    PartFits(l, est, texts[..n], i, n);
    assert texts[..n][i..n] == texts[i..][..n - i];
    GrowIsMost(l, est, texts[i..], 1, n - i);
  }

  /** How many chunks the greedy split makes. */
  function Needed<T>(l: Limits, est: T -> nat, texts: seq<T>): nat {
    if texts == [] then 0 else 1 + Needed(l, est, texts[Grow(l, est, texts, 1)..])
  }

  lemma {:induction false} GreedyMakes<T>(l: Limits, est: T -> nat, texts: seq<T>)
    ensures |Greedy(l, est, texts)| == Needed(l, est, texts)
  {
    if texts != [] { GreedyMakes(l, est, texts[Grow(l, est, texts, 1)..]); }
  }

  /** Where the first chunk of a non-empty suffix that starts inside the first chunk of the whole ends. */
  lemma SuffixHead<T>(l: Limits, est: T -> nat, texts: seq<T>, i: nat) returns (k: nat)
    requires texts != [] && i < Grow(l, est, texts, 1)
    ensures Grow(l, est, texts, 1) <= k <= |texts|
    ensures Needed(l, est, texts[i..]) == 1 + Needed(l, est, texts[k..])
  {
    ReachesAsFar(l, est, texts, i);
    var rest := texts[i..];
    var m := Grow(l, est, rest, 1);
    k := i + m;
    Dropped(texts, i, m);
  }

  lemma SuffixOfRest<T>(l: Limits, est: T -> nat, texts: seq<T>, n: nat, k: nat)
    requires n <= k <= |texts| && Needed(l, est, texts[n..][k - n..]) <= Needed(l, est, texts[n..])
    ensures Needed(l, est, texts[k..]) <= Needed(l, est, texts[n..])
  {
    Dropped(texts, n, k - n);
  }

  /** A suffix never needs more chunks than the whole. */
  lemma {:induction false} SuffixNeedsNoMore<T>(l: Limits, est: T -> nat, texts: seq<T>, i: nat)
    requires i <= |texts|
    ensures Needed(l, est, texts[i..]) <= Needed(l, est, texts)
    decreases |texts|
  {
    if i == 0 {
      assert texts[i..] == texts;
    } else if texts != [] {
      var n := Grow(l, est, texts, 1);
      var rest := texts[n..];
      var k := i;
      if i < n { k := SuffixHead(l, est, texts, i); }
      SuffixNeedsNoMore(l, est, rest, k - n);
      SuffixOfRest(l, est, texts, n, k);
      assert Needed(l, est, texts) == 1 + Needed(l, est, rest);
    }
  }

  lemma FirstChunk<T>(l: Limits, est: T -> nat, texts: seq<T>, chunks: seq<seq<T>>)
    requires texts != [] && chunks != [] && Splits(l, est, chunks, texts)
    ensures 1 <= |chunks[0]| <= Grow(l, est, texts, 1)
  {
    var m := |chunks[0]|;
    assert texts[..m] == chunks[0];
    GrowIsMost(l, est, texts, 1, m);
  }

  lemma {:induction false} NeededIsLeast<T>(l: Limits, est: T -> nat, texts: seq<T>, chunks: seq<seq<T>>)
    requires Splits(l, est, chunks, texts)
    ensures Needed(l, est, texts) <= |chunks|
    decreases |chunks|
  {
    if texts != [] {
      var m, n := |chunks[0]|, Grow(l, est, texts, 1);
      var rest := texts[m..];
      FirstChunk(l, est, texts, chunks);
      NeededIsLeast(l, est, rest, chunks[1..]);
      SuffixNeedsNoMore(l, est, rest, n - m);
      SuffixOfRest(l, est, texts, m, n);
    }
  }

  /** No other split into consecutive chunks under the same limits has fewer chunks. */
  lemma GreedyIsOptimal<T>(l: Limits, est: T -> nat, texts: seq<T>, chunks: seq<seq<T>>)
    requires Splits(l, est, chunks, texts)
    ensures |Greedy(l, est, texts)| <= |chunks|
  {
    GreedyMakes(l, est, texts);
    NeededIsLeast(l, est, texts, chunks);
  }

  function Concat<T>(chunks: seq<seq<T>>): seq<T> {
    if chunks == [] then [] else chunks[0] + Concat(chunks[1..])
  }

  /** The chunks of a split, put end to end, are the input. */
  lemma {:induction false} SplitsRejoin<T>(l: Limits, est: T -> nat, chunks: seq<seq<T>>, texts: seq<T>)
    requires Splits(l, est, chunks, texts)
    ensures Concat(chunks) == texts
  {
    if chunks != [] {
      SplitsRejoin(l, est, chunks[1..], texts[|chunks[0]|..]);
      assert texts == chunks[0] + texts[|chunks[0]|..];
    }
  }

  /** A batch that fits is the head of the first greedy chunk of whatever starts with it. */
  lemma GrowPast<T>(l: Limits, est: T -> nat, texts: seq<T>, n: nat)
    requires 1 <= n <= |texts| && Fits(l, est, texts[..n])
    ensures Grow(l, est, texts, 1) == Grow(l, est, texts, n)
  {
    GrowIsMost(l, est, texts, 1, n);
    GrowFits(l, est, texts, 1);
    GrowIsMost(l, est, texts, n, Grow(l, est, texts, 1));
    GrowFits(l, est, texts, n);
    GrowIsMost(l, est, texts, 1, Grow(l, est, texts, n));
  }

  /** A full batch is the first greedy chunk of what it stands before. */
  lemma FullBatch<T>(l: Limits, est: T -> nat, batch: seq<T>, rest: seq<T>)
    requires Fits(l, est, batch) && (rest != [] ==> !Fits(l, est, batch + [rest[0]]))
    ensures Greedy(l, est, batch + rest) == [batch] + Greedy(l, est, rest)
  {
    var texts, n := batch + rest, |batch|;
    assert texts[..n] == batch && texts[n..] == rest;
    if rest != [] { assert texts[..n + 1] == batch + [rest[0]]; }
    GrowPast(l, est, texts, n);
  }

  /** The chunks made so far, and those to come from the open batch and the texts from `i` on. */
  ghost predicate Underway<T>(
    l: Limits, est: T -> nat, texts: seq<T>, i: nat, chunks: seq<seq<T>>, batch: seq<T>, tokens: nat)
    requires i <= |texts|
  {
    && tokens == Cost(est, batch) && (batch != [] ==> Fits(l, est, batch))
    && chunks + Greedy(l, est, batch + texts[i..]) == Greedy(l, est, texts)
  }

  lemma Starts<T>(l: Limits, est: T -> nat, texts: seq<T>)
    ensures Underway(l, est, texts, 0, [], [], 0)
  {
    assert [] + texts[0..] == texts;
  }

  lemma Pushes<T>(l: Limits, est: T -> nat, texts: seq<T>, i: nat, chunks: seq<seq<T>>, batch: seq<T>, tokens: nat)
    requires i < |texts| && Underway(l, est, texts, i, chunks, batch, tokens)
    requires batch == [] || (|batch| < l.maxItems && tokens + est(texts[i]) <= l.maxTokens)
    ensures Underway(l, est, texts, i + 1, chunks, batch + [texts[i]], tokens + est(texts[i]))
  {
    var t := texts[i];
    assert (batch + [t])[..|batch|] == batch;
    assert batch + texts[i..] == (batch + [t]) + texts[i + 1..];
  }

  lemma Flushes<T>(l: Limits, est: T -> nat, texts: seq<T>, i: nat, chunks: seq<seq<T>>, batch: seq<T>, tokens: nat)
    requires i <= |texts| && Underway(l, est, texts, i, chunks, batch, tokens) && batch != []
    requires i < |texts| ==> |batch| >= l.maxItems || tokens + est(texts[i]) > l.maxTokens
    ensures Underway(l, est, texts, i, chunks + [batch], [], 0)
  {
    var rest := texts[i..];
    if i < |texts| { assert (batch + [rest[0]])[..|batch|] == batch; }
    FullBatch(l, est, batch, rest);
    assert chunks + ([batch] + Greedy(l, est, rest)) == (chunks + [batch]) + Greedy(l, est, rest);
    assert [] + rest == rest;
  }

  lemma Ends<T>(l: Limits, est: T -> nat, texts: seq<T>, chunks: seq<seq<T>>)
    requires Underway(l, est, texts, |texts|, chunks, [], 0)
    ensures chunks == Greedy(l, est, texts)
  {
    assert [] + texts[|texts|..] == [];
  }

  method ChunkByLimits<T>(texts: seq<T>, l: Limits, est: T -> nat) returns (chunks: seq<seq<T>>)
    ensures chunks == Greedy(l, est, texts)
  {
    chunks := [];
    var batch: seq<T>, tokens: nat := [], 0;
    Starts(l, est, texts);
    for i := 0 to |texts|
      invariant Underway(l, est, texts, i, chunks, batch, tokens)
    {
      var t := texts[i];
      var exceeds := |batch| >= l.maxItems || tokens + est(t) > l.maxTokens;
      if |batch| > 0 && exceeds {
        Flushes(l, est, texts, i, chunks, batch, tokens);
        chunks := chunks + [batch];
        batch, tokens := [], 0;
      }
      Pushes(l, est, texts, i, chunks, batch, tokens);
      batch := batch + [t];
      tokens := tokens + est(t);
    }
    if |batch| > 0 {
      Flushes(l, est, texts, |texts|, chunks, batch, tokens);
      chunks := chunks + [batch];
    }
    Ends(l, est, texts, chunks);
  }
}
