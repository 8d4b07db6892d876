// Reading embedding responses back in input order (packages/embeddings/src/contract.ts) and embedding any number
// of texts, chunk by chunk (packages/embeddings/src/embed.ts).
module EmbedResponse {
  import opened Basics
  import opened Embeddings
  import opened Sorting

  datatype Number = Finite(value: real) | NotFinite

  /** One row of the response as it came: its index and its vector may each be missing. */
  datatype Item = Item(index: Option<real>, vector: Option<seq<Number>>)

  datatype Row = Row(index: real, vector: seq<Number>)

  datatype Parsed = Parsed(embeddings: seq<seq<Number>>, totalTokens: real)

  datatype Rejection = NoData | NoVector(k: nat) | WrongWidth(k: nat) | NotANumber(k: nat) | WrongCount | WrongIndices

  predicate Usable(item: Item, dimensions: nat) {
    && item.vector.Some? && |item.vector.value| == dimensions
    && forall i :: 0 <= i < dimensions ==> item.vector.value[i].Finite?
  }

  /** A row that names no index stands for its own position. */
  function IndexAt(data: seq<Item>, k: nat): real
    requires k < |data|
  {
    match data[k].index case Some(i) => i case None => k as real
  }

  predicate Is(index: real, i: int) { index == i as real }

  function RowsOf(data: seq<Item>): (rows: seq<Row>)
    requires forall k :: 0 <= k < |data| ==> data[k].vector.Some?
    ensures |rows| == |data|
  {
    seq(|data|, k requires 0 <= k < |data| => Row(IndexAt(data, k), data[k].vector.value))
  }

  // ---------- Sorting by index ----------

  predicate InOrder(rows: seq<Row>) {
    forall i, j :: 0 <= i < j < |rows| ==> rows[i].index <= rows[j].index
  }

  function Sorted(rows: seq<Row>): seq<Row> { Sort(rows, (r: Row) => r.index) }

  lemma SortKeeps(rows: seq<Row>)
    ensures InOrder(Sorted(rows)) && multiset(Sorted(rows)) == multiset(rows) && |Sorted(rows)| == |rows|
  {
    SortSorts(rows, (r: Row) => r.index);
  }

  // ---------- Indices that are exactly 0..n-1 ----------

  /** Every row stands where its index says. */
  predicate Placed(rows: seq<Row>) {
    forall i :: 0 <= i < |rows| ==> Is(rows[i].index, i)
  }

  predicate Has(rows: seq<Row>, i: int) { exists k :: 0 <= k < |rows| && Is(rows[k].index, i) }

  /** Every number below the length is some row's index. */
  predicate Complete(rows: seq<Row>) {
    forall i :: 0 <= i < |rows| ==> Has(rows, i)
  }

  lemma {:induction false} EarlyEnough(rows: seq<Row>, i: nat) returns (p: nat)
    requires InOrder(rows) && Complete(rows) && i < |rows|
    ensures p <= i && Is(rows[p].index, i)
    decreases |rows| - i
  {
    assert Has(rows, i);
    var q :| 0 <= q < |rows| && Is(rows[q].index, i);
    p := q;
    if i + 1 < |rows| {
      var r := EarlyEnough(rows, i + 1);
      assert rows[q].index < rows[r].index;
    }
  }

  lemma {:induction false} LateEnough(rows: seq<Row>, i: nat) returns (p: nat)
    requires InOrder(rows) && Complete(rows) && i < |rows|
    ensures i <= p < |rows| && Is(rows[p].index, i)
  {
    assert Has(rows, i);
    var q :| 0 <= q < |rows| && Is(rows[q].index, i);
    p := q;
    if i > 0 {
      var r := LateEnough(rows, i - 1);
      assert rows[r].index < rows[q].index;
    }
  }

  /** Sorted rows pass the index check exactly when their indices are 0..n-1 in some order. */
  lemma PlacedIsComplete(rows: seq<Row>)
    requires InOrder(rows)
    ensures Placed(rows) <==> Complete(rows)
  {
    if Complete(rows) {
      forall i | 0 <= i < |rows| ensures Is(rows[i].index, i) {
        var p := EarlyEnough(rows, i);
        var q := LateEnough(rows, i);
        assert p < i ==> rows[p].index <= rows[i].index;
        assert i < q ==> rows[i].index <= rows[q].index;
      }
    }
    if Placed(rows) {
      forall i | 0 <= i < |rows| ensures Has(rows, i) { assert Is(rows[i].index, i); }
    }
  }

  lemma SameRowsComplete(xs: seq<Row>, ys: seq<Row>)
    requires multiset(xs) == multiset(ys) && |xs| == |ys|
    ensures Complete(xs) <==> Complete(ys)
  {
    forall i ensures Has(xs, i) <==> Has(ys, i) {
      if Has(xs, i) { SameRowsHave(xs, ys, i); }
      if Has(ys, i) { SameRowsHave(ys, xs, i); }
    }
  }

  lemma SameRowsHave(xs: seq<Row>, ys: seq<Row>, i: int)
    requires multiset(xs) == multiset(ys) && Has(xs, i)
    ensures Has(ys, i)
  {
    var k :| 0 <= k < |xs| && Is(xs[k].index, i);
    assert xs[k] in multiset(ys);
    assert xs[k] in ys;
  }

  // ---------- The response ----------

  /** A response that can be lined up with its inputs: usable rows, one for each index. */
  ghost predicate Lines(data: seq<Item>, dimensions: nat, count: nat) {
    && |data| == count && (forall k :: 0 <= k < |data| ==> Usable(data[k], dimensions))
    && Complete(RowsOf(data))
  }

  /** Each row's vector ends up at the index the provider gave it. */
  ghost predicate Aligned(data: seq<Item>, embeddings: seq<seq<Number>>) {
    && |embeddings| == |data|
    && forall k :: 0 <= k < |data| ==>
      exists i :: 0 <= i < |data| && Is(IndexAt(data, k), i) && Some(embeddings[i]) == data[k].vector
  }

  /** The first thing wrong with an item. */
  function ItemProblem(item: Item, k: nat, dimensions: nat): (p: Option<Rejection>)
    ensures p.None? <==> Usable(item, dimensions)
  {
    if item.vector.None? then Some(NoVector(k))
    else if |item.vector.value| != dimensions then Some(WrongWidth(k))
    else if exists i :: 0 <= i < dimensions && item.vector.value[i].NotFinite? then Some(NotANumber(k))
    else None
  }

  function VectorsIn(rows: seq<Row>): (vectors: seq<seq<Number>>)
    ensures |vectors| == |rows| && forall i :: 0 <= i < |rows| ==> vectors[i] == rows[i].vector
  {
    seq(|rows|, i requires 0 <= i < |rows| => rows[i].vector)
  }

  lemma SortedAligns(data: seq<Item>, sorted: seq<Row>)
    requires forall k :: 0 <= k < |data| ==> data[k].vector.Some?
    requires multiset(sorted) == multiset(RowsOf(data)) && |sorted| == |data| && Placed(sorted)
    ensures Aligned(data, VectorsIn(sorted))
  {
    var rows, vectors := RowsOf(data), VectorsIn(sorted);
    forall k | 0 <= k < |data|
      ensures exists i :: 0 <= i < |data| && Is(IndexAt(data, k), i) && Some(vectors[i]) == data[k].vector
    {
      assert rows[k] in multiset(rows);
      assert rows[k] in sorted;
      var i :| 0 <= i < |sorted| && sorted[i] == rows[k];
      assert Is(sorted[i].index, i) && Some(vectors[i]) == data[k].vector;
    }
  }

  method ParseEmbeddingResponse(data: Option<seq<Item>>, dimensions: nat, count: nat, usage: Option<real>)
    returns (r: Result<Parsed, Rejection>)
    ensures r.Ok? <==> data.Some? && Lines(data.value, dimensions, count)
    ensures r.Ok? ==> Aligned(data.value, r.value.embeddings)
    ensures r.Ok? ==> r.value.totalTokens == match usage case Some(t) => t case None => 0.0
  {
    if data.None? { return Err(NoData); }
    var items := data.value;
    for k := 0 to |items|
      invariant forall j :: 0 <= j < k ==> Usable(items[j], dimensions)
    {
      var problem := ItemProblem(items[k], k, dimensions);
      if problem.Some? { return Err(problem.value); }
    }
    var rows := RowsOf(items);
    SortKeeps(rows);
    rows := Sorted(rows);
    SameRowsComplete(rows, RowsOf(items));
    PlacedIsComplete(rows);
    if |rows| != count { return Err(WrongCount); }
    if !Placed(rows) { return Err(WrongIndices); }
    SortedAligns(items, rows);
    var total := match usage case Some(t) => t case None => 0.0;
    return Ok(Parsed(VectorsIn(rows), total));
  }

  // ---------- embed ----------

  /** What the provider answers to one request. */
  datatype Answer = Answer(data: Option<seq<Item>>, usage: Option<real>)

  /** The vector the provider indexed to j: of the row of that index, and of every such row. */
  ghost predicate GivenAt(data: seq<Item>, j: int, vector: seq<Number>) {
    && (exists k :: 0 <= k < |data| && Is(IndexAt(data, k), j))
    && forall k :: 0 <= k < |data| && Is(IndexAt(data, k), j) ==> data[k].vector == Some(vector)
  }

  lemma AlignedGives(data: seq<Item>, embeddings: seq<seq<Number>>, j: nat)
    requires forall k :: 0 <= k < |data| ==> data[k].vector.Some?
    requires Complete(RowsOf(data)) && Aligned(data, embeddings) && j < |data|
    ensures GivenAt(data, j, embeddings[j])
  {
    assert Has(RowsOf(data), j);
    forall k | 0 <= k < |data| && Is(IndexAt(data, k), j) ensures data[k].vector == Some(embeddings[j]) {
      var i :| 0 <= i < |data| && Is(IndexAt(data, k), i) && Some(embeddings[i]) == data[k].vector;
    }
  }

  /** The k-th request, for this chunk, gets a response that lines up with it. */
  ghost predicate Answered<T>(ask: (nat, seq<T>) -> Answer, k: nat, chunk: seq<T>, dimensions: nat) {
    ask(k, chunk).data.Some? && Lines(ask(k, chunk).data.value, dimensions, |chunk|)
  }

  /** One request's vectors: for each place of the chunk, the one its own response indexed to that place. */
  ghost predicate InOrderOf<T>(ask: (nat, seq<T>) -> Answer, k: nat, chunk: seq<T>, vectors: seq<seq<Number>>) {
    && ask(k, chunk).data.Some? && |vectors| == |chunk|
    && forall j :: 0 <= j < |vectors| ==> GivenAt(ask(k, chunk).data.value, j, vectors[j])
  }

  function Tokens(answer: Answer): real {
    match answer.usage case Some(t) => t case None => 0.0
  }

  method EmbedRequest<T>(k: nat, chunk: seq<T>, ask: (nat, seq<T>) -> Answer, dimensions: nat) returns (r: Result<Parsed, Rejection>)
    ensures r.Ok? <==> Answered(ask, k, chunk, dimensions)
    ensures r.Ok? ==> InOrderOf(ask, k, chunk, r.value.embeddings) && r.value.totalTokens == Tokens(ask(k, chunk))
  {
    var answer := ask(k, chunk);
    r := ParseEmbeddingResponse(answer.data, dimensions, |chunk|, answer.usage);
    if r.Ok? {
      forall j | 0 <= j < |chunk| ensures GivenAt(answer.data.value, j, r.value.embeddings[j]) {
        AlignedGives(answer.data.value, r.value.embeddings, j);
      }
    }
  }

  /** Where the k-th chunk starts among the texts. */
  function Offset<T>(chunks: seq<seq<T>>, k: nat): nat
    requires k <= |chunks|
  {
    |Concat(chunks[..k])|
  }

  /** Place j of chunk k holds the vector the k-th response indexed to j. */
  ghost predicate InSlot<T>(ask: (nat, seq<T>) -> Answer, chunks: seq<seq<T>>, embeddings: seq<seq<Number>>, k: nat, j: nat)
    requires k < |chunks|
  {
    && ask(k, chunks[k]).data.Some? && Offset(chunks, k) + j < |embeddings|
    && GivenAt(ask(k, chunks[k]).data.value, j, embeddings[Offset(chunks, k) + j])
  }

  ghost predicate SlotsFilled<T>(ask: (nat, seq<T>) -> Answer, chunks: seq<seq<T>>, embeddings: seq<seq<Number>>, n: nat)
    requires n <= |chunks|
  {
    && |embeddings| == Offset(chunks, n)
    && forall k, j :: 0 <= k < n && 0 <= j < |chunks[k]| ==> InSlot(ask, chunks, embeddings, k, j)
  }

  lemma SlotsGrow<T>(ask: (nat, seq<T>) -> Answer, chunks: seq<seq<T>>, embeddings: seq<seq<Number>>, n: nat, more: seq<seq<Number>>)
    requires n < |chunks| && SlotsFilled(ask, chunks, embeddings, n) && InOrderOf(ask, n, chunks[n], more)
    ensures SlotsFilled(ask, chunks, embeddings + more, n + 1)
  {
    ConcatGrows(chunks, n);
    forall k, j | 0 <= k < n + 1 && 0 <= j < |chunks[k]| ensures InSlot(ask, chunks, embeddings + more, k, j) {
      if k < n {
        assert InSlot(ask, chunks, embeddings, k, j);
      } else {
        assert (embeddings + more)[Offset(chunks, n) + j] == more[j];
      }
    }
  }

  function TokensOf<T>(ask: (nat, seq<T>) -> Answer, chunks: seq<seq<T>>): real {
    if chunks == [] then 0.0 else TokensOf(ask, chunks[..|chunks| - 1]) + Tokens(ask(|chunks| - 1, chunks[|chunks| - 1]))
  }

  /** The requests one after the other; the first rejection ends them. */
  method EmbedChunks<T>(chunks: seq<seq<T>>, ask: (nat, seq<T>) -> Answer, dimensions: nat) returns (r: Result<Parsed, Rejection>)
    ensures r.Ok? <==> forall k :: 0 <= k < |chunks| ==> Answered(ask, k, chunks[k], dimensions)
    ensures r.Ok? ==> SlotsFilled(ask, chunks, r.value.embeddings, |chunks|) && r.value.totalTokens == TokensOf(ask, chunks)
  {
    var embeddings: seq<seq<Number>>, total := [], 0.0;
    for k := 0 to |chunks|
      invariant forall j :: 0 <= j < k ==> Answered(ask, j, chunks[j], dimensions)
      invariant SlotsFilled(ask, chunks, embeddings, k) && total == TokensOf(ask, chunks[..k])
    {
      var parsed := EmbedRequest(k, chunks[k], ask, dimensions);
      if parsed.Err? { return Err(parsed.error); }
      SlotsGrow(ask, chunks, embeddings, k, parsed.value.embeddings);
      embeddings := embeddings + parsed.value.embeddings;
      total := total + parsed.value.totalTokens;
      assert chunks[..k + 1][..k] == chunks[..k];
    }
    assert chunks[..|chunks|] == chunks;
    return Ok(Parsed(embeddings, total));
  }

  /** For every place of every chunk, the vector that chunk's own response indexed to it, in input order; refused exactly
      when some chunk's response does not line up. */
  method Embed<T>(texts: seq<T>, ask: (nat, seq<T>) -> Answer, l: Limits, est: T -> nat, dimensions: nat)
    returns (r: Result<Parsed, Rejection>)
    ensures r.Ok? <==> forall k :: 0 <= k < |Greedy(l, est, texts)| ==> Answered(ask, k, Greedy(l, est, texts)[k], dimensions)
    ensures r.Ok? ==> var chunks := Greedy(l, est, texts);
      && |r.value.embeddings| == |texts| && Concat(chunks) == texts
      && SlotsFilled(ask, chunks, r.value.embeddings, |chunks|) && r.value.totalTokens == TokensOf(ask, chunks)
  {
    if |texts| == 0 { return Ok(Parsed([], 0.0)); }
    var chunks := ChunkByLimits(texts, l, est);
    GreedySplits(l, est, texts);
    SplitsRejoin(l, est, chunks, texts);
    r := EmbedChunks(chunks, ask, dimensions);
    assert chunks[..|chunks|] == chunks;
  }

  // ---------- Text by text ----------

  /** Text i is text j of chunk k. */
  predicate StandsAt<T>(chunks: seq<seq<T>>, i: nat, k: nat, j: nat) {
    k < |chunks| && j < |chunks[k]| && i == Offset(chunks, k) + j
  }

  lemma {:induction false} Locate<T>(chunks: seq<seq<T>>, i: nat) returns (k: nat, j: nat)
    requires i < |Concat(chunks)|
    ensures StandsAt(chunks, i, k, j) && Concat(chunks)[i] == chunks[k][j]
  {
    var n := |chunks| - 1;
    ConcatGrows(chunks, n);
    assert chunks[..n + 1] == chunks;
    if i < Offset(chunks, n) {
      k, j := Locate(chunks[..n], i);
      assert chunks[..n][..k] == chunks[..k];
    } else {
      k, j := n, i - Offset(chunks, n);
    }
  }

  /** Every text has one place in one chunk, and its embedding is what that chunk's response indexed to that place. */
  lemma EachTextHasItsVector<T>(ask: (nat, seq<T>) -> Answer, chunks: seq<seq<T>>, embeddings: seq<seq<Number>>, i: nat) returns (k: nat, j: nat)
    requires SlotsFilled(ask, chunks, embeddings, |chunks|) && i < |Concat(chunks)|
    ensures StandsAt(chunks, i, k, j) && Concat(chunks)[i] == chunks[k][j]
    ensures ask(k, chunks[k]).data.Some? && i < |embeddings| && GivenAt(ask(k, chunks[k]).data.value, j, embeddings[i])
  {
    k, j := Locate(chunks, i);
    assert chunks[..|chunks|] == chunks;
    assert InSlot(ask, chunks, embeddings, k, j);
  }

  /** The responses gave each text of their chunks its own vector, in whatever order they listed their rows. */
  ghost predicate Faithful<T>(ask: (nat, seq<T>) -> Answer, chunks: seq<seq<T>>, vectorOf: T -> seq<Number>) {
    forall k :: 0 <= k < |chunks| && ask(k, chunks[k]).data.Some? ==> FaithfulFor(chunks[k], ask(k, chunks[k]).data.value, vectorOf)
  }

  ghost predicate FaithfulFor<T>(chunk: seq<T>, data: seq<Item>, vectorOf: T -> seq<Number>) {
    forall k, i :: 0 <= k < |data| && 0 <= i < |chunk| && Is(IndexAt(data, k), i) ==>
      data[k].vector == Some(vectorOf(chunk[i]))
  }

  /** From a provider whose responses did, every text has its own vector. */
  lemma FaithfulVectors<T>(ask: (nat, seq<T>) -> Answer, chunks: seq<seq<T>>, embeddings: seq<seq<Number>>, vectorOf: T -> seq<Number>, i: nat)
    requires SlotsFilled(ask, chunks, embeddings, |chunks|) && Faithful(ask, chunks, vectorOf) && i < |Concat(chunks)|
    ensures i < |embeddings| && embeddings[i] == vectorOf(Concat(chunks)[i])
  {
    var k, j := EachTextHasItsVector(ask, chunks, embeddings, i);
    var data := ask(k, chunks[k]).data.value;
    var row :| 0 <= row < |data| && Is(IndexAt(data, row), j);
  }

  lemma {:induction false} ConcatJoins<T>(a: seq<seq<T>>, b: seq<seq<T>>)
    ensures Concat(a + b) == Concat(a) + Concat(b)
  {
    if a == [] {
      assert a + b == b;
    } else {
      assert (a + b)[1..] == a[1..] + b;
      ConcatJoins(a[1..], b);
    }
  }

  lemma ConcatGrows<T>(chunks: seq<seq<T>>, k: nat)
    requires k < |chunks|
    ensures Concat(chunks[..k + 1]) == Concat(chunks[..k]) + chunks[k]
  {
    assert chunks[..k + 1] == chunks[..k] + [chunks[k]];
    ConcatJoins(chunks[..k], [chunks[k]]);
    assert Concat([chunks[k]]) == chunks[k] + Concat([]) == chunks[k];
  }
}
