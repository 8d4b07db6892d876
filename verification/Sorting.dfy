// The stable sort the sources call, by a number each element carries.
module Sorting {
  predicate Ascending<T>(xs: seq<T>, key: T -> real) {
    forall i, j :: 0 <= i < j < |xs| ==> key(xs[i]) <= key(xs[j])
  }

  function Insert<T>(x: T, xs: seq<T>, key: T -> real): seq<T> {
    if xs == [] || key(x) <= key(xs[0]) then [x] + xs else [xs[0]] + Insert(x, xs[1..], key)
  }

  function Sort<T>(xs: seq<T>, key: T -> real): seq<T> {
    if xs == [] then [] else Insert(xs[0], Sort(xs[1..], key), key)
  }

  lemma {:induction false} InsertKeeps<T>(x: T, xs: seq<T>, key: T -> real)
    ensures multiset(Insert(x, xs, key)) == multiset(xs) + multiset{x}
  {
    if xs != [] && key(x) > key(xs[0]) {
      InsertKeeps(x, xs[1..], key);
      assert xs == [xs[0]] + xs[1..];
    }
  }

  lemma {:induction false} InsertAscends<T>(x: T, xs: seq<T>, key: T -> real)
    requires Ascending(xs, key)
    ensures var ys := Insert(x, xs, key);
      Ascending(ys, key) && ys != [] && (ys[0] == x || (xs != [] && ys[0] == xs[0] && key(xs[0]) < key(x)))
  {
    if xs != [] && key(x) > key(xs[0]) { InsertAscends(x, xs[1..], key); }
  }

  lemma {:induction false} SortSorts<T>(xs: seq<T>, key: T -> real)
    ensures Ascending(Sort(xs, key), key) && multiset(Sort(xs, key)) == multiset(xs) && |Sort(xs, key)| == |xs|
  {
    if xs != [] {
      var rest := Sort(xs[1..], key);
      SortSorts(xs[1..], key);
      InsertKeeps(xs[0], rest, key);
      InsertAscends(xs[0], rest, key);
      assert xs == [xs[0]] + xs[1..];
      assert |multiset(Sort(xs, key))| == |Sort(xs, key)|;
    }
  }
}
