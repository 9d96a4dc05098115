/** What the code relies on from Go's sort package: a permutation, ordered by a key. The order of
    equal keys is not promised (sort.Slice is not stable). */
module Sorting {

  ghost predicate SortedBy<T>(xs: seq<T>, key: T -> int) {
    forall i, j | 0 <= i < j < |xs| :: key(xs[i]) <= key(xs[j])
  }

  ghost predicate Permutation<T>(xs: seq<T>, ys: seq<T>) { multiset(xs) == multiset(ys) }

  /** sort.Slice. */
  method SortSlice<T>(xs: seq<T>, key: T -> int) returns (ys: seq<T>)
    ensures Permutation(ys, xs) && SortedBy(ys, key)
  {
    ys := [];
    var i := 0;
    while i < |xs|
      invariant 0 <= i <= |xs|
      invariant Permutation(ys, xs[..i]) && SortedBy(ys, key)
    {
      assert xs[..i + 1] == xs[..i] + [xs[i]];
      ys := Insert(ys, xs[i], key);
      i := i + 1;
    }
    assert xs[..i] == xs;
  }

  method Insert<T>(xs: seq<T>, x: T, key: T -> int) returns (ys: seq<T>)
    requires SortedBy(xs, key)
    ensures Permutation(ys, xs + [x]) && SortedBy(ys, key)
  {
    var k := |xs|;
    while k > 0 && key(xs[k - 1]) > key(x)
      invariant 0 <= k <= |xs|
      invariant forall j | k <= j < |xs| :: key(xs[j]) > key(x)
    {
      k := k - 1;
    }
    ys := xs[..k] + [x] + xs[k..];
    InsertedPermutes(xs, x, k);
    InsertedSorted(xs, x, key, k);
  }

  lemma InsertedPermutes<T>(xs: seq<T>, x: T, k: nat)
    requires k <= |xs|
    ensures Permutation(xs[..k] + [x] + xs[k..], xs + [x])
  {
    assert xs == xs[..k] + xs[k..];
  }

  lemma InsertedSorted<T>(xs: seq<T>, x: T, key: T -> int, k: nat)
    requires k <= |xs| && SortedBy(xs, key)
    requires k > 0 ==> key(xs[k - 1]) <= key(x)
    requires forall j | k <= j < |xs| :: key(xs[j]) > key(x)
    ensures SortedBy(xs[..k] + [x] + xs[k..], key)
  {
    var ys := xs[..k] + [x] + xs[k..];
    forall i, j | 0 <= i < j < |ys| ensures key(ys[i]) <= key(ys[j]) {
      assert i < k ==> ys[i] == xs[i] && key(xs[i]) <= key(x);
      assert i > k ==> ys[i] == xs[i - 1];
      assert j < k ==> ys[j] == xs[j];
      assert j > k ==> ys[j] == xs[j - 1];
    }
  }

  ghost predicate Ascending(xs: seq<int>) { forall i, j | 0 <= i < j < |xs| :: xs[i] <= xs[j] }

  ghost predicate Distinct(xs: seq<int>) { forall i, j | 0 <= i < j < |xs| :: xs[i] != xs[j] }

  ghost predicate StrictlyIncreasing(xs: seq<int>) { forall i, j | 0 <= i < j < |xs| :: xs[i] < xs[j] }

  function Identity(x: int): int { x }

  /** sort.Ints. */
  method SortInts(xs: seq<int>) returns (ys: seq<int>)
    ensures Permutation(ys, xs) && Ascending(ys)
  {
    ys := SortSlice(xs, Identity);
    assert forall i, j | 0 <= i < j < |ys| :: Identity(ys[i]) <= Identity(ys[j]);
  }

  /** A permutation has the same elements. */
  lemma PermutationElements<T>(xs: seq<T>, ys: seq<T>)
    requires Permutation(xs, ys)
    ensures |xs| == |ys| && forall x :: x in xs <==> x in ys
  {
    assert |multiset(xs)| == |xs| && |multiset(ys)| == |ys|;
    forall x ensures x in xs <==> x in ys {
      assert x in multiset(xs) <==> x in xs;
      assert x in multiset(ys) <==> x in ys;
    }
  }

  lemma TwiceCounted<T>(xs: seq<T>, i: nat, j: nat)
    requires i < j < |xs| && xs[i] == xs[j]
    ensures multiset(xs)[xs[i]] >= 2
  {
    assert xs == xs[..j] + xs[j..];
    assert xs[i] in xs[..j] && xs[i] in xs[j..] by { assert xs[..j][i] == xs[i] && xs[j..][0] == xs[j]; }
    assert multiset(xs[..j])[xs[i]] >= 1 && multiset(xs[j..])[xs[i]] >= 1;
  }

  /** Sorting distinct numbers gives a strictly increasing list of the same numbers. */
  lemma SortedDistinct(xs: seq<int>, ys: seq<int>)
    requires Permutation(ys, xs) && Distinct(xs)
    requires Ascending(ys)
    ensures StrictlyIncreasing(ys) && forall x: int :: x in ys <==> x in xs
  {
    PermutationElements(ys, xs);
    DistinctCounts(xs);
    forall i, j | 0 <= i < j < |ys| ensures ys[i] < ys[j] {
      if ys[i] == ys[j] {
        TwiceCounted(ys, i, j);
      }
    }
  }

  lemma {:induction false} DistinctCounts(xs: seq<int>)
    requires Distinct(xs)
    ensures forall x: int :: multiset(xs)[x] <= 1
  {
    if xs != [] {
      var n := |xs| - 1;
      DistinctCounts(xs[..n]);
      assert xs == xs[..n] + [xs[n]];
      assert xs[n] !in xs[..n];
    }
  }
}
