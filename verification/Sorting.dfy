/** Stable sorting by a comparison, and binary search in a sorted array. */
module Sorting {

  /** Where comparison-based sorting means something: `less` is a strict weak order. */
  ghost predicate StrictWeakOrder<T(!new)>(less: (T, T) -> bool) {
    && (forall x, y :: less(x, y) ==> !less(y, x))
    && (forall x, y, z :: !less(x, y) && !less(y, z) ==> !less(x, z))
  }

  ghost predicate SortedBy<T(!new)>(xs: seq<T>, less: (T, T) -> bool) {
    forall i, j :: 0 <= i < j < |xs| ==> !less(xs[j], xs[i])
  }

  /** Before the first element that is not smaller, so equal elements keep their order. */
  function Insert<T>(x: T, ys: seq<T>, less: (T, T) -> bool): (r: seq<T>)
    ensures |r| == |ys| + 1
  {
    if ys == [] || !less(ys[0], x) then [x] + ys else [ys[0]] + Insert(x, ys[1..], less)
  }

  function StableSort<T>(xs: seq<T>, less: (T, T) -> bool): (r: seq<T>)
    ensures |r| == |xs|
  {
    if xs == [] then [] else Insert(xs[0], StableSort(xs[1..], less), less)
  }

  lemma {:induction false} InsertPermutes<T>(x: T, ys: seq<T>, less: (T, T) -> bool)
    ensures multiset(Insert(x, ys, less)) == multiset([x] + ys)
  {
    if ys != [] && less(ys[0], x) {
      InsertPermutes(x, ys[1..], less);
      assert ys == [ys[0]] + ys[1..];
    }
  }

  lemma {:induction false} SortPermutes<T>(xs: seq<T>, less: (T, T) -> bool)
    ensures multiset(StableSort(xs, less)) == multiset(xs)
  {
    if xs != [] {
      SortPermutes(xs[1..], less);
      InsertPermutes(xs[0], StableSort(xs[1..], less), less);
      assert xs == [xs[0]] + xs[1..];
    }
  }

  lemma {:induction false} InsertSorts<T(!new)>(x: T, ys: seq<T>, less: (T, T) -> bool)
    requires StrictWeakOrder(less) && SortedBy(ys, less)
    ensures SortedBy(Insert(x, ys, less), less)
  {
    if ys == [] {
    } else if !less(ys[0], x) {
      var r := [x] + ys;
      forall i, j | 0 <= i < j < |r|
        ensures !less(r[j], r[i])
      {
        if i == 0 && j > 1 {
          assert !less(ys[j - 1], ys[0]);
        }
      }
    } else {
      InsertSorts(x, ys[1..], less);
      var rest := Insert(x, ys[1..], less);
      InsertPermutes(x, ys[1..], less);
      forall j | 0 <= j < |rest|
        ensures !less(rest[j], ys[0])
      {
        assert rest[j] in multiset(rest);
        if rest[j] != x {
          assert rest[j] in ys[1..];
        }
      }
    }
  }

  lemma {:induction false} SortSorts<T(!new)>(xs: seq<T>, less: (T, T) -> bool)
    requires StrictWeakOrder(less)
    ensures SortedBy(StableSort(xs, less), less)
  {
    if xs != [] {
      SortSorts(xs[1..], less);
      InsertSorts(xs[0], StableSort(xs[1..], less), less);
    }
  }

  /** The sorted sequence has exactly the elements of the unsorted one. */
  lemma {:induction false} SortMembers<T>(xs: seq<T>, less: (T, T) -> bool)
    ensures forall i :: 0 <= i < |xs| ==> StableSort(xs, less)[i] in xs
    ensures forall i :: 0 <= i < |xs| ==> xs[i] in StableSort(xs, less)
  {
    SortPermutes(xs, less);
    var r := StableSort(xs, less);
    forall i | 0 <= i < |xs|
      ensures r[i] in xs && xs[i] in r
    {
      assert r[i] in multiset(r) && xs[i] in multiset(xs);
    }
  }

  // ---- integers ----

  predicate Increasing(xs: seq<int>) {
    forall i, j :: 0 <= i < j < |xs| ==> xs[i] < xs[j]
  }

  predicate NonDecreasing(xs: seq<int>) {
    forall i, j :: 0 <= i < j < |xs| ==> xs[i] <= xs[j]
  }

  function SortInts(xs: seq<int>): (r: seq<int>)
    ensures |r| == |xs|
  {
    StableSort(xs, (x: int, y: int) => x < y)
  }

  lemma {:induction false} SortIntsSorts(xs: seq<int>)
    ensures NonDecreasing(SortInts(xs))
    ensures multiset(SortInts(xs)) == multiset(xs)
    ensures forall x :: x in SortInts(xs) <==> x in xs
  {
    var less := (x: int, y: int) => x < y;
    SortSorts(xs, less);
    SortPermutes(xs, less);
    SortMembers(xs, less);
    var r := SortInts(xs);
    forall i, j | 0 <= i < j < |r|
      ensures r[i] <= r[j]
    {
      assert !less(r[j], r[i]);
    }
  }

  /** The positions of `xs` in non-decreasing order of value, equal values in the order they
      came. */
  method ArgSort(xs: seq<int>) returns (order: seq<nat>)
    ensures |order| == |xs|
    ensures forall i :: 0 <= i < |order| ==> order[i] < |xs|
    ensures forall i, j :: 0 <= i < j < |order| ==> xs[order[i]] < xs[order[j]] || (xs[order[i]] == xs[order[j]] && order[i] <= order[j])
    ensures forall k :: 0 <= k < |xs| ==> k in order
  {
    var pairs: seq<(int, int)> := seq(|xs|, i requires 0 <= i < |xs| => (xs[i], i));
    var less := (p: (int, int), q: (int, int)) => p.0 < q.0 || (p.0 == q.0 && p.1 < q.1);
    var sorted := StableSort(pairs, less);
    SortSorts(pairs, less);
    SortMembers(pairs, less);
    forall i | 0 <= i < |sorted|
      ensures 0 <= sorted[i].1 < |xs| && sorted[i].0 == xs[sorted[i].1]
    {
      assert sorted[i] in pairs;
    }
    order := seq(|xs|, i requires 0 <= i < |sorted| => sorted[i].1);
    forall i, j | 0 <= i < j < |order|
      ensures xs[order[i]] < xs[order[j]] || (xs[order[i]] == xs[order[j]] && order[i] <= order[j])
    {
      assert !less(sorted[j], sorted[i]);
    }
    forall k | 0 <= k < |xs|
      ensures k in order
    {
      assert pairs[k] in sorted;
      var i :| 0 <= i < |sorted| && sorted[i] == pairs[k];
      assert order[i] == k;
    }
  }

  /** The leftmost position at which `needle` could be inserted. */
  method SearchSorted(haystack: seq<int>, needle: int) returns (at: nat)
    requires NonDecreasing(haystack)
    ensures at <= |haystack|
    ensures forall i :: 0 <= i < at ==> haystack[i] < needle
    ensures forall i :: at <= i < |haystack| ==> needle <= haystack[i]
  {
    var high := |haystack|;
    at := 0;
    while at < high
      invariant at <= high <= |haystack|
      invariant forall i :: 0 <= i < at ==> haystack[i] < needle
      invariant forall i :: high <= i < |haystack| ==> needle <= haystack[i]
    {
      var middle := (at + high) / 2;
      if haystack[middle] < needle {
        at := middle + 1;
      } else {
        high := middle;
      }
    }
  }
}
