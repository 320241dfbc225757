/** The identities a timeline has introduced, in two tiers: a large sorted array, and a
    small set of recent arrivals folded into it now and then. */
module IntroducedIds {
  import opened Wrappers
  import opened Populations
  import opened Sorting

  /** How many arrivals the set tier may hold. */
  const UNSETTLED_IDS: nat := 65536

  // ---- sorted arrays ----

  lemma {:induction false} IncreasingIsUnique(xs: seq<int>)
    requires Increasing(xs)
    ensures Unique(xs) && |Ids(xs)| == |xs|
  {
    UniqueCount(xs);
  }

  /** Which of the needles a sorted haystack holds. */
  method InSorted(haystack: seq<int>, needles: seq<int>) returns (mask: seq<bool>)
    requires Increasing(haystack)
    ensures |mask| == |needles| && forall i :: 0 <= i < |needles| ==> (mask[i] <==> needles[i] in haystack)
  {
    if haystack == [] { return seq(|needles|, _ => false); }
    mask := [];
    for i := 0 to |needles|
      invariant |mask| == i && forall j :: 0 <= j < i ==> (mask[j] <==> needles[j] in haystack)
    {
      var at := SearchSorted(haystack, needles[i]);
      var clipped := if at < |haystack| then at else |haystack| - 1;
      mask := mask + [haystack[clipped] == needles[i]];
    }
  }

  /** Sorting distinct values: strictly increasing, the same values. */
  method SortUnique(xs: seq<int>) returns (r: seq<int>)
    requires Unique(xs)
    ensures Increasing(r) && Ids(r) == Ids(xs) && |r| == |xs|
  {
    r := SortInts(xs);
    SortIntsSorts(xs);
    SortedIncreases(xs);
    assert forall x :: x in Ids(r) <==> x in Ids(xs);
  }

  lemma {:induction false} SortedIncreases(xs: seq<int>)
    requires Unique(xs)
    ensures Increasing(SortInts(xs))
  {
    var r := SortInts(xs);
    SortIntsSorts(xs);
    UniqueCount(xs);
    assert Ids(r) == Ids(xs);
    FullCountIsUnique(r);
  }

  /** As many values as places: none is repeated. */
  lemma {:induction false} FullCountIsUnique(xs: seq<int>)
    requires |Ids(xs)| == |xs|
    ensures Unique(xs)
  {
    if xs != [] {
      var rest := xs[1..];
      AtMostOneEach(rest);
      assert Ids(xs) == Ids(rest) + {xs[0]};
      assert xs[0] in rest ==> Ids(xs) == Ids(rest);
      FullCountIsUnique(rest);
      forall i, j | 0 <= i < j < |xs|
        ensures xs[i] != xs[j]
      {
        assert xs[j] == rest[j - 1] && rest[j - 1] in rest;
        if i > 0 { assert xs[i] == rest[i - 1]; }
      }
    }
  }

  /** Insert each arrival before its place in the array. */
  method InsertSorted(xs: seq<int>, arrived: seq<int>) returns (r: seq<int>)
    requires Increasing(xs) && Increasing(arrived) && Ids(xs) !! Ids(arrived)
    ensures Increasing(r) && Ids(r) == Ids(xs) + Ids(arrived)
  {
    r := [];
    var from := 0;
    for i := 0 to |arrived|
      invariant from <= |xs| && Increasing(r)
      invariant Ids(r) == Ids(xs[..from]) + Ids(arrived[..i])
      invariant forall k, j :: 0 <= k < |r| && from <= j < |xs| ==> r[k] < xs[j]
      invariant forall k, j :: 0 <= k < |r| && i <= j < |arrived| ==> r[k] < arrived[j]
    {
      var at := SearchSorted(xs, arrived[i]);
      assert arrived[i] in Ids(arrived) && forall j :: 0 <= j < |xs| ==> xs[j] in Ids(xs);
      MergeOne(xs, arrived, r, from, at, i);
      r := r + xs[from..at] + [arrived[i]];
      from := at;
    }
    MergeRest(xs, arrived, r, from);
    r := r + xs[from..];
  }

  /** Everything before `from` is below the needle, so its place is not before `from`. */
  lemma {:induction false} PlacesFollow(xs: seq<int>, needle: int, from: nat, at: nat)
    requires from <= |xs| && at <= |xs|
    requires (forall j :: 0 <= j < from ==> xs[j] < needle) && (forall j :: at <= j < |xs| ==> needle < xs[j])
    ensures from <= at
  {
    for k := 0 to from
      invariant k <= at
    {
      assert xs[k] < needle;
    }
  }

  lemma {:induction false} MergedIds(xs: seq<int>, arrived: seq<int>, r: seq<int>, from: nat, at: nat, i: nat)
    requires from <= at <= |xs| && i < |arrived| && Ids(r) == Ids(xs[..from]) + Ids(arrived[..i])
    ensures Ids(r + xs[from..at] + [arrived[i]]) == Ids(xs[..at]) + Ids(arrived[..i + 1])
  {
    assert xs[..at] == xs[..from] + xs[from..at];
    assert arrived[..i + 1] == arrived[..i] + [arrived[i]];
    forall x
      ensures x in Ids(r + xs[from..at] + [arrived[i]]) <==> x in Ids(xs[..at]) + Ids(arrived[..i + 1])
    {
      assert x in Ids(r) <==> x in xs[..from] || x in arrived[..i];
    }
  }

  lemma {:induction false} MergeOne(xs: seq<int>, arrived: seq<int>, r: seq<int>, from: nat, at: nat, i: nat)
    requires Increasing(xs) && Increasing(arrived) && Increasing(r) && from <= |xs| && at <= |xs| && i < |arrived|
    requires Ids(r) == Ids(xs[..from]) + Ids(arrived[..i])
    requires forall k, j :: 0 <= k < |r| && from <= j < |xs| ==> r[k] < xs[j]
    requires forall k, j :: 0 <= k < |r| && i <= j < |arrived| ==> r[k] < arrived[j]
    requires (forall j :: 0 <= j < at ==> xs[j] < arrived[i]) && (forall j :: at <= j < |xs| ==> arrived[i] < xs[j])
    ensures from <= at
    ensures var merged := r + xs[from..at] + [arrived[i]];
      && Increasing(merged) && Ids(merged) == Ids(xs[..at]) + Ids(arrived[..i + 1])
      && (forall k, j :: 0 <= k < |merged| && at <= j < |xs| ==> merged[k] < xs[j])
      && (forall k, j :: 0 <= k < |merged| && i + 1 <= j < |arrived| ==> merged[k] < arrived[j])
  {
    forall j | 0 <= j < from
      ensures xs[j] < arrived[i]
    {
      assert xs[..from][j] == xs[j] && xs[j] in Ids(xs[..from]) && xs[j] in Ids(r);
      var k :| 0 <= k < |r| && r[k] == xs[j];
    }
    PlacesFollow(xs, arrived[i], from, at);
    MergedIds(xs, arrived, r, from, at, i);
    hide Ids;
    MergedInOrder(xs, r, from, at, arrived[i]);
  }

  /** Three increasing runs, each below the next. */
  lemma {:induction false} MergedInOrder(xs: seq<int>, r: seq<int>, from: nat, at: nat, x: int)
    requires Increasing(xs) && Increasing(r) && from <= at <= |xs|
    requires forall k, j :: 0 <= k < |r| && from <= j < |xs| ==> r[k] < xs[j]
    requires (forall k :: 0 <= k < |r| ==> r[k] < x) && (forall j :: 0 <= j < at ==> xs[j] < x)
    ensures Increasing(r + xs[from..at] + [x])
    ensures forall k :: 0 <= k < |r + xs[from..at] + [x]| ==> (r + xs[from..at] + [x])[k] <= x
    ensures forall k, j :: 0 <= k < |r + xs[from..at]| && at <= j < |xs| ==> (r + xs[from..at])[k] < xs[j]
  {
  }

  lemma {:induction false} MergeRest(xs: seq<int>, arrived: seq<int>, r: seq<int>, from: nat)
    requires Increasing(xs) && Increasing(r) && from <= |xs|
    requires Ids(r) == Ids(xs[..from]) + Ids(arrived[..|arrived|])
    requires forall k, j :: 0 <= k < |r| && from <= j < |xs| ==> r[k] < xs[j]
    ensures Increasing(r + xs[from..]) && Ids(r + xs[from..]) == Ids(xs) + Ids(arrived)
  {
    assert arrived[..|arrived|] == arrived;
    forall x
      ensures x in Ids(r + xs[from..]) <==> x in Ids(xs) + Ids(arrived)
    {
      assert xs == xs[..from] + xs[from..];
      assert x in Ids(r) <==> x in xs[..from] || x in arrived;
    }
  }

  lemma {:induction false} JoinUnique(xs: seq<int>, ys: seq<int>)
    requires Unique(xs) && Unique(ys) && Ids(xs) !! Ids(ys)
    ensures Unique(xs + ys) && Ids(xs + ys) == Ids(xs) + Ids(ys)
  {
    assert forall i, j :: 0 <= i < |xs| && 0 <= j < |ys| ==> xs[i] in Ids(xs) && ys[j] in Ids(ys);
  }

  /** `id` is the first of `born` that was introduced before. */
  predicate IsFirstRepeat(born: seq<int>, before: set<int>, id: int) {
    exists k :: 0 <= k < |born| && born[k] == id && id in before && forall j :: 0 <= j < k ==> born[j] !in before
  }

  /** `settled` is a sorted array; `unsettled` stands for a hash set, so only its members
      matter and never their order. */
  class IntroducedIdentities {
    var settled: seq<int>
    var unsettled: seq<int>

    /** The array is strictly sorted, the tiers are disjoint, and the set tier is small. */
    ghost predicate Valid()
      reads this
    {
      Increasing(settled) && Unique(unsettled) && Ids(settled) !! Ids(unsettled) && |unsettled| <= UNSETTLED_IDS
    }

    /** The identities introduced, whichever tier holds them. */
    ghost function Contents(): set<int>
      reads this
    {
      Ids(settled) + Ids(unsettled)
    }

    constructor ()
      ensures Valid() && Contents() == {}
    {
      settled, unsettled := [], [];
    }

    method Count() returns (n: nat)
      requires Valid()
      ensures n == |Contents()|
    {
      IncreasingIsUnique(settled);
      UniqueCount(unsettled);
      n := |settled| + |unsettled|;
    }

    /** The first of `born`, in the order given, that either tier holds. */
    method FirstRepeat(born: seq<int>) returns (id: Option<int>)
      requires Valid()
      ensures id.None? <==> forall k :: 0 <= k < |born| ==> born[k] !in Contents()
      ensures id.Some? ==> IsFirstRepeat(born, Contents(), id.value)
    {
      hide Increasing, Unique;
      if settled == [] && unsettled == [] { return None; }
      var earlier := InSorted(settled, born);
      var recent := InUnsettled(born);
      for k := 0 to |born|
        invariant forall j :: 0 <= j < k ==> born[j] !in Contents()
      {
        if earlier[k] || recent[k] { return Some(born[k]); }
      }
      return None;
    }

    /** Where the set tier holds one of `born`: every place, or only the first when it is
        the smaller side that is searched one by one. */
    method InUnsettled(born: seq<int>) returns (mask: seq<bool>)
      requires Valid()
      ensures |mask| == |born|
      ensures forall i :: 0 <= i < |born| && mask[i] ==> born[i] in unsettled
      ensures forall i :: 0 <= i < |born| && born[i] in unsettled ==> exists j :: 0 <= j <= i && mask[j]
    {
      if unsettled == [] { return seq(|born|, _ => false); }
      if |born| <= |unsettled| {
        mask := seq(|born|, _ => false);
        for i := 0 to |born|
          invariant mask == seq(|born|, _ => false)
          invariant forall j :: 0 <= j < i ==> born[j] !in unsettled
        {
          if born[i] in unsettled {
            mask := mask[i := true];
            assert mask[i];
            return;
          }
        }
      } else {
        var sorted := SortUnique(unsettled);
        mask := InSorted(sorted, born);
        assert forall x :: (x in sorted <==> x in Ids(sorted)) && (x in unsettled <==> x in Ids(unsettled));
      }
    }

    /** Fold the set tier into the array. */
    method Settle()
      requires Valid()
      modifies this
      ensures Valid() && Contents() == old(Contents()) && unsettled == []
    {
      if unsettled == [] { return; }
      var arrived := SortUnique(unsettled);
      MergeSorted(arrived);
      unsettled := [];
      assert Ids(unsettled) == {};
    }

    method MergeSorted(arrived: seq<int>)
      requires Valid() && Increasing(arrived) && Ids(settled) !! Ids(arrived)
      modifies this`settled
      ensures Increasing(settled) && Ids(settled) == old(Ids(settled)) + Ids(arrived)
    {
      if settled != [] {
        settled := InsertSorted(settled, arrived);
      } else {
        assert Ids(settled) == {};
        settled := arrived;
      }
    }

    /** A batch as large as the set tier may grow goes straight into the array. */
    method AddLarge(born: seq<int>)
      requires Valid() && Unique(born) && Ids(born) !! Contents()
      modifies this
      ensures Valid() && Contents() == old(Contents()) + Ids(born) && unsettled == []
    {
      Settle();
      var arrived := SortUnique(born);
      MergeSorted(arrived);
    }

    /** A small batch joins the set tier. */
    method AddSmall(born: seq<int>)
      requires Valid() && Unique(born) && Ids(born) !! Contents() && |unsettled| + |born| <= UNSETTLED_IDS
      modifies this`unsettled
      ensures Valid() && Contents() == old(Contents()) + Ids(born)
    {
      JoinUnique(unsettled, born);
      unsettled := unsettled + born;
    }

    /** Take identities already known to be new. A large batch bypasses the set tier, and a
        batch that would overfill it folds it first; what is left in it afterwards is below
        1024 or a quarter of the array, and below 65536. */
    method Add(born: seq<int>)
      requires Valid() && Unique(born) && Ids(born) !! Contents()
      modifies this
      ensures Valid() && Contents() == old(Contents()) + Ids(born)
      ensures born != [] ==> |unsettled| < 65536 && (|unsettled| < 1024 || |unsettled| < |settled| / 4)
      ensures |born| >= 65536 ==> unsettled == []
    {
      if born == [] { return; }
      if |born| >= UNSETTLED_IDS {
        AddLarge(born);
        return;
      }
      if |unsettled| + |born| > UNSETTLED_IDS { Settle(); }
      AddSmall(born);
      var quarter := |settled| / 4;
      var threshold := if quarter < 1024 then 1024 else quarter;
      if |unsettled| >= (if threshold < UNSETTLED_IDS then threshold else UNSETTLED_IDS) { Settle(); }
    }
  }
}
