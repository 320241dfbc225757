/** The timeline a Chunk Index states: tiling, and the chain a seek walks. */
module Timeline {
  import opened Wrappers
  import opened Populations
  import opened Sorting
  import opened Times
  import opened Records

  // ---- tiling ----

  predicate StartsBefore(a: Entry, b: Entry) {
    Less(a.t0, b.t0)
  }

  function ByStart(index: seq<Entry>): (ordered: seq<Entry>)
    ensures |ordered| == |index|
  {
    StableSort(index, StartsBefore)
  }

  /** The entries that start at an instant, in the order they stand. */
  function StartingAt(index: seq<Entry>, t: Time): seq<Entry> {
    if index == [] then [] else (if index[0].t0 == t then [index[0]] else []) + StartingAt(index[1..], t)
  }

  predicate StartsInOrder(index: seq<Entry>) {
    && (forall k :: 0 <= k < |index| ==> index[k].t0.Finite?)
    && forall j, k :: 0 <= j < k < |index| ==> index[j].t0.value <= index[k].t0.value
  }

  predicate StartFrom(v: real, index: seq<Entry>) {
    forall k :: 0 <= k < |index| ==> index[k].t0.Finite? && v <= index[k].t0.value
  }

  lemma {:induction false} InsertFrom(v: real, e: Entry, ys: seq<Entry>)
    requires StartFrom(v, ys) && e.t0.Finite? && v <= e.t0.value
    ensures StartFrom(v, Insert(e, ys, StartsBefore))
  {
    if ys != [] && StartsBefore(ys[0], e) { InsertFrom(v, e, ys[1..]); }
  }

  lemma {:induction false} ConsInOrder(e: Entry, ys: seq<Entry>)
    requires e.t0.Finite? && StartFrom(e.t0.value, ys) && StartsInOrder(ys)
    ensures StartsInOrder([e] + ys)
  {
    var r := [e] + ys;
    forall j, k | 0 <= j < k < |r|
      ensures r[j].t0.value <= r[k].t0.value
    {
      if j > 0 { assert ys[j - 1].t0.value <= ys[k - 1].t0.value; }
    }
  }

  lemma {:induction false} TailInOrder(ys: seq<Entry>)
    requires ys != [] && StartsInOrder(ys)
    ensures StartsInOrder(ys[1..]) && StartFrom(ys[0].t0.value, ys[1..])
  {
    forall j, k | 0 <= j < k < |ys[1..]|
      ensures ys[1..][j].t0.value <= ys[1..][k].t0.value
    {
      assert ys[j + 1].t0.value <= ys[k + 1].t0.value;
    }
  }

  lemma {:induction false} InsertInOrder(e: Entry, ys: seq<Entry>)
    requires e.t0.Finite? && StartsInOrder(ys)
    ensures StartsInOrder(Insert(e, ys, StartsBefore))
  {
    if ys == [] {
    } else if StartsBefore(ys[0], e) {
      TailInOrder(ys);
      InsertInOrder(e, ys[1..]);
      InsertFrom(ys[0].t0.value, e, ys[1..]);
      ConsInOrder(ys[0], Insert(e, ys[1..], StartsBefore));
    } else {
      ConsInOrder(e, ys);
    }
  }

  lemma {:induction false} InsertKeeps(e: Entry, ys: seq<Entry>, t: Time)
    ensures StartingAt(Insert(e, ys, StartsBefore), t) == StartingAt([e] + ys, t)
  {
    assert ([e] + ys)[1..] == ys;
    if ys != [] && StartsBefore(ys[0], e) {
      InsertKeeps(e, ys[1..], t);
      assert ([e] + ys[1..])[1..] == ys[1..];
      assert ys[0].t0 != e.t0;
    }
  }

  /** Readers take entries by start, and those that start together as the index has them. */
  lemma {:induction false} ByStartSorts(index: seq<Entry>, t: Time)
    requires forall k :: 0 <= k < |index| ==> index[k].t0.Finite?
    ensures multiset(ByStart(index)) == multiset(index)
    ensures StartsInOrder(ByStart(index)) && StartingAt(ByStart(index), t) == StartingAt(index, t)
  {
    SortPermutes(index, StartsBefore);
    if index != [] {
      ByStartSorts(index[1..], t);
      InsertInOrder(index[0], ByStart(index[1..]));
      InsertKeeps(index[0], ByStart(index[1..]), t);
      assert ([index[0]] + ByStart(index[1..]))[1..] == ByStart(index[1..]);
    }
  }

  /** Finite, or the open end of an open-ended timeline, and not backwards. */
  predicate Usable(ordered: seq<Entry>, k: nat, duration: Option<Time>)
    requires k < |ordered|
  {
    var e := ordered[k];
    && e.t0.Finite?
    && (e.t1.Finite? || (k == |ordered| - 1 && duration == Some(PosInf) && e.t1 == PosInf))
    && !Less(e.t1, e.t0)
  }

  /** No overlap, no gap, and, when the duration is known, no uncovered end. */
  predicate Tiles(ordered: seq<Entry>, duration: Option<Time>) {
    && (forall k :: 0 <= k < |ordered| ==> Usable(ordered, k, duration))
    && (forall k :: 0 <= k < |ordered| - 1 ==> Equal(ordered[k].t1, ordered[k + 1].t0))
    && (duration.Some? && ordered != [] ==>
         Equal(ordered[0].t0, Finite(0.0)) && Equal(ordered[|ordered| - 1].t1, duration.value))
  }

  method CheckTiling(index: seq<Entry>, duration: Option<Time>) returns (ok: bool)
    ensures ok <==> Tiles(ByStart(index), duration)
  {
    var ordered := ByStart(index);
    for k := 0 to |ordered|
      invariant forall j :: 0 <= j < k ==> Usable(ordered, j, duration)
    {
      if !Usable(ordered, k, duration) { return false; }
    }
    var k := 1;
    while k < |ordered|
      invariant 1 <= k
      invariant forall j :: 0 <= j < k - 1 && j < |ordered| - 1 ==> Equal(ordered[j].t1, ordered[j + 1].t0)
    {
      if !Equal(ordered[k - 1].t1, ordered[k].t0) { return false; }
      k := k + 1;
    }
    if duration.None? || ordered == [] { return true; }
    return Equal(ordered[0].t0, Finite(0.0)) && Equal(ordered[|ordered| - 1].t1, duration.value);
  }

  /** Tiling in real numbers: instants that never go back, each tile ending where the next
      one starts, the last at the duration, which alone may be infinite. */
  predicate RunsOn(ordered: seq<Entry>, duration: Option<Time>) {
    && (forall k :: 0 <= k < |ordered| ==> ordered[k].t0.Finite?)
    && (forall k :: 0 <= k < |ordered| - 1 ==> ordered[k].t1 == ordered[k + 1].t0 && ordered[k].t0.value <= ordered[k + 1].t0.value)
    && (ordered != [] ==>
          var last := ordered[|ordered| - 1];
          if last.t1.Finite? then last.t0.value <= last.t1.value else last.t1 == PosInf && duration == Some(PosInf))
    && (ordered != [] && duration.Some? ==> ordered[0].t0 == Finite(0.0) && ordered[|ordered| - 1].t1 == duration.value)
  }

  lemma {:induction false} TilesInReals(ordered: seq<Entry>, duration: Option<Time>)
    ensures Tiles(ordered, duration) <==> RunsOn(ordered, duration)
  {
    var n := |ordered|;
    if Tiles(ordered, duration) {
      forall k | 0 <= k < n
        ensures ordered[k].t0.Finite?
      {
        assert Usable(ordered, k, duration);
      }
      forall k | 0 <= k < n - 1
        ensures ordered[k].t1 == ordered[k + 1].t0 && ordered[k].t0.value <= ordered[k + 1].t0.value
      {
        assert Usable(ordered, k, duration);
      }
      assert n > 0 ==> Usable(ordered, n - 1, duration);
    }
    if RunsOn(ordered, duration) {
      forall k | 0 <= k < n
        ensures Usable(ordered, k, duration)
      {
        assert k < n - 1 ==> ordered[k].t1 == ordered[k + 1].t0;
      }
    }
  }

  predicate Covers(e: Entry, t: Time) {
    AtMost(e.t0, t) && Less(t, e.t1)
  }

  /** How many entries cover an instant. */
  function CountCovering(index: seq<Entry>, t: Time): nat {
    if index == [] then 0 else (if Covers(index[0], t) then 1 else 0) + CountCovering(index[1..], t)
  }

  lemma {:induction false} CountConcat(xs: seq<Entry>, ys: seq<Entry>, t: Time)
    ensures CountCovering(xs + ys, t) == CountCovering(xs, t) + CountCovering(ys, t)
  {
    if xs == [] {
      assert xs + ys == ys;
    } else {
      CountConcat(xs[1..], ys, t);
      assert (xs + ys)[1..] == xs[1..] + ys;
    }
  }

  lemma {:induction false} CountInserted(e: Entry, ys: seq<Entry>, t: Time)
    ensures CountCovering(Insert(e, ys, StartsBefore), t) == CountCovering([e] + ys, t)
  {
    if ys != [] && StartsBefore(ys[0], e) {
      CountInserted(e, ys[1..], t);
      assert ([e] + ys)[1..] == ys && ([e] + ys[1..])[1..] == ys[1..];
    }
  }

  lemma {:induction false} CountSorted(index: seq<Entry>, t: Time)
    ensures CountCovering(ByStart(index), t) == CountCovering(index, t)
  {
    if index != [] {
      CountSorted(index[1..], t);
      CountInserted(index[0], ByStart(index[1..]), t);
      assert ([index[0]] + ByStart(index[1..]))[1..] == ByStart(index[1..]);
    }
  }

  /** The first `k` tiles cover each instant from the first start to the last end once. */
  lemma {:induction false} TilesCoverOnce(ordered: seq<Entry>, duration: Option<Time>, k: nat, t: Time)
    requires Tiles(ordered, duration) && 0 < k <= |ordered| && t.Finite?
    ensures CountCovering(ordered[..k], t) == if AtMost(ordered[0].t0, t) && Less(t, ordered[k - 1].t1) then 1 else 0
    ensures AtMost(ordered[0].t0, ordered[k - 1].t0)
    decreases k
  {
    assert Usable(ordered, k - 1, duration);
    if k == 1 {
      assert ordered[..1] == [ordered[0]];
    } else {
      assert Usable(ordered, k - 2, duration);
      TilesCoverOnce(ordered, duration, k - 1, t);
      assert ordered[..k] == ordered[..k - 1] + [ordered[k - 1]];
      CountConcat(ordered[..k - 1], [ordered[k - 1]], t);
      assert Equal(ordered[k - 2].t1, ordered[k - 1].t0);
    }
  }

  /** Seeking is a lookup: an accepted, non-empty index covers every instant of the
      timeline with exactly one entry, in whatever order its entries stand, with
      zero-width entries and an open end allowed. */
  lemma {:induction false} SeekIsLookup(index: seq<Entry>, duration: Time, t: Time)
    requires index != [] && Tiles(ByStart(index), Some(duration))
    requires t.Finite? && 0.0 <= t.value && Less(t, duration)
    ensures CountCovering(index, t) == 1
  {
    var ordered := ByStart(index);
    TilesCoverOnce(ordered, Some(duration), |ordered|, t);
    assert ordered[..|ordered|] == ordered;
    CountSorted(index, t);
  }

  // ---- the chain ----

  /** The entry a dictionary keyed by chunk offset holds: the last one stored. */
  function Lookup(index: seq<Entry>, o: nat): (e: Option<Entry>)
    ensures e.Some? ==> e.value in index && e.value.offset == o
    ensures e.None? ==> forall k :: 0 <= k < |index| ==> index[k].offset != o
  {
    if index == [] then None
    else if index[|index| - 1].offset == o then Some(index[|index| - 1])
    else Lookup(index[..|index| - 1], o)
  }

  /** The keyframe and deltas behind an entry, oldest first. */
  function ChainOf(index: seq<Entry>, e: Entry): (chain: Option<seq<Entry>>)
    ensures chain.Some? ==> chain.value != [] && chain.value[|chain.value| - 1] == e
    decreases e.offset
  {
    if e.kind == 0 then Some([e])
    else if e.reference >= e.offset then None
    else
      var reference := Lookup(index, e.reference);
      if reference.None? then None
      else
        var front := ChainOf(index, reference.value);
        if front.None? then None else Some(front.value + [e])
  }

  /** Walk backwards from an entry to its keyframe, refusing what is not behind it, not in
      the index, or longer than the index; then hold the walk against the stated depth. */
  method ChainFrom(index: seq<Entry>, current: Entry) returns (r: Result<seq<Entry>, ReadError>)
    ensures r.Success? <==>
      && ChainOf(index, current).Some?
      && (|ChainOf(index, current).value| == 1 || |ChainOf(index, current).value| <= |index|)
      && |ChainOf(index, current).value| - 1 == current.depth
    ensures r.Success? ==> r.value == ChainOf(index, current).value
  {
    hide Lookup;
    var chain := [current];
    while chain[0].kind != 0
      invariant chain != []
      invariant ChainOf(index, current).Some? <==> ChainOf(index, chain[0]).Some?
      invariant ChainOf(index, current).Some? ==> ChainOf(index, current).value == ChainOf(index, chain[0]).value + chain[1..]
      invariant |chain| == 1 || |chain| <= |index|
      decreases chain[0].offset
    {
      var head := chain[0];
      if head.reference >= head.offset { return Failure(ForwardReference); }
      var reference := Lookup(index, head.reference);
      if reference.None? { return Failure(BrokenReference); }
      chain := [reference.value] + chain;
      if |chain| > |index| { return Failure(ChainWithoutKeyframe); }
    }
    assert [chain[0]] + chain[1..] == chain;
    if |chain| - 1 != current.depth { return Failure(DepthMismatch); }
    return Success(chain);
  }

  function Offsets(chain: seq<Entry>): (r: seq<int>)
    ensures |r| == |chain|
    ensures forall k :: 0 <= k < |chain| ==> r[k] == chain[k].offset
  {
    seq(|chain|, k requires 0 <= k < |chain| => chain[k].offset)
  }

  /** Every step of a chain goes strictly backwards, and stays inside the index. */
  lemma {:induction false} ChainDescends(index: seq<Entry>, e: Entry)
    requires ChainOf(index, e).Some? && e in index
    ensures var c := ChainOf(index, e).value;
      && Increasing(Offsets(c))
      && (forall k :: 0 <= k < |c| ==> c[k] in index && c[k].offset <= e.offset)
      && c[0].kind == 0 && (forall k :: 0 < k < |c| ==> c[k].kind != 0 && c[k].reference == c[k - 1].offset)
    decreases e.offset
  {
    if e.kind != 0 {
      ChainDescends(index, Lookup(index, e.reference).value);
    }
  }

  /** The walk's length guard never fires for an entry of the index: offsets strictly
      decrease, so no chain is longer than the index it is drawn from. */
  lemma {:induction false} ChainFitsIndex(index: seq<Entry>, e: Entry)
    requires ChainOf(index, e).Some? && e in index
    ensures |ChainOf(index, e).value| <= |index|
  {
    var c := ChainOf(index, e).value;
    ChainDescends(index, e);
    UniqueCount(Offsets(c));
    AtMostOneEach(Offsets(index));
    forall o | o in Ids(Offsets(c))
      ensures o in Ids(Offsets(index))
    {
      var k :| 0 <= k < |c| && Offsets(c)[k] == o;
      assert c[k] in index;
      var j :| 0 <= j < |index| && index[j] == c[k];
      assert Offsets(index)[j] == o;
    }
    SubsetCount(Ids(Offsets(c)), Ids(Offsets(index)));
  }

  /** The first entry, in index order, that covers an instant. */
  function Covering(index: seq<Entry>, t: Time): (e: Option<Entry>)
    ensures e.Some? ==> e.value in index && Covers(e.value, t)
    ensures e.None? ==> CountCovering(index, t) == 0
  {
    if index == [] then None
    else if Covers(index[0], t) then Some(index[0])
    else Covering(index[1..], t)
  }

  /** The records a seek must read, answered from the index alone. */
  method ChainFor(index: seq<Entry>, t: Time) returns (r: Result<seq<Entry>, ReadError>)
    ensures r.Success? <==>
      && Covering(index, t).Some? && ChainOf(index, Covering(index, t).value).Some?
      && |ChainOf(index, Covering(index, t).value).value| - 1 == Covering(index, t).value.depth
    ensures r.Success? ==> r.value == ChainOf(index, Covering(index, t).value).value
  {
    var current := Covering(index, t);
    if current.None? { return Failure(NonTiling); }
    if ChainOf(index, current.value).Some? { ChainFitsIndex(index, current.value); }
    r := ChainFrom(index, current.value);
  }
}
