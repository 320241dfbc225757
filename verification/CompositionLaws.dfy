/** What composition does not depend on: row order, whether a zero identity lane is
    physically present, and, for an accepted delta, the order of its three groups. */
module CompositionLaws {
  import opened Registry
  import opened Populations

  // ---- valid populations stay valid ----

  lemma {:induction false} StatedIsValid(t: Table, id: int, a: nat)
    requires Shaped(t) && Tall(t)
    ensures |Stated(t, id, a)| == Channels(a)
    ensures BinsInRange(t) ==> InRange(Stated(t, id, a))
    ensures RotationsInRange(t) && a == ROTATION_INDEX ==> NamesComponent(Stated(t, id, a))
  {
    ZeroRow(a);
  }

  lemma {:induction false} HeldIsValid(p: Population, id: int, a: nat)
    requires ValidPopulation(p)
    ensures |Held(p, id, a)| == Channels(a) && InRange(Held(p, id, a))
    ensures a == ROTATION_INDEX ==> NamesComponent(Held(p, id, a))
  {
    ZeroRow(a);
    if id in p.rows { assert ValidGaussian(p.lanes, p.rows[id]); }
  }

  lemma {:induction false} UpdatedCellIsValid(p: Population, d: Delta, id: int, a: nat)
    requires ValidPopulation(p) && ShapedDelta(d) && Composable(p, d)
    requires id in d.updates.ids && a in d.updates.bins
    ensures var moved := if IsAbsoluteInUpdate(a) then Stated(d.updates, id, a) else Moved(Held(p, id, a), Stated(d.updates, id, a));
            |moved| == Channels(a) && InRange(moved)
  {
    assert !Breaks(p, d, StreamElementCountMismatch) && !Breaks(p, d, BinOverflow) && !Breaks(p, d, UnknownGaussianId);
    StatedIsValid(d.updates, id, a);
    HeldIsValid(p, id, a);
    var k := IndexOf(d.updates.ids, id);
    assert Survives(p, d, id);
    assert !UpdateOverflows(p, d.updates, a, k);
  }

  lemma {:induction false} CellAfterIsValid(p: Population, d: Delta, id: int, a: nat)
    requires ValidPopulation(p) && ShapedDelta(d) && Composable(p, d)
    ensures |CellAfter(p, d, id, a)| == Channels(a) && InRange(CellAfter(p, d, id, a))
    ensures a == ROTATION_INDEX ==> NamesComponent(CellAfter(p, d, id, a))
  {
    assert !Breaks(p, d, StreamElementCountMismatch) && !Breaks(p, d, BinOverflow) && !Breaks(p, d, RotationIndexOutOfRange);
    if id in d.births.ids {
      StatedIsValid(d.births, id, a);
    } else if id in d.updates.ids && a in d.updates.bins {
      UpdatedCellIsValid(p, d, id, a);
      StatedIsValid(d.updates, id, a);
    } else {
      HeldIsValid(p, id, a);
    }
  }

  /** A composable delta takes a valid population to a valid population. */
  lemma {:induction false} ComposeKeepsValid(p: Population, d: Delta)
    requires ValidPopulation(p) && ShapedDelta(d) && Composable(p, d)
    ensures ValidPopulation(Compose(p, d))
  {
    var c := Compose(p, d);
    forall id | id in c.rows
      ensures ValidGaussian(c.lanes, c.rows[id])
    {
      forall a | a in c.rows[id]
        ensures |c.rows[id][a]| == Channels(a) && InRange(c.rows[id][a])
        ensures a == ROTATION_INDEX ==> NamesComponent(c.rows[id][a])
      {
        CellAfterIsValid(p, d, id, a);
      }
    }
  }

  // ---- row order ----

  /** A permutation of the rows, applied to the identities and every column alike. */
  predicate IsPermutation(order: seq<nat>, n: nat) {
    && |order| == n
    && (forall i :: 0 <= i < n ==> order[i] < n)
    && (forall i, j :: 0 <= i < j < n ==> order[i] != order[j])
  }

  function Permute<T>(xs: seq<T>, order: seq<nat>): (r: seq<T>)
    requires forall i :: 0 <= i < |order| ==> order[i] < |xs|
    ensures |r| == |order| && forall i :: 0 <= i < |r| ==> r[i] == xs[order[i]]
  {
    seq(|order|, i requires 0 <= i < |order| => xs[order[i]])
  }

  function PermuteTable(t: Table, order: seq<nat>): Table
    requires IsPermutation(order, |t.ids|) && Tall(t)
  {
    Table(Permute(t.ids, order), map a | a in t.bins :: Permute(t.bins[a], order))
  }

  function Below(n: nat): (s: set<int>)
    ensures |s| == n
    ensures forall k :: k in s <==> 0 <= k < n
  {
    if n == 0 then {} else Below(n - 1) + {n - 1}
  }

  lemma {:induction false} SubsetOfSameSize(x: set<int>, y: set<int>)
    requires x <= y && |x| == |y|
    ensures x == y
  {
    assert y == x + (y - x);
  }

  /** No position is missed. */
  lemma {:induction false} PermutationCovers(order: seq<nat>, n: nat, k: nat)
    requires IsPermutation(order, n) && k < n
    ensures k in order
  {
    UniqueCount(order);
    SubsetOfSameSize(Ids(order), Below(n));
    assert k in Below(n);
  }

  lemma {:induction false} PermutedIds(ids: seq<int>, order: seq<nat>)
    requires IsPermutation(order, |ids|)
    ensures forall id :: id in Permute(ids, order) <==> id in ids
    ensures Unique(Permute(ids, order)) <==> Unique(ids)
  {
    var p := Permute(ids, order);
    forall id | id in ids
      ensures id in p
    {
      var k := IndexOf(ids, id);
      PermutationCovers(order, |ids|, k);
      var i :| 0 <= i < |order| && order[i] == k;
      assert p[i] == id;
    }
    if Unique(p) {
      forall i, j | 0 <= i < j < |ids|
        ensures ids[i] != ids[j]
      {
        PermutationCovers(order, |ids|, i);
        PermutationCovers(order, |ids|, j);
        var x :| 0 <= x < |order| && order[x] == i;
        var y :| 0 <= y < |order| && order[y] == j;
        assert p[x] == ids[i] && p[y] == ids[j] && x != y;
      }
    }
  }

  lemma {:induction false} PermutedCell(t: Table, order: seq<nat>, k: nat, a: nat)
    requires Tall(t) && IsPermutation(order, |t.ids|) && k < |t.ids|
    ensures Cell(PermuteTable(t, order), k, a) == Cell(t, order[k], a)
  {
  }

  lemma {:induction false} PermutedStated(t: Table, order: seq<nat>, id: int, a: nat)
    requires Tall(t) && Unique(t.ids) && IsPermutation(order, |t.ids|)
    ensures Stated(PermuteTable(t, order), id, a) == Stated(t, id, a)
  {
    var p := PermuteTable(t, order);
    PermutedIds(t.ids, order);
    if id in t.ids {
      var k := IndexOf(p.ids, id);
      PermutedCell(t, order, k, a);
      IndexOfUnique(t.ids, order[k]);
    }
  }

  lemma {:induction false} PermutedGaussian(t: Table, order: seq<nat>, id: int)
    requires Tall(t) && Unique(t.ids) && IsPermutation(order, |t.ids|) && id in t.ids
    ensures id in PermuteTable(t, order).ids
    ensures var p := PermuteTable(t, order); GaussianAt(p, IndexOf(p.ids, id)) == GaussianAt(t, IndexOf(t.ids, id))
  {
    var p := PermuteTable(t, order);
    PermutedIds(t.ids, order);
    forall a | a in t.bins.Keys + IDENTITY_LANES
      ensures Cell(p, IndexOf(p.ids, id), a) == Cell(t, IndexOf(t.ids, id), a)
    {
      PermutedStated(t, order, id, a);
    }
  }

  /** A state denotes the same population whatever order its rows are in. */
  lemma {:induction false} RowOrderOfState(t: Table, order: seq<nat>)
    requires Tall(t) && Unique(t.ids) && IsPermutation(order, |t.ids|)
    ensures View(PermuteTable(t, order)) == View(t)
  {
    var p := PermuteTable(t, order);
    PermutedIds(t.ids, order);
    forall id | id in t.ids
      ensures GaussianAt(p, IndexOf(p.ids, id)) == View(t).rows[id]
    {
      PermutedGaussian(t, order, id);
    }
    ViewByRows(p, View(t));
  }

  /** Row-by-row properties of a column hold of a permuted one and conversely. */
  /** A column's rows are all in range, and all name components, in any order. */
  lemma {:induction false} PermutedColumn(xs: seq<Row>, order: seq<nat>)
    requires IsPermutation(order, |xs|)
    ensures |Permute(xs, order)| == |xs|
    ensures (forall k :: 0 <= k < |xs| ==> InRange(Permute(xs, order)[k])) <==> forall k :: 0 <= k < |xs| ==> InRange(xs[k])
    ensures (forall k :: 0 <= k < |xs| ==> NamesComponent(Permute(xs, order)[k])) <==> forall k :: 0 <= k < |xs| ==> NamesComponent(xs[k])
  {
    hide InRange, NamesComponent;
    var r := Permute(xs, order);
    forall k | 0 <= k < |xs|
      ensures InRange(r[k]) || exists i :: 0 <= i < |xs| && !InRange(xs[i])
      ensures NamesComponent(r[k]) || exists i :: 0 <= i < |xs| && !NamesComponent(xs[i])
      ensures InRange(xs[k]) || exists i :: 0 <= i < |xs| && !InRange(r[i])
      ensures NamesComponent(xs[k]) || exists i :: 0 <= i < |xs| && !NamesComponent(r[i])
    {
      assert r[k] == xs[order[k]];
      var i := PlaceOf(xs, order, k);
    }
  }

  /** Where a rearrangement puts an element. */
  lemma {:induction false} PlaceOf<T>(xs: seq<T>, order: seq<nat>, k: nat) returns (i: nat)
    requires IsPermutation(order, |xs|) && k < |xs|
    ensures i < |Permute(xs, order)| && Permute(xs, order)[i] == xs[k]
  {
    PermutationCovers(order, |xs|, k);
    i :| 0 <= i < |order| && order[i] == k;
  }

  lemma {:induction false} PermutedRows(t: Table, order: seq<nat>)
    requires Tall(t) && IsPermutation(order, |t.ids|)
    ensures var p := PermuteTable(t, order);
            && Tall(p)
            && (BinsInRange(p) <==> BinsInRange(t))
            && (RotationsInRange(p) <==> RotationsInRange(t))
  {
    hide InRange, NamesComponent;
    var p := PermuteTable(t, order);
    forall a | a in t.bins
      ensures |p.bins[a]| == |p.ids|
      ensures (forall k :: 0 <= k < |p.bins[a]| ==> InRange(p.bins[a][k])) <==> forall k :: 0 <= k < |t.bins[a]| ==> InRange(t.bins[a][k])
      ensures (forall k :: 0 <= k < |p.bins[a]| ==> NamesComponent(p.bins[a][k])) <==> forall k :: 0 <= k < |t.bins[a]| ==> NamesComponent(t.bins[a][k])
    {
      PermutedColumn(t.bins[a], order);
    }
  }

  lemma {:induction false} PermutedOverflow(p: Population, u: Table, order: seq<nat>, a: nat)
    requires Tall(u) && IsPermutation(order, |u.ids|) && a in u.bins
    ensures var v := PermuteTable(u, order);
            (exists k :: 0 <= k < |u.bins[a]| && UpdateOverflows(p, u, a, k)) <==>
            (exists k :: 0 <= k < |v.bins[a]| && UpdateOverflows(p, v, a, k))
  {
    var v := PermuteTable(u, order);
    if i :| 0 <= i < |v.bins[a]| && UpdateOverflows(p, v, a, i) {
      assert UpdateOverflows(p, u, a, order[i]);
    }
    if k :| 0 <= k < |u.bins[a]| && UpdateOverflows(p, u, a, k) {
      PermutationCovers(order, |u.ids|, k);
      var i :| 0 <= i < |order| && order[i] == k;
      assert UpdateOverflows(p, v, a, i);
    }
  }

  lemma {:induction false} PermutedOverflows(p: Population, u: Table, order: seq<nat>)
    requires Tall(u) && IsPermutation(order, |u.ids|)
    ensures var v := PermuteTable(u, order);
            (exists a, k :: a in u.bins && 0 <= k < |u.bins[a]| && UpdateOverflows(p, u, a, k)) <==>
            (exists a, k :: a in v.bins && 0 <= k < |v.bins[a]| && UpdateOverflows(p, v, a, k))
  {
    var v := PermuteTable(u, order);
    if a, k :| a in u.bins && 0 <= k < |u.bins[a]| && UpdateOverflows(p, u, a, k) {
      PermutedOverflow(p, u, order, a);
    }
    if a, k :| a in v.bins && 0 <= k < |v.bins[a]| && UpdateOverflows(p, v, a, k) {
      PermutedOverflow(p, u, order, a);
    }
  }

  /** The same delta with each group's rows in another order. */
  function PermuteDelta(d: Delta, updates: seq<nat>, births: seq<nat>, deaths: seq<nat>): Delta
    requires Tall(d.updates) && IsPermutation(updates, |d.updates.ids|)
    requires Tall(d.births) && IsPermutation(births, |d.births.ids|)
    requires IsPermutation(deaths, |d.deaths|)
  {
    Delta(PermuteTable(d.updates, updates), PermuteTable(d.births, births), Permute(d.deaths, deaths))
  }

  /** Two deltas with the same identities, columns and rows, in whatever order. */
  ghost predicate SameContent(p: Population, d: Delta, e: Delta) {
    && SameGroup(d.updates, e.updates) && SameGroup(d.births, e.births)
    && (forall id :: id in d.deaths <==> id in e.deaths) && (Unique(d.deaths) <==> Unique(e.deaths))
    && ((exists a, k :: a in d.updates.bins && 0 <= k < |d.updates.bins[a]| && UpdateOverflows(p, d.updates, a, k)) <==>
        (exists a, k :: a in e.updates.bins && 0 <= k < |e.updates.bins[a]| && UpdateOverflows(p, e.updates, a, k)))
  }

  ghost predicate SameGroup(t: Table, g: Table) {
    && t.bins.Keys == g.bins.Keys && (t.ids == [] <==> g.ids == [])
    && (forall id :: id in t.ids <==> id in g.ids)
    && (Unique(t.ids) <==> Unique(g.ids)) && (Tall(t) <==> Tall(g))
    && (BinsInRange(t) <==> BinsInRange(g)) && (RotationsInRange(t) <==> RotationsInRange(g))
  }

  lemma {:induction false} ApartByMembers(xs: seq<int>, ys: seq<int>)
    ensures Apart(xs, ys) <==> forall id :: id in xs ==> id !in ys
  {
    if forall id :: id in xs ==> id !in ys {
      forall i | 0 <= i < |xs|
        ensures xs[i] !in ys
      {
        var id := xs[i];
        assert id in xs;
      }
    }
  }

  lemma {:induction false} SameApart(xs: seq<int>, ys: seq<int>, xs': seq<int>, ys': seq<int>)
    requires forall id :: id in xs <==> id in xs'
    requires forall id :: id in ys <==> id in ys'
    ensures Apart(xs, ys) <==> Apart(xs', ys')
  {
    ApartByMembers(xs, ys);
    ApartByMembers(xs', ys');
  }

  lemma {:induction false} SameSharing(p: Population, d: Delta, e: Delta)
    requires SameContent(p, d, e)
    ensures Breaks(p, d, IdInTwoGroups) <==> Breaks(p, e, IdInTwoGroups)
  {
    SameApart(d.updates.ids, d.births.ids, e.updates.ids, e.births.ids);
    SameApart(d.updates.ids, d.deaths, e.updates.ids, e.deaths);
    SameApart(d.births.ids, d.deaths, e.births.ids, e.deaths);
  }

  lemma {:induction false} SameSurvivors(p: Population, d: Delta, e: Delta)
    requires SameContent(p, d, e)
    ensures forall id :: Survives(p, d, id) <==> Survives(p, e, id)
  {
  }

  lemma {:induction false} SameIdentityBreaks(p: Population, d: Delta, e: Delta, c: Refusal)
    requires SameContent(p, d, e) && (c == DuplicateGaussianId || c == UnknownGaussianId || c == UnknownAttributeInBirth)
    ensures Breaks(p, d, c) <==> Breaks(p, e, c)
  {
    hide UpdateOverflows, Tall, Unique, BinsInRange, RotationsInRange;
    SameSurvivors(p, d, e);
  }

  lemma {:induction false} SameBreaks(p: Population, d: Delta, e: Delta, c: Refusal)
    requires SameContent(p, d, e)
    ensures Breaks(p, d, c) <==> Breaks(p, e, c)
  {
    if c == IdInTwoGroups {
      SameSharing(p, d, e);
    } else if c == DuplicateGaussianId || c == UnknownGaussianId || c == UnknownAttributeInBirth {
      SameIdentityBreaks(p, d, e, c);
    } else {
      SameColumnBreaks(p, d, e, c);
    }
  }

  lemma {:induction false} SameColumnBreaks(p: Population, d: Delta, e: Delta, c: Refusal)
    requires SameContent(p, d, e) && c !in {IdInTwoGroups, DuplicateGaussianId, UnknownGaussianId, UnknownAttributeInBirth}
    ensures Breaks(p, d, c) <==> Breaks(p, e, c)
  {
    hide UpdateOverflows, Tall, Unique, BinsInRange, RotationsInRange;
  }

  /** Compositions with the same identities, columns and cells hold the same rows. */
  lemma {:induction false} RowsByCells(p: Population, d: Delta, q: Population, e: Delta)
    requires LanesAfter(p, d) + IDENTITY_LANES == LanesAfter(q, e) + IDENTITY_LANES
    requires forall id :: id in LiveAfter(p, d) <==> id in LiveAfter(q, e)
    requires forall id, a :: CellAfter(p, d, id, a) == CellAfter(q, e, id, a)
    ensures Compose(p, d).rows == Compose(q, e).rows
  {
    forall id | id in LiveAfter(p, d)
      ensures Compose(p, d).rows[id] == Compose(q, e).rows[id]
    {
    }
  }

  lemma {:induction false} SameIds(xs: seq<int>, ys: seq<int>)
    requires forall id :: id in xs <==> id in ys
    ensures Ids(xs) == Ids(ys)
  {
    forall id
      ensures id in Ids(xs) <==> id in Ids(ys)
    {
      assert id in Ids(xs) <==> id in xs;
    }
  }

  lemma {:induction false} SameLive(p: Population, d: Delta, e: Delta)
    requires SameContent(p, d, e)
    ensures LanesAfter(p, d) == LanesAfter(p, e) && LiveAfter(p, d) == LiveAfter(p, e)
  {
    hide UpdateOverflows, Tall, Unique, BinsInRange, RotationsInRange;
    SameIds(d.deaths, e.deaths);
    SameIds(d.births.ids, e.births.ids);
  }

  lemma {:induction false} SameCell(p: Population, d: Delta, e: Delta, id: int, a: nat)
    requires SameContent(p, d, e)
    requires Stated(d.updates, id, a) == Stated(e.updates, id, a) && Stated(d.births, id, a) == Stated(e.births, id, a)
    ensures CellAfter(p, d, id, a) == CellAfter(p, e, id, a)
  {
    hide Stated, Held, Moved;
  }

  lemma {:induction false} SameCompose(p: Population, d: Delta, e: Delta)
    requires SameContent(p, d, e)
    requires forall id, a :: Stated(d.updates, id, a) == Stated(e.updates, id, a)
    requires forall id, a :: Stated(d.births, id, a) == Stated(e.births, id, a)
    ensures Compose(p, d) == Compose(p, e)
  {
    hide Stated, SameContent, CellAfter, LanesAfter, LiveAfter;
    SameLive(p, d, e);
    forall id, a
      ensures CellAfter(p, d, id, a) == CellAfter(p, e, id, a)
    {
      SameCell(p, d, e, id, a);
    }
    RowsByCells(p, d, p, e);
  }

  lemma {:induction false} PermutedContent(p: Population, d: Delta, updates: seq<nat>, births: seq<nat>, deaths: seq<nat>)
    requires Tall(d.updates) && IsPermutation(updates, |d.updates.ids|)
    requires Tall(d.births) && IsPermutation(births, |d.births.ids|)
    requires IsPermutation(deaths, |d.deaths|)
    ensures SameContent(p, d, PermuteDelta(d, updates, births, deaths))
  {
    hide UpdateOverflows, Tall, Unique, BinsInRange, RotationsInRange;
    PermutedIds(d.updates.ids, updates);
    PermutedIds(d.births.ids, births);
    PermutedIds(d.deaths, deaths);
    PermutedRows(d.updates, updates);
    PermutedRows(d.births, births);
    PermutedOverflows(p, d.updates, updates);
  }

  /** Which rules a delta breaks, and what it denotes, ignore the order of every group. */
  lemma {:induction false} RowOrderOfDelta(p: Population, d: Delta, updates: seq<nat>, births: seq<nat>, deaths: seq<nat>)
    requires Tall(d.updates) && IsPermutation(updates, |d.updates.ids|)
    requires Tall(d.births) && IsPermutation(births, |d.births.ids|)
    requires IsPermutation(deaths, |d.deaths|)
    ensures forall c :: Breaks(p, d, c) <==> Breaks(p, PermuteDelta(d, updates, births, deaths), c)
    ensures Composable(p, d) ==> Compose(p, PermuteDelta(d, updates, births, deaths)) == Compose(p, d)
  {
    hide Breaks, Compose, SameContent;
    var e := PermuteDelta(d, updates, births, deaths);
    PermutedContent(p, d, updates, births, deaths);
    forall c
      ensures Breaks(p, d, c) <==> Breaks(p, e, c)
    {
      SameBreaks(p, d, e, c);
    }
    if Composable(p, d) { PermutedCompose(p, d, updates, births, deaths); }
  }

  lemma {:induction false} PermutedCompose(p: Population, d: Delta, updates: seq<nat>, births: seq<nat>, deaths: seq<nat>)
    requires Tall(d.updates) && IsPermutation(updates, |d.updates.ids|)
    requires Tall(d.births) && IsPermutation(births, |d.births.ids|)
    requires IsPermutation(deaths, |d.deaths|) && Composable(p, d)
    ensures Compose(p, PermuteDelta(d, updates, births, deaths)) == Compose(p, d)
  {
    hide Compose, SameContent, Stated;
    var e := PermuteDelta(d, updates, births, deaths);
    PermutedContent(p, d, updates, births, deaths);
    assert !Breaks(p, d, DuplicateGaussianId);
    forall id, a
      ensures Stated(d.updates, id, a) == Stated(e.updates, id, a)
      ensures Stated(d.births, id, a) == Stated(e.births, id, a)
    {
      PermutedStated(d.updates, updates, id, a);
      PermutedStated(d.births, births, id, a);
    }
    SameCompose(p, d, e);
  }

  // ---- absent identity lanes ----

  /** Equal but for which identity lanes are physically present. */
  ghost predicate SameLogically(p: Population, q: Population) {
    p.rows == q.rows && p.lanes + IDENTITY_LANES == q.lanes + IDENTITY_LANES
  }

  lemma {:induction false} ZeroLaneRow(t: Table, a: nat, k: nat)
    requires Tall(t) && a in IDENTITY_LANES && a !in t.bins && k < |t.ids|
    ensures GaussianAt(Table(t.ids, t.bins[a := seq(|t.ids|, _ => Zero(a))]), k) == GaussianAt(t, k)
  {
    var z := Table(t.ids, t.bins[a := seq(|t.ids|, _ => Zero(a))]);
    assert t.bins.Keys + IDENTITY_LANES == z.bins.Keys + IDENTITY_LANES;
    forall b | b in z.bins.Keys + IDENTITY_LANES
      ensures Cell(z, k, b) == Cell(t, k, b)
    {
    }
  }

  /** A table that spells out an absent identity lane as zeros denotes the same population. */
  lemma {:induction false} ZeroLaneIsAbsentLane(t: Table, a: nat)
    requires Tall(t) && a in IDENTITY_LANES && a !in t.bins
    ensures SameLogically(View(t), View(Table(t.ids, t.bins[a := seq(|t.ids|, _ => Zero(a))])))
  {
    hide GaussianAt;
    var z := Table(t.ids, t.bins[a := seq(|t.ids|, _ => Zero(a))]);
    forall id | id in t.ids
      ensures GaussianAt(z, IndexOf(t.ids, id)) == GaussianAt(t, IndexOf(t.ids, id))
    {
      ZeroLaneRow(t, a, IndexOf(t.ids, id));
    }
    assert View(t).rows == View(z).rows;
  }

  lemma {:induction false} AbsentLaneBreaks(p: Population, q: Population, d: Delta, c: Refusal)
    requires SameLogically(p, q) && Breaks(p, d, c)
    ensures Breaks(q, d, c)
  {
    match c
    case DuplicateGaussianId => assert forall id :: Survives(p, d, id) <==> Survives(q, d, id);
    case UnknownGaussianId => assert forall id :: Survives(p, d, id) <==> Survives(q, d, id);
    case UnknownAttributeInBirth => assert forall id :: Survives(p, d, id) <==> Survives(q, d, id);
    case IncompleteBirth =>
      var a :| a in p.lanes && a !in d.births.bins.Keys + IDENTITY_LANES;
      assert a in q.lanes + IDENTITY_LANES;
    case BinOverflow =>
      assert forall a, k :: a in d.updates.bins && 0 <= k < |d.updates.bins[a]| ==>
        (UpdateOverflows(p, d.updates, a, k) <==> UpdateOverflows(q, d.updates, a, k));
    case _ =>
  }

  lemma {:induction false} AbsentLaneCompose(p: Population, q: Population, d: Delta)
    requires SameLogically(p, q)
    ensures SameLogically(Compose(p, d), Compose(q, d))
  {
    assert LanesAfter(p, d) + IDENTITY_LANES == LanesAfter(q, d) + IDENTITY_LANES;
    RowsByCells(p, d, q, d);
  }

  /** A whole chain of deltas. */
  ghost predicate AllComposable(p: Population, ds: seq<Delta>)
    decreases |ds|
  {
    ds != [] ==> Composable(p, ds[0]) && AllComposable(Compose(p, ds[0]), ds[1..])
  }

  ghost function ComposeAll(p: Population, ds: seq<Delta>): Population
    decreases |ds|
  {
    if ds == [] then p else ComposeAll(Compose(p, ds[0]), ds[1..])
  }

  /** Through any chain, a reader that keeps an absent lane absent and one that keeps
      zeros accept the same deltas and hold the same gaussians. */
  lemma {:induction false} AbsentLaneThroughChain(p: Population, q: Population, ds: seq<Delta>)
    requires SameLogically(p, q)
    ensures AllComposable(p, ds) <==> AllComposable(q, ds)
    ensures SameLogically(ComposeAll(p, ds), ComposeAll(q, ds))
    decreases |ds|
  {
    if ds != [] {
      forall c
        ensures Breaks(p, ds[0], c) <==> Breaks(q, ds[0], c)
      {
        if Breaks(p, ds[0], c) { AbsentLaneBreaks(p, q, ds[0], c); }
        if Breaks(q, ds[0], c) { AbsentLaneBreaks(q, p, ds[0], c); }
      }
      AbsentLaneCompose(p, q, ds[0]);
      AbsentLaneThroughChain(Compose(p, ds[0]), Compose(q, ds[0]), ds[1..]);
    }
  }

  // ---- the order of the three groups ----

  datatype Step = Deaths | Updates | Births

  /** One group of a delta, alone. */
  function Only(d: Delta, s: Step): Delta {
    var none := Table([], map[]);
    match s
    case Deaths => Delta(none, none, d.deaths)
    case Updates => Delta(d.updates, none, [])
    case Births => Delta(none, d.births, [])
  }

  ghost function InOrder(p: Population, d: Delta, x: Step, y: Step, z: Step): Population {
    Compose(Compose(Compose(p, Only(d, x)), Only(d, y)), Only(d, z))
  }

  /** What one group does to the live identities and to a cell that is held before it. */
  lemma {:induction false} OneStep(p: Population, d: Delta, s: Step, id: int, a: nat)
    ensures var q := Compose(p, Only(d, s));
      && p.lanes <= q.lanes && (s == Births && d.births.ids != [] ==> d.births.bins.Keys <= q.lanes)
      && (id in q.rows <==> match s case Deaths => id in p.rows && id !in d.deaths
                                    case Updates => id in p.rows
                                    case Births => id in p.rows || id in d.births.ids)
      && (id in q.rows && a in q.lanes + IDENTITY_LANES ==>
            Held(q, id, a) == if s == Births && id in d.births.ids then Stated(d.births, id, a)
                              else if s == Updates && id in d.updates.ids && a in d.updates.bins then
                                if IsAbsoluteInUpdate(a) then Stated(d.updates, id, a) else Moved(Held(p, id, a), Stated(d.updates, id, a))
                              else Held(p, id, a))
  {
    var e := Only(d, s);
    assert CellAfter(p, e, id, a) == CellAfter(p, e, id, a);
  }

  /** Who a composable delta may name where. */
  lemma {:induction false} GroupsOfComposable(p: Population, d: Delta, id: int)
    requires Composable(p, d)
    ensures id in d.births.ids ==> id !in p.rows && id !in d.updates.ids && id !in d.deaths
    ensures id in d.updates.ids ==> id in p.rows && id !in d.deaths
  {
    assert !Breaks(p, d, IdInTwoGroups) && !Breaks(p, d, DuplicateGaussianId) && !Breaks(p, d, UnknownGaussianId);
    ApartByMembers(d.updates.ids, d.births.ids);
    ApartByMembers(d.updates.ids, d.deaths);
    ApartByMembers(d.births.ids, d.deaths);
    assert Survives(p, d, id) <==> id in p.rows && id !in d.deaths;
  }

  /** A survivor gains no lane; a newborn states every lane it needs. */
  lemma {:induction false} LanesOfComposable(p: Population, d: Delta, id: int, a: nat)
    requires Composable(p, d) && a in LanesAfter(p, d) + IDENTITY_LANES
    ensures Survives(p, d, id) ==> a in p.lanes + IDENTITY_LANES
    ensures id in d.births.ids ==> a in p.lanes + d.births.bins.Keys + IDENTITY_LANES
  {
    assert !Breaks(p, d, UnknownAttributeInUpdate) && !Breaks(p, d, UnknownAttributeInBirth);
  }

  lemma {:induction false} OrderedLanes(p: Population, d: Delta, x: Step, y: Step, z: Step)
    requires x != y && y != z && x != z
    ensures InOrder(p, d, x, y, z).lanes == LanesAfter(p, d)
    ensures Compose(Compose(p, Only(d, x)), Only(d, y)).lanes <= LanesAfter(p, d)
  {
  }

  lemma {:induction false} OrderedCell(p: Population, d: Delta, x: Step, y: Step, z: Step, id: int, a: nat)
    requires Composable(p, d) && x != y && y != z && x != z
    requires a in LanesAfter(p, d) + IDENTITY_LANES
    ensures id in InOrder(p, d, x, y, z).rows <==> id in LiveAfter(p, d)
    ensures id in LiveAfter(p, d) ==> Held(InOrder(p, d, x, y, z), id, a) == CellAfter(p, d, id, a)
  {
    hide Composable, Compose, Held, Stated, Moved, Only;
    var p1 := Compose(p, Only(d, x));
    var p2 := Compose(p1, Only(d, y));
    OrderedLanes(p, d, x, y, z);
    OneStep(p, d, x, id, a);
    OneStep(p1, d, y, id, a);
    OneStep(p2, d, z, id, a);
    GroupsOfComposable(p, d, id);
    LanesOfComposable(p, d, id, a);
  }

  lemma {:induction false} ComposedRowLanes(p: Population, d: Delta, id: int)
    requires id in LiveAfter(p, d)
    ensures Compose(p, d).rows[id].Keys == LanesAfter(p, d) + IDENTITY_LANES
  {
  }

  lemma {:induction false} SameGaussian(p: Population, q: Population, id: int)
    requires id in p.rows && id in q.rows && p.rows[id].Keys == q.rows[id].Keys
    requires forall a :: a in p.rows[id] ==> Held(p, id, a) == Held(q, id, a)
    ensures p.rows[id] == q.rows[id]
  {
    forall a | a in p.rows[id]
      ensures p.rows[id][a] == q.rows[id][a]
    {
      assert Held(p, id, a) == Held(q, id, a);
    }
  }

  lemma {:induction false} OrderedGaussian(p: Population, d: Delta, x: Step, y: Step, z: Step, id: int)
    requires Composable(p, d) && x != y && y != z && x != z && id in LiveAfter(p, d)
    requires InOrder(p, d, x, y, z).lanes == LanesAfter(p, d)
    ensures id in InOrder(p, d, x, y, z).rows && InOrder(p, d, x, y, z).rows[id] == Compose(p, d).rows[id]
  {
    hide Composable, Breaks, CellAfter, Stated;
    OrderedCell(p, d, x, y, z, id, 11);
    ComposedRowLanes(p, d, id);
    ComposedRowLanes(Compose(Compose(p, Only(d, x)), Only(d, y)), Only(d, z), id);
    forall a | a in LanesAfter(p, d) + IDENTITY_LANES
      ensures Held(InOrder(p, d, x, y, z), id, a) == Held(Compose(p, d), id, a)
    {
      OrderedCell(p, d, x, y, z, id, a);
    }
    SameGaussian(InOrder(p, d, x, y, z), Compose(p, d), id);
  }

  /** In an accepted delta the three groups may be applied in any order. */
  lemma {:induction false} AnyGroupOrder(p: Population, d: Delta, x: Step, y: Step, z: Step)
    requires Composable(p, d) && x != y && y != z && x != z
    ensures InOrder(p, d, x, y, z) == Compose(p, d)
  {
    hide Composable, Held, CellAfter, Stated, Breaks;
    var c, o := Compose(p, d), InOrder(p, d, x, y, z);
    assert o.lanes == c.lanes;
    forall id
      ensures id in o.rows <==> id in c.rows
      ensures id in c.rows ==> o.rows[id] == c.rows[id]
    {
      OrderedCell(p, d, x, y, z, id, 11);
      if id in c.rows { OrderedGaussian(p, d, x, y, z, id); }
    }
  }

  // ---- which orders are accepted ----

  /** Every group is acceptable where this order applies it. */
  ghost predicate AcceptedInOrder(p: Population, d: Delta, x: Step, y: Step, z: Step) {
    var p1 := Compose(p, Only(d, x));
    Composable(p, Only(d, x)) && Composable(p1, Only(d, y)) && Composable(Compose(p1, Only(d, y)), Only(d, z))
  }

  /** The births need no column that some row present would have to invent. */
  ghost predicate BirthsFit(p: Population, d: Delta) {
    d.births.ids == [] || (forall id :: id !in p.rows) || d.births.bins.Keys <= p.lanes + IDENTITY_LANES
  }

  /** What a population reached from `p` by the groups in `done` still is. */
  ghost predicate Partway(p: Population, d: Delta, done: set<Step>, q: Population) {
    && p.lanes <= q.lanes
    && q.lanes <= p.lanes + IDENTITY_LANES + (if Births in done then d.births.bins.Keys else {})
    && (forall id :: id in q.rows <==>
          (id in p.rows && !(Deaths in done && id in d.deaths)) || (Births in done && id in d.births.ids))
    && (Updates !in done ==> forall id, a :: id in d.updates.ids && a in d.updates.bins ==> Held(q, id, a) == Held(p, id, a))
  }

  lemma {:induction false} PartwayLive(p: Population, d: Delta, done: set<Step>, q: Population, s: Step, id: int)
    requires Composable(p, d) && Partway(p, d, done, q) && s !in done
    ensures id in Compose(q, Only(d, s)).rows <==>
      (id in p.rows && !(Deaths in done + {s} && id in d.deaths)) || (Births in done + {s} && id in d.births.ids)
  {
    OneStep(q, d, s, id, 11);
    GroupsOfComposable(p, d, id);
  }

  lemma {:induction false} PartwayHeld(p: Population, d: Delta, done: set<Step>, q: Population, s: Step, id: int, a: nat)
    requires Composable(p, d) && Partway(p, d, done, q) && s !in done && s != Updates && Updates !in done
    requires id in d.updates.ids && a in d.updates.bins
    ensures Held(Compose(q, Only(d, s)), id, a) == Held(p, id, a)
  {
    assert !Breaks(p, d, UnknownAttributeInUpdate);
    PartwayLive(p, d, done, q, s, id);
    GroupsOfComposable(p, d, id);
    OneStep(q, d, s, id, a);
  }

  lemma {:induction false} PartwayStep(p: Population, d: Delta, done: set<Step>, q: Population, s: Step)
    requires Composable(p, d) && Partway(p, d, done, q) && s !in done
    ensures Partway(p, d, done + {s}, Compose(q, Only(d, s)))
  {
    assert !Breaks(p, d, UnknownAttributeInUpdate);
    var r := Compose(q, Only(d, s));
    assert r.lanes == LanesAfter(q, Only(d, s));
    forall id
      ensures id in r.rows <==>
        (id in p.rows && !(Deaths in done + {s} && id in d.deaths)) || (Births in done + {s} && id in d.births.ids)
    {
      PartwayLive(p, d, done, q, s, id);
    }
    if Updates !in done + {s} {
      forall id, a | id in d.updates.ids && a in d.updates.bins
        ensures Held(r, id, a) == Held(p, id, a)
      {
        PartwayHeld(p, d, done, q, s, id, a);
      }
    }
  }

  lemma {:induction false} DeathsAccepted(p: Population, d: Delta, done: set<Step>, q: Population)
    requires Composable(p, d) && Partway(p, d, done, q) && Deaths !in done
    ensures Composable(q, Only(d, Deaths))
  {
    var e := Only(d, Deaths);
    assert !Breaks(p, d, DuplicateGaussianId) && !Breaks(p, d, UnknownGaussianId);
    forall c
      ensures !Breaks(q, e, c)
    {
    }
  }

  lemma {:induction false} UpdatesAccepted(p: Population, d: Delta, done: set<Step>, q: Population)
    requires Composable(p, d) && Partway(p, d, done, q) && Updates !in done
    ensures Composable(q, Only(d, Updates))
  {
    var e := Only(d, Updates);
    forall c
      ensures !Breaks(q, e, c)
    {
      assert !Breaks(p, d, c);
      if c == UnknownGaussianId {
        forall id | id in d.updates.ids
          ensures Survives(q, e, id)
        {
          GroupsOfComposable(p, d, id);
        }
      }
      if c == BinOverflow && d.updates.ids != [] {
        forall a, k | a in d.updates.bins && 0 <= k < |d.updates.bins[a]|
          ensures !UpdateOverflows(q, d.updates, a, k)
        {
          assert !UpdateOverflows(p, d.updates, a, k);
          if k < |d.updates.ids| { GroupsOfComposable(p, d, d.updates.ids[k]); }
        }
      }
    }
  }

  /** Partway, a birth group clashes with no column exactly when the dead are gone already
      or the births fit the population as it was. */
  lemma {:induction false} BirthsFitPartway(p: Population, d: Delta, done: set<Step>, q: Population)
    requires Composable(p, d) && Partway(p, d, done, q) && Births !in done
    ensures Breaks(q, Only(d, Births), UnknownAttributeInBirth) <==> !(Deaths in done || BirthsFit(p, d))
  {
    var e := Only(d, Births);
    assert !Breaks(p, d, UnknownAttributeInBirth);
    assert q.lanes + IDENTITY_LANES == p.lanes + IDENTITY_LANES;
    if Deaths in done {
      assert forall id :: Survives(q, e, id) ==> Survives(p, d, id);
    } else if exists id :: id in p.rows {
      var id :| id in p.rows;
      assert Survives(q, e, id);
    }
  }

  lemma {:induction false} BirthsAccepted(p: Population, d: Delta, done: set<Step>, q: Population)
    requires Composable(p, d) && Partway(p, d, done, q) && Births !in done
    ensures Composable(q, Only(d, Births)) <==> Deaths in done || BirthsFit(p, d)
  {
    var e := Only(d, Births);
    assert !Breaks(p, d, UnknownAttributeInBirth);
    forall c | c != UnknownAttributeInBirth
      ensures !Breaks(q, e, c)
    {
      assert !Breaks(p, d, c);
      if c == DuplicateGaussianId {
        forall id | id in d.births.ids
          ensures !Survives(q, e, id)
        {
          GroupsOfComposable(p, d, id);
        }
      }
    }
    BirthsFitPartway(p, d, done, q);
    assert Composable(q, e) <==> !Breaks(q, e, UnknownAttributeInBirth);
  }

  /** An accepted delta is accepted in every order that buries before it bears. An order
      that bears first is accepted exactly when the births fit the population as it was. */
  lemma {:induction false} AcceptedOrders(p: Population, d: Delta, x: Step, y: Step, z: Step)
    requires Composable(p, d) && x != y && y != z && x != z
    ensures AcceptedInOrder(p, d, x, y, z) <==> x == Deaths || (y == Deaths && x != Births) || BirthsFit(p, d)
  {
    var p1 := Compose(p, Only(d, x));
    StepAccepted(p, d, {}, p, x);
    PartwayStep(p, d, {}, p, x);
    StepAccepted(p, d, {} + {x}, p1, y);
    PartwayStep(p, d, {} + {x}, p1, y);
    StepAccepted(p, d, {} + {x} + {y}, Compose(p1, Only(d, y)), z);
  }

  lemma {:induction false} StepAccepted(p: Population, d: Delta, done: set<Step>, q: Population, s: Step)
    requires Composable(p, d) && Partway(p, d, done, q) && s !in done
    ensures Composable(q, Only(d, s)) <==> s != Births || Deaths in done || BirthsFit(p, d)
  {
    match s
    case Deaths => DeathsAccepted(p, d, done, q);
    case Updates => UpdatesAccepted(p, d, done, q);
    case Births => BirthsAccepted(p, d, done, q);
  }

  /** The order does decide: a delta that empties the population and bears a gaussian with
      a new attribute is accepted, and births first refuses it. */
  lemma {:induction false} BirthsFirstMayRefuse()
    ensures exists p, d :: ValidPopulation(p) && Composable(p, d) && !AcceptedInOrder(p, d, Births, Deaths, Updates)
  {
    hide AcceptedInOrder, Composable, Compose;
    var elder := map[11 := [0], 12 := [0], 14 := [0]];
    var p := Population({}, map[1 := elder]);
    var d := Delta(Table([], map[]), Table([2], map[5 := [[7]]]), [1]);
    assert ValidGaussian({}, elder);
    assert ValidPopulation(p);
    ReplacesTheOnlyRow(p, d);
    assert 1 in p.rows && 5 in d.births.bins.Keys && 5 !in p.lanes + IDENTITY_LANES;
    AcceptedOrders(p, d, Births, Deaths, Updates);
  }

  lemma {:induction false} ReplacesTheOnlyRow(p: Population, d: Delta)
    requires p.lanes == {} && p.rows.Keys == {1} && d == Delta(Table([], map[]), Table([2], map[5 := [[7]]]), [1])
    ensures Composable(p, d)
  {
    forall c
      ensures !Breaks(p, d, c)
    {
      assert forall id :: !Survives(p, d, id);
    }
  }
}
