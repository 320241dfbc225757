/** What an accepted delta does to each row, attribute by attribute in the registry's own
    numbers and channel by channel, and what being accepted takes. */
module CompositionEffects {
  import opened Registry
  import opened Populations
  import opened CompositionLaws

  lemma {:induction false} AttributeNumbers(a: nat)
    ensures IsAbsoluteInUpdate(a) <==> a == 2 || a == 3 || a == 11 || a == 12 || a == 14
    ensures IsGopInvariant(a) <==> a == 8 || a == 9 || a == 10
    ensures a in IDENTITY_LANES <==> a == 11 || a == 12 || a == 14
    ensures a in REQUIRED <==> a <= 10
    ensures Channels(a) == if a == 0 || a == 1 || a == 3 || a == 4 || a == 6 then 3 else 1
  {
  }

  /** The row composed for an identity the update group names, in an attribute it carries:
      a rotation, its index and the identity lanes are the group's own, whatever was held;
      in everything else each channel is what was held plus what the group carries. */
  lemma {:induction false} UpdatedRow(p: Population, d: Delta, k: nat, a: nat)
    requires ValidPopulation(p) && ShapedDelta(d) && Composable(p, d)
    requires k < |d.updates.ids| && a in d.updates.bins
    ensures var id := d.updates.ids[k];
      && id in p.rows && id in Compose(p, d).rows && a in p.rows[id] && a in Compose(p, d).rows[id] && k < |d.updates.bins[a]|
      && var held, carried, composed := p.rows[id][a], d.updates.bins[a][k], Compose(p, d).rows[id][a];
         && (a in {2, 3, 11, 12, 14} ==> composed == carried)
         && (a !in {2, 3, 11, 12, 14} ==> |composed| == |held| == |carried| && forall c :: 0 <= c < |held| ==> composed[c] == held[c] + carried[c])
  {
    hide Compose;
    var id := d.updates.ids[k];
    assert id in d.updates.ids;
    assert !Breaks(p, d, UnknownAttributeInUpdate) && !Breaks(p, d, StreamElementCountMismatch) && !Breaks(p, d, DuplicateGaussianId);
    AttributeNumbers(a);
    GroupsOfComposable(p, d, id);
    assert ValidGaussian(p.lanes, p.rows[id]);
    IndexOfUnique(d.updates.ids, k);
    CellOfRow(p, d, id, a);
  }

  /** Everything else of a survivor is as it was held. */
  lemma {:induction false} KeptRow(p: Population, d: Delta, id: int, a: nat)
    requires ValidPopulation(p) && Composable(p, d)
    requires id in p.rows && id !in d.deaths && a in p.rows[id] && (id !in d.updates.ids || a !in d.updates.bins)
    ensures id in Compose(p, d).rows && a in Compose(p, d).rows[id] && Compose(p, d).rows[id][a] == p.rows[id][a]
  {
    GroupsOfComposable(p, d, id);
    assert ValidGaussian(p.lanes, p.rows[id]);
  }

  /** A newborn's row is the birth group's, with zeros in the identity lanes it leaves out. */
  lemma {:induction false} BornRow(p: Population, d: Delta, k: nat, a: nat)
    requires ShapedDelta(d) && Composable(p, d) && k < |d.births.ids|
    requires a in d.births.bins || a in {11, 12, 14}
    ensures var id := d.births.ids[k];
      && id in Compose(p, d).rows && a in Compose(p, d).rows[id]
      && (a in d.births.bins ==> k < |d.births.bins[a]| && Compose(p, d).rows[id][a] == d.births.bins[a][k])
      && (a !in d.births.bins ==> Compose(p, d).rows[id][a] == [0])
  {
    hide Compose;
    var id := d.births.ids[k];
    assert id in d.births.ids;
    assert !Breaks(p, d, StreamElementCountMismatch) && !Breaks(p, d, DuplicateGaussianId);
    AttributeNumbers(a);
    IndexOfUnique(d.births.ids, k);
    CellOfRow(p, d, id, a);
  }

  lemma {:induction false} CellOfRow(p: Population, d: Delta, id: int, a: nat)
    requires id in LiveAfter(p, d) && a in LanesAfter(p, d) + IDENTITY_LANES
    ensures id in Compose(p, d).rows && a in Compose(p, d).rows[id] && Compose(p, d).rows[id][a] == CellAfter(p, d, id, a)
  {
  }

  /** Who is live afterwards. */
  lemma {:induction false} LiveIds(p: Population, d: Delta, id: int)
    ensures id in Compose(p, d).rows <==> (id in p.rows && id !in d.deaths) || id in d.births.ids
  {
  }

  // ---- what being accepted takes ----

  /** A bin is signed 32-bit. */
  predicate IsBin(bin: int) {
    -2147483648 <= bin <= 2147483647
  }

  predicate Distinct(ids: seq<int>) {
    forall i, j :: 0 <= i < |ids| && 0 <= j < |ids| && ids[i] == ids[j] ==> i == j
  }

  /** Nobody is named in two groups or twice in one; only the live die or are updated, and
      only the absent are born. */
  ghost predicate NamesRightly(p: Population, d: Delta) {
    && Distinct(d.updates.ids) && Distinct(d.births.ids) && Distinct(d.deaths)
    && (forall id :: id in d.updates.ids ==> id in p.rows && id !in d.births.ids && id !in d.deaths)
    && (forall id :: id in d.deaths ==> id in p.rows && id !in d.births.ids)
    && (forall id :: id in d.births.ids ==> id !in p.rows)
  }

  /** An update group states rotations and their indices together, carries nothing a grid
      derives from, and brings every column it has for every row it names. */
  ghost predicate CarriesRightly(p: Population, d: Delta) {
    && (2 in d.updates.bins <==> 3 in d.updates.bins)
    && 8 !in d.updates.bins && 9 !in d.updates.bins && 10 !in d.updates.bins
    && (|d.updates.ids| > 0 ==> forall a :: a in d.updates.bins ==>
          |d.updates.bins[a]| == |d.updates.ids| && (a in p.lanes || a in {11, 12, 14}))
  }

  /** What it leaves in a row it names is in range, and an index names one of four. */
  ghost predicate UpdatesInRange(p: Population, d: Delta) {
    forall a, k, c :: a in d.updates.bins && 0 <= k < |d.updates.ids| && k < |d.updates.bins[a]| && 0 <= c < |d.updates.bins[a][k]| ==>
      var carried := d.updates.bins[a][k][c];
      && (a == 2 ==> 0 <= carried <= 3)
      && (a in {2, 3, 11, 12, 14} ==> IsBin(carried))
      && (a !in {2, 3, 11, 12, 14} && d.updates.ids[k] in p.rows && a in p.rows[d.updates.ids[k]] && c < |p.rows[d.updates.ids[k]][a]| ==>
            IsBin(p.rows[d.updates.ids[k]][a][c] + carried))
  }

  /** A birth group brings every column the population has, lanes aside, and no other unless
      nobody else is left. */
  ghost predicate BearsRightly(p: Population, d: Delta) {
    |d.births.ids| > 0 ==>
      && (forall a :: a in p.lanes ==> a in d.births.bins || a in {11, 12, 14})
      && (forall a :: a in d.births.bins ==> a in p.lanes || a in {11, 12, 14} || forall id :: id in p.rows ==> id in d.deaths)
      && (forall a :: a in d.births.bins ==> |d.births.bins[a]| == |d.births.ids|)
      && (forall a, k, c :: a in d.births.bins && 0 <= k < |d.births.bins[a]| && 0 <= c < |d.births.bins[a][k]| ==>
            IsBin(d.births.bins[a][k][c]) && (a == 2 ==> 0 <= d.births.bins[a][k][c] <= 3))
  }

  lemma {:induction false} NamingRules(p: Population, d: Delta)
    ensures NamesRightly(p, d) <==> !Breaks(p, d, IdInTwoGroups) && !Breaks(p, d, DuplicateGaussianId) && !Breaks(p, d, UnknownGaussianId)
  {
    ApartByMembers(d.updates.ids, d.births.ids);
    ApartByMembers(d.updates.ids, d.deaths);
    ApartByMembers(d.births.ids, d.deaths);
    DistinctIsUnique(d.updates.ids);
    DistinctIsUnique(d.births.ids);
    DistinctIsUnique(d.deaths);
  }

  lemma {:induction false} DistinctIsUnique(ids: seq<int>)
    ensures Distinct(ids) <==> Unique(ids)
  {
  }

  lemma {:induction false} CarryingRules(p: Population, d: Delta)
    ensures CarriesRightly(p, d) <==>
      && !Breaks(p, d, IncompleteRotationUpdate) && !Breaks(p, d, InvariantChangedInUpdate) && !Breaks(p, d, UnknownAttributeInUpdate)
      && (d.updates.ids != [] ==> Tall(d.updates))
  {
  }

  /** Within the other rules, the range rules are the two above. */
  lemma {:induction false} UpdateRangeRules(p: Population, d: Delta)
    requires ValidPopulation(p) && ShapedDelta(d) && NamesRightly(p, d) && CarriesRightly(p, d)
    ensures UpdatesInRange(p, d) <==> (d.updates.ids != [] ==>
      && (forall a, k :: a in d.updates.bins && 0 <= k < |d.updates.bins[a]| ==> !UpdateOverflows(p, d.updates, a, k))
      && RotationsInRange(d.updates))
  {
    forall a, k: nat | a in d.updates.bins && k < |d.updates.ids| && k < |d.updates.bins[a]|
      ensures RowInRange(p, d, a, k) <==> !UpdateOverflows(p, d.updates, a, k) && (a == 2 ==> NamesComponent(d.updates.bins[a][k]))
    {
      UpdatedRowRange(p, d, a, k);
    }
    RangeByRows(p, d);
    hide RowInRange, UpdateOverflows, NamesComponent;
    if d.updates.ids != [] {
      assert RotationsInRange(d.updates) <==> (2 in d.updates.bins ==> forall k :: 0 <= k < |d.updates.bins[2]| ==> NamesComponent(d.updates.bins[2][k]));
    }
  }

  lemma {:induction false} RangeByRows(p: Population, d: Delta)
    ensures UpdatesInRange(p, d) <==> forall a, k: nat :: a in d.updates.bins && k < |d.updates.ids| && k < |d.updates.bins[a]| ==> RowInRange(p, d, a, k)
  {
    if UpdatesInRange(p, d) {
      forall a, k: nat | a in d.updates.bins && k < |d.updates.ids| && k < |d.updates.bins[a]|
        ensures RowInRange(p, d, a, k)
      {
      }
    }
    if forall a, k: nat :: a in d.updates.bins && k < |d.updates.ids| && k < |d.updates.bins[a]| ==> RowInRange(p, d, a, k) {
      forall a, k: nat, c | a in d.updates.bins && k < |d.updates.ids| && k < |d.updates.bins[a]| && 0 <= c < |d.updates.bins[a][k]|
        ensures var carried := d.updates.bins[a][k][c];
          && (a == 2 ==> 0 <= carried <= 3)
          && (a in {2, 3, 11, 12, 14} ==> IsBin(carried))
          && (a !in {2, 3, 11, 12, 14} && d.updates.ids[k] in p.rows && a in p.rows[d.updates.ids[k]] && c < |p.rows[d.updates.ids[k]][a]| ==>
                IsBin(p.rows[d.updates.ids[k]][a][c] + carried))
      {
        assert RowInRange(p, d, a, k);
      }
    }
  }

  ghost predicate RowInRange(p: Population, d: Delta, a: nat, k: nat)
    requires a in d.updates.bins && k < |d.updates.ids| && k < |d.updates.bins[a]|
  {
    forall c :: 0 <= c < |d.updates.bins[a][k]| ==>
      var carried := d.updates.bins[a][k][c];
      && (a == 2 ==> 0 <= carried <= 3)
      && (a in {2, 3, 11, 12, 14} ==> IsBin(carried))
      && (a !in {2, 3, 11, 12, 14} && d.updates.ids[k] in p.rows && a in p.rows[d.updates.ids[k]] && c < |p.rows[d.updates.ids[k]][a]| ==>
            IsBin(p.rows[d.updates.ids[k]][a][c] + carried))
  }

  lemma {:induction false} UpdatedRowRange(p: Population, d: Delta, a: nat, k: nat)
    requires ValidPopulation(p) && ShapedDelta(d) && NamesRightly(p, d) && CarriesRightly(p, d)
    requires a in d.updates.bins && k < |d.updates.ids| && k < |d.updates.bins[a]|
    ensures RowInRange(p, d, a, k) <==> !UpdateOverflows(p, d.updates, a, k) && (a == 2 ==> NamesComponent(d.updates.bins[a][k]))
  {
    AttributeNumbers(a);
    var id := d.updates.ids[k];
    assert id in d.updates.ids && ValidGaussian(p.lanes, p.rows[id]) && a in p.rows[id];
    var held, carried := p.rows[id][a], d.updates.bins[a][k];
    assert |held| == |carried| == Channels(a) && Held(p, id, a) == held;
    SumInRange(held, carried);
  }

  lemma {:induction false} SumInRange(held: Row, carried: Row)
    requires |held| == |carried|
    ensures InRange(Moved(held, carried)) <==> forall c :: 0 <= c < |carried| ==> IsBin(held[c] + carried[c])
    ensures InRange(carried) <==> forall c :: 0 <= c < |carried| ==> IsBin(carried[c])
    ensures NamesComponent(carried) <==> forall c :: 0 <= c < |carried| ==> 0 <= carried[c] <= 3
  {
    var sum := Moved(held, carried);
    assert forall c :: 0 <= c < |sum| ==> sum[c] == held[c] + carried[c];
    if forall c :: 0 <= c < |carried| ==> IsBin(held[c] + carried[c]) {
      assert forall c :: 0 <= c < |sum| ==> IsBin(sum[c]);
    }
    if InRange(sum) {
      forall c | 0 <= c < |carried|
        ensures IsBin(held[c] + carried[c])
      {
        assert IsBin(sum[c]);
      }
    }
  }

  lemma {:induction false} BearingRules(p: Population, d: Delta)
    requires NamesRightly(p, d)
    ensures BearsRightly(p, d) <==>
      && !Breaks(p, d, IncompleteBirth) && !Breaks(p, d, UnknownAttributeInBirth)
      && (d.births.ids != [] ==> Tall(d.births) && BinsInRange(d.births) && RotationsInRange(d.births))
  {
    if d.births.ids != [] {
      BirthColumns(p, d);
      BirthRanges(d.births);
    }
  }

  lemma {:induction false} BirthColumns(p: Population, d: Delta)
    requires d.births.ids != []
    ensures !Breaks(p, d, IncompleteBirth) <==> forall a :: a in p.lanes ==> a in d.births.bins || a in {11, 12, 14}
    ensures !Breaks(p, d, UnknownAttributeInBirth) <==>
      forall a :: a in d.births.bins ==> a in p.lanes || a in {11, 12, 14} || forall id :: id in p.rows ==> id in d.deaths
  {
    forall a
      ensures a in IDENTITY_LANES <==> a in {11, 12, 14}
    {
    }
    if forall id :: id in p.rows ==> id in d.deaths {
      assert forall id :: !Survives(p, d, id);
    } else {
      var id :| id in p.rows && id !in d.deaths;
      assert Survives(p, d, id);
    }
  }

  lemma {:induction false} BirthRanges(t: Table)
    ensures BinsInRange(t) && RotationsInRange(t) <==>
      forall a, k, c :: a in t.bins && 0 <= k < |t.bins[a]| && 0 <= c < |t.bins[a][k]| ==>
        IsBin(t.bins[a][k][c]) && (a == 2 ==> 0 <= t.bins[a][k][c] <= 3)
  {
    if BinsInRange(t) && RotationsInRange(t) {
      forall a, k, c | a in t.bins && 0 <= k < |t.bins[a]| && 0 <= c < |t.bins[a][k]|
        ensures IsBin(t.bins[a][k][c]) && (a == 2 ==> 0 <= t.bins[a][k][c] <= 3)
      {
        assert InRange(t.bins[a][k]);
      }
    }
  }

  /** A delta is accepted exactly when it names, carries and bears rightly, and leaves every
      row it updates in range. */
  lemma {:induction false} AcceptedExactly(p: Population, d: Delta)
    requires ValidPopulation(p) && ShapedDelta(d)
    ensures Composable(p, d) <==> NamesRightly(p, d) && CarriesRightly(p, d) && UpdatesInRange(p, d) && BearsRightly(p, d)
  {
    hide NamesRightly, CarriesRightly, UpdatesInRange, BearsRightly;
    NamingRules(p, d);
    CarryingRules(p, d);
    if NamesRightly(p, d) && CarriesRightly(p, d) {
      UpdateRangeRules(p, d);
      BearingRules(p, d);
    }
    RulesTogether(p, d);
  }

  lemma {:induction false} RulesTogether(p: Population, d: Delta)
    ensures Composable(p, d) <==>
      && !Breaks(p, d, IdInTwoGroups) && !Breaks(p, d, DuplicateGaussianId) && !Breaks(p, d, UnknownGaussianId)
      && !Breaks(p, d, IncompleteRotationUpdate) && !Breaks(p, d, InvariantChangedInUpdate) && !Breaks(p, d, UnknownAttributeInUpdate)
      && !Breaks(p, d, IncompleteBirth) && !Breaks(p, d, UnknownAttributeInBirth)
      && (d.updates.ids != [] ==>
            && Tall(d.updates) && RotationsInRange(d.updates)
            && forall a, k :: a in d.updates.bins && 0 <= k < |d.updates.bins[a]| ==> !UpdateOverflows(p, d.updates, a, k))
      && (d.births.ids != [] ==> Tall(d.births) && BinsInRange(d.births) && RotationsInRange(d.births))
  {
    hide Tall, RotationsInRange, BinsInRange, UpdateOverflows, Apart, Unique;
    if Composable(p, d) {
      assert !Breaks(p, d, StreamElementCountMismatch) && !Breaks(p, d, BinOverflow) && !Breaks(p, d, RotationIndexOutOfRange);
      assert !Breaks(p, d, IdInTwoGroups) && !Breaks(p, d, DuplicateGaussianId) && !Breaks(p, d, UnknownGaussianId);
      assert !Breaks(p, d, IncompleteRotationUpdate) && !Breaks(p, d, InvariantChangedInUpdate) && !Breaks(p, d, UnknownAttributeInUpdate);
      assert !Breaks(p, d, IncompleteBirth) && !Breaks(p, d, UnknownAttributeInBirth);
    }
  }

  // ---- on the decoder's own tables ----

  lemma {:induction false} CellInView(t: Table, i: nat, a: nat)
    requires ValidState(t) && i < |t.ids| && a in t.bins
    ensures t.ids[i] in View(t).rows && a in View(t).rows[t.ids[i]] && i < |t.bins[a]|
    ensures View(t).rows[t.ids[i]][a] == t.bins[a][i]
  {
    ViewRow(t, i);
  }

  /** `after` is what composition may return for `t` and an accepted delta. */
  ghost predicate IsApplied(t: Table, d: Delta, after: Table) {
    && ValidState(t) && ShapedDelta(d) && Composable(View(t), d)
    && ValidState(after) && View(after) == Compose(View(t), d)
  }

  lemma {:induction false} AppliedIds(t: Table, d: Delta, after: Table, id: int)
    requires IsApplied(t, d, after)
    ensures id in after.ids <==> (id in t.ids && id !in d.deaths) || id in d.births.ids
  {
    LiveIds(View(t), d, id);
    assert id in View(after).rows <==> id in after.ids;
    assert id in View(t).rows <==> id in t.ids;
  }

  lemma {:induction false} AppliedLanes(t: Table, d: Delta, after: Table, a: nat)
    requires IsApplied(t, d, after)
    ensures a in after.bins <==> a in t.bins || (d.updates.ids != [] && a in d.updates.bins) || (d.births.ids != [] && a in d.births.bins)
  {
    assert View(after).lanes == LanesAfter(View(t), d);
  }

  /** Row `i` before and row `j` afterwards, where the update group's row `k` names them. */
  lemma {:induction false} UpdatedCell(t: Table, d: Delta, after: Table, i: nat, j: nat, k: nat, a: nat)
    requires IsApplied(t, d, after) && i < |t.ids| && j < |after.ids| && k < |d.updates.ids| && a in d.updates.bins
    requires t.ids[i] == after.ids[j] == d.updates.ids[k]
    ensures a in after.bins && j < |after.bins[a]| && k < |d.updates.bins[a]|
    ensures a in {2, 3, 11, 12, 14} ==> after.bins[a][j] == d.updates.bins[a][k]
    ensures a !in {2, 3, 11, 12, 14} ==>
      && a in t.bins && i < |t.bins[a]| && |after.bins[a][j]| == |t.bins[a][i]| == |d.updates.bins[a][k]|
      && forall c :: 0 <= c < |after.bins[a][j]| ==> after.bins[a][j][c] == t.bins[a][i][c] + d.updates.bins[a][k][c]
  {
    hide Compose, Composable;
    ViewIsValid(t);
    UpdatedRow(View(t), d, k, a);
    AppliedLanes(t, d, after, a);
    CellInView(after, j, a);
    if a !in {2, 3, 11, 12, 14} {
      CarriedIsHeld(View(t), d, a);
      CellInView(t, i, a);
    }
  }

  lemma {:induction false} CarriedIsHeld(p: Population, d: Delta, a: nat)
    requires Composable(p, d) && d.updates.ids != [] && a in d.updates.bins && a !in {2, 3, 11, 12, 14}
    ensures a in p.lanes
  {
    assert !Breaks(p, d, UnknownAttributeInUpdate);
  }

  /** A row the deaths spare, where the update group says nothing of it. */
  lemma {:induction false} KeptCell(t: Table, d: Delta, after: Table, i: nat, j: nat, a: nat)
    requires IsApplied(t, d, after) && i < |t.ids| && j < |after.ids| && t.ids[i] == after.ids[j] && a in t.bins
    requires t.ids[i] !in d.updates.ids || a !in d.updates.bins
    requires t.ids[i] !in d.births.ids
    ensures a in after.bins && j < |after.bins[a]| && i < |t.bins[a]| && after.bins[a][j] == t.bins[a][i]
  {
    hide Compose, Composable;
    ViewIsValid(t);
    CellInView(t, i, a);
    assert after.ids[j] in after.ids && t.ids[i] in t.ids;
    AppliedIds(t, d, after, t.ids[i]);
    AppliedLanes(t, d, after, a);
    KeptRow(View(t), d, t.ids[i], a);
    CellInView(after, j, a);
  }

  /** A newborn row. */
  lemma {:induction false} BornCell(t: Table, d: Delta, after: Table, j: nat, k: nat, a: nat)
    requires IsApplied(t, d, after) && j < |after.ids| && k < |d.births.ids| && after.ids[j] == d.births.ids[k] && a in after.bins
    ensures a in d.births.bins || a in {11, 12, 14}
    ensures j < |after.bins[a]|
    ensures if a in d.births.bins then k < |d.births.bins[a]| && after.bins[a][j] == d.births.bins[a][k] else after.bins[a][j] == [0]
  {
    hide Compose, Composable;
    assert d.births.ids[k] in d.births.ids;
    AppliedLanes(t, d, after, a);
    BornCarries(View(t), d, a);
    BornRow(View(t), d, k, a);
    CellInView(after, j, a);
  }

  lemma {:induction false} BornCarries(p: Population, d: Delta, a: nat)
    requires Composable(p, d) && d.births.ids != []
    ensures a in p.lanes || (d.updates.ids != [] && a in d.updates.bins) ==> a in d.births.bins || a in {11, 12, 14}
  {
    assert !Breaks(p, d, IncompleteBirth) && !Breaks(p, d, UnknownAttributeInUpdate);
  }
}
