/** One sample split against the state it is written over: what moved, what is new, what is
    gone. */
module DeltaGroups {
  import opened Wrappers
  import opened Registry
  import opened Populations
  import opened Sorting
  import opened Composition
  import opened Records
  import opened Trajectories

  // ---- masks ----

  /** The positions a mask selects, in order. */
  function Where(mask: seq<bool>): (r: seq<nat>)
    ensures forall i :: 0 <= i < |r| ==> r[i] < |mask| && mask[r[i]]
    ensures forall i, j :: 0 <= i < j < |r| ==> r[i] < r[j]
    ensures forall k :: 0 <= k < |mask| && mask[k] ==> k in r
  {
    if mask == [] then []
    else
      var n := |mask| - 1;
      var front := Where(mask[..n]);
      assert forall k :: 0 <= k < n ==> mask[..n][k] == mask[k];
      if mask[n] then front + [n] else front
  }

  /** `isin`: which of `ids` are among `others`. */
  function IsIn(ids: seq<int>, others: seq<int>): (mask: seq<bool>)
    ensures |mask| == |ids|
  {
    seq(|ids|, k requires 0 <= k < |ids| => ids[k] in others)
  }

  function Not(mask: seq<bool>): (r: seq<bool>)
    ensures |r| == |mask|
  {
    seq(|mask|, k requires 0 <= k < |mask| => !mask[k])
  }

  /** Strictly increasing positions into a sequence of the given length. */
  predicate Picks(at: seq<nat>, n: nat) {
    && (forall i :: 0 <= i < |at| ==> at[i] < n)
    && (forall i, j :: 0 <= i < j < |at| ==> at[i] < at[j])
  }

  lemma {:induction false} SamePicks(xs: seq<nat>, ys: seq<nat>, n: nat)
    requires Picks(xs, n) && Picks(ys, n) && forall k :: k in xs <==> k in ys
    ensures xs == ys
  {
    if ys != [] { assert ys[0] in xs; }
    if xs != [] {
      assert xs[0] in ys;
      var x, y := xs[|xs| - 1], ys[|ys| - 1];
      assert x in ys && y in xs;
      assert x == y;
      var fx, fy := xs[..|xs| - 1], ys[..|ys| - 1];
      forall k | k in fx || k in fy
        ensures k in fx && k in fy
      {
        assert k != x;
        assert k in xs && k in ys;
      }
      SamePicks(fx, fy, n);
      assert xs == fx + [x] && ys == fy + [y];
    }
  }

  // ---- gathered rows ----

  lemma {:induction false} GatheredIds(t: Table, at: seq<nat>)
    requires Unique(t.ids) && Picks(at, |t.ids|)
    ensures Unique(Gather(t.ids, at))
    ensures forall k :: 0 <= k < |t.ids| ==> (t.ids[k] in Gather(t.ids, at) <==> k in at)
    ensures forall id :: id in Gather(t.ids, at) ==> id in t.ids && IndexOf(t.ids, id) in at
  {
    var ids := Gather(t.ids, at);
    forall i, j | 0 <= i < j < |ids|
      ensures ids[i] != ids[j]
    {
      assert at[i] < at[j];
    }
    forall k | 0 <= k < |t.ids|
      ensures t.ids[k] in ids <==> k in at
    {
      if k in at {
        var i :| 0 <= i < |at| && at[i] == k;
        assert ids[i] == t.ids[k];
      }
    }
    forall id | id in ids
      ensures id in t.ids && IndexOf(t.ids, id) in at
    {
      var i :| 0 <= i < |ids| && ids[i] == id;
      IndexOfUnique(t.ids, at[i]);
    }
  }

  /** A gathered row is its identity's row. */
  lemma {:induction false} GatheredRow(t: Table, at: seq<nat>, i: nat, a: nat)
    requires Unique(t.ids) && Tall(t) && Picks(at, |t.ids|) && i < |at| && a in t.bins
    ensures Stated(t, t.ids[at[i]], a) == t.bins[a][at[i]] == GatherTable(t, at).bins[a][i]
  {
    IndexOfUnique(t.ids, at[i]);
  }

  // ---- the split ----

  predicate Restated(a: nat) {
    a in REQUIRED && !IsGopInvariant(a)
  }

  /** Some bin of the identity moved between two populations. */
  ghost predicate Moves(reference: Table, target: Table, id: int) {
    exists a :: Restated(a) && Stated(target, id, a) != Stated(reference, id, a)
  }

  /** No identity live in both changes an attribute its grids derive from. */
  ghost predicate InvariantsKept(reference: Table, target: Table) {
    forall id, a :: id in reference.ids && id in target.ids && a in REQUIRED && IsGopInvariant(a) ==>
      Stated(target, id, a) == Stated(reference, id, a)
  }

  function SubRow(x: Row, y: Row): (r: Row)
    requires |x| == |y|
    ensures |r| == |x|
  {
    seq(|x|, k requires 0 <= k < |x| => x[k] - y[k])
  }

  lemma {:induction false} SubAdds(x: Row, y: Row)
    requires |x| == |y|
    ensures AddRow(y, SubRow(x, y)) == x
  {
  }

  function SubColumn(xs: seq<Row>, ys: seq<Row>): (r: seq<Row>)
    requires |xs| == |ys| && forall k :: 0 <= k < |xs| ==> |xs[k]| == |ys[k]|
    ensures |r| == |xs|
  {
    seq(|xs|, k requires 0 <= k < |xs| => SubRow(xs[k], ys[k]))
  }

  /** A table naming exactly the target identities `named`, in the target's row order. */
  ghost predicate InOrder(target: Table, ids: seq<int>) {
    ids == Gather(target.ids, Where(IsIn(target.ids, ids)))
  }

  /** An update row, over the row it is applied to. */
  ghost predicate Reaches(reference: Table, target: Table, updates: Table, id: int, a: nat) {
    if IsAbsoluteInUpdate(a) then Stated(updates, id, a) == Stated(target, id, a)
    else
      && |Stated(reference, id, a)| == |Stated(updates, id, a)|
      && AddRow(Stated(reference, id, a), Stated(updates, id, a)) == Stated(target, id, a)
  }

  ghost predicate UpdatesReach(reference: Table, target: Table, updates: Table, a: nat) {
    forall id :: id in updates.ids ==> Reaches(reference, target, updates, id, a)
  }

  /** The identities of the three groups: what moved, what is new, what is gone. */
  ghost predicate SplitsIds(reference: Table, target: Table, g: Groups) {
    && Unique(g.updates.ids) && Unique(g.births.ids) && Unique(g.deaths.ids)
    && InOrder(target, g.updates.ids)
    && (forall id :: id in g.updates.ids <==> id in reference.ids && id in target.ids && Moves(reference, target, id))
    && (forall id :: id in g.births.ids <==> id in target.ids && id !in reference.ids)
    && (forall id :: id in g.deaths.ids <==> id in reference.ids && id !in target.ids)
  }

  /** Their columns: everything for a birth, what may move for an update, nothing for a death. */
  ghost predicate SplitsColumns(g: Groups) {
    && Shaped(g.updates) && Tall(g.updates) && (forall a :: a in g.updates.bins <==> Restated(a))
    && Complete(g.births)
    && g.deaths.bins == map[]
  }

  ghost predicate BirthsStated(target: Table, births: Table) {
    forall id, a :: id in births.ids && a in REQUIRED ==> Stated(births, id, a) == Stated(target, id, a)
  }

  ghost predicate Splits(reference: Table, target: Table, g: Groups) {
    && SplitsIds(reference, target, g) && SplitsColumns(g) && BirthsStated(target, g.births)
    && (forall a :: Restated(a) ==> UpdatesReach(reference, target, g.updates, a))
  }

  /** The live rows of a target, aligned with where the reference holds each of them. */
  ghost predicate LiveRows(reference: Table, target: Table, live: seq<nat>, rows: seq<nat>) {
    && Picks(live, |target.ids|) && |rows| == |live|
    && (forall k :: k in live <==> 0 <= k < |target.ids| && target.ids[k] in reference.ids)
    && (forall j :: 0 <= j < |rows| ==> rows[j] < |reference.ids| && reference.ids[rows[j]] == target.ids[live[j]])
  }

  lemma {:induction false} AlignedRow(reference: Table, target: Table, live: seq<nat>, rows: seq<nat>, j: nat, a: nat)
    requires Complete(reference) && Complete(target) && Unique(reference.ids) && Unique(target.ids)
    requires LiveRows(reference, target, live, rows) && j < |live| && a in REQUIRED
    ensures Stated(target, target.ids[live[j]], a) == target.bins[a][live[j]]
    ensures Stated(reference, target.ids[live[j]], a) == reference.bins[a][rows[j]]
  {
    IndexOfUnique(target.ids, live[j]);
    IndexOfUnique(reference.ids, rows[j]);
  }

  /** Find every live row of the target in the reference. */
  method Align(reference: Table, target: Table) returns (live: seq<nat>, rows: seq<nat>)
    requires Unique(reference.ids)
    ensures LiveRows(reference, target, live, rows)
  {
    live := Where(IsIn(target.ids, reference.ids));
    var common := Gather(target.ids, live);
    var found := RowsFor(reference.ids, common);
    rows := found.value;
  }

  /** Refuse a sample that changes a per-gaussian grid. */
  method CheckInvariants(reference: Table, target: Table, live: seq<nat>, rows: seq<nat>) returns (ok: bool)
    requires Complete(reference) && Complete(target) && Unique(reference.ids) && Unique(target.ids)
    requires LiveRows(reference, target, live, rows)
    ensures ok <==> InvariantsKept(reference, target)
  {
    for a: nat := 0 to 11
      invariant forall b, j :: 0 <= b < a && IsGopInvariant(b) && 0 <= j < |live| ==> target.bins[b][live[j]] == reference.bins[b][rows[j]]
    {
      if IsGopInvariant(a) {
        for j := 0 to |live|
          invariant forall i :: 0 <= i < j ==> target.bins[a][live[i]] == reference.bins[a][rows[i]]
        {
          if target.bins[a][live[j]] != reference.bins[a][rows[j]] {
            AlignedRow(reference, target, live, rows, j, a);
            return false;
          }
        }
      }
    }
    forall id, a | id in reference.ids && id in target.ids && a in REQUIRED && IsGopInvariant(a)
      ensures Stated(target, id, a) == Stated(reference, id, a)
    {
      var k := IndexOf(target.ids, id);
      assert k in live;
      var j :| 0 <= j < |live| && live[j] == k;
      AlignedRow(reference, target, live, rows, j, a);
    }
    return true;
  }

  /** The live rows any of whose bins moved. */
  method ChangedRows(reference: Table, target: Table, live: seq<nat>, rows: seq<nat>) returns (changed: seq<bool>)
    requires Complete(reference) && Complete(target) && Unique(reference.ids) && Unique(target.ids)
    requires LiveRows(reference, target, live, rows)
    ensures |changed| == |live|
    ensures forall j :: 0 <= j < |live| ==> (changed[j] <==> Moves(reference, target, target.ids[live[j]]))
  {
    changed := seq(|live|, j => false);
    for a: nat := 0 to 11
      invariant |changed| == |live|
      invariant forall j :: 0 <= j < |live| ==> (changed[j] <==> exists b :: 0 <= b < a && Restated(b) && target.bins[b][live[j]] != reference.bins[b][rows[j]])
    {
      if !IsGopInvariant(a) {
        changed := seq(|live|, j requires 0 <= j < |live| => changed[j] || target.bins[a][live[j]] != reference.bins[a][rows[j]]);
      }
    }
    forall j | 0 <= j < |live|
      ensures changed[j] <==> Moves(reference, target, target.ids[live[j]])
    {
      forall a | a in REQUIRED
        ensures Stated(target, target.ids[live[j]], a) == target.bins[a][live[j]]
        ensures Stated(reference, target.ids[live[j]], a) == reference.bins[a][rows[j]]
      {
        AlignedRow(reference, target, live, rows, j, a);
      }
    }
  }

  // ---- building the groups ----

  /** Rows of the target at `at`, restated, or as differences from the reference rows at `from`. */
  function MovedColumn(reference: seq<Row>, target: seq<Row>, at: seq<nat>, from: seq<nat>, absolute: bool): (r: seq<Row>)
    requires |at| == |from|
    requires forall i :: 0 <= i < |at| ==> at[i] < |target| && from[i] < |reference| && |target[at[i]]| == |reference[from[i]]|
    ensures |r| == |at|
  {
    if absolute then Gather(target, at) else SubColumn(Gather(target, at), Gather(reference, from))
  }

  /** The same identity at both positions. */
  predicate Paired(reference: Table, target: Table, at: seq<nat>, from: seq<nat>) {
    && Picks(at, |target.ids|) && |from| == |at|
    && forall i :: 0 <= i < |at| ==> from[i] < |reference.ids| && reference.ids[from[i]] == target.ids[at[i]]
  }

  lemma {:induction false} MovedRow(reference: Table, target: Table, at: seq<nat>, from: seq<nat>, a: nat, i: nat)
    requires Complete(reference) && Complete(target) && Paired(reference, target, at, from) && Restated(a) && i < |at|
    ensures var row := MovedColumn(reference.bins[a], target.bins[a], at, from, IsAbsoluteInUpdate(a))[i];
      && |row| == Channels(a)
      && (if IsAbsoluteInUpdate(a) then row == target.bins[a][at[i]]
          else |reference.bins[a][from[i]]| == |row| && AddRow(reference.bins[a][from[i]], row) == target.bins[a][at[i]])
  {
    SubAdds(target.bins[a][at[i]], reference.bins[a][from[i]]);
  }

  lemma {:induction false} MovedColumnReaches(reference: Table, target: Table, u: Table, at: seq<nat>, from: seq<nat>, a: nat)
    requires Complete(reference) && Complete(target) && Unique(reference.ids) && Unique(target.ids)
    requires Paired(reference, target, at, from) && Restated(a)
    requires u.ids == Gather(target.ids, at) && a in u.bins
    requires u.bins[a] == MovedColumn(reference.bins[a], target.bins[a], at, from, IsAbsoluteInUpdate(a))
    ensures UpdatesReach(reference, target, u, a)
  {
    GatheredIds(target, at);
    forall id | id in u.ids
      ensures Reaches(reference, target, u, id, a)
    {
      var i := IndexOf(u.ids, id);
      IndexOfUnique(target.ids, at[i]);
      IndexOfUnique(reference.ids, from[i]);
      MovedRow(reference, target, at, from, a, i);
    }
  }

  /** The update group, over the positions `at` of the target and `from` of the reference. */
  function UpdateGroup(reference: Table, target: Table, at: seq<nat>, from: seq<nat>): Table
    requires Complete(reference) && Complete(target) && Paired(reference, target, at, from)
  {
    Table(Gather(target.ids, at),
      map a | a in REQUIRED && Restated(a) :: MovedColumn(reference.bins[a], target.bins[a], at, from, IsAbsoluteInUpdate(a)))
  }

  lemma {:induction false} UpdateGroupReaches(reference: Table, target: Table, at: seq<nat>, from: seq<nat>)
    requires Complete(reference) && Complete(target) && Unique(reference.ids) && Unique(target.ids)
    requires Paired(reference, target, at, from)
    ensures var u := UpdateGroup(reference, target, at, from);
      && Shaped(u) && Tall(u) && (forall a :: a in u.bins <==> Restated(a))
      && forall a :: Restated(a) ==> UpdatesReach(reference, target, u, a)
  {
    var u := UpdateGroup(reference, target, at, from);
    forall a | Restated(a)
      ensures UpdatesReach(reference, target, u, a)
    {
      MovedColumnReaches(reference, target, u, at, from, a);
    }
    forall a, i: nat | Restated(a) && i < |at|
      ensures |u.bins[a][i]| == Channels(a)
    {
      MovedRow(reference, target, at, from, a, i);
    }
  }

  lemma {:induction false} PickedInOrder(target: Table, at: seq<nat>)
    requires Unique(target.ids) && Picks(at, |target.ids|)
    ensures InOrder(target, Gather(target.ids, at))
  {
    GatheredIds(target, at);
    SamePicks(at, Where(IsIn(target.ids, Gather(target.ids, at))), |target.ids|);
  }

  /** The positions of the live rows that changed, on both sides. */
  lemma {:induction false} ChangedArePaired(reference: Table, target: Table, live: seq<nat>, rows: seq<nat>, changed: seq<bool>)
    requires LiveRows(reference, target, live, rows) && |changed| == |live|
    ensures Paired(reference, target, Gather(live, Where(changed)), Gather(rows, Where(changed)))
  {
    var touched := Where(changed);
    var at := Gather(live, touched);
    forall i, j | 0 <= i < j < |at|
      ensures at[i] < at[j]
    {
      assert touched[i] < touched[j];
    }
  }

  lemma {:induction false} ChangedIds(reference: Table, target: Table, live: seq<nat>, rows: seq<nat>, changed: seq<bool>)
    requires Unique(reference.ids) && Unique(target.ids) && LiveRows(reference, target, live, rows)
    requires |changed| == |live| && forall j :: 0 <= j < |live| ==> (changed[j] <==> Moves(reference, target, target.ids[live[j]]))
    ensures var ids := Gather(target.ids, Gather(live, Where(changed)));
      && Unique(ids) && InOrder(target, ids)
      && forall id :: id in ids <==> id in reference.ids && id in target.ids && Moves(reference, target, id)
  {
    var touched := Where(changed);
    var at := Gather(live, touched);
    var ids := Gather(target.ids, at);
    ChangedArePaired(reference, target, live, rows, changed);
    GatheredIds(target, at);
    PickedInOrder(target, at);
    forall i | 0 <= i < |ids|
      ensures ids[i] in reference.ids && Moves(reference, target, ids[i])
    {
      assert changed[touched[i]] && live[touched[i]] in live;
    }
    forall id | id in reference.ids && id in target.ids && Moves(reference, target, id)
      ensures id in ids
    {
      ChangedHas(reference, target, live, rows, changed, id);
    }
  }

  lemma {:induction false} ChangedHas(reference: Table, target: Table, live: seq<nat>, rows: seq<nat>, changed: seq<bool>, id: int)
    requires LiveRows(reference, target, live, rows) && |changed| == |live|
    requires forall j :: 0 <= j < |live| ==> (changed[j] <==> Moves(reference, target, target.ids[live[j]]))
    requires id in reference.ids && id in target.ids && Moves(reference, target, id)
    ensures id in Gather(target.ids, Gather(live, Where(changed)))
  {
    var k := IndexOf(target.ids, id);
    assert k in live;
    var j :| 0 <= j < |live| && live[j] == k;
    assert j in Where(changed);
    var i :| 0 <= i < |Where(changed)| && Where(changed)[i] == j;
    assert Gather(target.ids, Gather(live, Where(changed)))[i] == id;
  }

  lemma {:induction false} GatheredIsComplete(t: Table, at: seq<nat>)
    requires Complete(t) && Picks(at, |t.ids|)
    ensures Complete(GatherTable(t, at))
  {
    var g := GatherTable(t, at);
    assert forall a, k :: a in g.bins && 0 <= k < |at| ==> g.bins[a][k] == t.bins[a][at[k]];
  }

  lemma {:induction false} GatheredStates(t: Table, at: seq<nat>, id: int, a: nat)
    requires Complete(t) && Unique(t.ids) && Picks(at, |t.ids|) && id in Gather(t.ids, at) && a in REQUIRED
    ensures Stated(GatherTable(t, at), id, a) == Stated(t, id, a)
  {
    var ids := Gather(t.ids, at);
    GatheredIds(t, at);
    var i := IndexOf(ids, id);
    IndexOfUnique(ids, i);
    GatheredRow(t, at, i, a);
  }

  lemma {:induction false} BornIds(reference: Table, target: Table, born: seq<nat>)
    requires Unique(target.ids) && born == Where(Not(IsIn(target.ids, reference.ids)))
    ensures Unique(Gather(target.ids, born))
    ensures forall id :: id in Gather(target.ids, born) <==> id in target.ids && id !in reference.ids
  {
    GatheredIds(target, born);
    forall id | id in target.ids && id !in reference.ids
      ensures id in Gather(target.ids, born)
    {
      IndexOfUnique(target.ids, IndexOf(target.ids, id));
      assert IndexOf(target.ids, id) in born;
    }
  }

  /** The birth group: the target rows the reference does not hold, restated outright. */
  lemma {:induction false} BirthGroup(reference: Table, target: Table, born: seq<nat>)
    requires Complete(target) && Unique(target.ids) && born == Where(Not(IsIn(target.ids, reference.ids)))
    ensures var b := GatherTable(target, born);
      && Complete(b) && Unique(b.ids) && BirthsStated(target, b)
      && forall id :: id in b.ids <==> id in target.ids && id !in reference.ids
  {
    var b := GatherTable(target, born);
    BornIds(reference, target, born);
    GatheredIsComplete(target, born);
    forall id, a | id in b.ids && a in REQUIRED
      ensures Stated(b, id, a) == Stated(target, id, a)
    {
      GatheredStates(target, born, id, a);
    }
  }

  lemma {:induction false} DeathGroup(reference: Table, target: Table)
    requires Unique(reference.ids)
    ensures var gone := SortInts(Gather(reference.ids, Where(Not(IsIn(reference.ids, target.ids)))));
      Unique(gone) && forall id :: id in gone <==> id in reference.ids && id !in target.ids
  {
    var at := Where(Not(IsIn(reference.ids, target.ids)));
    var ids := Gather(reference.ids, at);
    GatheredIds(reference, at);
    SortIntsSorts(ids);
    SortedUnique(ids);
    forall id | id in reference.ids && id !in target.ids
      ensures id in ids
    {
      IndexOfUnique(reference.ids, IndexOf(reference.ids, id));
      assert IndexOf(reference.ids, id) in at;
    }
  }

  lemma {:induction false} CountsOne(ids: seq<int>, x: int)
    requires Unique(ids)
    ensures multiset(ids)[x] <= 1
  {
    if ids != [] {
      assert ids == [ids[0]] + ids[1..];
      CountsOne(ids[1..], x);
      if ids[0] == x { assert x !in ids[1..]; }
    }
  }

  lemma {:induction false} CountsTwo(ids: seq<int>, i: nat, j: nat)
    requires i < j < |ids| && ids[i] == ids[j]
    ensures multiset(ids)[ids[i]] >= 2
  {
    assert ids == ids[..j] + ids[j..];
    assert ids[..j][i] == ids[i] && ids[j..][0] == ids[j];
    assert ids[i] in multiset(ids[..j]) && ids[i] in multiset(ids[j..]);
  }

  lemma {:induction false} SortedUnique(ids: seq<int>)
    requires Unique(ids)
    ensures Unique(SortInts(ids))
  {
    var r := SortInts(ids);
    SortIntsSorts(ids);
    forall i, j | 0 <= i < j < |r|
      ensures r[i] != r[j]
    {
      if r[i] == r[j] {
        CountsOne(ids, r[i]);
        CountsTwo(r, i, j);
        assert false;
      }
    }
  }

  /** Split one sample against a reference into updates, births and deaths. It is refused
      exactly when a live identity changes an attribute its grids derive from. */
  method Split(reference: Table, target: Table) returns (r: Option<Groups>)
    requires Complete(reference) && Complete(target) && Unique(reference.ids) && Unique(target.ids)
    ensures r.Some? <==> InvariantsKept(reference, target)
    ensures r.Some? ==> Splits(reference, target, r.value)
  {
    var live, rows := Align(reference, target);
    var deaths := SortInts(Gather(reference.ids, Where(Not(IsIn(reference.ids, target.ids)))));
    var births := GatherTable(target, Where(Not(IsIn(target.ids, reference.ids))));
    var kept := CheckInvariants(reference, target, live, rows);
    if !kept { return None; }
    var changed := ChangedRows(reference, target, live, rows);
    ChangedArePaired(reference, target, live, rows, changed);
    var at, from := Gather(live, Where(changed)), Gather(rows, Where(changed));
    var updates := UpdateGroup(reference, target, at, from);
    UpdateGroupReaches(reference, target, at, from);
    ChangedIds(reference, target, live, rows, changed);
    BirthGroup(reference, target, Where(Not(IsIn(target.ids, reference.ids))));
    DeathGroup(reference, target);
    return Some(Groups(updates, births, Table(deaths, map[])));
  }
}
