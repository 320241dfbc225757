/** What a delta carries on the wire, and the population the writer retains for it: the
    integer differences telescope onto exactly that population. */
module WireDeltas {
  import opened Registry
  import opened Populations
  import opened Composition
  import opened Records
  import opened Trajectories
  import opened DeltaGroups

  /** The two attributes that restate one trajectory together. */
  predicate IsAnchor(a: nat) {
    a == POSITION || a == MU_T
  }

  /** The groups as they are written over the state a reader will hold. */
  ghost predicate Wires(state: Table, comparison: Table, target: Table, g: Groups) {
    && SplitsIds(comparison, target, g) && SplitsColumns(g) && BirthsStated(target, g.births)
    && (forall a :: Restated(a) ==> UpdatesReach(state, target, g.updates, a))
  }

  /** The state restated for comparison: same rows, other anchors. */
  ghost predicate Restates(state: Table, comparison: Table) {
    && comparison.ids == state.ids && Complete(state) && Complete(comparison)
    && forall a :: a in REQUIRED && !IsAnchor(a) ==> comparison.bins[a] == state.bins[a]
  }

  /** The update group with its anchors subtracted from the state. */
  method AnchorUpdates(state: Table, comparison: Table, target: Table, before: Table) returns (u: Table)
    requires Complete(state) && Complete(target) && Unique(state.ids) && Unique(target.ids) && Restates(state, comparison)
    requires InOrder(target, before.ids) && Within(before.ids, state.ids)
    requires Shaped(before) && Tall(before) && forall a :: a in before.bins <==> Restated(a)
    requires forall a :: Restated(a) ==> UpdatesReach(comparison, target, before, a)
    ensures u.ids == before.ids && Shaped(u) && Tall(u) && (forall a :: a in u.bins <==> Restated(a))
    ensures forall a :: Restated(a) ==> UpdatesReach(state, target, u, a)
  {
    var at := Where(IsIn(target.ids, before.ids));
    var found := RowsFor(state.ids, before.ids);
    var from := found.value;
    var position := MovedColumn(state.bins[POSITION], target.bins[POSITION], at, from, false);
    var mu := MovedColumn(state.bins[MU_T], target.bins[MU_T], at, from, false);
    u := Table(before.ids, before.bins[POSITION := position][MU_T := mu]);
    AnchoredReach(state, comparison, target, before, u, at, from);
  }

  /** Subtract positions and birth times from the state itself, not from the restated copy
      that decided what moved. */
  method AnchorToState(state: Table, comparison: Table, target: Table, g: Groups) returns (wire: Groups)
    requires Complete(state) && Complete(target) && Unique(state.ids) && Unique(target.ids)
    requires Restates(state, comparison) && Splits(comparison, target, g)
    ensures Wires(state, comparison, target, wire)
    ensures wire == g.(updates := wire.updates) && wire.updates.ids == g.updates.ids
  {
    SplitUpdates(comparison, target, g);
    var u := AnchorUpdates(state, comparison, target, g.updates);
    wire := g.(updates := u);
    SameIdsWire(comparison, target, g, u);
  }

  lemma {:induction false} SplitUpdates(comparison: Table, target: Table, g: Groups)
    requires Splits(comparison, target, g)
    ensures Within(g.updates.ids, comparison.ids) && InOrder(target, g.updates.ids)
    ensures Shaped(g.updates) && Tall(g.updates) && (forall a :: a in g.updates.bins <==> Restated(a))
    ensures forall a :: Restated(a) ==> UpdatesReach(comparison, target, g.updates, a)
  {
    forall i | 0 <= i < |g.updates.ids|
      ensures g.updates.ids[i] in comparison.ids
    {
      var id := g.updates.ids[i];
      assert id in g.updates.ids;
    }
  }

  /** Other differences for the same identities split the same way. */
  lemma {:induction false} SameIdsWire(comparison: Table, target: Table, g: Groups, u: Table)
    requires SplitsIds(comparison, target, g) && SplitsColumns(g) && BirthsStated(target, g.births)
    requires u.ids == g.updates.ids && Shaped(u) && Tall(u) && (forall a :: a in u.bins <==> Restated(a))
    ensures SplitsIds(comparison, target, g.(updates := u)) && SplitsColumns(g.(updates := u)) && BirthsStated(target, g.(updates := u).births)
  {
  }

  lemma {:induction false} AnchoredReach(state: Table, comparison: Table, target: Table, before: Table, u: Table, at: seq<nat>, from: seq<nat>)
    requires Complete(state) && Complete(target) && Unique(state.ids) && Unique(target.ids) && Restates(state, comparison)
    requires Paired(state, target, at, from) && before.ids == Gather(target.ids, at)
    requires Shaped(before) && Tall(before) && forall a :: a in before.bins <==> Restated(a)
    requires forall a :: Restated(a) ==> UpdatesReach(comparison, target, before, a)
    requires u == Table(before.ids, before.bins
      [POSITION := MovedColumn(state.bins[POSITION], target.bins[POSITION], at, from, false)]
      [MU_T := MovedColumn(state.bins[MU_T], target.bins[MU_T], at, from, false)])
    ensures Shaped(u) && Tall(u) && (forall a :: a in u.bins <==> Restated(a))
    ensures forall a :: Restated(a) ==> UpdatesReach(state, target, u, a)
  {
    hide UpdatesReach, Restates, Paired;
    forall a, i: nat | Restated(a) && i < |at|
      ensures |u.bins[a][i]| == Channels(a)
    {
      if IsAnchor(a) { MovedRow(state, target, at, from, a, i); }
    }
    forall a | Restated(a)
      ensures UpdatesReach(state, target, u, a)
    {
      if IsAnchor(a) {
        MovedColumnReaches(state, target, u, at, from, a);
      } else {
        OthersReach(state, comparison, target, before, u, a);
      }
    }
  }

  lemma {:induction false} OthersReach(state: Table, comparison: Table, target: Table, before: Table, u: Table, a: nat)
    requires Restates(state, comparison) && UpdatesReach(comparison, target, before, a)
    requires Restated(a) && !IsAnchor(a) && a in before.bins && a in u.bins && u.ids == before.ids && u.bins[a] == before.bins[a]
    ensures UpdatesReach(state, target, u, a)
  {
    hide Shaped, Tall;
    forall id | id in u.ids
      ensures Reaches(state, target, u, id, a)
    {
      assert Reaches(comparison, target, before, id, a);
    }
  }

  // ---- what the writer retains ----

  /** The row the writer retains: an untouched live row keeps its older anchor. */
  ghost function RetainedRow(state: Table, target: Table, updates: seq<int>, id: int, a: nat): Row {
    if IsAnchor(a) && id in state.ids && id !in updates then Stated(state, id, a) else Stated(target, id, a)
  }

  ghost predicate Retains(state: Table, target: Table, updates: seq<int>, q: Table) {
    && q.ids == target.ids && Complete(q)
    && forall id, a :: id in q.ids && a in REQUIRED ==> Stated(q, id, a) == RetainedRow(state, target, updates, id, a)
  }

  /** A column with the rows at `at` replaced, one for one. */
  method Overlay(column: seq<Row>, at: seq<nat>, rows: seq<Row>) returns (after: seq<Row>)
    requires Picks(at, |column|) && |rows| == |at|
    ensures |after| == |column| && (forall i :: 0 <= i < |at| ==> after[at[i]] == rows[i])
    ensures forall k :: 0 <= k < |column| && k !in at ==> after[k] == column[k]
  {
    after := column;
    for j := 0 to |at|
      invariant |after| == |column| && forall i :: 0 <= i < j ==> after[at[i]] == rows[i]
      invariant forall k :: 0 <= k < |column| && (forall i :: 0 <= i < j ==> at[i] != k) ==> after[k] == column[k]
    {
      after := after[at[j] := rows[j]];
    }
  }

  /** One anchor column of the retained population: live rows from the state, and then the
      updated ones from the sample again. */
  method RetainColumn(state: Table, target: Table, updates: seq<int>, a: nat) returns (column: seq<Row>)
    requires Complete(state) && Complete(target) && Unique(state.ids) && Unique(target.ids) && IsAnchor(a)
    ensures |column| == |target.ids|
    ensures forall k :: 0 <= k < |target.ids| ==> column[k] == RetainedRow(state, target, updates, target.ids[k], a)
  {
    var live, rows := Align(state, target);
    var kept := Overlay(target.bins[a], live, Gather(state.bins[a], rows));
    var updated := Where(IsIn(target.ids, updates));
    column := Overlay(kept, updated, Gather(target.bins[a], updated));
    forall k | 0 <= k < |target.ids|
      ensures column[k] == RetainedRow(state, target, updates, target.ids[k], a)
    {
      KeptRow(state, target, live, rows, a, kept, k);
      assert k in updated <==> target.ids[k] in updates;
      if k in updated {
        var i :| 0 <= i < |updated| && updated[i] == k;
      }
    }
  }

  lemma {:induction false} KeptRow(state: Table, target: Table, live: seq<nat>, rows: seq<nat>, a: nat, kept: seq<Row>, k: nat)
    requires Complete(state) && Complete(target) && Unique(state.ids) && Unique(target.ids) && IsAnchor(a)
    requires LiveRows(state, target, live, rows) && |kept| == |target.ids| && k < |target.ids|
    requires forall i :: 0 <= i < |live| ==> kept[live[i]] == state.bins[a][rows[i]]
    requires forall j :: 0 <= j < |kept| && j !in live ==> kept[j] == target.bins[a][j]
    ensures kept[k] == Stated(if target.ids[k] in state.ids then state else target, target.ids[k], a)
    ensures target.bins[a][k] == Stated(target, target.ids[k], a)
  {
    IndexOfUnique(target.ids, k);
    if k in live {
      var j :| 0 <= j < |live| && live[j] == k;
      AlignedRow(state, target, live, rows, j, a);
    }
  }

  /** The population a decoder will hold after this delta. */
  method Retain(state: Table, target: Table, updates: seq<int>) returns (q: Table)
    requires Complete(state) && Complete(target) && Unique(state.ids) && Unique(target.ids)
    ensures Retains(state, target, updates, q)
  {
    var position := RetainColumn(state, target, updates, POSITION);
    var mu := RetainColumn(state, target, updates, MU_T);
    q := Table(target.ids, target.bins[POSITION := position][MU_T := mu]);
    RetainedColumns(state, target, updates, q);
  }

  lemma {:induction false} RetainedColumns(state: Table, target: Table, updates: seq<int>, q: Table)
    requires Complete(state) && Complete(target) && Unique(state.ids) && Unique(target.ids)
    requires q.ids == target.ids && q.bins.Keys == REQUIRED && Tall(q)
    requires forall a :: a in REQUIRED && !IsAnchor(a) ==> q.bins[a] == target.bins[a]
    requires forall a, k :: IsAnchor(a) && 0 <= k < |q.ids| ==> q.bins[a][k] == RetainedRow(state, target, updates, q.ids[k], a)
    ensures Retains(state, target, updates, q)
  {
    forall id, a | id in q.ids && a in REQUIRED
      ensures Stated(q, id, a) == RetainedRow(state, target, updates, id, a)
    {
      assert q.ids[IndexOf(q.ids, id)] == id;
    }
    forall a, k | a in REQUIRED && 0 <= k < |q.ids|
      ensures |q.bins[a][k]| == Channels(a)
    {
      assert |RetainedRow(state, target, updates, q.ids[k], a)| == Channels(a);
    }
  }

  // ---- telescoping ----

  /** A group that names nobody is written as no bytes at all. */
  function Encoded(t: Table): Table {
    if t.ids == [] then Table([], map[]) else t
  }

  function EncodedGroups(g: Groups): Groups {
    Groups(Encoded(g.updates), Encoded(g.births), g.deaths)
  }

  /** A group with rows is written with its columns, and one without with none. */
  lemma {:induction false} EncodedExactly(g: Groups)
    ensures var e := EncodedGroups(g);
      && (if |g.updates.ids| == 0 then e.updates.ids == [] && |e.updates.bins| == 0 else e.updates == g.updates)
      && (if |g.births.ids| == 0 then e.births.ids == [] && |e.births.bins| == 0 else e.births == g.births)
      && e.deaths == g.deaths
  {
  }

  /** Everything a delta is written from, and the population retained for it. */
  ghost predicate Differenced(state: Table, comparison: Table, target: Table, g: Groups, q: Table) {
    && ValidState(state) && Complete(state) && ValidState(target) && Complete(target)
    && Restates(state, comparison) && InvariantsKept(comparison, target)
    && Wires(state, comparison, target, g) && Retains(state, target, g.updates.ids, q)
  }

  lemma {:induction false} RowInRange(t: Table, id: int, a: nat)
    requires ValidState(t) && Complete(t) && id in t.ids && a in REQUIRED
    ensures InRange(Stated(t, id, a)) && |Stated(t, id, a)| == Channels(a)
    ensures a == ROTATION_INDEX ==> NamesComponent(Stated(t, id, a))
    ensures id in View(t).rows && Held(View(t), id, a) == Stated(t, id, a)
  {
    HeldInView(t, IndexOf(t.ids, id), a);
  }

  lemma {:induction false} RetainedIsValid(state: Table, comparison: Table, target: Table, g: Groups, q: Table)
    requires Differenced(state, comparison, target, g, q)
    ensures ValidState(q)
  {
    forall a, k | a in REQUIRED && 0 <= k < |q.ids|
      ensures InRange(q.bins[a][k]) && (a == ROTATION_INDEX ==> NamesComponent(q.bins[a][k]))
    {
      var id := q.ids[k];
      IndexOfUnique(q.ids, k);
      assert Stated(q, id, a) == RetainedRow(state, target, g.updates.ids, id, a);
      RowInRange(target, id, a);
      if id in state.ids { RowInRange(state, id, a); }
    }
  }

  /** Every update row lands in range, and lands on the target. */
  lemma {:induction false} UpdateLands(state: Table, comparison: Table, target: Table, g: Groups, q: Table, k: nat, a: nat)
    requires Differenced(state, comparison, target, g, q) && k < |g.updates.ids| && Restated(a)
    ensures var id := g.updates.ids[k];
      && id in state.ids && id in target.ids && g.updates.bins[a][k] == Stated(g.updates, id, a)
      && (if IsAbsoluteInUpdate(a) then g.updates.bins[a][k] == Stated(target, id, a)
          else Moved(Held(View(state), id, a), g.updates.bins[a][k]) == Stated(target, id, a))
    ensures !UpdateOverflows(View(state), g.updates, a, k)
    ensures a == ROTATION_INDEX ==> NamesComponent(g.updates.bins[a][k])
  {
    var id := g.updates.ids[k];
    IndexOfUnique(g.updates.ids, k);
    assert id in g.updates.ids && UpdatesReach(state, target, g.updates, a) && Reaches(state, target, g.updates, id, a);
    RowInRange(target, id, a);
    RowInRange(state, id, a);
  }

  lemma {:induction false} BirthLands(state: Table, comparison: Table, target: Table, g: Groups, q: Table, k: nat, a: nat)
    requires Differenced(state, comparison, target, g, q) && k < |g.births.ids| && a in REQUIRED
    ensures InRange(g.births.bins[a][k]) && (a == ROTATION_INDEX ==> NamesComponent(g.births.bins[a][k]))
  {
    var id := g.births.ids[k];
    IndexOfUnique(g.births.ids, k);
    assert id in g.births.ids && Stated(g.births, id, a) == Stated(target, id, a);
    RowInRange(target, id, a);
  }

  lemma {:induction false} WireIds(state: Table, comparison: Table, target: Table, g: Groups, q: Table)
    requires Differenced(state, comparison, target, g, q)
    ensures var d := DeltaOf(EncodedGroups(g));
      && d.updates.ids == g.updates.ids && d.births.ids == g.births.ids && d.deaths == g.deaths.ids
      && (forall id :: id in View(state).rows <==> id in state.ids)
      && (forall id :: Survives(View(state), d, id) <==> id in state.ids && id in target.ids)
  {
    var d := DeltaOf(EncodedGroups(g));
    assert d.deaths == g.deaths.ids;
    forall id
      ensures Survives(View(state), d, id) <==> id in state.ids && id in target.ids
    {
    }
  }

  /** Groups drawn from the survivors, the newcomers and the departed break no rule of identity. */
  lemma {:induction false} IdsLegal(p: Population, d: Delta, target: seq<int>)
    requires Unique(d.updates.ids) && Unique(d.births.ids) && Unique(d.deaths)
    requires forall i :: 0 <= i < |d.updates.ids| ==> d.updates.ids[i] in p.rows && d.updates.ids[i] in target
    requires forall i :: 0 <= i < |d.births.ids| ==> d.births.ids[i] !in p.rows && d.births.ids[i] in target
    requires forall id :: id in d.deaths <==> id in p.rows && id !in target
    ensures !Breaks(p, d, IdInTwoGroups) && !Breaks(p, d, DuplicateGaussianId) && !Breaks(p, d, UnknownGaussianId)
  {
    forall id | id in d.births.ids
      ensures id !in p.rows && id in target
    {
      var i :| 0 <= i < |d.births.ids| && d.births.ids[i] == id;
    }
    forall id | id in d.updates.ids
      ensures Survives(p, d, id) && id in target
    {
      var i :| 0 <= i < |d.updates.ids| && d.updates.ids[i] == id;
    }
    assert !Breaks(p, d, DuplicateGaussianId);
    assert !Breaks(p, d, UnknownGaussianId);
    assert Apart(d.updates.ids, d.births.ids);
    assert Apart(d.updates.ids, d.deaths);
    assert Apart(d.births.ids, d.deaths);
  }

  lemma {:induction false} WireBins(state: Table, comparison: Table, target: Table, g: Groups, q: Table)
    requires Differenced(state, comparison, target, g, q)
    ensures var d := DeltaOf(EncodedGroups(g));
      !Breaks(View(state), d, BinOverflow) && !Breaks(View(state), d, RotationIndexOutOfRange)
  {
    hide Differenced, UpdateOverflows, BinsInRange, View;
    UpdateBins(state, comparison, target, g, q);
    BirthBins(state, comparison, target, g, q);
  }

  lemma {:induction false} UpdateBins(state: Table, comparison: Table, target: Table, g: Groups, q: Table)
    requires Differenced(state, comparison, target, g, q)
    ensures forall a, k :: a in g.updates.bins && 0 <= k < |g.updates.bins[a]| ==> !UpdateOverflows(View(state), g.updates, a, k)
    ensures RotationsInRange(g.updates)
  {
    forall a, k | a in g.updates.bins && 0 <= k < |g.updates.bins[a]|
      ensures !UpdateOverflows(View(state), g.updates, a, k) && (a == ROTATION_INDEX ==> NamesComponent(g.updates.bins[a][k]))
    {
      UpdateLands(state, comparison, target, g, q, k, a);
    }
  }

  lemma {:induction false} BirthBins(state: Table, comparison: Table, target: Table, g: Groups, q: Table)
    requires Differenced(state, comparison, target, g, q)
    ensures BinsInRange(g.births) && RotationsInRange(g.births)
  {
    forall a, k | a in g.births.bins && 0 <= k < |g.births.bins[a]|
      ensures InRange(g.births.bins[a][k]) && (a == ROTATION_INDEX ==> NamesComponent(g.births.bins[a][k]))
    {
      BirthLands(state, comparison, target, g, q, k, a);
    }
  }

  lemma {:induction false} WireIdsLegal(state: Table, comparison: Table, target: Table, g: Groups, q: Table)
    requires Differenced(state, comparison, target, g, q)
    ensures var d := DeltaOf(EncodedGroups(g));
      !Breaks(View(state), d, IdInTwoGroups) && !Breaks(View(state), d, DuplicateGaussianId) && !Breaks(View(state), d, UnknownGaussianId)
  {
    var d := DeltaOf(EncodedGroups(g));
    WireIds(state, comparison, target, g, q);
    var u, b := g.updates.ids, g.births.ids;
    forall i | 0 <= i < |u|
      ensures u[i] in state.ids && u[i] in target.ids
    {
      assert u[i] in u;
    }
    forall i | 0 <= i < |b|
      ensures b[i] !in state.ids && b[i] in target.ids
    {
      assert b[i] in b;
    }
    IdsLegal(View(state), d, target.ids);
  }

  lemma {:induction false} WireColumnsLegal(p: Population, g: Groups, c: Refusal)
    requires SplitsColumns(g) && p.lanes == REQUIRED
    requires c !in {IdInTwoGroups, DuplicateGaussianId, UnknownGaussianId, BinOverflow, RotationIndexOutOfRange}
    ensures !Breaks(p, DeltaOf(EncodedGroups(g)), c)
  {
    assert Restated(ROTATION_INDEX) && Restated(ROTATION);
  }

  lemma {:induction false} WireComposable(state: Table, comparison: Table, target: Table, g: Groups, q: Table)
    requires Differenced(state, comparison, target, g, q)
    ensures Composable(View(state), DeltaOf(EncodedGroups(g)))
  {
    WireIdsLegal(state, comparison, target, g, q);
    WireBins(state, comparison, target, g, q);
    forall c
      ensures !Breaks(View(state), DeltaOf(EncodedGroups(g)), c)
    {
      if c !in {IdInTwoGroups, DuplicateGaussianId, UnknownGaussianId, BinOverflow, RotationIndexOutOfRange} {
        WireColumnsLegal(View(state), g, c);
      }
    }
  }

  /** Integer differences telescope: composing the delta onto what its reference denotes
      gives, row for row, the population the writer retained. */
  lemma {:induction false} WireCell(state: Table, comparison: Table, target: Table, g: Groups, q: Table, id: int, a: nat)
    requires Differenced(state, comparison, target, g, q) && id in q.ids && a in REQUIRED + IDENTITY_LANES
    ensures CellAfter(View(state), DeltaOf(EncodedGroups(g)), id, a) == Stated(q, id, a)
  {
    var d := DeltaOf(EncodedGroups(g));
    WireIds(state, comparison, target, g, q);
    if a !in REQUIRED {
      LaneCell(state, comparison, target, g, q, id, a);
    } else if id in d.births.ids {
      assert Stated(g.births, id, a) == Stated(target, id, a);
    } else if id in d.updates.ids && Restated(a) {
      UpdateLands(state, comparison, target, g, q, IndexOf(d.updates.ids, id), a);
    } else {
      UntouchedCell(state, comparison, target, g, q, id, a);
    }
  }

  lemma {:induction false} LaneCell(state: Table, comparison: Table, target: Table, g: Groups, q: Table, id: int, a: nat)
    requires Differenced(state, comparison, target, g, q) && id in q.ids && a !in REQUIRED && a in IDENTITY_LANES
    ensures CellAfter(View(state), DeltaOf(EncodedGroups(g)), id, a) == Stated(q, id, a)
  {
    if id in state.ids { HeldInView(state, IndexOf(state.ids, id), a); }
  }

  lemma {:induction false} UntouchedCell(state: Table, comparison: Table, target: Table, g: Groups, q: Table, id: int, a: nat)
    requires Differenced(state, comparison, target, g, q) && id in q.ids && a in REQUIRED
    requires id in state.ids && (id !in g.updates.ids || !Restated(a))
    ensures Held(View(state), id, a) == Stated(q, id, a)
  {
    hide ValidState, Held, View;
    RowInRange(state, id, a);
    assert Stated(q, id, a) == RetainedRow(state, target, g.updates.ids, id, a);
    if !IsAnchor(a) {
      assert Stated(comparison, id, a) == Stated(state, id, a);
      if Restated(a) { assert !Moves(comparison, target, id); }
    }
  }

  lemma {:induction false} Telescopes(state: Table, comparison: Table, target: Table, g: Groups, q: Table)
    requires Differenced(state, comparison, target, g, q)
    ensures ValidState(q) && Composable(View(state), DeltaOf(EncodedGroups(g)))
    ensures Compose(View(state), DeltaOf(EncodedGroups(g))) == View(q)
  {
    var d := DeltaOf(EncodedGroups(g));
    RetainedIsValid(state, comparison, target, g, q);
    WireComposable(state, comparison, target, g, q);
    WireIds(state, comparison, target, g, q);
    assert LanesAfter(View(state), d) == REQUIRED;
    forall id | id in q.ids
      ensures GaussianAt(q, IndexOf(q.ids, id)) == map a | a in REQUIRED + IDENTITY_LANES :: CellAfter(View(state), d, id, a)
    {
      WireRow(state, comparison, target, g, q, id);
    }
    ViewByRows(q, Compose(View(state), d));
  }

  lemma {:induction false} WireRow(state: Table, comparison: Table, target: Table, g: Groups, q: Table, id: int)
    requires Differenced(state, comparison, target, g, q) && id in q.ids
    ensures GaussianAt(q, IndexOf(q.ids, id)) ==
      map a | a in REQUIRED + IDENTITY_LANES :: CellAfter(View(state), DeltaOf(EncodedGroups(g)), id, a)
  {
    forall a | a in REQUIRED + IDENTITY_LANES
      ensures CellAfter(View(state), DeltaOf(EncodedGroups(g)), id, a) == Cell(q, IndexOf(q.ids, id), a)
    {
      WireCell(state, comparison, target, g, q, id, a);
    }
  }
}
