/** Composition as the decoder performs it: column by column, in place, in the order
    deaths, updates, births. Every method is proved against `Populations.Compose`. */
module Composition {
  import opened Wrappers
  import opened Registry
  import opened Populations
  import opened Sorting

  // ---- keyframes ----

  /** A keyframe's table breaks the rule `c` names. */
  ghost predicate KeyframeBreaks(t: Table, c: Refusal) {
    match c
    case DuplicateGaussianId => !Unique(t.ids)
    case StreamElementCountMismatch => !Tall(t)
    case BinOverflow => !BinsInRange(t)
    case RotationIndexOutOfRange => !RotationsInRange(t)
    case _ => false
  }

  /** The state a keyframe states outright: accepted exactly when it breaks no rule. */
  method KeyframeState(t: Table) returns (r: Result<Table, Refusal>)
    requires Shaped(t)
    ensures r.Success? <==> ValidState(t)
    ensures r.Success? ==> r.value == t
    ensures r.Failure? ==> KeyframeBreaks(t, r.error)
  {
    if !Unique(t.ids) { return Failure(DuplicateGaussianId); }
    var todo := t.bins.Keys;
    while todo != {}
      invariant todo <= t.bins.Keys
      invariant forall a :: a in t.bins.Keys - todo ==> |t.bins[a]| == |t.ids| && forall k :: 0 <= k < |t.bins[a]| ==> InRange(t.bins[a][k])
    {
      var a :| a in todo;
      if |t.bins[a]| != |t.ids| { return Failure(StreamElementCountMismatch); }
      if exists k :: 0 <= k < |t.bins[a]| && !InRange(t.bins[a][k]) { return Failure(BinOverflow); }
      todo := todo - {a};
    }
    if !RotationsInRange(t) { return Failure(RotationIndexOutOfRange); }
    return Success(t);
  }

  // ---- deaths ----

  /** The positions of the identities a death group spares, in order. */
  function Kept(ids: seq<int>, dead: seq<int>): (r: seq<nat>)
    ensures forall i :: 0 <= i < |r| ==> r[i] < |ids| && ids[r[i]] !in dead
    ensures forall i, j :: 0 <= i < j < |r| ==> r[i] < r[j]
    ensures forall k :: 0 <= k < |ids| && ids[k] !in dead ==> k in r
  {
    if ids == [] then [] else
      var n := |ids| - 1;
      var front := Kept(ids[..n], dead);
      assert forall i :: 0 <= i < |front| ==> ids[..n][front[i]] == ids[front[i]];
      assert forall k :: 0 <= k < n ==> ids[..n][k] == ids[k];
      if ids[n] in dead then front else front + [n]
  }

  /** The rows of a column at the given positions. */
  function Gather<T>(xs: seq<T>, at: seq<nat>): (r: seq<T>)
    requires forall i :: 0 <= i < |at| ==> at[i] < |xs|
    ensures |r| == |at|
  {
    seq(|at|, i requires 0 <= i < |at| => xs[at[i]])
  }

  function GatherTable(t: Table, at: seq<nat>): Table
    requires Tall(t) && forall i :: 0 <= i < |at| ==> at[i] < |t.ids|
  {
    Table(Gather(t.ids, at), map a | a in t.bins :: Gather(t.bins[a], at))
  }

  method Bury(state: Table, deaths: seq<int>) returns (r: Result<Table, Refusal>)
    requires ValidState(state)
    ensures r.Success? <==> Within(deaths, state.ids)
    ensures r.Failure? ==> r.error == UnknownGaussianId
    ensures r.Success? ==> ValidState(r.value) && IsBuried(state, deaths, r.value)
  {
    if deaths == [] {
      forall k: nat, a | k < |state.ids|
        ensures Cell(state, k, a) == Cell(state, IndexOf(state.ids, state.ids[k]), a)
      {
        IndexOfUnique(state.ids, k);
      }
      return Success(state);
    }
    if exists id :: id in deaths && id !in state.ids { return Failure(UnknownGaussianId); }
    var keep := Kept(state.ids, deaths);
    var after := GatherTable(state, keep);
    GatheredIsValid(state, keep);
    KeptIds(state, deaths);
    return Success(after);
  }

  /** The surviving rows, as a table: the identities the deaths spare, each with its row. */
  ghost predicate IsBuried(reference: Table, deaths: seq<int>, t: Table) {
    && t.bins.Keys == reference.bins.Keys
    && (forall id :: id in t.ids <==> id in reference.ids && id !in deaths)
    && (forall k: nat, a :: k < |t.ids| ==> Cell(t, k, a) == Cell(reference, IndexOf(reference.ids, t.ids[k]), a))
  }

  lemma {:induction false} GatheredIsValid(t: Table, at: seq<nat>)
    requires ValidState(t)
    requires forall i :: 0 <= i < |at| ==> at[i] < |t.ids|
    requires forall i, j :: 0 <= i < j < |at| ==> at[i] < at[j]
    ensures ValidState(GatherTable(t, at))
    ensures forall i: nat, a :: i < |at| ==>
      && GatherTable(t, at).ids[i] in t.ids
      && Cell(GatherTable(t, at), i, a) == Cell(t, IndexOf(t.ids, GatherTable(t, at).ids[i]), a)
  {
    var g := GatherTable(t, at);
    forall i, j | 0 <= i < j < |g.ids|
      ensures g.ids[i] != g.ids[j]
    {
      assert at[i] < at[j];
    }
    assert forall a, k :: a in g.bins && 0 <= k < |at| ==> g.bins[a][k] == t.bins[a][at[k]];
    forall i: nat, a | i < |at|
      ensures g.ids[i] in t.ids && Cell(g, i, a) == Cell(t, IndexOf(t.ids, g.ids[i]), a)
    {
      IndexOfUnique(t.ids, at[i]);
    }
  }

  lemma {:induction false} KeptIds(state: Table, deaths: seq<int>)
    ensures forall id :: id in Gather(state.ids, Kept(state.ids, deaths)) <==> id in state.ids && id !in deaths
  {
    var keep := Kept(state.ids, deaths);
    var after := Gather(state.ids, keep);
    forall id | id in after
      ensures id in state.ids && id !in deaths
    {
      var k :| 0 <= k < |after| && after[k] == id;
      assert after[k] == state.ids[keep[k]];
    }
    forall id | id in state.ids && id !in deaths
      ensures id in after
    {
      var k := IndexOf(state.ids, id);
      assert k in keep;
      var i :| 0 <= i < |keep| && keep[i] == k;
      assert after[i] == id;
    }
  }

  // ---- updates ----

  /** Where each wanted identity sits in the state, whatever order either is in. */
  method RowsFor(stateIds: seq<int>, wanted: seq<int>) returns (r: Result<seq<nat>, Refusal>)
    requires Unique(stateIds)
    ensures r.Success? <==> Within(wanted, stateIds)
    ensures r.Failure? ==> r.error == UnknownGaussianId
    ensures r.Success? ==> |r.value| == |wanted|
    ensures r.Success? ==> forall j :: 0 <= j < |wanted| ==> r.value[j] < |stateIds| && stateIds[r.value[j]] == wanted[j]
  {
    if exists id :: id in wanted && id !in stateIds { return Failure(UnknownGaussianId); }
    var order := ArgSort(stateIds);
    var sorted := Gather(stateIds, order);
    var rows: seq<nat> := [];
    for j := 0 to |wanted|
      invariant |rows| == j
      invariant forall i :: 0 <= i < j ==> rows[i] < |stateIds| && stateIds[rows[i]] == wanted[i]
    {
      var at := SearchSorted(sorted, wanted[j]);
      assert wanted[j] in stateIds;
      var k := IndexOf(stateIds, wanted[j]);
      assert k in order;
      var i :| 0 <= i < |order| && order[i] == k;
      assert sorted[i] == wanted[j];
      assert sorted[at] == wanted[j];
      rows := rows + [order[at]];
    }
    return Success(rows);
  }

  /** A touched row: restated outright, or moved by a difference of bins. */
  function Touched(base: Row, stated: Row, absolute: bool): Row {
    if absolute then stated else Moved(base, stated)
  }

  /** Row `k` of a column after an update group named `ids` and stated `values`. */
  function UpdatedRow(stateIds: seq<int>, base: seq<Row>, ids: seq<int>, values: seq<Row>, absolute: bool, k: nat): Row
    requires |base| == |stateIds| && |values| == |ids| && k < |stateIds|
  {
    if stateIds[k] in ids then Touched(base[k], values[IndexOf(ids, stateIds[k])], absolute) else base[k]
  }

  predicate IsUpdatedColumn(stateIds: seq<int>, base: seq<Row>, ids: seq<int>, values: seq<Row>, absolute: bool, column: seq<Row>) {
    && |base| == |stateIds| == |column| && |values| == |ids|
    && (forall k :: 0 <= k < |stateIds| ==> column[k] == UpdatedRow(stateIds, base, ids, values, absolute, k))
    && (forall k :: 0 <= k < |stateIds| && stateIds[k] in ids ==> InRange(column[k]))
  }

  /** The rows an update names are restated or moved in place; leaving the signed 32-bit
      range is refused, at the first row that would. */
  method UpdateColumn(stateIds: seq<int>, base: seq<Row>, ids: seq<int>, values: seq<Row>, absolute: bool, rows: seq<nat>)
    returns (r: Result<seq<Row>, Refusal>, ghost bad: nat)
    requires |base| == |stateIds| && |values| == |ids| == |rows| && Unique(stateIds) && Unique(ids)
    requires forall j :: 0 <= j < |rows| ==> rows[j] < |stateIds| && stateIds[rows[j]] == ids[j]
    ensures r.Failure? ==> r.error == BinOverflow && bad < |rows| && !InRange(Touched(base[rows[bad]], values[bad], absolute))
    ensures r.Success? ==> IsUpdatedColumn(stateIds, base, ids, values, absolute, r.value)
  {
    var column := base;
    for j := 0 to |rows|
      invariant |column| == |base|
      invariant forall i :: 0 <= i < j ==> column[rows[i]] == Touched(base[rows[i]], values[i], absolute) && InRange(column[rows[i]])
      invariant forall k :: 0 <= k < |base| && (forall i :: 0 <= i < j ==> rows[i] != k) ==> column[k] == base[k]
    {
      assert forall i :: 0 <= i < j ==> rows[i] != rows[j];
      var row := Touched(column[rows[j]], values[j], absolute);
      if !InRange(row) { return Failure(BinOverflow), j; }
      column := column[rows[j] := row];
    }
    forall k | 0 <= k < |stateIds|
      ensures column[k] == UpdatedRow(stateIds, base, ids, values, absolute, k)
      ensures stateIds[k] in ids ==> InRange(column[k])
    {
      if stateIds[k] in ids {
        assert rows[IndexOf(ids, stateIds[k])] == k;
      } else {
        assert forall i :: 0 <= i < |rows| ==> rows[i] != k;
      }
    }
    return Success(column), 0;
  }

  /** A state's column, or the zeros an absent identity lane stands for. */
  function BaseColumn(t: Table, a: nat): seq<Row> {
    if a in t.bins then t.bins[a] else seq(|t.ids|, _ => Zero(a))
  }

  predicate UpdatedColumn(t: Table, ids: seq<int>, a: nat, values: seq<Row>, column: seq<Row>) {
    IsUpdatedColumn(t.ids, BaseColumn(t, a), ids, values, IsAbsoluteInUpdate(a), column)
  }

  /** A state between two stages: everything but the rotation rule, which is checked last. */
  predicate Aligned(t: Table) {
    Unique(t.ids) && Shaped(t) && Tall(t) && BinsInRange(t)
  }

  /** What an update group may break against the surviving rows. */
  ghost predicate UpdateBreaks(t: Table, u: Table, c: Refusal) {
    match c
    case UnknownGaussianId => !Within(u.ids, t.ids)
    case StreamElementCountMismatch => !Tall(u)
    case UnknownAttributeInUpdate => !(u.bins.Keys <= t.bins.Keys + IDENTITY_LANES)
    case BinOverflow => exists a, k :: a in u.bins && 0 <= k < |u.bins[a]| && UpdateOverflows(View(t), u, a, k)
    case _ => false
  }

  /** Overflow of one named row, seen from the update and from the state, is the same. */
  lemma {:induction false} OverflowByRow(t: Table, u: Table, a: nat, j: nat, k: nat)
    requires Tall(t) && Unique(t.ids) && a in u.bins && |u.bins[a]| == |u.ids|
    requires a in t.bins || IsAbsoluteInUpdate(a)
    requires j < |u.ids| && k < |t.ids| && t.ids[k] == u.ids[j]
    ensures UpdateOverflows(View(t), u, a, j) <==> !InRange(Touched(BaseColumn(t, a)[k], u.bins[a][j], IsAbsoluteInUpdate(a)))
  {
    HeldInView(t, k, a);
  }

  /** The table after an update group: untouched columns carry over, lanes it introduces join. */
  predicate IsUpdated(t: Table, u: Table, after: Table) {
    && after.ids == t.ids
    && after.bins.Keys == t.bins.Keys + u.bins.Keys
    && (forall a :: a in u.bins ==> UpdatedColumn(t, u.ids, a, u.bins[a], after.bins[a]))
    && (forall a :: a in t.bins && a !in u.bins ==> after.bins[a] == t.bins[a])
  }

  /** One attribute of the update group, with the checks that come before it is applied. */
  method UpdateAttribute(state: Table, u: Table, a: nat, rows: seq<nat>) returns (r: Result<seq<Row>, Refusal>)
    requires Tall(state) && Unique(state.ids) && Unique(u.ids) && a in u.bins
    requires |rows| == |u.ids| && forall j :: 0 <= j < |rows| ==> rows[j] < |state.ids| && state.ids[rows[j]] == u.ids[j]
    ensures r.Failure? ==> UpdateBreaks(state, u, r.error)
    ensures r.Failure? ==> r.error != UnknownGaussianId
    ensures r.Success? ==> a in state.bins.Keys + IDENTITY_LANES
    ensures r.Success? ==> UpdatedColumn(state, u.ids, a, u.bins[a], r.value)
  {
    if |u.bins[a]| != |u.ids| { return Failure(StreamElementCountMismatch); }
    if a !in state.bins && a !in IDENTITY_LANES { return Failure(UnknownAttributeInUpdate); }
    var column, bad := UpdateColumn(state.ids, BaseColumn(state, a), u.ids, u.bins[a], IsAbsoluteInUpdate(a), rows);
    if column.Failure? {
      OverflowByRow(state, u, a, bad, rows[bad]);
    }
    return column;
  }

  /** The update group, attribute by attribute in whatever order it carries them. */
  method Update(state: Table, u: Table) returns (r: Result<Table, Refusal>)
    requires Tall(state) && Unique(state.ids) && Unique(u.ids)
    ensures r.Failure? ==> UpdateBreaks(state, u, r.error)
    ensures r.Failure? ==> r.error == UnknownGaussianId || Within(u.ids, state.ids)
    ensures r.Success? ==> Within(u.ids, state.ids) && Tall(u) && u.bins.Keys <= state.bins.Keys + IDENTITY_LANES
    ensures r.Success? ==> IsUpdated(state, u, r.value)
  {
    var rows := RowsFor(state.ids, u.ids);
    if rows.Failure? { return Failure(rows.error); }
    var bins := state.bins;
    var todo := u.bins.Keys;
    ghost var done: set<nat> := {};
    while todo != {}
      invariant done + todo == u.bins.Keys && done !! todo
      invariant bins.Keys == state.bins.Keys + done
      invariant done <= state.bins.Keys + IDENTITY_LANES
      invariant forall a :: a in done ==> UpdatedColumn(state, u.ids, a, u.bins[a], bins[a])
      invariant forall a :: a in state.bins && a !in done ==> bins[a] == state.bins[a]
    {
      var a :| a in todo;
      var column := UpdateAttribute(state, u, a, rows.value);
      if column.Failure? { return Failure(column.error); }
      bins := bins[a := column.value];
      todo := todo - {a};
      done := done + {a};
    }
    return Success(Table(state.ids, bins));
  }

  /** An accepted update group leaves an aligned table. */
  lemma {:induction false} UpdatedIsAligned(t: Table, u: Table, after: Table)
    requires Aligned(t) && Shaped(u) && IsUpdated(t, u, after)
    ensures Aligned(after)
  {
    forall a, k | a in after.bins && 0 <= k < |t.ids|
      ensures |after.bins[a][k]| == Channels(a) && InRange(after.bins[a][k])
    {
      if a in u.bins {
        ZeroRow(a);
        assert UpdatedColumn(t, u.ids, a, u.bins[a], after.bins[a]);
      }
    }
  }

  /** An accepted update group overflows nowhere. */
  lemma {:induction false} UpdatedWithoutOverflow(t: Table, u: Table, after: Table, a: nat, j: nat)
    requires Tall(t) && Unique(t.ids) && Unique(u.ids) && Within(u.ids, t.ids) && IsUpdated(t, u, after)
    requires a in u.bins && j < |u.bins[a]| && (a in t.bins || IsAbsoluteInUpdate(a))
    ensures !UpdateOverflows(View(t), u, a, j)
  {
    assert UpdatedColumn(t, u.ids, a, u.bins[a], after.bins[a]);
    var k := IndexOf(t.ids, u.ids[j]);
    IndexOfUnique(u.ids, j);
    OverflowByRow(t, u, a, j, k);
  }

  // ---- births ----

  /** What a birth group may break against the live rows. */
  ghost predicate BirthBreaks(t: Table, b: Table, c: Refusal) {
    match c
    case DuplicateGaussianId => !Apart(b.ids, t.ids)
    case IncompleteBirth => !(t.bins.Keys <= b.bins.Keys + IDENTITY_LANES)
    case StreamElementCountMismatch => !Tall(b)
    case BinOverflow => !BinsInRange(b)
    case UnknownAttributeInBirth => t.ids != [] && !(b.bins.Keys <= t.bins.Keys + IDENTITY_LANES)
    case _ => false
  }

  /** A merged column: the live rows, then the born ones, zeros where a side lacks the lane. */
  function MergedColumn(t: Table, b: Table, a: nat): seq<Row> {
    BaseColumn(t, a) + BaseColumn(b, a)
  }

  predicate IsMerged(t: Table, b: Table, after: Table) {
    && after.ids == t.ids + b.ids
    && after.bins.Keys == t.bins.Keys + b.bins.Keys
    && forall a :: a in after.bins ==> after.bins[a] == MergedColumn(t, b, a)
  }

  /** Every column of a birth group is as tall as its identities and in range. */
  method CheckBirths(b: Table) returns (broken: Option<Refusal>)
    ensures broken.None? <==> Tall(b) && BinsInRange(b)
    ensures broken.Some? ==> (broken.value == StreamElementCountMismatch && !Tall(b)) || (broken.value == BinOverflow && !BinsInRange(b))
  {
    var todo := b.bins.Keys;
    while todo != {}
      invariant todo <= b.bins.Keys
      invariant forall a :: a in b.bins.Keys - todo ==> |b.bins[a]| == |b.ids| && forall k :: 0 <= k < |b.bins[a]| ==> InRange(b.bins[a][k])
    {
      var a :| a in todo;
      if |b.bins[a]| != |b.ids| { return Some(StreamElementCountMismatch); }
      if exists k :: 0 <= k < |b.bins[a]| && !InRange(b.bins[a][k]) { return Some(BinOverflow); }
      todo := todo - {a};
    }
    return None;
  }

  /** The columns after a birth group joins, or the refusal of one nobody live has a value
      for. */
  method MergeBirths(state: Table, b: Table) returns (r: Result<Table, Refusal>)
    ensures r.Failure? ==> r.error == UnknownAttributeInBirth && BirthBreaks(state, b, r.error)
    ensures r.Success? ==> !BirthBreaks(state, b, UnknownAttributeInBirth) && IsMerged(state, b, r.value)
  {
    hide MergedColumn;
    var merged: map<nat, seq<Row>> := map[];
    var todo := state.bins.Keys + b.bins.Keys;
    while todo != {}
      invariant todo <= state.bins.Keys + b.bins.Keys
      invariant merged.Keys == state.bins.Keys + b.bins.Keys - todo
      invariant forall a :: a in merged ==> merged[a] == MergedColumn(state, b, a)
      invariant forall a :: a in merged && state.ids != [] ==> a in state.bins.Keys + IDENTITY_LANES
    {
      var a :| a in todo;
      if a !in state.bins && state.ids != [] && a !in IDENTITY_LANES { return Failure(UnknownAttributeInBirth); }
      merged := merged[a := MergedColumn(state, b, a)];
      todo := todo - {a};
    }
    return Success(Table(state.ids + b.ids, merged));
  }

  /** A birth group joins the surviving rows. */
  method Bear(state: Table, b: Table) returns (r: Result<Table, Refusal>)
    requires Aligned(state) && Shaped(b) && Unique(b.ids)
    ensures r.Failure? ==> BirthBreaks(state, b, r.error)
    ensures r.Success? ==> forall c :: !BirthBreaks(state, b, c)
    ensures r.Success? ==> IsMerged(state, b, r.value)
  {
    hide IsMerged, Tall, BinsInRange;
    if exists id :: id in b.ids && id in state.ids { return Failure(DuplicateGaussianId); }
    if !(state.bins.Keys <= b.bins.Keys + IDENTITY_LANES) { return Failure(IncompleteBirth); }
    var broken := CheckBirths(b);
    if broken.Some? { return Failure(broken.value); }
    r := MergeBirths(state, b);
  }

  lemma {:induction false} MergedIsAligned(t: Table, b: Table, after: Table)
    requires Aligned(t) && Shaped(b) && Unique(b.ids) && IsMerged(t, b, after)
    requires forall c :: !BirthBreaks(t, b, c)
    ensures Aligned(after)
  {
    assert !BirthBreaks(t, b, DuplicateGaussianId) && !BirthBreaks(t, b, StreamElementCountMismatch) && !BirthBreaks(t, b, BinOverflow);
    forall a, k | a in after.bins && 0 <= k < |after.bins[a]|
      ensures |after.bins[a][k]| == Channels(a) && InRange(after.bins[a][k])
    {
      ZeroRow(a);
    }
  }

  // ---- one delta ----

  /** The stages of one composition: the survivors, then their updated rows, then the born. */
  ghost predicate IsStaged(reference: Table, d: Delta, buried: Table, moved: Table, after: Table) {
    && ValidState(reference) && ValidState(buried) && IsBuried(reference, d.deaths, buried)
    && Tall(moved)
    && (if d.updates.ids == [] then moved == buried else IsUpdated(buried, d.updates, moved))
    && (if d.births.ids == [] then after == moved else Tall(d.births) && IsMerged(moved, d.births, after))
  }

  lemma {:induction false} BuriedRow(reference: Table, d: Delta, buried: Table, k: nat, a: nat)
    requires Unique(reference.ids) && IsBuried(reference, d.deaths, buried) && k < |buried.ids|
    ensures Held(View(reference), buried.ids[k], a) == Cell(buried, k, a)
  {
    assert buried.ids[k] in buried.ids;
    HeldInView(reference, IndexOf(reference.ids, buried.ids[k]), a);
  }

  /** Overflow against the survivors is overflow against the reference. */
  lemma {:induction false} SameOverflow(reference: Table, d: Delta, buried: Table, a: nat, k: nat)
    requires Unique(reference.ids) && Unique(buried.ids) && IsBuried(reference, d.deaths, buried)
    requires a in d.updates.bins && k < |d.updates.bins[a]|
    requires k < |d.updates.ids| ==> d.updates.ids[k] in buried.ids
    ensures UpdateOverflows(View(buried), d.updates, a, k) <==> UpdateOverflows(View(reference), d.updates, a, k)
  {
    if k < |d.updates.ids| {
      var row := IndexOf(buried.ids, d.updates.ids[k]);
      BuriedRow(reference, d, buried, row, a);
      HeldInView(buried, row, a);
    }
  }

  lemma {:induction false} UnknownDeath(reference: Table, d: Delta)
    requires !Within(d.deaths, reference.ids)
    ensures Breaks(View(reference), d, UnknownGaussianId)
  {
    var i :| 0 <= i < |d.deaths| && d.deaths[i] !in reference.ids;
    var id := d.deaths[i];
    assert id in d.deaths && id !in View(reference).rows;
  }

  lemma {:induction false} UpdateBreakIsBreak(reference: Table, d: Delta, buried: Table, c: Refusal)
    requires Unique(reference.ids) && Unique(buried.ids) && IsBuried(reference, d.deaths, buried)
    requires d.updates.ids != [] && UpdateBreaks(buried, d.updates, c)
    requires c == UnknownGaussianId || Within(d.updates.ids, buried.ids)
    ensures Breaks(View(reference), d, c)
  {
    if !Within(d.updates.ids, buried.ids) {
      var i :| 0 <= i < |d.updates.ids| && d.updates.ids[i] !in buried.ids;
      assert !Survives(View(reference), d, d.updates.ids[i]);
    } else if c == BinOverflow {
      var a, k :| a in d.updates.bins && 0 <= k < |d.updates.bins[a]| && UpdateOverflows(View(buried), d.updates, a, k);
      SameOverflow(reference, d, buried, a, k);
    }
  }

  lemma {:induction false} BirthBreakIsBreak(reference: Table, d: Delta, buried: Table, moved: Table, c: Refusal)
    requires IsBuried(reference, d.deaths, buried) && moved.ids == buried.ids
    requires moved.bins.Keys + IDENTITY_LANES == buried.bins.Keys + IDENTITY_LANES
    requires d.births.ids != [] && BirthBreaks(moved, d.births, c)
    ensures Breaks(View(reference), d, c)
  {
    var p := View(reference);
    match c
    case DuplicateGaussianId =>
      var i :| 0 <= i < |d.births.ids| && d.births.ids[i] in buried.ids;
      assert Survives(p, d, d.births.ids[i]);
    case UnknownAttributeInBirth =>
      assert moved.ids[0] in buried.ids;
      assert Survives(p, d, moved.ids[0]);
    case IncompleteBirth =>
      LanesAgree(moved, buried, d.births);
    case _ =>
  }

  lemma {:induction false} LanesAgree(moved: Table, buried: Table, b: Table)
    requires moved.bins.Keys + IDENTITY_LANES == buried.bins.Keys + IDENTITY_LANES
    ensures moved.bins.Keys <= b.bins.Keys + IDENTITY_LANES <==> buried.bins.Keys <= b.bins.Keys + IDENTITY_LANES
    ensures b.bins.Keys <= moved.bins.Keys + IDENTITY_LANES <==> b.bins.Keys <= buried.bins.Keys + IDENTITY_LANES
  {
  }

  // ---- what acceptance establishes ----

  lemma {:induction false} RotationsSurviveUpdate(t: Table, u: Table, moved: Table)
    requires Tall(t) && Unique(t.ids) && Shaped(u) && Unique(u.ids) && Within(u.ids, t.ids) && IsUpdated(t, u, moved)
    requires RotationsInRange(moved)
    ensures RotationsInRange(u)
  {
    var R := ROTATION_INDEX;
    if R in u.bins {
      assert UpdatedColumn(t, u.ids, R, u.bins[R], moved.bins[R]);
      forall j | 0 <= j < |u.bins[R]|
        ensures NamesComponent(u.bins[R][j])
      {
        var k := IndexOf(t.ids, u.ids[j]);
        IndexOfUnique(u.ids, j);
        assert moved.bins[R][k] == u.bins[R][j];
      }
    }
  }

  lemma {:induction false} RotationsSurviveMerge(t: Table, b: Table, after: Table)
    requires Tall(t) && Tall(b) && IsMerged(t, b, after) && RotationsInRange(after)
    ensures RotationsInRange(t) && RotationsInRange(b)
  {
    var R := ROTATION_INDEX;
    if R in after.bins {
      var column := after.bins[R];
      assert column == MergedColumn(t, b, R);
      assert R in t.bins ==> forall k :: 0 <= k < |t.ids| ==> column[k] == t.bins[R][k];
      assert R in b.bins ==> forall k :: 0 <= k < |b.ids| ==> column[|t.ids| + k] == b.bins[R][k];
    }
  }

  /** An unnamed component in a merged table comes from one of its two sides. */
  lemma {:induction false} UnnamedAfterMerge(t: Table, b: Table, after: Table)
    requires Tall(t) && Tall(b) && IsMerged(t, b, after) && !RotationsInRange(after)
    ensures !RotationsInRange(t) || !RotationsInRange(b)
  {
    var R := ROTATION_INDEX;
    ZeroRow(R);
    var k :| 0 <= k < |after.bins[R]| && !NamesComponent(after.bins[R][k]);
    assert after.bins[R] == MergedColumn(t, b, R);
    if k < |t.ids| {
      if R in t.bins { assert t.bins[R][k] == after.bins[R][k]; }
    } else if R in b.bins {
      assert b.bins[R][k - |t.ids|] == after.bins[R][k];
    }
  }

  lemma {:induction false} UnnamedAfterUpdate(t: Table, u: Table, moved: Table)
    requires Tall(t) && Tall(u) && RotationsInRange(t) && IsUpdated(t, u, moved) && !RotationsInRange(moved)
    ensures !RotationsInRange(u)
  {
    var R := ROTATION_INDEX;
    ZeroRow(R);
    var k :| 0 <= k < |moved.bins[R]| && !NamesComponent(moved.bins[R][k]);
    if R in u.bins {
      assert UpdatedColumn(t, u.ids, R, u.bins[R], moved.bins[R]);
    }
  }

  /** An unnamed component can only have come from the delta itself. */
  lemma {:induction false} RefusedRotations(reference: Table, d: Delta, buried: Table, moved: Table, after: Table)
    requires ValidState(buried) && Tall(moved)
    requires if d.updates.ids == [] then moved == buried else Tall(d.updates) && IsUpdated(buried, d.updates, moved)
    requires if d.births.ids == [] then after == moved else Tall(d.births) && IsMerged(moved, d.births, after)
    requires !RotationsInRange(after)
    ensures Breaks(View(reference), d, RotationIndexOutOfRange)
  {
    if d.births.ids != [] { UnnamedAfterMerge(moved, d.births, after); }
    if d.updates.ids != [] && !RotationsInRange(moved) { UnnamedAfterUpdate(buried, d.updates, moved); }
  }

  /** Everything the decoder checked before it reached the last stage. */
  ghost predicate Checked(d: Delta, reference: Table, buried: Table, moved: Table) {
    && Apart(d.updates.ids, d.births.ids) && Apart(d.updates.ids, d.deaths) && Apart(d.births.ids, d.deaths)
    && Unique(d.updates.ids) && Unique(d.births.ids) && Unique(d.deaths) && Within(d.deaths, reference.ids)
    && (ROTATION_INDEX in d.updates.bins <==> ROTATION in d.updates.bins)
    && (forall a :: a in d.updates.bins ==> !IsGopInvariant(a))
    && (d.updates.ids != [] ==> Within(d.updates.ids, buried.ids) && Tall(d.updates) && d.updates.bins.Keys <= buried.bins.Keys + IDENTITY_LANES)
    && (d.births.ids != [] ==> forall c :: !BirthBreaks(moved, d.births, c))
  }

  /** Every rule holds: the accepted delta breaks none. */
  lemma {:induction false} AcceptedDelta(reference: Table, d: Delta, buried: Table, moved: Table, after: Table)
    requires IsStaged(reference, d, buried, moved, after) && ShapedDelta(d) && Checked(d, reference, buried, moved)
    requires RotationsInRange(after)
    ensures Composable(View(reference), d)
  {
    forall c
      ensures !Breaks(View(reference), d, c)
    {
      match c
      case UnknownGaussianId =>
        forall id
          ensures Survives(View(reference), d, id) <==> id in buried.ids
        {
        }
      case BinOverflow => AcceptedBins(reference, d, buried, moved);
      case RotationIndexOutOfRange =>
        if d.births.ids != [] { RotationsSurviveMerge(moved, d.births, after); }
        if d.updates.ids != [] { RotationsSurviveUpdate(buried, d.updates, moved); }
      case DuplicateGaussianId => AcceptedBirths(reference, d, buried, moved, c);
      case IncompleteBirth => AcceptedBirths(reference, d, buried, moved, c);
      case UnknownAttributeInBirth => AcceptedBirths(reference, d, buried, moved, c);
      case _ => assert d.births.ids != [] ==> !BirthBreaks(moved, d.births, c);
    }
  }

  lemma {:induction false} AcceptedBins(reference: Table, d: Delta, buried: Table, moved: Table)
    requires ValidState(reference) && ValidState(buried) && IsBuried(reference, d.deaths, buried)
    requires if d.updates.ids == [] then moved == buried else IsUpdated(buried, d.updates, moved)
    requires ShapedDelta(d) && Checked(d, reference, buried, moved)
    ensures !Breaks(View(reference), d, BinOverflow)
  {
    assert d.births.ids != [] ==> !BirthBreaks(moved, d.births, BinOverflow);
    if d.updates.ids != [] {
      forall a, k | a in d.updates.bins && 0 <= k < |d.updates.bins[a]|
        ensures !UpdateOverflows(View(reference), d.updates, a, k)
      {
        UpdatedWithoutOverflow(buried, d.updates, moved, a, k);
        SameOverflow(reference, d, buried, a, k);
      }
    }
  }

  lemma {:induction false} AcceptedBirths(reference: Table, d: Delta, buried: Table, moved: Table, c: Refusal)
    requires IsBuried(reference, d.deaths, buried)
    requires if d.updates.ids == [] then moved == buried else IsUpdated(buried, d.updates, moved)
    requires Checked(d, reference, buried, moved)
    requires c == DuplicateGaussianId || c == IncompleteBirth || c == UnknownAttributeInBirth
    ensures !Breaks(View(reference), d, c)
  {
    LanesAgree(moved, buried, d.births);
    if d.births.ids != [] {
      assert !BirthBreaks(moved, d.births, c);
    }
  }

  // ---- the composed view ----

  /** The cells an update group leaves behind. */
  lemma {:induction false} MovedCell(buried: Table, u: Table, moved: Table, k: nat, a: nat)
    requires Tall(buried) && Unique(u.ids) && k < |buried.ids|
    requires if u.ids == [] then moved == buried else Tall(u) && IsUpdated(buried, u, moved)
    ensures moved.ids == buried.ids
    ensures Cell(moved, k, a) ==
      if buried.ids[k] !in u.ids || a !in u.bins then Cell(buried, k, a)
      else if IsAbsoluteInUpdate(a) then Stated(u, buried.ids[k], a)
      else Moved(Cell(buried, k, a), Stated(u, buried.ids[k], a))
  {
    if u.ids != [] && a in u.bins {
      assert UpdatedColumn(buried, u.ids, a, u.bins[a], moved.bins[a]);
    }
  }

  /** The cells a birth group leaves behind. */
  lemma {:induction false} MergedCell(moved: Table, b: Table, after: Table, k: nat, a: nat)
    requires Tall(moved) && Unique(b.ids) && Tall(b) && IsMerged(moved, b, after)
    requires k < |after.ids|
    ensures Cell(after, k, a) == if k < |moved.ids| then Cell(moved, k, a) else Stated(b, after.ids[k], a)
  {
    assert a in after.bins ==> after.bins[a] == MergedColumn(moved, b, a);
    if k < |moved.ids| {
      assert a in after.bins ==> after.bins[a][k] == Cell(moved, k, a);
    } else {
      IndexOfUnique(b.ids, k - |moved.ids|);
    }
  }

  /** What `Compose` gives a row is what the table holds there. */
  lemma {:induction false} ComposedCell(reference: Table, d: Delta, buried: Table, moved: Table, after: Table, k: nat, a: nat)
    requires IsStaged(reference, d, buried, moved, after) && Unique(d.updates.ids) && Unique(d.births.ids)
    requires d.updates.ids != [] ==> Tall(d.updates)
    requires Apart(d.births.ids, buried.ids) && k < |after.ids|
    ensures CellAfter(View(reference), d, after.ids[k], a) == Cell(after, k, a)
  {
    if d.births.ids != [] { MergedCell(moved, d.births, after, k, a); }
    if k < |moved.ids| {
      MovedCell(buried, d.updates, moved, k, a);
      BuriedRow(reference, d, buried, k, a);
      assert buried.ids[k] in buried.ids;
    }
  }

  lemma {:induction false} ComposedGaussian(reference: Table, d: Delta, buried: Table, moved: Table, after: Table, k: nat)
    requires IsStaged(reference, d, buried, moved, after) && Unique(d.updates.ids) && Unique(d.births.ids)
    requires d.updates.ids != [] ==> Tall(d.updates)
    requires Apart(d.births.ids, buried.ids) && k < |after.ids|
    ensures GaussianAt(after, k) == map a | a in LanesAfter(View(reference), d) + IDENTITY_LANES :: CellAfter(View(reference), d, after.ids[k], a)
  {
    assert after.bins.Keys == LanesAfter(View(reference), d);
    forall a | a in after.bins.Keys + IDENTITY_LANES
      ensures CellAfter(View(reference), d, after.ids[k], a) == Cell(after, k, a)
    {
      ComposedCell(reference, d, buried, moved, after, k, a);
    }
  }

  lemma {:induction false} ComposedIds(reference: Table, d: Delta, buried: Table, moved: Table, after: Table)
    requires IsStaged(reference, d, buried, moved, after)
    ensures forall id :: id in after.ids <==> id in LiveAfter(View(reference), d)
  {
  }

  lemma {:induction false} ComposedView(reference: Table, d: Delta, buried: Table, moved: Table, after: Table)
    requires IsStaged(reference, d, buried, moved, after) && Unique(d.updates.ids) && Unique(d.births.ids)
    requires d.updates.ids != [] ==> Tall(d.updates)
    requires Apart(d.births.ids, buried.ids)
    ensures View(after) == Compose(View(reference), d)
  {
    ComposedIds(reference, d, buried, moved, after);
    assert after.bins.Keys == LanesAfter(View(reference), d);
    forall id | id in after.ids
      ensures GaussianAt(after, IndexOf(after.ids, id)) == Compose(View(reference), d).rows[id]
    {
      ComposedGaussian(reference, d, buried, moved, after, IndexOf(after.ids, id));
    }
    ViewByRows(after, Compose(View(reference), d));
  }

  /** The deaths are gone, and the rules that need no further composition hold. */
  ghost predicate Ready(reference: Table, d: Delta, buried: Table) {
    && ValidState(reference) && ValidState(buried) && IsBuried(reference, d.deaths, buried) && ShapedDelta(d)
    && Apart(d.updates.ids, d.births.ids) && Apart(d.updates.ids, d.deaths) && Apart(d.births.ids, d.deaths)
    && Unique(d.updates.ids) && Unique(d.births.ids) && Unique(d.deaths) && Within(d.deaths, reference.ids)
    && (ROTATION_INDEX in d.updates.bins <==> ROTATION in d.updates.bins)
    && forall a :: a in d.updates.bins ==> !IsGopInvariant(a)
  }

  /** The update group is applied and breaks nothing. */
  ghost predicate UpdatesApplied(d: Delta, buried: Table, moved: Table) {
    && Aligned(moved) && moved.ids == buried.ids && moved.bins.Keys + IDENTITY_LANES == buried.bins.Keys + IDENTITY_LANES
    && if d.updates.ids == [] then moved == buried
       else
         && IsUpdated(buried, d.updates, moved)
         && Within(d.updates.ids, buried.ids) && Tall(d.updates) && d.updates.bins.Keys <= buried.bins.Keys + IDENTITY_LANES
  }

  /** And so is the birth group. */
  ghost predicate BirthsApplied(d: Delta, moved: Table, after: Table) {
    && Aligned(after)
    && if d.births.ids == [] then after == moved
       else IsMerged(moved, d.births, after) && Tall(d.births) && forall c :: !BirthBreaks(moved, d.births, c)
  }

  method ApplyUpdates(reference: Table, d: Delta, buried: Table) returns (r: Result<Table, Refusal>)
    requires Ready(reference, d, buried)
    ensures r.Failure? ==> Breaks(View(reference), d, r.error)
    ensures r.Success? ==> UpdatesApplied(d, buried, r.value)
  {
    hide Breaks, View;
    if d.updates.ids == [] { return Success(buried); }
    r := Update(buried, d.updates);
    if r.Failure? {
      UpdateBreakIsBreak(reference, d, buried, r.error);
    } else {
      UpdatedIsAligned(buried, d.updates, r.value);
    }
  }

  method ApplyBirths(reference: Table, d: Delta, buried: Table, moved: Table) returns (r: Result<Table, Refusal>)
    requires Ready(reference, d, buried) && UpdatesApplied(d, buried, moved)
    ensures r.Failure? ==> Breaks(View(reference), d, r.error)
    ensures r.Success? ==> BirthsApplied(d, moved, r.value)
  {
    hide Breaks, View, IsUpdated;
    if d.births.ids == [] { return Success(moved); }
    r := Bear(moved, d.births);
    if r.Failure? {
      BirthBreakIsBreak(reference, d, buried, moved, r.error);
    } else {
      assert !BirthBreaks(moved, d.births, StreamElementCountMismatch);
      MergedIsAligned(moved, d.births, r.value);
    }
  }

  /** With both groups applied only the rotation indices are left to check. */
  lemma {:induction false} AppliedIsComposed(reference: Table, d: Delta, buried: Table, moved: Table, after: Table)
    requires Ready(reference, d, buried) && UpdatesApplied(d, buried, moved) && BirthsApplied(d, moved, after)
    ensures !RotationsInRange(after) ==> Breaks(View(reference), d, RotationIndexOutOfRange)
    ensures RotationsInRange(after) ==> Composable(View(reference), d) && ValidState(after) && View(after) == Compose(View(reference), d)
  {
    hide Breaks, View, Compose, IsUpdated, IsMerged, BirthBreaks, IsBuried, RotationsInRange;
    if !RotationsInRange(after) {
      RefusedRotations(reference, d, buried, moved, after);
    } else {
      AcceptedDelta(reference, d, buried, moved, after);
      assert !Breaks(View(reference), d, DuplicateGaussianId);
      NewbornsAreNew(reference, d, buried);
      ComposedView(reference, d, buried, moved, after);
    }
  }

  /** The update and birth groups, onto the rows the deaths spared. */
  method ApplyToSurvivors(reference: Table, d: Delta, buried: Table) returns (r: Result<Table, Refusal>)
    requires Ready(reference, d, buried)
    ensures r.Failure? ==> Breaks(View(reference), d, r.error)
    ensures r.Success? ==> Composable(View(reference), d)
    ensures r.Success? ==> ValidState(r.value) && View(r.value) == Compose(View(reference), d)
  {
    var updated := ApplyUpdates(reference, d, buried);
    if updated.Failure? { return updated; }
    var born := ApplyBirths(reference, d, buried, updated.value);
    if born.Failure? { return born; }
    AppliedIsComposed(reference, d, buried, updated.value, born.value);
    if !RotationsInRange(born.value) { return Failure(RotationIndexOutOfRange); }
    return born;
  }

  lemma {:induction false} NewbornsAreNew(reference: Table, d: Delta, buried: Table)
    requires IsBuried(reference, d.deaths, buried) && !Breaks(View(reference), d, DuplicateGaussianId)
    ensures Apart(d.births.ids, buried.ids)
  {
    forall i | 0 <= i < |d.births.ids|
      ensures d.births.ids[i] !in buried.ids
    {
      assert !Survives(View(reference), d, d.births.ids[i]);
    }
  }

  /** Compose one delta onto the state it references.

      Refused for a rule the delta really breaks, and only then; an accepted delta yields
      the population `Compose` defines, with identities unique, every column as tall as
      they are, bins in range, and every rotation index naming a component. */
  method ApplyDelta(reference: Table, d: Delta) returns (r: Result<Table, Refusal>)
    requires ValidState(reference) && ShapedDelta(d)
    ensures r.Failure? ==> Breaks(View(reference), d, r.error)
    ensures r.Success? ==> Composable(View(reference), d)
    ensures r.Success? ==> ValidState(r.value) && View(r.value) == Compose(View(reference), d)
  {
    var u, b := d.updates, d.births;
    if !Apart(u.ids, b.ids) || !Apart(u.ids, d.deaths) || !Apart(b.ids, d.deaths) { return Failure(IdInTwoGroups); }
    if !Unique(u.ids) || !Unique(b.ids) || !Unique(d.deaths) { return Failure(DuplicateGaussianId); }
    if (ROTATION_INDEX in u.bins) != (ROTATION in u.bins) { return Failure(IncompleteRotationUpdate); }
    if exists a :: a in u.bins.Keys && IsGopInvariant(a) { return Failure(InvariantChangedInUpdate); }
    var buried := Bury(reference, d.deaths);
    if buried.Failure? {
      UnknownDeath(reference, d);
      return buried;
    }
    r := ApplyToSurvivors(reference, d, buried.value);
  }
}
