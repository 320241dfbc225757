/** Column tables as the decoder holds them, the population each one denotes, and what a
    delta means for a population.

    Rows are found by identity. A `Table` keeps its rows in some order and may leave an
    optional identity lane out; its `View` forgets the order and fills such a lane with
    zeros. `Compose` and `Breaks` speak of views only: they are the reference meaning of
    a delta that the decoder's in-place composition is proved against. */
module Populations {
  import opened Registry

  /** The bins of one gaussian for one attribute, one per channel. */
  type Row = seq<int>

  /** One row per attribute. */
  type Gaussian = map<nat, Row>

  /** Identities, and one column per attribute aligned with them. */
  datatype Table = Table(ids: seq<int>, bins: map<nat, seq<Row>>)

  /** The three groups of a Delta Chunk. */
  datatype Delta = Delta(updates: Table, births: Table, deaths: seq<int>)

  /** What a table denotes: which columns exist, and each gaussian's rows by identity. */
  datatype Population = Population(lanes: set<nat>, rows: map<int, Gaussian>)

  datatype Refusal =
    | IdInTwoGroups
    | DuplicateGaussianId
    | IncompleteRotationUpdate
    | InvariantChangedInUpdate
    | UnknownGaussianId
    | StreamElementCountMismatch
    | UnknownAttributeInUpdate
    | IncompleteBirth
    | UnknownAttributeInBirth
    | BinOverflow
    | RotationIndexOutOfRange

  // ---- rows ----

  function Zero(a: nat): Row {
    seq(Channels(a), _ => 0)
  }

  function AddRow(x: Row, y: Row): Row
    requires |x| == |y|
  {
    seq(|x|, k requires 0 <= k < |x| => x[k] + y[k])
  }

  predicate InRange(row: Row) {
    forall k :: 0 <= k < |row| ==> BIN_MIN <= row[k] <= BIN_MAX
  }

  /** A `rotation_index` row names one of four quaternion components. */
  predicate NamesComponent(row: Row) {
    forall k :: 0 <= k < |row| ==> 0 <= row[k] <= 3
  }

  // ---- tables ----

  predicate Unique(ids: seq<int>) {
    forall i, j :: 0 <= i < j < |ids| ==> ids[i] != ids[j]
  }

  function IndexOf(ids: seq<int>, id: int): (k: nat)
    requires id in ids
    ensures k < |ids| && ids[k] == id
  {
    if ids[0] == id then 0 else 1 + IndexOf(ids[1..], id)
  }

  lemma {:induction false} IndexOfUnique(ids: seq<int>, k: nat)
    requires Unique(ids) && k < |ids|
    ensures IndexOf(ids, ids[k]) == k
  {
  }

  function Ids(ids: seq<int>): set<int> {
    set id | id in ids
  }

  predicate Apart(xs: seq<int>, ys: seq<int>) {
    forall i :: 0 <= i < |xs| ==> xs[i] !in ys
  }

  predicate Within(xs: seq<int>, ys: seq<int>) {
    forall i :: 0 <= i < |xs| ==> xs[i] in ys
  }

  /** Every row has its attribute's channel width: checked before composition starts. */
  predicate Shaped(t: Table) {
    forall a, k :: a in t.bins && 0 <= k < |t.bins[a]| ==> |t.bins[a][k]| == Channels(a)
  }

  /** Every column is as tall as the identities. */
  predicate Tall(t: Table) {
    forall a :: a in t.bins ==> |t.bins[a]| == |t.ids|
  }

  predicate BinsInRange(t: Table) {
    forall a, k :: a in t.bins && 0 <= k < |t.bins[a]| ==> InRange(t.bins[a][k])
  }

  predicate RotationsInRange(t: Table) {
    ROTATION_INDEX in t.bins ==> forall k :: 0 <= k < |t.bins[ROTATION_INDEX]| ==> NamesComponent(t.bins[ROTATION_INDEX][k])
  }

  /** What every state a decoder holds satisfies. */
  predicate ValidState(t: Table) {
    Unique(t.ids) && Shaped(t) && Tall(t) && BinsInRange(t) && RotationsInRange(t)
  }

  predicate ShapedDelta(d: Delta) {
    Shaped(d.updates) && Shaped(d.births)
  }

  // ---- views ----

  /** One cell of a table; a lane the table leaves out reads as zero. */
  ghost function Cell(t: Table, k: nat, a: nat): Row {
    if a in t.bins && k < |t.bins[a]| then t.bins[a][k] else Zero(a)
  }

  ghost function GaussianAt(t: Table, k: nat): Gaussian {
    map a | a in t.bins.Keys + IDENTITY_LANES :: Cell(t, k, a)
  }

  ghost function View(t: Table): Population {
    Population(t.bins.Keys, map id | id in t.ids :: GaussianAt(t, IndexOf(t.ids, id)))
  }

  /** A table whose identities, lanes and rows are a population's denotes that population. */
  lemma {:induction false} ViewByRows(t: Table, p: Population)
    requires t.bins.Keys == p.lanes
    requires forall id :: id in t.ids <==> id in p.rows
    requires forall id :: id in t.ids ==> GaussianAt(t, IndexOf(t.ids, id)) == p.rows[id]
    ensures View(t) == p
  {
    assert forall id :: id in View(t).rows <==> id in p.rows;
  }

  /** What a valid state's view satisfies. */
  ghost predicate ValidPopulation(p: Population) {
    forall id :: id in p.rows ==> ValidGaussian(p.lanes, p.rows[id])
  }

  ghost predicate ValidGaussian(lanes: set<nat>, g: Gaussian) {
    && g.Keys == lanes + IDENTITY_LANES
    && (forall a :: a in g ==> |g[a]| == Channels(a) && InRange(g[a]))
    && (ROTATION_INDEX in g ==> NamesComponent(g[ROTATION_INDEX]))
  }

  lemma {:induction false} ViewRow(t: Table, k: nat)
    requires Unique(t.ids) && k < |t.ids|
    ensures t.ids[k] in View(t).rows && View(t).rows[t.ids[k]] == GaussianAt(t, k)
  {
    IndexOfUnique(t.ids, k);
  }

  lemma {:induction false} ZeroRow(a: nat)
    ensures |Zero(a)| == Channels(a) && InRange(Zero(a)) && NamesComponent(Zero(a))
  {
  }

  lemma {:induction false} GaussianIsValid(t: Table, k: nat)
    requires ValidState(t) && k < |t.ids|
    ensures ValidGaussian(t.bins.Keys, GaussianAt(t, k))
  {
    var g := GaussianAt(t, k);
    forall a | a in g
      ensures |g[a]| == Channels(a) && InRange(g[a])
    {
      if a !in t.bins { ZeroRow(a); }
    }
    if ROTATION_INDEX in g {
      assert g[ROTATION_INDEX] == t.bins[ROTATION_INDEX][k];
    }
  }

  lemma {:induction false} ViewIsValid(t: Table)
    requires ValidState(t)
    ensures ValidPopulation(View(t))
    ensures View(t).rows.Keys == Ids(t.ids)
  {
    var p := View(t);
    forall id | id in p.rows
      ensures ValidGaussian(p.lanes, p.rows[id])
    {
      GaussianIsValid(t, IndexOf(t.ids, id));
    }
  }

  /** A sequence names at most as many identities as it is long. */
  lemma {:induction false} AtMostOneEach(xs: seq<int>)
    ensures |Ids(xs)| <= |xs|
  {
    if xs != [] {
      AtMostOneEach(xs[1..]);
      assert Ids(xs) == {xs[0]} + Ids(xs[1..]);
    }
  }

  lemma {:induction false} SubsetCount(x: set<int>, y: set<int>)
    requires x <= y
    ensures |x| <= |y|
  {
    assert y == x + (y - x);
  }

  /** Row count and population size agree. */
  lemma {:induction false} UniqueCount(ids: seq<int>)
    requires Unique(ids)
    ensures |Ids(ids)| == |ids|
  {
    if ids != [] {
      UniqueCount(ids[1..]);
      assert Ids(ids) == {ids[0]} + Ids(ids[1..]);
    }
  }

  // ---- what a delta means ----

  /** The row a group states for an identity it names. */
  ghost function Stated(t: Table, id: int, a: nat): Row {
    if id in t.ids then Cell(t, IndexOf(t.ids, id), a) else Zero(a)
  }

  /** The row a population holds for an identity. */
  ghost function Held(p: Population, id: int, a: nat): Row {
    if id in p.rows && a in p.rows[id] then p.rows[id][a] else Zero(a)
  }

  lemma {:induction false} HeldInView(t: Table, k: nat, a: nat)
    requires Unique(t.ids) && k < |t.ids|
    ensures t.ids[k] in View(t).rows
    ensures Held(View(t), t.ids[k], a) == Cell(t, k, a)
  {
    ViewRow(t, k);
    if a !in t.bins.Keys + IDENTITY_LANES { assert a !in GaussianAt(t, k); }
  }

  /** A difference added to the row it applies to. */
  function Moved(x: Row, y: Row): Row {
    if |x| == |y| then AddRow(x, y) else x
  }

  /** The delta breaks the rule `c` names, against the population it references. */
  ghost predicate Breaks(p: Population, d: Delta, c: Refusal) {
    match c
    case IdInTwoGroups =>
      !Apart(d.updates.ids, d.births.ids) || !Apart(d.updates.ids, d.deaths) || !Apart(d.births.ids, d.deaths)
    case DuplicateGaussianId =>
      || !Unique(d.updates.ids) || !Unique(d.births.ids) || !Unique(d.deaths)
      || exists id :: id in d.births.ids && Survives(p, d, id)
    case IncompleteRotationUpdate =>
      ROTATION_INDEX in d.updates.bins <==> ROTATION !in d.updates.bins
    case InvariantChangedInUpdate =>
      exists a :: a in d.updates.bins && IsGopInvariant(a)
    case UnknownGaussianId =>
      (exists id :: id in d.deaths && id !in p.rows) || (exists id :: id in d.updates.ids && !Survives(p, d, id))
    case StreamElementCountMismatch =>
      (d.updates.ids != [] && !Tall(d.updates)) || (d.births.ids != [] && !Tall(d.births))
    case UnknownAttributeInUpdate =>
      d.updates.ids != [] && !(d.updates.bins.Keys <= p.lanes + IDENTITY_LANES)
    case IncompleteBirth =>
      d.births.ids != [] && !(p.lanes <= d.births.bins.Keys + IDENTITY_LANES)
    case UnknownAttributeInBirth =>
      d.births.ids != [] && (exists id :: Survives(p, d, id)) && !(d.births.bins.Keys <= p.lanes + IDENTITY_LANES)
    case BinOverflow =>
      || (d.updates.ids != [] && exists a, k :: a in d.updates.bins && 0 <= k < |d.updates.bins[a]| && UpdateOverflows(p, d.updates, a, k))
      || (d.births.ids != [] && !BinsInRange(d.births))
    case RotationIndexOutOfRange =>
      (d.updates.ids != [] && !RotationsInRange(d.updates)) || (d.births.ids != [] && !RotationsInRange(d.births))
  }

  /** An absolute update row outside the signed 32-bit range, or a difference that leaves it. */
  ghost predicate UpdateOverflows(p: Population, u: Table, a: nat, k: nat)
    requires a in u.bins && k < |u.bins[a]|
  {
    if IsAbsoluteInUpdate(a) then !InRange(u.bins[a][k])
    else
      k < |u.ids| && u.ids[k] in p.rows && !InRange(Moved(Held(p, u.ids[k], a), u.bins[a][k]))
  }

  ghost predicate Composable(p: Population, d: Delta) {
    forall c :: !Breaks(p, d, c)
  }

  /** Live at the reference, and not killed. */
  ghost predicate Survives(p: Population, d: Delta, id: int) {
    id in p.rows && id !in d.deaths
  }

  /** Columns present afterwards: a lane becomes physical when a touched row carries it. */
  ghost function LanesAfter(p: Population, d: Delta): set<nat> {
    p.lanes + (if d.updates.ids != [] then d.updates.bins.Keys else {})
            + (if d.births.ids != [] then d.births.bins.Keys else {})
  }

  /** Deaths leave, births join, everyone else stays. */
  ghost function LiveAfter(p: Population, d: Delta): set<int> {
    p.rows.Keys - Ids(d.deaths) + Ids(d.births.ids)
  }

  /** One cell afterwards: stated by a birth, restated or moved by an update, or kept. */
  ghost function CellAfter(p: Population, d: Delta, id: int, a: nat): Row {
    if id in d.births.ids then Stated(d.births, id, a)
    else if id in d.updates.ids && a in d.updates.bins then
      if IsAbsoluteInUpdate(a) then Stated(d.updates, id, a) else Moved(Held(p, id, a), Stated(d.updates, id, a))
    else Held(p, id, a)
  }

  /** The population a composable delta denotes, given the one it references. */
  ghost function Compose(p: Population, d: Delta): Population {
    Population(
      LanesAfter(p, d),
      map id | id in LiveAfter(p, d) :: map a | a in LanesAfter(p, d) + IDENTITY_LANES :: CellAfter(p, d, id, a))
  }
}
