/** What the working-set charges cover, from the bytes a state's arrays hold: a fully
    populated row is two hundred, and composing holds two copies of the result. */
module BudgetBounds {
  import opened Populations
  import opened DecodedBudget
  import opened Records
  import opened StreamedReader
  import opened CompositionLaws
  import opened CompositionEffects

  /** Every bin lane the registry defines: the required attributes and the three identity
      lanes, but not the identity itself. */
  const BIN_LANES: set<nat> := {0, 1, 2, 3, 4, 5, 6, 7, 8, 9, 10, 11, 12, 14}

  /** A lane of `rows` rows holds eight bytes for every channel. */
  lemma {:induction false} LaneBytes(rows: nat, a: nat)
    ensures ColumnsBytes(rows, {a}) == if a == 0 || a == 1 || a == 3 || a == 4 || a == 6 then 24 * rows else 8 * rows
  {
    AttributeNumbers(a);
    ColumnsBytesOfOne(rows, {a}, a);
    assert {a} - {a} == {};
  }

  lemma {:induction false} ColumnsSplit(rows: nat, lanes: set<nat>, a: nat)
    requires a in lanes
    ensures ColumnsBytes(rows, lanes) == ColumnsBytes(rows, {a}) + ColumnsBytes(rows, lanes - {a})
  {
    ColumnsBytesOfOne(rows, lanes, a);
    ColumnsBytesOfOne(rows, {a}, a);
    assert {a} - {a} == {};
  }

  lemma {:induction false} FewerColumns(rows: nat, lanes: set<nat>, all: set<nat>)
    requires lanes <= all
    ensures ColumnsBytes(rows, lanes) <= ColumnsBytes(rows, all)
    decreases |all|
  {
    if a :| a in all {
      ColumnsSplit(rows, all, a);
      if a in lanes {
        ColumnsSplit(rows, lanes, a);
        FewerColumns(rows, lanes - {a}, all - {a});
      } else {
        FewerColumns(rows, lanes, all - {a});
      }
    }
  }

  function LanesBelow(n: nat): (lanes: set<nat>)
    ensures forall a: nat :: a in lanes <==> a < n
  {
    if n == 0 then {} else LanesBelow(n - 1) + {n - 1}
  }

  function BytesBelow(n: nat): nat {
    if n == 0 then 0
    else BytesBelow(n - 1) + (if n == 1 || n == 2 || n == 4 || n == 5 || n == 7 then 24 else 8)
  }

  lemma {:induction false} Distributes(rows: int, x: int, y: int)
    ensures rows * (x + y) == rows * x + rows * y
  {
  }

  lemma {:induction false} FirstLanes(rows: nat, n: nat)
    ensures ColumnsBytes(rows, LanesBelow(n)) == rows * BytesBelow(n)
  {
    if n > 0 {
      var lanes := LanesBelow(n);
      FirstLanes(rows, n - 1);
      ColumnsSplit(rows, lanes, n - 1);
      assert lanes - {n - 1} == LanesBelow(n - 1);
      LaneBytes(rows, n - 1);
      Distributes(rows, BytesBelow(n - 1), 24);
      Distributes(rows, BytesBelow(n - 1), 8);
    }
  }

  /** All fourteen lanes. */
  lemma {:induction false} AllLanes(rows: nat)
    ensures ColumnsBytes(rows, BIN_LANES) == 192 * rows
  {
    hide ColumnsBytes;
    FirstLanes(rows, 13);
    assert BytesBelow(13) == 184;
    ColumnsSplit(rows, BIN_LANES, 14);
    ButTheLast();
    LaneBytes(rows, 14);
  }

  lemma {:induction false} ButTheLast()
    ensures BIN_LANES - {14} == LanesBelow(13)
  {
  }

  /** A row of registered lanes costs at most two hundred bytes, and exactly that when every
      lane is there. */
  lemma {:induction false} RowCost(p: Population)
    requires p.lanes <= BIN_LANES
    ensures Capacity(p) <= 200 * |p.rows|
    ensures p.lanes == BIN_LANES ==> Capacity(p) == 200 * |p.rows|
  {
    AllLanes(|p.rows|);
    FewerColumns(|p.rows|, p.lanes, BIN_LANES);
  }

  // ---- working sets ----

  lemma {:induction false} UnionCount(x: set<int>, y: set<int>)
    requires x !! y
    ensures |x + y| == |x| + |y|
  {
  }

  lemma {:induction false} ReplacedCount(live: set<int>, dead: set<int>, born: set<int>)
    requires dead <= live && born !! live
    ensures |live - dead + born| + |dead| == |live| + |born|
  {
    UnionCount(live - dead, born);
    UnionCount(live - dead, dead);
    assert live - dead + dead == live;
  }

  lemma {:induction false} GroupSets(p: Population, d: Delta)
    requires Composable(p, d)
    ensures |Ids(d.deaths)| == |d.deaths| && |Ids(d.births.ids)| == |d.births.ids|
    ensures Ids(d.deaths) <= p.rows.Keys && Ids(d.births.ids) !! p.rows.Keys
  {
    assert !Breaks(p, d, DuplicateGaussianId) && !Breaks(p, d, UnknownGaussianId);
    UniqueCount(d.deaths);
    UniqueCount(d.births.ids);
    forall id | id in Ids(d.births.ids)
      ensures id !in p.rows
    {
      GroupsOfComposable(p, d, id);
    }
  }

  /** How many are live after an accepted delta. */
  lemma {:induction false} LiveCount(p: Population, d: Delta)
    requires Composable(p, d)
    ensures |Compose(p, d).rows| + |d.deaths| == |p.rows| + |d.births.ids|
  {
    GroupSets(p, d);
    ReplacedCount(p.rows.Keys, Ids(d.deaths), Ids(d.births.ids));
    hide Composable, Ids;
    assert Compose(p, d).rows.Keys == LiveAfter(p, d);
    assert |Compose(p, d).rows| == |Compose(p, d).rows.Keys| && |p.rows| == |p.rows.Keys|;
  }

  /** A keyframe's working set holds its state twice over beside its body, and no more where
      every row is fully populated. */
  lemma {:induction false} KeyframeCovers(records: seq<Placed>, i: nat)
    requires ValidRecords(records) && i < |records| && records[i].body.Chunk? && Decodes(records, i)
    requires StateAt(records, i).lanes <= BIN_LANES
    ensures Working(records, i) >= 2 * Capacity(StateAt(records, i)) + records[i].body.bodyBytes
    ensures StateAt(records, i).lanes == BIN_LANES ==> Working(records, i) == 2 * Capacity(StateAt(records, i)) + records[i].body.bodyBytes
  {
    hide Capacity;
    KeyframeDecodes(records, i);
    RowCount(records[i].body.streams.value);
    RowCost(StateAt(records, i));
  }

  /** A delta's working set holds the composed state twice over, and a fully populated row
      for each row of its groups, beside its body; and no more where every row is fully
      populated and nobody dies. The dead are charged for as if they had stayed. */
  lemma {:induction false} DeltaCovers(records: seq<Placed>, i: nat)
    requires ValidRecords(records) && i < |records| && records[i].body.DeltaChunk? && Decodes(records, i)
    requires StateAt(records, i).lanes <= BIN_LANES
    ensures var head, body, covered := records[i].body.head, records[i].body.bodyBytes, 2 * Capacity(StateAt(records, i));
      && Working(records, i) >= covered + 200 * (head.updates + head.births + head.deaths) + body
      && (StateAt(records, i).lanes == BIN_LANES && head.deaths == 0 ==>
            Working(records, i) == covered + 200 * (head.updates + head.births + head.deaths) + body)
      && Working(records, i) == 400 * (|StateAt(records, i).rows| + head.deaths) + 200 * (head.updates + head.births + head.deaths) + body
  {
    hide Capacity, Compose, Composable, Physical, GridAt, ValidRecords;
    PhysicalIsValid(records);
    DeltaDecodes(records, i);
    var b := records[i].body;
    var reference := Composed(Physical(records), GridAt(records, i), b.head.reference).value;
    LiveCount(reference, DeltaOf(b.groups.value));
    RowCost(StateAt(records, i));
  }
}
