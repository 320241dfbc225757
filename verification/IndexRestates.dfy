/** An index says nothing of its own: in time order over a file whose states lie in time
    order, it is accepted exactly when the file streams and every entry restates its record. */
module IndexRestates {
  import opened Wrappers
  import opened Populations
  import opened Sorting
  import opened Times
  import opened Records
  import opened CompositionLaws
  import opened StreamedReader
  import opened StreamedScan
  import opened Timeline
  import opened IndexedReader
  import opened IndexBands

  /** Every state and band record parses, and front matter stands before the states. */
  predicate Plain(records: seq<Placed>) {
    && GridBefore(records, |records|).Some?
    && forall i :: 0 <= i < |records| ==>
      && IsPlaced(records, i)
      && (IsOwner(records[i]) <==> IsState(records[i])) && (IsBand(records[i]) <==> records[i].body.ShBand?)
      && (records[i].body.Unreadable? ==> records[i].body.code !in {0x01, 0x03, 0x04})
  }

  /** The state records, in file order. */
  function States(records: seq<Placed>): (r: seq<nat>)
    ensures forall k :: 0 <= k < |r| ==> r[k] < |records| && IsState(records[r[k]])
    ensures forall i :: 0 <= i < |records| && IsState(records[i]) ==> i in r
  {
    StatePositions(records, |records|)
  }

  lemma {:induction false} PositionsIncrease(records: seq<Placed>, n: nat)
    requires n <= |records|
    ensures forall j, k :: 0 <= j < k < |StatePositions(records, n)| ==> StatePositions(records, n)[j] < StatePositions(records, n)[k]
  {
    if n > 0 { PositionsIncrease(records, n - 1); }
  }

  /** What an entry must say of the record at `i`, bands aside. */
  ghost predicate Restates(records: seq<Placed>, i: nat, e: Entry)
    requires ValidRecords(records) && i < |records| && IsState(records[i])
  {
    var r := records[i];
    && e.offset == r.offset && e.length == r.length && e.extended
    && Decodes(records, i) && e.live == |StateAt(records, i).rows|
    && match r.body
       case Chunk(t0, t1, _, _, _, _) =>
         && e.t0 == t0 && e.t1 == t1 && t0 != NaN && t1 != NaN && e.gaussians == e.live
         && e.kind == 0 && e.mode == 0 && e.reference == 0 && e.keyframe == r.offset && e.depth == 0
       case DeltaChunk(head, _, _) =>
         && e.t0 == head.t0 && e.t1 == head.t1 && head.t0 != NaN && head.t1 != NaN && e.gaussians == head.updates + head.births + head.deaths
         && e.kind == 1 && e.mode == head.mode && e.reference == head.reference && e.keyframe == head.keyframe && e.depth == head.depth
  }

  /** What a stream accepts of the state record at `i`. */
  ghost predicate StateStreams(records: seq<Placed>, i: nat)
    requires ValidRecords(records) && i < |records| && IsState(records[i])
  {
    Decodes(records, i) && (records[i].body.DeltaChunk? ==> DeltaLinked(records, i))
  }

  /** Every window it names is in the table, or is the one an empty table implies. */
  ghost predicate WindowsStand(records: seq<Placed>, i: nat, windows: nat)
    requires ValidRecords(records) && i < |records| && IsState(records[i]) && Decodes(records, i)
  {
    var p := StateAt(records, i);
    forall id :: id in p.rows ==>
      && 10 in p.rows[id] && |p.rows[id][10]| == 1
      && (if windows == 0 then p.rows[id][10][0] == 0 else 0 <= p.rows[id][10][0] < windows)
  }

  /** The entries stand for the states one by one. */
  predicate Aligned(records: seq<Placed>, es: seq<Entry>) {
    |es| == |States(records)| && forall k :: 0 <= k < |es| ==> es[k].offset == records[States(records)[k]].offset
  }

  ghost predicate ListsTo(records: seq<Placed>, es: seq<Entry>, n: nat)
    requires ValidRecords(records) && |es| == |States(records)| && n <= |es|
  {
    forall k :: 0 <= k < n ==> Restates(records, States(records)[k], es[k])
  }

  // ---- an entry's place and its record's ----

  /** Up to `k`, keyframe entries stand for keyframes. */
  predicate KindsTo(records: seq<Placed>, es: seq<Entry>, n: nat)
    requires |es| == |States(records)| && n <= |es|
  {
    forall k :: 0 <= k < n ==> (es[k].kind == 0 <==> records[States(records)[k]].body.Chunk?)
  }

  lemma {:induction false} LastBefore(records: seq<Placed>, i: nat, p: Option<nat>)
    requires i <= |records| && (p.Some? ==> p.value < i && IsState(records[p.value]))
    requires forall j :: (if p.Some? then p.value + 1 else 0) <= j < i ==> !IsState(records[j])
    ensures LastState(records, i) == p
    ensures KeyframeBefore(records, i) == if p.Some? then KeyframeBefore(records, p.value + 1) else None
  {
    if i > 0 && p != Some(i - 1) { LastBefore(records, i - 1, p); }
  }

  lemma {:induction false} BetweenStates(records: seq<Placed>, k: nat)
    requires k < |States(records)|
    ensures LastState(records, States(records)[k]) == if k == 0 then None else Some(States(records)[k - 1])
    ensures KeyframeBefore(records, States(records)[k]) == if k == 0 then None else KeyframeBefore(records, States(records)[k - 1] + 1)
  {
    var at := States(records);
    PositionsIncrease(records, |records|);
    var p := if k == 0 then None else Some(at[k - 1]);
    forall j | (if p.Some? then p.value + 1 else 0) <= j < at[k]
      ensures !IsState(records[j])
    {
      assert forall m :: 0 <= m < |at| ==> at[m] != j;
    }
    LastBefore(records, at[k], p);
  }

  /** The keyframe before an entry is the entry of the keyframe before its record. */
  lemma {:induction false} KeyframesAlign(records: seq<Placed>, es: seq<Entry>, k: nat)
    requires |es| == |States(records)| && k < |es| && KindsTo(records, es, k)
    ensures KeyframeBefore(records, States(records)[k]) ==
      if KeyframeEntry(es, k).Some? then Some(States(records)[KeyframeEntry(es, k).value]) else None
  {
    BetweenStates(records, k);
    if k > 0 && es[k - 1].kind != 0 { KeyframesAlign(records, es, k - 1); }
  }

  /** An entry that restates a delta is linked in the index as its record is in the file. */
  lemma {:induction false} LinksAlign(records: seq<Placed>, es: seq<Entry>, k: nat)
    requires ValidRecords(records) && Aligned(records, es) && k < |es| && KindsTo(records, es, k)
    requires es[k].kind != 0 && records[States(records)[k]].body.DeltaChunk?
    requires forall j :: 0 <= j < k ==> es[j].depth == Depth(records[States(records)[j]].body)
    requires FieldsMatch(es[k], records[States(records)[k]].body)
    ensures EntryLinked(es, k) <==> DeltaReferenced(records, States(records)[k])
  {
    hide States, KeyframeEntry, KeyframeBefore, LastState, ValidRecords;
    KeyframesAlign(records, es, k);
    BetweenStates(records, k);
  }

  // ---- one entry ----

  /** What the pass asks of entry `k`, bands aside. */
  ghost predicate EntryPasses(at: Layout, grid: MuGrid, windows: nat, es: seq<Entry>, k: nat)
    requires ValidLayout(at) && k < |es|
  {
    && es[k].extended && es[k].kind <= 1
    && EntryLinked(es, k) && EntryDecodes(at, grid, es[k]) && WindowsNamed(Composed(at, grid, es[k].offset).value, windows)
  }

  ghost predicate RecordPasses(records: seq<Placed>, windows: nat, es: seq<Entry>, k: nat)
    requires ValidRecords(records) && |es| == |States(records)| && k < |es|
  {
    var i := States(records)[k];
    Restates(records, i, es[k]) && StateStreams(records, i) && WindowsStand(records, i, windows)
  }

  lemma {:induction false} RecordAt(records: seq<Placed>, i: nat)
    requires ValidRecords(records) && Plain(records) && i < |records| && IsState(records[i])
    ensures ValidLayout(Physical(records)) && records[i].offset in Physical(records) && Physical(records)[records[i].offset] == records[i]
    ensures GridAt(records, i) == FileGrid(records)
    ensures Decodes(records, i) <==> Composed(Physical(records), FileGrid(records), records[i].offset).Some?
    ensures Decodes(records, i) ==> StateAt(records, i) == Composed(Physical(records), FileGrid(records), records[i].offset).value
  {
    PhysicalHas(records, i);
    PhysicalIsValid(records);
    SoundOnFileGrid(records, i);
  }

  /** Every population composed is one the windows can be read off. */
  lemma {:induction false} WindowsAlike(p: Population, windows: nat)
    requires ValidPopulation(p)
    ensures WindowsNamed(p, windows) <==>
      forall id :: id in p.rows ==>
        && 10 in p.rows[id] && |p.rows[id][10]| == 1
        && (if windows == 0 then p.rows[id][10][0] == 0 else 0 <= p.rows[id][10][0] < windows)
  {
    forall id | id in p.rows
      ensures 10 in p.rows[id] <==> 10 in p.lanes
    {
      assert ValidGaussian(p.lanes, p.rows[id]);
    }
    if forall id :: id !in p.rows { assert p.rows == map[]; }
  }

  lemma {:induction false} ComposedIsValid(at: Layout, grid: MuGrid, o: nat)
    requires ValidLayout(at) && Composed(at, grid, o).Some?
    ensures ValidPopulation(Composed(at, grid, o).value)
    decreases o
  {
    var b := at[o].body;
    if b.Chunk? {
      ViewIsValid(b.streams.value);
    } else {
      ComposedIsValid(at, grid, b.head.reference);
      ComposeKeepsValid(Composed(at, grid, b.head.reference).value, DeltaOf(b.groups.value));
    }
  }

  lemma {:induction false} WindowsOfState(records: seq<Placed>, i: nat, windows: nat)
    requires ValidRecords(records) && Plain(records) && i < |records| && IsState(records[i]) && Decodes(records, i)
    ensures WindowsNamed(StateAt(records, i), windows) <==> WindowsStand(records, i, windows)
  {
    hide Plain, ValidRecords, Composed, Physical, ValidPopulation, WindowsNamed, IsState;
    RecordAt(records, i);
    ComposedIsValid(Physical(records), FileGrid(records), records[i].offset);
    WindowsAlike(StateAt(records, i), windows);
  }

  /** A keyframe's entry passes exactly when it restates a keyframe that streams. */
  lemma {:induction false} KeyframePasses(records: seq<Placed>, windows: nat, es: seq<Entry>, k: nat)
    requires ValidRecords(records) && Plain(records) && Aligned(records, es) && k < |es| && ValidLayout(Physical(records))
    requires records[States(records)[k]].body.Chunk?
    ensures EntryPasses(Physical(records), FileGrid(records), windows, es, k) <==> RecordPasses(records, windows, es, k)
  {
    hide Composed, Plain, ValidRecords, ValidLayout, WindowsNamed, WindowsStand, Physical, States;
    var i := States(records)[k];
    RecordAt(records, i);
    if Decodes(records, i) { WindowsOfState(records, i, windows); }
  }

  /** The level its reference states, found through the index or through the mode. */
  lemma {:induction false} LevelOfReference(records: seq<Placed>, i: nat)
    requires ValidRecords(records) && Plain(records) && i < |records| && records[i].body.DeltaChunk? && DeltaReferenced(records, i)
    ensures LevelAt(Physical(records), records[i].offset) == Level(records[i].body)
    ensures LevelAt(Physical(records), records[i].body.head.reference) == Level(records[ModeReference(records, i).value].body)
  {
    RecordAt(records, i);
    RecordAt(records, ModeReference(records, i).value);
  }

  /** A delta's entry passes exactly when it restates a delta that streams. */
  lemma {:induction false} DeltaPasses(records: seq<Placed>, windows: nat, es: seq<Entry>, k: nat)
    requires ValidRecords(records) && Plain(records) && Aligned(records, es) && k < |es| && ValidLayout(Physical(records))
    requires records[States(records)[k]].body.DeltaChunk? && ListsTo(records, es, k)
    ensures EntryPasses(Physical(records), FileGrid(records), windows, es, k) <==> RecordPasses(records, windows, es, k)
  {
    hide Composed, Plain, ValidRecords, ValidLayout, WindowsNamed, WindowsStand, Physical, States, DeltaReferenced, LevelAt, KeyframeEntry, EntryLinked;
    var i := States(records)[k];
    RecordAt(records, i);
    if Decodes(records, i) { WindowsOfState(records, i, windows); }
    assert KindsTo(records, es, k) by {
      assert forall j :: 0 <= j < k ==> Restates(records, States(records)[j], es[j]);
    }
    if es[k].kind != 0 && FieldsMatch(es[k], records[i].body) {
      LinksAlign(records, es, k);
      if DeltaReferenced(records, i) { LevelOfReference(records, i); }
    }
  }

  // ---- bands ----

  predicate AreBands(run: seq<Placed>) {
    forall k :: 0 <= k < |run| ==> run[k].body.ShBand?
  }

  function BandNumbers(run: seq<Placed>): (r: seq<nat>)
    requires AreBands(run)
    ensures |r| == |run|
  {
    seq(|run|, k requires 0 <= k < |run| => run[k].body.band)
  }

  /** What an entry must list of a run: each band's number, offset and length. */
  function BandRanges(run: seq<Placed>): (r: seq<(nat, nat, nat)>)
    requires AreBands(run)
    ensures |r| == |run|
  {
    seq(|run|, k requires 0 <= k < |run| => (run[k].body.band, run[k].offset, run[k].length))
  }

  lemma {:induction false} RunAreBands(records: seq<Placed>, i: nat)
    requires Plain(records) && i < |records|
    ensures AreBands(RunOf(records, i))
  {
    var run := RunOf(records, i);
    forall k | 0 <= k < |run|
      ensures run[k].body.ShBand?
    {
      assert IsBand(records[i + 1 + k]);
    }
  }

  /** The entry lists the run after the record, in any order. */
  ghost predicate ListsBands(records: seq<Placed>, i: nat, e: Entry)
    requires Plain(records) && i < |records|
  {
    RunAreBands(records, i);
    multiset(e.bands) == multiset(BandRanges(RunOf(records, i)))
  }

  /** What a band's stream must be. */
  predicate StreamFits(r: Placed, rows: nat)
    requires r.body.ShBand?
  {
    && r.body.stream.Some? && r.body.stream.value.attribute == 7 && r.body.stream.value.rows == rows
    && r.body.stream.value.channels == 3 * (2 * r.body.band + 1) && r.body.stream.value.codesLegal
  }

  /** What the pass reads at an entry's band ranges: at each offset a record of that length,
      that band, and a stream for the rows the entry's record bears. */
  lemma {:induction false} RangesExactly(at: Layout, e: Entry)
    requires RecordMatches(at, e)
    ensures BandsLegal(at, e) <==> forall k :: 0 <= k < |e.bands| ==>
      && e.bands[k].1 in at && at[e.bands[k].1].length == e.bands[k].2
      && at[e.bands[k].1].body.ShBand? && at[e.bands[k].1].body.band == e.bands[k].0
      && StreamFits(at[e.bands[k].1], if e.kind == 0 then at[e.offset].body.count else at[e.offset].body.head.births)
  {
  }

  // ---- what a stream makes of a run ----

  /** The run read so far, at each of its records. */
  lemma {:induction false} OwnerOfRun(records: seq<Placed>, i: nat, j: nat)
    requires Plain(records) && i < |records| && IsState(records[i]) && i < j <= RunEnd(records, i + 1)
    ensures BandOwner(records, j) == Some(i) && AreBands(records[i + 1..j]) && BandRun(records, j) == BandNumbers(records[i + 1..j])
  {
    forall k | i + 1 <= k < j
      ensures records[k].body.ShBand?
    {
      assert IsBand(records[k]);
    }
    if i + 1 < j {
      OwnerOfRun(records, i, j - 1);
      assert records[i + 1..j] == records[i + 1..j - 1] + [records[j - 1]];
    }
  }

  lemma {:induction false} OwnerReaches(records: seq<Placed>, j: nat)
    requires Plain(records) && j <= |records| && BandOwner(records, j).Some?
    ensures j <= RunEnd(records, BandOwner(records, j).value + 1)
  {
    var i := BandOwner(records, j).value;
    if i + 1 < j {
      OwnerReaches(records, j - 1);
      ReachesOn(records, i + 1, j - 1);
    }
  }

  /** The run after state record `i` streams. */
  ghost predicate RunStreams(records: seq<Placed>, degree: nat, i: nat)
    requires Plain(records) && i < |records|
  {
    && (forall j :: i < j < RunEnd(records, i + 1) && records[j].body.ShBand? ==> BandLegal(records, j, Some(degree)))
    && RunComplete(records, RunEnd(records, i + 1), Some(degree))
  }

  /** Every band and every run is as a stream wants it. */
  ghost predicate BandsStream(records: seq<Placed>, degree: nat) {
    && (forall j :: 0 <= j < |records| && records[j].body.ShBand? ==> BandLegal(records, j, Some(degree)))
    && (forall j :: 0 <= j < |records| && !records[j].body.ShBand? ==> RunComplete(records, j, Some(degree)))
    && RunComplete(records, |records|, Some(degree))
  }

  lemma {:induction false} BandIsOwned(records: seq<Placed>, degree: nat, j: nat)
    requires Plain(records) && j < |records| && IsBand(records[j]) && BandLegal(records, j, Some(degree))
    ensures Owned(records, j)
  {
    hide RunComplete;
    OwnerReaches(records, j);
    ReachesOn(records, BandOwner(records, j).value + 1, j);
  }

  lemma {:induction false} RunAfter(records: seq<Placed>, degree: nat, i: nat)
    requires Plain(records) && BandsStream(records, degree) && i < |records|
    ensures RunStreams(records, degree, i)
  {
    hide RunComplete, BandLegal;
    var end := RunEnd(records, i + 1);
    if end < |records| { assert !IsBand(records[end]); }
  }

  lemma {:induction false} BandInRun(records: seq<Placed>, degree: nat, j: nat)
    requires Plain(records) && j < |records| && IsBand(records[j]) && Owned(records, j)
    requires forall i :: 0 <= i < |records| && IsState(records[i]) ==> RunStreams(records, degree, i)
    ensures BandLegal(records, j, Some(degree))
  {
    hide RunComplete, BandLegal;
    var i :| 0 <= i < j && IsOwner(records[i]) && j < RunEnd(records, i + 1);
    assert IsState(records[i]) && RunStreams(records, degree, i);
  }

  lemma {:induction false} RunIsClosed(records: seq<Placed>, degree: nat, j: nat)
    requires Plain(records) && j <= |records| && (j < |records| ==> !IsBand(records[j]))
    requires forall i :: 0 <= i < |records| && IsState(records[i]) ==> RunStreams(records, degree, i)
    ensures RunComplete(records, j, Some(degree))
  {
    if BandOwner(records, j).Some? {
      hide RunComplete, BandLegal;
      var i := BandOwner(records, j).value;
      OwnerReaches(records, j);
      assert RunEnd(records, i + 1) == j;
      assert RunStreams(records, degree, i);
    }
  }

  lemma {:induction false} StreamsRunByRun(records: seq<Placed>, degree: nat)
    requires Plain(records)
    ensures BandsStream(records, degree) <==>
      && (forall j :: 0 <= j < |records| && IsBand(records[j]) ==> Owned(records, j))
      && (forall i :: 0 <= i < |records| && IsState(records[i]) ==> RunStreams(records, degree, i))
  {
    hide RunComplete, BandLegal, RunStreams, Owned;
    if BandsStream(records, degree) {
      forall j | 0 <= j < |records| && IsBand(records[j])
        ensures Owned(records, j)
      {
        BandIsOwned(records, degree, j);
      }
      forall i | 0 <= i < |records| && IsState(records[i])
        ensures RunStreams(records, degree, i)
      {
        RunAfter(records, degree, i);
      }
    }
    if (forall j :: 0 <= j < |records| && IsBand(records[j]) ==> Owned(records, j))
       && (forall i :: 0 <= i < |records| && IsState(records[i]) ==> RunStreams(records, degree, i)) {
      forall j | 0 <= j <= |records|
        ensures j < |records| && records[j].body.ShBand? ==> BandLegal(records, j, Some(degree))
        ensures j == |records| || !records[j].body.ShBand? ==> RunComplete(records, j, Some(degree))
      {
        if j < |records| && IsBand(records[j]) { BandInRun(records, degree, j); } else { RunIsClosed(records, degree, j); }
      }
    }
  }

  /** The run after state record `i` as it must be, by itself. */
  predicate RunStands(records: seq<Placed>, degree: nat, i: nat)
    requires Plain(records) && i < |records| && IsState(records[i])
  {
    var run := RunOf(records, i);
    && (forall k :: 0 <= k < |run| && run[k].body.ShBand? ==> 1 <= run[k].body.band <= degree && StreamFits(run[k], BornRows(records[i].body)))
    && (forall j, k :: 0 <= j < k < |run| && run[j].body.ShBand? && run[k].body.ShBand? ==> run[j].body.band != run[k].body.band)
    && (forall b :: 1 <= b <= degree ==> (HasBand(run, b) <==> BornRows(records[i].body) > 0))
  }

  /** One band of a run, by its place. */
  lemma {:induction false} BandOfRun(records: seq<Placed>, degree: nat, i: nat, j: nat)
    requires Plain(records) && i < |records| && IsState(records[i]) && i < j < RunEnd(records, i + 1)
    ensures records[j].body.ShBand? && AreBands(records[i + 1..j])
    ensures BandLegal(records, j, Some(degree)) <==>
      && 1 <= records[j].body.band <= degree && StreamFits(records[j], BornRows(records[i].body))
      && records[j].body.band !in BandNumbers(records[i + 1..j])
  {
    assert IsBand(records[j]);
    OwnerOfRun(records, i, j);
  }

  /** A finished run is complete when it has what its record owes. */
  lemma {:induction false} RunHas(records: seq<Placed>, degree: nat, i: nat)
    requires Plain(records) && i < |records| && IsState(records[i])
    requires forall k :: 0 <= k < |RunOf(records, i)| && RunOf(records, i)[k].body.ShBand? ==> 1 <= RunOf(records, i)[k].body.band <= degree
    ensures RunComplete(records, RunEnd(records, i + 1), Some(degree)) <==>
      forall b :: 1 <= b <= degree ==> (HasBand(RunOf(records, i), b) <==> BornRows(records[i].body) > 0)
  {
    var run, rows := RunOf(records, i), BornRows(records[i].body);
    OwnerOfRun(records, i, RunEnd(records, i + 1));
    RunAreBands(records, i);
    HasNumber(run);
    var found := set b | b in BandNumbers(run);
    assert forall b: nat :: b in found <==> HasBand(run, b);
    assert RunComplete(records, RunEnd(records, i + 1), Some(degree)) <==> found == Owed(degree, rows);
    OwedExactly(found, degree, rows);
  }

  lemma {:induction false} HasNumber(run: seq<Placed>)
    requires AreBands(run)
    ensures forall b :: b in BandNumbers(run) <==> HasBand(run, b)
    ensures forall b :: b in BandNumbers(run) ==> exists k :: 0 <= k < |run| && run[k].body.ShBand? && run[k].body.band == b
  {
    forall b: nat
      ensures b in BandNumbers(run) <==> HasBand(run, b)
    {
      if HasBand(run, b) {
        var k :| 0 <= k < |run| && run[k].body.ShBand? && run[k].body.band == b;
        assert BandNumbers(run)[k] == b;
      }
    }
  }

  lemma {:induction false} OwedExactly(found: set<nat>, degree: nat, rows: nat)
    requires forall b :: b in found ==> 1 <= b <= degree
    ensures found == Owed(degree, rows) <==> forall b :: 1 <= b <= degree ==> (b in found <==> rows > 0)
  {
    if forall b :: 1 <= b <= degree ==> (b in found <==> rows > 0) {
      forall b
        ensures b in found <==> b in Owed(degree, rows)
      {
      }
    }
  }

  lemma {:induction false} RunStreamsStands(records: seq<Placed>, degree: nat, i: nat)
    requires Plain(records) && i < |records| && IsState(records[i])
    ensures RunStreams(records, degree, i) <==> RunStands(records, degree, i)
  {
    hide BandLegal, RunComplete, StreamFits;
    var run, end := RunOf(records, i), RunEnd(records, i + 1);
    forall j | i < j < end
      ensures records[j].body.ShBand? && run[j - i - 1] == records[j] && AreBands(records[i + 1..j])
      ensures BandLegal(records, j, Some(degree)) <==>
        && 1 <= records[j].body.band <= degree && StreamFits(records[j], BornRows(records[i].body))
        && records[j].body.band !in BandNumbers(records[i + 1..j])
    {
      BandOfRun(records, degree, i, j);
    }
    if RunStreams(records, degree, i) { StreamsThenStands(records, degree, i); }
    if RunStands(records, degree, i) {
      RunHas(records, degree, i);
      forall j | i < j < end
        ensures BandLegal(records, j, Some(degree))
      {
        var before := records[i + 1..j];
        assert run[j - i - 1].body.ShBand?;
        forall m | 0 <= m < |before|
          ensures BandNumbers(before)[m] != records[j].body.band
        {
          assert run[m] == before[m] && run[j - i - 1] == records[j];
        }
      }
    }
  }

  lemma {:induction false} StreamsThenStands(records: seq<Placed>, degree: nat, i: nat)
    requires Plain(records) && i < |records| && IsState(records[i]) && RunStreams(records, degree, i)
    ensures RunStands(records, degree, i)
  {
    hide BandLegal, RunComplete, StreamFits;
    var run := RunOf(records, i);
    forall k | 0 <= k < |run|
      ensures run[k].body.ShBand? && 1 <= run[k].body.band <= degree && StreamFits(run[k], BornRows(records[i].body))
      ensures forall j :: 0 <= j < k && run[j].body.ShBand? ==> run[j].body.band != run[k].body.band
    {
      var at := i + 1 + k;
      BandOfRun(records, degree, i, at);
      assert run[k] == records[at] && BandLegal(records, at, Some(degree));
      forall j | 0 <= j < k && run[j].body.ShBand?
        ensures run[j].body.band != run[k].body.band
      {
        assert BandNumbers(records[i + 1..at])[j] == records[i + 1 + j].body.band;
      }
    }
    RunHas(records, degree, i);
  }

  // ---- what an index makes of a run ----

  /** Ranges that differ are listed together exactly when each is among the others. */
  lemma {:induction false} SameMembers<T>(xs: seq<T>, ys: seq<T>)
    requires forall i, j :: 0 <= i < j < |xs| ==> xs[i] != xs[j]
    requires forall i, j :: 0 <= i < j < |ys| ==> ys[i] != ys[j]
    ensures multiset(xs) == multiset(ys) <==> (forall x :: x in xs ==> x in ys) && (forall y :: y in ys ==> y in xs)
  {
    OnceEach(xs);
    OnceEach(ys);
    if (forall x :: x in xs ==> x in ys) && (forall y :: y in ys ==> y in xs) {
      forall x
        ensures multiset(xs)[x] == multiset(ys)[x]
      {
        assert x in xs <==> x in ys;
      }
    }
    if multiset(xs) == multiset(ys) {
      forall x
        ensures x in xs <==> x in ys
      {
        assert x in multiset(xs) <==> x in multiset(ys);
      }
    }
  }

  lemma {:induction false} OnceEach<T>(xs: seq<T>)
    requires forall i, j :: 0 <= i < j < |xs| ==> xs[i] != xs[j]
    ensures forall x :: multiset(xs)[x] == if x in xs then 1 else 0
  {
    if xs != [] {
      var n := |xs| - 1;
      OnceEach(xs[..n]);
      assert xs == xs[..n] + [xs[n]];
    }
  }

  /** Naming a run in any order is listing it. */
  lemma {:induction false} NamesByListing(e: Entry, run: seq<Placed>)
    requires AreBands(run) && forall j, k :: 0 <= j < k < |run| ==> run[j].body.band != run[k].body.band
    ensures NamesRun(e, run) <==> multiset(e.bands) == multiset(BandRanges(run))
  {
    var ranges := BandRanges(run);
    forall k | 0 <= k < |run|
      ensures RangeOf(run[k]) == ranges[k]
    {
    }
    if NamesRun(e, run) {
      NamedAreListed(e, run);
      SameMembers(e.bands, ranges);
    }
    if multiset(e.bands) == multiset(ranges) { ListedAreNamed(e, run); }
  }

  lemma {:induction false} NamedAreListed(e: Entry, run: seq<Placed>)
    requires AreBands(run) && NamesRun(e, run)
    ensures forall x :: x in e.bands ==> x in BandRanges(run)
    ensures forall x :: x in BandRanges(run) ==> x in e.bands
  {
    forall j | 0 <= j < |e.bands|
      ensures e.bands[j] in BandRanges(run)
    {
      var k :| 0 <= k < |run| && RangeOf(run[k]) == e.bands[j];
      assert BandRanges(run)[k] == e.bands[j];
    }
    forall k | 0 <= k < |run|
      ensures BandRanges(run)[k] in e.bands
    {
      assert RangeOf(run[k]) in e.bands;
    }
  }

  lemma {:induction false} ListedAreNamed(e: Entry, run: seq<Placed>)
    requires AreBands(run) && forall j, k :: 0 <= j < k < |run| ==> run[j].body.band != run[k].body.band
    requires multiset(e.bands) == multiset(BandRanges(run))
    ensures NamesRun(e, run)
  {
    var ranges := BandRanges(run);
    OnceEach(ranges);
    forall x
      ensures x in e.bands <==> x in ranges
    {
      assert x in multiset(e.bands) <==> x in multiset(ranges);
    }
    forall j, k | 0 <= j < k < |e.bands|
      ensures e.bands[j].0 != e.bands[k].0
    {
      DistinctWhereOnce(e.bands, j, k);
      assert e.bands[j] in ranges && e.bands[k] in ranges;
    }
    forall j | 0 <= j < |e.bands|
      ensures exists k :: 0 <= k < |run| && RangeOf(run[k]) == e.bands[j]
    {
      assert e.bands[j] in ranges;
      var k :| 0 <= k < |ranges| && ranges[k] == e.bands[j];
      assert RangeOf(run[k]) == e.bands[j];
    }
    forall k | 0 <= k < |run|
      ensures RangeOf(run[k]) in e.bands
    {
      assert ranges[k] in ranges;
    }
  }

  lemma {:induction false} DistinctWhereOnce<T>(xs: seq<T>, j: nat, k: nat)
    requires j < k < |xs| && forall x :: multiset(xs)[x] <= 1
    ensures xs[j] != xs[k]
  {
    assert xs == xs[..k] + [xs[k]] + xs[k + 1..];
    assert xs[j] in xs[..k];
    assert multiset(xs)[xs[k]] == multiset(xs[..k])[xs[k]] + multiset([xs[k]])[xs[k]] + multiset(xs[k + 1..])[xs[k]];
  }

  /** Both checks of an entry's bands together ask for the run as it must be, listed. */
  lemma {:induction false} EntryBands(records: seq<Placed>, degree: nat, i: nat, e: Entry)
    requires ValidRecords(records) && Plain(records) && i < |records| && IsState(records[i]) && e.offset == records[i].offset
    requires RecordMatches(Physical(records), e)
    ensures Matches(records, degree, i, e) && BandsLegal(Physical(records), e) <==> RunStands(records, degree, i) && ListsBands(records, i, e)
  {
    hide Plain, ValidRecords, Physical, RunOf, BandRangeLegal, RecordMatches, NamesRun, HasBand, StreamFits;
    var run := RunOf(records, i);
    RecordAt(records, i);
    RunAreBands(records, i);
    if RunLegal(run, degree) { NamesByListing(e, run); }
    if RunLegal(run, degree) && NamesRun(e, run) { StreamsOfRun(records, i, e); }
  }

  lemma {:induction false} RangeOfRun(records: seq<Placed>, i: nat, k: nat)
    requires ValidRecords(records) && i < |records| && IsState(records[i]) && k < |RunOf(records, i)| && AreBands(RunOf(records, i))
    ensures BandRangeLegal(Physical(records), RangeOf(RunOf(records, i)[k]), BornRows(records[i].body)) <==>
            StreamFits(RunOf(records, i)[k], BornRows(records[i].body))
  {
    hide Physical;
    PhysicalHas(records, i + 1 + k);
    assert RunOf(records, i)[k] == records[i + 1 + k];
  }

  /** With a run named, the ranges an entry states are legal when the run's streams fit. */
  lemma {:induction false} StreamsOfRun(records: seq<Placed>, i: nat, e: Entry)
    requires ValidRecords(records) && Plain(records) && i < |records| && IsState(records[i])
    requires AreBands(RunOf(records, i)) && NamesRun(e, RunOf(records, i))
    requires RecordMatches(Physical(records), e) && Physical(records)[e.offset] == records[i]
    ensures BandsLegal(Physical(records), e) <==> forall k :: 0 <= k < |RunOf(records, i)| ==> StreamFits(RunOf(records, i)[k], BornRows(records[i].body))
  {
    var run, at, rows := RunOf(records, i), Physical(records), BornRows(records[i].body);
    hide BandRangeLegal, StreamFits, RangeOf, Physical, Plain, ValidRecords, RunOf;
    forall k | 0 <= k < |run|
      ensures BandRangeLegal(at, RangeOf(run[k]), rows) <==> StreamFits(run[k], rows)
    {
      RangeOfRun(records, i, k);
    }
    if BandsLegal(at, e) {
      forall k | 0 <= k < |run|
        ensures StreamFits(run[k], rows)
      {
        assert RangeOf(run[k]) in e.bands;
        var j :| 0 <= j < |e.bands| && e.bands[j] == RangeOf(run[k]);
        assert BandRangeLegal(at, e.bands[j], rows);
      }
    }
  }

  // ---- the whole index ----

  lemma {:induction false} LastApart(xs: seq<int>)
    requires Increasing(xs) && xs != []
    ensures Increasing(xs[..|xs| - 1]) && forall x :: x in xs[..|xs| - 1] <==> x in xs && x != xs[|xs| - 1]
  {
    var n := |xs| - 1;
    assert xs == xs[..n] + [xs[n]];
    forall x | x in xs[..n]
      ensures x != xs[n]
    {
      var k :| 0 <= k < n && xs[..n][k] == x;
    }
  }

  lemma {:induction false} SameIncreasing(xs: seq<int>, ys: seq<int>)
    requires Increasing(xs) && Increasing(ys) && forall x :: x in xs <==> x in ys
    ensures xs == ys
  {
    UniqueCount(xs);
    UniqueCount(ys);
    assert Ids(xs) == Ids(ys);
    if xs != [] {
      var n := |xs| - 1;
      assert xs[n] in ys && ys[n] in xs;
      assert xs[n] == ys[n];
      LastApart(xs);
      LastApart(ys);
      forall x
        ensures x in xs[..n] <==> x in ys[..n]
      {
        assert x in xs <==> x in ys;
      }
      SameIncreasing(xs[..n], ys[..n]);
    }
  }

  function StateOffsets(records: seq<Placed>): (r: seq<int>)
    ensures |r| == |States(records)|
    ensures forall k :: 0 <= k < |r| ==> r[k] == records[States(records)[k]].offset
  {
    seq(|States(records)|, k requires 0 <= k < |States(records)| => records[States(records)[k]].offset)
  }

  lemma {:induction false} StateOffsetsIncrease(records: seq<Placed>)
    requires ValidRecords(records)
    ensures Increasing(StateOffsets(records))
  {
    PositionsIncrease(records, |records|);
    forall j, k | 0 <= j < k < |StateOffsets(records)|
      ensures StateOffsets(records)[j] < StateOffsets(records)[k]
    {
      OffsetsIncrease(records, States(records)[j], States(records)[k]);
    }
  }

  /** Each is a rearrangement of the other. */
  predicate SameEntries(index: seq<Entry>, es: seq<Entry>) {
    (forall e :: e in index ==> e in es) && (forall e :: e in es ==> e in index)
  }

  /** An index that names the states one to one names them in order. */
  lemma {:induction false} IndexedIsAligned(records: seq<Placed>, index: seq<Entry>, es: seq<Entry>, degree: nat)
    requires ValidRecords(records) && Plain(records) && SameEntries(index, es) && Increasing(Offsets(es))
    requires BandsIndexed(records, index, degree)
    ensures Aligned(records, es)
  {
    hide RunLegal, NamesRun, RunOwed, States, RunOf;
    var xs, ys := Offsets(es), StateOffsets(records);
    StateOffsetsIncrease(records);
    forall k | 0 <= k < |es|
      ensures xs[k] in ys
    {
      assert es[k] in index;
      var n :| 0 <= n < |index| && index[n] == es[k];
      assert NamesState(records, index[n]);
      var i :| 0 <= i < |records| && IsOwner(records[i]) && records[i].offset == es[k].offset;
      assert i in States(records);
      var m :| 0 <= m < |States(records)| && States(records)[m] == i;
      assert ys[m] == xs[k];
    }
    forall k | 0 <= k < |ys|
      ensures ys[k] in xs
    {
      var i := States(records)[k];
      assert Named(records, index, degree, i);
      var n :| 0 <= n < |index| && Matches(records, degree, i, index[n]);
      assert index[n] in es;
      var m :| 0 <= m < |es| && es[m] == index[n];
      assert xs[m] == ys[k];
    }
    SameIncreasing(xs, ys);
    forall k | 0 <= k < |es|
      ensures es[k].offset == records[States(records)[k]].offset
    {
      assert xs[k] == ys[k];
    }
  }

  /** Along an aligned index, the pass and the stream accept the same entries. */
  lemma {:induction false} PassesAlike(records: seq<Placed>, windows: nat, es: seq<Entry>, n: nat)
    requires ValidRecords(records) && Plain(records) && Aligned(records, es) && n <= |es| && ValidLayout(Physical(records))
    ensures (forall k :: 0 <= k < n ==> EntryPasses(Physical(records), FileGrid(records), windows, es, k)) <==>
            (forall k :: 0 <= k < n ==> RecordPasses(records, windows, es, k))
  {
    hide EntryPasses, Restates, StateStreams, WindowsStand, Plain, ValidRecords, ValidLayout, States;
    if n > 0 {
      PassesAlike(records, windows, es, n - 1);
      if forall k :: 0 <= k < n - 1 ==> RecordPasses(records, windows, es, k) {
        forall k | 0 <= k < n - 1
          ensures Restates(records, States(records)[k], es[k])
        {
          assert RecordPasses(records, windows, es, k);
        }
        if records[States(records)[n - 1]].body.Chunk? { KeyframePasses(records, windows, es, n - 1); } else { DeltaPasses(records, windows, es, n - 1); }
      }
    }
  }

  /** The bands half: what both checks ask of an aligned index, and what a stream asks. */
  lemma {:induction false} BandsAlike(records: seq<Placed>, degree: nat, index: seq<Entry>, es: seq<Entry>)
    requires ValidRecords(records) && Plain(records) && SameEntries(index, es) && Aligned(records, es) && DistinctOffsets(index)
    requires forall k :: 0 <= k < |es| ==> RecordMatches(Physical(records), es[k])
    ensures BandsIndexed(records, index, degree) && (forall k :: 0 <= k < |es| ==> BandsLegal(Physical(records), es[k])) <==>
            BandsStream(records, degree) && (forall k :: 0 <= k < |es| ==> ListsBands(records, States(records)[k], es[k]))
  {
    hide Plain, ValidRecords, RecordMatches, Physical, Matches, BandsLegal, RunStands, ListsBands, States, BandsStream, BandsIndexed, Owned, RunStreams;
    forall k | 0 <= k < |es|
      ensures Matches(records, degree, States(records)[k], es[k]) && BandsLegal(Physical(records), es[k]) <==>
              RunStands(records, degree, States(records)[k]) && ListsBands(records, States(records)[k], es[k])
    {
      EntryBands(records, degree, States(records)[k], es[k]);
    }
    IndexedByEntry(records, degree, index, es);
    StreamsByEntry(records, degree);
  }

  lemma {:induction false} IndexedByEntry(records: seq<Placed>, degree: nat, index: seq<Entry>, es: seq<Entry>)
    requires ValidRecords(records) && Plain(records) && SameEntries(index, es) && Aligned(records, es) && DistinctOffsets(index)
    ensures BandsIndexed(records, index, degree) <==>
      && (forall j :: 0 <= j < |records| && IsBand(records[j]) ==> Owned(records, j))
      && (forall k :: 0 <= k < |es| ==> Matches(records, degree, States(records)[k], es[k]))
  {
    hide Matches, Named, NamesState, Owned, States;
    forall k | 0 <= k < |es|
      ensures Named(records, index, degree, States(records)[k]) <==> Matches(records, degree, States(records)[k], es[k])
    {
      NamedByItsEntry(records, degree, index, es, k);
    }
    forall i | 0 <= i < |records| && IsOwner(records[i])
      ensures exists k :: 0 <= k < |es| && States(records)[k] == i
    {
      assert i in States(records);
    }
    forall n | 0 <= n < |index|
      ensures NamesState(records, index[n])
    {
      EntryNamesState(records, index, es, n);
    }
  }

  lemma {:induction false} NamedByItsEntry(records: seq<Placed>, degree: nat, index: seq<Entry>, es: seq<Entry>, k: nat)
    requires SameEntries(index, es) && Aligned(records, es) && DistinctOffsets(index) && k < |es|
    ensures Named(records, index, degree, States(records)[k]) <==> Matches(records, degree, States(records)[k], es[k])
  {
    hide RunLegal, NamesRun, RunOwed, RunOf, States;
    assert es[k] in index;
    var n :| 0 <= n < |index| && index[n] == es[k];
  }

  lemma {:induction false} EntryNamesState(records: seq<Placed>, index: seq<Entry>, es: seq<Entry>, n: nat)
    requires Plain(records) && SameEntries(index, es) && Aligned(records, es) && n < |index|
    ensures NamesState(records, index[n])
  {
    hide States;
    assert index[n] in es;
    var k :| 0 <= k < |es| && es[k] == index[n];
    assert IsOwner(records[States(records)[k]]);
  }

  lemma {:induction false} StreamsByEntry(records: seq<Placed>, degree: nat)
    requires Plain(records)
    ensures BandsStream(records, degree) <==>
      && (forall j :: 0 <= j < |records| && IsBand(records[j]) ==> Owned(records, j))
      && (forall k :: 0 <= k < |States(records)| ==> RunStands(records, degree, States(records)[k]))
  {
    hide Owned, RunStands, RunStreams, BandsStream, States;
    StreamsRunByRun(records, degree);
    forall i | 0 <= i < |records| && IsState(records[i])
      ensures RunStreams(records, degree, i) <==> RunStands(records, degree, i)
      ensures exists k :: 0 <= k < |States(records)| && States(records)[k] == i
    {
      RunStreamsStands(records, degree, i);
      assert i in States(records);
    }
  }

  /** A plain file streams when its states and its bands do. */
  lemma {:induction false} StreamsByParts(records: seq<Placed>, degree: nat)
    requires ValidRecords(records) && Plain(records)
    ensures ScanAccepts(records, false, Some(degree)) <==>
      BandsStream(records, degree) && (forall k :: 0 <= k < |States(records)| ==> StateStreams(records, States(records)[k]))
  {
    hide BandLegal, RunComplete, DeltaLinked, Decodes, States, ValidRecords;
    forall i | 0 <= i < |records|
      ensures ScanSound(records, i, Some(degree)) <==>
        && (if records[i].body.ShBand? then BandLegal(records, i, Some(degree)) else RunComplete(records, i, Some(degree)))
        && (IsState(records[i]) ==> StateStreams(records, i))
    {
      SoundByParts(records, degree, i);
    }
    forall i | 0 <= i < |records| && IsState(records[i])
      ensures exists k :: 0 <= k < |States(records)| && States(records)[k] == i
    {
      assert i in States(records);
    }
  }

  lemma {:induction false} SoundByParts(records: seq<Placed>, degree: nat, i: nat)
    requires ValidRecords(records) && Plain(records) && i < |records|
    ensures ScanSound(records, i, Some(degree)) <==>
      && (if records[i].body.ShBand? then BandLegal(records, i, Some(degree)) else RunComplete(records, i, Some(degree)))
      && (IsState(records[i]) ==> StateStreams(records, i))
  {
    hide BandLegal, RunComplete, DeltaLinked, Decodes, ValidRecords;
    assert IsPlaced(records, i);
    if IsState(records[i]) { GridSettles(records, i, |records|); }
  }

  /** Everything an entry must say of its record, its bands in any order, and the windows
      that record's population must stand in. */
  ghost predicate Stands(records: seq<Placed>, windows: nat, i: nat, e: Entry)
    requires ValidRecords(records) && Plain(records) && i < |records| && IsState(records[i])
  {
    Restates(records, i, e) && ListsBands(records, i, e) && WindowsStand(records, i, windows)
  }

  lemma {:induction false} PassByEntry(at: Layout, grid: MuGrid, windows: nat, index: seq<Entry>, es: seq<Entry>)
    requires ValidLayout(at) && SameEntries(index, es)
    ensures ShapeLegal(index) && SoundTo(at, grid, windows, es, |es|) <==>
      && (forall k :: 0 <= k < |es| ==> EntryPasses(at, grid, windows, es, k))
      && (forall k :: 0 <= k < |es| ==> RecordMatches(at, es[k]) && BandsLegal(at, es[k]))
  {
    hide EntryLinked, WindowsNamed, BandsLegal, ValidLayout;
    forall k | 0 <= k < |es|
      ensures es[k] in index
    {
    }
    if forall k :: 0 <= k < |es| ==> EntryPasses(at, grid, windows, es, k) {
      forall n | 0 <= n < |index|
        ensures index[n].extended && index[n].kind <= 1
      {
        assert index[n] in es;
        var k :| 0 <= k < |es| && es[k] == index[n];
        assert EntryPasses(at, grid, windows, es, k);
      }
    }
    if ShapeLegal(index) && SoundTo(at, grid, windows, es, |es|) {
      forall k | 0 <= k < |es|
        ensures EntryPasses(at, grid, windows, es, k) && RecordMatches(at, es[k]) && BandsLegal(at, es[k])
      {
        assert EntrySound(at, grid, windows, es, k);
        var n :| 0 <= n < |index| && index[n] == es[k];
      }
    }
    if (forall k :: 0 <= k < |es| ==> EntryPasses(at, grid, windows, es, k))
       && (forall k :: 0 <= k < |es| ==> RecordMatches(at, es[k]) && BandsLegal(at, es[k])) {
      forall k | 0 <= k < |es|
        ensures EntrySound(at, grid, windows, es, k)
      {
        assert EntryPasses(at, grid, windows, es, k);
      }
    }
  }

  /** On an aligned index both verdicts are the same. */
  lemma {:induction false} VerdictsAlike(records: seq<Placed>, degree: nat, windows: nat, index: seq<Entry>, es: seq<Entry>)
    requires ValidRecords(records) && Plain(records) && ValidLayout(Physical(records))
    requires SameEntries(index, es) && Aligned(records, es) && DistinctOffsets(index)
    ensures ShapeLegal(index) && SoundTo(Physical(records), FileGrid(records), windows, es, |es|) && BandsIndexed(records, index, degree) <==>
            ScanAccepts(records, false, Some(degree)) && (forall k :: 0 <= k < |es| ==> Stands(records, windows, States(records)[k], es[k]))
  {
    hide Plain, ValidRecords, ValidLayout, Physical, SoundTo, ShapeLegal, BandsIndexed, EntryPasses, BandsLegal, ScanAccepts, States,
      WindowsStand, ListsBands, BandsStream, StateStreams;
    var at, grid := Physical(records), FileGrid(records);
    PassByEntry(at, grid, windows, index, es);
    PassesAlike(records, windows, es, |es|);
    StreamsByParts(records, degree);
    if ScanAccepts(records, false, Some(degree)) && forall k :: 0 <= k < |es| ==> Stands(records, windows, States(records)[k], es[k]) {
      forall k | 0 <= k < |es|
        ensures RecordPasses(records, windows, es, k)
      {
        assert Stands(records, windows, States(records)[k], es[k]) && StateStreams(records, States(records)[k]);
      }
    }
    if forall k :: 0 <= k < |es| ==> RecordPasses(records, windows, es, k) {
      forall k | 0 <= k < |es|
        ensures RecordMatches(at, es[k])
      {
        assert RecordPasses(records, windows, es, k);
        RestatedMatches(records, States(records)[k], es[k]);
      }
      BandsAlike(records, degree, index, es);
      forall k | 0 <= k < |es|
        ensures StateStreams(records, States(records)[k])
        ensures ListsBands(records, States(records)[k], es[k]) <==> Stands(records, windows, States(records)[k], es[k])
      {
        assert RecordPasses(records, windows, es, k);
      }
    }
  }

  lemma {:induction false} RestatedMatches(records: seq<Placed>, i: nat, e: Entry)
    requires ValidRecords(records) && i < |records| && IsState(records[i]) && Restates(records, i, e)
    ensures RecordMatches(Physical(records), e)
  {
    PhysicalHas(records, i);
  }

  lemma {:induction false} ApartInOrder(es: seq<Entry>, m: nat, n: nat)
    requires Increasing(Offsets(es)) && m < |es| && n < |es| && m != n
    ensures es[m].offset != es[n].offset
  {
    assert Offsets(es)[m] == es[m].offset && Offsets(es)[n] == es[n].offset;
  }

  lemma {:induction false} IncreasingDistinct(index: seq<Entry>, es: seq<Entry>)
    requires Increasing(Offsets(es)) && multiset(index) == multiset(es) && forall e :: e in index ==> e in es
    ensures DistinctOffsets(index)
  {
    forall m, n | 0 <= m < n < |es|
      ensures es[m] != es[n]
    {
      ApartInOrder(es, m, n);
    }
    OnceEach(es);
    forall j, k | 0 <= j < k < |index|
      ensures index[j].offset != index[k].offset
    {
      DistinctWhereOnce(index, j, k);
      assert index[j] in es && index[k] in es;
      var m :| 0 <= m < |es| && es[m] == index[j];
      var n :| 0 <= n < |es| && es[n] == index[k];
      ApartInOrder(es, m, n);
    }
  }

  /** Whose index lies in time order is accepted, by the pass and by the band check, exactly
      when the file streams and the index restates it: an entry for each state record, equal
      to it field by field, with its bands and its population's size. */
  lemma {:induction false} AcceptedIndexRestates(records: seq<Placed>, degree: nat, windows: nat, index: seq<Entry>)
    requires ValidRecords(records) && Plain(records) && Increasing(Offsets(ByStart(index)))
    ensures var es := ByStart(index);
      ValidLayout(Physical(records)) &&
      (ShapeLegal(index) && SoundTo(Physical(records), FileGrid(records), windows, es, |index|) && BandsIndexed(records, index, degree) <==>
         && ScanAccepts(records, false, Some(degree)) && |es| == |States(records)|
         && forall k :: 0 <= k < |es| ==> Stands(records, windows, States(records)[k], es[k]))
  {
    hide Plain, ValidRecords, Physical, SoundTo, BandsIndexed, ScanAccepts, States, ListsBands, WindowsStand, ShapeLegal;
    var es := ByStart(index);
    PhysicalIsValid(records);
    SortMembers(index, StartsBefore);
    SortPermutes(index, StartsBefore);
    IncreasingDistinct(index, es);
    assert SameEntries(index, es);
    if BandsIndexed(records, index, degree) { IndexedIsAligned(records, index, es, degree); }
    if Aligned(records, es) { VerdictsAlike(records, degree, windows, index, es); }
    if |es| == |States(records)| && forall k :: 0 <= k < |es| ==> Stands(records, windows, States(records)[k], es[k]) {
      StandsAligned(records, windows, es);
    }
  }

  lemma {:induction false} StandsAligned(records: seq<Placed>, windows: nat, es: seq<Entry>)
    requires ValidRecords(records) && Plain(records) && |es| == |States(records)|
    requires forall k :: 0 <= k < |es| ==> Stands(records, windows, States(records)[k], es[k])
    ensures Aligned(records, es)
  {
    hide Plain, ValidRecords, States, ListsBands, WindowsStand;
    forall k | 0 <= k < |es|
      ensures es[k].offset == records[States(records)[k]].offset
    {
      assert Stands(records, windows, States(records)[k], es[k]);
    }
  }
}
