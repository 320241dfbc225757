/** The read paths against one another: what one pass over the index validates can be
    sought entry by entry, and every path reaches the same populations. */
module ReadPaths {
  import opened Wrappers
  import opened Populations
  import opened Sorting
  import opened Records
  import opened StreamedReader
  import opened StreamedScan
  import opened Timeline
  import opened IndexedReader

  lemma {:induction false} LookupFinds(index: seq<Entry>, e: Entry)
    requires DistinctOffsets(index) && e in index
    ensures Lookup(index, e.offset) == Some(e)
  {
    var n := |index| - 1;
    if index[n].offset != e.offset {
      assert e in index[..n];
      LookupFinds(index[..n], e);
    } else {
      var k :| 0 <= k < |index| && index[k] == e;
      assert k == n;
    }
  }

  /** What the pass established about entry `i`: its chain, as the index alone gives it. */
  ghost predicate ChainSound(at: Layout, grid: MuGrid, index: seq<Entry>, es: seq<Entry>, i: nat)
    requires ValidLayout(at) && i < |es|
  {
    && ChainOf(index, es[i]).Some?
    && var chain := ChainOf(index, es[i]).value;
       && |chain| - 1 == es[i].depth && LinksLegal(chain)
       && (forall j :: 0 <= j < |chain| ==> EntryDecodes(at, grid, chain[j]))
       && KeyframeEntry(es, i + 1).Some? && chain[0] == es[KeyframeEntry(es, i + 1).value]
  }

  lemma {:induction false} LinkAppended(chain: seq<Entry>, e: Entry)
    requires chain != [] && LinksLegal(chain) && e.kind != 0
    requires e.keyframe == chain[0].offset && e.reference < e.offset && (e.mode == KEYFRAME_MODE || e.mode == CHAINED_MODE)
    requires e.reference == (if e.mode == KEYFRAME_MODE then chain[0].offset else chain[|chain| - 1].offset)
    requires e.depth == |chain|
    ensures LinksLegal(chain + [e])
  {
    forall i | 0 <= i < |chain + [e]|
      ensures LinkLegal(chain + [e], i)
    {
      if i < |chain| { assert LinkLegal(chain, i); }
    }
  }

  /** A delta's chain is its reference's chain and the delta. */
  lemma {:induction false} ChainGrows(index: seq<Entry>, behind: Entry, e: Entry)
    requires DistinctOffsets(index) && behind in index && ChainOf(index, behind).Some?
    requires e.kind != 0 && e.reference < e.offset && e.reference == behind.offset
    ensures ChainOf(index, e) == Some(ChainOf(index, behind).value + [e])
  {
    LookupFinds(index, behind);
  }

  /** The link a sound entry adds to its reference's chain is legal. */
  lemma {:induction false} LinkExtends(index: seq<Entry>, es: seq<Entry>, i: nat, k: nat, front: seq<Entry>)
    requires k < i < |es| && es[i].kind != 0 && EntryLinked(es, i) && EntryReference(es, i) == Some(k)
    requires front != [] && front[|front| - 1] == es[k] && |front| - 1 == es[k].depth && LinksLegal(front)
    requires KeyframeEntry(es, i).Some? && front[0] == es[KeyframeEntry(es, i).value]
    ensures LinksLegal(front + [es[i]]) && |front| == es[i].depth
  {
    LinkAppended(front, es[i]);
  }

  lemma {:induction false} ChainExtends(at: Layout, grid: MuGrid, index: seq<Entry>, es: seq<Entry>, i: nat, k: nat)
    requires ValidLayout(at) && DistinctOffsets(index) && k < i < |es|
    requires es[i].kind != 0 && EntryLinked(es, i) && EntryDecodes(at, grid, es[i]) && EntryReference(es, i) == Some(k)
    requires es[k] in index && ChainSound(at, grid, index, es, k)
    requires KeyframeEntry(es, i) == KeyframeEntry(es, k + 1)
    ensures ChainSound(at, grid, index, es, i)
  {
    hide EntryDecodes, ValidLayout, DistinctOffsets;
    var front := ChainOf(index, es[k]).value;
    ChainGrows(index, es[k], es[i]);
    LinkExtends(index, es, i, k, front);
    DecodesAppended(at, grid, front, es[i]);
  }

  lemma {:induction false} DecodesAppended(at: Layout, grid: MuGrid, front: seq<Entry>, e: Entry)
    requires ValidLayout(at) && EntryDecodes(at, grid, e) && forall j :: 0 <= j < |front| ==> EntryDecodes(at, grid, front[j])
    ensures forall j :: 0 <= j < |front + [e]| ==> EntryDecodes(at, grid, (front + [e])[j])
  {
  }

  lemma {:induction false} KeyframeEntryAfter(es: seq<Entry>, i: nat)
    requires i <= |es| && KeyframeEntry(es, i).Some?
    ensures KeyframeEntry(es, KeyframeEntry(es, i).value + 1) == KeyframeEntry(es, i)
  {
    if es[i - 1].kind != 0 { KeyframeEntryAfter(es, i - 1); }
  }

  lemma {:induction false} KeyframeChain(at: Layout, grid: MuGrid, index: seq<Entry>, es: seq<Entry>, i: nat)
    requires ValidLayout(at) && i < |es| && es[i].kind == 0 && EntryLinked(es, i) && EntryDecodes(at, grid, es[i])
    ensures ChainSound(at, grid, index, es, i)
  {
    assert ChainOf(index, es[i]) == Some([es[i]]);
    assert LinkLegal([es[i]], 0);
  }

  lemma {:induction false} SoundParts(at: Layout, grid: MuGrid, windows: nat, es: seq<Entry>, n: nat, i: nat)
    requires ValidLayout(at) && i < n <= |es| && SoundTo(at, grid, windows, es, n)
    ensures EntryLinked(es, i) && EntryDecodes(at, grid, es[i]) && SoundTo(at, grid, windows, es, i + 1)
    ensures WindowsNamed(Composed(at, grid, es[i].offset).value, windows) && BandsLegal(at, es[i])
  {
    assert EntrySound(at, grid, windows, es, i);
  }

  lemma {:induction false} ReferenceGroup(es: seq<Entry>, i: nat)
    requires i < |es| && EntryReference(es, i).Some?
    ensures KeyframeEntry(es, i) == KeyframeEntry(es, EntryReference(es, i).value + 1)
  {
    if es[i].mode == KEYFRAME_MODE { KeyframeEntryAfter(es, i); }
  }

  lemma {:induction false} ChainsAreSound(at: Layout, grid: MuGrid, windows: nat, index: seq<Entry>, es: seq<Entry>, i: nat)
    requires ValidLayout(at) && DistinctOffsets(index) && i < |es| && SoundTo(at, grid, windows, es, i + 1)
    requires forall k :: 0 <= k < |es| ==> es[k] in index
    ensures ChainSound(at, grid, index, es, i)
    decreases i
  {
    SoundParts(at, grid, windows, es, i + 1, i);
    if es[i].kind == 0 {
      KeyframeChain(at, grid, index, es, i);
    } else {
      var k := EntryReference(es, i).value;
      SoundParts(at, grid, windows, es, i + 1, k);
      ChainsAreSound(at, grid, windows, index, es, k);
      ReferenceGroup(es, i);
      ChainExtends(at, grid, index, es, i, k);
    }
  }

  /** One-pass validation implies seeking: whenever the index names distinct chunks and the
      validator's pass completes, every entry's own chain walk succeeds. The chain has
      exactly the stated depth, and never leaves the entry's group of pictures. */
  lemma {:induction false} OnePassImpliesSeeking(at: Layout, grid: MuGrid, windows: nat, index: seq<Entry>, e: Entry)
    requires ValidLayout(at) && DistinctOffsets(index) && e in index
    requires ShapeLegal(index) && SoundTo(at, grid, windows, ByStart(index), |index|)
    ensures SeekAccepts(at, grid, windows, index, e)
    ensures forall k :: 0 <= k < |ChainOf(index, e).value| ==> ChainOf(index, e).value[k].keyframe == ChainOf(index, e).value[0].offset
  {
    var es := ByStart(index);
    SortMembers(index, StartsBefore);
    var n :| 0 <= n < |index| && index[n] == e;
    assert index[n] in es;
    var i :| 0 <= i < |es| && es[i] == e;
    forall k | 0 <= k < |es|
      ensures es[k] in index
    {
    }
    SoundParts(at, grid, windows, es, |es|, i);
    ChainsAreSound(at, grid, windows, index, es, i);
    var chain := ChainOf(index, e).value;
    forall k | 0 <= k < |chain|
      ensures chain[k].keyframe == chain[0].offset
    {
      assert LinkLegal(chain, k);
    }
  }

  /** What the pass checks beyond the seeks is exactly each entry's place in the timeline:
      a delta must reference the previous entry, or its group's keyframe. */
  lemma {:induction false} PassIsSeekingInPlace(at: Layout, grid: MuGrid, windows: nat, index: seq<Entry>)
    requires ValidLayout(at) && DistinctOffsets(index) && ShapeLegal(index)
    ensures SoundTo(at, grid, windows, ByStart(index), |index|) <==>
      && (forall e :: e in index ==> SeekAccepts(at, grid, windows, index, e))
      && (forall i :: 0 <= i < |index| ==> EntryLinked(ByStart(index), i))
  {
    var es := ByStart(index);
    SortMembers(index, StartsBefore);
    if SoundTo(at, grid, windows, es, |index|) {
      forall e | e in index
        ensures SeekAccepts(at, grid, windows, index, e)
      {
        OnePassImpliesSeeking(at, grid, windows, index, e);
      }
      forall i | 0 <= i < |index|
        ensures EntryLinked(es, i)
      {
        SoundParts(at, grid, windows, es, |index|, i);
      }
    }
    if (forall e :: e in index ==> SeekAccepts(at, grid, windows, index, e)) && (forall i :: 0 <= i < |index| ==> EntryLinked(es, i)) {
      forall i | 0 <= i < |index|
        ensures EntrySound(at, grid, windows, es, i)
      {
        var e := es[i];
        assert e in es && SeekAccepts(at, grid, windows, index, e);
      }
    }
  }

  /** In a chain taken as an index of its own, the links are legal exactly when every entry
      is linked there. */
  lemma {:induction false} ChainAsIndex(chain: seq<Entry>, n: nat)
    requires IsChain(chain) && n <= |chain|
    ensures (forall i :: 0 <= i < n ==> LinkLegal(chain, i)) <==> (forall i :: 0 <= i < n ==> EntryLinked(chain, i))
    ensures (forall i :: 0 <= i < n ==> EntryLinked(chain, i)) ==> forall i :: 0 <= i < n ==> chain[i].depth == i
    decreases n
  {
    if n > 0 {
      ChainAsIndex(chain, n - 1);
      OneKeyframe(chain, n - 1);
      if forall i :: 0 <= i < n - 1 ==> EntryLinked(chain, i) { LinkAsIndex(chain, n - 1); }
    }
  }

  lemma {:induction false} OneKeyframe(chain: seq<Entry>, i: nat)
    requires IsChain(chain) && i <= |chain|
    ensures KeyframeEntry(chain, i) == if i == 0 then None else Some(0)
  {
    if i > 0 { OneKeyframe(chain, i - 1); }
  }

  lemma {:induction false} LinkAsIndex(chain: seq<Entry>, i: nat)
    requires IsChain(chain) && i < |chain| && (i > 0 ==> KeyframeEntry(chain, i) == Some(0))
    requires forall j :: 0 <= j < i ==> chain[j].depth == j
    ensures LinkLegal(chain, i) <==> EntryLinked(chain, i)
    ensures EntryLinked(chain, i) ==> chain[i].depth == i
  {
    hide KeyframeEntry;
    if i > 1 && chain[i].mode == 0 { assert chain[0].offset < chain[i - 1].offset by { ChainAscends(chain, i - 1); } }
  }

  lemma {:induction false} ChainAscends(chain: seq<Entry>, i: nat)
    requires IsChain(chain) && 0 < i < |chain|
    ensures chain[0].offset < chain[i].offset
  {
    if i > 1 { ChainAscends(chain, i - 1); }
  }

  /** A seek accepts an entry exactly when the pass would accept the entry's chain as an
      index of its own, windows and bands being asked of the last entry alone. */
  lemma {:induction false} SeekIsPassOverChain(at: Layout, grid: MuGrid, windows: nat, index: seq<Entry>, e: Entry)
    requires ValidLayout(at) && e in index && ChainOf(index, e).Some?
    ensures var chain := ChainOf(index, e).value;
      SeekAccepts(at, grid, windows, index, e) <==>
        && (forall k :: 0 <= k < |index| ==> index[k].extended && (index[k].kind == 0 || index[k].kind == 1))
        && (forall i :: 0 <= i < |chain| ==> EntryLinked(chain, i) && EntryDecodes(at, grid, chain[i]))
        && WindowsNamed(Composed(at, grid, e.offset).value, windows) && BandsLegal(at, e)
  {
    hide ValidLayout, EntryDecodes, WindowsNamed, BandsLegal, LinkLegal, EntryLinked;
    var chain := ChainOf(index, e).value;
    ChainIsChain(index, e);
    ChainAsIndex(chain, |chain|);
    assert chain[|chain| - 1] == e;
  }

  /** One seek after a completed pass. */
  method SeekOne(at: Layout, grid: MuGrid, windows: nat, index: seq<Entry>, e: Entry, ghost scanned: bool) returns (seek: Result<Table, ReadError>)
    requires ValidLayout(at) && DistinctOffsets(index) && e in index
    requires scanned ==> ShapeLegal(index) && SoundTo(at, grid, windows, ByStart(index), |index|)
    ensures scanned ==> seek.Success? && Holds(at, grid, e.offset, seek.value)
  {
    seek := ComposeChain(at, grid, windows, index, e);
    if scanned { OnePassImpliesSeeking(at, grid, windows, index, e); }
  }

  /** Seeks, entry by entry, each holding what its offset denotes. */
  ghost predicate Sought(at: Layout, grid: MuGrid, es: seq<Entry>, n: nat, seeks: seq<Result<Table, ReadError>>)
    requires ValidLayout(at) && n <= |es|
  {
    |seeks| == n && forall j :: 0 <= j < n ==> seeks[j].Success? && Holds(at, grid, es[j].offset, seeks[j].value)
  }

  /** Seek to every entry in timeline order. */
  method SeekAll(at: Layout, grid: MuGrid, windows: nat, index: seq<Entry>, ghost scanned: bool) returns (seeks: seq<Result<Table, ReadError>>)
    requires ValidLayout(at) && DistinctOffsets(index)
    requires scanned ==> ShapeLegal(index) && SoundTo(at, grid, windows, ByStart(index), |index|)
    ensures |seeks| == |index| && (scanned ==> Sought(at, grid, ByStart(index), |index|, seeks))
  {
    var es := ByStart(index);
    SortMembers(index, StartsBefore);
    seeks := [];
    for i := 0 to |es|
      invariant |seeks| == i && (scanned ==> Sought(at, grid, es, i, seeks))
    {
      var seek := SeekOne(at, grid, windows, index, es[i], scanned);
      if scanned { SoughtOne(at, grid, es, i, seeks, seek); }
      seeks := seeks + [seek];
    }
  }

  lemma {:induction false} SoughtOne(at: Layout, grid: MuGrid, es: seq<Entry>, i: nat, seeks: seq<Result<Table, ReadError>>, seek: Result<Table, ReadError>)
    requires ValidLayout(at) && i < |es| && Sought(at, grid, es, i, seeks)
    requires seek.Success? && Holds(at, grid, es[i].offset, seek.value)
    ensures Sought(at, grid, es, i + 1, seeks + [seek])
  {
  }

  /** Validate once, then seek anywhere: every seek returns the population the pass handed
      out for that entry. */
  method SeekAfterScan(at: Layout, grid: MuGrid, windows: nat, index: seq<Entry>)
    returns (scan: Result<seq<Table>, ReadError>, seeks: seq<Result<Table, ReadError>>)
    requires ValidLayout(at) && DistinctOffsets(index)
    ensures |seeks| == |index|
    ensures scan.Success? ==> HandedOut(at, grid, ByStart(index), |index|, scan.value)
    ensures scan.Success? ==> |scan.value| == |index| && forall i :: 0 <= i < |index| ==>
      seeks[i].Success? && View(seeks[i].value) == View(scan.value[i])
  {
    scan := ScanIndexed(at, grid, windows, index);
    seeks := SeekAll(at, grid, windows, index, scan.Success?);
    if scan.Success? { SameHeld(at, grid, ByStart(index), |index|, scan.value, seeks); }
  }

  lemma {:induction false} SameHeld(at: Layout, grid: MuGrid, es: seq<Entry>, n: nat, states: seq<Table>, seeks: seq<Result<Table, ReadError>>)
    requires ValidLayout(at) && n <= |es| && HandedOut(at, grid, es, n, states) && Sought(at, grid, es, n, seeks)
    ensures forall i :: 0 <= i < n ==> seeks[i].Success? && View(seeks[i].value) == View(states[i])
  {
  }

  /** Streaming and seeking reach the same population at every record both can name: the
      front-to-back readers by its place in the file, the seeking reader by its offset. */
  lemma {:induction false} StreamedIsSought(records: seq<Placed>, at: Layout, i: nat)
    requires ValidRecords(records) && ValidLayout(at) && i < |records| && IsState(records[i])
    requires forall o :: o in Physical(records) ==> o in at && at[o] == Physical(records)[o]
    requires forall j :: 0 <= j < |records| ==> IsPlaced(records, j)
    requires Decodes(records, i)
    ensures Composed(at, FileGrid(records), records[i].offset) == Some(StateAt(records, i))
  {
    SoundOnFileGrid(records, i);
    ComposedInLarger(Physical(records), at, FileGrid(records), records[i].offset);
  }

  /** All four readers, on one file and its index: where the scan of the stream and the
      scan of the index both complete, every entry that names a physical state record is
      composed to the same population by all of them. */
  method AllPathsAgree(records: seq<Placed>, truncated: bool, at: Layout, windows: nat, index: seq<Entry>, limit: nat)
    returns (collect: Result<seq<ChunkInfo>, ReadError>, scan: Result<seq<Yielded>, ReadError>,
             pass: Result<seq<Table>, ReadError>, seeks: seq<Result<Table, ReadError>>)
    requires ValidRecords(records) && ValidLayout(at) && DistinctOffsets(index) && limit > 0
    requires forall o :: o in Physical(records) ==> o in at && at[o] == Physical(records)[o]
    ensures |seeks| == |index|
    ensures collect.Success? && scan.Success? && pass.Success? ==>
      && |collect.value| == |scan.value| && |pass.value| == |index|
      && forall i, k :: 0 <= i < |index| && 0 <= k < |collect.value| && ByStart(index)[i].offset == collect.value[k].offset ==>
           && scan.value[k].offset == collect.value[k].offset && seeks[i].Success?
           && View(collect.value[k].state) == View(scan.value[k].state) == View(pass.value[i]) == View(seeks[i].value)
  {
    scan, collect := StreamedReadersAgree(records, truncated, None, limit);
    pass, seeks := SeekAfterScan(at, FileGrid(records), windows, index);
    if collect.Success? && scan.Success? && pass.Success? {
      forall i, k | 0 <= i < |index| && 0 <= k < |collect.value| && ByStart(index)[i].offset == collect.value[k].offset
        ensures View(collect.value[k].state) == View(pass.value[i])
      {
        SamePopulation(records, truncated, at, index, collect.value, pass.value, i, k);
      }
    }
  }

  lemma {:induction false} SamePopulation(records: seq<Placed>, truncated: bool, at: Layout, index: seq<Entry>, chunks: seq<ChunkInfo>, states: seq<Table>, i: nat, k: nat)
    requires ValidRecords(records) && ValidLayout(at)
    requires forall o :: o in Physical(records) ==> o in at && at[o] == Physical(records)[o]
    requires Sound(records, truncated) && Listed(records, |records|, chunks) && HandedOut(at, FileGrid(records), ByStart(index), |index|, states)
    requires i < |index| && k < |chunks| && ByStart(index)[i].offset == chunks[k].offset
    ensures View(chunks[k].state) == View(states[i])
  {
    var pos := StatePositions(records, |records|)[k];
    assert Describes(records, chunks[k], pos);
    forall j | 0 <= j < |records|
      ensures IsPlaced(records, j)
    {
      assert RecordSound(records, j);
    }
    StreamedIsSought(records, at, pos);
    assert Holds(at, FileGrid(records), ByStart(index)[i].offset, states[i]);
  }
}
