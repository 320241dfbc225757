/** A witness that the one pass over the index asks more than the seeks do: a chained delta
    may reference back past the state before it, and only the pass refuses that. */
module SkippingBack {
  import opened Wrappers
  import opened Populations
  import opened Times
  import opened Records
  import opened Timeline
  import opened IndexedReader
  import opened ReadPaths

  const EMPTY := Table([], map[])
  const STILL := Groups(EMPTY, EMPTY, EMPTY)
  const NOBODY := Population({}, map[])

  lemma {:induction false} StillComposes()
    ensures View(EMPTY) == NOBODY && ValidState(EMPTY)
    ensures Composable(NOBODY, DeltaOf(STILL)) && Compose(NOBODY, DeltaOf(STILL)) == NOBODY
  {
    ViewByRows(EMPTY, NOBODY);
    assert Compose(NOBODY, DeltaOf(STILL)).rows == NOBODY.rows;
  }

  function Keyframe(): Entry {
    Entry(Finite(0.0), Finite(1.0), 8, 10, 0, [], true, 0, KEYFRAME_MODE, 0, 8, 0, 0)
  }

  /** A delta one step from the keyframe, saying it is chained. */
  function Chained(t0: real, o: nat): Entry {
    Entry(Finite(t0), Finite(t0 + 1.0), o, 10, 0, [], true, 1, CHAINED_MODE, 8, 8, 1, 0)
  }

  function RecordOf(e: Entry): Placed {
    Placed(e.offset, e.length,
      if e.kind == 0 then Chunk(e.t0, e.t1, 0, 0, 0, Some(EMPTY))
      else DeltaChunk(DeltaHead(e.t0, e.t1, 0, e.mode, e.reference, e.keyframe, e.depth, 0, 0, 0), 0, Some(STILL)))
  }

  lemma {:induction false} KeyframeDecodes(at: Layout, grid: MuGrid)
    requires ValidLayout(at) && 8 in at && at[8] == RecordOf(Keyframe())
    ensures Composed(at, grid, 8) == Some(NOBODY) && EntryDecodes(at, grid, Keyframe()) && LevelAt(at, 8) == 0
  {
    StillComposes();
    assert KeyframeAccepted(grid, at[8].body);
  }

  lemma {:induction false} ChainedDecodes(at: Layout, grid: MuGrid, t0: real, o: nat)
    requires ValidLayout(at) && 8 in at && at[8] == RecordOf(Keyframe())
    requires o > 8 && o in at && at[o] == RecordOf(Chained(t0, o))
    ensures Composed(at, grid, o) == Some(NOBODY) && EntryDecodes(at, grid, Chained(t0, o))
  {
    KeyframeDecodes(at, grid);
    StillComposes();
    assert DeltaAccepted(NOBODY, at[o].body);
  }

  lemma {:induction false} ChainedSeeks(at: Layout, grid: MuGrid, index: seq<Entry>, t0: real, o: nat)
    requires ValidLayout(at) && 8 in at && at[8] == RecordOf(Keyframe())
    requires o > 8 && o in at && at[o] == RecordOf(Chained(t0, o))
    requires ShapeLegal(index) && DistinctOffsets(index) && Keyframe() in index
    ensures SeekAccepts(at, grid, 0, index, Chained(t0, o))
  {
    hide LinksLegal, Composed, ValidLayout;
    var e := Chained(t0, o);
    KeyframeDecodes(at, grid);
    ChainedDecodes(at, grid, t0, o);
    ChainGrows(index, Keyframe(), e);
    ChainedLinks(t0, o);
  }

  lemma {:induction false} ChainedLinks(t0: real, o: nat)
    requires o > 8
    ensures LinksLegal([Keyframe()] + [Chained(t0, o)])
  {
    var chain := [Keyframe()] + [Chained(t0, o)];
    assert LinkLegal(chain, 0) && LinkLegal(chain, 1);
  }

  lemma {:induction false} KeyframeSeeks(at: Layout, grid: MuGrid, index: seq<Entry>)
    requires ValidLayout(at) && 8 in at && at[8] == RecordOf(Keyframe()) && ShapeLegal(index)
    ensures SeekAccepts(at, grid, 0, index, Keyframe())
  {
    KeyframeDecodes(at, grid);
    assert LinkLegal([Keyframe()], 0);
  }

  /** Every entry of this index seeks, and the pass refuses it: the second delta's stated
      reference is the keyframe, not the delta just before it. */
  lemma {:induction false} SkippingBackOnlySeeks(grid: MuGrid)
    returns (at: Layout, index: seq<Entry>)
    ensures ValidLayout(at) && DistinctOffsets(index) && ShapeLegal(index) && index != []
    ensures forall n :: 0 <= n < |index| ==> SeekAccepts(at, grid, 0, index, index[n])
    ensures !SoundTo(at, grid, 0, ByStart(index), |index|)
  {
    hide SeekAccepts, SoundTo;
    var a, b := Chained(1.0, 18), Chained(2.0, 28);
    index := [Keyframe(), a, b];
    at := map[8 := RecordOf(Keyframe()), 18 := RecordOf(a), 28 := RecordOf(b)];
    KeyframeSeeks(at, grid, index);
    ChainedSeeks(at, grid, index, 1.0, 18);
    ChainedSeeks(at, grid, index, 2.0, 28);
    PassRefuses(at, grid, index);
  }

  lemma {:induction false} PassRefuses(at: Layout, grid: MuGrid, index: seq<Entry>)
    requires ValidLayout(at) && index == [Keyframe(), Chained(1.0, 18), Chained(2.0, 28)]
    ensures !SoundTo(at, grid, 0, ByStart(index), |index|)
  {
    InOrder(index[0], index[1], index[2]);
    assert !EntryLinked(index, 2);
    assert !EntrySound(at, grid, 0, index, 2);
  }

  lemma {:induction false} InOrder(x: Entry, y: Entry, z: Entry)
    requires StartsBefore(x, y) && StartsBefore(y, z) && !StartsBefore(y, x) && !StartsBefore(z, y)
    ensures ByStart([x, y, z]) == [x, y, z]
  {
    assert [x, y, z][1..] == [y, z] && [y, z][1..] == [z];
    assert ByStart([z]) == [z];
    assert ByStart([y, z]) == [y, z];
  }
}
