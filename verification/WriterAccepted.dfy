/** Everything the writer emits is accepted: by the tiling check, by the one pass over the
    index, by every seek, and by both front-to-back readers. */
module WriterAccepted {
  import opened Wrappers
  import opened Registry
  import opened Populations
  import opened Sorting
  import opened Times
  import opened Records
  import opened DecodedBudget
  import opened SequenceWriter
  import opened WriterLaws
  import opened Timeline
  import opened IndexedReader
  import opened ReadPaths

  /** The samples tile the timeline: from zero, never backwards, up to the duration. */
  predicate SamplesTile(job: Job) {
    && job.samples != [] && job.samples[0].t0 == 0.0
    && (forall i, j :: 0 <= i < j < |job.samples| ==> job.samples[i].t0 <= job.samples[j].t0)
    && (job.duration == PosInf || (job.duration.Finite? && job.samples[|job.samples| - 1].t0 <= job.duration.value))
  }

  /** Every sample's window indices name rows of the window table it is written with. */
  ghost predicate WindowsFit(job: Job)
    requires WellFormed(job)
  {
    forall i, id :: 0 <= i < |job.samples| && id in job.samples[i].population.ids ==>
      NamesWindow(Stated(job.samples[i].population, id, WINDOW_INDEX), job.windows)
  }

  // ---- the index ----

  lemma {:induction false} SortedStays<T>(xs: seq<T>, less: (T, T) -> bool)
    requires forall i, j :: 0 <= i < j < |xs| ==> !less(xs[j], xs[i])
    ensures StableSort(xs, less) == xs
  {
    if xs != [] {
      SortedStays(xs[1..], less);
      assert xs == [xs[0]] + xs[1..];
    }
  }

  lemma {:induction false} EntryTimes(job: Job, w: Written, i: nat)
    requires WellFormed(job) && FileWritten(job, w) && i < |job.samples|
    ensures w.index[i].t0 == Finite(job.samples[i].t0) && w.index[i].t1 == Ends(job, i)
    ensures w.index[i].extended && w.index[i].kind == (if IsKeyframe(i, job.kd) then 0 else 1)
  {
    assert SampleWritten(job, i, w.records, w.index, w.states);
    if !IsKeyframe(i, job.kd) { var g := GroupsOf(job, w, i); }
  }

  /** The index is written in timeline order, with strictly increasing offsets. */
  lemma {:induction false} IndexInOrder(job: Job, w: Written)
    requires WellFormed(job) && SamplesTile(job) && FileWritten(job, w)
    ensures ByStart(w.index) == w.index && ShapeLegal(w.index)
    ensures forall i, j :: 0 <= i < j < |w.index| ==> w.index[i].offset < w.index[j].offset
  {
    forall i, j | 0 <= i < j < |w.index|
      ensures !StartsBefore(w.index[j], w.index[i]) && w.index[i].offset < w.index[j].offset
    {
      EntryTimes(job, w, i);
      EntryTimes(job, w, j);
      WrittenInOrder(job, w, i, j);
    }
    forall i | 0 <= i < |w.index|
      ensures w.index[i].extended && w.index[i].kind <= 1
    {
      EntryTimes(job, w, i);
    }
    SortedStays(w.index, StartsBefore);
  }

  lemma {:induction false} EntryUsable(job: Job, w: Written, i: nat)
    requires WellFormed(job) && SamplesTile(job) && FileWritten(job, w) && i < |job.samples|
    ensures Usable(w.index, i, Some(job.duration))
    ensures i + 1 < |job.samples| ==> Equal(w.index[i].t1, w.index[i + 1].t0)
  {
    EntryTimes(job, w, i);
    if i + 1 < |job.samples| { EntryTimes(job, w, i + 1); }
  }

  /** And it tiles the timeline. */
  lemma {:induction false} IndexTiles(job: Job, w: Written)
    requires WellFormed(job) && SamplesTile(job) && FileWritten(job, w)
    ensures Tiles(ByStart(w.index), Some(job.duration))
  {
    IndexInOrder(job, w);
    var n := |w.index|;
    forall i | 0 <= i < n
      ensures Usable(w.index, i, Some(job.duration)) && (i + 1 < n ==> Equal(w.index[i].t1, w.index[i + 1].t0))
    {
      EntryUsable(job, w, i);
    }
    EntryTimes(job, w, 0);
    EntryTimes(job, w, n - 1);
  }

  /** In the index, as in the writer's plan, the group's head and the reference are where
      the mode says. */
  lemma {:induction false} KeyframeInIndex(job: Job, w: Written, i: nat)
    requires WellFormed(job) && FileWritten(job, w) && i < |job.samples|
    ensures KeyframeEntry(w.index, i + 1) == Some(KeyframeIndex(i, job.kd))
  {
    EntryTimes(job, w, i);
    if !IsKeyframe(i, job.kd) { KeyframeInIndex(job, w, i - 1); }
  }

  lemma {:induction false} DepthInIndex(job: Job, w: Written, i: nat)
    requires WellFormed(job) && FileWritten(job, w) && i < |job.samples|
    ensures w.index[i].depth == DepthOf(i, job.kd)
  {
    assert SampleWritten(job, i, w.records, w.index, w.states);
    if !IsKeyframe(i, job.kd) { var g := GroupsOf(job, w, i); }
  }

  /** What a delta's entry says, in terms of the entries before it. */
  lemma {:induction false} EntryOfDelta(job: Job, w: Written, i: nat)
    requires WellFormed(job) && FileWritten(job, w) && i < |job.samples| && !IsKeyframe(i, job.kd)
    ensures var e, k, key := w.index[i], ReferenceIndex(i, job.kd), KeyframeIndex(i, job.kd);
      e.kind == 1 && e.mode == job.kd.mode && e.reference == w.index[k].offset && e.keyframe == w.index[key].offset && e.depth == DepthOf(i, job.kd)
  {
    var g := GroupsOf(job, w, i);
  }

  lemma {:induction false} EntryOfKeyframe(job: Job, w: Written, i: nat)
    requires WellFormed(job) && FileWritten(job, w) && i < |job.samples| && IsKeyframe(i, job.kd)
    ensures var e := w.index[i]; e.kind == 0 && e.keyframe == e.offset && e.depth == 0 && e.mode == 0 && e.reference == 0
  {
    assert SampleWritten(job, i, w.records, w.index, w.states);
  }

  lemma {:induction false} SampleLinked(job: Job, w: Written, i: nat)
    requires WellFormed(job) && FileWritten(job, w) && i < |job.samples|
    ensures EntryLinked(w.index, i)
  {
    hide AllWritten, ValidRecords;
    if IsKeyframe(i, job.kd) {
      EntryOfKeyframe(job, w, i);
    } else {
      var k := ReferenceIndex(i, job.kd);
      EntryOfDelta(job, w, i);
      KeyframeInIndex(job, w, i - 1);
      WrittenInOrder(job, w, k, i);
      DepthInIndex(job, w, k);
      DepthOfReference(i, job.kd);
    }
  }

  lemma {:induction false} SampleLevel(job: Job, w: Written, i: nat)
    requires WellFormed(job) && FileWritten(job, w) && i < |job.samples|
    ensures LevelAt(Physical(w.records), w.index[i].offset) == 0
  {
    OffsetsOfSamples(job, w, i);
    assert SampleWritten(job, i, w.records, w.index, w.states);
    if !IsKeyframe(i, job.kd) { var g := GroupsOf(job, w, i); }
  }

  lemma {:induction false} SampleMatches(job: Job, w: Written, i: nat)
    requires WellFormed(job) && FileWritten(job, w) && i < |job.samples| && job.duration != NaN
    ensures RecordMatches(Physical(w.records), w.index[i]) && FieldsMatch(w.index[i], Physical(w.records)[w.index[i].offset].body)
    ensures w.index[i].live == |w.states[i].ids| && (w.index[i].kind == 0 ==> w.index[i].gaussians == w.index[i].live)
    ensures w.index[i].bands == []
  {
    OffsetsOfSamples(job, w, i);
    assert SampleWritten(job, i, w.records, w.index, w.states);
    if !IsKeyframe(i, job.kd) { var g := GroupsOf(job, w, i); }
  }

  lemma {:induction false} SampleDecodes(job: Job, w: Written, i: nat)
    requires WellFormed(job) && TargetsFit(job) && FileWritten(job, w) && i < |job.samples| && job.duration != NaN
    ensures EntryDecodes(Physical(w.records), job.grids.muStep, w.index[i])
  {
    RoundTrip(job, w, i);
    SampleMatches(job, w, i);
    OffsetsOfSamples(job, w, i);
    RowCount(w.states[i]);
    SampleLevel(job, w, i);
    if w.index[i].kind != 0 {
      EntryTimes(job, w, i);
      var g := GroupsOf(job, w, i);
      SampleLevel(job, w, ReferenceIndex(i, job.kd));
    }
  }

  lemma {:induction false} SampleWindows(job: Job, w: Written, i: nat)
    requires WellFormed(job) && TargetsFit(job) && WindowsFit(job) && FileWritten(job, w) && i < |job.samples|
    ensures ValidState(w.states[i]) && WindowsNamed(View(w.states[i]), job.windows)
  {
    RoundTrip(job, w, i);
    SampleSameGrids(job, i, w.records, w.index, w.states);
    SameWindows(w.states[i], job.samples[i].population, job.windows);
  }

  lemma {:induction false} SameWindows(q: Table, population: Table, windows: nat)
    requires ValidState(q) && SameGrids(q, population)
    requires forall id :: id in population.ids ==> NamesWindow(Stated(population, id, WINDOW_INDEX), windows)
    ensures WindowsNamed(View(q), windows)
  {
    forall id | id in View(q).rows
      ensures NamesWindow(Held(View(q), id, WINDOW_INDEX), windows)
    {
      HeldInView(q, IndexOf(q.ids, id), WINDOW_INDEX);
      assert Stated(q, id, WINDOW_INDEX) == Stated(population, id, WINDOW_INDEX);
    }
  }

  lemma {:induction false} SampleSound(job: Job, w: Written, i: nat)
    requires WellFormed(job) && TargetsFit(job) && WindowsFit(job) && FileWritten(job, w) && i < |job.samples| && job.duration != NaN
    ensures EntrySound(Physical(w.records), job.grids.muStep, job.windows, w.index, i)
  {
    SampleLinked(job, w, i);
    SampleDecodes(job, w, i);
    SampleWindows(job, w, i);
    RoundTrip(job, w, i);
    SampleMatches(job, w, i);
  }

  /** The validator's pass over the writer's index completes, and every entry of it seeks. */
  lemma {:induction false} IndexAccepted(job: Job, w: Written)
    requires WellFormed(job) && TargetsFit(job) && SamplesTile(job) && WindowsFit(job) && FileWritten(job, w)
    ensures DistinctOffsets(w.index) && ShapeLegal(w.index) && ByStart(w.index) == w.index
    ensures SoundTo(Physical(w.records), job.grids.muStep, job.windows, w.index, |w.index|)
    ensures forall i :: 0 <= i < |w.index| ==> SeekAccepts(Physical(w.records), job.grids.muStep, job.windows, w.index, w.index[i])
  {
    hide SeekAccepts, EntrySound;
    IndexInOrder(job, w);
    forall i | 0 <= i < |w.index|
      ensures EntrySound(Physical(w.records), job.grids.muStep, job.windows, w.index, i)
    {
      SampleSound(job, w, i);
    }
    forall i | 0 <= i < |w.index|
      ensures SeekAccepts(Physical(w.records), job.grids.muStep, job.windows, w.index, w.index[i])
    {
      OnePassImpliesSeeking(Physical(w.records), job.grids.muStep, job.windows, w.index, w.index[i]);
    }
  }

  /** A seek's chain starts at the keyframe the writer opened the group with, and is as
      long as the writer's depth says. */
  lemma {:induction false} ChainReachesKeyframe(job: Job, w: Written, i: nat)
    requires WellFormed(job) && TargetsFit(job) && SamplesTile(job) && WindowsFit(job) && FileWritten(job, w) && i < |job.samples|
    ensures ChainOf(w.index, w.index[i]).Some?
    ensures var chain := ChainOf(w.index, w.index[i]).value;
      chain[0] == w.index[KeyframeIndex(i, job.kd)] && |chain| == DepthOf(i, job.kd) + 1
  {
    hide SamplesTile, WindowsFit, SoundTo, SeekAccepts, TargetsFit, AllWritten;
    IndexAccepted(job, w);
    KeyframeInIndex(job, w, i);
    DepthInIndex(job, w, i);
    ChainOfSample(Physical(w.records), job.grids.muStep, job.windows, w.index, i);
  }

  lemma {:induction false} ChainOfSample(at: Layout, grid: MuGrid, windows: nat, index: seq<Entry>, i: nat)
    requires ValidLayout(at) && DistinctOffsets(index) && i < |index| && SoundTo(at, grid, windows, index, |index|)
    ensures ChainOf(index, index[i]).Some? && |ChainOf(index, index[i]).value| - 1 == index[i].depth
    ensures KeyframeEntry(index, i + 1).Some? && ChainOf(index, index[i]).value[0] == index[KeyframeEntry(index, i + 1).value]
  {
    SoundParts(at, grid, windows, index, |index|, i);
    ChainsAreSound(at, grid, windows, index, index, i);
  }
}
