/** The front-to-back readers on what the writer emits, and all the readers together. */
module WriterStreams {
  import opened Wrappers
  import opened Registry
  import opened Populations
  import opened Records
  import opened DecodedBudget
  import opened StreamedReader
  import opened StreamedScan
  import opened IndexedReader
  import opened SequenceWriter
  import opened WriterLaws
  import opened WriterAccepted

  /** What each part of the file holds: three records of front matter, the states, and a
      summary that is neither. */
  lemma {:induction false} Layouts(job: Job, w: Written, m: nat)
    requires WellFormed(job) && FileWritten(job, w) && m < |w.records|
    ensures m == 0 ==> w.records[m].body == Header(true, 0)
    ensures m == 1 ==> w.records[m].body == Quantization(job.grids.muStep)
    ensures m == 2 ==> w.records[m].body == WindowTable(job.windows)
    ensures FRONT <= m ==> (IsState(w.records[m]) <==> m < FRONT + |job.samples|)
    ensures FRONT + |job.samples| <= m ==> w.records[m].body.ChunkIndex? || w.records[m].body == Other(STATISTICS) || w.records[m].body == Other(FOOTER)
    ensures FRONT + |job.samples| <= m && w.records[m].body.ChunkIndex? ==> w.records[m].body.entry in w.index
  {
    if m < FRONT {
      assert w.records[m] == w.records[..FRONT][m] == FrontMatter(job)[m];
    } else if m < FRONT + |job.samples| {
      SampleIndexed(job, w, m - FRONT);
    } else {
      assert w.records[FRONT + |job.samples| + (m - FRONT - |job.samples|)].body == Summary(job, w.index)[m - FRONT - |job.samples|];
    }
  }

  lemma {:induction false} WriterPlaced(job: Job, w: Written, m: nat)
    requires WellFormed(job) && FileWritten(job, w) && m < |w.records|
    ensures IsPlaced(w.records, m)
  {
    hide AllWritten, ValidRecords;
    Layouts(job, w, m);
    if StateBefore(w.records, m) {
      var j :| 0 <= j < m && IsStateOpcode(Opcode(w.records[j].body));
      Layouts(job, w, j);
      if FRONT <= m < FRONT + |job.samples| { SampleIndexed(job, w, m - FRONT); }
    }
  }

  /** One grid, from the second record on. */
  lemma {:induction false} WriterGrid(job: Job, w: Written, m: nat)
    requires WellFormed(job) && FileWritten(job, w) && 2 <= m <= |w.records|
    ensures GridBefore(w.records, m) == Some(job.grids.muStep) && HeaderBefore(w.records, m)
  {
    Layouts(job, w, m - 1);
    Layouts(job, w, 0);
    if m > 2 { WriterGrid(job, w, m - 1); }
  }

  lemma {:induction false} StateDecodes(job: Job, w: Written, i: nat)
    requires WellFormed(job) && TargetsFit(job) && FileWritten(job, w) && i < |job.samples|
    ensures Decodes(w.records, FRONT + i) && StateAt(w.records, FRONT + i) == View(w.states[i])
  {
    hide AllWritten, Holds, Decodes, StateAt, TargetsFit;
    WriterGrid(job, w, FRONT + i);
    RoundTrip(job, w, i);
    SampleIndexed(job, w, i);
    HeldDecodes(w.records, job.grids.muStep, FRONT + i, w.states[i]);
  }

  lemma {:induction false} HeldDecodes(records: seq<Placed>, grid: MuGrid, k: nat, t: Table)
    requires ValidRecords(records) && k < |records| && GridAt(records, k) == grid
    requires Holds(Physical(records), grid, records[k].offset, t)
    ensures Decodes(records, k) && StateAt(records, k) == View(t)
  {
  }

  lemma {:induction false} WriterRecordSound(job: Job, w: Written, m: nat)
    requires WellFormed(job) && TargetsFit(job) && FileWritten(job, w) && m < |w.records|
    ensures RecordSound(w.records, m)
  {
    hide Decodes, AllWritten, TargetsFit, IsPlaced, ValidRecords;
    WriterPlaced(job, w, m);
    Layouts(job, w, m);
    if FRONT <= m < FRONT + |job.samples| {
      StateDecodes(job, w, m - FRONT);
      WriterGrid(job, w, m);
    }
  }

  lemma {:induction false} EntriesOfIndex(job: Job, w: Written, m: nat, e: Entry)
    requires WellFormed(job) && FileWritten(job, w) && m <= |w.records| && e in IndexEntries(w.records, m)
    ensures e in w.index
  {
    Layouts(job, w, m - 1);
    if FRONT <= m - 1 < FRONT + |job.samples| { SampleIndexed(job, w, m - 1 - FRONT); }
    if !(w.records[m - 1].body.ChunkIndex? && w.records[m - 1].body.entry == e) {
      EntriesOfIndex(job, w, m - 1, e);
    }
  }

  /** Both counts of an entry, as the writer states them. */
  lemma {:induction false} EntryStates(job: Job, w: Written, i: nat)
    requires WellFormed(job) && FileWritten(job, w) && i < |job.samples|
    ensures IsState(w.records[FRONT + i]) && w.index[i].live == |w.states[i].ids|
    ensures var e, b := w.index[i], w.records[FRONT + i].body;
      e.gaussians == if b.Chunk? then |w.states[i].ids| else b.head.updates + b.head.births + b.head.deaths
  {
    assert SampleWritten(job, i, w.records, w.index, w.states);
    if !IsKeyframe(i, job.kd) { var g := GroupsOf(job, w, i); }
  }

  lemma {:induction false} EntryCounts(job: Job, w: Written, i: nat)
    requires WellFormed(job) && TargetsFit(job) && FileWritten(job, w) && i < |job.samples|
    ensures IsState(w.records[FRONT + i]) && Decodes(w.records, FRONT + i) && CountsMatch(w.records, w.index[i], FRONT + i)
  {
    hide AllWritten, Decodes, TargetsFit;
    StateDecodes(job, w, i);
    RoundTrip(job, w, i);
    RowCount(w.states[i]);
    EntryStates(job, w, i);
  }

  /** An entry that names a state record's offset is that record's entry. */
  lemma {:induction false} EntryOfRecord(job: Job, w: Written, e: Entry, m: nat)
    requires WellFormed(job) && TargetsFit(job) && FileWritten(job, w) && e in w.index
    requires m < |w.records| && IsState(w.records[m]) && e.offset == w.records[m].offset
    ensures Decodes(w.records, m) && CountsMatch(w.records, e, m)
  {
    var j :| 0 <= j < |w.index| && w.index[j] == e;
    SampleIndexed(job, w, j);
    if m < FRONT + j { OffsetsIncrease(w.records, m, FRONT + j); }
    if FRONT + j < m { OffsetsIncrease(w.records, FRONT + j, m); }
    assert m == FRONT + j;
    EntryCounts(job, w, j);
  }

  /** The collecting reader accepts the file, whatever its budget then allows. */
  lemma {:induction false} WriterIsSound(job: Job, w: Written)
    requires WellFormed(job) && TargetsFit(job) && FileWritten(job, w)
    ensures Sound(w.records, false)
  {
    WriterGrid(job, w, |w.records|);
    forall m | 0 <= m < |w.records|
      ensures RecordSound(w.records, m)
    {
      WriterRecordSound(job, w, m);
    }
    forall e, m | e in IndexEntries(w.records, |w.records|) && 0 <= m < |w.records|
      ensures EntryFits(w.records, e, m)
    {
      EntriesOfIndex(job, w, |w.records|, e);
      if IsState(w.records[m]) && e.offset == w.records[m].offset { EntryOfRecord(job, w, e, m); }
    }
  }

  // ---- the incremental reader ----

  lemma {:induction false} NoBands(job: Job, w: Written, m: nat)
    requires WellFormed(job) && FileWritten(job, w) && m <= |w.records|
    ensures BandRun(w.records, m) == [] && (m > 0 ==> DegreeBefore(w.records, m, None) == Some(0))
    ensures RunComplete(w.records, m, None)
  {
    hide AllWritten, ValidRecords, WellFormed;
    if m > 0 {
      Layouts(job, w, m - 1);
      NoBands(job, w, m - 1);
    }
  }

  lemma {:induction false} HeadOfGroup(job: Job, w: Written, i: nat)
    requires WellFormed(job) && FileWritten(job, w) && i < |job.samples|
    ensures KeyframeBefore(w.records, FRONT + i + 1) == Some(FRONT + KeyframeIndex(i, job.kd))
  {
    hide ValidRecords;
    assert SampleWritten(job, i, w.records, w.index, w.states);
    if !IsKeyframe(i, job.kd) {
      var g := GroupsOf(job, w, i);
      HeadOfGroup(job, w, i - 1);
    }
  }

  lemma {:induction false} RecordDepth(job: Job, w: Written, i: nat)
    requires WellFormed(job) && FileWritten(job, w) && i < |job.samples|
    ensures IsState(w.records[FRONT + i]) && Depth(w.records[FRONT + i].body) == DepthOf(i, job.kd) && Level(w.records[FRONT + i].body) == 0
  {
    assert SampleWritten(job, i, w.records, w.index, w.states);
    if !IsKeyframe(i, job.kd) { var g := GroupsOf(job, w, i); }
  }

  /** A delta's head says what the writer's plan says. */
  lemma {:induction false} DeltaHeadOf(job: Job, w: Written, i: nat)
    requires WellFormed(job) && FileWritten(job, w) && i < |job.samples| && !IsKeyframe(i, job.kd)
    ensures w.records[FRONT + i].body.DeltaChunk?
    ensures var head, k, key := w.records[FRONT + i].body.head, ReferenceIndex(i, job.kd), KeyframeIndex(i, job.kd);
      && head.mode == job.kd.mode && head.level == 0 && head.depth == DepthOf(i, job.kd)
      && head.reference == w.index[k].offset && head.keyframe == w.index[key].offset
  {
    var g := GroupsOf(job, w, i);
  }

  /** The record a delta's mode names is its reference's. */
  lemma {:induction false} ReferenceRecord(job: Job, w: Written, i: nat)
    requires WellFormed(job) && FileWritten(job, w) && i < |job.samples| && !IsKeyframe(i, job.kd)
    ensures w.records[FRONT + i].body.DeltaChunk?
    ensures ModeReference(w.records, FRONT + i) == Some(FRONT + ReferenceIndex(i, job.kd))
    ensures KeyframeBefore(w.records, FRONT + i) == Some(FRONT + KeyframeIndex(i, job.kd))
  {
    hide AllWritten, ValidRecords;
    DeltaHeadOf(job, w, i);
    HeadOfGroup(job, w, i - 1);
    SampleIndexed(job, w, i - 1);
  }

  lemma {:induction false} DeltaIsLinked(job: Job, w: Written, i: nat)
    requires WellFormed(job) && FileWritten(job, w) && i < |job.samples| && !IsKeyframe(i, job.kd)
    ensures w.records[FRONT + i].body.DeltaChunk? && DeltaLinked(w.records, FRONT + i)
  {
    hide AllWritten, ValidRecords;
    var k, key := ReferenceIndex(i, job.kd), KeyframeIndex(i, job.kd);
    DeltaHeadOf(job, w, i);
    ReferenceRecord(job, w, i);
    SampleIndexed(job, w, k);
    SampleIndexed(job, w, key);
    SampleIndexed(job, w, i);
    WrittenInOrder(job, w, k, i);
    RecordDepth(job, w, k);
    DepthOfReference(i, job.kd);
  }

  lemma {:induction false} StateScanSound(job: Job, w: Written, i: nat)
    requires WellFormed(job) && TargetsFit(job) && FileWritten(job, w) && i < |job.samples|
    ensures ScanSound(w.records, FRONT + i, None)
  {
    hide Decodes, StateAt, IsPlaced, RunComplete, DeltaLinked, AllWritten, ValidRecords;
    WriterPlaced(job, w, FRONT + i);
    NoBands(job, w, FRONT + i);
    StateDecodes(job, w, i);
    WriterGrid(job, w, FRONT + i);
    if IsKeyframe(i, job.kd) {
      KeyframeRecord(job, w, i);
    } else {
      DeltaIsLinked(job, w, i);
    }
  }

  lemma {:induction false} KeyframeRecord(job: Job, w: Written, i: nat)
    requires WellFormed(job) && FileWritten(job, w) && i < |job.samples| && IsKeyframe(i, job.kd)
    ensures w.records[FRONT + i].body.Chunk?
  {
    assert SampleWritten(job, i, w.records, w.index, w.states);
  }

  lemma {:induction false} OtherScanSound(job: Job, w: Written, m: nat)
    requires WellFormed(job) && FileWritten(job, w) && m < |w.records| && !(FRONT <= m < FRONT + |job.samples|)
    ensures ScanSound(w.records, m, None)
  {
    WriterPlaced(job, w, m);
    NoBands(job, w, m);
    Layouts(job, w, m);
  }

  /** The incremental reader accepts the file. */
  lemma {:induction false} WriterScans(job: Job, w: Written)
    requires WellFormed(job) && TargetsFit(job) && FileWritten(job, w)
    ensures ScanAccepts(w.records, false, None)
  {
    NoBands(job, w, |w.records|);
    forall m | 0 <= m < |w.records|
      ensures ScanSound(w.records, m, None)
    {
      if FRONT <= m < FRONT + |job.samples| { StateScanSound(job, w, m - FRONT); } else { OtherScanSound(job, w, m); }
    }
  }

  // ---- every reader together ----

  function StatesBefore(n: nat, m: nat): nat {
    if m <= FRONT then 0 else if m - FRONT <= n then m - FRONT else n
  }

  /** Where the states are `n` records in a row after the front matter, these are their positions. */
  lemma {:induction false} PositionsAfterFront(records: seq<Placed>, n: nat, m: nat)
    requires m <= |records| && forall j :: 0 <= j < m ==> (IsState(records[j]) <==> FRONT <= j < FRONT + n)
    ensures |StatePositions(records, m)| == StatesBefore(n, m)
    ensures forall i :: 0 <= i < StatesBefore(n, m) ==> StatePositions(records, m)[i] == FRONT + i
  {
    if m > 0 { PositionsAfterFront(records, n, m - 1); }
  }

  /** The state records are the samples, in order. */
  lemma {:induction false} PositionsOfSamples(job: Job, w: Written)
    requires WellFormed(job) && FileWritten(job, w)
    ensures |StatePositions(w.records, |w.records|)| == |job.samples|
    ensures forall i :: 0 <= i < |job.samples| ==> StatePositions(w.records, |w.records|)[i] == FRONT + i
  {
    hide StatePositions, AllWritten, ValidRecords;
    forall j | 0 <= j < |w.records|
      ensures IsState(w.records[j]) <==> FRONT <= j < FRONT + |job.samples|
    {
      Layouts(job, w, j);
    }
    PositionsAfterFront(w.records, |job.samples|, |w.records|);
  }

  lemma {:induction false} YieldedIsRetained(job: Job, w: Written, out: seq<Yielded>)
    requires WellFormed(job) && TargetsFit(job) && FileWritten(job, w) && YieldedAll(w.records, |w.records|, out)
    ensures |out| == |w.states| && forall i :: 0 <= i < |out| ==> View(out[i].state) == View(w.states[i])
  {
    PositionsOfSamples(job, w);
    forall i | 0 <= i < |out|
      ensures View(out[i].state) == View(w.states[i])
    {
      assert YieldsRecord(w.records, FRONT + i, out[i]);
      StateDecodes(job, w, i);
    }
  }

  lemma {:induction false} ListedIsRetained(job: Job, w: Written, out: seq<ChunkInfo>)
    requires WellFormed(job) && TargetsFit(job) && FileWritten(job, w) && Listed(w.records, |w.records|, out)
    ensures |out| == |w.states| && forall i :: 0 <= i < |out| ==> View(out[i].state) == View(w.states[i])
  {
    PositionsOfSamples(job, w);
    forall i | 0 <= i < |out|
      ensures View(out[i].state) == View(w.states[i])
    {
      SampleIndexed(job, w, i);
      assert Describes(w.records, out[i], FRONT + i);
      StateDecodes(job, w, i);
    }
  }

  lemma {:induction false} HandedOutIsRetained(job: Job, w: Written, out: seq<Table>)
    requires WellFormed(job) && TargetsFit(job) && FileWritten(job, w)
    requires HandedOut(Physical(w.records), job.grids.muStep, w.index, |w.index|, out)
    ensures |out| == |w.states| && forall i :: 0 <= i < |out| ==> View(out[i]) == View(w.states[i])
  {
    hide AllWritten, ValidRecords;
    forall i | 0 <= i < |out|
      ensures View(out[i]) == View(w.states[i])
    {
      RoundTrip(job, w, i);
    }
  }

  ghost predicate Fitting(job: Job)
    requires WellFormed(job)
  {
    TargetsFit(job) && SamplesTile(job) && WindowsFit(job)
  }

  /** Each path's populations are those the writer retained. */
  ghost predicate ReturnsRetained(job: Job, w: Written, pass: Result<seq<Table>, ReadError>, seeks: seq<Result<Table, ReadError>>) {
    && pass.Success? && |pass.value| == |seeks| == |w.states| == |job.samples|
    && forall i :: 0 <= i < |w.states| ==> seeks[i].Success? && View(seeks[i].value) == View(pass.value[i]) == View(w.states[i])
  }

  lemma {:induction false} SeekAcceptsSample(job: Job, w: Written, i: nat)
    requires WellFormed(job) && FileWritten(job, w) && Fitting(job) && i < |w.index|
    ensures SeekAccepts(Physical(w.records), job.grids.muStep, job.windows, w.index, w.index[i])
    ensures Composed(Physical(w.records), job.grids.muStep, w.index[i].offset) == Some(View(w.states[i]))
  {
    IndexAccepted(job, w);
    RoundTrip(job, w, i);
  }

  method SeekSample(job: Job, w: Written, i: nat) returns (seek: Result<Table, ReadError>)
    requires WellFormed(job) && FileWritten(job, w) && i < |w.index|
    ensures Fitting(job) ==> seek.Success? && View(seek.value) == View(w.states[i])
  {
    hide AllWritten, ValidRecords, ValidLayout, SeekAccepts;
    PhysicalIsValid(w.records);
    seek := ComposeChain(Physical(w.records), job.grids.muStep, job.windows, w.index, w.index[i]);
    if Fitting(job) { SeekAcceptsSample(job, w, i); }
  }

  method PassWritten(job: Job, w: Written) returns (pass: Result<seq<Table>, ReadError>)
    requires WellFormed(job) && FileWritten(job, w)
    ensures Fitting(job) ==> pass.Success? && |pass.value| == |w.states| && forall i :: 0 <= i < |w.states| ==> View(pass.value[i]) == View(w.states[i])
  {
    pass := ScanIndexed(Physical(w.records), job.grids.muStep, job.windows, w.index);
    if Fitting(job) {
      IndexAccepted(job, w);
      HandedOutIsRetained(job, w, pass.value);
    }
  }

  method SeekWritten(job: Job, w: Written) returns (pass: Result<seq<Table>, ReadError>, seeks: seq<Result<Table, ReadError>>)
    requires WellFormed(job) && FileWritten(job, w)
    ensures Fitting(job) ==> ReturnsRetained(job, w, pass, seeks)
  {
    hide Fitting, AllWritten, ValidRecords, View;
    pass := PassWritten(job, w);
    seeks := [];
    for i := 0 to |w.index|
      invariant |seeks| == i
      invariant Fitting(job) ==> forall j :: 0 <= j < i ==> seeks[j].Success? && View(seeks[j].value) == View(w.states[j])
    {
      var seek := SeekSample(job, w, i);
      seeks := seeks + [seek];
    }
  }

  /** Write a sequence that fits the format, and read it back along the two paths that use
      the index: both succeed on every chunk, and hand out what the writer retained. */
  method WriteAndSeek(job: Job) returns (r: Result<Written, WriteError>, pass: Result<seq<Table>, ReadError>, seeks: seq<Result<Table, ReadError>>)
    requires WellFormed(job)
    ensures r.Success? <==> job.samples != [] && Writable(job)
    ensures r.Success? && Fitting(job) ==> ReturnsRetained(job, r.value, pass, seeks)
  {
    r := WriteSequence(job);
    pass, seeks := Failure(TruncatedFile), [];
    if r.Success? { pass, seeks := SeekWritten(job, r.value); }
  }

  /** And front to back: the incremental reader always finishes, the collecting reader
      exactly when its budget affords the states, and both hand out what was retained. */
  method WriteAndStream(job: Job, limit: nat)
    returns (r: Result<Written, WriteError>, scan: Result<seq<Yielded>, ReadError>, collect: Result<seq<ChunkInfo>, ReadError>)
    requires WellFormed(job) && limit > 0
    ensures r.Success? <==> job.samples != [] && Writable(job)
    ensures r.Success? && TargetsFit(job) ==>
      && scan.Success? && |scan.value| == |r.value.states| == |job.samples|
      && forall i :: 0 <= i < |job.samples| ==> View(scan.value[i].state) == View(r.value.states[i])
    ensures r.Success? && TargetsFit(job) ==> FileWritten(job, r.value) && (collect.Success? <==> Affordable(r.value.records, limit))
    ensures r.Success? && TargetsFit(job) && collect.Success? ==>
      && |collect.value| == |job.samples|
      && forall i :: 0 <= i < |job.samples| ==> View(collect.value[i].state) == View(r.value.states[i])
  {
    r := WriteSequence(job);
    scan, collect := Failure(TruncatedFile), Failure(TruncatedFile);
    if r.Failure? { return; }
    var w := r.value;
    scan := ScanStreamed(w.records, false, None);
    var bytes;
    collect, bytes := DecodeStreamed(w.records, false, limit);
    if TargetsFit(job) {
      WriterScans(job, w);
      WriterIsSound(job, w);
      YieldedIsRetained(job, w, scan.value);
      if collect.Success? { ListedIsRetained(job, w, collect.value); }
    }
  }
}
