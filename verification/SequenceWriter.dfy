/** The reference writer: a sequence of samples becomes keyframes and deltas, each written
    at the cursor, with the index built as it goes. */
module SequenceWriter {
  import opened Wrappers
  import opened Registry
  import opened Populations
  import opened Times
  import opened Records
  import opened Trajectories
  import opened DeltaGroups
  import opened WireDeltas

  /** One population at one instant, already on the sequence's grids. */
  datatype Sample = Sample(t0: real, population: Table)

  /** Cadence and mode. */
  datatype Options = Options(every: nat, mode: nat, forced: seq<nat>, index: bool, statistics: bool)

  /** What encoding decides and this model does not: how long each record comes out. */
  datatype Sizes = Sizes(record: Body -> nat, streams: Table -> nat)

  /** Everything one file is written from; `windows` is the length of its window table. */
  datatype Job = Job(samples: seq<Sample>, duration: Time, grids: Grids, windows: nat, kd: Options, sizes: Sizes)

  datatype Written = Written(records: seq<Placed>, index: seq<Entry>, states: seq<Table>)

  datatype WriteError = NoSamples | GridsChangeInGroup | DepthTooLarge

  const MAX_DEPTH: nat := 0xFFFF
  const STATISTICS: nat := 0x0C
  const FRONT: nat := 3

  ghost predicate WellFormed(job: Job) {
    && ValidGrids(job.grids)
    && (job.kd.mode == KEYFRAME_MODE || job.kd.mode == CHAINED_MODE)
    && (forall b :: job.sizes.record(b) >= 9)
    && forall i :: 0 <= i < |job.samples| ==> Complete(job.samples[i].population) && Unique(job.samples[i].population.ids)
  }

  // ---- where keyframes fall ----

  predicate IsKeyframe(i: nat, kd: Options) {
    i == 0 || i in kd.forced || (kd.every > 0 && i % kd.every == 0)
  }

  /** The keyframe at the head of sample `i`'s group. */
  function KeyframeIndex(i: nat, kd: Options): (k: nat)
    ensures k <= i && IsKeyframe(k, kd)
    ensures forall j :: k < j <= i ==> !IsKeyframe(j, kd)
  {
    if IsKeyframe(i, kd) then i else KeyframeIndex(i - 1, kd)
  }

  /** The sample a delta is written over. */
  function ReferenceIndex(i: nat, kd: Options): (k: nat)
    requires !IsKeyframe(i, kd)
    ensures k < i
  {
    if kd.mode == KEYFRAME_MODE then KeyframeIndex(i, kd) else i - 1
  }

  function DepthOf(i: nat, kd: Options): nat {
    if IsKeyframe(i, kd) then 0 else if kd.mode == KEYFRAME_MODE then 1 else DepthOf(i - 1, kd) + 1
  }

  lemma {:induction false} DepthOfReference(i: nat, kd: Options)
    requires !IsKeyframe(i, kd)
    ensures DepthOf(i, kd) == DepthOf(ReferenceIndex(i, kd), kd) + 1
    ensures KeyframeIndex(ReferenceIndex(i, kd), kd) == KeyframeIndex(i, kd)
  {
  }

  // ---- what each sample becomes ----

  /** Sample `i`, its trajectories restated at its own instant. */
  function Target(job: Job, i: nat): (t: Table)
    requires ValidGrids(job.grids) && i < |job.samples| && Complete(job.samples[i].population)
    ensures Complete(t) && t.ids == job.samples[i].population.ids
  {
    Reanchor(job.grids, job.samples[i].population, job.samples[i].t0)
  }

  function Ends(job: Job, i: nat): Time
    requires i < |job.samples|
  {
    if i + 1 < |job.samples| then Finite(job.samples[i + 1].t0) else job.duration
  }

  /** A state record and its index entry state the same chunk at the same place. */
  predicate Indexes(e: Entry, r: Placed, q: Table) {
    e.offset == r.offset && e.length == r.length && e.extended && e.bands == [] && e.live == |q.ids|
  }

  /** Sample `i` written outright. */
  ghost predicate KeyframeWritten(job: Job, i: nat, r: Placed, e: Entry, q: Table)
    requires WellFormed(job) && i < |job.samples|
  {
    var t0, t1 := Finite(job.samples[i].t0), Ends(job, i);
    && q == Target(job, i) && Indexes(e, r, q)
    && r.body.Chunk? && r.body == Chunk(t0, t1, 0, |q.ids|, r.body.bodyBytes, Some(q))
    && e == Entry(t0, t1, r.offset, r.length, |q.ids|, [], true, 0, 0, 0, r.offset, 0, |q.ids|)
  }

  /** Sample `i` written as differences from the state `over`, at `reference`. */
  ghost predicate DeltaWritten(job: Job, i: nat, r: Placed, e: Entry, q: Table, over: Table, reference: nat, keyframe: nat, g: Groups)
    requires WellFormed(job) && i < |job.samples|
  {
    var t0, t1 := Finite(job.samples[i].t0), Ends(job, i);
    var wire, depth := EncodedGroups(g), DepthOf(i, job.kd);
    var head := DeltaHead(t0, t1, 0, job.kd.mode, reference, keyframe, depth, |g.updates.ids|, |g.births.ids|, |g.deaths.ids|);
    && Complete(over) && Unique(over.ids)
    && Wires(over, Reanchor(job.grids, over, job.samples[i].t0), Target(job, i), g)
    && InvariantsKept(Reanchor(job.grids, over, job.samples[i].t0), Target(job, i))
    && Retains(over, Target(job, i), g.updates.ids, q) && Indexes(e, r, q)
    && r.body.DeltaChunk? && r.body == DeltaChunk(head, r.body.bodyBytes, Some(wire)) && depth <= MAX_DEPTH
    && e == Entry(t0, t1, r.offset, r.length, |g.updates.ids| + |g.births.ids| + |g.deaths.ids|, [], true,
                  1, job.kd.mode, reference, keyframe, depth, |q.ids|)
  }

  ghost predicate WrittenOver(job: Job, i: nat, r: Placed, e: Entry, q: Table, over: Table, reference: nat, keyframe: nat)
    requires WellFormed(job) && i < |job.samples|
  {
    exists g :: DeltaWritten(job, i, r, e, q, over, reference, keyframe, g)
  }

  /** Sample `i` is written, over what was retained for its reference. */
  ghost predicate SampleWritten(job: Job, i: nat, records: seq<Placed>, index: seq<Entry>, states: seq<Table>)
    requires WellFormed(job) && i < |job.samples| && i < |index| && i < |states| && FRONT + i < |records|
  {
    if IsKeyframe(i, job.kd) then KeyframeWritten(job, i, records[FRONT + i], index[i], states[i])
    else
      var k, key := ReferenceIndex(i, job.kd), KeyframeIndex(i, job.kd);
      WrittenOver(job, i, records[FRONT + i], index[i], states[i], states[k], index[k].offset, index[key].offset)
  }

  ghost predicate AllWritten(job: Job, n: nat, records: seq<Placed>, index: seq<Entry>, states: seq<Table>)
    requires WellFormed(job)
  {
    && n <= |job.samples| && n <= |index| && n <= |states| && FRONT + n <= |records|
    && forall i :: 0 <= i < n ==> SampleWritten(job, i, records, index, states)
  }

  // ---- the cursor ----

  /** The next byte to be written. */
  function Cursor(records: seq<Placed>): nat {
    if records == [] then 8 else records[|records| - 1].offset + records[|records| - 1].length
  }

  function Emit(job: Job, records: seq<Placed>, b: Body): (r: seq<Placed>)
    ensures |r| == |records| + 1 && r[..|records|] == records
    ensures r[|records|].offset == Cursor(records) && r[|records|].body == b
  {
    records + [Placed(Cursor(records), job.sizes.record(b), b)]
  }

  lemma {:induction false} EmitIsValid(job: Job, records: seq<Placed>, b: Body)
    requires WellFormed(job) && ValidRecords(records) && ShapedBody(b)
    ensures ValidRecords(Emit(job, records, b))
  {
  }

  function FrontMatter(job: Job): seq<Placed> {
    Emit(job, Emit(job, Emit(job, [], Header(true, 0)), Quantization(job.grids.muStep)), WindowTable(job.windows))
  }

  // ---- writing ----

  /** The keyframe record of sample `i`, and its entry. */
  method WriteKeyframe(job: Job, i: nat, records: seq<Placed>, q: Table) returns (grown: seq<Placed>, entry: Entry)
    requires WellFormed(job) && i < |job.samples| && ValidRecords(records)
    requires q == Target(job, i)
    ensures |grown| == |records| + 1 && grown == Emit(job, records, grown[|records|].body) && ValidRecords(grown)
    ensures KeyframeWritten(job, i, grown[|records|], entry, q)
  {
    var t0, t1, n := Finite(job.samples[i].t0), Ends(job, i), |q.ids|;
    var b := Chunk(t0, t1, 0, n, job.sizes.streams(q), Some(q));
    grown := Emit(job, records, b);
    EmitIsValid(job, records, b);
    var r := grown[|records|];
    entry := Entry(t0, t1, r.offset, r.length, n, [], true, 0, 0, 0, r.offset, 0, n);
  }

  /** The groups of sample `i` over a retained state, and what is retained after them. */
  method Difference(job: Job, i: nat, over: Table) returns (r: Option<Groups>, q: Table)
    requires WellFormed(job) && i < |job.samples| && Complete(over) && Unique(over.ids)
    ensures r.Some? <==> InvariantsKept(Reanchor(job.grids, over, job.samples[i].t0), Target(job, i))
    ensures r.Some? ==> Wires(over, Reanchor(job.grids, over, job.samples[i].t0), Target(job, i), r.value)
    ensures r.Some? ==> Retains(over, Target(job, i), r.value.updates.ids, q)
  {
    var target := Target(job, i);
    var comparison := Reanchor(job.grids, over, job.samples[i].t0);
    var split := Split(comparison, target);
    if split.None? { return None, target; }
    var wire := AnchorToState(over, comparison, target, split.value);
    q := Retain(over, target, wire.updates.ids);
    return Some(wire), q;
  }

  /** The delta record of sample `i` and its entry, once its groups are known. */
  method PlaceDelta(job: Job, i: nat, records: seq<Placed>, over: Table, reference: nat, keyframe: nat, depth: nat, g: Groups, q: Table)
    returns (grown: seq<Placed>, entry: Entry)
    requires WellFormed(job) && i < |job.samples| && ValidRecords(records) && Complete(over) && Unique(over.ids)
    requires depth == DepthOf(i, job.kd) <= MAX_DEPTH
    requires InvariantsKept(Reanchor(job.grids, over, job.samples[i].t0), Target(job, i))
    requires Wires(over, Reanchor(job.grids, over, job.samples[i].t0), Target(job, i), g) && Retains(over, Target(job, i), g.updates.ids, q)
    ensures |grown| == |records| + 1 && grown == Emit(job, records, grown[|records|].body) && ValidRecords(grown)
    ensures DeltaWritten(job, i, grown[|records|], entry, q, over, reference, keyframe, g)
  {
    hide ValidRecords, InvariantsKept, Retains, Reanchor, DepthOf;
    var t0, t1, wire := Finite(job.samples[i].t0), Ends(job, i), EncodedGroups(g);
    var bytes := job.sizes.streams(wire.updates) + job.sizes.streams(wire.births) + job.sizes.streams(wire.deaths);
    var head := DeltaHead(t0, t1, 0, job.kd.mode, reference, keyframe, depth, |g.updates.ids|, |g.births.ids|, |g.deaths.ids|);
    var b := DeltaChunk(head, bytes, Some(wire));
    grown := Emit(job, records, b);
    EmitIsValid(job, records, b);
    var placed := grown[|records|];
    entry := Entry(t0, t1, placed.offset, placed.length, |g.updates.ids| + |g.births.ids| + |g.deaths.ids|, [], true,
                   1, job.kd.mode, reference, keyframe, depth, |q.ids|);
  }

  /** Sample `i` as a delta: its record, its entry, and what is retained for it. */
  method WriteDelta(job: Job, i: nat, records: seq<Placed>, over: Table, reference: nat, keyframe: nat, depth: nat)
    returns (r: Result<(seq<Placed>, Entry, Table), WriteError>)
    requires WellFormed(job) && i < |job.samples| && ValidRecords(records) && Complete(over) && Unique(over.ids)
    requires depth == DepthOf(i, job.kd)
    ensures r.Success? <==> InvariantsKept(Reanchor(job.grids, over, job.samples[i].t0), Target(job, i)) && depth <= MAX_DEPTH
    ensures r.Success? ==> var grown := r.value.0;
      && |grown| == |records| + 1 && grown == Emit(job, records, grown[|records|].body) && ValidRecords(grown)
      && WrittenOver(job, i, grown[|records|], r.value.1, r.value.2, over, reference, keyframe)
  {
    var groups, q := Difference(job, i, over);
    if groups.None? { return Failure(GridsChangeInGroup); }
    if depth > MAX_DEPTH { return Failure(DepthTooLarge); }
    var grown, entry := PlaceDelta(job, i, records, over, reference, keyframe, depth, groups.value, q);
    return Success((grown, entry, q));
  }

  // ---- the whole file ----

  /** Every sample keeps its grids where it is written as differences, and no chain is
      longer than its 16-bit field. */
  ghost predicate Writable(job: Job)
    requires WellFormed(job)
  {
    WritableTo(job, |job.samples|)
  }

  ghost predicate WritableTo(job: Job, n: nat)
    requires WellFormed(job) && n <= |job.samples|
  {
    forall i :: 0 <= i < n && !IsKeyframe(i, job.kd) ==> DeltaWritable(job, i)
  }

  ghost predicate DeltaWritable(job: Job, i: nat)
    requires WellFormed(job) && i < |job.samples| && !IsKeyframe(i, job.kd)
  {
    && InvariantsKept(job.samples[ReferenceIndex(i, job.kd)].population, job.samples[i].population)
    && DepthOf(i, job.kd) <= MAX_DEPTH
  }

  /** Retaining a population never touches what its grids derive from. */
  ghost predicate SameGrids(q: Table, population: Table) {
    && q.ids == population.ids && Complete(q)
    && forall id, a :: id in q.ids && a in REQUIRED && IsGopInvariant(a) ==> Stated(q, id, a) == Stated(population, id, a)
  }

  lemma {:induction false} TargetSameGrids(job: Job, i: nat)
    requires WellFormed(job) && i < |job.samples|
    ensures SameGrids(Target(job, i), job.samples[i].population)
  {
  }

  lemma {:induction false} SampleSameGrids(job: Job, i: nat, records: seq<Placed>, index: seq<Entry>, states: seq<Table>)
    requires WellFormed(job) && i < |job.samples| && i < |index| && i < |states| && FRONT + i < |records|
    requires SampleWritten(job, i, records, index, states)
    ensures SameGrids(states[i], job.samples[i].population)
  {
    TargetSameGrids(job, i);
    if !IsKeyframe(i, job.kd) {
      var k, key := ReferenceIndex(i, job.kd), KeyframeIndex(i, job.kd);
      var g :| DeltaWritten(job, i, records[FRONT + i], index[i], states[i], states[k], index[k].offset, index[key].offset, g);
      RetainedSameGrids(states[k], Target(job, i), g.updates.ids, states[i], job.samples[i].population);
    }
  }

  lemma {:induction false} RetainedSameGrids(over: Table, target: Table, updates: seq<int>, q: Table, population: Table)
    requires Retains(over, target, updates, q) && SameGrids(target, population)
    ensures SameGrids(q, population)
  {
    forall id, a | id in q.ids && a in REQUIRED && IsGopInvariant(a)
      ensures Stated(q, id, a) == Stated(population, id, a)
    {
      assert Stated(q, id, a) == RetainedRow(over, target, updates, id, a);
    }
  }

  lemma {:induction false} SameCheck(job: Job, i: nat, k: nat, over: Table)
    requires WellFormed(job) && i < |job.samples| && k < |job.samples| && SameGrids(over, job.samples[k].population)
    ensures InvariantsKept(Reanchor(job.grids, over, job.samples[i].t0), Target(job, i)) <==>
            InvariantsKept(job.samples[k].population, job.samples[i].population)
  {
    TargetSameGrids(job, i);
    var c := Reanchor(job.grids, over, job.samples[i].t0);
    assert forall id, a :: id in c.ids && a in REQUIRED && IsGopInvariant(a) ==> Stated(c, id, a) == Stated(over, id, a);
  }

  /** Every sample restated at its own instant, keyframes' birth times once more. */
  method Quantized(job: Job) returns (states: seq<Table>)
    requires WellFormed(job)
    ensures |states| == |job.samples| && forall i :: 0 <= i < |states| ==> states[i] == Target(job, i)
  {
    states := [];
    for i := 0 to |job.samples|
      invariant |states| == i && forall j :: 0 <= j < i ==> states[j] == Target(job, j)
    {
      states := states + [Reanchor(job.grids, job.samples[i].population, job.samples[i].t0)];
    }
    for i := 0 to |states|
      invariant |states| == |job.samples| && forall j :: 0 <= j < |states| ==> states[j] == Target(job, j)
    {
      if IsKeyframe(i, job.kd) && states[i].ids != [] {
        var t := states[i];
        KeyframeMuIsReanchored(job.grids, job.samples[i].population, job.samples[i].t0);
        states := states[i := t.(bins := t.bins[MU_T := KeyframeMu(job.grids, t, job.samples[i].t0)])];
      }
    }
  }

  /** What the state loop holds before sample `i`. */
  ghost predicate Writing(job: Job, i: nat, records: seq<Placed>, index: seq<Entry>, states: seq<Table>)
    requires WellFormed(job)
  {
    && i <= |job.samples| == |states| && |index| == i && |records| == FRONT + i && ValidRecords(records)
    && records[..FRONT] == FrontMatter(job)
    && AllWritten(job, i, records, index, states)
    && forall j :: i <= j < |states| ==> states[j] == Target(job, j)
  }

  lemma {:induction false} WroteOne(job: Job, i: nat, records: seq<Placed>, index: seq<Entry>, states: seq<Table>, r: Placed, e: Entry, q: Table)
    requires WellFormed(job) && i < |job.samples| && Writing(job, i, records, index, states) && ValidRecords(records + [r])
    requires SampleWritten(job, i, records + [r], index + [e], states[i := q])
    ensures Writing(job, i + 1, records + [r], index + [e], states[i := q])
  {
    hide WellFormed, ValidRecords, KeyframeWritten, WrittenOver, FrontMatter;
    var grown, entries, retained := records + [r], index + [e], states[i := q];
    forall j | 0 <= j < i
      ensures SampleWritten(job, j, grown, entries, retained)
    {
      assert SampleWritten(job, j, records, index, states);
    }
  }

  /** The writer's own bookkeeping: where the group began, and how deep each sample is. */
  ghost predicate Booked(job: Job, i: nat, index: seq<Entry>, keyframe: nat) {
    && |index| == i && (i > 0 ==> keyframe == index[KeyframeIndex(i - 1, job.kd)].offset)
    && forall j :: 0 <= j < i ==> index[j].depth == DepthOf(j, job.kd)
  }

  method StepKeyframe(job: Job, i: nat, records: seq<Placed>, index: seq<Entry>, states: seq<Table>, keyframe: nat)
    returns (grown: seq<Placed>, e: Entry)
    requires WellFormed(job) && i < |job.samples| && IsKeyframe(i, job.kd)
    requires Writing(job, i, records, index, states) && Booked(job, i, index, keyframe)
    ensures Writing(job, i + 1, grown, index + [e], states) && Booked(job, i + 1, index + [e], e.offset)
  {
    grown, e := WriteKeyframe(job, i, records, states[i]);
    assert states[i := states[i]] == states;
    WroteOne(job, i, records, index, states, grown[|records|], e, states[i]);
  }

  method StepDelta(job: Job, i: nat, records: seq<Placed>, index: seq<Entry>, states: seq<Table>, keyframe: nat)
    returns (r: Result<(seq<Placed>, Entry, Table), WriteError>)
    requires WellFormed(job) && i < |job.samples| && !IsKeyframe(i, job.kd)
    requires Writing(job, i, records, index, states) && Booked(job, i, index, keyframe)
    ensures r.Success? <==> DeltaWritable(job, i)
    ensures r.Success? ==> Writing(job, i + 1, r.value.0, index + [r.value.1], states[i := r.value.2])
    ensures r.Success? ==> Booked(job, i + 1, index + [r.value.1], keyframe)
  {
    var k := ReferenceIndex(i, job.kd);
    assert SampleWritten(job, k, records, index, states);
    SampleSameGrids(job, k, records, index, states);
    SameCheck(job, i, k, states[k]);
    DepthOfReference(i, job.kd);
    var depth := if job.kd.mode == KEYFRAME_MODE then 1 else index[i - 1].depth + 1;
    r := WriteDelta(job, i, records, states[k], index[k].offset, keyframe, depth);
    if r.Success? {
      DeltaStep(job, i, records, index, states, keyframe, r.value.0[|records|], r.value.1, r.value.2);
    }
  }

  lemma {:induction false} DeltaStep(job: Job, i: nat, records: seq<Placed>, index: seq<Entry>, states: seq<Table>, keyframe: nat, r: Placed, e: Entry, q: Table)
    requires WellFormed(job) && i < |job.samples| && !IsKeyframe(i, job.kd)
    requires Writing(job, i, records, index, states) && Booked(job, i, index, keyframe) && ValidRecords(records + [r])
    requires WrittenOver(job, i, r, e, q, states[ReferenceIndex(i, job.kd)], index[ReferenceIndex(i, job.kd)].offset, keyframe)
    ensures Writing(job, i + 1, records + [r], index + [e], states[i := q]) && Booked(job, i + 1, index + [e], keyframe)
  {
    hide WellFormed, ValidRecords, AllWritten, FrontMatter;
    var g :| DeltaWritten(job, i, r, e, q, states[ReferenceIndex(i, job.kd)], index[ReferenceIndex(i, job.kd)].offset, keyframe, g);
    WroteOne(job, i, records, index, states, r, e, q);
  }

  /** The writer's whole state between samples. */
  datatype Progress = Progress(written: Written, keyframe: nat)

  ghost predicate Progressed(job: Job, i: nat, p: Progress)
    requires WellFormed(job)
  {
    Writing(job, i, p.written.records, p.written.index, p.written.states) && Booked(job, i, p.written.index, p.keyframe)
  }

  method StepSample(job: Job, i: nat, p: Progress) returns (r: Result<Progress, WriteError>)
    requires WellFormed(job) && i < |job.samples| && Progressed(job, i, p)
    ensures r.Success? <==> IsKeyframe(i, job.kd) || DeltaWritable(job, i)
    ensures r.Success? ==> Progressed(job, i + 1, r.value)
  {
    var w := p.written;
    if IsKeyframe(i, job.kd) {
      var grown, e := StepKeyframe(job, i, w.records, w.index, w.states, p.keyframe);
      return Success(Progress(Written(grown, w.index + [e], w.states), e.offset));
    }
    var step := StepDelta(job, i, w.records, w.index, w.states, p.keyframe);
    if step.Failure? { return Failure(step.error); }
    return Success(Progress(Written(step.value.0, w.index + [step.value.1], w.states[i := step.value.2]), p.keyframe));
  }

  /** The state records, one per sample. */
  method WriteStates(job: Job) returns (r: Result<Written, WriteError>)
    requires WellFormed(job)
    ensures r.Success? <==> Writable(job)
    ensures r.Success? ==> Writing(job, |job.samples|, r.value.records, r.value.index, r.value.states)
  {
    var states := Quantized(job);
    FrontIsValid(job);
    var p := Progress(Written(FrontMatter(job), [], states), 0);
    for i := 0 to |job.samples|
      invariant Progressed(job, i, p) && WritableTo(job, i)
    {
      var step := StepSample(job, i, p);
      if step.Failure? { return Failure(step.error); }
      p := step.value;
    }
    return Success(p.written);
  }

  lemma {:induction false} FrontIsValid(job: Job)
    requires WellFormed(job)
    ensures ValidRecords(FrontMatter(job)) && |FrontMatter(job)| == FRONT
  {
    var header := Emit(job, [], Header(true, 0));
    var grid := Emit(job, header, Quantization(job.grids.muStep));
    EmitIsValid(job, [], Header(true, 0));
    EmitIsValid(job, header, Quantization(job.grids.muStep));
    EmitIsValid(job, grid, WindowTable(job.windows));
  }

  /** What follows the states: one entry per sample and the statistics, when an index is
      wanted, and the footer. */
  function Summary(job: Job, index: seq<Entry>): seq<Body> {
    (if job.kd.index
     then seq(|index|, i requires 0 <= i < |index| => ChunkIndex(index[i])) + (if job.kd.statistics then [Other(STATISTICS)] else [])
     else [])
    + [Other(FOOTER)]
  }

  /** The whole file: front matter, a state record per sample, the summary. */
  ghost predicate FileWritten(job: Job, w: Written)
    requires WellFormed(job)
  {
    var n, summary := |job.samples|, Summary(job, w.index);
    && ValidRecords(w.records) && |w.index| == n == |w.states|
    && |w.records| == FRONT + n + |summary| && w.records[..FRONT] == FrontMatter(job)
    && AllWritten(job, n, w.records, w.index, w.states)
    && forall j :: 0 <= j < |summary| ==> w.records[FRONT + n + j].body == summary[j]
  }

  lemma {:induction false} WrittenInLonger(job: Job, n: nat, records: seq<Placed>, longer: seq<Placed>, index: seq<Entry>, states: seq<Table>)
    requires WellFormed(job) && AllWritten(job, n, records, index, states)
    requires |records| <= |longer| && longer[..|records|] == records
    ensures AllWritten(job, n, longer, index, states)
  {
    forall i | 0 <= i < n
      ensures SampleWritten(job, i, longer, index, states)
    {
      assert SampleWritten(job, i, records, index, states);
      assert longer[..|records|][FRONT + i] == longer[FRONT + i];
    }
  }

  /** Append bodies at the cursor. */
  method EmitAll(job: Job, records: seq<Placed>, bodies: seq<Body>) returns (longer: seq<Placed>)
    requires WellFormed(job) && ValidRecords(records) && forall j :: 0 <= j < |bodies| ==> ShapedBody(bodies[j])
    ensures ValidRecords(longer) && |longer| == |records| + |bodies| && longer[..|records|] == records
    ensures forall j :: 0 <= j < |bodies| ==> longer[|records| + j].body == bodies[j]
  {
    longer := records;
    for j := 0 to |bodies|
      invariant ValidRecords(longer) && |longer| == |records| + j && longer[..|records|] == records
      invariant forall i :: 0 <= i < j ==> longer[|records| + i].body == bodies[i]
    {
      EmitIsValid(job, longer, bodies[j]);
      longer := Emit(job, longer, bodies[j]);
    }
  }

  /** Write a whole file. It fails on no samples at all, on a sample that changes a live
      gaussian's grids within a group, and on a chain too deep for its field; otherwise
      every sample is in the file, over what was retained for its reference. */
  method WriteSequence(job: Job) returns (r: Result<Written, WriteError>)
    requires WellFormed(job)
    ensures r.Success? <==> job.samples != [] && Writable(job)
    ensures r.Success? ==> FileWritten(job, r.value)
  {
    if job.samples == [] { return Failure(NoSamples); }
    r := WriteStates(job);
    if r.Failure? { return; }
    var w := WriteSummary(job, r.value);
    return Success(w);
  }

  /** The summary, after the states. */
  method WriteSummary(job: Job, w: Written) returns (r: Written)
    requires WellFormed(job) && Writing(job, |job.samples|, w.records, w.index, w.states)
    ensures FileWritten(job, r)
  {
    var longer := EmitAll(job, w.records, Summary(job, w.index));
    WrittenInLonger(job, |job.samples|, w.records, longer, w.index, w.states);
    assert longer[..FRONT] == w.records[..FRONT] by {
      assert longer[..|w.records|][..FRONT] == longer[..FRONT];
    }
    r := w.(records := longer);
  }
}
