/** What the writer's file means to the readers: every state record composes to the
    population the writer retained, and that population stays close to the sample. */
module WriterLaws {
  import opened Wrappers
  import opened Registry
  import opened Populations
  import opened Records
  import opened Trajectories
  import opened DeltaGroups
  import opened WireDeltas
  import opened SequenceWriter

  /** Every restated sample fits the format: bins signed 32-bit, rotations named. */
  ghost predicate TargetsFit(job: Job)
    requires WellFormed(job)
  {
    forall i :: 0 <= i < |job.samples| ==> ValidState(Target(job, i))
  }

  lemma {:induction false} KeyframeRoundTrips(job: Job, i: nat, at: Layout, r: Placed, e: Entry, q: Table)
    requires WellFormed(job) && i < |job.samples| && ValidState(Target(job, i)) && ValidLayout(at)
    requires KeyframeWritten(job, i, r, e, q) && e.offset in at && at[e.offset] == r
    ensures Composed(at, job.grids.muStep, e.offset) == Some(View(q))
  {
    KeyframeMuIsReanchored(job.grids, job.samples[i].population, job.samples[i].t0);
    assert KeyframeAccepted(job.grids.muStep, r.body);
  }

  lemma {:induction false} GroupsArrive(g: Groups, head: DeltaHead, bytes: nat)
    requires SplitsColumns(g)
    requires head.updates == |g.updates.ids| && head.births == |g.births.ids| && head.deaths == |g.deaths.ids|
    ensures GroupsAccepted(DeltaChunk(head, bytes, Some(EncodedGroups(g))))
  {
  }

  lemma {:induction false} ReanchorRestates(job: Job, i: nat, over: Table)
    requires WellFormed(job) && i < |job.samples| && Complete(over)
    ensures Restates(over, Reanchor(job.grids, over, job.samples[i].t0))
  {
  }

  lemma {:induction false} DeltaRoundTrips(job: Job, i: nat, at: Layout, r: Placed, e: Entry, q: Table, over: Table, reference: nat, keyframe: nat, g: Groups)
    requires WellFormed(job) && i < |job.samples| && ValidState(Target(job, i)) && ValidLayout(at)
    requires DeltaWritten(job, i, r, e, q, over, reference, keyframe, g) && e.offset in at && at[e.offset] == r
    requires reference < e.offset && ValidState(over) && Composed(at, job.grids.muStep, reference) == Some(View(over))
    ensures ValidState(q) && Composed(at, job.grids.muStep, e.offset) == Some(View(q))
  {
    var comparison := Reanchor(job.grids, over, job.samples[i].t0);
    ReanchorRestates(job, i, over);
    assert Differenced(over, comparison, Target(job, i), g, q);
    Telescopes(over, comparison, Target(job, i), g, q);
    GroupsArrive(g, r.body.head, r.body.bodyBytes);
  }

  lemma {:induction false} OverRoundTrips(job: Job, i: nat, at: Layout, r: Placed, e: Entry, q: Table, over: Table, reference: nat, keyframe: nat)
    requires WellFormed(job) && i < |job.samples| && ValidState(Target(job, i)) && ValidLayout(at)
    requires WrittenOver(job, i, r, e, q, over, reference, keyframe) && e.offset in at && at[e.offset] == r
    requires reference < e.offset && Holds(at, job.grids.muStep, reference, over)
    ensures Holds(at, job.grids.muStep, e.offset, q)
  {
    var g :| DeltaWritten(job, i, r, e, q, over, reference, keyframe, g);
    DeltaRoundTrips(job, i, at, r, e, q, over, reference, keyframe, g);
  }

  lemma {:induction false} SampleOver(job: Job, w: Written, i: nat)
    requires WellFormed(job) && FileWritten(job, w) && i < |job.samples| && !IsKeyframe(i, job.kd)
    ensures var k, key := ReferenceIndex(i, job.kd), KeyframeIndex(i, job.kd);
      WrittenOver(job, i, w.records[FRONT + i], w.index[i], w.states[i], w.states[k], w.index[k].offset, w.index[key].offset)
  {
    assert SampleWritten(job, i, w.records, w.index, w.states);
  }

  /** The groups a delta sample was written with. */
  lemma {:induction false} GroupsOf(job: Job, w: Written, i: nat) returns (g: Groups)
    requires WellFormed(job) && FileWritten(job, w) && i < |job.samples| && !IsKeyframe(i, job.kd)
    ensures var k, key := ReferenceIndex(i, job.kd), KeyframeIndex(i, job.kd);
      DeltaWritten(job, i, w.records[FRONT + i], w.index[i], w.states[i], w.states[k], w.index[k].offset, w.index[key].offset, g)
  {
    SampleOver(job, w, i);
    var k, key := ReferenceIndex(i, job.kd), KeyframeIndex(i, job.kd);
    g :| DeltaWritten(job, i, w.records[FRONT + i], w.index[i], w.states[i], w.states[k], w.index[k].offset, w.index[key].offset, g);
  }

  lemma {:induction false} SampleIndexed(job: Job, w: Written, i: nat)
    requires WellFormed(job) && FileWritten(job, w) && i < |job.samples|
    ensures Indexes(w.index[i], w.records[FRONT + i], w.states[i]) && IsState(w.records[FRONT + i])
  {
    assert SampleWritten(job, i, w.records, w.index, w.states);
    if !IsKeyframe(i, job.kd) { var g := GroupsOf(job, w, i); }
  }

  /** The entry and the record of sample `i` are at one place, where a reader finds it. */
  lemma {:induction false} OffsetsOfSamples(job: Job, w: Written, i: nat)
    requires WellFormed(job) && FileWritten(job, w) && i < |job.samples|
    ensures Indexes(w.index[i], w.records[FRONT + i], w.states[i]) && IsState(w.records[FRONT + i])
    ensures w.index[i].offset in Physical(w.records) && Physical(w.records)[w.index[i].offset] == w.records[FRONT + i]
  {
    SampleIndexed(job, w, i);
    PhysicalHas(w.records, FRONT + i);
  }

  /** Chunks are written front to back. */
  lemma {:induction false} WrittenInOrder(job: Job, w: Written, k: nat, i: nat)
    requires WellFormed(job) && FileWritten(job, w) && k < i < |job.samples|
    ensures w.index[k].offset < w.index[i].offset
  {
    SampleIndexed(job, w, k);
    SampleIndexed(job, w, i);
    OffsetsIncrease(w.records, FRONT + k, FRONT + i);
  }

  /** What a reader composes at chunk `i` is what the writer retained for it. */
  ghost predicate ReadsBack(job: Job, w: Written, i: nat)
    requires WellFormed(job) && FileWritten(job, w) && i < |job.samples|
  {
    Holds(Physical(w.records), job.grids.muStep, w.index[i].offset, w.states[i])
  }

  lemma {:induction false} DeltaReadsBack(job: Job, w: Written, i: nat, k: nat)
    requires WellFormed(job) && FileWritten(job, w) && i < |job.samples| && !IsKeyframe(i, job.kd) && k == ReferenceIndex(i, job.kd)
    requires ValidState(Target(job, i)) && ReadsBack(job, w, k)
    ensures ReadsBack(job, w, i)
  {
    hide ValidLayout, WrittenOver, Holds;
    PhysicalIsValid(w.records);
    OffsetsOfSamples(job, w, i);
    WrittenInOrder(job, w, k, i);
    SampleOver(job, w, i);
    var r, e, q, key := w.records[FRONT + i], w.index[i], w.states[i], w.index[KeyframeIndex(i, job.kd)].offset;
    OverRoundTrips(job, i, Physical(w.records), r, e, q, w.states[k], w.index[k].offset, key);
  }

  lemma {:induction false} KeyframeReadsBack(job: Job, w: Written, i: nat)
    requires WellFormed(job) && TargetsFit(job) && FileWritten(job, w) && i < |job.samples| && IsKeyframe(i, job.kd)
    ensures ReadsBack(job, w, i)
  {
    hide ValidLayout;
    assert SampleWritten(job, i, w.records, w.index, w.states);
    PhysicalIsValid(w.records);
    OffsetsOfSamples(job, w, i);
    KeyframeRoundTrips(job, i, Physical(w.records), w.records[FRONT + i], w.index[i], w.states[i]);
  }

  /** The round trip. At every chunk, at any depth and in either mode, what a reader
      composes is the population the writer retained, and it names the sample's identities. */
  lemma {:induction false} RoundTrip(job: Job, w: Written, i: nat)
    requires WellFormed(job) && TargetsFit(job) && FileWritten(job, w) && i < |job.samples|
    ensures ReadsBack(job, w, i) && w.states[i].ids == job.samples[i].population.ids
    decreases i
  {
    assert SampleWritten(job, i, w.records, w.index, w.states);
    SampleSameGrids(job, i, w.records, w.index, w.states);
    if IsKeyframe(i, job.kd) {
      KeyframeReadsBack(job, w, i);
    } else {
      RoundTrip(job, w, ReferenceIndex(i, job.kd));
      DeltaReadsBack(job, w, i, ReferenceIndex(i, job.kd));
    }
  }

  // ---- retained trajectories ----

  /** The trajectory a table holds for an identity. */
  function TrajectoryFor(t: Table, id: int): (p: Trajectory)
    requires Complete(t) && id in t.ids
    ensures Whole(p)
  {
    TrajectoryOf(t, IndexOf(t.ids, id))
  }

  lemma {:induction false} TrajectoryByRows(t: Table, id: int)
    requires Complete(t) && id in t.ids
    ensures TrajectoryFor(t, id) == Trajectory(Stated(t, id, POSITION), Stated(t, id, MOTION), Stated(t, id, MU_T)[0],
                                               Stated(t, id, SIGMA_T)[0], Stated(t, id, FLAGS)[0], Stated(t, id, WINDOW_INDEX)[0])
  {
  }

  /** An untouched live row keeps an older anchor whose restatement is the target's row. */
  lemma {:induction false} UntouchedRow(g: Grids, over: Table, target: Table, groups: Groups, q: Table, t0: real, id: int)
    requires ValidGrids(g) && Complete(over) && Complete(target)
    requires Wires(over, Reanchor(g, over, t0), target, groups) && InvariantsKept(Reanchor(g, over, t0), target)
    requires Retains(over, target, groups.updates.ids, q)
    requires id in q.ids && id in over.ids && id !in groups.updates.ids
    ensures Rebased(g, TrajectoryFor(q, id), t0) == TrajectoryFor(target, id)
    ensures TrajectoryFor(q, id) == TrajectoryFor(over, id)
  {
    var comparison := Reanchor(g, over, t0);
    var k := IndexOf(over.ids, id);
    ReanchoredRow(g, over, t0, k);
    forall a | a in REQUIRED
      ensures Stated(target, id, a) == Stated(comparison, id, a)
      ensures Stated(q, id, a) == Stated(over, id, a)
    {
      assert Stated(q, id, a) == RetainedRow(over, target, groups.updates.ids, id, a);
      if !IsGopInvariant(a) { assert Restated(a) && !Moves(comparison, target, id); }
    }
    TrajectoryByRows(target, id);
    TrajectoryByRows(comparison, id);
    TrajectoryByRows(q, id);
    TrajectoryByRows(over, id);
  }

  lemma {:induction false} TouchedRow(over: Table, target: Table, updates: seq<int>, q: Table, id: int)
    requires Complete(target) && Retains(over, target, updates, q)
    requires id in q.ids && (id !in over.ids || id in updates)
    ensures TrajectoryFor(q, id) == TrajectoryFor(target, id)
  {
    forall a | a in REQUIRED
      ensures Stated(q, id, a) == Stated(target, id, a)
    {
      assert Stated(q, id, a) == RetainedRow(over, target, updates, id, a);
    }
    TrajectoryByRows(target, id);
    TrajectoryByRows(q, id);
  }

  // ---- when a retained row was last stated ----

  /** Sample `i` finds the row of `id` where its reference left it: nothing outside the
      anchor differs, and the trajectory stated at sample `j` reaches the new instant. */
  ghost predicate Unmoved(job: Job, j: nat, k: nat, i: nat, id: int)
    requires WellFormed(job) && j < |job.samples| && k < |job.samples| && i < |job.samples|
    requires id in job.samples[j].population.ids && id in job.samples[i].population.ids
  {
    && (forall a :: Restated(a) && !IsAnchor(a) ==> Stated(job.samples[i].population, id, a) == Stated(job.samples[k].population, id, a))
    && Rebased(job.grids, TrajectoryFor(Target(job, j), id), job.samples[i].t0) == TrajectoryFor(Target(job, i), id)
  }

  /** The sample that last stated the row of `id` as sample `i` sees it, told from the
      samples and the cadence alone: the keyframe, the birth, or the latest move. */
  ghost function StatedFrom(job: Job, i: nat, id: int): (j: nat)
    requires WellFormed(job) && i < |job.samples| && id in job.samples[i].population.ids
    ensures j <= i && id in job.samples[j].population.ids
  {
    if IsKeyframe(i, job.kd) then i
    else
      var k := ReferenceIndex(i, job.kd);
      if id !in job.samples[k].population.ids then i
      else
        var j := StatedFrom(job, k, id);
        if Unmoved(job, j, k, i, id) then j else i
  }

  /** A row the sample finds unmoved was last stated where its reference says. */
  lemma {:induction false} StatedBefore(job: Job, i: nat, id: int)
    requires WellFormed(job) && i < |job.samples| && id in job.samples[i].population.ids && !IsKeyframe(i, job.kd)
    requires id in job.samples[ReferenceIndex(i, job.kd)].population.ids
    requires var k := ReferenceIndex(i, job.kd); Unmoved(job, StatedFrom(job, k, id), k, i, id)
    ensures StatedFrom(job, i, id) == StatedFrom(job, ReferenceIndex(i, job.kd), id)
  {
  }

  /** The retained row at `i`: the anchor of the sample that last stated it, and everything
      else as sample `i` has it. */
  ghost predicate RetainedFrom(job: Job, i: nat, id: int, q: Table)
    requires WellFormed(job) && i < |job.samples| && id in job.samples[i].population.ids
  {
    && Complete(q) && q.ids == job.samples[i].population.ids
    && TrajectoryFor(q, id) == TrajectoryFor(Target(job, StatedFrom(job, i, id)), id)
    && forall a :: a in REQUIRED && !IsAnchor(a) ==> Stated(q, id, a) == Stated(job.samples[i].population, id, a)
  }

  lemma {:induction false} TargetOffAnchor(job: Job, i: nat, id: int, a: nat)
    requires WellFormed(job) && i < |job.samples| && a in REQUIRED && !IsAnchor(a)
    ensures Stated(Target(job, i), id, a) == Stated(job.samples[i].population, id, a)
  {
  }

  /** The rows a delta compares: what its reference retains, restated at the new instant. */
  lemma {:induction false} ComparedRow(job: Job, k: nat, i: nat, id: int, over: Table)
    requires WellFormed(job) && k < |job.samples| && i < |job.samples| && id in job.samples[k].population.ids && RetainedFrom(job, k, id, over)
    ensures var c := Reanchor(job.grids, over, job.samples[i].t0);
      && c.ids == over.ids && Complete(c)
      && TrajectoryFor(c, id) == Rebased(job.grids, TrajectoryFor(Target(job, StatedFrom(job, k, id)), id), job.samples[i].t0)
      && forall a :: a in REQUIRED && !IsAnchor(a) ==> Stated(c, id, a) == Stated(job.samples[k].population, id, a)
  {
    hide Rebased;
    ReanchoredRow(job.grids, over, job.samples[i].t0, IndexOf(over.ids, id));
  }

  lemma {:induction false} AnchorOfRow(t: Table, id: int)
    requires Complete(t) && id in t.ids
    ensures Stated(t, id, POSITION) == TrajectoryFor(t, id).position && Stated(t, id, MU_T) == [TrajectoryFor(t, id).mu]
  {
    var k := IndexOf(t.ids, id);
    assert |t.bins[MU_T][k]| == Channels(MU_T);
  }

  /** A table's rows off the anchor determine its trajectory but for the anchor. */
  lemma {:induction false} SameOffAnchor(t: Table, u: Table, id: int)
    requires Complete(t) && Complete(u) && id in t.ids && id in u.ids
    requires forall a :: a in REQUIRED && !IsAnchor(a) ==> Stated(t, id, a) == Stated(u, id, a)
    ensures TrajectoryFor(t, id) == TrajectoryFor(u, id).(position := TrajectoryFor(t, id).position, mu := TrajectoryFor(t, id).mu)
  {
    TrajectoryByRows(t, id);
    TrajectoryByRows(u, id);
  }

  /** Nothing moved between two tables of one identity's grids exactly when its trajectory
      and its rows off the anchor are the same. */
  lemma {:induction false} MovesByTrajectory(c: Table, t: Table, id: int)
    requires Complete(c) && Complete(t) && id in c.ids && id in t.ids && InvariantsKept(c, t)
    ensures !Moves(c, t, id) <==>
      && TrajectoryFor(c, id) == TrajectoryFor(t, id)
      && forall a :: Restated(a) && !IsAnchor(a) ==> Stated(t, id, a) == Stated(c, id, a)
  {
    AnchorOfRow(c, id);
    AnchorOfRow(t, id);
    if !Moves(c, t, id) {
      forall a | a in REQUIRED
        ensures Stated(t, id, a) == Stated(c, id, a)
      {
        if !IsGopInvariant(a) { assert Restated(a); }
      }
      SameOffAnchor(t, c, id);
    }
  }

  /** What the writer's comparison decides is what the samples alone decide. */
  lemma {:induction false} MovesIsMoved(job: Job, k: nat, i: nat, id: int, over: Table)
    requires WellFormed(job) && k < |job.samples| && i < |job.samples|
    requires id in job.samples[k].population.ids && id in job.samples[i].population.ids && RetainedFrom(job, k, id, over)
    requires InvariantsKept(Reanchor(job.grids, over, job.samples[i].t0), Target(job, i))
    ensures Moves(Reanchor(job.grids, over, job.samples[i].t0), Target(job, i), id) <==> !Unmoved(job, StatedFrom(job, k, id), k, i, id)
  {
    hide Stated, Moves, InvariantsKept, Rebased;
    var c, t := Reanchor(job.grids, over, job.samples[i].t0), Target(job, i);
    ComparedRow(job, k, i, id, over);
    MovesByTrajectory(c, t, id);
    forall a | Restated(a) && !IsAnchor(a)
      ensures Stated(t, id, a) == Stated(job.samples[i].population, id, a)
    {
      TargetOffAnchor(job, i, id, a);
    }
  }

  lemma {:induction false} RetainedOffAnchor(job: Job, i: nat, id: int, over: Table, q: Table, updates: seq<int>)
    requires WellFormed(job) && i < |job.samples| && id in job.samples[i].population.ids
    requires Retains(over, Target(job, i), updates, q)
    ensures forall a :: a in REQUIRED && !IsAnchor(a) ==> Stated(q, id, a) == Stated(job.samples[i].population, id, a)
  {
    forall a | a in REQUIRED && !IsAnchor(a)
      ensures Stated(q, id, a) == Stated(job.samples[i].population, id, a)
    {
      assert Stated(q, id, a) == RetainedRow(over, Target(job, i), updates, id, a);
      TargetOffAnchor(job, i, id, a);
    }
  }

  /** One delta: it names a row exactly when the samples say it is stated here, and what is
      retained is as stated here or as stated for the reference. */
  lemma {:induction false} RetainedOverReference(job: Job, i: nat, id: int, over: Table, q: Table, g: Groups)
    requires WellFormed(job) && i < |job.samples| && !IsKeyframe(i, job.kd) && id in job.samples[i].population.ids
    requires Complete(over) && over.ids == job.samples[ReferenceIndex(i, job.kd)].population.ids
    requires Wires(over, Reanchor(job.grids, over, job.samples[i].t0), Target(job, i), g)
    requires InvariantsKept(Reanchor(job.grids, over, job.samples[i].t0), Target(job, i)) && Retains(over, Target(job, i), g.updates.ids, q)
    requires id in over.ids ==> RetainedFrom(job, ReferenceIndex(i, job.kd), id, over)
    ensures RetainedFrom(job, i, id, q)
    ensures StatedFrom(job, i, id) == i <==> id in g.updates.ids || id in g.births.ids
  {
    var k := ReferenceIndex(i, job.kd);
    RetainedOffAnchor(job, i, id, over, q, g.updates.ids);
    if id in over.ids { MovesIsMoved(job, k, i, id, over); }
    if id in over.ids && id !in g.updates.ids {
      UntouchedRow(job.grids, over, Target(job, i), g, q, job.samples[i].t0, id);
    } else {
      TouchedRow(over, Target(job, i), g.updates.ids, q, id);
    }
  }

  /** Any retained row is as its last statement left it, at every depth. */
  lemma {:induction false} RetainedRowIsFrom(job: Job, w: Written, i: nat, id: int)
    requires WellFormed(job) && FileWritten(job, w) && i < |job.samples| && id in job.samples[i].population.ids
    ensures RetainedFrom(job, i, id, w.states[i])
  {
    hide WellFormed, ValidRecords, Wires, Retains, InvariantsKept, Reanchor;
    assert SampleWritten(job, i, w.records, w.index, w.states);
    SampleSameGrids(job, i, w.records, w.index, w.states);
    if IsKeyframe(i, job.kd) {
      forall a | a in REQUIRED && !IsAnchor(a)
        ensures Stated(w.states[i], id, a) == Stated(job.samples[i].population, id, a)
      {
        TargetOffAnchor(job, i, id, a);
      }
    } else {
      var k := ReferenceIndex(i, job.kd);
      var g := GroupsOf(job, w, i);
      assert SampleWritten(job, k, w.records, w.index, w.states);
      SampleSameGrids(job, k, w.records, w.index, w.states);
      if id in job.samples[k].population.ids { RetainedRowIsFrom(job, w, k, id); }
      RetainedOverReference(job, i, id, w.states[k], w.states[i], g);
    }
  }

  /** What the samples say is stated at a delta is what its record's groups name. */
  lemma {:induction false} StatedIsWritten(job: Job, w: Written, i: nat, id: int)
    requires WellFormed(job) && FileWritten(job, w) && i < |job.samples| && id in job.samples[i].population.ids
    requires !IsKeyframe(i, job.kd)
    ensures w.records[FRONT + i].body.DeltaChunk? && w.records[FRONT + i].body.groups.Some?
    ensures var wire := w.records[FRONT + i].body.groups.value;
      StatedFrom(job, i, id) == i <==> id in wire.updates.ids || id in wire.births.ids
  {
    var k := ReferenceIndex(i, job.kd);
    var g := GroupsOf(job, w, i);
    assert SampleWritten(job, k, w.records, w.index, w.states);
    SampleSameGrids(job, k, w.records, w.index, w.states);
    if id in job.samples[k].population.ids { RetainedRowIsFrom(job, w, k, id); }
    RetainedOverReference(job, i, id, w.states[k], w.states[i], g);
  }

  /** A row not stated at `i` reaches the target from where it was stated. */
  lemma {:induction false} StatedReaches(job: Job, i: nat, id: int)
    requires WellFormed(job) && i < |job.samples| && id in job.samples[i].population.ids
    ensures var j := StatedFrom(job, i, id);
      j < i ==> Rebased(job.grids, TrajectoryFor(Target(job, j), id), job.samples[i].t0) == TrajectoryFor(Target(job, i), id)
  {
  }

  // ---- how far the retained population is from the sample ----

  /** The error never accumulates. However deep the chain, and however old the anchor an
      untouched row still carries, its composed centre is within half a position step of the
      target's along every axis at every instant, and equal to it where the row was just
      stated. */
  lemma {:induction false} ErrorNeverAccumulates(job: Job, w: Written, i: nat, id: int, c: nat, t: real)
    requires WellFormed(job) && FileWritten(job, w) && i < |job.samples| && id in job.samples[i].population.ids && c < 3
    ensures Complete(w.states[i]) && id in w.states[i].ids
    ensures var apart := Centre(job.grids, TrajectoryFor(w.states[i], id), c, t) - Centre(job.grids, TrajectoryFor(Target(job, i), id), c, t);
      && -job.grids.stepPos / 2.0 <= apart <= job.grids.stepPos / 2.0
      && (StatedFrom(job, i, id) == i ==> apart == 0.0)
  {
    RetainedRowIsFrom(job, w, i, id);
    StatedReaches(job, i, id);
    RebaseMovesLittle(job.grids, TrajectoryFor(w.states[i], id), job.samples[i].t0, c, t);
  }

  /** Against the sample as it was quantized, before it was restated at its own instant,
      the bound is a whole step: half for the restatement, half for the retained anchor. */
  lemma {:induction false} ErrorAgainstSample(job: Job, w: Written, i: nat, id: int, c: nat, t: real)
    requires WellFormed(job) && FileWritten(job, w) && i < |job.samples| && id in job.samples[i].population.ids && c < 3
    ensures Complete(w.states[i]) && id in w.states[i].ids
    ensures var apart := Centre(job.grids, TrajectoryFor(w.states[i], id), c, t) - Centre(job.grids, TrajectoryFor(job.samples[i].population, id), c, t);
      -job.grids.stepPos <= apart <= job.grids.stepPos
  {
    ErrorNeverAccumulates(job, w, i, id, c, t);
    var s := job.samples[i].population;
    ReanchoredRow(job.grids, s, job.samples[i].t0, IndexOf(s.ids, id));
    RebaseMovesLittle(job.grids, TrajectoryFor(s, id), job.samples[i].t0, c, t);
  }
}
