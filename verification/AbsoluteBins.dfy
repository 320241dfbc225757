/** When a composed row carries the bins an absolute statement of that instant would carry:
    decided from the samples, before anything is written. */
module AbsoluteBins {
  import opened Wrappers
  import opened Registry
  import opened Populations
  import opened Rounding
  import opened Times
  import opened Records
  import opened Trajectories
  import opened WireDeltas
  import opened SequenceWriter
  import opened WriterLaws

  /** The birth-time bin sample `i` states for `id`: the one nearest its own instant. */
  ghost function SampleAnchor(job: Job, i: nat, id: int): int
    requires WellFormed(job) && i < |job.samples| && id in job.samples[i].population.ids
  {
    Anchor(job.grids, TrajectoryFor(job.samples[i].population, id), job.samples[i].t0)
  }

  /** The sample that last stated the row states the same birth-time bin as sample `i`. */
  ghost predicate AnchorCurrent(job: Job, i: nat, id: int)
    requires WellFormed(job) && i < |job.samples| && id in job.samples[i].population.ids
  {
    SampleAnchor(job, StatedFrom(job, i, id), id) == SampleAnchor(job, i, id)
  }

  /** Two tables state the same bins for one identity, in every column. */
  ghost predicate SameRow(t: Table, u: Table, id: int) {
    forall a :: a in REQUIRED ==> Stated(t, id, a) == Stated(u, id, a)
  }

  /** Tables that agree off the anchor agree throughout exactly when their trajectories do. */
  lemma {:induction false} SameRowByTrajectory(t: Table, u: Table, id: int)
    requires Complete(t) && Complete(u) && id in t.ids && id in u.ids
    requires forall a :: a in REQUIRED && !IsAnchor(a) ==> Stated(t, id, a) == Stated(u, id, a)
    ensures SameRow(t, u, id) <==> TrajectoryFor(t, id) == TrajectoryFor(u, id)
  {
    SameOffAnchor(t, u, id);
    AnchorOfRow(t, id);
    AnchorOfRow(u, id);
  }

  lemma {:induction false} TargetAnchor(job: Job, i: nat, id: int)
    requires WellFormed(job) && i < |job.samples| && id in job.samples[i].population.ids
    ensures TrajectoryFor(Target(job, i), id).mu == SampleAnchor(job, i, id)
  {
    var s := job.samples[i].population;
    ReanchoredRow(job.grids, s, job.samples[i].t0, IndexOf(s.ids, id));
  }

  /** The trajectory last stated is this instant's own exactly when the two statements share
      a birth-time bin. */
  lemma {:induction false} TrajectoryIsCurrent(job: Job, i: nat, id: int)
    requires WellFormed(job) && i < |job.samples| && id in job.samples[i].population.ids
    ensures TrajectoryFor(Target(job, StatedFrom(job, i, id)), id) == TrajectoryFor(Target(job, i), id) <==> AnchorCurrent(job, i, id)
  {
    var j := StatedFrom(job, i, id);
    TargetAnchor(job, j, id);
    TargetAnchor(job, i, id);
    StatedReaches(job, i, id);
    if j < i { RebaseFixes(job.grids, TrajectoryFor(Target(job, j), id), job.samples[i].t0); }
  }

  /** A retained row is the sample's own in every bin exactly when the sample that last
      stated it has this sample's birth-time bin. Off the anchor it always is. */
  lemma {:induction false} AbsoluteBinsExactly(job: Job, w: Written, i: nat, id: int)
    requires WellFormed(job) && FileWritten(job, w) && i < |job.samples| && id in job.samples[i].population.ids
    ensures SameRow(w.states[i], Target(job, i), id) <==> AnchorCurrent(job, i, id)
    ensures forall a :: a in REQUIRED && !IsAnchor(a) ==> Stated(w.states[i], id, a) == Stated(Target(job, i), id, a)
  {
    var q, t := w.states[i], Target(job, i);
    RetainedRowIsFrom(job, w, i, id);
    TrajectoryIsCurrent(job, i, id);
    forall a | a in REQUIRED && !IsAnchor(a)
      ensures Stated(q, id, a) == Stated(t, id, a)
    {
      TargetOffAnchor(job, i, id, a);
    }
    SameRowByTrajectory(q, t, id);
  }

  lemma {:induction false} SameRowInView(t: Table, u: Table, id: int)
    requires Complete(t) && Complete(u) && t.ids == u.ids && id in t.ids
    ensures SameRow(t, u, id) <==> View(t).rows[id] == View(u).rows[id]
  {
    var k := IndexOf(t.ids, id);
    forall a | a in REQUIRED
      ensures Stated(t, id, a) == GaussianAt(t, k)[a] && Stated(u, id, a) == GaussianAt(u, k)[a]
    {
    }
    if SameRow(t, u, id) {
      forall a | a in REQUIRED + IDENTITY_LANES
        ensures GaussianAt(t, k)[a] == GaussianAt(u, k)[a]
      {
        if a in REQUIRED { assert Stated(t, id, a) == Stated(u, id, a); }
      }
    }
  }

  lemma {:induction false} SameViewByRows(t: Table, u: Table)
    requires Complete(t) && Complete(u) && t.ids == u.ids
    ensures View(t) == View(u) <==> forall id :: id in t.ids ==> SameRow(t, u, id)
  {
    forall id | id in t.ids
      ensures SameRow(t, u, id) <==> View(t).rows[id] == View(u).rows[id]
    {
      SameRowInView(t, u, id);
    }
    assert View(t) == View(u) <==> View(t).rows == View(u).rows;
  }

  /** What a reader composes at chunk `i` is what a keyframe there would state, exactly when
      every row of the sample has a current anchor. */
  lemma {:induction false} ComposesAbsolutely(job: Job, w: Written, i: nat)
    requires WellFormed(job) && TargetsFit(job) && FileWritten(job, w) && i < |job.samples|
    ensures Composed(Physical(w.records), job.grids.muStep, w.index[i].offset) == Some(View(Target(job, i))) <==>
      forall id :: id in job.samples[i].population.ids ==> AnchorCurrent(job, i, id)
  {
    var q, t := w.states[i], Target(job, i);
    RoundTrip(job, w, i);
    assert SampleWritten(job, i, w.records, w.index, w.states);
    SampleSameGrids(job, i, w.records, w.index, w.states);
    SameViewByRows(q, t);
    forall id | id in t.ids
      ensures SameRow(q, t, id) <==> AnchorCurrent(job, i, id)
    {
      AbsoluteBinsExactly(job, w, i, id);
    }
  }

  // ---- a sequence whose composed row is not the absolute one ----

  /** A gaussian at rest, on unit grids, sampled at 0 and again at 1. */
  const STILL: Table := Table([7], map a: nat | a in REQUIRED :: [Zero(a)])

  function StillJob(): Job {
    var unit := Grids(1.0, [0.0, 0.0, 0.0], (sigma: int, neverFades: bool) => 1.0, (sigma: int, neverFades: bool, window: int) => 1.0);
    Job([Sample(0.0, STILL), Sample(1.0, STILL)], Finite(2.0), unit, 1, Options(8, CHAINED_MODE, [], true, true),
        Sizes((b: Body) => 9, (t: Table) => 0))
  }

  lemma {:induction false} StillIsWellFormed()
    ensures WellFormed(StillJob()) && Complete(STILL)
  {
  }

  /** On unit grids a gaussian at rest is restated by its birth-time bin alone. */
  lemma {:induction false} StillRebased(t0: int)
    ensures ValidGrids(StillJob().grids) && Complete(STILL)
    ensures Rebased(StillJob().grids, TrajectoryFor(STILL, 7), t0 as real) == TrajectoryFor(STILL, 7).(mu := t0)
    ensures TrajectoryFor(STILL, 7).mu == 0
  {
    var g, p := StillJob().grids, TrajectoryFor(STILL, 7);
    assert Zero(POSITION) == [0, 0, 0] && Zero(MOTION) == [0, 0, 0] && Zero(MU_T) == [0];
    UnitAnchor(g, p, t0);
    forall c: nat | c < 3
      ensures RestBin(g, p, t0, c) == 0
    {
      RintOfInt(0);
    }
  }

  lemma {:induction false} UnitAnchor(g: Grids, p: Trajectory, t0: int)
    requires ValidGrids(g) && MuPitch(g, p) == 1.0
    ensures Anchor(g, p, t0 as real) == t0
  {
    RintOfInt(t0);
  }

  /** Either sample's target is the sample with its instant as birth-time bin. */
  lemma {:induction false} StillTarget(i: nat)
    requires i < 2
    ensures WellFormed(StillJob()) && Complete(STILL)
    ensures Target(StillJob(), i) == Table([7], STILL.bins[MU_T := [[i]]])
  {
    hide Rebased, ValidGrids;
    StillIsWellFormed();
    var t := Target(StillJob(), i);
    StillRebased(i);
    ReanchoredRow(StillJob().grids, STILL, i as real, 0);
    assert Zero(POSITION) == TrajectoryFor(STILL, 7).position;
    assert t.bins[POSITION] == STILL.bins[POSITION];
    assert t.bins[MU_T] == [[i]];
    assert t.bins == STILL.bins[MU_T := [[i]]];
  }

  lemma {:induction false} StillFits(i: nat)
    requires i < 2
    ensures ValidState(Table([7], STILL.bins[MU_T := [[i]]]))
  {
    var t := Table([7], STILL.bins[MU_T := [[i]]]);
    assert forall a :: a in t.bins ==> t.bins[a] == [if a == MU_T then [i] else Zero(a)];
  }

  /** The writer accepts the sequence, and the format holds it. */
  lemma {:induction false} StillIsWritable()
    ensures WellFormed(StillJob()) && Writable(StillJob()) && TargetsFit(StillJob())
  {
    forall i: nat | i < 2
      ensures ValidState(Target(StillJob(), i))
    {
      StillTarget(i);
      StillFits(i);
    }
    assert DepthOf(0, StillJob().kd) == 0;
  }

  lemma {:induction false} StillUnmoved(job: Job)
    requires job == StillJob() && WellFormed(job)
    ensures 7 in STILL.ids && Unmoved(job, 0, 0, 1, 7)
  {
    StillTarget(0);
    StillTarget(1);
    StillRebased(1);
    assert STILL.bins[MU_T] == [[0]] by { assert Zero(MU_T) == [0]; }
    assert Target(job, 0).bins == STILL.bins;
    ReanchoredRow(job.grids, STILL, 1.0, 0);
  }

  /** The sample at 1 finds the row as the keyframe left it, and would anchor it elsewhere. */
  lemma {:induction false} StillKeepsAnchor(job: Job)
    requires job == StillJob() && WellFormed(job)
    ensures 7 in STILL.ids && StatedFrom(job, 1, 7) == 0
    ensures SampleAnchor(job, 0, 7) == 0 && SampleAnchor(job, 1, 7) == 1
  {
    hide Unmoved, StatedFrom, ValidGrids;
    StillUnmoved(job);
    StatedBefore(job, 1, 7);
    StillRebased(0);
    StillRebased(1);
  }

  /** Composed bins are not always the ones the sample's own statement would carry: the file
      written of this sequence is read back with birth-time bin 0 in the row at 1, where a
      keyframe would state 1. */
  method OldAnchorStays() returns (w: Written)
    ensures WellFormed(StillJob()) && FileWritten(StillJob(), w)
    ensures var p := Composed(Physical(w.records), StillJob().grids.muStep, w.index[1].offset);
      p.Some? && 7 in p.value.rows && Held(p.value, 7, MU_T) == [0]
    ensures Stated(Target(StillJob(), 1), 7, MU_T) == [1]
  {
    StillIsWritable();
    var written := WriteSequence(StillJob());
    w := written.value;
    OldAnchorIsRead(w);
  }

  lemma {:induction false} OldAnchorIsRead(w: Written)
    requires WellFormed(StillJob()) && FileWritten(StillJob(), w)
    ensures var p := Composed(Physical(w.records), StillJob().grids.muStep, w.index[1].offset);
      p.Some? && 7 in p.value.rows && Held(p.value, 7, MU_T) == [0]
    ensures Stated(Target(StillJob(), 1), 7, MU_T) == [1]
  {
    var job, q := StillJob(), w.states[1];
    StillIsWritable();
    StillKeepsAnchor(job);
    RoundTrip(job, w, 1);
    RetainedRowIsFrom(job, w, 1, 7);
    TargetAnchor(job, 0, 7);
    TargetAnchor(job, 1, 7);
    AnchorOfRow(q, 7);
    AnchorOfRow(Target(job, 1), 7);
    HeldInView(q, IndexOf(q.ids, 7), MU_T);
  }
}
