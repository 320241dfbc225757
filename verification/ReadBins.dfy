/** What a reader composes from a written file, bin by bin and against the samples: the
    round trip and the error bound without the writer's own notions of centre and target. */
module ReadBins {
  import opened Registry
  import opened Populations
  import opened Rounding
  import opened Records
  import opened Trajectories
  import opened SequenceWriter
  import opened WriterLaws

  /** The bin a sample states for an identity, one channel of one attribute. */
  ghost function SampleBin(job: Job, i: nat, id: int, a: nat, c: nat): int
    requires WellFormed(job) && i < |job.samples| && id in job.samples[i].population.ids && a <= 10 && c < Channels(a)
  {
    SampleRowWidth(job, i, id, a);
    Stated(job.samples[i].population, id, a)[c]
  }

  lemma {:induction false} SampleRowWidth(job: Job, i: nat, id: int, a: nat)
    requires WellFormed(job) && i < |job.samples| && id in job.samples[i].population.ids && a <= 10
    ensures |Stated(job.samples[i].population, id, a)| == Channels(a)
  {
    assert a in REQUIRED;
  }

  /** The birth-time pitch of a sample's row, and its velocity step. */
  ghost function Pitch(job: Job, i: nat, id: int): real
    requires WellFormed(job) && i < |job.samples| && id in job.samples[i].population.ids
  {
    job.grids.muStep(SampleBin(job, i, id, 8, 0), SampleBin(job, i, id, 9, 0) % 2 != 0)
  }

  ghost function Speed(job: Job, i: nat, id: int): real
    requires WellFormed(job) && i < |job.samples| && id in job.samples[i].population.ids
  {
    job.grids.motionStep(SampleBin(job, i, id, 8, 0), SampleBin(job, i, id, 9, 0) % 2 != 0, SampleBin(job, i, id, 10, 0))
  }

  /** How far, in position units, coordinate `c` of a row stated at birth-time bin `mu` is
      from the sample's own line: the bins moved, less what the sample's velocity covers
      between the two birth times. */
  ghost function Drift(job: Job, i: nat, id: int, c: nat, x: int, mu: int): real
    requires WellFormed(job) && i < |job.samples| && id in job.samples[i].population.ids && c < 3
  {
    (x - SampleBin(job, i, id, 0, c)) as real * job.grids.stepPos
    - SampleBin(job, i, id, 6, c) as real * Speed(job, i, id) * ((mu - SampleBin(job, i, id, 7, 0)) as real * Pitch(job, i, id))
  }

  lemma {:induction false} SampleTrajectory(job: Job, i: nat, id: int)
    requires WellFormed(job) && i < |job.samples| && id in job.samples[i].population.ids
    ensures var s := TrajectoryFor(job.samples[i].population, id);
      && s.mu == SampleBin(job, i, id, 7, 0) && s.sigma == SampleBin(job, i, id, 8, 0)
      && s.flags == SampleBin(job, i, id, 9, 0) && s.window == SampleBin(job, i, id, 10, 0)
      && forall c: nat :: c < 3 ==> s.position[c] == SampleBin(job, i, id, 0, c) && s.motion[c] == SampleBin(job, i, id, 6, c)
  {
    TrajectoryByRows(job.samples[i].population, id);
  }

  lemma {:induction false} TargetRestates(job: Job, i: nat, id: int)
    requires WellFormed(job) && i < |job.samples| && id in job.samples[i].population.ids
    ensures TrajectoryFor(Target(job, i), id) == Rebased(job.grids, TrajectoryFor(job.samples[i].population, id), job.samples[i].t0)
  {
    var s := job.samples[i].population;
    ReanchoredRow(job.grids, s, job.samples[i].t0, IndexOf(s.ids, id));
  }

  lemma {:induction false} Subtract(x: real, y: real, z: real, step: real, speed: real, r: real, s: real, t: real, pitch: real)
    ensures (y - z) * step - speed * ((s - t) * pitch)
         == ((x - z) * step - speed * ((r - t) * pitch)) - ((x - y) * step - speed * ((r - s) * pitch))
  {
  }

  /** Two statements of one motion restated as the same line are a step apart at most. */
  lemma {:induction false} SameRestatement(g: Grids, s: Trajectory, q: Trajectory, t0: real, c: nat)
    requires ValidGrids(g) && Whole(s) && Whole(q) && Rebased(g, s, t0) == Rebased(g, q, t0) && c < 3
    ensures -g.stepPos <= Apart(g, s, q, c) <= g.stepPos
  {
    hide Rebased, Apart;
    var r := Rebased(g, s, t0);
    RestatedApart(g, s, t0, c);
    RestatedApart(g, q, t0, c);
    ApartSubtracts(g, s, q, r, c);
  }

  lemma {:induction false} ApartSubtracts(g: Grids, s: Trajectory, q: Trajectory, r: Trajectory, c: nat)
    requires Whole(s) && Whole(q) && Whole(r) && c < 3
    requires r == s.(position := r.position, mu := r.mu) && r == q.(position := r.position, mu := r.mu)
    ensures Apart(g, s, q, c) == Apart(g, s, r, c) - Apart(g, q, r, c)
  {
    var speed, pitch := g.motionStep(s.sigma, s.flags % 2 != 0, s.window), g.muStep(s.sigma, s.flags % 2 != 0);
    assert r.motion == s.motion == q.motion && r.sigma == s.sigma == q.sigma && r.flags == s.flags == q.flags && r.window == s.window == q.window;
    Subtract(r.position[c] as real, q.position[c] as real, s.position[c] as real, g.stepPos, s.motion[c] as real * speed, r.mu as real, q.mu as real, s.mu as real, pitch);
  }

  /** On the sample's line to within a step, or half a step where the row was just stated. */
  ghost predicate OnLine(job: Job, i: nat, id: int, c: nat, x: int, mu: int)
    requires WellFormed(job) && i < |job.samples| && id in job.samples[i].population.ids && c < 3
  {
    && -job.grids.stepPos <= Drift(job, i, id, c, x, mu) <= job.grids.stepPos
    && (StatedFrom(job, i, id) == i ==> -job.grids.stepPos / 2.0 <= Drift(job, i, id, c, x, mu) <= job.grids.stepPos / 2.0)
  }

  /** The same drift, between two trajectories. */
  ghost function Apart(g: Grids, s: Trajectory, q: Trajectory, c: nat): real
    requires Whole(s) && Whole(q) && c < 3
  {
    (q.position[c] - s.position[c]) as real * g.stepPos
    - s.motion[c] as real * g.motionStep(s.sigma, s.flags % 2 != 0, s.window) * ((q.mu - s.mu) as real * g.muStep(s.sigma, s.flags % 2 != 0))
  }

  lemma {:induction false} DriftIsApart(job: Job, i: nat, id: int, q: Trajectory, c: nat)
    requires WellFormed(job) && i < |job.samples| && id in job.samples[i].population.ids && Whole(q) && c < 3
    ensures Drift(job, i, id, c, q.position[c], q.mu) == Apart(job.grids, TrajectoryFor(job.samples[i].population, id), q, c)
  {
    SampleTrajectory(job, i, id);
  }

  lemma {:induction false} RestatedApart(g: Grids, s: Trajectory, t0: real, c: nat)
    requires ValidGrids(g) && Whole(s) && c < 3
    ensures -g.stepPos / 2.0 <= Apart(g, s, Rebased(g, s, t0), c) <= g.stepPos / 2.0
  {
    hide Rebased;
    RestatedBins(g, s, t0, c);
  }

  /** What the writer retains for a row: restated here, or restated as the same line. */
  lemma {:induction false} RetainedStatement(job: Job, w: Written, i: nat, id: int)
    requires WellFormed(job) && FileWritten(job, w) && i < |job.samples| && id in job.samples[i].population.ids
    ensures Complete(w.states[i]) && id in w.states[i].ids
    ensures var g, t0, s, q := job.grids, job.samples[i].t0, TrajectoryFor(job.samples[i].population, id), TrajectoryFor(w.states[i], id);
      if StatedFrom(job, i, id) == i then q == Rebased(g, s, t0) else Rebased(g, s, t0) == Rebased(g, q, t0)
  {
    hide Unmoved, StatedFrom, Rebased;
    RetainedRowIsFrom(job, w, i, id);
    StatedReaches(job, i, id);
    TargetRestates(job, i, id);
  }

  /** The bins the writer retains, against the sample. */
  lemma {:induction false} RetainedOnLine(job: Job, w: Written, i: nat, id: int, c: nat)
    requires WellFormed(job) && FileWritten(job, w) && i < |job.samples| && id in job.samples[i].population.ids && c < 3
    ensures Complete(w.states[i]) && id in w.states[i].ids
    ensures var q := TrajectoryFor(w.states[i], id); OnLine(job, i, id, c, q.position[c], q.mu)
  {
    hide Unmoved, StatedFrom, Rebased, Apart, Drift, AllWritten, TrajectoryFor;
    RetainedStatement(job, w, i, id);
    var g, t0, s, q := job.grids, job.samples[i].t0, TrajectoryFor(job.samples[i].population, id), TrajectoryFor(w.states[i], id);
    DriftIsApart(job, i, id, q, c);
    Halves(g.stepPos);
    if StatedFrom(job, i, id) == i { RestatedApart(g, s, t0, c); } else { SameRestatement(g, s, q, t0, c); }
  }

  lemma {:induction false} Halves(step: real)
    ensures step > 0.0 ==> step / 2.0 <= step
  {
  }

  lemma {:induction false} RetainedMu(job: Job, w: Written, i: nat, id: int)
    requires WellFormed(job) && FileWritten(job, w) && i < |job.samples| && id in job.samples[i].population.ids
    ensures Complete(w.states[i]) && id in w.states[i].ids
    ensures TrajectoryFor(w.states[i], id).mu == Rint(job.samples[StatedFrom(job, i, id)].t0 / Pitch(job, i, id))
  {
    hide Unmoved, StatedFrom, Rebased, AllWritten;
    var j := StatedFrom(job, i, id);
    RetainedRowIsFrom(job, w, i, id);
    TargetRestates(job, j, id);
    PitchKept(job, i, id);
    RestatedBins(job.grids, TrajectoryFor(job.samples[j].population, id), job.samples[j].t0, 0);
    SampleTrajectory(job, j, id);
  }

  /** An unmoved row's pitch is the one it was stated on. */
  lemma {:induction false} PitchKept(job: Job, i: nat, id: int)
    requires WellFormed(job) && i < |job.samples| && id in job.samples[i].population.ids
    ensures Pitch(job, i, id) == Pitch(job, StatedFrom(job, i, id), id)
  {
    hide Unmoved, StatedFrom, Rebased;
    var j := StatedFrom(job, i, id);
    StatedReaches(job, i, id);
    TargetRestates(job, j, id);
    TargetRestates(job, i, id);
    SampleTrajectory(job, i, id);
    SampleTrajectory(job, j, id);
  }

  lemma {:induction false} RowIsRead(job: Job, w: Written, i: nat, id: int)
    requires WellFormed(job) && TargetsFit(job) && FileWritten(job, w) && i < |job.samples| && id in job.samples[i].population.ids
    ensures var p := Composed(Physical(w.records), job.grids.muStep, w.index[i].offset);
      && p.Some? && id in p.value.rows
      && forall a: nat :: a <= 10 ==> a in p.value.rows[id] && p.value.rows[id][a] == Stated(w.states[i], id, a)
  {
    hide RetainedFrom, AllWritten;
    RoundTrip(job, w, i);
    assert SampleWritten(job, i, w.records, w.index, w.states) by { AllSamplesWritten(job, w, i); }
    SampleSameGrids(job, i, w.records, w.index, w.states);
    ViewStates(w.states[i], id);
  }

  lemma {:induction false} AllSamplesWritten(job: Job, w: Written, i: nat)
    requires WellFormed(job) && FileWritten(job, w) && i < |job.samples|
    ensures SampleWritten(job, i, w.records, w.index, w.states)
  {
  }

  lemma {:induction false} ViewStates(t: Table, id: int)
    requires ValidState(t) && Complete(t) && id in t.ids
    ensures id in View(t).rows
    ensures forall a: nat :: a <= 10 ==> a in View(t).rows[id] && View(t).rows[id][a] == Stated(t, id, a)
  {
    ViewRow(t, IndexOf(t.ids, id));
    assert forall a: nat :: a <= 10 ==> a in REQUIRED;
  }

  /** A row as chunk `i` should read: outside its anchor the sample's own, its birth-time bin
      the one nearest the instant it was last stated at, its position bins on the sample's
      line. */
  ghost predicate ReadsAs(job: Job, i: nat, id: int, row: Gaussian)
    requires WellFormed(job) && i < |job.samples| && id in job.samples[i].population.ids
  {
    && (forall a: nat :: a <= 10 ==> a in row)
    && (forall a: nat :: a <= 10 && a != 0 && a != 7 ==> row[a] == Stated(job.samples[i].population, id, a))
    && row[7] == [Rint(job.samples[StatedFrom(job, i, id)].t0 / Pitch(job, i, id))]
    && |row[0]| == 3 && forall c: nat :: c < 3 ==> OnLine(job, i, id, c, row[0][c], row[7][0])
  }

  lemma {:induction false} RetainedReads(job: Job, i: nat, id: int, t: Table, row: Gaussian)
    requires WellFormed(job) && i < |job.samples| && id in job.samples[i].population.ids && RetainedFrom(job, i, id, t)
    requires forall a: nat :: a <= 10 ==> a in row && row[a] == Stated(t, id, a)
    requires TrajectoryFor(t, id).mu == Rint(job.samples[StatedFrom(job, i, id)].t0 / Pitch(job, i, id))
    requires forall c: nat :: c < 3 ==> OnLine(job, i, id, c, TrajectoryFor(t, id).position[c], TrajectoryFor(t, id).mu)
    ensures ReadsAs(job, i, id, row)
  {
    hide OnLine, StatedFrom, Pitch, Stated, TrajectoryFor, Target, WellFormed;
    AnchorOfRow(t, id);
  }

  /** Every row a reader composes from a written file reads as it should. */
  lemma {:induction false} ReadRow(job: Job, w: Written, i: nat, id: int)
    requires WellFormed(job) && TargetsFit(job) && FileWritten(job, w) && i < |job.samples| && id in job.samples[i].population.ids
    ensures var p := Composed(Physical(w.records), job.grids.muStep, w.index[i].offset);
      p.Some? && id in p.value.rows && ReadsAs(job, i, id, p.value.rows[id])
  {
    hide OnLine, StatedFrom, Pitch, AllWritten, TargetsFit, Stated, TrajectoryFor, RetainedFrom, ReadsAs;
    RowIsRead(job, w, i, id);
    RetainedRowIsFrom(job, w, i, id);
    RetainedMu(job, w, i, id);
    forall c: nat | c < 3
      ensures var q := TrajectoryFor(w.states[i], id); OnLine(job, i, id, c, q.position[c], q.mu)
    {
      RetainedOnLine(job, w, i, id, c);
    }
    RetainedReads(job, i, id, w.states[i], Composed(Physical(w.records), job.grids.muStep, w.index[i].offset).value.rows[id]);
  }
}
