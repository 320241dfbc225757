/** What a written file's records say, from the cadence, the forced indices and the samples
    alone: where its keyframes fall, what each delta references and how deep it is. */
module WriterCadence {
  import opened Registry
  import opened Populations
  import opened Times
  import opened Records
  import opened StreamedReader
  import opened DeltaGroups
  import opened Trajectories
  import opened SequenceWriter
  import opened WriterLaws
  import opened Timeline
  import opened WriterAccepted
  import opened WriterStreams

  /** Sample `i` starts a group: it is the first, it was asked for, or the cadence says so. */
  ghost predicate Opens(job: Job, i: nat) {
    i == 0 || i in job.kd.forced || exists q: nat :: Multiple(job, q, i)
  }

  predicate Multiple(job: Job, q: nat, i: nat) {
    job.kd.every > 0 && i == q * job.kd.every
  }

  lemma {:induction false} OpensIsKeyframe(job: Job, i: nat)
    ensures Opens(job, i) <==> IsKeyframe(i, job.kd)
  {
    if job.kd.every > 0 {
      if i % job.kd.every == 0 {
        QuotientTimes(i, job.kd.every);
        assert Multiple(job, i / job.kd.every, i);
      }
      if q: nat :| Multiple(job, q, i) { TimesHasNoRest(q, job.kd.every); }
    }
  }

  lemma {:induction false} QuotientTimes(n: nat, c: nat)
    requires c > 0
    ensures n == (n / c) * c + n % c
  {
  }

  lemma {:induction false} TimesHasNoRest(q: nat, c: nat)
    requires c > 0
    ensures (q * c) % c == 0
  {
    var n := q * c;
    var rest := n % c;
    assert (n / c) * c + rest == n;
    OneQuotient(q, n / c, c, rest);
  }

  lemma {:induction false} OneQuotient(q: nat, p: nat, c: nat, rest: nat)
    requires q * c == p * c + rest && rest < c
    ensures rest == 0
  {
    if q > p {
      Difference(q, p, c);
      AtLeast(q - p, c);
    } else {
      Difference(p, q, c);
    }
  }

  lemma {:induction false} Difference(q: nat, p: nat, c: nat)
    requires q >= p
    ensures (q - p) * c == q * c - p * c && (q - p) * c >= 0
  {
  }

  lemma {:induction false} AtLeast(d: nat, c: nat)
    requires d > 0
    ensures d * c >= c
  {
  }

  /** Sample `i`'s record is a keyframe exactly where a group opens. */
  lemma {:induction false} KeyframesFall(job: Job, w: Written, i: nat)
    requires WellFormed(job) && FileWritten(job, w) && i < |job.samples|
    ensures w.records[3 + i].body.Chunk? <==> Opens(job, i)
    ensures w.records[3 + i].body.DeltaChunk? <==> !Opens(job, i)
    ensures w.index[i].kind == (if Opens(job, i) then 0 else 1)
  {
    OpensIsKeyframe(job, i);
    if IsKeyframe(i, job.kd) {
      KeyframeRecord(job, w, i);
      EntryOfKeyframe(job, w, i);
    } else {
      DeltaHeadOf(job, w, i);
      EntryOfDelta(job, w, i);
    }
  }

  // ---- how deep, and over what ----

  /** Sample `k` is the last to start a group before sample `i`, which starts none. */
  ghost predicate Heads(job: Job, k: nat, i: nat) {
    k < i && Opens(job, k) && forall j :: k < j <= i ==> !Opens(job, j)
  }

  lemma {:induction false} HeadIsKeyframeIndex(job: Job, k: nat, i: nat)
    requires Heads(job, k, i)
    ensures KeyframeIndex(i, job.kd) == k && !IsKeyframe(i, job.kd)
    ensures DepthOf(i, job.kd) == if job.kd.mode == 0 then 1 else i - k
    decreases i
  {
    OpensIsKeyframe(job, k);
    OpensIsKeyframe(job, i);
    if k + 1 < i { HeadIsKeyframeIndex(job, k, i - 1); } else { OpensIsKeyframe(job, i - 1); }
  }

  lemma {:induction false} HeadExists(job: Job, i: nat)
    requires !Opens(job, i)
    ensures Heads(job, KeyframeIndex(i, job.kd), i)
  {
    var k := KeyframeIndex(i, job.kd);
    OpensIsKeyframe(job, i);
    OpensIsKeyframe(job, k);
    forall j | k < j <= i
      ensures !Opens(job, j)
    {
      OpensIsKeyframe(job, j);
    }
  }

  /** A keyframe stands alone, and its entry names itself. */
  lemma {:induction false} KeyframeStandsAlone(job: Job, w: Written, i: nat)
    requires WellFormed(job) && FileWritten(job, w) && i < |job.samples| && Opens(job, i)
    ensures w.records[3 + i].body.Chunk?
    ensures var e := w.index[i];
      e.offset == w.records[3 + i].offset && e.length == w.records[3 + i].length && e.kind == 0 && e.depth == 0 && e.reference == 0 && e.keyframe == e.offset
  {
    OpensIsKeyframe(job, i);
    KeyframeRecord(job, w, i);
    EntryOfKeyframe(job, w, i);
    SampleIndexed(job, w, i);
  }

  /** A delta names its group's keyframe, and is written over it or over the record before
      its own; its depth counts the records in between. */
  lemma {:induction false} DeltaStandsOn(job: Job, w: Written, i: nat, k: nat)
    requires WellFormed(job) && FileWritten(job, w) && i < |job.samples| && Heads(job, k, i)
    ensures w.records[3 + i].body.DeltaChunk?
    ensures var head := w.records[3 + i].body.head;
      && (head.mode == 0 || head.mode == 1) && head.mode == job.kd.mode && head.level == 0
      && head.keyframe == w.records[3 + k].offset
      && (head.mode == 0 ==> head.reference == w.records[3 + k].offset && head.depth == 1)
      && (head.mode == 1 ==> head.reference == w.records[3 + i - 1].offset && head.depth == i - k)
    ensures var e, head := w.index[i], w.records[3 + i].body.head;
      && e.offset == w.records[3 + i].offset && e.length == w.records[3 + i].length && e.kind == 1
      && e.mode == head.mode && e.reference == head.reference && e.keyframe == head.keyframe && e.depth == head.depth
  {
    hide FileWritten;
    HeadIsKeyframeIndex(job, k, i);
    DeltaHeadOf(job, w, i);
    EntryOfDelta(job, w, i);
    SampleIndexed(job, w, i);
    SampleIndexed(job, w, k);
    SampleIndexed(job, w, i - 1);
  }

  /** Every record runs until the next sample, or the end. */
  lemma {:induction false} RecordRuns(job: Job, w: Written, i: nat)
    requires WellFormed(job) && FileWritten(job, w) && i < |job.samples|
    ensures var b := w.records[3 + i].body;
      && (b.Chunk? ==> b.t0 == w.index[i].t0 && b.t1 == w.index[i].t1 && b.count == |job.samples[i].population.ids|)
      && (b.DeltaChunk? ==> b.head.t0 == w.index[i].t0 && b.head.t1 == w.index[i].t1)
    ensures w.index[i].t0 == Finite(job.samples[i].t0)
    ensures w.index[i].t1 == if i == |job.samples| - 1 then job.duration else Finite(job.samples[i + 1].t0)
    ensures w.index[i].live == |job.samples[i].population.ids|
  {
    assert SampleWritten(job, i, w.records, w.index, w.states);
    SampleSameGrids(job, i, w.records, w.index, w.states);
    if !IsKeyframe(i, job.kd) { var g := GroupsOf(job, w, i); }
  }

  // ---- how deep at most ----

  /** With a cadence, no depth reaches it: a delta is no further from its keyframe than
      from the last multiple. */
  lemma {:induction false} DepthWithinCadence(kd: Options, i: nat)
    requires kd.every > 0
    ensures DepthOf(i, kd) <= i % kd.every < kd.every
  {
    if !IsKeyframe(i, kd) {
      DepthWithinCadence(kd, i - 1);
      NextRest(i - 1, kd.every);
    }
  }

  lemma {:induction false} NextRest(n: nat, c: nat)
    requires c > 0 && (n + 1) % c != 0
    ensures (n + 1) % c == n % c + 1
  {
    var rest := n % c;
    assert n == (n / c) * c + rest;
    if rest + 1 < c {
      RestOf(n + 1, n / c, c, rest + 1);
    } else {
      assert (n / c) * c + c == (n / c + 1) * c;
      RestOf(n + 1, n / c + 1, c, 0);
    }
  }

  lemma {:induction false} RestOf(n: nat, q: nat, c: nat, rest: nat)
    requires c > 0 && n == q * c + rest && rest < c
    ensures n % c == rest
  {
    var other := n % c;
    assert n == (n / c) * c + other;
    if other < rest { OneQuotient(n / c, q, c, rest - other); } else { OneQuotient(q, n / c, c, other - rest); }
  }

  lemma {:induction false} ChainsStayShort(job: Job, w: Written, i: nat)
    requires WellFormed(job) && FileWritten(job, w) && i < |job.samples| && job.kd.every > 0
    ensures w.index[i].depth <= i % job.kd.every < job.kd.every
    ensures w.records[3 + i].body.DeltaChunk? ==> w.records[3 + i].body.head.depth == w.index[i].depth
  {
    DepthWithinCadence(job.kd, i);
    DepthInIndex(job, w, i);
    RecordDepth(job, w, i);
  }

  /** So a seek reads fewer records than the cadence, and its chain starts at the head. */
  lemma {:induction false} SeeksStayShort(job: Job, w: Written, i: nat)
    requires WellFormed(job) && TargetsFit(job) && SamplesTile(job) && WindowsFit(job) && FileWritten(job, w) && i < |job.samples|
    requires job.kd.every > 0
    ensures ChainOf(w.index, w.index[i]).Some? && |ChainOf(w.index, w.index[i]).value| <= job.kd.every
    ensures forall k: nat :: Heads(job, k, i) ==> ChainOf(w.index, w.index[i]).value[0] == w.index[k]
    ensures Opens(job, i) ==> ChainOf(w.index, w.index[i]).value == [w.index[i]]
  {
    hide TargetsFit, SamplesTile, WindowsFit, FileWritten, WellFormed;
    ChainReachesKeyframe(job, w, i);
    DepthWithinCadence(job.kd, i);
    OpensIsKeyframe(job, i);
    forall k: nat | Heads(job, k, i)
      ensures KeyframeIndex(i, job.kd) == k
    {
      HeadIsKeyframeIndex(job, k, i);
    }
  }

  // ---- what can be written ----

  /** Wherever both populations have a gaussian, its sigma, flags and window are the same. */
  ghost predicate KeepsGrids(before: Table, after: Table) {
    forall u, v, a |
      && 0 <= u < |before.ids| && 0 <= v < |after.ids| && before.ids[u] == after.ids[v] && a in {8, 9, 10}
      && a in before.bins && u < |before.bins[a]| && a in after.bins && v < |after.bins[a]| ::
      after.bins[a][v] == before.bins[a][u]
  }

  lemma {:induction false} KeptByRows(before: Table, after: Table)
    requires Complete(before) && Complete(after) && Unique(before.ids) && Unique(after.ids)
    ensures InvariantsKept(before, after) <==> KeepsGrids(before, after)
  {
    if InvariantsKept(before, after) {
      forall u, v, a | 0 <= u < |before.ids| && 0 <= v < |after.ids| && before.ids[u] == after.ids[v] && a in {8, 9, 10}
        ensures after.bins[a][v] == before.bins[a][u]
      {
        IndexOfUnique(before.ids, u);
        IndexOfUnique(after.ids, v);
        assert Stated(after, after.ids[v], a) == Stated(before, before.ids[u], a);
      }
    }
    if KeepsGrids(before, after) {
      forall id, a | id in before.ids && id in after.ids && a in REQUIRED && IsGopInvariant(a)
        ensures Stated(after, id, a) == Stated(before, id, a)
      {
        var u, v := IndexOf(before.ids, id), IndexOf(after.ids, id);
        assert a in {8, 9, 10} && before.ids[u] == after.ids[v];
      }
    }
  }

  /** What one sample needs: the grids of the sample it is written over, and a chain no
      longer than its 16-bit field holds. */
  ghost predicate Continues(job: Job, k: nat, i: nat)
    requires k < i < |job.samples|
  {
    && KeepsGrids(job.samples[if job.kd.mode == 0 then k else i - 1].population, job.samples[i].population)
    && (job.kd.mode == 1 ==> i - k < 0x10000)
  }

  lemma {:induction false} WritableExactly(job: Job)
    requires WellFormed(job)
    ensures Writable(job) <==> forall k: nat, i: nat :: i < |job.samples| && Heads(job, k, i) ==> Continues(job, k, i)
  {
    forall k: nat, i: nat | i < |job.samples| && Heads(job, k, i)
      ensures !IsKeyframe(i, job.kd) && (DeltaWritable(job, i) <==> Continues(job, k, i))
    {
      DeltaContinues(job, k, i);
    }
    forall i: nat | i < |job.samples| && !IsKeyframe(i, job.kd)
      ensures Heads(job, KeyframeIndex(i, job.kd), i)
    {
      OpensIsKeyframe(job, i);
      HeadExists(job, i);
    }
  }

  lemma {:induction false} DeltaContinues(job: Job, k: nat, i: nat)
    requires WellFormed(job) && i < |job.samples| && Heads(job, k, i)
    ensures !IsKeyframe(i, job.kd) && (DeltaWritable(job, i) <==> Continues(job, k, i))
  {
    HeadIsKeyframeIndex(job, k, i);
    KeptByRows(job.samples[ReferenceIndex(i, job.kd)].population, job.samples[i].population);
  }

  /** With a cadence the field can hold, only the grids matter. */
  lemma {:induction false} CadenceFits(job: Job)
    requires WellFormed(job) && 0 < job.kd.every <= 0x10000
    ensures Writable(job) <==> forall k: nat, i: nat :: i < |job.samples| && Heads(job, k, i) ==>
      KeepsGrids(job.samples[if job.kd.mode == 0 then k else i - 1].population, job.samples[i].population)
  {
    WritableExactly(job);
    forall k: nat, i: nat | Heads(job, k, i) && job.kd.mode == 1
      ensures i - k < 0x10000
    {
      HeadIsKeyframeIndex(job, k, i);
      DepthWithinCadence(job.kd, i);
    }
  }

  // ---- the file around the states ----

  /** How many records follow the states. */
  function Tail(job: Job): nat {
    (if !job.kd.index then 0 else if job.kd.statistics then |job.samples| + 1 else |job.samples|) + 1
  }

  lemma {:induction false} TailRecord(job: Job, w: Written, j: nat)
    requires WellFormed(job) && FileWritten(job, w) && j < Tail(job)
    ensures |w.records| == 3 + |job.samples| + Tail(job)
    ensures w.records[3 + |job.samples| + j].body ==
      if j + 1 == Tail(job) then Other(0x02) else if j < |job.samples| then ChunkIndex(w.index[j]) else Other(0x0C)
  {
    hide AllWritten, ValidRecords, WellFormed;
    var summary := Summary(job, w.index);
    assert w.records[FRONT + |job.samples| + j].body == summary[j];
  }

  /** Front matter, states, then one entry a sample, in order, when an index is wanted, and
      the footer last. */
  lemma {:induction false} FileLaidOut(job: Job, w: Written, m: nat)
    requires WellFormed(job) && FileWritten(job, w) && m < |w.records|
    ensures |w.records| == 3 + |job.samples| + Tail(job)
    ensures w.records[m].offset == if m == 0 then 8 else w.records[m - 1].offset + w.records[m - 1].length
    ensures var n, b := |job.samples|, w.records[m].body;
      && (m == 0 ==> b == Header(true, 0)) && (m == 1 ==> b == Quantization(job.grids.muStep)) && (m == 2 ==> b == WindowTable(job.windows))
      && (3 <= m < 3 + n ==> b.Chunk? || b.DeltaChunk?)
      && (job.kd.index && 3 + n <= m < 3 + n + n ==> b == ChunkIndex(w.index[m - 3 - n]))
      && (m + 1 == |w.records| ==> b == Other(0x02))
  {
    hide AllWritten, WellFormed;
    Layouts(job, w, m);
    TailRecord(job, w, 0);
    if 3 + |job.samples| <= m { TailRecord(job, w, m - 3 - |job.samples|); }
    if m > 0 { assert w.records[m - 1 + 1].offset == w.records[m - 1].offset + w.records[m - 1].length; }
  }

  /** A reader collecting the entries of the file it walks collects the writer's. */
  lemma {:induction false} IndexIsCollected(job: Job, w: Written, m: nat)
    requires WellFormed(job) && FileWritten(job, w) && 3 + |job.samples| <= m <= |w.records|
    ensures var n := |job.samples|;
      IndexEntries(w.records, m) == if !job.kd.index then [] else if m < 3 + n + n then w.index[..m - 3 - n] else w.index
    decreases m
  {
    hide FileWritten, WellFormed, Summary;
    var n := |job.samples|;
    SameLength(job, w);
    if m == 3 + n {
      NoEntryBefore(job, w, m);
    } else {
      IndexIsCollected(job, w, m - 1);
      TailRecord(job, w, m - 1 - 3 - n);
      if job.kd.index && m <= 3 + n + n { assert w.index[..m - 3 - n] == w.index[..m - 1 - 3 - n] + [w.index[m - 1 - 3 - n]]; }
    }
  }

  lemma {:induction false} SameLength(job: Job, w: Written)
    requires WellFormed(job) && FileWritten(job, w)
    ensures |w.index| == |job.samples| && |w.records| == 3 + |job.samples| + Tail(job)
  {
    TailRecord(job, w, 0);
  }

  lemma {:induction false} NoEntryBefore(job: Job, w: Written, m: nat)
    requires WellFormed(job) && FileWritten(job, w) && m <= 3 + |job.samples|
    ensures IndexEntries(w.records, m) == []
  {
    hide AllWritten, ValidRecords;
    if m > 0 {
      NoEntryBefore(job, w, m - 1);
      Layouts(job, w, m - 1);
    }
  }
}
