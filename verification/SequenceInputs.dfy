/** The C++ encoder's guard on a sequence of samples: a tiled timeline, columns as long as
    the counts say, identities unique in a sample, and no identity reused after it died. */
module SequenceInputs {
  import opened Populations
  import opened Times
  import opened IdentityAudit
  import opened IdentityPartitions

  /** Floats per gaussian of the nine columns, in the order they are checked. */
  const WIDTHS: seq<nat> := [3, 3, 4, 4, 3, 1, 1, 1, 1]

  /** One sample as a caller hands it over; `columns` holds each span's own length. */
  datatype Input = Input(t0: Time, count: nat, columns: seq<nat>, ids: seq<int>)

  predicate NineColumns(samples: seq<Input>) {
    forall i :: 0 <= i < |samples| ==> |samples[i].columns| == |WIDTHS|
  }

  /** Every column holds `count` rows, and the count fits 32 bits. */
  predicate ColumnsHold(count: nat, columns: seq<nat>)
    requires |columns| == |WIDTHS|
  {
    count <= 0xFFFF_FFFF && forall c :: 0 <= c < |WIDTHS| ==> count * WIDTHS[c] <= columns[c]
  }

  /** Comparing against a quotient decides the product without forming it. */
  lemma {:induction false} QuotientDecides(count: nat, width: nat, size: nat)
    requires width > 0
    ensures count <= size / width <==> count * width <= size
  {
    var q := size / width;
    assert q * width <= size < (q + 1) * width;
    if count <= q {
      assert count * width <= q * width;
    } else {
      assert (q + 1) * width <= count * width;
    }
  }

  method CheckColumns(count: nat, columns: seq<nat>) returns (ok: bool)
    requires |columns| == |WIDTHS|
    ensures ok <==> ColumnsHold(count, columns)
  {
    if count > 0xFFFF_FFFF { return false; }
    for c := 0 to |WIDTHS|
      invariant forall k :: 0 <= k < c ==> count * WIDTHS[k] <= columns[k]
    {
      QuotientDecides(count, WIDTHS[c], columns[c]);
      if count > columns[c] / WIDTHS[c] { return false; }
    }
    return true;
  }

  /** Three floats a row of position, three of scale, four each of rotation and colour,
      three of motion, and one each of birth time, sigma and the two window bounds. */
  lemma {:induction false} ColumnsInFull(count: nat, columns: seq<nat>)
    requires |columns| == 9
    ensures |columns| == |WIDTHS|
    ensures ColumnsHold(count, columns) <==>
      && count < 0x1_0000_0000
      && columns[0] >= 3 * count && columns[1] >= 3 * count && columns[2] >= 4 * count && columns[3] >= 4 * count && columns[4] >= 3 * count
      && columns[5] >= count && columns[6] >= count && columns[7] >= count && columns[8] >= count
  {
    assert count * WIDTHS[0] == count * WIDTHS[1] == count * WIDTHS[4] == 3 * count;
    assert count * WIDTHS[2] == count * WIDTHS[3] == 4 * count;
    assert count * WIDTHS[5] == count * WIDTHS[6] == count * WIDTHS[7] == count * WIDTHS[8] == count;
  }

  // ---- the timeline ----

  predicate TimelineTiles(samples: seq<Input>, duration: Time) {
    && duration != NaN && Less(Finite(0.0), duration) && samples != []
    && (forall i :: 0 <= i < |samples| ==> samples[i].t0.Finite?)
    && samples[0].t0 == Finite(0.0)
    && (forall i, j :: 0 <= i < j < |samples| ==> Less(samples[i].t0, samples[j].t0))
    && Less(samples[|samples| - 1].t0, duration)
  }

  method CheckTimeline(samples: seq<Input>, duration: Time) returns (ok: bool)
    ensures ok <==> TimelineTiles(samples, duration)
  {
    if duration == NaN || AtMost(duration, Finite(0.0)) || samples == [] { return false; }
    for i := 0 to |samples|
      invariant forall j :: 0 <= j < i ==> samples[j].t0.Finite?
    {
      if !samples[i].t0.Finite? { return false; }
    }
    if !Equal(samples[0].t0, Finite(0.0)) { return false; }
    for i := 1 to |samples|
      invariant forall j, k :: 0 <= j < k < i ==> Less(samples[j].t0, samples[k].t0)
    {
      if !Less(samples[i - 1].t0, samples[i].t0) { return false; }
    }
    return Less(samples[|samples| - 1].t0, duration);
  }

  // ---- lifetimes ----

  function Lives(samples: seq<Input>): (states: Timeline)
    ensures |states| == |samples| && forall i :: 0 <= i < |states| ==> states[i] == samples[i].ids
  {
    seq(|samples|, i requires 0 <= i < |samples| => samples[i].ids)
  }

  /** Each identity is live over one unbroken run of samples. */
  predicate OneRunEach(states: Timeline) {
    forall i, j, k, id :: 0 <= i < j < k < |states| && id in states[i] && id in states[k] ==> id in states[j]
  }

  /** Nobody in state `k` was absent just before and present earlier. */
  predicate NobodyBack(states: Timeline, k: nat)
    requires k < |states|
  {
    forall id, e :: id in states[k] && id !in LiveBefore(states, k) && 0 <= e < k ==> id !in states[e]
  }

  lemma {:induction false} RunsFromSteps(states: Timeline, i: nat, j: nat, k: nat, id: int)
    requires forall n :: 0 <= n < |states| ==> NobodyBack(states, n)
    requires i < j < k < |states| && id in states[i] && id in states[k]
    ensures id in states[j]
    decreases k
  {
    assert NobodyBack(states, k);
    assert LiveBefore(states, k) == states[k - 1] && id in states[k - 1];
    if j < k - 1 { RunsFromSteps(states, i, j, k - 1, id); }
  }

  /** Looking one sample back, and further only for newcomers, decides whole lifetimes. */
  lemma {:induction false} StepsAreRuns(states: Timeline)
    ensures (forall k :: 0 <= k < |states| ==> NobodyBack(states, k)) <==> OneRunEach(states)
  {
    if forall k :: 0 <= k < |states| ==> NobodyBack(states, k) {
      forall i, j, k, id | 0 <= i < j < k < |states| && id in states[i] && id in states[k]
        ensures id in states[j]
      {
        RunsFromSteps(states, i, j, k, id);
      }
    }
    if OneRunEach(states) {
      forall k | 0 <= k < |states|
        ensures NobodyBack(states, k)
      {
        forall id, e | id in states[k] && id !in LiveBefore(states, k) && 0 <= e < k
          ensures id !in states[e]
        {
          if e < k - 1 { assert id !in states[k - 1]; }
        }
      }
    }
  }

  /** An identity of one sample, no set yet holding it twice. */
  method CheckUnique(ids: seq<int>) returns (unique: bool, live: set<int>)
    ensures unique <==> Unique(ids)
    ensures unique ==> forall id :: id in live <==> id in ids
  {
    live := {};
    for row := 0 to |ids|
      invariant Unique(ids[..row]) && forall id :: id in live <==> id in ids[..row]
    {
      var id := ids[row];
      assert ids[..row + 1] == ids[..row] + [id];
      if id in live {
        assert id in ids[..row];
        return false, live;
      }
      live := live + {id};
      assert forall j :: 0 <= j < row ==> ids[..row][j] == ids[j] && ids[j] in ids[..row];
    }
    assert ids[..|ids|] == ids;
    return true, live;
  }

  /** Whether an earlier sample carries `id`, scanning them from the first. */
  method AppearedEarlier(samples: seq<Input>, i: nat, id: int) returns (appeared: bool)
    requires i <= |samples|
    ensures appeared <==> exists e :: 0 <= e < i && id in samples[e].ids
  {
    appeared := false;
    var earlier := 0;
    while earlier < i && !appeared
      invariant earlier <= i && (appeared ==> exists e :: 0 <= e < i && id in samples[e].ids)
      invariant !appeared ==> forall e :: 0 <= e < earlier ==> id !in samples[e].ids
      decreases i - earlier
    {
      for row := 0 to |samples[earlier].ids|
        invariant !appeared && forall r :: 0 <= r < row ==> samples[earlier].ids[r] != id
      {
        if samples[earlier].ids[row] == id {
          appeared := true;
          break;
        }
      }
      earlier := earlier + 1;
    }
  }

  /** Nobody in sample `i` is back from an earlier one. */
  method CheckReuse(samples: seq<Input>, i: nat, liveBefore: set<int>) returns (ok: bool)
    requires i < |samples| && forall id :: id in liveBefore <==> id in LiveBefore(Lives(samples), i)
    ensures ok <==> NobodyBack(Lives(samples), i)
  {
    var ids := samples[i].ids;
    for row := 0 to |ids|
      invariant forall r, e :: 0 <= r < row && ids[r] !in liveBefore && 0 <= e < i ==> ids[r] !in samples[e].ids
    {
      if ids[row] !in liveBefore {
        var appeared := AppearedEarlier(samples, i, ids[row]);
        if appeared {
          var e :| 0 <= e < i && ids[row] in samples[e].ids;
          assert ids[row] in Lives(samples)[i] && ids[row] in Lives(samples)[e];
          return false;
        }
      }
    }
    return true;
  }

  predicate SampleHolds(s: Input)
    requires |s.columns| == |WIDTHS|
  {
    ColumnsHold(s.count, s.columns) && |s.ids| == s.count && Unique(s.ids)
  }

  /** The guard. It keeps the previous population and nothing more, and accepts exactly the
      tiled sequences whose columns hold their counts, whose identities are unique in each
      sample, and in which every identity lives over one unbroken run. */
  method CheckInputs(samples: seq<Input>, duration: Time) returns (ok: bool)
    requires NineColumns(samples)
    ensures ok <==>
      && TimelineTiles(samples, duration)
      && (forall i :: 0 <= i < |samples| ==> SampleHolds(samples[i]))
      && OneRunEach(Lives(samples))
  {
    StepsAreRuns(Lives(samples));
    ok := CheckTimeline(samples, duration);
    if !ok { return; }
    var liveIds: set<int> := {};
    for i := 0 to |samples|
      invariant forall id :: id in liveIds <==> id in LiveBefore(Lives(samples), i)
      invariant forall j :: 0 <= j < i ==> SampleHolds(samples[j]) && NobodyBack(Lives(samples), j)
    {
      var s := samples[i];
      var columns := CheckColumns(s.count, s.columns);
      if !columns || |s.ids| != s.count { return false; }
      var unique, uniqueIds := CheckUnique(s.ids);
      if !unique { return false; }
      var newcomers := CheckReuse(samples, i, liveIds);
      if !newcomers { return false; }
      liveIds := uniqueIds;
    }
  }

  // ---- the two languages agree ----

  lemma {:induction false} EverLiveIs(states: Timeline, k: nat, id: int)
    requires k <= |states|
    ensures id in EverLive(states, k) <==> exists e :: 0 <= e < k && id in states[e]
  {
    if k > 0 { EverLiveIs(states, k - 1, id); }
  }

  /** The encoder's nested scan and the validator's audit ask one question: a timeline of u32
      identities never reuses one exactly when each lives over one unbroken run. */
  lemma {:induction false} GuardsAgree(states: Timeline)
    requires forall k, id :: 0 <= k < |states| && id in states[k] ==> IsU32(id)
    ensures NeverReused(states) <==> OneRunEach(states)
  {
    StepsAreRuns(states);
    forall k | 0 <= k < |states|
      ensures NobodyBack(states, k) <==> forall id :: !Reintroduces(states, k, id)
    {
      BackIsReintroduced(states, k);
    }
    if OneRunEach(states) {
      forall k, id | 0 <= k < |states|
        ensures !(id in states[k] && !IsU32(id)) && !Reintroduces(states, k, id)
      {
        assert NobodyBack(states, k);
      }
    }
  }

  lemma {:induction false} BackIsReintroduced(states: Timeline, k: nat)
    requires k < |states|
    ensures NobodyBack(states, k) <==> forall id :: !Reintroduces(states, k, id)
  {
    forall id
      ensures id in EverLive(states, k) <==> exists e :: 0 <= e < k && id in states[e]
    {
      EverLiveIs(states, k, id);
    }
    if forall id :: !Reintroduces(states, k, id) {
      forall id, e | id in states[k] && id !in LiveBefore(states, k) && 0 <= e < k
        ensures id !in states[e]
      {
        assert !Reintroduces(states, k, id);
      }
    }
  }

  // ---- what is accepted, in plain terms ----

  /** Everyone who ever lives. */
  function Everyone(states: Timeline): set<int> {
    set k, p | 0 <= k < |states| && 0 <= p < |states[k]| :: states[k][p]
  }

  lemma {:induction false} EveryoneLived(states: Timeline)
    ensures EverLive(states, |states|) == Everyone(states)
  {
    forall id
      ensures id in EverLive(states, |states|) <==> id in Everyone(states)
    {
      EverLiveIs(states, |states|, id);
      if k :| 0 <= k < |states| && id in states[k] {
        var p :| 0 <= p < |states[k]| && states[k][p] == id;
      }
    }
  }

  lemma {:induction false} WithinU32(states: Timeline)
    ensures (forall k, id :: 0 <= k < |states| && id in states[k] ==> IsU32(id)) <==>
            (forall k, p :: 0 <= k < |states| && 0 <= p < |states[k]| ==> 0 <= states[k][p] <= 0xFFFF_FFFF)
  {
    if forall k, p :: 0 <= k < |states| && 0 <= p < |states[k]| ==> 0 <= states[k][p] <= 0xFFFF_FFFF {
      forall k, id | 0 <= k < |states| && id in states[k]
        ensures IsU32(id)
      {
        var p :| 0 <= p < |states[k]| && states[k][p] == id;
      }
    }
    if forall k, id :: 0 <= k < |states| && id in states[k] ==> IsU32(id) {
      forall k, p | 0 <= k < |states| && 0 <= p < |states[k]|
        ensures 0 <= states[k][p] <= 0xFFFF_FFFF
      {
        assert IsU32(states[k][p]);
      }
    }
  }

  /** The count is refused to exactly the timelines that name an identity no u32 holds or
      break a lifetime in two; and the one-pass audit also to those of too many identities. */
  lemma {:induction false} CountedExactly(states: Timeline, ceiling: nat)
    ensures NeverReused(states) <==>
      && (forall k, p :: 0 <= k < |states| && 0 <= p < |states[k]| ==> 0 <= states[k][p] <= 0xFFFF_FFFF)
      && (forall i, j, k, id :: 0 <= i < j < k < |states| && id in states[i] && id in states[k] ==> id in states[j])
    ensures AllClean(states, ceiling) <==> NeverReused(states) && |Everyone(states)| <= ceiling
    ensures EverLive(states, |states|) == Everyone(states)
  {
    EveryoneLived(states);
    WithinU32(states);
    AllInRange(states);
    if forall k, id :: 0 <= k < |states| && id in states[k] ==> IsU32(id) { GuardsAgree(states); }
    if |Everyone(states)| <= ceiling { CleanThroughout(states, ceiling); }
    if AllClean(states, ceiling) { CleanHasRoom(states, ceiling); }
  }

  lemma {:induction false} AllInRange(states: Timeline)
    ensures NeverReused(states) ==> forall k, id :: 0 <= k < |states| && id in states[k] ==> IsU32(id)
  {
    if NeverReused(states) {
      forall k, id | 0 <= k < |states| && id in states[k]
        ensures IsU32(id)
      {
        assert !(id in states[k] && !IsU32(id)) && !Reintroduces(states, k, id);
      }
    }
  }

  lemma {:induction false} CleanHasRoom(states: Timeline, ceiling: nat)
    requires AllClean(states, ceiling)
    ensures |EverLive(states, |states|)| <= ceiling
  {
    if states != [] { assert Clean(states, |states| - 1, ceiling); }
  }
}
