/** The C++ validator's exact identity count: introductions spilled to sixteen partitions by
    their high bits, each then replayed over a bitmap of its low bits. */
module IdentityCounter {
  import opened Wrappers
  import opened Populations
  import opened WordBits

  const BUCKETS: nat := 16
  const LOW_SPACE: nat := 0x1000_0000
  const WORD_BITS: nat := 64
  const WORDS: nat := 0x40_0000

  /** One introduction as a partition stores it. */
  datatype Introduction = Introduction(id: nat, offset: nat)

  function BucketOf(id: nat): nat {
    id / LOW_SPACE
  }

  function LowOf(id: nat): (low: nat)
    ensures low < LOW_SPACE
  {
    id % LOW_SPACE
  }

  lemma {:induction false} BucketsAreExact(id: nat, other: nat)
    requires id <= 0xFFFF_FFFF
    ensures BucketOf(id) < BUCKETS == 16
    ensures BucketOf(id) == BucketOf(other) && LowOf(id) == LowOf(other) ==> id == other
  {
  }

  // ---- the bitmap ----

  /** The bit for `low` is set. */
  predicate Marked(words: seq<nat>, low: nat)
    requires |words| == WORDS && low < LOW_SPACE
  {
    IsSet(words[low / WORD_BITS], low % WORD_BITS)
  }

  /** The words are of 64 bits, and their bits are the low parts one for one. */
  lemma {:induction false} WordsHoldLows(word: nat, bit: nat)
    ensures word < WORDS && bit < 64 <==> word * 64 + bit < LOW_SPACE && bit < 64
    ensures bit < 64 ==> (word * 64 + bit) / WORD_BITS == word && (word * 64 + bit) % WORD_BITS == bit
  {
  }

  function SumPop(words: seq<nat>): nat {
    if words == [] then 0 else SumPop(words[..|words| - 1]) + Pop(words[|words| - 1])
  }

  lemma {:induction false} SumPopUpdate(words: seq<nat>, i: nat, w: nat)
    requires i < |words|
    ensures SumPop(words[i := w]) + Pop(words[i]) == SumPop(words) + Pop(w)
  {
    var n := |words| - 1;
    if i < n {
      assert words[i := w][..n] == words[..n][i := w];
      SumPopUpdate(words[..n], i, w);
    } else {
      assert words[i := w][..n] == words[..n];
    }
  }

  lemma {:induction false} SumPopOfZeros(words: seq<nat>)
    requires forall i :: 0 <= i < |words| ==> words[i] == 0
    ensures SumPop(words) == 0
  {
    if words != [] { SumPopOfZeros(words[..|words| - 1]); }
  }

  /** The bitmap marks exactly `marks`, in words of 64 bits, one set bit for each. */
  ghost predicate Marks(words: seq<nat>, marks: set<nat>, count: nat) {
    && |words| == WORDS && SumPop(words) == count
    && (forall i :: 0 <= i < WORDS ==> words[i] < Mask(WORD_BITS))
    && forall low :: 0 <= low < LOW_SPACE ==> (Marked(words, low) <==> low in marks)
  }

  /** Setting the bit of a new mark. */
  lemma {:induction false} MarkOne(words: seq<nat>, marks: set<nat>, count: nat, low: nat)
    requires Marks(words, marks, count) && low < LOW_SPACE && low !in marks
    ensures Marks(words[low / WORD_BITS := Or(words[low / WORD_BITS], Mask(low % WORD_BITS))], marks + {low}, count + 1)
  {
    hide Or, Mask;
    var at, bit := low / WORD_BITS, low % WORD_BITS;
    var w := words[at];
    var after := words[at := Or(w, Mask(bit))];
    assert !Marked(words, low);
    SettingAddsOne(w, bit);
    SettingStaysWithin(w, bit, WORD_BITS);
    SumPopUpdate(words, at, Or(w, Mask(bit)));
    forall other | 0 <= other < LOW_SPACE
      ensures Marked(after, other) <==> other in marks + {low}
    {
      MarkedAfter(words, low, other);
    }
  }

  lemma {:induction false} MarkedAfter(words: seq<nat>, low: nat, other: nat)
    requires |words| == WORDS && low < LOW_SPACE && other < LOW_SPACE
    ensures Marked(words[low / WORD_BITS := Or(words[low / WORD_BITS], Mask(low % WORD_BITS))], other) <==> Marked(words, other) || other == low
  {
    if other / WORD_BITS == low / WORD_BITS { SettingSets(words[low / WORD_BITS], low % WORD_BITS, other % WORD_BITS); }
  }

  function IdsOf(p: seq<Introduction>): (ids: seq<int>)
    ensures |ids| == |p| && forall k :: 0 <= k < |p| ==> ids[k] == p[k].id
  {
    seq(|p|, k requires 0 <= k < |p| => p[k].id)
  }

  function LowsOf(p: seq<Introduction>): set<nat> {
    set k | 0 <= k < |p| :: LowOf(p[k].id)
  }

  /** Every introduction of a partition has its high bits. */
  predicate InBucket(p: seq<Introduction>, bucket: nat) {
    forall k :: 0 <= k < |p| ==> BucketOf(p[k].id) == bucket && p[k].id <= 0xFFFF_FFFF
  }

  /** Within a partition, low bits identify. */
  lemma {:induction false} LowIdentifies(p: seq<Introduction>, bucket: nat, k: nat)
    requires InBucket(p, bucket) && k < |p|
    ensures LowOf(p[k].id) in LowsOf(p[..k]) <==> exists j :: 0 <= j < k && p[j].id == p[k].id
  {
    forall j | 0 <= j < k
      ensures p[..k][j] == p[j] && (LowOf(p[j].id) == LowOf(p[k].id) <==> p[j].id == p[k].id)
    {
      BucketsAreExact(p[j].id, p[k].id);
    }
  }

  /** The introduction at `k` repeats an earlier one. */
  predicate Repeats(p: seq<Introduction>, k: nat)
    requires k < |p|
  {
    exists j :: 0 <= j < k && p[j].id == p[k].id
  }

  lemma {:induction false} UniqueGrows(p: seq<Introduction>, k: nat)
    requires k < |p| && Unique(IdsOf(p[..k])) && !Repeats(p, k)
    ensures Unique(IdsOf(p[..k + 1]))
  {
    var ids, front := IdsOf(p[..k + 1]), IdsOf(p[..k]);
    forall i, j | 0 <= i < j < |ids|
      ensures ids[i] != ids[j]
    {
      if j < k { assert front[i] != front[j]; }
    }
  }

  /** Test one identity's bit, and set it unless it was set already. */
  method MarkBit(bits: array<nat>, ghost marks: set<nat>, ghost count: nat, low: nat) returns (marked: bool)
    requires bits.Length == WORDS && low < LOW_SPACE && Marks(bits[..], marks, count)
    modifies bits
    ensures marked <==> low in marks
    ensures !marked ==> Marks(bits[..], marks + {low}, count + 1)
  {
    hide Or, Mask, SumPop;
    var at, mask := low / WORD_BITS, Mask(low % WORD_BITS);
    ghost var before := bits[..];
    assert Marked(before, low) <==> And(bits[at], mask) != 0;
    if And(bits[at], mask) != 0 { return true; }
    MarkOne(before, marks, count, low);
    bits[at] := Or(bits[at], mask);
    assert bits[..] == before[at := Or(before[at], mask)];
    return false;
  }

  /** Replay one partition into a cleared bitmap, up to the first repeat. */
  method MarkPartition(bits: array<nat>, p: seq<Introduction>, bucket: nat) returns (repeat: Option<nat>)
    requires bits.Length == WORDS && InBucket(p, bucket) && Marks(bits[..], {}, 0)
    modifies bits
    ensures repeat.None? ==> Unique(IdsOf(p)) && SumPop(bits[..]) == |p|
    ensures repeat.Some? ==> repeat.value < |p| && Repeats(p, repeat.value) && Unique(IdsOf(p[..repeat.value]))
  {
    assert LowsOf(p[..0]) == {} && Unique(IdsOf(p[..0]));
    hide LowsOf, LowOf, Unique, IdsOf, Marked;
    for k := 0 to |p|
      invariant Marks(bits[..], LowsOf(p[..k]), k) && Unique(IdsOf(p[..k]))
    {
      var low := LowOf(p[k].id);
      LowIdentifies(p, bucket, k);
      var marked := MarkBit(bits, LowsOf(p[..k]), k, low);
      if marked { return Some(k); }
      LowsGrow(p, k);
      UniqueGrows(p, k);
    }
    assert p[..|p|] == p;
    return None;
  }

  lemma {:induction false} LowsGrow(p: seq<Introduction>, k: nat)
    requires k < |p|
    ensures LowsOf(p[..k + 1]) == LowsOf(p[..k]) + {LowOf(p[k].id)}
  {
    var x, y := p[..k], p[..k + 1];
    forall low
      ensures low in LowsOf(y) <==> low in LowsOf(x) + {LowOf(p[k].id)}
    {
      if low in LowsOf(x) {
        var j :| 0 <= j < |x| && LowOf(x[j].id) == low;
        assert y[j] == x[j];
      }
      if low in LowsOf(y) {
        var j :| 0 <= j < |y| && LowOf(y[j].id) == low;
        if j < k { assert x[j] == y[j]; }
      }
      assert y[k] == p[k];
    }
  }

  method Clear(bits: array<nat>)
    requires bits.Length == WORDS
    modifies bits
    ensures Marks(bits[..], {}, 0)
  {
    for i := 0 to WORDS
      invariant forall j :: 0 <= j < i ==> bits[j] == 0
    {
      bits[i] := 0;
    }
    SumPopOfZeros(bits[..]);
    forall low | 0 <= low < LOW_SPACE
      ensures !Marked(bits[..], low)
    {
      AndZero(Mask(low % WORD_BITS));
    }
  }

  method CountMarks(bits: array<nat>) returns (total: nat)
    ensures total == SumPop(bits[..])
  {
    total := 0;
    for i := 0 to bits.Length
      invariant total == SumPop(bits[..i])
    {
      var n := CountBits(bits[i]);
      assert bits[..i + 1][..i] == bits[..i];
      total := total + n;
    }
    assert bits[..bits.Length] == bits[..];
  }

  // ---- the counter ----

  /** The introductions of one bucket, in the order they were added. */
  function Spilled(added: seq<Introduction>, bucket: nat): (p: seq<Introduction>)
    ensures forall k :: 0 <= k < |p| ==> p[k] in added && BucketOf(p[k].id) == bucket
  {
    if added == [] then []
    else
      var n := |added| - 1;
      var front := Spilled(added[..n], bucket);
      assert forall k :: 0 <= k < |front| ==> front[k] in added[..n] && front[k] in added;
      if BucketOf(added[n].id) == bucket then front + [added[n]] else front
  }

  function SpilledBelow(added: seq<Introduction>, bucket: nat): nat {
    if bucket == 0 then 0 else SpilledBelow(added, bucket - 1) + |Spilled(added, bucket - 1)|
  }

  lemma {:induction false} SpilledOne(added: seq<Introduction>, x: Introduction, bucket: nat)
    ensures SpilledBelow(added + [x], bucket) == SpilledBelow(added, bucket) + (if BucketOf(x.id) < bucket then 1 else 0)
  {
    if bucket > 0 {
      SpilledOne(added, x, bucket - 1);
      assert (added + [x])[..|added|] == added;
    }
  }

  /** The partitions hold everything that was added. */
  lemma {:induction false} SpilledAll(added: seq<Introduction>)
    requires forall k :: 0 <= k < |added| ==> added[k].id <= 0xFFFF_FFFF
    ensures SpilledBelow(added, BUCKETS) == |added|
  {
    if added == [] {
      SpilledNothing(BUCKETS);
    } else {
      var n := |added| - 1;
      SpilledAll(added[..n]);
      SpilledOne(added[..n], added[n], BUCKETS);
      assert added[..n] + [added[n]] == added;
      BucketsAreExact(added[n].id, 0);
    }
  }

  lemma {:induction false} SpilledNothing(bucket: nat)
    ensures SpilledBelow([], bucket) == 0
  {
    if bucket > 0 { SpilledNothing(bucket - 1); }
  }

  predicate PartUnique(added: seq<Introduction>, b: nat) {
    Unique(IdsOf(Spilled(added, b)))
  }

  /** One introduction more: only its own partition can repeat. */
  lemma {:induction false} PartGrows(added: seq<Introduction>, b: nat)
    requires added != []
    ensures var front, x := added[..|added| - 1], added[|added| - 1];
      PartUnique(added, b) <==> PartUnique(front, b) && (BucketOf(x.id) == b ==> x.id !in IdsOf(Spilled(front, b)))
  {
    var front, x := added[..|added| - 1], added[|added| - 1];
    if BucketOf(x.id) == b {
      LastRepeats(Spilled(added, b));
      assert Spilled(added, b)[..|Spilled(front, b)|] == Spilled(front, b);
    }
  }

  /** A repeat among all the introductions is a repeat within its own partition. */
  lemma {:induction false} UniqueByPartition(added: seq<Introduction>)
    ensures Unique(IdsOf(added)) <==> forall b: nat :: PartUnique(added, b)
  {
    if added != [] {
      var front, x := added[..|added| - 1], added[|added| - 1];
      UniqueByPartition(front);
      SpilledHas(front, x.id);
      LastRepeats(added);
      forall b: nat
        ensures PartUnique(added, b) <==> PartUnique(front, b) && (BucketOf(x.id) == b ==> x.id !in IdsOf(Spilled(front, b)))
      {
        PartGrows(added, b);
      }
      if forall b: nat :: PartUnique(added, b) {
        assert PartUnique(added, BucketOf(x.id));
        assert forall b: nat :: PartUnique(added, b) ==> PartUnique(front, b);
      }
    }
  }

  lemma {:induction false} LastRepeats(p: seq<Introduction>)
    requires p != []
    ensures Unique(IdsOf(p)) <==> Unique(IdsOf(p[..|p| - 1])) && p[|p| - 1].id !in IdsOf(p[..|p| - 1])
  {
    var n := |p| - 1;
    var ids, front := IdsOf(p), IdsOf(p[..n]);
    assert forall k :: 0 <= k < n ==> front[k] == ids[k];
    if Unique(front) && p[n].id !in front {
      forall i, j | 0 <= i < j < |ids|
        ensures ids[i] != ids[j]
      {
        if j < n { assert front[i] != front[j]; } else { assert front[i] in front; }
      }
    }
  }

  lemma {:induction false} SpilledHas(added: seq<Introduction>, id: nat)
    ensures id in IdsOf(added) <==> id in IdsOf(Spilled(added, BucketOf(id)))
  {
    if added != [] {
      var n := |added| - 1;
      SpilledHas(added[..n], id);
      LastOf(added, id);
      if BucketOf(added[n].id) == BucketOf(id) {
        LastOf(Spilled(added, BucketOf(id)), id);
        assert Spilled(added, BucketOf(id))[..|Spilled(added[..n], BucketOf(id))|] == Spilled(added[..n], BucketOf(id));
      }
    }
  }

  lemma {:induction false} LastOf(p: seq<Introduction>, id: nat)
    requires p != []
    ensures id in IdsOf(p) <==> id in IdsOf(p[..|p| - 1]) || p[|p| - 1].id == id
  {
    var n := |p| - 1;
    var ids, front := IdsOf(p), IdsOf(p[..n]);
    assert forall k :: 0 <= k < n ==> front[k] == ids[k];
    if id in ids {
      var k :| 0 <= k < |ids| && ids[k] == id;
      if k < n { assert front[k] == id; }
    }
    if id in front {
      var k :| 0 <= k < |front| && front[k] == id;
      assert ids[k] == id;
    }
    assert ids[n] == p[n].id;
  }

  /** Only the sixteen partitions hold anything. */
  lemma {:induction false} BeyondBuckets(added: seq<Introduction>, b: nat)
    requires b >= BUCKETS && forall k :: 0 <= k < |added| ==> added[k].id <= 0xFFFF_FFFF
    ensures Spilled(added, b) == []
  {
    if added != [] {
      BeyondBuckets(added[..|added| - 1], b);
      BucketsAreExact(added[|added| - 1].id, 0);
    }
  }

  lemma {:induction false} UniqueInBuckets(added: seq<Introduction>)
    requires forall k :: 0 <= k < |added| ==> added[k].id <= 0xFFFF_FFFF
    ensures Unique(IdsOf(added)) <==> forall b :: 0 <= b < BUCKETS ==> PartUnique(added, b)
  {
    UniqueByPartition(added);
    forall b: nat | b >= BUCKETS
      ensures PartUnique(added, b)
    {
      BeyondBuckets(added, b);
    }
  }

  lemma {:induction false} SpilledHolds(added: seq<Introduction>, k: nat)
    requires k < |added|
    ensures Spilled(added, BucketOf(added[k].id)) != []
  {
    SpilledHas(added, added[k].id);
    assert IdsOf(added)[k] == added[k].id;
  }

  /** `x` is the first repeat of its bucket. */
  ghost predicate RepeatsInBucket(added: seq<Introduction>, bucket: nat, x: Introduction) {
    var p := Spilled(added, bucket);
    exists k :: 0 <= k < |p| && p[k] == x && Repeats(p, k) && Unique(IdsOf(p[..k]))
  }

  /** `x` is the first repeat of the first bucket that has one: what a refusal names. */
  ghost predicate FirstFound(added: seq<Introduction>, x: Introduction) {
    exists bucket: nat :: bucket < BUCKETS && RepeatsInBucket(added, bucket, x) && forall b :: 0 <= b < bucket ==> PartUnique(added, b)
  }

  class Counter {
    var partitions: seq<seq<Introduction>>
    var nonempty: seq<bool>
    ghost var added: seq<Introduction>

    /** Each partition holds its bucket's introductions, in order. */
    ghost predicate Valid()
      reads this
    {
      && |partitions| == |nonempty| == BUCKETS
      && (forall k :: 0 <= k < |added| ==> added[k].id <= 0xFFFF_FFFF)
      && forall b :: 0 <= b < BUCKETS ==> partitions[b] == Spilled(added, b) && (nonempty[b] <==> partitions[b] != [])
    }

    constructor ()
      ensures Valid() && added == []
    {
      partitions, nonempty, added := seq(BUCKETS, _ => []), seq(BUCKETS, _ => false), [];
    }

    /** Spill one introduction to the partition its high bits name. */
    method Add(offset: nat, id: nat)
      requires Valid() && id <= 0xFFFF_FFFF
      modifies this
      ensures Valid() && added == old(added) + [Introduction(id, offset)]
    {
      var x := Introduction(id, offset);
      var bucket := BucketOf(id);
      BucketsAreExact(id, id);
      assert (added + [x])[..|added|] == added;
      nonempty := nonempty[bucket := true];
      partitions := partitions[bucket := partitions[bucket] + [x]];
      added := added + [x];
    }

    /** One partition's identities, or its first repeat. */
    method CountPartition(bucket: nat, bits: array<nat>) returns (r: Result<nat, Introduction>)
      requires Valid() && bucket < BUCKETS && bits.Length == WORDS
      modifies bits
      ensures r.Success? <==> PartUnique(added, bucket)
      ensures r.Success? ==> r.value == |Spilled(added, bucket)|
      ensures r.Failure? ==> RepeatsInBucket(added, bucket, r.error)
    {
      if !nonempty[bucket] { return Success(0); }
      Clear(bits);
      var p := partitions[bucket];
      SpilledInBucket(bucket);
      var repeat := MarkPartition(bits, p, bucket);
      if repeat.Some? {
        RepeatedIsNotUnique(p, repeat.value);
        return Failure(p[repeat.value]);
      }
      var n := CountMarks(bits);
      return Success(n);
    }

    lemma {:induction false} SpilledInBucket(bucket: nat)
      requires Valid() && bucket < BUCKETS
      ensures InBucket(partitions[bucket], bucket)
    {
      var p := partitions[bucket];
      forall k | 0 <= k < |p|
        ensures BucketOf(p[k].id) == bucket && p[k].id <= 0xFFFF_FFFF
      {
        assert p[k] in added;
      }
    }

    /** Replay every partition over one bitmap. */
    method CountPartitions(bits: array<nat>) returns (r: Result<nat, Introduction>)
      requires Valid() && bits.Length == WORDS
      modifies bits
      ensures r.Success? <==> forall b :: 0 <= b < BUCKETS ==> PartUnique(added, b)
      ensures r.Success? ==> r.value == SpilledBelow(added, BUCKETS)
      ensures r.Failure? ==> FirstFound(added, r.error)
    {
      var total := 0;
      for bucket := 0 to BUCKETS
        invariant total == SpilledBelow(added, bucket) && forall b :: 0 <= b < bucket ==> PartUnique(added, b)
      {
        var n := CountPartition(bucket, bits);
        if n.Failure? { return n; }
        total := total + n.value;
      }
      return Success(total);
    }

    /** Count what was added: exactly as many as there were introductions, and only if no
        identity was introduced twice. */
    method Finish() returns (r: Result<nat, Introduction>)
      requires Valid()
      ensures r.Success? <==> Unique(IdsOf(added))
      ensures r.Success? ==> r.value == |added|
      ensures r.Failure? ==> FirstFound(added, r.error)
    {
      if forall b :: 0 <= b < BUCKETS ==> !nonempty[b] {
        NothingAdded();
        return Success(0);
      }
      var bits := new nat[WORDS];
      r := CountPartitions(bits);
      UniqueInBuckets(added);
      SpilledAll(added);
    }

    lemma {:induction false} NothingAdded()
      requires Valid() && forall b :: 0 <= b < BUCKETS ==> !nonempty[b]
      ensures added == []
    {
      if added != [] {
        BucketsAreExact(added[0].id, 0);
        SpilledHolds(added, 0);
      }
    }
  }

  lemma {:induction false} RepeatedIsNotUnique(p: seq<Introduction>, k: nat)
    requires k < |p| && Repeats(p, k)
    ensures !Unique(IdsOf(p))
  {
    var j :| 0 <= j < k && p[j].id == p[k].id;
    assert IdsOf(p)[j] == IdsOf(p)[k];
  }
}
