/** The exact count in fixed memory: a prefix of the identity space at a time, split in two
    and scanned again whenever it overfills the bounded audit. */
module IdentityPartitions {
  import opened Wrappers
  import opened Populations
  import opened IdentityAudit

  // ---- prefixes of the 32-bit identity space ----

  function Pow2(n: nat): nat {
    if n == 0 then 1 else 2 * Pow2(n - 1)
  }

  function Lower(prefix: nat, bits: nat): nat
    requires bits <= 32
  {
    prefix * Pow2(32 - bits)
  }

  /** A prefix's two children split its range in half. */
  lemma {:induction false} Halves(prefix: nat, bits: nat)
    requires bits < 32
    ensures Lower(2 * prefix, bits + 1) == Lower(prefix, bits)
    ensures Lower(2 * prefix, bits + 1) <= Lower(2 * prefix + 1, bits + 1) <= Lower(2 * prefix + 2, bits + 1)
    ensures Lower(2 * prefix + 2, bits + 1) == Lower(prefix + 1, bits)
  {
    var h := Pow2(31 - bits);
    assert Pow2(32 - bits) == 2 * h;
    assert (2 * prefix) * h == prefix * (2 * h);
    assert (2 * prefix + 2) * h == (prefix + 1) * (2 * h);
    assert (2 * prefix + 1) * h == (2 * prefix) * h + h;
    assert (2 * prefix + 2) * h == (2 * prefix + 1) * h + h;
  }

  // ---- a timeline seen through a range ----

  predicate InRange(id: int, lower: int, upper: int) {
    lower <= id < upper
  }

  function Restrict(ids: seq<int>, lower: int, upper: int): (r: seq<int>)
    ensures forall x :: x in r <==> x in ids && InRange(x, lower, upper)
    ensures Unique(ids) ==> Unique(r)
  {
    if ids == [] then []
    else
      var n := |ids| - 1;
      var front := Restrict(ids[..n], lower, upper);
      assert forall x :: x in ids <==> x in ids[..n] || x == ids[n];
      if InRange(ids[n], lower, upper) then
        assert Unique(ids) ==> ids[n] !in ids[..n];
        front + [ids[n]]
      else front
  }

  function Slice(s: set<int>, lower: int, upper: int): set<int> {
    set x | x in s && InRange(x, lower, upper)
  }

  /** What went before, seen through the range. */
  lemma {:induction false} RestrictedReturns(states: Timeline, k: nat, lower: int, upper: int, id: int)
    requires k < |states|
    ensures Returns(Restrict(states[k], lower, upper), Restrict(LiveBefore(states, k), lower, upper), Slice(EverLive(states, k), lower, upper), id)
      <==> InRange(id, lower, upper) && Reintroduces(states, k, id)
  {
  }

  lemma {:induction false} SliceGrows(states: Timeline, k: nat, lower: int, upper: int)
    requires k < |states|
    ensures Slice(EverLive(states, k), lower, upper) + Ids(Restrict(states[k], lower, upper)) == Slice(EverLive(states, k + 1), lower, upper)
  {
    var slice, grown := Slice(EverLive(states, k), lower, upper), Slice(EverLive(states, k + 1), lower, upper);
    forall x
      ensures x in slice + Ids(Restrict(states[k], lower, upper)) <==> x in grown
    {
    }
  }

  /** Something is wrong with the timeline as far as this range can tell. */
  ghost predicate Bad(states: Timeline, lower: int, upper: int) {
    exists k, id :: 0 <= k < |states| && BadAt(states, k, id, lower, upper)
  }

  ghost predicate BadAt(states: Timeline, k: nat, id: int, lower: int, upper: int)
    requires k < |states|
  {
    (id in states[k] && !IsU32(id)) || (InRange(id, lower, upper) && Reintroduces(states, k, id))
  }

  /** The distinct identities of the timeline that fall in the range. */
  function Distinct(states: Timeline, lower: int, upper: int): nat {
    |Slice(EverLive(states, |states|), lower, upper)|
  }

  lemma {:induction false} EverLiveGrows(states: Timeline, k: nat, n: nat)
    requires k <= n <= |states|
    ensures EverLive(states, k) <= EverLive(states, n)
  {
    if k < n { EverLiveGrows(states, k, n - 1); }
  }

  lemma {:induction false} DistinctSoFar(states: Timeline, k: nat, lower: int, upper: int)
    requires k <= |states|
    ensures |Slice(EverLive(states, k), lower, upper)| <= Distinct(states, lower, upper)
  {
    EverLiveGrows(states, k, |states|);
    SubsetCount(Slice(EverLive(states, k), lower, upper), Slice(EverLive(states, |states|), lower, upper));
  }

  // ---- one partition ----

  datatype Scan = Counted(n: nat) | Full | Refused(rule: Rule)

  lemma {:induction false} OutsideIsMember(ids: seq<int>)
    ensures forall id :: FirstOutsideIs(ids, id) ==> id in ids
  {
  }

  /** What an identity the unbounded check would name looks like to this one. */
  lemma {:induction false} BrokenIsBad(states: Timeline, k: nat, lower: int, upper: int, capacity: nat, rule: Rule)
    requires k < |states| && (forall x :: x in states[k] ==> IsU32(x)) && !rule.TooMany?
    requires BreaksRule(Restrict(states[k], lower, upper), Restrict(LiveBefore(states, k), lower, upper),
                        Slice(EverLive(states, k), lower, upper), capacity, rule)
    ensures Bad(states, lower, upper)
  {
    OutsideIsMember(Restrict(states[k], lower, upper));
    if rule.OutOfRange? { assert false; }
    RestrictedReturns(states, k, lower, upper, rule.id);
    assert BadAt(states, k, rule.id, lower, upper);
  }

  ghost predicate GoodTo(states: Timeline, k: nat, lower: int, upper: int)
    requires k <= |states|
  {
    forall j, id :: 0 <= j < k ==> !BadAt(states, j, id, lower, upper)
  }

  lemma {:induction false} GoodOne(states: Timeline, k: nat, lower: int, upper: int, capacity: nat)
    requires k < |states| && GoodTo(states, k, lower, upper) && (forall x :: x in states[k] ==> IsU32(x))
    requires BreaksNothing(Restrict(states[k], lower, upper), Restrict(LiveBefore(states, k), lower, upper),
                           Slice(EverLive(states, k), lower, upper), capacity)
    ensures GoodTo(states, k + 1, lower, upper)
  {
    forall id
      ensures !BadAt(states, k, id, lower, upper)
    {
      RestrictedReturns(states, k, lower, upper, id);
    }
  }

  /** One state of one scan. */
  method ScanState(states: Timeline, k: nat, lower: int, upper: int, audit: BoundedIdentityAudit) returns (r: Option<Scan>)
    requires UniqueStates(states) && k < |states| && GoodTo(states, k, lower, upper)
    requires audit.Observed(Restrict(LiveBefore(states, k), lower, upper), Slice(EverLive(states, k), lower, upper))
    modifies audit, audit.introduced
    ensures r.None? ==> GoodTo(states, k + 1, lower, upper)
    ensures r.None? ==> audit.Observed(Restrict(states[k], lower, upper), Slice(EverLive(states, k + 1), lower, upper))
    ensures r.Some? ==> !r.value.Counted?
    ensures r.Some? && r.value.Refused? ==> Bad(states, lower, upper)
    ensures r.Some? && r.value.Full? ==> Distinct(states, lower, upper) > audit.ceiling
  {
    var outside := FirstOutside(states[k]);
    if outside.Some? {
      assert outside.value in states[k];
      assert BadAt(states, k, outside.value, lower, upper);
      return Some(Refused(OutOfRange(outside.value)));
    }
    r := ObserveRange(states, k, lower, upper, audit);
  }

  /** One state, seen through the range. */
  method ObserveRange(states: Timeline, k: nat, lower: int, upper: int, audit: BoundedIdentityAudit) returns (r: Option<Scan>)
    requires UniqueStates(states) && k < |states| && GoodTo(states, k, lower, upper) && (forall x :: x in states[k] ==> IsU32(x))
    requires audit.Observed(Restrict(LiveBefore(states, k), lower, upper), Slice(EverLive(states, k), lower, upper))
    modifies audit, audit.introduced
    ensures r.None? ==> GoodTo(states, k + 1, lower, upper)
    ensures r.None? ==> audit.Observed(Restrict(states[k], lower, upper), Slice(EverLive(states, k + 1), lower, upper))
    ensures r.Some? ==> !r.value.Counted?
    ensures r.Some? && r.value.Refused? ==> Bad(states, lower, upper)
    ensures r.Some? && r.value.Full? ==> Distinct(states, lower, upper) > audit.ceiling
  {
    var ids := Restrict(states[k], lower, upper);
    ghost var last, ever := Restrict(LiveBefore(states, k), lower, upper), Slice(EverLive(states, k), lower, upper);
    var rule := audit.Observe(ids, last, ever);
    SliceGrows(states, k, lower, upper);
    if rule.None? {
      GoodOne(states, k, lower, upper, audit.ceiling);
      return None;
    }
    if rule.value.TooMany? {
      DistinctSoFar(states, k + 1, lower, upper);
      return Some(Full);
    }
    BrokenIsBad(states, k, lower, upper, audit.ceiling, rule.value);
    return Some(Refused(rule.value));
  }

  /** One scan of the timeline for one range: the exact count there, a refusal, or a
      partition with more identities than the audit may hold. */
  method ScanRange(states: Timeline, capacity: nat, lower: int, upper: int) returns (r: Scan)
    requires UniqueStates(states) && capacity >= 1
    ensures r.Counted? ==> !Bad(states, lower, upper) && r.n == Distinct(states, lower, upper)
    ensures r.Full? ==> Distinct(states, lower, upper) > capacity
    ensures r.Refused? ==> Bad(states, lower, upper)
  {
    var audit := new BoundedIdentityAudit(capacity);
    assert Slice(EverLive(states, 0), lower, upper) == {};
    assert Restrict(LiveBefore(states, 0), lower, upper) == [];
    for k := 0 to |states|
      invariant audit.ceiling == capacity && fresh(audit) && fresh(audit.introduced)
      invariant audit.Observed(Restrict(LiveBefore(states, k), lower, upper), Slice(EverLive(states, k), lower, upper))
      invariant GoodTo(states, k, lower, upper)
    {
      var stop := ScanState(states, k, lower, upper, audit);
      if stop.Some? { return stop.value; }
    }
    var n := audit.introduced.Count();
    return Counted(n);
  }

  // ---- all of them ----

  /** Scans a subtree may take for `d` identities, when `b` bits remain to split on. */
  function ScanBound(d: nat, capacity: nat, b: nat): nat {
    1 + 2 * b * (d / (capacity + 1))
  }

  lemma {:induction false} QuotientsAdd(a: nat, b: nat, c: nat)
    requires c >= 1
    ensures a / c + b / c <= (a + b) / c
  {
    QuotientBelow(a, c);
    QuotientBelow(b, c);
    SumAtLeast(a, b, c, a / c, b / c);
  }

  lemma {:induction false} SumAtLeast(a: nat, b: nat, c: nat, x: nat, y: nat)
    requires c >= 1 && x * c <= a && y * c <= b
    ensures x + y <= (a + b) / c
  {
    Distributes(x, y, c);
    QuotientAtLeast(a + b, c, x + y);
  }

  lemma {:induction false} QuotientBelow(n: nat, c: nat)
    requires c >= 1
    ensures (n / c) * c <= n < (n / c) * c + c
  {
  }

  lemma {:induction false} Distributes(x: int, y: int, c: int)
    ensures (x + y) * c == x * c + y * c
  {
  }

  lemma {:induction false} QuotientAtLeast(n: nat, c: nat, q: nat)
    requires c >= 1 && q * c <= n
    ensures q <= n / c
  {
    var above := n / c + 1;
    QuotientBelow(n, c);
    Distributes(n / c, 1, c);
    Distributes(above - q, q, c);
    PositiveFactor(above - q, c);
  }

  lemma {:induction false} PositiveFactor(x: int, c: int)
    requires c > 0 && x * c > 0
    ensures x > 0
  {
  }

  /** The two children's scans and the parent's own stay within the parent's bound. */
  lemma {:induction false} BoundSplits(d: nat, left: nat, right: nat, capacity: nat, b: nat)
    requires d == left + right && d > capacity && b >= 1
    ensures 1 + ScanBound(left, capacity, b - 1) + ScanBound(right, capacity, b - 1) <= ScanBound(d, capacity, b)
    ensures 1 + ScanBound(left, capacity, b - 1) <= ScanBound(d, capacity, b)
  {
    var c := capacity + 1;
    var x, y, z := left / c, right / c, d / c;
    QuotientsAdd(left, right, c);
    QuotientAtLeast(d, c, 1);
    BoundArithmetic(x, y, z, b - 1);
  }

  lemma {:induction false} BoundArithmetic(x: nat, y: nat, z: nat, m: nat)
    requires x + y <= z && 1 <= z
    ensures 1 + (1 + 2 * m * x) + (1 + 2 * m * y) <= 1 + 2 * (m + 1) * z
    ensures 1 + (1 + 2 * m * x) <= 1 + 2 * (m + 1) * z
  {
    ProductGrows(m, x + y, z);
    Distributes(x, y, m);
    Doubles(m, x);
    Doubles(m, y);
    Doubles(m + 1, z);
    Distributes(m, 1, z);
    ProductIsNat(m, y);
  }

  lemma {:induction false} Doubles(m: int, x: int)
    ensures 2 * m * x == 2 * (m * x)
  {
  }

  lemma {:induction false} ProductIsNat(m: nat, x: nat)
    ensures m * x >= 0
  {
  }

  lemma {:induction false} ProductGrows(m: nat, u: nat, z: nat)
    requires u <= z
    ensures m * u <= m * z
  {
  }

  lemma {:induction false} DistinctSplits(states: Timeline, lower: int, middle: int, upper: int)
    requires lower <= middle <= upper
    ensures Distinct(states, lower, upper) == Distinct(states, lower, middle) + Distinct(states, middle, upper)
    ensures Bad(states, lower, upper) <==> Bad(states, lower, middle) || Bad(states, middle, upper)
  {
    var s := EverLive(states, |states|);
    assert Slice(s, lower, upper) == Slice(s, lower, middle) + Slice(s, middle, upper);
    assert Slice(s, lower, middle) !! Slice(s, middle, upper);
    BadSplits(states, lower, middle, upper);
  }

  lemma {:induction false} BadSplits(states: Timeline, lower: int, middle: int, upper: int)
    requires lower <= middle <= upper
    ensures Bad(states, lower, upper) <==> Bad(states, lower, middle) || Bad(states, middle, upper)
  {
    forall k, id | 0 <= k < |states|
      ensures BadAt(states, k, id, lower, upper) <==> BadAt(states, k, id, lower, middle) || BadAt(states, k, id, middle, upper)
    {
    }
  }

  /** One identity is never more than a positive capacity. */
  lemma {:induction false} OneIdentityFits(states: Timeline, lower: int)
    ensures Distinct(states, lower, lower + 1) <= 1
  {
    var slice := Slice(EverLive(states, |states|), lower, lower + 1);
    SubsetCount(slice, {lower});
  }

  /** Count one prefix, splitting it on its next bit for as long as it overfills the audit.
      A single identity never does, so the last bit is never split. */
  method Split(states: Timeline, capacity: nat, prefix: nat, bits: nat) returns (r: Result<nat, Rule>, scans: nat)
    requires UniqueStates(states) && capacity >= 1 && bits <= 32
    ensures r.Success? <==> !Bad(states, Lower(prefix, bits), Lower(prefix + 1, bits))
    ensures r.Success? ==> r.value == Distinct(states, Lower(prefix, bits), Lower(prefix + 1, bits))
    ensures scans <= ScanBound(Distinct(states, Lower(prefix, bits), Lower(prefix + 1, bits)), capacity, 32 - bits)
    decreases 32 - bits
  {
    hide Distinct;
    var lower, upper := Lower(prefix, bits), Lower(prefix + 1, bits);
    var scan := ScanRange(states, capacity, lower, upper);
    match scan {
      case Counted(n) => return Success(n), 1;
      case Refused(rule) => return Failure(rule), 1;
      case Full =>
        if bits == 32 {
          OneIdentityFits(states, lower);
          assert false;
        }
        ChildrenCover(states, capacity, prefix, bits);
        var left, first := Split(states, capacity, 2 * prefix, bits + 1);
        if left.Failure? { return left, 1 + first; }
        var right, second := Split(states, capacity, 2 * prefix + 1, bits + 1);
        if right.Failure? { return right, 1 + first + second; }
        return Success(left.value + right.value), 1 + first + second;
    }
  }

  /** An overfull prefix is its two children: what is wrong, what is counted, and the scans. */
  lemma {:induction false} ChildrenCover(states: Timeline, capacity: nat, prefix: nat, bits: nat)
    requires bits < 32 && Distinct(states, Lower(prefix, bits), Lower(prefix + 1, bits)) > capacity
    ensures var lower, middle, upper := Lower(2 * prefix, bits + 1), Lower(2 * prefix + 1, bits + 1), Lower(2 * prefix + 2, bits + 1);
      && lower == Lower(prefix, bits) && upper == Lower(prefix + 1, bits)
      && (Bad(states, lower, upper) <==> Bad(states, lower, middle) || Bad(states, middle, upper))
      && Distinct(states, lower, upper) == Distinct(states, lower, middle) + Distinct(states, middle, upper)
      && 1 + ScanBound(Distinct(states, lower, middle), capacity, 31 - bits) + ScanBound(Distinct(states, middle, upper), capacity, 31 - bits)
         <= ScanBound(Distinct(states, lower, upper), capacity, 32 - bits)
      && 1 + ScanBound(Distinct(states, lower, middle), capacity, 31 - bits) <= ScanBound(Distinct(states, lower, upper), capacity, 32 - bits)
  {
    var lower, middle, upper := Lower(2 * prefix, bits + 1), Lower(2 * prefix + 1, bits + 1), Lower(2 * prefix + 2, bits + 1);
    Halves(prefix, bits);
    DistinctSplits(states, lower, middle, upper);
    BoundSplits(Distinct(states, lower, upper), Distinct(states, lower, middle), Distinct(states, middle, upper), capacity, 32 - bits);
  }

  /** Nothing is out of range and nothing ever comes back. */
  ghost predicate NeverReused(states: Timeline) {
    forall k, id :: 0 <= k < |states| ==> !(id in states[k] && !IsU32(id)) && !Reintroduces(states, k, id)
  }

  lemma {:induction false} RootIsWhole(states: Timeline)
    ensures Bad(states, 0, 0x1_0000_0000) <==> !NeverReused(states)
  {
    forall k, id | 0 <= k < |states|
      ensures BadAt(states, k, id, 0, 0x1_0000_0000) <==> (id in states[k] && !IsU32(id)) || Reintroduces(states, k, id)
    {
    }
  }

  lemma {:induction false} RootCount(states: Timeline)
    requires NeverReused(states)
    ensures Slice(EverLive(states, |states|), 0, 0x1_0000_0000) == EverLive(states, |states|)
  {
    EverInRange(states, |states|);
  }

  lemma {:induction false} WholeSpace()
    ensures Pow2(32) == 0x1_0000_0000 && Lower(0, 0) == 0 && Lower(1, 0) == 0x1_0000_0000
  {
    assert Pow2(8) == 256;
    assert Pow2(16) == 0x1_0000;
    assert Pow2(24) == 0x100_0000;
  }

  lemma {:induction false} EverInRange(states: Timeline, k: nat)
    requires k <= |states| && NeverReused(states)
    ensures forall x :: x in EverLive(states, k) ==> IsU32(x)
  {
    if k > 0 { EverInRange(states, k - 1); }
  }

  /** The partitioned count is exact, and refuses exactly the timelines an audit without a
      ceiling would; for `d` distinct identities it scans at most 1 + 64 d / (capacity + 1)
      times. */
  method CountPartitioned(states: Timeline, capacity: nat) returns (r: Result<nat, Rule>, scans: nat)
    requires UniqueStates(states) && capacity >= 1
    ensures r.Success? <==> NeverReused(states)
    ensures r.Success? ==> r.value == |EverLive(states, |states|)|
    ensures scans <= 1 + 64 * (|EverLive(states, |states|)| / (capacity + 1))
  {
    hide EverLive, NeverReused, Bad, Distinct, ScanBound, Lower;
    r, scans := SplitRoot(states, capacity, 0);
    RootIsTimeline(states, capacity, Lower(0, 0), Lower(1, 0));
  }

  method SplitRoot(states: Timeline, capacity: nat, prefix: nat) returns (r: Result<nat, Rule>, scans: nat)
    requires UniqueStates(states) && capacity >= 1
    ensures var lower, upper := Lower(prefix, 0), Lower(prefix + 1, 0);
      && (r.Success? <==> !Bad(states, lower, upper)) && (r.Success? ==> r.value == Distinct(states, lower, upper))
      && scans <= ScanBound(Distinct(states, lower, upper), capacity, 32)
  {
    r, scans := Split(states, capacity, prefix, 0);
  }

  /** The root range sees the whole timeline. */
  lemma {:induction false} RootIsTimeline(states: Timeline, capacity: nat, lower: nat, upper: nat)
    requires lower == Lower(0, 0) && upper == Lower(1, 0)
    ensures Bad(states, lower, upper) <==> !NeverReused(states)
    ensures NeverReused(states) ==> Distinct(states, lower, upper) == |EverLive(states, |states|)|
    ensures ScanBound(Distinct(states, lower, upper), capacity, 32) <= 1 + 64 * (|EverLive(states, |states|)| / (capacity + 1))
  {
    WholeSpace();
    RootIsWhole(states);
    RootBound(states, capacity);
    if NeverReused(states) { RootCount(states); }
  }

  lemma {:induction false} RootBound(states: Timeline, capacity: nat)
    ensures ScanBound(Distinct(states, 0, 0x1_0000_0000), capacity, 32) <= 1 + 64 * (|EverLive(states, |states|)| / (capacity + 1))
  {
    var s := EverLive(states, |states|);
    SubsetCount(Slice(s, 0, 0x1_0000_0000), s);
    QuotientGrows(Distinct(states, 0, 0x1_0000_0000), |s|, capacity + 1);
  }

  lemma {:induction false} QuotientGrows(a: nat, b: nat, c: nat)
    requires c >= 1 && a <= b
    ensures a / c <= b / c
  {
    assert (a / c) * c <= a;
    QuotientAtLeast(b, c, a / c);
  }

  /** Where the one-pass audit has room for every identity, the two agree on every timeline. */
  method BothCountsAgree(states: Timeline, capacity: nat, ceiling: nat)
    returns (once: Result<nat, (nat, Rule)>, split: Result<nat, Rule>, scans: nat)
    requires UniqueStates(states) && capacity >= 1 && ceiling >= 1 && |EverLive(states, |states|)| <= ceiling
    ensures once.Success? <==> split.Success?
    ensures once.Success? ==> once.value == split.value
  {
    once := Audit(states, ceiling);
    split, scans := CountPartitioned(states, capacity);
    CleanThroughout(states, ceiling);
  }

  lemma {:induction false} CleanThroughout(states: Timeline, ceiling: nat)
    requires |EverLive(states, |states|)| <= ceiling
    ensures AllClean(states, ceiling) <==> NeverReused(states)
  {
    forall k | 0 <= k < |states|
      ensures Clean(states, k, ceiling) <==> NoneReusedAt(states, k)
    {
      EverLiveGrows(states, k + 1, |states|);
      SubsetCount(EverLive(states, k + 1), EverLive(states, |states|));
      CleanByIdentity(states, k, ceiling);
    }
    NeverReusedByState(states);
  }

  ghost predicate NoneReusedAt(states: Timeline, k: nat)
    requires k < |states|
  {
    forall id :: !(id in states[k] && !IsU32(id)) && !Reintroduces(states, k, id)
  }

  lemma {:induction false} NeverReusedByState(states: Timeline)
    ensures NeverReused(states) <==> forall k :: 0 <= k < |states| ==> NoneReusedAt(states, k)
  {
    if forall k :: 0 <= k < |states| ==> NoneReusedAt(states, k) {
      forall k, id | 0 <= k < |states|
        ensures !(id in states[k] && !IsU32(id)) && !Reintroduces(states, k, id)
      {
        assert NoneReusedAt(states, k);
      }
    }
  }

  lemma {:induction false} CleanByIdentity(states: Timeline, k: nat, ceiling: nat)
    requires k < |states| && |EverLive(states, k + 1)| <= ceiling
    ensures Clean(states, k, ceiling) <==> NoneReusedAt(states, k)
  {
    forall id
      ensures Reintroduces(states, k, id) <==> Returns(states[k], LiveBefore(states, k), EverLive(states, k), id)
    {
    }
  }
}
