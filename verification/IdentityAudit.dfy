/** How many identities a timeline ever carries, and whether one is reused after its
    gaussian died: in one bounded pass, or over partitions of the identity space. */
module IdentityAudit {
  import opened Wrappers
  import opened Populations
  import opened Sorting
  import opened IntroducedIds

  const ID_MAX: int := 0xFFFF_FFFF

  // ---- the question, over whole timelines ----

  /** A timeline: the identities each state chunk carries, in its own order. */
  type Timeline = seq<seq<int>>

  /** Composition already refuses an identity repeated within one state. */
  predicate UniqueStates(states: Timeline) {
    forall k :: 0 <= k < |states| ==> Unique(states[k])
  }

  predicate IsU32(id: int) {
    0 <= id <= ID_MAX
  }

  /** Every identity live in some state before `k`. */
  function EverLive(states: Timeline, k: nat): set<int>
    requires k <= |states|
  {
    if k == 0 then {} else EverLive(states, k - 1) + Ids(states[k - 1])
  }

  /** The population just before state `k`. */
  function LiveBefore(states: Timeline, k: nat): seq<int>
    requires k <= |states|
  {
    if k == 0 then [] else states[k - 1]
  }

  /** A state brings back an identity that lived earlier and is not in the state before. */
  predicate Returns(ids: seq<int>, previous: seq<int>, ever: set<int>, id: int) {
    id in ids && id !in previous && id in ever
  }

  predicate Reintroduces(states: Timeline, k: nat, id: int)
    requires k < |states|
  {
    Returns(states[k], LiveBefore(states, k), EverLive(states, k), id)
  }

  /** The first identity of a state, in its own order, that no u32 can hold. */
  predicate FirstOutsideIs(ids: seq<int>, id: int) {
    exists p :: 0 <= p < |ids| && ids[p] == id && !IsU32(id) && forall j :: 0 <= j < p ==> IsU32(ids[j])
  }

  /** The first identity of a state, in its own order, that is brought back. */
  predicate FirstReturnIs(ids: seq<int>, previous: seq<int>, ever: set<int>, id: int) {
    exists p :: 0 <= p < |ids| && ids[p] == id && Returns(ids, previous, ever, id)
      && forall j :: 0 <= j < p ==> !Returns(ids, previous, ever, ids[j])
  }

  datatype Rule = OutOfRange(id: int) | Reused(id: int) | TooMany

  /** What is wrong with a state, the earliest kind first, given what lived before it. */
  ghost predicate BreaksRule(ids: seq<int>, previous: seq<int>, ever: set<int>, ceiling: nat, rule: Rule) {
    match rule
    case OutOfRange(id) => FirstOutsideIs(ids, id)
    case Reused(id) => (forall x :: x in ids ==> IsU32(x)) && FirstReturnIs(ids, previous, ever, id)
    case TooMany =>
      (forall x :: x in ids ==> IsU32(x)) && (forall x :: !Returns(ids, previous, ever, x)) && |ever + Ids(ids)| > ceiling
  }

  ghost predicate BreaksNothing(ids: seq<int>, previous: seq<int>, ever: set<int>, ceiling: nat) {
    (forall x :: x in ids ==> IsU32(x)) && (forall x :: !Returns(ids, previous, ever, x)) && |ever + Ids(ids)| <= ceiling
  }

  ghost predicate Offends(states: Timeline, k: nat, ceiling: nat, rule: Rule)
    requires k < |states|
  {
    BreaksRule(states[k], LiveBefore(states, k), EverLive(states, k), ceiling, rule)
  }

  ghost predicate Clean(states: Timeline, k: nat, ceiling: nat)
    requires k < |states|
  {
    BreaksNothing(states[k], LiveBefore(states, k), EverLive(states, k), ceiling)
  }

  // ---- one pass ----

  /** The first of `ids` that no u32 can hold. */
  method FirstOutside(ids: seq<int>) returns (id: Option<int>)
    ensures id.None? <==> forall x :: x in ids ==> IsU32(x)
    ensures id.Some? ==> FirstOutsideIs(ids, id.value)
  {
    for k := 0 to |ids|
      invariant forall j :: 0 <= j < k ==> IsU32(ids[j])
    {
      if !IsU32(ids[k]) { return Some(ids[k]); }
    }
    return None;
  }

  /** `born` is `live` without `previous`, in order; `at` says where each one stood. */
  ghost predicate IsNewborn(previous: seq<int>, live: seq<int>, born: seq<int>, at: seq<nat>) {
    && |at| == |born|
    && (forall i :: 0 <= i < |at| ==> at[i] < |live| && live[at[i]] == born[i] && born[i] !in previous)
    && (forall i, j :: 0 <= i < j < |at| ==> at[i] < at[j])
    && (forall k :: 0 <= k < |live| && live[k] !in previous ==> k in at)
  }

  /** The identities of `live` a sorted previous population lacks. */
  method Newborn(previous: seq<int>, live: seq<int>) returns (born: seq<int>, ghost at: seq<nat>)
    requires Increasing(previous)
    ensures IsNewborn(previous, live, born, at)
  {
    var mask := InSorted(previous, live);
    born, at := [], [];
    for i := 0 to |live|
      invariant |at| == |born| && forall j :: 0 <= j < |at| ==> at[j] < i && live[at[j]] == born[j] && born[j] !in previous
      invariant forall j, k :: 0 <= j < k < |at| ==> at[j] < at[k]
      invariant forall k :: 0 <= k < i && live[k] !in previous ==> k in at
    {
      if !mask[i] { born, at := born + [live[i]], at + [i]; }
    }
  }

  // ---- one state more ----

  /** What is known of the audit so far: who is live, and who ever was. */
  ghost predicate Knows(previous: seq<int>, last: seq<int>, ever: set<int>) {
    Ids(previous) == Ids(last) && Ids(last) <= ever
  }

  /** The newborn are the newly live: as many as are new if none had lived before. */
  lemma {:induction false} NewbornUnique(previous: seq<int>, live: seq<int>, born: seq<int>, at: seq<nat>)
    requires IsNewborn(previous, live, born, at) && Unique(live)
    ensures Unique(born) && Ids(live) == Ids(born) + (Ids(live) * Ids(previous)) && Ids(born) !! Ids(previous)
  {
    forall i, j | 0 <= i < j < |born|
      ensures born[i] != born[j]
    {
      assert at[i] < at[j];
    }
    forall x
      ensures x in Ids(live) <==> x in Ids(born) + (Ids(live) * Ids(previous))
    {
      if x in live && x !in previous {
        var k := IndexOf(live, x);
        assert k in at;
        var i :| 0 <= i < |at| && at[i] == k;
        assert born[i] == x;
      }
      if x in born {
        var i := IndexOf(born, x);
        assert live[at[i]] == x;
      }
    }
  }

  lemma {:induction false} SameMembers(xs: seq<int>, ys: seq<int>)
    requires Ids(xs) == Ids(ys)
    ensures forall x :: x in xs <==> x in ys
  {
    assert forall x :: x in xs <==> x in Ids(xs);
    assert forall x :: x in ys <==> x in Ids(ys);
  }

  /** A repeat among the newborn is a return, and the first of one is the first of the
      other. */
  lemma {:induction false} RepeatIsReuse(ids: seq<int>, last: seq<int>, ever: set<int>, previous: seq<int>, born: seq<int>, at: seq<nat>, id: int)
    requires IsNewborn(previous, ids, born, at) && Ids(previous) == Ids(last) && IsFirstRepeat(born, ever, id)
    ensures FirstReturnIs(ids, last, ever, id)
  {
    SameMembers(previous, last);
    var i :| 0 <= i < |born| && born[i] == id && id in ever && forall j :: 0 <= j < i ==> born[j] !in ever;
    var p := at[i];
    forall j | 0 <= j < p
      ensures !Returns(ids, last, ever, ids[j])
    {
      if ids[j] !in previous {
        var q :| 0 <= q < |at| && at[q] == j;
        assert q < i;
      }
    }
    assert ids[p] == id && Returns(ids, last, ever, id);
  }

  lemma {:induction false} NoRepeatNoReuse(ids: seq<int>, last: seq<int>, ever: set<int>, previous: seq<int>, born: seq<int>, at: seq<nat>)
    requires IsNewborn(previous, ids, born, at) && Ids(previous) == Ids(last)
    requires forall i :: 0 <= i < |born| ==> born[i] !in ever
    ensures forall id :: !Returns(ids, last, ever, id)
  {
    SameMembers(previous, last);
    forall id
      ensures !Returns(ids, last, ever, id)
    {
      if id in ids && id !in previous {
        var p := IndexOf(ids, id);
        assert p in at;
        var i :| 0 <= i < |at| && at[i] == p;
        assert born[i] == id;
      }
    }
  }

  lemma {:induction false} DisjointCount(x: set<int>, y: set<int>)
    requires x !! y
    ensures |x + y| == |x| + |y|
  {
  }

  /** Without reuse, what a state adds to the identities ever live is its newborn. */
  lemma {:induction false} NewbornAreNew(ids: seq<int>, last: seq<int>, ever: set<int>, previous: seq<int>, born: seq<int>, at: seq<nat>)
    requires Unique(ids) && IsNewborn(previous, ids, born, at) && Knows(previous, last, ever)
    requires forall i :: 0 <= i < |born| ==> born[i] !in ever
    ensures Unique(born) && Ids(born) !! ever && ever + Ids(ids) == ever + Ids(born)
    ensures |ever + Ids(ids)| == |ever| + |born|
  {
    NewbornUnique(previous, ids, born, at);
    UniqueCount(born);
    assert forall x :: x in Ids(born) ==> x in born;
    DisjointCount(ever, Ids(born));
  }

  /** The same population again: nobody is new, so nobody is back. */
  lemma {:induction false} SamePopulation(ids: seq<int>, last: seq<int>, ever: set<int>)
    requires Ids(ids) == Ids(last) && Ids(last) <= ever
    ensures ever + Ids(ids) == ever && forall id :: !Returns(ids, last, ever, id)
  {
    SameMembers(ids, last);
  }

  class BoundedIdentityAudit {
    const ceiling: nat
    const introduced: IntroducedIdentities
    var pastCeiling: bool
    var previousLive: seq<int>

    /** The audit has taken in states whose last is `last` and whose union is `ever`. */
    ghost predicate Observed(last: seq<int>, ever: set<int>)
      reads this, introduced
    {
      && introduced.Valid() && introduced.Contents() == ever && |ever| <= ceiling && !pastCeiling
      && Increasing(previousLive) && Knows(previousLive, last, ever)
    }

    constructor (ceiling: nat)
      requires ceiling >= 1
      ensures this.ceiling == ceiling && Observed([], {}) && fresh(introduced)
    {
      this.ceiling := ceiling;
      introduced := new IntroducedIdentities();
      pastCeiling, previousLive := false, [];
    }

    /** The newborn of one state: refused as reused, refused as too many, or taken in. */
    method Introduce(ids: seq<int>, ghost last: seq<int>, ghost ever: set<int>, born: seq<int>, ghost at: seq<nat>) returns (r: Option<Rule>)
      requires Unique(ids) && (forall x :: x in ids ==> IsU32(x)) && Observed(last, ever)
      requires IsNewborn(previousLive, ids, born, at)
      modifies this`pastCeiling, introduced
      ensures pastCeiling == (r.Some? && r.value.TooMany?)
      ensures r.None? ==> BreaksNothing(ids, last, ever, ceiling) && introduced.Valid() && introduced.Contents() == ever + Ids(ids)
      ensures r.Some? ==> BreaksRule(ids, last, ever, ceiling, r.value)
    {
      if born == [] {
        NewbornAreNew(ids, last, ever, previousLive, born, at);
        NoRepeatNoReuse(ids, last, ever, previousLive, born, at);
        assert Ids(born) == {};
        return None;
      }
      var again := introduced.FirstRepeat(born);
      if again.Some? {
        RepeatIsReuse(ids, last, ever, previousLive, born, at, again.value);
        return Some(Reused(again.value));
      }
      var n := introduced.Count();
      NewbornAreNew(ids, last, ever, previousLive, born, at);
      NoRepeatNoReuse(ids, last, ever, previousLive, born, at);
      if n + |born| > ceiling {
        pastCeiling := true;
        return Some(TooMany);
      }
      introduced.Add(born);
      return None;
    }

    /** Consume one state. It is refused for an identity out of range, then for one brought
        back after it died, then for passing the ceiling; otherwise it is taken in. Past
        the ceiling nothing more is consumed. */
    method Observe(ids: seq<int>, ghost last: seq<int>, ghost ever: set<int>) returns (r: Option<Rule>)
      requires pastCeiling || (Observed(last, ever) && Unique(ids))
      modifies this, introduced
      ensures old(pastCeiling) ==> r.None? && pastCeiling
      ensures !old(pastCeiling) && r.None? ==> BreaksNothing(ids, last, ever, ceiling) && Observed(ids, ever + Ids(ids))
      ensures !old(pastCeiling) && r.Some? ==> BreaksRule(ids, last, ever, ceiling, r.value) && pastCeiling == r.value.TooMany?
    {
      if pastCeiling { return None; }
      var outside := FirstOutside(ids);
      if outside.Some? { return Some(OutOfRange(outside.value)); }
      var sorted := SortUnique(ids);
      if sorted == previousLive {
        SamePopulation(ids, last, ever);
        return None;
      }
      ghost var at;
      var born;
      born, at := Newborn(previousLive, ids);
      r := Introduce(ids, last, ever, born, at);
      if r.None? { previousLive := sorted; }
    }
  }

  // ---- whole timelines ----

  ghost predicate CleanTo(states: Timeline, n: nat, ceiling: nat)
    requires n <= |states|
  {
    forall k :: 0 <= k < n ==> Clean(states, k, ceiling)
  }

  ghost predicate AllClean(states: Timeline, ceiling: nat) {
    CleanTo(states, |states|, ceiling)
  }

  /** A state that breaks a rule is not clean. */
  lemma {:induction false} OffendersAreNotClean(states: Timeline, k: nat, ceiling: nat, rule: Rule)
    requires k < |states| && Offends(states, k, ceiling, rule)
    ensures !AllClean(states, ceiling)
  {
    assert !Clean(states, k, ceiling);
  }

  lemma {:induction false} CleanOne(states: Timeline, k: nat, ceiling: nat)
    requires k < |states| && CleanTo(states, k, ceiling)
    requires BreaksNothing(states[k], LiveBefore(states, k), EverLive(states, k), ceiling)
    ensures CleanTo(states, k + 1, ceiling)
  {
    assert Clean(states, k, ceiling);
  }

  /** Every state before `k` was clean, and the audit holds what they established. */
  ghost predicate SeenSoFar(audit: BoundedIdentityAudit, states: Timeline, k: nat)
    requires k <= |states|
    reads audit, audit.introduced
  {
    audit.Observed(LiveBefore(states, k), EverLive(states, k)) && CleanTo(states, k, audit.ceiling)
  }

  /** One state of the timeline: taken in when it is clean, and named when it is not. */
  method AuditState(audit: BoundedIdentityAudit, states: Timeline, k: nat) returns (rule: Option<Rule>)
    requires k < |states| && UniqueStates(states) && SeenSoFar(audit, states, k)
    modifies audit, audit.introduced
    ensures rule.None? ==> SeenSoFar(audit, states, k + 1)
    ensures rule.Some? ==> Offends(states, k, audit.ceiling, rule.value) && CleanTo(states, k, audit.ceiling) && !AllClean(states, audit.ceiling)
  {
    rule := audit.Observe(states[k], LiveBefore(states, k), EverLive(states, k));
    if rule.Some? {
      OffendersAreNotClean(states, k, audit.ceiling, rule.value);
    } else {
      CleanOne(states, k, audit.ceiling);
    }
  }

  /** The one-pass audit of a whole timeline: an exact count, or the first state that
      offends and how. */
  method Audit(states: Timeline, ceiling: nat) returns (r: Result<nat, (nat, Rule)>)
    requires UniqueStates(states) && ceiling >= 1
    ensures r.Success? <==> AllClean(states, ceiling)
    ensures r.Success? ==> r.value == |EverLive(states, |states|)|
    ensures r.Failure? ==> var (k, rule) := r.error;
      k < |states| && Offends(states, k, ceiling, rule) && CleanTo(states, k, ceiling)
  {
    var audit := new BoundedIdentityAudit(ceiling);
    for k := 0 to |states|
      invariant SeenSoFar(audit, states, k) && audit.ceiling == ceiling && fresh(audit) && fresh(audit.introduced)
    {
      var rule := AuditState(audit, states, k);
      if rule.Some? { return Failure((k, rule.value)); }
    }
    var n := audit.introduced.Count();
    return Success(n);
  }
}
