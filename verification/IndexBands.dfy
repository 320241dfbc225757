/** The check that an index names exactly the SH bands that physically follow each state
    record: one walk of the framing, holding the open run against its owner's entry. */
module IndexBands {
  import opened Wrappers
  import opened Registry
  import opened Records

  /** A band's number and byte range. */
  type Range = (nat, nat, nat)

  predicate IsBand(r: Placed) {
    Opcode(r.body) == SH_BAND_STREAM
  }

  predicate IsOwner(r: Placed) {
    IsStateOpcode(Opcode(r.body))
  }

  /** Rows a state record bears; one whose head does not parse is taken to bear some. */
  function RowsOf(r: Placed): nat {
    if r.body.Chunk? then r.body.count else if r.body.DeltaChunk? then r.body.head.births else 1
  }

  // ---- what the check decides ----

  /** The first record at or after `i` that is no band. */
  function RunEnd(records: seq<Placed>, i: nat): (j: nat)
    requires i <= |records|
    ensures i <= j <= |records|
    ensures forall k :: i <= k < j ==> IsBand(records[k])
    ensures j < |records| ==> !IsBand(records[j])
    decreases |records| - i
  {
    if i < |records| && IsBand(records[i]) then RunEnd(records, i + 1) else i
  }

  /** The bands immediately following record `i`. */
  function RunOf(records: seq<Placed>, i: nat): seq<Placed>
    requires i < |records|
  {
    records[i + 1..RunEnd(records, i + 1)]
  }

  predicate BandReadable(r: Placed, degree: nat) {
    r.body.ShBand? && 1 <= r.body.band <= degree
  }

  /** Readable bands within the degree, none of them twice. */
  predicate RunLegal(run: seq<Placed>, degree: nat) {
    && (forall k :: 0 <= k < |run| ==> BandReadable(run[k], degree))
    && (forall j, k :: 0 <= j < k < |run| ==> run[j].body.band != run[k].body.band)
  }

  function RangeOf(r: Placed): Range {
    if r.body.ShBand? then (r.body.band, r.offset, r.length) else (0, r.offset, r.length)
  }

  /** The entry names each band once, and exactly the ranges of the run. */
  predicate NamesRun(e: Entry, run: seq<Placed>) {
    && (forall j, k :: 0 <= j < k < |e.bands| ==> e.bands[j].0 != e.bands[k].0)
    && (forall j :: 0 <= j < |e.bands| ==> exists k :: 0 <= k < |run| && RangeOf(run[k]) == e.bands[j])
    && (forall k :: 0 <= k < |run| ==> RangeOf(run[k]) in e.bands)
  }

  predicate HasBand(run: seq<Placed>, b: nat) {
    exists k :: 0 <= k < |run| && run[k].body.ShBand? && run[k].body.band == b
  }

  /** Every band of the degree when rows are borne, and none otherwise. */
  predicate RunOwed(run: seq<Placed>, degree: nat, rows: nat) {
    forall b :: 1 <= b <= degree ==> (HasBand(run, b) <==> rows > 0)
  }

  /** The run after state record `i` is whole, and `e` names it. */
  predicate Matches(records: seq<Placed>, degree: nat, i: nat, e: Entry)
    requires i < |records|
  {
    var run := RunOf(records, i);
    e.offset == records[i].offset && RunLegal(run, degree) && NamesRun(e, run) && RunOwed(run, degree, RowsOf(records[i]))
  }

  /** A band record lies in the run immediately after a state record. */
  predicate Owned(records: seq<Placed>, j: nat)
    requires j < |records|
  {
    exists i :: 0 <= i < j && IsOwner(records[i]) && j < RunEnd(records, i + 1)
  }

  predicate Named(records: seq<Placed>, index: seq<Entry>, degree: nat, i: nat)
    requires i < |records|
  {
    exists n :: 0 <= n < |index| && Matches(records, degree, i, index[n])
  }

  predicate NamesState(records: seq<Placed>, e: Entry) {
    exists i :: 0 <= i < |records| && IsOwner(records[i]) && records[i].offset == e.offset
  }

  /** Index entries and state records correspond one to one by offset, every band belongs to
      a state record, and every entry names its record's run. */
  predicate BandsIndexed(records: seq<Placed>, index: seq<Entry>, degree: nat) {
    && DistinctOffsets(index)
    && (forall j :: 0 <= j < |records| && IsBand(records[j]) ==> Owned(records, j))
    && (forall i :: 0 <= i < |records| && IsOwner(records[i]) ==> Named(records, index, degree, i))
    && (forall n :: 0 <= n < |index| ==> NamesState(records, index[n]))
  }

  // ---- the walk ----

  /** The state record whose run is open just before `i`. */
  function OpenOwner(records: seq<Placed>, i: nat): (k: Option<nat>)
    requires i <= |records|
    ensures k.Some? ==> k.value < i && IsOwner(records[k.value]) && RunEnd(records, k.value + 1) >= i
    ensures k.Some? ==> forall j :: k.value < j < i ==> IsBand(records[j])
  {
    if i == 0 then None
    else if IsOwner(records[i - 1]) then Some(i - 1)
    else if IsBand(records[i - 1]) then
      var k := OpenOwner(records, i - 1);
      if k.Some? then (ReachesOn(records, k.value + 1, i - 1); k) else k
    else None
  }

  lemma {:induction false} ReachesOn(records: seq<Placed>, from: nat, j: nat)
    requires from <= j < |records| && IsBand(records[j]) && RunEnd(records, from) >= j
    ensures RunEnd(records, from) >= j + 1
  {
  }

  /** The walk's own variables. */
  datatype Walk = Walk(owner: Option<nat>, following: seq<Placed>, seen: set<nat>)

  /** Bands before `i` all belong to a state record. */
  predicate BandsOwned(records: seq<Placed>, i: nat)
    requires i <= |records|
  {
    forall j :: 0 <= j < i && IsBand(records[j]) ==> Owned(records, j)
  }

  /** State records before `i`, but the open one, are named, and their offsets noted. */
  predicate OwnersNamed(records: seq<Placed>, index: seq<Entry>, degree: nat, i: nat, open: Option<nat>, seen: set<nat>)
    requires i <= |records|
  {
    forall p :: 0 <= p < i && IsOwner(records[p]) && open != Some(p) ==> Named(records, index, degree, p) && records[p].offset in seen
  }

  /** Nothing else is noted. */
  predicate SeenAreOwners(records: seq<Placed>, i: nat, seen: set<nat>)
    requires i <= |records|
  {
    forall o :: o in seen ==> exists p :: 0 <= p < i && IsOwner(records[p]) && records[p].offset == o
  }

  /** The run open just before `i`, as the walk holds it. */
  ghost predicate OpenRun(records: seq<Placed>, degree: nat, i: nat, w: Walk)
    requires i <= |records|
  {
    && w.owner == OpenOwner(records, i)
    && (w.owner.Some? ==> w.following == records[w.owner.value + 1..i] && RunLegal(w.following, degree))
  }

  /** What the walk knows before record `i`. */
  ghost predicate WalkOf(records: seq<Placed>, index: seq<Entry>, degree: nat, i: nat, w: Walk)
    requires i <= |records|
  {
    OpenRun(records, degree, i, w) && BandsOwned(records, i) && OwnersNamed(records, index, degree, i, w.owner, w.seen) && SeenAreOwners(records, i, w.seen)
  }

  /** The entry for an offset, when the index has one. */
  function EntryAt(index: seq<Entry>, o: nat): (e: Option<Entry>)
    ensures e.Some? ==> e.value in index && e.value.offset == o
    ensures e.None? ==> forall n :: 0 <= n < |index| ==> index[n].offset != o
  {
    if index == [] then None else if index[0].offset == o then Some(index[0]) else EntryAt(index[1..], o)
  }

  /** With distinct offsets the run can only be named by the entry found. */
  lemma {:induction false} NamedByEntry(records: seq<Placed>, index: seq<Entry>, degree: nat, i: nat)
    requires DistinctOffsets(index) && i < |records|
    ensures Named(records, index, degree, i) <==>
      EntryAt(index, records[i].offset).Some? && Matches(records, degree, i, EntryAt(index, records[i].offset).value)
  {
    var e := EntryAt(index, records[i].offset);
    if e.Some? { var n :| 0 <= n < |index| && index[n] == e.value; }
  }

  /** Every state record before `i` is named, and its offset noted. */
  ghost predicate FinishedTo(records: seq<Placed>, index: seq<Entry>, degree: nat, i: nat, seen: set<nat>)
    requires i <= |records|
  {
    BandsOwned(records, i) && OwnersNamed(records, index, degree, i, None, seen) && SeenAreOwners(records, i, seen)
  }

  lemma {:induction false} FinishesOne(records: seq<Placed>, index: seq<Entry>, degree: nat, i: nat, o: nat, seen: set<nat>)
    requires o < i <= |records| && IsOwner(records[o]) && Named(records, index, degree, o)
    requires OwnersNamed(records, index, degree, i, Some(o), seen) && SeenAreOwners(records, i, seen)
    ensures OwnersNamed(records, index, degree, i, None, seen + {records[o].offset}) && SeenAreOwners(records, i, seen + {records[o].offset})
  {
  }

  /** Whether the entry of an owner names its finished run. */
  method OwnerNamed(records: seq<Placed>, index: seq<Entry>, degree: nat, i: nat, o: nat, following: seq<Placed>) returns (ok: bool)
    requires DistinctOffsets(index) && o < i <= |records| && RunEnd(records, o + 1) >= i && (i < |records| ==> !IsBand(records[i]))
    requires following == records[o + 1..i] && RunLegal(following, degree)
    ensures ok <==> Named(records, index, degree, o)
  {
    RunIsOver(records, o, i);
    NamedByEntry(records, index, degree, o);
    var indexed := EntryAt(index, records[o].offset);
    return indexed.Some? && NamesRun(indexed.value, following) && RunOwed(following, degree, RowsOf(records[o]));
  }

  /** The run just before `i` is over: the entry of its owner must name it. */
  method FinishOwner(records: seq<Placed>, index: seq<Entry>, degree: nat, i: nat, w: Walk) returns (r: Option<Walk>)
    requires DistinctOffsets(index) && i <= |records| && WalkOf(records, index, degree, i, w)
    requires i < |records| ==> !IsBand(records[i])
    ensures r.Some? <==> w.owner.None? || Named(records, index, degree, w.owner.value)
    ensures r.Some? ==> r.value.owner == None && FinishedTo(records, index, degree, i, r.value.seen)
  {
    if w.owner.None? { return Some(w); }
    var o := w.owner.value;
    var named := OwnerNamed(records, index, degree, i, o, w.following);
    if !named { return None; }
    FinishesOne(records, index, degree, i, o, w.seen);
    return Some(Walk(None, [], w.seen + {records[o].offset}));
  }

  lemma {:induction false} RunIsOver(records: seq<Placed>, o: nat, i: nat)
    requires o < i <= |records| && RunEnd(records, o + 1) >= i && (i < |records| ==> !IsBand(records[i]))
    ensures RunEnd(records, o + 1) == i && RunOf(records, o) == records[o + 1..i]
  {
    RunEndAt(records, o + 1, i);
  }

  lemma {:induction false} RunEndAt(records: seq<Placed>, from: nat, i: nat)
    requires from <= i <= |records| && RunEnd(records, from) >= i && (i < |records| ==> !IsBand(records[i]))
    ensures RunEnd(records, from) == i
    decreases |records| - from
  {
    if from < i { RunEndAt(records, from + 1, i); }
  }

  /** One band record joins the open run, if there is one and the band may join it. */
  method WalkBand(records: seq<Placed>, index: seq<Entry>, degree: nat, i: nat, w: Walk) returns (r: Option<Walk>)
    requires i < |records| && IsBand(records[i]) && WalkOf(records, index, degree, i, w)
    ensures r.Some? ==> WalkOf(records, index, degree, i + 1, r.value)
    ensures r.None? ==> !Owned(records, i) || (w.owner.Some? && !RunLegal(RunOf(records, w.owner.value), degree))
  {
    if w.owner.None? {
      NotOwned(records, i);
      return None;
    }
    if !BandReadable(records[i], degree) || RepeatsBand(w.following, records[i]) {
      BandRefused(records, degree, i, w);
      return None;
    }
    StillOpen(records, degree, i, w);
    JoinsRun(records, index, degree, i, w);
    return Some(w.(following := w.following + [records[i]]));
  }

  lemma {:induction false} StillOpen(records: seq<Placed>, degree: nat, i: nat, w: Walk)
    requires i < |records| && IsBand(records[i]) && OpenRun(records, degree, i, w) && w.owner.Some?
    ensures RunEnd(records, w.owner.value + 1) > i
  {
    ReachesOn(records, w.owner.value + 1, i);
  }

  lemma {:induction false} BandRefused(records: seq<Placed>, degree: nat, i: nat, w: Walk)
    requires i < |records| && IsBand(records[i]) && OpenRun(records, degree, i, w) && w.owner.Some?
    requires !BandReadable(records[i], degree) || RepeatsBand(w.following, records[i])
    ensures !RunLegal(RunOf(records, w.owner.value), degree)
  {
    StillOpen(records, degree, i, w);
    IllegalRun(records, degree, w.owner.value, i);
  }

  predicate RepeatsBand(run: seq<Placed>, r: Placed) {
    r.body.ShBand? && HasBand(run, r.body.band)
  }

  /** A band adds no state record. */
  lemma {:induction false} BandAddsNone(records: seq<Placed>, index: seq<Entry>, degree: nat, i: nat, open: Option<nat>, seen: set<nat>)
    requires i < |records| && IsBand(records[i])
    requires OwnersNamed(records, index, degree, i, open, seen) && SeenAreOwners(records, i, seen)
    ensures OwnersNamed(records, index, degree, i + 1, open, seen) && SeenAreOwners(records, i + 1, seen)
  {
  }

  lemma {:induction false} OpenRunGrows(records: seq<Placed>, degree: nat, i: nat, w: Walk)
    requires i < |records| && IsBand(records[i]) && OpenRun(records, degree, i, w) && w.owner.Some?
    requires BandReadable(records[i], degree) && !RepeatsBand(w.following, records[i])
    ensures OpenRun(records, degree, i + 1, w.(following := w.following + [records[i]]))
  {
    SliceGrows(records, w.owner.value + 1, i);
    RunLegalOne(w.following, records[i], degree);
  }

  lemma {:induction false} JoinsRun(records: seq<Placed>, index: seq<Entry>, degree: nat, i: nat, w: Walk)
    requires i < |records| && IsBand(records[i]) && WalkOf(records, index, degree, i, w) && w.owner.Some?
    requires BandReadable(records[i], degree) && !RepeatsBand(w.following, records[i]) && RunEnd(records, w.owner.value + 1) > i
    ensures WalkOf(records, index, degree, i + 1, w.(following := w.following + [records[i]]))
  {
    OpenRunGrows(records, degree, i, w);
    OwnedByOpen(records, w.owner.value, i);
    BandAddsNone(records, index, degree, i, w.owner, w.seen);
  }

  lemma {:induction false} OwnedByOpen(records: seq<Placed>, o: nat, i: nat)
    requires o < i < |records| && IsOwner(records[o]) && i < RunEnd(records, o + 1)
    ensures Owned(records, i)
  {
  }

  lemma {:induction false} SliceGrows(records: seq<Placed>, from: nat, i: nat)
    requires from <= i < |records|
    ensures records[from..i] + [records[i]] == records[from..i + 1]
  {
  }

  lemma {:induction false} RunLegalOne(run: seq<Placed>, r: Placed, degree: nat)
    requires RunLegal(run, degree) && BandReadable(r, degree) && !RepeatsBand(run, r)
    ensures RunLegal(run + [r], degree)
  {
    forall k | 0 <= k < |run|
      ensures run[k].body.band != r.body.band
    {
      assert run[k].body.ShBand?;
    }
  }

  lemma {:induction false} NotOwned(records: seq<Placed>, i: nat)
    requires i < |records| && OpenOwner(records, i).None?
    ensures !Owned(records, i)
  {
    forall p | 0 <= p < i && IsOwner(records[p])
      ensures RunEnd(records, p + 1) <= i
    {
      if RunEnd(records, p + 1) > i { OpenUntil(records, p, i); }
    }
  }

  /** A run that reaches `i` is open there. */
  lemma {:induction false} OpenUntil(records: seq<Placed>, p: nat, i: nat)
    requires p < i < |records| && IsOwner(records[p]) && RunEnd(records, p + 1) > i
    ensures OpenOwner(records, i) == Some(p)
    decreases i
  {
    if p + 1 < i { OpenUntil(records, p, i - 1); }
  }

  lemma {:induction false} IllegalRun(records: seq<Placed>, degree: nat, o: nat, i: nat)
    requires o < i < |records| && RunEnd(records, o + 1) > i
    requires !BandReadable(records[i], degree) || RepeatsBand(records[o + 1..i], records[i])
    ensures !RunLegal(RunOf(records, o), degree)
  {
    var run := RunOf(records, o);
    assert run[i - o - 1] == records[i];
    if BandReadable(records[i], degree) {
      var open := records[o + 1..i];
      var k :| 0 <= k < |open| && open[k].body.ShBand? && open[k].body.band == records[i].body.band;
      assert run[k] == open[k];
    }
  }

  /** Any other record closes the run, and a state record opens the next. */
  method WalkOther(records: seq<Placed>, index: seq<Entry>, degree: nat, i: nat, w: Walk) returns (r: Option<Walk>)
    requires DistinctOffsets(index) && i < |records| && !IsBand(records[i]) && WalkOf(records, index, degree, i, w)
    ensures r.Some? <==> w.owner.None? || Named(records, index, degree, w.owner.value)
    ensures r.Some? ==> WalkOf(records, index, degree, i + 1, r.value)
  {
    r := FinishOwner(records, index, degree, i, w);
    if r.Some? && IsOwner(records[i]) { r := Some(Walk(Some(i), [], r.value.seen)); }
  }

  /** Whoever owns an open run that can no longer be named, or a band that nobody owns, ends
      the walk. */
  lemma {:induction false} WalkRefuses(records: seq<Placed>, index: seq<Entry>, degree: nat, i: nat, w: Walk)
    requires DistinctOffsets(index) && i < |records| && WalkOf(records, index, degree, i, w)
    requires IsBand(records[i]) ==> !Owned(records, i) || (w.owner.Some? && !RunLegal(RunOf(records, w.owner.value), degree))
    requires !IsBand(records[i]) ==> w.owner.Some? && !Named(records, index, degree, w.owner.value)
    ensures !BandsIndexed(records, index, degree)
  {
    if IsBand(records[i]) && Owned(records, i) {
      assert !Named(records, index, degree, w.owner.value);
    }
  }

  method Step(records: seq<Placed>, index: seq<Entry>, degree: nat, i: nat, w: Walk) returns (r: Option<Walk>)
    requires DistinctOffsets(index) && i < |records| && WalkOf(records, index, degree, i, w)
    ensures r.Some? ==> WalkOf(records, index, degree, i + 1, r.value)
    ensures r.None? ==> !BandsIndexed(records, index, degree)
  {
    if IsBand(records[i]) {
      r := WalkBand(records, index, degree, i, w);
    } else {
      r := WalkOther(records, index, degree, i, w);
    }
    if r.None? { WalkRefuses(records, index, degree, i, w); }
  }

  /** What the finished walk and the last look at the index decide. */
  lemma {:induction false} Decides(records: seq<Placed>, index: seq<Entry>, degree: nat, seen: set<nat>)
    requires DistinctOffsets(index) && FinishedTo(records, index, degree, |records|, seen)
    ensures BandsIndexed(records, index, degree) <==> forall n :: 0 <= n < |index| ==> index[n].offset in seen
  {
    forall n | 0 <= n < |index|
      ensures NamesState(records, index[n]) <==> index[n].offset in seen
    {
    }
  }

  /** Walk the framing once. The check accepts exactly when index entries and state records
      correspond one to one, every band belongs to a state record, and every entry names
      exactly the bands of its record's run, which are all of the degree or none. */
  method CheckIndexBands(records: seq<Placed>, index: seq<Entry>, degree: nat) returns (ok: bool)
    ensures ok <==> BandsIndexed(records, index, degree)
  {
    if !DistinctOffsets(index) { return false; }
    var w := Walk(None, [], {});
    for i := 0 to |records|
      invariant WalkOf(records, index, degree, i, w)
    {
      var next := Step(records, index, degree, i, w);
      if next.None? { return false; }
      w := next.value;
    }
    var last := FinishOwner(records, index, degree, |records|, w);
    if last.None? { return false; }
    Decides(records, index, degree, last.value.seen);
    ok := forall n :: 0 <= n < |index| ==> index[n].offset in last.value.seen;
  }
}
