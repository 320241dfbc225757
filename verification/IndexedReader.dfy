/** The two indexed readers: one pass over the whole index, keeping two states, and the
    walk of a single entry's chain. */
module IndexedReader {
  import opened Wrappers
  import opened Registry
  import opened Populations
  import opened Times
  import opened Records
  import opened DecodedBudget
  import opened StreamedScan
  import opened Timeline

  // ---- what an entry must agree with ----

  predicate ShapeLegal(index: seq<Entry>) {
    forall k :: 0 <= k < |index| ==> index[k].extended && index[k].kind <= 1
  }

  /** The record the entry's byte range frames, of the kind the entry states. */
  predicate RecordMatches(at: Layout, e: Entry) {
    && e.offset in at && at[e.offset].length == e.length
    && (if e.kind == 0 then at[e.offset].body.Chunk? else at[e.offset].body.DeltaChunk?)
  }

  /** What index and record both state is the same. */
  predicate FieldsMatch(e: Entry, b: Body)
    requires if e.kind == 0 then b.Chunk? else b.DeltaChunk?
  {
    if e.kind == 0 then Equal(e.t0, b.t0) && Equal(e.t1, b.t1)
    else
      && e.mode == b.head.mode && e.reference == b.head.reference && e.keyframe == b.head.keyframe && e.depth == b.head.depth
      && Equal(e.t0, b.head.t0) && Equal(e.t1, b.head.t1)
      && e.gaussians == b.head.updates + b.head.births + b.head.deaths
  }

  /** The entry names a decodable record that says what the entry says. */
  ghost predicate EntryDecodes(at: Layout, grid: MuGrid, e: Entry)
    requires ValidLayout(at)
  {
    && RecordMatches(at, e)
    && FieldsMatch(e, at[e.offset].body)
    && Composed(at, grid, e.offset).Some?
    && e.live == |Composed(at, grid, e.offset).value.rows|
    && (e.kind == 0 ==> e.gaussians == e.live)
    && (e.kind != 0 ==> LevelAt(at, e.offset) == LevelAt(at, e.reference))
  }

  /** The level a state record states. */
  function LevelAt(at: Layout, o: nat): nat {
    if o in at && (at[o].body.Chunk? || at[o].body.DeltaChunk?) then Level(at[o].body) else 0
  }

  /** A window index names a row of the Window Table; a table with no rows is the one
      implicit window. */
  predicate NamesWindow(row: Row, windows: nat) {
    |row| == 1 && 0 <= row[0] < (if windows == 0 then 1 else windows)
  }

  predicate WindowsLegal(t: Table, windows: nat) {
    if WINDOW_INDEX in t.bins then forall k :: 0 <= k < |t.bins[WINDOW_INDEX]| ==> NamesWindow(t.bins[WINDOW_INDEX][k], windows)
    else t.ids == []
  }

  ghost predicate WindowsNamed(p: Population, windows: nat) {
    if WINDOW_INDEX in p.lanes then forall id :: id in p.rows ==> NamesWindow(Held(p, id, WINDOW_INDEX), windows)
    else p.rows == map[]
  }

  lemma {:induction false} WindowsByView(t: Table, windows: nat)
    requires Unique(t.ids) && Tall(t)
    ensures WindowsLegal(t, windows) <==> WindowsNamed(View(t), windows)
  {
    if WINDOW_INDEX in t.bins {
      forall k | 0 <= k < |t.ids|
        ensures t.ids[k] in View(t).rows && Held(View(t), t.ids[k], WINDOW_INDEX) == t.bins[WINDOW_INDEX][k]
      {
        HeldInView(t, k, WINDOW_INDEX);
      }
      if WindowsLegal(t, windows) {
        forall id | id in View(t).rows
          ensures NamesWindow(Held(View(t), id, WINDOW_INDEX), windows)
        {
          var k := IndexOf(t.ids, id);
          HeldInView(t, k, WINDOW_INDEX);
        }
      }
    } else {
      assert t.ids != [] ==> t.ids[0] in View(t).rows;
    }
  }

  /** Every band range the entry states frames that band, sized for the rows it bears. */
  predicate BandsLegal(at: Layout, e: Entry)
    requires RecordMatches(at, e)
  {
    forall k :: 0 <= k < |e.bands| ==> BandRangeLegal(at, e.bands[k], BornRows(at[e.offset].body))
  }

  predicate BandRangeLegal(at: Layout, range: (nat, nat, nat), rows: nat) {
    && range.1 in at && at[range.1].length == range.2
    && at[range.1].body.ShBand? && at[range.1].body.band == range.0
    && at[range.1].body.stream.Some?
    && var stream := at[range.1].body.stream.value;
       stream.attribute == SH_BAND_STREAM && stream.rows == rows && stream.channels == 3 * (2 * range.0 + 1) && stream.codesLegal
  }

  // ---- one entry, as both readers read it ----

  method ReadKeyframeEntry(at: Layout, grid: MuGrid, e: Entry) returns (r: Result<Table, ReadError>)
    requires ValidLayout(at) && e.kind == 0
    ensures r.Success? <==> EntryDecodes(at, grid, e)
    ensures r.Success? ==> Holds(at, grid, e.offset, r.value)
  {
    if !RecordMatches(at, e) { return Failure(IndexRecordMismatch); }
    var b := at[e.offset].body;
    var state := DecodeKeyframe(grid, b);
    if state.Failure? { return state; }
    RowCount(state.value);
    if !FieldsMatch(e, b) || e.gaussians != |state.value.ids| || e.live != |state.value.ids| { return Failure(IndexRecordMismatch); }
    return state;
  }

  lemma {:induction false} DeltaEntryComposes(at: Layout, grid: MuGrid, e: Entry, reference: Table)
    requires ValidLayout(at) && RecordMatches(at, e) && e.kind != 0 && FieldsMatch(e, at[e.offset].body)
    requires e.reference < e.offset && Holds(at, grid, e.reference, reference)
    ensures Composed(at, grid, e.offset) ==
      if DeltaAccepted(View(reference), at[e.offset].body) then Some(Compose(View(reference), DeltaOf(at[e.offset].body.groups.value))) else None
  {
  }

  method ReadDeltaEntry(at: Layout, grid: MuGrid, e: Entry, reference: Table, level: nat) returns (r: Result<Table, ReadError>)
    requires ValidLayout(at) && e.kind != 0 && e.reference < e.offset
    requires Holds(at, grid, e.reference, reference)
    requires level == LevelAt(at, e.reference)
    ensures r.Success? <==> EntryDecodes(at, grid, e)
    ensures r.Success? ==> Holds(at, grid, e.offset, r.value)
  {
    if !RecordMatches(at, e) { return Failure(IndexRecordMismatch); }
    var b := at[e.offset].body;
    var state := DecodeDelta(reference, b);
    if FieldsMatch(e, b) { DeltaEntryComposes(at, grid, e, reference); }
    if state.Failure? { return state; }
    RowCount(state.value);
    if !FieldsMatch(e, b) || b.head.level != level || e.live != |state.value.ids| { return Failure(IndexRecordMismatch); }
    return state;
  }

  // ---- one pass over the index ----

  /** The last keyframe entry before `i`. */
  function KeyframeEntry(es: seq<Entry>, i: nat): (k: Option<nat>)
    requires i <= |es|
    ensures k.Some? ==> k.value < i && es[k.value].kind == 0
  {
    if i == 0 then None
    else if es[i - 1].kind == 0 then Some(i - 1)
    else KeyframeEntry(es, i - 1)
  }

  /** The entry a delta entry's mode tells it to reference. */
  function EntryReference(es: seq<Entry>, i: nat): (k: Option<nat>)
    requires i < |es|
    ensures k.Some? ==> k.value < i
  {
    if es[i].mode == KEYFRAME_MODE then KeyframeEntry(es, i)
    else if es[i].mode == CHAINED_MODE && i > 0 then Some(i - 1)
    else None
  }

  /** Reference, group and depth of an entry are what its place in the timeline implies. */
  predicate EntryLinked(es: seq<Entry>, i: nat)
    requires i < |es|
  {
    if es[i].kind == 0 then
      es[i].keyframe == es[i].offset && es[i].depth == 0 && es[i].mode == 0 && es[i].reference == 0
    else
      var reference, keyframe := EntryReference(es, i), KeyframeEntry(es, i);
      && es[i].reference < es[i].offset
      && reference.Some? && es[i].reference == es[reference.value].offset
      && keyframe.Some? && es[i].keyframe == es[keyframe.value].offset
      && es[i].depth == es[reference.value].depth + 1
  }

  ghost predicate EntrySound(at: Layout, grid: MuGrid, windows: nat, es: seq<Entry>, i: nat)
    requires ValidLayout(at) && i < |es|
  {
    && EntryLinked(es, i) && EntryDecodes(at, grid, es[i])
    && WindowsNamed(Composed(at, grid, es[i].offset).value, windows)
    && BandsLegal(at, es[i])
  }

  ghost predicate SoundTo(at: Layout, grid: MuGrid, windows: nat, es: seq<Entry>, n: nat)
    requires ValidLayout(at) && n <= |es|
  {
    forall i :: 0 <= i < n ==> EntrySound(at, grid, windows, es, i)
  }

  /** A retained state is that of entry `k`. */
  ghost predicate KeepsEntry(at: Layout, grid: MuGrid, es: seq<Entry>, k: Option<nat>, kept: Option<Kept>)
    requires ValidLayout(at) && (k.Some? ==> k.value < |es|)
  {
    && (k.None? <==> kept.None?)
    && (k.Some? ==>
         && kept.value.offset == es[k.value].offset && kept.value.depth == es[k.value].depth
         && Holds(at, grid, kept.value.offset, kept.value.state)
         && kept.value.level == LevelAt(at, kept.value.offset))
  }

  function Previous(i: nat): Option<nat> {
    if i == 0 then None else Some(i - 1)
  }

  /** The retained state a delta entry's mode names, if it is the one the entry names. */
  method ScanEntryReference(at: Layout, grid: MuGrid, es: seq<Entry>, i: nat, keyframe: Option<Kept>, current: Option<Kept>)
    returns (r: Result<Kept, ReadError>)
    requires ValidLayout(at) && i < |es| && es[i].kind != 0 && (i > 0 ==> es[0].kind == 0)
    requires KeepsEntry(at, grid, es, KeyframeEntry(es, i), keyframe) && KeepsEntry(at, grid, es, Previous(i), current)
    ensures r.Success? <==> EntryLinked(es, i)
    ensures r.Success? ==> r.value.offset == es[i].reference && KeepsEntry(at, grid, es, EntryReference(es, i), Some(r.value))
  {
    var e := es[i];
    if e.reference >= e.offset { return Failure(ForwardReference); }
    if e.mode != KEYFRAME_MODE && e.mode != CHAINED_MODE { return Failure(IndexRecordMismatch); }
    var reference := if e.mode == KEYFRAME_MODE then keyframe else current;
    if reference.None? || e.reference != reference.value.offset { return Failure(BrokenReference); }
    var keyframeAt := if keyframe.Some? then keyframe.value.offset else 0;
    if i > 0 { FirstKeyframe(es, i); }
    if e.keyframe != keyframeAt { return Failure(IndexRecordMismatch); }
    if e.depth != reference.value.depth + 1 { return Failure(DepthMismatch); }
    return Success(reference.value);
  }

  lemma {:induction false} FirstKeyframe(es: seq<Entry>, i: nat)
    requires 0 < i <= |es| && es[0].kind == 0
    ensures KeyframeEntry(es, i).Some?
  {
    if i > 1 { FirstKeyframe(es, i - 1); }
  }

  /** One entry of the pass. */
  method ScanEntry(at: Layout, grid: MuGrid, windows: nat, es: seq<Entry>, i: nat, keyframe: Option<Kept>, current: Option<Kept>)
    returns (r: Result<Kept, ReadError>)
    requires ValidLayout(at) && i < |es| && (i > 0 ==> es[0].kind == 0)
    requires KeepsEntry(at, grid, es, KeyframeEntry(es, i), keyframe) && KeepsEntry(at, grid, es, Previous(i), current)
    ensures r.Success? <==> EntrySound(at, grid, windows, es, i)
    ensures r.Success? ==> KeepsEntry(at, grid, es, Some(i), Some(r.value))
  {
    var e := es[i];
    var state;
    if e.kind == 0 {
      state := ReadKeyframeEntry(at, grid, e);
      if state.Failure? { return Failure(state.error); }
      if e.keyframe != e.offset || e.depth != 0 || e.mode != 0 || e.reference != 0 { return Failure(IndexRecordMismatch); }
    } else {
      var reference := ScanEntryReference(at, grid, es, i, keyframe, current);
      if reference.Failure? { return Failure(reference.error); }
      state := ReadDeltaEntry(at, grid, e, reference.value.state, reference.value.level);
      if state.Failure? { return Failure(state.error); }
    }
    WindowsByView(state.value, windows);
    if !WindowsLegal(state.value, windows) { return Failure(WindowIndexOutOfRange); }
    if !BandsLegal(at, e) { return Failure(BandMismatch); }
    return Success(Kept(e.offset, e.depth, LevelAt(at, e.offset), state.value));
  }

  /** What the pass holds before entry `i`: the two retained states, and what it handed out. */
  ghost predicate Passing(at: Layout, grid: MuGrid, windows: nat, es: seq<Entry>, i: nat, keyframe: Option<Kept>, current: Option<Kept>, states: seq<Table>)
    requires ValidLayout(at) && i <= |es|
  {
    && KeepsEntry(at, grid, es, KeyframeEntry(es, i), keyframe) && KeepsEntry(at, grid, es, Previous(i), current)
    && SoundTo(at, grid, windows, es, i) && (i > 0 ==> es[0].kind == 0)
    && HandedOut(at, grid, es, i, states)
  }

  ghost predicate HandedOut(at: Layout, grid: MuGrid, es: seq<Entry>, i: nat, states: seq<Table>)
    requires ValidLayout(at) && i <= |es|
  {
    |states| == i && forall j :: 0 <= j < i ==> Holds(at, grid, es[j].offset, states[j])
  }

  lemma {:induction false} HandOutOne(at: Layout, grid: MuGrid, es: seq<Entry>, i: nat, states: seq<Table>, t: Table)
    requires ValidLayout(at) && i < |es| && HandedOut(at, grid, es, i, states) && Holds(at, grid, es[i].offset, t)
    ensures HandedOut(at, grid, es, i + 1, states + [t])
  {
    hide Holds, ValidLayout;
  }

  lemma {:induction false} SoundOne(at: Layout, grid: MuGrid, windows: nat, es: seq<Entry>, i: nat)
    requires ValidLayout(at) && i < |es| && SoundTo(at, grid, windows, es, i) && EntrySound(at, grid, windows, es, i)
    ensures SoundTo(at, grid, windows, es, i + 1) && EntryLinked(es, i)
  {
  }

  lemma {:induction false} PassOne(at: Layout, grid: MuGrid, windows: nat, es: seq<Entry>, i: nat, keyframe: Option<Kept>, current: Option<Kept>, states: seq<Table>, kept: Kept)
    requires ValidLayout(at) && i < |es| && Passing(at, grid, windows, es, i, keyframe, current, states)
    requires SoundTo(at, grid, windows, es, i + 1) && HandedOut(at, grid, es, i + 1, states + [kept.state]) && EntryLinked(es, i)
    requires KeepsEntry(at, grid, es, Some(i), Some(kept))
    ensures Passing(at, grid, windows, es, i + 1, if es[i].kind == 0 then Some(kept) else keyframe, Some(kept), states + [kept.state])
  {
  }

  /** The validator's pass: in timeline order, each entry composed onto one of the two
      states kept. It completes exactly on a sound index, and hands out, entry by entry,
      the population each named record denotes. */
  method ScanIndexed(at: Layout, grid: MuGrid, windows: nat, index: seq<Entry>) returns (r: Result<seq<Table>, ReadError>)
    requires ValidLayout(at)
    ensures r.Success? <==> ShapeLegal(index) && SoundTo(at, grid, windows, ByStart(index), |index|)
    ensures r.Success? ==> HandedOut(at, grid, ByStart(index), |index|, r.value)
  {
    if !ShapeLegal(index) { return Failure(UnknownChunkKind); }
    var es := ByStart(index);
    var keyframe: Option<Kept> := None;
    var current: Option<Kept> := None;
    var states: seq<Table> := [];
    for i := 0 to |es|
      invariant Passing(at, grid, windows, es, i, keyframe, current, states)
    {
      var kept := ScanEntry(at, grid, windows, es, i, keyframe, current);
      if kept.Failure? { return Failure(kept.error); }
      HandOutOne(at, grid, es, i, states, kept.value.state);
      SoundOne(at, grid, windows, es, i);
      PassOne(at, grid, windows, es, i, keyframe, current, states, kept.value);
      current := Some(kept.value);
      if es[i].kind == 0 { keyframe := current; }
      states := states + [kept.value.state];
    }
    return Success(states);
  }

  // ---- one entry's chain ----

  /** A link's stated group, reference and depth, against the chain that was walked. */
  predicate LinkLegal(chain: seq<Entry>, i: nat)
    requires i < |chain|
  {
    && chain[i].keyframe == chain[0].offset
    && (if chain[i].kind == 0 then i == 0 && chain[i].depth == 0 && chain[i].mode == 0 && chain[i].reference == 0
        else
          && chain[i].reference < chain[i].offset && (chain[i].mode == KEYFRAME_MODE || chain[i].mode == CHAINED_MODE)
          && chain[i].reference == (if chain[i].mode == KEYFRAME_MODE || i == 0 then chain[0].offset else chain[i - 1].offset)
          && chain[i].depth == i)
  }

  predicate LinksLegal(chain: seq<Entry>) {
    forall i :: 0 <= i < |chain| ==> LinkLegal(chain, i)
  }

  /** Seeking to `e` succeeds: its chain reaches a keyframe, is linked as it states, and
      every record on it decodes to what its entry says. */
  ghost predicate SeekAccepts(at: Layout, grid: MuGrid, windows: nat, index: seq<Entry>, e: Entry)
    requires ValidLayout(at)
  {
    && ShapeLegal(index) && ChainOf(index, e).Some?
    && var chain := ChainOf(index, e).value;
       && |chain| - 1 == e.depth && LinksLegal(chain)
       && (forall i :: 0 <= i < |chain| ==> EntryDecodes(at, grid, chain[i]))
       && WindowsNamed(Composed(at, grid, e.offset).value, windows)
       && BandsLegal(at, e)
  }

  /** A chain as it is walked: a keyframe, then deltas each referencing the one before. */
  predicate IsChain(chain: seq<Entry>) {
    && chain != [] && chain[0].kind == 0
    && forall i :: 0 < i < |chain| ==> chain[i].kind != 0 && chain[i].reference == chain[i - 1].offset && chain[i - 1].offset < chain[i].offset
  }

  lemma {:induction false} ChainIsChain(index: seq<Entry>, e: Entry)
    requires ChainOf(index, e).Some? && e in index
    ensures IsChain(ChainOf(index, e).value)
  {
    var c := ChainOf(index, e).value;
    ChainDescends(index, e);
    forall i | 0 < i < |c|
      ensures c[i - 1].offset < c[i].offset
    {
      assert Offsets(c)[i - 1] < Offsets(c)[i];
    }
  }

  /** Along a legal chain every record has its keyframe's level. */
  lemma {:induction false} LevelsAgree(at: Layout, grid: MuGrid, chain: seq<Entry>, i: nat)
    requires ValidLayout(at) && IsChain(chain) && i < |chain|
    requires forall j :: 0 <= j <= i ==> EntryDecodes(at, grid, chain[j])
    ensures LevelAt(at, chain[i].offset) == LevelAt(at, chain[0].offset)
  {
    assert EntryDecodes(at, grid, chain[i]);
    if i > 0 { LevelsAgree(at, grid, chain, i - 1); }
  }

  /** Compose a chain, oldest first, onto one running state. */
  method ComposeLinks(at: Layout, grid: MuGrid, chain: seq<Entry>) returns (r: Result<Table, ReadError>)
    requires ValidLayout(at) && IsChain(chain)
    ensures r.Success? <==> forall i :: 0 <= i < |chain| ==> EntryDecodes(at, grid, chain[i])
    ensures r.Success? ==> Holds(at, grid, chain[|chain| - 1].offset, r.value)
  {
    hide Holds, ValidLayout, EntryDecodes;
    r := ReadKeyframeEntry(at, grid, chain[0]);
    if r.Failure? { return; }
    var level := LevelAt(at, chain[0].offset);
    for i := 1 to |chain|
      invariant r.Success? && Holds(at, grid, chain[i - 1].offset, r.value)
      invariant forall j :: 0 <= j < i ==> EntryDecodes(at, grid, chain[j])
    {
      LevelsAgree(at, grid, chain, i - 1);
      assert EntryDecodes(at, grid, chain[i - 1]);
      r := ReadDeltaEntry(at, grid, chain[i], r.value, level);
      if r.Failure? { return; }
    }
  }

  /** The seeking client's read: walk one entry's chain, and compose it. */
  method ComposeChain(at: Layout, grid: MuGrid, windows: nat, index: seq<Entry>, e: Entry) returns (r: Result<Table, ReadError>)
    requires ValidLayout(at) && e in index
    ensures r.Success? <==> SeekAccepts(at, grid, windows, index, e)
    ensures r.Success? ==> Holds(at, grid, e.offset, r.value)
  {
    hide BandsLegal, LinkLegal, ValidLayout;
    if !ShapeLegal(index) { return Failure(IndexRecordMismatch); }
    if ChainOf(index, e).Some? { ChainFitsIndex(index, e); }
    var walked := ChainFrom(index, e);
    if walked.Failure? { return Failure(walked.error); }
    var chain := walked.value;
    ChainIsChain(index, e);
    for i := 0 to |chain|
      invariant forall j :: 0 <= j < i ==> LinkLegal(chain, j)
    {
      if !LinkLegal(chain, i) { return Failure(IndexRecordMismatch); }
    }
    r := ComposeLinks(at, grid, chain);
    if r.Failure? { return; }
    assert chain[|chain| - 1] == e && EntryDecodes(at, grid, e);
    WindowsByView(r.value, windows);
    if !WindowsLegal(r.value, windows) { return Failure(WindowIndexOutOfRange); }
    if !BandsLegal(at, e) { return Failure(BandMismatch); }
  }
}
