/** The collecting streamed reader: every state kept by offset, under one byte budget. */
module StreamedReader {
  import opened Wrappers
  import opened Registry
  import opened Populations
  import opened Times
  import opened Records
  import opened DecodedBudget

  // ---- what the records before `i` establish ----

  predicate StateBefore(records: seq<Placed>, i: nat)
    requires i <= |records|
  {
    exists j :: 0 <= j < i && IsStateOpcode(Opcode(records[j].body))
  }

  predicate HeaderBefore(records: seq<Placed>, i: nat)
    requires i <= |records|
  {
    exists j :: 0 <= j < i && records[j].body.Header?
  }

  /** The last Quantization record before `i`. */
  function GridBefore(records: seq<Placed>, i: nat): Option<MuGrid>
    requires i <= |records|
  {
    if i == 0 then None
    else if records[i - 1].body.Quantization? then Some(records[i - 1].body.grid)
    else GridBefore(records, i - 1)
  }

  function GridOr(g: Option<MuGrid>): MuGrid {
    if g.Some? then g.value else (sigma: int, neverFades: bool) => 0.0
  }

  /** The grid in effect at record `i`. */
  function GridAt(records: seq<Placed>, i: nat): MuGrid
    requires i <= |records|
  {
    GridOr(GridBefore(records, i))
  }

  /** The grid in effect at the end of the file. */
  function FileGrid(records: seq<Placed>): MuGrid {
    GridAt(records, |records|)
  }

  /** Record `i` is not front matter after a state record. */
  predicate IsPlaced(records: seq<Placed>, i: nat)
    requires i < |records|
  {
    StateBefore(records, i) ==> !IsFrontMatter(Opcode(records[i].body))
  }

  /** Once states have begun, well-placed front matter no longer changes the grid. */
  lemma {:induction false} GridSettles(records: seq<Placed>, i: nat, n: nat)
    requires i < n <= |records| && IsState(records[i])
    requires forall j :: 0 <= j < n ==> IsPlaced(records, j)
    ensures GridBefore(records, n) == GridBefore(records, i)
    decreases n
  {
    if i + 1 < n {
      GridSettles(records, i, n - 1);
      assert IsPlaced(records, n - 1) && StateBefore(records, n - 1);
    }
  }

  // ---- what the reader accepts ----

  /** The records this reader parses; every other is stepped over unread. */
  predicate IsParsed(opcode: nat) {
    opcode in {HEADER, QUANTIZATION, WINDOW_TABLE, CHUNK, DELTA_CHUNK, CHUNK_INDEX}
  }

  ghost predicate Readable(records: seq<Placed>, i: nat)
    requires i < |records|
  {
    match records[i].body
    case Unreadable(code) => !IsParsed(code)
    case Header(keyframeDelta, _) => keyframeDelta
    case Chunk(_, _, _, _, _, _) => HeaderBefore(records, i) && GridBefore(records, i).Some?
    case _ => true
  }

  /** The state record at `i` decodes. */
  ghost predicate Decodes(records: seq<Placed>, i: nat)
    requires ValidRecords(records) && i < |records|
  {
    Composed(Physical(records), GridAt(records, i), records[i].offset).Some?
  }

  ghost function StateAt(records: seq<Placed>, i: nat): Population
    requires ValidRecords(records) && i < |records| && Decodes(records, i)
  {
    Composed(Physical(records), GridAt(records, i), records[i].offset).value
  }

  /** Rows the record's groups carry, for comparison with its index entry. */
  ghost function Operations(records: seq<Placed>, i: nat): nat
    requires ValidRecords(records) && i < |records| && IsState(records[i]) && Decodes(records, i)
  {
    if records[i].body.Chunk? then |StateAt(records, i).rows|
    else records[i].body.head.updates + records[i].body.head.births + records[i].body.head.deaths
  }

  /** Both counts an index entry states about the record it names are the decoded ones. */
  ghost predicate CountsMatch(records: seq<Placed>, e: Entry, i: nat)
    requires ValidRecords(records) && i < |records| && IsState(records[i]) && Decodes(records, i)
  {
    e.gaussians == Operations(records, i) && (e.extended ==> e.live == |StateAt(records, i).rows|)
  }

  /** If the entry names the record at `i`, and that is a state record, its counts match. */
  ghost predicate EntryFits(records: seq<Placed>, e: Entry, i: nat)
    requires ValidRecords(records) && i < |records|
  {
    IsState(records[i]) && Decodes(records, i) && e.offset == records[i].offset ==> CountsMatch(records, e, i)
  }

  /** Bytes retained for the states before `i`. */
  ghost function Retained(records: seq<Placed>, i: nat): nat
    requires ValidRecords(records) && i <= |records|
  {
    if i == 0 then 0
    else if IsState(records[i - 1]) && Decodes(records, i - 1) then
      Retained(records, i - 1) + Capacity(StateAt(records, i - 1))
    else Retained(records, i - 1)
  }

  /** The working set beside what is already retained when record `i` is composed. */
  ghost function Working(records: seq<Placed>, i: nat): nat
    requires ValidRecords(records) && i < |records| && IsState(records[i])
  {
    match records[i].body
    case Chunk(_, _, _, count, bodyBytes, _) => KeyframeWorking(count, bodyBytes)
    case DeltaChunk(head, bodyBytes, _) =>
      var reference := Composed(Physical(records), GridAt(records, i), head.reference);
      DeltaWorking(if reference.Some? then |reference.value.rows| else 0, head.updates, head.births, head.deaths, bodyBytes)
  }

  /** The index entries before `n`, in file order. */
  function IndexEntries(records: seq<Placed>, n: nat): seq<Entry>
    requires n <= |records|
  {
    if n == 0 then []
    else if records[n - 1].body.ChunkIndex? then IndexEntries(records, n - 1) + [records[n - 1].body.entry]
    else IndexEntries(records, n - 1)
  }

  /** Record `i` is where it may be, parses, and, if it is a state record, decodes. */
  ghost predicate RecordSound(records: seq<Placed>, i: nat)
    requires ValidRecords(records) && i < |records|
  {
    && IsPlaced(records, i)
    && Readable(records, i)
    && (IsState(records[i]) ==> Decodes(records, i))
  }

  /** Nothing but the budget stands in the way. */
  ghost predicate Sound(records: seq<Placed>, truncated: bool)
    requires ValidRecords(records)
  {
    && !truncated
    && HeaderBefore(records, |records|) && GridBefore(records, |records|).Some?
    && (forall i :: 0 <= i < |records| ==> RecordSound(records, i))
    && (forall e, i :: e in IndexEntries(records, |records|) && 0 <= i < |records| ==> EntryFits(records, e, i))
  }

  /** The composition of record `i`, and everything retained after it, fit. */
  ghost predicate Fits(records: seq<Placed>, limit: nat, i: nat)
    requires ValidRecords(records) && i < |records|
  {
    IsState(records[i]) ==>
      Retained(records, i) + Working(records, i) <= limit && Retained(records, i + 1) <= limit
  }

  ghost predicate Affordable(records: seq<Placed>, limit: nat)
    requires ValidRecords(records)
  {
    forall i :: 0 <= i < |records| ==> Fits(records, limit, i)
  }

  // ---- the reader ----

  datatype ChunkInfo = ChunkInfo(
    t0: Time, t1: Time, kind: nat, mode: Option<nat>, depth: nat, offset: nat, reference: nat,
    updates: Option<nat>, births: Option<nat>, deaths: Option<nat>, state: Table)

  /** What a chunk list says of record `i`. */
  ghost predicate Describes(records: seq<Placed>, c: ChunkInfo, i: nat)
    requires ValidRecords(records) && i < |records| && IsState(records[i])
  {
    && c.offset == records[i].offset
    && Holds(Physical(records), GridAt(records, i), records[i].offset, c.state)
    && match records[i].body
       case Chunk(t0, t1, _, _, _, _) =>
         c.t0 == t0 && c.t1 == t1 && c.kind == 0 && c.mode == None && c.depth == 0 && c.reference == 0 && c.updates == c.births == c.deaths == None
       case DeltaChunk(head, _, _) =>
         && c.t0 == head.t0 && c.t1 == head.t1 && c.kind == 1 && c.mode == Some(head.mode) && c.depth == head.depth
         && c.reference == head.reference
         && c.updates == Some(head.updates) && c.births == Some(head.births) && c.deaths == Some(head.deaths)
  }

  /** Positions of the state records before `n`, in file order. */
  function StatePositions(records: seq<Placed>, n: nat): (r: seq<nat>)
    requires n <= |records|
    ensures forall k :: 0 <= k < |r| ==> r[k] < n && IsState(records[r[k]])
    ensures forall i :: 0 <= i < n && IsState(records[i]) ==> i in r
  {
    if n == 0 then []
    else if IsState(records[n - 1]) then StatePositions(records, n - 1) + [n - 1]
    else StatePositions(records, n - 1)
  }

  // ---- one record at a time ----

  lemma {:induction false} KeyframeDecodes(records: seq<Placed>, i: nat)
    requires ValidRecords(records) && i < |records| && records[i].body.Chunk?
    ensures Decodes(records, i) <==> KeyframeAccepted(GridAt(records, i), records[i].body)
    ensures Decodes(records, i) ==> StateAt(records, i) == View(records[i].body.streams.value)
  {
    PhysicalHas(records, i);
  }

  lemma {:induction false} DeltaDecodes(records: seq<Placed>, i: nat)
    requires ValidRecords(records) && i < |records| && records[i].body.DeltaChunk?
    ensures var head := records[i].body.head;
            var reference := Composed(Physical(records), GridAt(records, i), head.reference);
            && (Decodes(records, i) <==> head.reference < records[i].offset && reference.Some? && DeltaAccepted(reference.value, records[i].body))
            && (Decodes(records, i) ==> StateAt(records, i) == Compose(reference.value, DeltaOf(records[i].body.groups.value)))
  {
    PhysicalHas(records, i);
  }

  /** A delta can only compose onto a state record that came before it. */
  lemma {:induction false} ReferenceCameBefore(records: seq<Placed>, i: nat) returns (j: nat)
    requires ValidRecords(records) && i < |records| && records[i].body.DeltaChunk? && Decodes(records, i)
    ensures j < i && IsState(records[j]) && records[j].offset == records[i].body.head.reference
  {
    DeltaDecodes(records, i);
    var o := records[i].body.head.reference;
    j :| 0 <= j < |records| && records[j] == Physical(records)[o] && records[j].offset == o;
    if i < j { OffsetsIncrease(records, i, j); }
  }

  method StreamKeyframe(b: Body, grid: MuGrid, budget: DecodedStateBudget) returns (r: Result<Table, ReadError>)
    requires b.Chunk? && ShapedBody(b)
    modifies budget
    ensures r.Success? <==>
      && KeyframeAccepted(grid, b)
      && old(budget.retained) + KeyframeWorking(b.count, b.bodyBytes) <= budget.limit
      && old(budget.retained) + Capacity(View(b.streams.value)) <= budget.limit
    ensures r.Success? ==> r.value == b.streams.value && ValidState(r.value)
    ensures r.Success? ==> budget.retained == old(budget.retained) + Capacity(View(r.value))
  {
    var fits := budget.Check(KeyframeWorking(b.count, b.bodyBytes));
    if fits.Failure? { return Failure(ExceedsReaderLimit); }
    var state := DecodeKeyframe(grid, b);
    if state.Failure? { return state; }
    var bytes := StateCapacity(state.value);
    fits := budget.Retain(bytes);
    if fits.Failure? { return Failure(ExceedsReaderLimit); }
    return state;
  }

  method StreamDelta(b: Body, reference: Table, budget: DecodedStateBudget) returns (r: Result<Table, ReadError>)
    requires b.DeltaChunk? && ShapedBody(b) && ValidState(reference)
    modifies budget
    ensures r.Success? <==>
      && DeltaAccepted(View(reference), b)
      && old(budget.retained) + DeltaWorking(|View(reference).rows|, b.head.updates, b.head.births, b.head.deaths, b.bodyBytes) <= budget.limit
      && old(budget.retained) + Capacity(Compose(View(reference), DeltaOf(b.groups.value))) <= budget.limit
    ensures r.Success? ==> ValidState(r.value) && View(r.value) == Compose(View(reference), DeltaOf(b.groups.value))
    ensures r.Success? ==> budget.retained == old(budget.retained) + Capacity(View(r.value))
  {
    RowCount(reference);
    var fits := budget.Check(DeltaWorking(|reference.ids|, b.head.updates, b.head.births, b.head.deaths, b.bodyBytes));
    if fits.Failure? { return Failure(ExceedsReaderLimit); }
    var state := DecodeDelta(reference, b);
    if state.Failure? { return state; }
    var bytes := StateCapacity(state.value);
    fits := budget.Retain(bytes);
    if fits.Failure? { return Failure(ExceedsReaderLimit); }
    return state;
  }

  // ---- the whole file ----

  /** The states before `i`, held by offset. */
  ghost predicate HeldByOffset(records: seq<Placed>, i: nat, byOffset: map<nat, Table>)
    requires ValidRecords(records) && i <= |records|
  {
    && (forall j :: 0 <= j < i && IsState(records[j]) ==> HeldAt(records, j, byOffset))
    && (forall o :: o in byOffset ==> exists j :: 0 <= j < i && IsState(records[j]) && records[j].offset == o)
  }

  ghost predicate HeldAt(records: seq<Placed>, j: nat, byOffset: map<nat, Table>)
    requires ValidRecords(records) && j < |records|
  {
    && records[j].offset in byOffset
    && Holds(Physical(records), GridAt(records, j), records[j].offset, byOffset[records[j].offset])
  }

  /** The states before `i`, described in order. */
  ghost predicate Listed(records: seq<Placed>, i: nat, chunks: seq<ChunkInfo>)
    requires ValidRecords(records) && i <= |records|
  {
    && |chunks| == |StatePositions(records, i)|
    && (forall k :: 0 <= k < |chunks| ==> Describes(records, chunks[k], StatePositions(records, i)[k]))
  }

  lemma {:induction false} HoldOne(records: seq<Placed>, i: nat, byOffset: map<nat, Table>, t: Table)
    requires ValidRecords(records) && i < |records| && HeldByOffset(records, i, byOffset) && IsState(records[i])
    requires Holds(Physical(records), GridAt(records, i), records[i].offset, t)
    ensures HeldByOffset(records, i + 1, byOffset[records[i].offset := t])
  {
    forall j | 0 <= j < i + 1 && IsState(records[j])
      ensures HeldAt(records, j, byOffset[records[i].offset := t])
    {
      if j < i { StillHeld(records, i, j, byOffset, t); }
    }
    forall o | o in byOffset
      ensures exists j :: 0 <= j < i + 1 && IsState(records[j]) && records[j].offset == o
    {
      var j :| 0 <= j < i && IsState(records[j]) && records[j].offset == o;
    }
  }

  lemma {:induction false} StillHeld(records: seq<Placed>, i: nat, j: nat, byOffset: map<nat, Table>, t: Table)
    requires ValidRecords(records) && j < i < |records| && HeldAt(records, j, byOffset)
    ensures HeldAt(records, j, byOffset[records[i].offset := t])
  {
    OffsetsIncrease(records, j, i);
  }

  /** The state a delta references is held exactly when it can be composed onto. */
  lemma {:induction false} ReferenceHeld(records: seq<Placed>, i: nat, byOffset: map<nat, Table>)
    requires ValidRecords(records) && i < |records| && HeldByOffset(records, i, byOffset)
    requires records[i].body.DeltaChunk? && forall j :: 0 <= j < i ==> IsPlaced(records, j)
    ensures var o := records[i].body.head.reference;
            && (o in byOffset ==> Holds(Physical(records), GridAt(records, i), o, byOffset[o]))
            && (o !in byOffset ==> !Decodes(records, i))
            && (o in byOffset ==> o < records[i].offset)
  {
    var o := records[i].body.head.reference;
    if Decodes(records, i) {
      var j := ReferenceCameBefore(records, i);
      assert HeldAt(records, j, byOffset);
    }
    if o in byOffset {
      var j :| 0 <= j < i && IsState(records[j]) && records[j].offset == o;
      assert HeldAt(records, j, byOffset);
      OffsetsIncrease(records, j, i);
      GridSettles(records, j, i);
    }
  }

  /** Record `i` breaks nothing: its framing class, its own decoding and the budget. */
  ghost predicate Passes(records: seq<Placed>, limit: nat, i: nat)
    requires ValidRecords(records) && i < |records|
  {
    RecordSound(records, i) && Fits(records, limit, i)
  }

  lemma {:induction false} StateIsPlaced(records: seq<Placed>, i: nat)
    requires i < |records| && IsState(records[i])
    ensures IsPlaced(records, i)
  {
  }

  lemma {:induction false} RetainedAfterState(records: seq<Placed>, i: nat)
    requires ValidRecords(records) && i < |records| && IsState(records[i]) && Decodes(records, i)
    ensures Retained(records, i + 1) == Retained(records, i) + Capacity(StateAt(records, i))
  {
  }

  /** A readable state record passes exactly when it decodes and fits. */
  lemma {:induction false} StatePasses(records: seq<Placed>, limit: nat, i: nat)
    requires ValidRecords(records) && i < |records| && IsState(records[i]) && Readable(records, i)
    ensures Decodes(records, i) ==> Retained(records, i + 1) == Retained(records, i) + Capacity(StateAt(records, i))
    ensures Passes(records, limit, i) <==>
      && Decodes(records, i)
      && Retained(records, i) + Working(records, i) <= limit
      && Retained(records, i) + Capacity(StateAt(records, i)) <= limit
  {
    hide Decodes, IsPlaced, Retained, Working, Capacity, StateAt, Readable;
    StateIsPlaced(records, i);
    if Decodes(records, i) { RetainedAfterState(records, i); }
  }

  /** Everything before `i` passed, and is held. */
  ghost predicate Progress(records: seq<Placed>, limit: nat, i: nat, byOffset: map<nat, Table>, chunks: seq<ChunkInfo>, retained: nat)
    requires ValidRecords(records) && i <= |records|
  {
    && (forall j :: 0 <= j < i ==> Passes(records, limit, j))
    && HeldByOffset(records, i, byOffset) && Listed(records, i, chunks) && retained == Retained(records, i)
  }

  lemma {:induction false} ListOne(records: seq<Placed>, i: nat, chunks: seq<ChunkInfo>, c: ChunkInfo)
    requires ValidRecords(records) && i < |records| && Listed(records, i, chunks)
    requires IsState(records[i]) && Describes(records, c, i)
    ensures Listed(records, i + 1, chunks + [c])
  {
    hide Describes;
    assert StatePositions(records, i + 1) == StatePositions(records, i) + [i];
  }

  lemma {:induction false} AdvancePastState(records: seq<Placed>, limit: nat, i: nat, byOffset: map<nat, Table>, chunks: seq<ChunkInfo>, retained: nat, c: ChunkInfo)
    requires ValidRecords(records) && i < |records| && IsState(records[i])
    requires Progress(records, limit, i, byOffset, chunks, retained) && Passes(records, limit, i)
    requires Describes(records, c, i)
    ensures Progress(records, limit, i + 1, byOffset[records[i].offset := c.state], chunks + [c], retained + Capacity(StateAt(records, i)))
  {
    StatePasses(records, limit, i);
    HoldOne(records, i, byOffset, c.state);
    ListOne(records, i, chunks, c);
  }

  lemma {:induction false} AdvancePastOther(records: seq<Placed>, limit: nat, i: nat, byOffset: map<nat, Table>, chunks: seq<ChunkInfo>, retained: nat)
    requires ValidRecords(records) && i < |records| && !IsState(records[i])
    requires Progress(records, limit, i, byOffset, chunks, retained) && IsPlaced(records, i) && Readable(records, i)
    ensures Progress(records, limit, i + 1, byOffset, chunks, retained)
  {
    assert HeldByOffset(records, i + 1, byOffset) by {
      forall j | 0 <= j < i + 1 && IsState(records[j])
        ensures HeldAt(records, j, byOffset)
      {
      }
    }
  }

  /** One Chunk record: decoded on the grid in effect, charged, described. */
  method ReadKeyframe(records: seq<Placed>, limit: nat, i: nat, grid: MuGrid, budget: DecodedStateBudget,
                      ghost byOffset: map<nat, Table>, ghost chunks: seq<ChunkInfo>)
    returns (r: Result<ChunkInfo, ReadError>)
    requires ValidRecords(records) && i < |records| && records[i].body.Chunk? && budget.limit == limit
    requires IsPlaced(records, i) && Readable(records, i) && GridBefore(records, i) == Some(grid)
    requires Progress(records, limit, i, byOffset, chunks, budget.retained)
    modifies budget
    ensures r.Success? <==> Passes(records, limit, i)
    ensures r.Success? ==> Progress(records, limit, i + 1, byOffset[records[i].offset := r.value.state], chunks + [r.value], budget.retained)
  {
    var b := records[i].body;
    KeyframeDecodes(records, i);
    StatePasses(records, limit, i);
    var state := StreamKeyframe(b, grid, budget);
    if state.Failure? { return Failure(state.error); }
    var c := ChunkInfo(b.t0, b.t1, 0, None, 0, records[i].offset, 0, None, None, None, state.value);
    AdvancePastState(records, limit, i, byOffset, chunks, old(budget.retained), c);
    return Success(c);
  }

  /** Both ways a delta can fail: its reference is not held, or, once it is, what the
      composition and the budget decide on the state held for it. */
  lemma {:induction false} DeltaPasses(records: seq<Placed>, limit: nat, i: nat, byOffset: map<nat, Table>, chunks: seq<ChunkInfo>)
    requires ValidRecords(records) && i < |records| && records[i].body.DeltaChunk? && Readable(records, i)
    requires Progress(records, limit, i, byOffset, chunks, Retained(records, i))
    ensures var b := records[i].body;
      && (b.head.reference !in byOffset ==> !Passes(records, limit, i))
      && (b.head.reference in byOffset ==>
            var held := View(byOffset[b.head.reference]);
            && ValidState(byOffset[b.head.reference])
            && (Passes(records, limit, i) <==>
                  && DeltaAccepted(held, b)
                  && Retained(records, i) + DeltaWorking(|held.rows|, b.head.updates, b.head.births, b.head.deaths, b.bodyBytes) <= limit
                  && Retained(records, i) + Capacity(Compose(held, DeltaOf(b.groups.value))) <= limit)
            && (Passes(records, limit, i) ==> Decodes(records, i) && StateAt(records, i) == Compose(held, DeltaOf(b.groups.value))))
  {
    hide Decodes, StateAt, Retained, Capacity, DeltaAccepted, DeltaWorking, Passes, IsPlaced, Readable, HeldByOffset, Listed;
    PlacedSoFar(records, limit, i);
    ReferenceHeld(records, i, byOffset);
    StatePasses(records, limit, i);
    DeltaDecodes(records, i);
  }

  function DeltaInfo(r: Placed, state: Table): ChunkInfo
    requires r.body.DeltaChunk?
  {
    var head := r.body.head;
    ChunkInfo(head.t0, head.t1, 1, Some(head.mode), head.depth, r.offset, head.reference,
              Some(head.updates), Some(head.births), Some(head.deaths), state)
  }

  lemma {:induction false} DeltaDescribed(records: seq<Placed>, i: nat, state: Table)
    requires ValidRecords(records) && i < |records| && records[i].body.DeltaChunk? && Decodes(records, i)
    requires ValidState(state) && View(state) == StateAt(records, i)
    ensures Describes(records, DeltaInfo(records[i], state), i)
  {
  }

  /** One Delta Chunk record: composed onto the state held for its reference. */
  method ReadDelta(records: seq<Placed>, limit: nat, i: nat, budget: DecodedStateBudget,
                   byOffset: map<nat, Table>, ghost chunks: seq<ChunkInfo>)
    returns (r: Result<ChunkInfo, ReadError>)
    requires ValidRecords(records) && i < |records| && records[i].body.DeltaChunk? && budget.limit == limit
    requires IsPlaced(records, i) && Readable(records, i)
    requires Progress(records, limit, i, byOffset, chunks, budget.retained)
    modifies budget
    ensures r.Success? <==> Passes(records, limit, i)
    ensures r.Success? ==> Progress(records, limit, i + 1, byOffset[records[i].offset := r.value.state], chunks + [r.value], budget.retained)
  {
    hide Passes, Decodes, StateAt, Retained, Capacity, DeltaAccepted, DeltaWorking, Compose, View, ValidState, Readable, HeldByOffset, Listed, Describes;
    var b := records[i].body;
    DeltaPasses(records, limit, i, byOffset, chunks);
    if b.head.reference !in byOffset { return Failure(BrokenReference); }
    var state := StreamDelta(b, byOffset[b.head.reference], budget);
    if state.Failure? { return Failure(state.error); }
    DeltaDescribed(records, i, state.value);
    var c := DeltaInfo(records[i], state.value);
    AdvancePastState(records, limit, i, byOffset, chunks, old(budget.retained), c);
    return Success(c);
  }

  lemma {:induction false} PlacedSoFar(records: seq<Placed>, limit: nat, i: nat)
    requires ValidRecords(records) && i <= |records| && forall j :: 0 <= j < i ==> Passes(records, limit, j)
    ensures forall j :: 0 <= j < i ==> IsPlaced(records, j)
  {
    forall j | 0 <= j < i
      ensures IsPlaced(records, j)
    {
      assert Passes(records, limit, j);
    }
  }

  /** Both counts of an index entry, against a chunk it names. */
  predicate EntryMatches(e: Entry, c: ChunkInfo) {
    c.offset == e.offset ==>
      && (if c.kind == 0 then e.gaussians == |c.state.ids|
          else c.updates.Some? && c.births.Some? && c.deaths.Some? && e.gaussians == c.updates.value + c.births.value + c.deaths.value)
      && (e.extended ==> e.live == |c.state.ids|)
  }

  lemma {:induction false} DescribedCounts(records: seq<Placed>, e: Entry, c: ChunkInfo, i: nat)
    requires ValidRecords(records) && i < |records| && IsState(records[i]) && Describes(records, c, i)
    ensures EntryMatches(e, c) <==> EntryFits(records, e, i)
  {
    DescribedRows(records, c, i);
  }

  lemma {:induction false} DescribedRows(records: seq<Placed>, c: ChunkInfo, i: nat)
    requires ValidRecords(records) && i < |records| && IsState(records[i]) && Describes(records, c, i)
    ensures Decodes(records, i) && |StateAt(records, i).rows| == |c.state.ids|
    ensures c.kind == 0 ==> Operations(records, i) == |c.state.ids|
    ensures c.kind != 0 ==> c.updates.Some? && c.births.Some? && c.deaths.Some?
    ensures c.kind != 0 ==> Operations(records, i) == c.updates.value + c.births.value + c.deaths.value
  {
    RowCount(c.state);
  }

  /** Matching every listed chunk is matching every state record. */
  lemma {:induction false} ListedCounts(records: seq<Placed>, index: seq<Entry>, chunks: seq<ChunkInfo>)
    requires ValidRecords(records) && Listed(records, |records|, chunks)
    ensures (forall n, k :: 0 <= n < |index| && 0 <= k < |chunks| ==> EntryMatches(index[n], chunks[k])) <==>
            (forall e, i :: e in index && 0 <= i < |records| ==> EntryFits(records, e, i))
  {
    hide Describes, Decodes, CountsMatch, EntryMatches, ValidRecords;
    var at := StatePositions(records, |records|);
    forall n, k | 0 <= n < |index| && 0 <= k < |chunks|
      ensures EntryMatches(index[n], chunks[k]) <==> EntryFits(records, index[n], at[k])
    {
      DescribedCounts(records, index[n], chunks[k], at[k]);
    }
    if forall n, k :: 0 <= n < |index| && 0 <= k < |chunks| ==> EntryMatches(index[n], chunks[k]) {
      forall e, i | e in index && 0 <= i < |records| && IsState(records[i])
        ensures EntryFits(records, e, i)
      {
        var n :| 0 <= n < |index| && index[n] == e;
        assert i in at;
        var k :| 0 <= k < |at| && at[k] == i;
        assert EntryMatches(index[n], chunks[k]);
      }
    }
  }

  method CheckEntryCounts(index: seq<Entry>, chunks: seq<ChunkInfo>) returns (ok: bool)
    ensures ok <==> forall n, k :: 0 <= n < |index| && 0 <= k < |chunks| ==> EntryMatches(index[n], chunks[k])
  {
    for n := 0 to |index|
      invariant forall m, k :: 0 <= m < n && 0 <= k < |chunks| ==> EntryMatches(index[m], chunks[k])
    {
      for k := 0 to |chunks|
        invariant forall l :: 0 <= l < k ==> EntryMatches(index[n], chunks[l])
      {
        if !EntryMatches(index[n], chunks[k]) { return false; }
      }
    }
    return true;
  }

  lemma {:induction false} PassesAll(records: seq<Placed>, limit: nat)
    requires ValidRecords(records)
    ensures (forall i :: 0 <= i < |records| ==> Passes(records, limit, i)) <==>
      (forall i :: 0 <= i < |records| ==> RecordSound(records, i)) && Affordable(records, limit)
  {
    if forall i :: 0 <= i < |records| ==> Passes(records, limit, i) {
      forall i | 0 <= i < |records|
        ensures RecordSound(records, i) && Fits(records, limit, i)
      {
        assert Passes(records, limit, i);
      }
    }
  }

  /** What the front matter read so far says. */
  datatype Front = Front(seenState: bool, seenHeader: bool, grid: Option<MuGrid>)

  ghost predicate FrontOf(records: seq<Placed>, i: nat, f: Front)
    requires i <= |records|
  {
    f.seenState == StateBefore(records, i) && f.seenHeader == HeaderBefore(records, i) && f.grid == GridBefore(records, i)
  }

  /** One record's framing class and front matter, checked before it is dispatched. */
  method ReadFront(records: seq<Placed>, i: nat, f: Front) returns (r: Result<Front, ReadError>)
    requires ValidRecords(records) && i < |records| && FrontOf(records, i, f)
    ensures r.Success? <==> IsPlaced(records, i) && Readable(records, i)
    ensures r.Success? ==> FrontOf(records, i + 1, r.value)
  {
    var record := records[i];
    if f.seenState && IsFrontMatter(Opcode(record.body)) { return Failure(LateFrontMatter); }
    var after := f.(seenState := f.seenState || IsStateOpcode(Opcode(record.body)));
    match record.body {
      case Unreadable(code) => if IsParsed(code) { return Failure(UndecodableRecord); }
      case Header(keyframeDelta, _) =>
        if !keyframeDelta { return Failure(WrongTemporalModel); }
        after := after.(seenHeader := true);
      case Quantization(g) => after := after.(grid := Some(g));
      case Chunk(_, _, _, _, _, _) => if !f.seenHeader || f.grid.None? { return Failure(MissingFrontMatter); }
      case _ =>
    }
    return Success(after);
  }

  /** Every record in turn; states are kept by offset and listed in order. */
  method CollectStates(records: seq<Placed>, limit: nat, budget: DecodedStateBudget)
    returns (r: Result<seq<ChunkInfo>, ReadError>, front: Front, index: seq<Entry>)
    requires ValidRecords(records) && budget.limit == limit && budget.retained == 0
    modifies budget
    ensures r.Success? <==> forall i :: 0 <= i < |records| ==> Passes(records, limit, i)
    ensures r.Success? ==> Listed(records, |records|, r.value) && budget.retained == Retained(records, |records|) <= limit
    ensures r.Success? ==> FrontOf(records, |records|, front) && index == IndexEntries(records, |records|)
  {
    front := Front(false, false, None);
    index := [];
    var byOffset: map<nat, Table> := map[];
    var chunks: seq<ChunkInfo> := [];
    for i := 0 to |records|
      invariant FrontOf(records, i, front) && index == IndexEntries(records, i)
      invariant Progress(records, limit, i, byOffset, chunks, budget.retained)
    {
      var read := ReadFront(records, i, front);
      if read.Failure? {
        assert !Passes(records, limit, i);
        return Failure(read.error), front, index;
      }
      if IsState(records[i]) {
        var c;
        if records[i].body.Chunk? {
          c := ReadKeyframe(records, limit, i, front.grid.value, budget, byOffset, chunks);
        } else {
          c := ReadDelta(records, limit, i, budget, byOffset, chunks);
        }
        if c.Failure? { return Failure(c.error), front, index; }
        byOffset := byOffset[records[i].offset := c.value.state];
        chunks := chunks + [c.value];
      } else {
        AdvancePastOther(records, limit, i, byOffset, chunks, budget.retained);
      }
      if records[i].body.ChunkIndex? { index := index + [records[i].body.entry]; }
      front := read.value;
    }
    RetainedFits(records, limit);
    return Success(chunks), front, index;
  }

  lemma {:induction false} RetainedFitsUpTo(records: seq<Placed>, limit: nat, n: nat)
    requires ValidRecords(records) && n <= |records| && forall i :: 0 <= i < n ==> Passes(records, limit, i)
    ensures Retained(records, n) <= limit
  {
    if n > 0 {
      assert Passes(records, limit, n - 1);
      RetainedFitsUpTo(records, limit, n - 1);
    }
  }

  lemma {:induction false} RetainedFits(records: seq<Placed>, limit: nat)
    requires ValidRecords(records) && forall i :: 0 <= i < |records| ==> Passes(records, limit, i)
    ensures Retained(records, |records|) <= limit
  {
    RetainedFitsUpTo(records, limit, |records|);
  }

  /** The collecting reader. It succeeds exactly on sound files that fit its limit; what it
      returns describes every state record in file order, each with the population its
      offset denotes, and what it retains is the sum of those states' capacities. */
  method DecodeStreamed(records: seq<Placed>, truncated: bool, limit: nat)
    returns (r: Result<seq<ChunkInfo>, ReadError>, retained: nat)
    requires ValidRecords(records) && limit > 0
    ensures r.Success? <==> Sound(records, truncated) && Affordable(records, limit)
    ensures r.Success? ==> Listed(records, |records|, r.value)
    ensures r.Success? ==> retained == Retained(records, |records|) <= limit
  {
    PassesAll(records, limit);
    var budget := new DecodedStateBudget(limit);
    var collected, front, index := CollectStates(records, limit, budget);
    if collected.Failure? { return collected, 0; }
    if truncated { return Failure(TruncatedFile), 0; }
    if !front.seenHeader || front.grid.None? { return Failure(MissingFrontMatter), 0; }
    ListedCounts(records, index, collected.value);
    var matching := CheckEntryCounts(index, collected.value);
    if !matching { return Failure(IndexRecordMismatch), 0; }
    return collected, budget.retained;
  }

  // ---- what the limit decides ----

  /** Two chunk descriptions that differ at most in the row order of their states. */
  ghost predicate SameChunk(c: ChunkInfo, e: ChunkInfo) {
    c == e.(state := c.state) && View(c.state) == View(e.state)
  }

  lemma {:induction false} DescribedAlike(records: seq<Placed>, c: ChunkInfo, e: ChunkInfo, i: nat)
    requires ValidRecords(records) && i < |records| && IsState(records[i])
    requires Describes(records, c, i) && Describes(records, e, i)
    ensures SameChunk(c, e)
  {
  }

  /** The limit decides whether the states are returned, never which states they are: a
      file that decodes under one budget decodes to the same chunks in every field, and
      retains the same bytes, under every larger one. */
  method LargerBudgetSameStates(records: seq<Placed>, truncated: bool, small: nat, large: nat)
    returns (a: Result<seq<ChunkInfo>, ReadError>, b: Result<seq<ChunkInfo>, ReadError>, bytes: nat, more: nat)
    requires ValidRecords(records) && 0 < small <= large
    ensures a.Success? ==> bytes == more <= small
    ensures a.Success? ==> b.Success? && |a.value| == |b.value|
    ensures a.Success? ==> forall k :: 0 <= k < |a.value| ==> SameChunk(a.value[k], b.value[k])
  {
    a, bytes := DecodeStreamed(records, truncated, small);
    b, more := DecodeStreamed(records, truncated, large);
    if Affordable(records, small) {
      forall i | 0 <= i < |records|
        ensures Fits(records, large, i)
      {
        assert Fits(records, small, i);
      }
    }
    if a.Success? {
      forall k | 0 <= k < |a.value|
        ensures SameChunk(a.value[k], b.value[k])
      {
        DescribedAlike(records, a.value[k], b.value[k], StatePositions(records, |records|)[k]);
      }
    }
  }

  /** On a sound file every state decodes on the one grid the file ends with. */
  lemma {:induction false} SoundOnFileGrid(records: seq<Placed>, i: nat)
    requires ValidRecords(records) && i < |records| && IsState(records[i])
    requires forall j :: 0 <= j < |records| ==> IsPlaced(records, j)
    ensures GridAt(records, i) == FileGrid(records)
  {
    GridSettles(records, i, |records|);
  }
}
