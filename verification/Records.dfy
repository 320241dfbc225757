/** The records of a `keyframe-delta` file, as the readers meet them: framing and heads
    parsed, attribute streams decoded into tables or found undecodable. */
module Records {
  import opened Wrappers
  import opened Registry
  import opened Populations
  import opened Rounding
  import opened Times
  import opened Composition

  /** The birth-time pitch of a gaussian, from its sigma bin and never-fades flag. */
  type MuGrid = (int, bool) -> real

  const KEYFRAME_MODE: nat := 0
  const CHAINED_MODE: nat := 1

  datatype DeltaHead = DeltaHead(
    t0: Time, t1: Time, level: nat, mode: nat, reference: nat, keyframe: nat, depth: nat,
    updates: nat, births: nat, deaths: nat)

  /** The three groups of a Delta Chunk as decoded; a legal death group has no columns. */
  datatype Groups = Groups(updates: Table, births: Table, deaths: Table)

  datatype BandStream = BandStream(attribute: nat, rows: nat, channels: nat, codesLegal: bool)

  /** One Chunk Index entry; `extended` when it carries the keyframe-delta block. */
  datatype Entry = Entry(
    t0: Time, t1: Time, offset: nat, length: nat, gaussians: nat, bands: seq<(nat, nat, nat)>,
    extended: bool, kind: nat, mode: nat, reference: nat, keyframe: nat, depth: nat, live: nat)

  /** No two entries name the same chunk. */
  predicate DistinctOffsets(index: seq<Entry>) {
    forall i, j :: 0 <= i < j < |index| ==> index[i].offset != index[j].offset
  }

  datatype Body =
    | Header(keyframeDelta: bool, shDegree: nat)
    | Quantization(grid: MuGrid)
    | WindowTable(count: nat)
    | Chunk(t0: Time, t1: Time, level: nat, count: nat, bodyBytes: nat, streams: Option<Table>)
    | DeltaChunk(head: DeltaHead, bodyBytes: nat, groups: Option<Groups>)
    | ShBand(band: nat, stream: Option<BandStream>)
    | ChunkIndex(entry: Entry)
    | Unreadable(code: nat)
    | Other(code: nat)

  /** A record at its byte offset; `length` counts its nine framing bytes. */
  datatype Placed = Placed(offset: nat, length: nat, body: Body)

  function Opcode(b: Body): nat {
    match b
    case Header(_, _) => HEADER
    case Quantization(_) => QUANTIZATION
    case WindowTable(_) => WINDOW_TABLE
    case Chunk(_, _, _, _, _, _) => CHUNK
    case DeltaChunk(_, _, _) => DELTA_CHUNK
    case ShBand(_, _) => SH_BAND_STREAM
    case ChunkIndex(_) => CHUNK_INDEX
    case Unreadable(code) => code
    case Other(code) => code
  }

  predicate IsState(r: Placed) {
    r.body.Chunk? || r.body.DeltaChunk?
  }

  /** What frames at each byte offset a reader may ask for. A streamed reader only meets
      the physical records; an index may name any offset at all. */
  type Layout = map<nat, Placed>

  /** Column widths are checked while streams are decoded. */
  predicate ShapedBody(b: Body) {
    match b
    case Chunk(_, _, _, _, _, Some(t)) => Shaped(t)
    case DeltaChunk(_, _, Some(g)) => Shaped(g.updates) && Shaped(g.births)
    case _ => true
  }

  predicate ValidLayout(at: Layout) {
    forall o :: o in at ==> at[o].offset == o && at[o].length >= 9 && ShapedBody(at[o].body)
  }

  /** The physical records, contiguous from the byte after the magic. */
  predicate ValidRecords(records: seq<Placed>) {
    && (forall i :: 0 <= i < |records| ==> records[i].length >= 9 && ShapedBody(records[i].body))
    && (|records| > 0 ==> records[0].offset == 8)
    && (forall i :: 0 <= i < |records| - 1 ==> records[i + 1].offset == records[i].offset + records[i].length)
  }

  lemma {:induction false} OffsetsIncrease(records: seq<Placed>, i: nat, j: nat)
    requires ValidRecords(records) && i < j < |records|
    ensures records[i].offset + records[i].length <= records[j].offset
    decreases j
  {
    if i + 1 < j { OffsetsIncrease(records, i, j - 1); }
  }

  function Physical(records: seq<Placed>): (at: Layout)
    ensures forall o :: o in at ==> exists i :: 0 <= i < |records| && records[i] == at[o] && records[i].offset == o
  {
    if records == [] then map[]
    else
      var n := |records| - 1;
      var front := Physical(records[..n]);
      assert forall i :: 0 <= i < n ==> records[..n][i] == records[i];
      front[records[n].offset := records[n]]
  }

  lemma {:induction false} PrefixIsValid(records: seq<Placed>, n: nat)
    requires ValidRecords(records) && n <= |records|
    ensures ValidRecords(records[..n])
  {
    var front := records[..n];
    assert forall i :: 0 <= i < n ==> front[i] == records[i];
  }

  lemma {:induction false} PhysicalHas(records: seq<Placed>, i: nat)
    requires ValidRecords(records) && i < |records|
    ensures records[i].offset in Physical(records) && Physical(records)[records[i].offset] == records[i]
  {
    hide Physical;
    var n := |records| - 1;
    var front := records[..n];
    PhysicalGrows(records);
    if i < n {
      OffsetsIncrease(records, i, n);
      PrefixIsValid(records, n);
      assert front[i] == records[i];
      PhysicalHas(front, i);
    }
  }

  lemma {:induction false} PhysicalIsValid(records: seq<Placed>)
    requires ValidRecords(records)
    ensures ValidLayout(Physical(records))
  {
  }

  lemma {:induction false} PhysicalGrows(records: seq<Placed>)
    requires records != []
    ensures var n := |records| - 1;
      Physical(records) == Physical(records[..n])[records[n].offset := records[n]]
  {
  }

  // ---- what a state record means ----

  datatype ReadError =
    | TruncatedFile
    | UndecodableRecord
    | LateFrontMatter
    | WrongTemporalModel
    | MissingFrontMatter
    | StreamElementCount
    | MissingRequiredAttribute
    | KeyframeMuMismatch
    | IncompleteBirthGroup
    | UnexpectedDeathAttribute
    | CompositionRefused(rule: Refusal)
    | BrokenReference
    | ForwardReference
    | NonTiling
    | DepthMismatch
    | ChainWithoutKeyframe
    | UnknownChunkKind
    | IndexRecordMismatch
    | BandMismatch
    | WindowIndexOutOfRange
    | ExceedsReaderLimit

  /** Every column, and the identities, have exactly the declared number of rows. */
  predicate Counts(t: Table, declared: nat) {
    |t.ids| == declared && forall a :: a in t.bins ==> |t.bins[a]| == declared
  }

  /** A keyframe row's temporal origin is its chunk's timestamp, on the row's own grid. */
  predicate StatesInstant(grid: MuGrid, t0: Time, t: Table)
    requires Shaped(t) && Tall(t)
  {
    MU_T in t.bins && t.ids != [] ==>
      && SIGMA_T in t.bins && FLAGS in t.bins && t0.Finite?
      && forall k :: 0 <= k < |t.ids| ==> RowStatesInstant(grid, t0.value, t, k)
  }

  predicate RowStatesInstant(grid: MuGrid, t0: real, t: Table, k: nat)
    requires Shaped(t) && Tall(t) && k < |t.ids| && MU_T in t.bins && SIGMA_T in t.bins && FLAGS in t.bins
  {
    var step := grid(t.bins[SIGMA_T][k][0], t.bins[FLAGS][k][0] % 2 != 0);
    step > 0.0 && t.bins[MU_T][k][0] == Rint(t0 / step)
  }

  predicate KeyframeAccepted(grid: MuGrid, b: Body)
    requires b.Chunk? && ShapedBody(b)
  {
    && b.streams.Some?
    && Counts(b.streams.value, b.count)
    && (b.count > 0 ==> REQUIRED <= b.streams.value.bins.Keys)
    && ValidState(b.streams.value)
    && StatesInstant(grid, b.t0, b.streams.value)
  }

  function DeltaOf(g: Groups): Delta {
    Delta(g.updates, g.births, g.deaths.ids)
  }

  /** The group framing a Delta Chunk declares is what arrived. */
  predicate GroupsAccepted(b: Body)
    requires b.DeltaChunk?
  {
    && b.groups.Some?
    && (b.head.births > 0 ==> REQUIRED <= b.groups.value.births.bins.Keys)
    && b.groups.value.deaths.bins == map[]
    && Counts(b.groups.value.updates, b.head.updates)
    && Counts(b.groups.value.births, b.head.births)
    && |b.groups.value.deaths.ids| == b.head.deaths
  }

  ghost predicate DeltaAccepted(p: Population, b: Body)
    requires b.DeltaChunk?
  {
    GroupsAccepted(b) && Composable(p, DeltaOf(b.groups.value))
  }

  /** The population the state record at `o` denotes: a keyframe states it, a delta
      composes it onto what the record strictly behind it denotes. `None` when some
      record on the way is unusable. Every read path is proved against this. */
  ghost function Composed(at: Layout, grid: MuGrid, o: nat): Option<Population>
    requires ValidLayout(at)
  {
    if o !in at then None
    else match at[o].body
      case Chunk(_, _, _, _, _, _) =>
        if KeyframeAccepted(grid, at[o].body) then Some(View(at[o].body.streams.value)) else None
      case DeltaChunk(head, _, _) =>
        if head.reference >= o then None
        else
          var reference := Composed(at, grid, head.reference);
          if reference.Some? && DeltaAccepted(reference.value, at[o].body)
          then Some(Compose(reference.value, DeltaOf(at[o].body.groups.value)))
          else None
      case _ => None
  }

  /** A state, as the readers hold it: a valid table denoting what its offset denotes. */
  ghost predicate Holds(at: Layout, grid: MuGrid, o: nat, t: Table)
    requires ValidLayout(at)
  {
    ValidState(t) && Composed(at, grid, o) == Some(View(t))
  }

  /** Naming more offsets changes nothing that already composed. */
  lemma {:induction false} ComposedInLarger(small: Layout, large: Layout, grid: MuGrid, o: nat)
    requires ValidLayout(small) && ValidLayout(large)
    requires forall k :: k in small ==> k in large && large[k] == small[k]
    requires Composed(small, grid, o).Some?
    ensures Composed(large, grid, o) == Composed(small, grid, o)
    decreases o
  {
    if small[o].body.DeltaChunk? {
      ComposedInLarger(small, large, grid, small[o].body.head.reference);
    }
  }

  // ---- decoding one record, as every reader does ----

  method DecodeKeyframe(grid: MuGrid, b: Body) returns (r: Result<Table, ReadError>)
    requires b.Chunk? && ShapedBody(b)
    ensures r.Success? <==> KeyframeAccepted(grid, b)
    ensures r.Success? ==> r.value == b.streams.value && ValidState(r.value)
  {
    if b.streams.None? { return Failure(UndecodableRecord); }
    var t := b.streams.value;
    if !Counts(t, b.count) { return Failure(StreamElementCount); }
    if b.count > 0 && !(REQUIRED <= t.bins.Keys) { return Failure(MissingRequiredAttribute); }
    if !StatesInstant(grid, b.t0, t) { return Failure(KeyframeMuMismatch); }
    var state := KeyframeState(t);
    if state.Failure? { return Failure(CompositionRefused(state.error)); }
    return Success(state.value);
  }

  method DecodeDelta(reference: Table, b: Body) returns (r: Result<Table, ReadError>)
    requires b.DeltaChunk? && ShapedBody(b) && ValidState(reference)
    ensures r.Success? <==> DeltaAccepted(View(reference), b)
    ensures r.Success? ==> ValidState(r.value) && View(r.value) == Compose(View(reference), DeltaOf(b.groups.value))
  {
    if b.groups.None? { return Failure(UndecodableRecord); }
    var g := b.groups.value;
    if b.head.births > 0 && !(REQUIRED <= g.births.bins.Keys) { return Failure(IncompleteBirthGroup); }
    if g.deaths.bins != map[] { return Failure(UnexpectedDeathAttribute); }
    if !Counts(g.updates, b.head.updates) || !Counts(g.births, b.head.births) || |g.deaths.ids| != b.head.deaths {
      return Failure(StreamElementCount);
    }
    var state := ApplyDelta(reference, DeltaOf(g));
    if state.Failure? {
      assert !Composable(View(reference), DeltaOf(g));
      return Failure(CompositionRefused(state.error));
    }
    return Success(state.value);
  }
}
