/** What it takes for a state record to be read, in the registry's own numbers and without
    the predicates the readers share. */
module StateRules {
  import opened Wrappers
  import opened Populations
  import opened Rounding
  import opened Times
  import opened Records
  import opened StreamedReader
  import opened StreamedScan
  import opened CompositionEffects

  /** The nearest integer, the even one of two equally near. */
  predicate IsNearest(n: int, x: real) {
    var apart := n as real - x;
    -0.5 <= apart <= 0.5 && (apart == 0.5 || apart == -0.5 ==> n % 2 == 0)
  }

  /** Row `k` was born, on the grid its own sigma and never-fades flag choose, at the chunk's
      timestamp. */
  predicate BornAt(grid: MuGrid, t0: Time, t: Table, k: nat) {
    && t0.Finite?
    && 7 in t.bins && 8 in t.bins && 9 in t.bins && k < |t.bins[7]| && k < |t.bins[8]| && k < |t.bins[9]|
    && |t.bins[7][k]| == 1 && |t.bins[8][k]| == 1 && |t.bins[9][k]| == 1
    && var step := grid(t.bins[8][k][0], t.bins[9][k][0] % 2 == 1);
       step > 0.0 && IsNearest(t.bins[7][k][0], t0.value / step)
  }

  /** A keyframe's rows as they must be. */
  predicate RowsStand(t: Table, count: nat) {
    && |t.ids| == count && Distinct(t.ids)
    && (forall a :: a in t.bins ==> |t.bins[a]| == count)
    && (forall a, k, c :: a in t.bins && 0 <= k < |t.bins[a]| && 0 <= c < |t.bins[a][k]| ==>
          IsBin(t.bins[a][k][c]) && (a == 2 ==> 0 <= t.bins[a][k][c] <= 3))
  }

  lemma {:induction false} RowsStandExactly(t: Table, count: nat)
    requires Shaped(t)
    ensures RowsStand(t, count) <==> ValidState(t) && Counts(t, count)
  {
    DistinctIsUnique(t.ids);
    BirthRanges(t);
  }

  lemma {:induction false} BornExactly(grid: MuGrid, t0: Time, t: Table)
    requires Shaped(t) && Tall(t) && t.ids != [] && 7 in t.bins && 8 in t.bins && 9 in t.bins
    ensures StatesInstant(grid, t0, t) <==> forall k :: 0 <= k < |t.ids| ==> BornAt(grid, t0, t, k)
  {
    if t0.Finite? {
      forall k | 0 <= k < |t.ids|
        ensures RowStatesInstant(grid, t0.value, t, k) <==> BornAt(grid, t0, t, k)
      {
        RowBorn(grid, t0, t, k);
      }
    } else {
      assert !BornAt(grid, t0, t, 0);
    }
  }

  lemma {:induction false} RowBorn(grid: MuGrid, t0: Time, t: Table, k: nat)
    requires Shaped(t) && Tall(t) && k < |t.ids| && 7 in t.bins && 8 in t.bins && 9 in t.bins && t0.Finite?
    ensures RowStatesInstant(grid, t0.value, t, k) <==> BornAt(grid, t0, t, k)
  {
    assert |t.bins[7][k]| == 1 && |t.bins[8][k]| == 1 && |t.bins[9][k]| == 1;
    var step := grid(t.bins[8][k][0], t.bins[9][k][0] % 2 == 1);
    if step > 0.0 { RintIsNearestEven(t0.value / step, t.bins[7][k][0]); }
  }

  /** A keyframe is accepted exactly when it decodes to as many whole rows as it declares,
      each identity once and every bin in range, with the eleven columns of a gaussian and
      its own timestamp in every row, unless it has no rows. */
  lemma {:induction false} KeyframeExactly(grid: MuGrid, b: Body)
    requires b.Chunk? && ShapedBody(b)
    ensures KeyframeAccepted(grid, b) <==>
      && b.streams.Some? && RowsStand(b.streams.value, b.count)
      && (b.count > 0 ==>
            && (forall a :: 0 <= a <= 10 ==> a in b.streams.value.bins)
            && (forall k :: 0 <= k < b.count ==> BornAt(grid, b.t0, b.streams.value, k)))
  {
    if b.streams.Some? {
      var t := b.streams.value;
      RowsStandExactly(t, b.count);
      if RowsStand(t, b.count) && b.count > 0 && forall a :: 0 <= a <= 10 ==> a in t.bins { BornExactly(grid, b.t0, t); }
    }
  }

  /** A delta is accepted, onto a population, exactly when its three groups decode to what
      its head declares, newborns are whole gaussians, deaths are bare identities, and the
      groups name, carry and bear rightly. */
  lemma {:induction false} DeltaExactly(p: Population, b: Body)
    requires b.DeltaChunk? && ShapedBody(b) && ValidPopulation(p)
    ensures DeltaAccepted(p, b) <==>
      && b.groups.Some?
      && var g, d := b.groups.value, Delta(b.groups.value.updates, b.groups.value.births, b.groups.value.deaths.ids);
         && |g.updates.ids| == b.head.updates && (forall a :: a in g.updates.bins ==> |g.updates.bins[a]| == b.head.updates)
         && |g.births.ids| == b.head.births && (forall a :: a in g.births.bins ==> |g.births.bins[a]| == b.head.births)
         && |g.deaths.ids| == b.head.deaths && (forall a :: a !in g.deaths.bins)
         && (b.head.births > 0 ==> forall a :: 0 <= a <= 10 ==> a in g.births.bins)
         && NamesRightly(p, d) && CarriesRightly(p, d) && UpdatesInRange(p, d) && BearsRightly(p, d)
  {
    if b.groups.Some? {
      AcceptedExactly(p, DeltaOf(b.groups.value));
      hide NamesRightly, CarriesRightly, UpdatesInRange, BearsRightly, Composable;
      if forall a :: a !in b.groups.value.deaths.bins { assert b.groups.value.deaths.bins == map[]; }
    }
  }

  // ---- record by record ----

  lemma {:induction false} OpcodeNumbers(b: Body)
    ensures Opcode(b) ==
      match b
      case Header(_, _) => 1
      case Quantization(_) => 3
      case WindowTable(_) => 4
      case Chunk(_, _, _, _, _, _) => 5
      case ShBand(_, _) => 7
      case ChunkIndex(_) => 8
      case DeltaChunk(_, _, _) => 16
      case Unreadable(code) => code
      case Other(code) => code
  {
  }

  /** The grid in force is the last stated. */
  lemma {:induction false} LastGrid(records: seq<Placed>, i: nat, q: nat)
    requires q < i <= |records| && records[q].body.Quantization? && forall j :: q < j < i ==> !records[j].body.Quantization?
    ensures GridBefore(records, i) == Some(records[q].body.grid)
  {
    if q + 1 < i { LastGrid(records, i - 1, q); }
  }

  lemma {:induction false} SomeGrid(records: seq<Placed>, i: nat)
    requires i <= |records|
    ensures GridBefore(records, i).Some? <==> exists q :: 0 <= q < i && records[q].body.Quantization?
  {
    if i > 0 { SomeGrid(records, i - 1); }
  }

  /** Front matter after a state record is refused, whatever the record. */
  lemma {:induction false} PlacedExactly(records: seq<Placed>, i: nat)
    requires i < |records|
    ensures IsPlaced(records, i) <==>
      (forall j :: 0 <= j < i ==> Opcode(records[j].body) != 5 && Opcode(records[j].body) != 16) ||
      Opcode(records[i].body) !in {0x01, 0x03, 0x04, 0x09, 0x0A, 0x0B, 0x0D, 0x11, 0x12, 0x20, 0x21, 0x22, 0x23, 0x24, 0x25}
  {
    assert StateBefore(records, i) <==> exists j :: 0 <= j < i && (Opcode(records[j].body) == 5 || Opcode(records[j].body) == 16);
  }

  /** What the collecting reader asks of each record: a header of this profile, what it
      parses parsed, a grid and a header before the first keyframe, and states that decode. */
  lemma {:induction false} RecordExactly(records: seq<Placed>, i: nat)
    requires ValidRecords(records) && i < |records|
    ensures RecordSound(records, i) <==>
      && IsPlaced(records, i)
      && (records[i].body.Unreadable? ==> records[i].body.code !in {1, 3, 4, 5, 8, 16})
      && (records[i].body.Header? ==> records[i].body.keyframeDelta)
      && (records[i].body.Chunk? ==>
            (exists h :: 0 <= h < i && records[h].body.Header?) && (exists q :: 0 <= q < i && records[q].body.Quantization?))
      && (records[i].body.Chunk? || records[i].body.DeltaChunk? ==> Decodes(records, i))
  {
    hide IsPlaced, Decodes, GridBefore;
    SomeGrid(records, i);
  }

  /** A delta is held against the keyframe before it in mode 0, and in mode 1 against the
      state just before it. */
  lemma {:induction false} ReferencedExactly(records: seq<Placed>, i: nat, k: nat, p: nat)
    requires i < |records| && records[i].body.DeltaChunk?
    requires k <= p < i && records[k].body.Chunk? && forall j :: k < j < i ==> !records[j].body.Chunk?
    requires (records[p].body.Chunk? || records[p].body.DeltaChunk?) && forall j :: p < j < i ==> !records[j].body.DeltaChunk?
    ensures var head, reference := records[i].body.head, if records[i].body.head.mode == 0 then records[k] else records[p];
      DeltaReferenced(records, i) <==>
        && (head.mode == 0 || head.mode == 1) && head.reference < records[i].offset
        && head.reference == reference.offset && head.keyframe == records[k].offset
        && head.depth == 1 + (if reference.body.Chunk? then 0 else reference.body.head.depth)
  {
    LastKeyframe(records, i, k);
    LastStateIs(records, i, p);
  }

  lemma {:induction false} LastKeyframe(records: seq<Placed>, i: nat, k: nat)
    requires k < i <= |records| && records[k].body.Chunk? && forall j :: k < j < i ==> !records[j].body.Chunk?
    ensures KeyframeBefore(records, i) == Some(k)
  {
    if k + 1 < i { LastKeyframe(records, i - 1, k); }
  }

  lemma {:induction false} LastStateIs(records: seq<Placed>, i: nat, p: nat)
    requires p < i <= |records| && IsState(records[p]) && forall j :: p < j < i ==> !IsState(records[j])
    ensures LastState(records, i) == Some(p)
  {
    if p + 1 < i { LastStateIs(records, i - 1, p); }
  }
}
