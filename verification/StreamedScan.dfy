/** The incremental streamed reader: the head of the current group of pictures and the
    previous state are all it keeps, because a legal delta references nothing else. */
module StreamedScan {
  import opened Wrappers
  import opened Registry
  import opened Populations
  import opened Records
  import opened StreamedReader

  // ---- what the records before `i` establish ----

  /** The last keyframe record before `i`. */
  function KeyframeBefore(records: seq<Placed>, i: nat): (k: Option<nat>)
    requires i <= |records|
    ensures k.Some? ==> k.value < i && records[k.value].body.Chunk?
  {
    if i == 0 then None
    else if records[i - 1].body.Chunk? then Some(i - 1)
    else KeyframeBefore(records, i - 1)
  }

  /** The last state record before `i`. */
  function LastState(records: seq<Placed>, i: nat): (k: Option<nat>)
    requires i <= |records|
    ensures k.Some? ==> k.value < i && IsState(records[k.value])
  {
    if i == 0 then None
    else if IsState(records[i - 1]) then Some(i - 1)
    else LastState(records, i - 1)
  }

  /** The harmonic degree in effect: the caller's, or the last Header's. */
  function DegreeBefore(records: seq<Placed>, i: nat, given: Option<nat>): Option<nat>
    requires i <= |records|
  {
    if given.Some? || i == 0 then given
    else if records[i - 1].body.Header? then Some(records[i - 1].body.shDegree)
    else DegreeBefore(records, i - 1, given)
  }

  /** The state record whose run of band records is open just before `i`. */
  function BandOwner(records: seq<Placed>, i: nat): (k: Option<nat>)
    requires i <= |records|
    ensures k.Some? ==> k.value < i && IsState(records[k.value])
  {
    if i == 0 then None
    else if IsState(records[i - 1]) then Some(i - 1)
    else if records[i - 1].body.ShBand? then BandOwner(records, i - 1)
    else None
  }

  /** The band numbers of that run. */
  function BandRun(records: seq<Placed>, i: nat): seq<nat>
    requires i <= |records|
  {
    if i == 0 || !records[i - 1].body.ShBand? || BandOwner(records, i - 1).None? then []
    else BandRun(records, i - 1) + [records[i - 1].body.band]
  }

  function Depth(b: Body): nat {
    if b.DeltaChunk? then b.head.depth else 0
  }

  function Level(b: Body): nat
    requires b.Chunk? || b.DeltaChunk?
  {
    if b.Chunk? then b.level else b.head.level
  }

  /** Rows a state record bears: what its bands carry coefficients for. */
  function BornRows(b: Body): nat
    requires b.Chunk? || b.DeltaChunk?
  {
    if b.Chunk? then b.count else b.head.births
  }

  /** Bands ride with born gaussians: every band of the degree, or none at all. */
  function Owed(degree: nat, rows: nat): set<nat> {
    if rows > 0 then BandsTo(degree) else {}
  }

  function BandsTo(degree: nat): (bands: set<nat>)
    ensures forall b :: b in bands <==> 1 <= b <= degree
  {
    if degree == 0 then {} else BandsTo(degree - 1) + {degree}
  }

  // ---- what the scan accepts ----

  /** The run open before `i`, if any, is exactly the bands its owner owes. */
  predicate RunComplete(records: seq<Placed>, i: nat, given: Option<nat>)
    requires i <= |records|
  {
    var owner, degree := BandOwner(records, i), DegreeBefore(records, i, given);
    owner.Some? && degree.Some? ==>
      (set b | b in BandRun(records, i)) == Owed(degree.value, BornRows(records[owner.value].body))
  }

  /** A band record belongs to an open run, is new in it, and fits its owner. */
  predicate BandLegal(records: seq<Placed>, i: nat, given: Option<nat>)
    requires i < |records| && records[i].body.ShBand?
  {
    var b := records[i].body;
    var owner, degree := BandOwner(records, i), DegreeBefore(records, i, given);
    && owner.Some?
    && 1 <= b.band <= (if degree.Some? then degree.value else 3)
    && b.band !in BandRun(records, i)
    && b.stream.Some?
    && b.stream.value.attribute == SH_BAND_STREAM
    && b.stream.value.rows == BornRows(records[owner.value].body)
    && b.stream.value.channels == 3 * (2 * b.band + 1)
    && b.stream.value.codesLegal
  }

  /** The record a delta's mode tells it to reference. */
  function ModeReference(records: seq<Placed>, i: nat): (k: Option<nat>)
    requires i < |records| && records[i].body.DeltaChunk?
    ensures k.Some? ==> k.value < i && IsState(records[k.value])
  {
    if records[i].body.head.mode == KEYFRAME_MODE then KeyframeBefore(records, i)
    else if records[i].body.head.mode == CHAINED_MODE then LastState(records, i)
    else None
  }

  /** A delta's stated reference, group and depth are the ones its mode implies. */
  predicate DeltaReferenced(records: seq<Placed>, i: nat)
    requires i < |records| && records[i].body.DeltaChunk?
  {
    var head, reference, keyframe := records[i].body.head, ModeReference(records, i), KeyframeBefore(records, i);
    && head.reference < records[i].offset
    && reference.Some? && head.reference == records[reference.value].offset
    && keyframe.Some? && head.keyframe == records[keyframe.value].offset
    && head.depth == Depth(records[reference.value].body) + 1
  }

  /** And it shares its reference's level. */
  predicate DeltaLinked(records: seq<Placed>, i: nat)
    requires i < |records| && records[i].body.DeltaChunk?
  {
    DeltaReferenced(records, i) && records[i].body.head.level == Level(records[ModeReference(records, i).value].body)
  }

  ghost predicate ScanSound(records: seq<Placed>, i: nat, given: Option<nat>)
    requires ValidRecords(records) && i < |records|
  {
    && IsPlaced(records, i)
    && (!records[i].body.ShBand? ==> RunComplete(records, i, given))
    && match records[i].body
       case Unreadable(code) => code !in {HEADER, QUANTIZATION, WINDOW_TABLE, CHUNK, DELTA_CHUNK, SH_BAND_STREAM}
       case Chunk(_, _, _, _, _, _) => GridBefore(records, i).Some? && Decodes(records, i)
       case DeltaChunk(_, _, _) => DeltaLinked(records, i) && Decodes(records, i)
       case ShBand(_, _) => BandLegal(records, i, given)
       case _ => true
  }

  ghost predicate ScanAccepts(records: seq<Placed>, truncated: bool, given: Option<nat>)
    requires ValidRecords(records)
  {
    && ScanSoundTo(records, |records|, given)
    && !truncated && RunComplete(records, |records|, given)
  }

  // ---- the two retained states ----

  datatype Kept = Kept(offset: nat, depth: nat, level: nat, state: Table)

  /** `kept` is the state of record `k`, or nothing when there is no such record. */
  ghost predicate Keeps(records: seq<Placed>, i: nat, k: Option<nat>, kept: Option<Kept>)
    requires ValidRecords(records) && i <= |records|
    requires k.Some? ==> k.value < |records| && IsState(records[k.value])
  {
    && (k.None? <==> kept.None?)
    && (k.Some? ==>
         && kept.value.offset == records[k.value].offset
         && kept.value.depth == Depth(records[k.value].body) && kept.value.level == Level(records[k.value].body)
         && Holds(Physical(records), GridAt(records, i), kept.value.offset, kept.value.state))
  }

  lemma {:induction false} KeyframeImpliesState(records: seq<Placed>, i: nat)
    requires i <= |records|
    ensures KeyframeBefore(records, i).Some? ==> LastState(records, i).Some?
    ensures LastState(records, i).Some? ==> StateBefore(records, i)
  {
    if i > 0 { KeyframeImpliesState(records, i - 1); }
  }

  /** Stepping over a record that is no state keeps both retained states. */
  lemma {:induction false} KeepsNext(records: seq<Placed>, i: nat, keyframe: Option<Kept>, previous: Option<Kept>)
    requires ValidRecords(records) && i < |records| && IsPlaced(records, i) && !IsState(records[i])
    requires Keeps(records, i, KeyframeBefore(records, i), keyframe) && Keeps(records, i, LastState(records, i), previous)
    ensures Keeps(records, i + 1, KeyframeBefore(records, i + 1), keyframe)
    ensures Keeps(records, i + 1, LastState(records, i + 1), previous)
  {
    KeyframeImpliesState(records, i);
    if StateBefore(records, i) {
      assert GridBefore(records, i + 1) == GridBefore(records, i);
    }
  }

  /** A state record replaces the previous state, and a keyframe the group's head. */
  lemma {:induction false} KeepsState(records: seq<Placed>, i: nat, keyframe: Option<Kept>, t: Table)
    requires ValidRecords(records) && i < |records| && IsState(records[i])
    requires Keeps(records, i, KeyframeBefore(records, i), keyframe)
    requires Holds(Physical(records), GridAt(records, i), records[i].offset, t)
    ensures var kept := Some(Kept(records[i].offset, Depth(records[i].body), Level(records[i].body), t));
      && Keeps(records, i + 1, LastState(records, i + 1), kept)
      && Keeps(records, i + 1, KeyframeBefore(records, i + 1), if records[i].body.Chunk? then kept else keyframe)
  {
  }

  /** Whichever retained state the delta's mode names, if it is the one the delta names. */
  method ScanReference(records: seq<Placed>, i: nat, keyframe: Option<Kept>, previous: Option<Kept>) returns (r: Result<Kept, ReadError>)
    requires ValidRecords(records) && i < |records| && records[i].body.DeltaChunk?
    requires Keeps(records, i, KeyframeBefore(records, i), keyframe) && Keeps(records, i, LastState(records, i), previous)
    ensures r.Success? <==> DeltaReferenced(records, i)
    ensures r.Success? ==> r.value.offset == records[i].body.head.reference && Keeps(records, i, ModeReference(records, i), Some(r.value))
  {
    hide ValidRecords, Holds;
    var head := records[i].body.head;
    if head.reference >= records[i].offset { return Failure(ForwardReference); }
    if head.mode != KEYFRAME_MODE && head.mode != CHAINED_MODE { return Failure(IndexRecordMismatch); }
    var reference := if head.mode == KEYFRAME_MODE then keyframe else previous;
    if reference.None? || head.reference != reference.value.offset { return Failure(BrokenReference); }
    if keyframe.None? || head.keyframe != keyframe.value.offset { return Failure(IndexRecordMismatch); }
    if head.depth != reference.value.depth + 1 { return Failure(DepthMismatch); }
    return Success(reference.value);
  }

  /** A delta, composed onto that state. */
  method ScanDelta(records: seq<Placed>, i: nat, keyframe: Option<Kept>, previous: Option<Kept>) returns (r: Result<Table, ReadError>)
    requires ValidRecords(records) && i < |records| && records[i].body.DeltaChunk?
    requires Keeps(records, i, KeyframeBefore(records, i), keyframe) && Keeps(records, i, LastState(records, i), previous)
    ensures r.Success? <==> DeltaLinked(records, i) && Decodes(records, i)
    ensures r.Success? ==> Holds(Physical(records), GridAt(records, i), records[i].offset, r.value)
  {
    var reference := ScanReference(records, i, keyframe, previous);
    if reference.Failure? { return Failure(reference.error); }
    var state := DecodeDelta(reference.value.state, records[i].body);
    DeltaDecodes(records, i);
    if state.Failure? { return state; }
    if records[i].body.head.level != reference.value.level { return Failure(IndexRecordMismatch); }
    return state;
  }

  /** A state record: decoded outright, or composed onto a retained state. */
  method ScanState(records: seq<Placed>, i: nat, grid: Option<MuGrid>, keyframe: Option<Kept>, previous: Option<Kept>)
    returns (r: Result<Table, ReadError>)
    requires ValidRecords(records) && i < |records| && IsState(records[i]) && grid == GridBefore(records, i)
    requires Keeps(records, i, KeyframeBefore(records, i), keyframe) && Keeps(records, i, LastState(records, i), previous)
    ensures r.Success? <==> Decodes(records, i) && (if records[i].body.Chunk? then grid.Some? else DeltaLinked(records, i))
    ensures r.Success? ==> Holds(Physical(records), GridAt(records, i), records[i].offset, r.value)
  {
    if records[i].body.Chunk? {
      if grid.None? { return Failure(MissingFrontMatter); }
      KeyframeDecodes(records, i);
      r := DecodeKeyframe(grid.value, records[i].body);
    } else {
      r := ScanDelta(records, i, keyframe, previous);
    }
  }

  /** The run of band records being read, and the degree it is held against. */
  datatype Bands = Bands(owned: bool, rows: nat, run: seq<nat>, degree: Option<nat>)

  ghost predicate BandsOf(records: seq<Placed>, i: nat, given: Option<nat>, b: Bands)
    requires i <= |records|
  {
    && b.owned == BandOwner(records, i).Some? && b.degree == DegreeBefore(records, i, given)
    && (b.owned ==> b.run == BandRun(records, i) && b.rows == BornRows(records[BandOwner(records, i).value].body))
  }

  /** A finished run owes its owner nothing more. */
  predicate Finished(b: Bands) {
    b.owned && b.degree.Some? ==> (set n | n in b.run) == Owed(b.degree.value, b.rows)
  }

  /** One record, as the band bookkeeping sees it: a band joins the open run, any other
      record closes it, and a state record opens the next. */
  method ScanBands(records: seq<Placed>, i: nat, given: Option<nat>, b: Bands) returns (r: Result<Bands, ReadError>)
    requires ValidRecords(records) && i < |records| && BandsOf(records, i, given, b)
    ensures r.Success? <==> if records[i].body.ShBand? then BandLegal(records, i, given) else RunComplete(records, i, given)
    ensures r.Success? ==> BandsOf(records, i + 1, given, r.value)
  {
    var body := records[i].body;
    if body.ShBand? {
      if !b.owned { return Failure(BandMismatch); }
      if body.band < 1 || body.band > (if b.degree.Some? then b.degree.value else 3) || body.band in b.run { return Failure(BandMismatch); }
      if body.stream.None? { return Failure(UndecodableRecord); }
      var stream := body.stream.value;
      if stream.attribute != SH_BAND_STREAM || stream.rows != b.rows || stream.channels != 3 * (2 * body.band + 1) || !stream.codesLegal {
        return Failure(BandMismatch);
      }
      return Success(b.(run := b.run + [body.band]));
    }
    if !Finished(b) { return Failure(BandMismatch); }
    if IsState(records[i]) { return Success(Bands(true, BornRows(body), [], b.degree)); }
    var degree := if body.Header? && given.None? then Some(body.shDegree) else b.degree;
    return Success(Bands(false, 0, [], degree));
  }

  // ---- the whole file ----

  /** One composed state, as it is handed to the caller. */
  datatype Yielded = Yielded(offset: nat, kind: nat, state: Table)

  /** The states before `i`, one per state record and in file order. */
  ghost predicate YieldedAll(records: seq<Placed>, i: nat, out: seq<Yielded>)
    requires ValidRecords(records) && i <= |records|
  {
    && |out| == |StatePositions(records, i)|
    && (forall k :: 0 <= k < |out| ==> YieldsRecord(records, StatePositions(records, i)[k], out[k]))
  }

  ghost predicate YieldsRecord(records: seq<Placed>, i: nat, y: Yielded)
    requires ValidRecords(records) && i < |records|
  {
    && y.offset == records[i].offset && y.kind == (if records[i].body.Chunk? then 0 else 1)
    && Holds(Physical(records), GridAt(records, i), y.offset, y.state)
  }

  /** Everything the scan carries from one record to the next. */
  datatype Scan = Scan(keyframe: Option<Kept>, previous: Option<Kept>, grid: Option<MuGrid>, seenState: bool, bands: Bands)

  ghost predicate ScanOf(records: seq<Placed>, i: nat, given: Option<nat>, s: Scan)
    requires ValidRecords(records) && i <= |records|
  {
    && s.seenState == StateBefore(records, i) && s.grid == GridBefore(records, i)
    && Keeps(records, i, KeyframeBefore(records, i), s.keyframe) && Keeps(records, i, LastState(records, i), s.previous)
    && BandsOf(records, i, given, s.bands)
  }

  /** One record that is no state: only front matter and band bookkeeping change. */
  method ScanOther(records: seq<Placed>, i: nat, given: Option<nat>, s: Scan) returns (r: Result<Scan, ReadError>)
    requires ValidRecords(records) && i < |records| && ScanOf(records, i, given, s) && !IsState(records[i]) && IsPlaced(records, i)
    ensures r.Success? <==> ScanSound(records, i, given)
    ensures r.Success? ==> ScanOf(records, i + 1, given, r.value)
  {
    var body := records[i].body;
    var banded := ScanBands(records, i, given, s.bands);
    if banded.Failure? { return Failure(banded.error); }
    if body.Unreadable? && body.code in {HEADER, QUANTIZATION, WINDOW_TABLE, CHUNK, DELTA_CHUNK, SH_BAND_STREAM} {
      return Failure(UndecodableRecord);
    }
    KeepsNext(records, i, s.keyframe, s.previous);
    return Success(Scan(s.keyframe, s.previous, if body.Quantization? then Some(body.grid) else s.grid,
                        s.seenState || IsStateOpcode(Opcode(body)), banded.value));
  }

  /** One state record: decoded or composed, retained, and handed out. */
  method ScanOneState(records: seq<Placed>, i: nat, given: Option<nat>, s: Scan) returns (r: Result<(Scan, Yielded), ReadError>)
    requires ValidRecords(records) && i < |records| && ScanOf(records, i, given, s) && IsState(records[i]) && IsPlaced(records, i)
    ensures r.Success? <==> ScanSound(records, i, given)
    ensures r.Success? ==> ScanOf(records, i + 1, given, r.value.0) && YieldsRecord(records, i, r.value.1)
  {
    var record := records[i];
    var banded := ScanBands(records, i, given, s.bands);
    if banded.Failure? { return Failure(banded.error); }
    var state := ScanState(records, i, s.grid, s.keyframe, s.previous);
    if state.Failure? { return Failure(state.error); }
    KeepsState(records, i, s.keyframe, state.value);
    var kept := Some(Kept(record.offset, Depth(record.body), Level(record.body), state.value));
    return Success((Scan(if record.body.Chunk? then kept else s.keyframe, kept, s.grid, true, banded.value),
                    Yielded(record.offset, if record.body.Chunk? then 0 else 1, state.value)));
  }

  lemma {:induction false} YieldOne(records: seq<Placed>, i: nat, out: seq<Yielded>, y: Yielded)
    requires ValidRecords(records) && i < |records| && IsState(records[i])
    requires YieldedAll(records, i, out) && YieldsRecord(records, i, y)
    ensures YieldedAll(records, i + 1, out + [y])
  {
    hide YieldsRecord;
  }

  /** One record, and the state it hands out if it is a state record. */
  method ScanRecord(records: seq<Placed>, i: nat, given: Option<nat>, s: Scan, out: seq<Yielded>)
    returns (r: Result<(Scan, seq<Yielded>), ReadError>)
    requires ValidRecords(records) && i < |records| && ScanOf(records, i, given, s) && YieldedAll(records, i, out)
    ensures r.Success? <==> ScanSound(records, i, given)
    ensures r.Success? ==> ScanOf(records, i + 1, given, r.value.0) && YieldedAll(records, i + 1, r.value.1)
  {
    if s.seenState && IsFrontMatter(Opcode(records[i].body)) { return Failure(LateFrontMatter); }
    if IsState(records[i]) {
      var next := ScanOneState(records, i, given, s);
      if next.Failure? { return Failure(next.error); }
      YieldOne(records, i, out, next.value.1);
      return Success((next.value.0, out + [next.value.1]));
    }
    var next := ScanOther(records, i, given, s);
    if next.Failure? { return Failure(next.error); }
    return Success((next.value, out));
  }

  ghost predicate ScanSoundTo(records: seq<Placed>, n: nat, given: Option<nat>)
    requires ValidRecords(records) && n <= |records|
  {
    forall i :: 0 <= i < n ==> ScanSound(records, i, given)
  }

  lemma {:induction false} ScanSoundOne(records: seq<Placed>, i: nat, given: Option<nat>)
    requires ValidRecords(records) && i < |records| && ScanSoundTo(records, i, given) && ScanSound(records, i, given)
    ensures ScanSoundTo(records, i + 1, given)
  {
  }

  lemma {:induction false} ScanStarts(records: seq<Placed>, given: Option<nat>)
    requires ValidRecords(records)
    ensures ScanOf(records, 0, given, Scan(None, None, None, false, Bands(false, 0, [], given))) && YieldedAll(records, 0, [])
  {
  }

  lemma {:induction false} ScanFinishes(records: seq<Placed>, given: Option<nat>, s: Scan)
    requires ValidRecords(records) && ScanOf(records, |records|, given, s)
    ensures Finished(s.bands) <==> RunComplete(records, |records|, given)
  {
    hide Keeps, ValidRecords;
  }

  /** Keeping two states and nothing more, the scan hands out, at every state record of a
      file it completes, exactly the population that record's offset denotes. */
  method ScanStreamed(records: seq<Placed>, truncated: bool, given: Option<nat>) returns (r: Result<seq<Yielded>, ReadError>)
    requires ValidRecords(records)
    ensures r.Success? <==> ScanAccepts(records, truncated, given)
    ensures r.Success? ==> YieldedAll(records, |records|, r.value)
  {
    hide ValidRecords, ScanOf, YieldedAll, ScanSound, Finished, RunComplete;
    ScanStarts(records, given);
    var s := Scan(None, None, None, false, Bands(false, 0, [], given));
    var out: seq<Yielded> := [];
    for i := 0 to |records|
      invariant ScanOf(records, i, given, s) && YieldedAll(records, i, out)
      invariant ScanSoundTo(records, i, given)
    {
      var next := ScanRecord(records, i, given, s, out);
      if next.Failure? { return Failure(next.error); }
      ScanSoundOne(records, i, given);
      s, out := next.value.0, next.value.1;
    }
    if truncated { return Failure(TruncatedFile); }
    ScanFinishes(records, given, s);
    if !Finished(s.bands) { return Failure(BandMismatch); }
    return Success(out);
  }

  /** Wherever both streamed readers finish, they hand out the same populations in the
      same order; and what the scan finishes, the collecting reader can only refuse for
      its front matter, its index entries or its budget. */
  method StreamedReadersAgree(records: seq<Placed>, truncated: bool, given: Option<nat>, limit: nat)
    returns (scan: Result<seq<Yielded>, ReadError>, collect: Result<seq<ChunkInfo>, ReadError>)
    requires ValidRecords(records) && limit > 0
    ensures scan.Success? && collect.Success? ==> |scan.value| == |collect.value|
    ensures scan.Success? && collect.Success? ==> forall k :: 0 <= k < |scan.value| ==>
      && scan.value[k].offset == collect.value[k].offset && scan.value[k].kind == collect.value[k].kind
      && View(scan.value[k].state) == View(collect.value[k].state)
    ensures scan.Success? ==> forall i :: 0 <= i < |records| && IsState(records[i]) ==> Decodes(records, i)
    ensures collect.Success? ==> Sound(records, truncated) && Listed(records, |records|, collect.value)
  {
    scan := ScanStreamed(records, truncated, given);
    var bytes;
    collect, bytes := DecodeStreamed(records, truncated, limit);
    if scan.Success? {
      forall i | 0 <= i < |records| && IsState(records[i])
        ensures Decodes(records, i)
      {
        assert ScanSound(records, i, given);
      }
    }
    if scan.Success? && collect.Success? {
      forall k | 0 <= k < |scan.value|
        ensures scan.value[k].offset == collect.value[k].offset && scan.value[k].kind == collect.value[k].kind
        ensures View(scan.value[k].state) == View(collect.value[k].state)
      {
        var i := StatePositions(records, |records|)[k];
        assert YieldsRecord(records, i, scan.value[k]) && Describes(records, collect.value[k], i);
      }
    }
  }
}
