/** The framing walk over untrusted bytes: nine bytes a record, 64-bit declared lengths, and
    a bounded account of what was found. */
module Framing {
  import opened Wrappers

  const MAGIC: seq<Byte> := [0x89, 0x34, 0x44, 0x47, 0x53, 0x31, 0x0D, 0x0A]
  const MAGIC_SIZE: nat := 8
  const HEADER_SIZE: nat := 9
  const U64: nat := 0x1_0000_0000_0000_0000
  const U64_MAX: nat := 0xFFFF_FFFF_FFFF_FFFF

  /** The magic, spelled out. */
  lemma {:induction false} MagicSpelled(k: nat)
    requires k < 5
    ensures |MAGIC| == MAGIC_SIZE == 8 && MAGIC[0] == 137 && MAGIC[6..] == [13, 10]
    ensures MAGIC[k + 1] == "4DGS1"[k] as int
  {
  }

  // ---- frames ----

  datatype Frame = Frame(opcode: nat, offset: nat, length: nat)

  /** Little-endian. */
  function LittleEndian(file: seq<Byte>, at: nat, n: nat): nat
    requires at + n <= |file|
    decreases n, at
  {
    if n == 0 then 0 else file[at] + 256 * LittleEndian(file, at + 1, n - 1)
  }

  function Pow256(n: nat): nat {
    if n == 0 then 1 else 256 * Pow256(n - 1)
  }

  lemma {:induction false} LittleEndianBelow(file: seq<Byte>, at: nat, n: nat)
    requires at + n <= |file|
    ensures LittleEndian(file, at, n) < Pow256(n)
    decreases n
  {
    if n > 0 { LittleEndianBelow(file, at + 1, n - 1); }
  }

  /** A declared length is any 64-bit value. */
  lemma {:induction false} LengthFits(file: seq<Byte>, at: nat)
    requires at + HEADER_SIZE <= |file|
    ensures FrameAt(file, at).length < U64
  {
    LittleEndianBelow(file, at + 1, 8);
    assert Pow256(4) == 0x1_0000_0000;
    assert Pow256(8) == U64;
  }

  function FrameAt(file: seq<Byte>, at: nat): Frame
    requires at + HEADER_SIZE <= |file|
  {
    Frame(file[at], at, LittleEndian(file, at + 1, 8))
  }

  /** One past a frame's last byte, in the integers. */
  function End(f: Frame): nat {
    f.offset + HEADER_SIZE + f.length
  }

  /** Framing plus content in 64 bits, saturating where it would wrap. */
  function Total(f: Frame): nat {
    var sum := (f.length + HEADER_SIZE) % U64;
    if sum < f.length then U64_MAX else sum
  }

  /** The walk's own test of a frame against the file's end, all in 64-bit arithmetic. */
  predicate RunsPast(f: Frame, size: nat) {
    var end := (f.offset + Total(f)) % U64;
    Total(f) == U64_MAX || end < f.offset || end > size
  }

  /** Wrapping and saturation never hide an overrun, and never invent one. */
  lemma {:induction false} OverrunIsSeen(f: Frame, size: nat)
    requires 0 < f.offset <= size < U64 && f.length < U64
    ensures RunsPast(f, size) <==> End(f) > size
    ensures !RunsPast(f, size) ==> (f.offset + Total(f)) % U64 == End(f)
  {
    Wraps(f.length + HEADER_SIZE);
    Wraps(f.offset + Total(f));
  }

  lemma {:induction false} Wraps(x: nat)
    requires x < 2 * U64
    ensures x % U64 == if x < U64 then x else x - U64
  {
  }

  // ---- what the bytes hold ----

  /** The whole frames from `at` on, each starting where the one before it ends. */
  function Intact(file: seq<Byte>, at: nat): seq<Frame>
    decreases |file| - at
  {
    if at + HEADER_SIZE <= |file| && End(FrameAt(file, at)) <= |file|
    then [FrameAt(file, at)] + Intact(file, End(FrameAt(file, at)))
    else []
  }

  /** Where they stop. */
  function Stop(file: seq<Byte>, at: nat): (stop: nat)
    ensures at <= stop && (at <= |file| ==> stop <= |file|)
    decreases |file| - at
  {
    if at + HEADER_SIZE <= |file| && End(FrameAt(file, at)) <= |file| then Stop(file, End(FrameAt(file, at))) else at
  }

  /** Whole frames tile the file from their start to where they stop. */
  lemma {:induction false} IntactTiles(file: seq<Byte>, at: nat)
    requires at <= |file|
    ensures var frames := Intact(file, at);
      && (frames == [] ==> Stop(file, at) == at)
      && (frames != [] ==> frames[0].offset == at && End(frames[|frames| - 1]) == Stop(file, at))
      && (forall k :: 0 <= k < |frames| - 1 ==> frames[k + 1].offset == End(frames[k]))
      && (forall k :: 0 <= k < |frames| ==> at <= frames[k].offset && End(frames[k]) <= |file|)
    decreases |file| - at
  {
    if at + HEADER_SIZE <= |file| && End(FrameAt(file, at)) <= |file| {
      IntactTiles(file, End(FrameAt(file, at)));
    }
  }

  /** Cutting the file anywhere past the magic keeps exactly the frames that end by the cut. */
  lemma {:induction false} CutKeepsPrefix(file: seq<Byte>, cut: nat, at: nat) returns (k: nat)
    requires at <= cut <= |file|
    ensures k <= |Intact(file, at)| && Intact(file[..cut], at) == Intact(file, at)[..k]
    ensures forall j :: 0 <= j < |Intact(file, at)| ==> (j < k <==> End(Intact(file, at)[j]) <= cut)
    decreases |file| - at
  {
    var frames, short := Intact(file, at), file[..cut];
    if at + HEADER_SIZE <= cut { SameFrame(file, cut, at); }
    if frames == [] {
      return 0;
    }
    IntactTiles(file, at);
    if End(frames[0]) <= cut {
      var rest := CutKeepsPrefix(file, cut, End(frames[0]));
      var tail := Intact(file, End(frames[0]));
      assert frames == [frames[0]] + tail;
      return rest + 1;
    }
    EndsIncrease(file, at);
    return 0;
  }

  lemma {:induction false} SameFrame(file: seq<Byte>, cut: nat, at: nat)
    requires at + HEADER_SIZE <= cut <= |file|
    ensures FrameAt(file[..cut], at) == FrameAt(file, at)
  {
    SameLittleEndian(file, cut, at + 1, 8);
  }

  lemma {:induction false} SameLittleEndian(file: seq<Byte>, cut: nat, at: nat, n: nat)
    requires at + n <= cut <= |file|
    ensures LittleEndian(file[..cut], at, n) == LittleEndian(file, at, n)
    decreases n
  {
    if n > 0 { SameLittleEndian(file, cut, at + 1, n - 1); }
  }

  lemma {:induction false} EndsIncrease(file: seq<Byte>, at: nat)
    requires at <= |file|
    ensures var frames := Intact(file, at);
      forall j :: 0 <= j < |frames| ==> End(frames[0]) <= End(frames[j])
    decreases |file| - at
  {
    var frames := Intact(file, at);
    if frames != [] {
      IntactTiles(file, End(frames[0]));
      assert frames == [frames[0]] + Intact(file, End(frames[0]));
    }
  }

  // ---- the bounded account ----

  function CountOf(frames: seq<Frame>, opcode: nat): nat {
    if frames == [] then 0
    else CountOf(frames[..|frames| - 1], opcode) + (if frames[|frames| - 1].opcode == opcode then 1 else 0)
  }

  /** The first two of each opcode, in order. */
  function FirstTwo(frames: seq<Frame>): seq<Frame> {
    if frames == [] then []
    else
      var front, f := frames[..|frames| - 1], frames[|frames| - 1];
      FirstTwo(front) + (if CountOf(front, f.opcode) < 2 then [f] else [])
  }

  /** The first frame of an opcode. */
  function FirstOf(frames: seq<Frame>, opcode: nat): (f: Option<Frame>)
    ensures f.Some? ==> f.value in frames && f.value.opcode == opcode
  {
    if frames == [] then None
    else
      var front, f := frames[..|frames| - 1], frames[|frames| - 1];
      if FirstOf(front, opcode).Some? then FirstOf(front, opcode)
      else if f.opcode == opcode then Some(f) else None
  }

  lemma {:induction false} CountedIsFound(frames: seq<Frame>, opcode: nat)
    ensures FirstOf(frames, opcode).Some? <==> CountOf(frames, opcode) > 0
  {
    if frames != [] { CountedIsFound(frames[..|frames| - 1], opcode); }
  }

  lemma {:induction false} FirstOfAppended(frames: seq<Frame>, f: Frame, opcode: nat)
    ensures FirstOf(frames + [f], opcode) ==
      if FirstOf(frames, opcode).Some? then FirstOf(frames, opcode) else if f.opcode == opcode then Some(f) else None
    ensures CountOf(frames + [f], opcode) == CountOf(frames, opcode) + (if f.opcode == opcode then 1 else 0)
  {
    assert (frames + [f])[..|frames|] == frames;
  }

  /** Two representatives are enough to hold every opcode's first. */
  lemma {:induction false} RepresentativesHoldFirst(frames: seq<Frame>, opcode: nat)
    ensures FirstOf(FirstTwo(frames), opcode) == FirstOf(frames, opcode)
  {
    if frames != [] {
      var front, f := frames[..|frames| - 1], frames[|frames| - 1];
      RepresentativesHoldFirst(front, opcode);
      FirstOfAppended(FirstTwo(front), f, opcode);
      CountedIsFound(front, opcode);
      assert FirstTwo(front) + [] == FirstTwo(front);
    }
  }

  datatype Cut = Cut(at: nat, insideARecord: bool)

  datatype Walk = Walk(
    size: nat, representatives: seq<Frame>, counts: seq<nat>, intactCounts: seq<nat>, records: nat, intactRecords: nat,
    first: Option<Frame>, last: Option<Frame>, firstIntact: Option<Frame>, lastIntact: Option<Frame>,
    cut: Option<Cut>, trailingMagic: bool)

  predicate Counts(counts: seq<nat>, frames: seq<Frame>) {
    |counts| == 256 && forall o :: 0 <= o < 256 ==> counts[o] == CountOf(frames, o)
  }

  function Head(frames: seq<Frame>): Option<Frame> {
    if frames == [] then None else Some(frames[0])
  }

  function Last(frames: seq<Frame>): Option<Frame> {
    if frames == [] then None else Some(frames[|frames| - 1])
  }

  /** The walk's account of the frames it read, and of those that were whole. */
  predicate Accounts(w: Walk, seen: seq<Frame>, intact: seq<Frame>) {
    && Counts(w.counts, seen) && Counts(w.intactCounts, intact)
    && w.records == |seen| && w.intactRecords == |intact|
    && w.first == Head(seen) && w.last == Last(seen) && w.firstIntact == Head(intact) && w.lastIntact == Last(intact)
    && w.representatives == FirstTwo(seen)
  }

  /** The frames whose framing is read: the whole ones, and one more that runs past the end. */
  function Seen(file: seq<Byte>, at: nat): seq<Frame> {
    Intact(file, at) +
    (if Stop(file, at) + HEADER_SIZE <= |file| then [FrameAt(file, Stop(file, at))] else [])
  }

  function Visits(file: seq<Byte>, at: nat): seq<(Frame, bool)> {
    seq(|Seen(file, at)|, k requires 0 <= k < |Seen(file, at)| => (Seen(file, at)[k], k < |Intact(file, at)|))
  }

  // ---- the walk ----

  method ReadLength(file: seq<Byte>, at: nat) returns (value: nat)
    requires at + 8 <= |file|
    ensures value == LittleEndian(file, at, 8)
  {
    value := 0;
    var i := 8;
    while i > 0
      invariant i <= 8 && value == LittleEndian(file, at + i, 8 - i)
    {
      i := i - 1;
      value := value * 256 + file[at + i];
    }
  }

  lemma {:induction false} CountsOne(counts: seq<nat>, frames: seq<Frame>, f: Frame)
    requires Counts(counts, frames) && f.opcode < 256
    ensures Counts(counts[f.opcode := counts[f.opcode] + 1], frames + [f])
  {
    forall o | 0 <= o < 256
      ensures counts[f.opcode := counts[f.opcode] + 1][o] == CountOf(frames + [f], o)
    {
      FirstOfAppended(frames, f, o);
    }
  }

  lemma {:induction false} FirstTwoGrows(frames: seq<Frame>, f: Frame)
    ensures FirstTwo(frames + [f]) == if CountOf(frames, f.opcode) < 2 then FirstTwo(frames) + [f] else FirstTwo(frames)
  {
    assert (frames + [f])[..|frames|] == frames;
    assert FirstTwo(frames) + [] == FirstTwo(frames);
  }

  /** A record's framing is noted, whole or not. */
  method Note(w: Walk, ghost frames: seq<Frame>, f: Frame) returns (r: Walk)
    requires Accounts(w, frames, frames) && f.opcode < 256
    ensures Accounts(r, frames + [f], frames) && r.size == w.size && r.cut == w.cut && r.trailingMagic == w.trailingMagic
  {
    CountsOne(w.counts, frames, f);
    var counts := w.counts[f.opcode := w.counts[f.opcode] + 1];
    var reps := if counts[f.opcode] <= 2 then w.representatives + [f] else w.representatives;
    FirstTwoGrows(frames, f);
    r := w.(records := w.records + 1, counts := counts, first := if w.first.Some? then w.first else Some(f),
            last := Some(f), representatives := reps);
  }

  /** A whole record is counted as one. */
  method NoteIntact(w: Walk, ghost frames: seq<Frame>, f: Frame) returns (r: Walk)
    requires Accounts(w, frames + [f], frames) && f.opcode < 256
    ensures Accounts(r, frames + [f], frames + [f]) && r.size == w.size && r.cut == w.cut && r.trailingMagic == w.trailingMagic
  {
    CountsOne(w.intactCounts, frames, f);
    r := w.(intactRecords := w.intactRecords + 1, intactCounts := w.intactCounts[f.opcode := w.intactCounts[f.opcode] + 1],
            firstIntact := if w.firstIntact.Some? then w.firstIntact else Some(f), lastIntact := Some(f));
  }

  /** How a walk ends, by what is left where the whole frames stop. */
  predicate Ends(w: Walk, file: seq<Byte>, stop: nat)
    requires stop <= |file|
  {
    if stop == |file| then w.cut == None && !w.trailingMagic
    else if |file| - stop <= MAGIC_SIZE then
      && (w.trailingMagic <==> file[stop..] == MAGIC)
      && w.cut == (if file[stop..] == MAGIC then None else Some(Cut(stop, false)))
    else w.cut == Some(Cut(stop, true)) && !w.trailingMagic
  }

  /** The tail: too short to frame a record, and the magic or not. */
  method ReadTail(w: Walk, file: seq<Byte>, at: nat) returns (r: Walk)
    requires at <= |file| && |file| - at <= MAGIC_SIZE && w.cut == None && !w.trailingMagic
    ensures r == w.(cut := r.cut, trailingMagic := r.trailingMagic) && Ends(r, file, at)
  {
    var remaining := |file| - at;
    if remaining == 0 { return w; }
    var trailing := remaining == MAGIC_SIZE;
    for i := 0 to remaining
      invariant trailing <==> remaining == MAGIC_SIZE && forall j :: 0 <= j < i ==> file[at + j] == MAGIC[j]
    {
      if trailing && file[at + i] != MAGIC[i] { trailing := false; }
    }
    assert trailing <==> file[at..] == MAGIC by {
      if trailing { assert forall j :: 0 <= j < MAGIC_SIZE ==> file[at..][j] == MAGIC[j]; }
      if file[at..] == MAGIC { assert forall j :: 0 <= j < remaining ==> file[at + j] == file[at..][j]; }
    }
    return w.(trailingMagic := trailing, cut := if trailing then None else Some(Cut(at, false)));
  }

  /** One record at `at`: noted, and stepped over if it is whole. */
  method WalkRecord(w: Walk, file: seq<Byte>, at: nat, ghost frames: seq<Frame>) returns (r: Walk, f: Frame, complete: bool)
    requires 0 < at && at + HEADER_SIZE <= |file| < U64 && Accounts(w, frames, frames) && w.size == |file|
    requires w.cut == None && !w.trailingMagic
    ensures f == FrameAt(file, at) && (complete <==> End(f) <= |file|)
    ensures r.size == |file| && !r.trailingMagic
    ensures complete ==> Accounts(r, frames + [f], frames + [f]) && r.cut == None
    ensures !complete ==> Accounts(r, frames + [f], frames) && r.cut == Some(Cut(at, true))
  {
    LengthFits(file, at);
    var length := ReadLength(file, at + 1);
    f := Frame(file[at], at, length);
    r := Note(w, frames, f);
    OverrunIsSeen(f, w.size);
    if RunsPast(f, w.size) {
      r := r.(cut := Some(Cut(at, true)));
      complete := false;
    } else {
      r := NoteIntact(r, frames, f);
      complete := true;
    }
  }

  lemma {:induction false} IntactStep(file: seq<Byte>, at: nat, before: seq<Frame>)
    requires at + HEADER_SIZE <= |file|
    ensures End(FrameAt(file, at)) <= |file| ==>
      && before + Intact(file, at) == (before + [FrameAt(file, at)]) + Intact(file, End(FrameAt(file, at)))
      && Stop(file, at) == Stop(file, End(FrameAt(file, at)))
    ensures End(FrameAt(file, at)) > |file| ==> Intact(file, at) == [] && Stop(file, at) == at
  {
  }

  /** Walk every record from the byte after the magic. What it reports are the whole frames
      of the file, plus the one that runs past its end if there is one; how it ends is what
      is left over; and it visits each frame once, in order, saying which are whole. */
  method WalkFile(file: seq<Byte>) returns (r: Option<Walk>, visits: seq<(Frame, bool)>)
    requires |file| < U64
    ensures r.None? <==> !(MAGIC <= file)
    ensures r.Some? ==> r.value.size == |file| && visits == Visits(file, MAGIC_SIZE)
    ensures r.Some? ==> Accounts(r.value, Seen(file, MAGIC_SIZE), Intact(file, MAGIC_SIZE)) && Ends(r.value, file, Stop(file, MAGIC_SIZE))
  {
    visits := [];
    if |file| < MAGIC_SIZE || file[..MAGIC_SIZE] != MAGIC { return None, []; }
    var w := Walk(|file|, [], seq(256, _ => 0), seq(256, _ => 0), 0, 0, None, None, None, None, None, false);
    var at := MAGIC_SIZE;
    ghost var frames: seq<Frame> := [];
    while true
      invariant MAGIC_SIZE <= at <= |file| && w.size == |file| && w.cut == None && !w.trailingMagic
      invariant Accounts(w, frames, frames) && Visited(visits, frames, true)
      invariant frames + Intact(file, at) == Intact(file, MAGIC_SIZE) && Stop(file, at) == Stop(file, MAGIC_SIZE)
      decreases |file| - at
    {
      if |file| - at <= MAGIC_SIZE {
        var tail := ReadTail(w, file, at);
        WalkEnds(file, at, frames, visits);
        return Some(tail), visits;
      }
      var f, complete;
      IntactStep(file, at, frames);
      w, f, complete := WalkRecord(w, file, at, frames);
      visits := visits + [(f, complete)];
      if !complete {
        WalkBreaks(file, at, frames, visits);
        return Some(w), visits;
      }
      frames := frames + [f];
      at := End(f);
    }
  }

  /** The visits made so far: these frames, the last whole or not. */
  predicate Visited(visits: seq<(Frame, bool)>, frames: seq<Frame>, whole: bool) {
    |visits| == |frames| && forall k :: 0 <= k < |visits| ==> visits[k] == (frames[k], whole || k < |visits| - 1)
  }

  lemma {:induction false} WalkEnds(file: seq<Byte>, at: nat, frames: seq<Frame>, visits: seq<(Frame, bool)>)
    requires MAGIC_SIZE <= at <= |file| && |file| - at <= MAGIC_SIZE && Visited(visits, frames, true)
    requires frames + Intact(file, at) == Intact(file, MAGIC_SIZE) && Stop(file, at) == Stop(file, MAGIC_SIZE)
    ensures Seen(file, MAGIC_SIZE) == Intact(file, MAGIC_SIZE) == frames && Stop(file, MAGIC_SIZE) == at
    ensures visits == Visits(file, MAGIC_SIZE)
  {
  }

  lemma {:induction false} WalkBreaks(file: seq<Byte>, at: nat, frames: seq<Frame>, visits: seq<(Frame, bool)>)
    requires MAGIC_SIZE <= at && at + HEADER_SIZE <= |file| && End(FrameAt(file, at)) > |file|
    requires |visits| == |frames| + 1 && Visited(visits[..|frames|], frames, true) && visits[|frames|] == (FrameAt(file, at), false)
    requires frames + Intact(file, at) == Intact(file, MAGIC_SIZE) && Stop(file, at) == Stop(file, MAGIC_SIZE)
    ensures Intact(file, MAGIC_SIZE) == frames && Seen(file, MAGIC_SIZE) == frames + [FrameAt(file, at)] && Stop(file, MAGIC_SIZE) == at
    ensures visits == Visits(file, MAGIC_SIZE)
  {
    assert forall k :: 0 <= k < |frames| ==> visits[..|frames|][k] == visits[k];
  }

  // ---- asking the account ----

  /** The first whole record of an opcode, from two representatives and a count. */
  method FirstIntact(w: Walk, opcode: nat, ghost file: seq<Byte>) returns (f: Option<Frame>)
    requires |file| < U64 && w.size == |file| && opcode < 256 && MAGIC_SIZE <= |file|
    requires Accounts(w, Seen(file, MAGIC_SIZE), Intact(file, MAGIC_SIZE))
    ensures f == FirstOf(Intact(file, MAGIC_SIZE), opcode)
  {
    ghost var intact, seen := Intact(file, MAGIC_SIZE), Seen(file, MAGIC_SIZE);
    CountedIsFound(intact, opcode);
    if w.intactCounts[opcode] == 0 { return None; }
    FirstIntactIsFirst(file, opcode);
    RepresentativesHoldFirst(seen, opcode);
    IntactFits(file, FirstOf(intact, opcode).value);
    f := FindRepresentative(w.representatives, opcode, w.size);
  }

  method FindRepresentative(frames: seq<Frame>, opcode: nat, size: nat) returns (f: Option<Frame>)
    requires FirstOf(frames, opcode).Some? ==> !RunsPastEnd(FirstOf(frames, opcode).value, size)
    ensures f == FirstOf(frames, opcode)
  {
    for k := 0 to |frames|
      invariant FirstOf(frames[..k], opcode).None?
    {
      var g := frames[k];
      FirstOfAppended(frames[..k], g, opcode);
      assert frames[..k + 1] == frames[..k] + [g];
      if g.opcode == opcode {
        FirstOfPrefix(frames, k + 1, opcode);
        if !RunsPastEnd(g, size) { return Some(g); }
      }
    }
    assert frames[..|frames|] == frames;
    return None;
  }

  /** The account's own test of a representative, in 64-bit arithmetic. */
  predicate RunsPastEnd(f: Frame, size: nat) {
    var end := (f.offset + Total(f)) % U64;
    end < f.offset || end > size
  }

  lemma {:induction false} FirstOfPrefix(frames: seq<Frame>, n: nat, opcode: nat)
    requires n <= |frames| && FirstOf(frames[..n], opcode).Some?
    ensures FirstOf(frames, opcode) == FirstOf(frames[..n], opcode)
  {
    if n < |frames| {
      var front := frames[..|frames| - 1];
      assert front[..n] == frames[..n];
      FirstOfPrefix(front, n, opcode);
    } else {
      assert frames[..n] == frames;
    }
  }

  /** Only the last record read can be broken, so an opcode with a whole record begins with one. */
  lemma {:induction false} FirstIntactIsFirst(file: seq<Byte>, opcode: nat)
    requires CountOf(Intact(file, MAGIC_SIZE), opcode) > 0
    ensures FirstOf(Seen(file, MAGIC_SIZE), opcode) == FirstOf(Intact(file, MAGIC_SIZE), opcode)
  {
    var intact := Intact(file, MAGIC_SIZE);
    CountedIsFound(intact, opcode);
    assert intact + [] == intact;
    if Stop(file, MAGIC_SIZE) + HEADER_SIZE <= |file| {
      FirstOfAppended(intact, FrameAt(file, Stop(file, MAGIC_SIZE)), opcode);
    }
  }

  lemma {:induction false} IntactFits(file: seq<Byte>, f: Frame)
    requires MAGIC_SIZE <= |file| < U64 && f in Intact(file, MAGIC_SIZE)
    ensures !RunsPastEnd(f, |file|)
  {
    hide RunsPastEnd;
    IntactTiles(file, MAGIC_SIZE);
    var k :| 0 <= k < |Intact(file, MAGIC_SIZE)| && Intact(file, MAGIC_SIZE)[k] == f;
    FitsWithin(f, |file|);
  }

  lemma {:induction false} FitsWithin(f: Frame, size: nat)
    requires size < U64 && End(f) <= size
    ensures !RunsPastEnd(f, size)
  {
    Wraps(f.length + HEADER_SIZE);
    Wraps(f.offset + Total(f));
  }

  /** Walking a file cut anywhere past its magic reports exactly the whole records that end
      by the cut. */
  method WalkOfCut(file: seq<Byte>, cut: nat) returns (whole: Option<Walk>, short: Option<Walk>, ghost k: nat)
    requires MAGIC_SIZE <= cut <= |file| < U64 && MAGIC <= file
    ensures whole.Some? && short.Some? && k <= |Intact(file, MAGIC_SIZE)|
    ensures short.value.intactRecords == k <= whole.value.intactRecords
    ensures Accounts(short.value, Seen(file[..cut], MAGIC_SIZE), Intact(file, MAGIC_SIZE)[..k])
    ensures forall j :: 0 <= j < |Intact(file, MAGIC_SIZE)| ==> (j < k <==> End(Intact(file, MAGIC_SIZE)[j]) <= cut)
  {
    var visits;
    whole, visits := WalkFile(file);
    short, visits := WalkFile(file[..cut]);
    k := CutKeepsPrefix(file, cut, MAGIC_SIZE);
  }
}
