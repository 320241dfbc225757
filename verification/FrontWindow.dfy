/** The indexed reader's sliding window over the front of a resource: a cache that answers
    every request as a direct read would, however records and contents interleave. */
module FrontWindow {
  import opened Wrappers
  import opened Framing

  /** One read of the resource, and how many bytes the request behind it asked for. */
  datatype ReadLog = ReadLog(at: nat, length: nat, asked: nat)

  function Larger(a: nat, b: nat): nat {
    if a < b then b else a
  }

  function Smaller(a: nat, b: nat): nat {
    if a < b then a else b
  }

  // ---- what the resource itself would answer ----

  /** Content bytes of a record, no more than the limit and no more than the resource holds. */
  function ContentLength(size: nat, f: Frame, limit: Option<nat>): (n: nat)
    requires f.offset + HEADER_SIZE <= size
    ensures f.offset + HEADER_SIZE + n <= size
  {
    var length := Smaller(f.length, size - (f.offset + HEADER_SIZE));
    if limit.Some? then Smaller(length, limit.value) else length
  }

  function ContentOf(source: seq<Byte>, f: Frame, limit: Option<nat>): seq<Byte>
    requires f.offset + HEADER_SIZE <= |source|
  {
    source[f.offset + HEADER_SIZE..f.offset + HEADER_SIZE + ContentLength(|source|, f, limit)]
  }

  /** A record's own bytes, from its ninth on: all of them, or as many as the limit or the
      resource allows. */
  lemma {:induction false} ContentExactly(source: seq<Byte>, f: Frame, limit: Option<nat>)
    requires f.offset + 9 <= |source|
    ensures var content := ContentOf(source, f, limit);
      && content == source[f.offset + 9..f.offset + 9 + |content|]
      && |content| <= f.length && (limit.Some? ==> |content| <= limit.value)
      && (|content| == f.length || f.offset + 9 + |content| == |source| || limit == Some(|content|))
  {
  }

  datatype Request = Advance | Content(record: nat, limit: Option<nat>)

  datatype Answer = Record(frame: Frame) | Exhausted | SpansOutside | Bytes(bytes: seq<Byte>) | NoSuchRecord

  /** Where the walk over records stands, and what it has handed out. */
  datatype Cursor = Cursor(at: nat, open: bool, yielded: seq<Frame>)

  ghost predicate ValidCursor(source: seq<Byte>, c: Cursor) {
    forall k :: 0 <= k < |c.yielded| ==> End(c.yielded[k]) <= |source|
  }

  /** The answer a direct read of the resource gives. */
  function Direct(source: seq<Byte>, c: Cursor, q: Request): (Cursor, Answer)
    requires forall k :: 0 <= k < |c.yielded| ==> End(c.yielded[k]) <= |source|
  {
    match q
    case Advance =>
      if !c.open || c.at + HEADER_SIZE > |source| then (c.(open := false), Exhausted)
      else
        var f := FrameAt(source, c.at);
        if End(f) > |source| then (c.(open := false), SpansOutside)
        else (Cursor(End(f), true, c.yielded + [f]), Record(f))
    case Content(k, limit) =>
      if k >= |c.yielded| then (c, NoSuchRecord)
      else
        assert End(c.yielded[k]) <= |source|;
        (c, Bytes(ContentOf(source, c.yielded[k], limit)))
  }

  /** The answers to a whole script of requests. */
  function Script(source: seq<Byte>, c: Cursor, script: seq<Request>, n: nat): (Cursor, seq<Answer>)
    requires n <= |script| && forall k :: 0 <= k < |c.yielded| ==> End(c.yielded[k]) <= |source|
    ensures ValidCursor(source, Script(source, c, script, n).0)
  {
    if n == 0 then (c, [])
    else
      var (now, answers) := Script(source, c, script, n - 1);
      var (next, answer) := Direct(source, now, script[n - 1]);
      (next, answers + [answer])
  }

  /** Whatever else is asked, stepping hands out the whole frames from the start on, in
      order, and stops after the last of them. */
  lemma {:induction false} StepsAreFrames(source: seq<Byte>, start: nat, script: seq<Request>, n: nat)
    requires n <= |script|
    ensures var c := Script(source, Cursor(start, true, []), script, n).0;
      if c.open then c.yielded + Intact(source, c.at) == Intact(source, start) else c.yielded == Intact(source, start)
  {
    if n > 0 {
      StepsAreFrames(source, start, script, n - 1);
      StepIsFrame(source, start, Script(source, Cursor(start, true, []), script, n - 1).0, script[n - 1]);
    }
  }

  lemma {:induction false} StepIsFrame(source: seq<Byte>, start: nat, c: Cursor, q: Request)
    requires ValidCursor(source, c)
    requires if c.open then c.yielded + Intact(source, c.at) == Intact(source, start) else c.yielded == Intact(source, start)
    ensures var next := Direct(source, c, q).0;
      if next.open then next.yielded + Intact(source, next.at) == Intact(source, start) else next.yielded == Intact(source, start)
  {
    if q.Advance? && c.open && c.at + 9 <= |source| && End(FrameAt(source, c.at)) <= |source| {
      var f := FrameAt(source, c.at);
      assert c.yielded + ([f] + Intact(source, End(f))) == (c.yielded + [f]) + Intact(source, End(f));
    }
  }

  /** The bytes an answer could not be given without. */
  function Needed(answer: Answer): nat {
    if answer.Bytes? then |answer.bytes| else HEADER_SIZE
  }

  lemma {:induction false} CopiedHeader(source: seq<Byte>, window: seq<Byte>, from: nat, at: nat)
    requires from <= at && at + HEADER_SIZE <= from + |window| <= |source| && window == source[from..from + |window|]
    ensures window[at - from] == source[at]
    ensures LittleEndian(window, at - from + 1, 8) == LittleEndian(source, at + 1, 8)
  {
    CopiedBytes(source, window, from, at + 1, 8);
  }

  lemma {:induction false} CopiedBytes(source: seq<Byte>, window: seq<Byte>, from: nat, at: nat, n: nat)
    requires from <= at && at + n <= from + |window| <= |source| && window == source[from..from + |window|]
    ensures LittleEndian(window, at - from, n) == LittleEndian(source, at, n)
    decreases n
  {
    if n > 0 { CopiedBytes(source, window, from, at + 1, n - 1); }
  }

  lemma {:induction false} SliceOfSlice(source: seq<Byte>, from: nat, end: nat, lo: nat, hi: nat)
    requires from <= lo <= hi <= end <= |source|
    ensures source[from..end][lo - from..hi - from] == source[lo..hi]
  {
    var window := source[from..end];
    assert forall k :: 0 <= k < |window| ==> window[k] == source[from + k];
    var x, y := window[lo - from..hi - from], source[lo..hi];
    assert forall k :: 0 <= k < |y| ==> x[k] == y[k];
  }

  class FrontMatter {
    const source: seq<Byte>
    const probe: nat
    var window: seq<Byte>
    var windowAt: nat
    ghost var served: seq<ReadLog>

    /** The window is the resource's own bytes, and no read took more than it might. */
    ghost predicate Valid()
      reads this
    {
      && windowAt + |window| <= |source| && window == source[windowAt..windowAt + |window|]
      && forall k :: 0 <= k < |served| ==>
           served[k].at + served[k].length <= |source| && served[k].length <= Larger(probe, served[k].asked)
    }

    constructor (source: seq<Byte>, probe: nat)
      ensures Valid() && this.source == source && this.probe == probe && served == []
    {
      this.source, this.probe := source, probe;
      window, windowAt, served := [], 0, [];
    }

    /** Read exactly these bytes of the resource. */
    method ReadSource(at: nat, length: nat, asked: nat) returns (bytes: seq<Byte>)
      requires Valid() && at + length <= |source| && length <= Larger(probe, asked)
      modifies this`served
      ensures Valid() && bytes == source[at..at + length] && served == old(served) + [ReadLog(at, length, asked)]
    {
      bytes := source[at..at + length];
      served := served + [ReadLog(at, length, asked)];
    }

    predicate Covers(at: nat, length: nat)
      reads this
    {
      at >= windowAt && at + length <= windowAt + |window|
    }

    /** Slide the window to cover a range, reading at least a probe's worth when it must. */
    method Ensure(at: nat, length: nat) returns (ok: bool)
      requires Valid()
      modifies this
      ensures Valid()
      ensures ok <==> old(Covers(at, length)) || at + length <= |source|
      ensures ok ==> Covers(at, length)
      ensures served == old(served) || (|served| == |old(served)| + 1 && old(served) <= served && served[|served| - 1].asked == length)
      ensures old(Covers(at, length)) || !ok ==> served == old(served) && window == old(window) && windowAt == old(windowAt)
      ensures ok && !old(Covers(at, length)) ==>
        && windowAt == at && (|window| == length || |window| <= probe)
        && (|window| >= probe || at + |window| == |source|)
    {
      if Covers(at, length) { return true; }
      if at + length > |source| { return false; }
      var want := Smaller(Larger(probe, length), |source| - at);
      window := ReadSource(at, want, length);
      windowAt := at;
      return true;
    }

    /** The first bytes of the resource. */
    method Head(length: nat) returns (bytes: seq<Byte>)
      requires Valid()
      modifies this
      ensures Valid() && bytes == source[..Smaller(length, |source|)]
    {
      var want := Smaller(length, |source|);
      var ok := Ensure(0, want);
      bytes := window[..want];
    }

    /** One step of the walk over records. */
    method NextRecord(c: Cursor) returns (next: Cursor, answer: Answer)
      requires Valid() && ValidCursor(source, c)
      modifies this
      ensures Valid() && (next, answer) == Direct(source, c, Advance)
      ensures old(served) <= served && |served| <= |old(served)| + 1
      ensures forall k :: |old(served)| <= k < |served| ==> served[k].asked == HEADER_SIZE
    {
      if !c.open || c.at + HEADER_SIZE > |source| { return c.(open := false), Exhausted; }
      var ok := Ensure(c.at, HEADER_SIZE);
      CopiedHeader(source, window, windowAt, c.at);
      var length := ReadLength(window, c.at - windowAt + 1);
      var f := Frame(window[c.at - windowAt], c.at, length);
      if End(f) > |source| { return c.(open := false), SpansOutside; }
      return Cursor(End(f), true, c.yielded + [f]), Record(f);
    }

    /** One record's content: from the window, by sliding it, or by a read of exactly that
        much when it is larger than a probe. */
    method ReadContent(f: Frame, limit: Option<nat>) returns (bytes: seq<Byte>)
      requires Valid() && f.offset + HEADER_SIZE <= |source|
      modifies this
      ensures Valid() && bytes == ContentOf(source, f, limit)
      ensures old(served) <= served && |served| <= |old(served)| + 1
      ensures forall k :: |old(served)| <= k < |served| ==> served[k].asked == |bytes|
    {
      hide ContentLength, Smaller;
      var at := f.offset + HEADER_SIZE;
      var length := ContentLength(|source|, f, limit);
      if !Covers(at, length) && length > probe {
        bytes := ReadSource(at, length, length);
        return;
      }
      var ok := Ensure(at, length);
      bytes := window[at - windowAt..at - windowAt + length];
      SliceOfSlice(source, windowAt, windowAt + |window|, at, at + length);
    }

    /** One request of a script. */
    method Serve(c: Cursor, q: Request) returns (next: Cursor, answer: Answer)
      requires Valid() && ValidCursor(source, c)
      modifies this
      ensures Valid() && (next, answer) == Direct(source, c, q)
      ensures old(served) <= served && |served| <= |old(served)| + 1
      ensures forall k :: |old(served)| <= k < |served| ==> served[k].asked == Needed(answer)
    {
      match q {
        case Advance => next, answer := NextRecord(c);
        case Content(k, limit) =>
          if k >= |c.yielded| { return c, NoSuchRecord; }
          var bytes := ReadContent(c.yielded[k], limit);
          return c, Bytes(bytes);
      }
    }
  }

  /** At most one read of the resource serves a request, and it is no larger than the probe
      or the bytes that request itself needed. */
  ghost predicate Modest(source: seq<Byte>, probe: nat, answer: Answer, logs: seq<ReadLog>) {
    && |logs| <= 1
    && forall k :: 0 <= k < |logs| ==> logs[k].at + logs[k].length <= |source| && logs[k].length <= Larger(probe, Needed(answer))
  }

  /** However a caller interleaves stepping through records and asking for contents, the
      window answers exactly as the resource would, request by request, and reads modestly
      for each of them. `served[n]` is what request `n` read. */
  method PlayScript(source: seq<Byte>, probe: nat, start: nat, script: seq<Request>)
    returns (answers: seq<Answer>, ghost served: seq<seq<ReadLog>>)
    ensures answers == Script(source, Cursor(start, true, []), script, |script|).1
    ensures |answers| == |served| == |script|
    ensures forall n :: 0 <= n < |script| ==> Modest(source, probe, answers[n], served[n])
  {
    var front := new FrontMatter(source, probe);
    var c := Cursor(start, true, []);
    answers, served := [], [];
    for n := 0 to |script|
      invariant fresh(front) && front.Valid() && front.source == source && front.probe == probe
      invariant (c, answers) == Script(source, Cursor(start, true, []), script, n) && ValidCursor(source, c)
      invariant |answers| == |served| == n && forall k :: 0 <= k < n ==> Modest(source, probe, answers[k], served[k])
    {
      ghost var before := front.served;
      var answer;
      c, answer := front.Serve(c, script[n]);
      answers := answers + [answer];
      served := served + [front.served[|before|..]];
    }
  }
}
