/** Front matter after the first state record, searched for three times over: by a loop that
    guards its arithmetic with subtraction, by a visitor on the framing walk, and by a step
    function folded over the records. */
module LateFrontMatter {
  import opened Wrappers
  import opened Registry
  import opened Framing

  datatype Site = Site(opcode: nat, offset: nat)

  function SiteOf(f: Frame): Site {
    Site(f.opcode, f.offset)
  }

  /** What a late record is refused with: itself, and the state record before it. */
  datatype Late = Late(late: Site, firstState: Site)

  /** `s` is the first state record and `l` the first front matter after it. */
  ghost predicate IsLate(frames: seq<Frame>, s: nat, l: nat) {
    && s < l < |frames|
    && IsStateOpcode(frames[s].opcode) && (forall j :: 0 <= j < s ==> !IsStateOpcode(frames[j].opcode))
    && IsFrontMatter(frames[l].opcode) && (forall j :: s < j < l ==> !IsFrontMatter(frames[j].opcode))
  }

  /** The answer every search must give. */
  ghost predicate Answers(frames: seq<Frame>, r: Option<Late>) {
    match r
    case Some(late) => exists s: nat, l: nat :: IsLate(frames, s, l) && late == Late(SiteOf(frames[l]), SiteOf(frames[s]))
    case None => forall s: nat, l: nat :: !IsLate(frames, s, l)
  }

  /** There is only one answer. */
  lemma {:induction false} OneAnswer(frames: seq<Frame>, r: Option<Late>, q: Option<Late>)
    requires Answers(frames, r) && Answers(frames, q)
    ensures r == q
  {
    if r.Some? && q.Some? {
      var s: nat, l: nat :| IsLate(frames, s, l) && r.value == Late(SiteOf(frames[l]), SiteOf(frames[s]));
      var t: nat, m: nat :| IsLate(frames, t, m) && q.value == Late(SiteOf(frames[m]), SiteOf(frames[t]));
      assert s == t;
    }
  }

  // ---- what a search knows part of the way ----

  /** No late record yet among the first `n`; `state` is the first state record among them. */
  ghost predicate NoneYet(frames: seq<Frame>, n: nat, state: Option<Site>)
    requires n <= |frames|
  {
    && (state.None? ==> forall j :: 0 <= j < n ==> !IsStateOpcode(frames[j].opcode))
    && (state.Some? ==> exists s: nat :: HasState(frames, n, s) && state.value == SiteOf(frames[s]))
  }

  /** The first state record is at `s`, and no front matter follows it before `n`. */
  ghost predicate HasState(frames: seq<Frame>, n: nat, s: nat)
    requires n <= |frames|
  {
    && s < n && IsStateOpcode(frames[s].opcode) && (forall j :: 0 <= j < s ==> !IsStateOpcode(frames[j].opcode))
    && forall j :: s < j < n ==> !IsFrontMatter(frames[j].opcode)
  }

  lemma {:induction false} NoneAtAll(frames: seq<Frame>, state: Option<Site>)
    requires NoneYet(frames, |frames|, state)
    ensures Answers(frames, None)
  {
    if state.Some? {
      var s: nat :| HasState(frames, |frames|, s);
      assert forall t: nat, l: nat :: IsLate(frames, t, l) ==> t == s;
    }
  }

  /** The step function's own step, on one record. */
  function Place(opcode: nat, offset: nat, first: Option<Site>): Result<Option<Site>, Late> {
    if first.Some? && IsFrontMatter(opcode) then Failure(Late(Site(opcode, offset), first.value))
    else if first.None? && IsStateOpcode(opcode) then Success(Some(Site(opcode, offset)))
    else Success(first)
  }

  lemma {:induction false} PlaceOne(frames: seq<Frame>, n: nat, state: Option<Site>)
    requires n < |frames| && NoneYet(frames, n, state)
    ensures var r := Place(frames[n].opcode, frames[n].offset, state);
      && (r.Success? ==> NoneYet(frames, n + 1, r.value))
      && (r.Failure? ==> Answers(frames, Some(r.error)))
  {
    var r := Place(frames[n].opcode, frames[n].offset, state);
    if state.Some? {
      var s: nat :| HasState(frames, n, s) && state.value == SiteOf(frames[s]);
      if r.Failure? {
        assert IsLate(frames, s, n);
      } else {
        assert HasState(frames, n + 1, s);
      }
    } else if r.value.Some? {
      assert HasState(frames, n + 1, n);
    }
  }

  // ---- the searches ----

  /** The step function folded over physical records, as each streamed reader folds it: the
      first refusal, if there is one. */
  method FoldPlacement(frames: seq<Frame>) returns (r: Option<Late>)
    ensures Answers(frames, r)
  {
    var first: Option<Site> := None;
    for n := 0 to |frames|
      invariant NoneYet(frames, n, first)
    {
      PlaceOne(frames, n, first);
      var placed := Place(frames[n].opcode, frames[n].offset, first);
      if placed.Failure? { return Some(placed.error); }
      first := placed.value;
    }
    NoneAtAll(frames, first);
    return None;
  }

  /** The scene's loop: bytes remaining are compared, so nothing can wrap. */
  method LocateLate(file: seq<Byte>) returns (r: Option<Late>)
    requires MAGIC_SIZE <= |file| < U64
    ensures Answers(Intact(file, MAGIC_SIZE), r)
  {
    ghost var frames, n := Intact(file, MAGIC_SIZE), 0;
    var state: Option<Site> := None;
    var at := MAGIC_SIZE;
    while at <= |file| && |file| - at >= HEADER_SIZE
      invariant MAGIC_SIZE <= at <= |file| && n <= |frames| && NoneYet(frames, n, state)
      invariant frames[n..] == Intact(file, at)
      decreases |file| - at
    {
      var length := ReadLength(file, at + 1);
      if length > |file| - at - HEADER_SIZE {
        NoneAtAll(frames, state);
        return None;
      }
      assert frames[n] == FrameAt(file, at) && frames[n + 1..] == Intact(file, at + HEADER_SIZE + length);
      PlaceOne(frames, n, state);
      var opcode := file[at];
      if state.Some? && IsFrontMatter(opcode) { return Some(Late(Site(opcode, at), state.value)); }
      if state.None? && IsStateOpcode(opcode) { state := Some(Site(opcode, at)); }
      at, n := at + HEADER_SIZE + length, n + 1;
    }
    NoneAtAll(frames, state);
    return None;
  }

  /** The validator's visitor: two optional frames, set at most once each. */
  datatype Visitor = Visitor(firstState: Option<Frame>, late: Option<Frame>)

  function Visit(v: Visitor, f: Frame, complete: bool): Visitor {
    if !complete then v
    else
      var state := if IsStateOpcode(f.opcode) && v.firstState.None? then Some(f) else v.firstState;
      var late := if state.Some? && v.late.None? && IsFrontMatter(f.opcode) then Some(f) else v.late;
      Visitor(state, late)
  }

  function Found(v: Visitor): Option<Late> {
    if v.firstState.Some? && v.late.Some? then Some(Late(SiteOf(v.late.value), SiteOf(v.firstState.value))) else None
  }

  /** What the visitor holds after the first `n` whole records. */
  ghost predicate VisitorKnows(frames: seq<Frame>, n: nat, v: Visitor)
    requires n <= |frames|
  {
    if v.late.Some? then v.firstState.Some? && Answers(frames, Found(v))
    else NoneYet(frames, n, if v.firstState.Some? then Some(SiteOf(v.firstState.value)) else None)
  }

  lemma {:induction false} VisitOne(frames: seq<Frame>, n: nat, v: Visitor)
    requires n < |frames| && VisitorKnows(frames, n, v)
    ensures VisitorKnows(frames, n + 1, Visit(v, frames[n], true))
  {
    if v.late.None? {
      PlaceOne(frames, n, if v.firstState.Some? then Some(SiteOf(v.firstState.value)) else None);
      DisjointClasses(frames[n].opcode);
    }
  }

  lemma {:induction false} DisjointClasses(opcode: nat)
    ensures !(IsStateOpcode(opcode) && IsFrontMatter(opcode))
  {
  }

  /** The visitor on the walk. A broken last record is visited, and ignored. */
  method VisitWalk(file: seq<Byte>) returns (r: Option<Late>)
    requires MAGIC <= file && |file| < U64
    ensures Answers(Intact(file, MAGIC_SIZE), r)
  {
    var w, visits := WalkFile(file);
    ghost var frames := Intact(file, MAGIC_SIZE);
    var v := Visitor(None, None);
    for n := 0 to |visits|
      invariant n <= |frames| ==> VisitorKnows(frames, n, v)
      invariant n > |frames| ==> VisitorKnows(frames, |frames|, v)
    {
      if n < |frames| { VisitOne(frames, n, v); }
      v := Visit(v, visits[n].0, visits[n].1);
    }
    if v.late.None? { NoneAtAll(frames, if v.firstState.Some? then Some(SiteOf(v.firstState.value)) else None); }
    return Found(v);
  }

  /** All three, on every file that opens with the magic, name the same pair. */
  method SearchesAgree(file: seq<Byte>) returns (scene: Option<Late>, walk: Option<Late>, fold: Option<Late>)
    requires MAGIC <= file && |file| < U64
    ensures scene == walk == fold
    ensures Answers(Intact(file, MAGIC_SIZE), scene)
  {
    scene := LocateLate(file);
    walk := VisitWalk(file);
    fold := FoldPlacement(Intact(file, MAGIC_SIZE));
    OneAnswer(Intact(file, MAGIC_SIZE), scene, walk);
    OneAnswer(Intact(file, MAGIC_SIZE), scene, fold);
  }
}
