/** Quantized trajectories. A position bin and a birth-time bin are one coupled anchor of a
    straight line; restating the line at another instant rounds its rest position once. */
module Trajectories {
  import opened Registry
  import opened Populations
  import opened Rounding
  import opened Records
  import Times

  /** The grids of one sequence: a shared position grid, and per-gaussian pitches derived
      from the attributes that are fixed within a group of pictures. */
  datatype Grids = Grids(stepPos: real, origin: seq<real>, muStep: MuGrid, motionStep: (int, bool, int) -> real)

  ghost predicate ValidGrids(g: Grids) {
    g.stepPos > 0.0 && |g.origin| == 3 && forall sigma, neverFades :: g.muStep(sigma, neverFades) > 0.0
  }

  /** What places one gaussian: three position bins, three velocity bins, its temporal
      origin, and the attributes its pitches derive from. */
  datatype Trajectory = Trajectory(position: Row, motion: Row, mu: int, sigma: int, flags: int, window: int)

  predicate Whole(p: Trajectory) {
    |p.position| == 3 && |p.motion| == 3
  }

  function NeverFades(flags: int): bool {
    flags % 2 != 0
  }

  function MuPitch(g: Grids, p: Trajectory): real {
    g.muStep(p.sigma, NeverFades(p.flags))
  }

  function MotionPitch(g: Grids, p: Trajectory): real {
    g.motionStep(p.sigma, NeverFades(p.flags), p.window)
  }

  function Dequantize(n: int, step: real, origin: real): real {
    n as real * step + origin
  }

  /** The instant a trajectory is stated at. */
  function StatedAt(g: Grids, p: Trajectory): real {
    Dequantize(p.mu, MuPitch(g, p), 0.0)
  }

  function Rest(g: Grids, p: Trajectory, c: nat): real
    requires |g.origin| == 3 && Whole(p) && c < 3
  {
    Dequantize(p.position[c], g.stepPos, g.origin[c])
  }

  function Velocity(g: Grids, p: Trajectory, c: nat): real
    requires Whole(p) && c < 3
  {
    Dequantize(p.motion[c], MotionPitch(g, p), 0.0)
  }

  /** Coordinate `c` of the centre at time `t`. */
  function Centre(g: Grids, p: Trajectory, c: nat, t: real): real
    requires |g.origin| == 3 && Whole(p) && c < 3
  {
    Rest(g, p, c) + Velocity(g, p, c) * (t - StatedAt(g, p))
  }

  /** A trajectory is a straight line: through its position bin at its birth-time bin, with
      its velocity bin. */
  lemma {:induction false} CentreIsLine(g: Grids, p: Trajectory, c: nat, t: real)
    requires |g.origin| == 3 && Whole(p) && c < 3
    ensures var muStep, motionStep := g.muStep(p.sigma, p.flags % 2 == 1), g.motionStep(p.sigma, p.flags % 2 == 1, p.window);
      Centre(g, p, c, t) == g.origin[c] + p.position[c] as real * g.stepPos + p.motion[c] as real * motionStep * (t - p.mu as real * muStep)
  {
  }

  function Quantize(x: real, step: real, origin: real): int
    requires step > 0.0
  {
    Rint((x - origin) / step)
  }

  lemma {:induction false} QuantizedIsNear(x: real, step: real, origin: real, y: real)
    requires step > 0.0 && y == Dequantize(Quantize(x, step, origin), step, origin)
    ensures -step / 2.0 <= y - x <= step / 2.0
  {
    var q := (x - origin) / step;
    var n := Quantize(x, step, origin) as real;
    assert n == Rint(q) as real;
    NearOnGrid(n, q, step, origin, x);
  }

  lemma {:induction false} NearOnGrid(n: real, y: real, step: real, origin: real, x: real)
    requires step > 0.0 && y == (x - origin) / step && -0.5 <= n - y <= 0.5
    ensures -step / 2.0 <= n * step + origin - x <= step / 2.0
  {
    HalfAtMost(n - y, step);
    assert y * step == x - origin;
    assert (n - y) * step == n * step - y * step;
  }

  lemma {:induction false} HalfAtMost(e: real, step: real)
    requires step > 0.0 && -0.5 <= e <= 0.5
    ensures -step / 2.0 <= e * step <= step / 2.0
  {
    assert (e + 0.5) * step >= 0.0 && (0.5 - e) * step >= 0.0;
  }

  lemma {:induction false} QuantizeOfGridPoint(n: int, step: real, origin: real, x: real)
    requires step > 0.0 && x == Dequantize(n, step, origin)
    ensures Quantize(x, step, origin) == n
  {
    assert (n as real * step) / step == n as real;
    RintOfInt(n);
  }

  /** The birth-time bin nearest `t0` on this gaussian's own grid. */
  function Anchor(g: Grids, p: Trajectory, t0: real): int
    requires ValidGrids(g)
  {
    Rint(t0 / MuPitch(g, p))
  }

  /** The position bin of coordinate `c` when the trajectory is stated at birth-time bin `mu`. */
  function RestBin(g: Grids, p: Trajectory, mu: int, c: nat): int
    requires ValidGrids(g) && Whole(p) && c < 3
  {
    Quantize(Centre(g, p, c, StatedAt(g, p.(mu := mu))), g.stepPos, g.origin[c])
  }

  lemma {:induction false} RestBinSettles(g: Grids, p: Trajectory, c: nat)
    requires ValidGrids(g) && Whole(p) && c < 3
    ensures RestBin(g, p, p.mu, c) == p.position[c]
  {
    calc {
      RestBin(g, p, p.mu, c);
      { assert p.(mu := p.mu) == p; }
      Quantize(Centre(g, p, c, StatedAt(g, p)), g.stepPos, g.origin[c]);
      { CentreWhenStated(g, p, c); }
      Quantize(Rest(g, p, c), g.stepPos, g.origin[c]);
      { QuantizeOfGridPoint(p.position[c], g.stepPos, g.origin[c], Rest(g, p, c)); }
      p.position[c];
    }
  }

  /** The trajectory restated at `t0`, without moving its centre more than rounding must. */
  function Rebased(g: Grids, p: Trajectory, t0: real): (r: Trajectory)
    requires ValidGrids(g) && Whole(p)
    ensures Whole(r) && r == p.(position := r.position, mu := Anchor(g, p, t0))
  {
    var mu := Anchor(g, p, t0);
    p.(position := [RestBin(g, p, mu, 0), RestBin(g, p, mu, 1), RestBin(g, p, mu, 2)], mu := mu)
  }

  /** Restating a trajectory moves its centre by at most half a position step, by the same
      amount at every instant however far away. */
  lemma {:induction false} RebaseMovesLittle(g: Grids, p: Trajectory, t0: real, c: nat, t: real)
    requires ValidGrids(g) && Whole(p) && c < 3
    ensures -g.stepPos / 2.0 <= Centre(g, Rebased(g, p, t0), c, t) - Centre(g, p, c, t) <= g.stepPos / 2.0
    ensures Centre(g, Rebased(g, p, t0), c, t) - Centre(g, p, c, t) == Centre(g, Rebased(g, p, t0), c, 0.0) - Centre(g, p, c, 0.0)
  {
    var r := Rebased(g, p, t0);
    RestIsNear(g, p, t0, c);
    CentreWhenStated(g, r, c);
    SameLine(g, p, r, c, StatedAt(g, r), t);
    SameLine(g, p, r, c, StatedAt(g, r), 0.0);
  }

  lemma {:induction false} RebasedRest(g: Grids, p: Trajectory, t0: real, c: nat)
    requires ValidGrids(g) && Whole(p) && c < 3
    ensures var r := Rebased(g, p, t0);
      r.position[c] == Quantize(Centre(g, p, c, StatedAt(g, r)), g.stepPos, g.origin[c])
  {
    var r := Rebased(g, p, t0);
    assert MuPitch(g, p.(mu := r.mu)) == MuPitch(g, r);
    assert r.position[c] == RestBin(g, p, r.mu, c);
  }

  lemma {:induction false} RestIsNear(g: Grids, p: Trajectory, t0: real, c: nat)
    requires ValidGrids(g) && Whole(p) && c < 3
    ensures var r := Rebased(g, p, t0);
      -g.stepPos / 2.0 <= Rest(g, r, c) - Centre(g, p, c, StatedAt(g, r)) <= g.stepPos / 2.0
  {
    var r := Rebased(g, p, t0);
    RebasedRest(g, p, t0, c);
    QuantizedIsNear(Centre(g, p, c, StatedAt(g, r)), g.stepPos, g.origin[c], Rest(g, r, c));
  }

  /** What restating does, bin by bin: the birth-time bin becomes the one nearest the
      instant, the position bins move by what the velocity covers in between, rounded to the
      nearest step, and nothing else changes. */
  lemma {:induction false} RestatedBins(g: Grids, p: Trajectory, t0: real, c: nat)
    requires ValidGrids(g) && Whole(p) && c < 3
    ensures var r, pitch, speed := Rebased(g, p, t0), g.muStep(p.sigma, p.flags % 2 != 0), g.motionStep(p.sigma, p.flags % 2 != 0, p.window);
      && r.mu == Rint(t0 / pitch) && r == p.(position := r.position, mu := r.mu)
      && var travelled := p.motion[c] as real * speed * ((r.mu - p.mu) as real * pitch);
         -g.stepPos / 2.0 <= (r.position[c] - p.position[c]) as real * g.stepPos - travelled <= g.stepPos / 2.0
  {
    hide Rest, Centre, StatedAt;
    RestIsNear(g, p, t0, c);
    LeftBehind(g, p, Rebased(g, p, t0), c);
  }

  /** How far a rest position is from where another statement of the same motion has its
      centre, in bins. */
  lemma {:induction false} LeftBehind(g: Grids, p: Trajectory, r: Trajectory, c: nat)
    requires |g.origin| == 3 && Whole(p) && Whole(r) && r == p.(position := r.position, mu := r.mu) && c < 3
    ensures Rest(g, r, c) - Centre(g, p, c, StatedAt(g, r)) ==
      (r.position[c] - p.position[c]) as real * g.stepPos
      - p.motion[c] as real * g.motionStep(p.sigma, p.flags % 2 != 0, p.window) * ((r.mu - p.mu) as real * g.muStep(p.sigma, p.flags % 2 != 0))
  {
    Travels(r.position[c] as real, p.position[c] as real, g.stepPos, g.origin[c], p.motion[c] as real,
            g.motionStep(p.sigma, p.flags % 2 != 0, p.window), r.mu as real, p.mu as real, g.muStep(p.sigma, p.flags % 2 != 0));
  }

  lemma {:induction false} Travels(x: real, y: real, step: real, origin: real, motion: real, speed: real, s: real, t: real, pitch: real)
    ensures (x - y) * step - motion * speed * ((s - t) * pitch)
         == (x * step + origin) - (y * step + origin + (motion * speed + 0.0) * ((s * pitch + 0.0) - (t * pitch + 0.0)))
  {
  }

  lemma {:induction false} CentreWhenStated(g: Grids, p: Trajectory, c: nat)
    requires |g.origin| == 3 && Whole(p) && c < 3
    ensures Centre(g, p, c, StatedAt(g, p)) == Rest(g, p, c)
  {
  }

  /** Two statements of one velocity keep their distance. */
  lemma {:induction false} SameLine(g: Grids, p: Trajectory, r: Trajectory, c: nat, s: real, t: real)
    requires |g.origin| == 3 && Whole(p) && Whole(r) && c < 3 && Velocity(g, r, c) == Velocity(g, p, c)
    ensures Centre(g, r, c, t) - Centre(g, p, c, t) == Centre(g, r, c, s) - Centre(g, p, c, s)
  {
    var v := Velocity(g, p, c);
    var a, b := StatedAt(g, r), StatedAt(g, p);
    assert v * (t - a) - v * (t - b) == v * (b - a) == v * (s - a) - v * (s - b);
  }

  /** Restating changes nothing exactly when the birth-time bin is already the instant's. */
  lemma {:induction false} RebaseFixes(g: Grids, p: Trajectory, t0: real)
    requires ValidGrids(g) && Whole(p)
    ensures Rebased(g, p, t0) == p <==> Anchor(g, p, t0) == p.mu
  {
    RestBinSettles(g, p, 0);
    RestBinSettles(g, p, 1);
    RestBinSettles(g, p, 2);
  }

  // ---- tables ----

  /** A table of complete rows: every required column and no other. */
  predicate Complete(t: Table) {
    t.bins.Keys == REQUIRED && Shaped(t) && Tall(t)
  }

  function TrajectoryOf(t: Table, k: nat): (p: Trajectory)
    requires Complete(t) && k < |t.ids|
    ensures Whole(p)
  {
    Trajectory(t.bins[POSITION][k], t.bins[MOTION][k], t.bins[MU_T][k][0], t.bins[SIGMA_T][k][0], t.bins[FLAGS][k][0], t.bins[WINDOW_INDEX][k][0])
  }

  /** Every trajectory of a table restated at `t0`; an empty table is returned as it is. */
  function Reanchor(g: Grids, t: Table, t0: real): (r: Table)
    requires ValidGrids(g) && Complete(t)
    ensures r.ids == t.ids && Complete(r)
  {
    if t.ids == [] then t
    else
      var rebased := seq(|t.ids|, k requires 0 <= k < |t.ids| => Rebased(g, TrajectoryOf(t, k), t0));
      Table(t.ids,
        t.bins[POSITION := seq(|t.ids|, k requires 0 <= k < |t.ids| => rebased[k].position)]
              [MU_T := seq(|t.ids|, k requires 0 <= k < |t.ids| => [rebased[k].mu])])
  }

  lemma {:induction false} ReanchoredRow(g: Grids, t: Table, t0: real, k: nat)
    requires ValidGrids(g) && Complete(t) && k < |t.ids|
    ensures TrajectoryOf(Reanchor(g, t, t0), k) == Rebased(g, TrajectoryOf(t, k), t0)
    ensures forall a :: a in REQUIRED && a != POSITION && a != MU_T ==> Reanchor(g, t, t0).bins[a] == t.bins[a]
  {
  }

  /** Every row's birth-time bin when the whole table is stated at `t0`, on the row's own pitch. */
  function KeyframeMu(g: Grids, t: Table, t0: real): seq<Row>
    requires ValidGrids(g) && Complete(t)
  {
    seq(|t.ids|, k requires 0 <= k < |t.ids| => [Anchor(g, TrajectoryOf(t, k), t0)])
  }

  /** Restating a keyframe's birth times is redundant after its trajectories were restated,
      and what results states the chunk's own instant, as a reader will check. */
  lemma {:induction false} KeyframeMuIsReanchored(g: Grids, t: Table, t0: real)
    requires ValidGrids(g) && Complete(t)
    ensures Reanchor(g, t, t0).bins[MU_T] == KeyframeMu(g, Reanchor(g, t, t0), t0)
    ensures StatesInstant(g.muStep, Times.Finite(t0), Reanchor(g, t, t0))
  {
    var r := Reanchor(g, t, t0);
    forall k | 0 <= k < |t.ids|
      ensures r.bins[MU_T][k] == [Anchor(g, TrajectoryOf(r, k), t0)]
      ensures RowStatesInstant(g.muStep, t0, r, k)
    {
      ReanchoredRow(g, t, t0, k);
    }
  }
}
