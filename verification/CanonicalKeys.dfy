/** What the canonical order decides on, field by field: where two rows of one scene first
    differ, in rounded value, in harmonics, in membership, and last in exact value. */
module CanonicalKeys {
  import opened CanonicalOrder

  /** A number, signed zeros included. */
  predicate IsNumber(f: Float) {
    f.Finite? || f.NegZero?
  }

  function Number(f: Float): real
    requires IsNumber(f)
  {
    if f.Finite? then f.value else 0.0
  }

  /** A rounds below b: minus infinity is below everything else, infinity and NaN are alike
      and above everything else, and numbers go by their roundings. */
  predicate RoundsBelow(round: real -> real, a: Float, b: Float) {
    if a.NegInf? || b.NegInf? then a.NegInf? && !b.NegInf?
    else if IsNumber(a) && IsNumber(b) then round(Number(a)) < round(Number(b))
    else IsNumber(a) && !IsNumber(b)
  }

  /** A is exactly below b: as above without rounding, and NaN is above infinity. */
  predicate IsBelow(a: Float, b: Float) {
    if a.NegInf? || b.NegInf? then a.NegInf? && !b.NegInf?
    else if IsNumber(a) && IsNumber(b) then Number(a) < Number(b)
    else if IsNumber(a) || IsNumber(b) then IsNumber(a)
    else a.PosInf? && b.NaN?
  }

  ghost predicate RoundsFirst(round: real -> real, xs: seq<Float>, ys: seq<Float>)
    requires |xs| == |ys|
  {
    exists k :: 0 <= k < |xs| && RoundsBelow(round, xs[k], ys[k]) && RoundTogether(round, xs[..k], ys[..k])
  }

  /** Nowhere does either round below the other. */
  ghost predicate RoundTogether(round: real -> real, xs: seq<Float>, ys: seq<Float>)
    requires |xs| == |ys|
  {
    forall k :: 0 <= k < |xs| ==> !RoundsBelow(round, xs[k], ys[k]) && !RoundsBelow(round, ys[k], xs[k])
  }

  ghost predicate LabelsFirst(xs: seq<int>, ys: seq<int>)
    requires |xs| == |ys|
  {
    exists k :: 0 <= k < |xs| && xs[k] < ys[k] && xs[..k] == ys[..k]
  }

  ghost predicate ExactlyFirst(xs: seq<Float>, ys: seq<Float>)
    requires |xs| == |ys|
  {
    exists k :: 0 <= k < |xs| && IsBelow(xs[k], ys[k]) && Together(xs[..k], ys[..k])
  }

  ghost predicate Together(xs: seq<Float>, ys: seq<Float>)
    requires |xs| == |ys|
  {
    forall k :: 0 <= k < |xs| ==> !IsBelow(xs[k], ys[k]) && !IsBelow(ys[k], xs[k])
  }

  // ---- lexicographic order by its first difference ----

  lemma {:induction false} LexByFirst(x: seq<Atom>, y: seq<Atom>)
    requires |x| == |y|
    ensures LexLess(x, y) <==> exists k :: 0 <= k < |x| && AtomLess(x[k], y[k]) && x[..k] == y[..k]
  {
    if x != [] {
      var u, v := x[1..], y[1..];
      LexByFirst(u, v);
      if LexLess(x, y) && !AtomLess(x[0], y[0]) {
        var k :| 0 <= k < |u| && AtomLess(u[k], v[k]) && u[..k] == v[..k];
        assert x[..k + 1] == [x[0]] + u[..k] && y[..k + 1] == [y[0]] + v[..k];
        assert AtomLess(x[k + 1], y[k + 1]);
      }
      if k :| 0 < k < |x| && AtomLess(x[k], y[k]) && x[..k] == y[..k] {
        assert u[..k - 1] == x[..k][1..] == y[..k][1..] == v[..k - 1];
        assert AtomLess(u[k - 1], v[k - 1]) && x[0] == x[..k][0] == y[..k][0] == y[0];
      }
      if AtomLess(x[0], y[0]) { assert x[..0] == y[..0]; }
    }
  }

  lemma {:induction false} LexSplit(x: seq<Atom>, y: seq<Atom>, u: seq<Atom>, v: seq<Atom>)
    requires |x| == |y|
    ensures LexLess(x + u, y + v) <==> LexLess(x, y) || (x == y && LexLess(u, v))
  {
    if x == [] {
      assert x + u == u && y + v == v;
    } else {
      assert (x + u)[1..] == x[1..] + u && (y + v)[1..] == y[1..] + v;
      LexSplit(x[1..], y[1..], u, v);
      assert x == [x[0]] + x[1..] && y == [y[0]] + y[1..];
    }
  }

  // ---- each kind of field ----

  lemma {:induction false} KeyTells(round: real -> real, a: Float, b: Float)
    ensures AtomLess(Key(round, a), Key(round, b)) <==> RoundsBelow(round, a, b)
    ensures Key(round, a) == Key(round, b) <==> !RoundsBelow(round, a, b) && !RoundsBelow(round, b, a)
  {
  }

  lemma {:induction false} ExactTells(a: Float, b: Float)
    ensures AtomLess(Exact(a), Exact(b)) <==> IsBelow(a, b)
    ensures Exact(a) == Exact(b) <==> !IsBelow(a, b) && !IsBelow(b, a)
  {
  }

  lemma {:induction false} KeysTogether(round: real -> real, xs: seq<Float>, ys: seq<Float>)
    requires |xs| == |ys|
    ensures Keys(round, xs) == Keys(round, ys) <==> RoundTogether(round, xs, ys)
  {
    forall k | 0 <= k < |xs|
      ensures Keys(round, xs)[k] == Keys(round, ys)[k] <==> !RoundsBelow(round, xs[k], ys[k]) && !RoundsBelow(round, ys[k], xs[k])
    {
      KeyTells(round, xs[k], ys[k]);
    }
  }

  lemma {:induction false} KeysFirst(round: real -> real, xs: seq<Float>, ys: seq<Float>)
    requires |xs| == |ys|
    ensures LexLess(Keys(round, xs), Keys(round, ys)) <==> RoundsFirst(round, xs, ys)
  {
    var x, y := Keys(round, xs), Keys(round, ys);
    LexByFirst(x, y);
    forall k | 0 <= k < |xs|
      ensures AtomLess(x[k], y[k]) <==> RoundsBelow(round, xs[k], ys[k])
      ensures x[..k] == y[..k] <==> RoundTogether(round, xs[..k], ys[..k])
    {
      KeyTells(round, xs[k], ys[k]);
      KeysTogether(round, xs[..k], ys[..k]);
      assert x[..k] == Keys(round, xs[..k]) && y[..k] == Keys(round, ys[..k]);
    }
  }

  lemma {:induction false} ExactsTogether(xs: seq<Float>, ys: seq<Float>)
    requires |xs| == |ys|
    ensures Exacts(xs) == Exacts(ys) <==> Together(xs, ys)
  {
    forall k | 0 <= k < |xs|
      ensures Exacts(xs)[k] == Exacts(ys)[k] <==> !IsBelow(xs[k], ys[k]) && !IsBelow(ys[k], xs[k])
    {
      ExactTells(xs[k], ys[k]);
    }
  }

  lemma {:induction false} ExactsFirst(xs: seq<Float>, ys: seq<Float>)
    requires |xs| == |ys|
    ensures LexLess(Exacts(xs), Exacts(ys)) <==> ExactlyFirst(xs, ys)
  {
    var x, y := Exacts(xs), Exacts(ys);
    LexByFirst(x, y);
    forall k | 0 <= k < |xs|
      ensures AtomLess(x[k], y[k]) <==> IsBelow(xs[k], ys[k])
      ensures x[..k] == y[..k] <==> Together(xs[..k], ys[..k])
    {
      ExactTells(xs[k], ys[k]);
      ExactsTogether(xs[..k], ys[..k]);
      assert x[..k] == Exacts(xs[..k]) && y[..k] == Exacts(ys[..k]);
    }
  }

  lemma {:induction false} SameLabels(xs: seq<int>, ys: seq<int>)
    ensures Labels(xs) == Labels(ys) <==> xs == ys
  {
    if Labels(xs) == Labels(ys) { LabelsTell(xs, ys); }
  }

  lemma {:induction false} LabelsGo(xs: seq<int>, ys: seq<int>)
    requires |xs| == |ys|
    ensures LexLess(Labels(xs), Labels(ys)) <==> LabelsFirst(xs, ys)
  {
    var x, y := Labels(xs), Labels(ys);
    LexByFirst(x, y);
    forall k | 0 <= k < |xs|
      ensures AtomLess(x[k], y[k]) <==> xs[k] < ys[k]
      ensures x[..k] == y[..k] <==> xs[..k] == ys[..k]
    {
      SameLabels(xs[..k], ys[..k]);
      assert x[..k] == Labels(xs[..k]) && y[..k] == Labels(ys[..k]);
      assert (xs[k] as real < ys[k] as real) <==> xs[k] < ys[k];
    }
  }

  // ---- the whole comparison ----

  /** One row goes before another exactly when its floats first round below; or round
      together and its harmonics go first; or those agree and its membership does; or that
      agrees too and it is exactly below first. */
  lemma {:induction false} GoesBefore(round: real -> real, a: Row, b: Row)
    requires Alike(a, b)
    ensures Before(round, a, b) <==>
      || RoundsFirst(round, a.floats, b.floats)
      || (RoundTogether(round, a.floats, b.floats) &&
           (|| LabelsFirst(a.sh, b.sh)
            || (a.sh == b.sh && (LabelsFirst(a.ids, b.ids) || (a.ids == b.ids && ExactlyFirst(a.floats, b.floats))))))
  {
    hide RoundsFirst, RoundTogether, LabelsFirst, ExactlyFirst, LexLess, Keys, Labels, Exacts;
    var ka, kb, sa, sb := Keys(round, a.floats), Keys(round, b.floats), Labels(a.sh), Labels(b.sh);
    var ia, ib, ea, eb := Labels(a.ids), Labels(b.ids), Exacts(a.floats), Exacts(b.floats);
    assert Atoms(round, a) == ka + (sa + (ia + ea)) && Atoms(round, b) == kb + (sb + (ib + eb));
    LexSplit(ka, kb, sa + (ia + ea), sb + (ib + eb));
    LexSplit(sa, sb, ia + ea, ib + eb);
    LexSplit(ia, ib, ea, eb);
    KeysFirst(round, a.floats, b.floats);
    KeysTogether(round, a.floats, b.floats);
    SameLabels(a.sh, b.sh);
    LabelsGo(a.sh, b.sh);
    SameLabels(a.ids, b.ids);
    LabelsGo(a.ids, b.ids);
    ExactsFirst(a.floats, b.floats);
  }

  predicate AllFinite(r: Row) {
    forall k :: 0 <= k < |r.floats| ==> r.floats[k].Finite?
  }

  /** Rows of numbers: the first float that rounds differently decides. */
  lemma {:induction false} FirstRoundingDecides(round: real -> real, a: Row, b: Row, k: nat)
    requires Alike(a, b) && AllFinite(a) && AllFinite(b) && k < |a.floats|
    requires forall j :: 0 <= j < k ==> round(a.floats[j].value) == round(b.floats[j].value)
    requires round(a.floats[k].value) < round(b.floats[k].value)
    ensures Before(round, a, b) && !Before(round, b, a)
  {
    GoesBefore(round, a, b);
    assert RoundsBelow(round, a.floats[k], b.floats[k]) && RoundTogether(round, a.floats[..k], b.floats[..k]);
    LexTotal(Atoms(round, a), Atoms(round, b));
  }

  /** Rows of numbers that round alike go by their harmonics, whatever the exact values. */
  lemma {:induction false} HarmonicsDecide(round: real -> real, a: Row, b: Row, j: nat)
    requires Alike(a, b) && AllFinite(a) && AllFinite(b) && j < |a.sh|
    requires forall k :: 0 <= k < |a.floats| ==> round(a.floats[k].value) == round(b.floats[k].value)
    requires a.sh[..j] == b.sh[..j] && a.sh[j] < b.sh[j]
    ensures Before(round, a, b) && !Before(round, b, a)
  {
    GoesBefore(round, a, b);
    LexTotal(Atoms(round, a), Atoms(round, b));
  }

  /** Then by the membership label. */
  lemma {:induction false} MembershipDecides(round: real -> real, a: Row, b: Row, j: nat)
    requires Alike(a, b) && AllFinite(a) && AllFinite(b) && j < |a.ids|
    requires forall k :: 0 <= k < |a.floats| ==> round(a.floats[k].value) == round(b.floats[k].value)
    requires a.sh == b.sh && a.ids[..j] == b.ids[..j] && a.ids[j] < b.ids[j]
    ensures Before(round, a, b) && !Before(round, b, a)
  {
    GoesBefore(round, a, b);
    LexTotal(Atoms(round, a), Atoms(round, b));
  }

  /** And only then by the exact values. */
  lemma {:induction false} ExactValueDecides(round: real -> real, a: Row, b: Row, k: nat)
    requires Alike(a, b) && AllFinite(a) && AllFinite(b) && k < |a.floats|
    requires forall j :: 0 <= j < |a.floats| ==> round(a.floats[j].value) == round(b.floats[j].value)
    requires a.sh == b.sh && a.ids == b.ids
    requires a.floats[..k] == b.floats[..k] && a.floats[k].value < b.floats[k].value
    ensures Before(round, a, b) && !Before(round, b, a)
  {
    GoesBefore(round, a, b);
    assert IsBelow(a.floats[k], b.floats[k]);
    assert Together(a.floats[..k], b.floats[..k]) by {
      forall j | 0 <= j < k
        ensures !IsBelow(a.floats[..k][j], b.floats[..k][j]) && !IsBelow(b.floats[..k][j], a.floats[..k][j])
      {
        assert a.floats[..k][j] == b.floats[..k][j];
      }
    }
    LexTotal(Atoms(round, a), Atoms(round, b));
  }

  // ---- what the summary reads off the rows ----

  /** A row is shown as it is, but for the sign of a zero. */
  lemma {:induction false} ShownAsIs(r: Row, k: nat)
    requires k < |r.floats|
    ensures |ShownRow(r).floats| == |r.floats| && ShownRow(r).sh == r.sh && ShownRow(r).ids == r.ids
    ensures ShownRow(r).floats[k] == if r.floats[k].NegZero? then Finite(0.0) else r.floats[k]
  {
  }

  /** No rows, nothing counted. */
  lemma {:induction false} EmptySummary(add: (Float, Float) -> Float)
    ensures SummaryOf(add, []) == Summary([], (Finite(0.0), Finite(0.0), Finite(0.0)), Finite(0.0), 0, 0, [])
  {
    assert ShownRows([]) == [];
  }

  /** One row more: its position and its opacity are added and its harmonics digested, and
      it is shown while fewer than sixteen are. */
  lemma {:induction false} RowAdds(add: (Float, Float) -> Float, rows: seq<Row>, r: Row)
    requires |r.floats| == 21
    ensures var before, after := SummaryOf(add, rows), SummaryOf(add, rows + [r]);
      && after.positionSum.0 == add(before.positionSum.0, r.floats[0])
      && after.positionSum.1 == add(before.positionSum.1, r.floats[1])
      && after.positionSum.2 == add(before.positionSum.2, r.floats[2])
      && after.opacitySum == add(before.opacitySum, r.floats[13])
      && after.digest == before.digest + r.sh
      && after.sample == if |rows| < 16 then before.sample + [ShownRow(r)] else before.sample
  {
    assert (rows + [r])[..|rows|] == rows;
    if |rows| < 16 {
      assert ShownRows(rows + [r]) == ShownRows(rows) + [ShownRow(r)];
      if |rows| == 15 { assert (rows + [r])[..16] == rows + [r]; }
    } else {
      assert (rows + [r])[..16] == rows[..16];
    }
  }

  /** The rows with no finite temporal width, and the rows without velocity. */
  ghost function NeverFading(rows: seq<Row>): set<nat> {
    set i: nat | i < |rows| && 18 < |rows[i].floats| && !IsNumber(rows[i].floats[18])
  }

  ghost function Motionless(rows: seq<Row>): set<nat> {
    set i: nat | i < |rows| && IsMotionless(rows[i])
  }

  predicate IsMotionless(r: Row) {
    16 < |r.floats| && forall k :: 14 <= k <= 16 ==> IsNumber(r.floats[k]) && Number(r.floats[k]) == 0.0
  }

  lemma {:induction false} FadesOneMore(rows: seq<Row>, r: Row)
    ensures NeverFading(rows + [r]) == NeverFading(rows) + (if 18 < |r.floats| && !IsNumber(r.floats[18]) then {|rows|} else {})
  {
    var all := rows + [r];
    forall i: nat
      ensures i in NeverFading(all) <==> i in NeverFading(rows) || (i == |rows| && 18 < |r.floats| && !IsNumber(r.floats[18]))
    {
      if i < |rows| { assert all[i] == rows[i]; }
    }
  }

  lemma {:induction false} StillOneMore(rows: seq<Row>, r: Row)
    ensures Motionless(rows + [r]) == Motionless(rows) + (if IsMotionless(r) then {|rows|} else {})
  {
    var all := rows + [r];
    forall i: nat
      ensures i in Motionless(all) <==> i in Motionless(rows) || (i == |rows| && IsMotionless(r))
    {
      if i < |rows| { assert all[i] == rows[i]; }
    }
  }

  lemma {:induction false} StillIsMotionless(r: Row)
    ensures IsStill(r) <==> IsMotionless(r)
  {
    if 16 < |r.floats| {
      assert IsMotionless(r) <==>
        (forall k :: 14 <= k <= 16 ==> IsZero(r.floats[k]));
    }
  }

  lemma {:induction false} CountsFading(rows: seq<Row>)
    ensures NeverFadesOf(rows) == |NeverFading(rows)|
  {
    if rows == [] {
      assert NeverFading(rows) == {};
    } else {
      var n := |rows| - 1;
      CountsFading(rows[..n]);
      assert rows == rows[..n] + [rows[n]];
      FadesOneMore(rows[..n], rows[n]);
      assert n !in NeverFading(rows[..n]);
    }
  }

  lemma {:induction false} CountsStill(rows: seq<Row>)
    ensures StillOf(rows) == |Motionless(rows)|
  {
    hide IsMotionless, IsStill;
    if rows == [] {
      assert Motionless(rows) == {};
    } else {
      var n := |rows| - 1;
      CountsStill(rows[..n]);
      assert rows == rows[..n] + [rows[n]];
      StillOneMore(rows[..n], rows[n]);
      StillIsMotionless(rows[n]);
      assert n !in Motionless(rows[..n]);
    }
  }

  /** The two counts are counts. */
  lemma {:induction false} CountsRows(add: (Float, Float) -> Float, rows: seq<Row>)
    ensures SummaryOf(add, rows).neverFades == |NeverFading(rows)|
    ensures SummaryOf(add, rows).still == |Motionless(rows)|
  {
    CountsFading(rows);
    CountsStill(rows);
  }
}
