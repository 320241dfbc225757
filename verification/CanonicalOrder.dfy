/** The canonical summary's row order: rounded keys, then harmonics and membership, then the
    exact values. Rows that still tie show nothing that tells them apart, so what the summary
    emits does not depend on the order rows were decoded in. */
module CanonicalOrder {
  import opened Sorting

  /** A decoded float; the two zeros are kept apart as decoding keeps them. */
  datatype Float = NegInf | Finite(value: real) | NegZero | PosInf | NaN

  /** One row's twenty-one floats in attribute order, its harmonics, and its membership label
      when the scene carries one. */
  datatype Row = Row(floats: seq<Float>, sh: seq<int>, ids: seq<int>)

  // ---- what the summary can show ----

  /** A zero has no sign in the summary. */
  function Shown(f: Float): Float {
    if f == NegZero then Finite(0.0) else f
  }

  function ShownFloats(fs: seq<Float>): (r: seq<Float>)
    ensures |r| == |fs|
  {
    seq(|fs|, k requires 0 <= k < |fs| => Shown(fs[k]))
  }

  function ShownRow(r: Row): Row {
    Row(ShownFloats(r.floats), r.sh, r.ids)
  }

  function ShownRows(rows: seq<Row>): (r: seq<Row>)
    ensures |r| == |rows|
  {
    seq(|rows|, k requires 0 <= k < |rows| => ShownRow(rows[k]))
  }

  // ---- comparing ----

  /** A comparable place: a class, and a value within it. */
  type Atom = (int, real)

  predicate AtomLess(x: Atom, y: Atom) {
    x.0 < y.0 || (x.0 == y.0 && x.1 < y.1)
  }

  /** A rounded comparison key. Infinity keeps its place, and NaN shares the positive one. */
  function Key(round: real -> real, f: Float): Atom {
    match f
    case NegInf => (0, 0.0)
    case Finite(v) => (1, round(v))
    case NegZero => (1, round(0.0))
    case PosInf => (2, 0.0)
    case NaN => (2, 0.0)
  }

  /** The exact value, with NaN in a class of its own. */
  function Exact(f: Float): Atom {
    match f
    case NegInf => (0, 0.0)
    case Finite(v) => (1, v)
    case NegZero => (1, 0.0)
    case PosInf => (2, 0.0)
    case NaN => (3, 0.0)
  }

  function Keys(round: real -> real, fs: seq<Float>): (r: seq<Atom>)
    ensures |r| == |fs|
  {
    seq(|fs|, k requires 0 <= k < |fs| => Key(round, fs[k]))
  }

  function Exacts(fs: seq<Float>): (r: seq<Atom>)
    ensures |r| == |fs|
  {
    seq(|fs|, k requires 0 <= k < |fs| => Exact(fs[k]))
  }

  function Labels(xs: seq<int>): (r: seq<Atom>)
    ensures |r| == |xs|
  {
    seq(|xs|, k requires 0 <= k < |xs| => (1, xs[k] as real))
  }

  /** Everything the comparator looks at, in the order it looks. */
  function Atoms(round: real -> real, r: Row): seq<Atom> {
    Keys(round, r.floats) + Labels(r.sh) + Labels(r.ids) + Exacts(r.floats)
  }

  /** Lexicographic order. */
  predicate LexLess(x: seq<Atom>, y: seq<Atom>) {
    if x == [] || y == [] then x == [] && y != []
    else AtomLess(x[0], y[0]) || (x[0] == y[0] && LexLess(x[1..], y[1..]))
  }

  predicate Before(round: real -> real, a: Row, b: Row) {
    LexLess(Atoms(round, a), Atoms(round, b))
  }

  lemma {:induction false} LexTotal(x: seq<Atom>, y: seq<Atom>)
    ensures LexLess(x, y) ==> !LexLess(y, x)
    ensures !LexLess(x, y) && !LexLess(y, x) ==> x == y
  {
    if x != [] && y != [] {
      LexTotal(x[1..], y[1..]);
      assert x == [x[0]] + x[1..] && y == [y[0]] + y[1..];
    }
  }

  lemma {:induction false} LexTransitive(x: seq<Atom>, y: seq<Atom>, z: seq<Atom>)
    requires LexLess(x, y) && LexLess(y, z)
    ensures LexLess(x, z)
  {
    if x != [] && x[0] == y[0] && y[0] == z[0] { LexTransitive(x[1..], y[1..], z[1..]); }
  }

  lemma {:induction false} LexNegative(x: seq<Atom>, y: seq<Atom>, z: seq<Atom>)
    requires !LexLess(x, y) && !LexLess(y, z)
    ensures !LexLess(x, z)
  {
    LexTotal(x, y);
    LexTotal(y, z);
    LexTotal(x, z);
    if LexLess(z, y) && LexLess(y, x) { LexTransitive(z, y, x); }
  }

  function Order(round: real -> real): (Row, Row) -> bool {
    (a, b) => Before(round, a, b)
  }

  /** The comparator is a strict weak order, whatever the rounding. */
  lemma {:induction false} OrderIsStrictWeak(round: real -> real)
    ensures StrictWeakOrder(Order(round))
  {
    var less := Order(round);
    forall a, b | less(a, b)
      ensures !less(b, a)
    {
      LexTotal(Atoms(round, a), Atoms(round, b));
    }
    forall a, b, c | !less(a, b) && !less(b, c)
      ensures !less(a, c)
    {
      LexNegative(Atoms(round, a), Atoms(round, b), Atoms(round, c));
    }
  }

  /** Rows of one scene: the same columns in each. */
  predicate Alike(a: Row, b: Row) {
    |a.floats| == |b.floats| && |a.sh| == |b.sh| && |a.ids| == |b.ids|
  }

  lemma {:induction false} ExactIsShown(a: Float, b: Float)
    ensures Exact(a) == Exact(b) <==> Shown(a) == Shown(b)
    ensures Shown(a) == Shown(b) ==> forall round: real -> real :: Key(round, a) == Key(round, b)
  {
  }

  lemma {:induction false} LabelsTell(xs: seq<int>, ys: seq<int>)
    requires Labels(xs) == Labels(ys)
    ensures xs == ys
  {
    forall k | 0 <= k < |xs|
      ensures xs[k] == ys[k]
    {
      assert Labels(xs)[k] == Labels(ys)[k];
      assert xs[k] as real == ys[k] as real;
    }
  }

  /** Rows that tie show the same in every field; and the order sees only what is shown. */
  lemma {:induction false} TiesShowTheSame(round: real -> real, a: Row, b: Row)
    requires Alike(a, b)
    ensures !Before(round, a, b) && !Before(round, b, a) ==> ShownRow(a) == ShownRow(b)
  {
    var x, y := Atoms(round, a), Atoms(round, b);
    LexTotal(x, y);
    if x == y {
      var n, m, i := |a.floats|, |a.sh|, |a.ids|;
      assert Labels(a.sh) == x[n..n + m] == y[n..n + m] == Labels(b.sh);
      assert Labels(a.ids) == x[n + m..n + m + i] == y[n + m..n + m + i] == Labels(b.ids);
      assert Exacts(a.floats) == x[n + m + i..] == y[n + m + i..] == Exacts(b.floats);
      LabelsTell(a.sh, b.sh);
      LabelsTell(a.ids, b.ids);
      forall k | 0 <= k < n
        ensures Shown(a.floats[k]) == Shown(b.floats[k])
      {
        assert Exacts(a.floats)[k] == Exacts(b.floats)[k];
        ExactIsShown(a.floats[k], b.floats[k]);
      }
    }
  }

  lemma {:induction false} AtomsOfShown(round: real -> real, a: Row)
    ensures Atoms(round, ShownRow(a)) == Atoms(round, a)
  {
    forall k | 0 <= k < |a.floats|
      ensures Key(round, Shown(a.floats[k])) == Key(round, a.floats[k]) && Exact(Shown(a.floats[k])) == Exact(a.floats[k])
    {
    }
    assert Keys(round, ShownFloats(a.floats)) == Keys(round, a.floats);
    assert Exacts(ShownFloats(a.floats)) == Exacts(a.floats);
  }

  lemma {:induction false} OrderSeesShown(round: real -> real, a: Row, b: Row, c: Row)
    requires ShownRow(a) == ShownRow(b)
    ensures Before(round, a, c) == Before(round, b, c) && Before(round, c, a) == Before(round, c, b)
  {
    AtomsOfShown(round, a);
    AtomsOfShown(round, b);
  }

  // ---- the comparator's own loops ----

  /** A comparison key as a float: rounded, with NaN folded into infinity. */
  function Sortable(round: real -> real, f: Float): (key: Float)
    ensures !key.NaN?
  {
    match f
    case NaN => PosInf
    case Finite(v) => Finite(round(v))
    case NegZero => Finite(round(0.0))
    case _ => f
  }

  function ValueOf(f: Float): real {
    if f.Finite? then f.value else 0.0
  }

  /** IEEE comparison: NaN is below nothing and above nothing, and the zeros are equal. */
  predicate FloatLess(x: Float, y: Float) {
    match (x, y)
    case (NaN, _) => false
    case (_, NaN) => false
    case (NegInf, _) => y != NegInf
    case (_, NegInf) => false
    case (PosInf, _) => false
    case (_, PosInf) => true
    case _ => ValueOf(x) < ValueOf(y)
  }

  function ExactClass(f: Float): int {
    match f
    case NaN => 3
    case NegInf => 0
    case PosInf => 2
    case _ => 1
  }

  function CompareExact(a: Float, b: Float): int {
    if ExactClass(a) < ExactClass(b) then -1
    else if ExactClass(b) < ExactClass(a) then 1
    else if ExactClass(a) != 1 then 0
    else if FloatLess(a, b) then -1
    else if FloatLess(b, a) then 1
    else 0
  }

  lemma {:induction false} KeysCompare(round: real -> real, a: Float, b: Float)
    ensures FloatLess(Sortable(round, a), Sortable(round, b)) <==> AtomLess(Key(round, a), Key(round, b))
    ensures !AtomLess(Key(round, a), Key(round, b)) && !AtomLess(Key(round, b), Key(round, a)) ==> Key(round, a) == Key(round, b)
  {
  }

  lemma {:induction false} ExactsCompare(a: Float, b: Float)
    ensures CompareExact(a, b) < 0 <==> AtomLess(Exact(a), Exact(b))
    ensures CompareExact(a, b) == 0 <==> Exact(a) == Exact(b)
  {
  }

  /** One row of the key table. */
  function KeyRow(round: real -> real, r: Row): (keys: seq<Float>)
    ensures |keys| == |r.floats| + |r.sh| + |r.ids|
  {
    seq(|r.floats|, k requires 0 <= k < |r.floats| => Sortable(round, r.floats[k]))
    + seq(|r.sh|, k requires 0 <= k < |r.sh| => Finite(r.sh[k] as real))
    + seq(|r.ids|, k requires 0 <= k < |r.ids| => Finite(r.ids[k] as real))
  }

  lemma {:induction false} KeyRowIsAtoms(round: real -> real, a: Row, b: Row, k: nat)
    requires Alike(a, b) && k < |KeyRow(round, a)|
    ensures FloatLess(KeyRow(round, a)[k], KeyRow(round, b)[k]) <==> AtomLess(Atoms(round, a)[k], Atoms(round, b)[k])
    ensures !AtomLess(Atoms(round, a)[k], Atoms(round, b)[k]) && !AtomLess(Atoms(round, b)[k], Atoms(round, a)[k]) ==>
      Atoms(round, a)[k] == Atoms(round, b)[k]
  {
    if k < |a.floats| { KeysCompare(round, a.floats[k], b.floats[k]); }
  }

  lemma {:induction false} LexAt(x: seq<Atom>, y: seq<Atom>, k: nat)
    requires |x| == |y| && k < |x|
    ensures LexLess(x[k..], y[k..]) <==> AtomLess(x[k], y[k]) || (x[k] == y[k] && LexLess(x[k + 1..], y[k + 1..]))
  {
    assert x[k..][1..] == x[k + 1..] && y[k..][1..] == y[k + 1..];
  }

  /** The comparison as it is made: along the key rows, and then along the exact values. */
  method RowBefore(round: real -> real, a: Row, b: Row) returns (less: bool)
    requires Alike(a, b)
    ensures less <==> Before(round, a, b)
  {
    ghost var x, y := Atoms(round, a), Atoms(round, b);
    var rowA, rowB := KeyRow(round, a), KeyRow(round, b);
    assert x[0..] == x && y[0..] == y;
    for k := 0 to |rowA|
      invariant Before(round, a, b) <==> LexLess(x[k..], y[k..])
    {
      LexAt(x, y, k);
      KeyRowIsAtoms(round, a, b, k);
      KeyRowIsAtoms(round, b, a, k);
      if FloatLess(rowA[k], rowB[k]) { return true; }
      if FloatLess(rowB[k], rowA[k]) { return false; }
    }
    less := CompareRest(round, a, b);
  }

  method CompareRest(round: real -> real, a: Row, b: Row) returns (less: bool)
    requires Alike(a, b)
    ensures less <==> LexLess(Atoms(round, a)[|KeyRow(round, a)|..], Atoms(round, b)[|KeyRow(round, a)|..])
  {
    ghost var x, y := Exacts(a.floats), Exacts(b.floats);
    assert Atoms(round, a)[|KeyRow(round, a)|..] == x && Atoms(round, b)[|KeyRow(round, a)|..] == y;
    assert x[0..] == x && y[0..] == y;
    for k := 0 to |a.floats|
      invariant LexLess(x, y) <==> LexLess(x[k..], y[k..])
    {
      LexAt(x, y, k);
      ExactsCompare(a.floats[k], b.floats[k]);
      var compared := CompareExact(a.floats[k], b.floats[k]);
      if compared != 0 { return compared < 0; }
    }
    return false;
  }

  // ---- sorted rows are one sequence ----

  predicate AllAlike(rows: seq<Row>, others: seq<Row>) {
    forall i, j :: 0 <= i < |rows| && 0 <= j < |others| ==> Alike(rows[i], others[j])
  }

  lemma {:induction false} HeadsShowTheSame(round: real -> real, xs: seq<Row>, ys: seq<Row>)
    requires xs != [] && ys != [] && AllAlike(xs, ys)
    requires SortedBy(xs, Order(round)) && SortedBy(ys, Order(round))
    requires multiset(ShownRows(xs)) == multiset(ShownRows(ys))
    ensures ShownRow(xs[0]) == ShownRow(ys[0])
  {
    var sx, sy := ShownRows(xs), ShownRows(ys);
    assert sx[0] in multiset(sx) && sy[0] in multiset(sy);
    assert sx[0] in sy && sy[0] in sx;
    var j :| 0 <= j < |sy| && sy[j] == sx[0];
    var i :| 0 <= i < |sx| && sx[i] == sy[0];
    OrderSeesShown(round, ys[j], xs[0], ys[0]);
    OrderSeesShown(round, xs[i], ys[0], xs[0]);
    if j > 0 { assert !Order(round)(ys[j], ys[0]); } else { LexTotal(Atoms(round, ys[0]), Atoms(round, ys[0])); }
    if i > 0 { assert !Order(round)(xs[i], xs[0]); } else { LexTotal(Atoms(round, xs[0]), Atoms(round, xs[0])); }
    TiesShowTheSame(round, xs[0], ys[0]);
  }

  lemma {:induction false} SameTails<T>(h: T, xs: seq<T>, ys: seq<T>)
    requires multiset([h] + xs) == multiset([h] + ys)
    ensures multiset(xs) == multiset(ys)
  {
    assert multiset([h] + xs) - multiset{h} == multiset(xs);
    assert multiset([h] + ys) - multiset{h} == multiset(ys);
  }

  lemma {:induction false} TailSorted(xs: seq<Row>, less: (Row, Row) -> bool)
    requires xs != [] && SortedBy(xs, less)
    ensures SortedBy(xs[1..], less)
  {
    forall i, j | 0 <= i < j < |xs[1..]|
      ensures !less(xs[1..][j], xs[1..][i])
    {
      assert !less(xs[j + 1], xs[i + 1]);
    }
  }

  lemma {:induction false} TailsAlike(xs: seq<Row>, ys: seq<Row>)
    requires xs != [] && ys != [] && AllAlike(xs, ys)
    ensures AllAlike(xs[1..], ys[1..])
  {
    forall i, j | 0 <= i < |xs[1..]| && 0 <= j < |ys[1..]|
      ensures Alike(xs[1..][i], ys[1..][j])
    {
      assert Alike(xs[i + 1], ys[j + 1]);
    }
  }

  lemma {:induction false} ShownHead(xs: seq<Row>)
    requires xs != []
    ensures ShownRows(xs) == [ShownRow(xs[0])] + ShownRows(xs[1..])
  {
  }

  lemma {:induction false} SameLength(xs: seq<Row>, ys: seq<Row>)
    requires multiset(xs) == multiset(ys)
    ensures |xs| == |ys|
  {
    assert |multiset(xs)| == |xs| && |multiset(ys)| == |ys|;
  }

  /** Two sorted arrangements of rows that show the same show the same row by row. */
  lemma {:induction false} SortedShowsOnce(round: real -> real, xs: seq<Row>, ys: seq<Row>)
    requires AllAlike(xs, ys) && SortedBy(xs, Order(round)) && SortedBy(ys, Order(round))
    requires multiset(ShownRows(xs)) == multiset(ShownRows(ys))
    ensures ShownRows(xs) == ShownRows(ys)
  {
    SameLength(ShownRows(xs), ShownRows(ys));
    if xs != [] {
      HeadsShowTheSame(round, xs, ys);
      ShownHead(xs);
      ShownHead(ys);
      SameTails(ShownRow(xs[0]), ShownRows(xs[1..]), ShownRows(ys[1..]));
      TailSorted(xs, Order(round));
      TailSorted(ys, Order(round));
      TailsAlike(xs, ys);
      SortedShowsOnce(round, xs[1..], ys[1..]);
    }
  }

  lemma {:induction false} OutOfTheMiddle<T>(front: seq<T>, x: T, back: seq<T>)
    ensures multiset(front + [x] + back) == multiset([x] + (front + back))
  {
  }

  lemma {:induction false} ShownJoins(xs: seq<Row>, ys: seq<Row>)
    ensures ShownRows(xs + ys) == ShownRows(xs) + ShownRows(ys)
  {
  }

  lemma {:induction false} ShownPermutes(xs: seq<Row>, ys: seq<Row>)
    requires multiset(xs) == multiset(ys)
    ensures multiset(ShownRows(xs)) == multiset(ShownRows(ys))
  {
    SameLength(xs, ys);
    if xs != [] {
      var x := xs[0];
      assert x in multiset(ys);
      var j :| 0 <= j < |ys| && ys[j] == x;
      var front, back := ys[..j], ys[j + 1..];
      assert xs == [x] + xs[1..] && ys == front + [x] + back;
      OutOfTheMiddle(front, x, back);
      SameTails(x, xs[1..], front + back);
      ShownPermutes(xs[1..], front + back);
      ShownMiddle(front, x, back);
      ShownHead(xs);
      SameHeads(ShownRow(x), ShownRows(xs[1..]), ShownRows(front + back));
    }
  }

  lemma {:induction false} SameHeads<T>(h: T, xs: seq<T>, ys: seq<T>)
    requires multiset(xs) == multiset(ys)
    ensures multiset([h] + xs) == multiset([h] + ys)
  {
  }

  lemma {:induction false} ShownMiddle(front: seq<Row>, x: Row, back: seq<Row>)
    ensures multiset(ShownRows(front + [x] + back)) == multiset([ShownRow(x)] + ShownRows(front + back))
  {
    ShownJoins(front + [x], back);
    ShownJoins(front, [x]);
    ShownJoins(front, back);
    OutOfTheMiddle(ShownRows(front), ShownRow(x), ShownRows(back));
    assert ShownRows([x]) == [ShownRow(x)];
  }

  // ---- the order, as indices ----

  predicate Positions(order: seq<int>, n: nat) {
    forall i :: 0 <= i < |order| ==> 0 <= order[i] < n
  }

  /** The rows in an order. */
  function Arranged(rows: seq<Row>, order: seq<int>): (r: seq<Row>)
    requires Positions(order, |rows|)
    ensures |r| == |order|
  {
    seq(|order|, i requires 0 <= i < |order| => rows[order[i]])
  }

  function IndexOrder(round: real -> real, rows: seq<Row>): (int, int) -> bool {
    (i: int, j: int) => 0 <= i < |rows| && 0 <= j < |rows| && Before(round, rows[i], rows[j])
  }

  lemma {:induction false} ArrangedFrom(rows: seq<Row>, p: int, ps: seq<int>)
    requires 0 <= p < |rows| && Positions(ps, |rows|)
    ensures Positions([p] + ps, |rows|) && Arranged(rows, [p] + ps) == [rows[p]] + Arranged(rows, ps)
  {
  }

  lemma {:induction false} InsertArranged(round: real -> real, rows: seq<Row>, i: int, ps: seq<int>)
    requires 0 <= i < |rows| && Positions(ps, |rows|)
    ensures var r := Insert(i, ps, IndexOrder(round, rows));
      Positions(r, |rows|) && Arranged(rows, r) == Insert(rows[i], Arranged(rows, ps), Order(round))
  {
    hide Before, Arranged;
    if ps != [] {
      ArrangedFrom(rows, ps[0], ps[1..]);
      assert ps == [ps[0]] + ps[1..];
    }
    if ps != [] && IndexOrder(round, rows)(ps[0], i) {
      InsertArranged(round, rows, i, ps[1..]);
      ArrangedFrom(rows, ps[0], Insert(i, ps[1..], IndexOrder(round, rows)));
    } else {
      ArrangedFrom(rows, i, ps);
    }
  }

  /** Sorting positions arranges the rows as sorting the rows does. */
  lemma {:induction false} SortArranged(round: real -> real, rows: seq<Row>, ps: seq<int>)
    requires Positions(ps, |rows|)
    ensures var r := StableSort(ps, IndexOrder(round, rows));
      Positions(r, |rows|) && Arranged(rows, r) == StableSort(Arranged(rows, ps), Order(round))
  {
    hide Before;
    if ps != [] {
      SortArranged(round, rows, ps[1..]);
      InsertArranged(round, rows, ps[0], StableSort(ps[1..], IndexOrder(round, rows)));
      assert Arranged(rows, ps)[1..] == Arranged(rows, ps[1..]);
    }
  }

  /** The order of a scene's rows: positions sorted by the rows at them, tied positions as
      they came. It is a rearrangement, and arranges the rows in the comparator's order. */
  method StableOrder(round: real -> real, rows: seq<Row>) returns (order: seq<int>)
    ensures |order| == |rows| && Positions(order, |rows|)
    ensures Arranged(rows, order) == StableSort(rows, Order(round))
    ensures SortedBy(Arranged(rows, order), Order(round)) && multiset(Arranged(rows, order)) == multiset(rows)
  {
    var positions: seq<int> := seq(|rows|, i => i);
    order := StableSort(positions, IndexOrder(round, rows));
    SortArranged(round, rows, positions);
    assert Arranged(rows, positions) == rows;
    OrderIsStrictWeak(round);
    SortSorts(rows, Order(round));
    SortPermutes(rows, Order(round));
  }

  // ---- what the summary computes from the rows ----

  const SAMPLE: nat := 16

  const SIGMA_AT: nat := 18
  const MOTION_AT: nat := 14
  const OPACITY_AT: nat := 13
  const FLOATS: nat := 21

  predicate IsNotFinite(f: Float) {
    f.NegInf? || f.PosInf? || f.NaN?
  }

  predicate IsZero(f: Float) {
    f == NegZero || f == Finite(0.0)
  }

  /** A 64-bit addition, as far as the sums depend on it: from a running value that is not a
      negative zero, either zero adds alike and never leaves one. */
  ghost predicate AddsAsIeee(add: (Float, Float) -> Float) {
    forall x, y :: x != NegZero ==> add(x, y) == add(x, Shown(y)) && add(x, y) != NegZero
  }

  function SumOf(add: (Float, Float) -> Float, rows: seq<Row>, column: nat): Float {
    if rows == [] then Finite(0.0)
    else
      var r := rows[|rows| - 1];
      add(SumOf(add, rows[..|rows| - 1], column), if column < |r.floats| then r.floats[column] else Finite(0.0))
  }

  function NeverFadesOf(rows: seq<Row>): nat {
    if rows == [] then 0
    else
      var r := rows[|rows| - 1];
      NeverFadesOf(rows[..|rows| - 1]) + (if SIGMA_AT < |r.floats| && IsNotFinite(r.floats[SIGMA_AT]) then 1 else 0)
  }

  function StillOf(rows: seq<Row>): nat {
    if rows == [] then 0 else StillOf(rows[..|rows| - 1]) + (if IsStill(rows[|rows| - 1]) then 1 else 0)
  }

  /** No velocity along any axis: only then is the sum of the magnitudes zero. */
  predicate IsStill(r: Row) {
    MOTION_AT + 2 < |r.floats| && IsZero(r.floats[MOTION_AT]) && IsZero(r.floats[MOTION_AT + 1]) && IsZero(r.floats[MOTION_AT + 2])
  }

  /** The harmonics in order, as the digest reads them. */
  function DigestOf(rows: seq<Row>): seq<int> {
    if rows == [] then [] else DigestOf(rows[..|rows| - 1]) + rows[|rows| - 1].sh
  }

  datatype Summary = Summary(sample: seq<Row>, positionSum: (Float, Float, Float), opacitySum: Float, neverFades: nat, still: nat, digest: seq<int>)

  function SummaryOf(add: (Float, Float) -> Float, rows: seq<Row>): Summary {
    Summary(ShownRows(if |rows| < SAMPLE then rows else rows[..SAMPLE]),
            (SumOf(add, rows, 0), SumOf(add, rows, 1), SumOf(add, rows, 2)), SumOf(add, rows, OPACITY_AT),
            NeverFadesOf(rows), StillOf(rows), DigestOf(rows))
  }

  lemma {:induction false} SumOfShown(add: (Float, Float) -> Float, rows: seq<Row>, column: nat)
    requires AddsAsIeee(add)
    ensures SumOf(add, ShownRows(rows), column) == SumOf(add, rows, column) != NegZero
  {
    if rows != [] {
      SumOfShown(add, rows[..|rows| - 1], column);
      assert ShownRows(rows)[..|rows| - 1] == ShownRows(rows[..|rows| - 1]);
    }
  }

  lemma {:induction false} FoldsOfShown(rows: seq<Row>)
    ensures NeverFadesOf(ShownRows(rows)) == NeverFadesOf(rows) && StillOf(ShownRows(rows)) == StillOf(rows)
    ensures DigestOf(ShownRows(rows)) == DigestOf(rows)
  {
    if rows != [] {
      FoldsOfShown(rows[..|rows| - 1]);
      assert ShownRows(rows)[..|rows| - 1] == ShownRows(rows[..|rows| - 1]);
    }
  }

  lemma {:induction false} ShownTwice(rows: seq<Row>)
    ensures ShownRows(ShownRows(rows)) == ShownRows(rows)
  {
    forall i | 0 <= i < |rows|
      ensures ShownRow(ShownRow(rows[i])) == ShownRow(rows[i])
    {
      assert ShownFloats(ShownFloats(rows[i].floats)) == ShownFloats(rows[i].floats);
    }
  }

  /** The summary depends on the rows only through what they show. */
  lemma {:induction false} SummaryOfShown(add: (Float, Float) -> Float, rows: seq<Row>)
    requires AddsAsIeee(add)
    ensures SummaryOf(add, ShownRows(rows)) == SummaryOf(add, rows)
  {
    SumOfShown(add, rows, 0);
    SumOfShown(add, rows, 1);
    SumOfShown(add, rows, 2);
    SumOfShown(add, rows, OPACITY_AT);
    FoldsOfShown(rows);
    var head := if |rows| < SAMPLE then rows else rows[..SAMPLE];
    ShownTwice(head);
    assert (if |rows| < SAMPLE then ShownRows(rows) else ShownRows(rows)[..SAMPLE]) == ShownRows(head);
  }

  /** Decode order is invisible: two arrangements of one scene's rows give one summary. */
  lemma {:induction false} DecodeOrderIsInvisible(round: real -> real, add: (Float, Float) -> Float, rows: seq<Row>, others: seq<Row>)
    requires AddsAsIeee(add) && AllAlike(rows, rows) && multiset(rows) == multiset(others)
    ensures SummaryOf(add, StableSort(rows, Order(round))) == SummaryOf(add, StableSort(others, Order(round)))
  {
    var xs, ys := StableSort(rows, Order(round)), StableSort(others, Order(round));
    OrderIsStrictWeak(round);
    SortSorts(rows, Order(round));
    SortSorts(others, Order(round));
    SortPermutes(rows, Order(round));
    SortPermutes(others, Order(round));
    ShownPermutes(xs, ys);
    SortedAlike(round, rows, xs, ys);
    SortedShowsOnce(round, xs, ys);
    SummaryOfShown(add, xs);
    SummaryOfShown(add, ys);
  }

  lemma {:induction false} SortedAlike(round: real -> real, rows: seq<Row>, xs: seq<Row>, ys: seq<Row>)
    requires AllAlike(rows, rows) && multiset(xs) == multiset(rows) && multiset(ys) == multiset(rows)
    ensures AllAlike(xs, ys)
  {
    forall i, j | 0 <= i < |xs| && 0 <= j < |ys|
      ensures Alike(xs[i], ys[j])
    {
      var x, y := xs[i], ys[j];
      assert x in multiset(xs) && y in multiset(ys);
      assert x in rows && y in rows;
    }
  }

  /** The running totals of the pass. */
  datatype Totals = Totals(x: Float, y: Float, z: Float, opacity: Float, neverFades: nat, still: nat, digest: seq<int>)

  ghost predicate TalliedTo(add: (Float, Float) -> Float, rows: seq<Row>, t: Totals) {
    && t.x == SumOf(add, rows, 0) && t.y == SumOf(add, rows, 1) && t.z == SumOf(add, rows, 2)
    && t.opacity == SumOf(add, rows, OPACITY_AT)
    && t.neverFades == NeverFadesOf(rows) && t.still == StillOf(rows) && t.digest == DigestOf(rows)
  }

  /** One row more. */
  method Tally(add: (Float, Float) -> Float, ghost rows: seq<Row>, t: Totals, r: Row) returns (next: Totals)
    requires |r.floats| == FLOATS && TalliedTo(add, rows, t)
    ensures TalliedTo(add, rows + [r], next)
  {
    assert (rows + [r])[..|rows|] == rows;
    next := Totals(add(t.x, r.floats[0]), add(t.y, r.floats[1]), add(t.z, r.floats[2]), add(t.opacity, r.floats[OPACITY_AT]),
                   if IsNotFinite(r.floats[SIGMA_AT]) then t.neverFades + 1 else t.neverFades,
                   if IsStill(r) then t.still + 1 else t.still, t.digest + r.sh);
  }

  /** The totals over the rows in an order. */
  method TallyAll(add: (Float, Float) -> Float, rows: seq<Row>, order: seq<int>) returns (t: Totals)
    requires Positions(order, |rows|) && forall i :: 0 <= i < |rows| ==> |rows[i].floats| == FLOATS
    ensures TalliedTo(add, Arranged(rows, order), t)
  {
    ghost var sorted := Arranged(rows, order);
    t := Totals(Finite(0.0), Finite(0.0), Finite(0.0), Finite(0.0), 0, 0, []);
    assert TalliedTo(add, sorted[..0], t);
    hide TalliedTo;
    for i := 0 to |order|
      invariant TalliedTo(add, sorted[..i], t)
    {
      t := Tally(add, sorted[..i], t, rows[order[i]]);
      assert sorted[..i + 1] == sorted[..i] + [rows[order[i]]];
    }
    assert sorted[..|order|] == sorted;
  }

  /** One pass over the rows in their canonical order. */
  method Summarize(round: real -> real, add: (Float, Float) -> Float, rows: seq<Row>) returns (s: Summary)
    requires forall i :: 0 <= i < |rows| ==> |rows[i].floats| == FLOATS
    ensures s == SummaryOf(add, StableSort(rows, Order(round)))
  {
    hide SumOf, NeverFadesOf, StillOf, DigestOf, ShownRows;
    var order := StableOrder(round, rows);
    var t := TallyAll(add, rows, order);
    var sample := Sampled(rows, order);
    return Summary(sample, (t.x, t.y, t.z), t.opacity, t.neverFades, t.still, t.digest);
  }

  /** The rows the summary shows in full. */
  method Sampled(rows: seq<Row>, order: seq<int>) returns (sample: seq<Row>)
    requires Positions(order, |rows|)
    ensures var sorted := Arranged(rows, order);
      sample == ShownRows(if |sorted| < SAMPLE then sorted else sorted[..SAMPLE])
  {
    var head := if |order| < SAMPLE then order else order[..SAMPLE];
    assert Arranged(rows, head) == if |order| < SAMPLE then Arranged(rows, order) else Arranged(rows, order)[..SAMPLE];
    sample := ShownRows(Arranged(rows, head));
  }
}
