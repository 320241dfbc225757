/** Rounding to the nearest integer, ties to even, over the reals. */
module Rounding {

  function Rint(x: real): (n: int)
    ensures -0.5 <= n as real - x <= 0.5
  {
    var down := x.Floor;
    var rest := x - down as real;
    if rest < 0.5 then down
    else if rest > 0.5 then down + 1
    else if down % 2 == 0 then down else down + 1
  }

  /** The nearest integer, and of two equally near the even one. */
  lemma {:induction false} RintIsNearestEven(x: real, n: int)
    ensures Rint(x) == n <==> -0.5 <= n as real - x <= 0.5 && (n as real - x == 0.5 || n as real - x == -0.5 ==> n % 2 == 0)
  {
    var m := Rint(x);
    if m != n && -0.5 <= n as real - x <= 0.5 { assert n == m + 1 || n == m - 1; }
  }

  lemma {:induction false} RintOfInt(n: int)
    ensures Rint(n as real) == n
  {
  }
}
