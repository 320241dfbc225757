/** Timeline instants as a file states them: 64-bit floats, read as reals with the three
    non-finite classes kept apart and compared the IEEE way. */
module Times {

  datatype Time = Finite(value: real) | PosInf | NegInf | NaN

  predicate Less(a: Time, b: Time) {
    match (a, b)
    case (NaN, _) => false
    case (_, NaN) => false
    case (Finite(x), Finite(y)) => x < y
    case (NegInf, y) => y != NegInf
    case (x, PosInf) => x != PosInf
    case _ => false
  }

  predicate Equal(a: Time, b: Time) {
    a == b && a != NaN
  }

  predicate AtMost(a: Time, b: Time) {
    Less(a, b) || Equal(a, b)
  }

  /** NaN compares with nothing; of any two others exactly one is below, or they are equal;
      the infinities are the ends, and the rest is the order of the reals. */
  lemma {:induction false} ComparedAsIeee(a: Time, b: Time)
    ensures a == NaN || b == NaN ==> !Less(a, b) && !Equal(a, b) && !AtMost(a, b)
    ensures a != NaN && b != NaN ==> (Equal(a, b) <==> a == b) && (a == b ==> !Less(a, b)) && (a != b ==> (Less(a, b) <==> !Less(b, a)))
    ensures a != NaN && b != NaN ==> (AtMost(a, b) <==> !Less(b, a))
    ensures a.Finite? && b.Finite? ==> (Less(a, b) <==> a.value < b.value)
    ensures b != NaN && b != NegInf ==> Less(NegInf, b)
    ensures b != NaN && b != PosInf ==> Less(b, PosInf)
  {
  }
}
