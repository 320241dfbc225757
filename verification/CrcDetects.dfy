/** What the checksum is and what it sees: one division of the whole message by the
    polynomial, in which no change confined to four bytes is lost. */
module CrcDetects {
  import opened Wrappers
  import opened WordBits
  import opened Crc

  // ---- which checksum it is ----

  /** The polynomial of IEEE 802.3, its lowest power first: a one for x to the 26, 23, 22,
      16, 12, 11, 10, 8, 7, 5, 4, 2, 1 and 0. */
  lemma {:induction false} PolynomialByPowers()
    ensures POLYNOMIAL == Mask(31 - 26) + Mask(31 - 23) + Mask(31 - 22) + Mask(31 - 16) + Mask(31 - 12) + Mask(31 - 11) + Mask(31 - 10)
      + Mask(31 - 8) + Mask(31 - 7) + Mask(31 - 5) + Mask(31 - 4) + Mask(31 - 2) + Mask(31 - 1) + Mask(31 - 0)
  {
    LowPowers();
    HighPowers();
  }

  lemma {:induction false} LowPowers()
    ensures Mask(5) == 0x20 && Mask(8) == 0x100 && Mask(9) == 0x200 && Mask(15) == 0x8000 && Mask(19) == 0x8_0000
    ensures Mask(20) == 0x10_0000 && Mask(21) == 0x20_0000
  {
  }

  lemma {:induction false} HighPowers()
    ensures Mask(23) == 0x80_0000 && Mask(24) == 0x100_0000 && Mask(26) == 0x400_0000 && Mask(27) == 0x800_0000
    ensures Mask(29) == 0x2000_0000 && Mask(30) == 0x4000_0000 && Mask(31) == 0x8000_0000
  {
    LowPowers();
    assert Mask(22) == 0x40_0000;
    assert Mask(25) == 0x200_0000;
    assert Mask(28) == 0x1000_0000;
  }

  /** Of nothing it is zero; a byte of ones leaves the register's other twenty-four. */
  lemma {:induction false} SmallChecksums()
    ensures Checksum([]) == 0
    ensures Checksum([0xFF]) == 0xFF00_0000
  {
    LowPowers();
    HighPowers();
    XorSelf(ALL_ONES);
    ByteOfOnes(0xFF, 0xFF_FFFF, 0x100, 0x100_0000);
    ChecksumOfOne(0xFF, 0xFF00_0000);
  }

  lemma {:induction false} ChecksumOfOne(b: Byte, sum: nat)
    requires Xor(Steps(Xor(0xFFFF_FFFF, b), 8), 0xFFFF_FFFF) == sum
    ensures Checksum([b]) == sum
  {
    RegisterOfOne(b);
  }

  lemma {:induction false} ByteOfOnes(low: nat, rest: nat, m: nat, top: nat)
    requires low < m == Mask(8) && low + rest * m == 0xFFFF_FFFF && rest < top == Mask(24) && rest + low * top == 0xFFFF_FFFF
    ensures Xor(Steps(Xor(0xFFFF_FFFF, low), 8), 0xFFFF_FFFF) == low * top
  {
    OnesCancel(low, rest, 8, m);
    HighBitsShift(rest, 8);
    OnesCancel(rest, low, 24, top);
    XorCommutes(rest, 0xFFFF_FFFF);
  }

  lemma {:induction false} RegisterOfOne(b: Byte)
    ensures Register(ALL_ONES, [b], 0, 1) == Steps(Xor(ALL_ONES, b), 8)
  {
  }

  lemma {:induction false} OnesCancel(low: nat, high: nat, n: nat, m: nat)
    requires low < m == Mask(n) && low + high * m == 0xFFFF_FFFF
    ensures Xor(0xFFFF_FFFF, low) == high * m
  {
    var rest := high * m;
    Splits(low, high, n);
    XorCommutes(low, rest);
    XorAssociates(rest, low, low);
    XorSelf(low);
    XorCommutes(rest, 0);
  }

  // ---- the message as one number ----

  /** The bytes from `lo` to `hi` as a number, the first byte lowest. */
  function Word(data: seq<Byte>, lo: nat, hi: nat): nat
    requires lo <= hi && (lo == hi || hi <= |data|)
    decreases hi
  {
    if lo == hi then 0 else Word(data, lo, hi - 1) + data[hi - 1] * Mask(8 * (hi - 1 - lo))
  }

  lemma {:induction false} ScaledByte(b: nat, w: nat, m: nat)
    requires b < 256 && w < m
    ensures w + b * m < 256 * m
  {
    assert b * m <= 255 * m;
  }

  lemma {:induction false} WordFits(data: seq<Byte>, lo: nat, hi: nat)
    requires lo <= hi && (lo == hi || hi <= |data|)
    ensures Word(data, lo, hi) < Mask(8 * (hi - lo))
    decreases hi
  {
    if lo < hi {
      var n := 8 * (hi - 1 - lo);
      WordFits(data, lo, hi - 1);
      ScaledByte(data[hi - 1], Word(data, lo, hi - 1), Mask(n));
      EightBits();
      MaskAdds(8, n);
    }
  }

  lemma {:induction false} StepsJoin(c: nat, m: nat, n: nat)
    ensures Steps(Steps(c, m), n) == Steps(c, m + n)
    decreases m
  {
    if m > 0 { StepsJoin(Step(c), m - 1, n); }
  }

  /** The register after a message is what is left of one division of the whole of it. */
  lemma {:induction false} RegisterIsOneDivision(crc: nat, data: seq<Byte>, lo: nat, hi: nat)
    requires lo <= hi && (lo == hi || hi <= |data|)
    ensures Register(crc, data, lo, hi) == Steps(Xor(crc, Word(data, lo, hi)), 8 * (hi - lo))
    decreases hi
  {
    if lo == hi {
      XorCommutes(crc, 0);
    } else {
      RegisterIsOneDivision(crc, data, lo, hi - 1);
      WordFits(data, lo, hi - 1);
      OneByteOn(crc, data, lo, hi);
    }
  }

  lemma {:induction false} OneByteOn(crc: nat, data: seq<Byte>, lo: nat, hi: nat)
    requires lo < hi <= |data|
    requires Register(crc, data, lo, hi - 1) == Steps(Xor(crc, Word(data, lo, hi - 1)), 8 * (hi - 1 - lo))
    requires Word(data, lo, hi - 1) < Mask(8 * (hi - 1 - lo))
    ensures Register(crc, data, lo, hi) == Steps(Xor(crc, Word(data, lo, hi)), 8 * (hi - lo))
  {
    hide Xor, Steps, ByteIn, Mask;
    OneByteMore(crc, Word(data, lo, hi - 1), data[hi - 1], 8 * (hi - 1 - lo), hi - 1 - lo);
  }

  lemma {:induction false} OneByteMore(crc: nat, w: nat, b: Byte, n: nat, k: nat)
    requires n == 8 * k
    ensures w < Mask(n) ==> ByteIn(Steps(Xor(crc, w), n), b) == Steps(Xor(crc, w + b * Mask(n)), n + 8)
  {
    if w < Mask(n) {
      var high := b * Mask(n);
      HighBitsShift(b, n);
      StepsAreLinear(Xor(crc, w), high, n);
      XorAssociates(crc, w, high);
      Splits(w, b, n);
      StepsJoin(Xor(crc, w + high), n, 8);
    }
  }

  // ---- nothing short is lost ----

  lemma {:induction false} TopBitStays(a: nat, b: nat, n: nat)
    requires Mask(n) <= a && b < Mask(n)
    ensures Xor(a, b) >= Mask(n)
  {
    if n > 0 && b > 0 {
      ShiftsOne(1, n);
      TopBitStays(a / 2, b / 2, n - 1);
      XorHalf(a, b);
    }
  }

  /** A word folded in can be folded out. */
  lemma {:induction false} XorTells(p: nat, x: nat, y: nat)
    requires Xor(p, x) == Xor(p, y)
    ensures x == y
  {
    XorAssociates(p, p, x);
    XorAssociates(p, p, y);
    XorSelf(p);
  }

  /** The polynomial's highest bit shows whether a step folded it in. */
  lemma {:induction false} StepTells(x: nat, y: nat)
    requires x < Mask(32) && y < Mask(32) && Step(x) == Step(y)
    ensures x == y
  {
    ShiftsOne(1, 32);
    EightBits();
    if x % 2 == 1 { TopBitStays(POLYNOMIAL, x / 2, 31); }
    if y % 2 == 1 { TopBitStays(POLYNOMIAL, y / 2, 31); }
    if x % 2 == 1 && y % 2 == 1 { XorTells(POLYNOMIAL, x / 2, y / 2); }
  }

  lemma {:induction false} StepsTell(x: nat, y: nat, n: nat)
    requires x < Mask(32) && y < Mask(32) && Steps(x, n) == Steps(y, n)
    ensures x == y
    decreases n
  {
    if n > 0 {
      EightBits();
      StepFits(x);
      StepFits(y);
      StepsTell(Step(x), Step(y), n - 1);
      StepTells(x, y);
    }
  }

  lemma {:induction false} ByteTells(x: nat, y: nat, b: Byte)
    requires x < Mask(32) && y < Mask(32) && ByteIn(x, b) == ByteIn(y, b)
    ensures x == y
  {
    EightBits();
    XorStaysWithin(x, b, 32);
    XorStaysWithin(y, b, 32);
    StepsTell(Xor(x, b), Xor(y, b), 8);
    XorCommutes(x, b);
    XorCommutes(y, b);
    XorTells(b, x, y);
  }

  /** Over the same bytes, registers that differ stay different. */
  lemma {:induction false} RegisterTells(x: nat, y: nat, data: seq<Byte>, lo: nat, hi: nat)
    requires lo <= hi && (lo == hi || hi <= |data|) && x < Mask(32) && y < Mask(32)
    requires Register(x, data, lo, hi) == Register(y, data, lo, hi)
    ensures x == y
    decreases hi
  {
    if lo < hi {
      EightBits();
      RegisterFits(x, data, lo, hi - 1);
      RegisterFits(y, data, lo, hi - 1);
      ByteTells(Register(x, data, lo, hi - 1), Register(y, data, lo, hi - 1), data[hi - 1]);
      RegisterTells(x, y, data, lo, hi - 1);
    }
  }

  lemma {:induction false} MaskGrows(m: nat, n: nat)
    requires m <= n
    ensures Mask(m) <= Mask(n)
    decreases n - m
  {
    if m < n { MaskGrows(m + 1, n); }
  }

  /** From the same register, different blocks of up to four bytes part it. */
  lemma {:induction false} BlockTells(crc: nat, a: seq<Byte>, b: seq<Byte>, lo: nat, hi: nat)
    requires lo <= hi <= lo + 4 && hi <= |a| && hi <= |b| && crc < Mask(32)
    requires Register(crc, a, lo, hi) == Register(crc, b, lo, hi)
    ensures Word(a, lo, hi) == Word(b, lo, hi)
  {
    var u, v := Word(a, lo, hi), Word(b, lo, hi);
    RegisterIsOneDivision(crc, a, lo, hi);
    RegisterIsOneDivision(crc, b, lo, hi);
    WordFits(a, lo, hi);
    WordFits(b, lo, hi);
    MaskGrows(8 * (hi - lo), 32);
    XorStaysWithin(crc, u, 32);
    XorStaysWithin(crc, v, 32);
    StepsTell(Xor(crc, u), Xor(crc, v), 8 * (hi - lo));
    XorTells(crc, u, v);
  }

  lemma {:induction false} DigitTells(u: nat, v: nat, b: nat, c: nat, m: nat)
    requires u < m && v < m && u + b * m == v + c * m
    ensures b == c && u == v
  {
    if b < c { DigitAtLeast(b, c, m); }
    if c < b { DigitAtLeast(c, b, m); }
  }

  lemma {:induction false} DigitAtLeast(b: nat, c: nat, m: nat)
    requires b < c
    ensures b * m + m <= c * m
  {
    if b + 1 < c {
      DigitAtLeast(b, c - 1, m);
      assert (c - 1) * m + m == c * m;
    } else {
      assert (b + 1) * m == b * m + m;
    }
  }

  lemma {:induction false} WordTells(a: seq<Byte>, b: seq<Byte>, lo: nat, hi: nat)
    requires lo <= hi && hi <= |a| && hi <= |b| && Word(a, lo, hi) == Word(b, lo, hi)
    ensures a[lo..hi] == b[lo..hi]
    decreases hi
  {
    if lo < hi {
      var m := Mask(8 * (hi - 1 - lo));
      WordFits(a, lo, hi - 1);
      WordFits(b, lo, hi - 1);
      DigitTells(Word(a, lo, hi - 1), Word(b, lo, hi - 1), a[hi - 1], b[hi - 1], m);
      WordTells(a, b, lo, hi - 1);
      assert a[lo..hi] == a[lo..hi - 1] + [a[hi - 1]] && b[lo..hi] == b[lo..hi - 1] + [b[hi - 1]];
    }
  }

  lemma {:induction false} SameChecksum(a: seq<Byte>, b: seq<Byte>, lo: nat, hi: nat)
    requires |a| == |b| && lo <= hi <= lo + 4 && hi <= |a|
    requires a[..lo] == b[..lo] && a[hi..] == b[hi..] && Checksum(a) == Checksum(b)
    ensures a[lo..hi] == b[lo..hi]
  {
    var n := |a|;
    EightBits();
    var x, y := Register(ALL_ONES, a, 0, n), Register(ALL_ONES, b, 0, n);
    XorCommutes(x, ALL_ONES);
    XorCommutes(y, ALL_ONES);
    XorTells(ALL_ONES, x, y);
    SameRegister(ALL_ONES, a, b, 0, lo);
    SameAfter(a, b, hi);
    RegisterJoins(ALL_ONES, a, 0, lo, hi);
    RegisterJoins(ALL_ONES, b, 0, lo, hi);
    RegisterFits(ALL_ONES, a, 0, lo);
    BlockTells(Register(ALL_ONES, a, 0, lo), a, b, lo, hi);
    WordTells(a, b, lo, hi);
  }

  lemma {:induction false} SameAfter(a: seq<Byte>, b: seq<Byte>, hi: nat)
    requires |a| == |b| && hi <= |a| && a[hi..] == b[hi..]
    requires Register(ALL_ONES, a, 0, |a|) == Register(ALL_ONES, b, 0, |b|)
    ensures Register(ALL_ONES, a, 0, hi) == Register(ALL_ONES, b, 0, hi)
  {
    var n, u, v := |a|, Register(ALL_ONES, a, 0, hi), Register(ALL_ONES, b, 0, hi);
    EightBits();
    RegisterJoins(ALL_ONES, a, 0, hi, n);
    RegisterJoins(ALL_ONES, b, 0, hi, n);
    assert a[hi..n] == a[hi..] && b[hi..n] == b[hi..];
    SameRegister(v, a, b, hi, n);
    RegisterFits(ALL_ONES, a, 0, hi);
    RegisterFits(ALL_ONES, b, 0, hi);
    RegisterTells(u, v, a, hi, n);
  }

  /** Two files alike but for four bytes in a row, or fewer, have different checksums. */
  lemma {:induction false} ShortChangeIsSeen(a: seq<Byte>, b: seq<Byte>, lo: nat, hi: nat)
    requires |a| == |b| && lo <= hi <= lo + 4 && hi <= |a|
    requires a[..lo] == b[..lo] && a[hi..] == b[hi..] && a[lo..hi] != b[lo..hi]
    ensures Checksum(a) != Checksum(b)
  {
    if Checksum(a) == Checksum(b) { SameChecksum(a, b, lo, hi); }
  }

  lemma {:induction false} SameRegister(crc: nat, a: seq<Byte>, b: seq<Byte>, lo: nat, hi: nat)
    requires |a| == |b| && lo <= hi <= |a| && a[lo..hi] == b[lo..hi]
    ensures Register(crc, a, lo, hi) == Register(crc, b, lo, hi)
    decreases hi
  {
    if lo < hi {
      assert a[hi - 1] == a[lo..hi][hi - 1 - lo] == b[lo..hi][hi - 1 - lo] == b[hi - 1];
      assert a[lo..hi - 1] == a[lo..hi][..hi - 1 - lo] && b[lo..hi - 1] == b[lo..hi][..hi - 1 - lo];
      SameRegister(crc, a, b, lo, hi - 1);
    }
  }
}
