/** The validator's CRC-32: a table of 256 entries against the bit-by-bit definition, and a
    checksum accumulated buffer by buffer against one taken in a single pass.

    The definition is the one of section 8 of RFC 1952: polynomial 0xEDB88320 in reflected
    form, the register all ones to begin with and complemented at the end. */
module Crc {
  import opened Wrappers
  import opened WordBits

  const POLYNOMIAL: nat := 0xEDB8_8320
  const ALL_ONES: nat := 0xFFFF_FFFF
  const TABLE_SIZE: nat := 256
  const BUFFER: nat := 65536
  const BYTE_BITS: nat := 8

  // ---- exclusive or ----

  function Xor(x: nat, y: nat): nat {
    if x == 0 then y else if y == 0 then x else 2 * Xor(x / 2, y / 2) + (x + y) % 2
  }

  lemma {:induction false} XorHalf(x: nat, y: nat)
    ensures Xor(x, y) / 2 == Xor(x / 2, y / 2) && Xor(x, y) % 2 == (x + y) % 2
  {
  }

  lemma {:induction false} XorSelf(x: nat)
    ensures Xor(x, x) == 0
  {
    if x > 0 { XorSelf(x / 2); }
  }

  lemma {:induction false} XorCommutes(x: nat, y: nat)
    ensures Xor(x, y) == Xor(y, x)
  {
    if x > 0 && y > 0 { XorCommutes(x / 2, y / 2); }
  }

  lemma {:induction false} ByHalves(x: nat, y: nat)
    requires x / 2 == y / 2 && x % 2 == y % 2
    ensures x == y
  {
  }

  lemma {:induction false} ParityAdds(x: nat, y: nat, z: nat, a: nat, b: nat)
    requires a % 2 == (x + y) % 2 && b % 2 == (y + z) % 2
    ensures (a + z) % 2 == (x + b) % 2
  {
  }

  lemma {:induction false} XorAssociates(x: nat, y: nat, z: nat)
    ensures Xor(Xor(x, y), z) == Xor(x, Xor(y, z))
    decreases x + y + z
  {
    if x + y + z > 0 {
      var a, b := Xor(x, y), Xor(y, z);
      XorHalf(x, y);
      XorHalf(y, z);
      XorHalf(a, z);
      XorHalf(x, b);
      XorAssociates(x / 2, y / 2, z / 2);
      ParityAdds(x, y, z, a, b);
      ByHalves(Xor(a, z), Xor(x, b));
    }
  }

  /** The same word on both sides cancels. */
  lemma {:induction false} XorCancels(p: nat, x: nat, y: nat)
    ensures Xor(Xor(p, x), Xor(p, y)) == Xor(x, y)
  {
    XorCommutes(p, x);
    XorAssociates(x, p, Xor(p, y));
    XorAssociates(p, p, y);
    XorSelf(p);
  }

  lemma {:induction false} XorStaysWithin(x: nat, y: nat, width: nat)
    requires x < Mask(width) && y < Mask(width)
    ensures Xor(x, y) < Mask(width)
  {
    MaskHalves(width);
    if x > 0 && y > 0 { XorStaysWithin(x / 2, y / 2, width - 1); }
  }

  // ---- the definition ----

  /** One bit of one byte. */
  function Step(c: nat): nat {
    if c % 2 == 1 then Xor(POLYNOMIAL, c / 2) else c / 2
  }

  function Steps(c: nat, n: nat): nat
    decreases n, c
  {
    if n == 0 then c else Steps(Step(c), n - 1)
  }

  /** One byte: exclusive-or it in, then eight bit steps. */
  function ByteIn(crc: nat, b: Byte): nat {
    Steps(Xor(crc, b), BYTE_BITS)
  }

  /** The register after the bytes of `data` from `lo` to `hi`. */
  function Register(crc: nat, data: seq<Byte>, lo: nat, hi: nat): nat
    requires lo <= hi && (lo == hi || hi <= |data|)
    decreases hi
  {
    if lo == hi then crc else ByteIn(Register(crc, data, lo, hi - 1), data[hi - 1])
  }

  function Checksum(data: seq<Byte>): nat {
    Xor(Register(ALL_ONES, data, 0, |data|), ALL_ONES)
  }

  // ---- the table ----

  /** Two words, each with or without the polynomial folded in. */
  lemma {:induction false} FoldsAreLinear(p: nat, x: nat, y: nat)
    ensures Xor(Xor(p, x), Xor(p, y)) == Xor(x, y)
    ensures Xor(Xor(p, x), y) == Xor(p, Xor(x, y))
    ensures Xor(x, Xor(p, y)) == Xor(p, Xor(x, y))
  {
    XorCancels(p, x, y);
    XorAssociates(p, x, y);
    XorCommutes(x, Xor(p, y));
    XorAssociates(p, y, x);
    XorCommutes(y, x);
  }

  lemma {:induction false} StepIsLinear(x: nat, y: nat)
    ensures Step(Xor(x, y)) == Xor(Step(x), Step(y))
  {
    XorHalf(x, y);
    FoldsAreLinear(POLYNOMIAL, x / 2, y / 2);
    ParityOfSum(x, y);
  }

  lemma {:induction false} ParityOfSum(x: nat, y: nat)
    ensures (x + y) % 2 == 1 <==> x % 2 != y % 2
  {
  }

  lemma {:induction false} StepsAreLinear(x: nat, y: nat, n: nat)
    ensures Steps(Xor(x, y), n) == Xor(Steps(x, n), Steps(y, n))
    decreases n
  {
    if n > 0 {
      StepIsLinear(x, y);
      StepsAreLinear(Step(x), Step(y), n - 1);
    }
  }

  lemma {:induction false} ShiftsOne(high: nat, n: nat)
    requires n > 0
    ensures high * Mask(n) == 2 * (high * Mask(n - 1))
  {
  }

  /** Bits below the register's low end shift out unchanged. */
  lemma {:induction false} HighBitsShift(h: nat, n: nat)
    ensures Steps(h * Mask(n), n) == h
  {
    if n > 0 {
      ShiftsOne(h, n);
      HighBitsShift(h, n - 1);
    }
  }

  /** A word is its low bits exclusive-or its high ones. */
  lemma {:induction false} Splits(low: nat, high: nat, n: nat)
    requires low < Mask(n)
    ensures Xor(low, high * Mask(n)) == low + high * Mask(n)
  {
    if n == 0 {
    } else {
      ShiftsOne(high, n);
      Splits(low / 2, high, n - 1);
      SplitsDouble(low, high * Mask(n - 1));
    }
  }

  lemma {:induction false} SplitsDouble(low: nat, x: nat)
    requires Xor(low / 2, x) == low / 2 + x
    ensures Xor(low, 2 * x) == low + 2 * x
  {
    XorHalf(low, 2 * x);
    ByHalves(Xor(low, 2 * x), low + 2 * x);
  }

  /** Shifting right, a bit at a time. */
  function Shifted(x: nat, n: nat): nat
    decreases n
  {
    if n == 0 then x else Shifted(x / 2, n - 1)
  }

  lemma {:induction false} XorShifts(x: nat, y: nat, n: nat)
    ensures Shifted(Xor(x, y), n) == Xor(Shifted(x, n), Shifted(y, n))
    decreases n
  {
    if n > 0 {
      XorHalf(x, y);
      XorShifts(x / 2, y / 2, n - 1);
    }
  }

  lemma {:induction false} ShiftedByEight(x: nat)
    ensures Shifted(x, 8) == x / 256
  {
    assert Shifted(x, 8) == Shifted(x / 2 / 2, 6);
    assert Shifted(x / 2 / 2, 6) == Shifted(x / 2 / 2 / 2 / 2, 4);
    assert Shifted(x / 2 / 2 / 2 / 2, 4) == Shifted(x / 2 / 2 / 2 / 2 / 2 / 2, 2);
  }

  /** A byte only touches the low byte. */
  lemma {:induction false} XorKeepsHigh(x: nat, b: Byte)
    ensures Xor(x, b) / 256 == x / 256
  {
    XorShifts(x, b, 8);
    ShiftedByEight(x);
    ShiftedByEight(b);
    ShiftedByEight(Xor(x, b));
    assert Xor(x / 256, 0) == x / 256;
  }

  lemma {:induction false} MaskAdds(a: nat, b: nat)
    ensures Mask(a + b) == Mask(a) * Mask(b)
  {
    if b > 0 {
      MaskAdds(a, b - 1);
      ShiftsOne(Mask(a), b);
    }
  }

  lemma {:induction false} EightBits()
    ensures Mask(8) == 256 && Mask(32) == 0x1_0000_0000
  {
    MaskAdds(4, 4);
    MaskAdds(8, 8);
    MaskAdds(16, 16);
  }

  /** Eight steps of a word: eight steps of its low byte, and the rest shifted down. */
  lemma {:induction false} EightStepsOfWord(v: nat, n: nat)
    requires n == BYTE_BITS
    ensures Steps(v, n) == Xor(Steps(v % 256, n), v / 256)
  {
    var m := Mask(n);
    MaskOfByte(n);
    assert v == v % m + (v / m) * m;
    StepsOfWord(v % m, v / m, n);
  }

  lemma {:induction false} MaskOfByte(n: nat)
    requires n == BYTE_BITS
    ensures Mask(n) == 256
  {
    EightBits();
  }

  lemma {:induction false} StepsOfWord(low: nat, high: nat, n: nat)
    requires low < Mask(n)
    ensures Steps(low + high * Mask(n), n) == Xor(Steps(low, n), high)
  {
    Splits(low, high, n);
    StepsAreLinear(low, high * Mask(n), n);
    HighBitsShift(high, n);
  }

  /** Looking the low byte up and shifting the rest is eight bit steps at once. */
  lemma {:induction false} LookupIsEightSteps(crc: nat, b: Byte)
    ensures Xor(Steps(Xor(crc, b) % TABLE_SIZE, BYTE_BITS), crc / TABLE_SIZE) == ByteIn(crc, b)
  {
    XorKeepsHigh(crc, b);
    EightStepsOfWord(Xor(crc, b), BYTE_BITS);
  }

  /** The table, entry by entry. */
  predicate IsTable(table: seq<nat>) {
    |table| == TABLE_SIZE && forall i :: 0 <= i < TABLE_SIZE ==> table[i] == Steps(i, BYTE_BITS)
  }

  method BuildTable() returns (table: seq<nat>)
    ensures IsTable(table)
  {
    table := [];
    for i := 0 to TABLE_SIZE
      invariant |table| == i && forall j :: 0 <= j < i ==> table[j] == Steps(j, BYTE_BITS)
    {
      var c: nat := i;
      for k := 0 to BYTE_BITS
        invariant Steps(c, BYTE_BITS - k) == Steps(i, BYTE_BITS)
      {
        c := if c % 2 == 1 then Xor(POLYNOMIAL, c / 2) else c / 2;
      }
      table := table + [c];
    }
  }

  /** The running register over one buffer, a table lookup for each byte. */
  method Update(table: seq<nat>, crc: nat, data: seq<Byte>) returns (r: nat)
    requires IsTable(table)
    ensures r == Register(crc, data, 0, |data|)
  {
    r := crc;
    for i := 0 to |data|
      invariant r == Register(crc, data, 0, i)
    {
      LookupIsEightSteps(r, data[i]);
      r := Xor(table[Xor(r, data[i]) % TABLE_SIZE], r / TABLE_SIZE);
    }
  }

  // ---- ranges ----

  /** The register does not notice where one buffer ends and the next begins. */
  lemma {:induction false} RegisterJoins(crc: nat, data: seq<Byte>, lo: nat, at: nat, hi: nat)
    requires lo <= at <= hi && (lo == hi || hi <= |data|)
    ensures Register(Register(crc, data, lo, at), data, at, hi) == Register(crc, data, lo, hi)
    decreases hi
  {
    if at < hi { RegisterJoins(crc, data, lo, at, hi - 1); }
  }

  /** Nor where a buffer's bytes came from. */
  lemma {:induction false} RegisterOfCopy(crc: nat, data: seq<Byte>, copy: seq<Byte>, lo: nat, n: nat)
    requires lo + n <= |data| && n <= |copy| && forall k :: 0 <= k < n ==> copy[k] == data[lo + k]
    ensures Register(crc, copy, 0, n) == Register(crc, data, lo, lo + n)
    decreases n
  {
    if n > 0 {
      RegisterOfCopy(crc, data, copy, lo, n - 1);
      assert copy[n - 1] == data[lo + (n - 1)];
    }
  }

  /** The bytes a source returns for a read: as many as it has. */
  function Read(source: seq<Byte>, at: nat, want: nat): (got: seq<Byte>)
    ensures |got| == want <==> want == 0 || at + want <= |source|
    ensures |got| > 0 ==> at + |got| <= |source| && got == source[at..at + |got|]
  {
    if at > |source| then [] else source[at..if at + want <= |source| then at + want else |source|]
  }

  datatype RangeError = Backwards | ShortRead(at: nat)

  /** One buffer of a range. */
  method Feed(table: seq<nat>, source: seq<Byte>, at: nat, take: nat, crc: nat) returns (r: Option<nat>)
    requires IsTable(table) && 0 < take <= 65536
    ensures r.Some? <==> at + take <= |source|
    ensures r.Some? ==> r.value == Register(crc, source, at, at + take)
  {
    var got := Read(source, at, take);
    if |got| != take { return None; }
    var next := Update(table, crc, got);
    RegisterOfCopy(crc, source, got, at, take);
    return Some(next);
  }

  /** The register over a range, one bounded buffer at a time. */
  method Accumulate(table: seq<nat>, source: seq<Byte>, start: nat, end: nat, initial: nat) returns (r: Result<nat, RangeError>)
    requires IsTable(table) && start <= end
    ensures r.Success? <==> start == end || end <= |source|
    ensures r.Success? ==> r.value == Register(initial, source, start, end)
  {
    var crc, at := initial, start;
    while at < end
      invariant start <= at <= end && (at == start || at <= |source|)
      invariant crc == Register(initial, source, start, at)
    {
      var take := if end - at < BUFFER then end - at else BUFFER;
      var next := Feed(table, source, at, take, crc);
      if next.None? { return Failure(ShortRead(at)); }
      RegisterJoins(initial, source, start, at, at + take);
      crc, at := next.value, at + take;
    }
    return Success(crc);
  }

  /** The bytes of a range, which may be empty anywhere. */
  function Slice(source: seq<Byte>, start: nat, end: nat): seq<Byte>
    requires start <= end && (start == end || end <= |source|)
  {
    if start == end then [] else source[start..end]
  }

  /** A range's checksum through one fixed buffer: the checksum of exactly those bytes. */
  method Range(source: seq<Byte>, start: nat, end: nat) returns (r: Result<nat, RangeError>)
    ensures r.Success? <==> start <= end && (start == end || end <= |source|)
    ensures r.Success? ==> r.value == Checksum(Slice(source, start, end))
  {
    if end < start { return Failure(Backwards); }
    var table := BuildTable();
    var crc := Accumulate(table, source, start, end, ALL_ONES);
    if crc.Failure? { return crc; }
    if start < end { RegisterOfCopy(ALL_ONES, source, source[start..end], start, end - start); }
    return Success(Xor(crc.value, ALL_ONES));
  }

  /** Every register and every checksum is a 32-bit word. */
  lemma {:induction false} RegisterFits(crc: nat, data: seq<Byte>, lo: nat, hi: nat)
    requires crc < Mask(32) && POLYNOMIAL < Mask(32) && lo <= hi && (lo == hi || hi <= |data|)
    ensures Register(crc, data, lo, hi) < Mask(32)
    decreases hi
  {
    if lo < hi {
      RegisterFits(crc, data, lo, hi - 1);
      ByteFits(Register(crc, data, lo, hi - 1), data[hi - 1]);
    }
  }

  lemma {:induction false} ByteFits(crc: nat, b: Byte)
    requires crc < Mask(32) && POLYNOMIAL < Mask(32)
    ensures ByteIn(crc, b) < Mask(32)
  {
    EightBits();
    XorStaysWithin(crc, b, 32);
    StepsFit(Xor(crc, b), BYTE_BITS);
  }

  lemma {:induction false} ChecksumFits(data: seq<Byte>)
    ensures Checksum(data) <= 0xFFFF_FFFF
  {
    EightBits();
    RegisterFits(ALL_ONES, data, 0, |data|);
    XorStaysWithin(Register(ALL_ONES, data, 0, |data|), ALL_ONES, 32);
  }

  lemma {:induction false} StepFits(c: nat)
    requires c < Mask(32) && POLYNOMIAL < Mask(32)
    ensures Step(c) < Mask(32)
  {
    if c % 2 == 1 { XorStaysWithin(POLYNOMIAL, c / 2, 32); }
  }

  lemma {:induction false} StepsFit(c: nat, n: nat)
    requires c < Mask(32) && POLYNOMIAL < Mask(32)
    ensures Steps(c, n) < Mask(32)
    decreases n
  {
    if n > 0 {
      StepFits(c);
      StepsFit(Step(c), n - 1);
    }
  }
}
