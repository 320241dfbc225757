/** Unsigned words bit by bit: the bitwise operators by halves, single-bit masks, and
    counting set bits by clearing the lowest. */
module WordBits {

  function And(x: nat, y: nat): nat {
    if x == 0 || y == 0 then 0 else 2 * And(x / 2, y / 2) + (if x % 2 == 1 && y % 2 == 1 then 1 else 0)
  }

  function Or(x: nat, y: nat): nat {
    if x == 0 then y else if y == 0 then x else 2 * Or(x / 2, y / 2) + (if x % 2 == 1 || y % 2 == 1 then 1 else 0)
  }

  /** How many bits are set. */
  function Pop(w: nat): nat {
    if w == 0 then 0 else w % 2 + Pop(w / 2)
  }

  /** One bit, `b` places up. */
  function Mask(b: nat): (m: nat)
    ensures m > 0
  {
    if b == 0 then 1 else 2 * Mask(b - 1)
  }

  /** The word's bit `b`. */
  predicate IsSet(w: nat, b: nat) {
    And(w, Mask(b)) != 0
  }

  lemma {:induction false} MaskHalves(b: nat)
    ensures b > 0 ==> Mask(b) / 2 == Mask(b - 1) && Mask(b) % 2 == 0
  {
  }

  lemma {:induction false} AndSelf(w: nat)
    ensures And(w, w) == w
  {
    if w > 0 { AndSelf(w / 2); }
  }

  lemma {:induction false} AndZero(w: nat)
    ensures And(w, 0) == 0 && And(0, w) == 0 && Or(w, 0) == w && Or(0, w) == w
  {
  }

  /** A word's lowest bit is its parity, and every other bit is a bit of its half. */
  lemma {:induction false} BitOfHalf(w: nat, b: nat)
    ensures IsSet(w, 0) <==> w % 2 == 1
    ensures b > 0 ==> (IsSet(w, b) <==> IsSet(w / 2, b - 1))
  {
    AndZero(w / 2);
    if b > 0 { MaskHalves(b); }
  }

  lemma {:induction false} OrHalf(w: nat, b: nat)
    ensures Or(w, Mask(0)) / 2 == w / 2 && Or(w, Mask(0)) % 2 == 1
    ensures b > 0 ==> Or(w, Mask(b)) / 2 == Or(w / 2, Mask(b - 1)) && Or(w, Mask(b)) % 2 == w % 2
  {
    AndZero(w / 2);
    if b > 0 {
      MaskHalves(b);
      AndZero(Mask(b - 1));
    }
  }

  /** Setting a bit sets that bit and no other. */
  lemma {:induction false} SettingSets(w: nat, b: nat, c: nat)
    ensures IsSet(Or(w, Mask(b)), c) <==> c == b || IsSet(w, c)
  {
    OrHalf(w, b);
    BitOfHalf(w, c);
    BitOfHalf(Or(w, Mask(b)), c);
    if c > 0 && b > 0 { SettingSets(w / 2, b - 1, c - 1); }
  }

  /** Setting a clear bit adds one to the count. */
  lemma {:induction false} SettingAddsOne(w: nat, b: nat)
    requires !IsSet(w, b)
    ensures Pop(Or(w, Mask(b))) == Pop(w) + 1
  {
    OrHalf(w, b);
    BitOfHalf(w, b);
    if b > 0 { SettingAddsOne(w / 2, b - 1); }
  }

  /** Setting a low bit keeps the word within its width. */
  lemma {:induction false} SettingStaysWithin(w: nat, b: nat, width: nat)
    requires b < width && w < Mask(width)
    ensures Or(w, Mask(b)) < Mask(width)
  {
    OrHalf(w, b);
    MaskHalves(width);
    if b > 0 { SettingStaysWithin(w / 2, b - 1, width - 1); }
  }

  /** Clearing the lowest set bit takes exactly one from the count. */
  lemma {:induction false} ClearingTakesOne(w: nat)
    requires w > 0
    ensures Pop(And(w, w - 1)) == Pop(w) - 1
  {
    if w % 2 == 1 {
      AndSelf(w / 2);
      AndZero(w);
    } else {
      ClearingTakesOne(w / 2);
      assert (w - 1) / 2 == w / 2 - 1;
    }
  }

  lemma {:induction false} ClearLowers(w: nat)
    requires w > 0
    ensures And(w, w - 1) < w
  {
    AndAtMost(w - 1, w);
  }

  lemma {:induction false} AndAtMost(x: nat, y: nat)
    ensures And(y, x) <= x
  {
    if x > 0 && y > 0 { AndAtMost(x / 2, y / 2); }
  }

  /** Count the set bits of a word, clearing the lowest until none is left. */
  method CountBits(word: nat) returns (total: nat)
    ensures total == Pop(word)
  {
    var w := word;
    total := 0;
    while w != 0
      invariant total + Pop(w) == Pop(word)
    {
      ClearingTakesOne(w);
      ClearLowers(w);
      w := And(w, w - 1);
      total := total + 1;
    }
  }
}
