// 64-bit words and the numbers they stand for.
module Words64 {

  function Number(w: bv64): (n: nat)
    ensures n < 0x1_0000_0000_0000_0000
  {
    w as int
  }

  predicate Odd(w: bv64)
  {
    w & 1 == 1
  }

  function Halved(w: bv64): bv64
  {
    w >> 1
  }

  function Doubled(h: bv64, b: bv1): bv64
  {
    (h << 1) | b as bv64
  }

  lemma RawDoubled(h: bv64, b: bv1)
    requires h < 0x8000_0000_0000_0000
    ensures ((h << 1) | b as bv64) as int == 2 * h as int + b as int
  {
  }

  lemma DoubledIs(h: bv64, b: bv1)
    requires h < 0x8000_0000_0000_0000
    ensures Doubled(h, b) as int == 2 * h as int + b as int
  {
    RawDoubled(h, b);
  }

  lemma Split(w: bv64)
    ensures Doubled(Halved(w), (w & 1) as bv1) == w && Halved(w) < 0x8000_0000_0000_0000
  {
  }

  lemma LowBit(w: bv64)
    ensures (w & 1) as bv1 as int == if Odd(w) then 1 else 0
  {
  }

  lemma HalvedIs(w: bv64)
    ensures Number(w) == 2 * Number(Halved(w)) + if Odd(w) then 1 else 0
  {
    Split(w);
    LowBit(w);
    hide Doubled, Halved, Odd;
    DoubledIs(Halved(w), (w & 1) as bv1);
  }

  /** Half a word is half its number, rounded down. */
  lemma HalfIsNumber(w: bv64)
    ensures Number(Halved(w)) == Number(w) / 2 && Odd(w) == (Number(w) % 2 == 1)
    ensures Number(Halved(w)) < 0x8000_0000_0000_0000
  {
    hide Number, Halved, Odd;
    HalvedIs(w);
  }

  function TopSet(h: bv64): bv64
  {
    h | 0x8000_0000_0000_0000
  }

  lemma RawTopSet(h: bv64)
    requires h < 0x8000_0000_0000_0000
    ensures (h | 0x8000_0000_0000_0000) as int == h as int + 0x8000_0000_0000_0000
  {
  }

  lemma TopSetIs(h: bv64)
    requires h < 0x8000_0000_0000_0000
    ensures Number(TopSet(h)) == Number(h) + 0x8000_0000_0000_0000
  {
    RawTopSet(h);
  }

  lemma HalvedFits(w: bv64)
    ensures Halved(w) < 0x8000_0000_0000_0000
  {
  }

  /** The high word of low:hi shifted right by one. */
  function Joined(low: bv64, hi: bv64): bv64
  {
    (hi >> 1) | (low << 63)
  }

  lemma OddTop(low: bv64)
    requires Odd(low)
    ensures low << 63 == 0x8000_0000_0000_0000
  {
  }

  lemma EvenTop(low: bv64)
    requires !Odd(low)
    ensures low << 63 == 0
  {
  }

  lemma JoinedCases(low: bv64, hi: bv64)
    ensures Joined(low, hi) == if Odd(low) then TopSet(Halved(hi)) else Halved(hi)
  {
    if Odd(low) {
      OddTop(low);
    } else {
      EvenTop(low);
    }
  }

  lemma JoinedIsNumber(low: bv64, hi: bv64)
    ensures Number(Joined(low, hi)) == Number(hi) / 2 + if Odd(low) then 0x8000_0000_0000_0000 else 0
  {
    hide Joined, Odd, TopSet, Halved, Number;
    JoinedCases(low, hi);
    HalfIsNumber(hi);
    HalvedFits(hi);
    TopSetIs(Halved(hi));
  }

  /** A word is known by its number. */
  lemma WordOfNumber(w: bv64)
    ensures Number(w) as bv64 == w
  {
  }

  function Shifted(h: bv64, b: bv8): bv64
  {
    (h << 8) | b as bv64
  }

  lemma RawShifted(h: bv64, b: bv8)
    requires h < 0x100_0000_0000_0000
    ensures ((h << 8) | b as bv64) as int == 256 * h as int + b as int
  {
  }

  lemma ShiftedIs(h: bv64, b: bv8)
    requires h < 0x100_0000_0000_0000
    ensures Shifted(h, b) as int == 256 * h as int + b as int
  {
    RawShifted(h, b);
  }

  function Sum(x: bv64, y: bv64): bv64
  {
    x ^ y
  }

  lemma OddSum(x: bv64, y: bv64)
    ensures Odd(Sum(x, y)) == (Odd(x) != Odd(y))
  {
  }

  lemma HalvedSum(x: bv64, y: bv64)
    ensures Halved(Sum(x, y)) == Sum(Halved(x), Halved(y))
  {
  }
}
