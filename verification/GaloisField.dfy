// The field GF(2^128) of GHASH in the bit order of NIST SP 800-38D, and the
// source's doublings. Word operations are named, so that proofs about elements
// can hide their bits.
module GaloisField {

  /** A block: the coefficient of x^0 is the most significant bit of low. */
  datatype FieldElement = FieldElement(low: bv64, hi: bv64)

  const ZERO := FieldElement(0, 0)

  function Xor(x: bv64, y: bv64): bv64
  {
    x ^ y
  }

  /** Addition is exclusive or. */
  function Add(x: FieldElement, y: FieldElement): FieldElement
  {
    FieldElement(Xor(x.low, y.low), Xor(x.hi, y.hi))
  }

  lemma RawXorLaws(x: bv64, y: bv64, z: bv64)
    ensures x ^ 0 == x && 0 ^ x == x && x ^ x == 0 && x ^ y == y ^ x
    ensures (x ^ y) ^ z == x ^ (y ^ z)
  {
  }

  lemma XorLaws(x: bv64, y: bv64, z: bv64)
    ensures Xor(x, 0) == x && Xor(0, x) == x && Xor(x, x) == 0
    ensures Xor(x, y) == Xor(y, x)
    ensures Xor(Xor(x, y), z) == Xor(x, Xor(y, z))
  {
    RawXorLaws(x, y, z);
  }

  lemma AddLaws(x: FieldElement, y: FieldElement, z: FieldElement)
    ensures Add(x, ZERO) == x && Add(ZERO, x) == x && Add(x, x) == ZERO
    ensures Add(x, y) == Add(y, x)
    ensures Add(Add(x, y), z) == Add(x, Add(y, z))
  {
    hide Xor;
    XorLaws(x.low, y.low, z.low);
    XorLaws(x.hi, y.hi, z.hi);
  }

  function Half(x: bv64): bv64
  {
    x >> 1
  }

  /** The high word of low:hi shifted right by one. */
  function HalfHi(low: bv64, hi: bv64): bv64
  {
    (hi >> 1) | (low << 63)
  }

  /** What leaves at x^128 comes back as 1 + x + x^2 + x^7. */
  function Carry(hi: bv64): bv64
  {
    if hi & 1 == 1 then 0xe100_0000_0000_0000 else 0
  }

  /** Multiplication by x: a right shift, because of the bit order, and a reduction. */
  function Double(x: FieldElement): FieldElement
  {
    FieldElement(Xor(Half(x.low), Carry(x.hi)), HalfHi(x.low, x.hi))
  }

  lemma HalfHiXor(a: bv64, b: bv64, c: bv64, d: bv64)
    ensures HalfHi(Xor(a, c), Xor(b, d)) == Xor(HalfHi(a, b), HalfHi(c, d))
  {
  }

  lemma HalfXor(a: bv64, b: bv64)
    ensures Half(Xor(a, b)) == Xor(Half(a), Half(b))
  {
  }

  lemma CarryXor(a: bv64, b: bv64)
    ensures Carry(Xor(a, b)) == Xor(Carry(a), Carry(b))
  {
    LowBitXor(a, b);
  }

  lemma LowBitXor(a: bv64, b: bv64)
    ensures (a ^ b) & 1 == (a & 1) ^ (b & 1) && (a & 1 == 0 || a & 1 == 1) && (b & 1 == 0 || b & 1 == 1)
  {
  }

  lemma XorSwap(a: bv64, b: bv64, c: bv64, d: bv64)
    ensures Xor(Xor(a, b), Xor(c, d)) == Xor(Xor(a, c), Xor(b, d))
  {
    hide Xor;
    XorLaws(a, b, Xor(c, d));
    XorLaws(b, c, d);
    XorLaws(c, b, d);
    XorLaws(a, c, Xor(b, d));
  }

  /** Multiplication by x distributes over addition. */
  lemma DoubleAdd(x: FieldElement, y: FieldElement)
    ensures Double(Add(x, y)) == Add(Double(x), Double(y))
  {
    hide Xor, Half, HalfHi, Carry;
    HalfHiXor(x.low, x.hi, y.low, y.hi);
    HalfXor(x.low, y.low);
    CarryXor(x.hi, y.hi);
    XorSwap(Half(x.low), Half(y.low), Carry(x.hi), Carry(y.hi));
  }

  lemma DoubleZero()
    ensures Double(ZERO) == ZERO
  {
  }

  const REDUCTION_TABLE: seq<bv64> := [
    0x0000, 0x1c20, 0x3840, 0x2460, 0x7080, 0x6ca0, 0x48c0, 0x54e0,
    0xe100, 0xfd20, 0xd940, 0xc560, 0x9180, 0x8da0, 0xa9c0, 0xb5e0]

  lemma NibbleRange(w: bv64)
    ensures (w & 0xf) as int < 16
  {
  }

  /** The four bits that leave at x^128, reduced by one look-up. */
  function Reduction(hi: bv64): bv64
  {
    NibbleRange(hi);
    REDUCTION_TABLE[(hi & 0xf) as int] << 48
  }

  function Sixteenth(x: bv64): bv64
  {
    x >> 4
  }

  /** The high word of low:hi shifted right by four. */
  function SixteenthHi(low: bv64, hi: bv64): bv64
  {
    (hi >> 4) | (low << 60)
  }

  /** Multiplication by x^4. */
  function Times16(x: FieldElement): FieldElement
  {
    FieldElement(Xor(Sixteenth(x.low), Reduction(x.hi)), SixteenthHi(x.low, x.hi))
  }

  /** What two, three and four doublings carry back in. */
  function Carry2(hi: bv64): bv64
  {
    Xor(Half(Carry(hi)), Carry(Half(hi)))
  }

  function Carry3(hi: bv64): bv64
  {
    Xor(Half(Carry2(hi)), Carry(Half(Half(hi))))
  }

  function Carry4(hi: bv64): bv64
  {
    Xor(Half(Carry3(hi)), Carry(Half(Half(Half(hi)))))
  }

  lemma CarryOfNibble(hi: bv64, m: bv64)
    requires m == hi & 0xf
    ensures Carry(hi) == Carry(m) && Carry(Half(hi)) == Carry(Half(m))
    ensures Carry(Half(Half(hi))) == Carry(Half(Half(m)))
    ensures Carry(Half(Half(Half(hi)))) == Carry(Half(Half(Half(m))))
  {
    assert hi & 1 == m & 1;
    assert (hi >> 1) & 1 == (m >> 1) & 1;
    assert (hi >> 1 >> 1) & 1 == (m >> 1 >> 1) & 1;
    assert (hi >> 1 >> 1 >> 1) & 1 == (m >> 1 >> 1 >> 1) & 1;
  }

  /** The table holds what four doublings carry back in. */
  lemma ReductionIsCarry4(hi: bv64)
    ensures Reduction(hi) == Carry4(hi)
  {
    var m := hi & 0xf;
    CarryOfNibble(hi, m);
    CarryTable(m);
  }

  lemma CarryTable(m: bv64)
    requires m < 16
    ensures m as int < 16 && Carry4(m) == REDUCTION_TABLE[m as int] << 48
  {
  }

  /** The bits that four doublings carry are the four lowest of the high word. */
  lemma CarryOfHalfHi(low: bv64, hi: bv64)
    ensures Carry(HalfHi(low, hi)) == Carry(Half(hi))
    ensures Carry(Half(HalfHi(low, hi))) == Carry(Half(Half(hi)))
    ensures Carry(Half(Half(HalfHi(low, hi)))) == Carry(Half(Half(Half(hi))))
  {
    assert ((hi >> 1) | (low << 63)) & 1 == (hi >> 1) & 1;
    assert (((hi >> 1) | (low << 63)) >> 1) & 1 == (hi >> 1 >> 1) & 1;
    assert (((hi >> 1) | (low << 63)) >> 1 >> 1) & 1 == (hi >> 1 >> 1 >> 1) & 1;
  }

  /** What is carried back in does not reach the bits that move to the high word. */
  lemma CarriesAreHigh(low: bv64, hi: bv64, h: bv64)
    ensures HalfHi(Xor(low, Carry(hi)), h) == HalfHi(low, h)
    ensures HalfHi(Xor(low, Carry2(hi)), h) == HalfHi(low, h)
    ensures HalfHi(Xor(low, Carry3(hi)), h) == HalfHi(low, h)
  {
    hide Carry;
    CarryValues(hi);
    CarryValues(Half(hi));
    CarryValues(Half(Half(hi)));
    OddBits(low, Carry(hi), h);
    OddBits(low, Carry2(hi), h);
    OddBits(low, Carry3(hi), h);
  }

  lemma CarryValues(hi: bv64)
    ensures Carry(hi) == 0 || Carry(hi) == 0xe100_0000_0000_0000
  {
  }

  lemma OddBits(low: bv64, c: bv64, h: bv64)
    requires c & 1 == 0
    ensures HalfHi(Xor(low, c), h) == HalfHi(low, h)
  {
    assert (low ^ c) << 63 == low << 63;
  }

  lemma FourShifts(l: bv64, h: bv64)
    ensures Half(Half(Half(Half(l)))) == Sixteenth(l)
    ensures HalfHi(Half(Half(Half(l))), HalfHi(Half(Half(l)), HalfHi(Half(l), HalfHi(l, h))))
         == SixteenthHi(l, h)
  {
  }

  /** The element after two, three and four doublings. */
  lemma DoubleTwice(x: FieldElement)
    ensures Double(Double(x)) == FieldElement(Xor(Half(Half(x.low)), Carry2(x.hi)),
                                              HalfHi(Half(x.low), HalfHi(x.low, x.hi)))
  {
    hide Xor, Half, HalfHi, Carry;
    HalfXor(Half(x.low), Carry(x.hi));
    CarryOfHalfHi(x.low, x.hi);
    XorLaws(Half(Half(x.low)), Half(Carry(x.hi)), Carry(Half(x.hi)));
    CarriesAreHigh(Half(x.low), x.hi, HalfHi(x.low, x.hi));
  }

  lemma DoubleThrice(x: FieldElement)
    ensures Double(Double(Double(x)))
         == FieldElement(Xor(Half(Half(Half(x.low))), Carry3(x.hi)),
                         HalfHi(Half(Half(x.low)), HalfHi(Half(x.low), HalfHi(x.low, x.hi))))
  {
    hide Xor, Half, HalfHi, Carry, Carry2;
    var h1 := HalfHi(x.low, x.hi);
    DoubleTwice(x);
    HalfXor(Half(Half(x.low)), Carry2(x.hi));
    CarryOfHalfHi(Half(x.low), h1);
    CarryOfHalfHi(x.low, x.hi);
    XorLaws(Half(Half(Half(x.low))), Half(Carry2(x.hi)), Carry(Half(Half(x.hi))));
    CarriesAreHigh(Half(Half(x.low)), x.hi, HalfHi(Half(x.low), h1));
  }

  /** Multiplication by x^4 is four multiplications by x. */
  lemma Times16IsFourDoubles(x: FieldElement)
    ensures Times16(x) == Double(Double(Double(Double(x))))
  {
    hide Xor, Half, HalfHi, Carry, Carry2, Carry3, Reduction, Sixteenth, SixteenthHi;
    var h1 := HalfHi(x.low, x.hi);
    var h2 := HalfHi(Half(x.low), h1);
    DoubleThrice(x);
    HalfXor(Half(Half(Half(x.low))), Carry3(x.hi));
    CarryOfHalfHi(Half(Half(x.low)), h2);
    CarryOfHalfHi(Half(x.low), h1);
    CarryOfHalfHi(x.low, x.hi);
    XorLaws(Half(Half(Half(Half(x.low)))), Half(Carry3(x.hi)), Carry(Half(Half(Half(x.hi)))));
    CarriesAreHigh(Half(Half(Half(x.low))), x.hi, HalfHi(Half(Half(x.low)), h2));
    FourShifts(x.low, x.hi);
    ReductionIsCarry4(x.hi);
  }
}
