// The exponentiation chain crecip: z to the power p - 2.
module Reciprocal {
  import opened Arith
  import opened Bits
  import opened FieldSpec
  import opened UnrolledProduct
  import opened LimbArithmetic

  function Power(x: Elem, n: nat): Elem
  {
    if n == 0 then 1 else Mul(x, Power(x, n - 1))
  }

  /** The exponent of crecip, kept symbolic. */
  function ReciprocalExponent(): nat
  {
    PIsPow2();
    Pow2(255) - 21
  }

  lemma ReciprocalExponentIsPMinus2()
    ensures ReciprocalExponent() == P - 2
  {
    PIsPow2();
  }

  lemma MulAssoc(a: Elem, b: Elem, c: Elem)
    ensures Mul(Mul(a, b), c) == Mul(a, Mul(b, c))
  {
    hide Times;
    ResMul(Times(a, b), c);
    ResMul(a, Times(b, c));
    TimesAssoc(a, b, c);
  }

  lemma {:induction false} PowerAdd(x: Elem, m: nat, n: nat)
    ensures Mul(Power(x, m), Power(x, n)) == Power(x, m + n)
  {
    if m == 0 {
      MulOne(Power(x, n));
    } else {
      hide Mul;
      PowerAdd(x, m - 1, n);
      MulAssoc(x, Power(x, m - 1), Power(x, n));
    }
  }

  lemma MulOne(y: Elem)
    ensures Mul(1, y) == y
  {
  }

  /** The element in a is the power of x with exponent e. */
  ghost predicate Holds(a: array<limb>, x: Elem, e: nat)
    reads a
  {
    Short(a, 1) && Element(a) == Power(x, e)
  }

  method SquarePower(output: array<limb>, in1: array<limb>, ghost x: Elem, ghost e: nat)
    requires output.Length == 10 && Holds(in1, x, e)
    modifies output
    ensures Holds(output, x, 2 * e)
  {
    ShortIsBelow62(in1, 1);
    PowerAdd(x, e, e);
    hide Element, Within, Power, Mul;
    FSquare(output, in1);
  }

  method MulPower(output: array<limb>, in1: array<limb>, in2: array<limb>,
                  ghost x: Elem, ghost e: nat, ghost e': nat)
    requires output.Length == 10 && Holds(in1, x, e) && Holds(in2, x, e')
    modifies output
    ensures Holds(output, x, e + e')
  {
    ShortIsBelow62(in1, 1);
    ShortIsBelow62(in2, 1);
    PowerAdd(x, e, e');
    hide Element, Within, Power, Mul;
    FMul(output, in1, in2);
  }

  /** All ones: 2^n - 1. */
  function Ones(n: nat): nat
  {
    Pow2(n) - 1
  }

  lemma OnesShift(m: nat, n: nat)
    ensures Times(Pow2(n), Ones(m)) + Ones(n) == Ones(n + m)
  {
    hide Times;
    Pow2Add(n, m);
    TimesAdd(Pow2(m), 1, Pow2(n));
    TimesSigns(Pow2(n), 1);
  }

  lemma DoubleShift(i: nat, e: nat)
    ensures Times(Pow2(i + 1), e) == 2 * Times(Pow2(i), e)
    ensures Times(Pow2(0), e) == e
  {
    hide Times;
    TimesTwo(Pow2(i), e);
    TimesSigns(1, e);
  }

  lemma TimesNat(i: nat, e: nat)
    ensures Times(Pow2(i), e) >= 0
  {
    TimesPositive(Pow2(i), e);
  }

  /** n squarings back and forth between two buffers: the recurring loop of crecip. */
  method SquareTimes(t0: array<limb>, t1: array<limb>, source: array<limb>, n: nat,
                     ghost x: Elem, ghost e: nat)
    requires t0.Length == 10 && t1.Length == 10 && t0 != t1 && t0 != source
    requires n >= 2 && n % 2 == 0 && Holds(source, x, e)
    modifies t0, t1
    ensures Times(Pow2(n), e) >= 0 && Holds(t1, x, Times(Pow2(n), e))
  {
    hide Holds, Times, Pow2;
    DoubleShift(0, e);
    DoubleShift(1, e);
    SquarePower(t0, source, x, e);
    SquarePower(t1, t0, x, 2 * e);
    TimesNat(2, e);
    var i := 2;
    while i < n
      invariant 2 <= i <= n && i % 2 == 0
      invariant Times(Pow2(i), e) >= 0 && Holds(t1, x, Times(Pow2(i), e))
    {
      DoubleShift(i, e);
      DoubleShift(i + 1, e);
      SquarePower(t0, t1, x, Times(Pow2(i), e));
      SquarePower(t1, t0, x, 2 * Times(Pow2(i), e));
      i := i + 2;
    }
  }

  /** n squarings and a product that fills in the ones again. */
  method ShiftOnes(output: array<limb>, t0: array<limb>, t1: array<limb>, source: array<limb>,
                   fill: array<limb>, n: nat, ghost x: Elem, ghost m: nat)
    requires output.Length == 10 && t0.Length == 10 && t1.Length == 10
    requires t0 != t1 && t0 != source && fill != t0 && fill != t1
    requires n >= 2 && n % 2 == 0 && Holds(source, x, Ones(m)) && Holds(fill, x, Ones(n))
    modifies output, t0, t1
    ensures Holds(output, x, Ones(n + m))
  {
    hide Holds, Times, Pow2, Ones;
    SquareTimes(t0, t1, source, n, x, Ones(m));
    MulPower(output, t1, fill, x, Times(Pow2(n), Ones(m)), Ones(n));
    OnesShift(m, n);
  }

  lemma SmallOnes()
    ensures Ones(5) == 31 && Ones(10) == 1023
  {
    Pow2Small();
    Pow2Add(2, 8);
  }

  lemma LastExponent()
    ensures 32 * Ones(250) + 11 == ReciprocalExponent()
  {
    hide Times;
    Pow2Small();
    Pow2Add(5, 250);
    Times32(Pow2(250));
  }

  lemma Times32(x: int)
    ensures Times(32, x) == 32 * x
  {
  }

  /** The exponentiation chain: the steps of the source, in four methods. */
  method CRecip(output: array<limb>, z: array<limb>)
    requires output.Length == 10 && Short(z, 1)
    modifies output
    ensures Short(output, 1)
    ensures Element(output) == Power(old(Element(z)), ReciprocalExponent())
  {
    ghost var x := Element(z);
    StartPower(z);
    hide Element, Short, Power, Holds, Ones, ReciprocalExponent;
    var z11, z2_5_0 := new limb[10], new limb[10];
    Start(z11, z2_5_0, z, x);
    var t0 := new limb[10];
    Middle(t0, z2_5_0, x);
    Finish(output, t0, z11, x);
    IsHeld(output, x, ReciprocalExponent());
  }

  lemma StartPower(z: array<limb>)
    requires Short(z, 1)
    ensures Holds(z, Element(z), 1)
  {
    assert Power(Element(z), 1) == Mul(Element(z), 1);
  }

  lemma IsHeld(a: array<limb>, x: Elem, e: nat)
    requires Holds(a, x, e)
    ensures Short(a, 1) && Element(a) == Power(x, e)
  {
  }

  /** Up to 2^5 - 1, and 11 on the way. */
  method Start(z11: array<limb>, z2_5_0: array<limb>, z: array<limb>, ghost x: Elem)
    requires z11.Length == 10 && z2_5_0.Length == 10 && z11 != z2_5_0 && z11 != z && z2_5_0 != z
    requires Holds(z, x, 1)
    modifies z11, z2_5_0
    ensures Holds(z11, x, 11) && Holds(z2_5_0, x, Ones(5))
  {
    SmallOnes();
    hide Holds, Ones;
    var z2, z9, t0, t1 := new limb[10], new limb[10], new limb[10], new limb[10];
    SquarePower(z2, z, x, 1);
    SquarePower(t1, z2, x, 2);
    SquarePower(t0, t1, x, 4);
    MulPower(z9, t0, z, x, 8, 1);
    MulPower(z11, z9, z2, x, 9, 2);
    SquarePower(t0, z11, x, 11);
    MulPower(z2_5_0, t0, z9, x, 22, 9);
  }

  /** From 2^5 - 1 to 2^10 - 1. */
  method Ten(z2_10_0: array<limb>, z2_5_0: array<limb>, ghost x: Elem)
    requires z2_10_0.Length == 10 && z2_10_0 != z2_5_0 && Holds(z2_5_0, x, Ones(5))
    modifies z2_10_0
    ensures Holds(z2_10_0, x, Ones(10))
  {
    SmallOnes();
    hide Holds, Ones;
    var t0, t1 := new limb[10], new limb[10];
    SquarePower(t0, z2_5_0, x, 31);
    SquarePower(t1, t0, x, 62);
    SquarePower(t0, t1, x, 124);
    SquarePower(t1, t0, x, 248);
    SquarePower(t0, t1, x, 496);
    MulPower(z2_10_0, t0, z2_5_0, x, 992, 31);
  }

  /** From 2^5 - 1 to 2^250 - 1. */
  method Middle(t0: array<limb>, z2_5_0: array<limb>, ghost x: Elem)
    requires t0.Length == 10 && t0 != z2_5_0 && Holds(z2_5_0, x, Ones(5))
    modifies t0
    ensures Holds(t0, x, Ones(250))
  {
    hide Holds, Ones;
    var z2_10_0, z2_20_0 := new limb[10], new limb[10];
    var z2_50_0, z2_100_0, t1 := new limb[10], new limb[10], new limb[10];
    Ten(z2_10_0, z2_5_0, x);
    ShiftOnes(z2_20_0, t0, t1, z2_10_0, z2_10_0, 10, x, 10);
    ShiftOnes(t0, t0, t1, z2_20_0, z2_20_0, 20, x, 20);
    ShiftOnes(z2_50_0, t1, t0, t0, z2_10_0, 10, x, 40);
    ShiftOnes(z2_100_0, t0, t1, z2_50_0, z2_50_0, 50, x, 50);
    ShiftOnes(t1, t1, t0, z2_100_0, z2_100_0, 100, x, 100);
    ShiftOnes(t0, t0, t1, t1, z2_50_0, 50, x, 200);
  }

  /** From 2^250 - 1 to 2^255 - 21. */
  method Finish(output: array<limb>, t0: array<limb>, z11: array<limb>, ghost x: Elem)
    requires output.Length == 10 && t0.Length == 10 && t0 != z11
    requires Holds(t0, x, Ones(250)) && Holds(z11, x, 11)
    modifies output, t0
    ensures Holds(output, x, ReciprocalExponent())
  {
    LastExponent();
    hide Holds, Ones, ReciprocalExponent;
    var t1 := new limb[10];
    SquarePower(t1, t0, x, Ones(250));
    SquarePower(t0, t1, x, 2 * Ones(250));
    SquarePower(t1, t0, x, 4 * Ones(250));
    SquarePower(t0, t1, x, 8 * Ones(250));
    SquarePower(t1, t0, x, 16 * Ones(250));
    MulPower(output, t1, z11, x, 32 * Ones(250), 11);
  }
}
