// The field operations of curve25519-donna.c on arrays of limbs. Every
// method is verified against the operation of Z_p that it stands for.
module LimbArithmetic {
  import opened Arith
  import opened Bits
  import opened FieldSpec
  import opened UnrolledProduct

  /** The field element that the first ten limbs of an array stand for. */
  ghost function Element(a: array<limb>): Elem
    requires a.Length >= 10
    reads a
  {
    Res(Value(a[..10]))
  }

  /** The first ten limbs are below k times their limits. */
  ghost predicate Short(a: array<limb>, k: int)
    reads a
  {
    a.Length >= 10 && Within(a[..10], k)
  }

  ghost predicate Below62(a: seq<limb>)
  {
    forall i :: 0 <= i < |a| ==> -0x4000_0000_0000_0000 < a[i] < 0x4000_0000_0000_0000
  }

  lemma ElementSum(a: seq<limb>, b: seq<limb>, c: seq<limb>)
    requires |a| == |b| == |c| == 10
    requires forall i :: 0 <= i < 10 ==> c[i] as int == a[i] as int + b[i] as int
    ensures Res(Value(c)) == Add(Res(Value(a)), Res(Value(b)))
    ensures Within(a, 1) && Within(b, 1) ==> Within(c, 2)
  {
    forall x ensures Times(1, x) == x {}
    hide Times, Value, Res, Add;
    ValueSum(a, b, c, 1);
    ResAdd(Value(a), Value(b));
  }

  method FSum(output: array<limb>, in1: array<limb>)
    requires output.Length >= 10 && in1.Length >= 10
    requires Below62(output[..10]) && Below62(in1[..10])
    modifies output
    ensures Element(output) == Add(old(Element(output)), old(Element(in1)))
    ensures old(Short(output, 1)) && old(Short(in1, 1)) ==> Short(output, 2)
    ensures output[10..] == old(output[10..])
  {
    hide Value, Res, Add;
    var i := 0;
    while i < 10
      invariant 0 <= i <= 10 && i % 2 == 0
      invariant forall k :: 0 <= k < i ==> output[k] as int == old(output[k]) as int + old(in1[k]) as int
      invariant forall k :: i <= k < output.Length ==> output[k] == old(output[k])
      invariant forall k :: i <= k < in1.Length ==> in1[k] == old(in1[k])
    {
      output[0 + i] := output[0 + i] + in1[0 + i];
      output[1 + i] := output[1 + i] + in1[1 + i];
      i := i + 2;
    }
    ElementSum(old(output[..10]), old(in1[..10]), output[..10]);
  }

  lemma ElementDifference(a: seq<limb>, b: seq<limb>, c: seq<limb>)
    requires |a| == |b| == |c| == 10
    requires forall i :: 0 <= i < 10 ==> c[i] as int == a[i] as int - b[i] as int
    ensures Res(Value(c)) == Sub(Res(Value(a)), Res(Value(b)))
    ensures Within(a, 1) && Within(b, 1) ==> Within(c, 2)
  {
    forall x ensures Times(-1, x) == -x {}
    hide Times, Value, Res, Sub;
    ValueSum(a, b, c, -1);
    ResAdd(Value(a), Value(b));
  }

  /** Note the order of the arguments: output becomes in1 - output. */
  method FDifference(output: array<limb>, in1: array<limb>)
    requires output.Length >= 10 && in1.Length >= 10
    requires Below62(output[..10]) && Below62(in1[..10])
    modifies output
    ensures Element(output) == Sub(old(Element(in1)), old(Element(output)))
    ensures old(Short(output, 1)) && old(Short(in1, 1)) ==> Short(output, 2)
    ensures output[10..] == old(output[10..])
  {
    hide Value, Res, Sub;
    for i := 0 to 10
      invariant forall k :: 0 <= k < i ==> output[k] as int == old(in1[k]) as int - old(output[k]) as int
      invariant forall k :: i <= k < output.Length ==> output[k] == old(output[k])
      invariant forall k :: i <= k < in1.Length ==> in1[k] == old(in1[k])
    {
      output[i] := in1[i] - output[i];
    }
    ElementDifference(old(in1[..10]), old(output[..10]), output[..10]);
  }

  lemma ElementScaled(a: seq<limb>, c: seq<limb>, scalar: limb)
    requires |a| == |c| == 10
    requires forall i :: 0 <= i < 10 ==> c[i] as int == Times(scalar as int, a[i] as int)
    ensures Res(Value(c)) == Mul(Res(scalar as int), Res(Value(a)))
  {
    hide Times, Value, Res, Mul;
    var zero: seq<limb> := seq(10, i => 0);
    ValueZero(zero);
    ValueSum(zero, a, c, scalar as int);
    ResMul(scalar as int, Value(a));
  }

  method FScalarProduct(output: array<limb>, in1: array<limb>, scalar: limb)
    requires output.Length >= 10 && in1.Length >= 10
    requires forall i :: 0 <= i < 10 ==>
        -0x4000_0000_0000_0000 < Times(scalar as int, in1[i] as int) < 0x4000_0000_0000_0000
    modifies output
    ensures Element(output) == Mul(Res(scalar as int), old(Element(in1)))
    ensures forall i :: 0 <= i < 10 ==> output[i] as int == Times(scalar as int, old(in1[i]) as int)
    ensures output[10..] == old(output[10..])
  {
    hide Value, Res, Mul;
    for i := 0 to 10
      invariant forall k :: 0 <= k < i ==> output[k] as int == Times(scalar as int, old(in1[k]) as int)
      invariant forall k :: i <= k < output.Length ==> output[k] == old(output[k])
      invariant forall k :: i <= k < in1.Length ==> in1[k] == old(in1[k])
    {
      TimesCommutes(scalar as int, in1[i] as int);
      output[i] := in1[i] * scalar;
    }
    ElementScaled(old(in1[..10]), output[..10], scalar);
  }

  // ------------------------------------------------------------ reduction

  function Abs(x: limb): int
  {
    if x < 0 then -(x as int) else x as int
  }

  /** Folding 19 times limb k + 10 onto limb k stays below 62 bits for all k below n. */
  ghost predicate FoldableBelow(a: seq<limb>, n: nat)
  {
    |a| == 19 && n <= 9 && Below62(a[..10])
    && forall k :: 0 <= k < n ==> Abs(a[k]) + 19 * Abs(a[k + 10]) < 0x4000_0000_0000_0000
  }

  /** The bounds that freduce_degree needs. */
  ghost predicate Foldable(a: seq<limb>)
  {
    FoldableBelow(a, 9)
  }

  /** Adds 19 times limb k + 10 to limb k, by shifts; << on a negative limb multiplies. */
  method FoldLimb(output: array<limb>, k: nat)
    requires k < 9 && output.Length == 19 && FoldableBelow(output[..], k + 1)
    modifies output
    ensures FoldableBelow(output[..], k)
    ensures output[k] as int == old(output[k]) as int + 19 * old(output[k + 10]) as int
    ensures Res(Value(output[..10 + k])) == old(Res(Value(output[..11 + k])))
  {
    hide Value, Res;
    assert Abs(output[..][k]) + 19 * Abs(output[..][k + 10]) < 0x4000_0000_0000_0000;
    output[k] := output[k] + output[k + 10] * 16;
    output[k] := output[k] + output[k + 10] * 2;
    output[k] := output[k] + output[k + 10];
    ghost var a := old(output[..11 + k]);
    assert a[..10 + k] == old(output[..10 + k]);
    FoldTopLimb(a, output[..10 + k]);
    assert output[..] == old(output[..])[k := output[k]];
  }

  /** Reduces a long form to a short form of the same element. */
  method FReduceDegree(output: array<limb>)
    requires output.Length == 19 && Foldable(output[..])
    modifies output
    ensures Element(output) == old(Res(Value(output[..])))
    ensures Below62(output[..10])
  {
    hide Value, Res, FoldableBelow;
    assert output[..19] == output[..];
    FoldLimb(output, 8);
    FoldLimb(output, 7);
    FoldLimb(output, 6);
    FoldLimb(output, 5);
    FoldLimb(output, 4);
    FoldLimb(output, 3);
    FoldLimb(output, 2);
    FoldLimb(output, 1);
    FoldLimb(output, 0);
    FoldedBounds(output[..]);
    assert output[..][..10] == output[..10];
  }

  lemma FoldedBounds(a: seq<limb>)
    requires FoldableBelow(a, 0)
    ensures Below62(a[..10])
  {
  }

  /** Division of the source language: it truncates toward zero. */
  function Trunc(x: int, r: int): int
    requires r > 0
  {
    if x >= 0 then x / r else -((-x) / r)
  }

  /** What x as limb i passes on to limb i + 1. */
  function Quot(x: int, i: nat): int
  {
    if i % 2 == 0 then Trunc(x, 0x400_0000) else Trunc(x, 0x200_0000)
  }

  /** What x as limb i keeps. */
  function Rem(x: int, i: nat): int
  {
    if i % 2 == 0 then x - 0x400_0000 * Quot(x, i) else x - 0x200_0000 * Quot(x, i)
  }

  /** What one pass of freduce_coefficients carries into limb i. */
  ghost function CarryIn(a: seq<limb>, i: nat): int
    requires i <= |a|
  {
    if i == 0 then 0 else Quot(a[i - 1] as int + CarryIn(a, i - 1), i - 1)
  }

  lemma QuotFacts(x: int, i: nat)
    ensures var r := Limit(i) as int;
            -r < Rem(x, i) < r
            && (-r < x < r ==> Quot(x, i) == 0)
            && (-2 * r < x < 2 * r ==> -1 <= Quot(x, i) <= 1)
            && (x == r || x == -r ==> Rem(x, i) == 0)
  {
  }

  lemma QuotMagnitude(x: int, i: nat)
    requires -0x4000_0040_0000_0000 <= x <= 0x4000_0040_0000_0000
    ensures -0x20_0000_4000 <= Quot(x, i) <= 0x20_0000_4000
  {
  }

  /** No carry of any pass exceeds 2^37 by more than 2^14. */
  lemma {:induction false} CarryBound(a: seq<limb>, i: nat)
    requires i <= |a| && Below62(a)
    ensures -0x20_0000_4000 <= CarryIn(a, i) <= 0x20_0000_4000
  {
    if i > 0 {
      hide Quot;
      CarryBound(a, i - 1);
      QuotMagnitude(a[i - 1] as int + CarryIn(a, i - 1), i - 1);
    }
  }

  /** The first i limbs hold what a pass over a leaves in them. */
  ghost predicate Kept(a: seq<limb>, b: seq<limb>, i: nat)
    requires |a| == 10 && |b| == 11 && i <= 10
  {
    forall k :: 0 <= k < i ==> b[k] as int == Rem(a[k] as int + CarryIn(a, k), k)
  }

  ghost predicate Untouched(a: seq<limb>, b: seq<limb>, i: nat)
    requires |a| == 10 && |b| == 11
  {
    (forall k :: i < k < 10 ==> b[k] == a[k]) && (i < 10 ==> b[10] == 0)
  }

  /** The limbs after a pass over a has carried out of the first i limbs. */
  ghost predicate Sweeping(a: seq<limb>, b: seq<limb>, i: nat)
  {
    |a| == 10 && |b| == 11 && i <= 10 && Kept(a, b, i) && Untouched(a, b, i)
    && b[i] as int == (if i < 10 then a[i] as int else 0) + CarryIn(a, i)
  }

  /** The limbs after one pass over a, before limb 10 is folded onto limb 0. */
  ghost predicate Swept(a: seq<limb>, b: seq<limb>)
  {
    Sweeping(a, b, 10)
  }

  /** One pass brings every limb below its limit. */
  lemma SweptIsShort(a: seq<limb>, b: seq<limb>)
    requires Swept(a, b)
    ensures Within(b[..10], 1)
  {
    hide Quot, Rem, Limit, CarryIn;
    forall k | 0 <= k < 10
      ensures -1 * Limit(k) as int < b[k] as int < 1 * Limit(k) as int
    {
      QuotFacts(a[k] as int + CarryIn(a, k), k);
    }
  }

  /** The state before pass n: the first, the second, or the third and last. */
  ghost predicate BeforePass(a: seq<limb>, n: nat)
  {
    |a| == 10 && Below62(a) && n < 3
    && (n >= 1 ==> -0x400_0000_0000 < a[0] < 0x400_0000_0000 && Within(a[0 := 0], 1))
    && (n >= 2 ==> -0x400_0013 < a[0] < 0x400_0013 && -0x1_0001 < a[1] < 0x1_0001
                   && forall k :: 2 <= k < 10 ==> a[k] == 0)
  }

  /** In the second pass every carry beyond limb 1 is at most one, and one that
      gets through limbs 2 to i - 1 leaves them zero. */
  lemma {:induction false} SecondPassCarry(a: seq<limb>, b: seq<limb>, i: nat)
    requires BeforePass(a, 1) && Swept(a, b) && 2 <= i <= 10
    ensures -1 <= CarryIn(a, i) <= 1
    ensures CarryIn(a, i) != 0 ==>
        -0x1_0001 < b[1] < 0x1_0001 && forall k :: 2 <= k < i ==> b[k] == 0
  {
    hide Quot, Rem;
    if i == 2 {
      FirstCarries(a, b);
    } else {
      SecondPassCarry(a, b, i - 1);
      assert a[i - 1] == a[0 := 0][i - 1];
      QuotFacts(a[i - 1] as int + CarryIn(a, i - 1), i - 1);
    }
  }

  lemma FirstCarries(a: seq<limb>, b: seq<limb>)
    requires BeforePass(a, 1) && Swept(a, b)
    ensures -1 <= CarryIn(a, 2) <= 1
    ensures CarryIn(a, 2) != 0 ==> -0x1_0001 < b[1] < 0x1_0001
  {
    assert a[1] == a[0 := 0][1] && -0x200_0000 < a[1] < 0x200_0000;
    assert CarryIn(a, 0) == 0;
    assert CarryIn(a, 1) == Quot(a[0] as int, 0);
    assert CarryIn(a, 2) == Quot(a[1] as int + CarryIn(a, 1), 1);
    assert b[1] as int == Rem(a[1] as int + CarryIn(a, 1), 1);
    hide Swept, BeforePass, CarryIn;
    QuotSmall(a[0] as int);
    RemSmall(a[1] as int, CarryIn(a, 1));
  }

  lemma QuotSmall(x: int)
    requires -0x400_0000_0000 < x < 0x400_0000_0000
    ensures -0x1_0000 <= Quot(x, 0) <= 0x1_0000
  {
  }

  lemma RemSmall(x: int, c: int)
    requires -0x200_0000 < x < 0x200_0000 && -0x1_0000 <= c <= 0x1_0000
    ensures -1 <= Quot(x + c, 1) <= 1
    ensures Quot(x + c, 1) != 0 ==> -0x1_0001 < Rem(x + c, 1) < 0x1_0001
  {
  }

  /** In the third pass no carry gets beyond limb 1. */
  lemma {:induction false} ThirdPassCarry(a: seq<limb>, i: nat)
    requires BeforePass(a, 2) && 2 <= i <= 10
    ensures CarryIn(a, i) == 0
  {
    if i == 2 {
      assert CarryIn(a, 0) == 0;
      assert CarryIn(a, 1) == Quot(a[0] as int, 0);
      assert CarryIn(a, 2) == Quot(a[1] as int + CarryIn(a, 1), 1);
    } else {
      ThirdPassCarry(a, i - 1);
    }
  }

  /** What a pass leaves, once limb 10 is folded, is ready for the next pass, and
      there is no fourth. */
  lemma NextPass(a: seq<limb>, b: seq<limb>, c: seq<limb>, n: nat)
    requires BeforePass(a, n) && Swept(a, b)
    requires |c| == 10 && c == b[..10][0 := c[0]] && c[0] as int == b[0] as int + 19 * b[10] as int
    ensures n == 2 ==> b[10] == 0
    ensures b[10] != 0 ==> BeforePass(c, n + 1)
    ensures b[10] == 0 ==> Within(c, 1)
  {
    SweptIsShort(a, b);
    CarryBound(a, 10);
    if n == 2 {
      ThirdPassCarry(a, 10);
    }
    if b[10] == 0 {
      assert c == b[..10];
    } else {
      if n == 1 {
        SecondPassCarry(a, b, 10);
      }
      hide CarryIn, Rem, BeforePass;
      FoldedShape(b, c);
      BeforeNext(b, c, n);
    }
  }

  lemma FoldedShape(b: seq<limb>, c: seq<limb>)
    requires |b| == 11 && Within(b[..10], 1)
    requires |c| == 10 && c == b[..10][0 := c[0]] && c[0] as int == b[0] as int + 19 * b[10] as int
    ensures -0x400_0000 < b[0] < 0x400_0000
    ensures forall k :: 1 <= k < 10 ==> c[k] == b[k] && -0x400_0000 < c[k] < 0x400_0000
    ensures Within(c[0 := 0], 1)
  {
    assert b[..10][0] == b[0];
    forall k | 1 <= k < 10
      ensures c[k] == b[k] && -0x400_0000 < c[k] < 0x400_0000
    {
      assert b[..10][k] == b[k];
    }
  }

  lemma BeforeNext(b: seq<limb>, c: seq<limb>, n: nat)
    requires n < 2 && |b| == 11 && |c| == 10 && Within(c[0 := 0], 1)
    requires c[0] as int == b[0] as int + 19 * b[10] as int && -0x400_0000 < b[0] < 0x400_0000
    requires -0x20_0000_4000 <= b[10] <= 0x20_0000_4000
    requires forall k :: 1 <= k < 10 ==> c[k] == b[k] && -0x400_0000 < c[k] < 0x400_0000
    requires n == 1 ==> -1 <= b[10] <= 1 && -0x1_0001 < b[1] < 0x1_0001
    requires n == 1 ==> forall k :: 2 <= k < 10 ==> b[k] == 0
    ensures BeforePass(c, n + 1)
  {
    hide Within;
  }

  /** The source's `output[i] / 0x4000000` or `/ 0x2000000`. */
  function Over(x: limb, i: nat): (q: limb)
    requires x > -0x8000_0000_0000_0000
    ensures q as int == Quot(x as int, i)
    ensures q as int * Limit(i) as int == x as int - Rem(x as int, i)
    ensures -0x4000_0000_0000_0000 <= x <= 0x4000_0000_0000_0000 ==> -0x20_0000_0000 <= q <= 0x20_0000_0000
  {
    if x >= 0 then x / Limit(i) else -((-x) / Limit(i))
  }

  lemma KeptStep(a: seq<limb>, b: seq<limb>, c: seq<limb>, i: nat)
    requires i < 10 && |a| == 10 && |b| == |c| == 11 && Kept(a, b, i)
    requires forall k :: 0 <= k < i ==> c[k] == b[k]
    requires c[i] as int == Rem(a[i] as int + CarryIn(a, i), i)
    ensures Kept(a, c, i + 1)
  {
    hide Quot, Rem, CarryIn;
  }

  lemma UntouchedStep(a: seq<limb>, b: seq<limb>, c: seq<limb>, i: nat)
    requires i < 10 && |a| == 10 && |b| == |c| == 11 && Untouched(a, b, i)
    requires forall k :: i + 1 < k < 11 ==> c[k] == b[k]
    ensures Untouched(a, c, i + 1)
    ensures b[i + 1] == if i < 9 then a[i + 1] else 0
  {
  }

  lemma SweepStep(a: seq<limb>, b: seq<limb>, c: seq<limb>, i: nat)
    requires i < 10 && |b| == |c| == 11 && Sweeping(a, b, i)
    requires forall k :: 0 <= k < 11 && k != i && k != i + 1 ==> c[k] == b[k]
    requires c[i] as int == Rem(b[i] as int, i) && c[i + 1] as int == b[i + 1] as int + Quot(b[i] as int, i)
    ensures Sweeping(a, c, i + 1)
  {
    hide Quot, Rem, CarryIn, Kept, Untouched;
    CarryInStep(a, i);
    KeptStep(a, b, c, i);
    UntouchedStep(a, b, c, i);
  }

  lemma CarryInStep(a: seq<limb>, i: nat)
    requires i < |a|
    ensures CarryIn(a, i + 1) == Quot(a[i] as int + CarryIn(a, i), i)
  {
  }

  lemma StepKeepsValue(b: seq<limb>, c: seq<limb>, i: nat)
    requires i < 10 && |b| == |c| == 11 && c == b[i := c[i]][i + 1 := c[i + 1]]
    requires c[i] as int == Rem(b[i] as int, i) && c[i + 1] as int == b[i + 1] as int + Quot(b[i] as int, i)
    ensures Value(c) == Value(b)
  {
    hide *;
    RadixIsPow2(b[i] as int, i);
    CarryKeepsValue(b, i, Quot(b[i] as int, i), c[i], c[i + 1]);
  }

  lemma RadixIsPow2(x: int, i: nat)
    ensures Times(Quot(x, i), Pow2(Width(i))) == x - Rem(x, i)
  {
    Pow2Big();
    hide Pow2;
  }

  lemma SweepingBounds(a: seq<limb>, b: seq<limb>, i: nat)
    requires i < 10 && Sweeping(a, b, i) && Below62(a)
    ensures -0x4000_0040_0000_0000 < b[i] < 0x4000_0040_0000_0000
    ensures -0x4000_0000_0000_0000 < b[i + 1] < 0x4000_0000_0000_0000
    ensures -0x20_0000_4000 <= Quot(b[i] as int, i) <= 0x20_0000_4000
    ensures -0x400_0000 < Rem(b[i] as int, i) < 0x400_0000
  {
    CarryBound(a, i);
    hide CarryIn, Quot, Rem;
    QuotMagnitude(b[i] as int, i);
    QuotFacts(b[i] as int, i);
  }

  /** One carry: limb i keeps the remainder, limb i + 1 takes the quotient. */
  method CarryLimb(output: array<limb>, i: nat, ghost a: seq<limb>)
    requires i < 10 && output.Length >= 11 && Below62(a)
    requires Sweeping(a, output[..11], i)
    modifies output
    ensures Sweeping(a, output[..11], i + 1)
    ensures Value(output[..11]) == old(Value(output[..11]))
    ensures output[11..] == old(output[11..])
  {
    hide *;
    ghost var b := output[..11];
    assert b[i] == output[i] && b[i + 1] == output[i + 1];
    SweepingBounds(a, b, i);
    var over := Over(output[i], i);
    output[i + 1] := output[i + 1] + over;
    output[i] := output[i] - over * Limit(i);
    SweepStep(a, b, output[..11], i);
    StepKeepsValue(b, output[..11], i);
  }

  /** Reduces all limbs below their limits, in at most three passes. */
  method FReduceCoefficients(output: array<limb>) returns (ghost passes: nat)
    requires output.Length >= 11 && Below62(output[..10])
    modifies output
    ensures passes <= 3
    ensures Short(output, 1) && Element(output) == old(Element(output))
    ensures output[11..] == old(output[11..])
  {
    hide Value, Res, CarryIn, Quot, Rem, Limit;
    passes := 0;
    ghost var e := Element(output);
    var again := true;
    while again
      invariant passes <= 3
      invariant Element(output) == e
      invariant again ==> BeforePass(output[..10], passes)
      invariant !again ==> Short(output, 1)
      invariant output[11..] == old(output[11..])
      decreases 3 - passes, again
    {
      ghost var a := output[..10];
      output[10] := 0;
      Sweep(output, a);
      ghost var b := output[..11];
      output[0] := output[0] + 19 * output[10];
      assert b[..10][0] == b[0];
      FoldTopLimb(b, output[..10]);
      NextPass(a, b, output[..10], passes);
      again := output[10] != 0;
      passes := passes + 1;
    }
  }

  /** The inner loop of freduce_coefficients. */
  method Sweep(output: array<limb>, ghost a: seq<limb>)
    requires output.Length >= 11 && |a| == 10 && Below62(a)
    requires output[..10] == a && output[10] == 0
    modifies output
    ensures Sweeping(a, output[..11], 10) && Value(output[..11]) == Value(a)
    ensures output[11..] == old(output[11..])
    ensures -0x400_0000 < output[0] < 0x400_0000 && -0x20_0000_4000 <= output[10] <= 0x20_0000_4000
  {
    hide *;
    SweepStart(a, output[..11]);
    var i := 0;
    while i < 10
      invariant 0 <= i <= 10 && i % 2 == 0
      invariant Value(output[..11]) == Value(a)
      invariant output[11..] == old(output[11..])
      invariant Sweeping(a, output[..11], i)
    {
      CarryLimb(output, i, a);
      CarryLimb(output, i + 1, a);
      i := i + 2;
    }
    SweptBounds(a, output[..11]);
  }

  lemma SweepStart(a: seq<limb>, b: seq<limb>)
    requires |a| == 10 && |b| == 11 && b[..10] == a && b[10] == 0
    ensures Sweeping(a, b, 0) && Value(b) == Value(a)
  {
    assert CarryIn(a, 0) == 0;
    hide Value, CarryIn;
    ValuePrefix(b, 10);
    assert forall k :: 0 <= k < 10 ==> b[k] == b[..10][k];
  }

  lemma SweptBounds(a: seq<limb>, b: seq<limb>)
    requires Sweeping(a, b, 10) && Below62(a)
    ensures -0x400_0000 < b[0] < 0x400_0000 && -0x20_0000_4000 <= b[10] <= 0x20_0000_4000
  {
    hide CarryIn, Rem;
    CarryBound(a, 10);
    SweptIsShort(a, b);
    assert b[..10][0] == b[0];
  }

  // ------------------------------------------------------ multiplication

  /** A product of short forms is a long form that can be reduced. */
  lemma ProductFoldable(f: seq<limb>, g: seq<limb>, a: seq<limb>)
    requires Within(f, 2) && Within(g, 2) && |a| == 19
    requires forall k :: 0 <= k < 19 ==> a[k] as int == Conv(f, g, k)
    ensures Foldable(a) && Res(Value(a)) == Mul(Res(Value(f)), Res(Value(g)))
  {
    AllBounds(f, g);
    forall k | 0 <= k < 19
      ensures Abs(a[k]) <= 10 * 0x40_0000_0000_0000
    {
      assert a[k] as int == Conv(f, g, k);
      ConvBound(f, g, k, 10);
    }
    hide *;
    ConvIsProduct(f, g, a);
    ResMul(Value(f), Value(g));
    FoldableIfBounded(a);
  }

  lemma FoldableIfBounded(a: seq<limb>)
    requires |a| == 19 && forall k :: 0 <= k < 19 ==> Abs(a[k]) <= 10 * 0x40_0000_0000_0000
    ensures Foldable(a)
  {
  }

  lemma {:induction false} ConvBound(f: seq<limb>, g: seq<limb>, k: nat, n: nat)
    requires n <= 10 && |f| == |g| == 10
    requires forall i, j :: 0 <= i < 10 && 0 <= j < 10 ==>
        -0x40_0000_0000_0000 <= Times(f[i] as int, g[j] as int) <= 0x40_0000_0000_0000
    requires forall i, j :: 0 <= i < 10 && 0 <= j < 10 && i % 2 == j % 2 == 1 ==>
        -0x10_0000_0000_0000 <= Times(f[i] as int, g[j] as int) <= 0x10_0000_0000_0000
    ensures n * -0x40_0000_0000_0000 <= ConvTo(f, g, k, n) <= n * 0x40_0000_0000_0000
  {
    hide Times;
    if n > 0 {
      ConvBound(f, g, k, n - 1);
    }
  }

  /** Reduces the long form t of a product: the tail that fmul, fsquare and fmonty share. */
  method FReduceProduct(t: array<limb>, ghost f: seq<limb>, ghost g: seq<limb>)
    requires t.Length == 19 && Within(f, 2) && Within(g, 2)
    requires forall k :: 0 <= k < 19 ==> t[k] as int == Conv(f, g, k)
    modifies t
    ensures Short(t, 1) && Element(t) == Mul(Res(Value(f)), Res(Value(g)))
  {
    hide Value, Res, Mul, Within, Conv, Foldable;
    ProductFoldable(f, g, t[..]);
    FReduceDegree(t);
    var _ := FReduceCoefficients(t);
  }

  /** fproduct, freduce_degree and freduce_coefficients in place on a long form. */
  method ProductReduced(output: array<limb>, in2: array<limb>, in1: array<limb>)
    requires output.Length == 19 && output != in2 && output != in1
    requires Short(in2, 2) && Short(in1, 2)
    modifies output
    ensures Short(output, 1) && Element(output) == Mul(Element(in2), Element(in1))
  {
    hide Value, Res, Mul, Within, Conv;
    ghost var f, g := in2[..10], in1[..10];
    FProduct(output, in2, in1);
    FReduceProduct(output, f, g);
  }

  method FMul(output: array<limb>, in1: array<limb>, in2: array<limb>)
    requires output.Length >= 10 && Short(in1, 2) && Short(in2, 2)
    modifies output
    ensures Short(output, 1) && Element(output) == Mul(old(Element(in1)), old(Element(in2)))
    ensures output[10..] == old(output[10..])
  {
    hide Value, Res, Mul, Within, Conv;
    ghost var f, g := in1[..10], in2[..10];
    var t := new limb[19];
    FProduct(t, in1, in2);
    FReduceProduct(t, f, g);
    CopyTen(output, t);
  }

  method FSquare(output: array<limb>, in1: array<limb>)
    requires output.Length >= 10 && Short(in1, 2)
    modifies output
    ensures Short(output, 1) && Element(output) == Mul(old(Element(in1)), old(Element(in1)))
    ensures output[10..] == old(output[10..])
  {
    hide Value, Res, Mul, Within, Conv;
    ghost var f := in1[..10];
    var t := new limb[19];
    FSquareInner(t, in1);
    FReduceProduct(t, f, f);
    CopyTen(output, t);
  }

  /** memcpy of ten limbs between distinct arrays. */
  method CopyTen(output: array<limb>, t: array<limb>)
    requires output.Length >= 10 && t.Length >= 10 && output != t
    modifies output
    ensures output[..10] == t[..10] && output[10..] == old(output[10..])
  {
    for i := 0 to 10
      invariant output[..i] == t[..i]
      invariant output[10..] == old(output[10..])
    {
      output[i] := t[i];
    }
  }

  // ------------------------------------------------- facts about short forms

  lemma ShortIsBelow62(a: array<limb>, k: int)
    requires k <= 2 && Short(a, k)
    ensures a.Length >= 10 && Below62(a[..10]) && Short(a, 2)
  {
  }

  lemma ScaledBounds(a: array<limb>)
    requires Short(a, 2)
    ensures forall i :: 0 <= i < 10 ==>
        -0x1000_0000_0000 < Times(121665, a[i] as int) < 0x1000_0000_0000
  {
    forall i | 0 <= i < 10
      ensures -0x1000_0000_0000 < Times(121665, a[i] as int) < 0x1000_0000_0000
    {
      assert a[..10][i] == a[i];
    }
  }

  lemma ScaledFoldable(a: array<limb>)
    requires a.Length == 19 && forall i :: 10 <= i < 19 ==> a[i] == 0
    requires forall i :: 0 <= i < 10 ==> -0x1000_0000_0000 < a[i] < 0x1000_0000_0000
    ensures Foldable(a[..]) && Res(Value(a[..])) == Element(a)
  {
    hide Value, Res;
    ValuePrefix(a[..], 10);
    assert a[..][..10] == a[..10];
  }
}
