// fexpand and fcontract: 32 little-endian bytes to limbs and back.
module LimbBytes {
  import opened Arith
  import opened Bits
  import opened FieldSpec
  import opened UnrolledProduct
  import opened LimbArithmetic

  // -------------------------------------------------------------- expanding

  /** The 32-bit word that the source assembles from four bytes with shifts and ors. */
  function Word(s: seq<byte>, start: nat): nat
    requires start + 4 <= |s|
  {
    Or(Or(Or(s[start] as int, s[start + 1] as int * 0x100), s[start + 2] as int * 0x1_0000),
       s[start + 3] as int * 0x100_0000)
  }

  lemma WordIsLittleEndian(s: seq<byte>, start: nat)
    requires start + 4 <= |s|
    ensures Word(s, start) == LittleEndian(s[start..start + 4])
  {
    hide Or, LittleEndian;
    OrOfFour(s[start] as int, s[start + 1] as int, s[start + 2] as int, s[start + 3] as int);
    LittleEndianOfFour(s[start..start + 4]);
  }

  lemma OrOfFour(b0: nat, b1: nat, b2: nat, b3: nat)
    requires b0 < 256 && b1 < 256 && b2 < 256 && b3 < 256
    ensures Or(Or(Or(b0, b1 * 0x100), b2 * 0x1_0000), b3 * 0x100_0000)
         == b0 + b1 * 0x100 + b2 * 0x1_0000 + b3 * 0x100_0000
  {
    Pow2Small();
    Pow2Big();
    hide Pow2, Or;
    OrDisjoint(b0, b1 * 0x100, 8);
    OrDisjoint(b0 + b1 * 0x100, b2 * 0x1_0000, 16);
    OrDisjoint(b0 + b1 * 0x100 + b2 * 0x1_0000, b3 * 0x100_0000, 24);
  }

  lemma LittleEndianOfFour(t: seq<byte>)
    requires |t| == 4
    ensures LittleEndian(t) == t[0] as int + t[1] as int * 0x100 + t[2] as int * 0x1_0000
                             + t[3] as int * 0x100_0000
  {
    assert t[1..][1..] == t[2..] && t[2..][1..] == t[3..] && t[3..][1..] == [];
    assert LittleEndian(t[3..]) == t[3] as int;
    assert LittleEndian(t[2..]) == t[2] as int + 256 * LittleEndian(t[3..]);
    assert LittleEndian(t[1..]) == t[1] as int + 256 * LittleEndian(t[2..]);
  }

  /** Limb k of the 255-bit number n. */
  function Digit(n: nat, k: nat): nat
  {
    Low(Shr(n, Weight(k)), Width(k))
  }

  /** The macro F of fexpand: one word, shifted and masked. */
  function F(s: seq<byte>, k: nat, start: nat, shift: nat, mask: nat): (r: limb)
    requires start + 4 <= |s| && 8 * start + shift == Weight(k) && shift + Width(k) <= 32
    requires mask == Pow2(Width(k)) - 1
    ensures r as int == Digit(LittleEndian(s), k) && 0 <= r < Limit(k)
  {
    hide Pow2, Shr, Low, Weight, Width, Limit, LittleEndian, Word, And;
    WordDigit(s, k, start, shift);
    LimitIsPow2(k);
    LimitBound(k);
    And(Shr(Word(s, start), shift), mask) as limb
  }

  lemma WordDigit(s: seq<byte>, k: nat, start: nat, shift: nat)
    requires start + 4 <= |s| && 8 * start + shift == Weight(k) && shift + Width(k) <= 32
    ensures And(Shr(Word(s, start), shift), Pow2(Width(k)) - 1) == Digit(LittleEndian(s), k)
  {
    hide Pow2, Shr, Low, Weight, Width, LittleEndian, Word, And;
    WordIsLittleEndian(s, start);
    LittleEndianSlice(s, start, 4);
    AndMask(Shr(Word(s, start), shift), Width(k));
    MiddleBits(Shr(LittleEndian(s), 8 * start), shift, Width(k), 32);
    ShrShr(LittleEndian(s), 8 * start, shift);
  }

  lemma LimitBound(k: nat)
    ensures 0 < Limit(k) <= 0x400_0000
  {
  }

  lemma LimitIsPow2(k: nat)
    ensures Limit(k) as int == Pow2(Width(k))
  {
    Pow2Big();
  }

  /** Digits in mixed radix stand for the number they were cut from. */
  lemma {:induction false} DigitsValue(a: seq<limb>, n: nat)
    requires forall k :: 0 <= k < |a| ==> a[k] as int == Digit(n, k)
    ensures Value(a) == Low(n, Weight(|a|))
  {
    hide Times, Digit, Pow2;
    if |a| == 0 {
      assert Weight(0) == 0;
      assert Pow2(0) == 1 by { Pow2Zero(); }
    } else {
      var k := |a| - 1;
      DigitsValue(a[..k], n);
      DigitStep(n, k);
    }
  }

  lemma DigitStep(n: nat, k: nat)
    ensures Low(n, Weight(k + 1)) == Low(n, Weight(k)) + Times(Digit(n, k), Pow2(Weight(k)))
  {
    WeightStep(k);
    hide Times, Pow2, Weight, Width;
    TimesCommutes(Pow2(Width(k)), Pow2(Weight(k)));
    DivDiv(n, Pow2(Weight(k)), Pow2(Width(k)));
    TimesCommutes(Digit(n, k), Pow2(Weight(k)));
  }

  /** Canonical limbs: each in its own number of bits, none negative. */
  ghost predicate Canonical(a: seq<limb>)
  {
    forall k :: 0 <= k < |a| ==> 0 <= a[k] < Limit(k)
  }

  lemma Masks()
    ensures Pow2(26) - 1 == 0x3ff_ffff && Pow2(25) - 1 == 0x1ff_ffff
    ensures Weight(10) == 255
  {
    Pow2Big();
  }

  method FExpand(output: array<limb>, input: array<byte>)
    requires output.Length >= 10 && input.Length == 32
    modifies output
    ensures Canonical(output[..10]) && Value(output[..10]) == Low(LittleEndian(input[..]), 255)
  {
    Masks();
    hide Value, Pow2, Low, LittleEndian, Digit, Limit, F;
    ghost var n := LittleEndian(input[..]);
    output[0] := F(input[..], 0, 0, 0, 0x3ff_ffff);
    output[1] := F(input[..], 1, 3, 2, 0x1ff_ffff);
    output[2] := F(input[..], 2, 6, 3, 0x3ff_ffff);
    output[3] := F(input[..], 3, 9, 5, 0x1ff_ffff);
    output[4] := F(input[..], 4, 12, 6, 0x3ff_ffff);
    output[5] := F(input[..], 5, 16, 0, 0x1ff_ffff);
    output[6] := F(input[..], 6, 19, 1, 0x3ff_ffff);
    output[7] := F(input[..], 7, 22, 3, 0x1ff_ffff);
    output[8] := F(input[..], 8, 25, 4, 0x3ff_ffff);
    output[9] := F(input[..], 9, 28, 6, 0x1ff_ffff);
    DigitsValue(output[..10], n);
  }

  lemma CanonicalIsShort(a: array<limb>)
    requires a.Length >= 10 && Canonical(a[..10])
    ensures Short(a, 1)
  {
    hide Limit;
    forall i | 0 <= i < 10
      ensures -1 * Limit(i) as int < a[..10][i] as int < 1 * Limit(i) as int
    {
    }
  }

  // ------------------------------------------------------------ contracting

  /** The least number congruent to v that is reached from v by adding p while negative. */
  ghost function Lift(v: int): (r: nat)
    ensures Res(r) == Res(v)
    ensures v >= 0 ==> r == v
    ensures v < 0 ==> r < P
    decreases -v
  {
    if v >= 0 then v else ResMultiple(v, 1); Lift(v + P)
  }

  lemma {:induction false} CanonicalBound(a: seq<limb>)
    requires Canonical(a)
    ensures 0 <= Value(a) < Pow2(Weight(|a|))
  {
    hide Times, Limit, Pow2, Weight;
    if |a| == 0 {
    } else {
      var k := |a| - 1;
      CanonicalBound(a[..k]);
      LimitIsPow2(k);
      WeightStep(k);
      var w := Pow2(Weight(k));
      TimesPositive(a[k] as int, w);
      TimesAdd(Pow2(Width(k)), a[k] as int + 1, w);
      TimesPositive(Pow2(Width(k)) - (a[k] as int + 1), w);
      TimesAdd(a[k] as int, 1, w);
      TimesSigns(1, w);
    }
  }

  /** The while loop of fcontract at limb i, which runs at most once. */
  method BorrowLimb(input: array<limb>, i: nat)
    requires i < 9 && input.Length >= 10
    requires -Limit(i) <= input[i] < Limit(i) && input[i + 1] > -0x800_0000
    modifies input
    ensures 0 <= input[i] < Limit(i)
    ensures input[i] == old(input[i]) + if old(input[i]) < 0 then Limit(i) else 0
    ensures input[i + 1] == old(input[i + 1]) - if old(input[i]) < 0 then 1 else 0
    ensures forall k :: 0 <= k < input.Length && k != i && k != i + 1 ==> input[k] == old(input[k])
    ensures Value(input[..10]) == old(Value(input[..10]))
  {
    hide Value;
    ghost var before := input[..10];
    ghost var negative := input[i] < 0;
    while input[i] < 0
      invariant input[i] == before[i] + if negative && before[i] != input[i] then Limit(i) else 0
      invariant input[i + 1] == before[i + 1] - if negative && before[i] != input[i] then 1 else 0
      invariant forall k :: 0 <= k < input.Length && k != i && k != i + 1 ==> input[k] == old(input[k])
      invariant input[i] < Limit(i) && (!negative ==> input[i] >= 0)
      invariant Value(input[..10]) == Value(before)
      decreases -(input[i] as int)
    {
      ghost var s := input[..10];
      input[i] := input[i] + Limit(i);
      input[i + 1] := input[i + 1] - 1;
      BorrowKeepsValue(s, i, input[i], input[i + 1]);
      assert input[..10] == s[i := input[i]][i + 1 := input[i + 1]];
    }
  }

  lemma BorrowKeepsValue(a: seq<limb>, i: nat, x: limb, y: limb)
    requires i + 1 < |a|
    requires x as int == a[i] as int + Limit(i) as int && y as int == a[i + 1] as int - 1
    ensures Value(a[i := x][i + 1 := y]) == Value(a)
  {
    hide Value, Pow2, Weight, Width, Times, Limit;
    LimitIsPow2(i);
    TimesSigns(1, Pow2(Width(i)));
    CarryKeepsValue(a, i, -1, x, y);
  }

  /** The limbs before a pass of fcontract: reduced. */
  ghost predicate Ready(a: seq<limb>)
  {
    |a| == 10 && forall k :: 0 <= k < 10 ==> -Limit(k) < a[k] < Limit(k)
  }

  /** The limbs of a after borrowing out of the first i of them. */
  ghost predicate Borrowing(a: seq<limb>, b: seq<limb>, i: nat)
  {
    |a| == |b| == 10 && i <= 9 && Canonical(b[..i]) && b[i + 1..] == a[i + 1..]
    && a[i] as int - (if i > 0 then 1 else 0) <= b[i] as int <= a[i] as int
    && (i > 0 ==> b[0] == a[0] + if a[0] < 0 then Limit(0) else 0)
  }

  lemma BorrowStep(a: seq<limb>, b: seq<limb>, c: seq<limb>, i: nat)
    requires Ready(a) && Borrowing(a, b, i) && i < 9 && |c| == 10
    requires c[i] == b[i] + (if b[i] < 0 then Limit(i) else 0) && 0 <= c[i] < Limit(i)
    requires c[i + 1] == b[i + 1] - if b[i] < 0 then 1 else 0
    requires forall k :: 0 <= k < 10 && k != i && k != i + 1 ==> c[k] == b[k]
    ensures Borrowing(a, c, i + 1)
  {
    hide Limit;
    forall k | 0 <= k < i + 1
      ensures 0 <= c[..i + 1][k] < Limit(k)
    {
      assert k < i ==> c[k] == b[..i][k];
    }
    assert b[i + 1] == b[i + 1..][0] == a[i + 1..][0] == a[i + 1];
    assert c[i + 2..] == b[i + 2..] == b[i + 1..][1..];
    assert a[i + 2..] == a[i + 1..][1..];
  }

  /** The for loop of fcontract. */
  method BorrowAll(input: array<limb>)
    requires input.Length >= 10 && Ready(input[..10])
    modifies input
    ensures Borrowing(old(input[..10]), input[..10], 9)
    ensures Value(input[..10]) == old(Value(input[..10]))
  {
    hide Value, Limit;
    ghost var a := input[..10];
    BorrowStart(a);
    for i := 0 to 9
      invariant Borrowing(a, input[..10], i)
      invariant Value(input[..10]) == Value(a)
    {
      ghost var b := input[..10];
      BorrowRoom(a, b, i);
      BorrowLimb(input, i);
      BorrowStep(a, b, input[..10], i);
    }
  }

  lemma BorrowStart(a: seq<limb>)
    requires Ready(a)
    ensures Borrowing(a, a, 0)
  {
  }

  lemma BorrowRoom(a: seq<limb>, b: seq<limb>, i: nat)
    requires Ready(a) && Borrowing(a, b, i)
    ensures -Limit(i) <= b[i] < Limit(i)
    ensures i < 9 ==> b[i + 1] > -0x400_0000
  {
    if i < 9 {
      assert b[i + 1] == b[i + 1..][0] == a[i + 1..][0];
    }
  }

  /** After the borrows, limb 9 alone carries the sign. */
  lemma SignOfTop(a: seq<limb>)
    requires |a| == 10 && Canonical(a[..9]) && a[9] < 0
    ensures Value(a) < 0
  {
    hide Times, Pow2, Weight, Limit;
    CanonicalBound(a[..9]);
    var t, w := a[9] as int, Pow2(Weight(9));
    assert Value(a) == Value(a[..9]) + Times(t, w);
    hide Value;
    TopNegative(Value(a[..9]), t, w);
  }

  lemma TopNegative(v: int, t: int, w: nat)
    requires v < w && t < 0
    ensures v + Times(t, w) < 0
  {
    hide Times;
    TimesAdd(t + 1, 1, w);
    TimesSigns(1, w);
    TimesSigns(-(t + 1), w);
    TimesPositive(-(t + 1), w);
  }

  /** Adding 2^25 to limb 9 and subtracting 19 from limb 0 adds p. */
  lemma WrapAddsP(a: seq<limb>, x: limb, y: limb)
    requires |a| == 10 && x as int == a[9] as int + 0x200_0000 && y as int == a[0] as int - 19
    ensures Value(a[9 := x][0 := y]) == Value(a) + P
  {
    Pow2Big();
    PIsPow2();
    assert Weight(9) == 230 && Weight(0) == 0;
    Pow2Add(25, 230);
    assert Pow2(0) == 1;
    hide Value, Pow2, Weight, Times;
    ValueUpdate(a, 9, x);
    ValueUpdate(a[9 := x], 0, y);
    TimesSigns(1, -19);
    TimesSigns(-19, 1);
  }

  /** The while loop of fcontract at limb 9, which runs at most once. */
  method WrapTop(input: array<limb>)
    requires input.Length >= 10 && Canonical(input[..9])
    requires -Limit(9) <= input[9] < Limit(9)
    modifies input
    ensures 0 <= input[9] < Limit(9)
    ensures input[0] == old(input[0]) - if old(input[9]) < 0 then 19 else 0
    ensures forall k :: 0 < k < 9 ==> input[k] == old(input[k])
    ensures Lift(Value(input[..10])) == old(Lift(Value(input[..10])))
  {
    hide Value, Lift, Limit;
    assert Limit(9) == 0x200_0000 by { LimitNine(); }
    ghost var a := input[..10];
    ghost var negative := input[9] < 0;
    while input[9] < 0
      invariant input[9] == a[9] + if negative && input[9] != a[9] then 0x200_0000 else 0
      invariant input[0] == a[0] - if negative && input[9] != a[9] then 19 else 0
      invariant input[9] != a[9] ==> input[9] >= 0
      invariant input[9] < Limit(9) && (!negative ==> input[9] >= 0)
      invariant forall k :: 0 < k < 9 ==> input[k] == a[k]
      invariant Lift(Value(input[..10])) == Lift(Value(a))
      decreases -(input[9] as int)
    {
      ghost var s := input[..10];
      assert s == a;
      assert a[..9] == old(input[..9]);
      SignOfTop(s);
      input[9] := input[9] + 0x200_0000;
      input[0] := input[0] - 19;
      WrapAddsP(s, input[9], input[0]);
      assert input[..10] == s[9 := input[9]][0 := input[0]];
      LiftStep(Value(s));
    }
  }

  lemma LimitNine()
    ensures Limit(9) == 0x200_0000 && Limit(0) == 0x400_0000
  {
  }

  lemma LiftStep(v: int)
    requires v < 0
    ensures Lift(v) == Lift(v + P)
  {
  }

  /** One pass of the outer loop: afterwards the limbs are canonical, unless limb 0
      is between -19 and -1, which the next pass mends. */
  method ContractPass(input: array<limb>)
    requires input.Length >= 10 && Ready(input[..10])
    modifies input
    ensures input[0] >= 0 ==> Canonical(input[..10])
    ensures input[0] < 0 ==> Ready(input[..10]) && input[0] >= -19
    ensures -19 <= old(input[0]) < 0 ==> input[0] >= 0
    ensures Lift(Value(input[..10])) == old(Lift(Value(input[..10])))
  {
    hide Value, Lift, Limit;
    LimitNine();
    ghost var a := input[..10];
    BorrowAll(input);
    ghost var b := input[..10];
    BorrowRoom(a, b, 9);
    assert b[..9] == input[..9];
    assert 0 <= b[..9][0] < Limit(0);
    WrapTop(input);
    forall k | 0 < k < 10
      ensures 0 <= input[k] < Limit(k)
    {
      assert k < 9 ==> input[k] == b[..9][k];
    }
    PassEnd(input[..10]);
  }

  lemma PassEnd(a: seq<limb>)
    requires |a| == 10 && -19 <= a[0] < 0x400_0000
    requires forall k :: 0 < k < 10 ==> 0 <= a[k] < Limit(k)
    ensures a[0] >= 0 ==> Canonical(a)
    ensures a[0] < 0 ==> Ready(a)
  {
    LimitNine();
    hide Limit;
  }

  /** The do-while loop of fcontract: at most two passes. */
  method ContractLimbs(input: array<limb>)
    requires Short(input, 1)
    modifies input
    ensures input.Length >= 10 && Canonical(input[..10])
    ensures Value(input[..10]) == Lift(old(Value(input[..10])))
  {
    ghost var v := Value(input[..10]);
    hide Value, Lift;
    var again := true;
    ghost var passes := 0;
    while again
      invariant passes <= 2
      invariant again ==> passes < 2 && Ready(input[..10])
      invariant again && passes == 1 ==> -19 <= input[0] < 0
      invariant !again ==> Canonical(input[..10])
      invariant Lift(Value(input[..10])) == Lift(v)
      decreases again, 2 - passes
    {
      ContractPass(input);
      again := input[0] < 0;
      passes := passes + 1;
    }
    CanonicalBound(input[..10]);
    LiftOfNonnegative(Value(input[..10]));
  }

  lemma LiftOfNonnegative(v: nat)
    ensures Lift(v) == v
  {
  }

  // --------------------------------------------------------- writing bytes

  /** The byte at which limb k starts. */
  function Start(k: nat): nat
    requires k < 10
  {
    [0, 3, 6, 9, 12, 16, 19, 22, 25, 28][k]
  }

  /** The bits by which limb k is shifted within its first byte. */
  function Shift(k: nat): nat
    requires k < 10
  {
    [0, 2, 3, 5, 6, 0, 1, 3, 4, 6][k]
  }

  lemma Placement(k: nat)
    requires k < 10
    ensures 8 * Start(k) + Shift(k) == Weight(k)
    ensures k < 9 && k != 4 ==> Start(k + 1) == Start(k) + 3 && Width(k) + Shift(k) == 24 + Shift(k + 1)
    ensures k == 4 ==> Start(k + 1) == Start(k) + 4 && Width(k) + Shift(k) == 32 && Shift(k + 1) == 0
    ensures k == 9 ==> Start(k) == 28
    ensures k <= 4 ==> Start(k) <= 12
    ensures Width(k) + Shift(k) <= 32 && Shift(k) <= 8
  {
  }

  /** Bits that do not fit: the bytes of x = 256 q + r are those of r and of q. */
  lemma ByteOfOr(old0: nat, x: nat, k: nat)
    requires k <= 8 && old0 < Pow2(k) && Low(x, k) == 0
    ensures And(x, 0xff) == x % 256 && Or(old0, And(x, 0xff)) == old0 + x % 256 < 256
  {
    Pow2Small();
    hide Pow2, And, Or;
    AndMask(x, 8);
    ModMod(x, k, 8);
    OrDisjoint(old0, x % 256, k);
    Pow2Add(k, 8 - k);
    SumBelowByte(old0, x % 256, k);
  }

  lemma SumBelowByte(a: nat, b: nat, k: nat)
    requires k <= 8 && a < Pow2(k) && b < 256 && b % Pow2(k) == 0
    ensures a + b < 256
  {
    Pow2Small();
    hide Pow2;
    Pow2Add(k, 8 - k);
    var m, n := Pow2(k), Pow2(8 - k);
    DivMod(b, m);
    hide Times;
    if b / m >= n {
      TimesAdd(b / m, n, m);
      TimesPositive(b / m - n, m);
      TimesCommutes(n, m);
    } else {
      TimesAdd(n, b / m + 1, m);
      TimesPositive(n - (b / m + 1), m);
      TimesAdd(b / m, 1, m);
      TimesSigns(1, m);
      TimesCommutes(n, m);
    }
  }

  /** The macro F of fcontract: or the low byte in, write the three others. */
  method PutLimb(output: array<byte>, x: limb, s: nat, ghost k: nat)
    requires output.Length == 32 && s + 4 <= 32 && k <= 8
    requires 0 <= x < 0x1_0000_0000 && Low(x as int, k) == 0 && output[s] as int < Pow2(k)
    modifies output
    ensures LittleEndian(output[..s + 4])
         == old(LittleEndian(output[..s + 1])) + Times(Pow2(8 * s), x as int)
    ensures output[s + 3] as int == x as int / 0x100_0000
    ensures forall i :: s + 4 <= i < 32 ==> output[i] == old(output[i])
  {
    hide LittleEndian, Pow2, And, Or, Low, Times;
    var n := x as int;
    ghost var before, o := output[..s], output[s] as int;
    ByteOfOr(o, n, k);
    output[s] := Or(output[s] as int, And(n, 0xff)) as byte;
    AndByte(n);
    output[s + 1] := And(n / 0x100, 0xff) as byte;
    output[s + 2] := And(n / 0x1_0000, 0xff) as byte;
    output[s + 3] := And(n / 0x100_0000, 0xff) as byte;
    ghost var t := output[s..s + 4];
    assert output[..s + 4] == before + t;
    assert old(output[..s + 1]) == before + [o as byte];
    FourSum(t, o, n);
    FourBytes(before, t, o, n);
  }

  lemma AndByte(n: nat)
    requires n < 0x1_0000_0000
    ensures And(n / 0x100, 0xff) == n / 0x100 % 256
    ensures And(n / 0x1_0000, 0xff) == n / 0x1_0000 % 256
    ensures And(n / 0x100_0000, 0xff) == n / 0x100_0000
  {
    Pow2Small();
    hide Pow2, And;
    AndMask(n / 0x100, 8);
    AndMask(n / 0x1_0000, 8);
    AndMask(n / 0x100_0000, 8);
  }

  lemma FourBytes(before: seq<byte>, t: seq<byte>, o: nat, n: nat)
    requires |t| == 4 && o < 256 && LittleEndian(t) == o + n
    ensures LittleEndian(before + t)
         == LittleEndian(before + [o as byte]) + Times(Pow2(8 * |before|), n)
  {
    LittleEndianOfOne(o as byte);
    hide Times, Pow2, LittleEndian;
    LittleEndianAppend(before, t);
    LittleEndianAppend(before, [o as byte]);
    TimesAdd(o, n, Pow2(8 * |before|));
  }

  lemma FourSum(t: seq<byte>, o: nat, n: nat)
    requires |t| == 4 && o < 256 && n < 0x1_0000_0000
    requires t[0] as int == o + n % 256 && t[1] as int == n / 0x100 % 256
    requires t[2] as int == n / 0x1_0000 % 256 && t[3] as int == n / 0x100_0000
    ensures LittleEndian(t) == o + n
  {
    hide LittleEndian;
    LittleEndianOfFour(t);
    SplitWord(n);
  }

  lemma SplitWord(n: nat)
    requires n < 0x1_0000_0000
    ensures n == n % 256 + n / 0x100 % 256 * 0x100 + n / 0x1_0000 % 256 * 0x1_0000
               + n / 0x100_0000 * 0x100_0000
  {
  }

  /** The shift of limb k to the position of its bits in its first byte. */
  lemma ShiftedLimb(x: limb, k: nat)
    requires k < 10 && 0 <= x < Limit(k)
    ensures 0 <= Times(x as int, Pow2(Shift(k))) < Pow2(Width(k) + Shift(k)) <= 0x1_0000_0000
    ensures Low(Times(x as int, Pow2(Shift(k))), Shift(k)) == 0
    ensures Times(Pow2(8 * Start(k)), Times(x as int, Pow2(Shift(k)))) == Times(x as int, Pow2(Weight(k)))
  {
    hide *;
    LimitIsPow2(k);
    Placement(k);
    Pow2Big();
    ShiftRoom(x as int, Width(k), Shift(k));
    Pow2Monotone(Width(k) + Shift(k), 32);
    ShiftPlace(x as int, 8 * Start(k), Shift(k));
  }

  lemma ShiftRoom(n: nat, w: nat, k: nat)
    requires n < Pow2(w)
    ensures 0 <= Times(n, Pow2(k)) < Pow2(w + k)
    ensures Low(Times(n, Pow2(k)), k) == 0
  {
    hide Times, Pow2;
    Pow2Add(w, k);
    TimesPositive(n, Pow2(k));
    TimesAdd(Pow2(w), n, Pow2(k));
    TimesPositive(Pow2(w) - n, Pow2(k));
    DivUnique(Times(n, Pow2(k)), Pow2(k), n, 0);
  }

  lemma ShiftPlace(n: nat, s: nat, k: nat)
    ensures Times(Pow2(s), Times(n, Pow2(k))) == Times(n, Pow2(s + k))
  {
    hide Times, Pow2;
    Pow2Add(s, k);
    TimesCommutes(Pow2(s), Times(n, Pow2(k)));
    TimesAssoc(n, Pow2(k), Pow2(s));
    TimesCommutes(Pow2(k), Pow2(s));
  }

  /** The bytes before limb k is written: those of the limbs below it. */
  ghost predicate Written(c: seq<limb>, b: seq<byte>, k: nat)
    requires k <= 10 && |c| == 10 && |b| == 32
  {
    if k == 10 then LittleEndian(b) == Value(c)
    else LittleEndian(b[..Start(k) + 1]) == Value(c[..k]) && b[Start(k)] as int < Pow2(Shift(k))
         && (k <= 4 ==> b[16] == 0)
  }

  /** Limb k of c after fcontract has shifted it. */
  ghost function Shifted(c: seq<limb>, k: nat): int
    requires |c| == 10 && k < 10
  {
    Times(c[k] as int, Pow2(Shift(k)))
  }

  lemma WriteNext(c: seq<limb>, b: seq<byte>, b': seq<byte>, k: nat)
    requires k < 9 && k != 4 && |c| == 10 && Canonical(c) && |b| == |b'| == 32
    requires Written(c, b, k) && Start(k) + 4 <= 32
    requires LittleEndian(b'[..Start(k) + 4]) == Value(c[..k + 1])
    requires b'[Start(k) + 3] as int == Shifted(c, k) / 0x100_0000
    requires forall i :: Start(k) + 4 <= i < 32 ==> b'[i] == b[i]
    ensures Written(c, b', k + 1)
  {
    hide LittleEndian, Value, Pow2, Times, Low, Start, Shift, Weight, Width, Canonical;
    Placement(k);
    CanonicalAt(c, k);
    ShiftedLimb(c[k], k);
    Pow2Of24();
    Pow2Add(24, Shift(k + 1));
    TopByte(Shifted(c, k), Pow2(Shift(k + 1)));
  }

  lemma Pow2Of24()
    ensures Pow2(24) == 0x100_0000
  {
    Pow2Big();
  }

  lemma CanonicalAt(c: seq<limb>, k: nat)
    requires Canonical(c) && k < |c|
    ensures 0 <= c[k] < Limit(k)
  {
  }

  lemma TopByte(x: nat, m: nat)
    requires x < Times(0x100_0000, m)
    ensures x / 0x100_0000 < m
  {
  }

  lemma WriteFifth(c: seq<limb>, b: seq<byte>, b': seq<byte>)
    requires |c| == 10 && |b| == |b'| == 32 && Written(c, b, 4)
    requires LittleEndian(b'[..16]) == Value(c[..5])
    requires forall i :: 16 <= i < 32 ==> b'[i] == b[i]
    ensures Written(c, b', 5)
  {
    LittleEndianOfOne(b'[16]);
    assert Pow2(0) == 1;
    hide LittleEndian, Value, Pow2, Times;
    assert b'[..17] == b'[..16] + [b'[16]];
    LittleEndianAppend(b'[..16], [b'[16]]);
    TimesSigns(Pow2(128), 0);
  }

  /** The macro F on limb k: the bytes now stand for the limbs up to k. */
  method WriteLimb(output: array<byte>, x: limb, k: nat, ghost c: seq<limb>)
    requires k < 10 && output.Length == 32 && |c| == 10 && Canonical(c)
    requires x as int == Shifted(c, k) && Written(c, output[..], k)
    modifies output
    ensures Written(c, output[..], k + 1)
  {
    hide *;
    ghost var before := output[..];
    WriteReady(c, before, k);
    assert before[..Start(k) + 1] == output[..Start(k) + 1];
    PutLimb(output, x, Start(k), Shift(k));
    assert output[..][..Start(k) + 4] == output[..Start(k) + 4];
    WriteStep(c, before, output[..], k);
  }

  lemma WriteReady(c: seq<limb>, b: seq<byte>, k: nat)
    requires k < 10 && |c| == 10 && Canonical(c) && |b| == 32 && Written(c, b, k)
    ensures Start(k) + 4 <= 32 && Shift(k) <= 8 && b[Start(k)] as int < Pow2(Shift(k))
    ensures 0 <= Shifted(c, k) < 0x1_0000_0000 && Low(Shifted(c, k), Shift(k)) == 0
  {
    ShiftedLimb(c[k], k);
    Placement(k);
    hide LittleEndian, Value, Pow2, Times, Low;
  }

  lemma WriteStep(c: seq<limb>, b: seq<byte>, b': seq<byte>, k: nat)
    requires k < 10 && |c| == 10 && Canonical(c) && |b| == |b'| == 32 && Written(c, b, k)
    requires Start(k) + 4 <= 32
    requires LittleEndian(b'[..Start(k) + 4])
          == LittleEndian(b[..Start(k) + 1]) + Times(Pow2(8 * Start(k)), Shifted(c, k))
    requires Shifted(c, k) >= 0 && b'[Start(k) + 3] as int == Shifted(c, k) / 0x100_0000
    requires forall i :: Start(k) + 4 <= i < 32 ==> b'[i] == b[i]
    ensures Written(c, b', k + 1)
  {
    WriteValue(c, b, b', k);
    hide LittleEndian, Value, Pow2, Times, Shifted;
    if k == 9 {
      assert b'[..32] == b' && c[..10] == c;
    } else if k == 4 {
      WriteFifth(c, b, b');
    } else {
      WriteNext(c, b, b', k);
    }
  }

  lemma WriteValue(c: seq<limb>, b: seq<byte>, b': seq<byte>, k: nat)
    requires k < 10 && |c| == 10 && Canonical(c) && |b| == |b'| == 32 && Written(c, b, k)
    requires Start(k) + 4 <= 32
    requires LittleEndian(b'[..Start(k) + 4])
          == LittleEndian(b[..Start(k) + 1]) + Times(Pow2(8 * Start(k)), Shifted(c, k))
    ensures LittleEndian(b'[..Start(k) + 4]) == Value(c[..k + 1])
  {
    hide LittleEndian, Value, Pow2, Times, Start, Low, Shift, Limit;
    ShiftedLimb(c[k], k);
    ValueStep(c, k);
  }

  lemma ValueStep(c: seq<limb>, k: nat)
    requires k < |c|
    ensures Value(c[..k + 1]) == Value(c[..k]) + Times(c[k] as int, Pow2(Weight(k)))
  {
    hide Times, Pow2, Weight;
    assert c[..k + 1][..k] == c[..k];
  }

  /** The eight shifts of fcontract; limbs 0 and 5 stay. */
  method ShiftLimbs(input: array<limb>)
    requires input.Length >= 10 && Canonical(input[..10])
    modifies input
    ensures forall k :: 0 <= k < 10 ==> input[k] as int == old(Shifted(input[..10], k))
  {
    ghost var c := input[..10];
    assert forall k :: 0 <= k < 10 ==> 0 <= c[k] < 0x400_0000;
    input[1] := input[1] * 4;
    input[2] := input[2] * 8;
    input[3] := input[3] * 32;
    input[4] := input[4] * 64;
    input[6] := input[6] * 2;
    input[7] := input[7] * 8;
    input[8] := input[8] * 16;
    input[9] := input[9] * 64;
    ShiftFactors(c);
  }

  lemma ShiftFactors(c: seq<limb>)
    requires |c| == 10
    ensures Shifted(c, 0) == c[0] as int && Shifted(c, 1) == c[1] as int * 4
    ensures Shifted(c, 2) == c[2] as int * 8 && Shifted(c, 3) == c[3] as int * 32
    ensures Shifted(c, 4) == c[4] as int * 64 && Shifted(c, 5) == c[5] as int
    ensures Shifted(c, 6) == c[6] as int * 2 && Shifted(c, 7) == c[7] as int * 8
    ensures Shifted(c, 8) == c[8] as int * 16 && Shifted(c, 9) == c[9] as int * 64
  {
    Pow2Small();
    Pow2Zero();
    hide Pow2;
  }

  /** The bytes stand for the least non-negative number that the limbs reach by
      adding p: below 2^255, congruent mod p, and below p if and only if the input is. */
  method FContract(output: array<byte>, input: array<limb>)
    requires output.Length == 32 && Short(input, 1)
    modifies output, input
    ensures LittleEndian(output[..]) == Lift(old(Value(input[..10])))
    ensures LittleEndian(output[..]) < Pow2(255)
    ensures LittleEndian(output[..]) < P <==> old(Value(input[..10])) < P
    ensures Res(LittleEndian(output[..])) == old(Element(input))
  {
    hide Value, Lift, LittleEndian, Pow2, Res, Written, Canonical;
    ContractLimbs(input);
    ghost var c := input[..10];
    CanonicalBound(c);
    ShiftLimbs(input);
    output[0] := 0;
    output[16] := 0;
    WriteStart(c, output[..]);
    WriteLimb(output, input[0], 0, c);
    WriteLimb(output, input[1], 1, c);
    WriteLimb(output, input[2], 2, c);
    WriteLimb(output, input[3], 3, c);
    WriteLimb(output, input[4], 4, c);
    WriteLimb(output, input[5], 5, c);
    WriteLimb(output, input[6], 6, c);
    WriteLimb(output, input[7], 7, c);
    WriteLimb(output, input[8], 8, c);
    WriteLimb(output, input[9], 9, c);
    WriteEnd(c, output[..]);
  }

  lemma WriteStart(c: seq<limb>, b: seq<byte>)
    requires |c| == 10 && |b| == 32 && b[0] == b[16] == 0
    ensures Written(c, b, 0)
  {
    LittleEndianOfOne(b[0]);
    assert b[..1] == [b[0]];
  }

  lemma WriteEnd(c: seq<limb>, b: seq<byte>)
    requires |c| == 10 && |b| == 32 && Written(c, b, 10)
    ensures LittleEndian(b) == Value(c)
  {
  }

  /** fcontract after fexpand gives back the bytes, with bit 255 cleared. */
  method RoundTrip(input: array<byte>) returns (output: array<byte>)
    requires input.Length == 32
    ensures output.Length == 32 && output[..31] == input[..31] && output[31] == input[31] % 128
  {
    hide Value, Lift, LittleEndian, Res, Within;
    var limbs := new limb[10];
    FExpand(limbs, input);
    CanonicalIsShort(limbs);
    output := new byte[32];
    LiftOfNonnegative(Value(limbs[..10]));
    FContract(output, limbs);
    ClearTopBit(input[..], output[..]);
    assert output[..][..31] == output[..31] && input[..][..31] == input[..31];
  }

  lemma ClearTopBit(a: seq<byte>, b: seq<byte>)
    requires |a| == |b| == 32 && LittleEndian(b) == Low(LittleEndian(a), 255)
    ensures b[..31] == a[..31] && b[31] == a[31] % 128
  {
    hide LittleEndian, Low;
    var c := a[..31] + [a[31] % 128];
    TopByteCleared(a[..31], a[31]);
    assert a == a[..31] + [a[31]];
    LittleEndianInjective(b, c);
  }

  lemma TopByteCleared(a: seq<byte>, t: byte)
    requires |a| == 31
    ensures Low(LittleEndian(a + [t]), 255) == LittleEndian(a + [t % 128])
  {
    TopByteWith(a, t, t % 128, t as int / 128);
  }

  lemma TopByteWith(a: seq<byte>, t: byte, r: byte, q: nat)
    requires |a| == 31 && t as int == 128 * q + r as int && r < 128
    ensures Low(LittleEndian(a + [t]), 255) == LittleEndian(a + [r])
  {
    hide *;
    LastByte(a, t);
    LastByte(a, r);
    TimesByLiteral(q);
    TimesCommutes(q, 128);
    LowIsMod(LittleEndian(a + [t]));
    TopBits(LittleEndian(a), Pow2(248), 128, q, r as int);
  }

  lemma LastByte(a: seq<byte>, t: byte)
    requires |a| == 31
    ensures LittleEndian(a + [t]) == LittleEndian(a) + Times(Pow2(248), t as int)
    ensures LittleEndian(a) < Pow2(248)
  {
    LittleEndianOfOne(t);
    hide LittleEndian, Times, Pow2;
    LittleEndianAppend(a, [t]);
    LittleEndianBound(a);
  }

  lemma LowIsMod(n: nat)
    ensures Times(Pow2(248), 128) > 0 && Low(n, 255) == n % Times(Pow2(248), 128)
  {
    Pow2Small();
    hide Pow2, Times;
    Pow2Add(248, 7);
  }

  lemma TimesByLiteral(q: int)
    ensures Times(128, q) == 128 * q && Times(64, q) == 64 * q
  {
  }

  /** Reducing n + m (d q + r) modulo m d drops q. */
  lemma TopBits(n: nat, m: nat, d: nat, q: nat, r: nat)
    requires n < m && r < d
    ensures Times(m, d) > 0
    ensures (n + Times(m, Times(q, d) + r)) % Times(m, d) == n + Times(m, r)
  {
    hide Times;
    TimesPositive(m, d);
    TimesPositive(m, r);
    TimesAdd(Times(q, d), r, m);
    TimesCommutes(m, d);
    TimesCommutes(m, Times(q, d));
    TimesAssoc(q, d, m);
    TimesAdd(d - 1, r, m);
    TimesPositive(m, d - 1 - r);
    TimesAdd(d - 1, 1, m);
    TimesSigns(m, 1);
    DivUnique(n + Times(m, Times(q, d) + r), Times(m, d), q, n + Times(m, r));
  }
}
