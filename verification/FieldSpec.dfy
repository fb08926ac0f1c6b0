// The prime field of X25519, and integers written in ten signed limbs of
// alternately 26 and 25 bits.
module FieldSpec {
  import opened Arith
  import opened Bits

  /** 2^255 - 19, see PIsPow2. */
  const P: int := 0x7fffffff_ffffffff_ffffffff_ffffffff_ffffffff_ffffffff_ffffffff_ffffffed

  /** The int64_t of the source: arithmetic outside this range does not verify. */
  newtype limb = x: int | -0x8000_0000_0000_0000 <= x < 0x8000_0000_0000_0000

  /** An element of Z_p in canonical form. */
  type Elem = x: int | 0 <= x < P

  function Res(v: int): (r: Elem)
  {
    v % P
  }

  function Add(x: Elem, y: Elem): Elem
  {
    Res(x + y)
  }

  function Sub(x: Elem, y: Elem): Elem
  {
    Res(x - y)
  }

  function Mul(x: Elem, y: Elem): Elem
  {
    Res(Times(x, y))
  }

  lemma PIsPow2()
    ensures P == Pow2(255) - 19
  {
    hide Pow2;
    Pow2Big();
    Pow2Add(32, 32);
    Pow2Add(64, 64);
    Pow2Add(128, 64);
    Pow2Add(192, 32);
    Pow2Add(224, 26);
    Pow2Small();
    Pow2Add(250, 5);
  }

  lemma ResMultiple(v: int, k: int)
    ensures Res(v + k * P) == Res(v)
  {
  }

  lemma ResAdd(a: int, b: int)
    ensures Res(a + b) == Add(Res(a), Res(b))
    ensures Res(a - b) == Sub(Res(a), Res(b))
  {
    var qa, ra := a / P, Res(a);
    var qb, rb := b / P, Res(b);
    assert a == ra + qa * P && b == rb + qb * P;
    hide Res;
    ResMultiple(ra + rb, qa + qb);
    ResMultiple(ra - rb, qa - qb);
  }

  lemma ResMul(a: int, b: int)
    ensures Res(Times(a, b)) == Mul(Res(a), Res(b))
  {
    hide Times;
    var qa, ra := a / P, Res(a);
    var qb, rb := b / P, Res(b);
    assert a == qa * P + ra && b == qb * P + rb;
    TimesAdd(qa * P, ra, b);
    TimesAdd(qb * P, rb, ra);
    TimesP(qa, b);
    TimesP(qb, ra);
    TimesCommutes(ra, qb * P);
    TimesCommutes(ra, qb);
    ResMultiple(Times(ra, rb), Times(qa, b) + Times(ra, qb));
  }

  lemma TimesP(k: int, b: int)
    ensures Times(k * P, b) == Times(k, b) * P
  {
    assert k * P * b == (k * b) * P;
  }

  // ---------------------------------------------------------------- limbs

  /** The bit position of limb i: the limbs are 26, 25, 26, 25, ... bits wide. */
  function Weight(i: nat): nat
  {
    51 * (i / 2) + 26 * (i % 2)
  }

  /** The integer that a little-endian string of limbs stands for. */
  function Value(a: seq<limb>): int
  {
    if |a| == 0 then 0
    else Value(a[..|a| - 1]) + Times(a[|a| - 1] as int, Pow2(Weight(|a| - 1)))
  }

  lemma {:induction false} ValueUpdate(a: seq<limb>, i: nat, x: limb)
    requires i < |a|
    ensures Value(a[i := x]) == Value(a) + Times(x as int - a[i] as int, Pow2(Weight(i)))
  {
    hide Times, Pow2, Weight;
    var n := |a| - 1;
    if i == n {
      assert a[i := x][..n] == a[..n];
      TimesAdd(x as int, a[i] as int, Pow2(Weight(i)));
    } else {
      assert a[i := x][..n] == a[..n][i := x];
      ValueUpdate(a[..n], i, x);
    }
  }

  /** The bits of limb i. */
  function Width(i: nat): nat
  {
    if i % 2 == 0 then 26 else 25
  }

  lemma WeightStep(i: nat)
    ensures Pow2(Weight(i + 1)) == Times(Pow2(Width(i)), Pow2(Weight(i)))
  {
    assert Weight(i + 1) == Width(i) + Weight(i);
    hide Times, Weight, Width, Pow2;
    Pow2Add(Width(i), Weight(i));
  }

  /** Moving a multiple of the radix of limb i into limb i + 1 keeps the value. */
  lemma CarryKeepsValue(a: seq<limb>, i: nat, over: int, x: limb, y: limb)
    requires i + 1 < |a|
    requires x as int == a[i] as int - Times(over, Pow2(Width(i)))
    requires y as int == a[i + 1] as int + over
    ensures Value(a[i := x][i + 1 := y]) == Value(a)
  {
    hide Times, Weight, Width, Pow2, Value;
    ValueUpdate(a, i, x);
    ValueUpdate(a[i := x], i + 1, y);
    WeightStep(i);
    TimesSigns(Times(over, Pow2(Width(i))), Pow2(Weight(i)));
    TimesAssoc(over, Pow2(Width(i)), Pow2(Weight(i)));
  }

  /** Limb n of weight 2^(255 + w) folds onto limb n - 10 of weight 2^w with factor 19. */
  lemma FoldTopLimb(a: seq<limb>, b: seq<limb>)
    requires |a| > 10 && |b| == |a| - 1
    requires b[|a| - 11] as int == a[|a| - 11] as int + 19 * a[|a| - 1] as int
    requires b == a[..|a| - 1][|a| - 11 := b[|a| - 11]]
    ensures Res(Value(b)) == Res(Value(a))
  {
    hide Times, Pow2, Weight;
    var n := |a| - 1;
    var top := a[n] as int;
    var w := Pow2(Weight(n - 10));
    FoldWeight(n, top);
    ValueUpdate(a[..n], n - 10, b[n - 10]);
    hide Value;
    ResMultiple(Value(a), -Times(top, w));
  }

  lemma FoldWeight(n: nat, top: int)
    requires n >= 10
    ensures Times(top, Pow2(Weight(n)))
         == Times(19 * top, Pow2(Weight(n - 10))) + Times(top, Pow2(Weight(n - 10))) * P
  {
    assert Weight(n) == 255 + Weight(n - 10);
    PIsPow2();
    Pow2Add(255, Weight(n - 10));
    hide Pow2, Weight;
    FoldArith(top, Pow2(Weight(n - 10)));
  }

  lemma FoldArith(t: int, w: int)
    ensures Times(t, Times(P + 19, w)) == Times(19 * t, w) + Times(t, w) * P
  {
    var u := t * w;
    assert (P + 19) * w == P * w + 19 * w;
    assert t * ((P + 19) * w) == t * (P * w) + t * (19 * w);
    assert t * (P * w) == u * P && t * (19 * w) == 19 * u && 19 * t * w == 19 * u;
  }

  lemma {:induction false} ValueSum(a: seq<limb>, b: seq<limb>, c: seq<limb>, k: int)
    requires |a| == |b| == |c|
    requires forall i :: 0 <= i < |a| ==> c[i] as int == a[i] as int + Times(k, b[i] as int)
    ensures Value(c) == Value(a) + Times(k, Value(b))
  {
    hide Times, Pow2, Weight;
    if |a| == 0 {
      TimesSigns(k, 0);
    } else {
      var n := |a| - 1;
      ValueSum(a[..n], b[..n], c[..n], k);
      var w, x, y := Pow2(Weight(n)), a[n] as int, b[n] as int;
      TimesAdd(x, Times(k, y), w);
      TimesAssoc(k, y, w);
      TimesAdd(Value(b[..n]), Times(y, w), k);
    }
  }

  lemma {:induction false} ValueZero(a: seq<limb>)
    requires forall i :: 0 <= i < |a| ==> a[i] == 0
    ensures Value(a) == 0
  {
    hide Times, Pow2, Weight;
    if |a| == 0 {
    } else {
      ValueZero(a[..|a| - 1]);
      TimesSigns(0, Pow2(Weight(|a| - 1)));
    }
  }

  /** Trailing zero limbs do not count. */
  lemma {:induction false} ValuePrefix(a: seq<limb>, n: nat)
    requires n <= |a|
    requires forall i :: n <= i < |a| ==> a[i] == 0
    ensures Value(a) == Value(a[..n])
  {
    hide Times, Pow2, Weight;
    if n == |a| {
      assert a[..n] == a;
    } else {
      ValuePrefix(a[..|a| - 1], n);
      TimesSigns(0, Pow2(Weight(|a| - 1)));
      assert a[..|a| - 1][..n] == a[..n];
    }
  }

  // ------------------------------------------------------- schoolbook product

  /** The contribution of limbs i and j to limb i + j of a product: two odd
      weights are both rounded up, so their product counts twice. */
  function Term(f: seq<limb>, g: seq<limb>, i: nat, j: nat): int
    requires i < |f| && j < |g|
  {
    if i % 2 == 1 && j % 2 == 1 then 2 * Times(f[i] as int, g[j] as int)
    else Times(f[i] as int, g[j] as int)
  }

  /** What limb i of f contributes to limb k of the product of f with g. */
  function Row(f: seq<limb>, g: seq<limb>, k: nat, i: nat): int
    requires i < |f|
  {
    if i <= k < i + |g| then Term(f, g, i, k - i) else 0
  }

  /** Limb k of the product of the first n limbs of f with g. */
  function ConvTo(f: seq<limb>, g: seq<limb>, k: nat, n: nat): int
    requires n <= |f|
  {
    if n == 0 then 0 else ConvTo(f, g, k, n - 1) + Row(f, g, k, n - 1)
  }

  /** Limb k of the schoolbook product of f and g. */
  function Conv(f: seq<limb>, g: seq<limb>, k: nat): int
    requires |f| == 10
  {
    ConvTo(f, g, k, 10)
  }

  lemma ConvRows(f: seq<limb>, g: seq<limb>, k: nat)
    requires |f| == 10
    ensures Conv(f, g, k) == Row(f, g, k, 0) + Row(f, g, k, 1) + Row(f, g, k, 2) + Row(f, g, k, 3)
                           + Row(f, g, k, 4) + Row(f, g, k, 5) + Row(f, g, k, 6) + Row(f, g, k, 7)
                           + Row(f, g, k, 8) + Row(f, g, k, 9)
  {
    hide Row;
    assert ConvTo(f, g, k, 1) == ConvTo(f, g, k, 0) + Row(f, g, k, 0);
    assert ConvTo(f, g, k, 2) == ConvTo(f, g, k, 1) + Row(f, g, k, 1);
    assert ConvTo(f, g, k, 3) == ConvTo(f, g, k, 2) + Row(f, g, k, 2);
    assert ConvTo(f, g, k, 4) == ConvTo(f, g, k, 3) + Row(f, g, k, 3);
    assert ConvTo(f, g, k, 5) == ConvTo(f, g, k, 4) + Row(f, g, k, 4);
    assert ConvTo(f, g, k, 6) == ConvTo(f, g, k, 5) + Row(f, g, k, 5);
    assert ConvTo(f, g, k, 7) == ConvTo(f, g, k, 6) + Row(f, g, k, 6);
    assert ConvTo(f, g, k, 8) == ConvTo(f, g, k, 7) + Row(f, g, k, 7);
    assert ConvTo(f, g, k, 9) == ConvTo(f, g, k, 8) + Row(f, g, k, 8);
  }

  /** The first m limbs of the product of the first n limbs of f with g, with their weights. */
  ghost function ConvSum(f: seq<limb>, g: seq<limb>, m: nat, n: nat): int
    requires n <= |f|
  {
    if m == 0 then 0
    else ConvSum(f, g, m - 1, n) + Times(ConvTo(f, g, m - 1, n), Pow2(Weight(m - 1)))
  }

  lemma TermWeight(f: seq<limb>, g: seq<limb>, i: nat, j: nat)
    requires i < |f| && j < |g|
    ensures Times(Term(f, g, i, j), Pow2(Weight(i + j)))
         == Times(Times(f[i] as int, Pow2(Weight(i))), Times(g[j] as int, Pow2(Weight(j))))
  {
    hide Times, Pow2, Weight;
    var x, y := f[i] as int, g[j] as int;
    WeightSum(i, j);
    TimesRegroup(x, Pow2(Weight(i)), y, Pow2(Weight(j)));
    TimesTwo(Times(x, y), Pow2(Weight(i + j)));
  }

  /** Weights add up, except that two odd ones are each rounded up by a half. */
  lemma WeightSum(i: nat, j: nat)
    ensures Times(Pow2(Weight(i)), Pow2(Weight(j)))
         == if i % 2 == 1 && j % 2 == 1 then 2 * Pow2(Weight(i + j)) else Pow2(Weight(i + j))
  {
    WeightParity(i, j);
    Pow2Small();
    hide Times, Weight, Pow2;
    Pow2Add(Weight(i), Weight(j));
    Pow2Add(1, Weight(i + j));
    TimesTwo(1, Pow2(Weight(i + j)));
  }

  lemma WeightParity(i: nat, j: nat)
    ensures Weight(i) + Weight(j) == (if i % 2 == 1 && j % 2 == 1 then 1 else 0) + Weight(i + j)
  {
    var h, g := i / 2, j / 2;
    if i % 2 == 1 && j % 2 == 1 {
      assert i + j == 2 * (h + g + 1);
    } else {
      assert i + j == 2 * (h + g) + (i % 2 + j % 2);
    }
  }

  /** Row n - 1 adds f[n - 1] times those limbs of g that the first m limbs reach. */
  lemma {:induction false} ConvSumRow(f: seq<limb>, g: seq<limb>, m: nat, n: nat)
    requires 0 < n <= |f|
    ensures var reach := if m <= n - 1 then 0 else if m - (n - 1) <= |g| then m - (n - 1) else |g|;
            ConvSum(f, g, m, n) == ConvSum(f, g, m, n - 1)
                                 + Times(Times(f[n - 1] as int, Pow2(Weight(n - 1))), Value(g[..reach]))
  {
    hide Times, Pow2, Weight, Term;
    var c := Times(f[n - 1] as int, Pow2(Weight(n - 1)));
    if m == 0 {
      TimesSigns(c, 0);
    } else {
      ConvSumRow(f, g, m - 1, n);
      var i, k := n - 1, m - 1;
      TimesAdd(ConvTo(f, g, k, i), Row(f, g, k, i), Pow2(Weight(k)));
      TimesSigns(0, Pow2(Weight(k)));
      TimesSigns(c, 0);
      if i <= k < i + |g| {
        var j := k - i;
        TermWeight(f, g, i, j);
        assert g[..j + 1][..j] == g[..j];
        TimesAdd(Value(g[..j]), Times(g[j] as int, Pow2(Weight(j))), c);
      }
    }
  }

  lemma {:induction false} ConvSumZero(f: seq<limb>, g: seq<limb>, m: nat)
    ensures ConvSum(f, g, m, 0) == 0
  {
    hide Times, Pow2, Weight;
    if m > 0 {
      ConvSumZero(f, g, m - 1);
      TimesSigns(0, Pow2(Weight(m - 1)));
    }
  }

  lemma {:induction false} ConvSumIsProduct(f: seq<limb>, g: seq<limb>, m: nat, n: nat)
    requires n <= |f| && m + 1 >= |f| + |g|
    ensures ConvSum(f, g, m, n) == Times(Value(f[..n]), Value(g))
  {
    hide Times, Pow2, Weight, ConvSum;
    if n == 0 {
      ConvSumZero(f, g, m);
      TimesSigns(0, Value(g));
    } else {
      ConvSumIsProduct(f, g, m, n - 1);
      ConvSumRow(f, g, m, n);
      assert f[..n][..n - 1] == f[..n - 1];
      assert g[..|g|] == g;
      TimesAdd(Value(f[..n - 1]), Times(f[n - 1] as int, Pow2(Weight(n - 1))), Value(g));
    }
  }

  lemma {:induction false} ValueOfConv(f: seq<limb>, g: seq<limb>, a: seq<limb>)
    requires |f| == 10
    requires forall k :: 0 <= k < |a| ==> a[k] as int == Conv(f, g, k)
    ensures Value(a) == ConvSum(f, g, |a|, 10)
  {
    hide Times, Pow2, Weight;
    if |a| > 0 {
      ValueOfConv(f, g, a[..|a| - 1]);
      assert a[|a| - 1] as int == Conv(f, g, |a| - 1);
    }
  }

  /** The schoolbook product stands for the product of the values. */
  lemma ConvIsProduct(f: seq<limb>, g: seq<limb>, a: seq<limb>)
    requires |f| == |g| == 10 && |a| == 19
    requires forall k :: 0 <= k < |a| ==> a[k] as int == Conv(f, g, k)
    ensures Value(a) == Times(Value(f), Value(g))
  {
    hide *;
    ValueOfConv(f, g, a);
    ConvSumIsProduct(f, g, 19, 10);
    assert f[..10] == f;
  }
}
