// The x-only Montgomery ladder of section 5 of RFC 7748 over Z_p, and the
// source's ladder on limb arrays that refines it.
module Ladder {
  import opened Arith
  import opened Bits
  import opened FieldSpec
  import opened UnrolledProduct
  import opened LimbArithmetic

  /** A point in projective x-coordinates X : Z. */
  datatype Point = Point(x: Elem, z: Elem)

  function Square(x: Elem): Elem
  {
    Mul(x, x)
  }

  /** The doubling formulas: A, B, AA, BB and E of section 5, with a24 = 121665. */
  function DoublePoint(q: Point): Point
  {
    var aa := Square(Add(q.x, q.z));
    var bb := Square(Sub(q.x, q.z));
    var e := Sub(aa, bb);
    Point(Mul(aa, bb), Mul(e, Add(aa, Mul(121665, e))))
  }

  /** The differential addition formulas: C, D, DA and CB of section 5, where u is
      the x-coordinate of the difference of the two points. */
  function AddPoints(q: Point, q': Point, u: Elem): Point
  {
    var da := Mul(Sub(q'.x, q'.z), Add(q.x, q.z));
    var cb := Mul(Add(q'.x, q'.z), Sub(q.x, q.z));
    Point(Square(Add(da, cb)), Mul(u, Square(Sub(da, cb))))
  }

  /** kQ and (k+1)Q. */
  datatype Rungs = Rungs(low: Point, high: Point)

  /** One rung: k becomes 2k or 2k + 1. */
  function Climb(r: Rungs, bit: bool, u: Elem): Rungs
  {
    if bit then Rungs(AddPoints(r.high, r.low, u), DoublePoint(r.high))
    else Rungs(DoublePoint(r.low), AddPoints(r.low, r.high, u))
  }

  /** Bit t of the scalar n, most significant of 256 first. */
  function ScalarBit(n: nat, t: nat): bool
    requires t < 256
  {
    Shr(n, 255 - t) % 2 == 1
  }

  /** The ladder after the t most significant of 256 bits of n. */
  function LadderTo(n: nat, u: Elem, t: nat): Rungs
    requires t <= 256
  {
    if t == 0 then Rungs(Point(1, 0), Point(u, 1))
    else Climb(LadderTo(n, u, t - 1), ScalarBit(n, t - 1), u)
  }

  lemma MulCommutes(x: Elem, y: Elem)
    ensures Mul(x, y) == Mul(y, x)
  {
  }

  lemma AddCommutes(x: Elem, y: Elem)
    ensures Add(x, y) == Add(y, x)
  {
  }

  lemma SquareOfNegated(x: Elem, y: Elem)
    ensures Square(Sub(x, y)) == Square(Sub(y, x))
  {
    hide Mul, Times;
    ResMul(x - y, x - y);
    ResMul(y - x, y - x);
    TimesSigns(x - y, x - y);
  }

  // ---------------------------------------------------------- the source's rung

  ghost function At(x: array<limb>, z: array<limb>): Point
    requires x.Length >= 10 && z.Length >= 10
    reads x, z
  {
    Point(Element(x), Element(z))
  }

  /** x becomes x + z and z becomes x - z: the first lines of fmonty, done once for
      each of the two points. */
  method SumAndDifference(x: array<limb>, z: array<limb>)
    requires x.Length >= 10 && z.Length >= 10 && x != z && Short(x, 1) && Short(z, 1)
    modifies x, z
    ensures Short(x, 2) && Element(x) == Add(old(Element(x)), old(Element(z)))
    ensures Short(z, 2) && Element(z) == Sub(old(Element(x)), old(Element(z)))
  {
    ShortIsBelow62(x, 1);
    ShortIsBelow62(z, 1);
    hide Element, Within, Add, Sub, Below62;
    var orig := new limb[10];
    CopyTen(orig, x);
    assert Short(orig, 1);
    SameLimbs(orig, x);
    FSum(x, z);
    FDifference(z, orig);
  }

  lemma SameLimbs(a: array<limb>, b: array<limb>)
    requires a.Length >= 10 && b.Length >= 10 && a[..10] == b[..10]
    ensures Element(a) == Element(b) && (forall k :: Short(a, k) == Short(b, k))
    ensures Below62(a[..10]) == Below62(b[..10])
  {
  }

  /** memcpy of a short form. */
  method CopyShort(output: array<limb>, t: array<limb>)
    requires output.Length >= 10 && t.Length >= 10 && output != t && Short(t, 1)
    modifies output
    ensures Short(output, 1) && Element(output) == Element(t)
  {
    hide *;
    CopyTen(output, t);
    SameLimbs(output, t);
  }

  /** The products of fmonty that lead to Q + Q', from the sums and differences. */
  method AddPart(x3: array<limb>, z3: array<limb>, x: array<limb>, z: array<limb>,
                 xprime: array<limb>, zprime: array<limb>, qmqp: array<limb>)
    requires x3.Length >= 10 && z3.Length >= 10 && x3 != z3
    requires x3 !in {x, z, xprime, zprime, qmqp} && z3 !in {x, z, xprime, zprime, qmqp}
    requires x.Length >= 10 && z.Length >= 10 && xprime.Length >= 10 && zprime.Length >= 10
    requires Short(x, 2) && Short(z, 2) && Short(xprime, 2) && Short(zprime, 2)
    requires qmqp.Length >= 10 && Short(qmqp, 1)
    modifies x3, z3
    ensures Short(x3, 1) && Short(z3, 1)
    ensures var cb, da := Mul(Element(xprime), Element(z)), Mul(Element(x), Element(zprime));
            Element(x3) == Square(Add(cb, da)) && Element(z3) == Mul(Square(Sub(cb, da)), Element(qmqp))
  {
    hide *;
    var xxprime, zzprime := new limb[19], new limb[19];
    ProductReduced(xxprime, xprime, z);
    ProductReduced(zzprime, x, zprime);
    SumAndDifference(xxprime, zzprime);
    var xxxprime, zzzprime := new limb[10], new limb[10];
    FSquare(xxxprime, xxprime);
    FSquare(zzzprime, zzprime);
    ShortIsBelow62(zzzprime, 1);
    ShortIsBelow62(qmqp, 1);
    ProductReduced(zzprime, zzzprime, qmqp);
    CopyShort(x3, xxxprime);
    CopyShort(z3, zzprime);
    SquareIs();
  }

  lemma SquareIs()
    ensures forall x :: Square(x) == Mul(x, x)
  {
  }

  /** The products of fmonty that lead to 2Q, from the sum and the difference. */
  method DoublePart(x2: array<limb>, z2: array<limb>, x: array<limb>, z: array<limb>)
    requires x2.Length == 19 && z2.Length == 19 && x2 != z2 && z !in {x, x2, z2} && x !in {x2, z2}
    requires x.Length >= 10 && z.Length >= 10 && Short(x, 2) && Short(z, 2)
    modifies x2, z2
    ensures Short(x2, 1) && Short(z2, 1)
    ensures var aa, bb := Square(Element(x)), Square(Element(z));
            var e := Sub(aa, bb);
            Element(x2) == Mul(aa, bb) && Element(z2) == Mul(e, Add(Mul(121665, e), aa))
  {
    hide Element, Short, Within, Mul, Add, Sub, Below62;
    var xx, zz, zzz := new limb[19], new limb[19], new limb[19];
    FSquare(xx, x);
    FSquare(zz, z);
    ShortIsBelow62(xx, 1);
    ShortIsBelow62(zz, 1);
    ProductReduced(x2, xx, zz);
    FDifference(zz, xx);
    Scaled(zzz, zz);
    ShortIsBelow62(xx, 1);
    ShortIsBelow62(zzz, 1);
    FSum(zzz, xx);
    ProductReduced(z2, zz, zzz);
  }

  /** zzz becomes 121665 zz, reduced. */
  method Scaled(zzz: array<limb>, zz: array<limb>)
    requires zzz.Length == 19 && zz.Length >= 10 && zzz != zz && Short(zz, 2)
    modifies zzz
    ensures Short(zzz, 1) && Element(zzz) == Mul(121665, Element(zz))
  {
    hide Element, Short, Within, Mul, Below62, Times;
    ScaledBounds(zz);
    for i := 10 to 19
      invariant forall k :: 10 <= k < i ==> zzz[k] == 0
    {
      zzz[i] := 0;
    }
    FScalarProduct(zzz, zz, 121665);
    assert forall k :: 10 <= k < 19 ==> zzz[k] == zzz[10..][k - 10];
    ScaledFoldable(zzz);
    SmallRes();
    FReduceDegree(zzz);
    var _ := FReduceCoefficients(zzz);
  }

  lemma SmallRes()
    ensures Res(121665) == 121665
  {
  }

  /** One rung of the source: 2Q into x2, z2 and Q + Q' into x3, z3, the inputs
      but qmqp destroyed. */
  method FMonty(x2: array<limb>, z2: array<limb>, x3: array<limb>, z3: array<limb>,
                x: array<limb>, z: array<limb>, xprime: array<limb>, zprime: array<limb>,
                qmqp: array<limb>)
    requires x2.Length == 19 && z2.Length == 19 && x3.Length >= 10 && z3.Length >= 10
    requires x.Length >= 10 && z.Length >= 10 && xprime.Length >= 10 && zprime.Length >= 10
    requires qmqp.Length >= 10
    requires x2 !in {z2, x3, z3, x, z, xprime, zprime, qmqp}
    requires z2 !in {x3, z3, x, z, xprime, zprime, qmqp}
    requires x3 !in {z3, x, z, xprime, zprime, qmqp} && z3 !in {x, z, xprime, zprime, qmqp}
    requires x !in {z, xprime, zprime, qmqp} && z !in {xprime, zprime, qmqp}
    requires xprime !in {zprime, qmqp} && zprime != qmqp
    requires Short(x, 1) && Short(z, 1) && Short(xprime, 1) && Short(zprime, 1) && Short(qmqp, 1)
    modifies x2, z2, x3, z3, x, z, xprime, zprime
    ensures Short(x2, 1) && Short(z2, 1) && Short(x3, 1) && Short(z3, 1)
    ensures At(x2, z2) == DoublePoint(old(At(x, z)))
    ensures At(x3, z3) == AddPoints(old(At(x, z)), old(At(xprime, zprime)), Element(qmqp))
  {
    hide Element, Short, Within, Mul, Add, Sub;
    SumAndDifference(x, z);
    SumAndDifference(xprime, zprime);
    AddPart(x3, z3, x, z, xprime, zprime, qmqp);
    DoublePart(x2, z2, x, z);
    FormulasAgree(old(At(x, z)), old(At(xprime, zprime)), Element(qmqp));
  }

  /** The source multiplies and adds in another order than the standard, and
      squares the difference with the other sign. */
  lemma FormulasAgree(q: Point, q': Point, u: Elem)
    ensures var cb := Mul(Add(q'.x, q'.z), Sub(q.x, q.z));
            var da := Mul(Add(q.x, q.z), Sub(q'.x, q'.z));
            AddPoints(q, q', u) == Point(Square(Add(cb, da)), Mul(Square(Sub(cb, da)), u))
    ensures var aa, bb := Square(Add(q.x, q.z)), Square(Sub(q.x, q.z));
            var e := Sub(aa, bb);
            DoublePoint(q) == Point(Mul(aa, bb), Mul(e, Add(Mul(121665, e), aa)))
  {
    var cb := Mul(Add(q'.x, q'.z), Sub(q.x, q.z));
    var da := Mul(Add(q.x, q.z), Sub(q'.x, q'.z));
    var aa, bb := Square(Add(q.x, q.z)), Square(Sub(q.x, q.z));
    MulCommutes(Add(q.x, q.z), Sub(q'.x, q'.z));
    AddCommutes(cb, da);
    SquareOfNegated(cb, da);
    MulCommutes(Square(Sub(cb, da)), u);
    AddCommutes(aa, Mul(121665, Sub(aa, bb)));
    hide Mul, Add, Sub, Square;
  }

  // ---------------------------------------------------------- the source's loop

  /** Eight distinct work buffers, apart from the input point. */
  ghost predicate Apart(a: array<limb>, b: array<limb>, c: array<limb>, d: array<limb>,
                        e: array<limb>, f: array<limb>, g: array<limb>, h: array<limb>, q: array<limb>)
  {
    a.Length == b.Length == c.Length == d.Length == e.Length == f.Length == g.Length == h.Length == 19
    && a !in {b, c, d, e, f, g, h, q} && b !in {c, d, e, f, g, h, q} && c !in {d, e, f, g, h, q}
    && d !in {e, f, g, h, q} && e !in {f, g, h, q} && f !in {g, h, q} && g !in {h, q} && h != q
  }

  /** kQ in x, z and (k+1)Q in x', z', all short. */
  ghost predicate OnRungs(x: array<limb>, z: array<limb>, x': array<limb>, z': array<limb>, r: Rungs)
    reads x, z, x', z'
  {
    Short(x, 1) && Short(z, 1) && Short(x', 1) && Short(z', 1)
    && r == Rungs(At(x, z), At(x', z'))
  }

  /** The body of the inner loop up to the swap of the pointers. */
  method ClimbBit(bit: bool, nqx: array<limb>, nqz: array<limb>, nqpqx: array<limb>, nqpqz: array<limb>,
                  nqx2: array<limb>, nqz2: array<limb>, nqpqx2: array<limb>, nqpqz2: array<limb>,
                  q: array<limb>, ghost r: Rungs)
    requires Apart(nqx, nqz, nqpqx, nqpqz, nqx2, nqz2, nqpqx2, nqpqz2, q)
    requires OnRungs(nqx, nqz, nqpqx, nqpqz, r) && q.Length >= 10 && Short(q, 1)
    modifies nqx, nqz, nqpqx, nqpqz, nqx2, nqz2, nqpqx2, nqpqz2
    ensures OnRungs(nqx2, nqz2, nqpqx2, nqpqz2, Climb(r, bit, Element(q)))
  {
    hide Element, Short, AddPoints, DoublePoint;
    if bit {
      FMonty(nqpqx2, nqpqz2, nqx2, nqz2, nqpqx, nqpqz, nqx, nqz, q);
    } else {
      FMonty(nqx2, nqz2, nqpqx2, nqpqz2, nqx, nqz, nqpqx, nqpqz, q);
    }
  }

  lemma And128(a: nat)
    requires a < 256
    ensures And(a, 0x80) != 0 <==> a >= 128
  {
    hide And;
    AndEven(a, 64);
    AndEven(a / 2, 32);
    AndEven(a / 2 / 2, 16);
    AndEven(a / 2 / 2 / 2, 8);
    AndEven(a / 2 / 2 / 2 / 2, 4);
    AndEven(a / 2 / 2 / 2 / 2 / 2, 2);
    AndEven(a / 2 / 2 / 2 / 2 / 2 / 2, 1);
    And1(a / 2 / 2 / 2 / 2 / 2 / 2 / 2);
  }

  lemma And1(a: nat)
    requires a < 2
    ensures And(a, 1) == a
  {
    assert And(0, 0) == 0;
  }

  /** A byte shifted left j times within eight bits. */
  function ShiftedByte(b: byte, j: nat): (r: nat)
    ensures r < 256
  {
    if j == 0 then b as int else ShiftedByte(b, j - 1) * 2 % 256
  }

  /** After j shifts, bits 7 - j and below are left, j places up. */
  lemma {:induction false} ShiftedBits(b: byte, j: nat)
    requires j <= 8
    ensures ShiftedByte(b, j) == Times(Low(b as int, 8 - j), Pow2(j))
  {
    Pow2Small();
    if j == 0 {
      TimesSigns(b as int, 1);
      assert Pow2(0) == 1;
    } else {
      ShiftedBits(b, j - 1);
      hide Times, Pow2;
      var n := b as int;
      Pow2Add(1, 8 - j);
      Pow2Add(1, j - 1);
      Pow2Add(8 - j, j);
      TimesCommutes(2, Pow2(8 - j));
      DivDiv(n, Pow2(8 - j), 2);
      ShiftOnce(Low(n, 8 - j), Shr(n, 8 - j) % 2, Pow2(8 - j), Pow2(j - 1));
    }
  }

  /** Doubling (l + m t) w where m w' = 256 and w' = 2 w, modulo 256. */
  lemma ShiftOnce(l: nat, t: nat, m: nat, w: nat)
    requires l < m && t < 2 && w > 0 && Times(m, Times(2, w)) == 256
    ensures Times(l + Times(m, t), w) * 2 % 256 == Times(l, Times(2, w))
  {
    hide Times;
    TimesAdd(l, Times(m, t), w);
    TimesTwo(l, w);
    TimesTwo(1, w);
    TimesTwo(m, w);
    TimesSigns(m, t);
    TimesSigns(m, m);
    TimesSigns(0, w);
    TimesAdd(m, l, Times(2, w));
    TimesPositive(m - l, Times(2, w));
    TimesPositive(l, Times(2, w));
  }

  /** The top bit after j shifts is bit 7 - j. */
  lemma TopBitShifted(b: byte, j: nat)
    requires j < 8
    ensures ShiftedByte(b, j) >= 128 <==> Shr(b as int, 7 - j) % 2 == 1
  {
    var n := b as int;
    ShiftedBits(b, j);
    Pow2Small();
    hide Times, Pow2, ShiftedByte;
    var m, w := Pow2(7 - j), Pow2(j);
    Pow2Add(1, 7 - j);
    Pow2Add(7 - j, j);
    TimesCommutes(2, m);
    DivDiv(n, m, 2);
    TopOf(n % m, n / m % 2, m, w);
  }

  lemma TopOf(l: nat, t: nat, m: nat, w: nat)
    requires l < m && t < 2 && w > 0 && Times(m, w) == 128
    ensures Times(l + Times(m, t), w) >= 128 <==> t == 1
  {
    hide Times;
    TimesAdd(l, Times(m, t), w);
    TimesSigns(m, t);
    TimesSigns(0, w);
    TimesAdd(m, l, w);
    TimesPositive(m - l, w);
    TimesPositive(l, w);
  }

  /** Bit 8 i + j of the scalar, most significant first, is bit 7 - j of byte 31 - i. */
  lemma ScalarBitOfByte(n: seq<byte>, i: nat, j: nat)
    requires |n| == 32 && i < 32 && j < 8
    ensures ScalarBit(LittleEndian(n), 8 * i + j) == (Shr(n[31 - i] as int, 7 - j) % 2 == 1)
  {
    var k := 31 - i;
    Pow2Small();
    hide Pow2, LittleEndian, Shr, Low;
    LittleEndianSlice(n, k, 1);
    OneByte(n, k);
    assert 255 - (8 * i + j) == 8 * k + (7 - j);
    ShrShr(LittleEndian(n), 8 * k, 7 - j);
    MiddleBits(Shr(LittleEndian(n), 8 * k), 7 - j, 1, 8);
    LowOne(Shr(n[k] as int, 7 - j));
    LowOne(Shr(LittleEndian(n), 8 * k + (7 - j)));
  }

  lemma OneByte(n: seq<byte>, k: nat)
    requires k < |n|
    ensures LittleEndian(n[k..k + 1]) == n[k] as int
  {
    assert n[k..k + 1][1..] == [];
  }

  lemma LowOne(n: nat)
    ensures Low(n, 1) == n % 2
  {
    Pow2Small();
  }

  /** The inner loop: eight rungs, after which the swapped pointers are back in place. */
  method ClimbByte(byte0: byte, nqx: array<limb>, nqz: array<limb>, nqpqx: array<limb>, nqpqz: array<limb>,
                   nqx2: array<limb>, nqz2: array<limb>, nqpqx2: array<limb>, nqpqz2: array<limb>,
                   q: array<limb>, ghost n: seq<byte>, ghost i: nat, ghost u: Elem)
    requires |n| == 32 && i < 32 && byte0 == n[31 - i]
    requires Apart(nqx, nqz, nqpqx, nqpqz, nqx2, nqz2, nqpqx2, nqpqz2, q)
    requires q.Length >= 10 && Short(q, 1) && u == Element(q)
    requires OnRungs(nqx, nqz, nqpqx, nqpqz, LadderTo(LittleEndian(n), u, 8 * i))
    modifies nqx, nqz, nqpqx, nqpqz, nqx2, nqz2, nqpqx2, nqpqz2
    ensures OnRungs(nqx, nqz, nqpqx, nqpqz, LadderTo(LittleEndian(n), u, 8 * (i + 1)))
  {
    hide *;
    var byte_ := byte0;
    var ax, az, bx, bz := nqx, nqz, nqpqx, nqpqz;
    var cx, cz, dx, dz := nqx2, nqz2, nqpqx2, nqpqz2;
    ghost var buffers := {nqx, nqz, nqpqx, nqpqz, nqx2, nqz2, nqpqx2, nqpqz2};
    ApartSwapped(nqx, nqz, nqpqx, nqpqz, nqx2, nqz2, nqpqx2, nqpqz2, q);
    ShiftedStart(byte0);
    for j := 0 to 8
      invariant byte_ as int == ShiftedByte(byte0, j)
      invariant OnRungs(ax, az, bx, bz, LadderTo(LittleEndian(n), u, 8 * i + j))
      invariant Apart(ax, az, bx, bz, cx, cz, dx, dz, q)
      invariant {ax, az, bx, bz, cx, cz, dx, dz} <= buffers && q !in buffers
      invariant (if j % 2 == 0 then (ax, az, bx, bz) else (cx, cz, dx, dz)) == (nqx, nqz, nqpqx, nqpqz)
      invariant Short(q, 1) && u == Element(q)
    {
      ClimbBit(And(byte_ as int, 0x80) != 0, ax, az, bx, bz, cx, cz, dx, dz, q,
               LadderTo(LittleEndian(n), u, 8 * i + j));
      NextRung(n, u, i, j);
      And128(byte_ as int);
      ApartSwapped(ax, az, bx, bz, cx, cz, dx, dz, q);
      ax, cx := cx, ax;
      az, cz := cz, az;
      bx, dx := dx, bx;
      bz, dz := dz, bz;
      byte_ := (byte_ as int * 2 % 256) as byte;
    }
  }

  lemma ShiftedStart(b: byte)
    ensures ShiftedByte(b, 0) == b as int
    ensures forall j: nat :: ShiftedByte(b, j + 1) == ShiftedByte(b, j) * 2 % 256
  {
  }

  lemma ApartSwapped(a: array<limb>, b: array<limb>, c: array<limb>, d: array<limb>,
                     e: array<limb>, f: array<limb>, g: array<limb>, h: array<limb>, q: array<limb>)
    requires Apart(a, b, c, d, e, f, g, h, q)
    ensures Apart(e, f, g, h, a, b, c, d, q) && q !in {a, b, c, d, e, f, g, h}
  {
  }

  lemma NextRung(n: seq<byte>, u: Elem, i: nat, j: nat)
    requires |n| == 32 && i < 32 && j < 8
    ensures LadderTo(LittleEndian(n), u, 8 * i + j + 1)
         == Climb(LadderTo(LittleEndian(n), u, 8 * i + j), ShiftedByte(n[31 - i], j) >= 128, u)
  {
    hide LittleEndian, ShiftedByte, ScalarBit, Climb, Shr;
    ScalarBitOfByte(n, i, j);
    TopBitShifted(n[31 - i], j);
  }

  /** The ladder of the source, over all 256 bits, most significant first. */
  method CMult(resultx: array<limb>, resultz: array<limb>, n: array<byte>, q: array<limb>)
    requires resultx.Length >= 10 && resultz.Length >= 10 && resultx != resultz
    requires n.Length == 32 && q.Length >= 10 && Short(q, 1)
    modifies resultx, resultz
    ensures Short(resultx, 1) && Short(resultz, 1)
    ensures At(resultx, resultz)
         == LadderTo(LittleEndian(n[..]), old(Element(q)), 256).low
  {
    hide *;
    ghost var k, u := LittleEndian(n[..]), Element(q);
    var c, d, a, b := FirstRungs(q, k);
    var e, f, g, h := new limb[19], new limb[19], new limb[19], new limb[19];
    AllApart(c, d, a, b, g, h, e, f, q);
    for i := 0 to 32
      invariant OnRungs(c, d, a, b, LadderTo(k, u, 8 * i))
      invariant Short(q, 1) && u == Element(q)
    {
      ClimbByte(n[31 - i], c, d, a, b, g, h, e, f, q, n[..], i, u);
    }
    LowRung(c, d, a, b, LadderTo(k, u, 256));
    CopyShort(resultx, c);
    CopyShort(resultz, d);
    AtIs(resultx, resultz);
  }

  lemma AllApart(a: array<limb>, b: array<limb>, c: array<limb>, d: array<limb>,
                 e: array<limb>, f: array<limb>, g: array<limb>, h: array<limb>, q: array<limb>)
    requires a.Length == b.Length == c.Length == d.Length == 19
    requires e.Length == f.Length == g.Length == h.Length == 19
    requires a !in {b, c, d, e, f, g, h, q} && b !in {c, d, e, f, g, h, q} && c !in {d, e, f, g, h, q}
    requires d !in {e, f, g, h, q} && e !in {f, g, h, q} && f !in {g, h, q} && g !in {h, q} && h != q
    ensures Apart(a, b, c, d, e, f, g, h, q)
  {
  }

  /** The buffers before the first bit: (1 : 0) and (q : 1). */
  method FirstRungs(q: array<limb>, ghost k: nat)
    returns (nqx: array<limb>, nqz: array<limb>, nqpqx: array<limb>, nqpqz: array<limb>)
    requires q.Length >= 10 && Short(q, 1)
    ensures fresh(nqx) && fresh(nqz) && fresh(nqpqx) && fresh(nqpqz)
    ensures nqx.Length == nqz.Length == nqpqx.Length == nqpqz.Length == 19
    ensures nqx !in {nqz, nqpqx, nqpqz} && nqz !in {nqpqx, nqpqz} && nqpqx != nqpqz
    ensures OnRungs(nqx, nqz, nqpqx, nqpqz, LadderTo(k, Element(q), 0))
  {
    hide *;
    nqpqx, nqpqz, nqx, nqz := new limb[19], new limb[19], new limb[19], new limb[19];
    SetSmall(nqpqz, 1);
    SetSmall(nqx, 1);
    SetSmall(nqz, 0);
    CopyShort(nqpqx, q);
    StartRungs(nqx, nqz, nqpqx, nqpqz, k, Element(q));
  }

  /** The initialisers {0} and {1} of the source's work buffers. */
  method SetSmall(a: array<limb>, v: limb)
    requires a.Length == 19 && 0 <= v <= 1
    modifies a
    ensures Short(a, 1) && Element(a) == v as int
  {
    for i := 0 to 19
      invariant forall k :: 0 <= k < i ==> a[k] == if k == 0 then v else 0
    {
      a[i] := if i == 0 then v else 0;
    }
    SmallValue(a[..10], v);
  }

  lemma SmallValue(a: seq<limb>, v: limb)
    requires |a| == 10 && 0 <= v <= 1 && forall k :: 0 <= k < 10 ==> a[k] == if k == 0 then v else 0
    ensures Res(Value(a)) == v as int
  {
    var zero: seq<limb> := seq(10, i => 0);
    assert a == zero[0 := v];
    ValueZero(zero);
    assert Weight(0) == 0 && Pow2(0) == 1;
    hide Value, Times;
    ValueUpdate(zero, 0, v);
    TimesSigns(0, v as int);
    TimesSigns(v as int, 0);
  }

  lemma StartRungs(x: array<limb>, z: array<limb>, x': array<limb>, z': array<limb>, k: nat, u: Elem)
    requires Short(x, 1) && Short(z, 1) && Short(x', 1) && Short(z', 1)
    requires Element(x) == 1 && Element(z) == 0 && Element(x') == u && Element(z') == 1
    ensures OnRungs(x, z, x', z', LadderTo(k, u, 0))
  {
    hide Element;
  }

  lemma LowRung(x: array<limb>, z: array<limb>, x': array<limb>, z': array<limb>, r: Rungs)
    requires OnRungs(x, z, x', z', r)
    ensures x.Length >= 10 && z.Length >= 10 && Short(x, 1) && Short(z, 1)
    ensures r.low == Point(Element(x), Element(z))
  {
    hide Element;
  }

  lemma AtIs(x: array<limb>, z: array<limb>)
    requires x.Length >= 10 && z.Length >= 10
    ensures At(x, z) == Point(Element(x), Element(z))
  {
  }
}
