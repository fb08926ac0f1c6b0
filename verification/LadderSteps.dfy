// The source climbs 256 rungs, one for every bit of the 32 scalar bytes; section 5 of
// RFC 7748 climbs 255. A leading zero bit only scales the projective coordinates.
module LadderSteps {
  import opened Arith
  import opened Bits
  import opened FieldSpec
  import opened Ladder
  import opened Reciprocal
  import opened Donna

  /** The ladder of the standard: it starts below bit 255. */
  function StandardLadder(n: nat, u: Elem, t: nat): Rungs
    requires 1 <= t <= 256
  {
    if t == 1 then Rungs(Point(1, 0), Point(u, 1))
    else Climb(StandardLadder(n, u, t - 1), ScalarBit(n, t - 1), u)
  }

  /** The same projective point with both coordinates multiplied. */
  function Scale(s: Elem, q: Point): Point
  {
    Point(Mul(s, q.x), Mul(s, q.z))
  }

  // ------------------------------------------------------------ scaling the formulas

  lemma MulAdd(s: Elem, x: Elem, y: Elem)
    ensures Mul(s, Add(x, y)) == Add(Mul(s, x), Mul(s, y))
    ensures Mul(s, Sub(x, y)) == Sub(Mul(s, x), Mul(s, y))
  {
    hide Times, Res, Mul;
    MulOfRes(s, x + y);
    MulOfRes(s, x - y);
    TimesAdd(x, y, s);
    ResAdd(Times(s, x), Times(s, y));
    ResOfTimes(s, x);
    ResOfTimes(s, y);
  }

  lemma ResOfTimes(s: Elem, x: Elem)
    ensures Res(Times(s, x)) == Mul(s, x)
  {
  }

  lemma MulOfRes(s: Elem, x: int)
    ensures Mul(s, Res(x)) == Res(Times(s, x))
  {
    hide Times;
    ResMul(s, x);
    assert Res(s) == s;
  }

  lemma MulPairs(s: Elem, x: Elem, t: Elem, y: Elem)
    ensures Mul(Mul(s, x), Mul(t, y)) == Mul(Mul(s, t), Mul(x, y))
  {
    hide Mul;
    MulAssoc(s, x, Mul(t, y));
    MulAssoc(x, t, y);
    MulCommutes(x, t);
    MulAssoc(t, x, y);
    MulAssoc(s, t, Mul(x, y));
  }

  lemma SquareScaled(s: Elem, x: Elem)
    ensures Square(Mul(s, x)) == Mul(Square(s), Square(x))
  {
    MulPairs(s, x, s, x);
  }

  lemma DoubleScaled(s: Elem, q: Point)
    ensures DoublePoint(Scale(s, q)) == Scale(Square(Square(s)), DoublePoint(q))
  {
    hide Mul, Add, Sub;
    var aa, bb, k := Square(Add(q.x, q.z)), Square(Sub(q.x, q.z)), Square(s);
    var e := Sub(aa, bb);
    MulAdd(s, q.x, q.z);
    SquareScaled(s, Add(q.x, q.z));
    SquareScaled(s, Sub(q.x, q.z));
    MulAdd(k, aa, bb);
    MulPairs(k, aa, k, bb);
    MulAssoc(121665, k, e);
    MulCommutes(121665, k);
    MulAssoc(k, 121665, e);
    MulAdd(k, aa, Mul(121665, e));
    MulPairs(k, e, k, Add(aa, Mul(121665, e)));
  }

  lemma AddScaled(s: Elem, t: Elem, q: Point, q': Point, u: Elem)
    ensures AddPoints(Scale(s, q), Scale(t, q'), u) == Scale(Square(Mul(s, t)), AddPoints(q, q', u))
  {
    hide Mul, Add, Sub;
    var k := Mul(s, t);
    var da := Mul(Sub(q'.x, q'.z), Add(q.x, q.z));
    var cb := Mul(Add(q'.x, q'.z), Sub(q.x, q.z));
    MulAdd(s, q.x, q.z);
    MulAdd(t, q'.x, q'.z);
    MulCommutes(t, s);
    MulPairs(t, Sub(q'.x, q'.z), s, Add(q.x, q.z));
    MulPairs(t, Add(q'.x, q'.z), s, Sub(q.x, q.z));
    MulAdd(k, da, cb);
    SquareScaled(k, Add(da, cb));
    SquareScaled(k, Sub(da, cb));
    MulAssoc(u, Square(k), Square(Sub(da, cb)));
    MulCommutes(u, Square(k));
    MulAssoc(Square(k), u, Square(Sub(da, cb)));
  }

  // ------------------------------------------------------------ the ladders compared

  /** The first rung for a zero bit: u = 4u^2 / 4u. */
  lemma ZeroRung(u: Elem)
    ensures DoublePoint(Point(1, 0)) == Point(1, 0)
    ensures AddPoints(Point(1, 0), Point(u, 1), u) == Scale(Mul(4, u), Point(u, 1))
  {
    DoubleOfOne();
    DifferenceIsTwo(u);
    SumIsTwice(u);
    hide Mul, Add, Sub;
    MulOne(1);
    SquareScaled(2, u);
    MulAssoc(4, u, u);
    MulCommutes(u, 4);
    MulByOne(Mul(4, u));
  }

  lemma DoubleOfOne()
    ensures DoublePoint(Point(1, 0)) == Point(1, 0)
  {
  }

  lemma MulByOne(x: Elem)
    ensures Mul(x, 1) == x
  {
  }

  lemma SumIsTwice(u: Elem)
    ensures Add(Mul(Sub(u, 1), Add(1, 0)), Mul(Add(u, 1), Sub(1, 0))) == Mul(2, u) && Square(2) == 4
  {
    hide Times;
    TimesTwo(1, u);
    MulByOne(Sub(u, 1));
    MulByOne(Add(u, 1));
    TimesSigns(1, u);
    ResAdd(u - 1, u + 1);
    assert Res(Sub(u, 1)) == Sub(u, 1) && Res(Add(u, 1)) == Add(u, 1);
    SquareOfTwo();
  }

  lemma SquareOfTwo()
    ensures Square(2) == 4
  {
  }

  lemma DifferenceIsTwo(u: Elem)
    ensures Square(Sub(Mul(Sub(u, 1), Add(1, 0)), Mul(Add(u, 1), Sub(1, 0)))) == 4
  {
    hide Times;
    MulByOne(Sub(u, 1));
    MulByOne(Add(u, 1));
    ResAdd(u - 1, u + 1);
    assert Sub(Sub(u, 1), Add(u, 1)) == Res(-2) == Sub(0, 2);
    SquareOfNegated(0, 2);
    SquareOfTwo();
  }

  lemma PowerOne(x: Elem)
    ensures Power(x, 0) == 1 && Power(x, 1) == x
  {
    MulByOne(x);
  }

  lemma SquareOfPower(x: Elem, n: nat)
    ensures Square(Power(x, n)) == Power(x, 2 * n)
  {
    hide Mul;
    PowerAdd(x, n, n);
  }

  /** r is r' with coordinates multiplied by powers of s. */
  ghost predicate Scaled(r: Rungs, r': Rungs, s: Elem)
  {
    exists m: nat, n: nat :: ScaledBy(r, r', s, m, n)
  }

  ghost predicate ScaledBy(r: Rungs, r': Rungs, s: Elem, m: nat, n: nat)
  {
    r.low == Scale(Power(s, m), r'.low) && r.high == Scale(Power(s, n), r'.high)
  }

  lemma ClimbScaled(r: Rungs, r': Rungs, s: Elem, m: nat, n: nat, bit: bool, u: Elem)
    requires ScaledBy(r, r', s, m, n)
    ensures Scaled(Climb(r, bit, u), Climb(r', bit, u), s)
  {
    hide DoublePoint, AddPoints, Scale, Square, Mul, Power;
    var a, b := Power(s, m), Power(s, n);
    PowerAdd(s, m, n);
    PowerAdd(s, n, m);
    SquareOfPower(s, m + n);
    if bit {
      AddScaled(b, a, r'.high, r'.low, u);
      DoubleScaled(b, r'.high);
      SquareOfPower(s, n);
      SquareOfPower(s, 2 * n);
      assert ScaledBy(Climb(r, bit, u), Climb(r', bit, u), s, 2 * (m + n), 2 * (2 * n));
    } else {
      AddScaled(a, b, r'.low, r'.high, u);
      DoubleScaled(a, r'.low);
      SquareOfPower(s, m);
      SquareOfPower(s, 2 * m);
      assert ScaledBy(Climb(r, bit, u), Climb(r', bit, u), s, 2 * (2 * m), 2 * (m + n));
    }
  }

  /** Without bit 255 the source's ladder is the standard's, rung by rung, up to factors
      that are powers of 4u. */
  lemma {:induction false} LadderIsStandard(n: nat, u: Elem, t: nat)
    requires 1 <= t <= 256 && !ScalarBit(n, 0)
    ensures Scaled(LadderTo(n, u, t), StandardLadder(n, u, t), Mul(4, u))
  {
    hide DoublePoint, AddPoints, Scale, Mul, Power, ScalarBit, Climb;
    var s := Mul(4, u);
    if t == 1 {
      ZeroRung(u);
      PowerOne(s);
      FirstRung(n, u);
      ScaleByOne(Point(1, 0));
      assert ScaledBy(LadderTo(n, u, 1), StandardLadder(n, u, 1), s, 0, 1);
    } else {
      LadderIsStandard(n, u, t - 1);
      var i: nat, j: nat :| ScaledBy(LadderTo(n, u, t - 1), StandardLadder(n, u, t - 1), s, i, j);
      ClimbScaled(LadderTo(n, u, t - 1), StandardLadder(n, u, t - 1), s, i, j, ScalarBit(n, t - 1), u);
    }
  }

  lemma FirstRung(n: nat, u: Elem)
    requires !ScalarBit(n, 0)
    ensures LadderTo(n, u, 1) == Rungs(DoublePoint(Point(1, 0)), AddPoints(Point(1, 0), Point(u, 1), u))
  {
    hide DoublePoint, AddPoints, ScalarBit;
    assert LadderTo(n, u, 0) == Rungs(Point(1, 0), Point(u, 1));
  }

  lemma ScaleByOne(q: Point)
    ensures Scale(1, q) == q
  {
    MulOne(q.x);
    MulOne(q.z);
  }

  lemma TopBitClear(n: nat)
    requires n < Pow2(255)
    ensures !ScalarBit(n, 0)
  {
    hide Times, Pow2;
    TimesSigns(0, Pow2(255));
    DivUnique(n, Pow2(255), 0, n);
  }

  lemma DecodedBelow(n: nat)
    ensures DecodeScalar(n) < Pow2(255)
  {
    hide Pow2, Times;
    DivMod(n, Pow2(254));
    assert Pow2(255) == 2 * Pow2(254) by { NextPower(); }
  }

  lemma NextPower()
    ensures Pow2(255) == 2 * Pow2(254)
  {
  }

  /** What curve25519_donna computes is the point of RFC 7748's ladder over the decoded
      scalar and the 255-bit u-coordinate, in other projective coordinates. */
  lemma DonnaLadderIsStandard(secret: seq<byte>, basepoint: seq<byte>)
    ensures var n, u := DecodeScalar(LittleEndian(secret)), Res(Low(LittleEndian(basepoint), 255));
        exists m: nat :: Ladder256(secret, basepoint) == Scale(Power(Mul(4, u), m), StandardLadder(n, u, 256).low)
  {
    hide DecodeScalar, Scale, Power, Mul, ScalarBit, Low, LittleEndian, Pow2;
    var n, u := DecodeScalar(LittleEndian(secret)), Res(Low(LittleEndian(basepoint), 255));
    DecodedBelow(LittleEndian(secret));
    TopBitClear(n);
    LadderIsStandard(n, u, 256);
    LadderIs(secret, basepoint);
    var i: nat, j: nat :| ScaledBy(LadderTo(n, u, 256), StandardLadder(n, u, 256), Mul(4, u), i, j);
    assert Ladder256(secret, basepoint) == Scale(Power(Mul(4, u), i), StandardLadder(n, u, 256).low);
  }

  // ------------------------------------------------------------ the affine result

  lemma MulZero(x: Elem)
    ensures Mul(0, x) == 0 == Mul(x, 0)
  {
  }

  lemma {:induction false} PowerOfProduct(x: Elem, y: Elem, n: nat)
    ensures Power(Mul(x, y), n) == Mul(Power(x, n), Power(y, n))
  {
    if n == 0 {
      MulOne(1);
    } else {
      hide Mul;
      PowerOfProduct(x, y, n - 1);
      MulPairs(x, y, Power(x, n - 1), Power(y, n - 1));
    }
  }

  lemma {:induction false} PowerOfOne(n: nat)
    ensures Power(1, n) == 1
  {
    if n > 0 {
      PowerOfOne(n - 1);
      MulOne(1);
    }
  }

  lemma {:induction false} PowersCommute(x: Elem, m: nat, n: nat)
    ensures Power(Power(x, m), n) == Power(Power(x, n), m)
  {
    hide Mul;
    if m == 0 {
      PowerOfOne(n);
    } else {
      PowersCommute(x, m - 1, n);
      PowerOfProduct(x, Power(x, m - 1), n);
    }
  }

  /** The affine coordinate as RFC 7748 computes it. */
  function Affine(q: Point): Elem
  {
    Mul(q.x, Power(q.z, P - 2))
  }

  /** Scaling by a power of s does not change the affine coordinate, when s to the power
      p - 1 is 1. */
  lemma AffineOfScaled(s: Elem, m: nat, q: Point)
    requires Power(s, P - 1) == 1
    ensures Affine(Scale(Power(s, m), q)) == Affine(q)
  {
    hide Mul, Power;
    var y := Power(s, m);
    PowersCommute(s, m, P - 1);
    PowerOfOne(m);
    PowerOne(y);
    PowerAdd(y, 1, P - 2);
    PowerOfProduct(y, q.z, P - 2);
    MulPairs(y, q.x, Power(y, P - 2), Power(q.z, P - 2));
    MulOne(Affine(q));
  }

  /** Doubling a point with a zero coordinate, and adding over the difference 0. */
  lemma ZeroCoordinates(q: Point, q': Point)
    ensures q.x == 0 || q.z == 0 ==> DoublePoint(q).z == 0
    ensures AddPoints(q, q', 0).z == 0
  {
    if q.x == 0 || q.z == 0 {
      if q.x == 0 {
        SquareOfNegated(0, q.z);
        SumWithZero(q.z);
      } else {
        SumWithZero(q.x);
      }
      DifferenceWithSelf(Square(Add(q.x, q.z)));
      hide Mul, Add, Sub;
      MulZero(Add(Square(Add(q.x, q.z)), Mul(121665, 0)));
    }
    hide Mul;
    MulZero(Square(Sub(Mul(Sub(q'.x, q'.z), Add(q.x, q.z)), Mul(Add(q'.x, q'.z), Sub(q.x, q.z)))));
  }

  lemma SumWithZero(x: Elem)
    ensures Add(0, x) == Add(x, 0) == Sub(x, 0) == x
  {
  }

  lemma DifferenceWithSelf(x: Elem)
    ensures Sub(x, x) == 0
  {
  }

  /** For u = 0 the standard's ladder stays at infinity. */
  lemma {:induction false} LadderOfZero(n: nat, t: nat)
    requires 1 <= t <= 256
    ensures var r := StandardLadder(n, 0, t); r.low.z == 0 && (r.high.x == 0 || r.high.z == 0)
  {
    if t > 1 {
      hide DoublePoint, AddPoints, ScalarBit;
      LadderOfZero(n, t - 1);
      var r := StandardLadder(n, 0, t - 1);
      ZeroCoordinates(r.low, r.high);
      ZeroCoordinates(r.high, r.low);
    }
  }

  lemma AffineAtInfinity(s: Elem, q: Point)
    requires q.z == 0
    ensures Affine(Scale(s, q)) == Affine(q) == 0
  {
    MulZero(s);
    assert Power(0, P - 2) == Mul(0, Power(0, P - 3));
    MulZero(Power(0, P - 3));
    MulZero(Mul(s, q.x));
    MulZero(q.x);
  }

  // ------------------------------------------------------------ the loop of RFC 7748

  /** The variables of the loop in section 5. */
  datatype Vars = Vars(x2: Elem, z2: Elem, x3: Elem, z3: Elem, swap: bool)

  /** k_t = (k >> t) & 1 */
  function KBit(k: nat, t: nat): bool
  {
    k / Pow2(t) % 2 == 1
  }

  /** (x_2, x_3) = cswap(swap, x_2, x_3) and (z_2, z_3) = cswap(swap, z_2, z_3) */
  function Swapped(v: Vars): Vars
  {
    if v.swap then Vars(v.x3, v.z3, v.x2, v.z2, v.swap) else v
  }

  /** One round of the loop. */
  function Round(v: Vars, bit: bool, x1: Elem): Vars
  {
    var w := Swapped(v.(swap := v.swap != bit));
    var a := Add(w.x2, w.z2);
    var aa := Mul(a, a);
    var b := Sub(w.x2, w.z2);
    var bb := Mul(b, b);
    var e := Sub(aa, bb);
    var c := Add(w.x3, w.z3);
    var d := Sub(w.x3, w.z3);
    var da := Mul(d, a);
    var cb := Mul(c, b);
    Vars(Mul(aa, bb), Mul(e, Add(aa, Mul(121665, e))),
         Mul(Add(da, cb), Add(da, cb)), Mul(x1, Mul(Sub(da, cb), Sub(da, cb))), bit)
  }

  /** The variables after the rounds for the bits from 254 down to t. */
  function Rounds(k: nat, u: Elem, t: nat): Vars
    requires t <= 255
    decreases 255 - t
  {
    if t == 255 then Vars(1, 0, u, 1, false) else Round(Rounds(k, u, t + 1), KBit(k, t), u)
  }

  /** The function X25519 of section 5, of a decoded scalar and u-coordinate. */
  function Rfc7748(k: nat, u: Elem): Elem
  {
    var v := Swapped(Rounds(k, u, 0));
    Mul(v.x2, Power(v.z2, P - 2))
  }

  /** The loop's variables hold the two rungs, exchanged when swap is set. */
  predicate HoldsRungs(v: Vars, r: Rungs)
  {
    var w := Swapped(v);
    r == Rungs(Point(w.x2, w.z2), Point(w.x3, w.z3))
  }

  lemma RoundClimbs(v: Vars, r: Rungs, bit: bool, u: Elem)
    requires HoldsRungs(v, r)
    ensures HoldsRungs(Round(v, bit, u), Climb(r, bit, u))
  {
    hide Mul, Add, Sub;
    var w := Swapped(v.(swap := v.swap != bit));
    var q, q' := Point(w.x2, w.z2), Point(w.x3, w.z3);
    assert if bit then q == r.high && q' == r.low else q == r.low && q' == r.high;
    assert Point(Round(v, bit, u).x2, Round(v, bit, u).z2) == DoublePoint(q);
    assert Point(Round(v, bit, u).x3, Round(v, bit, u).z3) == AddPoints(q, q', u);
  }

  lemma KBitIs(k: nat, t: nat)
    requires t < 255
    ensures KBit(k, t) == ScalarBit(k, 255 - t)
  {
    hide Pow2;
  }

  /** The rungs of the ladder are the variables of the standard's loop. */
  lemma {:induction false} RoundsAreRungs(k: nat, u: Elem, t: nat)
    requires t <= 255
    ensures HoldsRungs(Rounds(k, u, t), StandardLadder(k, u, 256 - t))
    decreases 255 - t
  {
    if t < 255 {
      hide Round, Climb, ScalarBit, KBit, HoldsRungs;
      RoundsAreRungs(k, u, t + 1);
      KBitIs(k, t);
      RoundClimbs(Rounds(k, u, t + 1), StandardLadder(k, u, 255 - t), KBit(k, t), u);
    }
  }

  /** The result of the loop is the affine coordinate of the ladder's lower point. */
  lemma LoopIsLadder(k: nat, u: Elem)
    ensures Rfc7748(k, u) == Affine(StandardLadder(k, u, 256).low)
  {
    hide Rounds, StandardLadder, Mul, Power;
    RoundsAreRungs(k, u, 0);
  }

  /** The coordinate that curve25519_donna returns is the one of RFC 7748's X25519, when
      the u-coordinate is 0 or Fermat's little theorem holds for 4u: that is, in any case
      if p is prime. */
  lemma DonnaIsX25519(secret: seq<byte>, basepoint: seq<byte>)
    requires var u := Res(Low(LittleEndian(basepoint), 255)); u == 0 || Power(Mul(4, u), P - 1) == 1
    ensures var n, u := DecodeScalar(LittleEndian(secret)), Res(Low(LittleEndian(basepoint), 255));
        var r := Ladder256(secret, basepoint);
        Mul(r.x, Power(r.z, ReciprocalExponent())) == Rfc7748(n, u)
  {
    hide DecodeScalar, Scale, Power, Mul, ScalarBit, Low, LittleEndian, Pow2, StandardLadder, Ladder256, Affine, Rfc7748;
    var n, u := DecodeScalar(LittleEndian(secret)), Res(Low(LittleEndian(basepoint), 255));
    var r, q := Ladder256(secret, basepoint), StandardLadder(n, u, 256).low;
    ReciprocalExponentIsPMinus2();
    LoopIsLadder(n, u);
    AffineIs(r);
    DonnaLadderIsStandard(secret, basepoint);
    var m: nat :| r == Scale(Power(Mul(4, u), m), q);
    if u == 0 {
      LadderOfZero(n, 256);
      AffineAtInfinity(Power(Mul(4, u), m), q);
    } else {
      AffineOfScaled(Mul(4, u), m, q);
    }
  }

  lemma AffineIs(q: Point)
    ensures Affine(q) == Mul(q.x, Power(q.z, P - 2))
  {
  }

  /** X25519 of RFC 7748: the public bytes stand for the result of the standard's own loop,
      under the same condition. */
  method X25519(mypublic: array<byte>, secret: array<byte>, basepoint: array<byte>)
    requires mypublic.Length == 32 && secret.Length == 32 && basepoint.Length == 32
    requires var u := Res(Low(LittleEndian(basepoint[..]), 255)); u == 0 || Power(Mul(4, u), P - 1) == 1
    modifies mypublic
    ensures var n, u := DecodeScalar(LittleEndian(old(secret[..]))), Res(Low(LittleEndian(old(basepoint[..])), 255));
        Res(LittleEndian(mypublic[..])) == Rfc7748(n, u)
    ensures LittleEndian(mypublic[..]) < Pow2(255)
  {
    hide *;
    DonnaIsX25519(secret[..], basepoint[..]);
    Curve25519Donna(mypublic, secret, basepoint);
  }
}
