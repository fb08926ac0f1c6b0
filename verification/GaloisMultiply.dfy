// Multiplication in GF(2^128): bit by bit as in section 6.3 of NIST SP 800-38D,
// and four bits at a time with a table as in the source.
module GaloisMultiply {
  import opened GaloisField

  // ---------------------------------------------------- bit by bit

  /** The n low bits of a word, most significant first. */
  function WordBits(w: bv64, n: nat): (s: seq<bool>)
    ensures |s| == n
  {
    if n == 0 then [] else WordBits(w >> 1, n - 1) + [w & 1 == 1]
  }

  /** The 128 bits of a block, the coefficient of x^0 first. */
  function Bits(x: FieldElement): seq<bool>
  {
    WordBits(x.low, 64) + WordBits(x.hi, 64)
  }

  /** Algorithm 1 of section 6.3: z collects v, v x, v x^2, ... for the bits that are set. */
  function BlockMultiply(bits: seq<bool>, z: FieldElement, v: FieldElement): FieldElement
  {
    if |bits| == 0 then z else BlockMultiply(bits[1..], if bits[0] then Add(z, v) else z, Double(v))
  }

  /** The product of two blocks. */
  function Product(x: FieldElement, y: FieldElement): FieldElement
  {
    BlockMultiply(Bits(x), ZERO, y)
  }

  // ------------------------------------------------------- Horner's rule

  function Pick(b: bool, v: FieldElement): FieldElement
  {
    if b then v else ZERO
  }

  function Horner(bits: seq<bool>, v: FieldElement): FieldElement
  {
    if |bits| == 0 then ZERO else Add(Pick(bits[0], v), Double(Horner(bits[1..], v)))
  }

  lemma {:induction false} HornerDouble(bits: seq<bool>, v: FieldElement)
    ensures Horner(bits, Double(v)) == Double(Horner(bits, v))
  {
    hide Double, Add;
    DoubleZero();
    if |bits| > 0 {
      HornerDouble(bits[1..], v);
      DoubleAdd(Pick(bits[0], v), Double(Horner(bits[1..], v)));
    }
  }

  /** The bit-serial algorithm computes what Horner's rule does from the other end. */
  lemma {:induction false} BlockMultiplyIsHorner(bits: seq<bool>, z: FieldElement, v: FieldElement)
    ensures BlockMultiply(bits, z, v) == Add(z, Horner(bits, v))
  {
    hide Double, Add;
    if |bits| == 0 {
      AddLaws(z, z, z);
    } else {
      var p := Pick(bits[0], v);
      AddLaws(z, p, Double(Horner(bits[1..], v)));
      BlockMultiplyIsHorner(bits[1..], Add(z, p), Double(v));
      HornerDouble(bits[1..], v);
    }
  }

  lemma ProductIsHorner(x: FieldElement, y: FieldElement)
    ensures Product(x, y) == Horner(Bits(x), y)
  {
    hide Double, Add, Bits;
    BlockMultiplyIsHorner(Bits(x), ZERO, y);
    AddLaws(Horner(Bits(x), y), ZERO, ZERO);
  }

  // ------------------------------------------------------- the table

  /** Reverses the order of the bits of a four-bit number. */
  function Reverse(i: nat): (r: nat)
    requires i < 16
    ensures r < 16
  {
    ReverseRange(i as bv8);
    ReverseBits(i as bv8) as int
  }

  function ReverseBits(i: bv8): bv8
  {
    var j := ((i << 2) & 0xc) | ((i >> 2) & 0x3);
    ((j << 1) & 0xa) | ((j >> 1) & 0x5)
  }

  lemma ReverseRange(i: bv8)
    ensures ReverseBits(i) as int < 16
  {
  }

  lemma ReverseValues()
    ensures Reverse(0) == 0 && Reverse(1) == 8 && Reverse(2) == 4 && Reverse(3) == 12
    ensures Reverse(4) == 2 && Reverse(5) == 10 && Reverse(6) == 6 && Reverse(7) == 14
    ensures Reverse(8) == 1 && Reverse(9) == 9 && Reverse(10) == 5 && Reverse(11) == 13
    ensures Reverse(12) == 3 && Reverse(13) == 11 && Reverse(14) == 7 && Reverse(15) == 15
  {
  }

  lemma ReverseTwice(i: nat)
    requires i < 16
    ensures Reverse(Reverse(i)) == i
  {
    hide Reverse;
    ReverseValues();
  }

  /** i times v, for a polynomial i of degree below four. */
  function SmallMultiple(v: FieldElement, i: nat): FieldElement
  {
    if i == 0 then ZERO else Add(Double(SmallMultiple(v, i / 2)), Pick(i % 2 == 1, v))
  }

  /** Entry Reverse(i) of the table is i times the key, for i below n. */
  ghost predicate TableUpTo(table: seq<FieldElement>, key: FieldElement, n: nat)
  {
    |table| == 16 && n <= 16 && forall i :: 0 <= i < n ==> table[Reverse(i)] == SmallMultiple(key, i)
  }

  /** The table built by the constructor of GaloisHash. */
  method FillTable(table: array<FieldElement>, x: FieldElement)
    requires table.Length == 16
    modifies table
    ensures TableUpTo(table[..], x, 16)
  {
    hide Add, Double, Reverse;
    ReverseValues();
    DoubleZero();
    AddLaws(ZERO, ZERO, ZERO);
    table[0] := ZERO;
    table[Reverse(1)] := x;
    var i := 0;
    while i < 16
      invariant 0 <= i <= 16 && i % 2 == 0
      invariant TableUpTo(table[..], x, i)
      invariant i == 0 ==> table[0] == ZERO
    {
      ghost var before := table[..];
      table[Reverse(i)] := Double(table[Reverse(i / 2)]);
      table[Reverse(i + 1)] := Add(table[Reverse(i)], x);
      forall k | 0 <= k < i
        ensures table[..][Reverse(k)] == before[Reverse(k)]
      {
        ReverseInjective(k, i);
        ReverseInjective(k, i + 1);
      }
      ReverseInjective(i, i + 1);
      TableStep(before, table[..], x, i);
      i := i + 2;
    }
  }

  lemma ReverseInjective(i: nat, j: nat)
    requires i < 16 && j < 16 && i != j
    ensures Reverse(i) != Reverse(j)
  {
    hide Reverse;
    ReverseTwice(i);
    ReverseTwice(j);
  }

  lemma TableStep(t: seq<FieldElement>, t': seq<FieldElement>, x: FieldElement, i: nat)
    requires i < 16 && i % 2 == 0 && TableUpTo(t, x, i) && (i == 0 ==> t[0] == ZERO) && |t'| == 16
    requires forall k :: 0 <= k < i ==> t'[Reverse(k)] == t[Reverse(k)]
    requires t'[Reverse(i)] == Double(t[Reverse(i / 2)])
    requires t'[Reverse(i + 1)] == Add(Double(t[Reverse(i / 2)]), x)
    ensures TableUpTo(t', x, i + 2)
  {
    hide Add, Double, Reverse;
    HalfEntry(t, x, i);
    EvenAndOdd(x, i);
    hide SmallMultiple;
    forall k | 0 <= k < i + 2
      ensures t'[Reverse(k)] == SmallMultiple(x, k)
    {
      assert k < i || k == i || k == i + 1;
    }
  }

  lemma HalfEntry(t: seq<FieldElement>, x: FieldElement, i: nat)
    requires i < 16 && TableUpTo(t, x, i) && (i == 0 ==> t[0] == ZERO)
    ensures t[Reverse(i / 2)] == SmallMultiple(x, i / 2)
  {
    ReverseOfZero();
    hide Add, Double, Reverse;
  }

  lemma ReverseOfZero()
    ensures Reverse(0) == 0
  {
  }

  lemma EvenAndOdd(x: FieldElement, i: nat)
    requires i % 2 == 0
    ensures SmallMultiple(x, i) == Double(SmallMultiple(x, i / 2))
    ensures SmallMultiple(x, i + 1) == Add(Double(SmallMultiple(x, i / 2)), x)
  {
    hide Add, Double;
    var h := i / 2;
    SmallMultipleStep(x, h, false);
    SmallMultipleStep(x, h, true);
    AddLaws(Double(SmallMultiple(x, h)), ZERO, ZERO);
  }

  // ------------------------------------------------- four bits at a time

  /** The four low bits of a word as they come out of WordBits. */
  function Nibble(w: bv64): seq<bool>
  {
    [(w >> 3) & 1 == 1, (w >> 2) & 1 == 1, (w >> 1) & 1 == 1, w & 1 == 1]
  }

  lemma WordBitsFour(w: bv64, n: nat)
    requires n >= 4
    ensures WordBits(w, n) == WordBits(w >> 4, n - 4) + Nibble(w)
  {
    assert w >> 1 >> 1 == w >> 2 && w >> 2 >> 1 == w >> 3 && w >> 3 >> 1 == w >> 4;
    var r := WordBits(w >> 4, n - 4);
    assert WordBits(w >> 3, n - 3) == r + [(w >> 3) & 1 == 1];
    assert WordBits(w >> 2, n - 2) == r + [(w >> 3) & 1 == 1, (w >> 2) & 1 == 1];
    assert WordBits(w >> 1, n - 1) == r + [(w >> 3) & 1 == 1, (w >> 2) & 1 == 1, (w >> 1) & 1 == 1];
  }

  /** The polynomial with the given coefficients, as a number. */
  function FromBits(b3: bool, b2: bool, b1: bool, b0: bool): (r: nat)
    ensures r < 16
  {
    (if b3 then 1 else 0) + (if b2 then 2 else 0) + (if b1 then 4 else 0) + (if b0 then 8 else 0)
  }

  lemma NibbleIndex(w: bv64)
    ensures (w & 0xf) as int < 16
    ensures var b := Nibble(w); Reverse((w & 0xf) as int) == FromBits(b[0], b[1], b[2], b[3])
  {
    var m := w & 0xf;
    assert w & 1 == m & 1 && (w >> 1) & 1 == (m >> 1) & 1;
    assert (w >> 2) & 1 == (m >> 2) & 1 && (w >> 3) & 1 == (m >> 3) & 1;
    assert Nibble(w) == Nibble(m);
    NibbleIndexSmall(m);
  }

  lemma NibbleIndexSmall(m: bv64)
    requires m < 16
    ensures m as int < 16
    ensures var b := Nibble(m); Reverse(m as int) == FromBits(b[0], b[1], b[2], b[3])
  {
    hide Reverse;
    ReverseValues();
  }

  /** Four steps of Horner's rule are one multiplication by x^4 and one table entry. */
  lemma HornerFour(b: seq<bool>, s: seq<bool>, v: FieldElement)
    requires |b| == 4
    ensures Horner(b + s, v)
         == Add(Times16(Horner(s, v)), SmallMultiple(v, FromBits(b[0], b[1], b[2], b[3])))
  {
    hide Add, Double, Times16;
    var h := Horner(s, v);
    assert (b + s)[1..][1..][1..][1..] == s;
    var h1, h2, h3 := Horner((b + s)[3..], v), Horner((b + s)[2..], v), Horner((b + s)[1..], v);
    assert (b + s)[3..][1..] == s && (b + s)[2..][1..] == (b + s)[3..] && (b + s)[1..][1..] == (b + s)[2..];
    DoubleZero();
    AddLaws(h, h, h);
    HornerStep(Pick(b[3], v), h, ZERO);
    var d1, m1 := Double(h), Add(ZERO, Pick(b[3], v));
    HornerStep(Pick(b[2], v), d1, m1);
    var d2, m2 := Double(d1), Add(Double(m1), Pick(b[2], v));
    HornerStep(Pick(b[1], v), d2, m2);
    var d3, m3 := Double(d2), Add(Double(m2), Pick(b[1], v));
    HornerStep(Pick(b[0], v), d3, m3);
    Times16IsFourDoubles(h);
    SmallMultipleOfBits(b[0], b[1], b[2], b[3], v);
  }

  lemma HornerStep(p: FieldElement, h: FieldElement, m: FieldElement)
    ensures Add(p, Double(Add(h, m))) == Add(Double(h), Add(Double(m), p))
  {
    hide Add, Double;
    DoubleAdd(h, m);
    AddLaws(p, Add(Double(h), Double(m)), p);
    AddLaws(Double(h), Double(m), p);
  }

  lemma SmallMultipleOfBits(b3: bool, b2: bool, b1: bool, b0: bool, v: FieldElement)
    ensures var m1 := Add(ZERO, Pick(b0, v));
            var m2 := Add(Double(m1), Pick(b1, v));
            var m3 := Add(Double(m2), Pick(b2, v));
            SmallMultiple(v, FromBits(b3, b2, b1, b0)) == Add(Double(m3), Pick(b3, v))
  {
    hide Add, Double;
    DoubleZero();
    AddLaws(ZERO, ZERO, ZERO);
    var i0 := if b0 then 1 else 0;
    var i1 := 2 * i0 + if b1 then 1 else 0;
    var i2 := 2 * i1 + if b2 then 1 else 0;
    var i3 := 2 * i2 + if b3 then 1 else 0;
    SmallMultipleStep(v, 0, b0);
    SmallMultipleStep(v, i0, b1);
    SmallMultipleStep(v, i1, b2);
    SmallMultipleStep(v, i2, b3);
    assert i3 == FromBits(b3, b2, b1, b0);
  }

  lemma SmallMultipleStep(v: FieldElement, i: nat, b: bool)
    ensures SmallMultiple(v, 2 * i + if b then 1 else 0) == Add(Double(SmallMultiple(v, i)), Pick(b, v))
  {
    hide Add, Double;
    var k := 2 * i + if b then 1 else 0;
    assert k / 2 == i && k % 2 == if b then 1 else 0;
    if k == 0 {
      DoubleZero();
      AddLaws(ZERO, ZERO, ZERO);
    }
  }

  /** The product by the key: sixteen table look-ups for each word, high word first. */
  method MulAfterPrecomputation(table: array<FieldElement>, x: FieldElement, ghost key: FieldElement)
    returns (z: FieldElement)
    requires table.Length == 16 && TableUpTo(table[..], key, 16)
    ensures z == Product(x, key)
  {
    hide Add, Times16, Product, Horner, WordBits, Nibble, TableUpTo;
    z := ZERO;
    ghost var done: seq<bool> := [];
    HornerEmpty(key);
    for i := 0 to 2
      invariant i == 0 ==> done == []
      invariant i == 1 ==> done == WordBits(x.hi, 64)
      invariant i == 2 ==> done == Bits(x)
      invariant z == Horner(done, key)
    {
      var word := if i == 0 then x.hi else x.low;
      ghost var word0, done0 := word, done;
      var j := 0;
      while j < 64
        invariant 0 <= j <= 64 && j % 4 == 0
        invariant WordBits(word, 64 - j) + done == WordBits(word0, 64) + done0
        invariant z == Horner(done, key)
      {
        NibbleStep(table[..], key, word, 64 - j, done);
        z := Times16(z);
        var t := table[(word & 0xf) as int];
        z := Add(z, t);
        done := Nibble(word) + done;
        word := word >> 4;
        j := j + 4;
      }
      NoBits(word);
      assert done == WordBits(word0, 64) + done0;
    }
    ProductIsHorner(x, key);
  }

  lemma Regroup(a: seq<bool>, b: seq<bool>, c: seq<bool>)
    ensures (a + b) + c == a + (b + c)
  {
  }

  /** The lowest four of n bits of a word join those that are done. */
  lemma NibbleStep(table: seq<FieldElement>, key: FieldElement, word: bv64, n: nat, done: seq<bool>)
    requires TableUpTo(table, key, 16) && n >= 4
    ensures (word & 0xf) as int < |table|
    ensures Add(Times16(Horner(done, key)), table[(word & 0xf) as int]) == Horner(Nibble(word) + done, key)
    ensures WordBits(word >> 4, n - 4) + (Nibble(word) + done) == WordBits(word, n) + done
  {
    hide Add, Times16, Horner, WordBits;
    WordBitsFour(word, n);
    HornerFour(Nibble(word), done, key);
    Lookup(table, key, word);
    Regroup(WordBits(word >> 4, n - 4), Nibble(word), done);
  }

  lemma NoBits(w: bv64)
    ensures WordBits(w, 0) == []
  {
  }

  lemma HornerEmpty(v: FieldElement)
    ensures Horner([], v) == ZERO
  {
  }

  lemma Lookup(table: seq<FieldElement>, key: FieldElement, w: bv64)
    requires TableUpTo(table, key, 16)
    ensures (w & 0xf) as int < 16
    ensures var b := Nibble(w);
            table[(w & 0xf) as int] == SmallMultiple(key, FromBits(b[0], b[1], b[2], b[3]))
  {
    hide Reverse;
    NibbleIndex(w);
    ReverseTwice((w & 0xf) as int);
  }
}
