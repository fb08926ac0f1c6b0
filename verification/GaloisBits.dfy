// The elements of GF(2^128) as bytes and as polynomials: which number a word stands for,
// and which coefficients sums and doublings have.
module GaloisBits {
  import opened Arith
  import Numbers = Bits
  import opened GaloisField
  import opened GaloisMultiply
  import opened Ghash
  import opened Words32
  import opened Words64
  import opened WordLaws

  // ------------------------------------------------------------ words as numbers

  function Gathered(a: bv8, b: bv8, c: bv8, d: bv8, e: bv8, f: bv8, g: bv8, h: bv8): bv64
  {
    (a as bv64 << 56) | (b as bv64 << 48) | (c as bv64 << 40) | (d as bv64 << 32)
    | (e as bv64 << 24) | (f as bv64 << 16) | (g as bv64 << 8) | h as bv64
  }

  lemma GatheredShifts(a: bv8, b: bv8, c: bv8, d: bv8, e: bv8, f: bv8, g: bv8, h: bv8)
    ensures Gathered(a, b, c, d, e, f, g, h)
         == Shifted(Shifted(Shifted(Shifted(Shifted(Shifted(Shifted(a as bv64, b), c), d), e), f), g), h)
  {
  }

  lemma GetGathers(s: seq<bv8>)
    requires |s| == 8
    ensures Get64(s) == Gathered(s[0], s[1], s[2], s[3], s[4], s[5], s[6], s[7])
  {
  }

  lemma GetShifts(s: seq<bv8>)
    requires |s| == 8
    ensures Get64(s) == Shifted(Shifted(Shifted(Shifted(Shifted(Shifted(Shifted(s[0] as bv64, s[1]), s[2]), s[3]), s[4]), s[5]), s[6]), s[7])
  {
    hide Shifted, Get64, Gathered;
    GetGathers(s);
    GatheredShifts(s[0], s[1], s[2], s[3], s[4], s[5], s[6], s[7]);
  }

  lemma SmallShifts(h: bv64, b: bv8)
    ensures h < 0x100 ==> Shifted(h, b) < 0x1_0000
    ensures h < 0x1_0000 ==> Shifted(h, b) < 0x100_0000
    ensures h < 0x100_0000 ==> Shifted(h, b) < 0x1_0000_0000
    ensures h < 0x1_0000_0000 ==> Shifted(h, b) < 0x100_0000_0000
    ensures h < 0x100_0000_0000 ==> Shifted(h, b) < 0x1_0000_0000_0000
    ensures h < 0x1_0000_0000_0000 ==> Shifted(h, b) < 0x100_0000_0000_0000
  {
  }

  lemma FirstByte(b: bv8)
    ensures b as bv64 < 0x100 && b as bv64 as int == BigNumber([b])
  {
    assert BigNumber([]) == 0;
    assert [b][..0] == [];
    RawByte(b);
  }

  lemma RawByte(b: bv8)
    ensures b as bv64 < 0x100 && b as bv64 as int == b as int
  {
  }

  lemma GatherStep(front: seq<bv8>, h: bv64, b: bv8)
    requires h < 0x100_0000_0000_0000 && h as int == BigNumber(front)
    ensures Shifted(h, b) as int == BigNumber(front + [b])
  {
    ShiftedIs(h, b);
    BigStep(front, b);
  }

  /** Get64 reads the number of its bytes, the high-order byte first. */
  lemma GetIsNumber(s: seq<bv8>)
    requires |s| == 8
    ensures Number(Get64(s)) == BigNumber(s)
  {
    hide Get64, Shifted, BigNumber;
    GetShifts(s);
    FirstByte(s[0]);
    var h1 := s[0] as bv64;
    var h2 := Shifted(h1, s[1]);
    var h3 := Shifted(h2, s[2]);
    var h4 := Shifted(h3, s[3]);
    var h5 := Shifted(h4, s[4]);
    var h6 := Shifted(h5, s[5]);
    var h7 := Shifted(h6, s[6]);
    SmallShifts(h1, s[1]);
    SmallShifts(h2, s[2]);
    SmallShifts(h3, s[3]);
    SmallShifts(h4, s[4]);
    SmallShifts(h5, s[5]);
    SmallShifts(h6, s[6]);
    SmallWords(h1, h2, h3, h4, h5, h6);
    assert s[..1] == [s[0]];
    GatherStep(s[..1], h1, s[1]);
    assert s[..1] + [s[1]] == s[..2];
    GatherStep(s[..2], h2, s[2]);
    assert s[..2] + [s[2]] == s[..3];
    GatherStep(s[..3], h3, s[3]);
    assert s[..3] + [s[3]] == s[..4];
    GatherStep(s[..4], h4, s[4]);
    assert s[..4] + [s[4]] == s[..5];
    GatherStep(s[..5], h5, s[5]);
    assert s[..5] + [s[5]] == s[..6];
    GatherStep(s[..6], h6, s[6]);
    assert s[..6] + [s[6]] == s[..7];
    GatherStep(s[..7], h7, s[7]);
    assert s[..7] + [s[7]] == s;
  }

  lemma SmallWords(h1: bv64, h2: bv64, h3: bv64, h4: bv64, h5: bv64, h6: bv64)
    ensures h1 < 0x100 ==> h1 < 0x100_0000_0000_0000
    ensures h2 < 0x1_0000 ==> h2 < 0x100_0000_0000_0000
    ensures h3 < 0x100_0000 ==> h3 < 0x100_0000_0000_0000
    ensures h4 < 0x1_0000_0000 ==> h4 < 0x100_0000_0000_0000
    ensures h5 < 0x100_0000_0000 ==> h5 < 0x100_0000_0000_0000
    ensures h6 < 0x1_0000_0000_0000 ==> h6 < 0x100_0000_0000_0000
  {
  }

  /** Put64 writes the number of the word, the high-order byte first. */
  lemma PutIsNumber(x: bv64)
    ensures BigNumber(Put64(x)) == Number(x)
  {
    hide Put64, Get64, BigNumber;
    GetOfPut(x);
    GetIsNumber(Put64(x));
  }

  /** Eight digits make a word with the number's value. */
  lemma WordOfDigits(n: nat)
    requires n < 0x1_0000_0000_0000_0000
    ensures Number(Get64(BigDigits(n, 8))) == n
  {
    hide Get64, BigDigits, BigNumber, Numbers.Low, Number;
    GetIsNumber(BigDigits(n, 8));
    DigitsAreNumber(n, 8);
    SixtyFourBits(n);
  }

  /** A number below 2^64 as a word. */
  lemma NumberAsWord(n: nat)
    requires n < 0x1_0000_0000_0000_0000
    ensures Number(n as bv64) == n
  {
    hide Get64, Number, BigDigits;
    WordOfDigits(n);
    WordOfNumber(Get64(BigDigits(n, 8)));
  }

  lemma LengthIsNumber(n: nat)
    ensures Number(LengthWord(n)) == n % 0x1_0000_0000_0000_0000
  {
    hide Number;
    NumberAsWord(Wrap64(n));
  }

  /** The length block holds the two lengths in bits modulo 2^64, the high-order bytes first. */
  lemma LengthBlockIsNumbers(a: nat, c: nat)
    ensures BigNumber(LengthBlock(a, c)[..8]) == 8 * a % 0x1_0000_0000_0000_0000
    ensures BigNumber(LengthBlock(a, c)[8..]) == 8 * c % 0x1_0000_0000_0000_0000
  {
    hide Put64, LengthWord, BigNumber, Number;
    LengthIsNumber(8 * a);
    LengthIsNumber(8 * c);
    PutIsNumber(LengthWord(8 * a));
    PutIsNumber(LengthWord(8 * c));
    assert LengthBlock(a, c)[..8] == Put64(LengthWord(8 * a)) && LengthBlock(a, c)[8..] == Put64(LengthWord(8 * c));
  }

  /** A block is read as two numbers of eight bytes, and the tag is written so. */
  lemma BlockIsNumbers(b: seq<bv8>, y: FieldElement)
    requires |b| == 16
    ensures Number(Block(b).low) == BigNumber(b[..8]) && Number(Block(b).hi) == BigNumber(b[8..])
    ensures BigNumber(TagBytes(y)[..8]) == Number(y.low) && BigNumber(TagBytes(y)[8..]) == Number(y.hi)
  {
    hide Put64, Get64, BigNumber, Number;
    GetIsNumber(b[..8]);
    GetIsNumber(b[8..]);
    PutIsNumber(y.low);
    PutIsNumber(y.hi);
    assert TagBytes(y)[..8] == Put64(y.low) && TagBytes(y)[8..] == Put64(y.hi);
  }

  // ------------------------------------------------------------ bits and digits

  /** Bit k of a number. */
  predicate Digit(n: nat, k: nat)
  {
    n / Numbers.Pow2(k) % 2 == 1
  }

  lemma DigitOfHalf(n: nat, k: nat)
    ensures Digit(n / 2, k) == Digit(n, k + 1) && Digit(n, 0) == (n % 2 == 1)
  {
    Numbers.Pow2Zero();
    Halves(n, Numbers.Pow2(k));
  }

  lemma Halves(n: nat, m: nat)
    requires m > 0
    ensures 2 * m > 0 && n / (2 * m) == n / 2 / m
  {
    hide Times;
    DivDiv(n, 2, m);
    TimesOfTwo(m);
  }

  lemma TimesOfTwo(m: int)
    ensures Times(2, m) == 2 * m
  {
  }

  lemma {:induction false} TopDigit(n: nat, k: nat, t: nat)
    requires k <= t && n < Numbers.Pow2(t)
    ensures Digit(n + Numbers.Pow2(t), k) == (k == t || Digit(n, k))
    ensures !Digit(n, t)
    decreases t
  {
    if t == 0 {
      Numbers.Pow2Zero();
    } else {
      hide Digit;
      var p := Numbers.Pow2(t - 1);
      assert Numbers.Pow2(t) == 2 * p && (n + 2 * p) / 2 == n / 2 + p && n / 2 < p;
      DigitOfHalf(n, t - 1);
      TopDigit(n / 2, if k == 0 then 0 else k - 1, t - 1);
      if k == 0 {
        DigitOfHalf(n, 0);
        DigitOfHalf(n + 2 * p, 0);
      } else {
        DigitOfHalf(n, k - 1);
        DigitOfHalf(n + 2 * p, k - 1);
      }
    }
  }

  lemma Pow2Of63()
    ensures Numbers.Pow2(63) == 0x8000_0000_0000_0000 && Numbers.Pow2(64) == 0x1_0000_0000_0000_0000
  {
    Numbers.Pow2Big();
    Numbers.Pow2Add(32, 32);
    assert Numbers.Pow2(64) == 2 * Numbers.Pow2(63);
    hide Numbers.Pow2;
    SquareOfWord();
  }

  lemma SquareOfWord()
    ensures Times(0x1_0000_0000, 0x1_0000_0000) == 0x1_0000_0000_0000_0000
  {
  }

  lemma BitsStep(w: bv64, n: nat)
    ensures WordBits(w, n + 1) == WordBits(Halved(w), n) + [Odd(w)]
  {
  }

  /** The bits of a word are the digits of its number, the highest first. */
  lemma {:induction false} WordBitsAreDigits(w: bv64, n: nat, i: nat)
    requires i < n
    ensures WordBits(w, n)[i] == Digit(Number(w), n - 1 - i)
    decreases n
  {
    hide Digit, WordBits, Number, Halved, Odd;
    BitsStep(w, n - 1);
    HalfIsNumber(w);
    if i == n - 1 {
      DigitOfHalf(Number(w), 0);
    } else {
      WordBitsAreDigits(Halved(w), n - 1, i);
      DigitOfHalf(Number(w), n - 2 - i);
    }
  }

  /** Sums of words, bit by bit. */
  lemma {:induction false} XorBits(x: bv64, y: bv64, n: nat, i: nat)
    requires i < n
    ensures WordBits(Sum(x, y), n)[i] == (WordBits(x, n)[i] != WordBits(y, n)[i])
    decreases n
  {
    hide WordBits, Halved, Odd, Sum;
    BitsStep(Sum(x, y), n - 1);
    BitsStep(x, n - 1);
    BitsStep(y, n - 1);
    OddSum(x, y);
    HalvedSum(x, y);
    if i < n - 1 {
      XorBits(Halved(x), Halved(y), n - 1, i);
    }
  }

  lemma HalfBits(w: bv64, i: nat)
    requires i < 64
    ensures WordBits(Halved(w), 64)[i] == (i > 0 && WordBits(w, 64)[i - 1])
  {
    hide Digit, WordBits, Halved, Number;
    HalfIsNumber(w);
    WordBitsAreDigits(Halved(w), 64, i);
    DigitOfHalf(Number(w), 63 - i);
    if i == 0 {
      Pow2Of63();
      TopDigit(Number(w), 0, 64);
    } else {
      WordBitsAreDigits(w, 64, i - 1);
    }
  }

  lemma JoinedBits(low: bv64, hi: bv64, i: nat)
    requires i < 64
    ensures WordBits(Joined(low, hi), 64)[i] == if i == 0 then Odd(low) else WordBits(hi, 64)[i - 1]
  {
    hide Digit, WordBits, Joined, Number, Odd;
    var n := Number(hi) / 2;
    JoinedIsNumber(low, hi);
    Pow2Of63();
    WordBitsAreDigits(Joined(low, hi), 64, i);
    TopDigit(n, 63 - i, 63);
    if i > 0 {
      DigitOfHalf(Number(hi), 63 - i);
      WordBitsAreDigits(hi, 64, i - 1);
    }
  }

  lemma EightZeros(w: bv64, n: nat)
    requires w & 0xff == 0
    ensures WordBits(w, n + 8) == WordBits(w >> 8, n) + [false, false, false, false, false, false, false, false]
  {
    ZeroShifts(w);
    hide WordBits, Halved, Odd;
    var w1 := Halved(w);
    var w2 := Halved(w1);
    var w3 := Halved(w2);
    var w4 := Halved(w3);
    var w5 := Halved(w4);
    var w6 := Halved(w5);
    var w7 := Halved(w6);
    BitsStep(w, n + 7);
    BitsStep(w1, n + 6);
    BitsStep(w2, n + 5);
    BitsStep(w3, n + 4);
    BitsStep(w4, n + 3);
    BitsStep(w5, n + 2);
    BitsStep(w6, n + 1);
    BitsStep(w7, n);
    Eight(WordBits(w >> 8, n));
  }

  lemma Eight(s: seq<bool>)
    ensures s + [false] + [false] + [false] + [false] + [false] + [false] + [false] + [false]
         == s + [false, false, false, false, false, false, false, false]
  {
  }

  lemma ZeroShifts(w: bv64)
    requires w & 0xff == 0
    ensures Halved(Halved(Halved(Halved(Halved(Halved(Halved(Halved(w)))))))) == w >> 8
    ensures !Odd(w) && !Odd(Halved(w)) && !Odd(Halved(Halved(w))) && !Odd(Halved(Halved(Halved(w))))
    ensures !Odd(Halved(Halved(Halved(Halved(w))))) && !Odd(Halved(Halved(Halved(Halved(Halved(w))))))
    ensures !Odd(Halved(Halved(Halved(Halved(Halved(Halved(w)))))))
    ensures !Odd(Halved(Halved(Halved(Halved(Halved(Halved(Halved(w))))))))
  {
  }

  // ------------------------------------------------------------ elements as polynomials

  lemma SameWords(x: bv64, y: bv64)
    ensures GaloisField.Xor(x, y) == Sum(x, y) && Half(x) == Halved(x) && HalfHi(x, y) == Joined(x, y)
  {
  }

  /** The coefficients of a sum are the sums of the coefficients. */
  lemma AddCoefficients(x: FieldElement, y: FieldElement, i: nat)
    requires i < 128
    ensures |GaloisMultiply.Bits(x)| == |GaloisMultiply.Bits(y)| == |GaloisMultiply.Bits(Add(x, y))| == 128
    ensures GaloisMultiply.Bits(Add(x, y))[i] == (GaloisMultiply.Bits(x)[i] != GaloisMultiply.Bits(y)[i])
  {
    hide WordBits, GaloisField.Xor, Sum;
    SameWords(x.low, y.low);
    SameWords(x.hi, y.hi);
    if i < 64 {
      XorBits(x.low, y.low, 64, i);
    } else {
      XorBits(x.hi, y.hi, 64, i - 64);
    }
  }

  /** The word that is carried back in: 1 + x + x^2 + x^7. */
  lemma CarryBits(hi: bv64, i: nat)
    requires i < 64
    ensures WordBits(Carry(hi), 64)[i] == (Odd(hi) && (i == 0 || i == 1 || i == 2 || i == 7))
  {
    hide WordBits;
    if Odd(hi) {
      ReductionBits(Carry(hi), i);
    } else {
      ZeroBits(64, i);
    }
  }

  lemma {:induction false} ZeroBits(n: nat, i: nat)
    requires i < n
    ensures !WordBits(0, n)[i]
  {
    ZeroHalved();
    if i < n - 1 {
      ZeroBits(n - 1, i);
    }
  }

  lemma ZeroHalved()
    ensures 0 as bv64 >> 1 == 0 && 0 as bv64 & 1 != 1
  {
  }

  lemma ReductionBits(w: bv64, i: nat)
    requires w == 0xe100_0000_0000_0000 && i < 64
    ensures WordBits(w, 64)[i] == (i == 0 || i == 1 || i == 2 || i == 7)
  {
    var z := [false, false, false, false, false, false, false, false];
    ReductionShifts();
    hide WordBits;
    EightZeros(w, 56);
    EightZeros(0xe1_0000_0000_0000, 48);
    EightZeros(0xe100_0000_0000, 40);
    EightZeros(0xe1_0000_0000, 32);
    EightZeros(0xe100_0000, 24);
    EightZeros(0xe1_0000, 16);
    EightZeros(0xe100, 8);
    TopEight();
    assert WordBits(w, 64)
        == [true, true, true, false, false, false, false, true] + z + z + z + z + z + z + z;
  }

  lemma ReductionShifts()
    ensures 0xe100_0000_0000_0000 as bv64 >> 8 == 0xe1_0000_0000_0000 && 0xe1_0000_0000_0000 as bv64 >> 8 == 0xe100_0000_0000
    ensures 0xe100_0000_0000 as bv64 >> 8 == 0xe1_0000_0000 && 0xe1_0000_0000 as bv64 >> 8 == 0xe100_0000
    ensures 0xe100_0000 as bv64 >> 8 == 0xe1_0000 && 0xe1_0000 as bv64 >> 8 == 0xe100 && 0xe100 as bv64 >> 8 == 0xe1
    ensures 0xe100_0000_0000_0000 as bv64 & 0xff == 0 && 0xe1_0000_0000_0000 as bv64 & 0xff == 0
    ensures 0xe100_0000_0000 as bv64 & 0xff == 0 && 0xe1_0000_0000 as bv64 & 0xff == 0
    ensures 0xe100_0000 as bv64 & 0xff == 0 && 0xe1_0000 as bv64 & 0xff == 0 && 0xe100 as bv64 & 0xff == 0
  {
  }

  lemma TopEight()
    ensures WordBits(0xe1, 8) == [true, true, true, false, false, false, false, true]
  {
    hide WordBits;
    NoBits(0);
    BitsStep(0x1, 0);
    BitsStep(0x3, 1);
    BitsStep(0x7, 2);
    BitsStep(0xe, 3);
    BitsStep(0x1c, 4);
    BitsStep(0x38, 5);
    BitsStep(0x70, 6);
    BitsStep(0xe1, 7);
  }

  lemma NoBits(w: bv64)
    ensures WordBits(w, 0) == []
  {
  }

  lemma LowCoefficients(v: FieldElement, i: nat)
    requires i < 64
    ensures WordBits(Double(v).low, 64)[i]
        == ((i > 0 && WordBits(v.low, 64)[i - 1]) != (Odd(v.hi) && (i == 0 || i == 1 || i == 2 || i == 7)))
  {
    hide WordBits, GaloisField.Xor, Half, HalfHi, Carry, Sum, Halved, Joined, Odd;
    SameWords(Half(v.low), Carry(v.hi));
    SameWords(v.low, v.hi);
    XorBits(Halved(v.low), Carry(v.hi), 64, i);
    HalfBits(v.low, i);
    CarryBits(v.hi, i);
  }

  lemma HighCoefficients(v: FieldElement, i: nat)
    requires i < 64
    ensures WordBits(Double(v).hi, 64)[i] == if i == 0 then Odd(v.low) else WordBits(v.hi, 64)[i - 1]
  {
    hide WordBits, GaloisField.Xor, Half, HalfHi, Carry, Joined, Odd;
    SameWords(v.low, v.hi);
    JoinedBits(v.low, v.hi, i);
  }

  lemma LastBit(w: bv64)
    ensures WordBits(w, 64)[63] == Odd(w)
  {
    hide WordBits, Odd;
    BitsStep(w, 63);
  }

  /** Multiplication by x moves every coefficient one place up, and the one that leaves at x^128
      comes back at 1, x, x^2 and x^7. */
  lemma DoubleCoefficients(v: FieldElement, i: nat)
    requires i < 128
    ensures |GaloisMultiply.Bits(v)| == |GaloisMultiply.Bits(Double(v))| == 128
    ensures var b := GaloisMultiply.Bits(v);
        GaloisMultiply.Bits(Double(v))[i] == ((i > 0 && b[i - 1]) != (b[127] && (i == 0 || i == 1 || i == 2 || i == 7)))
  {
    hide WordBits, Double, Odd;
    LastBit(v.low);
    LastBit(v.hi);
    if i < 64 {
      LowCoefficients(v, i);
    } else {
      HighCoefficients(v, i - 64);
    }
  }
}
