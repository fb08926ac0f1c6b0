// What the words of the digests mean: their bits, and the numbers they stand for.
module WordLaws {
  import Arith
  import Bits
  import opened Words32

  // ------------------------------------------------------------ bits

  /** An index as a shift amount. */
  function Index(k: nat): bv32
    requires k <= 32
  {
    k as bv32
  }

  /** Bit k of a word, the lowest being bit 0. */
  predicate Bit(x: bv32, k: nat)
    requires k < 32
  {
    BitAt(x, Index(k))
  }

  predicate BitAt(x: bv32, k: bv32)
    requires k < 32
  {
    (x >> k) & 1 == 1
  }

  lemma IndexValues0()
    ensures Index(0) == 0 && Index(1) == 1 && Index(2) == 2 && Index(3) == 3 && Index(4) == 4 && Index(5) == 5 && Index(6) == 6 && Index(7) == 7
  {
  }

  lemma IndexValues8()
    ensures Index(8) == 8 && Index(9) == 9 && Index(10) == 10 && Index(11) == 11 && Index(12) == 12 && Index(13) == 13
        && Index(14) == 14 && Index(15) == 15
  {
  }

  lemma IndexValues16()
    ensures Index(16) == 16 && Index(17) == 17 && Index(18) == 18 && Index(19) == 19 && Index(20) == 20
        && Index(21) == 21 && Index(22) == 22 && Index(23) == 23
  {
  }

  lemma IndexValues24()
    ensures Index(24) == 24 && Index(25) == 25 && Index(26) == 26 && Index(27) == 27 && Index(28) == 28
        && Index(29) == 29 && Index(30) == 30 && Index(31) == 31 && Index(32) == 32
  {
  }

  /** Indices as words. */
  lemma IndexSteps(k: nat)
    requires k < 32
    ensures Index(k + 1) == Index(k) + 1 && Index(k) < 32
  {
    hide Index;
    IndexValues0();
    IndexValues8();
    IndexValues16();
    IndexValues24();
    assert k == 0 || k == 1 || k == 2 || k == 3 || k == 4 || k == 5 || k == 6 || k == 7
        || k == 8 || k == 9 || k == 10 || k == 11 || k == 12 || k == 13 || k == 14 || k == 15
        || k == 16 || k == 17 || k == 18 || k == 19 || k == 20 || k == 21 || k == 22 || k == 23
        || k == 24 || k == 25 || k == 26 || k == 27 || k == 28 || k == 29 || k == 30 || k == 31;
  }

  lemma {:induction false} IndexSum(j: nat, k: nat)
    requires j + k <= 32
    ensures Index(j + k) == Index(j) + Index(k)
    decreases k
  {
    hide Index;
    IndexValues0();
    if k > 0 {
      IndexSum(j, k - 1);
      IndexSteps(j + k - 1);
      IndexSteps(k - 1);
    }
  }

  function Rotated(x: bv32, s: bv32): bv32
  {
    if s < 32 then (x << s) | (x >> (32 - s)) else x
  }

  /** The two halves of a rotation. */
  function Up(x: bv32, s: bv32): bv32
    requires s < 32
  {
    x << s
  }

  function Down(x: bv32, s: bv32): bv32
    requires 0 < s < 32
  {
    x >> (32 - s)
  }

  lemma UpBit(x: bv32, s: bv32, k: bv32)
    requires 0 < s < 32 && k < 32
    ensures if k + s < 32 then BitAt(Up(x, s), k + s) == BitAt(x, k) else !BitAt(Up(x, s), k + s - 32)
  {
  }

  lemma DownBit(x: bv32, s: bv32, k: bv32)
    requires 0 < s < 32 && k < 32
    ensures if k + s < 32 then !BitAt(Down(x, s), k + s) else BitAt(Down(x, s), k + s - 32) == BitAt(x, k)
  {
  }

  lemma RotatedBit(x: bv32, s: bv32, k: bv32)
    requires 0 < s < 32 && k < 32
    ensures var j := if k + s < 32 then k + s else k + s - 32; j < 32 && BitAt(Rotated(x, s), j) == BitAt(x, k)
  {
    hide Or, Rotated, BitAt, Up, Down;
    UpBit(x, s, k);
    DownBit(x, s, k);
    RotatedIsOr(x, s);
    OrAt(Up(x, s), Down(x, s), if k + s < 32 then k + s else k + s - 32);
  }

  lemma RotatedIsOr(x: bv32, s: bv32)
    requires 0 < s < 32
    ensures Rotated(x, s) == Or(Up(x, s), Down(x, s))
  {
  }

  lemma RotateLiterals(x: bv32)
    ensures RotateLeft(x, 1) == Rotated(x, 1) && RotateLeft(x, 2) == Rotated(x, 2)
        && RotateLeft(x, 3) == Rotated(x, 3) && RotateLeft(x, 4) == Rotated(x, 4) && RotateLeft(x, 5) == Rotated(x, 5)
        && RotateLeft(x, 6) == Rotated(x, 6) && RotateLeft(x, 7) == Rotated(x, 7) && RotateLeft(x, 8) == Rotated(x, 8)
    ensures RotateLeft(x, 9) == Rotated(x, 9) && RotateLeft(x, 10) == Rotated(x, 10)
        && RotateLeft(x, 11) == Rotated(x, 11) && RotateLeft(x, 12) == Rotated(x, 12)
        && RotateLeft(x, 13) == Rotated(x, 13) && RotateLeft(x, 14) == Rotated(x, 14)
        && RotateLeft(x, 15) == Rotated(x, 15) && RotateLeft(x, 16) == Rotated(x, 16)
    ensures RotateLeft(x, 17) == Rotated(x, 17) && RotateLeft(x, 18) == Rotated(x, 18)
        && RotateLeft(x, 19) == Rotated(x, 19) && RotateLeft(x, 20) == Rotated(x, 20)
        && RotateLeft(x, 21) == Rotated(x, 21) && RotateLeft(x, 22) == Rotated(x, 22)
        && RotateLeft(x, 23) == Rotated(x, 23) && RotateLeft(x, 24) == Rotated(x, 24)
    ensures RotateLeft(x, 25) == Rotated(x, 25) && RotateLeft(x, 26) == Rotated(x, 26)
        && RotateLeft(x, 27) == Rotated(x, 27) && RotateLeft(x, 28) == Rotated(x, 28)
        && RotateLeft(x, 29) == Rotated(x, 29) && RotateLeft(x, 30) == Rotated(x, 30)
        && RotateLeft(x, 31) == Rotated(x, 31)
  {
  }

  lemma RotateIs(x: bv32, s: nat)
    requires 0 < s < 32
    ensures RotateLeft(x, s) == Rotated(x, Index(s))
  {
    hide Index, RotateLeft, Rotated;
    IndexValues0();
    IndexValues8();
    IndexValues16();
    IndexValues24();
    RotateLiterals(x);
    assert s == 1 || s == 2 || s == 3 || s == 4 || s == 5 || s == 6 || s == 7
        || s == 8 || s == 9 || s == 10 || s == 11 || s == 12 || s == 13 || s == 14 || s == 15
        || s == 16 || s == 17 || s == 18 || s == 19 || s == 20 || s == 21 || s == 22 || s == 23
        || s == 24 || s == 25 || s == 26 || s == 27 || s == 28 || s == 29 || s == 30 || s == 31;
  }

  /** A rotation moves bit k to bit k + s modulo 32, and so every bit of its result is one
      of the word's. */
  lemma RotateMovesBits(x: bv32, s: nat, k: nat)
    requires 0 < s < 32 && k < 32
    ensures Bit(RotateLeft(x, s), (k + s) % 32) == Bit(x, k)
  {
    hide Index, BitAt, RotateLeft, Rotated;
    RotateIs(x, s);
    IndexSteps(k);
    IndexSteps(s);
    Turned(s, k);
    RotatedBit(x, Index(s), Index(k));
  }

  /** Where the rotation moves an index. */
  lemma Turned(s: nat, k: nat)
    requires 0 < s < 32 && k < 32
    ensures 0 < Index(s) < 32 && Index(k) < 32
    ensures Index((k + s) % 32) == if Index(k) + Index(s) < 32 then Index(k) + Index(s) else Index(k) + Index(s) - 32
  {
    hide Index;
    IndexValues0();
    IndexValues24();
    IndexSteps(k);
    IndexSteps(s);
    IndexSteps(s - 1);
    if k + s < 32 {
      IndexSum(k, s);
      IndexSteps(k + s);
    } else {
      IndexSum(k + s - 32, 32 - s);
      IndexSum(32 - s, s);
      IndexSteps(k + s - 32);
    }
  }

  function And(x: bv32, y: bv32): bv32 { x & y }

  function Or(x: bv32, y: bv32): bv32 { x | y }

  function Xor(x: bv32, y: bv32): bv32 { x ^ y }

  function Not(x: bv32): bv32 { !x }

  lemma AndAt(x: bv32, y: bv32, k: bv32)
    requires k < 32
    ensures BitAt(And(x, y), k) == (BitAt(x, k) && BitAt(y, k))
  {
  }

  lemma OrAt(x: bv32, y: bv32, k: bv32)
    requires k < 32
    ensures BitAt(Or(x, y), k) == (BitAt(x, k) || BitAt(y, k))
  {
  }

  lemma OneBit(x: bv32, k: bv32)
    requires k < 32
    ensures (x >> k) & 1 == if BitAt(x, k) then 1 else 0
  {
  }

  lemma RawXor(x: bv32, y: bv32, k: bv32)
    requires k < 32
    ensures ((x ^ y) >> k) & 1 == ((x >> k) & 1) ^ ((y >> k) & 1)
  {
  }

  lemma XorAt(x: bv32, y: bv32, k: bv32)
    requires k < 32
    ensures BitAt(Xor(x, y), k) == (BitAt(x, k) != BitAt(y, k))
  {
    RawXor(x, y, k);
    OneBit(x, k);
    OneBit(y, k);
  }

  lemma NotAt(x: bv32, k: bv32)
    requires k < 32
    ensures BitAt(Not(x), k) == !BitAt(x, k)
  {
  }

  // ------------------------------------------------------------ numbers

  lemma LowWordOf(t: bv33)
    ensures t < 0x1_0000_0000 ==> ((t & 0xffff_ffff) as bv32) as int == t as int
    ensures t >= 0x1_0000_0000 ==> ((t & 0xffff_ffff) as bv32) as int == t as int - 0x1_0000_0000
    ensures t < 0x1_0000_0000 <==> t as int < 0x1_0000_0000
  {
  }

  lemma WideSum(x: bv32, y: bv32)
    ensures (x as bv33 + y as bv33) as int == x as int + y as int
    ensures ((x as bv33 + y as bv33) & 0xffff_ffff) as bv32 == x + y
  {
  }

  /** The number that a word stands for. */
  function WordNumber(w: bv32): (n: nat)
    ensures n < 0x1_0000_0000
  {
    w as int
  }

  /** Addition of words is addition of numbers modulo 2^32. */
  lemma PlusIsSum(x: bv32, y: bv32)
    ensures WordNumber(Plus(x, y)) == (WordNumber(x) + WordNumber(y)) % 0x1_0000_0000
  {
    PlusOnce(x, y);
    hide Plus, WordNumber;
    WrapOnce(WordNumber(x) + WordNumber(y), WordNumber(Plus(x, y)));
  }

  lemma PlusOnce(x: bv32, y: bv32)
    ensures var s := WordNumber(x) + WordNumber(y); WordNumber(Plus(x, y)) == if s < 0x1_0000_0000 then s else s - 0x1_0000_0000
  {
    WideSum(x, y);
    LowWordOf(x as bv33 + y as bv33);
  }

  lemma WrapOnce(s: int, r: int)
    requires 0 <= s < 0x2_0000_0000 && r == if s < 0x1_0000_0000 then s else s - 0x1_0000_0000
    ensures r == s % 0x1_0000_0000
  {
  }

  lemma OneByteMore(h: bv32, b: bv8)
    requires h < 0x100_0000
    ensures ((h << 8) | b as bv32) as int == 256 * h as int + b as int
  {
  }

  lemma ByteFits(b: bv8)
    ensures b as bv32 as int == b as int && (b as bv32) < 0x100
  {
  }

  lemma NestedBytes(b0: bv8, b1: bv8, b2: bv8, b3: bv8)
    ensures var h1 := ((b3 as bv32) << 8) | b2 as bv32;
        var h2 := (h1 << 8) | b1 as bv32;
        h1 < 0x1_0000 && h2 < 0x100_0000 && Word(b0, b1, b2, b3) == (h2 << 8) | b0 as bv32
  {
  }

  /** A word stands for the number of its bytes, the low-order byte first. */
  lemma WordIsNumber(b0: bv8, b1: bv8, b2: bv8, b3: bv8)
    ensures Word(b0, b1, b2, b3) as int == LittleNumber([b0, b1, b2, b3])
  {
    var h1 := ((b3 as bv32) << 8) | b2 as bv32;
    var h2 := (h1 << 8) | b1 as bv32;
    NestedBytes(b0, b1, b2, b3);
    ByteFits(b3);
    OneByteMore(b3 as bv32, b2);
    OneByteMore(h1, b1);
    OneByteMore(h2, b0);
    FourBytes(b0, b1, b2, b3);
  }

  lemma FourBytes(b0: bv8, b1: bv8, b2: bv8, b3: bv8)
    ensures LittleNumber([b0, b1, b2, b3]) == 256 * (256 * (256 * b3 as int + b2 as int) + b1 as int) + b0 as int
    ensures BigNumber([b3, b2, b1, b0]) == 256 * (256 * (256 * b3 as int + b2 as int) + b1 as int) + b0 as int
  {
    hide BigNumber, LittleNumber;
    NoBytes();
    LittleStep(b3, []);
    LittleStep(b2, [b3]);
    LittleStep(b1, [b2, b3]);
    LittleStep(b0, [b1, b2, b3]);
    assert [b0] + [b1, b2, b3] == [b0, b1, b2, b3] && [b1] + [b2, b3] == [b1, b2, b3] && [b2] + [b3] == [b2, b3] && [b3] + [] == [b3];
    BigStep([], b3);
    BigStep([b3], b2);
    BigStep([b3, b2], b1);
    BigStep([b3, b2, b1], b0);
    assert [b3, b2, b1] + [b0] == [b3, b2, b1, b0] && [b3, b2] + [b1] == [b3, b2, b1] && [b3] + [b2] == [b3, b2] && [] + [b3] == [b3];
  }

  lemma NoBytes()
    ensures LittleNumber([]) == 0 == BigNumber([])
  {
  }

  lemma LittleStep(b: bv8, rest: seq<bv8>)
    ensures LittleNumber([b] + rest) == b as int + 256 * LittleNumber(rest)
  {
    assert ([b] + rest)[1..] == rest;
  }

  lemma BigStep(front: seq<bv8>, b: bv8)
    ensures BigNumber(front + [b]) == 256 * BigNumber(front) + b as int
  {
    assert (front + [b])[..|front|] == front;
  }

  lemma WordOfBytes(w: bv32)
    ensures Word(ByteOf(w, 0), ByteOf(w, 1), ByteOf(w, 2), ByteOf(w, 3)) == w
  {
  }

  /** The bytes of a word in memory are those of its number, the low-order byte first. */
  lemma BytesAreNumber(w: bv32)
    ensures LittleNumber(Bytes(w)) == w as int
    ensures BigNumber([ByteOf(w, 3), ByteOf(w, 2), ByteOf(w, 1), ByteOf(w, 0)]) == w as int
  {
    hide ByteOf, Word, LittleNumber, BigNumber;
    WordOfBytes(w);
    WordIsNumber(ByteOf(w, 0), ByteOf(w, 1), ByteOf(w, 2), ByteOf(w, 3));
    FourBytes(ByteOf(w, 0), ByteOf(w, 1), ByteOf(w, 2), ByteOf(w, 3));
  }

  /** A byte with a given number, found by counting. */
  function CountedByte(n: nat): bv8
  {
    if n == 0 then 0 else CountedByte(n - 1) + 1
  }

  lemma NextByte(b: bv8)
    requires b < 255
    ensures (b + 1) as int == b as int + 1
  {
    WideNext(b);
    NarrowNext(b as bv9 + 1);
  }

  lemma WideNext(b: bv8)
    ensures (b as bv9 + 1) as int == b as int + 1
    ensures b < 255 ==> b as bv9 + 1 < 256 && (b as bv9 + 1) as bv8 == b + 1
  {
  }

  lemma NarrowNext(w: bv9)
    requires w < 256
    ensures w as bv8 as int == w as int
  {
  }

  lemma ByteRange(b: bv8)
    ensures b as int < 255 <==> b < 255
    ensures 0 <= b as int < 256 && b as int as bv8 == b
  {
  }

  lemma {:induction false} CountedNumber(n: nat)
    requires n < 256
    ensures CountedByte(n) as int == n
  {
    if n > 0 {
      CountedNumber(n - 1);
      ByteRange(CountedByte(n - 1));
      NextByte(CountedByte(n - 1));
    }
  }

  /** A number below 256 as a byte. */
  lemma ByteOfNumber(n: nat)
    requires n < 256
    ensures n as bv8 as int == n
  {
    CountedNumber(n);
    ByteRange(CountedByte(n));
  }

  // ------------------------------------------------------------ the bytes of a number

  lemma LowByteNumber(n: nat)
    ensures LowByteOf(n) as int == n % 256
  {
    ByteOfNumber(n % 256);
  }

  /** The k low-order bytes of a number, the highest of them first. */
  function BigDigits(n: nat, k: nat): (b: seq<bv8>)
    ensures |b| == k
  {
    if k == 0 then [] else BigDigits(n / 256, k - 1) + [LowByteOf(n)]
  }

  lemma DigitsStep(n: nat, k: nat)
    ensures BigDigits(n, k + 1) == BigDigits(n / 256, k) + [LowByteOf(n)]
    ensures BigDigits(n, 0) == []
  {
  }

  lemma {:induction false} DigitsAreNumber(n: nat, k: nat)
    ensures BigNumber(BigDigits(n, k)) == Bits.Low(n, 8 * k)
  {
    if k == 0 {
    } else {
      hide BigNumber, LowByteOf;
      DigitsAreNumber(n / 256, k - 1);
      BigStep(BigDigits(n / 256, k - 1), LowByteOf(n));
      LowByteNumber(n);
      LowByteMore(n, k - 1);
    }
  }

  lemma LowByteMore(n: nat, k: nat)
    ensures Bits.Low(n, 8 * (k + 1)) == 256 * Bits.Low(n / 256, 8 * k) + n % 256
  {
    var m := Bits.Pow2(8 * k);
    Bits.Pow2Small();
    hide Bits.Pow2, Arith.Times;
    Bits.Pow2Add(8, 8 * k);
    Arith.DivDiv(n, 256, m);
    TimesByte(n / 256 % m);
  }

  lemma TimesByte(x: int)
    ensures Arith.Times(256, x) == 256 * x
  {
  }

  lemma SixtyFourBits(n: nat)
    ensures Bits.Low(n, 64) == n % 0x1_0000_0000_0000_0000 && Bits.Low(n, 32) == n % 0x1_0000_0000
  {
    Bits.Pow2Big();
    Bits.Pow2Add(32, 32);
    hide Bits.Pow2;
  }
}
