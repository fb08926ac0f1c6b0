// SHA-1 byte by byte, with the message block and the schedule in one union,
// verified against sections 5.1.1 and 6.1.2 of FIPS 180-3. The host is
// little-endian.
module Sha1 {
  import opened BlockStream
  import opened WordLaws
  import opened Words32

  // ------------------------------------------------------------ the standard

  datatype Chain = Chain(a: bv32, b: bv32, c: bv32, d: bv32, e: bv32)

  function Ch(x: bv32, y: bv32, z: bv32): bv32 { (x & y) ^ (!x & z) }

  function Parity(x: bv32, y: bv32, z: bv32): bv32 { x ^ y ^ z }

  function Maj(x: bv32, y: bv32, z: bv32): bv32 { (x & y) ^ (x & z) ^ (y & z) }

  /** The function of step t. */
  function StepFunction(t: nat, x: bv32, y: bv32, z: bv32): bv32
  {
    if t < 20 then Ch(x, y, z) else if t < 40 then Parity(x, y, z)
    else if t < 60 then Maj(x, y, z) else Parity(x, y, z)
  }

  /** The constant of step t. */
  function K(t: nat): bv32
  {
    if t < 20 then 0x5a827999 else if t < 40 then 0x6ed9eba1 else if t < 60 then 0x8f1bbcdc else 0xca62c1d6
  }

  lemma ChMade(x: bv32, y: bv32, z: bv32)
    ensures Ch(x, y, z) == Xor(And(x, y), And(Not(x), z))
  {
  }

  lemma ChBit(x: bv32, y: bv32, z: bv32, k: bv32)
    requires k < 32
    ensures BitAt(Ch(x, y, z), k) == (if BitAt(x, k) then BitAt(y, k) else BitAt(z, k))
  {
    hide Ch, BitAt, And, Or, Xor, Not;
    ChMade(x, y, z);
    XorAt(And(x, y), And(Not(x), z), k);
    AndAt(x, y, k);
    AndAt(Not(x), z, k);
    NotAt(x, k);
  }

  lemma RawParity(x: bv32, y: bv32, z: bv32, k: bv32)
    requires k < 32
    ensures ((x ^ y ^ z) >> k) & 1 == ((x >> k) & 1) ^ ((y >> k) & 1) ^ ((z >> k) & 1)
  {
  }

  lemma ParityBit(x: bv32, y: bv32, z: bv32, k: bv32)
    requires k < 32
    ensures BitAt(Parity(x, y, z), k) == ((BitAt(x, k) != BitAt(y, k)) != BitAt(z, k))
  {
    RawParity(x, y, z, k);
    OneBit(x, k);
    OneBit(y, k);
    OneBit(z, k);
  }

  lemma MajorityMade(x: bv32, y: bv32, z: bv32)
    ensures Majority(x, y, z) == Or(And(x, y), Or(And(x, z), And(y, z)))
  {
  }

  lemma MajMade(x: bv32, y: bv32, z: bv32)
    ensures Maj(x, y, z) == Or(And(x, y), Or(And(x, z), And(y, z)))
  {
    MajForm(x, y, z);
    MajorityMade(x, y, z);
    hide Maj, Majority, And, Or;
  }

  lemma MajBit(x: bv32, y: bv32, z: bv32, k: bv32)
    requires k < 32
    ensures BitAt(Maj(x, y, z), k) == (if BitAt(x, k) == BitAt(y, k) then BitAt(x, k) else BitAt(z, k))
  {
    hide Maj, BitAt, And, Or;
    MajMade(x, y, z);
    OrAt(And(x, y), Or(And(x, z), And(y, z)), k);
    OrAt(And(x, z), And(y, z), k);
    AndAt(x, y, k);
    AndAt(x, z, k);
    AndAt(y, z, k);
  }

  lemma RawXor4(x: bv32, y: bv32, z: bv32, w: bv32, k: bv32)
    requires k < 32
    ensures ((x ^ y ^ z ^ w) >> k) & 1 == ((x >> k) & 1) ^ ((y >> k) & 1) ^ ((z >> k) & 1) ^ ((w >> k) & 1)
  {
  }

  lemma Xor4Bit(x: bv32, y: bv32, z: bv32, w: bv32, k: bv32)
    requires k < 32
    ensures BitAt(Xor4(x, y, z, w), k) == ((BitAt(x, k) != BitAt(y, k)) != (BitAt(z, k) != BitAt(w, k)))
  {
    RawXor4(x, y, z, w, k);
    OneBit(x, k);
    OneBit(y, k);
    OneBit(z, k);
    OneBit(w, k);
  }

  /** The functions of the steps and the schedule, bit by bit: choice, parity, majority, and
      parity of four. */
  lemma StepBits(x: bv32, y: bv32, z: bv32, w: bv32, k: nat)
    requires k < 32
    ensures Bit(Ch(x, y, z), k) == if Bit(x, k) then Bit(y, k) else Bit(z, k)
    ensures Bit(Parity(x, y, z), k) == ((Bit(x, k) != Bit(y, k)) != Bit(z, k))
    ensures Bit(Maj(x, y, z), k) == if Bit(x, k) == Bit(y, k) then Bit(x, k) else Bit(z, k)
    ensures Bit(Xor4(x, y, z, w), k) == ((Bit(x, k) != Bit(y, k)) != (Bit(z, k) != Bit(w, k)))
  {
    hide Ch, Parity, Maj, Xor4, Index, BitAt;
    IndexSteps(k);
    ChBit(x, y, z, Index(k));
    ParityBit(x, y, z, Index(k));
    MajBit(x, y, z, Index(k));
    Xor4Bit(x, y, z, w, Index(k));
  }

  /** The constants are the square roots of 2, 3, 5 and 10, times 2^30, rounded down. */
  lemma ConstantsAreRoots(t: nat)
    ensures var m := if t < 20 then 2 else if t < 40 then 3 else if t < 60 then 5 else 10;
        K(t) as int * K(t) as int <= m * 0x1000_0000_0000_0000 < (K(t) as int + 1) * (K(t) as int + 1)
  {
    RootValues();
    assert K(t) == 0x5a827999 || K(t) == 0x6ed9eba1 || K(t) == 0x8f1bbcdc || K(t) == 0xca62c1d6;
  }

  lemma RootValues()
    ensures 0x5a827999 as bv32 as int == 0x5a827999 && 0x6ed9eba1 as bv32 as int == 0x6ed9eba1
    ensures 0x8f1bbcdc as bv32 as int == 0x8f1bbcdc && 0xca62c1d6 as bv32 as int == 0xca62c1d6
  {
  }

  /** Four bytes as a word, high-order byte first. */
  function BigWord(b0: bv8, b1: bv8, b2: bv8, b3: bv8): bv32
  {
    ((b0 as bv32) << 24) | ((b1 as bv32) << 16) | ((b2 as bv32) << 8) | b3 as bv32
  }

  function Xor4(x: bv32, y: bv32, z: bv32, w: bv32): bv32 { x ^ y ^ z ^ w }

  /** Word t of the message schedule of a block. */
  function Schedule(b: seq<bv8>, t: nat): bv32
    requires |b| == 64
  {
    if t < 16 then BigWord(b[4 * t], b[4 * t + 1], b[4 * t + 2], b[4 * t + 3])
    else RotateLeft(Xor4(Schedule(b, t - 3), Schedule(b, t - 8), Schedule(b, t - 14), Schedule(b, t - 16)), 1)
  }

  /** One step on the five working variables. */
  function Step(q: Chain, t: nat, w: bv32): Chain
  {
    var temp := Plus(Plus(Plus(Plus(RotateLeft(q.a, 5), StepFunction(t, q.b, q.c, q.d)), q.e), K(t)), w);
    Chain(temp, q.a, RotateLeft(q.b, 30), q.c, q.d)
  }

  function Steps(q: Chain, b: seq<bv8>, t: nat): Chain
    requires |b| == 64
  {
    if t == 0 then q else Step(Steps(q, b, t - 1), t - 1, Schedule(b, t - 1))
  }

  function AddChains(q: Chain, r: Chain): Chain
  {
    Chain(Plus(q.a, r.a), Plus(q.b, r.b), Plus(q.c, r.c), Plus(q.d, r.d), Plus(q.e, r.e))
  }

  /** The hash of one block; data of another size is not a block. */
  function Compress(q: Chain, b: seq<bv8>): Chain
  {
    if |b| == 64 then AddChains(q, Steps(q, b, 80)) else q
  }

  const START := Chain(0x67452301, 0xefcdab89, 0x98badcfe, 0x10325476, 0xc3d2e1f0)

  /** The low 64 bits of a number as eight bytes, high-order byte first. */
  function NumberBytes(n: nat): (b: seq<bv8>)
    ensures |b| == 8
  {
    [LowByteOf(n / 0x100_0000_0000_0000), LowByteOf(n / 0x1_0000_0000_0000),
     LowByteOf(n / 0x100_0000_0000), LowByteOf(n / 0x1_0000_0000),
     LowByteOf(n / 0x100_0000), LowByteOf(n / 0x1_0000), LowByteOf(n / 0x100), LowByteOf(n)]
  }

  lemma BytesAreDigits(n: nat)
    ensures NumberBytes(n) == BigDigits(n, 8)
  {
    hide BigDigits, LowByteOf;
    Quotients(n);
    DigitsStep(n / 0x100_0000_0000_0000, 0);
    DigitsStep(n / 0x1_0000_0000_0000, 1);
    DigitsStep(n / 0x100_0000_0000, 2);
    DigitsStep(n / 0x1_0000_0000, 3);
    DigitsStep(n / 0x100_0000, 4);
    DigitsStep(n / 0x1_0000, 5);
    DigitsStep(n / 0x100, 6);
    DigitsStep(n, 7);
  }

  lemma Quotients(n: nat)
    ensures n / 256 / 256 == n / 0x1_0000 && n / 0x1_0000 / 256 == n / 0x100_0000
    ensures n / 0x100_0000 / 256 == n / 0x1_0000_0000 && n / 0x1_0000_0000 / 256 == n / 0x100_0000_0000
    ensures n / 0x100_0000_0000 / 256 == n / 0x1_0000_0000_0000
    ensures n / 0x1_0000_0000_0000 / 256 == n / 0x100_0000_0000_0000
  {
  }

  /** The eight bytes stand for the number modulo 2^64, the high-order byte first. */
  lemma BytesOfNumber(n: nat)
    ensures BigNumber(NumberBytes(n)) == n % 0x1_0000_0000_0000_0000
  {
    hide NumberBytes, BigDigits, BigNumber, Bits.Low;
    BytesAreDigits(n);
    DigitsAreNumber(n, 8);
    SixtyFourBits(n);
  }

  /** Section 5.1.1: a one bit, zeros, and the length in bits modulo 2^64. */
  function Padded(m: seq<bv8>): seq<bv8>
  {
    m + [0x80] + Zeros(PadCount(|m|)) + NumberBytes(Wrap64(8 * |m|))
  }

  function BigBytes(w: bv32): (b: seq<bv8>)
    ensures |b| == 4
  {
    [ByteOf(w, 3), ByteOf(w, 2), ByteOf(w, 1), ByteOf(w, 0)]
  }

  function DigestBytes(q: Chain): (b: seq<bv8>)
    ensures |b| == 20
  {
    BigBytes(q.a) + BigBytes(q.b) + BigBytes(q.c) + BigBytes(q.d) + BigBytes(q.e)
  }

  function Digest(m: seq<bv8>): (b: seq<bv8>)
    ensures |b| == 20
  {
    DigestBytes(Fold(64, Compress, START, Padded(m)))
  }

  // ------------------------------------------------------------ the source's words

  function Choose(b: bv32, c: bv32, d: bv32): bv32 { (b & c) | (!b & d) }

  function Majority(b: bv32, c: bv32, d: bv32): bv32 { (b & c) | (b & d) | (c & d) }

  /** The function f of the source. */
  function F(t: nat, b: bv32, c: bv32, d: bv32): bv32
  {
    if t < 20 then Choose(b, c, d) else if t < 40 then Parity(b, c, d)
    else if t < 60 then Majority(b, c, d) else Parity(b, c, d)
  }

  lemma RawChForm(x: bv32, y: bv32, z: bv32)
    ensures (x & y) | (!x & z) == (x & y) ^ (!x & z)
  {
  }

  lemma RawMajForm(x: bv32, y: bv32, z: bv32)
    ensures (x & y) | (x & z) | (y & z) == (x & y) ^ (x & z) ^ (y & z)
  {
  }

  lemma ChForm(x: bv32, y: bv32, z: bv32)
    ensures Choose(x, y, z) == Ch(x, y, z)
  {
    RawChForm(x, y, z);
  }

  lemma MajForm(x: bv32, y: bv32, z: bv32)
    ensures Majority(x, y, z) == Maj(x, y, z)
  {
    RawMajForm(x, y, z);
  }

  /** The source's ors compute the standard's exclusive ors. */
  lemma FIsStepFunction(t: nat, b: bv32, c: bv32, d: bv32)
    ensures F(t, b, c, d) == StepFunction(t, b, c, d)
  {
    hide Choose, Ch, Majority, Maj, Parity;
    ChForm(b, c, d);
    MajForm(b, c, d);
  }

  function SwapEnds(w: bv32): bv32
  {
    (w >> 24) | ((w >> 8) & 0xff00) | ((w & 0xff00) << 8) | (w << 24)
  }

  lemma SwapEndsIsBig(w: bv32)
    ensures SwapEnds(w) == BigWord(ByteOf(w, 0), ByteOf(w, 1), ByteOf(w, 2), ByteOf(w, 3))
  {
  }

  lemma SwapEndsReverses(w: bv32)
    ensures Bytes(SwapEnds(w)) == BigBytes(w)
  {
  }

  /** Writing byte k of a word in memory. */
  function SetByte(w: bv32, k: nat, b: bv8): bv32
    requires k < 4
  {
    if k == 0 then (w & 0xffff_ff00) | b as bv32
    else if k == 1 then (w & 0xffff_00ff) | ((b as bv32) << 8)
    else if k == 2 then (w & 0xff00_ffff) | ((b as bv32) << 16)
    else (w & 0x00ff_ffff) | ((b as bv32) << 24)
  }

  lemma SetByte0(w: bv32, b: bv8)
    ensures Bytes(SetByte(w, 0, b)) == Bytes(w)[0 := b]
  {
  }

  lemma SetByte1(w: bv32, b: bv8)
    ensures Bytes(SetByte(w, 1, b)) == Bytes(w)[1 := b]
  {
  }

  lemma SetByte2(w: bv32, b: bv8)
    ensures Bytes(SetByte(w, 2, b)) == Bytes(w)[2 := b]
  {
  }

  lemma SetByte3(w: bv32, b: bv8)
    ensures Bytes(SetByte(w, 3, b)) == Bytes(w)[3 := b]
  {
  }

  lemma BytesOfSetByte(w: bv32, k: nat, b: bv8)
    requires k < 4
    ensures Bytes(SetByte(w, k, b)) == Bytes(w)[k := b]
  {
    hide SetByte, Bytes;
    if k == 0 { SetByte0(w, b); }
    if k == 1 { SetByte1(w, b); }
    if k == 2 { SetByte2(w, b); }
    if k == 3 { SetByte3(w, b); }
  }

  // ------------------------------------------------------------ the object

  /** The bytes in memory of the first n bytes of an array of words. */
  ghost function Memory(w: seq<bv32>, n: nat): (b: seq<bv8>)
    requires n <= 4 * |w|
    ensures |b| == n
  {
    seq(n, k requires 0 <= k < n => ByteOf(w[k / 4], k % 4))
  }

  lemma MemoryStep(w: seq<bv32>, v: seq<bv32>, n: nat, b: bv8)
    requires n < 4 * |w| && v == w[n / 4 := SetByte(w[n / 4], n % 4, b)]
    ensures Memory(v, n + 1) == Memory(w, n) + [b]
  {
    hide SetByte, ByteOf;
    var i, r := n / 4, n % 4;
    BytesOfSetByte(w[i], r, b);
    BytesAt(v[i]);
    BytesAt(w[i]);
    hide Bytes;
    forall k | 0 <= k < n + 1
      ensures ByteOf(v[k / 4], k % 4) == if k < n then ByteOf(w[k / 4], k % 4) else b
    {
      SameWordOrNot(k, n);
    }
  }

  lemma BytesAt(w: bv32)
    ensures forall k :: 0 <= k < 4 ==> Bytes(w)[k] == ByteOf(w, k)
  {
    hide ByteOf;
  }

  lemma SameWordOrNot(k: nat, n: nat)
    requires k <= n
    ensures k / 4 == n / 4 || k / 4 != n / 4
    ensures k / 4 == n / 4 && k < n ==> k % 4 < n % 4
    ensures k / 4 <= n / 4
  {
  }

  class SecureHashAlgorithm {
    var A: bv32
    var B: bv32
    var C: bv32
    var D: bv32
    var E: bv32
    const H: array<bv32>
    const W: array<bv32>  // its first 64 bytes are the block M of the source's union
    var cursor: nat
    var l: nat

    ghost var message: seq<bv8>  // all data so far

    ghost predicate Shape()
    {
      H.Length == 5 && W.Length == 80 && H != W
    }

    ghost function Hash(): Chain
      requires Shape()
      reads H
    {
      Chain(H[0], H[1], H[2], H[3], H[4])
    }

    /** H has consumed the whole blocks of the stream, M holds the rest up to the cursor. */
    ghost predicate Consumed(stream: seq<bv8>)
      reads `cursor, H, W
    {
      Shape() && cursor < 64 && Holds(64, Compress, START, Hash(), Memory(W[..], cursor), stream)
    }

    ghost predicate Valid()
      reads `cursor, `l, `message, H, W
    {
      Consumed(message) && l == Wrap64(8 * |message|)
    }

    constructor ()
      ensures Valid() && fresh(H) && fresh(W) && message == []
    {
      H := new bv32[5];
      W := new bv32[80];
      A, B, C, D, E := 0, 0, 0, 0, 0;
      cursor, l := 0, 0;
      message := [];
      new;
      Init();
    }

    method Init()
      requires Shape()
      modifies this, H
      ensures Valid() && message == []
    {
      hide Compress;
      A, B, C, D, E := 0, 0, 0, 0, 0;
      cursor, l := 0, 0;
      message := [];
      H[0], H[1], H[2], H[3], H[4] := 0x67452301, 0xefcdab89, 0x98badcfe, 0x10325476, 0xc3d2e1f0;
      HoldsStart(64, Compress, START);
      assert Memory(W[..], 0) == [];
    }

    /** M[cursor++] = b. */
    method PutByte(b: bv8)
      requires Shape() && cursor < 64
      modifies `cursor, W
      ensures cursor == old(cursor) + 1
      ensures Memory(W[..], cursor) == old(Memory(W[..], cursor)) + [b]
    {
      hide SetByte, ByteOf;
      ghost var w := W[..];
      W[cursor / 4] := SetByte(W[cursor / 4], cursor % 4, b);
      MemoryStep(w, W[..], cursor, b);
      cursor := cursor + 1;
    }

    /** Step a: the bytes of the block become big-endian words, in place. */
    method LoadWords(ghost b: seq<bv8>)
      requires Shape() && b == Memory(W[..], 64)
      modifies W
      ensures forall k :: 0 <= k < 16 ==> W[k] == Schedule(b, k)
    {
      hide SwapEnds, BigWord, ByteOf;
      ghost var w := W[..];
      for t := 0 to 16
        invariant forall k :: 0 <= k < t ==> W[k] == Schedule(b, k)
        invariant forall k :: t <= k < 80 ==> W[k] == w[k]
      {
        SwapEndsIsBig(W[t]);
        MemoryWord(w, t);
        W[t] := SwapEnds(W[t]);
      }
    }

    /** Step b: the rest of the schedule. */
    method ExtendWords(ghost b: seq<bv8>)
      requires Shape() && |b| == 64 && forall k :: 0 <= k < 16 ==> W[k] == Schedule(b, k)
      modifies W
      ensures forall k :: 0 <= k < 80 ==> W[k] == Schedule(b, k)
    {
      hide RotateLeft, Xor4, BigWord;
      for t := 16 to 80
        invariant forall k :: 0 <= k < t ==> W[k] == Schedule(b, k)
      {
        W[t] := RotateLeft(Xor4(W[t - 3], W[t - 8], W[t - 14], W[t - 16]), 1);
      }
    }

    /** Steps c and d: the eighty rounds on the working variables. */
    method Rounds(ghost b: seq<bv8>)
      requires Shape() && |b| == 64 && forall k :: 0 <= k < 80 ==> W[k] == Schedule(b, k)
      modifies `A, `B, `C, `D, `E
      ensures Chain(A, B, C, D, E) == Steps(Hash(), b, 80)
    {
      hide RotateLeft, F, K, Schedule, StepFunction;
      A, B, C, D, E := H[0], H[1], H[2], H[3], H[4];
      NoSteps(Hash(), b);
      for t := 0 to 80
        invariant Chain(A, B, C, D, E) == Steps(Hash(), b, t)
      {
        FIsStepFunction(t, B, C, D);
        SumOrder(RotateLeft(A, 5), F(t, B, C, D), E, W[t], K(t));
        var temp := Plus(Plus(Plus(Plus(RotateLeft(A, 5), F(t, B, C, D)), E), W[t]), K(t));
        E := D;
        D := C;
        C := RotateLeft(B, 30);
        B := A;
        A := temp;
      }
    }

    /** Step e: the working variables are added to the hash. */
    method AddWorking()
      requires Shape()
      modifies H
      ensures Hash() == AddChains(old(Hash()), Chain(A, B, C, D, E))
    {
      hide Plus;
      H[0] := Plus(H[0], A);
      H[1] := Plus(H[1], B);
      H[2] := Plus(H[2], C);
      H[3] := Plus(H[3], D);
      H[4] := Plus(H[4], E);
    }

    /** Hashes the block M into H. */
    method Process()
      requires Shape() && cursor == 64
      modifies `A, `B, `C, `D, `E, `cursor, H, W
      ensures cursor == 0 && Hash() == Compress(old(Hash()), old(Memory(W[..], 64)))
    {
      ghost var b := Memory(W[..], 64);
      hide Steps, Memory, Schedule, AddChains, Hash;
      LoadWords(b);
      ExtendWords(b);
      Rounds(b);
      AddWorking();
      cursor := 0;
    }

    /** One byte of the stream, processed once the block is full. */
    method Append(b: bv8, ghost stream: seq<bv8>)
      requires Consumed(stream)
      modifies `A, `B, `C, `D, `E, `cursor, H, W
      ensures Consumed(stream + [b]) && cursor == if old(cursor) == 63 then 0 else old(cursor) + 1
    {
      hide Compress, Holds, Memory;
      ghost var q, tail := Hash(), Memory(W[..], cursor);
      PutByte(b);
      if cursor >= 64 {
        HoldsFull(64, Compress, START, q, tail, stream, [b]);
        Process();
        assert Memory(W[..], 0) == [];
      } else {
        HoldsAppend(64, Compress, START, q, tail, stream, [b]);
      }
    }

    method Update(data: seq<bv8>)
      requires Valid()
      modifies this, H, W
      ensures Valid() && message == old(message) + data
    {
      hide Consumed, Wrap64;
      for i := 0 to |data|
        invariant Valid() && message == old(message) + data[..i]
      {
        Append(data[i], message);
        WrapSum(8 * |message|, 8);
        l := Wrap64(l + 8);
        message := message + [data[i]];
        assert data[..i + 1] == data[..i] + [data[i]];
      }
      assert data[..|data|] == data;
    }

    /** Appends n zero bytes: the loops of Pad, of which only the first may end a block. */
    method AppendZeros(n: nat, ghost stream: seq<bv8>)
      requires Consumed(stream) && cursor < 64 && cursor + n <= 64
      modifies `A, `B, `C, `D, `E, `cursor, H, W
      ensures Consumed(stream + Zeros(n))
      ensures cursor == if old(cursor) + n == 64 then 0 else old(cursor) + n
    {
      hide Consumed;
      ghost var c := cursor;
      assert stream + Zeros(0) == stream;
      for i := 0 to n
        invariant Consumed(stream + Zeros(i))
        invariant cursor == if c + i == 64 then 0 else c + i
      {
        Append(0, stream + Zeros(i));
        assert stream + Zeros(i) + [0] == stream + Zeros(i + 1);
      }
    }

    /** The padding without the length: one block or two. */
    method PadZeros(ghost m: seq<bv8>)
      requires Consumed(m) && cursor == |m| % 64
      modifies `A, `B, `C, `D, `E, `cursor, H, W
      ensures Consumed(m + [0x80] + Zeros(PadCount(|m|))) && cursor == 56
    {
      hide Consumed, Zeros, PadCount;
      var c := cursor;
      PadCases(|m|);
      Append(0x80, m);
      ghost var s := m + [0x80];
      if c == 63 {
        assert s + Zeros(56) == m + [0x80] + Zeros(56);
        AppendZeros(56, s);
      } else if c + 1 > 64 - 8 {
        AppendZeros(64 - cursor, s);
        AppendZeros(56, s + Zeros(64 - (c + 1)));
        ZerosAdd(64 - (c + 1), 56);
        assert s + Zeros(64 - (c + 1)) + Zeros(56) == s + (Zeros(64 - (c + 1)) + Zeros(56));
      } else {
        AppendZeros(56 - cursor, s);
      }
    }

    /** Appends the eight bytes of the length, the last of which ends the block. */
    method AppendBytes(data: seq<bv8>, ghost stream: seq<bv8>)
      requires Consumed(stream) && cursor < 64 && cursor + |data| == 64
      modifies `A, `B, `C, `D, `E, `cursor, H, W
      ensures Consumed(stream + data) && cursor == 0
    {
      hide Consumed;
      ghost var c := cursor;
      assert stream + data[..0] == stream;
      for i := 0 to |data|
        invariant Consumed(stream + data[..i])
        invariant cursor == if c + i == 64 then 0 else c + i
      {
        Append(data[i], stream + data[..i]);
        assert data[..i + 1] == data[..i] + [data[i]];
        assert stream + data[..i] + [data[i]] == stream + data[..i + 1];
      }
      assert data[..|data|] == data;
    }

    /** Pad and the last Process. */
    method Finish()
      requires Valid()
      modifies this, H, W
      ensures Shape() && Hash() == Fold(64, Compress, START, Padded(old(message)))
    {
      hide Holds, Compress, NumberBytes, Wrap64, Memory, Zeros;
      CursorIs(message);
      ghost var m := message;
      PadZeros(m);
      AppendBytes(NumberBytes(l), m + [0x80] + Zeros(PadCount(|m|)));
      AllConsumed(Padded(m));
    }

    /** Pads, processes the last block, and leaves the digest in the memory of H. */
    method Final()
      requires Valid()
      modifies this, H, W
      ensures Shape() && DigestInMemory() == Digest(old(message))
    {
      hide Valid, Digest, SwapEnds, Bytes, BigBytes, Fold, Padded, Compress, DigestBytes;
      ghost var m := message;
      Finish();
      ghost var q := Hash();
      for t := 0 to 5
        invariant forall k :: 0 <= k < 5 ==>
            H[k] == if k < t then SwapEnds(HashWord(q, k)) else HashWord(q, k)
      {
        H[t] := SwapEnds(H[t]);
      }
      SwapEndsReverses(q.a);
      SwapEndsReverses(q.b);
      SwapEndsReverses(q.c);
      SwapEndsReverses(q.d);
      SwapEndsReverses(q.e);
      DigestIs(m, q);
    }

    /** The twenty bytes that Digest() points to. */
    function DigestInMemory(): (b: seq<bv8>)
      requires Shape()
      reads H
      ensures |b| == 20
    {
      Bytes(H[0]) + Bytes(H[1]) + Bytes(H[2]) + Bytes(H[3]) + Bytes(H[4])
    }

    lemma CursorIs(stream: seq<bv8>)
      requires Consumed(stream)
      ensures cursor == |stream| % 64
    {
      hide Compress, Memory;
      HoldsCount(64, Compress, START, Hash(), Memory(W[..], cursor), stream);
    }

    lemma AllConsumed(stream: seq<bv8>)
      requires Consumed(stream) && cursor == 0
      ensures Hash() == Fold(64, Compress, START, stream)
    {
      hide Compress;
      assert Memory(W[..], 0) == [];
      HoldsWhole(64, Compress, START, Hash(), stream);
    }
  }

  lemma DigestIs(m: seq<bv8>, q: Chain)
    requires q == Fold(64, Compress, START, Padded(m))
    ensures Digest(m) == BigBytes(q.a) + BigBytes(q.b) + BigBytes(q.c) + BigBytes(q.d) + BigBytes(q.e)
  {
    hide Padded, BigBytes, Compress;
  }

  /** Word k of the chaining value. */
  function HashWord(q: Chain, k: nat): bv32
    requires k < 5
  {
    if k == 0 then q.a else if k == 1 then q.b else if k == 2 then q.c else if k == 3 then q.d else q.e
  }

  lemma MemoryAt(w: seq<bv32>, t: nat, k: nat)
    requires |w| == 80 && t < 16 && k < 4
    ensures Memory(w, 64)[4 * t + k] == ByteOf(w[t], k)
  {
    hide ByteOf;
    assert (4 * t + k) / 4 == t && (4 * t + k) % 4 == k;
  }

  lemma MemoryWord(w: seq<bv32>, t: nat)
    requires |w| == 80 && t < 16
    ensures Schedule(Memory(w, 64), t)
         == BigWord(ByteOf(w[t], 0), ByteOf(w[t], 1), ByteOf(w[t], 2), ByteOf(w[t], 3))
  {
    hide BigWord, ByteOf, Memory;
    MemoryAt(w, t, 0);
    MemoryAt(w, t, 1);
    MemoryAt(w, t, 2);
    MemoryAt(w, t, 3);
  }

  lemma NoSteps(q: Chain, b: seq<bv8>)
    requires |b| == 64
    ensures Steps(q, b, 0) == q
  {
  }

  lemma SumOrder(r: bv32, f: bv32, e: bv32, w: bv32, k: bv32)
    ensures Plus(Plus(Plus(Plus(r, f), e), w), k) == Plus(Plus(Plus(Plus(r, f), e), k), w)
  {
    hide Plus;
    var s := Plus(Plus(r, f), e);
    PlusLaws(s, w, k);
    PlusLaws(s, k, w);
    PlusLaws(w, k, k);
  }

  // ------------------------------------------------------------ every split

  /** However a message is cut into pieces, the digest is that of the concatenation;
      SHA1HashBytes is the case of one piece. */
  method HashPieces(pieces: seq<seq<bv8>>) returns (digest: seq<bv8>)
    ensures digest == Digest(Concat(pieces))
  {
    var sha := new SecureHashAlgorithm();
    hide Digest, Bytes;
    for i := 0 to |pieces|
      invariant sha.Valid() && fresh(sha) && fresh(sha.H) && fresh(sha.W)
      invariant sha.message == Concat(pieces[..i])
    {
      sha.Update(pieces[i]);
      assert pieces[..i + 1][..i] == pieces[..i];
    }
    assert pieces[..|pieces|] == pieces;
    sha.Final();
    digest := sha.DigestInMemory();
  }
}
