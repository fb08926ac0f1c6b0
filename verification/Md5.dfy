// MD5 over data that arrives in pieces, verified against the one-shot digest
// of section 3 of RFC 1321. The host is little-endian.
module Md5 {
  import opened BlockStream
  import opened Md5Transform
  import opened WordLaws
  import opened Words32

  /** The sixteen words of a block. */
  function BlockWords(b: seq<bv8>): (x: seq<bv32>)
    requires |b| == 64
    ensures |x| == 16
  {
    hide Word;
    seq(16, i requires 0 <= i < 16 => Word(b[4 * i], b[4 * i + 1], b[4 * i + 2], b[4 * i + 3]))
  }

  // ------------------------------------------------------------ the specification

  const START := Chain(0x67452301, 0xefcdab89, 0x98badcfe, 0x10325476)

  /** The compression of one block; data of another size is not a block. */
  function Compress(q: Chain, b: seq<bv8>): Chain
  {
    if |b| == 64 then Transform(q, BlockWords(b)) else q
  }

  /** A number below 2^32 as four bytes, low-order byte first. */
  function NumberBytes(n: nat): (b: seq<bv8>)
    requires n < 0x1_0000_0000
    ensures |b| == 4
  {
    [LowByteOf(n), LowByteOf(n / 0x100), LowByteOf(n / 0x1_0000), LowByteOf(n / 0x100_0000)]
  }

  /** The four bytes stand for the number, the low-order byte first. */
  lemma BytesOfNumber(n: nat)
    requires n < 0x1_0000_0000
    ensures LittleNumber(NumberBytes(n)) == n
  {
    hide LittleNumber, LowByteOf;
    var b0, b1, b2, b3 := LowByteOf(n), LowByteOf(n / 0x100), LowByteOf(n / 0x1_0000), LowByteOf(n / 0x100_0000);
    LowByteNumber(n);
    LowByteNumber(n / 0x100);
    LowByteNumber(n / 0x1_0000);
    LowByteNumber(n / 0x100_0000);
    FourBytes(b0, b1, b2, b3);
    FourDigits(n, b0 as int, b1 as int, b2 as int, b3 as int);
  }

  lemma FourDigits(n: nat, d0: int, d1: int, d2: int, d3: int)
    requires n < 0x1_0000_0000
    requires d0 == n % 256 && d1 == n / 0x100 % 256 && d2 == n / 0x1_0000 % 256 && d3 == n / 0x100_0000 % 256
    ensures 256 * (256 * (256 * d3 + d2) + d1) + d0 == n
  {
    var n1 := n / 256;
    var n2 := n1 / 256;
    var n3 := n2 / 256;
    assert n1 / 256 == n / 0x1_0000 && n2 / 256 == n / 0x100_0000 && n3 < 256;
  }

  /** The length in bits modulo 2^64 as two words, low-order word first. */
  function LengthBytes(bytes: nat): (b: seq<bv8>)
    ensures |b| == 8
  {
    NumberBytes(LowWord(8 * bytes)) + NumberBytes(HighWord(8 * bytes))
  }

  function LowWord(n: nat): (r: nat)
    ensures r < 0x1_0000_0000
  {
    n % 0x1_0000_0000
  }

  function HighWord(n: nat): (r: nat)
    ensures r < 0x1_0000_0000
  {
    n / 0x1_0000_0000 % 0x1_0000_0000
  }

  /** The eight bytes stand for the number of bits modulo 2^64, the low-order byte first. */
  lemma LengthIsNumber(bytes: nat)
    ensures LittleNumber(LengthBytes(bytes)) == 8 * bytes % 0x1_0000_0000_0000_0000
  {
    hide NumberBytes, LittleNumber;
    var low, high := LowWord(8 * bytes), HighWord(8 * bytes);
    BytesOfNumber(low);
    BytesOfNumber(high);
    FourMore(NumberBytes(low), NumberBytes(high));
    TwoHalves(8 * bytes);
  }

  lemma FourMore(a: seq<bv8>, b: seq<bv8>)
    requires |a| == 4
    ensures LittleNumber(a + b) == LittleNumber(a) + 0x1_0000_0000 * LittleNumber(b)
  {
    hide LittleNumber;
    assert a == [a[0]] + ([a[1]] + ([a[2]] + ([a[3]] + [])));
    assert a + b == [a[0]] + ([a[1]] + ([a[2]] + ([a[3]] + b)));
    NoBytes();
    LittleStep(a[3], []);
    LittleStep(a[2], [a[3]] + []);
    LittleStep(a[1], [a[2]] + ([a[3]] + []));
    LittleStep(a[0], [a[1]] + ([a[2]] + ([a[3]] + [])));
    LittleStep(a[3], b);
    LittleStep(a[2], [a[3]] + b);
    LittleStep(a[1], [a[2]] + ([a[3]] + b));
    LittleStep(a[0], [a[1]] + ([a[2]] + ([a[3]] + b)));
  }

  lemma TwoHalves(n: nat)
    ensures LowWord(n) + 0x1_0000_0000 * HighWord(n) == n % 0x1_0000_0000_0000_0000
  {
    var q := n / 0x1_0000_0000;
    assert n == 0x1_0000_0000 * q + LowWord(n);
    assert q == 0x1_0000_0000 * (q / 0x1_0000_0000) + HighWord(n);
    assert n == 0x1_0000_0000_0000_0000 * (q / 0x1_0000_0000) + (LowWord(n) + 0x1_0000_0000 * HighWord(n));
  }

  /** Sections 3.1 and 3.2: one bit, zeros, and the length. */
  function Padded(m: seq<bv8>): seq<bv8>
  {
    m + [0x80] + Zeros(PadCount(|m|)) + LengthBytes(|m|)
  }

  function DigestBytes(q: Chain): (b: seq<bv8>)
    ensures |b| == 16
  {
    Bytes(q.a) + Bytes(q.b) + Bytes(q.c) + Bytes(q.d)
  }

  /** The digest of a message. */
  function Digest(m: seq<bv8>): (b: seq<bv8>)
    ensures |b| == 16
  {
    DigestBytes(Fold(64, Compress, START, Padded(m)))
  }

  // ------------------------------------------------------------ byteReverse

  /** Reads four bytes low-order first and stores the word back: harmless on a
      little-endian machine. */
  method ByteReverse(buf: array<bv8>, longs: nat)
    requires longs > 0 && 4 * longs <= buf.Length
    modifies buf
    ensures buf[..] == old(buf[..])
  {
    var n, i := longs, 0;
    while n > 0
      invariant 0 <= n <= longs && i == 4 * (longs - n)
      invariant buf[..] == old(buf[..])
    {
      BytesOfWord(buf[i], buf[i + 1], buf[i + 2], buf[i + 3]);
      hide Word, ByteOf;
      var temp := Word(buf[i], buf[i + 1], buf[i + 2], buf[i + 3]);
      var t := Bytes(temp);
      assert t == [buf[i], buf[i + 1], buf[i + 2], buf[i + 3]];
      buf[i], buf[i + 1], buf[i + 2], buf[i + 3] := t[0], t[1], t[2], t[3];
      i := i + 4;
      n := n - 1;
    }
  }

  // ------------------------------------------------------------ the context

  class Context {
    const buf: array<bv32>
    var bits0: nat
    var bits1: nat
    const input: array<bv8>

    ghost var message: seq<bv8>  // all data so far

    ghost predicate Shape()
    {
      buf.Length == 4 && input.Length == 64 && buf as object != input
    }

    /** The two words count the bits modulo 2^64. */
    ghost predicate Counts()
      reads `bits0, `bits1, `message
    {
      bits0 == LowWord(8 * |message|) && bits1 == HighWord(8 * |message|)
    }

    /** The chaining value has consumed the whole blocks of the stream, and the first
        used bytes of the input buffer are the rest. */
    ghost predicate Consumed(stream: seq<bv8>, used: nat)
      requires Shape() && used <= 64
      reads buf, input
    {
      Holds(64, Compress, START, Words(buf), input[..used], stream)
    }

    ghost predicate Valid()
      reads `bits0, `bits1, `message, buf, input
    {
      Shape() && Counts() && Consumed(message, |message| % 64)
    }

    constructor MD5Init()
      ensures Valid() && fresh(buf) && fresh(input) && message == []
    {
      buf := new bv32[4];
      input := new bv8[64];
      bits0, bits1 := 0, 0;
      message := [];
      new;
      hide Compress;
      buf[0], buf[1], buf[2], buf[3] := 0x67452301, 0xefcdab89, 0x98badcfe, 0x10325476;
      HoldsStart(64, Compress, START);
      assert input[..0] == [];
    }

    /** Copies a piece into the input buffer. */
    method CopyIn(at: nat, data: seq<bv8>)
      requires input.Length == 64 && at + |data| <= 64
      modifies input
      ensures input[..at + |data|] == old(input[..at]) + data
    {
      for i := 0 to |data|
        invariant input[..at + i] == old(input[..at]) + data[..i]
      {
        input[at + i] := data[i];
      }
    }

    /** byteReverse and MD5Transform on a full input buffer. */
    method Consume()
      requires Shape()
      modifies buf, input
      ensures input[..] == old(input[..])
      ensures Words(buf) == Compress(old(Words(buf)), input[..])
    {
      hide Transform, Word;
      ByteReverse(input, 16);
      MD5Transform(buf, BlockWords(input[..]));
    }

    /** Adds the length of the data to the two-word count. */
    method CountBits(len: nat, ghost data: seq<bv8>)
      requires Counts() && len == |data|
      modifies `bits0, `bits1
      ensures bits0 == LowWord(8 * (|message| + len)) && bits1 == HighWord(8 * (|message| + len))
    {
      var t := bits0;
      bits0 := LowWord(t + LowWord(LowWord(len) * 8));
      if bits0 < t {
        bits1 := LowWord(bits1 + 1);
      }
      bits1 := LowWord(bits1 + LowWord(len / 0x2000_0000));
      CarryCounts(|message|, len);
    }

    /** Copies a piece into the input buffer and consumes the buffer once it is full. */
    method Append(at: nat, data: seq<bv8>, ghost stream: seq<bv8>)
      requires Shape() && at < 64 && at + |data| <= 64 && Consumed(stream, at)
      modifies buf, input
      ensures at + |data| < 64 ==> Consumed(stream + data, at + |data|)
      ensures at + |data| == 64 ==> Consumed(stream + data, 0)
    {
      hide Compress, Holds;
      ghost var q, tail := Words(buf), input[..at];
      CopyIn(at, data);
      if at + |data| == 64 {
        HoldsFull(64, Compress, START, q, tail, stream, data);
        assert input[..64] == input[..];
        Consume();
        assert input[..0] == [];
      } else {
        HoldsAppend(64, Compress, START, q, tail, stream, data);
      }
    }

    /** The part of MD5Update before the 64-byte chunks: tops up a block in progress.
        Returns how many bytes it took; if that is not all, the block is complete. */
    method TopUp(t: nat, data: seq<bv8>) returns (n: nat)
      requires Shape() && t == |message| % 64 && Consumed(message, t)
      modifies buf, input
      ensures n <= |data| && (n < |data| ==> (|message| + n) % 64 == 0)
      ensures Consumed(message + data[..n], (|message| + n) % 64)
    {
      hide Consumed;
      n := 0;
      assert message + data[..0] == message;
      if t != 0 {
        n := if |data| < 64 - t then |data| else 64 - t;
        Remainder(|message|, n);
        Append(t, data[..n], message);
      }
    }

    /** The 64-byte chunks of MD5Update, and the remaining bytes. */
    method Chunks(data: seq<bv8>, ghost stream: seq<bv8>)
      requires Shape() && |stream| % 64 == 0 && Consumed(stream, 0)
      modifies buf, input
      ensures Consumed(stream + data, (|stream| + |data|) % 64)
    {
      hide Consumed;
      var rest := data;
      ghost var done := stream;
      while |rest| >= 64
        invariant done + rest == stream + data
        invariant |done| % 64 == 0 && Consumed(done, 0)
      {
        Append(0, rest[..64], done);
        assert done + rest == (done + rest[..64]) + rest[64..];
        done, rest := done + rest[..64], rest[64..];
      }
      Remainder(|done|, |rest|);
      assert |done| + |rest| == |stream| + |data|;
      if |rest| > 0 {
        Append(0, rest, done);
      } else {
        assert done == stream + data;
      }
    }

    /** The context for a message becomes the one for that message continued by the data. */
    method MD5Update(data: seq<bv8>)
      requires Valid()
      modifies `bits0, `bits1, `message, buf, input
      ensures Valid() && message == old(message) + data
    {
      hide Consumed, LowWord, HighWord;
      BytesInBlock(|message|);
      var t := bits0 / 8 % 64;
      CountBits(|data|, data);
      var n := TopUp(t, data);
      assert message + data == (message + data[..n]) + data[n..];
      if n < |data| {
        Chunks(data[n..], message + data[..n]);
      } else {
        assert data[..n] == data;
      }
      message := message + data;
    }

    /** The padding of MD5Final, in one block or two, without the length. */
    method Pad(count: nat)
      requires Shape() && count == |message| % 64 && Consumed(message, count)
      modifies buf, input
      ensures Consumed(message + [0x80] + Zeros(PadCount(|message|)), 56)
    {
      hide Consumed, Zeros;
      ghost var m := message;
      if 64 - 1 - count < 8 {
        Append(count, [0x80] + Zeros(64 - 1 - count), m);
        Append(0, Zeros(56), m + ([0x80] + Zeros(64 - 1 - count)));
        TwoLots(m, count);
      } else {
        Append(count, [0x80] + Zeros(64 - 1 - count - 8), m);
        OneLot(m, count);
      }
    }

    /** The digest of all data; the context is cleared. */
    method MD5Final() returns (digest: seq<bv8>)
      requires Valid()
      modifies this, buf, input
      ensures digest == Digest(old(message))
      ensures bits0 == bits1 == 0 && buf[..] == [0, 0, 0, 0] && input[..] == Zeros(64)
    {
      hide Holds, LowWord, HighWord, NumberBytes, Compress, DigestBytes;
      BytesInBlock(|message|);
      Pad(bits0 / 8 % 64);
      ghost var padded, first := message + [0x80] + Zeros(PadCount(|message|)), input[..];
      assert input[..56] == first[..56];
      ByteReverse(input, 14);
      assert input[..56] == input[..][..56] == first[..56];
      Append(56, NumberBytes(bits0) + NumberBytes(bits1), padded);
      AllConsumed(Padded(message));
      digest := DigestBytes(Chain(buf[0], buf[1], buf[2], buf[3]));
      Clear();
    }

    lemma AllConsumed(stream: seq<bv8>)
      requires Shape() && Consumed(stream, 0)
      ensures Words(buf) == Fold(64, Compress, START, stream)
    {
      hide Compress;
      assert input[..0] == [];
      HoldsWhole(64, Compress, START, Words(buf), stream);
    }

    /** memset of the whole context. */
    method Clear()
      requires Shape()
      modifies this, buf, input
      ensures bits0 == bits1 == 0 && buf[..] == [0, 0, 0, 0] && input[..] == Zeros(64)
    {
      bits0, bits1 := 0, 0;
      buf[0], buf[1], buf[2], buf[3] := 0, 0, 0, 0;
      for i := 0 to 64
        invariant input[..i] == Zeros(i) && buf[..] == [0, 0, 0, 0] && bits0 == bits1 == 0
      {
        input[i] := 0;
      }
      assert input[..64] == input[..];
    }

    /** A copy of this context. */
    constructor Copy(other: Context)
      requires other.Valid()
      ensures Valid() && fresh(buf) && fresh(input) && message == other.message
    {
      buf := new bv32[4];
      input := new bv8[64];
      bits0, bits1 := other.bits0, other.bits1;
      message := other.message;
      new;
      hide Holds;
      CopyWords(buf, other.buf);
      CopyBytes(input, other.input);
      ghost var used := |message| % 64;
      assert input[..used] == input[..][..used] == other.input[..][..used] == other.input[..used];
    }

    /** The digest so far; the context can take more data afterwards. */
    method MD5IntermediateFinal() returns (digest: seq<bv8>)
      requires Valid()
      ensures digest == Digest(message)
    {
      hide Consumed;
      var contextCopy := new Context.Copy(this);
      digest := contextCopy.MD5Final();
    }
  }

  method CopyWords(a: array<bv32>, b: array<bv32>)
    requires a.Length == b.Length == 4 && a != b
    modifies a
    ensures Words(a) == Words(b)
  {
    for i := 0 to 4
      invariant a[..i] == b[..i]
    {
      a[i] := b[i];
    }
    SameWords(a, b);
  }

  method CopyBytes(a: array<bv8>, b: array<bv8>)
    requires a.Length == b.Length && a != b
    modifies a
    ensures a[..] == b[..]
  {
    for i := 0 to a.Length
      invariant a[..i] == b[..i]
    {
      a[i] := b[i];
    }
  }

  lemma SameWords(a: array<bv32>, b: array<bv32>)
    requires a.Length == b.Length == 4 && a[..4] == b[..4]
    ensures Words(a) == Words(b)
  {
    assert a[0] == a[..4][0] && a[1] == a[..4][1] && a[2] == a[..4][2] && a[3] == a[..4][3];
  }

  lemma Remainder(m: nat, n: nat)
    requires m % 64 + n <= 64
    ensures m % 64 + n < 64 ==> (m + n) % 64 == m % 64 + n
    ensures m % 64 + n == 64 ==> (m + n) % 64 == 0
  {
  }

  /** The bits counted modulo 2^32 still tell the bytes in the block. */
  lemma BytesInBlock(m: nat)
    ensures LowWord(8 * m) / 8 % 64 == m % 64
  {
    var q, r := m / 0x2000_0000, m % 0x2000_0000;
    assert m == q * 0x2000_0000 + r;
    assert 8 * m == q * 0x1_0000_0000 + 8 * r;
    TwoWords(q, 8 * r);
    hide LowWord;
    assert m % 64 == r % 64 by { SixtyFour(q, r); }
  }

  lemma SixtyFour(q: nat, r: nat)
    ensures (q * 0x2000_0000 + r) % 64 == r % 64
  {
    assert (q * 0x2000_0000 + r) == 64 * (q * 0x80_0000) + r;
  }

  lemma TwoLots(m: seq<bv8>, count: nat)
    requires count == |m| % 64 && count > 55
    ensures (m + ([0x80] + Zeros(64 - 1 - count))) + Zeros(56) == m + [0x80] + Zeros(PadCount(|m|))
  {
    ZerosAdd(63 - count, 56);
    hide Zeros;
    assert PadCount(|m|) == 63 - count + 56;
  }

  lemma OneLot(m: seq<bv8>, count: nat)
    requires count == |m| % 64 && count <= 55
    ensures m + ([0x80] + Zeros(64 - 1 - count - 8)) == m + [0x80] + Zeros(PadCount(|m|))
  {
    hide Zeros;
    assert PadCount(|m|) == 55 - count;
  }

  /** A carry is needed exactly when the low word wraps. */
  lemma CarryCounts(m: nat, len: nat)
    ensures var t := LowWord(8 * m);
            var b := LowWord(LowWord(len) * 8);
            var low := LowWord(t + b);
            var carried := if low < t then LowWord(HighWord(8 * m) + 1) else HighWord(8 * m);
            low == LowWord(8 * (m + len))
            && LowWord(carried + LowWord(len / 0x2000_0000)) == HighWord(8 * (m + len))
  {
    var h, t := 8 * m / 0x1_0000_0000, LowWord(8 * m);
    var g, b := len / 0x2000_0000, LowWord(LowWord(len) * 8);
    BitsOfLength(len);
    Split(8 * m);
    hide LowWord, HighWord;
    if t + b < 0x1_0000_0000 {
      TwoWords(h + g, t + b);
      TwoWords(0, t + b);
      LowOfSum(h, g);
    } else {
      TwoWords(h + g + 1, t + b - 0x1_0000_0000);
      TwoWords(1, t + b - 0x1_0000_0000);
      LowOfSum(h, 1);
      LowOfSum(h + 1, g);
    }
  }

  lemma BitsOfLength(len: nat)
    ensures 8 * len == len / 0x2000_0000 * 0x1_0000_0000 + LowWord(LowWord(len) * 8)
  {
    var q, r := len / 0x2000_0000, len % 0x2000_0000;
    assert len == q * 0x2000_0000 + r;
    TwoWords(q / 8, q % 8 * 0x2000_0000 + r);
    TwoWords(q % 8, 8 * r);
  }

  lemma Split(n: nat)
    ensures n == n / 0x1_0000_0000 * 0x1_0000_0000 + LowWord(n)
    ensures HighWord(n) == LowWord(n / 0x1_0000_0000)
  {
  }

  lemma TwoWords(h: nat, t: nat)
    requires t < 0x1_0000_0000
    ensures LowWord(h * 0x1_0000_0000 + t) == t
    ensures HighWord(h * 0x1_0000_0000 + t) == LowWord(h)
  {
  }

  lemma LowOfSum(a: nat, b: nat)
    ensures LowWord(LowWord(a) + LowWord(b)) == LowWord(a + b)
    ensures LowWord(LowWord(a) + b) == LowWord(a + b)
  {
  }

  // ------------------------------------------------------------ every split

  /** However a message is cut into pieces, the digest is that of the concatenation. */
  method HashPieces(pieces: seq<seq<bv8>>) returns (digest: seq<bv8>)
    ensures digest == Digest(Concat(pieces))
  {
    var ctx := new Context.MD5Init();
    hide Digest;
    for i := 0 to |pieces|
      invariant ctx.Valid() && fresh(ctx) && fresh(ctx.buf) && fresh(ctx.input)
      invariant ctx.message == Concat(pieces[..i])
    {
      ctx.MD5Update(pieces[i]);
      assert pieces[..i + 1][..i] == pieces[..i];
    }
    assert pieces[..|pieces|] == pieces;
    digest := ctx.MD5Final();
  }
}
