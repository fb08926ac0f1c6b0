// 32-bit words as the digests use them, their bytes on a little-endian host, and padding.
module Words32 {

  /** Addition of words, modulo 2^32; named so that proofs can hide its bits. */
  function Plus(x: bv32, y: bv32): bv32
  {
    x + y
  }

  lemma RawPlusLaws(x: bv32, y: bv32, z: bv32)
    ensures (x + y) + z == x + (y + z) && x + y == y + x
  {
  }

  lemma PlusLaws(x: bv32, y: bv32, z: bv32)
    ensures Plus(Plus(x, y), z) == Plus(x, Plus(y, z)) && Plus(x, y) == Plus(y, x)
  {
    RawPlusLaws(x, y, z);
  }

  function RotateLeft(x: bv32, s: nat): bv32
    requires 0 < s < 32
  {
    (x << s) | (x >> (32 - s))
  }

  /** Four bytes as a word, low-order byte first. */
  function Word(b0: bv8, b1: bv8, b2: bv8, b3: bv8): bv32
  {
    ((((b3 as bv32) << 8) | b2 as bv32) << 16) | (((b1 as bv32) << 8) | b0 as bv32)
  }

  /** Byte k of a word in memory. */
  function ByteOf(w: bv32, k: nat): bv8
    requires k < 4
  {
    if k == 0 then (w & 0xff) as bv8
    else if k == 1 then ((w >> 8) & 0xff) as bv8
    else if k == 2 then ((w >> 16) & 0xff) as bv8
    else ((w >> 24) & 0xff) as bv8
  }

  function Bytes(w: bv32): (b: seq<bv8>)
    ensures |b| == 4
  {
    [ByteOf(w, 0), ByteOf(w, 1), ByteOf(w, 2), ByteOf(w, 3)]
  }

  lemma BytesOfWord(b0: bv8, b1: bv8, b2: bv8, b3: bv8)
    ensures Bytes(Word(b0, b1, b2, b3)) == [b0, b1, b2, b3]
  {
    LowBytes(b0, b1, b2, b3);
    HighBytes(b0, b1, b2, b3);
  }

  lemma LowBytes(b0: bv8, b1: bv8, b2: bv8, b3: bv8)
    ensures ByteOf(Word(b0, b1, b2, b3), 0) == b0 && ByteOf(Word(b0, b1, b2, b3), 1) == b1
  {
  }

  lemma HighBytes(b0: bv8, b1: bv8, b2: bv8, b3: bv8)
    ensures ByteOf(Word(b0, b1, b2, b3), 2) == b2 && ByteOf(Word(b0, b1, b2, b3), 3) == b3
  {
  }

  function Zeros(n: nat): (z: seq<bv8>)
    ensures |z| == n
  {
    seq(n, i => 0)
  }

  lemma ZerosAdd(i: nat, j: nat)
    ensures Zeros(i) + Zeros(j) == Zeros(i + j)
  {
  }

  function Concat(pieces: seq<seq<bv8>>): seq<bv8>
  {
    if |pieces| == 0 then [] else Concat(pieces[..|pieces| - 1]) + pieces[|pieces| - 1]
  }

  lemma NoPieces()
    ensures Concat([]) == []
  {
  }

  lemma ConcatNext(pieces: seq<seq<bv8>>, i: nat)
    requires i < |pieces|
    ensures Concat(pieces[..i + 1]) == Concat(pieces[..i]) + pieces[i]
  {
    assert pieces[..i + 1][..i] == pieces[..i];
  }

  /** A number in a 64-bit word. */
  function Wrap64(n: nat): (r: nat)
    ensures r < 0x1_0000_0000_0000_0000
  {
    n % 0x1_0000_0000_0000_0000
  }

  lemma WrapSum(a: nat, b: nat)
    ensures Wrap64(Wrap64(a) + b) == Wrap64(a + b)
  {
    var q := a / 0x1_0000_0000_0000_0000;
    assert a == q * 0x1_0000_0000_0000_0000 + Wrap64(a);
    WrapMultiple(Wrap64(a) + b, q);
  }

  lemma WrapMultiple(x: nat, q: nat)
    ensures Wrap64(q * 0x1_0000_0000_0000_0000 + x) == Wrap64(x)
  {
  }

  /** The zeros that pad n bytes and the marker byte to 56 modulo 64. */
  function PadCount(n: nat): (k: nat)
    ensures (n + 1 + k) % 64 == 56 && k < 64
  {
    (119 - n % 64) % 64
  }

  lemma PadCases(n: nat)
    ensures var c := n % 64; PadCount(n) == if c > 55 then 119 - c else 55 - c
  {
  }

  /** The low-order byte of a number. */
  function LowByteOf(n: nat): bv8
  {
    (n % 256) as bv8
  }

  /** The number of some bytes, high-order byte first. */
  function BigNumber(b: seq<bv8>): nat
  {
    if b == [] then 0 else 256 * BigNumber(b[..|b| - 1]) + b[|b| - 1] as int
  }

  /** The number of some bytes, low-order byte first. */
  function LittleNumber(b: seq<bv8>): nat
  {
    if b == [] then 0 else b[0] as int + 256 * LittleNumber(b[1..])
  }
}
