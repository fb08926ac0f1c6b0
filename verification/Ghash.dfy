// GaloisHash: GHASH over data that arrives in pieces. The object is verified
// against the one-shot GHASH of section 6.4 of NIST SP 800-38D.
module Ghash {
  import opened BlockStream
  import opened GaloisField
  import opened GaloisMultiply
  import opened Words32

  // ------------------------------------------------------------ words and blocks

  /** Eight bytes as a word, high-order byte first. */
  function Get64(b: seq<bv8>): bv64
    requires |b| == 8
  {
    (b[0] as bv64 << 56) | (b[1] as bv64 << 48) | (b[2] as bv64 << 40) | (b[3] as bv64 << 32)
    | (b[4] as bv64 << 24) | (b[5] as bv64 << 16) | (b[6] as bv64 << 8) | b[7] as bv64
  }

  function LowByte(x: bv64): bv8
  {
    (x & 0xff) as bv8
  }

  /** A word as eight bytes, high-order byte first. */
  function Put64(x: bv64): (b: seq<bv8>)
    ensures |b| == 8
  {
    [LowByte(x >> 56), LowByte(x >> 48), LowByte(x >> 40), LowByte(x >> 32),
     LowByte(x >> 24), LowByte(x >> 16), LowByte(x >> 8), LowByte(x)]
  }

  lemma GetOfPut(x: bv64)
    ensures Get64(Put64(x)) == x
  {
  }

  /** Sixteen bytes as an element. */
  function Block(b: seq<bv8>): FieldElement
    requires |b| == 16
  {
    FieldElement(Get64(b[..8]), Get64(b[8..]))
  }

  // ------------------------------------------------------------ the specification

  /** One block X turns Y into (Y + X) H; data of another size is not a block. */
  function Step(h: FieldElement, y: FieldElement, x: seq<bv8>): FieldElement
  {
    if |x| == 16 then Product(Add(y, Block(x)), h) else y
  }

  function Steps(h: FieldElement): (FieldElement, seq<bv8>) -> FieldElement
  {
    (y, x) => Step(h, y, x)
  }

  /** Y after all whole blocks of the data. */
  function Absorb(h: FieldElement, y: FieldElement, data: seq<bv8>): FieldElement
  {
    Fold(16, Steps(h), y, data)
  }

  /** A length in bits as a word, modulo 2^64. */
  function LengthWord(n: nat): bv64
  {
    Wrap64(n) as bv64
  }

  /** Data padded with zeros to whole blocks. */
  function Padded(data: seq<bv8>): (p: seq<bv8>)
    ensures |p| % 16 == 0
  {
    data + Zeros((16 - |data| % 16) % 16)
  }

  /** The bit lengths of the two inputs, each modulo 2^64. */
  function LengthBlock(a: nat, c: nat): (b: seq<bv8>)
    ensures |b| == 16
  {
    Put64(LengthWord(8 * a)) + Put64(LengthWord(8 * c))
  }

  /** GHASH_H (A || 0^v || C || 0^u || [len(A)]_64 || [len(C)]_64). */
  function Hash(h: FieldElement, a: seq<bv8>, c: seq<bv8>): FieldElement
  {
    hide Absorb, Padded, LengthBlock;
    Absorb(h, ZERO, Padded(a) + Padded(c) + LengthBlock(|a|, |c|))
  }

  lemma AbsorbAppend(h: FieldElement, y: FieldElement, d: seq<bv8>, e: seq<bv8>, n: nat)
    requires |d| == 16 * n
    ensures Absorb(h, y, d + e) == Absorb(h, Absorb(h, y, d), e)
  {
    hide Steps, Fold;
    WholeBlocks(n);
    FoldAppend(16, Steps(h), y, d, e);
  }

  lemma {:induction false} WholeBlocks(n: nat)
    ensures Whole(16, 16 * n)
  {
    if n > 0 {
      WholeBlocks(n - 1);
    }
  }

  lemma AbsorbBlock(h: FieldElement, y: FieldElement, d: seq<bv8>)
    requires |d| == 16
    ensures Absorb(h, y, d) == Product(Add(y, Block(d)), h)
  {
    hide Product, Add, Block, Fold;
    FoldBlock(16, Steps(h), y, d);
  }

  // ------------------------------------------------------------ the buffer

  /** y has absorbed the whole blocks of the stream, and tail is the rest. */
  ghost predicate Held(h: FieldElement, y: FieldElement, tail: seq<bv8>, stream: seq<bv8>)
  {
    BlockStream.Holds(16, Steps(h), ZERO, y, tail, stream)
  }

  lemma HeldStart(h: FieldElement)
    ensures Held(h, ZERO, [], [])
  {
    HoldsStart(16, Steps(h), ZERO);
  }

  lemma HeldCount(h: FieldElement, y: FieldElement, tail: seq<bv8>, stream: seq<bv8>)
    requires Held(h, y, tail, stream)
    ensures |tail| == |stream| % 16
  {
    hide BlockStream.Holds, Steps;
    HoldsCount(16, Steps(h), ZERO, y, tail, stream);
  }

  lemma HeldWhole(h: FieldElement, y: FieldElement, stream: seq<bv8>)
    requires Held(h, y, [], stream)
    ensures y == Absorb(h, ZERO, stream)
  {
    hide BlockStream.Holds, Steps, Fold;
    HoldsWhole(16, Steps(h), ZERO, y, stream);
  }

  /** More bytes stay in the buffer, or fill it and are absorbed with it. */
  lemma HeldAppend(h: FieldElement, y: FieldElement, tail: seq<bv8>, stream: seq<bv8>, more: seq<bv8>)
    requires Held(h, y, tail, stream) && |tail| + |more| <= 16
    ensures |tail| + |more| < 16 ==> Held(h, y, tail + more, stream + more)
    ensures |tail| + |more| == 16 ==> Held(h, Absorb(h, y, tail + more), [], stream + more)
  {
    hide Fold, BlockStream.Holds, Steps;
    if |tail| + |more| < 16 {
      HoldsAppend(16, Steps(h), ZERO, y, tail, stream, more);
    } else {
      HeldBlocks(h, y, tail, stream, more, 1);
    }
  }

  lemma HeldBlocks(h: FieldElement, y: FieldElement, tail: seq<bv8>, stream: seq<bv8>, more: seq<bv8>, k: nat)
    requires Held(h, y, tail, stream) && |tail| + |more| == 16 * k
    ensures Held(h, Absorb(h, y, tail + more), [], stream + more)
  {
    hide Fold, BlockStream.Holds, Steps;
    WholeBlocks(k);
    HoldsBlocks(16, Steps(h), ZERO, y, tail, stream, more);
  }

  lemma Longer(stream: seq<bv8>, data: seq<bv8>, n: nat, k: nat)
    requires n + k <= |data|
    ensures (stream + data[..n]) + data[n..][..k] == stream + data[..n + k]
    ensures n + k == |data| ==> data[n..][..k] == data[n..] && data[..n + k] == data
  {
  }

  // ------------------------------------------------------------ the object

  datatype State = HashingAdditionalData | HashingCiphertext | Complete

  class GaloisHash {
    var y: FieldElement
    var state: State
    var additionalBytes: nat
    var ciphertextBytes: nat
    const buf: array<bv8>
    var bufUsed: nat
    const productTable: array<FieldElement>

    ghost const key: FieldElement
    ghost var additional: seq<bv8>  // all additional data so far
    ghost var ciphertext: seq<bv8>  // all ciphertext so far

    /** The bytes to be absorbed so far, without the padding still to come. */
    ghost function Stream(): seq<bv8>
      reads `state, `additional, `ciphertext
    {
      if state == HashingAdditionalData then additional else Padded(additional) + ciphertext
    }

    ghost predicate Fixed()
      reads `additionalBytes, `ciphertextBytes, `additional, `ciphertext, productTable
    {
      buf as object != productTable && buf.Length == 16 && productTable.Length == 16 && TableUpTo(productTable[..], key, 16)
      && additionalBytes == Wrap64(|additional|)
      && ciphertextBytes == Wrap64(|ciphertext|)
    }

    ghost predicate Valid()
      reads this, buf, productTable
    {
      Fixed() && (state == HashingAdditionalData ==> ciphertext == [])
      && (state != Complete ==> Holds(Stream()))
    }

    constructor (keyBytes: seq<bv8>)
      requires |keyBytes| == 16
      ensures Valid() && fresh(buf) && fresh(productTable)
      ensures key == Block(keyBytes) && state == HashingAdditionalData
      ensures additional == [] && ciphertext == []
    {
      var x := FieldElement(Get64(keyBytes[..8]), Get64(keyBytes[8..]));
      key := x;
      y := ZERO;
      state := HashingAdditionalData;
      additionalBytes, ciphertextBytes, bufUsed := 0, 0, 0;
      additional, ciphertext := [], [];
      buf := new bv8[16];
      productTable := new FieldElement[16];
      new;
      hide TableUpTo, Get64, Held;
      HeldStart(x);
      assert buf[..0] == [];
      FillTable(productTable, x);
    }

    /** The inputs are empty again, and the key is kept. */
    method Reset()
      requires Valid()
      modifies this
      ensures Valid() && state == HashingAdditionalData && additional == [] && ciphertext == []
    {
      hide TableUpTo, Held;
      HeldStart(key);
      assert buf[..0] == [];
      state := HashingAdditionalData;
      additionalBytes, ciphertextBytes, bufUsed := 0, 0, 0;
      y := ZERO;
      additional, ciphertext := [], [];
    }

    /** One round of the loop of UpdateBlocks. */
    method UpdateBlock(bytes: seq<bv8>)
      requires Fixed() && |bytes| == 16
      modifies `y
      ensures y == Product(Add(old(y), Block(bytes)), key)
    {
      hide Product, Block, Add, TableUpTo, Get64, Xor;
      AddIsXor(y, bytes);
      y := y.(low := Xor(y.low, Get64(bytes[..8])));
      y := y.(hi := Xor(y.hi, Get64(bytes[8..])));
      y := MulAfterPrecomputation(productTable, y, key);
    }

    /** Absorbs numBlocks whole blocks. */
    method UpdateBlocks(bytes: seq<bv8>, numBlocks: nat)
      requires Fixed() && 16 * numBlocks <= |bytes|
      modifies `y
      ensures y == Absorb(key, old(y), bytes[..16 * numBlocks])
    {
      hide Product, Block, Add, TableUpTo, Absorb;
      AbsorbNone(key, y);
      for i := 0 to numBlocks
        invariant y == Absorb(key, old(y), bytes[..16 * i])
      {
        ghost var b, y0 := bytes[16 * i..16 * i + 16], y;
        UpdateBlock(bytes[16 * i..16 * i + 16]);
        assert bytes[..16 * (i + 1)] == bytes[..16 * i] + b;
        AbsorbAppend(key, old(y), bytes[..16 * i], b, i);
        AbsorbBlock(key, y0, b);
      }
    }

    /** The data so far are the given stream: y has absorbed its whole blocks, buf holds the rest. */
    ghost predicate Holds(stream: seq<bv8>)
      reads `y, `bufUsed, buf
    {
      buf.Length == 16 && bufUsed < 16 && Held(key, y, buf[..bufUsed], stream)
    }

    /** memcpy into the buffer at bufUsed, and what Update does with a full buffer. */
    method Append(data: seq<bv8>, ghost stream: seq<bv8>)
      requires Fixed() && Holds(stream) && bufUsed + |data| <= 16
      modifies `y, `bufUsed, buf
      ensures Fixed() && Holds(stream + data)
      ensures bufUsed == if old(bufUsed) + |data| == 16 then 0 else old(bufUsed) + |data|
    {
      FixedShape();
      hide Fixed, Absorb, Held;
      ghost var tail := buf[..bufUsed];
      ghost var filled := tail + data;
      HeldAppend(key, y, tail, stream, data);
      CopyIn(data);
      bufUsed := bufUsed + |data|;
      assert buf[..bufUsed] == filled;
      if bufUsed == 16 {
        FlushBuffer();
        assert buf[..0] == [];
      }
    }

    /** Update's part for a full buffer. */
    method FlushBuffer()
      requires Fixed() && bufUsed == buf.Length == 16
      modifies `y, `bufUsed
      ensures Fixed() && y == Absorb(key, old(y), buf[..16]) && bufUsed == 0
    {
      hide Absorb, TableUpTo;
      assert buf[..16] == buf[..] && buf[..][..16] == buf[..];
      UpdateBlocks(buf[..], 1);
      bufUsed := 0;
    }

    /** The second part of Update: absorbs n whole blocks straight from the data. */
    method AppendBlocks(data: seq<bv8>, n: nat, ghost stream: seq<bv8>)
      requires Fixed() && Holds(stream) && bufUsed == 0 && 16 * n <= |data|
      modifies `y
      ensures Fixed() && Holds(stream + data[..16 * n])
    {
      FixedShape();
      hide Fixed, Absorb, Held;
      assert buf[..0] == [];
      assert [] + data[..16 * n] == data[..16 * n];
      HeldBlocks(key, y, [], stream, data[..16 * n], n);
      UpdateBlocks(data, n);
    }

    /** The first part of Update: tops up a buffer that is in use. */
    method TopUp(data: seq<bv8>, ghost stream: seq<bv8>) returns (n: nat)
      requires Fixed() && Holds(stream)
      modifies `y, `bufUsed, buf
      ensures n <= |data| && Fixed() && Holds(stream + data[..n])
      ensures n < |data| ==> bufUsed == 0
    {
      HoldsRange(stream);
      hide *;
      n := 0;
      assert stream + data[..0] == stream;
      if bufUsed > 0 {
        n := if |data| < 16 - bufUsed then |data| else 16 - bufUsed;
        Append(data[..n], stream);
      }
    }

    /** Absorbs what it can and keeps the rest in the buffer. */
    method Update(data: seq<bv8>, ghost stream: seq<bv8>)
      requires Fixed() && Holds(stream)
      modifies `y, `bufUsed, buf
      ensures Fixed() && Holds(stream + data)
    {
      hide *;
      var n := TopUp(data, stream);
      Longer(stream, data, n, |data| - n);
      if |data| - n > 0 {
        UpdateRest(data[n..], stream + data[..n]);
      }
    }

    /** The second and third part of Update, with an empty buffer. */
    method UpdateRest(data: seq<bv8>, ghost stream: seq<bv8>)
      requires Fixed() && Holds(stream) && bufUsed == 0
      modifies `y, `bufUsed, buf
      ensures Fixed() && Holds(stream + data)
    {
      hide *;
      var k := |data| / 16;
      var n := 16 * k;
      if |data| >= 16 {
        AppendBlocks(data, k, stream);
      } else {
        assert stream + data[..0] == stream;
      }
      Longer(stream, data, n, |data| - n);
      if |data| > n {
        Append(data[n..], stream + data[..n]);
      }
    }

    lemma HoldsRange(stream: seq<bv8>)
      requires Holds(stream)
      ensures bufUsed < 16
    {
    }

    /** The additional data grows by a piece; this is not allowed once ciphertext has come. */
    method UpdateAdditional(data: seq<bv8>)
      requires Valid() && state == HashingAdditionalData
      modifies this, buf
      ensures Valid() && state == HashingAdditionalData
      ensures additional == old(additional) + data && ciphertext == []
    {
      hide TableUpTo, Absorb, Held;
      ghost var s := Stream();
      WrapSum(|additional|, |data|);
      additionalBytes := Wrap64(additionalBytes + |data|);
      additional := additional + data;
      Update(data, s);
    }

    lemma FixedShape()
      requires Fixed()
      ensures buf as object != productTable && buf.Length == 16 && productTable.Length == 16
    {
    }

    /** The zero padding that ends the additional data, or the ciphertext. */
    method PadBlock(ghost stream: seq<bv8>)
      requires Fixed() && Holds(stream)
      modifies `y, `bufUsed, buf
      ensures Fixed() && Holds(Padded(stream)) && bufUsed == 0
    {
      hide *;
      PadFacts(stream);
      if bufUsed > 0 {
        Append(Zeros(16 - bufUsed), stream);
      }
    }

    lemma PadFacts(stream: seq<bv8>)
      requires Holds(stream)
      ensures bufUsed < 16
      ensures Padded(stream) == if bufUsed > 0 then stream + Zeros(16 - bufUsed) else stream
    {
      hide Padded, Zeros, Held;
      PaddedIs(stream);
      HeldCount(key, y, buf[..bufUsed], stream);
    }

    method UpdateCiphertext(data: seq<bv8>)
      requires Valid() && state != Complete
      modifies this, buf
      ensures Valid() && state == HashingCiphertext
      ensures additional == old(additional) && ciphertext == old(ciphertext) + data
    {
      hide TableUpTo, Holds, Padded;
      ghost var s := Stream();
      if state == HashingAdditionalData {
        PadBlock(s);
        s := Padded(additional);
        state := HashingCiphertext;
        assert s + [] == s;
      }
      WrapSum(|ciphertext|, |data|);
      ciphertextBytes := Wrap64(ciphertextBytes + |data|);
      ciphertext := ciphertext + data;
      Update(data, s);
      assert s + data == Padded(additional) + ciphertext;
    }

    /** The first part of Finish: pads the rest. */
    method Close()
      requires Valid() && state != Complete
      modifies this, buf
      ensures Valid() && state == Complete
      ensures additional == old(additional) && ciphertext == old(ciphertext)
      ensures y == Absorb(key, ZERO, Padded(additional) + Padded(ciphertext))
    {
      hide Fixed, Holds, Padded, Absorb;
      ghost var s := Stream();
      PadBlock(s);
      AllAbsorbed(s);
      StreamPadded(additional, ciphertext, state == HashingAdditionalData);
      state := Complete;
    }

    /** The second part of Finish: the lengths make the last block. */
    method FoldLengths()
      requires Fixed() && y == Absorb(key, ZERO, Padded(additional) + Padded(ciphertext))
      modifies `y
      ensures Fixed() && y == Hash(key, additional, ciphertext)
    {
      hide TableUpTo, Padded, Product, Add, Hash, Absorb, Block, LengthBlock, Xor, Wrap64, LengthWord;
      LastBlock(key, additional, ciphertext, y);
      y := FieldElement(Xor(y.low, LengthWord(additionalBytes * 8)), Xor(y.hi, LengthWord(ciphertextBytes * 8)));
      y := MulAfterPrecomputation(productTable, y, key);
    }

    lemma AllAbsorbed(s: seq<bv8>)
      requires Holds(Padded(s)) && bufUsed == 0
      ensures y == Absorb(key, ZERO, Padded(s))
    {
      hide Held, Padded, Absorb;
      assert buf[..0] == [];
      HeldWhole(key, y, Padded(s));
    }

    /** Writes the first len bytes of the tag, at most sixteen, over the output. */
    method Finish(output: array<bv8>, len: nat)
      requires Valid() && state != Complete
      requires output as object !in {buf as object, productTable}
      requires output.Length >= if len < 16 then len else 16
      modifies this, buf, output
      ensures Valid() && state == Complete
      ensures additional == old(additional) && ciphertext == old(ciphertext)
      ensures var n := if len < 16 then len else 16;
              output[..n] == TagBytes(Hash(key, additional, ciphertext))[..n] && output[n..] == old(output[n..])
    {
      hide Fixed, Holds, Hash, Padded, Absorb, TagBytes;
      Close();
      FoldLengths();
      var n := if len < 16 then len else 16;
      CopyOut(output, n);
    }

    method CopyOut(output: array<bv8>, n: nat)
      requires n <= 16 && n <= output.Length
      modifies output
      ensures output[..n] == TagBytes(y)[..n] && output[n..] == old(output[n..])
    {
      hide TagBytes;
      var result := TagBytes(y);
      for i := 0 to n
        invariant output[..i] == result[..i] && output[n..] == old(output[n..])
      {
        output[i] := result[i];
      }
    }

    /** memcpy into the buffer at bufUsed. */
    method CopyIn(data: seq<bv8>)
      requires buf.Length == 16 && bufUsed + |data| <= 16
      modifies buf
      ensures buf[..bufUsed + |data|] == old(buf[..bufUsed]) + data
    {
      for i := 0 to |data|
        invariant buf[..bufUsed + i] == old(buf[..bufUsed]) + data[..i]
      {
        buf[bufUsed + i] := data[i];
      }
    }
  }

  lemma AbsorbNone(h: FieldElement, y: FieldElement)
    ensures Absorb(h, y, []) == y
  {
  }

  lemma AddIsXor(y: FieldElement, b: seq<bv8>)
    requires |b| == 16
    ensures Add(y, Block(b)) == FieldElement(Xor(y.low, Get64(b[..8])), Xor(y.hi, Get64(b[8..])))
  {
    hide Get64, Xor;
  }

  /** The tag as the sixteen bytes of its two words. */
  function TagBytes(y: FieldElement): (b: seq<bv8>)
    ensures |b| == 16
  {
    Put64(y.low) + Put64(y.hi)
  }

  lemma PaddedIs(stream: seq<bv8>)
    ensures |stream| % 16 == 0 ==> Padded(stream) == stream
    ensures |stream| % 16 != 0 ==> Padded(stream) == stream + Zeros(16 - |stream| % 16)
  {
    hide Zeros;
    assert Zeros(0) == [];
  }

  /** Padding the whole stream pads each of its two parts. */
  lemma StreamPadded(a: seq<bv8>, c: seq<bv8>, onlyAdditional: bool)
    requires onlyAdditional ==> c == []
    ensures Padded(if onlyAdditional then a else Padded(a) + c) == Padded(a) + Padded(c)
  {
    hide Zeros;
    assert Zeros(0) == [];
    if onlyAdditional {
      assert Padded(a) + Padded(c) == Padded(a);
    } else {
      assert |Padded(a) + c| % 16 == |c| % 16;
    }
  }

  /** Folding the two lengths in is adding the length block. */
  lemma LengthsAreBlock(y: FieldElement, a: nat, c: nat)
    ensures Add(y, Block(LengthBlock(a, c)))
         == FieldElement(Xor(y.low, LengthWord(Wrap64(a) * 8)), Xor(y.hi, LengthWord(Wrap64(c) * 8)))
  {
    WrapTimes8(a);
    WrapTimes8(c);
    hide Put64, Get64, Xor, Wrap64, Block, LengthWord;
    BlockOfWords(LengthWord(8 * a), LengthWord(8 * c));
  }

  lemma BlockOfWords(low: bv64, hi: bv64)
    ensures Block(Put64(low) + Put64(hi)) == FieldElement(low, hi)
  {
    GetOfPut(low);
    GetOfPut(hi);
    hide Put64, Get64;
    var b := Put64(low) + Put64(hi);
    assert b[..8] == Put64(low) && b[8..] == Put64(hi);
  }

  lemma WrapTimes8(a: nat)
    ensures LengthWord(Wrap64(a) * 8) == LengthWord(8 * a)
  {
    WrapProduct(a);
    hide Wrap64;
  }

  lemma WrapProduct(a: nat)
    ensures Wrap64(Wrap64(a) * 8) == Wrap64(8 * a)
  {
  }

  lemma LastBlock(h: FieldElement, a: seq<bv8>, c: seq<bv8>, y: FieldElement)
    requires y == Absorb(h, ZERO, Padded(a) + Padded(c))
    ensures Hash(h, a, c) == Product(FieldElement(Xor(y.low, LengthWord(Wrap64(|a|) * 8)),
                                                  Xor(y.hi, LengthWord(Wrap64(|c|) * 8))), h)
  {
    hide *;
    LengthsAreBlock(y, |a|, |c|);
    HashEnd(h, a, c, y);
  }

  lemma HashEnd(h: FieldElement, a: seq<bv8>, c: seq<bv8>, y: FieldElement)
    requires y == Absorb(h, ZERO, Padded(a) + Padded(c))
    ensures Hash(h, a, c) == Product(Add(y, Block(LengthBlock(|a|, |c|))), h)
  {
    hide Absorb, Product, Add, Block, LengthBlock, Padded;
    var d, b := Padded(a) + Padded(c), LengthBlock(|a|, |c|);
    AbsorbAppend(h, ZERO, d, b, |d| / 16);
    AbsorbBlock(h, y, b);
  }

  // ------------------------------------------------------------ every split

  /** However the two inputs are cut into pieces, empty ones included, the tag is the
      one-shot GHASH of their concatenations. */
  method HashPieces(keyBytes: seq<bv8>, a: seq<seq<bv8>>, c: seq<seq<bv8>>, len: nat)
    returns (tag: seq<bv8>)
    requires |keyBytes| == 16
    ensures tag == TagBytes(Hash(Block(keyBytes), Concat(a), Concat(c)))[..if len < 16 then len else 16]
  {
    hide Hash, Block, TagBytes, Concat;
    NoPieces();
    var g := new GaloisHash(keyBytes);
    for i := 0 to |a|
      invariant g.Valid() && fresh(g) && fresh(g.buf) && g.state == HashingAdditionalData
      invariant g.additional == Concat(a[..i]) && g.ciphertext == [] && g.key == Block(keyBytes)
    {
      g.UpdateAdditional(a[i]);
      ConcatNext(a, i);
    }
    assert a[..|a|] == a;
    for i := 0 to |c|
      invariant g.Valid() && g.state != Complete && fresh(g) && fresh(g.buf)
      invariant g.additional == Concat(a) && g.ciphertext == Concat(c[..i]) && g.key == Block(keyBytes)
    {
      g.UpdateCiphertext(c[i]);
      ConcatNext(c, i);
    }
    assert c[..|c|] == c;
    var output := new bv8[16];
    g.Finish(output, len);
    tag := output[..if len < 16 then len else 16];
  }
}
