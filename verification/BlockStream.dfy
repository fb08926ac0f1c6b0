// A digest that consumes blocks of a fixed size, and the buffer that lets the bytes
// arrive in pieces of any size.
module BlockStream {
  import opened Arith

  type Size = n: nat | n > 0 witness 1

  /** The chaining value after all whole blocks of the data. */
  function Fold<S>(size: Size, compress: (S, seq<bv8>) -> S, s: S, data: seq<bv8>): S
    decreases |data|
  {
    if |data| < size then s else Fold(size, compress, compress(s, data[..size]), data[size..])
  }

  /** So many bytes make whole blocks. */
  predicate Whole(size: Size, k: nat)
    decreases k
  {
    k == 0 || (k >= size && Whole(size, k - size))
  }

  lemma {:induction false} WholeSum(size: Size, k: nat, m: nat)
    requires Whole(size, k) && Whole(size, m)
    ensures Whole(size, k + m)
    decreases k
  {
    if k > 0 {
      WholeSum(size, k - size, m);
    }
  }

  lemma {:induction false} WholeQuotient(size: Size, k: nat) returns (q: nat)
    requires Whole(size, k)
    ensures k == Times(q, size)
    decreases k
  {
    if k == 0 {
      q := 0;
      TimesSigns(1, size);
    } else {
      var p := WholeQuotient(size, k - size);
      q := p + 1;
      TimesAdd(p, 1, size);
      TimesSigns(1, size);
    }
  }

  /** Bytes behind whole blocks that do not make another are the remainder. */
  lemma WholeRemainder(size: Size, k: nat, r: nat)
    requires Whole(size, k) && r < size
    ensures (k + r) % size == r
  {
    var q := WholeQuotient(size, k);
    hide Times;
    DivUnique(k + r, size, q, r);
  }

  lemma {:induction false} FoldAppend<S>(size: Size, compress: (S, seq<bv8>) -> S, s: S, d: seq<bv8>, e: seq<bv8>)
    requires Whole(size, |d|)
    ensures Fold(size, compress, s, d + e) == Fold(size, compress, Fold(size, compress, s, d), e)
    decreases |d|
  {
    if d == [] {
      assert d + e == e;
    } else {
      assert (d + e)[..size] == d[..size] && (d + e)[size..] == d[size..] + e;
      FoldAppend(size, compress, compress(s, d[..size]), d[size..], e);
    }
  }

  lemma FoldBlock<S>(size: Size, compress: (S, seq<bv8>) -> S, s: S, d: seq<bv8>)
    requires |d| == size
    ensures Fold(size, compress, s, d) == compress(s, d)
  {
    assert d[..size] == d && d[size..] == [];
  }

  /** From the start value s0, s has consumed the whole blocks of the stream, and tail is the rest. */
  ghost predicate Holds<S(!new)>(size: Size, compress: (S, seq<bv8>) -> S, s0: S, s: S, tail: seq<bv8>, stream: seq<bv8>)
  {
    |tail| < size && |tail| <= |stream| && Whole(size, |stream| - |tail|)
    && s == Fold(size, compress, s0, stream[..|stream| - |tail|]) && tail == stream[|stream| - |tail|..]
  }

  lemma HoldsStart<S(!new)>(size: Size, compress: (S, seq<bv8>) -> S, s0: S)
    ensures Holds(size, compress, s0, s0, [], [])
  {
  }

  lemma HoldsCount<S(!new)>(size: Size, compress: (S, seq<bv8>) -> S, s0: S, s: S, tail: seq<bv8>, stream: seq<bv8>)
    requires Holds(size, compress, s0, s, tail, stream)
    ensures |tail| == |stream| % size
  {
    hide Fold, Whole;
    WholeRemainder(size, |stream| - |tail|, |tail|);
  }

  lemma HoldsWhole<S(!new)>(size: Size, compress: (S, seq<bv8>) -> S, s0: S, s: S, stream: seq<bv8>)
    requires Holds(size, compress, s0, s, [], stream)
    ensures s == Fold(size, compress, s0, stream)
  {
    hide Fold;
    assert stream[..|stream|] == stream;
  }

  /** More bytes that do not fill the block. */
  lemma HoldsAppend<S(!new)>(size: Size, compress: (S, seq<bv8>) -> S, s0: S, s: S, tail: seq<bv8>, stream: seq<bv8>, more: seq<bv8>)
    requires Holds(size, compress, s0, s, tail, stream) && |tail| + |more| < size
    ensures Holds(size, compress, s0, s, tail + more, stream + more)
  {
    hide Fold, Whole;
    var n, all := |stream| - |tail|, stream + more;
    assert all[..n] == stream[..n] && all[n..] == tail + more;
  }

  /** More bytes up to the end of a block, with which all the blocks are consumed. */
  lemma HoldsBlocks<S(!new)>(size: Size, compress: (S, seq<bv8>) -> S, s0: S, s: S, tail: seq<bv8>, stream: seq<bv8>, more: seq<bv8>)
    requires Holds(size, compress, s0, s, tail, stream) && Whole(size, |tail| + |more|)
    ensures Holds(size, compress, s0, Fold(size, compress, s, tail + more), [], stream + more)
  {
    hide Fold, Whole;
    var n, all, blocks := |stream| - |tail|, stream + more, tail + more;
    assert all == stream[..n] + blocks;
    FoldAppend(size, compress, s0, stream[..n], blocks);
    WholeSum(size, n, |blocks|);
    assert all[..|all|] == all && all[|all|..] == [];
  }

  /** More bytes that just fill the block, which is consumed. */
  lemma HoldsFull<S(!new)>(size: Size, compress: (S, seq<bv8>) -> S, s0: S, s: S, tail: seq<bv8>, stream: seq<bv8>, more: seq<bv8>)
    requires Holds(size, compress, s0, s, tail, stream) && |tail| + |more| == size
    ensures Holds(size, compress, s0, compress(s, tail + more), [], stream + more)
  {
    hide Fold, Holds;
    assert Whole(size, size);
    HoldsBlocks(size, compress, s0, s, tail, stream, more);
    FoldBlock(size, compress, s, tail + more);
  }
}
