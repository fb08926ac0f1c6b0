// The MD5 compression function: section 3.4 of RFC 1321 as a table-driven loop,
// and the source's unrolled form.
module Md5Transform {
  import opened WordLaws
  import opened Words32

  /** The four-word chaining value. */
  datatype Chain = Chain(a: bv32, b: bv32, c: bv32, d: bv32)

  // -------------------------------------------------- RFC 1321, section 3.4

  function F(x: bv32, y: bv32, z: bv32): bv32 { (x & y) | (!x & z) }

  function G(x: bv32, y: bv32, z: bv32): bv32 { (x & z) | (y & !z) }

  function H(x: bv32, y: bv32, z: bv32): bv32 { x ^ y ^ z }

  function I(x: bv32, y: bv32, z: bv32): bv32 { y ^ (x | !z) }

  /** The auxiliary function of step i. */
  function Auxiliary(i: nat, x: bv32, y: bv32, z: bv32): bv32
  {
    if i < 16 then F(x, y, z) else if i < 32 then G(x, y, z) else if i < 48 then H(x, y, z) else I(x, y, z)
  }

  /** The word of the block that step i uses. */
  function WordIndex(i: nat): (k: nat)
    ensures k < 16
  {
    if i < 16 then i else if i < 32 then (5 * i + 1) % 16 else if i < 48 then (3 * i + 5) % 16 else 7 * i % 16
  }

  /** The rotation of step i. */
  function Amount(i: nat): (s: nat)
    ensures 0 < s < 32
  {
    if i < 16 then [7, 12, 17, 22][i % 4]
    else if i < 32 then [5, 9, 14, 20][i % 4]
    else if i < 48 then [4, 11, 16, 23][i % 4]
    else [6, 10, 15, 21][i % 4]
  }

  const T1: seq<bv32> := [
    0xd76aa478, 0xe8c7b756, 0x242070db, 0xc1bdceee,
    0xf57c0faf, 0x4787c62a, 0xa8304613, 0xfd469501,
    0x698098d8, 0x8b44f7af, 0xffff5bb1, 0x895cd7be,
    0x6b901122, 0xfd987193, 0xa679438e, 0x49b40821]

  const T2: seq<bv32> := [
    0xf61e2562, 0xc040b340, 0x265e5a51, 0xe9b6c7aa,
    0xd62f105d, 0x02441453, 0xd8a1e681, 0xe7d3fbc8,
    0x21e1cde6, 0xc33707d6, 0xf4d50d87, 0x455a14ed,
    0xa9e3e905, 0xfcefa3f8, 0x676f02d9, 0x8d2a4c8a]

  const T3: seq<bv32> := [
    0xfffa3942, 0x8771f681, 0x6d9d6122, 0xfde5380c,
    0xa4beea44, 0x4bdecfa9, 0xf6bb4b60, 0xbebfbc70,
    0x289b7ec6, 0xeaa127fa, 0xd4ef3085, 0x04881d05,
    0xd9d4d039, 0xe6db99e5, 0x1fa27cf8, 0xc4ac5665]

  const T4: seq<bv32> := [
    0xf4292244, 0x432aff97, 0xab9423a7, 0xfc93a039,
    0x655b59c3, 0x8f0ccc92, 0xffeff47d, 0x85845dd1,
    0x6fa87e4f, 0xfe2ce6e0, 0xa3014314, 0x4e0811a1,
    0xf7537e82, 0xbd3af235, 0x2ad7d2bb, 0xeb86d391]

  /** The constant of step i. */
  function Constant(i: nat): bv32
    requires i < 64
  {
    if i < 16 then T1[i] else if i < 32 then T2[i - 16] else if i < 48 then T3[i - 32] else T4[i - 48]
  }

  /** a = b + ((a + f(b, c, d) + X[k] + T[i]) <<< s), and the registers move on by one. */
  function Step(q: Chain, x: seq<bv32>, i: nat): Chain
    requires |x| == 16 && i < 64
  {
    var sum := Plus(Plus(Plus(q.a, Auxiliary(i, q.b, q.c, q.d)), x[WordIndex(i)]), Constant(i));
    Chain(q.d, Plus(q.b, RotateLeft(sum, Amount(i))), q.b, q.c)
  }

  function Steps(q: Chain, x: seq<bv32>, n: nat): Chain
    requires |x| == 16 && n <= 64
  {
    if n == 0 then q else Step(Steps(q, x, n - 1), x, n - 1)
  }

  /** The whole compression: 64 steps, added to the chaining value. */
  function Transform(q: Chain, x: seq<bv32>): Chain
    requires |x| == 16
  {
    var r := Steps(q, x, 64);
    Chain(Plus(q.a, r.a), Plus(q.b, r.b), Plus(q.c, r.c), Plus(q.d, r.d))
  }

  // -------------------------------------------------- the source

  function F1(x: bv32, y: bv32, z: bv32): bv32 { z ^ (x & (y ^ z)) }

  function F2(x: bv32, y: bv32, z: bv32): bv32 { F1(z, x, y) }

  function F3(x: bv32, y: bv32, z: bv32): bv32 { x ^ y ^ z }

  function F4(x: bv32, y: bv32, z: bv32): bv32 { y ^ (x | !z) }

  /** The macro MD5STEP with the value of f already computed: the new w. */
  function StepWord(f: bv32, w: bv32, x: bv32, data: bv32, s: nat): bv32
    requires 0 < s < 32
  {
    Plus(RotateLeft(Plus(w, Plus(f, data)), s), x)
  }

  /** The optimized forms of F and G. */
  lemma OptimizedForms(x: bv32, y: bv32, z: bv32)
    ensures F1(x, y, z) == F(x, y, z) && F2(x, y, z) == G(x, y, z)
  {
    SelectForm(x, y, z);
    SelectForm(z, x, y);
    SwapForm(x, y, z);
  }

  lemma OtherForms(x: bv32, y: bv32, z: bv32)
    ensures F3(x, y, z) == H(x, y, z) && F4(x, y, z) == I(x, y, z)
  {
  }

  lemma SelectForm(x: bv32, y: bv32, z: bv32)
    ensures z ^ (x & (y ^ z)) == (x & y) | (!x & z)
  {
  }

  lemma SwapForm(x: bv32, y: bv32, z: bv32)
    ensures (z & x) | (!z & y) == (x & z) | (y & !z)
  {
  }

  lemma AddForm(w: bv32, f: bv32, k: bv32, t: bv32, x: bv32, r: bv32)
    ensures Plus(w, Plus(f, Plus(k, t))) == Plus(Plus(Plus(w, f), k), t) && Plus(r, x) == Plus(x, r)
  {
    hide Plus;
    PlusLaws(Plus(w, f), k, t);
    PlusLaws(w, f, Plus(k, t));
    PlusLaws(r, x, x);
  }

  function Moved1(q: Chain, data: bv32, s: nat): Chain
    requires 0 < s < 32
  {
    Chain(q.d, StepWord(F1(q.b, q.c, q.d), q.a, q.b, data, s), q.b, q.c)
  }

  function Moved2(q: Chain, data: bv32, s: nat): Chain
    requires 0 < s < 32
  {
    Chain(q.d, StepWord(F2(q.b, q.c, q.d), q.a, q.b, data, s), q.b, q.c)
  }

  function Moved3(q: Chain, data: bv32, s: nat): Chain
    requires 0 < s < 32
  {
    Chain(q.d, StepWord(F3(q.b, q.c, q.d), q.a, q.b, data, s), q.b, q.c)
  }

  function Moved4(q: Chain, data: bv32, s: nat): Chain
    requires 0 < s < 32
  {
    Chain(q.d, StepWord(F4(q.b, q.c, q.d), q.a, q.b, data, s), q.b, q.c)
  }

  lemma StepRound1(q0: Chain, x: seq<bv32>, i: nat)
    requires |x| == 16 && 0 <= i < 16
    ensures Steps(q0, x, i + 1) == Moved1(Steps(q0, x, i), Plus(x[WordIndex(i)], Constant(i)), Amount(i))
  {
    var q := Steps(q0, x, i);
    OptimizedForms(q.b, q.c, q.d);
    OtherForms(q.b, q.c, q.d);
    hide F, G, H, I, F1, F2, F3, F4, Plus, RotateLeft, Constant, Amount, WordIndex;
    var f, k, t := Auxiliary(i, q.b, q.c, q.d), x[WordIndex(i)], Constant(i);
    AddForm(q.a, f, k, t, q.b, RotateLeft(Plus(Plus(Plus(q.a, f), k), t), Amount(i)));
  }

  lemma StepRound2(q0: Chain, x: seq<bv32>, i: nat)
    requires |x| == 16 && 16 <= i < 32
    ensures Steps(q0, x, i + 1) == Moved2(Steps(q0, x, i), Plus(x[WordIndex(i)], Constant(i)), Amount(i))
  {
    var q := Steps(q0, x, i);
    OptimizedForms(q.b, q.c, q.d);
    OtherForms(q.b, q.c, q.d);
    hide F, G, H, I, F1, F2, F3, F4, Plus, RotateLeft, Constant, Amount, WordIndex;
    var f, k, t := Auxiliary(i, q.b, q.c, q.d), x[WordIndex(i)], Constant(i);
    AddForm(q.a, f, k, t, q.b, RotateLeft(Plus(Plus(Plus(q.a, f), k), t), Amount(i)));
  }

  lemma StepRound3(q0: Chain, x: seq<bv32>, i: nat)
    requires |x| == 16 && 32 <= i < 48
    ensures Steps(q0, x, i + 1) == Moved3(Steps(q0, x, i), Plus(x[WordIndex(i)], Constant(i)), Amount(i))
  {
    var q := Steps(q0, x, i);
    OptimizedForms(q.b, q.c, q.d);
    OtherForms(q.b, q.c, q.d);
    hide F, G, H, I, F1, F2, F3, F4, Plus, RotateLeft, Constant, Amount, WordIndex;
    var f, k, t := Auxiliary(i, q.b, q.c, q.d), x[WordIndex(i)], Constant(i);
    AddForm(q.a, f, k, t, q.b, RotateLeft(Plus(Plus(Plus(q.a, f), k), t), Amount(i)));
  }

  lemma StepRound4(q0: Chain, x: seq<bv32>, i: nat)
    requires |x| == 16 && 48 <= i < 64
    ensures Steps(q0, x, i + 1) == Moved4(Steps(q0, x, i), Plus(x[WordIndex(i)], Constant(i)), Amount(i))
  {
    var q := Steps(q0, x, i);
    OptimizedForms(q.b, q.c, q.d);
    OtherForms(q.b, q.c, q.d);
    hide F, G, H, I, F1, F2, F3, F4, Plus, RotateLeft, Constant, Amount, WordIndex;
    var f, k, t := Auxiliary(i, q.b, q.c, q.d), x[WordIndex(i)], Constant(i);
    AddForm(q.a, f, k, t, q.b, RotateLeft(Plus(Plus(Plus(q.a, f), k), t), Amount(i)));
  }

  lemma Tables1Low()
    ensures Constant(0) == 0xd76aa478 && WordIndex(0) == 0 && Amount(0) == 7
    ensures Constant(1) == 0xe8c7b756 && WordIndex(1) == 1 && Amount(1) == 12
    ensures Constant(2) == 0x242070db && WordIndex(2) == 2 && Amount(2) == 17
    ensures Constant(3) == 0xc1bdceee && WordIndex(3) == 3 && Amount(3) == 22
    ensures Constant(4) == 0xf57c0faf && WordIndex(4) == 4 && Amount(4) == 7
    ensures Constant(5) == 0x4787c62a && WordIndex(5) == 5 && Amount(5) == 12
    ensures Constant(6) == 0xa8304613 && WordIndex(6) == 6 && Amount(6) == 17
    ensures Constant(7) == 0xfd469501 && WordIndex(7) == 7 && Amount(7) == 22
  {
  }

  lemma Tables1High()
    ensures Constant(8) == 0x698098d8 && WordIndex(8) == 8 && Amount(8) == 7
    ensures Constant(9) == 0x8b44f7af && WordIndex(9) == 9 && Amount(9) == 12
    ensures Constant(10) == 0xffff5bb1 && WordIndex(10) == 10 && Amount(10) == 17
    ensures Constant(11) == 0x895cd7be && WordIndex(11) == 11 && Amount(11) == 22
    ensures Constant(12) == 0x6b901122 && WordIndex(12) == 12 && Amount(12) == 7
    ensures Constant(13) == 0xfd987193 && WordIndex(13) == 13 && Amount(13) == 12
    ensures Constant(14) == 0xa679438e && WordIndex(14) == 14 && Amount(14) == 17
    ensures Constant(15) == 0x49b40821 && WordIndex(15) == 15 && Amount(15) == 22
  {
  }

  lemma Tables2Low()
    ensures Constant(16) == 0xf61e2562 && WordIndex(16) == 1 && Amount(16) == 5
    ensures Constant(17) == 0xc040b340 && WordIndex(17) == 6 && Amount(17) == 9
    ensures Constant(18) == 0x265e5a51 && WordIndex(18) == 11 && Amount(18) == 14
    ensures Constant(19) == 0xe9b6c7aa && WordIndex(19) == 0 && Amount(19) == 20
    ensures Constant(20) == 0xd62f105d && WordIndex(20) == 5 && Amount(20) == 5
    ensures Constant(21) == 0x02441453 && WordIndex(21) == 10 && Amount(21) == 9
    ensures Constant(22) == 0xd8a1e681 && WordIndex(22) == 15 && Amount(22) == 14
    ensures Constant(23) == 0xe7d3fbc8 && WordIndex(23) == 4 && Amount(23) == 20
  {
  }

  lemma Tables2High()
    ensures Constant(24) == 0x21e1cde6 && WordIndex(24) == 9 && Amount(24) == 5
    ensures Constant(25) == 0xc33707d6 && WordIndex(25) == 14 && Amount(25) == 9
    ensures Constant(26) == 0xf4d50d87 && WordIndex(26) == 3 && Amount(26) == 14
    ensures Constant(27) == 0x455a14ed && WordIndex(27) == 8 && Amount(27) == 20
    ensures Constant(28) == 0xa9e3e905 && WordIndex(28) == 13 && Amount(28) == 5
    ensures Constant(29) == 0xfcefa3f8 && WordIndex(29) == 2 && Amount(29) == 9
    ensures Constant(30) == 0x676f02d9 && WordIndex(30) == 7 && Amount(30) == 14
    ensures Constant(31) == 0x8d2a4c8a && WordIndex(31) == 12 && Amount(31) == 20
  {
  }

  lemma Tables3Low()
    ensures Constant(32) == 0xfffa3942 && WordIndex(32) == 5 && Amount(32) == 4
    ensures Constant(33) == 0x8771f681 && WordIndex(33) == 8 && Amount(33) == 11
    ensures Constant(34) == 0x6d9d6122 && WordIndex(34) == 11 && Amount(34) == 16
    ensures Constant(35) == 0xfde5380c && WordIndex(35) == 14 && Amount(35) == 23
    ensures Constant(36) == 0xa4beea44 && WordIndex(36) == 1 && Amount(36) == 4
    ensures Constant(37) == 0x4bdecfa9 && WordIndex(37) == 4 && Amount(37) == 11
    ensures Constant(38) == 0xf6bb4b60 && WordIndex(38) == 7 && Amount(38) == 16
    ensures Constant(39) == 0xbebfbc70 && WordIndex(39) == 10 && Amount(39) == 23
  {
  }

  lemma Tables3High()
    ensures Constant(40) == 0x289b7ec6 && WordIndex(40) == 13 && Amount(40) == 4
    ensures Constant(41) == 0xeaa127fa && WordIndex(41) == 0 && Amount(41) == 11
    ensures Constant(42) == 0xd4ef3085 && WordIndex(42) == 3 && Amount(42) == 16
    ensures Constant(43) == 0x04881d05 && WordIndex(43) == 6 && Amount(43) == 23
    ensures Constant(44) == 0xd9d4d039 && WordIndex(44) == 9 && Amount(44) == 4
    ensures Constant(45) == 0xe6db99e5 && WordIndex(45) == 12 && Amount(45) == 11
    ensures Constant(46) == 0x1fa27cf8 && WordIndex(46) == 15 && Amount(46) == 16
    ensures Constant(47) == 0xc4ac5665 && WordIndex(47) == 2 && Amount(47) == 23
  {
  }

  lemma Tables4Low()
    ensures Constant(48) == 0xf4292244 && WordIndex(48) == 0 && Amount(48) == 6
    ensures Constant(49) == 0x432aff97 && WordIndex(49) == 7 && Amount(49) == 10
    ensures Constant(50) == 0xab9423a7 && WordIndex(50) == 14 && Amount(50) == 15
    ensures Constant(51) == 0xfc93a039 && WordIndex(51) == 5 && Amount(51) == 21
    ensures Constant(52) == 0x655b59c3 && WordIndex(52) == 12 && Amount(52) == 6
    ensures Constant(53) == 0x8f0ccc92 && WordIndex(53) == 3 && Amount(53) == 10
    ensures Constant(54) == 0xffeff47d && WordIndex(54) == 10 && Amount(54) == 15
    ensures Constant(55) == 0x85845dd1 && WordIndex(55) == 1 && Amount(55) == 21
  {
  }

  lemma Tables4High()
    ensures Constant(56) == 0x6fa87e4f && WordIndex(56) == 8 && Amount(56) == 6
    ensures Constant(57) == 0xfe2ce6e0 && WordIndex(57) == 15 && Amount(57) == 10
    ensures Constant(58) == 0xa3014314 && WordIndex(58) == 6 && Amount(58) == 15
    ensures Constant(59) == 0x4e0811a1 && WordIndex(59) == 13 && Amount(59) == 21
    ensures Constant(60) == 0xf7537e82 && WordIndex(60) == 4 && Amount(60) == 6
    ensures Constant(61) == 0xbd3af235 && WordIndex(61) == 11 && Amount(61) == 10
    ensures Constant(62) == 0x2ad7d2bb && WordIndex(62) == 2 && Amount(62) == 15
    ensures Constant(63) == 0xeb86d391 && WordIndex(63) == 9 && Amount(63) == 21
  {
  }

  lemma MovedIs1()
    ensures forall a, b, c, d, data, s :: 0 < s < 32 ==>
        Moved1(Chain(a, b, c, d), data, s) == Chain(d, StepWord(F1(b, c, d), a, b, data, s), b, c)
  {
    hide F1, StepWord;
  }

  lemma MovedIs2()
    ensures forall a, b, c, d, data, s :: 0 < s < 32 ==>
        Moved2(Chain(a, b, c, d), data, s) == Chain(d, StepWord(F2(b, c, d), a, b, data, s), b, c)
  {
    hide F2, StepWord;
  }

  lemma MovedIs3()
    ensures forall a, b, c, d, data, s :: 0 < s < 32 ==>
        Moved3(Chain(a, b, c, d), data, s) == Chain(d, StepWord(F3(b, c, d), a, b, data, s), b, c)
  {
    hide F3, StepWord;
  }

  lemma MovedIs4()
    ensures forall a, b, c, d, data, s :: 0 < s < 32 ==>
        Moved4(Chain(a, b, c, d), data, s) == Chain(d, StepWord(F4(b, c, d), a, b, data, s), b, c)
  {
    hide F4, StepWord;
  }

  /** Round 1 of MD5Transform. */
  method Round1(in1: seq<bv32>, a0: bv32, b0: bv32, c0: bv32, d0: bv32, ghost q: Chain)
    returns (a: bv32, b: bv32, c: bv32, d: bv32)
    requires |in1| == 16 && Chain(a0, b0, c0, d0) == Steps(q, in1, 0)
    ensures Chain(a, b, c, d) == Steps(q, in1, 16)
  {
    hide *;
    Tables1Low();
    Tables1High();
    MovedIs1();
    a, b, c, d := a0, b0, c0, d0;
    StepRound1(q, in1, 0);
    a := StepWord(F1(b, c, d), a, b, Plus(in1[0], 0xd76aa478), 7);
    StepRound1(q, in1, 1);
    d := StepWord(F1(a, b, c), d, a, Plus(in1[1], 0xe8c7b756), 12);
    StepRound1(q, in1, 2);
    c := StepWord(F1(d, a, b), c, d, Plus(in1[2], 0x242070db), 17);
    StepRound1(q, in1, 3);
    b := StepWord(F1(c, d, a), b, c, Plus(in1[3], 0xc1bdceee), 22);
    assert Chain(a, b, c, d) == Steps(q, in1, 4);
    StepRound1(q, in1, 4);
    a := StepWord(F1(b, c, d), a, b, Plus(in1[4], 0xf57c0faf), 7);
    StepRound1(q, in1, 5);
    d := StepWord(F1(a, b, c), d, a, Plus(in1[5], 0x4787c62a), 12);
    StepRound1(q, in1, 6);
    c := StepWord(F1(d, a, b), c, d, Plus(in1[6], 0xa8304613), 17);
    StepRound1(q, in1, 7);
    b := StepWord(F1(c, d, a), b, c, Plus(in1[7], 0xfd469501), 22);
    assert Chain(a, b, c, d) == Steps(q, in1, 8);
    StepRound1(q, in1, 8);
    a := StepWord(F1(b, c, d), a, b, Plus(in1[8], 0x698098d8), 7);
    StepRound1(q, in1, 9);
    d := StepWord(F1(a, b, c), d, a, Plus(in1[9], 0x8b44f7af), 12);
    StepRound1(q, in1, 10);
    c := StepWord(F1(d, a, b), c, d, Plus(in1[10], 0xffff5bb1), 17);
    StepRound1(q, in1, 11);
    b := StepWord(F1(c, d, a), b, c, Plus(in1[11], 0x895cd7be), 22);
    assert Chain(a, b, c, d) == Steps(q, in1, 12);
    StepRound1(q, in1, 12);
    a := StepWord(F1(b, c, d), a, b, Plus(in1[12], 0x6b901122), 7);
    StepRound1(q, in1, 13);
    d := StepWord(F1(a, b, c), d, a, Plus(in1[13], 0xfd987193), 12);
    StepRound1(q, in1, 14);
    c := StepWord(F1(d, a, b), c, d, Plus(in1[14], 0xa679438e), 17);
    StepRound1(q, in1, 15);
    b := StepWord(F1(c, d, a), b, c, Plus(in1[15], 0x49b40821), 22);
  }

  /** Round 2 of MD5Transform. */
  method Round2(in1: seq<bv32>, a0: bv32, b0: bv32, c0: bv32, d0: bv32, ghost q: Chain)
    returns (a: bv32, b: bv32, c: bv32, d: bv32)
    requires |in1| == 16 && Chain(a0, b0, c0, d0) == Steps(q, in1, 16)
    ensures Chain(a, b, c, d) == Steps(q, in1, 32)
  {
    hide *;
    Tables2Low();
    Tables2High();
    MovedIs2();
    a, b, c, d := a0, b0, c0, d0;
    StepRound2(q, in1, 16);
    a := StepWord(F2(b, c, d), a, b, Plus(in1[1], 0xf61e2562), 5);
    StepRound2(q, in1, 17);
    d := StepWord(F2(a, b, c), d, a, Plus(in1[6], 0xc040b340), 9);
    StepRound2(q, in1, 18);
    c := StepWord(F2(d, a, b), c, d, Plus(in1[11], 0x265e5a51), 14);
    StepRound2(q, in1, 19);
    b := StepWord(F2(c, d, a), b, c, Plus(in1[0], 0xe9b6c7aa), 20);
    StepRound2(q, in1, 20);
    a := StepWord(F2(b, c, d), a, b, Plus(in1[5], 0xd62f105d), 5);
    StepRound2(q, in1, 21);
    d := StepWord(F2(a, b, c), d, a, Plus(in1[10], 0x02441453), 9);
    StepRound2(q, in1, 22);
    c := StepWord(F2(d, a, b), c, d, Plus(in1[15], 0xd8a1e681), 14);
    StepRound2(q, in1, 23);
    b := StepWord(F2(c, d, a), b, c, Plus(in1[4], 0xe7d3fbc8), 20);
    StepRound2(q, in1, 24);
    a := StepWord(F2(b, c, d), a, b, Plus(in1[9], 0x21e1cde6), 5);
    StepRound2(q, in1, 25);
    d := StepWord(F2(a, b, c), d, a, Plus(in1[14], 0xc33707d6), 9);
    StepRound2(q, in1, 26);
    c := StepWord(F2(d, a, b), c, d, Plus(in1[3], 0xf4d50d87), 14);
    StepRound2(q, in1, 27);
    b := StepWord(F2(c, d, a), b, c, Plus(in1[8], 0x455a14ed), 20);
    StepRound2(q, in1, 28);
    a := StepWord(F2(b, c, d), a, b, Plus(in1[13], 0xa9e3e905), 5);
    StepRound2(q, in1, 29);
    d := StepWord(F2(a, b, c), d, a, Plus(in1[2], 0xfcefa3f8), 9);
    StepRound2(q, in1, 30);
    c := StepWord(F2(d, a, b), c, d, Plus(in1[7], 0x676f02d9), 14);
    StepRound2(q, in1, 31);
    b := StepWord(F2(c, d, a), b, c, Plus(in1[12], 0x8d2a4c8a), 20);
  }

  /** Round 3 of MD5Transform. */
  method Round3(in1: seq<bv32>, a0: bv32, b0: bv32, c0: bv32, d0: bv32, ghost q: Chain)
    returns (a: bv32, b: bv32, c: bv32, d: bv32)
    requires |in1| == 16 && Chain(a0, b0, c0, d0) == Steps(q, in1, 32)
    ensures Chain(a, b, c, d) == Steps(q, in1, 48)
  {
    hide *;
    Tables3Low();
    Tables3High();
    MovedIs3();
    a, b, c, d := a0, b0, c0, d0;
    StepRound3(q, in1, 32);
    a := StepWord(F3(b, c, d), a, b, Plus(in1[5], 0xfffa3942), 4);
    StepRound3(q, in1, 33);
    d := StepWord(F3(a, b, c), d, a, Plus(in1[8], 0x8771f681), 11);
    StepRound3(q, in1, 34);
    c := StepWord(F3(d, a, b), c, d, Plus(in1[11], 0x6d9d6122), 16);
    StepRound3(q, in1, 35);
    b := StepWord(F3(c, d, a), b, c, Plus(in1[14], 0xfde5380c), 23);
    StepRound3(q, in1, 36);
    a := StepWord(F3(b, c, d), a, b, Plus(in1[1], 0xa4beea44), 4);
    StepRound3(q, in1, 37);
    d := StepWord(F3(a, b, c), d, a, Plus(in1[4], 0x4bdecfa9), 11);
    StepRound3(q, in1, 38);
    c := StepWord(F3(d, a, b), c, d, Plus(in1[7], 0xf6bb4b60), 16);
    StepRound3(q, in1, 39);
    b := StepWord(F3(c, d, a), b, c, Plus(in1[10], 0xbebfbc70), 23);
    StepRound3(q, in1, 40);
    a := StepWord(F3(b, c, d), a, b, Plus(in1[13], 0x289b7ec6), 4);
    StepRound3(q, in1, 41);
    d := StepWord(F3(a, b, c), d, a, Plus(in1[0], 0xeaa127fa), 11);
    StepRound3(q, in1, 42);
    c := StepWord(F3(d, a, b), c, d, Plus(in1[3], 0xd4ef3085), 16);
    StepRound3(q, in1, 43);
    b := StepWord(F3(c, d, a), b, c, Plus(in1[6], 0x04881d05), 23);
    StepRound3(q, in1, 44);
    a := StepWord(F3(b, c, d), a, b, Plus(in1[9], 0xd9d4d039), 4);
    StepRound3(q, in1, 45);
    d := StepWord(F3(a, b, c), d, a, Plus(in1[12], 0xe6db99e5), 11);
    StepRound3(q, in1, 46);
    c := StepWord(F3(d, a, b), c, d, Plus(in1[15], 0x1fa27cf8), 16);
    StepRound3(q, in1, 47);
    b := StepWord(F3(c, d, a), b, c, Plus(in1[2], 0xc4ac5665), 23);
  }

  /** Round 4 of MD5Transform. */
  method Round4(in1: seq<bv32>, a0: bv32, b0: bv32, c0: bv32, d0: bv32, ghost q: Chain)
    returns (a: bv32, b: bv32, c: bv32, d: bv32)
    requires |in1| == 16 && Chain(a0, b0, c0, d0) == Steps(q, in1, 48)
    ensures Chain(a, b, c, d) == Steps(q, in1, 64)
  {
    hide *;
    Tables4Low();
    Tables4High();
    MovedIs4();
    a, b, c, d := a0, b0, c0, d0;
    StepRound4(q, in1, 48);
    a := StepWord(F4(b, c, d), a, b, Plus(in1[0], 0xf4292244), 6);
    StepRound4(q, in1, 49);
    d := StepWord(F4(a, b, c), d, a, Plus(in1[7], 0x432aff97), 10);
    StepRound4(q, in1, 50);
    c := StepWord(F4(d, a, b), c, d, Plus(in1[14], 0xab9423a7), 15);
    StepRound4(q, in1, 51);
    b := StepWord(F4(c, d, a), b, c, Plus(in1[5], 0xfc93a039), 21);
    StepRound4(q, in1, 52);
    a := StepWord(F4(b, c, d), a, b, Plus(in1[12], 0x655b59c3), 6);
    StepRound4(q, in1, 53);
    d := StepWord(F4(a, b, c), d, a, Plus(in1[3], 0x8f0ccc92), 10);
    StepRound4(q, in1, 54);
    c := StepWord(F4(d, a, b), c, d, Plus(in1[10], 0xffeff47d), 15);
    StepRound4(q, in1, 55);
    b := StepWord(F4(c, d, a), b, c, Plus(in1[1], 0x85845dd1), 21);
    StepRound4(q, in1, 56);
    a := StepWord(F4(b, c, d), a, b, Plus(in1[8], 0x6fa87e4f), 6);
    StepRound4(q, in1, 57);
    d := StepWord(F4(a, b, c), d, a, Plus(in1[15], 0xfe2ce6e0), 10);
    StepRound4(q, in1, 58);
    c := StepWord(F4(d, a, b), c, d, Plus(in1[6], 0xa3014314), 15);
    StepRound4(q, in1, 59);
    b := StepWord(F4(c, d, a), b, c, Plus(in1[13], 0x4e0811a1), 21);
    StepRound4(q, in1, 60);
    a := StepWord(F4(b, c, d), a, b, Plus(in1[4], 0xf7537e82), 6);
    StepRound4(q, in1, 61);
    d := StepWord(F4(a, b, c), d, a, Plus(in1[11], 0xbd3af235), 10);
    StepRound4(q, in1, 62);
    c := StepWord(F4(d, a, b), c, d, Plus(in1[2], 0x2ad7d2bb), 15);
    StepRound4(q, in1, 63);
    b := StepWord(F4(c, d, a), b, c, Plus(in1[9], 0xeb86d391), 21);
  }

  /** The four words of the state become their compression with one block. */
  method MD5Transform(buf: array<bv32>, in1: seq<bv32>)
    requires buf.Length == 4 && |in1| == 16
    modifies buf
    ensures Words(buf) == Transform(old(Words(buf)), in1)
  {
    hide Steps, Plus;
    ghost var q := Words(buf);
    assert Steps(q, in1, 0) == q by { NoSteps(q, in1); }
    var a, b, c, d := Round1(in1, buf[0], buf[1], buf[2], buf[3], q);
    a, b, c, d := Round2(in1, a, b, c, d, q);
    a, b, c, d := Round3(in1, a, b, c, d, q);
    a, b, c, d := Round4(in1, a, b, c, d, q);
    buf[0] := Plus(buf[0], a);
    buf[1] := Plus(buf[1], b);
    buf[2] := Plus(buf[2], c);
    buf[3] := Plus(buf[3], d);
  }

  lemma NoSteps(q: Chain, x: seq<bv32>)
    requires |x| == 16
    ensures Steps(q, x, 0) == q
  {
  }

  ghost function Words(buf: array<bv32>): Chain
    requires buf.Length == 4
    reads buf
  {
    Chain(buf[0], buf[1], buf[2], buf[3])
  }

  // -------------------------------------------------- what the functions of the rounds are

  lemma FMade(x: bv32, y: bv32, z: bv32)
    ensures F(x, y, z) == Or(And(x, y), And(Not(x), z))
  {
  }

  lemma FBit(x: bv32, y: bv32, z: bv32, k: bv32)
    requires k < 32
    ensures BitAt(F(x, y, z), k) == (if BitAt(x, k) then BitAt(y, k) else BitAt(z, k))
  {
    hide F, BitAt, And, Or, Xor, Not;
    FMade(x, y, z);
    OrAt(And(x, y), And(Not(x), z), k);
    AndAt(x, y, k);
    AndAt(Not(x), z, k);
    NotAt(x, k);
  }

  lemma GMade(x: bv32, y: bv32, z: bv32)
    ensures G(x, y, z) == Or(And(x, z), And(y, Not(z)))
  {
  }

  lemma GBit(x: bv32, y: bv32, z: bv32, k: bv32)
    requires k < 32
    ensures BitAt(G(x, y, z), k) == (if BitAt(z, k) then BitAt(x, k) else BitAt(y, k))
  {
    hide G, BitAt, And, Or, Xor, Not;
    GMade(x, y, z);
    OrAt(And(x, z), And(y, Not(z)), k);
    AndAt(x, z, k);
    AndAt(y, Not(z), k);
    NotAt(z, k);
  }

  lemma RawH(x: bv32, y: bv32, z: bv32, k: bv32)
    requires k < 32
    ensures ((x ^ y ^ z) >> k) & 1 == ((x >> k) & 1) ^ ((y >> k) & 1) ^ ((z >> k) & 1)
  {
  }

  lemma HBit(x: bv32, y: bv32, z: bv32, k: bv32)
    requires k < 32
    ensures BitAt(H(x, y, z), k) == ((BitAt(x, k) != BitAt(y, k)) != BitAt(z, k))
  {
    RawH(x, y, z, k);
    OneBit(x, k);
    OneBit(y, k);
    OneBit(z, k);
  }

  lemma IMade(x: bv32, y: bv32, z: bv32)
    ensures I(x, y, z) == Xor(y, Or(x, Not(z)))
  {
  }

  lemma IBit(x: bv32, y: bv32, z: bv32, k: bv32)
    requires k < 32
    ensures BitAt(I(x, y, z), k) == (BitAt(y, k) != (BitAt(x, k) || !BitAt(z, k)))
  {
    hide I, BitAt, And, Or, Xor, Not;
    IMade(x, y, z);
    XorAt(y, Or(x, Not(z)), k);
    OrAt(x, Not(z), k);
    NotAt(z, k);
  }

  /** The auxiliary functions, bit by bit: F is y where x is set and z elsewhere, G is x where
      z is set and y elsewhere, H is the parity, and I differs from y where x is set or z is
      not. */
  lemma AuxiliaryBits(x: bv32, y: bv32, z: bv32, k: nat)
    requires k < 32
    ensures Bit(F(x, y, z), k) == if Bit(x, k) then Bit(y, k) else Bit(z, k)
    ensures Bit(G(x, y, z), k) == if Bit(z, k) then Bit(x, k) else Bit(y, k)
    ensures Bit(H(x, y, z), k) == ((Bit(x, k) != Bit(y, k)) != Bit(z, k))
    ensures Bit(I(x, y, z), k) == (Bit(y, k) != (Bit(x, k) || !Bit(z, k)))
  {
    hide F, G, H, I, Index, BitAt;
    IndexSteps(k);
    FBit(x, y, z, Index(k));
    GBit(x, y, z, Index(k));
    HBit(x, y, z, Index(k));
    IBit(x, y, z, Index(k));
  }
}
