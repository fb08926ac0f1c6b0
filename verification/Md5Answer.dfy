// MD5 of "abc" as section A.5 of RFC 1321 gives it, which depends on every constant, word
// number and rotation of the 64 steps.
module Md5Answer {
  import opened BlockStream
  import opened Md5
  import opened Md5Transform
  import opened Words32

  const WORDS: seq<bv32> := [0x80636261, 0, 0, 0, 0, 0, 0, 0, 0, 0, 0, 0, 0, 0, 0x00000018, 0]

  /** One step, with the values on the way: the auxiliary function, the sum and its rotation. */
  lemma Next(i: nat, q: Chain, f: bv32, k: bv32, t: bv32, s: nat, sum: bv32, turned: bv32, b: bv32) returns (r: Chain)
    requires i < 64 && Steps(START, WORDS, i) == q && Auxiliary(i, q.b, q.c, q.d) == f && WORDS[WordIndex(i)] == k
    requires Constant(i) == t && Amount(i) == s && Plus(Plus(Plus(q.a, f), k), t) == sum
    requires RotateLeft(sum, s) == turned && Plus(q.b, turned) == b
    ensures r == Chain(q.d, b, q.b, q.c) && Steps(START, WORDS, i + 1) == r
  {
    r := Chain(q.d, b, q.b, q.c);
  }

  lemma StepsFrom0()
    requires Steps(START, WORDS, 0) == Chain(0x67452301, 0xefcdab89, 0x98badcfe, 0x10325476)
    ensures Steps(START, WORDS, 2) == Chain(0x98badcfe, 0x344a8432, 0xd6d117b4, 0xefcdab89)
  {
    hide Steps;
    var q := Chain(0x67452301, 0xefcdab89, 0x98badcfe, 0x10325476);
    q := Next(0, q, 0x98badcfe, 0x80636261, 0xd76aa478, 7, 0x57ce06d8, 0xe7036c2b, 0xd6d117b4);
    q := Next(1, q, 0xceebcbca, 0, 0xe8c7b756, 12, 0xc7e5d796, 0x5d796c7e, 0x344a8432);
  }

  lemma StepsFrom2()
    requires Steps(START, WORDS, 2) == Chain(0x98badcfe, 0x344a8432, 0xd6d117b4, 0xefcdab89)
    ensures Steps(START, WORDS, 4) == Chain(0xd6d117b4, 0x7ad956f2, 0x2f6fbd72, 0x344a8432)
  {
    hide Steps;
    var q := Chain(0x98badcfe, 0x344a8432, 0xd6d117b4, 0xefcdab89);
    q := Next(2, q, 0xdfc52fb9, 0, 0x242070db, 17, 0x9ca07d92, 0xfb253940, 0x2f6fbd72);
    q := Next(3, q, 0xf4da86b6, 0, 0xc1bdceee, 22, 0xa666012d, 0x4b699980, 0x7ad956f2);
  }

  lemma StepsFrom4()
    requires Steps(START, WORDS, 4) == Chain(0xd6d117b4, 0x7ad956f2, 0x2f6fbd72, 0x344a8432)
    ensures Steps(START, WORDS, 6) == Chain(0x2f6fbd72, 0x8bac3051, 0xc73741ef, 0x7ad956f2)
  {
    hide Steps;
    var q := Chain(0xd6d117b4, 0x7ad956f2, 0x2f6fbd72, 0x344a8432);
    q := Next(4, q, 0x2e4b9472, 0, 0xf57c0faf, 7, 0xfa98bbd5, 0x4c5deafd, 0xc73741ef);
    q := Next(5, q, 0x6a59fcf2, 0, 0x4787c62a, 12, 0xe62c474e, 0xc474ee62, 0x8bac3051);
  }

  lemma StepsFrom6()
    requires Steps(START, WORDS, 6) == Chain(0x2f6fbd72, 0x8bac3051, 0xc73741ef, 0x7ad956f2)
    ensures Steps(START, WORDS, 8) == Chain(0xc73741ef, 0x928d99f6, 0x207dc67b, 0x8bac3051)
  {
    hide Steps;
    var q := Chain(0x2f6fbd72, 0x8bac3051, 0xc73741ef, 0x7ad956f2);
    q := Next(6, q, 0xf37546e3, 0, 0xa8304613, 17, 0xcb154a68, 0x94d1962a, 0x207dc67b);
    q := Next(7, q, 0xc72e01d5, 0, 0xfd469501, 22, 0x3f4dedc8, 0x720fd37b, 0x928d99f6);
  }

  lemma StepsFrom8()
    requires Steps(START, WORDS, 8) == Chain(0xc73741ef, 0x928d99f6, 0x207dc67b, 0x8bac3051)
    ensures Steps(START, WORDS, 10) == Chain(0x207dc67b, 0x74e2f284, 0x854b3712, 0x928d99f6)
  {
    hide Steps;
    var q := Chain(0xc73741ef, 0x928d99f6, 0x207dc67b, 0x8bac3051);
    q := Next(8, q, 0x092da073, 0, 0x698098d8, 7, 0x39e57b3a, 0xf2bd9d1c, 0x854b3712);
    q := Next(9, q, 0xa03dd17b, 0, 0x8b44f7af, 12, 0xb72ef97b, 0xef97bb72, 0x74e2f284);
  }

  lemma StepsFrom10()
    requires Steps(START, WORDS, 10) == Chain(0x207dc67b, 0x74e2f284, 0x854b3712, 0x928d99f6)
    ensures Steps(START, WORDS, 12) == Chain(0x854b3712, 0x5ed49596, 0x3020401c, 0x74e2f284)
  {
    hide Steps;
    var q := Chain(0x207dc67b, 0x74e2f284, 0x854b3712, 0x928d99f6);
    q := Next(10, q, 0x864f3b72, 0, 0xffff5bb1, 17, 0xa6cc5d9e, 0xbb3d4d98, 0x3020401c);
    q := Next(11, q, 0xb56b7706, 0, 0x895cd7be, 22, 0xd155e8ba, 0x2eb4557a, 0x5ed49596);
  }

  lemma StepsFrom12()
    requires Steps(START, WORDS, 12) == Chain(0x854b3712, 0x5ed49596, 0x3020401c, 0x74e2f284)
    ensures Steps(START, WORDS, 14) == Chain(0x3020401c, 0xa1051895, 0xdda9b9a6, 0x5ed49596)
  {
    hide Steps;
    var q := Chain(0x854b3712, 0x5ed49596, 0x3020401c, 0x74e2f284);
    q := Next(12, q, 0x30226214, 0, 0x6b901122, 7, 0x20fdaa48, 0x7ed52410, 0xdda9b9a6);
    q := Next(13, q, 0x7c80d19e, 0, 0xfd987193, 12, 0xeefc35b5, 0xc35b5eef, 0xa1051895);
  }

  lemma StepsFrom14()
    requires Steps(START, WORDS, 14) == Chain(0x3020401c, 0xa1051895, 0xdda9b9a6, 0x5ed49596)
    ensures Steps(START, WORDS, 16) == Chain(0xdda9b9a6, 0x72aff2e0, 0xe396856b, 0xa1051895)
  {
    hide Steps;
    var q := Chain(0x3020401c, 0xa1051895, 0xdda9b9a6, 0x5ed49596);
    q := Next(14, q, 0xdfd19d86, 0x00000018, 0xa679438e, 17, 0xb66b2148, 0x42916cd6, 0xe396856b);
    q := Next(15, q, 0xbd2d3885, 0, 0x49b40821, 22, 0x65b5d63c, 0x8f196d75, 0x72aff2e0);
  }

  lemma StepsFrom16()
    requires Steps(START, WORDS, 16) == Chain(0xdda9b9a6, 0x72aff2e0, 0xe396856b, 0xa1051895)
    ensures Steps(START, WORDS, 18) == Chain(0xe396856b, 0x4a1d804e, 0x3e9e9126, 0x72aff2e0)
  {
    hide Steps;
    var q := Chain(0xdda9b9a6, 0x72aff2e0, 0xe396856b, 0xa1051895);
    q := Next(16, q, 0x629795ea, 0, 0xf61e2562, 5, 0x365f74f2, 0xcbee9e46, 0x3e9e9126);
    q := Next(17, q, 0x32bff3a2, 0, 0xc040b340, 9, 0x9405bf77, 0x0b7eef28, 0x4a1d804e);
  }

  lemma StepsFrom18()
    requires Steps(START, WORDS, 18) == Chain(0xe396856b, 0x4a1d804e, 0x3e9e9126, 0x72aff2e0)
    ensures Steps(START, WORDS, 20) == Chain(0x3e9e9126, 0xb5b204e4, 0xe25e1652, 0x4a1d804e)
  {
    hide Steps;
    var q := Chain(0xe396856b, 0x4a1d804e, 0x3e9e9126, 0x72aff2e0);
    q := Next(18, q, 0x4e1d8146, 0, 0x265e5a51, 14, 0x58126102, 0x98409604, 0xe25e1652);
    q := Next(19, q, 0x621f104a, 0x80636261, 0xe9b6c7aa, 20, 0x3ee92d35, 0xd353ee92, 0xb5b204e4);
  }

  lemma StepsFrom20()
    requires Steps(START, WORDS, 20) == Chain(0x3e9e9126, 0xb5b204e4, 0xe25e1652, 0x4a1d804e)
    ensures Steps(START, WORDS, 22) == Chain(0xe25e1652, 0x6d002f1e, 0x59a8ffda, 0xb5b204e4)
  {
    hide Steps;
    var q := Chain(0x3e9e9126, 0xb5b204e4, 0xe25e1652, 0x4a1d804e);
    q := Next(20, q, 0xa0521654, 0, 0xd62f105d, 5, 0xb51fb7d7, 0xa3f6faf6, 0x59a8ffda);
    q := Next(21, q, 0x55a816f6, 0, 0x02441453, 9, 0xa209ab97, 0x13572f44, 0x6d002f1e);
  }

  lemma StepsFrom22()
    requires Steps(START, WORDS, 22) == Chain(0xe25e1652, 0x6d002f1e, 0x59a8ffda, 0xb5b204e4)
    ensures Steps(START, WORDS, 24) == Chain(0x59a8ffda, 0x47092c07, 0xabfc7920, 0x6d002f1e)
  {
    hide Steps;
    var q := Chain(0xe25e1652, 0x6d002f1e, 0x59a8ffda, 0xb5b204e4);
    q := Next(22, q, 0x6d08ff1e, 0, 0xd8a1e681, 14, 0x2808fbf1, 0x3efc4a02, 0xabfc7920);
    q := Next(23, q, 0x2da87904, 0, 0xe7d3fbc8, 20, 0xcb2e79b0, 0x9b0cb2e7, 0x47092c07);
  }

  lemma StepsFrom24()
    requires Steps(START, WORDS, 24) == Chain(0x59a8ffda, 0x47092c07, 0xabfc7920, 0x6d002f1e)
    ensures Steps(START, WORDS, 26) == Chain(0xabfc7920, 0x09388eff, 0xb7f268cf, 0x47092c07)
  {
    hide Steps;
    var q := Chain(0x59a8ffda, 0x47092c07, 0xabfc7920, 0x6d002f1e);
    q := Next(24, q, 0xc7fc7c26, 0, 0x21e1cde6, 5, 0x438749e6, 0x70e93cc8, 0xb7f268cf);
    q := Next(25, q, 0xe7f16c07, 0x00000018, 0xc33707d6, 9, 0x1828a313, 0x51462630, 0x09388eff);
  }

  lemma StepsFrom26()
    requires Steps(START, WORDS, 26) == Chain(0xabfc7920, 0x09388eff, 0xb7f268cf, 0x47092c07)
    ensures Steps(START, WORDS, 28) == Chain(0xb7f268cf, 0x786acb8f, 0xfe1623b1, 0x09388eff)
  {
    hide Steps;
    var q := Chain(0xabfc7920, 0x09388eff, 0xb7f268cf, 0x47092c07);
    q := Next(26, q, 0xb1fa4ccf, 0, 0xf4d50d87, 14, 0x52cbd376, 0xf4dd94b2, 0xfe1623b1);
    q := Next(27, q, 0xbe1aa6b1, 0, 0x455a14ed, 20, 0x4a7de7a5, 0x7a54a7de, 0x786acb8f);
  }

  lemma StepsFrom28()
    requires Steps(START, WORDS, 28) == Chain(0xb7f268cf, 0x786acb8f, 0xfe1623b1, 0x09388eff)
    ensures Steps(START, WORDS, 30) == Chain(0xfe1623b1, 0x9f47e4f8, 0x790a77fb, 0x786acb8f)
  {
    hide Steps;
    var q := Chain(0xb7f268cf, 0x786acb8f, 0xfe1623b1, 0x09388eff);
    q := Next(28, q, 0xfe2eab8f, 0, 0xa9e3e905, 5, 0x6004fd63, 0x009fac6c, 0x790a77fb);
    q := Next(29, q, 0x786aebbf, 0, 0xfcefa3f8, 9, 0x7e931eb6, 0x263d6cfd, 0x9f47e4f8);
  }

  lemma StepsFrom30()
    requires Steps(START, WORDS, 30) == Chain(0xfe1623b1, 0x9f47e4f8, 0x790a77fb, 0x786acb8f)
    ensures Steps(START, WORDS, 32) == Chain(0x790a77fb, 0x726342d3, 0xa62884aa, 0x9f47e4f8)
  {
    hide Steps;
    var q := Chain(0xfe1623b1, 0x9f47e4f8, 0x790a77fb, 0x786acb8f);
    q := Next(30, q, 0x1942f4f8, 0, 0x676f02d9, 14, 0x7ec81b82, 0x06e09fb2, 0xa62884aa);
    q := Next(31, q, 0xa64d84aa, 0, 0x8d2a4c8a, 20, 0xabe29cc3, 0xcc3abe29, 0x726342d3);
  }

  lemma StepsFrom32()
    requires Steps(START, WORDS, 32) == Chain(0x790a77fb, 0x726342d3, 0xa62884aa, 0x9f47e4f8)
    ensures Steps(START, WORDS, 34) == Chain(0xa62884aa, 0x60127b2e, 0xb3707ebf, 0x726342d3)
  {
    hide Steps;
    var q := Chain(0x790a77fb, 0x726342d3, 0xa62884aa, 0x9f47e4f8);
    q := Next(32, q, 0x4b0c2281, 0, 0xfffa3942, 4, 0xc410d3be, 0x410d3bec, 0xb3707ebf);
    q := Next(33, q, 0x673bb8c6, 0, 0x8771f681, 11, 0x8df5943f, 0xaca1fc6f, 0x60127b2e);
  }

  lemma StepsFrom34()
    requires Steps(START, WORDS, 34) == Chain(0xa62884aa, 0x60127b2e, 0xb3707ebf, 0x726342d3)
    ensures Steps(START, WORDS, 36) == Chain(0xb3707ebf, 0x3b0875c7, 0x8d212ff5, 0x60127b2e)
  {
    hide Steps;
    var q := Chain(0xa62884aa, 0x60127b2e, 0xb3707ebf, 0x726342d3);
    q := Next(34, q, 0xa1014742, 0, 0x6d9d6122, 16, 0xb4c72d0e, 0x2d0eb4c7, 0x8d212ff5);
    q := Next(35, q, 0x5e432a64, 0x00000018, 0xfde5380c, 23, 0xce8ba55b, 0xade745d2, 0x3b0875c7);
  }

  lemma StepsFrom36()
    requires Steps(START, WORDS, 36) == Chain(0xb3707ebf, 0x3b0875c7, 0x8d212ff5, 0x60127b2e)
    ensures Steps(START, WORDS, 38) == Chain(0x8d212ff5, 0x6e7429d5, 0x21b117b9, 0x3b0875c7)
  {
    hide Steps;
    var q := Chain(0xb3707ebf, 0x3b0875c7, 0x8d212ff5, 0x60127b2e);
    q := Next(36, q, 0xd63b211c, 0, 0xa4beea44, 4, 0x2e6a8a1f, 0xe6a8a1f2, 0x21b117b9);
    q := Next(37, q, 0x97984d8b, 0, 0x4bdecfa9, 11, 0x43899862, 0x4cc3121c, 0x6e7429d5);
  }

  lemma StepsFrom38()
    requires Steps(START, WORDS, 38) == Chain(0x8d212ff5, 0x6e7429d5, 0x21b117b9, 0x3b0875c7)
    ensures Steps(START, WORDS, 40) == Chain(0x21b117b9, 0x5a2f5ea5, 0x3575227e, 0x6e7429d5)
  {
    hide Steps;
    var q := Chain(0x8d212ff5, 0x6e7429d5, 0x21b117b9, 0x3b0875c7);
    q := Next(38, q, 0x74cd4bab, 0, 0xf6bb4b60, 16, 0xf8a9c700, 0xc700f8a9, 0x3575227e);
    q := Next(39, q, 0x7ab01c12, 0, 0xbebfbc70, 23, 0x74784e49, 0x24ba3c27, 0x5a2f5ea5);
  }

  lemma StepsFrom40()
    requires Steps(START, WORDS, 40) == Chain(0x21b117b9, 0x5a2f5ea5, 0x3575227e, 0x6e7429d5)
    ensures Steps(START, WORDS, 42) == Chain(0x3575227e, 0xfadcaa38, 0x11de1779, 0x5a2f5ea5)
  {
    hide Steps;
    var q := Chain(0x21b117b9, 0x5a2f5ea5, 0x3575227e, 0x6e7429d5);
    q := Next(40, q, 0x012e550e, 0, 0x289b7ec6, 4, 0x4b7aeb8d, 0xb7aeb8d4, 0x11de1779);
    q := Next(41, q, 0x7e846ba2, 0x80636261, 0xeaa127fa, 11, 0x57fd1fd2, 0xe8fe92bf, 0xfadcaa38);
  }

  lemma StepsFrom42()
    requires Steps(START, WORDS, 42) == Chain(0x3575227e, 0xfadcaa38, 0x11de1779, 0x5a2f5ea5)
    ensures Steps(START, WORDS, 44) == Chain(0x11de1779, 0x4c6124f4, 0x31c465ca, 0xfadcaa38)
  {
    hide Steps;
    var q := Chain(0x3575227e, 0xfadcaa38, 0x11de1779, 0x5a2f5ea5);
    q := Next(42, q, 0xb12de3e4, 0, 0xd4ef3085, 16, 0xbb9236e7, 0x36e7bb92, 0x31c465ca);
    q := Next(43, q, 0xdac6d88b, 0, 0x04881d05, 23, 0x397e5435, 0x1a9cbf2a, 0x4c6124f4);
  }

  lemma StepsFrom44()
    requires Steps(START, WORDS, 44) == Chain(0x11de1779, 0x4c6124f4, 0x31c465ca, 0xfadcaa38)
    ensures Steps(START, WORDS, 46) == Chain(0x31c465ca, 0x99d9679d, 0x7f2e507b, 0x4c6124f4)
  {
    hide Steps;
    var q := Chain(0x11de1779, 0x4c6124f4, 0x31c465ca, 0xfadcaa38);
    q := Next(44, q, 0x8779eb06, 0, 0xd9d4d039, 4, 0x732cd2b8, 0x32cd2b87, 0x7f2e507b);
    q := Next(45, q, 0x028b1145, 0, 0xe6db99e5, 11, 0xe4435562, 0x1aab1722, 0x99d9679d);
  }

  lemma StepsFrom46()
    requires Steps(START, WORDS, 46) == Chain(0x31c465ca, 0x99d9679d, 0x7f2e507b, 0x4c6124f4)
    ensures Steps(START, WORDS, 48) == Chain(0x7f2e507b, 0x7beb9700, 0x8fae6399, 0x99d9679d)
  {
    hide Steps;
    var q := Chain(0x31c465ca, 0x99d9679d, 0x7f2e507b, 0x4c6124f4);
    q := Next(46, q, 0xaa961312, 0, 0x1fa27cf8, 16, 0xfbfcf5d4, 0xf5d4fbfc, 0x8fae6399);
    q := Next(47, q, 0x6959547f, 0, 0xc4ac5665, 23, 0x7a66cfd8, 0xec3d3367, 0x7beb9700);
  }

  lemma StepsFrom48()
    requires Steps(START, WORDS, 48) == Chain(0x7f2e507b, 0x7beb9700, 0x8fae6399, 0x99d9679d)
    ensures Steps(START, WORDS, 50) == Chain(0x8fae6399, 0xf4e8e96e, 0x7b201df8, 0x7beb9700)
  {
    hide Steps;
    var q := Chain(0x7f2e507b, 0x7beb9700, 0x8fae6399, 0x99d9679d);
    q := Next(48, q, 0xf041fcfb, 0x80636261, 0xf4292244, 6, 0xe3fcd21b, 0xff3486f8, 0x7b201df8);
    q := Next(49, q, 0x009a0afe, 0, 0x432aff97, 10, 0xdd9e7232, 0x79c8cb76, 0xf4e8e96e);
  }

  lemma StepsFrom50()
    requires Steps(START, WORDS, 50) == Chain(0x8fae6399, 0xf4e8e96e, 0x7b201df8, 0x7beb9700)
    ensures Steps(START, WORDS, 52) == Chain(0x7b201df8, 0x8bf025c4, 0xb298cefd, 0xf4e8e96e)
  {
    hide Steps;
    var q := Chain(0x8fae6399, 0xf4e8e96e, 0x7b201df8, 0x7beb9700);
    q := Next(50, q, 0x8fdcf407, 0x00000018, 0xab9423a7, 15, 0xcb1f7b5f, 0xbdafe58f, 0xb298cefd);
    q := Next(51, q, 0x42370791, 0, 0xfc93a039, 21, 0xbab63eca, 0xd95756c7, 0x8bf025c4);
  }

  lemma StepsFrom52()
    requires Steps(START, WORDS, 52) == Chain(0x7b201df8, 0x8bf025c4, 0xb298cefd, 0xf4e8e96e)
    ensures Steps(START, WORDS, 54) == Chain(0xb298cefd, 0x5b0d97aa, 0x06cc5e8a, 0x8bf025c4)
  {
    hide Steps;
    var q := Chain(0x7b201df8, 0x8bf025c4, 0xb298cefd, 0xf4e8e96e);
    q := Next(52, q, 0x396ff928, 0, 0x655b59c3, 6, 0x19eb70e3, 0x7adc38c6, 0x06cc5e8a);
    q := Next(53, q, 0xc41f5a4e, 0, 0x8f0ccc92, 10, 0x4815104e, 0x54413920, 0x5b0d97aa);
  }

  lemma StepsFrom54()
    requires Steps(START, WORDS, 54) == Chain(0xb298cefd, 0x5b0d97aa, 0x06cc5e8a, 0x8bf025c4)
    ensures Steps(START, WORDS, 56) == Chain(0x06cc5e8a, 0x3bfa2c27, 0x7d632dd0, 0x5b0d97aa)
  {
    hide Steps;
    var q := Chain(0xb298cefd, 0x5b0d97aa, 0x06cc5e8a, 0x8bf025c4);
    q := Next(54, q, 0x79c38131, 0, 0xffeff47d, 15, 0x2c4c44ab, 0x22559626, 0x7d632dd0);
    q := Next(55, q, 0xa67e3a5f, 0, 0x85845dd1, 21, 0xb7f2bdf4, 0xbe96fe57, 0x3bfa2c27);
  }

  lemma StepsFrom56()
    requires Steps(START, WORDS, 56) == Chain(0x06cc5e8a, 0x3bfa2c27, 0x7d632dd0, 0x5b0d97aa)
    ensures Steps(START, WORDS, 58) == Chain(0x7d632dd0, 0x094454ab, 0x7f81cc35, 0x3bfa2c27)
  {
    hide Steps;
    var q := Chain(0x06cc5e8a, 0x3bfa2c27, 0x7d632dd0, 0x5b0d97aa);
    q := Next(56, q, 0xc29941a7, 0, 0x6fa87e4f, 6, 0x390e1e80, 0x4387a00e, 0x7f81cc35);
    q := Next(57, q, 0xc467f218, 0, 0xfe2ce6e0, 10, 0x1da270a2, 0x89c28876, 0x094454ab);
  }

  lemma StepsFrom58()
    requires Steps(START, WORDS, 58) == Chain(0x7d632dd0, 0x094454ab, 0x7f81cc35, 0x3bfa2c27)
    ensures Steps(START, WORDS, 60) == Chain(0x7f81cc35, 0x7327d604, 0x4f9dbe3f, 0x094454ab)
  {
    hide Steps;
    var q := Chain(0x7d632dd0, 0x094454ab, 0x7f81cc35, 0x3bfa2c27);
    q := Next(58, q, 0xb2c41bce, 0, 0xa3014314, 15, 0xd3288cb2, 0x46596994, 0x4f9dbe3f);
    q := Next(59, q, 0xc6bbeb54, 0, 0x4e0811a1, 21, 0x50be291c, 0x238a17c5, 0x7327d604);
  }

  lemma StepsFrom60()
    requires Steps(START, WORDS, 60) == Chain(0x7f81cc35, 0x7327d604, 0x4f9dbe3f, 0x094454ab)
    ensures Steps(START, WORDS, 62) == Chain(0x4f9dbe3f, 0x624d8cb2, 0x310ade8f, 0x7327d604)
  {
    hide Steps;
    var q := Chain(0x7f81cc35, 0x7327d604, 0x4f9dbe3f, 0x094454ab);
    q := Next(60, q, 0xb822416b, 0, 0xf7537e82, 6, 0x2ef78c22, 0xbde3088b, 0x310ade8f);
    q := Next(61, q, 0xc24d09cb, 0, 0xbd3af235, 10, 0x88cc50ab, 0x3142ae23, 0x624d8cb2);
  }

  lemma StepsFrom62()
    requires Steps(START, WORDS, 62) == Chain(0x4f9dbe3f, 0x624d8cb2, 0x310ade8f, 0x7327d604)
    ensures Steps(START, WORDS, 64) == Chain(0x310ade8f, 0xc08226b3, 0xe484b9d8, 0x624d8cb2)
  {
    hide Steps;
    var q := Chain(0x4f9dbe3f, 0x624d8cb2, 0x310ade8f, 0x7327d604);
    q := Next(62, q, 0xdfd77374, 0, 0x2ad7d2bb, 15, 0x5a4d046e, 0x82372d26, 0xe484b9d8);
    q := Next(63, q, 0x8cb8354a, 0, 0xeb86d391, 21, 0xeb66dedf, 0xdbfd6cdb, 0xc08226b3);
  }

  lemma AllSteps()
    ensures Steps(START, WORDS, 64) == Chain(0x310ade8f, 0xc08226b3, 0xe484b9d8, 0x624d8cb2)
  {
    assert Steps(START, WORDS, 0) == START;
    hide Steps;
    StepsFrom0();
    StepsFrom2();
    StepsFrom4();
    StepsFrom6();
    StepsFrom8();
    StepsFrom10();
    StepsFrom12();
    StepsFrom14();
    StepsFrom16();
    StepsFrom18();
    StepsFrom20();
    StepsFrom22();
    StepsFrom24();
    StepsFrom26();
    StepsFrom28();
    StepsFrom30();
    StepsFrom32();
    StepsFrom34();
    StepsFrom36();
    StepsFrom38();
    StepsFrom40();
    StepsFrom42();
    StepsFrom44();
    StepsFrom46();
    StepsFrom48();
    StepsFrom50();
    StepsFrom52();
    StepsFrom54();
    StepsFrom56();
    StepsFrom58();
    StepsFrom60();
    StepsFrom62();
  }

  const MESSAGE: seq<bv8> := [0x61, 0x62, 0x63]
  const BLOCK: seq<bv8> := [0x61, 0x62, 0x63, 0x80] + Zeros(52) + [0x18, 0, 0, 0, 0, 0, 0, 0]

  lemma PaddedIs()
    ensures Padded(MESSAGE) == BLOCK
  {
    PadIs();
    LengthIs();
    FirstFour();
    hide PadCount, LengthBytes, Zeros;
  }

  lemma PadIs()
    ensures PadCount(3) == 52
  {
    PadCases(3);
  }

  lemma FirstFour()
    ensures MESSAGE + [0x80] == [0x61, 0x62, 0x63, 0x80]
  {
  }

  lemma LengthIs()
    ensures LengthBytes(3) == [0x18, 0, 0, 0, 0, 0, 0, 0]
  {
    assert LowWord(8 * 3) == 24 && HighWord(8 * 3) == 0;
    NumberBytesAre();
    hide NumberBytes;
  }

  lemma LowBytes()
    ensures LowByteOf(0) == 0 && LowByteOf(24) == 0x18
  {
  }

  lemma NumberBytesAre()
    ensures NumberBytes(24) == [0x18, 0, 0, 0] && NumberBytes(0) == [0, 0, 0, 0]
  {
    LowBytes();
    hide LowByteOf;
  }

  lemma WordsAre()
    ensures BlockWords(BLOCK) == WORDS
  {
    ZeroWord();
    FirstWord();
    LengthWord();
    hide Word;
    var x := BlockWords(BLOCK);
    assert forall i :: 4 <= i < 64 && i != 56 ==> BLOCK[i] == 0;
    assert forall i :: 0 <= i < 16 ==> x[i] == Word(BLOCK[4 * i], BLOCK[4 * i + 1], BLOCK[4 * i + 2], BLOCK[4 * i + 3]);
    assert x[0] == WORDS[0] && x[14] == WORDS[14];
    assert forall i :: 0 < i < 16 && i != 14 ==> x[i] == 0 == WORDS[i];
  }

  lemma ZeroWord()
    ensures Word(0, 0, 0, 0) == 0
  {
  }

  lemma FirstWord()
    ensures Word(0x61, 0x62, 0x63, 0x80) == 0x80636261
  {
  }

  lemma LengthWord()
    ensures Word(0x18, 0, 0, 0) == 0x18
  {
  }

  lemma SumIs()
    ensures Transform(START, WORDS) == Chain(0x98500190, 0xb04fd23c, 0x7d3f96d6, 0x727fe128)
  {
    AllSteps();
    hide Steps;
  }

  lemma BytesAre()
    ensures DigestBytes(Chain(0x98500190, 0xb04fd23c, 0x7d3f96d6, 0x727fe128))
         == [0x90, 0x01, 0x50, 0x98, 0x3c, 0xd2, 0x4f, 0xb0, 0xd6, 0x96, 0x3f, 0x7d, 0x28, 0xe1, 0x7f, 0x72]
  {
  }

  /** The digest of "abc" is 900150983cd24fb0d6963f7d28e17f72. */
  lemma DigestOfAbc()
    ensures Digest(MESSAGE) == [0x90, 0x01, 0x50, 0x98, 0x3c, 0xd2, 0x4f, 0xb0, 0xd6, 0x96, 0x3f, 0x7d, 0x28, 0xe1, 0x7f, 0x72]
  {
    hide Transform, BlockWords, DigestBytes, Padded;
    PaddedIs();
    WordsAre();
    SumIs();
    BytesAre();
    FoldBlock(64, Compress, START, BLOCK);
  }
}
