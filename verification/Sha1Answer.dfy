// SHA-1 of "abc" as the example of FIPS 180 gives it, which depends on every constant of
// the 80 steps and of the schedule.
module Sha1Answer {
  import opened BlockStream
  import opened Sha1
  import opened Words32

  const MESSAGE: seq<bv8> := [0x61, 0x62, 0x63]
  const BLOCK: seq<bv8> := [0x61, 0x62, 0x63, 0x80] + Zeros(52) + [0, 0, 0, 0, 0, 0, 0, 0x18]

  // ------------------------------------------------------------ the schedule

  ghost predicate Row0()
  {
    Schedule(BLOCK, 0) == 0x61626380 && Schedule(BLOCK, 1) == 0
    && Schedule(BLOCK, 2) == 0 && Schedule(BLOCK, 3) == 0
    && Schedule(BLOCK, 4) == 0 && Schedule(BLOCK, 5) == 0
    && Schedule(BLOCK, 6) == 0 && Schedule(BLOCK, 7) == 0
    && Schedule(BLOCK, 8) == 0 && Schedule(BLOCK, 9) == 0
    && Schedule(BLOCK, 10) == 0 && Schedule(BLOCK, 11) == 0
    && Schedule(BLOCK, 12) == 0 && Schedule(BLOCK, 13) == 0
    && Schedule(BLOCK, 14) == 0 && Schedule(BLOCK, 15) == 0x00000018
  }

  ghost predicate Row1()
  {
    Schedule(BLOCK, 16) == 0xc2c4c700 && Schedule(BLOCK, 17) == 0
    && Schedule(BLOCK, 18) == 0x00000030 && Schedule(BLOCK, 19) == 0x85898e01
    && Schedule(BLOCK, 20) == 0 && Schedule(BLOCK, 21) == 0x00000060
    && Schedule(BLOCK, 22) == 0x0b131c03 && Schedule(BLOCK, 23) == 0x00000030
    && Schedule(BLOCK, 24) == 0x85898ec1 && Schedule(BLOCK, 25) == 0x16263806
    && Schedule(BLOCK, 26) == 0 && Schedule(BLOCK, 27) == 0x00000180
    && Schedule(BLOCK, 28) == 0x2c4c700c && Schedule(BLOCK, 29) == 0x000000f0
    && Schedule(BLOCK, 30) == 0x93afb507 && Schedule(BLOCK, 31) == 0x5898e048
  }

  ghost predicate Row2()
  {
    Schedule(BLOCK, 32) == 0x8e9a9202 && Schedule(BLOCK, 33) == 0x00000600
    && Schedule(BLOCK, 34) == 0xb131c0f0 && Schedule(BLOCK, 35) == 0x16263bc6
    && Schedule(BLOCK, 36) == 0x4ebed41e && Schedule(BLOCK, 37) == 0x626380a1
    && Schedule(BLOCK, 38) == 0x16263806 && Schedule(BLOCK, 39) == 0x000018c0
    && Schedule(BLOCK, 40) == 0xd2e138c4 && Schedule(BLOCK, 41) == 0x00000f00
    && Schedule(BLOCK, 42) == 0x3afb5079 && Schedule(BLOCK, 43) == 0x898e04e5
    && Schedule(BLOCK, 44) == 0xe2ba3c2b && Schedule(BLOCK, 45) == 0x000060c0
    && Schedule(BLOCK, 46) == 0x053a37cd && Schedule(BLOCK, 47) == 0x74458547
  }

  ghost predicate Row3()
  {
    Schedule(BLOCK, 48) == 0xda9415ed && Schedule(BLOCK, 49) == 0x26380a16
    && Schedule(BLOCK, 50) == 0x626383a1 && Schedule(BLOCK, 51) == 0x4ebf54de
    && Schedule(BLOCK, 52) == 0x3835b44b && Schedule(BLOCK, 53) == 0x0000f600
    && Schedule(BLOCK, 54) == 0x1e84c7a3 && Schedule(BLOCK, 55) == 0x98e04d98
    && Schedule(BLOCK, 56) == 0x651d16a0 && Schedule(BLOCK, 57) == 0x62658ca1
    && Schedule(BLOCK, 58) == 0x458544d6 && Schedule(BLOCK, 59) == 0x44584cb7
    && Schedule(BLOCK, 60) == 0x7ba06619 && Schedule(BLOCK, 61) == 0x6380aea2
    && Schedule(BLOCK, 62) == 0x0ae55269 && Schedule(BLOCK, 63) == 0x627b49a1
  }

  ghost predicate Row4()
  {
    Schedule(BLOCK, 64) == 0x7cd45c9d && Schedule(BLOCK, 65) == 0x000f0000
    && Schedule(BLOCK, 66) == 0xfb50753a && Schedule(BLOCK, 67) == 0xec6765e8
    && Schedule(BLOCK, 68) == 0xba3c2be2 && Schedule(BLOCK, 69) == 0x0060c000
    && Schedule(BLOCK, 70) == 0x3a37cd05 && Schedule(BLOCK, 71) == 0x458546f4
    && Schedule(BLOCK, 72) == 0xb8599dd6 && Schedule(BLOCK, 73) == 0x380a1a26
    && Schedule(BLOCK, 74) == 0x01e02203 && Schedule(BLOCK, 75) == 0xe7cc3456
    && Schedule(BLOCK, 76) == 0xe6e60b69 && Schedule(BLOCK, 77) == 0x00f60a00
    && Schedule(BLOCK, 78) == 0x5795ef4f && Schedule(BLOCK, 79) == 0x822e0879
  }

  lemma NextWord(t: nat, w3: bv32, w8: bv32, w14: bv32, w16: bv32, x: bv32, w: bv32)
    requires 16 <= t < 80 && Schedule(BLOCK, t - 3) == w3 && Schedule(BLOCK, t - 8) == w8
    requires Schedule(BLOCK, t - 14) == w14 && Schedule(BLOCK, t - 16) == w16
    requires Xor4(w3, w8, w14, w16) == x && RotateLeft(x, 1) == w
    ensures Schedule(BLOCK, t) == w
  {
    hide Xor4, RotateLeft;
  }

  lemma MakeRow1()
    requires Row0()
    ensures Row1()
  {
    hide Schedule;
    NextWord(16, 0, 0, 0, 0x61626380, 0x61626380, 0xc2c4c700);
    NextWord(17, 0, 0, 0, 0, 0, 0);
    NextWord(18, 0x00000018, 0, 0, 0, 0x00000018, 0x00000030);
    NextWord(19, 0xc2c4c700, 0, 0, 0, 0xc2c4c700, 0x85898e01);
    NextWord(20, 0, 0, 0, 0, 0, 0);
    NextWord(21, 0x00000030, 0, 0, 0, 0x00000030, 0x00000060);
    NextWord(22, 0x85898e01, 0, 0, 0, 0x85898e01, 0x0b131c03);
    NextWord(23, 0, 0x00000018, 0, 0, 0x00000018, 0x00000030);
    NextWord(24, 0x00000060, 0xc2c4c700, 0, 0, 0xc2c4c760, 0x85898ec1);
    NextWord(25, 0x0b131c03, 0, 0, 0, 0x0b131c03, 0x16263806);
    NextWord(26, 0x00000030, 0x00000030, 0, 0, 0, 0);
    NextWord(27, 0x85898ec1, 0x85898e01, 0, 0, 0x000000c0, 0x00000180);
    NextWord(28, 0x16263806, 0, 0, 0, 0x16263806, 0x2c4c700c);
    NextWord(29, 0, 0x00000060, 0x00000018, 0, 0x00000078, 0x000000f0);
    NextWord(30, 0x00000180, 0x0b131c03, 0xc2c4c700, 0, 0xc9d7da83, 0x93afb507);
    NextWord(31, 0x2c4c700c, 0x00000030, 0, 0x00000018, 0x2c4c7024, 0x5898e048);
  }

  lemma MakeRow2()
    requires Row1()
    ensures Row2()
  {
    hide Schedule;
    NextWord(32, 0x000000f0, 0x85898ec1, 0x00000030, 0xc2c4c700, 0x474d4901, 0x8e9a9202);
    NextWord(33, 0x93afb507, 0x16263806, 0x85898e01, 0, 0x00000300, 0x00000600);
    NextWord(34, 0x5898e048, 0, 0, 0x00000030, 0x5898e078, 0xb131c0f0);
    NextWord(35, 0x8e9a9202, 0x00000180, 0x00000060, 0x85898e01, 0x0b131de3, 0x16263bc6);
    NextWord(36, 0x00000600, 0x2c4c700c, 0x0b131c03, 0, 0x275f6a0f, 0x4ebed41e);
    NextWord(37, 0xb131c0f0, 0x000000f0, 0x00000030, 0x00000060, 0xb131c050, 0x626380a1);
    NextWord(38, 0x16263bc6, 0x93afb507, 0x85898ec1, 0x0b131c03, 0x0b131c03, 0x16263806);
    NextWord(39, 0x4ebed41e, 0x5898e048, 0x16263806, 0x00000030, 0x00000c60, 0x000018c0);
    NextWord(40, 0x626380a1, 0x8e9a9202, 0, 0x85898ec1, 0x69709c62, 0xd2e138c4);
    NextWord(41, 0x16263806, 0x00000600, 0x00000180, 0x16263806, 0x00000780, 0x00000f00);
    NextWord(42, 0x000018c0, 0xb131c0f0, 0x2c4c700c, 0, 0x9d7da83c, 0x3afb5079);
    NextWord(43, 0xd2e138c4, 0x16263bc6, 0x000000f0, 0x00000180, 0xc4c70272, 0x898e04e5);
    NextWord(44, 0x00000f00, 0x4ebed41e, 0x93afb507, 0x2c4c700c, 0xf15d1e15, 0xe2ba3c2b);
    NextWord(45, 0x3afb5079, 0x626380a1, 0x5898e048, 0x000000f0, 0x00003060, 0x000060c0);
    NextWord(46, 0x898e04e5, 0x16263806, 0x8e9a9202, 0x93afb507, 0x829d1be6, 0x053a37cd);
    NextWord(47, 0xe2ba3c2b, 0x000018c0, 0x00000600, 0x5898e048, 0xba22c2a3, 0x74458547);
  }

  lemma MakeRow3()
    requires Row2()
    ensures Row3()
  {
    hide Schedule;
    NextWord(48, 0x000060c0, 0xd2e138c4, 0xb131c0f0, 0x8e9a9202, 0xed4a0af6, 0xda9415ed);
    NextWord(49, 0x053a37cd, 0x00000f00, 0x16263bc6, 0x00000600, 0x131c050b, 0x26380a16);
    NextWord(50, 0x74458547, 0x3afb5079, 0x4ebed41e, 0xb131c0f0, 0xb131c1d0, 0x626383a1);
    NextWord(51, 0xda9415ed, 0x898e04e5, 0x626380a1, 0x16263bc6, 0x275faa6f, 0x4ebf54de);
    NextWord(52, 0x26380a16, 0xe2ba3c2b, 0x16263806, 0x4ebed41e, 0x9c1ada25, 0x3835b44b);
    NextWord(53, 0x626383a1, 0x000060c0, 0x000018c0, 0x626380a1, 0x00007b00, 0x0000f600);
    NextWord(54, 0x4ebf54de, 0x053a37cd, 0xd2e138c4, 0x16263806, 0x8f4263d1, 0x1e84c7a3);
    NextWord(55, 0x3835b44b, 0x74458547, 0x00000f00, 0x000018c0, 0x4c7026cc, 0x98e04d98);
    NextWord(56, 0x0000f600, 0xda9415ed, 0x3afb5079, 0xd2e138c4, 0x328e8b50, 0x651d16a0);
    NextWord(57, 0x1e84c7a3, 0x26380a16, 0x898e04e5, 0x00000f00, 0xb132c650, 0x62658ca1);
    NextWord(58, 0x98e04d98, 0x626383a1, 0xe2ba3c2b, 0x3afb5079, 0x22c2a26b, 0x458544d6);
    NextWord(59, 0x651d16a0, 0x4ebf54de, 0x000060c0, 0x898e04e5, 0xa22c265b, 0x44584cb7);
    NextWord(60, 0x62658ca1, 0x3835b44b, 0x053a37cd, 0xe2ba3c2b, 0xbdd0330c, 0x7ba06619);
    NextWord(61, 0x458544d6, 0x0000f600, 0x74458547, 0x000060c0, 0x31c05751, 0x6380aea2);
    NextWord(62, 0x44584cb7, 0x1e84c7a3, 0xda9415ed, 0x053a37cd, 0x8572a934, 0x0ae55269);
    NextWord(63, 0x7ba06619, 0x98e04d98, 0x26380a16, 0x74458547, 0xb13da4d0, 0x627b49a1);
  }

  lemma MakeRow4()
    requires Row3()
    ensures Row4()
  {
    hide Schedule;
    NextWord(64, 0x6380aea2, 0x651d16a0, 0x626383a1, 0xda9415ed, 0xbe6a2e4e, 0x7cd45c9d);
    NextWord(65, 0x0ae55269, 0x62658ca1, 0x4ebf54de, 0x26380a16, 0x00078000, 0x000f0000);
    NextWord(66, 0x627b49a1, 0x458544d6, 0x3835b44b, 0x626383a1, 0x7da83a9d, 0xfb50753a);
    NextWord(67, 0x7cd45c9d, 0x44584cb7, 0x0000f600, 0x4ebf54de, 0x7633b2f4, 0xec6765e8);
    NextWord(68, 0x000f0000, 0x7ba06619, 0x1e84c7a3, 0x3835b44b, 0x5d1e15f1, 0xba3c2be2);
    NextWord(69, 0xfb50753a, 0x6380aea2, 0x98e04d98, 0x0000f600, 0x00306000, 0x0060c000);
    NextWord(70, 0xec6765e8, 0x0ae55269, 0x651d16a0, 0x1e84c7a3, 0x9d1be682, 0x3a37cd05);
    NextWord(71, 0xba3c2be2, 0x627b49a1, 0x62658ca1, 0x98e04d98, 0x22c2a37a, 0x458546f4);
    NextWord(72, 0x0060c000, 0x7cd45c9d, 0x458544d6, 0x651d16a0, 0x5c2cceeb, 0xb8599dd6);
    NextWord(73, 0x3a37cd05, 0x000f0000, 0x44584cb7, 0x62658ca1, 0x1c050d13, 0x380a1a26);
    NextWord(74, 0x458546f4, 0xfb50753a, 0x7ba06619, 0x458544d6, 0x80f01101, 0x01e02203);
    NextWord(75, 0xb8599dd6, 0xec6765e8, 0x6380aea2, 0x44584cb7, 0x73e61a2b, 0xe7cc3456);
    NextWord(76, 0x380a1a26, 0xba3c2be2, 0x0ae55269, 0x7ba06619, 0xf37305b4, 0xe6e60b69);
    NextWord(77, 0x01e02203, 0x0060c000, 0x627b49a1, 0x6380aea2, 0x007b0500, 0x00f60a00);
    NextWord(78, 0xe7cc3456, 0x3a37cd05, 0x7cd45c9d, 0x0ae55269, 0xabcaf7a7, 0x5795ef4f);
    NextWord(79, 0xe6e60b69, 0x458546f4, 0x000f0000, 0x627b49a1, 0xc117043c, 0x822e0879);
  }

  // ------------------------------------------------------------ the steps

  /** One step, with the values on the way: the function, the two rotations and the sum. */
  lemma Next(t: nat, q: Chain, w: bv32, k: bv32, f: bv32, turned: bv32, b: bv32, a: bv32) returns (r: Chain)
    requires t < 80 && Steps(START, BLOCK, t) == q && Schedule(BLOCK, t) == w && K(t) == k
    requires StepFunction(t, q.b, q.c, q.d) == f && RotateLeft(q.a, 5) == turned && RotateLeft(q.b, 30) == b
    requires Plus(Plus(Plus(Plus(turned, f), q.e), k), w) == a
    ensures r == Chain(a, q.a, b, q.c, q.d) && Steps(START, BLOCK, t + 1) == r
  {
    r := Chain(a, q.a, b, q.c, q.d);
    hide Schedule, StepFunction, RotateLeft, Plus;
  }

  lemma StepsFrom0()
    requires Row0() && Steps(START, BLOCK, 0) == Chain(0x67452301, 0xefcdab89, 0x98badcfe, 0x10325476, 0xc3d2e1f0)
    ensures Steps(START, BLOCK, 4) == Chain(0xcdd8e11b, 0xa1390f08, 0x626414db, 0xc045bf0c, 0x59d148c0)
  {
    hide Steps, Schedule;
    var q := Chain(0x67452301, 0xefcdab89, 0x98badcfe, 0x10325476, 0xc3d2e1f0);
    q := Next(0, q, 0x61626380, 0x5a827999, 0x98badcfe, 0xe8a4602c, 0x7bf36ae2, 0x0116fc33);
    q := Next(1, q, 0, 0x5a827999, 0xfbfbfefe, 0x22df8660, 0x59d148c0, 0x8990536d);
    q := Next(2, q, 0, 0x5a827999, 0x7bf14ac0, 0x320a6db1, 0xc045bf0c, 0xa1390f08);
    q := Next(3, q, 0, 0x5a827999, 0xd0411b8c, 0x2721e114, 0x626414db, 0xcdd8e11b);
  }

  lemma StepsFrom4()
    requires Row0() && Steps(START, BLOCK, 4) == Chain(0xcdd8e11b, 0xa1390f08, 0x626414db, 0xc045bf0c, 0x59d148c0)
    ensures Steps(START, BLOCK, 8) == Chain(0x9e8c07d4, 0x993e30c1, 0x0ff1f290, 0xb3f52677, 0xf3763846)
  {
    hide Steps, Schedule;
    var q := Chain(0xcdd8e11b, 0xa1390f08, 0x626414db, 0xc045bf0c, 0x59d148c0);
    q := Next(4, q, 0, 0x5a827999, 0x6064b40c, 0xbb1c2379, 0x284e43c2, 0xcfd499de);
    q := Next(5, q, 0, 0x5a827999, 0x2a6c55c2, 0xfa933bd9, 0xf3763846, 0x3fc7ca40);
    q := Next(6, q, 0, 0x5a827999, 0xe35e5a46, 0xf8f94807, 0xb3f52677, 0x993e30c1);
    q := Next(7, q, 0, 0x5a827999, 0xf3f53246, 0x27c61833, 0x0ff1f290, 0x9e8c07d4);
  }

  lemma StepsFrom8()
    requires Row0() && Steps(START, BLOCK, 8) == Chain(0x9e8c07d4, 0x993e30c1, 0x0ff1f290, 0xb3f52677, 0xf3763846)
    ensures Steps(START, BLOCK, 12) == Chain(0x63188fe4, 0xfbda9e89, 0x60d47e4a, 0x12dab8ca, 0x27a301f5)
  {
    hide Steps, Schedule;
    var q := Chain(0x9e8c07d4, 0x993e30c1, 0x0ff1f290, 0xb3f52677, 0xf3763846);
    q := Next(8, q, 0, 0x5a827999, 0x2bf136b6, 0xd180fa93, 0x664f8c30, 0x4b6ae328);
    q := Next(9, q, 0, 0x5a827999, 0x077df410, 0x6d5c6509, 0x27a301f5, 0x8351f929);
    q := Next(10, q, 0, 0x5a827999, 0x27270d30, 0x6a3f2530, 0x12dab8ca, 0xfbda9e89);
    q := Next(11, q, 0, 0x5a827999, 0x26f2b8dc, 0x7b53d13f, 0x60d47e4a, 0x63188fe4);
  }

  lemma StepsFrom12()
    requires Row0() && Steps(START, BLOCK, 12) == Chain(0x63188fe4, 0xfbda9e89, 0x60d47e4a, 0x12dab8ca, 0x27a301f5)
    ensures Steps(START, BLOCK, 16) == Chain(0x20bdd62f, 0x196bee77, 0x644a3da5, 0x1181ed99, 0x18c623f9)
  {
    hide Steps, Schedule;
    var q := Chain(0x63188fe4, 0xfbda9e89, 0x60d47e4a, 0x12dab8ca, 0x27a301f5);
    q := Next(12, q, 0, 0x5a827999, 0x60d03e4a, 0x6311fc8c, 0x7ef6a7a2, 0x4607b664);
    q := Next(13, q, 0, 0x5a827999, 0x62d4f7aa, 0xc0f6cc88, 0x18c623f9, 0x9128f695);
    q := Next(14, q, 0, 0x5a827999, 0x38f623e2, 0x251ed2b2, 0x1181ed99, 0x196bee77);
    q := Next(15, q, 0x00000018, 0x5a827999, 0x19c6e5f9, 0x2d7dcee3, 0x644a3da5, 0x20bdd62f);
  }

  lemma StepsFrom16()
    requires Row1() && Steps(START, BLOCK, 16) == Chain(0x20bdd62f, 0x196bee77, 0x644a3da5, 0x1181ed99, 0x18c623f9)
    ensures Steps(START, BLOCK, 20) == Chain(0xfd9e1d7d, 0xdc64901d, 0x20aa99ca, 0xd3a49608, 0xc82f758b)
  {
    hide Steps, Schedule;
    var q := Chain(0x20bdd62f, 0x196bee77, 0x644a3da5, 0x1181ed99, 0x18c623f9);
    q := Next(16, q, 0xc2c4c700, 0x5a827999, 0x00ca2dad, 0x17bac5e4, 0xc65afb9d, 0x4e925823);
    q := Next(17, q, 0, 0x5a827999, 0x445afb8d, 0xd24b0469, 0xc82f758b, 0x82aa6728);
    q := Next(18, q, 0x00000030, 0x5a827999, 0xc84af39f, 0x554ce510, 0xd3a49608, 0xdc64901d);
    q := Next(19, q, 0x85898e01, 0x5a827999, 0xcaa5168b, 0x8c9203bb, 0x20aa99ca, 0xfd9e1d7d);
  }

  lemma StepsFrom20()
    requires Row1() && Steps(START, BLOCK, 20) == Chain(0xfd9e1d7d, 0xdc64901d, 0x20aa99ca, 0xd3a49608, 0xc82f758b)
    ensures Steps(START, BLOCK, 24) == Chain(0xd541f12d, 0x21283486, 0x0ce88eff, 0x868dec32, 0x7f67875f)
  {
    hide Steps, Schedule;
    var q := Chain(0xfd9e1d7d, 0xdc64901d, 0x20aa99ca, 0xd3a49608, 0xc82f758b);
    q := Next(20, q, 0, 0x6ed9eba1, 0x2f6a9fdf, 0xb3c3afbf, 0x77192407, 0x1a37b0ca);
    q := Next(21, q, 0x00000060, 0x6ed9eba1, 0xaa2da0b0, 0x46f61943, 0x7f67875f, 0x33a23bfc);
    q := Next(22, q, 0x0b131c03, 0x6ed9eba1, 0x12491392, 0x74477f86, 0x868dec32, 0x21283486);
    q := Next(23, q, 0x00000030, 0x6ed9eba1, 0xca485091, 0x250690c4, 0x0ce88eff, 0xd541f12d);
  }

  lemma StepsFrom24()
    requires Row1() && Steps(START, BLOCK, 24) == Chain(0xd541f12d, 0x21283486, 0x0ce88eff, 0x868dec32, 0x7f67875f)
    ensures Steps(START, BLOCK, 28) == Chain(0x4aa84d97, 0xbe35fbd5, 0x12104ee9, 0xb1d59f71, 0x75507c4b)
  {
    hide Steps, Schedule;
    var q := Chain(0xd541f12d, 0x21283486, 0x0ce88eff, 0x868dec32, 0x7f67875f);
    q := Next(24, q, 0x85898ec1, 0x6ed9eba1, 0xab4d564b, 0xa83e25ba, 0x884a0d21, 0xc7567dc6);
    q := Next(25, q, 0x16263806, 0x6ed9eba1, 0x51e372f3, 0xeacfb8d8, 0x75507c4b, 0x48413ba4);
    q := Next(26, q, 0, 0x6ed9eba1, 0x3a4c0cac, 0x08277489, 0xb1d59f71, 0xbe35fbd5);
    q := Next(27, q, 0x00000180, 0x6ed9eba1, 0x8cc4d89e, 0xc6bf7ab7, 0x12104ee9, 0x4aa84d97);
  }

  lemma StepsFrom28()
    requires Row1() && Steps(START, BLOCK, 28) == Chain(0x4aa84d97, 0xbe35fbd5, 0x12104ee9, 0xb1d59f71, 0x75507c4b)
    ensures Steps(START, BLOCK, 32) == Chain(0x3b845d33, 0x1267b407, 0x717eebd7, 0xa0dc2d4b, 0xd2aa1365)
  {
    hide Steps, Schedule;
    var q := Chain(0x4aa84d97, 0xbe35fbd5, 0x12104ee9, 0xb1d59f71, 0x75507c4b);
    q := Next(28, q, 0x2c4c700c, 0x6ed9eba1, 0x1df02a4d, 0x5509b2e9, 0x6f8d7ef5, 0x8370b52e);
    q := Next(29, q, 0x000000f0, 0x6ed9eba1, 0x37357d8b, 0x6e16a5d0, 0xd2aa1365, 0xc5fbaf5d);
    q := Next(30, q, 0x93afb507, 0x6ed9eba1, 0x3e57d8be, 0xbf75ebb8, 0xa0dc2d4b, 0x1267b407);
    q := Next(31, q, 0x5898e048, 0x6ed9eba1, 0xb78d9173, 0x4cf680e2, 0x717eebd7, 0x3b845d33);
  }

  lemma StepsFrom32()
    requires Row2() && Steps(START, BLOCK, 32) == Chain(0x3b845d33, 0x1267b407, 0x717eebd7, 0xa0dc2d4b, 0xd2aa1365)
    ensures Steps(START, BLOCK, 36) == Chain(0xdcbbb0cb, 0x21796ad4, 0x4b03af04, 0x811bea82, 0xcee1174c)
  {
    hide Steps, Schedule;
    var q := Chain(0x3b845d33, 0x1267b407, 0x717eebd7, 0xa0dc2d4b, 0xd2aa1365);
    q := Next(32, q, 0x8e9a9202, 0x6ed9eba1, 0xc3c5729b, 0x708ba667, 0xc499ed01, 0x046faa0a);
    q := Next(33, q, 0x00000600, 0x6ed9eba1, 0x8e635be5, 0x8df54140, 0xcee1174c, 0x2c0ebc11);
    q := Next(34, q, 0xb131c0f0, 0x6ed9eba1, 0x0e175047, 0x81d78225, 0x811bea82, 0x21796ad4);
    q := Next(35, q, 0x16263bc6, 0x6ed9eba1, 0x63f441df, 0x2f2d5a84, 0x4b03af04, 0xdcbbb0cb);
  }

  lemma StepsFrom36()
    requires Row2() && Steps(START, BLOCK, 36) == Chain(0xdcbbb0cb, 0x21796ad4, 0x4b03af04, 0x811bea82, 0xcee1174c)
    ensures Steps(START, BLOCK, 40) == Chain(0x32de1cba, 0x4c986405, 0xf718e5cf, 0x03d447f6, 0xf72eec32)
  {
    hide Steps, Schedule;
    var q := Chain(0xdcbbb0cb, 0x21796ad4, 0x4b03af04, 0x811bea82, 0xcee1174c);
    q := Next(36, q, 0x4ebed41e, 0x6ed9eba1, 0xeb612f52, 0x9776197b, 0x085e5ab5, 0x0f511fd8);
    q := Next(37, q, 0x626380a1, 0x6ed9eba1, 0x9fe6457a, 0xea23fb01, 0xf72eec32, 0xdc63973f);
    q := Next(38, q, 0x16263806, 0x6ed9eba1, 0xf021a95f, 0x8c72e7fb, 0x03d447f6, 0x4c986405);
    q := Next(39, q, 0x000018c0, 0x6ed9eba1, 0x28993cfb, 0x930c80a9, 0xf718e5cf, 0x32de1cba);
  }

  lemma StepsFrom40()
    requires Row2() && Steps(START, BLOCK, 40) == Chain(0x32de1cba, 0x4c986405, 0xf718e5cf, 0x03d447f6, 0xf72eec32)
    ensures Steps(START, BLOCK, 44) == Chain(0xee1b1aaf, 0x7f193dc5, 0x25c28357, 0xff21f7b7, 0x8cb7872e)
  {
    hide Steps, Schedule;
    var q := Chain(0x32de1cba, 0x4c986405, 0xf718e5cf, 0x03d447f6, 0xf72eec32);
    q := Next(40, q, 0xd2e138c4, 0x8f1bbcdc, 0x479865c7, 0x5bc39746, 0x53261901, 0xfc87dedf);
    q := Next(41, q, 0x00000f00, 0x8f1bbcdc, 0x731e1d8b, 0x90fbdbff, 0x8cb7872e, 0x970a0d5c);
    q := Next(42, q, 0x3afb5079, 0x8f1bbcdc, 0xdca79f0f, 0xe141ab92, 0xff21f7b7, 0x7f193dc5);
    q := Next(43, q, 0x898e04e5, 0x8f1bbcdc, 0x9f23873e, 0xe327b8af, 0x25c28357, 0xee1b1aaf);
  }

  lemma StepsFrom44()
    requires Row2() && Steps(START, BLOCK, 44) == Chain(0xee1b1aaf, 0x7f193dc5, 0x25c28357, 0xff21f7b7, 0x8cb7872e)
    ensures Steps(START, BLOCK, 48) == Chain(0xbead02ca, 0xa01b846c, 0x8714787c, 0x503ca382, 0xfb86c6ab)
  {
    hide Steps, Schedule;
    var q := Chain(0xee1b1aaf, 0x7f193dc5, 0x25c28357, 0xff21f7b7, 0x8cb7872e);
    q := Next(44, q, 0xe2ba3c2b, 0x8f1bbcdc, 0x7f01b7d7, 0xc36355fd, 0x5fc64f71, 0x40f28e09);
    q := Next(45, q, 0x000060c0, 0x8f1bbcdc, 0x6fc20b77, 0x1e51c128, 0xfb86c6ab, 0x1c51e1f2);
    q := Next(46, q, 0x053a37cd, 0x8f1bbcdc, 0x5bc6ce29, 0x8a3c3e43, 0x503ca382, 0xa01b846c);
    q := Next(47, q, 0x74458547, 0x8f1bbcdc, 0x5814e3a2, 0x03708d94, 0x8714787c, 0xbead02ca);
  }

  lemma StepsFrom48()
    requires Row3() && Steps(START, BLOCK, 48) == Chain(0xbead02ca, 0xa01b846c, 0x8714787c, 0x503ca382, 0xfb86c6ab)
    ensures Steps(START, BLOCK, 52) == Chain(0x3847ad66, 0x641db2ce, 0x4481cc71, 0xeebce4cd, 0xafab40b2)
  {
    hide Steps, Schedule;
    var q := Chain(0xbead02ca, 0xa01b846c, 0x8714787c, 0x503ca382, 0xfb86c6ab);
    q := Next(48, q, 0xda9415ed, 0x8f1bbcdc, 0x801ca06c, 0xd5a05957, 0x2806e11b, 0xbaf39337);
    q := Next(49, q, 0x26380a16, 0x8f1bbcdc, 0xae04605a, 0x5e7266f7, 0xafab40b2, 0x120731c5);
    q := Next(50, q, 0x626383a1, 0x8f1bbcdc, 0xaaa3c133, 0x40e638a2, 0xeebce4cd, 0x641db2ce);
    q := Next(51, q, 0x4ebf54de, 0x8f1bbcdc, 0xaeaf60c5, 0x83b659cc, 0x4481cc71, 0x3847ad66);
  }

  lemma StepsFrom52()
    requires Row3() && Steps(START, BLOCK, 52) == Chain(0x3847ad66, 0x641db2ce, 0x4481cc71, 0xeebce4cd, 0xafab40b2)
    ensures Steps(START, BLOCK, 56) == Chain(0x5e6456af, 0x7b71f76d, 0x09fa7c76, 0x792410db, 0x8e11eb59)
  {
    hide Steps, Schedule;
    var q := Chain(0x3847ad66, 0x641db2ce, 0x4481cc71, 0xeebce4cd, 0xafab40b2);
    q := Next(52, q, 0x3835b44b, 0x8f1bbcdc, 0x649de4cd, 0x08f5acc7, 0x99076cb3, 0xe490436d);
    q := Next(53, q, 0x0000f600, 0x8f1bbcdc, 0x1807ec73, 0x92086dbc, 0x8e11eb59, 0x27e9f1d8);
    q := Next(54, q, 0x1e84c7a3, 0x8f1bbcdc, 0x8c116b79, 0xfd3e3b04, 0x792410db, 0x7b71f76d);
    q := Next(55, q, 0x98e04d98, 0x8f1bbcdc, 0x2f21f1d9, 0x6e3eedaf, 0x09fa7c76, 0x5e6456af);
  }

  lemma StepsFrom56()
    requires Row3() && Steps(START, BLOCK, 56) == Chain(0x5e6456af, 0x7b71f76d, 0x09fa7c76, 0x792410db, 0x8e11eb59)
    ensures Steps(START, BLOCK, 60) == Chain(0x3f52de5a, 0x09d785fd, 0x3498bfd4, 0xf211824f, 0xd79915ab)
  {
    hide Steps, Schedule;
    var q := Chain(0x5e6456af, 0x7b71f76d, 0x09fa7c76, 0x792410db, 0x8e11eb59);
    q := Next(56, q, 0x651d16a0, 0x8f1bbcdc, 0x7970747f, 0xcc8ad5eb, 0x5edc7ddb, 0xc846093f);
    q := Next(57, q, 0x62658ca1, 0x8f1bbcdc, 0x5efc7cff, 0x08c127f9, 0xd79915ab, 0xd262ff50);
    q := Next(58, q, 0x458544d6, 0x8f1bbcdc, 0xdedc1dbb, 0x4c5fea1a, 0xf211824f, 0x09d785fd);
    q := Next(59, q, 0x44584cb7, 0x8f1bbcdc, 0xd211974b, 0x3af0bfa1, 0x3498bfd4, 0x3f52de5a);
  }

  lemma StepsFrom60()
    requires Row3() && Steps(START, BLOCK, 60) == Chain(0x3f52de5a, 0x09d785fd, 0x3498bfd4, 0xf211824f, 0xd79915ab)
    ensures Steps(START, BLOCK, 64) == Chain(0x6b61c9e1, 0xb66c020b, 0x9523272c, 0xf5d5b051, 0x8fd4b796)
  {
    hide Steps, Schedule;
    var q := Chain(0x3f52de5a, 0x09d785fd, 0x3498bfd4, 0xf211824f, 0xd79915ab);
    q := Next(60, q, 0x7ba06619, 0xca62c1d6, 0xcf5eb866, 0xea5bcb47, 0x4275e17f, 0xd756c147);
    q := Next(61, q, 0x6380aea2, 0xca62c1d6, 0x49bf80f1, 0xead828fa, 0x8fd4b796, 0x548c9cb2);
    q := Next(62, q, 0x0ae55269, 0xca62c1d6, 0x1af797ae, 0x9193964a, 0xf5d5b051, 0xb66c020b);
    q := Next(63, q, 0x627b49a1, 0xca62c1d6, 0x2e8d9b75, 0xcd804176, 0x9523272c, 0x6b61c9e1);
  }

  lemma StepsFrom64()
    requires Row4() && Steps(START, BLOCK, 64) == Chain(0x6b61c9e1, 0xb66c020b, 0x9523272c, 0xf5d5b051, 0x8fd4b796)
    ensures Steps(START, BLOCK, 68) == Chain(0x78dd4d2b, 0x0c3df2b4, 0x4405957e, 0x0677e9eb, 0x5ad87278)
  {
    hide Steps, Schedule;
    var q := Chain(0x6b61c9e1, 0xb66c020b, 0x9523272c, 0xf5d5b051, 0x8fd4b796);
    q := Next(64, q, 0x7cd45c9d, 0xca62c1d6, 0xd69a9576, 0x6c393c2d, 0xed9b0082, 0x19dfa7ac);
    q := Next(65, q, 0x000f0000, 0xca62c1d6, 0x13d9ee4f, 0x3bf4f583, 0x5ad87278, 0x101655f9);
    q := Next(66, q, 0xfb50753a, 0xca62c1d6, 0xae9cd556, 0x02cabf22, 0x0677e9eb, 0x0c3df2b4);
    q := Next(67, q, 0xec6765e8, 0xca62c1d6, 0x4cb9ce6a, 0x87be5681, 0x4405957e, 0x78dd4d2b);
  }

  lemma StepsFrom68()
    requires Row4() && Steps(START, BLOCK, 68) == Chain(0x78dd4d2b, 0x0c3df2b4, 0x4405957e, 0x0677e9eb, 0x5ad87278)
    ensures Steps(START, BLOCK, 72) == Chain(0x39859de7, 0xc199f8c7, 0x8fc96230, 0x125c24f0, 0xde37534a)
  {
    hide Steps, Schedule;
    var q := Chain(0x78dd4d2b, 0x0c3df2b4, 0x4405957e, 0x0677e9eb, 0x5ad87278);
    q := Next(68, q, 0xba3c2be2, 0xca62c1d6, 0x4e4f8e21, 0x1ba9a56f, 0x030f7cad, 0x497093c0);
    q := Next(69, q, 0x0060c000, 0xca62c1d6, 0x3fd7a4f8, 0x2e127809, 0xde37534a, 0x3f2588c2);
    q := Next(70, q, 0x3a37cd05, 0xca62c1d6, 0x9448bc27, 0xe4b11847, 0x125c24f0, 0xc199f8c7);
    q := Next(71, q, 0x458546f4, 0xca62c1d6, 0xf34eff78, 0x333f18f8, 0x8fc96230, 0x39859de7);
  }

  lemma StepsFrom72()
    requires Row4() && Steps(START, BLOCK, 72) == Chain(0x39859de7, 0xc199f8c7, 0x8fc96230, 0x125c24f0, 0xde37534a)
    ensures Steps(START, BLOCK, 76) == Chain(0x63f7dab7, 0x5ee76897, 0xc45e4fdb, 0x3b6d0b79, 0xce616779)
  {
    hide Steps, Schedule;
    var q := Chain(0x39859de7, 0xc199f8c7, 0x8fc96230, 0x125c24f0, 0xde37534a);
    q := Next(72, q, 0xb8599dd6, 0xca62c1d6, 0x5c0cbe07, 0x30b3bce7, 0xf0667e31, 0xedb42de4);
    q := Next(73, q, 0x380a1a26, 0xca62c1d6, 0x462a81e6, 0xb685bc9d, 0xce616779, 0x11793f6f);
    q := Next(74, q, 0x01e02203, 0xca62c1d6, 0xd3b334ac, 0x2f27ede2, 0x3b6d0b79, 0x5ee76897);
    q := Next(75, q, 0xe7cc3456, 0xca62c1d6, 0xe475536f, 0xdced12eb, 0xc45e4fdb, 0x63f7dab7);
  }

  lemma StepsFrom76()
    requires Row4() && Steps(START, BLOCK, 76) == Chain(0x63f7dab7, 0x5ee76897, 0xc45e4fdb, 0x3b6d0b79, 0xce616779)
    ensures Steps(START, BLOCK, 80) == Chain(0x42541b35, 0x5738d5e1, 0x21834873, 0x681e6df6, 0xd8fdf6ad)
  {
    hide Steps, Schedule;
    var q := Chain(0x63f7dab7, 0x5ee76897, 0xc45e4fdb, 0x3b6d0b79, 0xce616779);
    q := Next(76, q, 0xe6e60b69, 0xca62c1d6, 0xa1d42c35, 0x7efb56ec, 0xd7b9da25, 0xa079b7d9);
    q := Next(77, q, 0x00f60a00, 0xca62c1d6, 0x70104f49, 0x0f36fb34, 0xd8fdf6ad, 0x860d21cc);
    q := Next(78, q, 0x5795ef4f, 0xca62c1d6, 0xaf3d9b51, 0xc1a43990, 0x681e6df6, 0x5738d5e1);
    q := Next(79, q, 0x822e0879, 0xca62c1d6, 0x36eeba97, 0xe71abc2a, 0x21834873, 0x42541b35);
  }

  lemma AllSteps()
    requires Row0() && Row1() && Row2() && Row3() && Row4()
    ensures Steps(START, BLOCK, 80) == Chain(0x42541b35, 0x5738d5e1, 0x21834873, 0x681e6df6, 0xd8fdf6ad)
  {
    assert Steps(START, BLOCK, 0) == START;
    hide Steps, Row0, Row1, Row2, Row3, Row4;
    StepsFrom0();
    StepsFrom4();
    StepsFrom8();
    StepsFrom12();
    StepsFrom16();
    StepsFrom20();
    StepsFrom24();
    StepsFrom28();
    StepsFrom32();
    StepsFrom36();
    StepsFrom40();
    StepsFrom44();
    StepsFrom48();
    StepsFrom52();
    StepsFrom56();
    StepsFrom60();
    StepsFrom64();
    StepsFrom68();
    StepsFrom72();
    StepsFrom76();
  }

  // ------------------------------------------------------------ the digest

  lemma FirstWord(t: nat, b0: bv8, b1: bv8, b2: bv8, b3: bv8, w: bv32)
    requires t < 16 && BLOCK[4 * t] == b0 && BLOCK[4 * t + 1] == b1 && BLOCK[4 * t + 2] == b2 && BLOCK[4 * t + 3] == b3
    requires BigWord(b0, b1, b2, b3) == w
    ensures Schedule(BLOCK, t) == w
  {
    hide BigWord;
  }

  lemma MakeRow0()
    ensures Row0()
  {
    ZeroWord();
    WordOfLetters();
    WordOfLength();
    hide Schedule, BigWord;
    FirstWord(0, 0x61, 0x62, 0x63, 0x80, 0x61626380);
    forall t | 0 < t < 15
      ensures Schedule(BLOCK, t) == 0
    {
      FirstWord(t, 0, 0, 0, 0, 0);
    }
    FirstWord(15, 0, 0, 0, 0x18, 0x18);
  }

  lemma ZeroWord()
    ensures BigWord(0, 0, 0, 0) == 0
  {
  }

  lemma WordOfLetters()
    ensures BigWord(0x61, 0x62, 0x63, 0x80) == 0x61626380
  {
  }

  lemma WordOfLength()
    ensures BigWord(0, 0, 0, 0x18) == 0x18
  {
  }

  lemma AllWords()
    ensures Row0() && Row1() && Row2() && Row3() && Row4()
  {
    hide Row0, Row1, Row2, Row3, Row4;
    MakeRow0();
    MakeRow1();
    MakeRow2();
    MakeRow3();
    MakeRow4();
  }

  lemma PaddedIs()
    ensures Padded(MESSAGE) == BLOCK
  {
    PadIs();
    LengthIs();
    FirstFour();
    hide PadCount, NumberBytes, Zeros;
  }

  lemma PadIs()
    ensures PadCount(3) == 52
  {
    PadCases(3);
  }

  lemma FirstFour()
    ensures MESSAGE + [0x80] == [0x61, 0x62, 0x63, 0x80]
  {
  }

  lemma LengthIs()
    ensures NumberBytes(Wrap64(8 * 3)) == [0, 0, 0, 0, 0, 0, 0, 0x18]
  {
    assert Wrap64(8 * 3) == 24;
    NumberBytesOf24();
    hide NumberBytes;
  }

  lemma LowBytes()
    ensures LowByteOf(0) == 0 && LowByteOf(24) == 0x18
  {
  }

  lemma NumberBytesOf24()
    ensures NumberBytes(24) == [0, 0, 0, 0, 0, 0, 0, 0x18]
  {
    LowBytes();
    hide LowByteOf;
  }

  lemma SumIs()
    ensures Compress(START, BLOCK) == Chain(0xa9993e36, 0x4706816a, 0xba3e2571, 0x7850c26c, 0x9cd0d89d)
  {
    AllWords();
    AllSteps();
    hide Steps, Row0, Row1, Row2, Row3, Row4;
  }

  lemma BytesAre()
    ensures DigestBytes(Chain(0xa9993e36, 0x4706816a, 0xba3e2571, 0x7850c26c, 0x9cd0d89d)) == [
      0xa9, 0x99, 0x3e, 0x36, 0x47, 0x06, 0x81, 0x6a, 0xba, 0x3e,
      0x25, 0x71, 0x78, 0x50, 0xc2, 0x6c, 0x9c, 0xd0, 0xd8, 0x9d]
  {
  }

  /** The digest of "abc" is a9993e36 4706816a ba3e2571 7850c26c 9cd0d89d. */
  lemma DigestOfAbc()
    ensures Digest(MESSAGE) == [
      0xa9, 0x99, 0x3e, 0x36, 0x47, 0x06, 0x81, 0x6a, 0xba, 0x3e,
      0x25, 0x71, 0x78, 0x50, 0xc2, 0x6c, 0x9c, 0xd0, 0xd8, 0x9d]
  {
    hide Compress, DigestBytes, Padded;
    PaddedIs();
    SumIs();
    BytesAre();
    FoldBlock(64, Compress, START, BLOCK);
  }
}
