// The two unrolled products of curve25519-donna.c, limb by limb. Each limb is
// verified against the convolution Conv, and every cast to 32 bits and every
// intermediate sum is verified to fit.
module UnrolledProduct {
  import opened Arith
  import opened FieldSpec

  /** The int32_t of the source. */
  newtype s32 = x: int | -0x8000_0000 <= x < 0x8000_0000

  /** The magnitude below which limb i is called reduced. */
  function Limit(i: int): limb
  {
    if i % 2 == 0 then 0x400_0000 else 0x200_0000
  }

  /** Ten limbs, each below k times its limit in magnitude. */
  predicate Within(a: seq<limb>, k: int)
  {
    |a| == 10 && forall i :: 0 <= i < 10 ==> -k * Limit(i) as int < a[i] as int < k * Limit(i) as int
  }

  /** The product of two limbs that are first cast to 32 bits. */
  function M(x: limb, y: limb): (r: limb)
    requires -0x8000_0000 <= x < 0x8000_0000 && -0x8000_0000 <= y < 0x8000_0000
    ensures r as int == Times(x as int, y as int)
  {
    TimesMagnitude(x as int, y as int, 0x8000_0000);
    (x as s32) as limb * (y as s32) as limb
  }

  lemma MBounds(x: int, y: int)
    requires -0x800_0000 < x < 0x800_0000 && -0x800_0000 < y < 0x800_0000
    ensures -0x40_0000_0000_0000 <= Times(x, y) <= 0x40_0000_0000_0000
    ensures -0x400_0000 < x < 0x400_0000 && -0x400_0000 < y < 0x400_0000
        ==> -0x10_0000_0000_0000 <= Times(x, y) <= 0x10_0000_0000_0000
  {
    TimesMagnitude(x, y, 0x800_0000);
    if -0x400_0000 < x < 0x400_0000 && -0x400_0000 < y < 0x400_0000 {
      TimesMagnitude(x, y, 0x400_0000);
    }
  }

  /** All the products of two short forms fit in 54 bits, and of their odd limbs in 52. */
  lemma AllBounds(f: seq<limb>, g: seq<limb>)
    requires Within(f, 2) && Within(g, 2)
    ensures forall i, j :: 0 <= i < 10 && 0 <= j < 10 ==>
        -0x40_0000_0000_0000 <= Times(f[i] as int, g[j] as int) <= 0x40_0000_0000_0000
    ensures forall i, j :: 0 <= i < 10 && 0 <= j < 10 && i % 2 == j % 2 == 1 ==>
        -0x10_0000_0000_0000 <= Times(f[i] as int, g[j] as int) <= 0x10_0000_0000_0000
  {
    forall i, j | 0 <= i < 10 && 0 <= j < 10
      ensures -0x40_0000_0000_0000 <= Times(f[i] as int, g[j] as int) <= 0x40_0000_0000_0000
      ensures i % 2 == j % 2 == 1 ==> -0x10_0000_0000_0000 <= Times(f[i] as int, g[j] as int) <= 0x10_0000_0000_0000
    {
      hide Times;
      MBounds(f[i] as int, g[j] as int);
    }
  }

  function Product0(f: seq<limb>, g: seq<limb>): (r: limb)
    requires Within(f, 2) && Within(g, 2)
    ensures r as int == Conv(f, g, 0)
  {
    hide Times, M;
    AllBounds(f, g);
    ConvRows(f, g, 0);
    hide Conv;
    M(f[0], g[0])
  }

  function Product1(f: seq<limb>, g: seq<limb>): (r: limb)
    requires Within(f, 2) && Within(g, 2)
    ensures r as int == Conv(f, g, 1)
  {
    hide Times, M;
    AllBounds(f, g);
    ConvRows(f, g, 1);
    hide Conv;
    M(f[0], g[1]) + M(f[1], g[0])
  }

  function Product2(f: seq<limb>, g: seq<limb>): (r: limb)
    requires Within(f, 2) && Within(g, 2)
    ensures r as int == Conv(f, g, 2)
  {
    hide Times, M;
    AllBounds(f, g);
    ConvRows(f, g, 2);
    hide Conv;
    2 * M(f[1], g[1]) + M(f[0], g[2]) + M(f[2], g[0])
  }

  function Product3(f: seq<limb>, g: seq<limb>): (r: limb)
    requires Within(f, 2) && Within(g, 2)
    ensures r as int == Conv(f, g, 3)
  {
    hide Times, M;
    AllBounds(f, g);
    ConvRows(f, g, 3);
    hide Conv;
    M(f[1], g[2]) + M(f[2], g[1]) + M(f[0], g[3]) + M(f[3], g[0])
  }

  function Product4(f: seq<limb>, g: seq<limb>): (r: limb)
    requires Within(f, 2) && Within(g, 2)
    ensures r as int == Conv(f, g, 4)
  {
    hide Times, M;
    AllBounds(f, g);
    ConvRows(f, g, 4);
    hide Conv;
    M(f[2], g[2]) + 2 * (M(f[1], g[3]) + M(f[3], g[1])) + M(f[0], g[4]) + M(f[4], g[0])
  }

  function Product5(f: seq<limb>, g: seq<limb>): (r: limb)
    requires Within(f, 2) && Within(g, 2)
    ensures r as int == Conv(f, g, 5)
  {
    hide Times, M;
    AllBounds(f, g);
    ConvRows(f, g, 5);
    hide Conv;
    M(f[2], g[3]) + M(f[3], g[2]) + M(f[1], g[4]) + M(f[4], g[1]) + M(f[0], g[5]) + M(f[5], g[0])
  }

  function Product6(f: seq<limb>, g: seq<limb>): (r: limb)
    requires Within(f, 2) && Within(g, 2)
    ensures r as int == Conv(f, g, 6)
  {
    hide Times, M;
    AllBounds(f, g);
    ConvRows(f, g, 6);
    hide Conv;
    2 * (M(f[3], g[3]) + M(f[1], g[5]) + M(f[5], g[1])) + M(f[2], g[4]) + M(f[4], g[2]) +
    M(f[0], g[6]) + M(f[6], g[0])
  }

  function Product7(f: seq<limb>, g: seq<limb>): (r: limb)
    requires Within(f, 2) && Within(g, 2)
    ensures r as int == Conv(f, g, 7)
  {
    hide Times, M;
    AllBounds(f, g);
    ConvRows(f, g, 7);
    hide Conv;
    M(f[3], g[4]) + M(f[4], g[3]) + M(f[2], g[5]) + M(f[5], g[2]) + M(f[1], g[6]) + M(f[6], g[1]) +
    M(f[0], g[7]) + M(f[7], g[0])
  }

  function Product8(f: seq<limb>, g: seq<limb>): (r: limb)
    requires Within(f, 2) && Within(g, 2)
    ensures r as int == Conv(f, g, 8)
  {
    hide Times, M;
    AllBounds(f, g);
    ConvRows(f, g, 8);
    hide Conv;
    M(f[4], g[4]) + 2 * (M(f[3], g[5]) + M(f[5], g[3]) + M(f[1], g[7]) + M(f[7], g[1])) +
    M(f[2], g[6]) + M(f[6], g[2]) + M(f[0], g[8]) + M(f[8], g[0])
  }

  function Product9(f: seq<limb>, g: seq<limb>): (r: limb)
    requires Within(f, 2) && Within(g, 2)
    ensures r as int == Conv(f, g, 9)
  {
    hide Times, M;
    AllBounds(f, g);
    ConvRows(f, g, 9);
    hide Conv;
    M(f[4], g[5]) + M(f[5], g[4]) + M(f[3], g[6]) + M(f[6], g[3]) + M(f[2], g[7]) + M(f[7], g[2]) +
    M(f[1], g[8]) + M(f[8], g[1]) + M(f[0], g[9]) + M(f[9], g[0])
  }

  function Product10(f: seq<limb>, g: seq<limb>): (r: limb)
    requires Within(f, 2) && Within(g, 2)
    ensures r as int == Conv(f, g, 10)
  {
    hide Times, M;
    AllBounds(f, g);
    ConvRows(f, g, 10);
    hide Conv;
    2 * (M(f[5], g[5]) + M(f[3], g[7]) + M(f[7], g[3]) + M(f[1], g[9]) + M(f[9], g[1])) +
    M(f[4], g[6]) + M(f[6], g[4]) + M(f[2], g[8]) + M(f[8], g[2])
  }

  function Product11(f: seq<limb>, g: seq<limb>): (r: limb)
    requires Within(f, 2) && Within(g, 2)
    ensures r as int == Conv(f, g, 11)
  {
    hide Times, M;
    AllBounds(f, g);
    ConvRows(f, g, 11);
    hide Conv;
    M(f[5], g[6]) + M(f[6], g[5]) + M(f[4], g[7]) + M(f[7], g[4]) + M(f[3], g[8]) + M(f[8], g[3]) +
    M(f[2], g[9]) + M(f[9], g[2])
  }

  function Product12(f: seq<limb>, g: seq<limb>): (r: limb)
    requires Within(f, 2) && Within(g, 2)
    ensures r as int == Conv(f, g, 12)
  {
    hide Times, M;
    AllBounds(f, g);
    ConvRows(f, g, 12);
    hide Conv;
    M(f[6], g[6]) + 2 * (M(f[5], g[7]) + M(f[7], g[5]) + M(f[3], g[9]) + M(f[9], g[3])) +
    M(f[4], g[8]) + M(f[8], g[4])
  }

  function Product13(f: seq<limb>, g: seq<limb>): (r: limb)
    requires Within(f, 2) && Within(g, 2)
    ensures r as int == Conv(f, g, 13)
  {
    hide Times, M;
    AllBounds(f, g);
    ConvRows(f, g, 13);
    hide Conv;
    M(f[6], g[7]) + M(f[7], g[6]) + M(f[5], g[8]) + M(f[8], g[5]) + M(f[4], g[9]) + M(f[9], g[4])
  }

  function Product14(f: seq<limb>, g: seq<limb>): (r: limb)
    requires Within(f, 2) && Within(g, 2)
    ensures r as int == Conv(f, g, 14)
  {
    hide Times, M;
    AllBounds(f, g);
    ConvRows(f, g, 14);
    hide Conv;
    2 * (M(f[7], g[7]) + M(f[5], g[9]) + M(f[9], g[5])) + M(f[6], g[8]) + M(f[8], g[6])
  }

  function Product15(f: seq<limb>, g: seq<limb>): (r: limb)
    requires Within(f, 2) && Within(g, 2)
    ensures r as int == Conv(f, g, 15)
  {
    hide Times, M;
    AllBounds(f, g);
    ConvRows(f, g, 15);
    hide Conv;
    M(f[7], g[8]) + M(f[8], g[7]) + M(f[6], g[9]) + M(f[9], g[6])
  }

  function Product16(f: seq<limb>, g: seq<limb>): (r: limb)
    requires Within(f, 2) && Within(g, 2)
    ensures r as int == Conv(f, g, 16)
  {
    hide Times, M;
    AllBounds(f, g);
    ConvRows(f, g, 16);
    hide Conv;
    M(f[8], g[8]) + 2 * (M(f[7], g[9]) + M(f[9], g[7]))
  }

  function Product17(f: seq<limb>, g: seq<limb>): (r: limb)
    requires Within(f, 2) && Within(g, 2)
    ensures r as int == Conv(f, g, 17)
  {
    hide Times, M;
    AllBounds(f, g);
    ConvRows(f, g, 17);
    hide Conv;
    M(f[8], g[9]) + M(f[9], g[8])
  }

  function Product18(f: seq<limb>, g: seq<limb>): (r: limb)
    requires Within(f, 2) && Within(g, 2)
    ensures r as int == Conv(f, g, 18)
  {
    hide Times, M;
    AllBounds(f, g);
    ConvRows(f, g, 18);
    hide Conv;
    2 * M(f[9], g[9])
  }

  function Square0(f: seq<limb>): (r: limb)
    requires Within(f, 2)
    ensures r as int == Conv(f, f, 0)
  {
    hide Times, M;
    AllBounds(f, f);
    ConvRows(f, f, 0);
    hide Conv;
    M(f[0], f[0])
  }

  function Square1(f: seq<limb>): (r: limb)
    requires Within(f, 2)
    ensures r as int == Conv(f, f, 1)
  {
    hide Times, M;
    AllBounds(f, f);
    ConvRows(f, f, 1);
    hide Conv;
    TimesCommutes(f[0] as int, f[1] as int);
    2 * M(f[0], f[1])
  }

  function Square2(f: seq<limb>): (r: limb)
    requires Within(f, 2)
    ensures r as int == Conv(f, f, 2)
  {
    hide Times, M;
    AllBounds(f, f);
    ConvRows(f, f, 2);
    hide Conv;
    TimesCommutes(f[0] as int, f[2] as int);
    2 * (M(f[1], f[1]) + M(f[0], f[2]))
  }

  function Square3(f: seq<limb>): (r: limb)
    requires Within(f, 2)
    ensures r as int == Conv(f, f, 3)
  {
    hide Times, M;
    AllBounds(f, f);
    ConvRows(f, f, 3);
    hide Conv;
    TimesCommutes(f[0] as int, f[3] as int);
    TimesCommutes(f[1] as int, f[2] as int);
    2 * (M(f[1], f[2]) + M(f[0], f[3]))
  }

  function Square4(f: seq<limb>): (r: limb)
    requires Within(f, 2)
    ensures r as int == Conv(f, f, 4)
  {
    hide Times, M;
    AllBounds(f, f);
    ConvRows(f, f, 4);
    hide Conv;
    TimesCommutes(f[0] as int, f[4] as int);
    TimesCommutes(f[1] as int, f[3] as int);
    M(f[2], f[2]) + 4 * M(f[1], f[3]) + 2 * M(f[0], f[4])
  }

  function Square5(f: seq<limb>): (r: limb)
    requires Within(f, 2)
    ensures r as int == Conv(f, f, 5)
  {
    hide Times, M;
    AllBounds(f, f);
    ConvRows(f, f, 5);
    hide Conv;
    TimesCommutes(f[0] as int, f[5] as int);
    TimesCommutes(f[1] as int, f[4] as int);
    TimesCommutes(f[2] as int, f[3] as int);
    2 * (M(f[2], f[3]) + M(f[1], f[4]) + M(f[0], f[5]))
  }

  function Square6(f: seq<limb>): (r: limb)
    requires Within(f, 2)
    ensures r as int == Conv(f, f, 6)
  {
    hide Times, M;
    AllBounds(f, f);
    ConvRows(f, f, 6);
    hide Conv;
    TimesCommutes(f[0] as int, f[6] as int);
    TimesCommutes(f[1] as int, f[5] as int);
    TimesCommutes(f[2] as int, f[4] as int);
    2 * (M(f[3], f[3]) + M(f[2], f[4]) + M(f[0], f[6]) + 2 * M(f[1], f[5]))
  }

  function Square7(f: seq<limb>): (r: limb)
    requires Within(f, 2)
    ensures r as int == Conv(f, f, 7)
  {
    hide Times, M;
    AllBounds(f, f);
    ConvRows(f, f, 7);
    hide Conv;
    TimesCommutes(f[0] as int, f[7] as int);
    TimesCommutes(f[1] as int, f[6] as int);
    TimesCommutes(f[2] as int, f[5] as int);
    TimesCommutes(f[3] as int, f[4] as int);
    2 * (M(f[3], f[4]) + M(f[2], f[5]) + M(f[1], f[6]) + M(f[0], f[7]))
  }

  function Square8(f: seq<limb>): (r: limb)
    requires Within(f, 2)
    ensures r as int == Conv(f, f, 8)
  {
    hide Times, M;
    AllBounds(f, f);
    ConvRows(f, f, 8);
    hide Conv;
    TimesCommutes(f[0] as int, f[8] as int);
    TimesCommutes(f[1] as int, f[7] as int);
    TimesCommutes(f[2] as int, f[6] as int);
    TimesCommutes(f[3] as int, f[5] as int);
    M(f[4], f[4]) + 2 * (M(f[2], f[6]) + M(f[0], f[8]) + 2 * (M(f[1], f[7]) + M(f[3], f[5])))
  }

  function Square9(f: seq<limb>): (r: limb)
    requires Within(f, 2)
    ensures r as int == Conv(f, f, 9)
  {
    hide Times, M;
    AllBounds(f, f);
    ConvRows(f, f, 9);
    hide Conv;
    TimesCommutes(f[0] as int, f[9] as int);
    TimesCommutes(f[1] as int, f[8] as int);
    TimesCommutes(f[2] as int, f[7] as int);
    TimesCommutes(f[3] as int, f[6] as int);
    TimesCommutes(f[4] as int, f[5] as int);
    2 * (M(f[4], f[5]) + M(f[3], f[6]) + M(f[2], f[7]) + M(f[1], f[8]) + M(f[0], f[9]))
  }

  function Square10(f: seq<limb>): (r: limb)
    requires Within(f, 2)
    ensures r as int == Conv(f, f, 10)
  {
    hide Times, M;
    AllBounds(f, f);
    ConvRows(f, f, 10);
    hide Conv;
    TimesCommutes(f[1] as int, f[9] as int);
    TimesCommutes(f[2] as int, f[8] as int);
    TimesCommutes(f[3] as int, f[7] as int);
    TimesCommutes(f[4] as int, f[6] as int);
    2 * (M(f[5], f[5]) + M(f[4], f[6]) + M(f[2], f[8]) + 2 * (M(f[3], f[7]) + M(f[1], f[9])))
  }

  function Square11(f: seq<limb>): (r: limb)
    requires Within(f, 2)
    ensures r as int == Conv(f, f, 11)
  {
    hide Times, M;
    AllBounds(f, f);
    ConvRows(f, f, 11);
    hide Conv;
    TimesCommutes(f[2] as int, f[9] as int);
    TimesCommutes(f[3] as int, f[8] as int);
    TimesCommutes(f[4] as int, f[7] as int);
    TimesCommutes(f[5] as int, f[6] as int);
    2 * (M(f[5], f[6]) + M(f[4], f[7]) + M(f[3], f[8]) + M(f[2], f[9]))
  }

  function Square12(f: seq<limb>): (r: limb)
    requires Within(f, 2)
    ensures r as int == Conv(f, f, 12)
  {
    hide Times, M;
    AllBounds(f, f);
    ConvRows(f, f, 12);
    hide Conv;
    TimesCommutes(f[3] as int, f[9] as int);
    TimesCommutes(f[4] as int, f[8] as int);
    TimesCommutes(f[5] as int, f[7] as int);
    M(f[6], f[6]) + 2 * (M(f[4], f[8]) + 2 * (M(f[5], f[7]) + M(f[3], f[9])))
  }

  function Square13(f: seq<limb>): (r: limb)
    requires Within(f, 2)
    ensures r as int == Conv(f, f, 13)
  {
    hide Times, M;
    AllBounds(f, f);
    ConvRows(f, f, 13);
    hide Conv;
    TimesCommutes(f[4] as int, f[9] as int);
    TimesCommutes(f[5] as int, f[8] as int);
    TimesCommutes(f[6] as int, f[7] as int);
    2 * (M(f[6], f[7]) + M(f[5], f[8]) + M(f[4], f[9]))
  }

  function Square14(f: seq<limb>): (r: limb)
    requires Within(f, 2)
    ensures r as int == Conv(f, f, 14)
  {
    hide Times, M;
    AllBounds(f, f);
    ConvRows(f, f, 14);
    hide Conv;
    TimesCommutes(f[5] as int, f[9] as int);
    TimesCommutes(f[6] as int, f[8] as int);
    2 * (M(f[7], f[7]) + M(f[6], f[8]) + 2 * M(f[5], f[9]))
  }

  function Square15(f: seq<limb>): (r: limb)
    requires Within(f, 2)
    ensures r as int == Conv(f, f, 15)
  {
    hide Times, M;
    AllBounds(f, f);
    ConvRows(f, f, 15);
    hide Conv;
    TimesCommutes(f[6] as int, f[9] as int);
    TimesCommutes(f[7] as int, f[8] as int);
    2 * (M(f[7], f[8]) + M(f[6], f[9]))
  }

  function Square16(f: seq<limb>): (r: limb)
    requires Within(f, 2)
    ensures r as int == Conv(f, f, 16)
  {
    hide Times, M;
    AllBounds(f, f);
    ConvRows(f, f, 16);
    hide Conv;
    TimesCommutes(f[7] as int, f[9] as int);
    M(f[8], f[8]) + 4 * M(f[7], f[9])
  }

  function Square17(f: seq<limb>): (r: limb)
    requires Within(f, 2)
    ensures r as int == Conv(f, f, 17)
  {
    hide Times, M;
    AllBounds(f, f);
    ConvRows(f, f, 17);
    hide Conv;
    TimesCommutes(f[8] as int, f[9] as int);
    2 * M(f[8], f[9])
  }

  function Square18(f: seq<limb>): (r: limb)
    requires Within(f, 2)
    ensures r as int == Conv(f, f, 18)
  {
    hide Times, M;
    AllBounds(f, f);
    ConvRows(f, f, 18);
    hide Conv;
    2 * M(f[9], f[9])
  }

  /** The first ten assignments of the source. */
  method FProductLow(output: array<limb>, in2: array<limb>, in1: array<limb>)
    requires output.Length == 19 && in2.Length >= 10 && output != in2 && in1.Length >= 10 && output != in1
    requires Within(in2[..10], 2) && Within(in1[..10], 2)
    modifies output
    ensures forall k :: 0 <= k < 10 ==> output[k] as int == Conv(in2[..10], in1[..10], k)
  {
    hide *;
    output[0] := Product0(in2[..10], in1[..10]);
    output[1] := Product1(in2[..10], in1[..10]);
    output[2] := Product2(in2[..10], in1[..10]);
    output[3] := Product3(in2[..10], in1[..10]);
    output[4] := Product4(in2[..10], in1[..10]);
    output[5] := Product5(in2[..10], in1[..10]);
    output[6] := Product6(in2[..10], in1[..10]);
    output[7] := Product7(in2[..10], in1[..10]);
    output[8] := Product8(in2[..10], in1[..10]);
    output[9] := Product9(in2[..10], in1[..10]);
  }

  /** The last nine assignments of the source. */
  method FProductHigh(output: array<limb>, in2: array<limb>, in1: array<limb>)
    requires output.Length == 19 && in2.Length >= 10 && output != in2 && in1.Length >= 10 && output != in1
    requires Within(in2[..10], 2) && Within(in1[..10], 2)
    modifies output
    ensures forall k :: 10 <= k < 19 ==> output[k] as int == Conv(in2[..10], in1[..10], k)
    ensures output[..10] == old(output[..10])
  {
    hide *;
    output[10] := Product10(in2[..10], in1[..10]);
    output[11] := Product11(in2[..10], in1[..10]);
    output[12] := Product12(in2[..10], in1[..10]);
    output[13] := Product13(in2[..10], in1[..10]);
    output[14] := Product14(in2[..10], in1[..10]);
    output[15] := Product15(in2[..10], in1[..10]);
    output[16] := Product16(in2[..10], in1[..10]);
    output[17] := Product17(in2[..10], in1[..10]);
    output[18] := Product18(in2[..10], in1[..10]);
  }

  /** The unrolled product: output must be distinct from both inputs. */
  method FProduct(output: array<limb>, in2: array<limb>, in1: array<limb>)
    requires output.Length == 19 && in2.Length >= 10 && output != in2 && in1.Length >= 10 && output != in1
    requires Within(in2[..10], 2) && Within(in1[..10], 2)
    modifies output
    ensures forall k :: 0 <= k < 19 ==> output[k] as int == Conv(in2[..10], in1[..10], k)
  {
    hide *;
    FProductLow(output, in2, in1);
    FProductHigh(output, in2, in1);
    assert forall k :: 0 <= k < 10 ==> output[k] == output[..10][k];
  }

  /** The first ten assignments of the source. */
  method FSquareInnerLow(output: array<limb>, in1: array<limb>)
    requires output.Length == 19 && in1.Length >= 10 && output != in1
    requires Within(in1[..10], 2)
    modifies output
    ensures forall k :: 0 <= k < 10 ==> output[k] as int == Conv(in1[..10], in1[..10], k)
  {
    hide *;
    output[0] := Square0(in1[..10]);
    output[1] := Square1(in1[..10]);
    output[2] := Square2(in1[..10]);
    output[3] := Square3(in1[..10]);
    output[4] := Square4(in1[..10]);
    output[5] := Square5(in1[..10]);
    output[6] := Square6(in1[..10]);
    output[7] := Square7(in1[..10]);
    output[8] := Square8(in1[..10]);
    output[9] := Square9(in1[..10]);
  }

  /** The last nine assignments of the source. */
  method FSquareInnerHigh(output: array<limb>, in1: array<limb>)
    requires output.Length == 19 && in1.Length >= 10 && output != in1
    requires Within(in1[..10], 2)
    modifies output
    ensures forall k :: 10 <= k < 19 ==> output[k] as int == Conv(in1[..10], in1[..10], k)
    ensures output[..10] == old(output[..10])
  {
    hide *;
    output[10] := Square10(in1[..10]);
    output[11] := Square11(in1[..10]);
    output[12] := Square12(in1[..10]);
    output[13] := Square13(in1[..10]);
    output[14] := Square14(in1[..10]);
    output[15] := Square15(in1[..10]);
    output[16] := Square16(in1[..10]);
    output[17] := Square17(in1[..10]);
    output[18] := Square18(in1[..10]);
  }

  /** The unrolled square: limb by limb the product of the input with itself. */
  method FSquareInner(output: array<limb>, in1: array<limb>)
    requires output.Length == 19 && in1.Length >= 10 && output != in1
    requires Within(in1[..10], 2)
    modifies output
    ensures forall k :: 0 <= k < 19 ==> output[k] as int == Conv(in1[..10], in1[..10], k)
  {
    hide *;
    FSquareInnerLow(output, in1);
    FSquareInnerHigh(output, in1);
    assert forall k :: 0 <= k < 10 ==> output[k] == output[..10][k];
  }
}
