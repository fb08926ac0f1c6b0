// Powers of two, bitwise operations on naturals and little-endian byte strings.
module Bits {
  import opened Arith

  newtype byte = x: int | 0 <= x < 256

  /** 2 to the power n. */
  function Pow2(n: nat): (r: nat)
    ensures r > 0
  {
    if n == 0 then 1 else 2 * Pow2(n - 1)
  }

  /** n >> k. */
  function Shr(n: nat, k: nat): nat
  {
    DivMod(n, Pow2(k));
    n / Pow2(k)
  }

  /** The k low bits of n. */
  function Low(n: nat, k: nat): nat
  {
    n % Pow2(k)
  }

  lemma {:induction false} Pow2Add(m: nat, n: nat)
    ensures Pow2(m + n) == Times(Pow2(m), Pow2(n))
  {
    hide Times;
    if m == 0 {
      TimesSigns(1, Pow2(n));
    } else {
      Pow2Add(m - 1, n);
      assert Pow2(m + n) == 2 * Pow2(m - 1 + n);
      TimesTwo(Pow2(m - 1), Pow2(n));
    }
  }

  lemma Pow2Zero()
    ensures Pow2(0) == 1
  {
  }

  lemma Pow2Small()
    ensures Pow2(1) == 2 && Pow2(2) == 4 && Pow2(3) == 8 && Pow2(4) == 16
    ensures Pow2(5) == 32 && Pow2(6) == 64 && Pow2(7) == 128 && Pow2(8) == 256
  {
  }

  lemma Pow2Big()
    ensures Pow2(16) == 0x1_0000
    ensures Pow2(24) == 0x100_0000
    ensures Pow2(25) == 0x200_0000
    ensures Pow2(26) == 0x400_0000
    ensures Pow2(32) == 0x1_0000_0000
  {
    Pow2Small();
    Pow2Add(8, 8);
    Pow2Add(16, 8);
    Pow2Add(1, 24);
    Pow2Add(1, 25);
    Pow2Add(16, 16);
  }

  // ------------------------------------------------- bitwise operations

  /** Bitwise and of two naturals. */
  function And(a: nat, b: nat): nat
    decreases a
  {
    if a == 0 then 0 else (if a % 2 == 1 && b % 2 == 1 then 1 else 0) + 2 * And(a / 2, b / 2)
  }

  /** Bitwise or of two naturals. */
  function Or(a: nat, b: nat): nat
    decreases a
  {
    if a == 0 then b else (if a % 2 == 1 || b % 2 == 1 then 1 else 0) + 2 * Or(a / 2, b / 2)
  }

  /** A mask of k ones keeps the k low bits. */
  lemma {:induction false} AndMask(a: nat, k: nat)
    ensures And(a, Pow2(k) - 1) == Low(a, k)
  {
    if k == 0 {
      AndZero(a);
    } else {
      AndMask(a / 2, k - 1);
      assert (Pow2(k) - 1) / 2 == Pow2(k - 1) - 1 && (Pow2(k) - 1) % 2 == 1;
      ModHalf(a, Pow2(k - 1));
    }
  }

  lemma ModHalf(a: nat, m: nat)
    requires m > 0
    ensures a % (2 * m) == a % 2 + 2 * (a / 2 % m)
  {
    DivDiv(a, 2, m);
    TimesTwo(1, m);
    TimesTwo(1, a / 2 % m);
  }

  lemma {:induction false} AndZero(a: nat)
    ensures And(a, 0) == 0
  {
    if a > 0 {
      AndZero(a / 2);
    }
  }

  lemma AndEven(a: nat, m: nat)
    ensures And(a, 2 * m) == 2 * And(a / 2, m)
  {
    assert 2 * m / 2 == m && 2 * m % 2 == 0;
  }

  lemma OrEven(a: nat, m: nat)
    ensures Or(a, 2 * m) == a % 2 + 2 * Or(a / 2, m)
  {
    var b := 2 * m;
    assert b / 2 == m && b % 2 == 0;
    if a == 0 {
      assert Or(0, m) == m;
    } else {
      assert Or(a, b) == (if a % 2 == 1 || b % 2 == 1 then 1 else 0) + 2 * Or(a / 2, b / 2);
    }
  }

  lemma And248(a: nat)
    requires a < 256
    ensures And(a, 248) == a - a % 8
  {
    hide And;
    Pow2Small();
    var b := a / 2;
    var c := b / 2;
    var d := c / 2;
    AndEven(a, 124);
    AndEven(b, 62);
    AndEven(c, 31);
    AndMask(d, 5);
  }

  lemma Or1(a: nat)
    ensures Or(a, 1) == a - a % 2 + 1
  {
    if a > 0 {
      assert Or(a / 2, 0) == a / 2 by { OrZero(a / 2); }
    }
  }

  lemma {:induction false} OrZero(a: nat)
    ensures Or(a, 0) == a
  {
    if a > 0 {
      OrZero(a / 2);
    }
  }

  lemma Or64(a: nat)
    requires a < 128
    ensures Or(a, 64) == a % 64 + 64
  {
    hide Or;
    Or32(a / 2);
    OrEven(a, 32);
  }

  lemma Or32(a: nat)
    requires a < 64
    ensures Or(a, 32) == a % 32 + 32
  {
    hide Or;
    var b := a / 2;
    var c := b / 2;
    var d := c / 2;
    var e := d / 2;
    OrEven(a, 16);
    OrEven(b, 8);
    OrEven(c, 4);
    OrEven(d, 2);
    OrEven(e, 1);
    Or1(e / 2);
  }

  /** Disjoint bits add up. */
  lemma {:induction false} OrDisjoint(a: nat, b: nat, k: nat)
    requires a < Pow2(k) && b % Pow2(k) == 0
    ensures Or(a, b) == a + b
  {
    if k == 0 {
    } else {
      ModHalf(b, Pow2(k - 1));
      OrDisjoint(a / 2, b / 2, k - 1);
    }
  }

  // -------------------------------------------------------- little endian

  /** The number that a little-endian string of bytes stands for. */
  function LittleEndian(s: seq<byte>): nat
  {
    if |s| == 0 then 0 else s[0] as int + 256 * LittleEndian(s[1..])
  }

  lemma Pow2Byte(k: nat)
    ensures Pow2(8 * (k + 1)) == 256 * Pow2(8 * k)
  {
    Pow2Small();
    Pow2Add(8, 8 * k);
  }

  lemma {:induction false} LittleEndianAppend(a: seq<byte>, b: seq<byte>)
    ensures LittleEndian(a + b) == LittleEndian(a) + Times(Pow2(8 * |a|), LittleEndian(b))
  {
    hide Times;
    if |a| == 0 {
      assert a + b == b;
      TimesSigns(1, LittleEndian(b));
    } else {
      assert (a + b)[1..] == a[1..] + b;
      LittleEndianAppend(a[1..], b);
      Pow2Byte(|a| - 1);
      Times256(Pow2(8 * (|a| - 1)), LittleEndian(b));
    }
  }

  lemma Times256(x: int, y: int)
    ensures Times(256 * x, y) == 256 * Times(x, y)
  {
    TimesAssoc(256, x, y);
  }

  lemma {:induction false} LittleEndianBound(s: seq<byte>)
    ensures LittleEndian(s) < Pow2(8 * |s|)
  {
    if |s| > 0 {
      LittleEndianBound(s[1..]);
      Pow2Byte(|s| - 1);
    }
  }

  /** A slice of the bytes is a slice of the number. */
  lemma LittleEndianSlice(s: seq<byte>, i: nat, n: nat)
    requires i + n <= |s|
    ensures LittleEndian(s[i..i + n]) == Low(Shr(LittleEndian(s), 8 * i), 8 * n)
  {
    hide Times, LittleEndian, Pow2;
    var mid, high := s[i..i + n], s[i + n..];
    assert s == s[..i] + s[i..] && s[i..] == mid + high;
    LittleEndianAppend(s[..i], s[i..]);
    LittleEndianBound(s[..i]);
    TimesCommutes(Pow2(8 * i), LittleEndian(s[i..]));
    DivUnique(LittleEndian(s), Pow2(8 * i), LittleEndian(s[i..]), LittleEndian(s[..i]));
    LittleEndianAppend(mid, high);
    LittleEndianBound(mid);
    TimesCommutes(Pow2(8 * n), LittleEndian(high));
    DivUnique(LittleEndian(s[i..]), Pow2(8 * n), LittleEndian(high), LittleEndian(mid));
  }

  lemma {:induction false} LittleEndianInjective(a: seq<byte>, b: seq<byte>)
    requires |a| == |b| && LittleEndian(a) == LittleEndian(b)
    ensures a == b
  {
    if |a| > 0 {
      LittleEndianInjective(a[1..], b[1..]);
      assert a == [a[0]] + a[1..] && b == [b[0]] + b[1..];
    }
  }

  /** Dropping s bits and keeping w is the same before and after keeping s + w or more. */
  lemma MiddleBits(n: nat, s: nat, w: nat, t: nat)
    requires s + w <= t
    ensures Low(Shr(Low(n, t), s), w) == Low(Shr(n, s), w)
  {
    hide Times, Pow2;
    Pow2Add(s, t - s);
    DivDiv(n, Pow2(s), Pow2(t - s));
    TimesCommutes(Pow2(s), n / Pow2(s) % Pow2(t - s));
    DivUnique(n % Pow2(t), Pow2(s), n / Pow2(s) % Pow2(t - s), n % Pow2(s));
    ModMod(n / Pow2(s), w, t - s);
  }

  lemma ModMod(n: nat, w: nat, t: nat)
    requires w <= t
    ensures Low(Low(n, t), w) == Low(n, w)
  {
    hide Times, Pow2;
    Pow2Add(w, t - w);
    DivDiv(n, Pow2(w), Pow2(t - w));
    TimesCommutes(Pow2(w), n / Pow2(w) % Pow2(t - w));
    DivMod(n, Pow2(w));
    DivUnique(n % Pow2(t), Pow2(w), n / Pow2(w) % Pow2(t - w), n % Pow2(w));
  }

  lemma ShrShr(n: nat, s: nat, t: nat)
    ensures Shr(Shr(n, s), t) == Shr(n, s + t)
  {
    hide Times, Pow2;
    Pow2Add(s, t);
    DivDiv(n, Pow2(s), Pow2(t));
  }

  lemma {:induction false} Pow2Monotone(k: nat, n: nat)
    requires k <= n
    ensures Pow2(k) <= Pow2(n)
  {
    if k < n {
      Pow2Monotone(k, n - 1);
    }
  }

  lemma LittleEndianOfOne(b: byte)
    ensures LittleEndian([b]) == b as int
  {
    assert [b][1..] == [];
  }
}
