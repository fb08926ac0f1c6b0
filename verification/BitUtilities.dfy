// bits.h: rounding up to an alignment, and base-two logarithms.
module BitUtilities {
  import opened Arith
  import opened Bits

  /** size_t has 64 bits. */
  function SizeModulus(): nat
  {
    Pow2(64)
  }

  /** (size + alignment - 1) & ~(alignment - 1), in size_t arithmetic. */
  function Align(size: nat, alignment: nat): nat
    requires 0 < alignment <= SizeModulus()
  {
    And((size + alignment - 1) % SizeModulus(), SizeModulus() - alignment)
  }

  lemma Pow2Next(n: nat)
    ensures Pow2(n + 1) == 2 * Pow2(n)
  {
  }

  lemma LowHalf(a: nat, k: nat)
    ensures Low(a, k + 1) == a % 2 + 2 * Low(a / 2, k)
  {
    ModHalf(a, Pow2(k));
  }

  /** A mask of ones above k zeros drops the k low bits. */
  lemma {:induction false} AndHighMask(a: nat, k: nat, n: nat)
    requires k <= n && a < Pow2(n)
    ensures Pow2(k) <= Pow2(n) && And(a, Pow2(n) - Pow2(k)) == a - Low(a, k)
  {
    hide And, Low, Pow2;
    Pow2Monotone(k, n);
    if k == 0 {
      Pow2Zero();
      AndMask(a, n);
      LowAll(a, n);
    } else {
      Pow2Next(k - 1);
      Pow2Next(n - 1);
      AndHighMask(a / 2, k - 1, n - 1);
      AndEven(a, Pow2(n - 1) - Pow2(k - 1));
      LowHalf(a, k - 1);
    }
  }

  lemma LowAll(a: nat, n: nat)
    requires a < Pow2(n)
    ensures Low(a, n) == a && Low(a, 0) == 0
  {
    TimesSigns(0, Pow2(n));
    DivUnique(a, Pow2(n), 0, a);
    TimesSigns(a, 1);
    DivUnique(a, 1, a, 0);
  }

  lemma LowOfDifference(a: nat, k: nat)
    ensures Low(a, k) <= a && Low(a - Low(a, k), k) == 0 && Low(a, k) < Pow2(k)
  {
    hide Times, Pow2;
    DivMod(a, Pow2(k));
    TimesPositive(a / Pow2(k), Pow2(k));
    DivUnique(a - a % Pow2(k), Pow2(k), a / Pow2(k), 0);
  }

  /** Where size_t does not wrap, Align gives the least multiple of 2^k from size on. */
  lemma AlignRoundsUp(size: nat, k: nat)
    requires k <= 64 && size + Pow2(k) <= SizeModulus()
    ensures Pow2(k) <= SizeModulus()
    ensures Low(Align(size, Pow2(k)), k) == 0
    ensures size <= Align(size, Pow2(k)) < size + Pow2(k)
  {
    hide And, Pow2, Low;
    var a := size + Pow2(k) - 1;
    Pow2Monotone(k, 64);
    LowAll(a, 64);
    assert a % SizeModulus() == a by { LowDef(a, 64); }
    AndHighMask(a, k, 64);
    LowOfDifference(a, k);
  }

  lemma LowDef(a: nat, k: nat)
    ensures Low(a, k) == a % Pow2(k)
  {
  }

  /** 2^k divides n and m, which are less than 2^k apart: there is one multiple to round to. */
  lemma MultipleUnique(m: nat, n: nat, k: nat)
    requires Low(m, k) == 0 && Low(n, k) == 0 && m <= n < m + Pow2(k)
    ensures m == n
  {
    hide Times, Pow2;
    var p := Pow2(k);
    DivMod(m, p);
    DivMod(n, p);
    TimesAdd(n / p, m / p, p);
    if n / p > m / p {
      TimesAtLeast(n / p - m / p, p);
    } else if n / p < m / p {
      TimesAdd(m / p, n / p, p);
      TimesAtLeast(m / p - n / p, p);
    }
  }

  lemma TimesAtLeast(x: nat, p: nat)
    requires x > 0
    ensures Times(x, p) >= p
  {
  }

  /** Log2Floor: the i such that 2^i <= n < 2^(i+1), and -1 for 0. */
  method Log2Floor(n: nat) returns (log: int)
    requires n < Pow2(32)
    ensures n == 0 ==> log == -1
    ensures n > 0 ==> log >= 0 && Pow2(log) <= n < Pow2(log + 1)
  {
    hide Times, Shr, Pow2;
    if n == 0 {
      return -1;
    }
    log := 0;
    var value := n;
    ShrZero(n);
    var i := 4;
    Exponents();
    while i >= 0
      invariant -1 <= i <= 4 && log >= 0
      invariant value == Shr(n, log) && 0 < value < Pow2(Exponent(i + 1))
    {
      var shift := Exponent(i);
      var x := Shr(value, shift);
      Exponents();
      ShrBelow(value, shift);
      if x != 0 {
        ShrShr(n, log, shift);
        value := x;
        log := log + shift;
      }
      i := i - 1;
    }
    Pow2Small();
    ShrBounds(n, log);
  }

  /** 1 << i */
  function Exponent(i: nat): nat
    requires i <= 5
  {
    if i == 0 then 1 else if i == 1 then 2 else if i == 2 then 4 else if i == 3 then 8 else if i == 4 then 16 else 32
  }

  lemma Exponents()
    ensures forall i: nat :: i < 5 ==> Exponent(i + 1) == Exponent(i) + Exponent(i)
  {
  }

  lemma ShrZero(n: nat)
    ensures Shr(n, 0) == n
  {
    TimesSigns(n, 1);
    DivUnique(n, 1, n, 0);
  }

  /** Of a value below 2^(2s), either the high s bits are zero or they are below 2^s. */
  lemma ShrBelow(value: nat, s: nat)
    requires value < Pow2(s + s)
    ensures Shr(value, s) < Pow2(s)
    ensures Shr(value, s) == 0 ==> value < Pow2(s)
  {
    hide Times, Pow2;
    var p := Pow2(s);
    Pow2Add(s, s);
    DivMod(value, p);
    TimesSigns(0, p);
    if value / p >= p {
      TimesAdd(value / p, p, p);
      TimesPositive(value / p - p, p);
    }
  }

  lemma ShrBounds(n: nat, log: nat)
    requires Shr(n, log) == 1
    ensures Pow2(log) <= n < Pow2(log + 1)
  {
    hide Times, Pow2;
    DivMod(n, Pow2(log));
    TimesSigns(1, Pow2(log));
    Pow2Next(log);
  }

  /** Log2Ceiling: the i such that 2^(i-1) < n <= 2^i, and -1 for 0. */
  method Log2Ceiling(n: nat) returns (log: int)
    requires n < Pow2(32)
    ensures n == 0 ==> log == -1
    ensures n > 0 ==> log >= 0 && n <= Pow2(log) && (log > 0 ==> Pow2(log - 1) < n)
    ensures n > 1 ==> log > 0
  {
    hide Pow2;
    Pow2Zero();
    if n == 0 {
      log := -1;
    } else {
      var floor := Log2Floor(n - 1);
      log := 1 + floor;
    }
  }

  /** At most one exponent satisfies what Log2Floor promises. */
  lemma LogUnique(n: nat, i: nat, j: nat)
    requires Pow2(i) <= n < Pow2(i + 1) && Pow2(j) <= n < Pow2(j + 1)
    ensures i == j
  {
    hide Pow2;
    if i < j {
      Pow2Monotone(i + 1, j);
    } else if j < i {
      Pow2Monotone(j + 1, i);
    }
  }
}
