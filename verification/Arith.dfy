// Multiplication of two variables. Specifications write such a product as
// Times, so that a proof can hide its definition and use only the laws below.
module Arith {

  function Times(x: int, y: int): int
  {
    x * y
  }

  lemma TimesCommutes(x: int, y: int)
    ensures Times(x, y) == Times(y, x)
  {
  }

  lemma TimesAssoc(a: int, b: int, c: int)
    ensures Times(Times(a, b), c) == Times(a, Times(b, c))
  {
  }

  lemma TimesAdd(a: int, b: int, c: int)
    ensures Times(a + b, c) == Times(a, c) + Times(b, c)
    ensures Times(a - b, c) == Times(a, c) - Times(b, c)
    ensures Times(c, a + b) == Times(c, a) + Times(c, b)
    ensures Times(c, a - b) == Times(c, a) - Times(c, b)
  {
  }

  lemma TimesRegroup(x: int, u: int, y: int, v: int)
    ensures Times(Times(x, u), Times(y, v)) == Times(Times(x, y), Times(u, v))
  {
    hide Times;
    TimesAssoc(x, u, Times(y, v));
    TimesAssoc(u, y, v);
    TimesCommutes(u, y);
    TimesAssoc(y, u, v);
    TimesAssoc(x, y, Times(u, v));
  }

  lemma TimesSigns(x: int, y: int)
    ensures Times(-x, y) == -Times(x, y)
    ensures Times(x, -y) == -Times(x, y)
    ensures Times(-x, -y) == Times(x, y)
    ensures Times(1, y) == y && Times(0, y) == 0 && Times(x, 1) == x && Times(x, 0) == 0
  {
  }

  lemma TimesPositive(x: nat, y: nat)
    ensures Times(x, y) >= 0
    ensures x > 0 && y > 0 ==> Times(x, y) > 0
  {
  }

  lemma TimesMonotone(x: nat, y: nat, b: nat)
    requires x <= b && y <= b
    ensures Times(x, y) <= Times(b, b)
  {
    hide Times;
    TimesAdd(b, y, b);
    TimesAdd(b, x, y);
    TimesPositive(b, b - y);
    TimesPositive(b - x, y);
  }

  lemma TimesMagnitude(x: int, y: int, b: int)
    requires b >= 0
    requires -b <= x <= b && -b <= y <= b
    ensures -Times(b, b) <= Times(x, y) <= Times(b, b)
  {
    hide Times;
    var u := if x < 0 then -x else x;
    var v := if y < 0 then -y else y;
    TimesMonotone(u, v, b);
    TimesSigns(u, v);
    TimesPositive(u, v);
  }

  lemma TimesTwo(x: int, y: int)
    ensures Times(2, y) == 2 * y
    ensures Times(2 * x, y) == 2 * Times(x, y)
    ensures Times(x, 2 * y) == 2 * Times(x, y)
  {
  }

  /** Quotient and remainder are determined by what they have to satisfy. */
  lemma DivUnique(n: int, d: nat, q: int, r: nat)
    requires d > 0 && r < d && n == Times(q, d) + r
    ensures n / d == q && n % d == r
  {
    var q0, r0 := n / d, n % d;
    DivMod(n, d);
    hide Times;
    TimesAdd(q, q0, d);
    if q > q0 {
      TimesAdd(q - q0 - 1, 1, d);
      TimesPositive(q - q0 - 1, d);
      TimesSigns(1, d);
    } else if q < q0 {
      TimesAdd(q0, q, d);
      TimesAdd(q0 - q - 1, 1, d);
      TimesPositive(q0 - q - 1, d);
      TimesSigns(1, d);
    }
  }

  lemma DivMod(n: int, d: nat)
    requires d > 0
    ensures n == Times(n / d, d) + n % d && 0 <= n % d < d
    ensures n >= 0 ==> n / d >= 0
  {
  }

  /** Two divisions are one by the product, and the remainders combine. */
  lemma DivDiv(n: int, a: nat, b: nat)
    requires a > 0 && b > 0
    ensures Times(a, b) > 0
    ensures n / Times(a, b) == n / a / b
    ensures n % Times(a, b) == n % a + Times(a, n / a % b)
  {
    hide Times;
    TimesPositive(a, b);
    var q, r := n / a, n % a;
    var q', r' := q / b, q % b;
    DivMod(n, a);
    DivMod(q, b);
    TimesAdd(Times(q', b), r', a);
    TimesAssoc(q', b, a);
    TimesCommutes(a, b);
    TimesCommutes(r', a);
    TimesAdd(a, b - 1, r');
    TimesAdd(a, b - 1 - r', r');
    TimesPositive(a, b - 1 - r');
    TimesPositive(a, r');
    TimesAdd(r', b - 1 - r', a);
    TimesCommutes(b - 1 - r', a);
    TimesAdd(b - 1, 1, a);
    TimesSigns(1, a);
    DivUnique(n, Times(a, b), q', Times(a, r') + r);
  }
}
