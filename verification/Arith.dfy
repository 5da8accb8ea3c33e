/** Products, quotients and remainders: the non-linear steps, one at a time. */
module Arith {

  lemma MulAssoc(a: int, b: int, c: int)
    ensures (a * b) * c == a * (b * c)
  {
  }

  lemma MulDistributes(a: int, b: int, c: int)
    ensures a * (b + c) == a * b + a * c
    ensures (b + c) * a == b * a + c * a
  {
  }

  lemma MulMonotone(a: int, b: int, c: int)
    requires a <= b && 0 <= c
    ensures a * c <= b * c && c * a <= c * b
  {
  }

  lemma MulSign(d: int, k: int)
    requires d > 0
    ensures k >= 1 ==> d * k >= d
    ensures k <= -1 ==> d * k <= -d
    ensures k == 0 ==> d * k == 0
  {
    if k >= 1 {
      MulMonotone(1, k, d);
    } else if k <= -1 {
      MulMonotone(k, -1, d);
    }
  }

  /** Division with remainder, for any positive divisor. */
  lemma DivMod(n: int, d: int)
    requires d > 0
    ensures n == d * (n / d) + n % d && 0 <= n % d < d
  {
  }

  lemma DivModUnique(n: int, d: int, q: int, r: int)
    requires d > 0 && n == d * q + r && 0 <= r < d
    ensures n / d == q && n % d == r
  {
    DivMod(n, d);
    MulDistributes(d, n / d - q, q);
    MulSign(d, n / d - q);
  }

  function Quot(n: nat, d: nat): (q: nat)
    requires d > 0
    ensures n < d ==> q == 0
  {
    DivMod(n, d);
    MulSign(d, n / d);
    n / d
  }

  function Rem(n: nat, d: nat): (r: nat)
    requires d > 0
    ensures r < d
  {
    DivMod(n, d);
    n % d
  }

  /** Dividing by a product is dividing by its factors in turn. */
  lemma QuotOfProduct(n: nat, a: nat, b: nat)
    requires a > 0 && b > 0
    ensures a * b > 0 && Quot(n, a * b) == Quot(Quot(n, a), b)
  {
    var q, r := n / a, n % a;
    var s, t := q / b, q % b;
    DivMod(n, a);
    DivMod(q, b);
    MulSign(a, b);
    MulDistributes(a, b * s, t);
    MulAssoc(a, b, s);
    MulMonotone(t, b - 1, a);
    MulDistributes(a, b, -1);
    MulSign(a, t + 1);
    assert 0 <= a * t by { MulMonotone(0, t, a); }
    DivModUnique(n, a * b, s, a * t + r);
  }

  /** Adding a multiple of the divisor shifts the quotient and keeps the remainder. */
  lemma AddMultiple(n: int, d: int, k: int)
    requires d > 0
    ensures (n + d * k) / d == n / d + k && (n + d * k) % d == n % d
  {
    DivMod(n, d);
    MulDistributes(d, n / d, k);
    DivModUnique(n + d * k, d, n / d + k, n % d);
  }
}
