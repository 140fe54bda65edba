/** Facts about whole-number division that the solver does not find by itself. */
module Division {

  lemma MulCancels(d: nat, x: int, y: int)
    requires d * x < d * y
    ensures x < y
  {
    assert d * (y - x) > 0;
  }

  lemma QuotientIs(n: nat, d: nat, q: nat, r: nat)
    requires d > 0 && n == d * q + r && r < d
    ensures n / d == q && n % d == r
  {
    assert d * (n / d) + n % d == n;
    MulCancels(d, q, n / d + 1);
    MulCancels(d, n / d, q + 1);
  }

  lemma ProductAtLeast(d: nat, q: nat)
    requires d > 0
    ensures q <= d * q
  {
    assert (d - 1) * q >= 0;
  }

  lemma QuotientAtMost(n: nat, d: nat)
    requires d > 0
    ensures n / d <= n
  {
    assert d * (n / d) + n % d == n;
    ProductAtLeast(d, n / d);
  }
}
