/** Facts about products and quotients of natural numbers. */
module Products {

  lemma LessTimes(k: nat, r: nat, b: nat)
    requires k > 0 && r < b
    ensures k * r < k * b
  {
    assert k * b - k * r == k * (b - r);
  }

  lemma AtLeastOnce(k: nat, d: nat)
    requires k > 0
    ensures k * d >= d
  {
    assert k * d == d + (k - 1) * d;
  }

  lemma OneQuotient(d: nat, q: nat, r: nat, q': nat, r': nat)
    requires q * d + r == q' * d + r' && r < d && r' < d
    ensures q == q' && r == r'
  {
    if q > q' {
      assert (q - q') * d == q * d - q' * d;
      AtLeastOnce(q - q', d);
    } else if q < q' {
      assert (q' - q) * d == q' * d - q * d;
      AtLeastOnce(q' - q, d);
    }
  }

  lemma ModIs(n: nat, d: nat, q: nat, r: nat)
    requires d > 0 && n == q * d + r && r < d
    ensures n % d == r && n / d == q
  {
    OneQuotient(d, q, r, n / d, n % d);
  }

  lemma SmallMod(n: nat, d: nat)
    requires n < d
    ensures n % d == n
  {
    ModIs(n, d, 0, n);
  }

  lemma CancelRight(a: nat, b: nat, k: nat)
    requires a * k == b * k && k > 0
    ensures a == b
  {
    if a < b { LessTimes(k, a, b); } else if b < a { LessTimes(k, b, a); }
  }

  lemma CancelAtMost(a: nat, b: nat, k: nat)
    requires a * k <= b * k && k > 0
    ensures a <= b
  {
    if b < a { LessTimes(k, b, a); }
  }

  /** Stretches of n places that start at multiples of n do not overlap. */
  lemma RowsApart(n: nat, p: nat, q: nat)
    requires p < q
    ensures p * n + n <= q * n
  {
    assert q * n == p * n + (q - p) * n;
    AtLeastOnce(q - p, n);
  }
}
