/** The search finds the simplest rational of an interval. */
module RationalSimplest {
  import opened Products
  import opened RationalArithmetic

  predicate Between(x: Rational, r: Rational, y: Rational) { r.den > 0 && AtMost(x, r) && AtMost(r, y) }

  /** In lowest terms, and no fraction of the interval has a smaller numerator or a
      smaller denominator. */
  ghost predicate Simplest(x: Rational, r: Rational, y: Rational)
  {
    Between(x, r, y) && LowestTerms(r) && forall s :: Between(x, s, y) ==> r.num <= s.num && r.den <= s.den
  }

  // -------------------------------------------------- arithmetic facts

  lemma {:induction false} GcdSymmetric(a: nat, b: nat)
    ensures Gcd(a, b) == Gcd(b, a)
  {
    if a < b { ModIs(a, b, 0, a); }
    else if b < a { ModIs(b, a, 0, b); }
  }

  lemma GcdWithOne(n: nat)
    ensures Gcd(n, 1) == 1
  {
    ModIs(n, 1, n, 0);
  }

  lemma GcdAddMultiple(n: nat, s: nat, d: nat)
    requires s > 0
    ensures Gcd(n * s + d, s) == Gcd(d, s)
  {
    var q, r := d / s, d % s;
    assert n * s + d == (n + q) * s + r;
    ModIs(n * s + d, s, n + q, r);
  }

  lemma MakeLowest(a: nat, b: nat)
    requires Gcd(a, b) == 1
    ensures (a > 0 || b > 0) && Make(a, b) == Rational(a, b)
  {
    ModIs(a, 1, a, 0);
    ModIs(b, 1, b, 0);
  }

  lemma TimesAtMost(a: nat, b: nat, k: nat)
    requires a <= b
    ensures a * k <= b * k
  {
    assert b * k == a * k + (b - a) * k;
  }

  lemma SameProducts(m: nat, n: nat, b: nat, f: nat, u: nat, v: nat)
    requires m * f == b * n
    ensures (u * n) * f == (u * f) * n && (m * v) * f == (b * v) * n
  {
    assert (m * v) * f == (m * f) * v;
    assert (b * n) * v == (b * v) * n;
  }

  /** Comparing with m/n is comparing with b/f when they are equal. */
  lemma SameValue(m: nat, n: nat, b: nat, f: nat, u: nat, v: nat)
    requires m * f == b * n && f > 0 && n > 0
    ensures u * n <= m * v <==> u * f <= b * v
    ensures m * v <= u * n <==> b * v <= u * f
  {
    SameProducts(m, n, b, f, u, v);
    Compare(u * n, m * v, f);
    Compare(u * f, b * v, n);
    Compare(m * v, u * n, f);
    Compare(b * v, u * f, n);
  }

  lemma Compare(a: nat, b: nat, k: nat)
    requires k > 0
    ensures a * k <= b * k <==> a <= b
  {
    if a <= b { TimesAtMost(a, b, k); } else { LessTimes(k, b, a); assert a * k == k * a && b * k == k * b; }
  }

  /** The whole part cancels in a comparison. */
  lemma WholeCancels(n: nat, b: nat, f: nat, q: nat, p: nat)
    ensures (n * b + f) * q <= (n * q + p) * b <==> f * q <= p * b
    ensures (n * q + p) * b <= (n * b + f) * q <==> p * b <= f * q
  {
    assert (n * b + f) * q == n * b * q + f * q;
    assert (n * q + p) * b == n * b * q + p * b;
  }

  // -------------------------------------------------- the cases

  lemma WholeIsSimplest(x: Rational, y: Rational, n: nat)
    requires x.den > 0 && y.den > 0 && Between(x, Rational(n, 1), y)
    requires forall s :: Between(x, s, y) ==> n <= s.num
    ensures Simplest(x, Rational(n, 1), y)
  {
    GcdWithOne(n);
  }

  /** Every fraction of an interval from x on is at least the whole part of x, and
      more if x is not whole. */
  lemma AboveFloor(x: Rational, s: Rational)
    requires x.den > 0 && s.den > 0 && AtMost(x, s)
    ensures Floor(x).num <= s.num && (Fraction(x).num > 0 ==> Floor(x).num < s.num)
  {
    FloorFacts(x);
    var n, f, b := Floor(x).num, Fraction(x).num, x.den;
    assert (n * b + f) * s.den == (n * s.den) * b + f * s.den;
    AtLeastOnce(s.den, n);
    assert n * s.den == s.den * n;
    if s.num < n * s.den || (f > 0 && s.num <= n * s.den) {
      AtLeastOnce(s.den, f);
      assert f * s.den == s.den * f;
      TimesAtMost(s.num, n * s.den, b);
      if s.num < n * s.den { LessTimes(b, s.num, n * s.den); }
    }
  }

  lemma IntegerCase(x: Rational, y: Rational)
    requires x.den > 0 && y.den > 0 && AtMost(x, y) && !Less(Floor(x), x)
    ensures Simplest(x, Floor(x), y)
  {
    FloorFacts(x);
    forall s | Between(x, s, y) ensures Floor(x).num <= s.num { AboveFloor(x, s); }
    var n, b := Floor(x).num, x.den;
    assert n * b * y.den == (n * y.den) * b;
    CancelAtMost(n * y.den, y.num * 1, b);
    WholeIsSimplest(x, y, n);
  }

  lemma NextInteger(x: Rational)
    requires x.den > 0
    ensures Add(Floor(x), Make(1, 1)) == Rational(Floor(x).num + 1, 1)
  {
    GcdWithOne(1);
    MakeLowest(1, 1);
    GcdWithOne(Floor(x).num + 1);
    MakeLowest(Floor(x).num + 1, 1);
  }

  lemma NextIntegerBetween(x: Rational, y: Rational)
    requires x.den > 0 && y.den > 0 && Floor(x).num < Floor(y).num
    ensures Between(x, Rational(Floor(x).num + 1, 1), y)
  {
    FloorFacts(x);
    FloorFacts(y);
    var n, m := Floor(x).num, Floor(y).num;
    assert (n + 1) * x.den == n * x.den + x.den;
    TimesAtMost(n + 1, m, y.den);
  }

  lemma NextIntegerCase(x: Rational, y: Rational)
    requires x.den > 0 && y.den > 0 && AtMost(x, y) && Less(Floor(x), x)
    requires Less(Floor(x), Floor(y)) || Less(Floor(y), Floor(x))
    ensures Simplest(x, Rational(Floor(x).num + 1, 1), y)
  {
    FloorFacts(x);
    FloorIsMonotone(x, y);
    NextIntegerBetween(x, y);
    forall s | Between(x, s, y) ensures Floor(x).num + 1 <= s.num { AboveFloor(x, s); }
    WholeIsSimplest(x, y, Floor(x).num + 1);
  }

  lemma FloorsInOrder(a: nat, b: nat, c: nat, d: nat, n: nat, m: nat)
    requires b > 0 && a * d <= c * b && n * b <= a && c < m * d + d
    ensures n <= m
  {
    if m < n {
      TimesAtMost(n * b, a, d);
      Regroup(n, b, d);
      assert (m + 1) * d == m * d + d;
      TimesAtMost(m + 1, n, d);
      LessTimes(b, c, n * d);
    }
  }

  lemma Regroup(n: nat, b: nat, d: nat)
    ensures (n * b) * d == b * (n * d)
  {}

  lemma FloorIsMonotone(x: Rational, y: Rational)
    requires x.den > 0 && y.den > 0 && AtMost(x, y)
    ensures Floor(x).num <= Floor(y).num
  {
    hide Floor, Fraction;
    FloorFacts(x);
    FloorFacts(y);
    FloorsInOrder(x.num, x.den, y.num, y.den, Floor(x).num, Floor(y).num);
  }

  // -------------------------------------------------- the recursive case

  /** Comparison with x, of which n is the whole part and f/b the fraction, is
      comparison of the inverted remainder with the inverted fraction rx. */
  lemma RemainderCompares(x: Rational, q: nat, p: nat)
    requires x.den > 0 && Fraction(x).num > 0
    ensures AtMost(Floor(x), x)
    ensures var n, rx := Floor(x).num, Inverse(Subtract(x, Floor(x)));
      && (x.num * q <= (n * q + p) * x.den <==> q * rx.den <= rx.num * p)
      && ((n * q + p) * x.den <= x.num * q <==> rx.num * p <= q * rx.den)
  {
    FloorFacts(x);
    InvertedFraction(x);
    var n, f, rx := Floor(x).num, Fraction(x).num, Inverse(Subtract(x, Floor(x)));
    WholeCancels(n, x.den, f, q, p);
    SameValue(rx.num, rx.den, x.den, f, q, p);
    assert f * q == q * f && p * x.den == x.den * p;
  }

  function Rebuild(n: nat, s: Rational): Rational { Rational(n * s.num + s.den, s.num) }

  /** The result of the recursive case, from the inner result. */
  lemma Rebuilt(n: nat, s: Rational)
    requires s.num > 0 && s.den > 0 && LowestTerms(s)
    ensures Add(Rational(n, 1), Inverse(s)) == Rebuild(n, s) && LowestTerms(Rebuild(n, s))
  {
    GcdSymmetric(s.num, s.den);
    MakeLowest(s.den, s.num);
    GcdAddMultiple(n, s.num, s.den);
    MakeLowest(n * s.num + s.den, s.num);
  }

  lemma RecursiveCase(x: Rational, y: Rational, s: Rational)
    requires x.den > 0 && y.den > 0 && AtMost(x, y) && Floor(x) == Floor(y)
    requires Fraction(x).num > 0 && Fraction(y).num > 0 && s.num > 0
    requires AtMost(Floor(x), x) && AtMost(Floor(y), y)
    requires Simplest(Inverse(Subtract(y, Floor(y))), s, Inverse(Subtract(x, Floor(x))))
    ensures Simplest(x, Rebuild(Floor(x).num, s), y)
  {
    var lo, hi := Inverse(Subtract(y, Floor(y))), Inverse(Subtract(x, Floor(x)));
    hide Make, Inverse, Subtract, Floor, Fraction, LowestTerms, AtMost, Between;
    SimplestIsLowest(lo, s, hi);
    InnerBetween(x, y, s.num, s.den);
    assert s == Rational(s.num, s.den);
    var r := Rebuild(Floor(x).num, s);
    Rebuilt(Floor(x).num, s);
    forall t | Between(x, t, y) ensures r.num <= t.num && r.den <= t.den {
      OuterIsLarger(x, y, s, t);
    }
  }

  lemma InnerBetween(x: Rational, y: Rational, q: nat, p: nat)
    requires x.den > 0 && y.den > 0 && Floor(x) == Floor(y)
    requires Fraction(x).num > 0 && Fraction(y).num > 0 && q > 0 && p > 0
    requires AtMost(Floor(x), x) && AtMost(Floor(y), y)
    ensures Between(x, Rebuild(Floor(x).num, Rational(q, p)), y) <==>
      Between(Inverse(Subtract(y, Floor(y))), Rational(q, p), Inverse(Subtract(x, Floor(x))))
  {
    RemainderCompares(x, q, p);
    RemainderCompares(y, q, p);
  }

  lemma OuterIsLarger(x: Rational, y: Rational, s: Rational, t: Rational)
    requires x.den > 0 && y.den > 0 && AtMost(x, y) && Floor(x) == Floor(y)
    requires Fraction(x).num > 0 && Fraction(y).num > 0 && s.num > 0
    requires AtMost(Floor(x), x) && AtMost(Floor(y), y)
    requires Simplest(Inverse(Subtract(y, Floor(y))), s, Inverse(Subtract(x, Floor(x))))
    requires Between(x, t, y)
    ensures Rebuild(Floor(x).num, s).num <= t.num && s.num <= t.den
  {
    var n := Floor(x).num;
    MoreThanWhole(x, t);
    var p := t.num - n * t.den;
    InnerBetween(x, y, t.den, p);
    assert t == Rational(n * t.den + p, t.den);
    TimesAtMost(s.num, t.den, n);
    assert n * s.num == s.num * n && n * t.den == t.den * n;
  }

  lemma MoreThanWhole(x: Rational, t: Rational)
    requires x.den > 0 && Fraction(x).num > 0 && t.den > 0 && AtMost(x, t)
    ensures Floor(x).num * t.den < t.num
  {
    FloorFacts(x);
    var n, f, b := Floor(x).num, Fraction(x).num, x.den;
    assert (n * b + f) * t.den == (n * t.den) * b + f * t.den;
    AtLeastOnce(f, t.den);
    if t.num <= n * t.den { TimesAtMost(t.num, n * t.den, b); }
  }

  /** rational_rationalize2 returns the simplest fraction of the interval. */
  lemma {:induction false} Rationalize2IsSimplest(x: Rational, y: Rational)
    requires x.den > 0 && y.den > 0 && AtMost(x, y)
    ensures Simplest(x, Rationalize2(x, y), y)
    decreases x.den + y.den
  {
    FloorFacts(x);
    if !Less(Floor(x), x) {
      IntegerCase(x, y);
    } else if Less(Floor(x), Floor(y)) || Less(Floor(y), Floor(x)) {
      NextInteger(x);
      NextIntegerCase(x, y);
    } else {
      hide Simplest, Make, Inverse, Subtract, Add;
      InvertedOrder(x, y);
      InvertedFraction(x);
      InvertedFraction(y);
      var u, v := Inverse(Subtract(y, Floor(y))), Inverse(Subtract(x, Floor(x)));
      Rationalize2IsSimplest(u, v);
      RecursiveCase(x, y, Rationalize2(u, v));
      SimplestIsLowest(u, Rationalize2(u, v), v);
      Rebuilt(Floor(x).num, Rationalize2(u, v));
    }
  }

  lemma SimplestIsLowest(x: Rational, r: Rational, y: Rational)
    requires Simplest(x, r, y)
    ensures LowestTerms(r) && r.den > 0
  {}
}
