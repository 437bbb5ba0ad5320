/** The rational numbers of chrono.cpp and its search for the simplest one in an
    interval. Numerators and denominators are unbounded here. */
module RationalArithmetic {
  import opened Products

  datatype Rational = Rational(num: nat, den: nat)

  /** Euclid's algorithm. */
  function Gcd(a: nat, b: nat): nat
    decreases b
  {
    if b == 0 then a else Gcd(b, a % b)
  }

  predicate LowestTerms(r: Rational) { Gcd(r.num, r.den) == 1 }

  // -------------------------------------------------- arithmetic facts

  lemma MulMod(k: nat, a: nat, b: nat)
    requires k > 0 && b > 0
    ensures k * b > 0 && (k * a) % (k * b) == k * (a % b)
  {
    var q, r := a / b, a % b;
    assert a == q * b + r;
    assert k * a == q * (k * b) + k * r by { assert k * (q * b + r) == q * (k * b) + k * r; }
    assert 0 <= k * r < k * b by { LessTimes(k, r, b); }
    ModIs(k * a, k * b, q, k * r);
  }

  lemma {:induction false} GcdScales(k: nat, a: nat, b: nat)
    requires k > 0
    ensures Gcd(k * a, k * b) == k * Gcd(a, b)
    decreases b
  {
    if b > 0 {
      MulMod(k, a, b);
      GcdScales(k, b, a % b);
    }
  }

  function Quotient(n: nat, g: nat): nat
    requires g > 0
  {
    n / g
  }

  lemma DivMod(a: nat, b: nat)
    requires b > 0
    ensures a == Quotient(a, b) * b + a % b
  {}

  /** The greatest common divisor divides both. */
  lemma {:induction false} GcdDivides(a: nat, b: nat) returns (p: nat, q: nat)
    ensures a == Gcd(a, b) * p && b == Gcd(a, b) * q
    ensures a > 0 || b > 0 ==> Gcd(a, b) > 0
    decreases b
  {
    if b == 0 {
      p, q := 1, 0;
    } else {
      var k, r := Quotient(a, b), a % b;
      DivMod(a, b);
      var b', r' := GcdDivides(b, r);
      Regroup(k, Gcd(b, r), b', r');
      p, q := k * b' + r', b';
    }
  }

  lemma Regroup(k: nat, g: nat, m: nat, n: nat)
    ensures k * (g * m) + g * n == g * (k * m + n)
  {
    assert k * (g * m) == g * (k * m);
  }

  /** A fraction in lowest terms cannot be cancelled. */
  lemma LowestTermsHasNoCommonFactor(k: nat, a: nat, b: nat)
    requires k > 0 && Gcd(k * a, k * b) == 1
    ensures k == 1
  {
    GcdScales(k, a, b);
    OneProduct(k, Gcd(a, b));
  }

  // -------------------------------------------------- the routines

  function Make(num: nat, den: nat): (r: Rational)
    requires num > 0 || den > 0
    ensures LowestTerms(r)
    ensures r.num * den == num * r.den
    ensures den > 0 ==> 0 < r.den <= den
    ensures num > 0 ==> 0 < r.num <= num
  {
    MakeFacts(num, den);
    Rational(Quotient(num, Gcd(num, den)), Quotient(den, Gcd(num, den)))
  }

  lemma OneProduct(k: nat, n: nat)
    requires k * n == 1
    ensures k == 1
  {
    if n > 0 { assert k * n == n * k; AtLeastOnce(n, k); }
  }

  lemma OneFactor(g: nat, k: nat)
    requires g > 0 && g * k == g
    ensures k == 1
  {
    if k > 1 { assert g * k == g + (k - 1) * g; AtLeastOnce(k - 1, g); }
  }

  lemma Cancelled(g: nat, a: nat, b: nat)
    requires g > 0 && Gcd(g * a, g * b) == g
    ensures Gcd(a, b) == 1 && a * (g * b) == (g * a) * b
    ensures (g * a) / g == a && (g * b) / g == b
    ensures (g * b > 0 ==> 0 < b <= g * b) && (g * a > 0 ==> 0 < a <= g * a)
  {
    GcdScales(g, a, b);
    OneFactor(g, Gcd(a, b));
    ModIs(g * a, g, a, 0);
    ModIs(g * b, g, b, 0);
    AtLeastOnce(g, a);
    AtLeastOnce(g, b);
    assert a * (g * b) == (g * a) * b;
  }

  lemma MakeFacts(num: nat, den: nat)
    requires num > 0 || den > 0
    ensures Gcd(num, den) > 0
    ensures var a, b := Quotient(num, Gcd(num, den)), Quotient(den, Gcd(num, den));
      Gcd(a, b) == 1 && a * den == num * b && (den > 0 ==> 0 < b <= den) && (num > 0 ==> 0 < a <= num)
  {
    var a, b := GcdDivides(num, den);
    Cancelled(Gcd(num, den), a, b);
  }

  /** make_rational */
  method MakeRational(num: nat, den: nat) returns (r: Rational)
    requires num > 0 || den > 0
    ensures r == Make(num, den)
  {
    MakeFacts(num, den);
    var x, y := num, den;
    while y != 0
      invariant Gcd(x, y) == Gcd(num, den)
      decreases y
    {
      x, y := y, x % y;
    }
    r := Rational(num / x, den / x);
  }

  function Floor(x: Rational): Rational
    requires x.den > 0
  {
    Rational(x.num / x.den, 1)
  }

  function Inverse(x: Rational): Rational
    requires x.num > 0 || x.den > 0
  {
    Make(x.den, x.num)
  }

  predicate Less(x: Rational, y: Rational) { x.num * y.den < y.num * x.den }

  predicate AtMost(x: Rational, y: Rational) { x.num * y.den <= y.num * x.den }

  function Add(x: Rational, y: Rational): Rational
    requires x.den * y.den > 0
  {
    Make(x.num * y.den + y.num * x.den, x.den * y.den)
  }

  function Subtract(x: Rational, y: Rational): Rational
    requires x.den * y.den > 0 && AtMost(y, x)
  {
    Make(x.num * y.den - y.num * x.den, x.den * y.den)
  }

  // -------------------------------------------------- rationalize

  /** The fractional part is smaller than the denominator. */
  function Fraction(x: Rational): Rational
    requires x.den > 0
  {
    Rational(x.num % x.den, x.den)
  }

  lemma FloorFacts(x: Rational)
    requires x.den > 0
    ensures x.num == Floor(x).num * x.den + Fraction(x).num && Fraction(x).num < x.den
    ensures Less(Floor(x), x) <==> Fraction(x).num > 0
  {}

  /** x minus its floor, inverted. */
  lemma InvertedFraction(x: Rational)
    requires x.den > 0 && Fraction(x).num > 0
    ensures AtMost(Floor(x), x)
    ensures var r := Inverse(Subtract(x, Floor(x)));
      0 < r.den < x.den && r.num * Fraction(x).num == x.den * r.den && r.num > 0
  {
    FloorFacts(x);
    var f := Fraction(x).num;
    assert x.num * 1 - Floor(x).num * x.den == f && x.den * 1 == x.den;
    var d := Make(f, x.den);
    assert d == Subtract(x, Floor(x));
    var r := Make(d.den, d.num);
    assert d.num * x.den == f * d.den && r.num * d.num == d.den * r.den;
    Chain(r.num, r.den, d.num, d.den, f, x.den);
  }

  /** r = 1/d and d = f/n give r = n/f. */
  lemma Chain(rn: nat, rd: nat, dn: nat, dd: nat, f: nat, n: nat)
    requires dn * n == f * dd && rn * dn == dd * rd && dd > 0
    ensures rn * f == n * rd
  {
    assert (rn * f) * dd == rn * (f * dd) == rn * (dn * n) == (rn * dn) * n == (dd * rd) * n == (n * rd) * dd;
    CancelRight(rn * f, n * rd, dd);
  }

  /** Inversion turns the order round. */
  lemma InvertedOrder(x: Rational, y: Rational)
    requires x.den > 0 && y.den > 0 && AtMost(x, y) && Floor(x) == Floor(y) && Fraction(x).num > 0
    ensures Fraction(y).num > 0
    ensures AtMost(Floor(x), x) && AtMost(Floor(y), y)
    ensures AtMost(Inverse(Subtract(y, Floor(y))), Inverse(Subtract(x, Floor(x))))
  {
    FloorFacts(x);
    FloorFacts(y);
    var n, f, g := Floor(x).num, Fraction(x).num, Fraction(y).num;
    assert (n * x.den + f) * y.den <= (n * y.den + g) * x.den;
    SameWhole(n, x.den, f, y.den, g);
    InvertedFraction(x);
    InvertedFraction(y);
    var rx, ry := Inverse(Subtract(x, Floor(x))), Inverse(Subtract(y, Floor(y)));
    FlipOrder(ry.num, ry.den, g, y.den, rx.num, rx.den, f, x.den);
  }

  lemma SameWhole(n: nat, b: nat, f: nat, d: nat, g: nat)
    requires (n * b + f) * d <= (n * d + g) * b && f > 0 && b > 0 && d > 0
    ensures f * d <= g * b && g > 0
  {
    assert (n * b + f) * d == n * b * d + f * d && (n * d + g) * b == n * b * d + g * b;
    AtLeastOnce(f, d);
  }

  /** From r/s = d/g, t/u = b/f and f/b <= g/d. */
  lemma FlipOrder(r: nat, s: nat, g: nat, d: nat, t: nat, u: nat, f: nat, b: nat)
    requires r * g == d * s && t * f == b * u && f * d <= g * b && f > 0 && g > 0
    ensures r * u <= t * s
  {
    CrossPairs(r, u, g, f);
    CrossPairs(d, s, f, u);
    CrossPairs(t, s, f, g);
    CrossPairs(b, u, g, s);
    CancelScaled(r * u, t * s, f * g, f * d, g * b, s * u);
  }

  lemma CrossPairs(a: nat, b: nat, c: nat, d: nat)
    ensures (a * b) * (c * d) == (a * c) * (b * d) && (a * b) * (d * c) == (a * c) * (b * d)
    ensures (a * b) * (c * d) == (c * a) * (b * d) && (a * c) * (b * d) == (a * c) * (d * b)
  {
    assert (a * b) * (c * d) == ((a * b) * c) * d == ((a * c) * b) * d == (a * c) * (b * d);
  }

  lemma CancelScaled(p: nat, q: nat, k: nat, m: nat, n: nat, l: nat)
    requires p * k == m * l && q * k == n * l && m <= n && k > 0
    ensures p <= q
  {
    assert m * l <= n * l;
    CancelAtMost(p, q, k);
  }

  /** rational_rationalize2: the sum of the denominators falls with every call. */
  function Rationalize2(x: Rational, y: Rational): (r: Rational)
    requires x.den > 0 && y.den > 0 && AtMost(x, y)
    ensures r.den > 0 && (x.num > 0 ==> r.num > 0)
    decreases x.den + y.den
  {
    hide Make;
    var fx, fy := Floor(x), Floor(y);
    FloorFacts(x);
    if !Less(fx, x) then fx
    else if Less(fx, fy) || Less(fy, fx) then Add(fx, Make(1, 1))
    else
      InvertedOrder(x, y);
      InvertedFraction(x);
      InvertedFraction(y);
      var s := Rationalize2(Inverse(Subtract(y, fy)), Inverse(Subtract(x, fx)));
      Add(fx, Inverse(s))
  }
}
