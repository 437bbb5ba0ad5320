/** rational_rationalize against section 6.2.5 of R5RS. */
module RationalTolerance {
  import opened Products
  import opened RationalArithmetic
  import opened RationalSimplest

  function Larger(x: Rational, y: Rational): Rational { if Less(y, x) then x else y }
  function Smaller(x: Rational, y: Rational): Rational { if Less(y, x) then y else x }

  /** The larger argument is taken as the number, the smaller as the tolerance. */
  function Rationalize(x: Rational, y: Rational): Rational
    requires x.den > 0 && y.den > 0
  {
    var lo, hi := Smaller(x, y), Larger(x, y);
    Positive(hi.den, lo.den);
    var diff, sum := Subtract(hi, lo), Add(hi, lo);
    if Less(diff, sum) then Rationalize2(diff, sum) else diff
  }

  lemma Positive(m: nat, n: nat)
    requires m > 0 && n > 0
    ensures m * n > 0
  {}

  // -------------------------------------------------- lowest terms are smallest

  ghost predicate Smallest(s: Rational)
  {
    forall t: Rational :: t.den > 0 && s.num * t.den == t.num * s.den ==> s.num <= t.num && s.den <= t.den
  }

  /** Every fraction equal to the smallest one is a multiple of it. */
  lemma {:induction false} MultipleOfSmallest(s: Rational, t: Rational) returns (k: nat)
    requires s.den > 0 && t.den > 0 && Smallest(s) && s.num * t.den == t.num * s.den
    ensures k > 0 && t.num == k * s.num && t.den == k * s.den
    decreases t.den
  {
    assert s.num <= t.num && s.den <= t.den;
    if t.den == s.den {
      CancelRight(s.num, t.num, s.den);
      k := 1;
    } else {
      var u := Rational(t.num - s.num, t.den - s.den);
      assert s.num * u.den == s.num * t.den - s.num * s.den && u.num * s.den == t.num * s.den - s.num * s.den;
      k := MultipleOfSmallest(s, u);
      assert (k + 1) * s.num == k * s.num + s.num && (k + 1) * s.den == k * s.den + s.den;
      k := k + 1;
    }
  }

  lemma SimplestOfOne(r: Rational, s: Rational)
    requires r.den > 0 && Simplest(r, s, r)
    ensures s.den > 0 && s.num * r.den == r.num * s.den && Smallest(s)
  {
    forall t: Rational | t.den > 0 && s.num * t.den == t.num * s.den ensures Between(r, t, r) {
      EqualThrough(r, s, t);
    }
  }

  lemma EqualThrough(r: Rational, s: Rational, t: Rational)
    requires s.den > 0 && s.num * r.den == r.num * s.den && s.num * t.den == t.num * s.den
    ensures r.num * t.den == t.num * r.den
  {
    assert (r.num * t.den) * s.den == (r.num * s.den) * t.den == (s.num * r.den) * t.den;
    assert (t.num * r.den) * s.den == (t.num * s.den) * r.den == (s.num * t.den) * r.den;
    CancelRight(r.num * t.den, t.num * r.den, s.den);
  }

  /** Of all equal fractions the one in lowest terms is smallest. */
  lemma LowestTermsIsSmallest(r: Rational)
    requires r.den > 0 && LowestTerms(r)
    ensures Smallest(r)
  {
    hide Smallest, Simplest, Gcd;
    var s := Rationalize2(r, r);
    Rationalize2IsSimplest(r, r);
    SimplestOfOne(r, s);
    var k := MultipleOfSmallest(s, r);
    LowestTermsHasNoCommonFactor(k, s.num, s.den);
    assert r == s;
  }

  // -------------------------------------------------- the interval

  /** x + y, not reduced. */
  function Sum(x: Rational, y: Rational): Rational { Rational(x.num * y.den + y.num * x.den, x.den * y.den) }

  /** t differs from x by no more than y. */
  predicate Within(x: Rational, t: Rational, y: Rational)
  {
    t.den > 0 && AtMost(x, Sum(t, y)) && AtMost(t, Sum(x, y))
  }

  lemma SumCompares(x: Rational, y: Rational, t: Rational)
    requires x.den > 0 && y.den > 0 && t.den > 0
    ensures x.den * y.den > 0
    ensures AtMost(t, Add(x, y)) <==> AtMost(t, Sum(x, y))
  {
    Positive(x.den, y.den);
    var r, s := Add(x, y), Sum(x, y);
    SameValue(r.num, r.den, s.num, s.den, t.num, t.den);
  }

  lemma DifferenceCompares(x: Rational, y: Rational, t: Rational)
    requires x.den > 0 && y.den > 0 && t.den > 0 && AtMost(y, x)
    ensures x.den * y.den > 0
    ensures AtMost(Subtract(x, y), t) <==> AtMost(x, Sum(t, y))
  {
    Positive(x.den, y.den);
    var r, n, d := Subtract(x, y), x.num * y.den - y.num * x.den, x.den * y.den;
    SameValue(r.num, r.den, n, d, t.num, t.den);
    MovedOver(x.num, x.den, y.num, y.den, t.num, t.den);
  }

  lemma MovedOver(a: nat, b: nat, c: nat, d: nat, p: nat, q: nat)
    requires c * b <= a * d
    ensures (a * d - c * b) * q <= p * (b * d) <==> a * (q * d) <= (p * d + c * q) * b
  {
    assert (a * d - c * b) * q == a * (q * d) - c * b * q;
    assert (p * d + c * q) * b == p * (b * d) + c * b * q;
  }

  lemma EqualTolerance(x: Rational, y: Rational, t: Rational)
    requires x.num * y.den == y.num * x.den
    ensures AtMost(y, Sum(t, x)) && AtMost(x, Sum(t, y))
    ensures Sum(x, y) == Sum(y, x)
  {
    EqualWithin(x.num, x.den, y.num, y.den, t.num, t.den);
    EqualWithin(y.num, y.den, x.num, x.den, t.num, t.den);
  }

  lemma EqualWithin(a: nat, b: nat, c: nat, d: nat, p: nat, q: nat)
    requires a * d == c * b
    ensures c * (q * b) <= (p * b + a * q) * d
  {
    assert c * (q * b) == q * (c * b);
    assert (p * b + a * q) * d == (p * b) * d + q * (a * d);
  }

  /** The interval searched is the numbers within the tolerance. */
  lemma IntervalIsWithin(x: Rational, y: Rational, t: Rational)
    requires x.den > 0 && y.den > 0 && t.den > 0 && AtMost(y, x)
    ensures var lo, hi := Smaller(x, y), Larger(x, y);
      lo.den * hi.den > 0 && hi.den * lo.den > 0 && AtMost(lo, hi) &&
      (Between(Subtract(hi, lo), t, Add(hi, lo)) <==> Within(x, t, y))
  {
    var lo, hi := Smaller(x, y), Larger(x, y);
    DifferenceCompares(hi, lo, t);
    SumCompares(hi, lo, t);
    Positive(lo.den, hi.den);
    if !Less(y, x) {
      EqualTolerance(x, y, t);
    }
  }

  lemma DifferenceAtMostSum(hi: Rational, lo: Rational)
    requires hi.den > 0 && lo.den > 0 && AtMost(lo, hi)
    ensures hi.den * lo.den > 0 && AtMost(Subtract(hi, lo), Add(hi, lo))
  {
    Positive(hi.den, lo.den);
    var d, s, n := Subtract(hi, lo), Add(hi, lo), hi.den * lo.den;
    var m, p := hi.num * lo.den - lo.num * hi.den, hi.num * lo.den + lo.num * hi.den;
    assert d.num * n == m * d.den && s.num * n == p * s.den;
    SameValue(s.num, s.den, p, n, d.num, d.den);
    SameValue(d.num, d.den, m, n, p, n);
    assert m * n <= p * n by { TimesAtMost(m, p, n); }
  }

  /** An interval of one number. */
  lemma PointInterval(d: Rational, s: Rational)
    requires d.den > 0 && s.den > 0 && LowestTerms(d) && AtMost(d, s) && !Less(d, s)
    ensures Simplest(d, d, s)
  {
    LowestTermsIsSmallest(d);
    forall t | Between(d, t, s) ensures d.num <= t.num && d.den <= t.den {
      Squeezed(d, t, s);
    }
  }

  lemma Squeezed(d: Rational, t: Rational, s: Rational)
    requires d.den > 0 && s.den > 0 && Between(d, t, s) && !Less(d, s)
    ensures d.num * t.den == t.num * d.den
  {
    TimesAtMost(t.num * s.den, s.num * t.den, d.den);
    TimesAtMost(s.num * d.den, d.num * s.den, t.den);
    assert (t.num * d.den) * s.den == (t.num * s.den) * d.den;
    assert (s.num * t.den) * d.den == (s.num * d.den) * t.den;
    assert (d.num * t.den) * s.den == (d.num * s.den) * t.den;
    CancelAtMost(t.num * d.den, d.num * t.den, s.den);
  }

  /** For any two arguments the result is the simplest number between their
      difference and their sum. */
  lemma RationalizeIsSimplest(x: Rational, y: Rational)
    requires x.den > 0 && y.den > 0
    ensures var lo, hi := Smaller(x, y), Larger(x, y);
      hi.den * lo.den > 0 && AtMost(lo, hi) && Simplest(Subtract(hi, lo), Rationalize(x, y), Add(hi, lo))
  {
    var lo, hi := Smaller(x, y), Larger(x, y);
    DifferenceAtMostSum(hi, lo);
    var diff, sum := Subtract(hi, lo), Add(hi, lo);
    hide Simplest, Rationalize2;
    if Less(diff, sum) { Rationalize2IsSimplest(diff, sum); } else { PointInterval(diff, sum); }
  }

  /** The simplest number that differs from x by no more than y. */
  ghost predicate MeetsR5RS(x: Rational, y: Rational, r: Rational)
  {
    Within(x, r, y) && LowestTerms(r) && forall t :: Within(x, t, y) ==> r.num <= t.num && r.den <= t.den
  }

  /** The routine is the standard's rationalize exactly when the tolerance does not
      exceed the number; with a larger tolerance the standard's answer is 0. */
  lemma RationalizeMeetsR5RSExactlyWhen(x: Rational, y: Rational)
    requires x.den > 0 && y.den > 0
    ensures MeetsR5RS(x, y, Rationalize(x, y)) <==> AtMost(y, x)
  {
    var r := Rationalize(x, y);
    RationalizeIsSimplest(x, y);
    if AtMost(y, x) {
      forall t: Rational | t.den > 0
        ensures Between(Subtract(Larger(x, y), Smaller(x, y)), t, Add(Larger(x, y), Smaller(x, y))) <==> Within(x, t, y)
      {
        IntervalIsWithin(x, y, t);
      }
      hide Rationalize, Within, Between, Larger, Smaller, Subtract, Add;
    } else {
      assert Within(x, Rational(0, 1), y);
      AboveDifference(x, y, r);
    }
  }

  lemma AboveDifference(x: Rational, y: Rational, r: Rational)
    requires x.den > 0 && y.den > 0 && Less(x, y) && r.den > 0
    requires y.den * x.den > 0 && AtMost(Subtract(y, x), r)
    ensures r.num > 0
  {
    var d := Subtract(y, x);
    assert d.num > 0;
    Positive(d.num, r.den);
  }

  /** For 1/2 and the tolerance 2 the result is 2, and the standard's answer 0. */
  lemma LargeTolerance()
    ensures Rationalize(Rational(1, 2), Rational(2, 1)) == Rational(2, 1)
    ensures MeetsR5RS(Rational(1, 2), Rational(2, 1), Rational(0, 1))
    ensures !MeetsR5RS(Rational(1, 2), Rational(2, 1), Rational(2, 1))
  {
    hide Rationalize, Subtract, Add, LowestTerms;
    var x, y := Rational(1, 2), Rational(2, 1);
    RationalizeIsSimplest(x, y);
    SumAndDifference();
    ZeroIsLowest();
    assert Between(Subtract(y, x), y, Add(y, x));
    assert Within(x, Rational(0, 1), y);
  }

  lemma SumAndDifference()
    ensures var x, y := Rational(1, 2), Rational(2, 1);
      var d, s := Subtract(y, x), Add(y, x);
      d.num * 2 == 3 * d.den && s.num * 2 == 5 * s.den && d.den > 0 && s.den > 0
  {}

  lemma ZeroIsLowest()
    ensures LowestTerms(Rational(0, 1))
  {}
}
