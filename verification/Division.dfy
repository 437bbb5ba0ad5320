/** The 64-bit division helpers of rtlib.cpp, in two steps of the processor's
    64-by-32-bit division. */
module Division {
  import opened Products
  import opened Wrappers

  const WORD: nat := 0x1_0000_0000

  /** divl: the quotient and remainder of hi:lo by d, or a fault when the quotient
      does not fit in a word. */
  function Divl(hi: nat, lo: nat, d: nat): Option<(nat, nat)>
  {
    if d == 0 || hi >= d then None else Some(((hi * WORD + lo) / d, (hi * WORD + lo) % d))
  }

  /** The two divisions: quotients of the high and the low word, and remainder. */
  function TwoSteps(n: nat, d: nat): Option<(nat, nat, nat)>
  {
    var dv := d % WORD;
    var n0, n1 := n % WORD, n / WORD % WORD;
    match Divl(0, n1, dv)
    case None => None
    case Some((q1, _)) =>
      match Divl((n1 - q1 * dv) % WORD, n0, dv)
      case None => None
      case Some((q0, r)) => Some((q1, q0, r))
  }

  /** __udivdi3 */
  function UDiv(n: nat, d: nat): Option<nat>
  {
    match TwoSteps(n, d)
    case None => None
    case Some((q1, q0, _)) => Some((q1 * WORD + q0) % (WORD * WORD))
  }

  /** __umoddi3 */
  function UMod(n: nat, d: nat): Option<nat>
  {
    match TwoSteps(n, d)
    case None => None
    case Some((_, _, r)) => Some(r)
  }

  /** Long division: the quotient of the high word, then that of what is left. */
  lemma LongDivision(hi: nat, lo: nat, d: nat)
    requires 0 < d && lo < WORD
    ensures var q1, r1 := hi / d, hi % d;
      && (hi * WORD + lo) / d == q1 * WORD + (r1 * WORD + lo) / d
      && (hi * WORD + lo) % d == (r1 * WORD + lo) % d
  {
    var q1, r1 := hi / d, hi % d;
    var m := r1 * WORD + lo;
    var q, r := m / d, m % d;
    Regroup(q1, r1, q, r, d, lo);
    ModIs(hi * WORD + lo, d, q1 * WORD + q, r);
  }

  lemma Regroup(q1: nat, r1: nat, q: nat, r: nat, d: nat, lo: nat)
    requires r1 * WORD + lo == q * d + r
    ensures (q1 * d + r1) * WORD + lo == (q1 * WORD + q) * d + r
  {
    assert (q1 * d + r1) * WORD == (q1 * WORD) * d + r1 * WORD;
    assert (q1 * WORD + q) * d == (q1 * WORD) * d + q * d;
  }

  lemma QuotientFits(n: nat, d: nat)
    requires d > 0
    ensures n / d <= n && n - n / d * d == n % d
  {
    var q := n / d;
    assert n == q * d + n % d;
    assert q * d == d * q;
    AtLeastOnce(d, q);
  }

  /** For every dividend and every divisor of one word the helpers return the true
      quotient and remainder; they fault exactly when the divisor is zero. */
  lemma DivisionIsRight(n: nat, d: nat)
    requires n < WORD * WORD && d < WORD
    ensures d == 0 <==> UDiv(n, d).None?
    ensures d == 0 <==> UMod(n, d).None?
    ensures d > 0 ==> UDiv(n, d) == Some(n / d) && UMod(n, d) == Some(n % d)
  {
    if d > 0 {
      hide TwoSteps;
      var n0, n1 := n % WORD, n / WORD;
      QuotientFits(n1, d);
      TwoStepsAre(n, d, n1, n0);
      SplitWords(n);
      Combined(n, d, n1, n0);
    }
  }

  lemma SplitWords(n: nat)
    requires n < WORD * WORD
    ensures n / WORD < WORD && n == n / WORD * WORD + n % WORD
  {}

  lemma Combined(n: nat, d: nat, n1: nat, n0: nat)
    requires 0 < d && n < WORD * WORD && n0 < WORD && n == n1 * WORD + n0
    ensures (n1 / d * WORD + (n1 % d * WORD + n0) / d) % (WORD * WORD) == n / d
    ensures (n1 % d * WORD + n0) % d == n % d
  {
    LongDivision(n1, n0, d);
    QuotientFits(n, d);
    SmallMod(n1 / d * WORD + (n1 % d * WORD + n0) / d, WORD * WORD);
  }

  lemma FirstStep(n1: nat, d: nat)
    requires 0 < d
    ensures Divl(0, n1, d) == Some((n1 / d, n1 % d))
  {}

  lemma TwoStepsAre(n: nat, d: nat, n1: nat, n0: nat)
    requires 0 < d < WORD && n1 < WORD && n0 < WORD && n0 == n % WORD && n1 == n / WORD
    requires n1 - n1 / d * d == n1 % d
    ensures TwoSteps(n, d) == Some((n1 / d, (n1 % d * WORD + n0) / d, (n1 % d * WORD + n0) % d))
  {
    var r := n1 % d;
    assert Divl(r, n0, d) == Some(((r * WORD + n0) / d, (r * WORD + n0) % d));
    hide Divl;
    FirstStep(n1, d);
    SmallMod(d, WORD);
    SmallMod(n1, WORD);
    SmallMod(r, WORD);
  }
}
