/** The two day counts of chrono.cpp against the Gregorian calendar. */
module Calendar {

  // -------------------------------------------------- the calendar

  datatype Date = Date(y: int, m: nat, d: nat)

  predicate Leap(y: int) { y % 4 == 0 && (y % 100 != 0 || y % 400 == 0) }

  function DaysIn(y: int, m: nat): nat
  {
    if m == 2 then (if Leap(y) then 29 else 28)
    else if m == 4 || m == 6 || m == 9 || m == 11 then 30
    else 31
  }

  predicate Valid(t: Date) { 1 <= t.m <= 12 && 1 <= t.d <= DaysIn(t.y, t.m) }

  function NextDay(t: Date): Date
  {
    if t.d < DaysIn(t.y, t.m) then Date(t.y, t.m, t.d + 1)
    else if t.m < 12 then Date(t.y, t.m + 1, 1)
    else Date(t.y + 1, 1, 1)
  }

  // -------------------------------------------------- machine arithmetic

  const TWO_TO_16: int := 0x1_0000
  const TWO_TO_32: int := 0x1_0000_0000

  function Uint32(n: int): int { n % TWO_TO_32 }
  function Uint16(n: int): int { n % TWO_TO_16 }
  function Int16(n: int): int { (n + 32768) % TWO_TO_16 - 32768 }
  function Int32(n: int): int { (n + 0x8000_0000) % TWO_TO_32 - 0x8000_0000 }

  /** Division as C does it. */
  function TruncatedBy(n: int, d: int): int
    requires d > 0
  {
    if n >= 0 then n / d else -(-n / d)
  }

  // -------------------------------------------------- days_from_civil

  function DayOfYear(m: nat, d: nat): int { TruncatedBy(153 * (m + if m > 2 then -3 else 9) + 2, 5) + d - 1 }

  /** days_from_civil, with the widths of its variables. */
  function DaysFromCivil(t: Date): int
  {
    var y := Int16(t.y - if t.m <= 2 then 1 else 0);
    var era := Uint32(TruncatedBy(if y >= 0 then y else y - 399, 400));
    var yoe := Uint16(Uint32(y - era * 400));
    var doy := Uint16(DayOfYear(t.m, t.d));
    var doe := Uint32(yoe * 365 + yoe / 4 - yoe / 100 + doy);
    Uint32(era * 146097 + doe - 719468)
  }

  /** Years that begin in March, so that a leap day comes last. */
  function MarchYear(t: Date): int { t.y - if t.m <= 2 then 1 else 0 }

  function DayOfEra(yoe: int, doy: int): int { yoe * 365 + yoe / 4 - yoe / 100 + doy }

  /** The same count without a width. */
  function CivilDays(t: Date): int
  {
    var y := MarchYear(t);
    (y / 400) * 146097 + DayOfEra(y % 400, DayOfYear(t.m, t.d)) - 719468
  }

  predicate FitsInt16(y: int) { -32768 <= y <= 32767 }

  lemma FloorOf(y: int)
    ensures TruncatedBy(if y >= 0 then y else y - 399, 400) == y / 400
  {
    if y < 0 {
      var q, r := y / 400, y % 400;
      assert 399 - y == 400 * (-q) + (399 - r);
    }
  }

  lemma EraWraps(y: int)
    requires FitsInt16(y)
    ensures Uint16(Uint32(y - Uint32(y / 400) * 400)) == y % 400
  {
    var q := y / 400;
    if q >= 0 {
      assert Uint32(q) == q;
    } else {
      assert Uint32(q) == q + TWO_TO_32;
      assert y - (q + TWO_TO_32) * 400 == y % 400 - 400 * TWO_TO_32;
    }
  }

  lemma DayOfYearRange(t: Date)
    requires Valid(t)
    ensures 0 <= DayOfYear(t.m, t.d) <= 365
  {
    var k := t.m + if t.m > 2 then -3 else 9;
    assert 0 <= k <= 11;
    assert (153 * k + 2) / 5 <= 337;
    assert k == 11 ==> t.m == 2;
    assert k <= 10 ==> (153 * k + 2) / 5 <= 306;
  }

  lemma WholeWraps(q: int, doe: int)
    requires -100 <= q <= 100 && 0 <= doe < 150000
    ensures Uint32(Uint32(q) * 146097 + Uint32(doe) - 719468) == Uint32(q * 146097 + doe - 719468)
  {
    assert Uint32(doe) == doe;
    if q >= 0 {
      assert Uint32(q) == q;
    } else {
      assert Uint32(q) == q + TWO_TO_32;
      WholeTurns(q * 146097 + doe - 719468, 146097);
    }
  }

  lemma WholeTurns(n: int, k: int)
    ensures Uint32(n + k * TWO_TO_32) == Uint32(n)
  {
    assert n + k * TWO_TO_32 == (n / TWO_TO_32 + k) * TWO_TO_32 + n % TWO_TO_32;
  }

  lemma DaysFromCivilIs(t: Date, y: int)
    requires Valid(t) && FitsInt16(y) && y == MarchYear(t)
    ensures DaysFromCivil(t) ==
      Uint32(Uint32(y / 400) * 146097 + Uint32(DayOfEra(y % 400, DayOfYear(t.m, t.d))) - 719468)
  {
    hide DayOfYear, Uint32, Uint16, Int16, TruncatedBy;
    FloorOf(y);
    EraWraps(y);
    DayOfYearRange(t);
    Fits16(y);
    Fits16(DayOfYear(t.m, t.d));
  }

  lemma Fits16(n: int)
    ensures FitsInt16(n) ==> Int16(n) == n
    ensures 0 <= n < TWO_TO_16 ==> Uint16(n) == n
  {}

  lemma DayOfEraRange(yoe: int, doy: int)
    requires 0 <= yoe < 400 && 0 <= doy <= 365
    ensures 0 <= DayOfEra(yoe, doy) < 150000
  {}

  /** The 16- and 32-bit count is the true one modulo the width of its result,
      wherever its year does not wrap round. */
  lemma DaysFromCivilWraps(t: Date)
    requires Valid(t) && FitsInt16(MarchYear(t))
    ensures DaysFromCivil(t) == Uint32(CivilDays(t))
  {
    hide DaysFromCivil, DayOfYear, Uint32, DayOfEra, MarchYear;
    var y, doy := MarchYear(t), DayOfYear(t.m, t.d);
    DaysFromCivilIs(t, y);
    DayOfYearRange(t);
    DayOfEraRange(y % 400, doy);
    WholeWraps(y / 400, DayOfEra(y % 400, doy));
  }

  /** In January and February of the year -32768 the year wraps round to 32767. */
  lemma FirstYearWraps(t: Date)
    requires Valid(t) && t.y == -32768 && t.m <= 2
    ensures Valid(Date(32768, t.m, t.d)) && DaysFromCivil(t) == Uint32(CivilDays(Date(32768, t.m, t.d)))
  {
    FirstYearIsLast(t);
    hide DaysFromCivil, Uint32, CivilDays;
    DaysFromCivilWraps(Date(32768, t.m, t.d));
  }

  lemma FirstYearIsLast(t: Date)
    requires t.y == -32768 && t.m <= 2
    ensures DaysFromCivil(t) == DaysFromCivil(Date(32768, t.m, t.d))
  {
    assert Int16(t.y - 1) == Int16(32767);
    hide Int16, DayOfYear, Uint32, Uint16, TruncatedBy;
  }

  /** The count is right, in its width, exactly when the 16-bit year holds the year
      that begins in March. */
  lemma DaysFromCivilIsRightExactlyWhen(t: Date)
    requires Valid(t) && FitsInt16(t.y)
    ensures DaysFromCivil(t) == Uint32(CivilDays(t)) <==> FitsInt16(MarchYear(t))
  {
    if FitsInt16(MarchYear(t)) {
      DaysFromCivilWraps(t);
    } else {
      FirstYearWraps(t);
      FirstYearIsFar(t);
    }
  }

  lemma FirstYearIsFar(t: Date)
    requires Valid(t) && t.y == -32768 && t.m <= 2
    ensures Uint32(CivilDays(Date(32768, t.m, t.d))) != Uint32(CivilDays(t))
  {
    hide CivilDays, Uint32;
    FirstYearDistance(t);
    FarApart(CivilDays(t), 23936532);
  }

  lemma FarApart(n: int, k: nat)
    requires 0 < k < TWO_TO_32
    ensures Uint32(n + k) != Uint32(n)
  {
    assert n == (n / TWO_TO_32) * TWO_TO_32 + n % TWO_TO_32;
    assert n + k == ((n + k) / TWO_TO_32) * TWO_TO_32 + (n + k) % TWO_TO_32;
  }

  lemma FirstYearDistance(t: Date)
    requires t.y == -32768 && t.m <= 2
    ensures CivilDays(Date(32768, t.m, t.d)) == CivilDays(t) + 23936532
  {
    var doy := DayOfYear(t.m, t.d);
    hide DayOfYear;
    assert CivilDays(t) == -82 * 146097 + DayOfEra(31, doy) - 719468;
    assert CivilDays(Date(32768, t.m, t.d)) == 81 * 146097 + DayOfEra(367, doy) - 719468;
  }

  // -------------------------------------------------- one day later

  lemma WithinMonth(t: Date)
    requires Valid(t) && t.d < DaysIn(t.y, t.m)
    ensures CivilDays(NextDay(t)) == CivilDays(t) + 1
  {}

  lemma NextMonth(t: Date)
    requires Valid(t) && t.d == DaysIn(t.y, t.m) && t.m != 2
    ensures CivilDays(NextDay(t)) == CivilDays(t) + 1
  {
    hide DayOfYear;
    MonthStep(t.m, t.d, t.y);
    assert MarchYear(NextDay(t)) == MarchYear(t);
  }

  lemma MonthStep(m: nat, d: nat, y: int)
    requires 1 <= m <= 12 && m != 2 && d == DaysIn(y, m)
    ensures DayOfYear(if m < 12 then m + 1 else 1, 1) == DayOfYear(m, d) + 1
  {
    if m == 1 {} else if m == 3 {} else if m == 4 {} else if m == 5 {} else if m == 6 {} else if m == 7 {}
    else if m == 8 {} else if m == 9 {} else if m == 10 {} else if m == 11 {} else {}
  }

  /** A year that begins in March has 366 days when the February at its end is in a
      leap year. */
  lemma MarchYearLength(y: int)
    ensures ((y + 1) / 400) * 146097 + DayOfEra((y + 1) % 400, 0) ==
      (y / 400) * 146097 + DayOfEra(y % 400, 0) + if Leap(y + 1) then 366 else 365
  {
    var n := y % 400;
    LeapByEra(y + 1);
    if n == 399 {
      assert (y + 1) / 400 == y / 400 + 1 && (y + 1) % 400 == 0;
    } else {
      assert (y + 1) / 400 == y / 400 && (y + 1) % 400 == n + 1;
      QuarterSteps(n);
    }
  }

  lemma LeapByEra(y: int)
    ensures Leap(y) <==> Leap(y % 400)
  {
    FoursInEra(y);
    HundredsInEra(y);
  }

  lemma FoursInEra(y: int)
    ensures y % 4 == y % 400 % 4
  {
    var n := y % 400;
    FourTimes(100 * (y / 400) + n / 4, n % 4);
  }

  lemma FourTimes(q: int, r: nat)
    requires r < 4
    ensures (4 * q + r) % 4 == r
  {}

  lemma HundredTimes(q: int, r: nat)
    requires r < 100
    ensures (100 * q + r) % 100 == r
  {}

  lemma HundredsInEra(y: int)
    ensures y % 100 == y % 400 % 100
  {
    var n := y % 400;
    HundredTimes(4 * (y / 400) + n / 100, n % 100);
  }

  lemma QuarterSteps(n: nat)
    requires n < 399
    ensures (n + 1) / 4 == n / 4 + (if (n + 1) % 4 == 0 then 1 else 0)
    ensures (n + 1) / 100 == n / 100 + (if (n + 1) % 100 == 0 then 1 else 0)
    ensures (n + 1) % 100 == 0 ==> (n + 1) % 4 == 0
    ensures (n + 1) % 400 != 0
  {}

  lemma EndOfFebruary(t: Date)
    requires Valid(t) && t.d == DaysIn(t.y, t.m) && t.m == 2
    ensures CivilDays(NextDay(t)) == CivilDays(t) + 1
  {
    MarchYearLength(t.y - 1);
  }

  /** The count rises by one from each date to the next, in every year. */
  lemma CivilDaysRise(t: Date)
    requires Valid(t)
    ensures Valid(NextDay(t)) && CivilDays(NextDay(t)) == CivilDays(t) + 1
  {
    hide CivilDays;
    if t.d < DaysIn(t.y, t.m) { WithinMonth(t); } else if t.m == 2 { EndOfFebruary(t); } else { NextMonth(t); }
  }

  /** The routine's count rises by one, in its width, from one date to the next
      exactly when both years that begin in March fit, or neither does. */
  lemma DaysFromCivilRisesExactlyWhen(t: Date)
    requires Valid(t) && FitsInt16(t.y) && FitsInt16(NextDay(t).y)
    ensures DaysFromCivil(NextDay(t)) == Uint32(DaysFromCivil(t) + 1) <==>
      (FitsInt16(MarchYear(t)) <==> FitsInt16(MarchYear(NextDay(t))))
  {
    hide CivilDays, DaysFromCivil, DayOfYear;
    var u := NextDay(t);
    CivilDaysRise(t);
    if t == Date(-32768, 2, 29) {
      FirstYearJumps();
    } else if t.y == -32768 && t.m <= 2 {
      var v := Date(32768, t.m, t.d);
      FirstYearWraps(t);
      FirstYearWraps(u);
      CivilDaysRise(v);
      assert NextDay(v) == Date(32768, u.m, u.d);
      NextWraps(CivilDays(v));
    } else {
      DaysFromCivilWraps(t);
      DaysFromCivilWraps(u);
      NextWraps(CivilDays(t));
    }
  }

  lemma NextWraps(n: int)
    ensures Uint32(Uint32(n) + 1) == Uint32(n + 1)
  {
    assert n + 1 == (n / TWO_TO_32) * TWO_TO_32 + (Uint32(n) + 1);
  }

  /** The one date at which it does not. */
  lemma FirstYearJumps()
    ensures Valid(Date(-32768, 2, 29)) && NextDay(Date(-32768, 2, 29)) == Date(-32768, 3, 1)
    ensures DaysFromCivil(Date(-32768, 3, 1)) != Uint32(DaysFromCivil(Date(-32768, 2, 29)) + 1)
  {
    hide DaysFromCivil;
    DaysFromCivilWraps(Date(-32768, 3, 1));
    FirstYearWraps(Date(-32768, 2, 29));
    assert CivilDays(Date(-32768, 3, 1)) == -12687734;
    assert CivilDays(Date(32768, 2, 29)) == 11248797;
  }

  // -------------------------------------------------- the clock at boot

  const DAYS_SINCE_JAN_1: seq<nat> := [0, 31, 59, 90, 120, 151, 181, 212, 243, 273, 304, 334]

  /** DAYS_SINCE_JAN_1_2000 */
  function DaysSince2000(year: int): int
  {
    (year - 1) * 365 + TruncatedBy(year - 1, 4) - TruncatedBy(year - 1, 100) + TruncatedBy(year - 1, 400) - 730119
  }

  /** The clock chip counts years from 0 to 99. */
  function YearOfCentury(c: nat): int { (if c <= 50 then 2000 else 1900) + c }

  /** It shows each year from 1951 to 2050, and no other. */
  lemma ChipYears(y: int, c: nat)
    ensures 1951 <= y <= 2050 ==> YearOfCentury(y % 100) == y
    ensures c <= 99 ==> 1951 <= YearOfCentury(c) <= 2050
  {}

  /** The days setup_time counts: from March on, back from the next January. */
  function BootDays(t: Date): int
    requires Valid(t)
  {
    var year := if t.m > 2 then t.y + 1 else t.y;
    var dayInYear := DAYS_SINCE_JAN_1[t.m - 1] + t.d - if t.m > 2 then 365 else 0;
    DaysSince2000(year) - DaysSince2000(1970) + dayInYear
  }

  function SecondsOf(days: int, hour: nat, min: nat, sec: nat): int { ((days * 24 + hour) * 60 + min) * 60 + sec }

  /** secs_since_epoch_at_refpoint, an int32: sums and products wrap around alike
      whether at each step or at the end. */
  function BootSeconds(t: Date, hour: nat, min: nat, sec: nat): int
    requires Valid(t)
  {
    Int32(SecondsOf(BootDays(t), hour, min, sec))
  }

  /** Years up to the one before y, by the century and by the era. */
  lemma YearsBefore(y: int)
    requires y >= 1
    ensures (y - 1) * 365 + (y - 1) / 4 - (y - 1) / 100 + (y - 1) / 400 ==
      ((y - 1) / 400) * 146097 + DayOfEra((y - 1) % 400, 0)
  {
    var q, n := (y - 1) / 400, (y - 1) % 400;
    assert y - 1 == 400 * q + n;
    assert (y - 1) / 4 == 100 * q + n / 4 && (y - 1) / 100 == 4 * q + n / 100;
  }

  /** The count at boot is one more than the civil count, for every date. */
  lemma BootDaysAreOneAhead(t: Date)
    requires Valid(t) && t.y >= 1
    ensures BootDays(t) == CivilDays(t) + 1
  {
    var year := if t.m > 2 then t.y + 1 else t.y;
    hide DayOfYear;
    YearsBefore(year);
    assert MarchYear(t) == year - 1;
    assert DaysSince2000(1970) == -10957;
    MonthTable(t.m, t.d);
  }

  lemma MonthTable(m: nat, d: nat)
    requires 1 <= m <= 12 && 1 <= d
    ensures DAYS_SINCE_JAN_1[m - 1] - (if m > 2 then 365 else 0) + d == DayOfYear(m, d) - 305
  {
    assert m == 1 || m == 2 || m == 3 || m == 4 || m == 5 || m == 6 || m == 7 || m == 8 || m == 9 || m == 10 ||
      m == 11 || m == 12;
  }

  lemma WrapsExactlyWhen(n: int)
    requires n >= -0x8000_0000
    ensures Int32(n) == n <==> n < 0x8000_0000
    ensures Uint32(Int32(n)) == Uint32(n)
  {
    var q := (n + 0x8000_0000) / TWO_TO_32;
    assert Int32(n) == n - q * TWO_TO_32;
    assert n == (n / TWO_TO_32) * TWO_TO_32 + n % TWO_TO_32;
    assert Int32(n) == (n / TWO_TO_32 - q) * TWO_TO_32 + n % TWO_TO_32;
  }

  /** The dates that the chip can show begin in 1951. */
  lemma ChipDates(t: Date)
    requires Valid(t) && t.y >= 1951
    ensures CivilDays(t) >= -8000
  {
    var y := MarchYear(t);
    var q, n := y / 400, y % 400;
    DayOfYearRange(t);
    assert y == 400 * q + n && q >= 4;
    assert n / 4 >= n / 100;
    assert q == 4 ==> n >= 350;
  }

  /** The clock set at boot is one day fast exactly as long as the sum fits its 32
      bits; beyond, it is one day fast but for a multiple of 2^32 seconds. */
  lemma BootClockIsOneDayFastExactlyWhen(c: nat, m: nat, d: nat, hour: nat, min: nat, sec: nat)
    requires c <= 99 && Valid(Date(YearOfCentury(c), m, d))
    ensures var t := Date(YearOfCentury(c), m, d);
      var right := 86400 * CivilDays(t) + 3600 * hour + 60 * min + sec;
      && (BootSeconds(t, hour, min, sec) == right + 86400 <==> right + 86400 < 0x8000_0000)
      && Uint32(BootSeconds(t, hour, min, sec)) == Uint32(right + 86400)
  {
    var t := Date(YearOfCentury(c), m, d);
    BootDaysAreOneAhead(t);
    ChipDates(t);
    hide CivilDays, BootDays, Int32, Uint32;
    WrapsExactlyWhen(SecondsOf(BootDays(t), hour, min, sec));
  }

  /** The first second at which it does not fit, a day earlier than it should. */
  lemma BootClockOverflows()
    ensures Valid(Date(YearOfCentury(38), 1, 18))
    ensures 86400 * CivilDays(Date(2038, 1, 18)) + 3600 * 3 + 60 * 14 + 8 + 86400 == 0x8000_0000
    ensures BootSeconds(Date(YearOfCentury(38), 1, 18), 3, 14, 8) == -0x8000_0000
    ensures BootSeconds(Date(YearOfCentury(38), 1, 18), 3, 14, 7) == 0x7FFF_FFFF
  {
    BootDaysAreOneAhead(Date(2038, 1, 18));
    assert CivilDays(Date(2038, 1, 18)) == 24854;
  }

  /** The civil count is 0 on the first day of 1970. */
  lemma EpochIsZero()
    ensures CivilDays(Date(1970, 1, 1)) == 0
  {}
}
