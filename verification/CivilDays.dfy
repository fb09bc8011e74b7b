/** The proleptic Gregorian calendar behind JavaScript's Date: day numbers counted from 1970-01-01. */
module CivilDays {
  datatype Civil = Civil(year: int, month: int, day: int)

  predicate Leap(y: int) { y % 4 == 0 && (y % 100 != 0 || y % 400 == 0) }

  /** Days from 0000-01-01 to the first of January of y. */
  function DaysBeforeYear(y: int): int { 365 * y + (y + 3) / 4 - (y + 99) / 100 + (y + 399) / 400 }

  function YearLength(y: int): nat { if Leap(y) then 366 else 365 }

  /**
   * Days from the first of January to the first of month m; month 13 is the year's end. From March
   * on the months run 31, 30, 31, 30, 31 over and over: 153 days every five months.
   */
  function DaysBeforeMonth(y: int, m: int): nat
    requires 1 <= m <= 13
  {
    if m <= 2 then 31 * (m - 1) else 59 + (153 * (m - 3) + 2) / 5 + if Leap(y) then 1 else 0
  }

  function MonthLength(y: int, m: int): nat
    requires 1 <= m <= 12
  {
    MonthStep(y, m);
    DaysBeforeMonth(y, m + 1) - DaysBeforeMonth(y, m)
  }

  lemma MonthStep(y: int, m: int)
    requires 1 <= m <= 12
    ensures 28 <= DaysBeforeMonth(y, m + 1) - DaysBeforeMonth(y, m) <= 31
  {
  }

  /** Thirty days hath September. */
  lemma MonthLengths(y: int, m: int)
    requires 1 <= m <= 12
    ensures MonthLength(y, m) == if m == 2 then (if Leap(y) then 29 else 28) else if m in {4, 6, 9, 11} then 30 else 31
  {
  }

  predicate ValidCivil(c: Civil) { 1 <= c.month <= 12 && 1 <= c.day <= MonthLength(c.year, c.month) }

  const EPOCH: int := 719528 // 1970-01-01

  /** Date.UTC before any rule about two-digit years: days past the month's end roll over. */
  function DayNumber(c: Civil): int
    requires 1 <= c.month <= 13
  {
    DaysBeforeYear(c.year) + DaysBeforeMonth(c.year, c.month) + c.day - 1 - EPOCH
  }

  lemma YearStep(y: int)
    ensures DaysBeforeYear(y + 1) == DaysBeforeYear(y) + YearLength(y)
  {
    Fours(y);
    Hundreds(y);
    FourHundreds(y);
  }

  lemma Fours(y: int)
    ensures (y + 4) / 4 - (y + 3) / 4 == if y % 4 == 0 then 1 else 0
  {
  }

  lemma Hundreds(y: int)
    ensures (y + 100) / 100 - (y + 99) / 100 == if y % 100 == 0 then 1 else 0
    ensures y % 100 == 0 ==> y % 4 == 0
  {
    var q, r := y / 100, y % 100;
    assert y == 100 * q + r && 0 <= r < 100;
    assert y + 99 == 100 * q + (r + 99) && y + 100 == 100 * (q + 1) + r;
    assert r == 0 ==> y == 4 * (25 * q);
  }

  lemma FourHundreds(y: int)
    ensures (y + 400) / 400 - (y + 399) / 400 == if y % 400 == 0 then 1 else 0
    ensures y % 400 == 0 ==> y % 100 == 0
  {
    var q, r := y / 400, y % 400;
    assert y == 400 * q + r && 0 <= r < 400;
    assert y + 399 == 400 * q + (r + 399) && y + 400 == 400 * (q + 1) + r;
    assert r == 0 ==> y == 100 * (4 * q);
  }

  lemma {:induction false} YearsGrow(y: int, z: int)
    requires y <= z
    ensures DaysBeforeYear(y) + 365 * (z - y) <= DaysBeforeYear(z)
    decreases z - y
  {
    if y < z {
      YearStep(z - 1);
      YearsGrow(y, z - 1);
    }
  }

  lemma {:induction false} MonthsGrow(y: int, m: int, n: int)
    requires 1 <= m <= n <= 13
    ensures DaysBeforeMonth(y, m) <= DaysBeforeMonth(y, n)
    decreases n - m
  {
    if m < n {
      MonthStep(y, n - 1);
      MonthsGrow(y, m, n - 1);
    }
  }

  lemma Cycle(q: int, k: int)
    ensures DaysBeforeYear(400 * q + k) == 146097 * q + DaysBeforeYear(k)
  {
    assert (400 * q + k + 3) / 4 == 100 * q + (k + 3) / 4;
    assert (400 * q + k + 99) / 100 == 4 * q + (k + 99) / 100;
    assert (400 * q + k + 399) / 400 == q + (k + 399) / 400;
  }

  lemma {:induction false} MonthsAtLeast(y: int, m: int)
    requires 1 <= m <= 13
    ensures DaysBeforeMonth(y, m) >= 28 * (m - 1)
    decreases m
  {
    if m > 1 {
      MonthStep(y, m - 1);
      MonthsAtLeast(y, m - 1);
    }
  }

  /** The year, counted down from k, in which day r of a 400-year cycle falls. */
  function FindYear(r: int, k: nat): (y: nat)
    requires 0 <= r < DaysBeforeYear(k + 1)
    ensures y <= k && DaysBeforeYear(y) <= r < DaysBeforeYear(y + 1)
    decreases k
  {
    if DaysBeforeYear(k) <= r then k else FindYear(r, k - 1)
  }

  function FindMonth(y: int, r: int, k: int): (m: int)
    requires 1 <= k <= 12 && 0 <= r < DaysBeforeMonth(y, k + 1)
    ensures 1 <= m <= k && DaysBeforeMonth(y, m) <= r < DaysBeforeMonth(y, m + 1)
    decreases k
  {
    if DaysBeforeMonth(y, k) <= r then k else FindMonth(y, r, k - 1)
  }

  function YearOf(n: int): (y: int)
    ensures DaysBeforeYear(y) <= n + EPOCH < DaysBeforeYear(y + 1)
  {
    var q, r := (n + EPOCH) / 146097, (n + EPOCH) % 146097;
    YearsGrow(0, r / 365 + 1);
    var k := FindYear(r, r / 365);
    Cycle(q, k);
    Cycle(q, k + 1);
    400 * q + k
  }

  /** The civil date of a day number: getUTCFullYear, getUTCMonth, getUTCDate. */
  function CivilOf(n: int): (c: Civil)
    ensures ValidCivil(c) && DayNumber(c) == n
  {
    var y := YearOf(n);
    YearStep(y);
    var r := n + EPOCH - DaysBeforeYear(y);
    var k := if r < 308 then 1 + r / 28 else 12;
    MonthsAtLeast(y, k + 1);
    var m := FindMonth(y, r, k);
    Civil(y, m, r - DaysBeforeMonth(y, m) + 1)
  }

  predicate Earlier(a: Civil, b: Civil) {
    a.year < b.year || (a.year == b.year && (a.month < b.month || (a.month == b.month && a.day < b.day)))
  }

  /** Dates in calendar order have day numbers in order. */
  lemma EarlierIsLess(a: Civil, b: Civil)
    requires ValidCivil(a) && ValidCivil(b) && Earlier(a, b)
    ensures DayNumber(a) < DayNumber(b)
  {
    MonthsGrow(a.year, a.month + 1, 13);
    YearStep(a.year);
    if a.year < b.year {
      YearsGrow(a.year + 1, b.year);
    } else if a.month < b.month {
      MonthsGrow(a.year, a.month + 1, b.month);
    }
  }

  lemma OrderAgrees(a: Civil, b: Civil)
    requires ValidCivil(a) && ValidCivil(b)
    ensures Earlier(a, b) <==> DayNumber(a) < DayNumber(b)
    ensures a == b <==> DayNumber(a) == DayNumber(b)
  {
    if Earlier(a, b) { EarlierIsLess(a, b); }
    if Earlier(b, a) { EarlierIsLess(b, a); }
  }

  /** Every valid date is the date of its day number. */
  lemma CivilOfDay(c: Civil)
    requires ValidCivil(c)
    ensures CivilOf(DayNumber(c)) == c
  {
    OrderAgrees(c, CivilOf(DayNumber(c)));
  }

  lemma EpochIsFirstOfJanuary1970()
    ensures DayNumber(Civil(1970, 1, 1)) == 0 && CivilOf(0) == Civil(1970, 1, 1)
  {
    CivilOfDay(Civil(1970, 1, 1));
  }
}
