/** The proleptic Gregorian calendar in UTC, counted in days from the epoch
    1970-01-01. Only instants at or after the epoch are modelled. */
module Calendar {

  const EpochYear := 1970

  datatype Date = Date(year: int, month: int, day: int)

  predicate IsLeap(y: int) {
    y % 4 == 0 && (y % 100 != 0 || y % 400 == 0)
  }

  function DaysInYear(y: int): nat {
    if IsLeap(y) then 366 else 365
  }

  function DaysInMonth(y: int, m: int): nat
    requires 1 <= m <= 12
  {
    if m == 2 then (if IsLeap(y) then 29 else 28)
    else if m == 4 || m == 6 || m == 9 || m == 11 then 30
    else 31
  }

  /** The days of year `y` that precede the first of month `m`;
      month 13 stands for the end of the year. */
  function DaysBeforeMonth(y: int, m: int): nat
    requires 1 <= m <= 13
  {
    var common := [0, 31, 59, 90, 120, 151, 181, 212, 243, 273, 304, 334, 365][m - 1];
    if m > 2 && IsLeap(y) then common + 1 else common
  }

  /** The month table agrees with the month lengths and with the year length. */
  lemma DaysBeforeMonthStep(y: int, m: int)
    requires 1 <= m <= 12
    ensures DaysBeforeMonth(y, m + 1) == DaysBeforeMonth(y, m) + DaysInMonth(y, m)
    ensures DaysBeforeMonth(y, 13) == DaysInYear(y)
  {
  }

  /** The days from the epoch to the first of January of year `y`: the
      lengths of all the years in between, summed. */
  function DaysBeforeYear(y: int): nat
    requires y >= EpochYear
    decreases y - EpochYear
  {
    if y == EpochYear then 0 else DaysBeforeYear(y - 1) + DaysInYear(y - 1)
  }

  predicate ValidDate(d: Date) {
    && d.year >= EpochYear
    && 1 <= d.month <= 12
    && 1 <= d.day <= DaysInMonth(d.year, d.month)
  }

  /** The epoch day of a civil date. */
  function DateToEpochDay(d: Date): nat
    requires ValidDate(d)
  {
    DaysBeforeYear(d.year) + DaysBeforeMonth(d.year, d.month) + d.day - 1
  }

  /** Removes whole years from `days` counted from the first of January of
      `y`; the result is the year reached and the day within it. */
  function YearAndDay(days: nat, y: int): (r: (int, nat))
    requires y >= EpochYear
    ensures r.0 >= y && r.1 < DaysInYear(r.0)
    ensures DaysBeforeYear(r.0) + r.1 == DaysBeforeYear(y) + days
    decreases days
  {
    if days < DaysInYear(y) then (y, days)
    else YearAndDay(days - DaysInYear(y), y + 1)
  }

  /** Removes whole months from day-of-year `doy` counted from the first of
      month `m`; the result is the month reached and its 1-based day. */
  function MonthAndDay(y: int, doy: nat, m: int): (r: (int, int))
    requires 1 <= m <= 12
    requires DaysBeforeMonth(y, m) + doy < DaysInYear(y)
    ensures m <= r.0 <= 12 && 1 <= r.1 <= DaysInMonth(y, r.0)
    ensures DaysBeforeMonth(y, r.0) + r.1 - 1 == DaysBeforeMonth(y, m) + doy
    decreases 12 - m
  {
    DaysBeforeMonthStep(y, m);
    if doy < DaysInMonth(y, m) then (m, doy + 1)
    else MonthAndDay(y, doy - DaysInMonth(y, m), m + 1)
  }

  /** The civil date of an epoch day. */
  function EpochDayToDate(days: nat): (d: Date)
    ensures ValidDate(d)
    ensures DateToEpochDay(d) == days
  {
    var (y, doy) := YearAndDay(days, EpochYear);
    DaysBeforeMonthStep(y, 12);
    var (m, dd) := MonthAndDay(y, doy, 1);
    Date(y, m, dd)
  }

  lemma {:induction false} DaysBeforeYearMonotone(a: int, b: int)
    requires EpochYear <= a <= b
    ensures DaysBeforeYear(a) <= DaysBeforeYear(b)
    ensures a < b ==> DaysBeforeYear(a + 1) <= DaysBeforeYear(b)
    decreases b - a
  {
    if a < b {
      DaysBeforeYearMonotone(a, b - 1);
    }
  }

  /** Year removal lands on year `target` and day `doy` whenever the day
      count really lies in that year. */
  lemma {:induction false} YearAndDayOf(days: nat, y: int, target: int, doy: nat)
    requires EpochYear <= y <= target
    requires doy < DaysInYear(target)
    requires DaysBeforeYear(y) + days == DaysBeforeYear(target) + doy
    ensures YearAndDay(days, y) == (target, doy)
    decreases target - y
  {
    DaysBeforeYearMonotone(y, target);
    if y < target {
      YearAndDayOf(days - DaysInYear(y), y + 1, target, doy);
    }
  }

  lemma {:induction false} MonthAndDayOf(y: int, m: int, target: int, day: int)
    requires 1 <= m <= target <= 12
    requires 1 <= day <= DaysInMonth(y, target)
    ensures DaysBeforeMonth(y, m) + (DaysBeforeMonth(y, target) - DaysBeforeMonth(y, m) + day - 1) < DaysInYear(y)
    ensures MonthAndDay(y, DaysBeforeMonth(y, target) - DaysBeforeMonth(y, m) + day - 1, m) == (target, day)
    decreases target - m
  {
    DaysBeforeMonthStep(y, m);
    DaysBeforeMonthStep(y, target);
    if m < target {
      MonthAndDayOf(y, m + 1, target, day);
    }
  }

  /** Every valid date on or after the epoch is recovered from its epoch
      day, so the conversion is a bijection between days and dates. */
  lemma DateRoundTrip(d: Date)
    requires ValidDate(d)
    ensures EpochDayToDate(DateToEpochDay(d)) == d
  {
    var days := DateToEpochDay(d);
    var doy := DaysBeforeMonth(d.year, d.month) + d.day - 1;
    DaysBeforeMonthStep(d.year, d.month);
    YearAndDayOf(days, EpochYear, d.year, doy);
    MonthAndDayOf(d.year, 1, d.month, d.day);
  }

  /** The number of leap years among years 1 through `y`. */
  function LeapsThrough(y: nat): nat {
    y / 4 - y / 100 + y / 400
  }

  /** Closed form of the year sum: 365 days a year plus one per leap year. */
  lemma {:induction false} DaysBeforeYearClosedForm(y: int)
    requires y >= EpochYear
    ensures DaysBeforeYear(y) == 365 * (y - EpochYear) + LeapsThrough(y - 1) - LeapsThrough(EpochYear - 1)
    decreases y - EpochYear
  {
    if y > EpochYear {
      DaysBeforeYearClosedForm(y - 1);
      LeapsThroughStep(y - 1);
    }
  }

  /** One more year adds one to the leap count exactly when it is a leap year. */
  lemma LeapsThroughStep(x: nat)
    requires x >= 1
    ensures LeapsThrough(x) == LeapsThrough(x - 1) + (if IsLeap(x) then 1 else 0)
  {
    QuarterStep(x);
    CenturyStep(x);
    QuadCenturyStep(x);
    DivisorChain(x);
    var a, b, c := x % 4 == 0, x % 100 == 0, x % 400 == 0;
    assert IsLeap(x) == (a && (!b || c));
  }

  /** A multiple of 400 is one of 100, and a multiple of 100 is one of 4. */
  lemma DivisorChain(x: nat)
    ensures x % 400 == 0 ==> x % 100 == 0
    ensures x % 100 == 0 ==> x % 4 == 0
  {
    if x % 400 == 0 {
      assert x == 100 * (4 * (x / 400));
    }
    if x % 100 == 0 {
      assert x == 4 * (25 * (x / 100));
    }
  }

  /** Counting multiples of 4, 100 and 400 up to `x` versus up to `x - 1`. */
  lemma QuarterStep(x: nat)
    requires x >= 1
    ensures x / 4 == (x - 1) / 4 + (if x % 4 == 0 then 1 else 0)
  {
  }

  lemma CenturyStep(x: nat)
    requires x >= 1
    ensures x / 100 == (x - 1) / 100 + (if x % 100 == 0 then 1 else 0)
  {
  }

  lemma QuadCenturyStep(x: nat)
    requires x >= 1
    ensures x / 400 == (x - 1) / 400 + (if x % 400 == 0 then 1 else 0)
  {
  }
}
