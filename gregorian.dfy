/**
 * Proleptic Gregorian calendar arithmetic at day granularity, counted from
 * 1970-01-01. This is the part of JavaScript's Date that the engine relies
 * on: Date.UTC (with its roll-over of out-of-range months and days) and the
 * getUTCFullYear / getUTCMonth / getUTCDate accessors of a UTC-midnight time.
 */
module Gregorian {

  /** A date as the engine parses it from "YYYY-MM-DD"; month and day are
      whatever the digits say, and IsValidDate picks out real calendar dates. */
  datatype Date = Date(year: int, month: int, day: int)

  predicate IsLeapYear(y: int) {
    y % 4 == 0 && (y % 100 != 0 || y % 400 == 0)
  }

  function DaysInYear(y: int): (n: int)
    ensures n == 365 || n == 366
    ensures n == 366 <==> IsLeapYear(y)
  {
    if IsLeapYear(y) then 366 else 365
  }

  /** Length of month m (1 = January) of year y. */
  function DaysInMonth(y: int, m: int): (n: int)
    requires 1 <= m <= 12
    ensures 28 <= n <= 31
    ensures n == 29 <==> m == 2 && IsLeapYear(y)
  {
    if m == 2 then (if IsLeapYear(y) then 29 else 28)
    else if m == 4 || m == 6 || m == 9 || m == 11 then 30
    else 31
  }

  predicate IsValidDate(d: Date) {
    1 <= d.month <= 12 && 1 <= d.day <= DaysInMonth(d.year, d.month)
  }

  /** Chronological order read off the fields: year, then month, then day. */
  predicate FieldsBefore(a: Date, b: Date) {
    a.year < b.year ||
    (a.year == b.year && (a.month < b.month || (a.month == b.month && a.day < b.day)))
  }

  /** Leap years in [1, y) for positive y, extended to every y by floor division. */
  function LeapYearsBefore(y: int): int {
    (y - 1) / 4 - (y - 1) / 100 + (y - 1) / 400
  }

  /** Days from 1970-01-01 to January 1 of year y (negative before 1970). */
  function DaysBeforeYear(y: int): int {
    365 * (y - 1970) + LeapYearsBefore(y) - LeapYearsBefore(1970)
  }

  /** Days from January 1 to the first day of month m; m = 13 gives the year length. */
  function DaysBeforeMonth(y: int, m: int): int
    requires 1 <= m <= 13
  {
    var common := [0, 31, 59, 90, 120, 151, 181, 212, 243, 273, 304, 334, 365][m - 1];
    if m > 2 && IsLeapYear(y) then common + 1 else common
  }

  /** Date.UTC(year, monthIndex, day) divided by the length of a day: a month
      index outside 0..11 moves into a neighbouring year and a day outside the
      month moves into a neighbouring month, as JavaScript does. */
  function UtcDayNumber(year: int, monthIndex: int, day: int): int {
    var y := year + monthIndex / 12;
    DaysBeforeYear(y) + DaysBeforeMonth(y, monthIndex % 12 + 1) + day - 1
  }

  /** Days from 1970-01-01 to d, for the parsed fields of "YYYY-MM-DD". */
  function DayNumber(d: Date): int {
    UtcDayNumber(d.year, d.month - 1, d.day)
  }

  lemma DaysBeforeYearStep(y: int)
    ensures DaysBeforeYear(y + 1) == DaysBeforeYear(y) + DaysInYear(y)
  {
    LeapYearsBeforeStep(y);
  }

  lemma LeapYearsBeforeStep(y: int)
    ensures LeapYearsBefore(y + 1) == LeapYearsBefore(y) + (if IsLeapYear(y) then 1 else 0)
  {
    FloorStep(y - 1, 4);
    FloorStep(y - 1, 100);
    FloorStep(y - 1, 400);
    DivisibilityChain(y);
  }

  lemma DivisibilityChain(y: int)
    ensures y % 400 == 0 ==> y % 100 == 0
    ensures y % 100 == 0 ==> y % 4 == 0
  {
    if y % 400 == 0 {
      assert y == 400 * (y / 400);
      assert y == 100 * (4 * (y / 400));
    }
    if y % 100 == 0 {
      assert y == 100 * (y / 100);
      assert y == 4 * (25 * (y / 100));
    }
  }

  /** Floor division by k goes up by one exactly when the next number is a multiple of k. */
  lemma FloorStep(x: int, k: int)
    requires k == 4 || k == 100 || k == 400
    ensures (x + 1) / k - x / k == if (x + 1) % k == 0 then 1 else 0
  {
  }

  lemma DaysBeforeMonthStep(y: int, m: int)
    requires 1 <= m <= 12
    ensures DaysBeforeMonth(y, m + 1) == DaysBeforeMonth(y, m) + DaysInMonth(y, m)
    ensures DaysBeforeMonth(y, 13) == DaysInYear(y)
  {
  }

  /** Every year has at least 365 days, so January 1 moves forward at least that much a year. */
  lemma {:induction false} DaysBeforeYearGrows(a: int, b: int)
    requires a <= b
    ensures DaysBeforeYear(a) + 365 * (b - a) <= DaysBeforeYear(b)
    ensures DaysBeforeYear(b) <= DaysBeforeYear(a) + 366 * (b - a)
    decreases b - a
  {
    if a < b {
      DaysBeforeYearGrows(a, b - 1);
      DaysBeforeYearStep(b - 1);
    }
  }

  /** A valid date's day number lies inside its year and month. */
  lemma ValidDayNumber(d: Date)
    requires IsValidDate(d)
    ensures DayNumber(d) == DaysBeforeYear(d.year) + DaysBeforeMonth(d.year, d.month) + d.day - 1
    ensures DaysBeforeYear(d.year) <= DayNumber(d) < DaysBeforeYear(d.year + 1)
  {
    hide DaysBeforeYear, DaysInYear;
    DaysBeforeYearStep(d.year);
    DaysBeforeMonthStep(d.year, d.month);
    DaysBeforeMonthBelowYear(d.year, d.month + 1);
    assert (d.month - 1) / 12 == 0 && (d.month - 1) % 12 == d.month - 1;
  }

  lemma DaysBeforeMonthBelowYear(y: int, m: int)
    requires 1 <= m <= 13
    ensures DaysBeforeMonth(y, m) <= DaysBeforeMonth(y, 13)
  {
  }

  /** The year containing day n, searched upward from a year that starts on or before n. */
  function YearAtOrAfter(n: int, y: int): (r: int)
    requires DaysBeforeYear(y) <= n
    ensures DaysBeforeYear(r) <= n < DaysBeforeYear(r + 1)
    decreases n - DaysBeforeYear(y)
  {
    DaysBeforeYearStep(y);
    if n < DaysBeforeYear(y + 1) then y else YearAtOrAfter(n, y + 1)
  }

  /** The year containing day n, searched downward from a year that ends after n. */
  function YearAtOrBefore(n: int, y: int): (r: int)
    requires n < DaysBeforeYear(y + 1)
    ensures DaysBeforeYear(r) <= n < DaysBeforeYear(r + 1)
    decreases DaysBeforeYear(y) - n
  {
    DaysBeforeYearStep(y - 1);
    if DaysBeforeYear(y) <= n then y else YearAtOrBefore(n, y - 1)
  }

  /** getUTCFullYear of day n; the search starts at 1970 + n / 366, at most a year or so away. */
  function YearOf(n: int): (y: int)
    ensures DaysBeforeYear(y) <= n < DaysBeforeYear(y + 1)
  {
    var guess := 1970 + n / 366;
    if n >= 0 then
      DaysBeforeYearGrows(1970, guess);
      YearAtOrAfter(n, guess)
    else
      DaysBeforeYearGrows(guess + 1, 1970);
      YearAtOrBefore(n, guess)
  }

  /** The month (1 = January) holding day-of-year doy, searched downward from month m. */
  function MonthAtOrBefore(y: int, doy: int, m: int): (r: int)
    requires 1 <= m <= 12 && 0 <= doy < DaysBeforeMonth(y, m + 1)
    ensures 1 <= r <= m
    ensures DaysBeforeMonth(y, r) <= doy < DaysBeforeMonth(y, r + 1)
  {
    if DaysBeforeMonth(y, m) <= doy then m else MonthAtOrBefore(y, doy, m - 1)
  }

  /** The UTC calendar fields of day n: what getUTCFullYear, getUTCMonth + 1 and
      getUTCDate return for the time n * DAY_MS. */
  function FromDayNumber(n: int): (d: Date)
    ensures IsValidDate(d)
    ensures DayNumber(d) == n
  {
    var y := YearOf(n);
    DaysBeforeYearStep(y);
    var m := MonthAtOrBefore(y, n - DaysBeforeYear(y), 12);
    DaysBeforeMonthStep(y, m);
    var d := Date(y, m, n - DaysBeforeYear(y) - DaysBeforeMonth(y, m) + 1);
    ValidDayNumber(d);
    d
  }

  /** A date earlier by its fields has a smaller day number. */
  lemma FieldsBeforeMeansEarlier(a: Date, b: Date)
    requires IsValidDate(a) && IsValidDate(b) && FieldsBefore(a, b)
    ensures DayNumber(a) < DayNumber(b)
  {
    hide DaysBeforeYear, DaysInYear, UtcDayNumber;
    ValidDayNumber(a);
    ValidDayNumber(b);
    if a.year < b.year {
      DaysBeforeYearGrows(a.year + 1, b.year);
    } else if a.month < b.month {
      DaysBeforeMonthStep(a.year, a.month);
      DaysBeforeMonthMonotone(a.year, a.month + 1, b.month);
    }
  }

  /** Field order and day-number order agree on valid dates. */
  lemma FieldsBeforeIsChronological(a: Date, b: Date)
    requires IsValidDate(a) && IsValidDate(b)
    ensures FieldsBefore(a, b) <==> DayNumber(a) < DayNumber(b)
    ensures a == b <==> DayNumber(a) == DayNumber(b)
  {
    if FieldsBefore(a, b) {
      FieldsBeforeMeansEarlier(a, b);
    } else if FieldsBefore(b, a) {
      FieldsBeforeMeansEarlier(b, a);
    }
  }

  lemma DaysBeforeMonthMonotone(y: int, m: int, k: int)
    requires 1 <= m <= k <= 13
    ensures DaysBeforeMonth(y, m) <= DaysBeforeMonth(y, k)
  {
  }

  /** Reading the fields of a valid date's own day number gives the date back. */
  lemma FromDayNumberOfDayNumber(d: Date)
    requires IsValidDate(d)
    ensures FromDayNumber(DayNumber(d)) == d
  {
    FieldsBeforeIsChronological(FromDayNumber(DayNumber(d)), d);
  }
}
