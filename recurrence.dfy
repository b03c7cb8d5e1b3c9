/**
 * The recurrence helpers of the analytics engine (frontend/src/lib/analytics.ts):
 * month keys, the length of a month through Date.UTC's day-0 trick, month
 * stepping with end-of-month clamping, the one-step charge advancer and the
 * monthly equivalent of a cost.
 */
module Recurrence {
  import opened Gregorian
  import opened Text
  import opened Types
  import opened IsoText
  import opened Dates

  /** toMonthKey: isoDate.slice(0, 7), which clamps to the text's length. */
  function ToMonthKey(s: string): string {
    if |s| <= 7 then s else s[..7]
  }

  /** The month key of a date, read off its ISO text. */
  function MonthKeyOf(d: Date): string {
    ToMonthKey(IsoDate(d))
  }

  /** For a valid date with a four-digit year the key is "YYYY-MM". */
  lemma MonthKeyLayout(d: Date)
    requires IsValidDate(d) && HasFourDigitYear(d)
    ensures MonthKeyOf(d) == FixedDigits(d.year, 4) + "-" + FixedDigits(d.month, 2)
    ensures |MonthKeyOf(d)| == 7
  {
    IsoDateLayout(d);
    var s := IsoDate(d);
    assert s == (FixedDigits(d.year, 4) + "-" + FixedDigits(d.month, 2)) + ("-" + FixedDigits(d.day, 2));
  }

  /** Two valid dates with four-digit years share a key exactly when they share year and month. */
  lemma MonthKeyInjective(a: Date, b: Date)
    requires IsValidDate(a) && HasFourDigitYear(a)
    requires IsValidDate(b) && HasFourDigitYear(b)
    ensures MonthKeyOf(a) == MonthKeyOf(b) <==> a.year == b.year && a.month == b.month
  {
    MonthKeyLayout(a);
    MonthKeyLayout(b);
    if MonthKeyOf(a) == MonthKeyOf(b) {
      var ka, kb := MonthKeyOf(a), MonthKeyOf(b);
      assert ka[..4] == FixedDigits(a.year, 4);
      assert kb[..4] == FixedDigits(b.year, 4);
      assert ka[5..] == FixedDigits(a.month, 2);
      assert kb[5..] == FixedDigits(b.month, 2);
      FixedDigitsValue(a.year, 4);
      FixedDigitsValue(b.year, 4);
      FixedDigitsValue(a.month, 2);
      FixedDigitsValue(b.month, 2);
    }
  }

  /** daysInMonth(year, monthIndex): the UTC date of Date.UTC(year, monthIndex + 1, 0),
      the day before the first of the next month. */
  function DaysInMonthUtc(year: int, monthIndex: int): int {
    FromDayNumber(UtcDayNumber(year, monthIndex + 1, 0)).day
  }

  /** Day 0 of a month after January..November is the last day of that month. */
  lemma DayZeroWithinYear(year: int, m: int)
    requires 1 <= m <= 11
    ensures UtcDayNumber(year, m, 0) == DayNumber(Date(year, m, DaysInMonth(year, m)))
  {
    DaysBeforeMonthStep(year, m);
    assert (m - 1) / 12 == 0 && (m - 1) % 12 == m - 1;
    assert m / 12 == 0 && m % 12 == m;
  }

  /** Day 0 of the month after December (month index 12) is December 31. */
  lemma DayZeroOfNextYear(year: int)
    ensures UtcDayNumber(year, 12, 0) == DayNumber(Date(year, 12, 31))
  {
    DaysBeforeMonthStep(year, 12);
    DaysBeforeYearStep(year);
    assert UtcDayNumber(year, 12, 0) == DaysBeforeYear(year + 1) - 1;
  }

  /** Day 0 of the month after month m (1 = January) is the last day of month m. */
  lemma DayZeroIsMonthEnd(year: int, m: int)
    requires 1 <= m <= 12
    ensures UtcDayNumber(year, m, 0) == DayNumber(Date(year, m, DaysInMonth(year, m)))
  {
    if m == 12 { DayZeroOfNextYear(year); } else { DayZeroWithinYear(year, m); }
  }

  /** The day-0 trick gives the calendar length of the month. */
  lemma DaysInMonthUtcIsCalendar(year: int, monthIndex: int)
    requires 0 <= monthIndex <= 11
    ensures DaysInMonthUtc(year, monthIndex) == DaysInMonth(year, monthIndex + 1)
  {
    var last := Date(year, monthIndex + 1, DaysInMonth(year, monthIndex + 1));
    DayZeroIsMonthEnd(year, monthIndex + 1);
    FromDayNumberOfDayNumber(last);
  }

  /** JavaScript's `a % b` for b > 0: the remainder takes the sign of a. */
  function JsRem(a: int, b: int): (r: int)
    requires b > 0
    ensures -b < r < b
    ensures a >= 0 ==> r >= 0
  {
    if a < 0 && a % b != 0 then a % b - b else a % b
  }

  /** ((monthIndex % 12) + 12) % 12 in JavaScript is the month in 0..11. */
  lemma NormalizedMonthIndex(monthIndex: int)
    ensures JsRem(JsRem(monthIndex, 12) + 12, 12) == monthIndex % 12
  {
  }

  function Min(a: int, b: int): int {
    if a <= b then a else b
  }

  /** addMonths: move `months` months from d, keeping the day unless the
      target month is shorter, in which case the day is its last day. */
  function AddMonths(d: Date, months: int): Date {
    var monthIndex := d.month - 1 + months;
    // Math.floor(monthIndex / 12): Dafny's `/` by a positive divisor is the floor
    var nextYear := d.year + monthIndex / 12;
    var normalizedMonthIndex := JsRem(JsRem(monthIndex, 12) + 12, 12);
    var nextDay := Min(d.day, DaysInMonthUtc(nextYear, normalizedMonthIndex));
    Date(nextYear, normalizedMonthIndex + 1, nextDay)
  }

  /** The fields of AddMonths: year and month from the month index m - 1 + k,
      day clamped to the target month's length, never larger than the input day. */
  lemma AddMonthsFields(d: Date, k: int)
    ensures var r := AddMonths(d, k);
      r.year == d.year + (d.month - 1 + k) / 12 &&
      r.month == (d.month - 1 + k) % 12 + 1 &&
      r.day == Min(d.day, DaysInMonth(r.year, r.month)) &&
      r.day <= d.day &&
      r.year * 12 + r.month == d.year * 12 + d.month + k
  {
    hide DaysInMonthUtc, FromDayNumber, UtcDayNumber;
    var mi := d.month - 1 + k;
    var y, nm := d.year + mi / 12, mi % 12;
    NormalizedMonthIndex(mi);
    hide JsRem;
    assert AddMonths(d, k) == Date(y, nm + 1, Min(d.day, DaysInMonthUtc(y, nm)));
    DaysInMonthUtcIsCalendar(y, nm);
    assert mi == 12 * (mi / 12) + nm;
    assert y * 12 + nm == d.year * 12 + mi;
  }

  /** A valid date stays valid, and moving at least one month forward gives a later date. */
  lemma AddMonthsValidAndLater(d: Date, k: int)
    requires IsValidDate(d)
    ensures IsValidDate(AddMonths(d, k))
    ensures k >= 1 ==> DayNumber(d) < DayNumber(AddMonths(d, k))
    ensures k == 0 ==> AddMonths(d, k) == d
  {
    AddMonthsFields(d, k);
    var r := AddMonths(d, k);
    if k >= 1 {
      assert FieldsBefore(d, r);
      FieldsBeforeMeansEarlier(d, r);
    }
  }

  /** End-of-month clamping: January 31 plus one month is February 28, or
      February 29 in a leap year. */
  lemma AddMonthsClampsToMonthEnd(y: int)
    ensures AddMonths(Date(y, 1, 31), 1) == Date(y, 2, if IsLeapYear(y) then 29 else 28)
  {
    var r := AddMonths(Date(y, 1, 31), 1);
    AddMonthsFields(Date(y, 1, 31), 1);
    assert r.year == y && r.month == 2;
    assert r.day == Min(31, DaysInMonth(y, 2));
  }

  /** The first of a month stays the first: stepping the first of month m of
      year y by i months gives the first of the month i months later. */
  lemma AddMonthsFromFirst(y: int, m: int, i: int)
    requires 1 <= m <= 12
    ensures AddMonths(Date(y, m, 1), i) == Date(y + (m - 1 + i) / 12, (m - 1 + i) % 12 + 1, 1)
  {
    AddMonthsFields(Date(y, m, 1), i);
  }

  /** nextChargeDate: the next charge after d for a billing cycle; a custom
      cycle without an interval steps 30 days. */
  function NextChargeDate(d: Date, cycle: BillingCycle, customIntervalDays: Option<int>): Date {
    match cycle
    case Weekly => AddDays(d, 7)
    case Monthly => AddMonths(d, 1)
    case Yearly => AddMonths(d, 12)
    case CustomDays => AddDays(d, customIntervalDays.GetOr(30))
  }

  /** The step of each cycle: 7 days, one or twelve clamped months, or the custom
      interval in days; the result is a valid date, strictly later than a valid
      input exactly when the cycle is not a custom one with a non-positive interval. */
  lemma NextChargeDateSteps(d: Date, cycle: BillingCycle, customIntervalDays: Option<int>)
    requires IsValidDate(d)
    ensures var r := NextChargeDate(d, cycle, customIntervalDays);
      IsValidDate(r) &&
      (cycle == Weekly ==> DayNumber(r) == DayNumber(d) + 7) &&
      (cycle == Monthly ==> r == AddMonths(d, 1)) &&
      (cycle == Yearly ==> r == AddMonths(d, 12)) &&
      (cycle == CustomDays ==> DayNumber(r) == DayNumber(d) + customIntervalDays.GetOr(30)) &&
      (DayNumber(d) < DayNumber(r) <==> cycle != CustomDays || customIntervalDays.GetOr(30) > 0)
  {
    AddMonthsValidAndLater(d, 1);
    AddMonthsValidAndLater(d, 12);
  }

  /** monthlyEquivalent: the same per-cycle normalisation as averageMonthlyCost. */
  function MonthlyEquivalent(s: Subscription): (r: real)
    requires HasPositiveInterval(s)
    ensures s.billingCycle != CustomDays ==> 12.0 * r == AverageYearlyCost(s)
    ensures s.amountMinor >= 0 ==> r >= 0.0
  {
    if s.amountMinor != 0 then YearlyIsTwelveMonthly(s); AverageMonthlyCost(s)
    else AverageMonthlyCost(s)
  }
}
