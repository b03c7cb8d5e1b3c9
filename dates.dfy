/**
 * Calendar and totals helpers: UTC-midnight day arithmetic on dates, the
 * day window test, the upcoming-renewals list, and the monthly and yearly
 * cost totals (frontend/src/lib/date.ts).
 */
module Dates {
  import opened Gregorian
  import opened Text
  import opened Types
  import opened IsoText
  import opened Seqs

  /** DAY_MS = 24 * 60 * 60 * 1000 */
  const DayMs: int := 24 * 60 * 60 * 1000

  /** toUtcMidnight: the epoch milliseconds of Date.UTC(year, month - 1, day);
      DayNumber(d) is that call's day count (Gregorian.UtcDayNumber). */
  function ToUtcMidnight(d: Date): int {
    DayNumber(d) * DayMs
  }

  /** The UTC calendar fields of the instant t (getUTCFullYear, getUTCMonth + 1, getUTCDate). */
  function DateFromTime(t: int): Date {
    FromDayNumber(t / DayMs)
  }

  /** isoDateFromTime: the zero-padded UTC date of the instant t. */
  function IsoDateFromTime(t: int): (s: string)
    ensures HasFourDigitYear(DateFromTime(t)) ==> ParseIso(s) == Some(DateFromTime(t))
  {
    var d := DateFromTime(t);
    if HasFourDigitYear(d) then ParseIsoDate(d); IsoDate(d) else IsoDate(d)
  }

  /** The distance between two UTC midnights is a whole number of days. */
  lemma MidnightDistance(a: Date, b: Date)
    ensures (ToUtcMidnight(a) - ToUtcMidnight(b)) / DayMs == DayNumber(a) - DayNumber(b)
  {
    assert ToUtcMidnight(a) - ToUtcMidnight(b) == (DayNumber(a) - DayNumber(b)) * DayMs;
  }

  /** The instant of a UTC midnight lies in that day, and every instant of a
      day reads back as the day's date. */
  lemma DateFromTimeOfMidnight(d: Date, ms: int)
    requires IsValidDate(d) && 0 <= ms < DayMs
    ensures DateFromTime(ToUtcMidnight(d) + ms) == d
  {
    assert (ToUtcMidnight(d) + ms) / DayMs == DayNumber(d);
    FromDayNumberOfDayNumber(d);
  }

  /** The date addDaysToIsoDate writes: the day `days` days after d. The source
      gets it by millisecond arithmetic on UTC midnights, which
      AddDaysIsMillisecondArithmetic shows to be this day-number step. */
  function AddDays(d: Date, days: int): (r: Date)
    ensures IsValidDate(r)
    ensures DayNumber(r) == DayNumber(d) + days
  {
    FromDayNumber(DayNumber(d) + days)
  }

  /** new Date(toUtcMidnight(d) + days * DAY_MS) read back with getUTC*: the same date as AddDays. */
  lemma AddDaysIsMillisecondArithmetic(d: Date, days: int)
    ensures DateFromTime(ToUtcMidnight(d) + days * DayMs) == AddDays(d, days)
  {
    var t := ToUtcMidnight(d) + days * DayMs;
    assert t == (DayNumber(d) + days) * DayMs;
    assert t / DayMs == DayNumber(d) + days;
  }

  /** addDaysToIsoDate: the text of the date `days` days after d. */
  function AddDaysToIsoDate(d: Date, days: int): (s: string)
    ensures HasFourDigitYear(AddDays(d, days)) ==> ParseIso(s) == Some(AddDays(d, days))
    ensures HasFourDigitYear(AddDays(d, days)) ==> |s| == 10 && s[4] == '-' && s[7] == '-'
  {
    AddDaysIsMillisecondArithmetic(d, days);
    IsoDateFromTime(ToUtcMidnight(d) + days * DayMs)
  }

  /** daysUntil: whole days from `from` to `target`, negative when target is
      earlier. The source divides the distance between the two UTC midnights by
      DAY_MS, which DaysUntilIsMillisecondArithmetic shows to be this difference. */
  function DaysUntil(target: Date, from: Date): int {
    DayNumber(target) - DayNumber(from)
  }

  /** Math.floor((toUtcMidnight(target) - toUtcMidnight(from)) / DAY_MS) is DaysUntil
      (Dafny's `/` by a positive divisor is the floor of the quotient). */
  lemma DaysUntilIsMillisecondArithmetic(target: Date, from: Date)
    ensures (ToUtcMidnight(target) - ToUtcMidnight(from)) / DayMs == DaysUntil(target, from)
  {
    MidnightDistance(target, from);
  }

  /** isDateInWindow */
  predicate IsDateInWindow(target: Date, start: Date, windowDays: int) {
    var delta := DaysUntil(target, start);
    delta >= 0 && delta <= windowDays
  }

  /** The day delta is zero on equal dates and changes sign when the arguments swap. */
  lemma DaysUntilAntisymmetric(a: Date, b: Date)
    ensures DaysUntil(a, a) == 0
    ensures DaysUntil(a, b) == -DaysUntil(b, a)
  {
  }

  /** Moving n days and measuring back gives n, from any date. */
  lemma DaysUntilAddDays(d: Date, n: int)
    ensures DaysUntil(AddDays(d, n), d) == n
  {
  }

  /** Moving n days and measuring back gives n; measuring and moving back gives the date. */
  lemma AddDaysRoundTrip(d: Date, n: int, e: Date)
    requires IsValidDate(e)
    ensures DaysUntil(AddDays(d, n), d) == n
    ensures AddDays(d, DaysUntil(e, d)) == e
  {
    DaysUntilAddDays(d, n);
    FieldsBeforeIsChronological(AddDays(d, DaysUntil(e, d)), e);
  }

  /** A valid date is n days after d exactly when the day delta between them is n. */
  lemma AddDaysReaches(d: Date, n: int, e: Date)
    requires IsValidDate(e)
    ensures AddDays(d, n) == e <==> DaysUntil(e, d) == n
  {
    AddDaysRoundTrip(d, n, e);
  }

  /** A valid date is in the window exactly when it is one of the windowDays + 1
      days starting at start. */
  lemma {:induction false} InWindowMeansReachable(target: Date, start: Date, windowDays: int)
    requires IsValidDate(target)
    ensures IsDateInWindow(target, start, windowDays) <==>
      exists k :: 0 <= k <= windowDays && AddDays(start, k) == target
  {
    forall k ensures AddDays(start, k) == target <==> DaysUntil(target, start) == k {
      AddDaysReaches(start, k, target);
    }
    if IsDateInWindow(target, start, windowDays) {
      var k := DaysUntil(target, start);
      assert 0 <= k <= windowDays && AddDays(start, k) == target;
    }
  }

  /** Two days apart within one month, and zero on the same day, as the date tests expect. */
  lemma DaysUntilWithinMonth()
    ensures DaysUntil(Date(2026, 2, 10), Date(2026, 2, 8)) == 2
    ensures DaysUntil(Date(2026, 2, 8), Date(2026, 2, 8)) == 0
  {
    hide DaysBeforeYear;
    ValidDayNumber(Date(2026, 2, 10));
    ValidDayNumber(Date(2026, 2, 8));
  }

  /** Two years across a leap day: 2024-03-01 to 2026-03-01 is 365 + 365 days,
      the leap day 2024-02-29 lying before the span. */
  lemma DaysUntilAcrossLeapDay()
    ensures DaysUntil(Date(2026, 3, 1), Date(2024, 3, 1)) == 730
  {
    hide DaysBeforeYear;
    ValidDayNumber(Date(2026, 3, 1));
    ValidDayNumber(Date(2024, 3, 1));
    DaysBeforeYearStep(2024);
    DaysBeforeYearStep(2025);
  }

  /** 2024-02-28 to 2024-03-01 spans the leap day 2024-02-29. */
  lemma DaysUntilOverLeapDay()
    ensures DaysUntil(Date(2024, 3, 1), Date(2024, 2, 28)) == 2
  {
    hide DaysBeforeYear;
    assert IsLeapYear(2024);
    ValidDayNumber(Date(2024, 3, 1));
    ValidDayNumber(Date(2024, 2, 28));
  }

  /** averageMonthlyCost */
  function AverageMonthlyCost(s: Subscription): (r: real)
    requires HasPositiveInterval(s)
    ensures s.amountMinor >= 0 ==> r >= 0.0
  {
    match s.billingCycle
    case Weekly => s.amountMinor as real * (52.0 / 12.0)
    case Monthly => s.amountMinor as real
    case Yearly => s.amountMinor as real / 12.0
    case CustomDays => s.amountMinor as real * (30.0 / IntervalDays(s) as real)
  }

  /** averageYearlyCost */
  function AverageYearlyCost(s: Subscription): (r: real)
    requires HasPositiveInterval(s)
    ensures s.amountMinor >= 0 ==> r >= 0.0
  {
    match s.billingCycle
    case Weekly => s.amountMinor as real * 52.0
    case Monthly => s.amountMinor as real * 12.0
    case Yearly => s.amountMinor as real
    case CustomDays => s.amountMinor as real * (365.0 / IntervalDays(s) as real)
  }

  /** The yearly figure is twelve monthly figures for weekly, monthly and yearly
      cycles, but not for custom cycles (365 / interval against 12 * 30 / interval). */
  lemma YearlyIsTwelveMonthly(s: Subscription)
    requires HasPositiveInterval(s) && s.amountMinor != 0
    ensures AverageYearlyCost(s) == 12.0 * AverageMonthlyCost(s) <==> s.billingCycle != CustomDays
  {
    if s.billingCycle == CustomDays {
      var a, i := s.amountMinor as real, IntervalDays(s) as real;
      assert AverageYearlyCost(s) - 12.0 * AverageMonthlyCost(s) == 5.0 * a / i;
    }
  }

  /** Math.round: the nearest integer, halves rounded up. */
  function Round(x: real): (r: int)
    ensures r as real - 0.5 <= x < r as real + 0.5
  {
    (x + 0.5).Floor
  }

  predicate ActiveHavePositiveIntervals(subs: seq<Subscription>) {
    forall i :: 0 <= i < |subs| ==> subs[i].isActive ==> HasPositiveInterval(subs[i])
  }

  /** Sum of averageMonthlyCost over a list, added left to right. */
  function MonthlyCostSum(subs: seq<Subscription>): real
    requires forall i :: 0 <= i < |subs| ==> HasPositiveInterval(subs[i])
  {
    if subs == [] then 0.0
    else MonthlyCostSum(subs[..|subs| - 1]) + AverageMonthlyCost(subs[|subs| - 1])
  }

  /** Sum of averageYearlyCost over a list, added left to right. */
  function YearlyCostSum(subs: seq<Subscription>): real
    requires forall i :: 0 <= i < |subs| ==> HasPositiveInterval(subs[i])
  {
    if subs == [] then 0.0
    else YearlyCostSum(subs[..|subs| - 1]) + AverageYearlyCost(subs[|subs| - 1])
  }

  lemma ActiveOnlyUsable(subs: seq<Subscription>)
    requires ActiveHavePositiveIntervals(subs)
    ensures forall i :: 0 <= i < |ActiveOnly(subs)| ==> HasPositiveInterval(ActiveOnly(subs)[i])
  {
    forall i | 0 <= i < |ActiveOnly(subs)| ensures HasPositiveInterval(ActiveOnly(subs)[i]) {
      assert ActiveOnly(subs)[i] in subs;
    }
  }

  /** The reduce of averageMonthlyCost over the active subscriptions, unrounded. */
  function ActiveMonthlySum(subs: seq<Subscription>): real
    requires ActiveHavePositiveIntervals(subs)
  {
    ActiveOnlyUsable(subs);
    MonthlyCostSum(ActiveOnly(subs))
  }

  /** The reduce of averageYearlyCost over the active subscriptions, unrounded. */
  function ActiveYearlySum(subs: seq<Subscription>): real
    requires ActiveHavePositiveIntervals(subs)
  {
    ActiveOnlyUsable(subs);
    YearlyCostSum(ActiveOnly(subs))
  }

  /** calculateMonthlyTotalMinor: the active subscriptions' monthly costs, summed, then rounded once. */
  function CalculateMonthlyTotalMinor(subs: seq<Subscription>): (r: int)
    requires ActiveHavePositiveIntervals(subs)
  {
    Round(ActiveMonthlySum(subs))
  }

  /** calculateYearlyTotalMinor: the active subscriptions' yearly costs, summed, then rounded once. */
  function CalculateYearlyTotalMinor(subs: seq<Subscription>): (r: int)
    requires ActiveHavePositiveIntervals(subs)
  {
    Round(ActiveYearlySum(subs))
  }

  /** Without custom cycles the yearly sum is exactly twelve monthly sums. */
  lemma {:induction false} YearlySumIsTwelveMonthly(subs: seq<Subscription>)
    requires forall i :: 0 <= i < |subs| ==> HasPositiveInterval(subs[i])
    requires forall i :: 0 <= i < |subs| ==> subs[i].billingCycle != CustomDays
    ensures YearlyCostSum(subs) == 12.0 * MonthlyCostSum(subs)
  {
    if subs != [] {
      YearlySumIsTwelveMonthly(subs[..|subs| - 1]);
      var last := subs[|subs| - 1];
      assert AverageYearlyCost(last) == 12.0 * AverageMonthlyCost(last);
    }
  }

  /** Sums of non-negative amounts are non-negative. */
  lemma {:induction false} CostSumsNonNegative(subs: seq<Subscription>)
    requires forall i :: 0 <= i < |subs| ==> HasPositiveInterval(subs[i]) && subs[i].amountMinor >= 0
    ensures MonthlyCostSum(subs) >= 0.0 && YearlyCostSum(subs) >= 0.0
  {
    if subs != [] {
      CostSumsNonNegative(subs[..|subs| - 1]);
    }
  }

  /** An inactive subscription changes neither sum; an active one adds its
      normalised cost. */
  lemma TotalsOfAppended(subs: seq<Subscription>, s: Subscription)
    requires ActiveHavePositiveIntervals(subs) && (s.isActive ==> HasPositiveInterval(s))
    ensures ActiveHavePositiveIntervals(subs + [s])
    ensures !s.isActive ==> ActiveMonthlySum(subs + [s]) == ActiveMonthlySum(subs)
    ensures !s.isActive ==> ActiveYearlySum(subs + [s]) == ActiveYearlySum(subs)
    ensures s.isActive ==> ActiveMonthlySum(subs + [s]) == ActiveMonthlySum(subs) + AverageMonthlyCost(s)
    ensures s.isActive ==> ActiveYearlySum(subs + [s]) == ActiveYearlySum(subs) + AverageYearlyCost(s)
  {
    var all := subs + [s];
    assert all[..|all| - 1] == subs;
    ActiveOnlyUsable(subs);
    if s.isActive {
      assert ActiveOnly(all) == ActiveOnly(subs) + [s];
      assert ActiveOnly(all)[..|ActiveOnly(all)| - 1] == ActiveOnly(subs);
    } else {
      assert ActiveOnly(all) == ActiveOnly(subs);
    }
  }

  /** A list with no active subscription totals zero. */
  lemma TotalsOfInactive(subs: seq<Subscription>)
    requires forall i :: 0 <= i < |subs| ==> !subs[i].isActive
    ensures ActiveHavePositiveIntervals(subs)
    ensures CalculateMonthlyTotalMinor(subs) == 0 && CalculateYearlyTotalMinor(subs) == 0
  {
    FilterNone(subs, IsActive);
  }

  /** The unrounded sums of the totals test: a 1000 monthly, a 24000 yearly and
      a 500 weekly subscription. */
  lemma TotalsExampleSums(b: Subscription, y: Subscription, w: Subscription)
    requires b.isActive && b.billingCycle == Monthly && b.amountMinor == 1000
    requires y.isActive && y.billingCycle == Yearly && y.amountMinor == 24000
    requires w.isActive && w.billingCycle == Weekly && w.amountMinor == 500
    ensures ActiveHavePositiveIntervals([b, y, w])
    ensures ActiveMonthlySum([b, y, w]) == 1000.0 + 2000.0 + 500.0 * 52.0 / 12.0
    ensures ActiveYearlySum([b, y, w]) == 12000.0 + 24000.0 + 26000.0
  {
    TotalsOfInactive([]);
    TotalsOfAppended([], b);
    assert [] + [b] == [b];
    TotalsOfAppended([b], y);
    assert [b] + [y] == [b, y];
    TotalsOfAppended([b, y], w);
    assert [b, y] + [w] == [b, y, w];
  }

  /** The totals the date tests expect: 5167 a month and 62000 a year. */
  lemma TotalsExample(b: Subscription, y: Subscription, w: Subscription)
    requires b.isActive && b.billingCycle == Monthly && b.amountMinor == 1000
    requires y.isActive && y.billingCycle == Yearly && y.amountMinor == 24000
    requires w.isActive && w.billingCycle == Weekly && w.amountMinor == 500
    ensures ActiveHavePositiveIntervals([b, y, w])
    ensures CalculateMonthlyTotalMinor([b, y, w]) == 5167
    ensures CalculateYearlyTotalMinor([b, y, w]) == 62000
  {
    TotalsExampleSums(b, y, w);
    assert 1000.0 + 2000.0 + 500.0 * 52.0 / 12.0 + 0.5 == 5167.0 + 1.0 / 6.0;
  }

  /** The sort key of getUpcomingRenewals: `localeCompare` on the stored
      `YYYY-MM-DD` texts orders by year, then month, then day, as this number
      does (BillingKeyIsTextOrder). */
  function BillingKey(s: Subscription): int {
    var d := s.nextBillingDate;
    d.year * 10000 + d.month * 100 + d.day
  }

  /** The second filter of getUpcomingRenewals: the renewal date lies in the window. */
  function DueWithin(start: Date, windowDays: int): Subscription -> bool {
    (s: Subscription) => IsDateInWindow(s.nextBillingDate, start, windowDays)
  }

  /** getUpcomingRenewals: the active subscriptions due within windowDays days of
      start, earliest first; subscriptions due on the same day keep their order. */
  function GetUpcomingRenewals(subs: seq<Subscription>, start: Date, windowDays: int): seq<Subscription> {
    SortBy(Filter(ActiveOnly(subs), DueWithin(start, windowDays)), BillingKey)
  }

  /** The result lists exactly the active subscriptions in the window, each as
      often as in the input, in date order. */
  lemma UpcomingRenewalsContents(subs: seq<Subscription>, start: Date, windowDays: int)
    ensures var r := GetUpcomingRenewals(subs, start, windowDays);
      SortedBy(r, BillingKey) &&
      multiset(r) == multiset(Filter(ActiveOnly(subs), DueWithin(start, windowDays))) &&
      forall s :: s in r <==> s in subs && s.isActive && IsDateInWindow(s.nextBillingDate, start, windowDays)
  {
    var f := Filter(ActiveOnly(subs), DueWithin(start, windowDays));
    SortBySorted(f, BillingKey);
    SortByPermutes(f, BillingKey);
    forall s ensures s in SortBy(f, BillingKey) <==> s in f {
      assert s in SortBy(f, BillingKey) <==> s in multiset(SortBy(f, BillingKey));
    }
  }

  /** Subscriptions renewing on the same day appear in their input order. */
  lemma UpcomingRenewalsStable(subs: seq<Subscription>, start: Date, windowDays: int, day: int)
    ensures WithKey(GetUpcomingRenewals(subs, start, windowDays), BillingKey, day) ==
      WithKey(Filter(ActiveOnly(subs), DueWithin(start, windowDays)), BillingKey, day)
  {
    SortByStable(Filter(ActiveOnly(subs), DueWithin(start, windowDays)), BillingKey, day);
  }

  /** With month and day below 100 the key orders dates field by field. */
  lemma BillingKeyIsFieldOrder(a: Subscription, b: Subscription)
    requires 0 <= a.nextBillingDate.month <= 99 && 0 <= a.nextBillingDate.day <= 99
    requires 0 <= b.nextBillingDate.month <= 99 && 0 <= b.nextBillingDate.day <= 99
    ensures BillingKey(a) < BillingKey(b) <==> FieldsBefore(a.nextBillingDate, b.nextBillingDate)
    ensures BillingKey(a) == BillingKey(b) <==> a.nextBillingDate == b.nextBillingDate
  {
    var x, y := a.nextBillingDate, b.nextBillingDate;
    var mx, my := x.month * 100 + x.day, y.month * 100 + y.day;
    assert 0 <= mx < 10000 && 0 <= my < 10000;
    if x.year < y.year {
      assert x.year * 10000 + 10000 <= y.year * 10000;
    } else if y.year < x.year {
      assert y.year * 10000 + 10000 <= x.year * 10000;
    }
  }

  /** On stored texts the key order is the text order, and equal keys are
      equal texts: the sort breaks no tie that `localeCompare` does not. */
  lemma BillingKeyIsTextOrder(a: Subscription, b: Subscription)
    requires FitsIsoPattern(a.nextBillingDate) && FitsIsoPattern(b.nextBillingDate)
    ensures BillingKey(a) < BillingKey(b) <==> StringLess(StoredIsoText(a.nextBillingDate), StoredIsoText(b.nextBillingDate))
    ensures BillingKey(a) == BillingKey(b) <==> StoredIsoText(a.nextBillingDate) == StoredIsoText(b.nextBillingDate)
  {
    var x, y := a.nextBillingDate, b.nextBillingDate;
    BillingKeyIsFieldOrder(a, b);
    FixedDigitsOrder(x.year, y.year, 4);
    FixedDigitsOrder(x.month, y.month, 2);
    FixedDigitsOrder(x.day, y.day, 2);
    JoinedFieldsLess(FixedDigits(x.year, 4), FixedDigits(x.month, 2), FixedDigits(x.day, 2),
                     FixedDigits(y.year, 4), FixedDigits(y.month, 2), FixedDigits(y.day, 2));
    ParseStoredIsoText(x);
    ParseStoredIsoText(y);
  }

  /** For calendar-valid dates the key order is chronological order. */
  lemma BillingKeyIsChronological(a: Subscription, b: Subscription)
    requires IsValidDate(a.nextBillingDate) && IsValidDate(b.nextBillingDate)
    ensures BillingKey(a) < BillingKey(b) <==> DayNumber(a.nextBillingDate) < DayNumber(b.nextBillingDate)
    ensures BillingKey(a) == BillingKey(b) <==> DayNumber(a.nextBillingDate) == DayNumber(b.nextBillingDate)
  {
    BillingKeyIsFieldOrder(a, b);
    FieldsBeforeIsChronological(a.nextBillingDate, b.nextBillingDate);
  }

  /** 2026-02-30 passes the text pattern: it sorts before 2026-03-01 as text,
      though as a day count (2 March) it falls after it. */
  lemma CalendarInvalidSortsAsText(a: Subscription, b: Subscription)
    requires a.nextBillingDate == Date(2026, 2, 30) && b.nextBillingDate == Date(2026, 3, 1)
    ensures BillingKey(a) < BillingKey(b)
    ensures DayNumber(b.nextBillingDate) < DayNumber(a.nextBillingDate)
  {
    hide DaysBeforeYear;
    assert !IsLeapYear(2026);
    assert DayNumber(a.nextBillingDate) == DaysBeforeYear(2026) + 31 + 29;
    assert DayNumber(b.nextBillingDate) == DaysBeforeYear(2026) + 59;
  }

  /** The renewal dates of the renewal test against the window of ten days from 2026-02-08. */
  lemma RenewalTestWindow()
    ensures IsDateInWindow(Date(2026, 2, 15), Date(2026, 2, 8), 10)
    ensures !IsDateInWindow(Date(2026, 3, 18), Date(2026, 2, 8), 10)
  {
    hide DaysBeforeYear;
    ValidDayNumber(Date(2026, 2, 15));
    ValidDayNumber(Date(2026, 2, 8));
    ValidDayNumber(Date(2026, 3, 18));
  }

  /** Only the first and last subscriptions of the renewal test are active. */
  lemma RenewalTestActive(base: Subscription, inactive: Subscription, late: Subscription)
    requires base.isActive && !inactive.isActive && late.isActive
    ensures ActiveOnly([base, inactive, late]) == [base, late]
  {
    FilterAppend([base, inactive], [late], IsActive);
    FilterAppend([base], [inactive], IsActive);
    FilterSingle(base, IsActive);
    FilterSingle(inactive, IsActive);
    FilterSingle(late, IsActive);
    assert [base, inactive] + [late] == [base, inactive, late];
    assert [base] + [inactive] == [base, inactive];
  }

  /** The renewal test: from 2026-02-08 with a ten-day window, an active
      subscription due 2026-02-15 is listed, one due 2026-03-18 and an
      inactive one are not. */
  lemma UpcomingRenewalsExample(base: Subscription, inactive: Subscription, late: Subscription)
    requires base.isActive && base.nextBillingDate == Date(2026, 2, 15)
    requires !inactive.isActive
    requires late.isActive && late.nextBillingDate == Date(2026, 3, 18)
    ensures GetUpcomingRenewals([base, inactive, late], Date(2026, 2, 8), 10) == [base]
  {
    hide DaysUntil, Filter, ActiveOnly;
    RenewalTestWindow();
    RenewalTestActive(base, inactive, late);
    var p := DueWithin(Date(2026, 2, 8), 10);
    FilterAppend([base], [late], p);
    FilterSingle(base, p);
    FilterSingle(late, p);
    assert [base] + [late] == [base, late];
    assert SortBy([base], BillingKey) == [base] by {
      assert [base][..0] == [];
    }
  }
}
