/**
 * buildAnalyticsSummary (frontend/src/lib/analytics.ts): the four headline
 * numbers of the analytics page for a given day — the rounded monthly
 * baseline, the six-month projection of the spend trend, the number of
 * active subscriptions and the number of renewals in the next 30 days.
 */
module Summary {
  import opened Gregorian
  import opened Types
  import opened Seqs
  import opened Dates
  import opened SpendTrend
  import opened RenewalBuckets

  datatype AnalyticsSummary = AnalyticsSummary(
    monthlyBaselineMinor: int,
    projectedSixMonthMinor: int,
    activeCount: int,
    renewalCount30Days: int)

  function PointAmount(p: SpendTrendPoint): int {
    p.amountMinor
  }

  /** What buildAnalyticsSummary returns for today's date; monthLabel stands for
      the Intl month formatter the spend trend labels its points with. */
  function AnalyticsSummaryOf(subs: seq<Subscription>, today: Date, monthLabel: string -> string): AnalyticsSummary
    requires ActiveHavePositiveIntervals(subs)
  {
    AnalyticsSummary(
      CalculateMonthlyTotalMinor(subs),
      IntSumOf(SpendTrendOf(subs, today, Some(6), monthLabel), PointAmount),
      |ActiveOnly(subs)|,
      |GetUpcomingRenewals(subs, today, 30)|)
  }

  /** buildAnalyticsSummary: builds the six-month spend trend and sums its amounts. */
  method BuildAnalyticsSummary(subs: seq<Subscription>, today: Date, monthLabel: string -> string)
    returns (summary: AnalyticsSummary)
    requires ActiveHavePositiveIntervals(subs)
    ensures summary == AnalyticsSummaryOf(subs, today, monthLabel)
  {
    var activeCount := |ActiveOnly(subs)|;
    var monthlyBaselineMinor := CalculateMonthlyTotalMinor(subs);
    var trend := BuildSpendTrend(subs, today, Some(6), monthLabel);
    var projectedSixMonthMinor := IntSumOf(trend, PointAmount);
    var renewalCount30Days := |GetUpcomingRenewals(subs, today, 30)|;
    summary := AnalyticsSummary(monthlyBaselineMinor, projectedSixMonthMinor, activeCount, renewalCount30Days);
  }

  /** The renewal count is the total of the default renewal buckets, and never
      more than the number of active subscriptions. */
  lemma SummaryRenewalCount(subs: seq<Subscription>, today: Date, monthLabel: string -> string)
    requires ActiveHavePositiveIntervals(subs)
    ensures var r := RenewalBucketsOf(subs, today, None);
      var summary := AnalyticsSummaryOf(subs, today, monthLabel);
      summary.renewalCount30Days == r[0].count + r[1].count + r[2].count + r[3].count &&
      summary.renewalCount30Days <= summary.activeCount
  {
    BucketsAddUp(subs, today, None);
  }

  /** The summary only looks at the active subscriptions: dropping the inactive
      ones first gives the same four numbers. */
  lemma SummaryOnlySeesActive(subs: seq<Subscription>, today: Date, monthLabel: string -> string)
    requires ActiveHavePositiveIntervals(subs)
    ensures ActiveHavePositiveIntervals(ActiveOnly(subs))
    ensures AnalyticsSummaryOf(ActiveOnly(subs), today, monthLabel) == AnalyticsSummaryOf(subs, today, monthLabel)
  {
    ActiveOnlyUsable(subs);
    FilterTwice(subs, IsActive);
  }

  /** A list with no active subscription summarises to four zeros. */
  lemma SummaryOfInactive(subs: seq<Subscription>, today: Date, monthLabel: string -> string)
    requires forall i :: 0 <= i < |subs| ==> !subs[i].isActive
    ensures ActiveHavePositiveIntervals(subs)
    ensures AnalyticsSummaryOf(subs, today, monthLabel) == AnalyticsSummary(0, 0, 0, 0)
  {
    TotalsOfInactive(subs);
    FilterNone(subs, IsActive);
    SpendTrendShape(subs, today, Some(6), monthLabel);
    ZeroAmountsSum(SpendTrendOf(subs, today, Some(6), monthLabel));
  }

  lemma {:induction false} ZeroAmountsSum(points: seq<SpendTrendPoint>)
    requires forall i :: 0 <= i < |points| ==> points[i].amountMinor == 0
    ensures IntSumOf(points, PointAmount) == 0
  {
    if points != [] {
      ZeroAmountsSum(points[..|points| - 1]);
    }
  }
}
