/**
 * buildRenewalBuckets (frontend/src/lib/analytics.ts): how many active
 * subscriptions renew within each week of the coming window. Four buckets
 * with fixed labels are created, then every active subscription whose day
 * delta lies in [0, daysAhead] adds one to the first bucket whose upper
 * bound (7, 14, 21) it does not exceed, or to the last bucket.
 *
 * BucketCount is the reference definition; BuildRenewalBuckets is the
 * counting loop over a four-element array, proved to produce it.
 */
module RenewalBuckets {
  import opened Gregorian
  import opened Types
  import opened Seqs
  import opened Dates

  datatype RenewalBucketPoint = RenewalBucketPoint(bucketLabel: string, count: int)

  /** The four bucket labels, in bucket order. */
  const BucketLabels: seq<string> := ["0-7 days", "8-14 days", "15-21 days", "22-30 days"]

  /** `options.daysAhead ?? 30` */
  function WindowDays(daysAhead: Option<int>): int {
    daysAhead.GetOr(30)
  }

  /** The bucket a day delta inside the window goes to. */
  function BucketOf(delta: int): (b: int)
    ensures 0 <= b < 4
  {
    if delta <= 7 then 0
    else if delta <= 14 then 1
    else if delta <= 21 then 2
    else 3
  }

  /** The subscriptions counted in bucket b: due within the window, in that bucket. */
  function InBucket(from: Date, window: int, b: int): Subscription -> bool {
    (s: Subscription) =>
      var delta := DaysUntil(s.nextBillingDate, from);
      0 <= delta <= window && BucketOf(delta) == b
  }

  /** The count of bucket b: the active subscriptions the loop adds to it. */
  function BucketCount(subs: seq<Subscription>, from: Date, window: int, b: int): nat {
    |Filter(ActiveOnly(subs), InBucket(from, window, b))|
  }

  /** What buildRenewalBuckets returns. */
  function RenewalBucketsOf(subs: seq<Subscription>, from: Date, daysAhead: Option<int>): seq<RenewalBucketPoint> {
    seq(4, b requires 0 <= b < 4 => RenewalBucketPoint(BucketLabels[b], BucketCount(subs, from, WindowDays(daysAhead), b)))
  }

  /** buildRenewalBuckets: the forEach over the active subscriptions, adding
      one to a bucket of the four-element array per subscription in the window. */
  method BuildRenewalBuckets(subs: seq<Subscription>, from: Date, daysAhead: Option<int>)
    returns (buckets: array<RenewalBucketPoint>)
    ensures fresh(buckets)
    ensures buckets[..] == RenewalBucketsOf(subs, from, daysAhead)
  {
    hide DaysUntil, ActiveOnly, Filter;
    var window := WindowDays(daysAhead);
    buckets := new RenewalBucketPoint[4](b requires 0 <= b < 4 => RenewalBucketPoint(BucketLabels[b], 0));
    var active := ActiveOnly(subs);
    for i := 0 to |active|
      invariant forall b :: 0 <= b < 4 ==>
        buckets[b] == RenewalBucketPoint(BucketLabels[b], |Filter(active[..i], InBucket(from, window, b))|)
    {
      BucketCountStep(active, i, from, window);
      var delta := DaysUntil(active[i].nextBillingDate, from);
      if delta < 0 || delta > window {
        continue;
      }
      var b: int;
      if delta <= 7 {
        b := 0;
      } else if delta <= 14 {
        b := 1;
      } else if delta <= 21 {
        b := 2;
      } else {
        b := 3;
      }
      assert b == BucketOf(delta);
      buckets[b] := buckets[b].(count := buckets[b].count + 1);
    }
    assert active[..|active|] == active;
  }

  /** One more subscription adds one to its bucket's count and nothing to the others. */
  lemma BucketCountStep(active: seq<Subscription>, i: int, from: Date, window: int)
    requires 0 <= i < |active|
    ensures var delta := DaysUntil(active[i].nextBillingDate, from);
      forall b :: 0 <= b < 4 ==>
        |Filter(active[..i + 1], InBucket(from, window, b))| ==
        |Filter(active[..i], InBucket(from, window, b))| + (if 0 <= delta <= window && b == BucketOf(delta) then 1 else 0)
  {
    hide DaysUntil, Filter;
    forall b | 0 <= b < 4
      ensures Filter(active[..i + 1], InBucket(from, window, b)) ==
        Filter(active[..i], InBucket(from, window, b)) + (if InBucket(from, window, b)(active[i]) then [active[i]] else [])
    {
      FilterPrefixStep(active, i, InBucket(from, window, b));
    }
  }

  /** A subscription in the window is in exactly one bucket, and one outside it in none. */
  lemma InBucketExactlyOne(from: Date, window: int, s: Subscription)
    ensures var delta := DaysUntil(s.nextBillingDate, from);
      (0 <= delta <= window ==> exists b :: 0 <= b < 4 && InBucket(from, window, b)(s)) &&
      (forall b, b' :: InBucket(from, window, b)(s) && InBucket(from, window, b')(s) ==> b == b') &&
      (!(0 <= delta <= window) ==> forall b :: !InBucket(from, window, b)(s))
  {
    var delta := DaysUntil(s.nextBillingDate, from);
    if 0 <= delta <= window {
      assert InBucket(from, window, BucketOf(delta))(s);
    }
  }

  /** A bucket's count is the number of active subscriptions due between its
      bounds; the last bucket runs to the end of the window, whatever its label says. */
  lemma BucketRanges(from: Date, window: int, s: Subscription)
    ensures var delta := DaysUntil(s.nextBillingDate, from);
      (InBucket(from, window, 0)(s) <==> 0 <= delta <= 7 && delta <= window) &&
      (InBucket(from, window, 1)(s) <==> 8 <= delta <= 14 && delta <= window) &&
      (InBucket(from, window, 2)(s) <==> 15 <= delta <= 21 && delta <= window) &&
      (InBucket(from, window, 3)(s) <==> 22 <= delta <= window)
  {
  }

  /** Summing the buckets over a list of subscriptions counts each one in the
      window once. */
  lemma {:induction false} BucketsPartition(a: seq<Subscription>, from: Date, window: int)
    ensures |Filter(a, InBucket(from, window, 0))| + |Filter(a, InBucket(from, window, 1))| +
            |Filter(a, InBucket(from, window, 2))| + |Filter(a, InBucket(from, window, 3))| ==
            |Filter(a, DueWithin(from, window))|
  {
    if a != [] {
      BucketsPartition(a[..|a| - 1], from, window);
    }
  }

  /** The bucket counts add up to the number of renewals getUpcomingRenewals
      finds in the same window. */
  lemma BucketsAddUp(subs: seq<Subscription>, from: Date, daysAhead: Option<int>)
    ensures var r := RenewalBucketsOf(subs, from, daysAhead);
      r[0].count + r[1].count + r[2].count + r[3].count ==
      |GetUpcomingRenewals(subs, from, WindowDays(daysAhead))|
  {
    BucketsPartition(ActiveOnly(subs), from, WindowDays(daysAhead));
  }

  /** The result always has the four fixed labels in order, and no subscription
      is counted when none is active. */
  lemma RenewalBucketsShape(subs: seq<Subscription>, from: Date, daysAhead: Option<int>)
    ensures var r := RenewalBucketsOf(subs, from, daysAhead);
      |r| == 4 &&
      r[0].bucketLabel == "0-7 days" && r[1].bucketLabel == "8-14 days" &&
      r[2].bucketLabel == "15-21 days" && r[3].bucketLabel == "22-30 days" &&
      ((forall i :: 0 <= i < |subs| ==> !subs[i].isActive) ==> forall b :: 0 <= b < 4 ==> r[b].count == 0)
  {
    if forall i :: 0 <= i < |subs| ==> !subs[i].isActive {
      FilterNone(subs, IsActive);
    }
  }

  /** The day deltas of the bucket test, from 2026-02-10. */
  lemma BucketsTestDeltas()
    ensures DaysUntil(Date(2026, 2, 10), Date(2026, 2, 10)) == 0
    ensures DaysUntil(Date(2026, 2, 18), Date(2026, 2, 10)) == 8
    ensures DaysUntil(Date(2026, 2, 25), Date(2026, 2, 10)) == 15
    ensures DaysUntil(Date(2026, 3, 11), Date(2026, 2, 10)) == 29
    ensures DaysUntil(Date(2026, 3, 20), Date(2026, 2, 10)) == 38
  {
    hide DaysBeforeYear;
    ValidDayNumber(Date(2026, 2, 10));
    ValidDayNumber(Date(2026, 2, 18));
    ValidDayNumber(Date(2026, 2, 25));
    ValidDayNumber(Date(2026, 3, 11));
    ValidDayNumber(Date(2026, 3, 20));
  }

  /** The bucket test: renewals 0, 8, 15 and 29 days after 2026-02-10 land in
      one bucket each; the inactive one and the one 38 days out are not counted. */
  lemma BucketsTestExample(b0: Subscription, b1: Subscription, b2: Subscription, b3: Subscription,
                           inactive: Subscription, outside: Subscription)
    requires b0.isActive && b0.nextBillingDate == Date(2026, 2, 10)
    requires b1.isActive && b1.nextBillingDate == Date(2026, 2, 18)
    requires b2.isActive && b2.nextBillingDate == Date(2026, 2, 25)
    requires b3.isActive && b3.nextBillingDate == Date(2026, 3, 11)
    requires !inactive.isActive && inactive.nextBillingDate == Date(2026, 2, 12)
    requires outside.isActive && outside.nextBillingDate == Date(2026, 3, 20)
    ensures var r := RenewalBucketsOf([b0, b1, b2, b3, inactive, outside], Date(2026, 2, 10), Some(30));
      r[0].count == 1 && r[1].count == 1 && r[2].count == 1 && r[3].count == 1
  {
    BucketsTestDeltas();
    hide DaysUntil, Filter;
    var subs := [b0, b1, b2, b3, inactive, outside];
    var from := Date(2026, 2, 10);
    var active := [b0, b1, b2, b3, outside];
    assert subs == [b0, b1, b2, b3] + [inactive, outside];
    assert ActiveOnly(subs) == active by {
      FilterAppend([b0, b1, b2, b3], [inactive, outside], IsActive);
      FilterAll([b0, b1, b2, b3], IsActive);
      assert [inactive, outside] == [inactive] + [outside];
      FilterAppend([inactive], [outside], IsActive);
      FilterSingle(inactive, IsActive);
      FilterSingle(outside, IsActive);
    }
    assert active == [b0] + [b1] + [b2] + [b3] + [outside];
    forall b | 0 <= b < 4 ensures |Filter(active, InBucket(from, 30, b))| == 1 {
      var p := InBucket(from, 30, b);
      FilterAppend([b0] + [b1] + [b2] + [b3], [outside], p);
      FilterAppend([b0] + [b1] + [b2], [b3], p);
      FilterAppend([b0] + [b1], [b2], p);
      FilterAppend([b0], [b1], p);
      FilterSingle(b0, p);
      FilterSingle(b1, p);
      FilterSingle(b2, p);
      FilterSingle(b3, p);
      FilterSingle(outside, p);
    }
  }
}
