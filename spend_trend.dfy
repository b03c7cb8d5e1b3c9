/**
 * buildSpendTrend (frontend/src/lib/analytics.ts): a forecast of charges per
 * calendar month. Each active subscription's charge dates are walked in two
 * phases sharing one guard counter: a catch-up phase that skips charges
 * before the start date (at most 400 steps), then an accumulation phase that
 * adds the amount of every charge before the end of the last month to that
 * month's bucket (at most 1200 steps in all).
 *
 * SpendTrendOf is the reference definition: the charge dates of the two
 * phases as sequences (CatchUp, Skipped, Counted) and the bucket updates as a
 * fold (Bump, AddCharges, ContributeAll). BuildSpendTrend is the loop, proved
 * equal to it; the lemmas state what the reference definition computes.
 */
module SpendTrend {
  import opened Gregorian
  import opened Text
  import opened Types
  import opened IsoText
  import opened Seqs
  import opened Dates
  import opened Recurrence

  datatype SpendTrendPoint = SpendTrendPoint(monthLabel: string, monthKey: string, amountMinor: int)

  /** The guard bound of the catch-up loop. */
  const CatchUpLimit: int := 400
  /** The guard bound shared by both loops. */
  const StepLimit: int := 1200

  /** Math.max(1, options.monthsAhead ?? 6) */
  function MonthCount(monthsAhead: Option<int>): int {
    var n := monthsAhead.GetOr(6);
    if n < 1 then 1 else n
  }

  /** `${fromIsoDate.slice(0, 7)}-01`, the first day of the start month. */
  function StartMonth(from: Date): Date {
    Date(from.year, from.month, 1)
  }

  /** addMonths(startMonthKey, i): the first day of the i-th month of the forecast. */
  function MonthStart(from: Date, i: int): Date {
    AddMonths(StartMonth(from), i)
  }

  /** The point for month i before any charge is added. */
  function BlankPoint(from: Date, i: int, monthLabel: string -> string): SpendTrendPoint {
    var key := MonthKeyOf(MonthStart(from, i));
    SpendTrendPoint(monthLabel(key), key, 0)
  }

  /** Array.from({ length: n }, ...): the n month points with zero amounts. */
  function BlankTrend(from: Date, n: nat, monthLabel: string -> string): (r: seq<SpendTrendPoint>)
    ensures |r| == n
  {
    seq(n, i requires 0 <= i < n => BlankPoint(from, i, monthLabel))
  }

  /** new Map(result.map((point, index) => [point.monthKey, index])): a later
      point with the same key replaces an earlier one. */
  function IndexByMonthKey(points: seq<SpendTrendPoint>): map<string, int> {
    if points == [] then map[]
    else IndexByMonthKey(points[..|points| - 1])[points[|points| - 1].monthKey := |points| - 1]
  }

  /** Every index in the map is a position of a point with that key. */
  predicate IndexesPoints(index: map<string, int>, points: seq<SpendTrendPoint>) {
    forall key :: key in index ==> 0 <= index[key] < |points| && points[index[key]].monthKey == key
  }

  /** The map finds every point at its own position. */
  predicate ExactIndex(index: map<string, int>, points: seq<SpendTrendPoint>) {
    IndexesPoints(index, points) &&
    forall i :: 0 <= i < |points| ==> points[i].monthKey in index && index[points[i].monthKey] == i
  }

  predicate DistinctKeys(points: seq<SpendTrendPoint>) {
    forall i, j :: 0 <= i < j < |points| ==> points[i].monthKey != points[j].monthKey
  }

  /** The map built from the points indexes them; with distinct keys it finds each point exactly. */
  lemma {:induction false} IndexByMonthKeyIndexes(points: seq<SpendTrendPoint>)
    ensures IndexesPoints(IndexByMonthKey(points), points)
    ensures forall i :: 0 <= i < |points| ==> points[i].monthKey in IndexByMonthKey(points)
    ensures DistinctKeys(points) ==> ExactIndex(IndexByMonthKey(points), points)
  {
    if points != [] {
      var init, last := points[..|points| - 1], points[|points| - 1];
      assert points == init + [last];
      assert IndexByMonthKey(points) == IndexByMonthKey(init)[last.monthKey := |init|];
      hide IndexByMonthKey;
      IndexByMonthKeyIndexes(init);
      IndexSnoc(IndexByMonthKey(init), init, last);
    }
  }

  /** Indexing one point more, at the end, keeps the map an index. */
  lemma IndexSnoc(m0: map<string, int>, init: seq<SpendTrendPoint>, last: SpendTrendPoint)
    requires IndexesPoints(m0, init)
    requires forall i :: 0 <= i < |init| ==> init[i].monthKey in m0
    requires DistinctKeys(init) ==> ExactIndex(m0, init)
    ensures var m, points := m0[last.monthKey := |init|], init + [last];
      IndexesPoints(m, points) &&
      (forall i :: 0 <= i < |points| ==> points[i].monthKey in m) &&
      (DistinctKeys(points) ==> ExactIndex(m, points))
  {
    var m, points := m0[last.monthKey := |init|], init + [last];
    assert forall i :: 0 <= i < |init| ==> points[i] == init[i];
    assert IndexesPoints(m, points) by {
      forall key | key in m ensures 0 <= m[key] < |points| && points[m[key]].monthKey == key {
        if key != last.monthKey {
          assert m[key] == m0[key];
        }
      }
    }
    if DistinctKeys(points) {
      assert DistinctKeys(init);
      forall i | 0 <= i < |points| ensures m[points[i].monthKey] == i {
        if i < |init| {
          assert points[i].monthKey != last.monthKey;
        }
      }
    }
  }

  /** `chargeDate < options.fromIsoDate`: JavaScript string order on the ISO texts. */
  predicate TextBefore(a: Date, b: Date) {
    StringLess(IsoDate(a), IsoDate(b))
  }

  /** nextChargeDate for the subscription's own cycle. */
  function NextCharge(s: Subscription, d: Date): Date {
    NextChargeDate(d, s.billingCycle, s.customIntervalDays)
  }

  /** The charge date k steps after d. */
  function Steps(s: Subscription, d: Date, k: nat): Date {
    if k == 0 then d else NextCharge(s, Steps(s, d, k - 1))
  }

  /** The catch-up loop: the charge date and guard it stops at. */
  function CatchUp(s: Subscription, from: Date, d: Date, guard: int): (Date, int)
    decreases CatchUpLimit - guard
  {
    if TextBefore(d, from) && guard < CatchUpLimit then CatchUp(s, from, NextCharge(s, d), guard + 1)
    else (d, guard)
  }

  /** The charge dates the catch-up loop steps past. */
  function Skipped(s: Subscription, from: Date, d: Date, guard: int): seq<Date>
    decreases CatchUpLimit - guard
  {
    if TextBefore(d, from) && guard < CatchUpLimit then [d] + Skipped(s, from, NextCharge(s, d), guard + 1)
    else []
  }

  /** The charge dates the accumulation loop adds, starting from d with the shared guard. */
  function Counted(s: Subscription, endExclusive: Date, d: Date, guard: int): seq<Date>
    decreases StepLimit - guard
  {
    if TextBefore(d, endExclusive) && guard < StepLimit then [d] + Counted(s, endExclusive, NextCharge(s, d), guard + 1)
    else []
  }

  /** The charge dates of one subscription that the forecast adds. */
  function Charges(s: Subscription, from: Date, endExclusive: Date): seq<Date> {
    var c := CatchUp(s, from, s.nextBillingDate, 0);
    Counted(s, endExclusive, c.0, c.1)
  }

  predicate IndexesInto(index: map<string, int>, n: int) {
    forall key :: key in index ==> 0 <= index[key] < n
  }

  /** Two point lists with the same months and labels, amounts aside. */
  predicate SameMonths(a: seq<SpendTrendPoint>, b: seq<SpendTrendPoint>) {
    |a| == |b| &&
    forall i :: 0 <= i < |a| ==> a[i].monthKey == b[i].monthKey && a[i].monthLabel == b[i].monthLabel
  }

  /** `result[index].amountMinor += amount` for the month of the charge date d,
      if that month has a point. */
  function Bump(points: seq<SpendTrendPoint>, index: map<string, int>, d: Date, amount: int): (r: seq<SpendTrendPoint>)
    requires IndexesInto(index, |points|)
    ensures SameMonths(r, points)
  {
    var key := MonthKeyOf(d);
    if key in index then
      points[index[key] := points[index[key]].(amountMinor := points[index[key]].amountMinor + amount)]
    else points
  }

  /** The bumps of the accumulation loop for one subscription's charge dates. */
  function AddCharges(points: seq<SpendTrendPoint>, index: map<string, int>, dates: seq<Date>, amount: int): (r: seq<SpendTrendPoint>)
    requires IndexesInto(index, |points|)
    ensures SameMonths(r, points)
    decreases |dates|
  {
    if dates == [] then points
    else AddCharges(Bump(points, index, dates[0], amount), index, dates[1..], amount)
  }

  /** Adding the charges of d followed by rest is bumping for d first. */
  lemma AddChargesCons(points: seq<SpendTrendPoint>, index: map<string, int>, d: Date, rest: seq<Date>, amount: int)
    requires IndexesInto(index, |points|)
    ensures AddCharges(points, index, [d] + rest, amount) == AddCharges(Bump(points, index, d, amount), index, rest, amount)
  {
    assert ([d] + rest)[1..] == rest;
  }

  /** The forEach over the active subscriptions, one subscription after another. */
  function ContributeAll(points: seq<SpendTrendPoint>, index: map<string, int>, subs: seq<Subscription>,
                         from: Date, endExclusive: Date): (r: seq<SpendTrendPoint>)
    requires IndexesInto(index, |points|)
    ensures SameMonths(r, points)
  {
    if subs == [] then points
    else
      var before := ContributeAll(points, index, subs[..|subs| - 1], from, endExclusive);
      var s := subs[|subs| - 1];
      AddCharges(before, index, Charges(s, from, endExclusive), s.amountMinor)
  }

  /** The reference value of buildSpendTrend(subscriptions, { fromIsoDate, monthsAhead }). */
  function SpendTrendOf(subs: seq<Subscription>, from: Date, monthsAhead: Option<int>,
                        monthLabel: string -> string): seq<SpendTrendPoint>
  {
    var n := MonthCount(monthsAhead);
    ContributeAll(BlankTrend(from, n, monthLabel), TrendIndex(from, n, monthLabel), ActiveOnly(subs), from, MonthStart(from, n))
  }

  /** indexByMonthKey of the forecast's n month points. */
  function TrendIndex(from: Date, n: nat, monthLabel: string -> string): (index: map<string, int>)
    ensures IndexesInto(index, n)
  {
    var blank := BlankTrend(from, n, monthLabel);
    IndexByMonthKeyIndexes(blank);
    IndexByMonthKey(blank)
  }

  /** The catch-up loop of one subscription: step past the charges dated
      before fromIsoDate, at most CatchUpLimit times. */
  method CatchUpLoop(s: Subscription, from: Date) returns (chargeDate: Date, guard: int)
    ensures (chargeDate, guard) == CatchUp(s, from, s.nextBillingDate, 0)
  {
    chargeDate := s.nextBillingDate;
    guard := 0;
    while TextBefore(chargeDate, from) && guard < CatchUpLimit
      invariant 0 <= guard <= CatchUpLimit
      invariant CatchUp(s, from, chargeDate, guard) == CatchUp(s, from, s.nextBillingDate, 0)
      decreases CatchUpLimit - guard
    {
      chargeDate := NextCharge(s, chargeDate);
      guard := guard + 1;
    }
  }

  /** The body of the accumulation loop: look the charge's month up in the
      index and add the amount to that point. */
  method BumpInPlace(result: array<SpendTrendPoint>, index: map<string, int>, d: Date, amount: int)
    requires IndexesInto(index, result.Length)
    modifies result
    ensures result[..] == Bump(old(result[..]), index, d, amount)
  {
    var key := MonthKeyOf(d);
    if key in index {
      var j := index[key];
      result[j] := result[j].(amountMinor := result[j].amountMinor + amount);
    }
  }

  /** The accumulation loop of one subscription: add its amount to the bucket
      of every charge date before endExclusive, continuing the shared guard. */
  method AccumulateLoop(result: array<SpendTrendPoint>, index: map<string, int>, s: Subscription,
                        endExclusive: Date, start: Date, startGuard: int)
    requires IndexesInto(index, result.Length)
    modifies result
    ensures result[..] == AddCharges(old(result[..]), index, Counted(s, endExclusive, start, startGuard), s.amountMinor)
  {
    // The loop only threads the charge dates through; the calendar arithmetic
    // of a step is not needed here.
    hide NextChargeDate, MonthKeyOf, TextBefore;
    var chargeDate, guard := start, startGuard;
    while TextBefore(chargeDate, endExclusive) && guard < StepLimit
      invariant AddCharges(result[..], index, Counted(s, endExclusive, chargeDate, guard), s.amountMinor) ==
                AddCharges(old(result[..]), index, Counted(s, endExclusive, start, startGuard), s.amountMinor)
      decreases StepLimit - guard
    {
      ghost var target := AddCharges(old(result[..]), index, Counted(s, endExclusive, start, startGuard), s.amountMinor);
      ghost var rest := Counted(s, endExclusive, NextCharge(s, chargeDate), guard + 1);
      assert AddCharges(Bump(result[..], index, chargeDate, s.amountMinor), index, rest, s.amountMinor) == target by {
        assert Counted(s, endExclusive, chargeDate, guard) == [chargeDate] + rest;
        AddChargesCons(result[..], index, chargeDate, rest, s.amountMinor);
      }
      BumpInPlace(result, index, chargeDate, s.amountMinor);
      chargeDate := NextCharge(s, chargeDate);
      guard := guard + 1;
      assert Counted(s, endExclusive, chargeDate, guard) == rest;
    }
  }

  /** buildSpendTrend, with the Intl month label passed in as monthLabel. */
  method BuildSpendTrend(subs: seq<Subscription>, from: Date, monthsAhead: Option<int>,
                         monthLabel: string -> string) returns (trend: seq<SpendTrendPoint>)
    ensures trend == SpendTrendOf(subs, from, monthsAhead, monthLabel)
  {
    hide NextChargeDate, MonthKeyOf, TextBefore, AddMonths;
    var n := MonthCount(monthsAhead);
    var endExclusive := MonthStart(from, n);
    var blank := BlankTrend(from, n, monthLabel);
    var result := new SpendTrendPoint[n](i requires 0 <= i < n => blank[i]);
    var index := TrendIndex(from, n, monthLabel);
    var active := ActiveOnly(subs);
    assert result[..] == blank;

    for i := 0 to |active|
      invariant result[..] == ContributeAll(blank, index, active[..i], from, endExclusive)
    {
      var s := active[i];
      var chargeDate, guard := CatchUpLoop(s, from);
      ContributeAllPrefixStep(blank, index, active, i, from, endExclusive);
      hide ContributeAll, Counted, CatchUp;
      AccumulateLoop(result, index, s, endExclusive, chargeDate, guard);
    }
    assert active[..|active|] == active;
    trend := result[..];
  }

  /** The accumulation for one subscription more, the next in the list. */
  lemma ContributeAllPrefixStep(points: seq<SpendTrendPoint>, index: map<string, int>, subs: seq<Subscription>,
                                i: int, from: Date, endExclusive: Date)
    requires IndexesInto(index, |points|) && 0 <= i < |subs|
    ensures var c := CatchUp(subs[i], from, subs[i].nextBillingDate, 0);
      ContributeAll(points, index, subs[..i + 1], from, endExclusive) ==
      AddCharges(ContributeAll(points, index, subs[..i], from, endExclusive), index,
                 Counted(subs[i], endExclusive, c.0, c.1), subs[i].amountMinor)
  {
    hide NextChargeDate, MonthKeyOf, TextBefore, AddMonths, AddCharges, Counted, CatchUp;
    assert subs[..i + 1][..i] == subs[..i];
  }

  /** The forecast has one point per month, in order, each with its key and
      label and, when no subscription is active, a zero amount. */
  lemma SpendTrendShape(subs: seq<Subscription>, from: Date, monthsAhead: Option<int>, monthLabel: string -> string)
    ensures var r := SpendTrendOf(subs, from, monthsAhead, monthLabel);
      |r| == MonthCount(monthsAhead) >= 1 &&
      (forall i :: 0 <= i < |r| ==>
        r[i].monthKey == MonthKeyOf(MonthStart(from, i)) && r[i].monthLabel == monthLabel(r[i].monthKey)) &&
      (ActiveOnly(subs) == [] ==> forall i :: 0 <= i < |r| ==> r[i].amountMinor == 0)
  {
    hide AddMonths, MonthKeyOf, NextChargeDate, TextBefore;
  }

  /** The i-th month of the forecast starts on the first of the month i months
      after from's month. */
  lemma MonthStartFields(from: Date, i: int)
    requires 1 <= from.month <= 12
    ensures MonthStart(from, i) == Date(from.year + (from.month - 1 + i) / 12, (from.month - 1 + i) % 12 + 1, 1)
    ensures IsValidDate(MonthStart(from, i))
    ensures MonthStart(from, 0) == StartMonth(from)
  {
    hide AddMonths;
    AddMonthsFromFirst(from.year, from.month, i);
    AddMonthsFromFirst(from.year, from.month, 0);
  }

  /** The month keys of the first n months of the forecast are pairwise different. */
  predicate DistinctMonthKeys(from: Date, n: int) {
    forall i, j :: 0 <= i < j < n ==> MonthKeyOf(MonthStart(from, i)) != MonthKeyOf(MonthStart(from, j))
  }

  /** While the years stay four digits long, every forecast month has its own key. */
  lemma MonthKeysDistinct(from: Date, n: int)
    requires 1 <= from.month <= 12 && HasFourDigitYear(from)
    requires n >= 1 && HasFourDigitYear(MonthStart(from, n - 1))
    ensures DistinctMonthKeys(from, n)
  {
    MonthStartFields(from, n - 1);
    forall i, j | 0 <= i < j < n
      ensures MonthKeyOf(MonthStart(from, i)) != MonthKeyOf(MonthStart(from, j))
    {
      MonthStartFields(from, i);
      MonthStartFields(from, j);
      var a, b, last := MonthStart(from, i), MonthStart(from, j), MonthStart(from, n - 1);
      assert a.year * 12 + a.month == from.year * 12 + from.month + i;
      assert b.year * 12 + b.month == from.year * 12 + from.month + j;
      assert last.year * 12 + last.month == from.year * 12 + from.month + n - 1;
      assert from.year <= a.year <= b.year <= last.year;
      MonthKeyInjective(a, b);
    }
  }

  /** How many of the dates fall in the month with the given key. */
  function Tally(dates: seq<Date>, key: string): (r: nat)
    ensures r <= |dates|
  {
    if dates == [] then 0
    else (if MonthKeyOf(dates[0]) == key then 1 else 0) + Tally(dates[1..], key)
  }

  /** What the given subscriptions' charges add up to in the month with the given key. */
  function MonthTotal(subs: seq<Subscription>, from: Date, endExclusive: Date, key: string): int {
    if subs == [] then 0
    else
      var s := subs[|subs| - 1];
      MonthTotal(subs[..|subs| - 1], from, endExclusive, key) + s.amountMinor * Tally(Charges(s, from, endExclusive), key)
  }

  /** An exact index stays exact for any point list with the same months. */
  lemma ExactIndexKeepsMonths(index: map<string, int>, a: seq<SpendTrendPoint>, b: seq<SpendTrendPoint>)
    requires SameMonths(a, b) && ExactIndex(index, b)
    ensures ExactIndex(index, a) && IndexesInto(index, |a|)
  {
  }

  /** One bump adds the amount to the point of the charge's month and to no other. */
  lemma BumpAmount(points: seq<SpendTrendPoint>, index: map<string, int>, d: Date, amount: int, i: int)
    requires ExactIndex(index, points) && 0 <= i < |points|
    ensures Bump(points, index, d, amount)[i].amountMinor ==
      points[i].amountMinor + (if MonthKeyOf(d) == points[i].monthKey then amount else 0)
  {
    hide MonthKeyOf;
  }

  /** The accumulation loop adds the amount once per charge date in each point's month. */
  lemma {:induction false} AddChargesAmount(points: seq<SpendTrendPoint>, index: map<string, int>,
                                            dates: seq<Date>, amount: int, i: int)
    requires ExactIndex(index, points) && 0 <= i < |points|
    ensures AddCharges(points, index, dates, amount)[i].amountMinor ==
      points[i].amountMinor + amount * Tally(dates, points[i].monthKey)
    decreases |dates|
  {
    hide MonthKeyOf;
    if dates != [] {
      var key := points[i].monthKey;
      var bumped := Bump(points, index, dates[0], amount);
      BumpAmount(points, index, dates[0], amount, i);
      ExactIndexKeepsMonths(index, bumped, points);
      AddChargesAmount(bumped, index, dates[1..], amount, i);
      var hit := if MonthKeyOf(dates[0]) == key then 1 else 0;
      assert Tally(dates, key) == hit + Tally(dates[1..], key);
      hide Tally, Bump;
      assert amount * Tally(dates, key) == amount * hit + amount * Tally(dates[1..], key);
    }
  }

  /** After all subscriptions, each point holds the month total of their charges. */
  lemma {:induction false} ContributeAllAmount(points: seq<SpendTrendPoint>, index: map<string, int>,
                                               subs: seq<Subscription>, from: Date, endExclusive: Date, i: int)
    requires ExactIndex(index, points) && 0 <= i < |points|
    ensures ContributeAll(points, index, subs, from, endExclusive)[i].amountMinor ==
      points[i].amountMinor + MonthTotal(subs, from, endExclusive, points[i].monthKey)
  {
    hide MonthKeyOf, NextChargeDate, TextBefore;
    if subs != [] {
      var init := subs[..|subs| - 1];
      var s := subs[|subs| - 1];
      var before := ContributeAll(points, index, init, from, endExclusive);
      ContributeAllAmount(points, index, init, from, endExclusive, i);
      ExactIndexKeepsMonths(index, before, points);
      AddChargesAmount(before, index, Charges(s, from, endExclusive), s.amountMinor, i);
    }
  }

  /** With distinct month keys, each month's amount is the total of the active
      subscriptions' charges dated in that month. */
  lemma SpendTrendAmounts(subs: seq<Subscription>, from: Date, monthsAhead: Option<int>, monthLabel: string -> string)
    requires DistinctMonthKeys(from, MonthCount(monthsAhead))
    ensures var r := SpendTrendOf(subs, from, monthsAhead, monthLabel);
      forall i :: 0 <= i < |r| ==>
        r[i].amountMinor == MonthTotal(ActiveOnly(subs), from, MonthStart(from, MonthCount(monthsAhead)), r[i].monthKey)
  {
    hide AddMonths, MonthKeyOf, NextChargeDate, TextBefore;
    var n := MonthCount(monthsAhead);
    var blank := BlankTrend(from, n, monthLabel);
    assert DistinctKeys(blank);
    IndexByMonthKeyIndexes(blank);
    assert TrendIndex(from, n, monthLabel) == IndexByMonthKey(blank);
    forall i | 0 <= i < n
      ensures SpendTrendOf(subs, from, monthsAhead, monthLabel)[i].amountMinor ==
        MonthTotal(ActiveOnly(subs), from, MonthStart(from, n), blank[i].monthKey)
    {
      ContributeAllAmount(blank, TrendIndex(from, n, monthLabel), ActiveOnly(subs), from, MonthStart(from, n), i);
    }
  }

  /** The subscriptions are folded in one after another: an inactive one changes
      nothing and an active one adds its charges to the forecast so far. */
  lemma SpendTrendAppend(subs: seq<Subscription>, s: Subscription, from: Date, monthsAhead: Option<int>,
                         monthLabel: string -> string)
    ensures var n := MonthCount(monthsAhead);
      SpendTrendOf(subs + [s], from, monthsAhead, monthLabel) ==
        if s.isActive then
          AddCharges(SpendTrendOf(subs, from, monthsAhead, monthLabel), TrendIndex(from, n, monthLabel),
                     Charges(s, from, MonthStart(from, n)), s.amountMinor)
        else SpendTrendOf(subs, from, monthsAhead, monthLabel)
  {
    hide AddMonths, MonthKeyOf, NextChargeDate, TextBefore;
    FilterAppend(subs, [s], IsActive);
    FilterSingle(s, IsActive);
    var active := ActiveOnly(subs + [s]);
    if s.isActive {
      assert active[..|active| - 1] == ActiveOnly(subs);
    } else {
      assert active == ActiveOnly(subs);
    }
  }

  /** Stepping k times from the next charge is stepping k + 1 times. */
  lemma {:induction false} StepsShift(s: Subscription, d: Date, k: nat)
    ensures Steps(s, NextCharge(s, d), k) == Steps(s, d, k + 1)
    decreases k
  {
    hide NextChargeDate;
    if k > 0 {
      StepsShift(s, d, k - 1);
    }
  }

  /** The catch-up loop walks the charge chain: it stops at the first charge
      not before `from`, or after CatchUpLimit steps in all, and the guard
      counts the charges it skipped, all of them before `from`. */
  lemma {:induction false} CatchUpWalk(s: Subscription, from: Date, d: Date, guard: int)
    requires 0 <= guard <= CatchUpLimit
    ensures var c := CatchUp(s, from, d, guard);
      var skipped := Skipped(s, from, d, guard);
      guard <= c.1 <= CatchUpLimit &&
      c.1 == guard + |skipped| &&
      c.0 == Steps(s, d, |skipped|) &&
      (c.1 < CatchUpLimit ==> !TextBefore(c.0, from)) &&
      forall j :: 0 <= j < |skipped| ==> skipped[j] == Steps(s, d, j) && TextBefore(skipped[j], from)
    decreases CatchUpLimit - guard
  {
    hide NextChargeDate, TextBefore;
    if TextBefore(d, from) && guard < CatchUpLimit {
      var next := NextCharge(s, d);
      CatchUpWalk(s, from, next, guard + 1);
      var rest := Skipped(s, from, next, guard + 1);
      StepsShift(s, d, |rest|);
      forall j | 0 <= j < |rest| ensures rest[j] == Steps(s, d, j + 1) {
        StepsShift(s, d, j);
      }
    }
  }

  /** The accumulation loop walks on along the chain: it takes the charges
      before endExclusive, stopping early only when the shared guard reaches
      StepLimit. */
  lemma {:induction false} CountedWalk(s: Subscription, endExclusive: Date, d: Date, guard: int)
    ensures var counted := Counted(s, endExclusive, d, guard);
      |counted| <= (if guard < StepLimit then StepLimit - guard else 0) &&
      (forall j :: 0 <= j < |counted| ==> counted[j] == Steps(s, d, j) && TextBefore(counted[j], endExclusive)) &&
      (guard + |counted| < StepLimit ==> !TextBefore(Steps(s, d, |counted|), endExclusive))
    decreases StepLimit - guard
  {
    hide NextChargeDate, TextBefore;
    if TextBefore(d, endExclusive) && guard < StepLimit {
      var next := NextCharge(s, d);
      var rest := Counted(s, endExclusive, next, guard + 1);
      assert Counted(s, endExclusive, d, guard) == [d] + rest;
      assert Steps(s, d, 0) == d;
      hide Counted, Steps;
      CountedWalk(s, endExclusive, next, guard + 1);
      StepsShift(s, d, |rest|);
      forall j | 0 <= j < |rest| ensures rest[j] == Steps(s, d, j + 1) {
        StepsShift(s, d, j);
      }
    }
  }

  /** Stepping a steps and then b steps is stepping a + b steps. */
  lemma {:induction false} StepsAdd(s: Subscription, d: Date, a: nat, b: nat)
    ensures Steps(s, Steps(s, d, a), b) == Steps(s, d, a + b)
    decreases b
  {
    hide NextChargeDate;
    if b > 0 {
      StepsAdd(s, d, a, b - 1);
    }
  }

  /** Charges(s, from, endExclusive) read off the charge chain from the next
      billing date: the catch-up skips the first guard dates, all before
      `from`, and stops early only at CatchUpLimit; the charges added are the
      following dates, each before endExclusive, at most StepLimit - guard of them,
      and unless the shared guard runs out the date after the last one added is
      not before endExclusive. */
  lemma ChargesWalk(s: Subscription, from: Date, endExclusive: Date)
    ensures var c := CatchUp(s, from, s.nextBillingDate, 0);
      var charges := Charges(s, from, endExclusive);
      0 <= c.1 <= CatchUpLimit &&
      c.0 == Steps(s, s.nextBillingDate, c.1) &&
      (forall j :: 0 <= j < c.1 ==> TextBefore(Steps(s, s.nextBillingDate, j), from)) &&
      (c.1 < CatchUpLimit ==> !TextBefore(c.0, from)) &&
      |charges| <= StepLimit - c.1 &&
      (forall j :: 0 <= j < |charges| ==>
        charges[j] == Steps(s, s.nextBillingDate, c.1 + j) && TextBefore(charges[j], endExclusive)) &&
      (c.1 + |charges| < StepLimit ==> !TextBefore(Steps(s, s.nextBillingDate, c.1 + |charges|), endExclusive))
  {
    hide NextChargeDate, TextBefore, Counted, Skipped, CatchUp;
    var d := s.nextBillingDate;
    var c := CatchUp(s, from, d, 0);
    CatchUpWalk(s, from, d, 0);
    CountedWalk(s, endExclusive, c.0, c.1);
    var skipped := Skipped(s, from, d, 0);
    assert forall j :: 0 <= j < c.1 ==> skipped[j] == Steps(s, d, j);
    var charges := Charges(s, from, endExclusive);
    forall j | 0 <= j < |charges| ensures charges[j] == Steps(s, d, c.1 + j) {
      StepsAdd(s, d, c.1, j);
    }
    StepsAdd(s, d, c.1, |charges|);
  }

  /** With a forward-moving cycle the chain of charge dates only moves forward. */
  lemma {:induction false} StepsMonotone(s: Subscription, d: Date, a: nat, b: nat)
    requires IsValidDate(d)
    requires s.billingCycle != CustomDays || s.customIntervalDays.GetOr(30) > 0
    requires a <= b
    ensures IsValidDate(Steps(s, d, b))
    ensures DayNumber(Steps(s, d, a)) <= DayNumber(Steps(s, d, b))
    decreases b
  {
    hide NextChargeDate, DayNumber, AddMonths, IsValidDate;
    if b > 0 {
      StepsMonotone(s, d, if a < b then a else b - 1, b - 1);
      NextChargeDateSteps(Steps(s, d, b - 1), s.billingCycle, s.customIntervalDays);
    }
  }

  /** When the catch-up finishes within its guard and the dates keep four-digit
      years, every charge the forecast adds falls on or after `from`. */
  lemma ChargesNotBeforeFrom(s: Subscription, from: Date, endExclusive: Date)
    requires IsValidDate(s.nextBillingDate)
    requires s.billingCycle != CustomDays || s.customIntervalDays.GetOr(30) > 0
    requires IsValidDate(from) && HasFourDigitYear(from)
    requires CatchUp(s, from, s.nextBillingDate, 0).1 < CatchUpLimit
    requires HasFourDigitYear(CatchUp(s, from, s.nextBillingDate, 0).0)
    ensures forall x :: x in Charges(s, from, endExclusive) ==> DayNumber(from) <= DayNumber(x)
  {
    hide NextChargeDate, DayNumber, Counted, Skipped, CatchUp, IsoDate, StringLess;
    var d := s.nextBillingDate;
    var c := CatchUp(s, from, d, 0);
    ChargesWalk(s, from, endExclusive);
    StepsMonotone(s, d, c.1, c.1);
    IsoDateOrder(c.0, from);
    var charges := Charges(s, from, endExclusive);
    forall x | x in charges ensures DayNumber(from) <= DayNumber(x) {
      var j :| 0 <= j < |charges| && charges[j] == x;
      StepsMonotone(s, d, c.1, c.1 + j);
    }
  }

  /** x is one of the subscription's charge dates: some number of steps
      from its next billing date. */
  ghost predicate OnChargeChain(s: Subscription, x: Date) {
    exists k: nat :: x == Steps(s, s.nextBillingDate, k)
  }

  /** The forecast counts a subscription's charge dates exactly: a date is
      added when and only when it lies on the charge chain from the next
      billing date, on or after `from` and before endExclusive. This holds
      while neither guard runs out and the chain keeps four-digit years across
      the window, so that the string comparisons of the loops order dates. */
  lemma ChargesAreWindowDates(s: Subscription, from: Date, endExclusive: Date)
    requires IsValidDate(s.nextBillingDate)
    requires s.billingCycle != CustomDays || s.customIntervalDays.GetOr(30) > 0
    requires IsValidDate(from) && HasFourDigitYear(from)
    requires IsValidDate(endExclusive) && HasFourDigitYear(endExclusive)
    requires CatchUp(s, from, s.nextBillingDate, 0).1 < CatchUpLimit
    requires HasFourDigitYear(CatchUp(s, from, s.nextBillingDate, 0).0)
    requires CatchUp(s, from, s.nextBillingDate, 0).1 + |Charges(s, from, endExclusive)| < StepLimit
    requires HasFourDigitYear(Steps(s, CatchUp(s, from, s.nextBillingDate, 0).0, |Charges(s, from, endExclusive)|))
    ensures forall x :: x in Charges(s, from, endExclusive) <==>
      OnChargeChain(s, x) && DayNumber(from) <= DayNumber(x) < DayNumber(endExclusive)
  {
    hide NextChargeDate, DayNumber, Counted, Skipped, CatchUp, IsoDate, StringLess;
    var d := s.nextBillingDate;
    var c := CatchUp(s, from, d, 0);
    var charges := Charges(s, from, endExclusive);
    var m := c.1 + |charges|;
    ChargesWalk(s, from, endExclusive);
    StepsAdd(s, d, c.1, |charges|);
    StepsMonotone(s, d, c.1, c.1);
    StepsMonotone(s, d, c.1, m);
    IsoDateOrder(c.0, from);
    IsoDateOrder(Steps(s, d, m), endExclusive);
    forall x
      ensures x in charges <==> OnChargeChain(s, x) && DayNumber(from) <= DayNumber(x) < DayNumber(endExclusive)
    {
      if x in charges {
        var j :| 0 <= j < |charges| && charges[j] == x;
        StepsMonotone(s, d, c.1, c.1 + j);
        StepsMonotone(s, d, c.1 + j, m);
        FourDigitBetween(c.0, x, Steps(s, d, m));
        IsoDateOrder(x, endExclusive);
        assert Steps(s, d, c.1 + j) == x;
      }
      if OnChargeChain(s, x) && DayNumber(from) <= DayNumber(x) < DayNumber(endExclusive) {
        var k: nat :| x == Steps(s, d, k);
        if k < c.1 {
          StepsMonotone(s, d, k, k);
          FourDigitBetween(from, x, endExclusive);
          IsoDateOrder(x, from);
          assert false;
        }
        if k >= m {
          StepsMonotone(s, d, m, k);
          assert false;
        }
        assert charges[k - c.1] == x;
      }
    }
  }

  /** With a forward-moving cycle the forecast's charge dates strictly
      increase, so no charge date is added twice. */
  lemma ChargesIncrease(s: Subscription, from: Date, endExclusive: Date)
    requires IsValidDate(s.nextBillingDate)
    requires s.billingCycle != CustomDays || s.customIntervalDays.GetOr(30) > 0
    ensures var charges := Charges(s, from, endExclusive);
      forall i, j :: 0 <= i < j < |charges| ==> DayNumber(charges[i]) < DayNumber(charges[j])
  {
    hide NextChargeDate, DayNumber, Counted, Skipped, CatchUp, TextBefore;
    var d := s.nextBillingDate;
    var c := CatchUp(s, from, d, 0);
    var charges := Charges(s, from, endExclusive);
    ChargesWalk(s, from, endExclusive);
    forall i, j | 0 <= i < j < |charges| ensures DayNumber(charges[i]) < DayNumber(charges[j]) {
      StepsIncrease(s, d, c.1 + i, c.1 + j);
    }
  }

  /** A later step of a forward-moving cycle lands on a later day. */
  lemma StepsIncrease(s: Subscription, d: Date, a: nat, b: nat)
    requires IsValidDate(d)
    requires s.billingCycle != CustomDays || s.customIntervalDays.GetOr(30) > 0
    requires a < b
    ensures DayNumber(Steps(s, d, a)) < DayNumber(Steps(s, d, b))
  {
    hide NextChargeDate, DayNumber, AddMonths, IsValidDate;
    StepsMonotone(s, d, a, b - 1);
    NextChargeDateSteps(Steps(s, d, b - 1), s.billingCycle, s.customIntervalDays);
    assert Steps(s, d, b) == NextCharge(s, Steps(s, d, b - 1));
  }

  /** A custom cycle steps its interval in days each time. */
  lemma {:induction false} StepsCustom(s: Subscription, d: Date, j: nat)
    requires s.billingCycle == CustomDays && IsValidDate(d)
    ensures IsValidDate(Steps(s, d, j))
    ensures DayNumber(Steps(s, d, j)) == DayNumber(d) + j * s.customIntervalDays.GetOr(30)
    decreases j
  {
    hide NextChargeDate, DayNumber;
    if j > 0 {
      StepsCustom(s, d, j - 1);
      NextChargeDateSteps(Steps(s, d, j - 1), s.billingCycle, s.customIntervalDays);
      var k := s.customIntervalDays.GetOr(30);
      assert (j - 1) * k + k == j * k;
    }
  }

  /** A valid date between two four-digit-year dates has a four-digit year too. */
  lemma FourDigitBetween(a: Date, x: Date, b: Date)
    requires IsValidDate(a) && IsValidDate(x) && IsValidDate(b)
    requires HasFourDigitYear(a) && HasFourDigitYear(b)
    requires DayNumber(a) <= DayNumber(x) <= DayNumber(b)
    ensures HasFourDigitYear(x)
  {
    hide DayNumber;
    FieldsBeforeIsChronological(a, x);
    FieldsBeforeIsChronological(x, b);
  }

  /** The catch-up guard can stop short of `from`: a custom-cycle subscription
      whose next billing date lies more than CatchUpLimit intervals before
      `from` leaves the catch-up after CatchUpLimit steps, and its first charge
      added to the forecast is still dated before `from`. */
  lemma CatchUpStopsShort(s: Subscription, from: Date, endExclusive: Date)
    requires s.billingCycle == CustomDays && s.customIntervalDays.GetOr(30) >= 1
    requires IsValidDate(s.nextBillingDate) && HasFourDigitYear(s.nextBillingDate)
    requires IsValidDate(from) && HasFourDigitYear(from)
    requires IsValidDate(endExclusive) && HasFourDigitYear(endExclusive)
    requires DayNumber(from) <= DayNumber(endExclusive)
    requires DayNumber(s.nextBillingDate) + CatchUpLimit * s.customIntervalDays.GetOr(30) < DayNumber(from)
    ensures CatchUp(s, from, s.nextBillingDate, 0).1 == CatchUpLimit
    ensures var charges := Charges(s, from, endExclusive);
      charges != [] &&
      DayNumber(charges[0]) == DayNumber(s.nextBillingDate) + CatchUpLimit * s.customIntervalDays.GetOr(30) &&
      DayNumber(charges[0]) < DayNumber(from)
  {
    hide NextChargeDate, DayNumber, Counted, Skipped, CatchUp, IsoDate, StringLess;
    var d := s.nextBillingDate;
    var k := s.customIntervalDays.GetOr(30);
    forall j: nat | j <= CatchUpLimit
      ensures IsValidDate(Steps(s, d, j)) && HasFourDigitYear(Steps(s, d, j))
      ensures DayNumber(Steps(s, d, j)) == DayNumber(d) + j * k < DayNumber(from)
      ensures TextBefore(Steps(s, d, j), from) && TextBefore(Steps(s, d, j), endExclusive)
    {
      StepsCustom(s, d, j);
      assert j * k <= CatchUpLimit * k;
      FourDigitBetween(d, Steps(s, d, j), from);
      IsoDateOrder(Steps(s, d, j), from);
      IsoDateOrder(Steps(s, d, j), endExclusive);
    }
    ChargesWalk(s, from, endExclusive);
    var c := CatchUp(s, from, d, 0);
    CountedWalk(s, endExclusive, c.0, c.1);
  }

  /** A monthly cycle moves one calendar month per step, whatever day the
      clamping lands on. */
  lemma {:induction false} MonthlySteps(s: Subscription, d: Date, k: nat)
    requires s.billingCycle == Monthly && IsValidDate(d)
    ensures IsValidDate(Steps(s, d, k))
    ensures Steps(s, d, k).year * 12 + Steps(s, d, k).month == d.year * 12 + d.month + k
    decreases k
  {
    hide AddMonths, DayNumber;
    if k > 0 {
      MonthlySteps(s, d, k - 1);
      var p := Steps(s, d, k - 1);
      assert Steps(s, d, k) == AddMonths(p, 1);
      AddMonthsFields(p, 1);
      AddMonthsValidAndLater(p, 1);
    }
  }

  /** The j-th monthly charge from a date in the start month falls in the j-th
      forecast month, and it is before the end of a twelve-month forecast
      exactly when j < 12. */
  lemma MonthlyStepFacts(s: Subscription, from: Date, j: nat)
    requires s.billingCycle == Monthly
    requires IsValidDate(from) && 1000 <= from.year <= 9998
    requires IsValidDate(s.nextBillingDate)
    requires s.nextBillingDate.year == from.year && s.nextBillingDate.month == from.month
    requires j <= 12
    ensures var x := Steps(s, s.nextBillingDate, j);
      IsValidDate(x) && HasFourDigitYear(x) &&
      x.year * 12 + x.month == from.year * 12 + from.month + j &&
      (TextBefore(x, MonthStart(from, 12)) <==> j < 12)
  {
    hide NextChargeDate, DayNumber, AddMonths, IsoDate, StringLess, Steps;
    var x := Steps(s, s.nextBillingDate, j);
    var e := MonthStart(from, 12);
    MonthlySteps(s, s.nextBillingDate, j);
    MonthStartFields(from, 12);
    assert e == Date(from.year + 1, from.month, 1);
    assert from.year <= x.year <= from.year + 1;
    FieldsBeforeIsChronological(x, e);
    IsoDateOrder(x, e);
  }

  /** The month of the j-th monthly charge has the key of forecast month i
      exactly when j == i. */
  lemma MonthlyStepKey(s: Subscription, from: Date, i: nat, j: nat)
    requires s.billingCycle == Monthly
    requires IsValidDate(from) && 1000 <= from.year <= 9998
    requires IsValidDate(s.nextBillingDate)
    requires s.nextBillingDate.year == from.year && s.nextBillingDate.month == from.month
    requires i < 12 && j < 12
    ensures MonthKeyOf(Steps(s, s.nextBillingDate, j)) == MonthKeyOf(MonthStart(from, i)) <==> j == i
  {
    hide NextChargeDate, DayNumber, AddMonths, IsoDate, StringLess, Steps, MonthKeyOf;
    var x, m := Steps(s, s.nextBillingDate, j), MonthStart(from, i);
    MonthlyStepFacts(s, from, j);
    MonthStartFields(from, i);
    assert m.year * 12 + m.month == from.year * 12 + from.month + i;
    MonthKeyInjective(x, m);
  }

  /** A monthly subscription renewing in the start month, not before `from`,
      is charged twelve times in a twelve-month forecast: once per step of
      the chain, with no catch-up. */
  lemma MonthlyYearCharges(s: Subscription, from: Date)
    requires s.billingCycle == Monthly
    requires IsValidDate(from) && 1000 <= from.year <= 9998
    requires IsValidDate(s.nextBillingDate)
    requires s.nextBillingDate.year == from.year && s.nextBillingDate.month == from.month
    requires from.day <= s.nextBillingDate.day
    ensures var charges := Charges(s, from, MonthStart(from, 12));
      |charges| == 12 && forall j :: 0 <= j < 12 ==> charges[j] == Steps(s, s.nextBillingDate, j)
  {
    hide NextChargeDate, DayNumber, AddMonths, Counted, Skipped, CatchUp, IsoDate, StringLess;
    var d := s.nextBillingDate;
    var e := MonthStart(from, 12);
    var c := CatchUp(s, from, d, 0);
    var charges := Charges(s, from, e);
    ChargesWalk(s, from, e);
    FieldsBeforeIsChronological(d, from);
    IsoDateOrder(d, from);
    if c.1 > 0 {
      var first := Steps(s, d, 0);
      assert false;
    }
    forall j: nat | j <= 12 ensures TextBefore(Steps(s, d, j), e) <==> j < 12 {
      MonthlyStepFacts(s, from, j);
    }
    var next, twelfth := Steps(s, d, |charges|), Steps(s, d, 12);
    if |charges| < 12 {
      assert false;
    }
    if |charges| > 12 {
      ChargeAt(charges, 12);
      assert false;
    }
  }

  /** The j-th charge is one of the charges. */
  lemma ChargeAt(charges: seq<Date>, j: int)
    requires 0 <= j < |charges|
    ensures charges[j] in charges
  {
  }

  /** Dates of which none falls in the month with the given key tally 0. */
  lemma {:induction false} TallyNone(dates: seq<Date>, key: string)
    requires forall j :: 0 <= j < |dates| ==> MonthKeyOf(dates[j]) != key
    ensures Tally(dates, key) == 0
    decreases |dates|
  {
    hide MonthKeyOf;
    if dates != [] {
      TallyNone(dates[1..], key);
    }
  }

  /** Dates of which exactly one, the i-th, falls in the month with the given key tally 1. */
  lemma {:induction false} TallyOnce(dates: seq<Date>, key: string, i: int)
    requires 0 <= i < |dates| && MonthKeyOf(dates[i]) == key
    requires forall j :: 0 <= j < |dates| && j != i ==> MonthKeyOf(dates[j]) != key
    ensures Tally(dates, key) == 1
    decreases |dates|
  {
    hide MonthKeyOf;
    if i == 0 {
      TallyNone(dates[1..], key);
    } else {
      TallyOnce(dates[1..], key, i - 1);
    }
  }

  function AmountMinorOf(p: SpendTrendPoint): int {
    p.amountMinor
  }

  /** Points that all carry the amount a add up to a per point. */
  lemma {:induction false} EqualAmountsSum(r: seq<SpendTrendPoint>, a: int)
    requires forall i :: 0 <= i < |r| ==> r[i].amountMinor == a
    ensures IntSumOf(r, AmountMinorOf) == |r| * a
  {
    if r != [] {
      EqualAmountsSum(r[..|r| - 1], a);
      assert (|r| - 1) * a + a == |r| * a;
    }
  }

  /** Each of the twelve forecast months holds exactly one of the monthly charges. */
  lemma MonthlyTally(s: Subscription, from: Date, i: nat)
    requires s.billingCycle == Monthly
    requires IsValidDate(from) && 1000 <= from.year <= 9998
    requires IsValidDate(s.nextBillingDate)
    requires s.nextBillingDate.year == from.year && s.nextBillingDate.month == from.month
    requires from.day <= s.nextBillingDate.day
    requires i < 12
    ensures Tally(Charges(s, from, MonthStart(from, 12)), MonthKeyOf(MonthStart(from, i))) == 1
  {
    hide NextChargeDate, DayNumber, AddMonths, Counted, Skipped, CatchUp, IsoDate, StringLess, MonthKeyOf,
         Charges, Tally, Steps;
    var charges := Charges(s, from, MonthStart(from, 12));
    var key := MonthKeyOf(MonthStart(from, i));
    MonthlyYearCharges(s, from);
    forall j | 0 <= j < 12 ensures MonthKeyOf(charges[j]) == key <==> j == i {
      MonthlyStepKey(s, from, i, j);
    }
    TallyOnce(charges, key, i);
  }

  /** One active monthly subscription renewing in the start month, not before
      `from`, puts its amount into each of the twelve forecast months. */
  lemma SingleMonthlyAmounts(s: Subscription, from: Date, monthLabel: string -> string)
    requires s.isActive && s.billingCycle == Monthly
    requires IsValidDate(from) && 1000 <= from.year <= 9998
    requires IsValidDate(s.nextBillingDate)
    requires s.nextBillingDate.year == from.year && s.nextBillingDate.month == from.month
    requires from.day <= s.nextBillingDate.day
    ensures var r := SpendTrendOf([s], from, Some(12), monthLabel);
      |r| == 12 && forall i :: 0 <= i < |r| ==> r[i].amountMinor == s.amountMinor
  {
    hide NextChargeDate, DayNumber, AddMonths, Counted, Skipped, CatchUp, IsoDate, StringLess, MonthKeyOf,
         SpendTrendOf, MonthTotal, Charges, Tally, Steps, MonthStart, Filter;
    var e := MonthStart(from, 12);
    var charges := Charges(s, from, e);
    var r := SpendTrendOf([s], from, Some(12), monthLabel);
    assert MonthCount(Some(12)) == 12;
    FilterSingle(s, IsActive);
    assert ActiveOnly([s]) == [s];
    assert |r| == 12 && forall i :: 0 <= i < 12 ==> r[i].monthKey == MonthKeyOf(MonthStart(from, i)) by {
      SpendTrendShape([s], from, Some(12), monthLabel);
    }
    assert forall i :: 0 <= i < 12 ==> r[i].amountMinor == MonthTotal([s], from, e, r[i].monthKey) by {
      assert HasFourDigitYear(MonthStart(from, 11)) by {
        MonthStartFields(from, 11);
      }
      MonthKeysDistinct(from, 12);
      SpendTrendAmounts([s], from, Some(12), monthLabel);
    }
    forall i | 0 <= i < 12 ensures r[i].amountMinor == s.amountMinor {
      MonthlyTally(s, from, i);
      SingleMonthTotal(s, from, e, r[i].monthKey);
    }
  }

  /** With one subscription, a month's total is its amount per charge in that month. */
  lemma SingleMonthTotal(s: Subscription, from: Date, endExclusive: Date, key: string)
    ensures MonthTotal([s], from, endExclusive, key) == s.amountMinor * Tally(Charges(s, from, endExclusive), key)
  {
    hide Charges, Tally;
    assert [s][..0] == [];
  }

  /** Projection conservation: one active monthly subscription renewing in
      the start month, not before `from`, puts its amount into each of the
      twelve forecast months, so the year's forecast adds up to twelve times
      the amount. */
  lemma SpendTrendConservation(s: Subscription, from: Date, monthLabel: string -> string)
    requires s.isActive && s.billingCycle == Monthly
    requires IsValidDate(from) && 1000 <= from.year <= 9998
    requires IsValidDate(s.nextBillingDate)
    requires s.nextBillingDate.year == from.year && s.nextBillingDate.month == from.month
    requires from.day <= s.nextBillingDate.day
    ensures var r := SpendTrendOf([s], from, Some(12), monthLabel);
      |r| == 12 && IntSumOf(r, AmountMinorOf) == 12 * s.amountMinor
  {
    hide SpendTrendOf;
    var r := SpendTrendOf([s], from, Some(12), monthLabel);
    SingleMonthlyAmounts(s, from, monthLabel);
    EqualAmountsSum(r, s.amountMinor);
  }
}
