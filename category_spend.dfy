/**
 * buildCategorySpend (frontend/src/lib/analytics.ts): the monthly equivalent
 * of the active subscriptions summed per category, rounded, with zero
 * categories dropped, each given its share of the total and listed from the
 * largest amount down.
 *
 * The Map the source fills is modelled by CategoryOrder (its insertion order)
 * and CategoryTotal (its value per key); CategorySpendOf is the reference
 * value and BuildCategorySpend the loop proved equal to it.
 */
module CategorySpend {
  import opened Types
  import opened Seqs
  import opened Dates
  import opened Recurrence

  datatype CategorySpendPoint = CategorySpendPoint(category: Category, amountMinor: int, share: real)

  /** A rounded category total before the share is attached. */
  datatype CategoryAmount = CategoryAmount(category: Category, amountMinor: int)

  predicate AllPositiveIntervals(subs: seq<Subscription>) {
    forall i :: 0 <= i < |subs| ==> HasPositiveInterval(subs[i])
  }

  /** The categories in the order a Map first sees them as keys. */
  function CategoryOrder(subs: seq<Subscription>): seq<Category> {
    if subs == [] then []
    else
      var init := CategoryOrder(subs[..|subs| - 1]);
      var c := subs[|subs| - 1].category;
      if c in init then init else init + [c]
  }

  /** The order lists each category of the subscriptions exactly once. */
  lemma {:induction false} CategoryOrderContents(subs: seq<Subscription>)
    ensures forall c :: c in CategoryOrder(subs) <==> exists i :: 0 <= i < |subs| && subs[i].category == c
    ensures forall i, j :: 0 <= i < j < |CategoryOrder(subs)| ==> CategoryOrder(subs)[i] != CategoryOrder(subs)[j]
  {
    if subs != [] {
      var init := subs[..|subs| - 1];
      var last := subs[|subs| - 1];
      CategoryOrderContents(init);
      var before := CategoryOrder(init);
      assert forall c :: c in before <==> exists i :: 0 <= i < |init| && init[i].category == c;
      assert forall i :: 0 <= i < |init| ==> init[i] == subs[i];
      var r := CategoryOrder(subs);
      forall c ensures c in r <==> exists i :: 0 <= i < |subs| && subs[i].category == c {
        if c in before {
          var i :| 0 <= i < |init| && init[i].category == c;
          assert subs[i].category == c;
        }
        if exists i :: 0 <= i < |subs| && subs[i].category == c {
          var i :| 0 <= i < |subs| && subs[i].category == c;
          if i < |init| {
            assert init[i].category == c;
          }
        }
      }
      if last.category !in before {
        assert r == before + [last.category];
        forall i, j | 0 <= i < j < |r| ensures r[i] != r[j] {
          if j == |r| - 1 {
            assert r[i] == before[i];
          } else {
            assert r[i] == before[i] && r[j] == before[j];
          }
        }
      } else {
        assert r == before;
      }
    }
  }

  /** The value the Map holds for category c: the monthly equivalents of the
      subscriptions in c, added in list order. */
  function CategoryTotal(subs: seq<Subscription>, c: Category): real
    requires AllPositiveIntervals(subs)
  {
    if subs == [] then 0.0
    else
      var last := subs[|subs| - 1];
      CategoryTotal(subs[..|subs| - 1], c) + (if last.category == c then MonthlyEquivalent(last) else 0.0)
  }

  /** rawPoints: the entries in insertion order, rounded, keeping those above zero. */
  function RawPoints(order: seq<Category>, totals: map<Category, real>): (r: seq<CategoryAmount>)
    requires forall c :: c in order ==> c in totals
    ensures forall p :: p in r <==> p.category in order && p.amountMinor == Round(totals[p.category]) && p.amountMinor > 0
  {
    if order == [] then []
    else
      var c := order[|order| - 1];
      var amount := Round(totals[c]);
      RawPoints(order[..|order| - 1], totals) + (if amount > 0 then [CategoryAmount(c, amount)] else [])
  }

  function AmountOf(p: CategoryAmount): int {
    p.amountMinor
  }

  /** The share of each point: its amount over the total. */
  function WithShares(raw: seq<CategoryAmount>, total: int): (r: seq<CategorySpendPoint>)
    requires total != 0
    ensures |r| == |raw|
  {
    seq(|raw|, i requires 0 <= i < |raw| =>
      CategorySpendPoint(raw[i].category, raw[i].amountMinor, raw[i].amountMinor as real / total as real))
  }

  /** `(first, second) => second.amountMinor - first.amountMinor`: larger amounts first. */
  function Descending(p: CategorySpendPoint): int {
    -p.amountMinor
  }

  /** The total, the early return on a zero total, the shares and the sort. */
  function Finish(raw: seq<CategoryAmount>): seq<CategorySpendPoint> {
    var total := IntSumOf(raw, AmountOf);
    if total == 0 then [] else SortBy(WithShares(raw, total), Descending)
  }

  /** The Map after the forEach: each subscription's monthly equivalent added
      to the entry of its category, an absent entry counting as 0. */
  function TotalsOf(subs: seq<Subscription>): map<Category, real>
    requires AllPositiveIntervals(subs)
  {
    if subs == [] then map[]
    else
      var totals := TotalsOf(subs[..|subs| - 1]);
      var s := subs[|subs| - 1];
      totals[s.category := (if s.category in totals then totals[s.category] else 0.0) + MonthlyEquivalent(s)]
  }

  /** The reference value of buildCategorySpend(subscriptions). */
  function CategorySpendOf(subs: seq<Subscription>): seq<CategorySpendPoint>
    requires ActiveHavePositiveIntervals(subs)
  {
    ActiveOnlyUsable(subs);
    var active := ActiveOnly(subs);
    TotalsOfHoldsCategoryTotals(active);
    Finish(RawPoints(CategoryOrder(active), TotalsOf(active)))
  }

  /** The Map holds exactly the categories seen, each with the sum of its
      subscriptions' monthly equivalents. */
  lemma {:induction false} TotalsOfHoldsCategoryTotals(subs: seq<Subscription>)
    requires AllPositiveIntervals(subs)
    ensures forall c :: c in TotalsOf(subs) <==> c in CategoryOrder(subs)
    ensures forall c :: c in TotalsOf(subs) ==> TotalsOf(subs)[c] == CategoryTotal(subs, c)
  {
    hide MonthlyEquivalent;
    if subs != [] {
      var init := subs[..|subs| - 1];
      assert forall i :: 0 <= i < |init| ==> init[i] == subs[i];
      TotalsOfHoldsCategoryTotals(init);
      var c := subs[|subs| - 1].category;
      if c !in CategoryOrder(init) {
        NotSeenTotal(init, c);
      }
    }
  }

  /** A category no subscription has totals zero. */
  lemma {:induction false} NotSeenTotal(subs: seq<Subscription>, c: Category)
    requires AllPositiveIntervals(subs)
    requires c !in CategoryOrder(subs)
    ensures CategoryTotal(subs, c) == 0.0
  {
    if subs != [] {
      var init := subs[..|subs| - 1];
      assert forall i :: 0 <= i < |init| ==> init[i] == subs[i];
      NotSeenTotal(init, c);
    }
  }

  /** The forEach that fills the Map: totals.set(category, (totals.get(category) ?? 0) + monthly). */
  method CategoryTotalsLoop(active: seq<Subscription>) returns (totals: map<Category, real>, order: seq<Category>)
    requires AllPositiveIntervals(active)
    ensures order == CategoryOrder(active)
    ensures totals == TotalsOf(active)
  {
    hide MonthlyEquivalent;
    totals, order := map[], [];
    for i := 0 to |active|
      invariant AllPositiveIntervals(active[..i])
      invariant order == CategoryOrder(active[..i])
      invariant totals == TotalsOf(active[..i])
    {
      var s := active[i];
      var previous := if s.category in totals then totals[s.category] else 0.0;
      assert active[..i + 1][..i] == active[..i];
      totals := totals[s.category := previous + MonthlyEquivalent(s)];
      order := if s.category in order then order else order + [s.category];
    }
    assert active[..|active|] == active;
  }

  /** buildCategorySpend: the Map loop, then the pure finish. */
  method BuildCategorySpend(subs: seq<Subscription>) returns (points: seq<CategorySpendPoint>)
    requires ActiveHavePositiveIntervals(subs)
    ensures points == CategorySpendOf(subs)
  {
    ActiveOnlyUsable(subs);
    var active := ActiveOnly(subs);
    var totals, order := CategoryTotalsLoop(active);
    TotalsOfHoldsCategoryTotals(active);
    points := Finish(RawPoints(order, totals));
  }

  /** The Map's value for category c, over the active subscriptions. */
  function ActiveCategoryTotal(subs: seq<Subscription>, c: Category): real
    requires ActiveHavePositiveIntervals(subs)
  {
    ActiveOnlyUsable(subs);
    CategoryTotal(ActiveOnly(subs), c)
  }

  /** Some active subscription is in category c. */
  predicate HasActiveIn(subs: seq<Subscription>, c: Category) {
    exists i :: 0 <= i < |subs| && subs[i].isActive && subs[i].category == c
  }

  function ShareOf(p: CategorySpendPoint): real {
    p.share
  }

  predicate DistinctCategories(raw: seq<CategoryAmount>) {
    forall i, j :: 0 <= i < j < |raw| ==> raw[i].category != raw[j].category
  }

  /** The rounded entries keep the categories of the order, each at most once. */
  lemma {:induction false} RawPointsDistinct(order: seq<Category>, totals: map<Category, real>)
    requires forall c :: c in order ==> c in totals
    requires Distinct(order)
    ensures DistinctCategories(RawPoints(order, totals))
  {
    hide Round;
    if order != [] {
      var init := order[..|order| - 1];
      assert forall i :: 0 <= i < |init| ==> init[i] == order[i];
      RawPointsDistinct(init, totals);
      var before := RawPoints(init, totals);
      var c := order[|order| - 1];
      assert c !in init by {
        forall i | 0 <= i < |init| ensures init[i] != c {
          assert order[i] != order[|order| - 1];
        }
      }
      forall i | 0 <= i < |before| ensures before[i].category != c {
        assert before[i] in before;
      }
      var raw := RawPoints(order, totals);
      if Round(totals[c]) > 0 {
        assert raw == before + [CategoryAmount(c, Round(totals[c]))];
        forall i, j | 0 <= i < j < |raw| ensures raw[i].category != raw[j].category {
          if j == |raw| - 1 {
            assert raw[i] == before[i];
          } else {
            assert raw[i] == before[i] && raw[j] == before[j];
          }
        }
      } else {
        assert raw == before;
      }
    }
  }

  /** A sum of positive amounts is positive unless there are none. */
  lemma {:induction false} PositiveSum(raw: seq<CategoryAmount>)
    requires forall p :: p in raw ==> p.amountMinor > 0
    ensures IntSumOf(raw, AmountOf) >= 0
    ensures raw != [] ==> IntSumOf(raw, AmountOf) > 0
  {
    if raw != [] {
      var init := raw[..|raw| - 1];
      assert forall p :: p in init ==> p in raw;
      assert raw[|raw| - 1] in raw;
      PositiveSum(init);
    }
  }

  /** The shares of a non-zero total add up to the amounts over the total. */
  lemma {:induction false} SharesSum(raw: seq<CategoryAmount>, total: int)
    requires total != 0
    ensures SumOf(WithShares(raw, total), ShareOf) == IntSumOf(raw, AmountOf) as real / total as real
  {
    if raw != [] {
      var init := raw[..|raw| - 1];
      SharesSum(init, total);
      var w := WithShares(raw, total);
      assert w[..|w| - 1] == WithShares(init, total);
      var a := raw[|raw| - 1].amountMinor as real;
      var t := total as real;
      assert IntSumOf(init, AmountOf) as real / t + a / t == (IntSumOf(init, AmountOf) as real + a) / t;
    }
  }

  /** A point's amount as a real, for sums over points. */
  function PointAmount(p: CategorySpendPoint): real {
    p.amountMinor as real
  }

  /** Attaching shares keeps the amounts: the points' amounts add up to the entries' total. */
  lemma {:induction false} AmountsSum(raw: seq<CategoryAmount>, total: int)
    requires total != 0
    ensures SumOf(WithShares(raw, total), PointAmount) == IntSumOf(raw, AmountOf) as real
  {
    if raw != [] {
      var init := raw[..|raw| - 1];
      AmountsSum(init, total);
      var w := WithShares(raw, total);
      assert w[..|w| - 1] == WithShares(init, total);
    }
  }

  lemma DivideBySelf(t: real)
    requires t != 0.0
    ensures t / t == 1.0
  {
  }

  /** The shares of the finished list add up to 1. */
  lemma FinishSharesSum(raw: seq<CategoryAmount>)
    requires IntSumOf(raw, AmountOf) != 0
    ensures SumOf(Finish(raw), ShareOf) == 1.0
  {
    var total := IntSumOf(raw, AmountOf);
    var w := WithShares(raw, total);
    SortBySum(w, Descending, ShareOf);
    SharesSum(raw, total);
    assert Finish(raw) == SortBy(w, Descending);
    DivideBySelf(total as real);
  }

  /** The finished points are the entries with their shares, reordered. */
  lemma FinishPermutes(raw: seq<CategoryAmount>)
    requires IntSumOf(raw, AmountOf) != 0
    ensures multiset(Finish(raw)) == multiset(WithShares(raw, IntSumOf(raw, AmountOf)))
  {
    SortByPermutes(WithShares(raw, IntSumOf(raw, AmountOf)), Descending);
  }

  /** The finished points are exactly the entries, each with its share. */
  lemma FinishMembers(raw: seq<CategoryAmount>)
    requires IntSumOf(raw, AmountOf) != 0
    ensures forall p :: p in Finish(raw) ==> CategoryAmount(p.category, p.amountMinor) in raw
    ensures forall p :: p in Finish(raw) ==> p.share == p.amountMinor as real / IntSumOf(raw, AmountOf) as real
    ensures forall q :: q in raw ==> exists p :: p in Finish(raw) && p.category == q.category && p.amountMinor == q.amountMinor
  {
    var w := WithShares(raw, IntSumOf(raw, AmountOf));
    FinishPermutes(raw);
    hide Finish;
    forall p | p in Finish(raw)
      ensures CategoryAmount(p.category, p.amountMinor) in raw
      ensures p.share == p.amountMinor as real / IntSumOf(raw, AmountOf) as real
    {
      assert p in multiset(w);
      var i :| 0 <= i < |w| && w[i] == p;
      assert raw[i] == CategoryAmount(p.category, p.amountMinor);
    }
    forall q | q in raw ensures exists p :: p in Finish(raw) && p.category == q.category && p.amountMinor == q.amountMinor {
      var i :| 0 <= i < |raw| && raw[i] == q;
      assert w[i] in multiset(Finish(raw));
    }
  }

  /** The finished list runs from the largest amount down. */
  lemma FinishDescending(raw: seq<CategoryAmount>)
    requires IntSumOf(raw, AmountOf) != 0
    ensures forall i, j :: 0 <= i < j < |Finish(raw)| ==> Finish(raw)[i].amountMinor >= Finish(raw)[j].amountMinor
  {
    var w := WithShares(raw, IntSumOf(raw, AmountOf));
    assert Finish(raw) == SortBy(w, Descending);
    SortBySorted(w, Descending);
  }

  /** Entries with distinct categories give points without repeats. */
  lemma WithSharesDistinct(raw: seq<CategoryAmount>, total: int)
    requires total != 0 && DistinctCategories(raw)
    ensures Distinct(WithShares(raw, total))
    ensures forall i, j :: 0 <= i < j < |raw| ==> WithShares(raw, total)[i].category != WithShares(raw, total)[j].category
  {
  }

  /** When the entries have distinct categories, the finished list lists no category twice. */
  lemma FinishDistinct(raw: seq<CategoryAmount>)
    requires IntSumOf(raw, AmountOf) != 0
    requires DistinctCategories(raw)
    ensures forall i, j :: 0 <= i < j < |Finish(raw)| ==> Finish(raw)[i].category != Finish(raw)[j].category
  {
    var w := WithShares(raw, IntSumOf(raw, AmountOf));
    assert Finish(raw) == SortBy(w, Descending);
    WithSharesDistinct(raw, IntSumOf(raw, AmountOf));
    SortByDistinct(w, Descending);
    FinishPermutes(raw);
    hide Finish, SortBy, WithShares;
    PermutedCategoriesDistinct(w, Finish(raw));
  }

  /** A rearrangement without repeats of points with distinct categories has distinct categories. */
  lemma PermutedCategoriesDistinct(w: seq<CategorySpendPoint>, r: seq<CategorySpendPoint>)
    requires multiset(r) == multiset(w) && Distinct(r)
    requires forall i, j :: 0 <= i < j < |w| ==> w[i].category != w[j].category
    ensures forall i, j :: 0 <= i < j < |r| ==> r[i].category != r[j].category
  {
    forall i, j | 0 <= i < j < |r| ensures r[i].category != r[j].category {
      assert r[i] in multiset(w) && r[j] in multiset(w);
      var a :| 0 <= a < |w| && w[a] == r[i];
      var b :| 0 <= b < |w| && w[b] == r[j];
      assert a != b;
    }
  }

  /** The finish of buildCategorySpend on positive entries with distinct
      categories: the same entries, each with its share of the amounts' total,
      largest first, no category twice, the shares adding up to 1; empty only
      without entries. */
  lemma FinishFacts(raw: seq<CategoryAmount>)
    requires forall p :: p in raw ==> p.amountMinor > 0
    requires DistinctCategories(raw)
    ensures Finish(raw) == [] <==> raw == []
    ensures forall p :: p in Finish(raw) ==> CategoryAmount(p.category, p.amountMinor) in raw
    ensures forall q :: q in raw ==> exists p :: p in Finish(raw) && p.category == q.category && p.amountMinor == q.amountMinor
    ensures Finish(raw) != [] ==> SumOf(Finish(raw), PointAmount) > 0.0
    ensures forall p :: p in Finish(raw) ==> p.share == p.amountMinor as real / SumOf(Finish(raw), PointAmount)
    ensures forall i, j :: 0 <= i < j < |Finish(raw)| ==> Finish(raw)[i].amountMinor >= Finish(raw)[j].amountMinor
    ensures forall i, j :: 0 <= i < j < |Finish(raw)| ==> Finish(raw)[i].category != Finish(raw)[j].category
    ensures Finish(raw) != [] ==> SumOf(Finish(raw), ShareOf) == 1.0
  {
    PositiveSum(raw);
    if raw != [] {
      assert |Finish(raw)| == |raw|;
      var total := IntSumOf(raw, AmountOf);
      var w := WithShares(raw, total);
      assert Finish(raw) == SortBy(w, Descending);
      hide Finish;
      SortBySum(w, Descending, PointAmount);
      AmountsSum(raw, total);
      FinishMembers(raw);
      FinishDescending(raw);
      FinishDistinct(raw);
      FinishSharesSum(raw);
    }
  }

  /** The pieces of CategorySpendOf: the entries come from the Map built over
      the active subscriptions, holding exactly their categories and totals. */
  lemma CategorySpendEntries(subs: seq<Subscription>)
    requires ActiveHavePositiveIntervals(subs)
    ensures AllPositiveIntervals(ActiveOnly(subs))
    ensures var active := ActiveOnly(subs);
      var order := CategoryOrder(active);
      var totals := TotalsOf(active);
      (forall c :: c in order <==> c in totals) &&
      (forall c :: c in order <==> HasActiveIn(subs, c)) &&
      (forall c :: c in totals ==> totals[c] == ActiveCategoryTotal(subs, c)) &&
      DistinctCategories(RawPoints(order, totals)) &&
      CategorySpendOf(subs) == Finish(RawPoints(order, totals))
  {
    hide Round, MonthlyEquivalent, Finish;
    ActiveOnlyUsable(subs);
    var active := ActiveOnly(subs);
    var order := CategoryOrder(active);
    var totals := TotalsOf(active);
    CategoryOrderContents(active);
    TotalsOfHoldsCategoryTotals(active);
    RawPointsDistinct(order, totals);
    forall c ensures HasActiveIn(subs, c) <==> c in order {
      if HasActiveIn(subs, c) {
        var i :| 0 <= i < |subs| && subs[i].isActive && subs[i].category == c;
        assert subs[i] in active;
      }
      if c in order {
        var i :| 0 <= i < |active| && active[i].category == c;
        assert active[i] in subs;
      }
    }
  }

  /** buildCategorySpend lists each category with an active subscription and a
      positive rounded total, once, with that rounded total as its amount and
      its share of the listed amounts' total, and no other category. */
  lemma CategorySpendCategories(subs: seq<Subscription>)
    requires ActiveHavePositiveIntervals(subs)
    ensures forall p :: p in CategorySpendOf(subs) ==>
      HasActiveIn(subs, p.category) && p.amountMinor == Round(ActiveCategoryTotal(subs, p.category)) > 0
    ensures forall c :: HasActiveIn(subs, c) && Round(ActiveCategoryTotal(subs, c)) > 0 ==>
      exists p :: p in CategorySpendOf(subs) && p.category == c
    ensures forall i, j :: 0 <= i < j < |CategorySpendOf(subs)| ==>
      CategorySpendOf(subs)[i].category != CategorySpendOf(subs)[j].category
    ensures CategorySpendOf(subs) != [] ==> SumOf(CategorySpendOf(subs), PointAmount) > 0.0
    ensures forall p :: p in CategorySpendOf(subs) ==>
      p.share == p.amountMinor as real / SumOf(CategorySpendOf(subs), PointAmount)
  {
    CategorySpendEntries(subs);
    var active := ActiveOnly(subs);
    var order := CategoryOrder(active);
    var totals := TotalsOf(active);
    var raw := RawPoints(order, totals);
    hide Round, MonthlyEquivalent, Finish, CategorySpendOf, ActiveCategoryTotal, HasActiveIn;
    FinishFacts(raw);
    forall c | HasActiveIn(subs, c) && Round(ActiveCategoryTotal(subs, c)) > 0
      ensures exists p :: p in CategorySpendOf(subs) && p.category == c
    {
      assert CategoryAmount(c, Round(totals[c])) in raw;
    }
  }

  /** buildCategorySpend runs from the largest amount down, its shares add up
      to 1 unless it is empty, and it is empty exactly when no category has a
      positive rounded total. */
  lemma CategorySpendOrder(subs: seq<Subscription>)
    requires ActiveHavePositiveIntervals(subs)
    ensures forall i, j :: 0 <= i < j < |CategorySpendOf(subs)| ==>
      CategorySpendOf(subs)[i].amountMinor >= CategorySpendOf(subs)[j].amountMinor
    ensures CategorySpendOf(subs) != [] ==> SumOf(CategorySpendOf(subs), ShareOf) == 1.0
    ensures CategorySpendOf(subs) == [] <==>
      forall c :: HasActiveIn(subs, c) ==> Round(ActiveCategoryTotal(subs, c)) <= 0
  {
    CategorySpendEntries(subs);
    var active := ActiveOnly(subs);
    var order := CategoryOrder(active);
    var totals := TotalsOf(active);
    var raw := RawPoints(order, totals);
    hide Round, MonthlyEquivalent, Finish, CategorySpendOf, ActiveCategoryTotal, HasActiveIn;
    FinishFacts(raw);
    if raw != [] {
      assert raw[0] in raw;
    } else {
      forall c | HasActiveIn(subs, c) ensures Round(ActiveCategoryTotal(subs, c)) <= 0 {
        assert CategoryAmount(c, Round(totals[c])) in raw <==> Round(totals[c]) > 0;
      }
    }
  }

  /** The Map entry of c after one more subscription. */
  lemma CategoryTotalSnoc(subs: seq<Subscription>, s: Subscription, c: Category)
    requires AllPositiveIntervals(subs) && HasPositiveInterval(s)
    ensures AllPositiveIntervals(subs + [s])
    ensures CategoryTotal(subs + [s], c) == CategoryTotal(subs, c) + (if s.category == c then MonthlyEquivalent(s) else 0.0)
  {
    assert (subs + [s])[..|subs|] == subs;
  }

  /** The category order after one more subscription. */
  lemma CategoryOrderSnoc(subs: seq<Subscription>, s: Subscription)
    ensures CategoryOrder(subs + [s]) == if s.category in CategoryOrder(subs) then CategoryOrder(subs) else CategoryOrder(subs) + [s.category]
  {
    assert (subs + [s])[..|subs|] == subs;
  }

  /** The Map values of the category test. */
  function ExampleTotal(c: Category): real {
    match c
    case Productivity => 2000.0
    case Utilities => 500.0 * (52.0 / 12.0)
    case Health => 900.0
    case _ => 0.0
  }

  /** The monthly equivalents of the category test's subscriptions. */
  lemma ExampleMonthlyEquivalents(pm: Subscription, py: Subscription, uw: Subscription, hc: Subscription)
    requires pm.billingCycle == Monthly && pm.amountMinor == 1000
    requires py.billingCycle == Yearly && py.amountMinor == 12000
    requires uw.billingCycle == Weekly && uw.amountMinor == 500
    requires hc.billingCycle == CustomDays && hc.customIntervalDays == Some(10) && hc.amountMinor == 300
    ensures HasPositiveInterval(pm) && HasPositiveInterval(py) && HasPositiveInterval(uw) && HasPositiveInterval(hc)
    ensures MonthlyEquivalent(pm) == 1000.0 && MonthlyEquivalent(py) == 1000.0
    ensures MonthlyEquivalent(uw) == 500.0 * (52.0 / 12.0) && MonthlyEquivalent(hc) == 900.0
  {
  }

  /** The Map's key order for the category test. */
  lemma ExampleOrder(pm: Subscription, py: Subscription, uw: Subscription, hc: Subscription)
    requires pm.category == Productivity && py.category == Productivity
    requires uw.category == Utilities && hc.category == Health
    ensures CategoryOrder([pm, py, uw, hc]) == [Productivity, Utilities, Health]
  {
    var s0: seq<Subscription> := [];
    var s1 := s0 + [pm];
    var s2 := s1 + [py];
    var s3 := s2 + [uw];
    var s4 := s3 + [hc];
    assert CategoryOrder(s0) == [];
    assert s4 == [pm, py, uw, hc];
    hide CategoryOrder;
    CategoryOrderSnoc(s0, pm);
    CategoryOrderSnoc(s1, py);
    CategoryOrderSnoc(s2, uw);
    CategoryOrderSnoc(s3, hc);
  }

  /** The Map's value for category c in the category test. */
  lemma ExampleCategoryTotal(pm: Subscription, py: Subscription, uw: Subscription, hc: Subscription, c: Category)
    requires pm.category == Productivity && pm.billingCycle == Monthly && pm.amountMinor == 1000
    requires py.category == Productivity && py.billingCycle == Yearly && py.amountMinor == 12000
    requires uw.category == Utilities && uw.billingCycle == Weekly && uw.amountMinor == 500
    requires hc.category == Health && hc.billingCycle == CustomDays
    requires hc.customIntervalDays == Some(10) && hc.amountMinor == 300
    ensures AllPositiveIntervals([pm, py, uw, hc])
    ensures CategoryTotal([pm, py, uw, hc], c) == ExampleTotal(c)
  {
    assert CategoryTotal([], c) == 0.0;
    hide MonthlyEquivalent, CategoryTotal;
    ExampleMonthlyEquivalents(pm, py, uw, hc);
    assert [] + [pm] == [pm] && [pm] + [py] == [pm, py] && [pm, py] + [uw] == [pm, py, uw] && [pm, py, uw] + [hc] == [pm, py, uw, hc];
    CategoryTotalSnoc([], pm, c);
    CategoryTotalSnoc([pm], py, c);
    CategoryTotalSnoc([pm, py], uw, c);
    CategoryTotalSnoc([pm, py, uw], hc, c);
  }

  /** The entries after one more key. */
  lemma RawPointsSnoc(order: seq<Category>, c: Category, totals: map<Category, real>)
    requires forall k :: k in order + [c] ==> k in totals
    ensures RawPoints(order + [c], totals) ==
      RawPoints(order, totals) + (if Round(totals[c]) > 0 then [CategoryAmount(c, Round(totals[c]))] else [])
  {
    assert (order + [c])[..|order|] == order;
  }

  /** The rounded entries of the category test, in Map order. */
  lemma ExampleRawPoints(totals: map<Category, real>)
    requires Productivity in totals && Utilities in totals && Health in totals
    requires totals[Productivity] == 2000.0 && totals[Utilities] == 500.0 * (52.0 / 12.0) && totals[Health] == 900.0
    ensures RawPoints([Productivity, Utilities, Health], totals) ==
      [CategoryAmount(Productivity, 2000), CategoryAmount(Utilities, 2167), CategoryAmount(Health, 900)]
  {
    var p, u, h := CategoryAmount(Productivity, 2000), CategoryAmount(Utilities, 2167), CategoryAmount(Health, 900);
    assert RawPoints([], totals) == [];
    hide RawPoints, Round;
    assert Round(totals[Productivity]) == 2000;
    assert Round(totals[Utilities]) == 2167;
    assert Round(totals[Health]) == 900;
    assert RawPoints([Productivity], totals) == [p] by {
      assert [] + [Productivity] == [Productivity];
      RawPointsSnoc([], Productivity, totals);
    }
    assert RawPoints([Productivity, Utilities], totals) == [p, u] by {
      assert [Productivity] + [Utilities] == [Productivity, Utilities];
      RawPointsSnoc([Productivity], Utilities, totals);
    }
    assert RawPoints([Productivity, Utilities, Health], totals) == [p, u, h] by {
      assert [Productivity, Utilities] + [Health] == [Productivity, Utilities, Health];
      RawPointsSnoc([Productivity, Utilities], Health, totals);
    }
  }

  /** Sorting three points whose middle one is the largest and whose last one the smallest. */
  lemma SortThree(w: seq<CategorySpendPoint>)
    requires |w| == 3
    requires w[1].amountMinor > w[0].amountMinor >= w[2].amountMinor
    ensures SortBy(w, Descending) == [w[1], w[0], w[2]]
  {
    var a, b, c := w[0], w[1], w[2];
    assert SortBy([a, b], Descending) == [b, a] by {
      assert [a, b][..1] == [a] && [a][..0] == [];
      assert SortBy([a], Descending) == [a];
      assert Insert([a], b, Descending) == Insert([], b, Descending) + [a];
    }
    assert SortBy(w, Descending) == Insert(SortBy([a, b], Descending), c, Descending) by {
      assert w[..2] == [a, b];
    }
    hide SortBy;
    assert Insert([b, a], c, Descending) == [b, a] + [c];
  }

  /** The shares and the sort of the category test. */
  lemma ExampleFinish()
    ensures var r := Finish([CategoryAmount(Productivity, 2000), CategoryAmount(Utilities, 2167), CategoryAmount(Health, 900)]);
      |r| == 3 &&
      r[0].category == Utilities && r[0].amountMinor == 2167 &&
      r[1].category == Productivity && r[1].amountMinor == 2000 &&
      r[2].category == Health && r[2].amountMinor == 900
  {
    var r0, r1, r2 := CategoryAmount(Productivity, 2000), CategoryAmount(Utilities, 2167), CategoryAmount(Health, 900);
    var raw := [r0, r1, r2];
    assert IntSumOf([r0], AmountOf) == 2000 by {
      assert [r0][..0] == [];
    }
    assert IntSumOf([r0, r1], AmountOf) == 4167 by {
      assert [r0, r1][..1] == [r0];
    }
    assert IntSumOf(raw, AmountOf) == 5067 by {
      assert raw[..2] == [r0, r1];
    }
    var w := WithShares(raw, 5067);
    assert Finish(raw) == SortBy(w, Descending);
    hide Finish, IntSumOf, SortBy;
    SortThree(w);
  }

  /** The category test: two productivity plans (1000 monthly, 12000 yearly),
      a 500 weekly utility and a 300 health plan every ten days give utilities
      2167, productivity 2000 and health 900, in that order. */
  lemma CategorySpendExample(pm: Subscription, py: Subscription, uw: Subscription, hc: Subscription)
    requires pm.isActive && pm.category == Productivity && pm.billingCycle == Monthly && pm.amountMinor == 1000
    requires py.isActive && py.category == Productivity && py.billingCycle == Yearly && py.amountMinor == 12000
    requires uw.isActive && uw.category == Utilities && uw.billingCycle == Weekly && uw.amountMinor == 500
    requires hc.isActive && hc.category == Health && hc.billingCycle == CustomDays
    requires hc.customIntervalDays == Some(10) && hc.amountMinor == 300
    ensures ActiveHavePositiveIntervals([pm, py, uw, hc])
    ensures var r := CategorySpendOf([pm, py, uw, hc]);
      |r| == 3 &&
      r[0].category == Utilities && r[0].amountMinor == 2167 &&
      r[1].category == Productivity && r[1].amountMinor == 2000 &&
      r[2].category == Health && r[2].amountMinor == 900
  {
    hide Finish, RawPoints, CategoryOrder, CategoryTotal, TotalsOf, Filter;
    var subs := [pm, py, uw, hc];
    FilterAll(subs, IsActive);
    ExampleOrder(pm, py, uw, hc);
    forall c ensures CategoryTotal(subs, c) == ExampleTotal(c) {
      ExampleCategoryTotal(pm, py, uw, hc, c);
    }
    ExampleCategoryTotal(pm, py, uw, hc, Other);
    TotalsOfHoldsCategoryTotals(subs);
    var totals := TotalsOf(subs);
    assert Productivity in CategoryOrder(subs) && Utilities in CategoryOrder(subs) && Health in CategoryOrder(subs);
    ExampleRawPoints(totals);
    ExampleFinish();
  }
}
