/**
 * Reminder detection (frontend/src/lib/notifications.ts): which active
 * subscriptions call for a reminder today, and the once-per-day marker kept
 * in the browser's localStorage so that a reminder is shown only once.
 * The Notification API, its permission and the timer that closes a shown
 * notification are outside the model; the store is a map from keys to values.
 */
module Notifications {
  import opened Gregorian
  import opened Text
  import opened Types
  import opened IsoText
  import opened Seqs
  import opened Dates

  datatype ReminderHit = ReminderHit(subscription: Subscription, daysBefore: int)

  const KeyPrefix: string := "pulseboard-reminder"

  predicate ColonFree(s: string) {
    forall i :: 0 <= i < |s| ==> s[i] != ':'
  }

  /** storageKeyForReminder: the four components after a fixed prefix, separated by ':'. */
  function StorageKeyForReminder(id: string, nextBillingDate: Date, daysBefore: int, today: Date): string {
    KeyPrefix + ":" + id + ":" + IsoDate(nextBillingDate) + ":" + IntText(daysBefore) + ":" + IsoDate(today)
  }

  /** The hits of one active subscription: a single renewal-day hit on the day
      itself, otherwise one hit per lead time equal to the days left. */
  function HitsFor(s: Subscription, today: Date): seq<ReminderHit> {
    var daysLeft := DaysUntil(s.nextBillingDate, today);
    if daysLeft == 0 then [ReminderHit(s, 0)]
    else LeadHits(s, s.reminderDaysBefore, daysLeft)
  }

  /** `leads.filter((daysBefore) => daysLeft === daysBefore).map(...)` */
  function LeadHits(s: Subscription, leads: seq<int>, daysLeft: int): seq<ReminderHit> {
    if leads == [] then []
    else
      LeadHits(s, leads[..|leads| - 1], daysLeft) +
      (if leads[|leads| - 1] == daysLeft then [ReminderHit(s, daysLeft)] else [])
  }

  /** `flatMap` of HitsFor over a list, in list order. */
  function HitsOfAll(subs: seq<Subscription>, today: Date): seq<ReminderHit> {
    if subs == [] then []
    else HitsOfAll(subs[..|subs| - 1], today) + HitsFor(subs[|subs| - 1], today)
  }

  /** collectReminderHits: the hits of the active subscriptions. */
  function CollectReminderHits(subs: seq<Subscription>, today: Date): seq<ReminderHit> {
    HitsOfAll(ActiveOnly(subs), today)
  }

  /** The hits for one lead list are one hit per entry equal to the days
      left, duplicates included, each carrying those days. */
  lemma {:induction false} LeadHitsCount(s: Subscription, leads: seq<int>, daysLeft: int)
    ensures |LeadHits(s, leads, daysLeft)| == multiset(leads)[daysLeft]
    ensures forall h :: h in LeadHits(s, leads, daysLeft) ==> h == ReminderHit(s, daysLeft)
  {
    if leads != [] {
      var init := leads[..|leads| - 1];
      assert leads == init + [leads[|leads| - 1]];
      LeadHitsCount(s, init, daysLeft);
    }
  }

  /** On the renewal day a subscription gets exactly one hit, with daysBefore 0,
      whatever its lead times; on any other day it gets one hit per lead time
      equal to the days left. */
  lemma HitsForShape(s: Subscription, today: Date)
    ensures var daysLeft := DaysUntil(s.nextBillingDate, today);
      (daysLeft == 0 ==> HitsFor(s, today) == [ReminderHit(s, 0)]) &&
      (daysLeft != 0 ==> |HitsFor(s, today)| == multiset(s.reminderDaysBefore)[daysLeft]) &&
      forall h :: h in HitsFor(s, today) ==> h == ReminderHit(s, daysLeft)
  {
    LeadHitsCount(s, s.reminderDaysBefore, DaysUntil(s.nextBillingDate, today));
  }

  /** The hits of two lists one after the other are the hits of the first,
      then those of the second: hits stay grouped in input order. */
  lemma {:induction false} CollectAppend(a: seq<Subscription>, b: seq<Subscription>, today: Date)
    ensures CollectReminderHits(a + b, today) == CollectReminderHits(a, today) + CollectReminderHits(b, today)
  {
    FilterAppend(a, b, IsActive);
    HitsOfAllAppend(ActiveOnly(a), ActiveOnly(b), today);
  }

  lemma {:induction false} HitsOfAllAppend(a: seq<Subscription>, b: seq<Subscription>, today: Date)
    ensures HitsOfAll(a + b, today) == HitsOfAll(a, today) + HitsOfAll(b, today)
    decreases |b|
  {
    hide HitsFor;
    if b == [] {
      assert a + b == a;
    } else {
      var init := b[..|b| - 1];
      assert (a + b)[..|a + b| - 1] == a + init;
      HitsOfAllAppend(a, init, today);
    }
  }

  /** Every hit belongs to an active subscription of the input and carries
      exactly its days left, which is 0 or one of its lead times. */
  lemma {:induction false} HitsOfAllMembers(subs: seq<Subscription>, today: Date)
    ensures forall h :: h in HitsOfAll(subs, today) ==>
      h.subscription in subs &&
      h.daysBefore == DaysUntil(h.subscription.nextBillingDate, today) &&
      (h.daysBefore == 0 || h.daysBefore in h.subscription.reminderDaysBefore)
  {
    if subs != [] {
      var init, last := subs[..|subs| - 1], subs[|subs| - 1];
      HitsOfAllMembers(init, today);
      HitsForShape(last, today);
      LeadHitsCount(last, last.reminderDaysBefore, DaysUntil(last.nextBillingDate, today));
      forall h | h in HitsFor(last, today)
        ensures h.daysBefore == 0 || h.daysBefore in last.reminderDaysBefore
      {
        var daysLeft := DaysUntil(last.nextBillingDate, today);
        if daysLeft != 0 {
          assert multiset(last.reminderDaysBefore)[daysLeft] > 0;
        }
      }
    }
  }

  /** No inactive subscription is reminded of, every hit's daysBefore is its
      subscription's days left, and, when lead times are never negative, a
      past-due subscription is not reminded of. */
  lemma CollectReminderHitsMembers(subs: seq<Subscription>, today: Date)
    ensures forall h :: h in CollectReminderHits(subs, today) ==>
      h.subscription in subs && h.subscription.isActive &&
      h.daysBefore == DaysUntil(h.subscription.nextBillingDate, today) &&
      (h.daysBefore == 0 || h.daysBefore in h.subscription.reminderDaysBefore)
    ensures (forall i, j :: 0 <= i < |subs| && 0 <= j < |subs[i].reminderDaysBefore| ==> subs[i].reminderDaysBefore[j] >= 0) ==>
      forall h :: h in CollectReminderHits(subs, today) ==> DaysUntil(h.subscription.nextBillingDate, today) >= 0
  {
    HitsOfAllMembers(ActiveOnly(subs), today);
  }

  /** The hits of a single subscription: none when inactive, otherwise HitsFor. */
  lemma CollectOne(s: Subscription, today: Date)
    ensures CollectReminderHits([s], today) == if s.isActive then HitsFor(s, today) else []
  {
    FilterSingle(s, IsActive);
    assert [s][..0] == [];
    if s.isActive {
      assert HitsOfAll([s], today) == [] + HitsFor(s, today);
    }
  }

  /** The lead times [1, 3, 7]: five days ahead there is no hit, three days ahead one. */
  lemma ReminderLeadExample(s: Subscription, today: Date)
    requires s.isActive && s.reminderDaysBefore == [1, 3, 7]
    ensures DaysUntil(s.nextBillingDate, today) == 5 ==> CollectReminderHits([s], today) == []
    ensures DaysUntil(s.nextBillingDate, today) == 3 ==> CollectReminderHits([s], today) == [ReminderHit(s, 3)]
  {
    CollectOne(s, today);
    var daysLeft := DaysUntil(s.nextBillingDate, today);
    hide DaysUntil;
    assert [1, 3, 7][..2] == [1, 3];
    assert [1, 3][..1] == [1];
    assert [1][..0] == [];
    assert LeadHits(s, [1], daysLeft) == if daysLeft == 1 then [ReminderHit(s, 1)] else [];
    assert LeadHits(s, [1, 3], daysLeft) == LeadHits(s, [1], daysLeft) + (if daysLeft == 3 then [ReminderHit(s, 3)] else []);
    assert LeadHits(s, [1, 3, 7], daysLeft) == LeadHits(s, [1, 3], daysLeft) + (if daysLeft == 7 then [ReminderHit(s, 7)] else []);
  }

  /** Equal-length texts separated from the rest by ':' split the same way. */
  lemma ColonSplit(a1: string, b1: string, a2: string, b2: string)
    requires ColonFree(a1) && ColonFree(a2)
    requires a1 + ":" + b1 == a2 + ":" + b2
    ensures a1 == a2 && b1 == b2
  {
    var s := a1 + ":" + b1;
    assert forall i :: 0 <= i < |a1| ==> s[i] != ':';
    assert forall i :: 0 <= i < |a2| ==> s[i] != ':';
    assert s[|a1|] == ':' && s[|a2|] == ':';
    assert a1 == s[..|a1|] == a2;
    assert b1 == s[|a1| + 1..] == b2;
  }

  lemma IsoDateColonFree(d: Date)
    ensures ColonFree(IsoDate(d))
  {
  }

  /** For ids without ':' and dates with four-digit years, two keys are equal
      exactly when all four components are: a new day, date, lead time or
      subscription gives a fresh key. */
  lemma StorageKeyInjective(id1: string, date1: Date, lead1: int, today1: Date,
                            id2: string, date2: Date, lead2: int, today2: Date)
    requires ColonFree(id1) && ColonFree(id2)
    requires IsValidDate(date1) && HasFourDigitYear(date1) && IsValidDate(date2) && HasFourDigitYear(date2)
    requires IsValidDate(today1) && HasFourDigitYear(today1) && IsValidDate(today2) && HasFourDigitYear(today2)
    ensures StorageKeyForReminder(id1, date1, lead1, today1) == StorageKeyForReminder(id2, date2, lead2, today2) <==>
      id1 == id2 && date1 == date2 && lead1 == lead2 && today1 == today2
  {
    IsoDateColonFree(date1);
    IsoDateColonFree(date2);
    IsoDateColonFree(today1);
    IsoDateColonFree(today2);
    assert ColonFree(IntText(lead1)) && ColonFree(IntText(lead2));
    assert ColonFree(KeyPrefix);
    if StorageKeyForReminder(id1, date1, lead1, today1) == StorageKeyForReminder(id2, date2, lead2, today2) {
      FieldsSplit(KeyPrefix, id1, IsoDate(date1), IntText(lead1), IsoDate(today1),
                  id2, IsoDate(date2), IntText(lead2), IsoDate(today2));
      IsoDateInjective(date1, date2);
      IsoDateInjective(today1, today2);
      IntTextInjective(lead1, lead2);
    }
  }

  /** A prefix and four ':'-free fields joined by ':' determine the fields. */
  lemma FieldsSplit(p: string, a1: string, b1: string, c1: string, d1: string,
                    a2: string, b2: string, c2: string, d2: string)
    requires ColonFree(p) && ColonFree(a1) && ColonFree(b1) && ColonFree(c1)
    requires ColonFree(a2) && ColonFree(b2) && ColonFree(c2)
    requires p + ":" + a1 + ":" + b1 + ":" + c1 + ":" + d1 == p + ":" + a2 + ":" + b2 + ":" + c2 + ":" + d2
    ensures a1 == a2 && b1 == b2 && c1 == c2 && d1 == d2
  {
    assert p + ":" + a1 + ":" + b1 + ":" + c1 + ":" + d1 == p + ":" + (a1 + ":" + (b1 + ":" + (c1 + ":" + d1)));
    assert p + ":" + a2 + ":" + b2 + ":" + c2 + ":" + d2 == p + ":" + (a2 + ":" + (b2 + ":" + (c2 + ":" + d2)));
    ColonSplit(p, a1 + ":" + (b1 + ":" + (c1 + ":" + d1)), p, a2 + ":" + (b2 + ":" + (c2 + ":" + d2)));
    ColonSplit(a1, b1 + ":" + (c1 + ":" + d1), a2, b2 + ":" + (c2 + ":" + d2));
    ColonSplit(b1, c1 + ":" + d1, b2, c2 + ":" + d2);
    ColonSplit(c1, d1, c2, d2);
  }

  /** `if (localStorage.getItem(key))`: the key holds a non-empty value. */
  predicate IsMarked(items: map<string, string>, key: string) {
    key in items && items[key] != ""
  }

  /** The browser's localStorage, as far as the reminder markers use it. */
  class ReminderStore {
    var items: map<string, string>

    constructor(items0: map<string, string>)
      ensures items == items0
    {
      items := items0;
    }

    /** shouldDispatchReminder: true and marks the hit's key with "1" when the
        key is not marked yet; false and changes nothing when it is. */
    method ShouldDispatchReminder(hit: ReminderHit, today: Date) returns (dispatch: bool)
      modifies this
      ensures var key := StorageKeyForReminder(hit.subscription.id, hit.subscription.nextBillingDate, hit.daysBefore, today);
        dispatch == !IsMarked(old(items), key) &&
        items == (if dispatch then old(items)[key := "1"] else old(items)) &&
        IsMarked(items, key)
    {
      var key := StorageKeyForReminder(hit.subscription.id, hit.subscription.nextBillingDate, hit.daysBefore, today);
      if key in items && items[key] != "" {
        return false;
      }
      items := items[key := "1"];
      return true;
    }

    /** A reminder is dispatched at most once a day: the second of two calls
        for the same hit and day answers false and leaves the store as the
        first call left it. */
    method DispatchTwice(hit: ReminderHit, today: Date) returns (first: bool, second: bool)
      modifies this
      ensures !second
      ensures var key := StorageKeyForReminder(hit.subscription.id, hit.subscription.nextBillingDate, hit.daysBefore, today);
        first == !IsMarked(old(items), key) &&
        items == (if first then old(items)[key := "1"] else old(items))
    {
      first := ShouldDispatchReminder(hit, today);
      var afterFirst := items;
      second := ShouldDispatchReminder(hit, today);
      assert items == afterFirst;
    }
  }
}
