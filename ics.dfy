/**
 * iCalendar export of one subscription (frontend/src/lib/ics.ts): a
 * VCALENDAR holding one recurring all-day VEVENT on the next billing date,
 * with one VALARM per positive reminder lead time. Text values are escaped
 * as section 3.3.11 of RFC 5545 requires, dates are written in the DATE form
 * of section 3.3.4 and lines are joined with CRLF. The DTSTAMP text, which
 * the source reads from the clock, is a parameter.
 */
module Ics {
  import opened Gregorian
  import opened Text
  import opened Types
  import opened IsoText
  import opened Seqs

  const Crlf: string := "\r\n"

  /** `s.replace(/c/g, r)`: every occurrence of c replaced by r. */
  function ReplaceAll(s: string, c: char, r: string): string {
    if s == [] then []
    else (if s[0] == c then r else [s[0]]) + ReplaceAll(s[1..], c, r)
  }

  /** cleanText: backslash first, then line feed, comma and semicolon. */
  function CleanText(value: string): string {
    ReplaceAll(ReplaceAll(ReplaceAll(ReplaceAll(value, '\\', "\\\\"), '\n', "\\n"), ',', "\\,"), ';', "\\;")
  }

  /** The escape of one character under section 3.3.11 of RFC 5545. */
  function EscapeChar(c: char): string {
    if c == '\\' then "\\\\"
    else if c == '\n' then "\\n"
    else if c == ',' then "\\,"
    else if c == ';' then "\\;"
    else [c]
  }

  /** Escaping character by character. */
  function Escape(s: string): string {
    if s == [] then [] else EscapeChar(s[0]) + Escape(s[1..])
  }

  /** The TEXT decoder of section 3.3.11 of RFC 5545: a backslash takes the
      next character literally, except that "\n" and "\N" stand for a line feed. */
  function Unescape(t: string): string {
    if t == [] then []
    else if t[0] == '\\' && |t| >= 2 then
      [if t[1] == 'n' || t[1] == 'N' then '\n' else t[1]] + Unescape(t[2..])
    else [t[0]] + Unescape(t[1..])
  }

  lemma {:induction false} ReplaceAllAppend(a: string, b: string, c: char, r: string)
    ensures ReplaceAll(a + b, c, r) == ReplaceAll(a, c, r) + ReplaceAll(b, c, r)
  {
    if a == [] {
      assert a + b == b;
    } else {
      assert (a + b)[1..] == a[1..] + b;
      ReplaceAllAppend(a[1..], b, c, r);
    }
  }

  /** Replacing a character that does not occur changes nothing. */
  lemma {:induction false} ReplaceAllAbsent(s: string, c: char, r: string)
    requires forall i :: 0 <= i < |s| ==> s[i] != c
    ensures ReplaceAll(s, c, r) == s
  {
    if s != [] {
      ReplaceAllAbsent(s[1..], c, r);
    }
  }

  /** Replacing c by the empty text removes every c and keeps the rest in order. */
  lemma {:induction false} RemoveAllAppend(a: string, b: string, c: char)
    ensures ReplaceAll(a + b, c, "") == ReplaceAll(a, c, "") + ReplaceAll(b, c, "")
  {
    ReplaceAllAppend(a, b, c, "");
  }

  lemma CleanChar(c: char)
    ensures CleanText([c]) == EscapeChar(c)
  {
    ReplaceAllSingle(c, '\\', "\\\\");
    var t1 := ReplaceAll([c], '\\', "\\\\");
    ReplaceAllAbsent2(t1, '\n', "\\n");
    var t2 := ReplaceAll(t1, '\n', "\\n");
    ReplaceAllAbsent2(t2, ',', "\\,");
    var t3 := ReplaceAll(t2, ',', "\\,");
    ReplaceAllAbsent2(t3, ';', "\\;");
  }

  lemma ReplaceAllSingle(c: char, d: char, r: string)
    ensures ReplaceAll([c], d, r) == if c == d then r else [c]
  {
    assert [c][1..] == [];
  }

  /** Replacing in a text of one or two characters, spelled out. */
  lemma ReplaceAllAbsent2(s: string, c: char, r: string)
    requires |s| <= 2
    ensures |s| == 1 ==> ReplaceAll(s, c, r) == (if s[0] == c then r else s)
    ensures |s| == 2 ==>
      ReplaceAll(s, c, r) == (if s[0] == c then r else [s[0]]) + (if s[1] == c then r else [s[1]])
  {
    if |s| == 2 {
      assert s[1..][1..] == [];
    } else if |s| == 1 {
      assert s[1..] == [];
    }
  }

  /** cleanText's four chained replacements escape each character on its own:
      backslash first keeps the later replacements from touching its output. */
  lemma {:induction false} CleanTextIsEscape(s: string)
    ensures CleanText(s) == Escape(s)
  {
    if s != [] {
      assert s == [s[0]] + s[1..];
      var a, b := [s[0]], s[1..];
      ReplaceAllAppend(a, b, '\\', "\\\\");
      ReplaceAllAppend(ReplaceAll(a, '\\', "\\\\"), ReplaceAll(b, '\\', "\\\\"), '\n', "\\n");
      ReplaceAllAppend(ReplaceAll(ReplaceAll(a, '\\', "\\\\"), '\n', "\\n"),
                       ReplaceAll(ReplaceAll(b, '\\', "\\\\"), '\n', "\\n"), ',', "\\,");
      ReplaceAllAppend(ReplaceAll(ReplaceAll(ReplaceAll(a, '\\', "\\\\"), '\n', "\\n"), ',', "\\,"),
                       ReplaceAll(ReplaceAll(ReplaceAll(b, '\\', "\\\\"), '\n', "\\n"), ',', "\\,"), ';', "\\;");
      CleanChar(s[0]);
      CleanTextIsEscape(b);
    }
  }

  lemma UnescapeEscapeChar(c: char, rest: string)
    ensures Unescape(EscapeChar(c) + rest) == [c] + Unescape(rest)
  {
    var e := EscapeChar(c) + rest;
    if c == '\\' || c == '\n' || c == ',' || c == ';' {
      assert e[2..] == rest;
    } else {
      assert e[1..] == rest;
    }
  }

  /** Decoding cleanText's output gives the original text back: the escaping
      loses nothing and escapes nothing twice. */
  lemma {:induction false} CleanTextRoundTrip(s: string)
    ensures Unescape(CleanText(s)) == s
  {
    CleanTextIsEscape(s);
    EscapeRoundTrip(s);
  }

  lemma {:induction false} EscapeRoundTrip(s: string)
    ensures Unescape(Escape(s)) == s
  {
    if s != [] {
      UnescapeEscapeChar(s[0], Escape(s[1..]));
      EscapeRoundTrip(s[1..]);
    }
  }

  /** cleanText never leaves a raw line feed, so a value stays on its content line. */
  lemma {:induction false} CleanTextHasNoLineFeed(s: string)
    ensures forall i :: 0 <= i < |CleanText(s)| ==> CleanText(s)[i] != '\n'
  {
    CleanTextIsEscape(s);
    EscapeHasNoLineFeed(s);
  }

  lemma {:induction false} EscapeHasNoLineFeed(s: string)
    ensures forall i :: 0 <= i < |Escape(s)| ==> Escape(s)[i] != '\n'
  {
    if s != [] {
      EscapeHasNoLineFeed(s[1..]);
      var e, r := EscapeChar(s[0]), Escape(s[1..]);
      assert forall i :: 0 <= i < |e| ==> e[i] != '\n';
      assert forall i :: 0 <= i < |e + r| ==> (e + r)[i] == if i < |e| then e[i] else r[i - |e|];
    }
  }

  /** isoToIcsDate: the ISO text of the date with every hyphen removed. */
  function IsoToIcsDate(d: Date): string {
    ReplaceAll(IsoDate(d), '-', "")
  }

  /** For a valid date with a four-digit year the ICS date is the eight
      digits YYYYMMDD of the DATE form, and different dates get different texts. */
  lemma IsoToIcsDateLayout(d: Date)
    requires IsValidDate(d) && HasFourDigitYear(d)
    ensures IsoToIcsDate(d) == FixedDigits(d.year, 4) + FixedDigits(d.month, 2) + FixedDigits(d.day, 2)
    ensures |IsoToIcsDate(d)| == 8
  {
    hide IsoDate, FixedDigits, ReplaceAll;
    IsoDateLayout(d);
    var y, m, day := FixedDigits(d.year, 4), FixedDigits(d.month, 2), FixedDigits(d.day, 2);
    ReplaceAllAbsent(y, '-', "");
    ReplaceAllAbsent(m, '-', "");
    ReplaceAllAbsent(day, '-', "");
    ReplaceAllSingle('-', '-', "");
    RemoveAllAppend(y + "-" + m + "-", day, '-');
    RemoveAllAppend(y + "-" + m, "-", '-');
    RemoveAllAppend(y + "-", m, '-');
    RemoveAllAppend(y, "-", '-');
  }

  lemma IsoToIcsDateInjective(a: Date, b: Date)
    requires IsValidDate(a) && HasFourDigitYear(a) && IsValidDate(b) && HasFourDigitYear(b)
    ensures IsoToIcsDate(a) == IsoToIcsDate(b) <==> a == b
  {
    IsoToIcsDateLayout(a);
    IsoToIcsDateLayout(b);
    if IsoToIcsDate(a) == IsoToIcsDate(b) {
      var s := IsoToIcsDate(a);
      FixedDigitsOrder(a.year, b.year, 4);
      FixedDigitsOrder(a.month, b.month, 2);
      FixedDigitsOrder(a.day, b.day, 2);
      assert s[..4] == FixedDigits(a.year, 4) == FixedDigits(b.year, 4);
      assert s[4..6] == FixedDigits(a.month, 2) == FixedDigits(b.month, 2);
      assert s[6..] == FixedDigits(a.day, 2) == FixedDigits(b.day, 2);
    }
  }

  /** recurrenceRule: the RRULE value for the billing cycle. */
  function RecurrenceRule(s: Subscription): string {
    match s.billingCycle
    case Weekly => "FREQ=WEEKLY;INTERVAL=1"
    case Monthly => "FREQ=MONTHLY;INTERVAL=1"
    case Yearly => "FREQ=YEARLY;INTERVAL=1"
    case CustomDays => "FREQ=DAILY;INTERVAL=" + IntText(IntervalDays(s))
  }

  /** The rule tells the cycles apart, and for custom cycles the interval
      (30 when none is given). */
  lemma RecurrenceRuleInjective(a: Subscription, b: Subscription)
    ensures RecurrenceRule(a) == RecurrenceRule(b) <==>
      a.billingCycle == b.billingCycle && (a.billingCycle == CustomDays ==> IntervalDays(a) == IntervalDays(b))
  {
    var ra, rb := RecurrenceRule(a), RecurrenceRule(b);
    if ra == rb {
      assert ra[5] == rb[5];
      if a.billingCycle == CustomDays {
        var p := "FREQ=DAILY;INTERVAL=";
        assert ra[..|p|] == p;
        assert ra[|p|..] == IntText(IntervalDays(a));
        assert rb[|p|..] == IntText(IntervalDays(b));
        IntTextInjective(IntervalDays(a), IntervalDays(b));
      }
    }
  }

  function IsPositive(days: int): bool {
    days > 0
  }

  /** The VALARM block for one lead time. */
  function AlarmBlock(name: string, days: int): string {
    Join(["BEGIN:VALARM", "TRIGGER:-P" + IntText(days) + "D", "ACTION:DISPLAY",
          "DESCRIPTION:" + CleanText("Upcoming charge: " + name), "END:VALARM"], Crlf)
  }

  /** One alarm block per positive lead time, in list order. */
  function Alarms(s: Subscription): (r: seq<string>)
    ensures |r| == |Filter(s.reminderDaysBefore, IsPositive)|
  {
    var leads := Filter(s.reminderDaysBefore, IsPositive);
    seq(|leads|, i requires 0 <= i < |leads| => AlarmBlock(s.name, leads[i]))
  }

  /** The alarm block written out line by line. */
  lemma AlarmBlockText(name: string, days: int)
    ensures AlarmBlock(name, days) ==
      "BEGIN:VALARM" + Crlf + "TRIGGER:-P" + IntText(days) + "D" + Crlf + "ACTION:DISPLAY" + Crlf +
      "DESCRIPTION:" + CleanText("Upcoming charge: " + name) + Crlf + "END:VALARM"
  {
    var parts := ["BEGIN:VALARM", "TRIGGER:-P" + IntText(days) + "D", "ACTION:DISPLAY",
                  "DESCRIPTION:" + CleanText("Upcoming charge: " + name), "END:VALARM"];
    assert parts[..4][..3][..2][..1] == [parts[0]];
    assert Join(parts[..4][..3][..2], Crlf) == parts[0] + Crlf + parts[1];
    assert Join(parts[..4][..3], Crlf) == parts[0] + Crlf + parts[1] + Crlf + parts[2];
    assert Join(parts[..4], Crlf) == parts[0] + Crlf + parts[1] + Crlf + parts[2] + Crlf + parts[3];
  }

  /** Alarm i is the VALARM block of the i-th positive lead time, taken in list
      order; its TRIGGER is the negative duration of that many days (section
      3.3.6 of RFC 5545). */
  lemma AlarmsFollowLeads(s: Subscription)
    ensures var leads := Filter(s.reminderDaysBefore, IsPositive);
      forall i :: 0 <= i < |Alarms(s)| ==>
        leads[i] > 0 && leads[i] in s.reminderDaysBefore &&
        Alarms(s)[i] ==
          "BEGIN:VALARM" + Crlf + "TRIGGER:-P" + IntText(leads[i]) + "D" + Crlf + "ACTION:DISPLAY" + Crlf +
          "DESCRIPTION:" + CleanText("Upcoming charge: " + s.name) + Crlf + "END:VALARM"
  {
    var leads := Filter(s.reminderDaysBefore, IsPositive);
    forall i | 0 <= i < |Alarms(s)|
      ensures leads[i] > 0 && leads[i] in s.reminderDaysBefore
      ensures Alarms(s)[i] ==
          "BEGIN:VALARM" + Crlf + "TRIGGER:-P" + IntText(leads[i]) + "D" + Crlf + "ACTION:DISPLAY" + Crlf +
          "DESCRIPTION:" + CleanText("Upcoming charge: " + s.name) + Crlf + "END:VALARM"
    {
      assert leads[i] in leads;
      AlarmBlockText(s.name, leads[i]);
    }
  }

  /** A zero lead time gets no alarm: with lead times [0, 3] there is one
      alarm, for three days. */
  lemma AlarmsExample(s: Subscription)
    requires s.reminderDaysBefore == [0, 3]
    ensures Alarms(s) == [AlarmBlock(s.name, 3)]
    ensures Reminders(s) == AlarmBlock(s.name, 3)
  {
    hide Filter, AlarmBlock, Join;
    FilterAppend([0], [3], IsPositive);
    FilterSingle(0, IsPositive);
    FilterSingle(3, IsPositive);
    assert [0] + [3] == s.reminderDaysBefore;
    assert Filter(s.reminderDaysBefore, IsPositive) == [3];
  }

  /** The reminders entry of the event: the alarm blocks joined by CRLF. */
  function Reminders(s: Subscription): string {
    Join(Alarms(s), Crlf)
  }

  function NonEmpty(line: string): bool {
    line != ""
  }

  /** The event lines before the reminders entry. */
  function HeadLines(s: Subscription, stamp: string): seq<string> {
    ["BEGIN:VCALENDAR",
     "VERSION:2.0",
     "PRODID:-//Pulseboard//Subscription Tracker//EN",
     "CALSCALE:GREGORIAN",
     "BEGIN:VEVENT",
     "UID:" + s.id + "@pulseboard.local",
     "DTSTAMP:" + stamp,
     "DTSTART;VALUE=DATE:" + IsoToIcsDate(s.nextBillingDate),
     "RRULE:" + RecurrenceRule(s),
     "SUMMARY:" + CleanText(s.name + " renewal"),
     "DESCRIPTION:" + CleanText(s.notes.GetOr("Subscription renewal"))]
  }

  const TailLines: seq<string> := ["END:VEVENT", "END:VCALENDAR"]

  /** generateSubscriptionIcs: the lines with empty entries dropped, joined by
      CRLF and ended by CRLF. */
  function GenerateSubscriptionIcs(s: Subscription, stamp: string): string {
    Join(Filter(HeadLines(s, stamp) + [Reminders(s)] + TailLines, NonEmpty), Crlf) + Crlf
  }

  /** The reminders entry is empty exactly when no lead time is positive. */
  lemma RemindersEmpty(s: Subscription)
    ensures Reminders(s) == "" <==> forall i :: 0 <= i < |s.reminderDaysBefore| ==> s.reminderDaysBefore[i] <= 0
  {
    var leads := Filter(s.reminderDaysBefore, IsPositive);
    if leads == [] {
      forall i | 0 <= i < |s.reminderDaysBefore| ensures s.reminderDaysBefore[i] <= 0 {
        assert s.reminderDaysBefore[i] in s.reminderDaysBefore;
      }
    } else {
      assert leads[0] in leads;
      var alarms := Alarms(s);
      JoinNonEmpty(alarms, Crlf);
    }
  }

  lemma {:induction false} JoinNonEmpty(parts: seq<string>, sep: string)
    requires parts != [] && sep != []
    requires forall i :: 0 <= i < |parts| ==> parts[i] != []
    ensures Join(parts, sep) != []
  {
  }

  /** The lines that filter(Boolean) keeps: all of them but the reminders entry
      when it is empty. */
  function KeptLines(s: Subscription, stamp: string): seq<string> {
    HeadLines(s, stamp) + (if Reminders(s) == "" then [] else [Reminders(s)]) + TailLines
  }

  lemma HeadLinesNonEmpty(s: Subscription, stamp: string)
    ensures forall i :: 0 <= i < |HeadLines(s, stamp)| ==> NonEmpty(HeadLines(s, stamp)[i])
  {
    hide CleanText, IsoToIcsDate, RecurrenceRule;
  }

  lemma KeptLinesAreFilter(s: Subscription, stamp: string)
    ensures Filter(HeadLines(s, stamp) + [Reminders(s)] + TailLines, NonEmpty) == KeptLines(s, stamp)
  {
    HeadLinesNonEmpty(s, stamp);
    hide CleanText, IsoToIcsDate, RecurrenceRule, Reminders, Filter, HeadLines;
    var head := HeadLines(s, stamp);
    FilterAppend(head + [Reminders(s)], TailLines, NonEmpty);
    FilterAppend(head, [Reminders(s)], NonEmpty);
    FilterAll(head, NonEmpty);
    FilterAll(TailLines, NonEmpty);
    FilterSingle(Reminders(s), NonEmpty);
  }

  /** The calendar text is its kept entries joined with CRLF, plus a final
      CRLF. No entry is empty. The first entry is BEGIN:VCALENDAR and the last
      two are END:VEVENT and END:VCALENDAR, and the subscription's UID,
      DTSTART and RRULE entries are in place. There are 14 entries when some
      lead time is positive and 13 otherwise: all the alarm blocks together
      form the one entry before END:VEVENT, itself several CRLF-separated
      lines. */
  lemma IcsLayout(s: Subscription, stamp: string)
    ensures var lines := KeptLines(s, stamp);
      GenerateSubscriptionIcs(s, stamp) == Join(lines, Crlf) + Crlf &&
      (forall i :: 0 <= i < |lines| ==> lines[i] != "") &&
      lines[0] == "BEGIN:VCALENDAR" &&
      lines[5] == "UID:" + s.id + "@pulseboard.local" &&
      lines[7] == "DTSTART;VALUE=DATE:" + IsoToIcsDate(s.nextBillingDate) &&
      lines[8] == "RRULE:" + RecurrenceRule(s) &&
      lines[|lines| - 2] == "END:VEVENT" && lines[|lines| - 1] == "END:VCALENDAR" &&
      (|lines| == 14 <==> exists i :: 0 <= i < |s.reminderDaysBefore| && s.reminderDaysBefore[i] > 0) &&
      (|lines| == 13 <==> forall i :: 0 <= i < |s.reminderDaysBefore| ==> s.reminderDaysBefore[i] <= 0)
  {
    KeptLinesAreFilter(s, stamp);
    RemindersEmpty(s);
    hide CleanText, IsoToIcsDate, RecurrenceRule, Filter, Join;
  }

  /** The text starts with the BEGIN:VCALENDAR line and ends with the
      END:VCALENDAR line and CRLF. */
  lemma IcsEnds(s: Subscription, stamp: string)
    ensures var text := GenerateSubscriptionIcs(s, stamp);
      exists middle :: text == "BEGIN:VCALENDAR" + Crlf + middle + Crlf + "END:VCALENDAR" + Crlf
  {
    IcsLayout(s, stamp);
    hide CleanText, IsoToIcsDate, RecurrenceRule, Filter, Reminders;
    var lines := KeptLines(s, stamp);
    var inner := lines[1..|lines| - 1];
    assert lines == [lines[0]] + inner + [lines[|lines| - 1]];
    JoinAppend([lines[0]], inner, Crlf);
    JoinAppend([lines[0]] + inner, [lines[|lines| - 1]], Crlf);
    var middle := Join(inner, Crlf);
    assert GenerateSubscriptionIcs(s, stamp) == "BEGIN:VCALENDAR" + Crlf + middle + Crlf + "END:VCALENDAR" + Crlf;
  }
}
