/**
 * The "YYYY-MM-DD" text of a date: how the engine writes a date
 * (`${year}-${pad2(month)}-${pad2(day)}`) and how it reads one back
 * (`split("-").map(Number)` on text the schema pattern ^\d{4}-\d{2}-\d{2}$ admits).
 */
module IsoText {
  import opened Gregorian
  import opened Text
  import opened Types

  function IsoDate(d: Date): string {
    IntText(d.year) + "-" + Pad2(d.month) + "-" + Pad2(d.day)
  }

  /** The years the schema's four-digit pattern can carry without a leading zero. */
  predicate HasFourDigitYear(d: Date) {
    1000 <= d.year <= 9999
  }

  predicate AllDigits(s: string) {
    forall i :: 0 <= i < |s| ==> IsDigit(s[i])
  }

  /** The date of a text matching \d{4}-\d{2}-\d{2}; None for any other text. */
  function ParseIso(s: string): (r: Option<Date>)
    ensures r.Some? <==> |s| == 10 && s[4] == '-' && s[7] == '-' && AllDigits(s[..4]) && AllDigits(s[5..7]) && AllDigits(s[8..])
  {
    if |s| == 10 && s[4] == '-' && s[7] == '-' && AllDigits(s[..4]) && AllDigits(s[5..7]) && AllDigits(s[8..])
    then Some(Date(DigitsValue(s[..4]), DigitsValue(s[5..7]), DigitsValue(s[8..])))
    else None
  }

  /** A valid date with a four-digit year is written as ten characters: fixed digits and two hyphens. */
  lemma IsoDateLayout(d: Date)
    requires IsValidDate(d) && HasFourDigitYear(d)
    ensures IsoDate(d) == FixedDigits(d.year, 4) + "-" + FixedDigits(d.month, 2) + "-" + FixedDigits(d.day, 2)
    ensures |IsoDate(d)| == 10
  {
    NatTextIsFixed(d.year, 4);
    Pad2IsFixed(d.month);
    Pad2IsFixed(d.day);
  }

  /** Writing a date and reading it back gives the same date. */
  lemma ParseIsoDate(d: Date)
    requires IsValidDate(d) && HasFourDigitYear(d)
    ensures ParseIso(IsoDate(d)) == Some(d)
  {
    IsoDateLayout(d);
    hide IsoDate, FixedDigits, DigitsValue;
    var s := IsoDate(d);
    assert s[..4] == FixedDigits(d.year, 4);
    assert s[5..7] == FixedDigits(d.month, 2);
    assert s[8..] == FixedDigits(d.day, 2);
    FixedDigitsValue(d.year, 4);
    FixedDigitsValue(d.month, 2);
    FixedDigitsValue(d.day, 2);
  }

  /** Fields the pattern \d{4}-\d{2}-\d{2} can carry: what reading stored text gives,
      calendar-valid or not. */
  predicate FitsIsoPattern(d: Date) {
    0 <= d.year <= 9999 && 0 <= d.month <= 99 && 0 <= d.day <= 99
  }

  /** The stored `YYYY-MM-DD` text whose fields are those of d. */
  function StoredIsoText(d: Date): (s: string)
    requires FitsIsoPattern(d)
    ensures |s| == 10
  {
    FixedDigits(d.year, 4) + "-" + FixedDigits(d.month, 2) + "-" + FixedDigits(d.day, 2)
  }

  /** Reading the stored text back gives its fields, calendar-valid or not. */
  lemma ParseStoredIsoText(d: Date)
    requires FitsIsoPattern(d)
    ensures ParseIso(StoredIsoText(d)) == Some(d)
  {
    hide FixedDigits, DigitsValue;
    var s := StoredIsoText(d);
    assert s[..4] == FixedDigits(d.year, 4);
    assert s[5..7] == FixedDigits(d.month, 2);
    assert s[8..] == FixedDigits(d.day, 2);
    FixedDigitsValue(d.year, 4);
    FixedDigitsValue(d.month, 2);
    FixedDigitsValue(d.day, 2);
  }

  /** Three equal-width fields joined by hyphens compare field by field. */
  lemma JoinedFieldsLess(ya: string, ma: string, da: string, yb: string, mb: string, db: string)
    requires |ya| == |yb| && |ma| == |mb|
    ensures StringLess(ya + "-" + ma + "-" + da, yb + "-" + mb + "-" + db) <==>
      StringLess(ya, yb) || (ya == yb && (StringLess(ma, mb) || (ma == mb && StringLess(da, db))))
  {
    assert ya + "-" + ma + "-" + da == ya + ("-" + (ma + ("-" + da)));
    assert yb + "-" + mb + "-" + db == yb + ("-" + (mb + ("-" + db)));
    StringLessAppend(ya, yb, "-" + (ma + ("-" + da)), "-" + (mb + ("-" + db)));
    StringLessAppend("-", "-", ma + ("-" + da), mb + ("-" + db));
    StringLessAppend(ma, mb, "-" + da, "-" + db);
    StringLessAppend("-", "-", da, db);
  }

  /** Distinct dates with a four-digit year have distinct texts. */
  lemma IsoDateInjective(a: Date, b: Date)
    requires IsValidDate(a) && HasFourDigitYear(a)
    requires IsValidDate(b) && HasFourDigitYear(b)
    ensures IsoDate(a) == IsoDate(b) <==> a == b
  {
    if IsoDate(a) == IsoDate(b) {
      ParseIsoDate(a);
      ParseIsoDate(b);
    }
  }

  /** For four-digit years the string `<` of two ISO texts is chronological order. */
  lemma IsoDateOrder(a: Date, b: Date)
    requires IsValidDate(a) && HasFourDigitYear(a)
    requires IsValidDate(b) && HasFourDigitYear(b)
    ensures StringLess(IsoDate(a), IsoDate(b)) <==> DayNumber(a) < DayNumber(b)
  {
    IsoDateLayout(a);
    IsoDateLayout(b);
    FixedDigitsOrder(a.year, b.year, 4);
    FixedDigitsOrder(a.month, b.month, 2);
    FixedDigitsOrder(a.day, b.day, 2);
    JoinedFieldsLess(FixedDigits(a.year, 4), FixedDigits(a.month, 2), FixedDigits(a.day, 2),
                     FixedDigits(b.year, 4), FixedDigits(b.month, 2), FixedDigits(b.day, 2));
    FieldsBeforeIsChronological(a, b);
  }
}
