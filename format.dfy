/**
 * Display labels (frontend/src/lib/format.ts): the relative due text of a
 * renewal and the title-cased labels of categories and billing cycles.
 * `formatCurrencyMinor` goes through Intl.NumberFormat and is not modelled.
 */
module Format {
  import opened Text
  import opened Types

  /** formatRelativeDue */
  function FormatRelativeDue(days: int): string {
    if days == 0 then "Due today"
    else if days == 1 then "Due tomorrow"
    else "Due in " + IntText(days) + " days"
  }

  /** Different day counts read differently, negative ones included: the
      label loses nothing of the count. */
  lemma FormatRelativeDueInjective(a: int, b: int)
    ensures FormatRelativeDue(a) == FormatRelativeDue(b) <==> a == b
  {
    var ra, rb := FormatRelativeDue(a), FormatRelativeDue(b);
    if ra == rb && a != b {
      if a != 0 && a != 1 && b != 0 && b != 1 {
        assert ra[7..|ra| - 5] == IntText(a);
        assert rb[7..|rb| - 5] == IntText(b);
        IntTextInjective(a, b);
      }
    }
  }

  /** `\w` of a regular expression: an ASCII letter, digit or underscore. */
  predicate IsWordChar(c: char) {
    'a' <= c <= 'z' || 'A' <= c <= 'Z' || '0' <= c <= '9' || c == '_'
  }

  /** toUpperCase of one character matched by `\w`. */
  function Upper(c: char): char {
    if 'a' <= c <= 'z' then (c as int - 'a' as int + 'A' as int) as char else c
  }

  /** Character i starts a word: a `\w` character at a `\b` boundary. */
  predicate StartsWord(s: string, i: int)
    requires 0 <= i < |s|
  {
    IsWordChar(s[i]) && (i == 0 || !IsWordChar(s[i - 1]))
  }

  /** `.replace(/\b\w/g, (character) => character.toUpperCase())` */
  function CapitalizeWords(s: string): (r: string)
    ensures |r| == |s|
  {
    seq(|s|, i requires 0 <= i < |s| => if StartsWord(s, i) then Upper(s[i]) else s[i])
  }

  /** `.replace("_", " ")`: only the first underscore becomes a space. */
  function ReplaceFirstUnderscore(s: string): (r: string)
    ensures |r| == |s|
  {
    if s == [] then []
    else if s[0] == '_' then " " + s[1..]
    else [s[0]] + ReplaceFirstUnderscore(s[1..])
  }

  /** The shared label rule of categoryLabel and billingCycleLabel. */
  function TitleLabel(value: string): string {
    CapitalizeWords(ReplaceFirstUnderscore(value))
  }

  /** categoryLabel */
  function CategoryLabel(c: Category): string {
    TitleLabel(CategoryName(c))
  }

  /** billingCycleLabel */
  function BillingCycleLabel(value: string): string {
    if value == "custom_days" then "Custom (days)" else TitleLabel(value)
  }

  /** Upper-casing keeps word characters word characters, so word starts stay where they are. */
  lemma UpperKeepsWordChar(c: char)
    ensures IsWordChar(Upper(c)) <==> IsWordChar(c)
    ensures Upper(Upper(c)) == Upper(c)
  {
  }

  /** Capitalising moves no word boundary: the result starts its words where
      the input does, so capitalising twice is capitalising once. */
  lemma CapitalizeWordsFacts(s: string)
    ensures forall i :: 0 <= i < |s| ==> (StartsWord(CapitalizeWords(s), i) <==> StartsWord(s, i))
    ensures CapitalizeWords(CapitalizeWords(s)) == CapitalizeWords(s)
  {
    var r := CapitalizeWords(s);
    forall i | 0 <= i < |s| ensures StartsWord(r, i) <==> StartsWord(s, i) {
      UpperKeepsWordChar(s[i]);
      if i > 0 {
        UpperKeepsWordChar(s[i - 1]);
      }
    }
    forall i | 0 <= i < |s| ensures CapitalizeWords(r)[i] == r[i] {
      UpperKeepsWordChar(s[i]);
    }
  }

  /** No underscore before position i. */
  predicate NoUnderscoreBefore(s: string, i: int)
    requires 0 <= i <= |s|
  {
    forall j :: 0 <= j < i ==> s[j] != '_'
  }

  /** The first underscore, if any, becomes a space and nothing else changes. */
  lemma {:induction false} ReplaceFirstUnderscoreFacts(s: string)
    ensures forall i :: 0 <= i < |s| ==>
      ReplaceFirstUnderscore(s)[i] == (if s[i] == '_' && NoUnderscoreBefore(s, i) then ' ' else s[i])
  {
    if s != [] {
      var t := s[1..];
      ReplaceFirstUnderscoreFacts(t);
      var r := ReplaceFirstUnderscore(s);
      forall i | 0 <= i < |s|
        ensures r[i] == (if s[i] == '_' && NoUnderscoreBefore(s, i) then ' ' else s[i])
      {
        if i > 0 && s[0] != '_' {
          assert r[i] == ReplaceFirstUnderscore(t)[i - 1];
          assert t[i - 1] == s[i];
          assert NoUnderscoreBefore(s, i) <==> NoUnderscoreBefore(t, i - 1) by {
            if NoUnderscoreBefore(t, i - 1) {
              forall j | 0 <= j < i ensures s[j] != '_' {
                if j > 0 { assert s[j] == t[j - 1]; }
              }
            }
            if NoUnderscoreBefore(s, i) {
              forall j | 0 <= j < i - 1 ensures t[j] != '_' {
                assert t[j] == s[j + 1];
              }
            }
          }
        } else if i > 0 {
          assert !NoUnderscoreBefore(s, i) by { assert s[0] == '_'; }
        }
      }
    }
  }

  /** A single lower-case word is labelled by upper-casing its first letter. */
  lemma LowerWordLabel(w: string)
    requires w != [] && forall i :: 0 <= i < |w| ==> 'a' <= w[i] <= 'z'
    ensures TitleLabel(w) == [Upper(w[0])] + w[1..]
  {
    ReplaceFirstUnderscoreFacts(w);
    assert ReplaceFirstUnderscore(w) == w;
    assert forall i :: 1 <= i < |w| ==> !StartsWord(w, i);
  }

  /** Every category is labelled by its wire value with the first letter
      upper-cased: "entertainment" is shown as "Entertainment". */
  lemma CategoryLabelIsCapitalisedName(c: Category)
    ensures CategoryLabel(c) == [Upper(CategoryName(c)[0])] + CategoryName(c)[1..]
  {
    hide TitleLabel;
    match c
    case Entertainment => LowerWordLabel("entertainment");
    case Productivity => LowerWordLabel("productivity");
    case Utilities => LowerWordLabel("utilities");
    case Health => LowerWordLabel("health");
    case Other => LowerWordLabel("other");
  }

  /** The billing cycle labels: the custom cycle has its own text, where the
      general rule would have given "Custom Days"; the others are the
      capitalised wire value. */
  lemma BillingCycleLabels()
    ensures BillingCycleLabel(CycleName(Weekly)) == "Weekly"
    ensures BillingCycleLabel(CycleName(Monthly)) == "Monthly"
    ensures BillingCycleLabel(CycleName(Yearly)) == "Yearly"
    ensures BillingCycleLabel(CycleName(CustomDays)) == "Custom (days)"
    ensures TitleLabel("custom_days") == "Custom Days"
  {
    hide TitleLabel;
    LowerWordLabel("weekly");
    LowerWordLabel("monthly");
    LowerWordLabel("yearly");
    CustomDaysTitle();
  }

  lemma CustomDaysTitle()
    ensures TitleLabel("custom_days") == "Custom Days"
  {
    CustomDaysSpaced();
    var t := "custom days";
    hide ReplaceFirstUnderscore;
    var r := CapitalizeWords(t);
    forall i | 0 <= i < |t| ensures r[i] == "Custom Days"[i] {
      if i == 0 || i == 7 {
        assert StartsWord(t, i);
      } else {
        assert !StartsWord(t, i);
      }
    }
  }

  lemma CustomDaysSpaced()
    ensures ReplaceFirstUnderscore("custom_days") == "custom days"
  {
    hide ReplaceFirstUnderscore;
    var s := "custom_days";
    ReplaceFirstUnderscoreFacts(s);
    var t := ReplaceFirstUnderscore(s);
    forall i | 0 <= i < |s| ensures t[i] == "custom days"[i] {
      if i == 6 {
        assert NoUnderscoreBefore(s, 6);
      }
    }
  }
}
