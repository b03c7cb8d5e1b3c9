/**
 * The string operations of JavaScript that the engine uses: the decimal text
 * of an integer (`String(n)`, template literals), `padStart(2, "0")`,
 * `Array.prototype.join`, the `<` comparison of strings and the reading of a
 * run of decimal digits (`Number` on digit text).
 */
module Text {

  predicate IsDigit(c: char) {
    '0' <= c <= '9'
  }

  /** The digit character for 0..9. */
  function DigitChar(n: int): (c: char)
    requires 0 <= n <= 9
    ensures IsDigit(c)
  {
    ('0' as int + n) as char
  }

  function DigitValue(c: char): (n: int)
    requires IsDigit(c)
    ensures 0 <= n <= 9 && DigitChar(n) == c
  {
    c as int - '0' as int
  }

  function Pow10(w: nat): (p: nat)
    ensures p >= 1
  {
    if w == 0 then 1 else 10 * Pow10(w - 1)
  }

  /** String(n) for a non-negative integer: its decimal digits without leading zeros. */
  function NatText(n: nat): (s: string)
    ensures |s| >= 1
    ensures forall i :: 0 <= i < |s| ==> IsDigit(s[i])
  {
    if n < 10 then [DigitChar(n)] else NatText(n / 10) + [DigitChar(n % 10)]
  }

  /** String(n) for any integer: a minus sign before the digits of a negative number. */
  function IntText(n: int): (s: string)
    ensures |s| >= 1
    ensures forall i :: 0 <= i < |s| ==> IsDigit(s[i]) || s[i] == '-'
  {
    if n < 0 then "-" + NatText(-n) else NatText(n)
  }

  /** String(n).padStart(2, "0"). */
  function Pad2(n: int): string {
    var t := IntText(n);
    if |t| < 2 then "0" + t else t
  }

  /** The w low-order decimal digits of n, with leading zeros. */
  function FixedDigits(n: nat, w: nat): (s: string)
    ensures |s| == w
    ensures forall i :: 0 <= i < |s| ==> IsDigit(s[i])
  {
    if w == 0 then [] else FixedDigits(n / 10, w - 1) + [DigitChar(n % 10)]
  }

  /** Number(s) for a string of decimal digits. */
  function DigitsValue(s: string): (n: nat)
    requires forall i :: 0 <= i < |s| ==> IsDigit(s[i])
  {
    if s == [] then 0 else 10 * DigitsValue(s[..|s| - 1]) + DigitValue(s[|s| - 1])
  }

  /** JavaScript's `<` on strings: lexicographic by character, a proper prefix first. */
  predicate StringLess(a: string, b: string) {
    if a == [] then b != []
    else b != [] && (a[0] < b[0] || (a[0] == b[0] && StringLess(a[1..], b[1..])))
  }

  /** parts.join(sep). */
  function Join(parts: seq<string>, sep: string): (s: string)
    ensures parts == [] ==> s == []
    ensures |parts| == 1 ==> s == parts[0]
  {
    if parts == [] then []
    else if |parts| == 1 then parts[0]
    else Join(parts[..|parts| - 1], sep) + sep + parts[|parts| - 1]
  }

  /** Joining two non-empty lists one after the other puts one separator between their joins. */
  lemma {:induction false} JoinAppend(a: seq<string>, b: seq<string>, sep: string)
    requires a != [] && b != []
    ensures Join(a + b, sep) == Join(a, sep) + sep + Join(b, sep)
    decreases |b|
  {
    var init, last := b[..|b| - 1], b[|b| - 1];
    assert a + b == (a + init) + [last];
    if init == [] {
      assert a + init == a;
      JoinSnoc(a, last, sep);
    } else {
      assert b == init + [last];
      hide Join;
      JoinSnoc(a + init, last, sep);
      JoinSnoc(init, last, sep);
      JoinAppend(a, init, sep);
    }
  }

  /** Joining with one more part adds a separator and the part. */
  lemma JoinSnoc(parts: seq<string>, x: string, sep: string)
    requires parts != []
    ensures Join(parts + [x], sep) == Join(parts, sep) + sep + x
  {
    assert (parts + [x])[..|parts|] == parts;
  }

  /** Reading back the digits of n gives n: the decimal text is a faithful encoding. */
  lemma {:induction false} NatTextValue(n: nat)
    ensures DigitsValue(NatText(n)) == n
  {
    if n >= 10 {
      var s := NatText(n);
      assert s[..|s| - 1] == NatText(n / 10);
      NatTextValue(n / 10);
    }
  }

  lemma NatTextInjective(n: nat, m: nat)
    requires NatText(n) == NatText(m)
    ensures n == m
  {
    NatTextValue(n);
    NatTextValue(m);
  }

  /** Distinct integers have distinct texts. */
  lemma IntTextInjective(n: int, m: int)
    requires IntText(n) == IntText(m)
    ensures n == m
  {
    assert IntText(n)[0] == '-' <==> n < 0;
    assert IntText(m)[0] == '-' <==> m < 0;
    if n < 0 {
      assert NatText(-n) == IntText(n)[1..];
      NatTextInjective(-n, -m);
    } else {
      NatTextInjective(n, m);
    }
  }

  /** A number with exactly w digits is written as its w fixed digits. */
  lemma {:induction false} NatTextIsFixed(n: nat, w: nat)
    requires 1 <= w && Pow10(w - 1) <= n < Pow10(w)
    ensures NatText(n) == FixedDigits(n, w)
  {
    if w == 1 {
      assert FixedDigits(n, 1) == FixedDigits(n / 10, 0) + [DigitChar(n % 10)];
    } else {
      NatTextIsFixed(n / 10, w - 1);
    }
  }

  lemma {:induction false} FixedDigitsValue(n: nat, w: nat)
    requires n < Pow10(w)
    ensures DigitsValue(FixedDigits(n, w)) == n
  {
    if w > 0 {
      var s := FixedDigits(n, w);
      assert s[..|s| - 1] == FixedDigits(n / 10, w - 1);
      FixedDigitsValue(n / 10, w - 1);
    }
  }

  /** Two-digit padding of 0..99 is the two fixed digits. */
  lemma Pad2IsFixed(n: int)
    requires 0 <= n <= 99
    ensures Pad2(n) == FixedDigits(n, 2)
  {
    if n < 10 {
      assert FixedDigits(n, 2) == FixedDigits(0, 1) + [DigitChar(n)];
      assert FixedDigits(0, 1) == [DigitChar(0)];
    } else {
      NatTextIsFixed(n, 2);
    }
  }

  /** Comparing equal-length prefixes first decides the comparison of two concatenations. */
  lemma {:induction false} StringLessAppend(a: string, b: string, c: string, d: string)
    requires |a| == |b|
    ensures StringLess(a + c, b + d) == (StringLess(a, b) || (a == b && StringLess(c, d)))
  {
    if a == [] {
      assert a + c == c && b + d == d;
    } else {
      assert (a + c)[1..] == a[1..] + c;
      assert (b + d)[1..] == b[1..] + d;
      StringLessAppend(a[1..], b[1..], c, d);
      if a[0] == b[0] && a[1..] == b[1..] {
        assert a == b;
      }
    }
  }

  /** Fixed-width digit strings compare as the numbers they write. */
  lemma {:induction false} FixedDigitsOrder(n: nat, m: nat, w: nat)
    requires n < Pow10(w) && m < Pow10(w)
    ensures StringLess(FixedDigits(n, w), FixedDigits(m, w)) <==> n < m
    ensures FixedDigits(n, w) == FixedDigits(m, w) <==> n == m
  {
    if w > 0 {
      FixedDigitsOrder(n / 10, m / 10, w - 1);
      StringLessAppend(FixedDigits(n / 10, w - 1), FixedDigits(m / 10, w - 1),
                       [DigitChar(n % 10)], [DigitChar(m % 10)]);
      var s, t := FixedDigits(n, w), FixedDigits(m, w);
      if s == t {
        assert s[..w - 1] == FixedDigits(n / 10, w - 1) && t[..w - 1] == FixedDigits(m / 10, w - 1);
        assert s[w - 1] == DigitChar(n % 10) && t[w - 1] == DigitChar(m % 10);
      }
    }
  }
}
