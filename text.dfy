/**
 * The string operations the bot layer relies on: `String.toLowerCase()`,
 * `String.equalsIgnoreCase`, `String.contains` and `Long.toString()`.
 *
 * Case mapping covers the letters this program's texts and commands use:
 * basic Latin A-Z and the Cyrillic block U+0400-U+045F (А-Я with а-я, and
 * Ѐ-Џ with ѐ-џ, which includes Ё/ё). Every other character maps to itself.
 */
module Text {
  import opened Basics

  /** `Character.toLowerCase` on the covered letters. */
  function LowerChar(c: char): char {
    if 'A' <= c <= 'Z' then (c as int + 32) as char
    else if 'А' <= c <= 'Я' then (c as int + 32) as char
    else if 'Ѐ' <= c <= 'Џ' then (c as int + 0x50) as char
    else c
  }

  /** `Character.toUpperCase` on the covered letters. */
  function UpperChar(c: char): char {
    if 'a' <= c <= 'z' then (c as int - 32) as char
    else if 'а' <= c <= 'я' then (c as int - 32) as char
    else if 'ѐ' <= c <= 'џ' then (c as int - 0x50) as char
    else c
  }

  /** `s.toLowerCase()`, character by character. */
  function Lower(s: string): (r: string)
    ensures |r| == |s| && forall i :: 0 <= i < |s| ==> r[i] == LowerChar(s[i])
  {
    seq(|s|, i requires 0 <= i < |s| => LowerChar(s[i]))
  }

  /**
   * The per-character rule of `String.equalsIgnoreCase`: equal, or equal
   * after upper-casing, or equal after upper- then lower-casing.
   */
  predicate SameIgnoringCase(x: char, y: char) {
    x == y || UpperChar(x) == UpperChar(y) || LowerChar(UpperChar(x)) == LowerChar(UpperChar(y))
  }

  /** `a.equalsIgnoreCase(b)`: same length and every position matches ignoring case. */
  predicate EqualsIgnoreCase(a: string, b: string) {
    |a| == |b| && forall i :: 0 <= i < |a| ==> SameIgnoringCase(a[i], b[i])
  }

  /** Two characters match ignoring case exactly when they have the same lower-case form. */
  lemma SameIgnoringCaseIsSameLower(x: char, y: char)
    ensures SameIgnoringCase(x, y) <==> LowerChar(x) == LowerChar(y)
  {
  }

  /**
   * `a.equalsIgnoreCase(b)` holds exactly when `a.toLowerCase()` equals
   * `b.toLowerCase()`: the two ways the program compares user input agree.
   */
  lemma EqualsIgnoreCaseIffSameLower(a: string, b: string)
    ensures EqualsIgnoreCase(a, b) <==> Lower(a) == Lower(b)
  {
    if |a| == |b| {
      forall i | 0 <= i < |a|
        ensures SameIgnoringCase(a[i], b[i]) <==> Lower(a)[i] == Lower(b)[i]
      {
        SameIgnoringCaseIsSameLower(a[i], b[i]);
      }
      if Lower(a) == Lower(b) {
        assert forall i :: 0 <= i < |a| ==> Lower(a)[i] == Lower(b)[i];
      }
    } else {
      assert |Lower(a)| != |Lower(b)|;
    }
  }

  /** Lower-casing is idempotent. */
  lemma LowerIdempotent(s: string)
    ensures Lower(Lower(s)) == Lower(s)
  {
    assert forall i :: 0 <= i < |s| ==> LowerChar(LowerChar(s[i])) == LowerChar(s[i]);
  }

  /** `p` is a prefix of `s`. */
  predicate StartsWith(s: string, p: string) {
    |p| <= |s| && s[..|p|] == p
  }

  /** `s.contains(t)`: `t` starts at some position of `s`. */
  predicate Contains(s: string, t: string)
    decreases |s|
  {
    StartsWith(s, t) || (|s| > 0 && Contains(s[1..], t))
  }

  /** A string contains every piece it is concatenated from, wherever the piece sits. */
  lemma {:induction false} ContainsPiece(a: string, t: string, b: string)
    ensures Contains(a + t + b, t)
    decreases |a|
  {
    if a == [] {
      assert a + t + b == t + b;
      assert (t + b)[..|t|] == t;
    } else {
      ContainsPiece(a[1..], t, b);
      assert (a + t + b)[1..] == a[1..] + t + b;
    }
  }

  /** A string contains its own prefix. */
  lemma ContainsPrefix(t: string, b: string)
    ensures Contains(t + b, t)
  {
    ContainsPiece([], t, b);
    assert [] + t + b == t + b;
  }

  /** `p + m + q + r` contains both `p` and `q`. */
  lemma ContainsFirstAndThird(p: string, m: string, q: string, r: string)
    ensures Contains(p + m + q + r, p) && Contains(p + m + q + r, q)
  {
    ContainsPiece([], p, m + q + r);
    assert [] + p + (m + q + r) == p + m + q + r;
    ContainsPiece(p + m, q, r);
  }

  // ---------------------------------------------------------------------------
  // Long.toString

  function DigitChar(d: nat): char
    requires d < 10
  {
    ('0' as int + d) as char
  }

  predicate IsDigit(c: char) {
    '0' <= c <= '9'
  }

  /** The decimal digits of `n`, most significant first, without leading zeros. */
  function Digits(n: nat): (s: string)
    ensures |s| > 0 && forall i :: 0 <= i < |s| ==> IsDigit(s[i])
    ensures (s[0] == '0') <==> n == 0
    decreases n
  {
    if n < 10 then [DigitChar(n)] else Digits(n / 10) + [DigitChar(n % 10)]
  }

  /** `Long.toString(n)`: a minus sign for negative values, then the digits of the magnitude. */
  function DecimalString(n: int): string {
    if n < 0 then "-" + Digits(-n) else Digits(n)
  }

  /** The value of a string of decimal digits. */
  function DigitsValue(s: string): nat
    requires forall i :: 0 <= i < |s| ==> IsDigit(s[i])
    decreases |s|
  {
    if s == [] then 0
    else
      assert IsDigit(s[|s| - 1]);
      DigitsValue(s[..|s| - 1]) * 10 + (s[|s| - 1] as int - '0' as int)
  }

  /** Reads back an optional minus sign followed by decimal digits; `None` for any other string. */
  function ParseDecimal(s: string): Option<int> {
    if |s| > 1 && s[0] == '-' && forall i :: 1 <= i < |s| ==> IsDigit(s[i]) then
      var magnitude: int := DigitsValue(s[1..]);
      Some(-magnitude)
    else if |s| > 0 && forall i :: 0 <= i < |s| ==> IsDigit(s[i]) then
      Some(DigitsValue(s))
    else None
  }

  lemma {:induction false} DigitsValueOfDigits(n: nat)
    ensures DigitsValue(Digits(n)) == n
    decreases n
  {
    if n >= 10 {
      DigitsValueOfDigits(n / 10);
      var s := Digits(n);
      assert s[..|s| - 1] == Digits(n / 10);
    }
  }

  /** Rendering a chat id and parsing it back gives the chat id. */
  lemma ParseDecimalString(n: int)
    ensures ParseDecimal(DecimalString(n)) == Some(n)
  {
    if n < 0 {
      var s := DecimalString(n);
      assert s[1..] == Digits(-n);
      DigitsValueOfDigits(-n);
    } else {
      DigitsValueOfDigits(n);
    }
  }

  /** Distinct chat ids are rendered as distinct strings. */
  lemma DecimalStringInjective(a: int, b: int)
    ensures DecimalString(a) == DecimalString(b) ==> a == b
  {
    ParseDecimalString(a);
    ParseDecimalString(b);
  }
}
