/**
 * Money amounts as PHP's `number_format($x, 2, $point, $thousands)` prints
 * them, and as PHP reads such a string back when it is used as a number.
 *
 * An amount is a real; it is first rounded to whole cents (half away from
 * zero), then the cents are written out with exactly two fraction digits,
 * `.` as the decimal point and a chosen thousands separator.
 *
 * The formatting functions carry no quantified postconditions; what they
 * guarantee is stated by the lemmas beside them, so that callers that only
 * pass a formatted amount along do not pay for its properties.
 */
module Amounts {
  import opened Wrappers

  /** Rounds `x` to whole cents, halves away from zero. */
  function RoundCents(x: real): int {
    if x >= 0.0 then (x * 100.0 + 0.5).Floor else -((-x * 100.0 + 0.5).Floor)
  }

  /**
   * The rounded cents are within half a cent of `x`; a tie goes up for a
   * non-negative amount and down for a negative one.
   */
  lemma RoundCentsBounds(x: real)
    ensures x >= 0.0 ==> x * 100.0 - 0.5 < RoundCents(x) as real <= x * 100.0 + 0.5
    ensures x < 0.0 ==> x * 100.0 - 0.5 <= RoundCents(x) as real < x * 100.0 + 0.5
  {
  }

  predicate IsDigit(c: char) {
    '0' <= c <= '9'
  }

  predicate AllDigits(s: string) {
    forall i :: 0 <= i < |s| ==> IsDigit(s[i])
  }

  function DigitChar(d: nat): (c: char)
    requires d < 10
    ensures IsDigit(c) && c as int - '0' as int == d
  {
    ('0' as int + d) as char
  }

  /** The decimal digits of `n`, most significant first. */
  function DigitsOf(n: nat): (s: string)
    ensures |s| >= 1
  {
    if n < 10 then [DigitChar(n)] else DigitsOf(n / 10) + [DigitChar(n % 10)]
  }

  /** The number a string of decimal digits denotes. */
  function ValueOf(s: string): nat
    requires AllDigits(s)
  {
    if s == [] then 0 else ValueOf(s[..|s| - 1]) * 10 + (s[|s| - 1] as int - '0' as int)
  }

  /** `DigitsOf` writes only digits, and reading them back gives the number. */
  lemma {:induction false} ValueOfDigitsOf(n: nat)
    ensures AllDigits(DigitsOf(n)) && ValueOf(DigitsOf(n)) == n
  {
    var s := DigitsOf(n);
    if n < 10 {
      assert s[..0] == [];
    } else {
      ValueOfDigitsOf(n / 10);
      assert s[..|s| - 1] == DigitsOf(n / 10);
    }
  }

  /** `DigitsOf` writes no leading zero: its first digit is "0" only for zero itself. */
  lemma {:induction false} NoLeadingZero(n: nat)
    ensures DigitsOf(n)[0] == '0' <==> n == 0
  {
    if n >= 10 {
      NoLeadingZero(n / 10);
      assert DigitsOf(n)[0] == DigitsOf(n / 10)[0];
    }
  }

  /**
   * Inserts `sep` between groups of three digits counted from the right,
   * as `number_format` does with its thousands separator.
   */
  function Group(d: string, sep: string): string
    decreases |d|
  {
    if |d| <= 3 then d else Group(d[..|d| - 3], sep) + sep + d[|d| - 3..]
  }

  /** One separator goes in for every group of three digits left of the last group. */
  lemma {:induction false} GroupLength(d: string, sep: string)
    requires |d| >= 1
    ensures |Group(d, sep)| == |d| + (|d| - 1) / 3 * |sep|
    decreases |d|
  {
    if |d| > 3 {
      GroupLength(d[..|d| - 3], sep);
      assert (|d| - 1) / 3 == (|d| - 4) / 3 + 1;
    }
  }

  /** Grouping introduces no character that is in neither the digits nor the separator. */
  lemma {:induction false} GroupChars(d: string, sep: string, ch: char)
    requires ch !in d && ch !in sep
    ensures ch !in Group(d, sep)
    decreases |d|
  {
    if |d| > 3 {
      assert d == d[..|d| - 3] + d[|d| - 3..];
      GroupChars(d[..|d| - 3], sep, ch);
    }
  }

  /** `s` with every occurrence of `c` removed. */
  function Strip(s: string, c: char): string {
    if s == [] then ""
    else if s[0] == c then Strip(s[1..], c)
    else [s[0]] + Strip(s[1..], c)
  }

  lemma {:induction false} StripAppend(a: string, b: string, c: char)
    ensures Strip(a + b, c) == Strip(a, c) + Strip(b, c)
  {
    if a == [] {
      assert a + b == b;
    } else {
      assert (a + b)[1..] == a[1..] + b;
      StripAppend(a[1..], b, c);
      if a[0] != c {
        assert [a[0]] + (Strip(a[1..], c) + Strip(b, c)) == ([a[0]] + Strip(a[1..], c)) + Strip(b, c);
      }
    }
  }

  lemma {:induction false} StripAbsent(s: string, c: char)
    requires c !in s
    ensures Strip(s, c) == s
  {
    if s != [] {
      StripAbsent(s[1..], c);
      assert [s[0]] + s[1..] == s;
    }
  }

  /** Grouping with a one-character separator is undone by removing that character. */
  lemma {:induction false} StripGroup(d: string, c: char)
    requires c !in d
    ensures Strip(Group(d, [c]), c) == d
    decreases |d|
  {
    if |d| <= 3 {
      StripAbsent(d, c);
    } else {
      var init, tail := d[..|d| - 3], d[|d| - 3..];
      assert d == init + tail;
      var g := Group(init, [c]);
      assert Group(d, [c]) == g + [c] + tail;
      StripGroup(init, c);
      StripAppend(g + [c], tail, c);
      StripAppend(g, [c], c);
      assert Strip([c], c) == "" by { assert [c][1..] == ""; }
      StripAbsent(tail, c);
    }
  }

  /** Grouping with an empty separator changes nothing. */
  lemma {:induction false} GroupNoSeparator(d: string)
    ensures Group(d, "") == d
    decreases |d|
  {
    if |d| > 3 {
      GroupNoSeparator(d[..|d| - 3]);
      assert d[..|d| - 3] + "" + d[|d| - 3..] == d;
    }
  }

  function Abs(c: int): nat {
    if c < 0 then -c else c
  }

  function Sign(c: int): string {
    if c < 0 then "-" else ""
  }

  /** The two fraction digits of whole cents. */
  function Fraction(c: int): (s: string)
    ensures |s| == 2
  {
    var m := Abs(c) % 100;
    [DigitChar(m / 10), DigitChar(m % 10)]
  }

  /** The fraction digits are digits and denote the cents below one unit. */
  lemma FractionDigits(c: int)
    ensures AllDigits(Fraction(c)) && ValueOf(Fraction(c)) == Abs(c) % 100
  {
    var m := Abs(c) % 100;
    var s := Fraction(c);
    assert s[..1] == [s[0]] && [s[0]][..0] == [];
    assert ValueOf([s[0]]) == m / 10;
    assert ValueOf(s) == m / 10 * 10 + m % 10;
  }

  /**
   * Whole cents written out: an optional `-`, the integer part grouped by
   * `sep`, `.` and exactly two fraction digits.
   */
  function FormatCents(c: int, sep: string): string {
    Sign(c) + Group(DigitsOf(Abs(c) / 100), sep) + "." + Fraction(c)
  }

  /**
   * A formatted amount ends in `.` and two digits, and has no other `.` as
   * long as the thousands separator has none.
   */
  lemma FormatCentsShape(c: int, sep: string)
    ensures var s := FormatCents(c, sep);
      |s| >= 4 && s[|s| - 3] == '.' && AllDigits(s[|s| - 2..])
      && ('.' !in sep ==> '.' !in s[..|s| - 3])
  {
    var d := DigitsOf(Abs(c) / 100);
    var whole := Group(d, sep);
    var s := FormatCents(c, sep);
    GroupLength(d, sep);
    FractionDigits(c);
    assert s[..|s| - 3] == Sign(c) + whole;
    assert s[|s| - 2..] == Fraction(c);
    if '.' !in sep {
      ValueOfDigitsOf(Abs(c) / 100);
      GroupChars(d, sep, '.');
    }
  }

  /** `number_format(x, 2, '.', sep)`. */
  function NumberFormat(x: real, sep: string): string {
    FormatCents(RoundCents(x), sep)
  }

  /**
   * The cents a string of the form `-?digits.dd` denotes, as PHP reads a
   * numeric string used in arithmetic; `None` for any other form.
   */
  function ParseAmount(s: string): Option<int> {
    if |s| < 4 || s[|s| - 3] != '.' || !IsDigit(s[|s| - 2]) || !IsDigit(s[|s| - 1]) then None
    else
      var whole := s[..|s| - 3];
      var neg := whole[0] == '-';
      var digits := if neg then whole[1..] else whole;
      if digits == [] || !AllDigits(digits) then None
      else
        var a := ValueOf(digits) * 100 + ValueOf(s[|s| - 2..]);
        Some(if neg then -a else a)
  }

  /** Reading back an amount printed without thousands separator gives its cents. */
  lemma RoundTrip(c: int)
    ensures ParseAmount(FormatCents(c, "")) == Some(c)
  {
    var d := DigitsOf(Abs(c) / 100);
    GroupNoSeparator(d);
    ValueOfDigitsOf(Abs(c) / 100);
    FractionDigits(c);
    var s := Sign(c) + d + "." + Fraction(c);
    assert FormatCents(c, "") == s;
    assert s[..|s| - 3] == Sign(c) + d;
    assert s[|s| - 2..] == Fraction(c);
    assert s[|s| - 3] == '.';
    var whole := Sign(c) + d;
    if c < 0 {
      assert whole[0] == '-' && whole[1..] == d;
      assert ParseAmount(s) == Some(-(ValueOf(d) * 100 + ValueOf(Fraction(c))));
    } else {
      assert whole == d && IsDigit(whole[0]);
      assert ParseAmount(s) == Some(ValueOf(d) * 100 + ValueOf(Fraction(c)));
    }
  }

  /** The two call sites' formats differ only by the thousands separators. */
  lemma SeparatorOnlyDifference(x: real)
    ensures Strip(NumberFormat(x, ","), ',') == NumberFormat(x, "")
    ensures ',' !in NumberFormat(x, "")
  {
    var c := RoundCents(x);
    var d := DigitsOf(Abs(c) / 100);
    var tail := "." + Fraction(c);
    GroupNoSeparator(d);
    ValueOfDigitsOf(Abs(c) / 100);
    FractionDigits(c);
    assert NumberFormat(x, ",") == Sign(c) + Group(d, ",") + tail;
    assert NumberFormat(x, "") == Sign(c) + d + tail;
    assert ',' !in d;
    assert ',' !in tail;
    StripGroup(d, ',');
    StripAppend(Sign(c) + Group(d, ","), tail, ',');
    StripAppend(Sign(c), Group(d, ","), ',');
    StripAbsent(Sign(c), ',');
    StripAbsent(tail, ',');
  }
}
