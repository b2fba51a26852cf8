/**
 * Decimal text as Python's f-strings produce it for the dashboard:
 * `{n}` for a record count, and `{x:,.2f}` for a column sum (thousands
 * separated by commas, exactly two decimal places). Each formatter comes
 * with a parser, and the round trips are proved.
 */
module Decimal {
  import opened Wrappers

  predicate IsDigit(c: char) {
    '0' <= c <= '9'
  }

  /** A character of a formatted amount: a digit, the sign, a group separator or the decimal point. */
  predicate IsAmountChar(c: char) {
    IsDigit(c) || c == '-' || c == ',' || c == '.'
  }

  predicate AllDigits(s: string) {
    forall i :: 0 <= i < |s| ==> IsDigit(s[i])
  }

  function DigitChar(d: nat): (c: char)
    requires d < 10
    ensures IsDigit(c) && DigitValue(c) == d
  {
    ('0' as int + d) as char
  }

  function DigitValue(c: char): (d: nat)
    requires IsDigit(c)
    ensures d < 10
  {
    c as int - '0' as int
  }

  /** The decimal text of `n`, as `str(n)` writes it: digits only, no leading zero. */
  function NatToString(n: nat): (s: string)
    ensures |s| >= 1 && AllDigits(s)
    ensures s[0] == '0' <==> n == 0
    ensures n < 10 <==> |s| == 1
  {
    if n < 10 then [DigitChar(n)] else NatToString(n / 10) + [DigitChar(n % 10)]
  }

  /** The number a string of decimal digits denotes (leading zeros allowed). */
  function ParseNat(s: string): nat
    requires AllDigits(s)
  {
    if s == [] then 0 else ParseNat(s[..|s| - 1]) * 10 + DigitValue(s[|s| - 1])
  }

  lemma {:induction false} ParseNatToString(n: nat)
    ensures ParseNat(NatToString(n)) == n
  {
    if n >= 10 {
      var s := NatToString(n);
      assert s[..|s| - 1] == NatToString(n / 10);
      ParseNatToString(n / 10);
    }
  }

  /** The other half of the bijection: every canonical digit string is the text of its value. */
  lemma {:induction false} NatToStringParse(s: string)
    requires |s| >= 1 && AllDigits(s)
    requires |s| > 1 ==> s[0] != '0'
    ensures NatToString(ParseNat(s)) == s
  {
    var init, last := s[..|s| - 1], s[|s| - 1];
    if |s| == 1 {
      assert init == [];
      assert s == [last];
    } else {
      assert init[0] == s[0];
      NatToStringParse(init);
      var p := ParseNat(init);
      assert p != 0;
      var n := ParseNat(s);
      assert n == p * 10 + DigitValue(last);
      assert n / 10 == p && n % 10 == DigitValue(last);
      assert s == init + [last];
    }
  }

  /**
   * Thousands grouping of a digit string, as the `,` option of Python's
   * format mini-language writes it: a comma before every full group of
   * three digits counted from the right.
   */
  function Group(digits: string): (g: string)
    ensures |digits| > 0 ==> |g| > 0
    decreases |digits|
  {
    if |digits| <= 3 then digits
    else Group(digits[..|digits| - 3]) + "," + digits[|digits| - 3..]
  }

  lemma {:induction false} GroupChars(digits: string)
    requires AllDigits(digits)
    ensures forall i :: 0 <= i < |Group(digits)| ==> Group(digits)[i] == ',' || IsDigit(Group(digits)[i])
    decreases |digits|
  {
    if |digits| > 3 {
      GroupChars(digits[..|digits| - 3]);
    }
  }

  /** A comma stands exactly where a group of three digits starts, and never first. */
  predicate GroupedInThrees(g: string) {
    forall i :: 0 <= i < |g| ==> (g[i] == ',' <==> 0 < i && (|g| - i) % 4 == 0)
  }

  /** Up to three digits need no comma. */
  lemma ShortGroupShape(digits: string)
    requires |digits| <= 3 && ',' !in digits
    ensures GroupedInThrees(digits)
  {
    forall i | 0 <= i < |digits|
      ensures digits[i] == ',' <==> 0 < i && (|digits| - i) % 4 == 0
    {
      assert digits[i] in digits;
      assert 1 <= |digits| - i <= 3;
    }
  }

  /** Appending a comma and three more digits keeps the grouping. */
  lemma AppendGroupShape(h: string, tail: string)
    requires GroupedInThrees(h) && |h| >= 1
    requires |tail| == 3 && ',' !in tail
    ensures GroupedInThrees(h + "," + tail)
  {
    var g := h + "," + tail;
    forall i | 0 <= i < |g|
      ensures g[i] == ',' <==> 0 < i && (|g| - i) % 4 == 0
    {
      if i < |h| {
        assert g[i] == h[i];
        assert (|g| - i) % 4 == (|h| - i) % 4;
      } else if i > |h| {
        assert g[i] == tail[i - |h| - 1] && tail[i - |h| - 1] in tail;
        assert 1 <= |g| - i <= 3;
      }
    }
  }

  lemma {:induction false} GroupShape(digits: string)
    requires ',' !in digits
    ensures GroupedInThrees(Group(digits))
    ensures |digits| > 0 ==> |Group(digits)| == |digits| + (|digits| - 1) / 3
    decreases |digits|
  {
    if |digits| > 3 {
      var head, tail := digits[..|digits| - 3], digits[|digits| - 3..];
      assert ',' !in head by { assert forall i :: 0 <= i < |head| ==> head[i] == digits[i]; }
      assert ',' !in tail by { assert forall i :: 0 <= i < |tail| ==> tail[i] == digits[|digits| - 3 + i]; }
      GroupShape(head);
      AppendGroupShape(Group(head), tail);
    } else {
      ShortGroupShape(digits);
    }
  }

  /** Drops every comma: the inverse of `Group` on digit strings. */
  function Ungroup(s: string): (r: string)
    ensures ',' !in r
  {
    if s == [] then []
    else Ungroup(s[..|s| - 1]) + (if s[|s| - 1] == ',' then [] else [s[|s| - 1]])
  }

  lemma {:induction false} UngroupAppend(a: string, b: string)
    ensures Ungroup(a + b) == Ungroup(a) + Ungroup(b)
    decreases |b|
  {
    if b != [] {
      var b' := b[..|b| - 1];
      assert (a + b)[..|a + b| - 1] == a + b';
      UngroupAppend(a, b');
    } else {
      assert a + b == a;
    }
  }

  lemma {:induction false} UngroupPlain(s: string)
    requires ',' !in s
    ensures Ungroup(s) == s
  {
    if s != [] {
      UngroupPlain(s[..|s| - 1]);
      assert s == s[..|s| - 1] + [s[|s| - 1]];
    }
  }

  lemma {:induction false} UngroupGroup(digits: string)
    requires ',' !in digits
    ensures Ungroup(Group(digits)) == digits
    decreases |digits|
  {
    if |digits| <= 3 {
      UngroupPlain(digits);
    } else {
      var head, tail := digits[..|digits| - 3], digits[|digits| - 3..];
      assert digits == head + tail;
      assert ',' !in head by { assert forall i :: 0 <= i < |head| ==> head[i] == digits[i]; }
      assert ',' !in tail by { assert forall i :: 0 <= i < |tail| ==> tail[i] == digits[|digits| - 3 + i]; }
      var h := Group(head);
      UngroupGroup(head);
      UngroupPlain(tail);
      assert Group(digits) == (h + ",") + tail;
      UngroupAppend(h + ",", tail);
      assert (h + ",")[..|h|] == h;
      assert Ungroup(h + ",") == Ungroup(h);
    }
  }

  /** Two digits for a value below one hundred, as `.2f` writes the cents. */
  function TwoDigits(k: nat): (s: string)
    requires k < 100
    ensures |s| == 2 && AllDigits(s) && ParseNat(s) == k
  {
    var s := [DigitChar(k / 10), DigitChar(k % 10)];
    assert s[..1] == [DigitChar(k / 10)] && s[..1][..0] == [];
    assert ParseNat(s[..1]) == k / 10;
    s
  }

  /** A non-negative amount of hundredths, grouped, with two decimals: 123456 is "1,234.56". */
  function FormatMagnitude(hundredths: nat): string {
    Group(NatToString(hundredths / 100)) + "." + TwoDigits(hundredths % 100)
  }

  /**
   * `{x:,.2f}` once `x` has been rounded to the whole number of hundredths
   * `cents`: a minus sign for a negative amount, then the magnitude.
   */
  function FormatAmount(cents: int): (a: string)
    ensures |a| >= 4 && a[|a| - 3] == '.'
    ensures a[0] == '-' <==> cents < 0
  {
    var m := if cents < 0 then -cents else cents;
    MagnitudeShape(m);
    if cents < 0 then "-" + FormatMagnitude(m) else FormatMagnitude(m)
  }

  /** A magnitude starts with a digit and ends with a point and two decimals. */
  lemma MagnitudeShape(m: nat)
    ensures |FormatMagnitude(m)| >= 4 && IsDigit(FormatMagnitude(m)[0])
    ensures FormatMagnitude(m)[|FormatMagnitude(m)| - 3] == '.'
  {
    var digits := NatToString(m / 100);
    GroupFirst(digits);
    var t := Group(digits) + "." + TwoDigits(m % 100);
    assert t[0] == Group(digits)[0];
    assert FormatMagnitude(m) == t;
  }

  lemma NoQuoteInAmount(cents: int)
    ensures '\'' !in FormatAmount(cents)
  {
    AmountChars(cents);
    var s := FormatAmount(cents);
    assert forall i :: 0 <= i < |s| ==> s[i] != '\'';
  }

  /** A formatted amount holds only digits, the sign, commas and the decimal point. */
  lemma AmountChars(cents: int)
    ensures forall i :: 0 <= i < |FormatAmount(cents)| ==> IsAmountChar(FormatAmount(cents)[i])
  {
    var m := if cents < 0 then -cents else cents;
    var digits := NatToString(m / 100);
    var t := Group(digits) + "." + TwoDigits(m % 100);
    GroupChars(digits);
    assert forall i :: 0 <= i < |t| ==> IsAmountChar(t[i]);
    assert FormatMagnitude(m) == t;
  }

  /** The amount of hundredths in a whole part (commas dropped) and a two-digit fraction. */
  function ParseParts(whole: string, fraction: string): Option<nat> {
    if whole == [] || !AllDigits(whole) || !AllDigits(fraction) then None
    else Some(ParseNat(whole) * 100 + ParseNat(fraction))
  }

  function ParseMagnitude(t: string): Option<nat> {
    if |t| < 4 || t[|t| - 3] != '.' then None
    else ParseParts(Ungroup(t[..|t| - 3]), t[|t| - 2..])
  }

  /** Reads back the amount of hundredths from text written by `FormatAmount`. */
  function ParseAmount(s: string): Option<int> {
    if |s| > 0 && s[0] == '-' then
      match ParseMagnitude(s[1..])
      case Some(m) => Some(0 - m)
      case None => None
    else
      match ParseMagnitude(s)
      case Some(m) => Some(m)
      case None => None
  }

  /** Grouping keeps the leading digit in front. */
  lemma {:induction false} GroupFirst(digits: string)
    requires |digits| > 0
    ensures Group(digits)[0] == digits[0]
    decreases |digits|
  {
    if |digits| > 3 {
      GroupFirst(digits[..|digits| - 3]);
    }
  }

  lemma DigitsHaveNoComma(digits: string)
    requires AllDigits(digits)
    ensures ',' !in digits
  {
    forall i | 0 <= i < |digits| ensures digits[i] != ',' {
      assert IsDigit(digits[i]);
    }
  }

  /** `ParseMagnitude` splits at the decimal point three characters from the end. */
  lemma ParseMagnitudeParts(whole: string, fraction: string)
    requires |whole| >= 1 && |fraction| == 2
    ensures ParseMagnitude(whole + "." + fraction) == ParseParts(Ungroup(whole), fraction)
  {
    var t := whole + "." + fraction;
    assert t[..|t| - 3] == whole;
    assert t[|t| - 3] == '.';
    assert t[|t| - 2..] == fraction;
  }

  lemma ParseFormatMagnitude(m: nat)
    ensures ParseMagnitude(FormatMagnitude(m)) == Some(m)
    ensures IsDigit(FormatMagnitude(m)[0])
  {
    var digits := NatToString(m / 100);
    var g := Group(digits);
    var cents := TwoDigits(m % 100);
    DigitsHaveNoComma(digits);
    UngroupGroup(digits);
    ParseNatToString(m / 100);
    GroupFirst(digits);
    ParseMagnitudeParts(g, cents);
    assert FormatMagnitude(m) == g + "." + cents;
  }

  lemma {:induction false} ParseFormatAmount(cents: int)
    ensures ParseAmount(FormatAmount(cents)) == Some(cents)
  {
    var m := if cents < 0 then -cents else cents;
    ParseFormatMagnitude(m);
    var t := FormatMagnitude(m);
    if cents < 0 {
      assert ("-" + t)[1..] == t;
    }
  }
}
