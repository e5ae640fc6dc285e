/** Decimal rendering and parsing of integers, as JavaScript's `String(n)`
    and `Number(s)` behave on integral values and on signed digit strings. */
module Decimal {
  import opened Wrappers
  import opened Strings

  predicate IsDigit(c: char) {
    '0' <= c <= '9'
  }

  predicate AllDigits(s: string) {
    forall i :: 0 <= i < |s| ==> IsDigit(s[i])
  }

  function DigitChar(d: nat): (c: char)
    requires d < 10
    ensures IsDigit(c) && c as int - '0' as int == d
  {
    (d + '0' as int) as char
  }

  function DigitValue(c: char): nat
    requires IsDigit(c)
  {
    c as int - '0' as int
  }

  /** `String(n)` for a non-negative integer: no sign, no leading zero. */
  function NatToString(n: nat): (s: string)
    ensures |s| >= 1 && AllDigits(s)
    ensures |s| == 1 <==> n < 10
    ensures |s| > 1 ==> s[0] != '0'
  {
    if n < 10 then [DigitChar(n)] else NatToString(n / 10) + [DigitChar(n % 10)]
  }

  /** `String(i)` for an integer: a leading "-" for negative values. */
  function IntToString(i: int): string {
    if i < 0 then "-" + NatToString(-i) else NatToString(i)
  }

  /** The value of a string of decimal digits (leading zeros allowed). */
  function DigitsValue(s: string): nat
    requires AllDigits(s)
  {
    if s == [] then 0 else DigitsValue(s[..|s| - 1]) * 10 + DigitValue(s[|s| - 1])
  }

  /** `Number(s)`: white space around the text is ignored, a blank string
      reads as 0, and decimal digits with an optional sign read as their
      value. Any other text is NaN here, represented by None. */
  function ToNumber(s: string): Option<int> {
    ReadSigned(Trim(s))
  }

  /** The value of already trimmed text. */
  function ReadSigned(t: string): Option<int> {
    if t == [] then Some(0)
    else if AllDigits(t) then Some(DigitsValue(t))
    else if |t| > 1 && (t[0] == '+' || t[0] == '-') && AllDigits(t[1..]) then
      var v: int := DigitsValue(t[1..]);
      Some(if t[0] == '-' then -v else v)
    else None
  }

  lemma {:induction false} NatToStringRoundTrip(n: nat)
    ensures DigitsValue(NatToString(n)) == n
  {
    if n >= 10 {
      var s := NatToString(n);
      assert s[..|s| - 1] == NatToString(n / 10);
      NatToStringRoundTrip(n / 10);
    }
  }

  lemma NatToStringInjective(a: nat, b: nat)
    ensures NatToString(a) == NatToString(b) <==> a == b
  {
    if NatToString(a) == NatToString(b) {
      NatToStringRoundTrip(a);
      NatToStringRoundTrip(b);
    }
  }

  lemma IntToStringInjective(a: int, b: int)
    ensures IntToString(a) == IntToString(b) <==> a == b
  {
    if IntToString(a) == IntToString(b) {
      if a < 0 && b < 0 {
        assert IntToString(a)[1..] == NatToString(-a);
        assert IntToString(b)[1..] == NatToString(-b);
        NatToStringInjective(-a, -b);
      } else if a >= 0 && b >= 0 {
        NatToStringInjective(a, b);
      }
    }
  }

  /** Four-digit values render as four characters. */
  lemma FourDigits(n: nat)
    requires 1000 <= n <= 9999
    ensures |NatToString(n)| == 4
  {
    assert |NatToString(n / 100)| == 2;
  }

  /** The decimal text of an integer has no white space at either end. */
  lemma TrimIntToString(i: int)
    ensures Trim(IntToString(i)) == IntToString(i)
  {
    var s := IntToString(i);
    assert IsDigit(s[|s| - 1]);
    TrimPadded([], s, []);
    assert [] + s + [] == s;
  }

  lemma ReadSignedOfString(i: int)
    ensures ReadSigned(IntToString(i)) == Some(i)
  {
    if i >= 0 {
      NatToStringRoundTrip(i);
    } else {
      var s := IntToString(i);
      assert s[1..] == NatToString(-i);
      assert !IsDigit(s[0]);
      NatToStringRoundTrip(-i);
    }
  }

  /** A non-empty run of decimal digits reads as its value. */
  lemma ReadDigits(s: string)
    requires s != [] && AllDigits(s)
    ensures ToNumber(s) == Some(DigitsValue(s))
  {
    assert IsDigit(s[0]) && IsDigit(s[|s| - 1]);
    TrimPadded([], s, []);
    assert [] + s + [] == s;
  }

  /** `Number` reads back every integer `String` writes. */
  lemma NumberOfString(i: int)
    ensures ToNumber(IntToString(i)) == Some(i)
  {
    TrimIntToString(i);
    ReadSignedOfString(i);
  }

  /** White space around a number does not change what `Number` reads. */
  lemma NumberIgnoresPadding(a: string, i: int, b: string)
    requires forall k :: 0 <= k < |a| ==> IsTrimSpace(a[k])
    requires forall k :: 0 <= k < |b| ==> IsTrimSpace(b[k])
    ensures ToNumber(a + IntToString(i) + b) == Some(i)
  {
    var s := IntToString(i);
    assert IsDigit(s[|s| - 1]);
    TrimPadded(a, s, b);
    ReadSignedOfString(i);
  }

  /** A string of white space only, the empty string included, reads as 0. */
  lemma NumberOfBlank(s: string)
    requires forall k :: 0 <= k < |s| ==> IsTrimSpace(s[k])
    ensures ToNumber(s) == Some(0)
  {
  }

  /** A string holding a character that is neither a digit, a sign nor
      white space reads as NaN. */
  lemma NumberOfNonNumeric(s: string, k: nat)
    requires k < |s| && !IsDigit(s[k]) && s[k] != '+' && s[k] != '-' && !IsTrimSpace(s[k])
    ensures ToNumber(s) == None
  {
    var t := Trim(s);
    TrimSpec(s);
    var i, j :|
      && 0 <= i <= j <= |s| && t == s[i..j]
      && (forall k :: 0 <= k < i ==> IsTrimSpace(s[k]))
      && (forall k :: j <= k < |s| ==> IsTrimSpace(s[k]));
    assert i <= k < j;
    assert t[k - i] == s[k];
  }
}
