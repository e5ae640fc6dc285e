/** Month keys: the "YYYY-MM" strings entries are grouped by, and the
    parsing half of turning a key back into a label. */
module DateKeys {
  import opened Wrappers
  import opened Types
  import opened Decimal
  import opened Strings
  import opened StringOrder

  /** The two-character month part: month index + 1, padded with "0". */
  function MonthPart(m: MonthIndex): string {
    PadStart(NatToString(m + 1), 2, '0')
  }

  /** `getMonthKey(date)`: the year, a "-", then the padded month. */
  function MonthKey(d: Date): string {
    IntToString(d.year) + "-" + MonthPart(d.month)
  }

  /** `const [year, month] = key.split('-').map(Number)`: the first two
      parts of the key as numbers. None stands for NaN or for a missing
      part: a key without "-" leaves `month` undefined, and it is
      `month - 1` in the label's date that turns it into NaN. */
  function ParseMonthKey(key: string): (Option<int>, Option<int>) {
    var parts := Split(key, '-');
    (ToNumber(parts[0]), if |parts| > 1 then ToNumber(parts[1]) else None)
  }

  /** `formatMonthLabel(key)`: the parsed numbers handed to the locale
      renderer (`new Date(year, month - 1).toLocaleDateString(...)`), which
      is not part of this model and comes in as a parameter. */
  function FormatMonthLabel(key: string, render: (Option<int>, Option<int>) -> string): string {
    var (year, month) := ParseMonthKey(key);
    render(year, month)
  }

  /** The month part is two digits spelling month index + 1: "01" to "12". */
  lemma MonthPartDigits(m: MonthIndex)
    ensures MonthPart(m) == [DigitChar((m + 1) / 10), DigitChar((m + 1) % 10)]
    ensures AllDigits(MonthPart(m)) && DigitsValue(MonthPart(m)) == m + 1
  {
    if m + 1 < 10 {
      assert NatToString(m + 1) == [DigitChar(m + 1)];
      assert Repeat('0', 1) == "0";
    } else {
      assert NatToString(m + 1) == NatToString(1) + [DigitChar((m + 1) % 10)];
    }
    var p := MonthPart(m);
    assert |p| == 2 && p[..|p| - 1] == [p[0]] && [p[0]][..0] == [];
    assert DigitsValue([p[0]]) == DigitValue(p[0]);
    assert DigitsValue(p) == DigitValue(p[0]) * 10 + DigitValue(p[1]);
    assert (m + 1) / 10 * 10 + (m + 1) % 10 == m + 1;
  }

  /** The key is the decimal year, a "-", and two digits for the month. */
  lemma MonthKeyShape(d: Date)
    ensures var y := IntToString(d.year);
      && |MonthKey(d)| == |y| + 3
      && MonthKey(d)[..|y|] == y
      && MonthKey(d)[|y|] == '-'
      && AllDigits(MonthKey(d)[|y| + 1..])
      && DigitsValue(MonthKey(d)[|y| + 1..]) == d.month + 1
  {
    MonthPartDigits(d.month);
    var y := IntToString(d.year);
    assert MonthKey(d)[|y| + 1..] == MonthPart(d.month);
  }

  /** Two dates share a key exactly when they share year and month: the
      fixed-width month part makes the key injective. */
  lemma MonthKeyInjective(d1: Date, d2: Date)
    ensures MonthKey(d1) == MonthKey(d2) <==> d1.year == d2.year && d1.month == d2.month
  {
    if MonthKey(d1) == MonthKey(d2) {
      MonthPartDigits(d1.month);
      MonthPartDigits(d2.month);
      var k := MonthKey(d1);
      var y1, y2 := IntToString(d1.year), IntToString(d2.year);
      assert |y1| == |y2|;
      assert k[..|y1|] == y1 && k[..|y2|] == y2;
      IntToStringInjective(d1.year, d2.year);
      assert k[|y1| + 1..] == MonthPart(d1.month) == MonthPart(d2.month);
    }
  }

  /** The key of a year that is not negative: its digits, "-", then the
      month part. */
  lemma PositiveKey(d: Date)
    requires d.year >= 0
    ensures MonthKey(d) == NatToString(d.year) + "-" + MonthPart(d.month)
  {
  }

  /** The month part has no "-" and reads back as month index + 1. */
  lemma MonthPartText(m: MonthIndex)
    ensures '-' !in MonthPart(m) && ToNumber(MonthPart(m)) == Some(m + 1)
  {
    MonthPartDigits(m);
    ReadDigits(MonthPart(m));
  }

  /** A key written "y-m" splits into y and m. */
  lemma ParseUndashed(y: string, m: string, v: int, w: int)
    requires '-' !in y && '-' !in m
    requires ToNumber(y) == Some(v) && ToNumber(m) == Some(w)
    ensures ParseMonthKey(y + "-" + m) == (Some(v), Some(w))
  {
    SplitFirst(y, '-', m);
    SplitNoSeparator(m, '-');
  }

  /** For a year that is not negative, parsing the key gives back the year
      and the 1-based month. */
  lemma ParseRoundTrip(d: Date)
    requires d.year >= 0
    ensures ParseMonthKey(MonthKey(d)) == (Some(d.year), Some(d.month + 1))
  {
    PositiveKey(d);
    DigitsText(d.year);
    MonthPartText(d.month);
    ParseUndashed(NatToString(d.year), MonthPart(d.month), d.year, d.month + 1);
  }

  /** The key of a negative year: "-", the digits of its magnitude, "-",
      then the month part. */
  lemma NegativeKey(d: Date)
    requires d.year < 0
    ensures MonthKey(d) == "-" + NatToString(-d.year) + "-" + MonthPart(d.month)
  {
  }

  /** The decimal text of a natural number has no "-" and reads back as
      the number. */
  lemma DigitsText(v: nat)
    ensures '-' !in NatToString(v) && ToNumber(NatToString(v)) == Some(v)
  {
    NumberOfString(v);
  }

  /** A key written "-y-m" splits into "", y and m: it parses with year 0
      and month y. */
  lemma ParseDashed(y: string, m: string, v: int)
    requires '-' !in y && ToNumber(y) == Some(v)
    ensures ParseMonthKey("-" + y + "-" + m) == (Some(0), Some(v))
  {
    assert "-" + y + "-" + m == [] + ['-'] + (y + ['-'] + m);
    SplitFirst([], '-', y + ['-'] + m);
    SplitFirst(y, '-', m);
    NumberOfBlank("");
  }

  /** A negative year renders with a leading "-", so the split finds an
      empty first part: the label is built from year 0 and month |year|. */
  lemma ParseNegativeYear(d: Date)
    requires d.year < 0
    ensures ParseMonthKey(MonthKey(d)) == (Some(0), Some(-d.year))
  {
    NegativeKey(d);
    DigitsText(-d.year);
    ParseDashed(NatToString(-d.year), MonthPart(d.month), -d.year);
  }

  /** Four-digit years give seven-character keys, the "YYYY-MM" shape. */
  lemma MonthKeyLength(d: Date)
    requires 1000 <= d.year <= 9999
    ensures |MonthKey(d)| == 7
  {
    FourDigits(d.year);
    MonthKeyShape(d);
  }

  /** For years written with the same number of digits, comparing keys as
      strings compares dates chronologically by (year, month). */
  lemma MonthKeyOrder(d1: Date, d2: Date)
    requires d1.year >= 0 && d2.year >= 0
    requires |NatToString(d1.year)| == |NatToString(d2.year)|
    ensures Less(MonthKey(d1), MonthKey(d2)) <==>
      d1.year < d2.year || (d1.year == d2.year && d1.month < d2.month)
  {
    var y1, y2 := NatToString(d1.year), NatToString(d2.year);
    var m1, m2 := MonthPart(d1.month), MonthPart(d2.month);
    assert MonthKey(d1) == y1 + ("-" + m1);
    assert MonthKey(d2) == y2 + ("-" + m2);
    LessConcat(y1, "-" + m1, y2, "-" + m2);
    DecimalOrder(d1.year, d2.year);
    NatToStringInjective(d1.year, d2.year);
    LessConcat("-", m1, "-", m2);
    Irreflexive("-");
    MonthPartOrder(d1.month, d2.month);
  }

  /** The two-digit month parts compare as the months do. */
  lemma MonthPartOrder(m1: MonthIndex, m2: MonthIndex)
    ensures Less(MonthPart(m1), MonthPart(m2)) <==> m1 < m2
    ensures MonthPart(m1) == MonthPart(m2) <==> m1 == m2
  {
    MonthPartDigits(m1);
    MonthPartDigits(m2);
    var a, b := m1 + 1, m2 + 1;
    LessConcat([DigitChar(a / 10)], [DigitChar(a % 10)], [DigitChar(b / 10)], [DigitChar(b % 10)]);
    assert [DigitChar(a / 10)] + [DigitChar(a % 10)] == MonthPart(m1);
    assert [DigitChar(b / 10)] + [DigitChar(b % 10)] == MonthPart(m2);
    assert a < b <==> a / 10 < b / 10 || (a / 10 == b / 10 && a % 10 < b % 10);
  }
}
