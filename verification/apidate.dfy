/** `format_date_to_api`: a calendar date written as the eight digits
    `YYYYMMDD` that the NASA POWER endpoint takes for its `start` and `end`
    query parameters, together with the reading of such a string back into
    a date. */
module ApiDate {
  import opened Wrappers

  /** A proleptic Gregorian date, as Python's `date` holds it. */
  datatype Date = Date(year: int, month: int, day: int)

  predicate IsLeapYear(y: int) {
    (y % 4 == 0 && y % 100 != 0) || y % 400 == 0
  }

  function DaysInMonth(y: int, m: int): int
    requires 1 <= m <= 12
  {
    if m == 2 then (if IsLeapYear(y) then 29 else 28)
    else if m == 4 || m == 6 || m == 9 || m == 11 then 30
    else 31
  }

  /** The dates Python's `date` can represent. */
  predicate ValidDate(d: Date) {
    && 1 <= d.year <= 9999
    && 1 <= d.month <= 12
    && 1 <= d.day <= DaysInMonth(d.year, d.month)
  }

  function Pow10(n: nat): (r: nat)
    ensures r > 0
  {
    if n == 0 then 1 else 10 * Pow10(n - 1)
  }

  predicate IsDigit(c: char) {
    '0' <= c <= '9'
  }

  predicate AllDigits(s: string) {
    forall i :: 0 <= i < |s| ==> IsDigit(s[i])
  }

  function DigitChar(n: nat): (c: char)
    requires n < 10
    ensures IsDigit(c)
  {
    ('0' as int + n) as char
  }

  function DigitValue(c: char): (n: nat)
    requires IsDigit(c)
    ensures n < 10 && DigitChar(n) == c
  {
    c as int - '0' as int
  }

  /** The last `width` decimal digits of `n`, zero-padded on the left. */
  function Digits(n: nat, width: nat): (s: string)
    ensures |s| == width && AllDigits(s)
  {
    if width == 0 then [] else Digits(n / 10, width - 1) + [DigitChar(n % 10)]
  }

  /** The number a string of decimal digits denotes. */
  function NumberOf(s: string): nat
    requires AllDigits(s)
  {
    if |s| == 0 then 0 else 10 * NumberOf(s[..|s| - 1]) + DigitValue(s[|s| - 1])
  }

  /** `strftime('%Y%m%d')`: four-digit year, two-digit month, two-digit day. */
  function FormatDateToApi(d: Date): (s: string)
    requires ValidDate(d) && 1000 <= d.year
    ensures |s| == 8 && AllDigits(s)
  {
    Digits(d.year, 4) + Digits(d.month, 2) + Digits(d.day, 2)
  }

  /** Reads `YYYYMMDD` back into a date; anything that is not eight digits
      naming a representable date with a four-digit year is rejected. */
  function ParseApiDate(s: string): Option<Date> {
    if |s| == 8 && AllDigits(s) then
      var d := Date(NumberOf(s[..4]), NumberOf(s[4..6]), NumberOf(s[6..]));
      if ValidDate(d) && 1000 <= d.year then Some(d) else None
    else None
  }

  /** Padding a number that fits in `width` digits loses nothing. */
  lemma {:induction false} NumberOfDigits(n: nat, width: nat)
    requires n < Pow10(width)
    ensures NumberOf(Digits(n, width)) == n
  {
    if width > 0 {
      var s := Digits(n, width);
      assert s[..width - 1] == Digits(n / 10, width - 1);
      assert n / 10 < Pow10(width - 1);
      NumberOfDigits(n / 10, width - 1);
    }
  }

  /** A string of digits is the padded form of the number it denotes. */
  lemma {:induction false} DigitsOfNumber(s: string)
    requires AllDigits(s)
    ensures NumberOf(s) < Pow10(|s|)
    ensures Digits(NumberOf(s), |s|) == s
  {
    if |s| > 0 {
      var init := s[..|s| - 1];
      DigitsOfNumber(init);
      var n := NumberOf(s);
      assert n / 10 == NumberOf(init) && n % 10 == DigitValue(s[|s| - 1]);
      assert s == init + [s[|s| - 1]];
    }
  }

  /** Reading back a formatted date gives the date. */
  lemma ParseFormattedDate(d: Date)
    requires ValidDate(d) && 1000 <= d.year
    ensures ParseApiDate(FormatDateToApi(d)) == Some(d)
  {
    var s := FormatDateToApi(d);
    assert s[..4] == Digits(d.year, 4);
    assert s[4..6] == Digits(d.month, 2);
    assert s[6..] == Digits(d.day, 2);
    NumberOfDigits(d.year, 4);
    NumberOfDigits(d.month, 2);
    NumberOfDigits(d.day, 2);
  }

  /** Every string the parser accepts is exactly what formatting its date
      gives, so the format is a bijection onto the accepted strings. */
  lemma FormatParsedDate(s: string)
    requires ParseApiDate(s).Some?
    ensures FormatDateToApi(ParseApiDate(s).value) == s
  {
    DigitsOfNumber(s[..4]);
    DigitsOfNumber(s[4..6]);
    DigitsOfNumber(s[6..]);
    var d := ParseApiDate(s).value;
    assert d == Date(NumberOf(s[..4]), NumberOf(s[4..6]), NumberOf(s[6..]));
    assert FormatDateToApi(d) == s[..4] + s[4..6] + s[6..];
    assert s == s[..4] + s[4..6] + s[6..];
  }

  /** The earliest and latest dates the date pickers offer. */
  lemma PickerBoundsFormat()
    ensures FormatDateToApi(Date(2001, 1, 1)) == "20010101"
    ensures FormatDateToApi(Date(2024, 10, 10)) == "20241010"
  {
  }
}
