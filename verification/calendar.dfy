/**
  The proleptic Gregorian calendar PHP's DateTime uses, and the fixed-width
  renderings "DD-MM-YYYY" (format 'd-m-Y') and "YYYY-MM-DD" (format 'Y-m-d')
  for years 0000 to 9999.
 */
module Calendar {
  import opened Strings

  predicate IsLeapYear(y: int) {
    y % 4 == 0 && (y % 100 != 0 || y % 400 == 0)
  }

  function DaysInMonth(m: int, y: int): (n: int)
    requires 1 <= m <= 12
    ensures 28 <= n <= 31
    ensures n == 29 <==> m == 2 && IsLeapYear(y)
  {
    if m == 2 then (if IsLeapYear(y) then 29 else 28)
    else if m == 4 || m == 6 || m == 9 || m == 11 then 30
    else 31
  }

  /** A day that exists, in a year that 'Y' prints with four digits. */
  predicate ValidDate(d: int, m: int, y: int)
    // a real date is printable, and 29 February exists only in leap years
    ensures ValidDate(d, m, y) ==> Printable(d, m, y)
    ensures ValidDate(d, m, y) && m == 2 && d == 29 ==> IsLeapYear(y)
  {
    0 <= y <= 9999 && 1 <= m <= 12 && 1 <= d <= DaysInMonth(m, y)
  }

  /** Two digits with a leading zero ('d', 'm'). */
  function Pad2(n: nat): (r: string)
    requires n < 100
    ensures |r| == 2 && AllDigits(r) && DigitsValue(r) == n
  {
    var r := [Digit(n / 10), Digit(n % 10)];
    DigitsValueTwo(r);
    r
  }

  /** Four digits with leading zeros ('Y' for years below 10000). */
  function Pad4(n: nat): (r: string)
    requires n < 10000
    ensures |r| == 4 && AllDigits(r) && DigitsValue(r) == n
  {
    var hi := Pad2(n / 100);
    var lo := Pad2(n % 100);
    DigitsValueAppend(hi, lo);
    hi + lo
  }

  /** Every two-digit string is the padding of the number it denotes. */
  lemma Pad2OfDigits(s: string)
    requires |s| == 2 && AllDigits(s)
    ensures DigitsValue(s) < 100 && Pad2(DigitsValue(s)) == s
  {
    DigitsValueTwo(s);
  }

  lemma Pad4OfDigits(s: string)
    requires |s| == 4 && AllDigits(s)
    ensures DigitsValue(s) < 10000 && Pad4(DigitsValue(s)) == s
  {
    var hi, lo := s[..2], s[2..];
    assert s == hi + lo;
    DigitsValueAppend(hi, lo);
    Pad2OfDigits(hi);
    Pad2OfDigits(lo);
    var n := DigitsValue(s);
    assert n == DigitsValue(hi) * 100 + DigitsValue(lo);
    assert n / 100 == DigitsValue(hi) && n % 100 == DigitsValue(lo);
  }

  /** The numbers 'd-m-Y' and 'Y-m-d' can print: two-digit day and month,
      four-digit year. */
  predicate Printable(d: int, m: int, y: int) {
    0 <= d < 100 && 0 <= m < 100 && 0 <= y <= 9999
  }

  /** format('d-m-Y') */
  function DmyText(d: int, m: int, y: int): (r: string)
    requires Printable(d, m, y)
    ensures |r| == 10
  {
    Pad2(d) + "-" + Pad2(m) + "-" + Pad4(y)
  }

  /** format('Y-m-d') */
  function YmdText(d: int, m: int, y: int): (r: string)
    requires Printable(d, m, y)
    ensures |r| == 10
  {
    Pad4(y) + "-" + Pad2(m) + "-" + Pad2(d)
  }
}
