/**
  PHP numeric strings (PHP 8): what is_numeric() accepts, the exact value such
  a string denotes, and the two uses the relay makes of that value: the (int)
  cast in mfla_to_bool and the numeric comparison inside loose `==`.

  Grammar: optional whitespace, an optional sign, digits with an optional
  decimal point (at least one digit on either side), an optional exponent
  ("e" or "E", optional sign, digits), optional whitespace.
 */
module Numeric {
  import opened Options
  import opened Strings

  /** The whitespace PHP allows around a numeric string: " \t\n\r\v\f". */
  predicate IsNumericSpace(c: char) {
    c == ' ' || c == '\t' || c == '\n' || c == '\r' || c == '\U{B}' || c == '\U{C}'
  }

  /** What a numeric string says: sign, all its digits read as one natural
      number, how many of them follow the point, and the exponent. */
  datatype Numeral = Numeral(negative: bool, mantissa: nat, fraction: nat, exponent: int,
                             hasPoint: bool, hasExponent: bool)

  /** Length of the longest prefix made of digits. */
  function DigitRun(s: string): (n: nat)
    ensures n <= |s| && AllDigits(s[..n])
    ensures n == |s| || !IsDigit(s[n])
  {
    if s != [] && IsDigit(s[0]) then
      var n := 1 + DigitRun(s[1..]);
      assert forall i :: 1 <= i < n ==> s[..n][i] == s[1..][..n - 1][i - 1];
      n
    else 0
  }

  lemma DigitRunAll(s: string)
    requires AllDigits(s)
    ensures DigitRun(s) == |s|
  {
  }

  /** The exponent part: empty, or [eE][+-]?digits running to the end. */
  function ParseExponent(t: string): Option<(bool, int)> {
    if t == [] then Some((false, 0))
    else if t[0] != 'e' && t[0] != 'E' then None
    else
      var u := t[1..];
      var v := if u != [] && (u[0] == '-' || u[0] == '+') then u[1..] else u;
      if v == [] || DigitRun(v) != |v| then None
      else
        var e := DigitsValue(v[..DigitRun(v)]);
        Some((true, if u[0] == '-' then -(e as int) else e))
  }

  /** A numeric string with the surrounding whitespace already removed. */
  function ParseCore(t: string): Option<Numeral> {
    if t != [] && (t[0] == '-' || t[0] == '+') then ParseUnsigned(t[0] == '-', t[1..])
    else ParseUnsigned(false, t)
  }

  /** Digits, then an optional point and digits, then the exponent part. */
  function ParseUnsigned(negative: bool, u: string): Option<Numeral> {
    var k := DigitRun(u);
    if k < |u| && u[k] == '.' then
      var v := u[k + 1..];
      ParseTail(negative, u[..k], v[..DigitRun(v)], true, v[DigitRun(v)..])
    else
      ParseTail(negative, u[..k], "", false, u[k..])
  }

  /** At least one digit on either side of the point, then a valid exponent part. */
  function ParseTail(negative: bool, whole: string, fraction: string, hasPoint: bool, tail: string): Option<Numeral>
    requires AllDigits(whole) && AllDigits(fraction)
  {
    if |whole| + |fraction| == 0 then None
    else
      AllDigitsAppend(whole, fraction);
      match ParseExponent(tail)
      case None => None
      case Some(exp) => Some(Numeral(negative, DigitsValue(whole + fraction), |fraction|, exp.1, hasPoint, exp.0))
  }

  /** is_numeric($s) holds exactly when this yields a numeral. */
  function ParseNumeric(s: string): Option<Numeral> {
    ParseCore(TrimRight(TrimLeft(s, IsNumericSpace), IsNumericSpace))
  }

  predicate IsNumeric(s: string)
    // only digits, signs, the point, exponent letters and whitespace
    ensures IsNumeric(s) ==> AllNumericChars(s)
  {
    if ParseNumeric(s).Some? then
      NumericChars(s);
      true
    else
      false
  }

  /** m * 10^p, one digit at a time. */
  function Shift(m: int, p: nat): (r: int)
    ensures m == 0 <==> r == 0
    ensures m < 0 <==> r < 0
  {
    if p == 0 then m else 10 * Shift(m, p - 1)
  }

  /** The exact value of a numeral as num / 10^den. */
  function Scaled(n: Numeral): (r: (int, nat))
    ensures n.mantissa == 0 <==> r.0 == 0
    ensures r.0 < 0 <==> n.negative && n.mantissa != 0
  {
    var m := if n.negative then -(n.mantissa as int) else n.mantissa;
    var p := n.exponent - n.fraction;
    if p >= 0 then (Shift(m, p), 0) else (m, -p)
  }

  /** (int)$s == 1 for a numeric string: the value truncated toward zero is 1,
      i.e. it lies in [1, 2). */
  predicate CastsToOne(n: Numeral) {
    var r := Scaled(n);
    Pow10(r.1) <= r.0 < 2 * Pow10(r.1)
  }

  /** Two numerals denote the same number. */
  predicate SameNumber(a: Numeral, b: Numeral) {
    Scaled(a).0 * Pow10(Scaled(b).1) == Scaled(b).0 * Pow10(Scaled(a).1)
  }

  /** The numeral of an integer denotes that integer. */
  lemma ScaledInt(i: int)
    ensures Scaled(Numeral(i < 0, if i < 0 then -i else i, 0, 0, false, false)) == (i, 0)
  {
    assert Pow10(0) == 1;
  }

  /** A numeral with k digits after the point and no exponent denotes m / 10^k. */
  lemma ScaledDecimal(m: nat, k: nat)
    ensures Scaled(Numeral(false, m, k, 0, true, false)) == (m, k)
  {
    assert Pow10(0) == 1;
  }

  /** An integer as PHP prints it is a numeric string denoting that integer. */
  lemma IntToStringNumeric(i: int)
    ensures ParseNumeric(IntToString(i)) == Some(Numeral(i < 0, if i < 0 then -i else i, 0, 0, false, false))
  {
    var a: nat := if i < 0 then -i else i;
    NatToStringDigits(a);
    IntTextUnpadded(i);
    UnpaddedNumeric(IntToString(i));
    IntTextCore(i);
    UnsignedDigits(i < 0, NatToString(a));
  }

  lemma IntTextUnpadded(i: int)
    ensures var s := IntToString(i);
      !IsNumericSpace(s[0]) && !IsNumericSpace(s[|s| - 1])
  {
    var a: nat := if i < 0 then -i else i;
    var s := IntToString(i);
    NatToStringDigits(a);
    var d := NatToString(a);
    assert !IsNumericSpace(s[0]) by { if i < 0 { assert s[0] == '-'; } else { assert IsDigit(d[0]); } }
    assert IsDigit(s[|s| - 1]) by { assert s[|s| - 1] == d[|d| - 1]; }
  }

  lemma IntTextCore(i: int)
    ensures ParseCore(IntToString(i)) == ParseUnsigned(i < 0, NatToString(if i < 0 then -i else i))
  {
    var a: nat := if i < 0 then -i else i;
    var s := IntToString(i);
    var d := NatToString(a);
    if i >= 0 {
      NatToStringDigits(a);
      assert IsDigit(s[0]);
    } else {
      assert s[1..] == d;
    }
  }

  /** A non-empty run of digits is an integer numeral. */
  lemma UnsignedDigits(negative: bool, d: string)
    requires d != [] && AllDigits(d)
    ensures ParseUnsigned(negative, d) == Some(Numeral(negative, DigitsValue(d), 0, 0, false, false))
  {
    DigitRunAll(d);
    assert d[..|d|] == d && d + "" == d && d[|d|..] == [];
  }

  /** digits "." digits is a numeric string with a point and no exponent. */
  lemma DecimalNumeric(whole: string, f: string)
    requires whole != [] && AllDigits(whole) && AllDigits(f)
    ensures AllDigits(whole + f)
    ensures ParseNumeric(whole + "." + f)
         == Some(Numeral(false, DigitsValue(whole + f), |f|, 0, true, false))
  {
    DigitsValueAppend(whole, f);
    var s := whole + "." + f;
    assert IsDigit(s[0]);
    assert !IsNumericSpace(s[|s| - 1]) by {
      if f == [] { assert s[|s| - 1] == '.'; } else { assert s[|s| - 1] == f[|f| - 1]; }
    }
    calc {
      ParseNumeric(s);
      { UnpaddedNumeric(s); }
      ParseCore(s);
      ParseUnsigned(false, s);
      { UnsignedDecimal(whole, f); }
      ParseTail(false, whole, f, true, []);
      { assert ParseExponent([]) == Some((false, 0)); }
      Some(Numeral(false, DigitsValue(whole + f), |f|, 0, true, false));
    }
  }

  /** Surrounding whitespace is all that ParseNumeric strips before parsing. */
  lemma UnpaddedNumeric(s: string)
    requires s != [] && !IsNumericSpace(s[0]) && !IsNumericSpace(s[|s| - 1])
    ensures ParseNumeric(s) == ParseCore(s)
  {
    TrimLeftNoop(s, IsNumericSpace);
    TrimRightNoop(s, IsNumericSpace);
  }

  lemma UnsignedDecimal(d: string, f: string)
    requires AllDigits(d) && AllDigits(f)
    ensures ParseUnsigned(false, d + "." + f) == ParseTail(false, d, f, true, [])
  {
    SplitAtPoint(d, f);
    var s := d + "." + f;
    var k := DigitRun(s);
    var v := s[k + 1..];
    DigitRunAll(f);
    assert v[..DigitRun(v)] == f && v[DigitRun(v)..] == [];
  }

  lemma SplitAtPoint(d: string, f: string)
    requires AllDigits(d)
    ensures DigitRun(d + "." + f) == |d|
    ensures (d + "." + f)[|d|] == '.' && (d + "." + f)[..|d|] == d && (d + "." + f)[|d| + 1..] == f
  {
    var s := d + "." + f;
    assert s[..|d|] == d;
    DigitRunPrefix(s, |d|);
  }

  /** A second decimal point makes a string non-numeric: "1.2.3" is not a
      number. */
  lemma SecondPointRejected(d: string, f: string, rest: string)
    requires d != [] && AllDigits(d) && AllDigits(f)
    requires rest == [] || !IsNumericSpace(rest[|rest| - 1])
    ensures ParseNumeric(d + "." + f + "." + rest) == None
  {
    var v := f + "." + rest;
    var s := d + "." + v;
    assert s == d + "." + f + "." + rest;
    assert s[0] == d[0];
    assert !IsNumericSpace(s[|s| - 1]) by {
      if rest == [] { assert s[|s| - 1] == '.'; } else { assert s[|s| - 1] == rest[|rest| - 1]; }
    }
    UnpaddedNumeric(s);
    assert ParseCore(s) == ParseUnsigned(false, s);
    SecondPointTail(d, f, rest);
  }

  lemma SecondPointTail(d: string, f: string, rest: string)
    requires AllDigits(d) && AllDigits(f)
    ensures ParseUnsigned(false, d + "." + (f + "." + rest)) == None
  {
    var v := f + "." + rest;
    SplitAtPoint(d, v);
    SplitAtPoint(f, rest);
    var t := v[DigitRun(v)..];
    assert t[0] == '.';
    assert ParseExponent(t) == None;
    assert ParseUnsigned(false, d + "." + v) == ParseTail(false, d, f, true, t);
  }

  lemma {:induction false} DigitRunPrefix(s: string, k: nat)
    requires k <= |s| && AllDigits(s[..k]) && (k == |s| || !IsDigit(s[k]))
    ensures DigitRun(s) == k
  {
    if k > 0 {
      assert s[1..][..k - 1] == s[..k][1..];
      DigitRunPrefix(s[1..], k - 1);
    }
  }

  // ---------------------------------------------------------------------
  // The alphabet of numeric strings

  /** The only characters a numeric string can contain. */
  predicate IsNumericChar(c: char) {
    IsDigit(c) || c == '+' || c == '-' || c == '.' || c == 'e' || c == 'E' || IsNumericSpace(c)
  }

  predicate AllNumericChars(s: string) {
    forall i :: 0 <= i < |s| ==> IsNumericChar(s[i])
  }

  lemma ExponentChars(t: string)
    requires ParseExponent(t).Some?
    ensures AllNumericChars(t)
  {
    if t != [] {
      var u := t[1..];
      var v := if u != [] && (u[0] == '-' || u[0] == '+') then u[1..] else u;
      assert v[..DigitRun(v)] == v;
      forall i | 0 <= i < |t| ensures IsNumericChar(t[i]) {
        if i >= |t| - |v| {
          assert t[i] == v[i - (|t| - |v|)];
        }
      }
    }
  }

  lemma UnsignedChars(negative: bool, u: string)
    requires ParseUnsigned(negative, u).Some?
    ensures AllNumericChars(u)
  {
    var k := DigitRun(u);
    if k < |u| && u[k] == '.' {
      var v := u[k + 1..];
      var j := DigitRun(v);
      ExponentChars(v[j..]);
      forall i | 0 <= i < |u| ensures IsNumericChar(u[i]) {
        if i < k {
          assert u[i] == u[..k][i];
        } else if k < i < k + 1 + j {
          assert u[i] == v[..j][i - k - 1];
        } else if i >= k + 1 + j {
          assert u[i] == v[j..][i - k - 1 - j];
        }
      }
    } else {
      ExponentChars(u[k..]);
      forall i | 0 <= i < |u| ensures IsNumericChar(u[i]) {
        if i < k {
          assert u[i] == u[..k][i];
        } else {
          assert u[i] == u[k..][i - k];
        }
      }
    }
  }

  lemma CoreChars(t: string)
    requires ParseCore(t).Some?
    ensures AllNumericChars(t)
  {
    if t != [] && (t[0] == '-' || t[0] == '+') {
      UnsignedChars(t[0] == '-', t[1..]);
      forall i | 1 <= i < |t| ensures IsNumericChar(t[i]) {
        assert t[i] == t[1..][i - 1];
      }
    } else {
      UnsignedChars(false, t);
    }
  }

  /** Every character of a string is_numeric() accepts is a digit, a sign, the
      point, an exponent letter or surrounding whitespace. */
  lemma NumericChars(s: string)
    requires ParseNumeric(s).Some?
    ensures AllNumericChars(s)
  {
    var l := TrimLeft(s, IsNumericSpace);
    var t := TrimRight(l, IsNumericSpace);
    CoreChars(t);
    PaddedChars(l, t);
    PaddedChars(s, l);
  }

  /** Padding a string of numeric characters with whitespace keeps it one. */
  lemma PaddedChars(s: string, t: string)
    requires AllNumericChars(t)
    requires t == TrimLeft(s, IsNumericSpace) || t == TrimRight(s, IsNumericSpace)
    ensures AllNumericChars(s)
  {
    if t == TrimLeft(s, IsNumericSpace) {
      SpacesThenChars(s, |s| - |t|);
    } else {
      CharsThenSpaces(s, |t|);
    }
  }

  lemma SpacesThenChars(s: string, n: nat)
    requires n <= |s| && AllNumericChars(s[n..])
    requires forall i :: 0 <= i < n ==> IsNumericSpace(s[i])
    ensures AllNumericChars(s)
  {
    forall i | n <= i < |s| ensures IsNumericChar(s[i]) {
      assert s[i] == s[n..][i - n];
    }
  }

  lemma CharsThenSpaces(s: string, n: nat)
    requires n <= |s| && AllNumericChars(s[..n])
    requires forall i :: n <= i < |s| ==> IsNumericSpace(s[i])
    ensures AllNumericChars(s)
  {
    forall i | 0 <= i < n ensures IsNumericChar(s[i]) {
      assert s[i] == s[..n][i];
    }
  }
}
