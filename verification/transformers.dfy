/**
  The value transformers the payload mapper applies to raw form fields:
  mfla_to_bool, mfla_format_date, mfla_to_numeric and the inline
  digits-only cleaner used for the NID and the phone numbers.
 */
module Transformers {
  import opened Options
  import opened Strings
  import opened Numeric
  import opened Values
  import opened Calendar

  // ---------------------------------------------------------------------
  // mfla_format_date: 'd-m-Y' to 'Y-m-d'

  /** "DD-MM-YYYY": two digits, a dash, two digits, a dash, four digits. */
  predicate DmyShape(t: string) {
    |t| == 10 && t[2] == '-' && t[5] == '-'
    && AllDigits(t[0..2]) && AllDigits(t[3..5]) && AllDigits(t[6..10])
  }

  /** DateTime::createFromFormat('d-m-Y', $t) followed by the check that
      format('d-m-Y') gives $t back: only a zero-padded day, month and
      four-digit year naming a day of the calendar survive the round trip. */
  predicate DmyRoundTrips(t: string) {
    DmyShape(t)
    && ValidDate(DigitsValue(t[0..2]), DigitsValue(t[3..5]), DigitsValue(t[6..10]))
  }

  /** mfla_format_date($v): null for empty or non-string input and for
      anything that is not a strict 'd-m-Y' date once trimmed; otherwise the
      same date as 'Y-m-d'. */
  function FormatDate(v: Value): (r: Value)
    ensures r == Null || (r.Str? && |r.s| == 10)
    ensures !v.Str? ==> r == Null
  {
    if IsEmpty(v) || !v.Str? then Null
    else
      var t := Trim(v.s);
      if DmyRoundTrips(t) then Str(t[6..10] + "-" + t[3..5] + "-" + t[0..2]) else Null
  }

  /** The pieces of a 'd-m-Y' rendering, read back, give the date again. */
  lemma DmyTextParts(d: int, m: int, y: int)
    requires Printable(d, m, y)
    ensures DmyRoundTrips(DmyText(d, m, y)) <==> ValidDate(d, m, y)
    ensures var t := DmyText(d, m, y);
      t[6..10] + "-" + t[3..5] + "-" + t[0..2] == YmdText(d, m, y)
  {
    var t := DmyText(d, m, y);
    var dd, mm, yy := Pad2(d), Pad2(m), Pad4(y);
    assert t == dd + "-" + mm + "-" + yy;
    assert t[0..2] == dd && t[3..5] == mm && t[6..10] == yy;
  }

  /** Every date of the calendar, written 'd-m-Y' with any surrounding
      whitespace trim() strips, comes out as the same date written 'Y-m-d'. */
  lemma FormatDateAccepts(before: string, d: int, m: int, y: int, after: string)
    requires forall i :: 0 <= i < |before| ==> IsTrimChar(before[i])
    requires forall i :: 0 <= i < |after| ==> IsTrimChar(after[i])
    requires ValidDate(d, m, y)
    ensures FormatDate(Str(before + DmyText(d, m, y) + after)) == Str(YmdText(d, m, y))
  {
    var t := DmyText(d, m, y);
    DmyTextParts(d, m, y);
    assert IsDigit(t[0]) && IsDigit(t[9]);
    TrimPadded(before, t, after);
    var s := before + t + after;
    assert |s| >= 10;
    assert Truthy(Str(s)) by { assert s != "0"; }
  }

  /** Conversely, a non-null result always comes from an input that trims to
      a calendar date written 'd-m-Y', and is that date written 'Y-m-d'. */
  lemma FormatDateSound(v: Value)
    requires FormatDate(v) != Null
    ensures v.Str?
    ensures exists d, m, y :: ValidDate(d, m, y) && Trim(v.s) == DmyText(d, m, y)
                                && FormatDate(v) == Str(YmdText(d, m, y))
  {
    var t := Trim(v.s);
    var dd, mm, yy := t[0..2], t[3..5], t[6..10];
    var d, m, y := DigitsValue(dd), DigitsValue(mm), DigitsValue(yy);
    Pad2OfDigits(dd);
    Pad2OfDigits(mm);
    Pad4OfDigits(yy);
    assert t == dd + "-" + mm + "-" + yy;
    assert ValidDate(d, m, y) && t == DmyText(d, m, y) && FormatDate(v) == Str(YmdText(d, m, y));
  }

  /** An input with nothing to trim is refused when it does not round-trip. */
  lemma FormatDateRefusesLiteral(t: string)
    requires t != [] && !IsTrimChar(t[0]) && !IsTrimChar(t[|t| - 1])
    requires !DmyRoundTrips(t)
    ensures FormatDate(Str(t)) == Null
  {
    TrimLeftNoop(t, IsTrimChar);
    TrimRightNoop(t, IsTrimChar);
  }

  /** 31 February does not exist in any year. */
  lemma FormatDateRejectsMissingDay()
    ensures FormatDate(Str("31-02-2024")) == Null
  {
    var t := "31-02-2024";
    assert !DmyRoundTrips(t) by {
      DigitsValueTwo(t[0..2]);
      DigitsValueTwo(t[3..5]);
      assert DigitsValue(t[0..2]) == 31 && DigitsValue(t[3..5]) == 2;
    }
    FormatDateRefusesLiteral(t);
  }

  /** A day without its leading zero does not survive the round trip. */
  lemma FormatDateRejectsUnpadded()
    ensures FormatDate(Str("1-02-2024")) == Null
  {
    FormatDateRefusesLiteral("1-02-2024");
  }

  /** Every day, month and year as 'd-m-Y' prints them is accepted exactly
      when they name a day of the calendar: "29-02-2024" becomes
      "2024-02-29", while "29-02-2023" and "30-04-2024" give null. */
  lemma FormatDateOfRendering(d: int, m: int, y: int)
    requires Printable(d, m, y)
    ensures FormatDate(Str(DmyText(d, m, y)))
         == if ValidDate(d, m, y) then Str(YmdText(d, m, y)) else Null
  {
    var t := DmyText(d, m, y);
    DmyTextParts(d, m, y);
    assert IsDigit(t[0]) && IsDigit(t[9]);
    TrimNoop(t);
    assert Truthy(Str(t)) by { assert |t| == 10; }
  }

  // ---------------------------------------------------------------------
  // mfla_to_bool

  /** The normalisation applied before the word comparison: the five
      lower-case accented vowels replaced, then trim(), then strtolower(). */
  function Normalize(s: string): (r: string)
    ensures |r| <= |s|
  {
    LowerAscii(Trim(StripAccents(s)))
  }

  predicate IsAffirmative(w: string) {
    w == "si" || w == "yes" || w == "accepted"
  }

  /** mfla_to_bool($v): a boolean as is; a number (or numeric string) is true
      when (int)$v === 1; any other string is true when its normalised form is
      one of the affirmative words; null is false. */
  function ToBool(v: RawValue): (r: bool)
    ensures v.Bool? ==> r == v.b
    ensures v.Null? ==> !r
  {
    match v
    case Bool(b) => b
    case Int(i) => i == 1
    case Null => false
    case Str(s) =>
      match ParseNumeric(s)
      case Some(n) => CastsToOne(n)
      case None => IsAffirmative(Normalize(s))
  }

  /** The first character of a normalised string comes from the input. */
  lemma NormalizeFirst(s: string)
    requires Normalize(s) != []
    ensures exists j :: 0 <= j < |s| && Normalize(s)[0] == LowerChar(StripAccent(s[j]))
  {
    var x := StripAccents(s);
    var l := TrimLeft(x, IsTrimChar);
    var t := TrimRight(l, IsTrimChar);
    assert t[0] == l[0];
    var j := |x| - |l|;
    assert l[0] == x[j];
    assert Normalize(s)[0] == LowerChar(StripAccent(s[j]));
  }

  lemma LowerStripNumeric(c: char)
    requires IsNumericChar(c)
    ensures IsNumericChar(LowerChar(StripAccent(c)))
  {
  }

  /** A numeric string normalises to something that starts with a character
      of the numeric alphabet, hence never to a word. */
  lemma NormalizedNumericFirst(s: string)
    requires IsNumeric(s) && Normalize(s) != []
    ensures IsNumericChar(Normalize(s)[0])
  {
    NumericChars(s);
    NormalizeFirst(s);
    var j :| 0 <= j < |s| && Normalize(s)[0] == LowerChar(StripAccent(s[j]));
    LowerStripNumeric(s[j]);
  }

  /** Every spelling whose normalised form is "si", "yes" or "accepted" is
      true: such a string cannot be numeric, so it reaches the word test. */
  lemma ToBoolAffirmative(s: string)
    requires IsAffirmative(Normalize(s))
    ensures ToBool(Str(s))
  {
    AffirmativeNotNumeric(Normalize(s));
    if IsNumeric(s) {
      NormalizedNumericFirst(s);
      assert false;
    }
    ToBoolWord(s);
  }

  lemma AffirmativeNotNumeric(w: string)
    requires IsAffirmative(w)
    ensures w != [] && !IsNumericChar(w[0])
  {
  }

  /** A string that is not numeric is judged by its normalised form alone. */
  lemma ToBoolWord(s: string)
    requires !IsNumeric(s)
    ensures ToBool(Str(s)) == IsAffirmative(Normalize(s))
  {
  }

  /** An integer and its decimal string are read alike, and both are true
      exactly for 1. */
  lemma ToBoolIntText(i: int)
    ensures ToBool(Str(IntToString(i))) <==> i == 1
    ensures ToBool(Int(i)) == ToBool(Str(IntToString(i)))
  {
    IntToStringNumeric(i);
    ScaledInt(i);
  }

  /** A decimal string is true exactly when its value lies in [1, 2), which is
      what (int) truncation toward zero makes of it: "1.5" is true, "2.0" and
      "0.9" are not. */
  lemma ToBoolDecimal(whole: string, f: string)
    requires whole != [] && AllDigits(whole) && AllDigits(f)
    ensures var n := DigitsValue(whole) * Pow10(|f|) + DigitsValue(f);
      ToBool(Str(whole + "." + f)) <==> Pow10(|f|) <= n < 2 * Pow10(|f|)
  {
    DecimalNumeric(whole, f);
    DigitsValueAppend(whole, f);
  }

  /** " Sí " is affirmative; "SÍ" is not: only the lower-case accented
      vowels are replaced, and strtolower() leaves non-ASCII letters alone. */
  lemma ToBoolAccentedYes(s: string)
    requires s == " Sí "
    ensures ToBool(Str(s))
  {
    var x := StripAccents(s);
    assert |x| == 4 && x[0] == ' ' && x[1] == 'S' && x[2] == 'i' && x[3] == ' ';
    var core := x[1..3];
    assert x == x[..1] + core + x[3..];
    TrimPadded(x[..1], core, x[3..]);
    var w := LowerAscii(core);
    assert w == "si" by { assert |w| == 2 && w[0] == 's' && w[1] == 'i'; }
    assert Normalize(s) == w;
    ToBoolAffirmative(s);
  }

  lemma ToBoolUpperAccent(s: string)
    requires s == "SÍ"
    ensures !ToBool(Str(s))
  {
    NotNumericStart(s);
    UpperAccentNormalized(s);
    ToBoolWord(s);
  }

  /** A string that starts outside the numeric alphabet is not numeric. */
  lemma NotNumericStart(s: string)
    requires s != [] && !IsNumericChar(s[0])
    ensures !IsNumeric(s)
  {
    if IsNumeric(s) {
      NumericChars(s);
      assert false;
    }
  }

  lemma UpperAccentNormalized(s: string)
    requires s == "SÍ"
    ensures !IsAffirmative(Normalize(s))
  {
    assert |s| == 2 && s[0] == 'S' && s[1] == 'Í';
    var x := StripAccents(s);
    assert |x| == 2 && x[0] == 'S' && x[1] == 'Í';
    TrimNoop(x);
    var w := LowerAscii(x);
    assert Normalize(s) == w;
    assert |w| == 2 && w[1] == 'Í';
    assert w != "si" by { assert "si"[1] == 'i'; }
  }

  // ---------------------------------------------------------------------
  // mfla_to_numeric

  /** What preg_replace('/[^\d.-]/', '', ...) keeps. */
  predicate IsNumberChar(c: char) {
    IsDigit(c) || c == '.' || c == '-'
  }

  /** mfla_to_numeric($v): null for null or blank input; otherwise every
      character but digits, '.' and '-' is removed, a non-numeric remainder
      gives null, and a numeric one gives a decimal when it has a point and an
      integer when it has none. */
  function ToNumeric(v: RawValue): (r: Value)
    ensures r == Null || r.Int? || r.Float?
    ensures v.Null? ==> r == Null
  {
    if v.Null? || Trim(Text(v)) == "" then Null
    else NumberOf(Keep(Trim(Text(v)), IsNumberChar))
  }

  /** The number a cleaned string denotes: null unless is_numeric, else a
      decimal exactly when the string has a point. */
  function NumberOf(cleaned: string): (r: Value)
    ensures r == Null <==> ParseNumeric(cleaned).None?
    ensures r.Float? <==> r != Null && '.' in cleaned
    ensures r == Null || r.Int? || r.Float?
  {
    match ParseNumeric(cleaned)
    case None => Null
    case Some(n) =>
      if '.' in cleaned then Float(Scaled(n).0, Scaled(n).1) else Int(Scaled(n).0)
  }

  /** A string that is its own cleaning has nothing for trim() to strip. */
  lemma CleanedIsTrimmed(t: string)
    requires Keep(t, IsNumberChar) == t
    ensures Trim(t) == t
  {
    if t != [] {
      var k := Keep(t, IsNumberChar);
      assert IsNumberChar(k[0]) && IsNumberChar(k[|k| - 1]);
    }
    TrimNoop(t);
  }

  /** Currency symbols, grouping commas, spaces and any other noise do not
      matter: the result is that of the cleaned string. */
  lemma ToNumericIgnoresNoise(s: string)
    ensures ToNumeric(Str(s)) == ToNumeric(Str(Keep(s, IsNumberChar)))
  {
    KeepOfTrim(s);
    if Keep(s, IsNumberChar) == [] {
      NoNumberChars(s);
    } else {
      SomeNumberChars(s);
    }
  }

  lemma NoNumberChars(s: string)
    requires Keep(Trim(s), IsNumberChar) == Keep(s, IsNumberChar) == []
    ensures ToNumeric(Str(s)) == Null == ToNumeric(Str([]))
  {
    NothingNumeric();
  }

  lemma SomeNumberChars(s: string)
    requires Keep(Trim(s), IsNumberChar) == Keep(s, IsNumberChar) != []
    ensures ToNumeric(Str(s)) == ToNumeric(Str(Keep(s, IsNumberChar)))
  {
    var c := Keep(s, IsNumberChar);
    var t := Trim(s);
    assert Keep([], IsNumberChar) == [];
    assert t != [];
    assert ToNumeric(Str(s)) == NumberOf(c) by {
      assert Text(Str(s)) == s;
    }
    KeepIdempotent(s, IsNumberChar);
    ToNumericOfCleaned(c);
  }

  lemma NothingNumeric()
    ensures ParseNumeric([]) == None
  {
  }

  /** trim() never removes a character the cleaning would keep. */
  lemma KeepOfTrim(s: string)
    ensures Keep(Trim(s), IsNumberChar) == Keep(s, IsNumberChar)
  {
    var front, back := TrimSplit(s);
    var t := Trim(s);
    KeepAppend(front, t, IsNumberChar);
    KeepAppend(front + t, back, IsNumberChar);
    forall i | 0 <= i < |front| ensures !IsNumberChar(front[i]) {
    }
    forall i | 0 <= i < |back| ensures !IsNumberChar(back[i]) {
    }
    KeepNone(front, IsNumberChar);
    KeepNone(back, IsNumberChar);
  }

  /** On a non-empty string of digits, '.' and '-', only the numeric test
      and the point test remain. */
  lemma ToNumericOfCleaned(t: string)
    requires t != [] && Keep(t, IsNumberChar) == t
    ensures ToNumeric(Str(t)) == NumberOf(t)
  {
    CleanedIsTrimmed(t);
  }

  lemma IntTextCleaned(i: int)
    ensures Keep(IntToString(i), IsNumberChar) == IntToString(i)
    ensures '.' !in IntToString(i)
  {
    var s := IntToString(i);
    NatToStringDigits(if i < 0 then -i else i);
    forall k | 0 <= k < |s| ensures IsDigit(s[k]) || s[k] == '-' {
      if i < 0 && k > 0 { assert s[k] == NatToString(-i)[k - 1]; }
    }
    KeepAll(s, IsNumberChar);
  }

  /** An integer, as an int or written out, comes back as the same integer. */
  lemma ToNumericInt(i: int)
    ensures ToNumeric(Int(i)) == Int(i)
    ensures ToNumeric(Str(IntToString(i))) == Int(i)
  {
    var s := IntToString(i);
    IntTextCleaned(i);
    IntToStringNumeric(i);
    ToNumericOfCleaned(s);
    ScaledInt(i);
  }

  lemma DecimalCleaned(whole: string, f: string)
    requires AllDigits(whole) && AllDigits(f)
    ensures Keep(whole + "." + f, IsNumberChar) == whole + "." + f
  {
    var s := whole + "." + f;
    forall k | 0 <= k < |s| ensures IsNumberChar(s[k]) {
      if k < |whole| { assert s[k] == whole[k]; }
      else if k > |whole| { assert s[k] == f[k - |whole| - 1]; }
    }
    KeepAll(s, IsNumberChar);
  }

  /** digits "." digits comes back as the exact decimal it writes: all its
      digits as the mantissa, scaled by the number of fraction digits. */
  lemma ToNumericDecimal(whole: string, f: string)
    requires whole != [] && AllDigits(whole) && AllDigits(f)
    ensures ToNumeric(Str(whole + "." + f)) == Float(DigitsValue(whole + f), |f|)
  {
    var s := whole + "." + f;
    DecimalCleaned(whole, f);
    ToNumericOfCleaned(s);
    NumberOfDecimal(whole, f);
  }

  lemma NumberOfDecimal(whole: string, f: string)
    requires whole != [] && AllDigits(whole) && AllDigits(f)
    ensures NumberOf(whole + "." + f) == Float(DigitsValue(whole + f), |f|)
  {
    var s := whole + "." + f;
    DecimalNumeric(whole, f);
    var m := DigitsValue(whole + f);
    assert '.' in s by { assert s[|whole|] == '.'; }
    ScaledDecimal(m, |f|);
  }

  lemma NumberCharsCleaned(t: string)
    requires forall i :: 0 <= i < |t| ==> IsNumberChar(t[i])
    ensures Keep(t, IsNumberChar) == t
  {
    KeepAll(t, IsNumberChar);
  }

  /** A cleaned remainder that is not a number gives null: a lone sign, two
      points, a sign inside the digits, or nothing left at all. */
  lemma ToNumericRejects(s: string)
    requires s == "-" || s == "1.2.3" || s == "1-2" || s == "abc"
    ensures ToNumeric(Str(s)) == Null
  {
    if s == "-" {
      ToNumericRejectsDash(s);
    } else if s == "1.2.3" {
      ToNumericRejectsPoints(s);
    } else if s == "1-2" {
      ToNumericRejectsInnerMinus(s);
    } else {
      ToNumericRejectsLetters(s);
    }
  }

  lemma ToNumericRejectsDash(s: string)
    requires s == "-"
    ensures ToNumeric(Str(s)) == Null
  {
    NumberCharsCleaned(s);
    ToNumericOfCleaned(s);
    RejectsDash();
  }

  lemma ToNumericRejectsPoints(s: string)
    requires s == "1.2.3"
    ensures ToNumeric(Str(s)) == Null
  {
    assert s == "1" + "." + "2" + "." + "3";
    ToNumericRejectsTwoPoints("1", "2", "3");
  }

  lemma ToNumericRejectsLetters(s: string)
    requires s == "abc"
    ensures ToNumeric(Str(s)) == Null
  {
    assert !IsNumberChar(s[0]) && !IsNumberChar(s[1]) && !IsNumberChar(s[2]);
    NoNumberCharIsNull(s);
  }

  /** A string with no digit, point or minus gives null. */
  lemma NoNumberCharIsNull(s: string)
    requires forall i :: 0 <= i < |s| ==> !IsNumberChar(s[i])
    ensures ToNumeric(Str(s)) == Null
  {
    KeepNone(s, IsNumberChar);
    KeepOfTrim(s);
    NoNumberChars(s);
  }

  /** A cleaned string that is_numeric rejects gives null. */
  lemma CleanedNotNumericIsNull(t: string)
    requires t != [] && Keep(t, IsNumberChar) == t && ParseNumeric(t).None?
    ensures ToNumeric(Str(t)) == Null
  {
    ToNumericOfCleaned(t);
  }

  /** A cleaned string with two points is not a number. */
  lemma ToNumericRejectsTwoPoints(d: string, f: string, rest: string)
    requires d != [] && AllDigits(d) && AllDigits(f) && AllDigits(rest)
    ensures ToNumeric(Str(d + "." + f + "." + rest)) == Null
  {
    TwoPointsCleaned(d, f, rest);
    SecondPointRejected(d, f, rest);
    CleanedNotNumericIsNull(d + "." + f + "." + rest);
  }

  lemma TwoPointsCleaned(d: string, f: string, rest: string)
    requires AllDigits(d) && AllDigits(f) && AllDigits(rest)
    ensures Keep(d + "." + f + "." + rest, IsNumberChar) == d + "." + f + "." + rest
  {
    var s := d + "." + f + "." + rest;
    forall k | 0 <= k < |s| ensures IsNumberChar(s[k]) {
      if k < |d| { assert s[k] == d[k]; }
      else if |d| < k < |d| + 1 + |f| { assert s[k] == f[k - |d| - 1]; }
      else if k > |d| + 1 + |f| { assert s[k] == rest[k - |d| - |f| - 2]; }
    }
    NumberCharsCleaned(s);
  }

  lemma ToNumericRejectsInnerMinus(s: string)
    requires s == "1-2"
    ensures ToNumeric(Str(s)) == Null
  {
    NumberCharsCleaned(s);
    ToNumericOfCleaned(s);
    RejectsInnerMinus();
  }

  lemma RejectsDash()
    ensures ParseNumeric("-") == None
  {
    TrimLeftNoop("-", IsNumericSpace);
    TrimRightNoop("-", IsNumericSpace);
    assert ParseCore("-") == ParseUnsigned(true, "");
  }

  lemma RejectsInnerMinus()
    ensures ParseNumeric("1-2") == None
  {
    var s := "1-2";
    TrimLeftNoop(s, IsNumericSpace);
    TrimRightNoop(s, IsNumericSpace);
    DigitRunPrefix(s, 1);
    assert s[1..] == "-2";
    assert ParseExponent("-2") == None;
  }

  // ---------------------------------------------------------------------
  // preg_replace('/[^\d]/', '', (string)$val): the NID and phone cleaner

  function DigitsOnly(v: RawValue): (r: string)
    ensures AllDigits(r)
    ensures |r| <= |Text(v)|
  {
    Keep(Text(v), IsDigit)
  }

  /** Cleaning twice is cleaning once, and a string of digits is kept whole. */
  lemma DigitsOnlyIdempotent(v: RawValue)
    ensures DigitsOnly(Str(DigitsOnly(v))) == DigitsOnly(v)
  {
    KeepIdempotent(Text(v), IsDigit);
  }

  lemma DigitsOnlyKeepsDigits(s: string)
    requires AllDigits(s)
    ensures DigitsOnly(Str(s)) == s
  {
    KeepAll(s, IsDigit);
  }

  /** A string without any digit is cleaned to "", not to null. */
  lemma DigitsOnlyNoDigits(s: string)
    requires forall i :: 0 <= i < |s| ==> !IsDigit(s[i])
    ensures DigitsOnly(Str(s)) == ""
  {
    KeepNone(s, IsDigit);
  }

  /** A non-digit between two parts only disappears. */
  lemma KeepDigitsAround(x: string, sep: char, y: string)
    requires !IsDigit(sep)
    ensures Keep(x + [sep] + y, IsDigit) == Keep(x, IsDigit) + Keep(y, IsDigit)
  {
    KeepAppend(x + [sep], y, IsDigit);
    KeepAppend(x, [sep], IsDigit);
    KeepNone([sep], IsDigit);
  }

  /** The separators of a formatted id number, as in "001-1234567-8", are
      dropped and the digit groups kept in order. */
  lemma DigitsOnlyDropsSeparators(a: string, b: string, c: string)
    requires AllDigits(a) && AllDigits(b) && AllDigits(c)
    ensures DigitsOnly(Str(a + "-" + b + "-" + c)) == a + b + c
  {
    assert a + "-" + b + "-" + c == (a + ['-'] + b) + ['-'] + c;
    KeepDigitsAround(a + ['-'] + b, '-', c);
    KeepDigitsAround(a, '-', b);
    KeepAll(a, IsDigit);
    KeepAll(b, IsDigit);
    KeepAll(c, IsDigit);
  }
}
