/**
  String helpers with the behaviour of the PHP built-ins the relay plugin uses:
  trim/ltrim/rtrim with a character class, preg_replace with a negated
  character class (keep only some characters), ASCII strtolower, and the
  decimal rendering of integers that PHP's (string) cast produces.
  Strings are sequences of characters; PHP works on UTF-8 bytes, which gives
  the same results here because every character these helpers test or
  rewrite is either ASCII or replaced as a whole code point.
 */
module Strings {

  // ---------------------------------------------------------------------
  // Character classes

  /** The characters PHP's trim() strips by default: " \t\n\r\0\x0B". */
  predicate IsTrimChar(c: char) {
    c == ' ' || c == '\t' || c == '\n' || c == '\r' || c == '\0' || c == '\U{B}'
  }

  /** \d in a PCRE pattern without the u flag: an ASCII digit. */
  predicate IsDigit(c: char) {
    '0' <= c <= '9'
  }

  predicate AllDigits(s: string) {
    forall i :: 0 <= i < |s| ==> IsDigit(s[i])
  }

  function DigitValue(c: char): (d: nat)
    requires IsDigit(c)
    ensures d < 10
  {
    c as int - '0' as int
  }

  function Digit(n: nat): (c: char)
    requires n < 10
    ensures IsDigit(c) && DigitValue(c) == n
  {
    ('0' as int + n) as char
  }

  // ---------------------------------------------------------------------
  // trim, ltrim, rtrim

  /** ltrim($s, <class p>): drop the longest prefix made of characters in p. */
  function TrimLeft(s: string, p: char -> bool): (r: string)
    ensures |r| <= |s| && r == s[|s| - |r|..]
    ensures r == [] || !p(r[0])
    ensures forall i :: 0 <= i < |s| - |r| ==> p(s[i])
  {
    if s != [] && p(s[0]) then TrimLeft(s[1..], p) else s
  }

  /** rtrim($s, <class p>): drop the longest suffix made of characters in p. */
  function TrimRight(s: string, p: char -> bool): (r: string)
    ensures |r| <= |s| && r == s[..|r|]
    ensures r == [] || !p(r[|r| - 1])
    ensures forall i :: |r| <= i < |s| ==> p(s[i])
  {
    if s != [] && p(s[|s| - 1]) then TrimRight(s[..|s| - 1], p) else s
  }

  /** PHP trim($s) with the default character class. */
  function Trim(s: string): (r: string)
    ensures |r| <= |s|
    ensures r == [] || (!IsTrimChar(r[0]) && !IsTrimChar(r[|r| - 1]))
  {
    TrimRight(TrimLeft(s, IsTrimChar), IsTrimChar)
  }

  /** Trimming a string that has no strippable character at either end changes nothing. */
  lemma TrimLeftNoop(s: string, p: char -> bool)
    requires s == [] || !p(s[0])
    ensures TrimLeft(s, p) == s
  {
  }

  lemma TrimRightNoop(s: string, p: char -> bool)
    requires s == [] || !p(s[|s| - 1])
    ensures TrimRight(s, p) == s
  {
  }

  lemma TrimNoop(s: string)
    requires s != [] ==> !IsTrimChar(s[0]) && !IsTrimChar(s[|s| - 1])
    ensures Trim(s) == s
  {
    if s != [] {
      TrimLeftNoop(s, IsTrimChar);
      TrimRightNoop(s, IsTrimChar);
    }
  }

  /** A string made only of strippable characters trims to "". */
  lemma TrimBlank(s: string)
    requires forall i :: 0 <= i < |s| ==> IsTrimChar(s[i])
    ensures Trim(s) == []
  {
    TrimLeftAll(s, IsTrimChar);
  }

  lemma {:induction false} TrimLeftAll(s: string, p: char -> bool)
    requires forall i :: 0 <= i < |s| ==> p(s[i])
    ensures TrimLeft(s, p) == []
  {
    if s != [] {
      TrimLeftAll(s[1..], p);
    }
  }

  lemma TrimLeftSplit(s: string, p: char -> bool) returns (front: string)
    ensures s == front + TrimLeft(s, p)
    ensures forall i :: 0 <= i < |front| ==> p(front[i])
  {
    var l := TrimLeft(s, p);
    front := s[..|s| - |l|];
    assert forall i :: 0 <= i < |front| ==> front[i] == s[i];
  }

  lemma TrimRightSplit(s: string, p: char -> bool) returns (back: string)
    ensures s == TrimRight(s, p) + back
    ensures forall i :: 0 <= i < |back| ==> p(back[i])
  {
    var r := TrimRight(s, p);
    back := s[|r|..];
    assert forall i :: 0 <= i < |back| ==> back[i] == s[|r| + i];
  }

  /** trim() splits a string into stripped padding, the result, and stripped padding. */
  lemma TrimSplit(s: string) returns (front: string, back: string)
    ensures s == front + Trim(s) + back
    ensures forall i :: 0 <= i < |front| ==> IsTrimChar(front[i])
    ensures forall i :: 0 <= i < |back| ==> IsTrimChar(back[i])
  {
    var l := TrimLeft(s, IsTrimChar);
    front := TrimLeftSplit(s, IsTrimChar);
    back := TrimRightSplit(l, IsTrimChar);
    var t := Trim(s);
    assert l == t + back;
    assert s == front + (t + back);
    assert front + (t + back) == front + t + back;
  }

  lemma {:induction false} TrimLeftPadding(pad: string, s: string, p: char -> bool)
    requires forall i :: 0 <= i < |pad| ==> p(pad[i])
    requires s == [] || !p(s[0])
    ensures TrimLeft(pad + s, p) == s
  {
    if pad == [] {
      assert pad + s == s;
    } else {
      assert (pad + s)[1..] == pad[1..] + s;
      TrimLeftPadding(pad[1..], s, p);
    }
  }

  lemma {:induction false} TrimRightPadding(s: string, pad: string, p: char -> bool)
    requires forall i :: 0 <= i < |pad| ==> p(pad[i])
    requires s == [] || !p(s[|s| - 1])
    ensures TrimRight(s + pad, p) == s
  {
    if pad == [] {
      assert s + pad == s;
    } else {
      var n := |pad| - 1;
      assert (s + pad)[..|s + pad| - 1] == s + pad[..n];
      TrimRightPadding(s, pad[..n], p);
    }
  }

  /** trim() removes exactly the surrounding padding of a string that does not
      itself start or end with a strippable character. */
  lemma TrimPadded(before: string, s: string, after: string)
    requires forall i :: 0 <= i < |before| ==> IsTrimChar(before[i])
    requires forall i :: 0 <= i < |after| ==> IsTrimChar(after[i])
    requires s != [] && !IsTrimChar(s[0]) && !IsTrimChar(s[|s| - 1])
    ensures Trim(before + s + after) == s
  {
    assert before + s + after == before + (s + after);
    TrimLeftPadding(before, s + after, IsTrimChar);
    TrimRightPadding(s, after, IsTrimChar);
  }

  // ---------------------------------------------------------------------
  // preg_replace('/[^<class>]/', '', $s): keep only the characters of a class

  function Keep(s: string, p: char -> bool): (r: string)
    ensures |r| <= |s|
    ensures forall i :: 0 <= i < |r| ==> p(r[i])
  {
    if s == [] then [] else (if p(s[0]) then [s[0]] else []) + Keep(s[1..], p)
  }

  lemma {:induction false} KeepAppend(a: string, b: string, p: char -> bool)
    ensures Keep(a + b, p) == Keep(a, p) + Keep(b, p)
  {
    if a == [] {
      assert a + b == b;
    } else {
      assert (a + b)[1..] == a[1..] + b;
      KeepAppend(a[1..], b, p);
    }
  }

  /** Keeping the characters of a class changes nothing when every character is in it. */
  lemma {:induction false} KeepAll(s: string, p: char -> bool)
    requires forall i :: 0 <= i < |s| ==> p(s[i])
    ensures Keep(s, p) == s
  {
    if s != [] {
      KeepAll(s[1..], p);
    }
  }

  /** Characters outside the class never survive, so a class-free string vanishes. */
  lemma {:induction false} KeepNone(s: string, p: char -> bool)
    requires forall i :: 0 <= i < |s| ==> !p(s[i])
    ensures Keep(s, p) == []
  {
    if s != [] {
      KeepNone(s[1..], p);
    }
  }

  lemma KeepIdempotent(s: string, p: char -> bool)
    ensures Keep(Keep(s, p), p) == Keep(s, p)
  {
    KeepAll(Keep(s, p), p);
  }

  // ---------------------------------------------------------------------
  // Case and accents

  function LowerChar(c: char): char {
    if 'A' <= c <= 'Z' then (c as int + 32) as char else c
  }

  /** strtolower: ASCII letters only (PHP 8.2 and later is locale-insensitive). */
  function LowerAscii(s: string): (r: string)
    ensures |r| == |s|
    ensures forall i :: 0 <= i < |s| ==> r[i] == LowerChar(s[i])
  {
    seq(|s|, i requires 0 <= i < |s| => LowerChar(s[i]))
  }

  /** str_replace(['á','é','í','ó','ú'], ['a','e','i','o','u'], $s). Only the
      lower-case accented vowels are listed, so 'Í' is left alone. */
  function StripAccent(c: char): char {
    if c == 'á' then 'a'
    else if c == 'é' then 'e'
    else if c == 'í' then 'i'
    else if c == 'ó' then 'o'
    else if c == 'ú' then 'u'
    else c
  }

  function StripAccents(s: string): (r: string)
    ensures |r| == |s|
    ensures forall i :: 0 <= i < |s| ==> r[i] == StripAccent(s[i])
  {
    seq(|s|, i requires 0 <= i < |s| => StripAccent(s[i]))
  }

  // ---------------------------------------------------------------------
  // Decimal digits

  function Pow10(k: nat): (r: nat)
    ensures r >= 1
  {
    if k == 0 then 1 else 10 * Pow10(k - 1)
  }

  /** The number a string of decimal digits denotes (most significant first). */
  function DigitsValue(s: string): nat
    requires AllDigits(s)
  {
    if s == [] then 0 else DigitsValue(s[..|s| - 1]) * 10 + DigitValue(s[|s| - 1])
  }

  lemma AllDigitsAppend(a: string, b: string)
    requires AllDigits(a) && AllDigits(b)
    ensures AllDigits(a + b)
  {
    forall i | 0 <= i < |a + b| ensures IsDigit((a + b)[i]) {
      if i < |a| { assert (a + b)[i] == a[i]; } else { assert (a + b)[i] == b[i - |a|]; }
    }
  }

  lemma {:induction false} DigitsValueAppend(a: string, b: string)
    requires AllDigits(a) && AllDigits(b)
    ensures AllDigits(a + b)
    ensures DigitsValue(a + b) == DigitsValue(a) * Pow10(|b|) + DigitsValue(b)
  {
    AllDigitsAppend(a, b);
    if b == [] {
      assert a + b == a;
    } else {
      var b' := b[..|b| - 1];
      var last := b[|b| - 1];
      assert (a + b)[..|a + b| - 1] == a + b';
      assert (a + b)[|a + b| - 1] == last;
      AllDigitsAppend(a, b');
      DigitsValueAppend(a, b');
      ShiftDigit(DigitsValue(a), Pow10(|b'|), DigitsValue(b'), DigitValue(last));
    }
  }

  /** (x * p + y) * 10 + d == x * (10 * p) + (y * 10 + d) */
  lemma ShiftDigit(x: nat, p: nat, y: nat, d: nat)
    ensures (x * p + y) * 10 + d == x * (10 * p) + (y * 10 + d)
  {
  }

  lemma DigitsValueTwo(s: string)
    requires |s| == 2 && AllDigits(s)
    ensures DigitsValue(s) == DigitValue(s[0]) * 10 + DigitValue(s[1])
  {
    var first := s[..1];
    assert first[..0] == [] && first[0] == s[0];
    assert DigitsValue(first) == DigitValue(s[0]);
    assert DigitsValue(s) == DigitsValue(first) * 10 + DigitValue(s[1]);
  }

  /** The decimal rendering of a natural number, without leading zeros. */
  function NatToString(n: nat): (r: string)
    ensures r != []
  {
    if n < 10 then [Digit(n)] else NatToString(n / 10) + [Digit(n % 10)]
  }

  /** PHP's (string) cast of an int. */
  function IntToString(i: int): (r: string)
    ensures r != []
  {
    if i < 0 then "-" + NatToString(-i) else NatToString(i)
  }

  /** An integer's text has nothing for trim() to strip. */
  lemma IntToStringTrimmed(i: int)
    ensures Trim(IntToString(i)) == IntToString(i)
  {
    var n := if i < 0 then -i else i;
    NatToStringDigits(n);
    var s := IntToString(i);
    var t := NatToString(n);
    assert s[|s| - 1] == t[|t| - 1];
    TrimNoop(s);
  }

  /** Rendering and reading back a natural number are inverse. */
  lemma {:induction false} NatToStringDigits(n: nat)
    ensures AllDigits(NatToString(n))
    ensures DigitsValue(NatToString(n)) == n
  {
    if n >= 10 {
      NatToStringDigits(n / 10);
      var s := NatToString(n / 10) + [Digit(n % 10)];
      assert s[..|s| - 1] == NatToString(n / 10);
    }
  }
}
