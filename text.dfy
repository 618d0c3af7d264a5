/**
 * The Arduino `String` operations the firmware relies on: printing an
 * unsigned number in decimal, `toInt` (which is `atol`, i.e. `strtol(s, NULL, 10)`
 * with the C library's saturation on overflow), `trim` and `readStringUntil`.
 */
module Text {
  import opened Basics

  predicate IsDigit(c: char) { '0' <= c <= '9' }

  /** The characters C's `isspace` accepts: space, tab, newline, vertical tab, form feed, carriage return. */
  predicate IsSpace(c: char) { c == ' ' || 9 <= c as int <= 13 }

  predicate AllDigits(s: string) { forall i :: 0 <= i < |s| ==> IsDigit(s[i]) }

  function DigitChar(d: nat): (c: char)
    requires d < 10
    ensures IsDigit(c) && c as int - '0' as int == d
  {
    ('0' as int + d) as char
  }

  function DigitValue(c: char): (d: nat)
    requires IsDigit(c)
    ensures d < 10 && DigitChar(d) == c
  {
    c as int - '0' as int
  }

  /** `String(n)` / `Print::print(n)` for an unsigned value: its decimal digits, without leading zeros. */
  function Decimal(n: nat): (s: string)
    ensures 1 <= |s| && AllDigits(s)
    ensures n < 10 <==> |s| == 1
    ensures |s| > 1 ==> s[0] != '0'
    decreases n
  {
    if n < 10 then [DigitChar(n)] else Decimal(n / 10) + [DigitChar(n % 10)]
  }

  /** The number a string of decimal digits denotes (most significant digit first). */
  function DigitsValue(s: string): nat
    requires AllDigits(s)
  {
    if s == [] then 0 else DigitsValue(s[..|s| - 1]) * 10 + DigitValue(s[|s| - 1])
  }

  /** Leading white space skipped, as `strtol` and `String::trim` do. */
  function SkipSpace(s: string): (r: string)
    ensures |r| <= |s| && r == s[|s| - |r|..]
    ensures r == [] || !IsSpace(r[0])
    ensures forall i :: 0 <= i < |s| - |r| ==> IsSpace(s[i])
  {
    if s != [] && IsSpace(s[0]) then SkipSpace(s[1..]) else s
  }

  /** The longest prefix of `s` made of decimal digits. */
  function LeadingDigits(s: string): (r: string)
    ensures |r| <= |s| && r == s[..|r|] && AllDigits(r)
    ensures |r| < |s| ==> !IsDigit(s[|r|])
  {
    if s != [] && IsDigit(s[0]) then [s[0]] + LeadingDigits(s[1..]) else []
  }

  /** `strtol` clamps a value that does not fit a 32-bit `long` to the nearest bound. */
  function Saturate(x: int): (r: int)
    ensures INT32_MIN <= r <= INT32_MAX
    ensures INT32_MIN <= x <= INT32_MAX ==> r == x
    ensures x > INT32_MAX ==> r == INT32_MAX
    ensures x < INT32_MIN ==> r == INT32_MIN
  {
    if x > INT32_MAX then INT32_MAX else if x < INT32_MIN then INT32_MIN else x
  }

  /**
   * `String::toInt`: skip white space, take an optional sign, then the longest
   * run of decimal digits; no digits gives 0; out-of-range values saturate.
   */
  function ToInt(s: string): (r: int)
    ensures INT32_MIN <= r <= INT32_MAX
  {
    var t := SkipSpace(s);
    if t != [] && t[0] == '-' then Saturate(-(DigitsValue(LeadingDigits(t[1..])) as int))
    else if t != [] && t[0] == '+' then Saturate(DigitsValue(LeadingDigits(t[1..])))
    else Saturate(DigitsValue(LeadingDigits(t)))
  }

  /** `String::trim`: white space removed at both ends. */
  function Trim(s: string): (r: string)
    ensures r == [] || (!IsSpace(r[0]) && !IsSpace(r[|r| - 1]))
  {
    TrimEnd(SkipSpace(s))
  }

  function TrimEnd(s: string): (r: string)
    ensures |r| <= |s| && r == s[..|r|]
    ensures r == [] || !IsSpace(r[|r| - 1])
    ensures forall i :: |r| <= i < |s| ==> IsSpace(s[i])
    ensures s != [] && !IsSpace(s[0]) ==> r != [] && r[0] == s[0]
  {
    if s != [] && IsSpace(s[|s| - 1]) then TrimEnd(s[..|s| - 1]) else s
  }

  /** `Stream::readStringUntil('\n')` on a whole file: everything before the first newline, or all of it. */
  function UntilNewline(s: string): (r: string)
    ensures |r| <= |s| && r == s[..|r|]
    ensures forall i :: 0 <= i < |r| ==> s[i] != '\n'
    ensures |r| < |s| ==> s[|r|] == '\n'
  {
    if s == [] || s[0] == '\n' then [] else [s[0]] + UntilNewline(s[1..])
  }

  // ---------------------------------------------------------------------------
  // Properties
  // ---------------------------------------------------------------------------

  /** Reading back what `Decimal` printed gives the number. */
  lemma {:induction false} DecimalValue(n: nat)
    ensures DigitsValue(Decimal(n)) == n
    decreases n
  {
    if n >= 10 {
      var s := Decimal(n);
      assert s[..|s| - 1] == Decimal(n / 10);
      DecimalValue(n / 10);
    }
  }

  lemma {:induction false} LeadingDigitsOfDigits(s: string)
    requires AllDigits(s)
    ensures LeadingDigits(s) == s
  {
    if s != [] {
      LeadingDigitsOfDigits(s[1..]);
    }
  }

  /** `toInt` inverts decimal printing for every value a 32-bit `long` holds. */
  lemma ToIntDecimal(n: nat)
    requires n <= INT32_MAX
    ensures ToInt(Decimal(n)) == n
  {
    var s := Decimal(n);
    assert SkipSpace(s) == s by { assert !IsSpace(s[0]); }
    LeadingDigitsOfDigits(s);
    DecimalValue(n);
  }

  /** No character of `s` is a decimal digit. */
  predicate NoDigits(s: string) { forall i :: 0 <= i < |s| ==> !IsDigit(s[i]) }

  /** Reading a line and trimming it keeps only characters of the text read. */
  lemma NoDigitsLine(s: string)
    requires NoDigits(s)
    ensures NoDigits(Trim(UntilNewline(s)))
  {
    var u := UntilNewline(s);
    assert NoDigits(u) by {
      forall i | 0 <= i < |u| ensures !IsDigit(u[i]) { assert u[i] == s[i]; }
    }
    var t := SkipSpace(u);
    assert NoDigits(t) by {
      forall i | 0 <= i < |t| ensures !IsDigit(t[i]) { assert t[i] == u[|u| - |t| + i]; }
    }
    var r := TrimEnd(t);
    assert NoDigits(r) by {
      forall i | 0 <= i < |r| ensures !IsDigit(r[i]) { assert r[i] == t[i]; }
    }
  }

  /** A string in which no digit occurs converts to 0, the value `toInt` reports for non-numeric text. */
  lemma ToIntNonNumeric(s: string)
    requires NoDigits(s)
    ensures ToInt(s) == 0
  {
    var t := SkipSpace(s);
    if t != [] && (t[0] == '-' || t[0] == '+') {
      assert t[1..] == s[|s| - |t| + 1..];
      assert LeadingDigits(t[1..]) == [];
    } else {
      assert LeadingDigits(t) == [];
    }
  }

  /** Converting a digit string with a leading zero and printing the number back does not give the same text. */
  lemma LeadingZeroNotCanonical()
    ensures ToInt("03") == 3 && Decimal(3) == "3"
  {
    assert LeadingDigits("03") == "03" by { LeadingDigitsOfDigits("03"); }
    assert DigitsValue("03") == 3 by {
      assert "03"[..1] == "0";
      assert "0"[..0] == [];
    }
  }

  /** `readStringUntil('\n')` stops at the first newline: it returns the text before it. */
  lemma {:induction false} UntilNewlineStops(s: string, rest: string)
    requires forall i :: 0 <= i < |s| ==> s[i] != '\n'
    ensures UntilNewline(s + "\n" + rest) == s
  {
    if s != [] {
      assert (s + "\n" + rest)[1..] == s[1..] + "\n" + rest;
      UntilNewlineStops(s[1..], rest);
    }
  }

  /** The text `trim` leaves from a line holding `d` and the CR of a CR LF ending is `d` itself. */
  lemma TrimDigitsCr(d: string)
    requires d != [] && AllDigits(d)
    ensures Trim(d + "\r") == d
  {
    var x := d + "\r";
    assert !IsSpace(x[0]);
    assert SkipSpace(x) == x;
    assert x[..|x| - 1] == d;
    assert TrimEnd(x) == TrimEnd(d);
    assert !IsSpace(d[|d| - 1]);
  }
}
