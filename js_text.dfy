/**
 * The JavaScript string and number built-ins that the store's logic leans on:
 * String.prototype.trim, parseInt (without a radix), parseFloat and
 * Number.prototype.toString for prices. Prices are integer cents; a parsed
 * decimal literal keeps its digits as written so that the sign test `x < 0`
 * stays exact.
 */
module JsText {
  import opened Wrappers

  // ----------------------------------------------------------------------
  // Whitespace and trim
  // ----------------------------------------------------------------------

  /** ECMAScript WhiteSpace and LineTerminator code points: what trim, parseInt and parseFloat skip. */
  predicate IsJsSpace(c: char) {
    || c == '\t' || c == '\n' || c == '\U{B}' || c == '\U{C}' || c == '\r' || c == ' '
    || c == '\U{A0}' || c == '\U{1680}' || ('\U{2000}' <= c <= '\U{200A}')
    || c == '\U{2028}' || c == '\U{2029}' || c == '\U{202F}' || c == '\U{205F}'
    || c == '\U{3000}' || c == '\U{FEFF}'
  }

  predicate IsBlank(s: string) {
    forall i :: 0 <= i < |s| ==> IsJsSpace(s[i])
  }

  /** The number of whitespace characters s opens with. */
  function LeadingSpaces(s: string): (n: nat)
    ensures n <= |s| && IsBlank(s[..n])
    ensures n == |s| || !IsJsSpace(s[n])
  {
    if |s| > 0 && IsJsSpace(s[0]) then
      var n := 1 + LeadingSpaces(s[1..]);
      assert forall i :: 1 <= i < n ==> s[..n][i] == s[1..][..n - 1][i - 1];
      n
    else 0
  }

  /** The number of whitespace characters s closes with. */
  function TrailingSpaces(s: string): (n: nat)
    ensures n <= |s| && IsBlank(s[|s| - n..])
    ensures n == |s| || !IsJsSpace(s[|s| - n - 1])
  {
    if |s| > 0 && IsJsSpace(s[|s| - 1]) then
      var init := s[..|s| - 1];
      var n := 1 + TrailingSpaces(init);
      assert forall i :: |s| - n <= i < |s| - 1 ==> s[i] == init[i];
      n
    else 0
  }

  /** String.prototype.trimStart: the longest suffix that does not start with whitespace. */
  function TrimStart(s: string): (r: string)
    ensures |r| <= |s| && r == s[|s| - |r|..]
    ensures r == [] || !IsJsSpace(r[0])
    ensures IsBlank(s[..|s| - |r|])
  {
    s[LeadingSpaces(s)..]
  }

  /** String.prototype.trimEnd: the longest prefix that does not end with whitespace. */
  function TrimEnd(s: string): (r: string)
    ensures |r| <= |s| && r == s[..|r|]
    ensures r == [] || !IsJsSpace(r[|r| - 1])
    ensures IsBlank(s[|r|..])
  {
    s[..|s| - TrailingSpaces(s)]
  }

  /** String.prototype.trim. */
  function Trim(s: string): string {
    TrimEnd(TrimStart(s))
  }

  /** A string trims to the empty string exactly when it is all whitespace. */
  lemma TrimEmptyIffBlank(s: string)
    ensures Trim(s) == [] <==> IsBlank(s)
  {
    var t := TrimStart(s);
    assert s == s[..|s| - |t|] + t;
    if Trim(s) == [] {
      assert IsBlank(t[0..]);
      assert t == [];
      assert s == s[..|s| - |t|];
    }
  }

  /** Trimming twice is trimming once; a trimmed string has no whitespace at either end. */
  lemma TrimIdempotent(s: string)
    ensures Trim(Trim(s)) == Trim(s)
    ensures Trim(s) == [] || (!IsJsSpace(Trim(s)[0]) && !IsJsSpace(Trim(s)[|Trim(s)| - 1]))
  {
    var t := TrimStart(s);
    var r := TrimEnd(t);
    if r != [] {
      assert r[0] == t[0];
    }
    assert TrimStart(r) == r;
  }

  // ----------------------------------------------------------------------
  // Digits
  // ----------------------------------------------------------------------

  predicate IsDigit(c: char) {
    '0' <= c <= '9'
  }

  /** A digit of the given radix (10, or 16 after a "0x" prefix), as parseInt reads it. */
  predicate IsRadixDigit(c: char, radix: nat) {
    if radix == 16 then IsDigit(c) || ('a' <= c <= 'f') || ('A' <= c <= 'F') else IsDigit(c)
  }

  predicate AllRadixDigits(s: string, radix: nat) {
    forall i :: 0 <= i < |s| ==> IsRadixDigit(s[i], radix)
  }

  function DigitValue(c: char): nat
    requires IsRadixDigit(c, 16)
  {
    if IsDigit(c) then c as int - '0' as int
    else if 'a' <= c <= 'f' then c as int - 'a' as int + 10
    else c as int - 'A' as int + 10
  }

  function DigitChar(d: nat): (c: char)
    requires d < 10
    ensures IsDigit(c) && DigitValue(c) == d
  {
    ('0' as int + d) as char
  }

  /** The number a digit string denotes in the given radix. */
  function RadixValue(s: string, radix: nat): nat
    requires radix == 10 || radix == 16
    requires AllRadixDigits(s, radix)
  {
    if s == [] then 0 else radix * RadixValue(s[..|s| - 1], radix) + DigitValue(s[|s| - 1])
  }

  /** Length of the longest prefix of s made of radix digits. */
  function DigitRun(s: string, radix: nat): (n: nat)
    ensures n <= |s|
    ensures AllRadixDigits(s[..n], radix)
    ensures n == |s| || !IsRadixDigit(s[n], radix)
  {
    if |s| > 0 && IsRadixDigit(s[0], radix) then
      var n := 1 + DigitRun(s[1..], radix);
      assert forall i :: 1 <= i < n ==> s[..n][i] == s[1..][..n - 1][i - 1];
      n
    else 0
  }

  /** The digit run of a digit string followed by a non-digit is that digit string. */
  lemma {:induction false} DigitRunOfDigits(a: string, b: string, radix: nat)
    requires AllRadixDigits(a, radix)
    requires b == [] || !IsRadixDigit(b[0], radix)
    ensures DigitRun(a + b, radix) == |a|
  {
    if a != [] {
      assert (a + b)[1..] == a[1..] + b;
      DigitRunOfDigits(a[1..], b, radix);
    }
  }

  /** Decimal rendering of a natural number, no leading zeros: what `${n}` prints for an integer. */
  function NatToDecimal(n: nat): (s: string)
    ensures |s| > 0 && AllRadixDigits(s, 10)
    ensures s[0] == '0' ==> s == "0"
    ensures RadixValue(s, 10) == n
  {
    if n < 10 then [DigitChar(n)]
    else
      var prefix := NatToDecimal(n / 10);
      var s := prefix + [DigitChar(n % 10)];
      assert s[..|s| - 1] == prefix;
      s
  }

  /** `${i}` for an integer i. */
  function IntToDecimal(i: int): string {
    if i < 0 then "-" + NatToDecimal(-i) else NatToDecimal(i)
  }

  // ----------------------------------------------------------------------
  // parseInt
  // ----------------------------------------------------------------------

  /** Whether a string (already trimmed at the start) opens with a minus sign. */
  predicate OpensNegative(t: string) {
    |t| > 0 && t[0] == '-'
  }

  /** The string after one leading sign character, if there is one. */
  function StripSign(t: string): string {
    if |t| > 0 && (t[0] == '-' || t[0] == '+') then t[1..] else t
  }

  /** The unsigned part of parseInt: radix 16 after "0x" or "0X", else radix 10, then the longest digit run. */
  function ParseMagnitude(u: string): Option<nat> {
    var hex := |u| >= 2 && u[0] == '0' && (u[1] == 'x' || u[1] == 'X');
    var radix := if hex then 16 else 10;
    var digits := if hex then u[2..] else u;
    var n := DigitRun(digits, radix);
    if n == 0 then None else Some(RadixValue(digits[..n], radix))
  }

  /**
   * parseInt(s) with no radix: skip leading whitespace, take one sign, read the
   * magnitude; no digit at all is NaN (None). Trailing characters are ignored.
   */
  function ParseInt(s: string): Option<int> {
    var t := TrimStart(s);
    match ParseMagnitude(StripSign(t))
    case None => None
    case Some(m) => Some(if OpensNegative(t) then 0 - m else m)
  }

  lemma ParseMagnitudeOfDecimal(m: nat)
    ensures ParseMagnitude(NatToDecimal(m)) == Some(m)
  {
    var u := NatToDecimal(m);
    DigitRunOfDigits(u, "", 10);
    assert u + "" == u;
    assert u[..|u|] == u;
  }

  /** parseInt reads back every integer from its decimal rendering. */
  lemma ParseIntOfDecimal(i: int)
    ensures ParseInt(IntToDecimal(i)) == Some(i)
  {
    var s := IntToDecimal(i);
    var m: nat := if i < 0 then -i else i;
    var u := NatToDecimal(m);
    if i < 0 {
      assert s == "-" + u && s[0] == '-' && s[1..] == u;
      TrimStartOfWord(s);
      assert OpensNegative(s) && StripSign(s) == u;
    } else {
      assert s == u && IsDigit(u[0]);
      TrimStartOfWord(s);
      assert !OpensNegative(s) && StripSign(s) == u;
    }
    ParseMagnitudeOfDecimal(m);
  }

  // ----------------------------------------------------------------------
  // parseFloat and prices in cents
  // ----------------------------------------------------------------------

  /** A decimal literal as parseFloat reads it: its sign and its digits before and after the point. */
  datatype Decimal = Decimal(negative: bool, whole: string, fraction: string)

  predicate WellFormed(d: Decimal) {
    AllRadixDigits(d.whole, 10) && AllRadixDigits(d.fraction, 10) && (|d.whole| > 0 || |d.fraction| > 0)
  }

  /** The unsigned part of parseFloat: digits, then optionally a point and more digits. */
  function ReadDecimal(negative: bool, u: string): (r: Option<Decimal>)
    ensures r.Some? ==> WellFormed(r.value) && r.value.negative == negative
  {
    var w := DigitRun(u, 10);
    var rest := u[w..];
    var fraction := if |rest| > 0 && rest[0] == '.' then rest[1..][..DigitRun(rest[1..], 10)] else "";
    if w == 0 && fraction == "" then None
    else Some(Decimal(negative, u[..w], fraction))
  }

  /**
   * parseFloat(s) for the plain decimal forms: whitespace, one sign, then the
   * longest decimal prefix; the rest is ignored. No digit at all is NaN (None).
   */
  function ParseFloat(s: string): (r: Option<Decimal>)
    ensures r.Some? ==> WellFormed(r.value)
  {
    var t := TrimStart(s);
    ReadDecimal(OpensNegative(t), StripSign(t))
  }

  predicate HasNonZeroDigit(s: string) {
    exists i :: 0 <= i < |s| && s[i] != '0'
  }

  /** JavaScript's `x < 0` on the parsed number: a minus sign and some non-zero digit (-0 is not below zero). */
  predicate IsBelowZero(d: Decimal) {
    d.negative && (HasNonZeroDigit(d.whole) || HasNonZeroDigit(d.fraction))
  }

  /** The first two fraction digits as cents; later digits are dropped. */
  function FractionCents(f: string): (c: nat)
    requires AllRadixDigits(f, 10)
    ensures c < 100
  {
    if |f| == 0 then 0
    else if |f| == 1 then 10 * DigitValue(f[0])
    else 10 * DigitValue(f[0]) + DigitValue(f[1])
  }

  /** The amount in integer cents, truncated after the second fraction digit. */
  function ToCents(d: Decimal): int
    requires WellFormed(d)
  {
    var m := 100 * RadixValue(d.whole, 10) + FractionCents(d.fraction);
    if d.negative then -m else m
  }

  lemma {:induction false} AllZeroDigitsValue(s: string)
    requires AllRadixDigits(s, 10)
    requires !HasNonZeroDigit(s)
    ensures RadixValue(s, 10) == 0
  {
    if s != [] {
      assert s[|s| - 1] == '0';
      AllZeroDigitsValue(s[..|s| - 1]);
    }
  }

  /** Being below zero and having a negative cent amount agree, except that amounts under a cent are cut to 0. */
  lemma BelowZeroCents(d: Decimal)
    requires WellFormed(d)
    ensures ToCents(d) < 0 ==> IsBelowZero(d)
    ensures IsBelowZero(d) ==> ToCents(d) <= 0
  {
    if !HasNonZeroDigit(d.whole) && !HasNonZeroDigit(d.fraction) {
      AllZeroDigitsValue(d.whole);
      if |d.fraction| >= 1 { assert d.fraction[0] == '0'; }
      if |d.fraction| >= 2 { assert d.fraction[1] == '0'; }
    }
  }

  /** A signed zero such as "-0.00" is not below zero; "-0.001" is, although it is under a cent and so 0 cents. */
  lemma SignedZeroes()
    ensures ParseFloat("-0.00") == Some(Decimal(true, "0", "00")) && !IsBelowZero(Decimal(true, "0", "00"))
    ensures ParseFloat("-0.001") == Some(Decimal(true, "0", "001")) && IsBelowZero(Decimal(true, "0", "001"))
    ensures ToCents(Decimal(true, "0", "001")) == 0
  {
    MinusZeroPoint("00");
    assert "-0." + "00" == "-0.00";
    MinusZeroPoint("001");
    assert "-0." + "001" == "-0.001";
    assert !HasNonZeroDigit("0") && !HasNonZeroDigit("00");
    assert "001"[2] != '0';
    assert RadixValue("0", 10) == 0 by {
      assert "0"[..0] == "";
    }
  }

  /** "-0." followed by a digit run parses as a negative zero whole part with that fraction. */
  lemma MinusZeroPoint(f: string)
    requires |f| > 0 && AllRadixDigits(f, 10)
    ensures ParseFloat("-0." + f) == Some(Decimal(true, "0", f))
  {
    var s := "-0." + f;
    var u := s[1..];
    assert s[0] == '-' && !IsJsSpace(s[0]);
    TrimStartOfWord(s);
    assert OpensNegative(s) && StripSign(s) == u;
    assert u == "0" + ("." + f);
    DigitRunOfDigits("0", "." + f, 10);
    assert u[..1] == "0" && u[1..] == "." + f;
    assert ("." + f)[1..] == f;
    DigitRunOfDigits(f, "", 10);
    assert f + "" == f && f[..|f|] == f;
  }

  /** The fraction digits Number.prototype.toString prints for 0 < f < 100 hundredths. */
  function CentsFraction(f: nat): (s: string)
    requires 0 < f < 100
  {
    if f % 10 == 0 then [DigitChar(f / 10)] else [DigitChar(f / 10), DigitChar(f % 10)]
  }

  /** Number.prototype.toString of the amount cents / 100 (amounts below 10^21, so never in exponent form). */
  function PriceToString(cents: int): string {
    var m: nat := if cents < 0 then -cents else cents;
    var text := NatToDecimal(m / 100) + (if m % 100 == 0 then "" else "." + CentsFraction(m % 100));
    if cents < 0 then "-" + text else text
  }

  lemma NonZeroHasNonZeroDigit(s: string)
    requires AllRadixDigits(s, 10)
    requires RadixValue(s, 10) > 0
    ensures HasNonZeroDigit(s)
  {
    if !HasNonZeroDigit(s) {
      AllZeroDigitsValue(s);
    }
  }

  /** The unsigned text of a price, as read back by ReadDecimal. */
  lemma ReadPriceText(negative: bool, m: nat)
    ensures var tail := if m % 100 == 0 then "" else "." + CentsFraction(m % 100);
      var r := ReadDecimal(negative, NatToDecimal(m / 100) + tail);
      r.Some? && r.value.whole == NatToDecimal(m / 100)
      && r.value.fraction == (if m % 100 == 0 then "" else CentsFraction(m % 100))
  {
    var whole := NatToDecimal(m / 100);
    var tail := if m % 100 == 0 then "" else "." + CentsFraction(m % 100);
    var text := whole + tail;
    DigitRunOfDigits(whole, tail, 10);
    assert text[..|whole|] == whole;
    assert text[|whole|..] == tail;
    if m % 100 != 0 {
      var f := CentsFraction(m % 100);
      DigitRunOfDigits(f, "", 10);
      assert tail[1..] == f + "";
      assert f[..|f|] == f;
    }
  }

  /** The cents and the sign of a price survive printing it and reading it back. */
  lemma PriceDigitsValue(negative: bool, m: nat)
    ensures var d := Decimal(negative, NatToDecimal(m / 100), if m % 100 == 0 then "" else CentsFraction(m % 100));
      WellFormed(d) && ToCents(d) == (if negative then 0 - m else m)
      && (IsBelowZero(d) <==> negative && m > 0)
  {
    var whole := NatToDecimal(m / 100);
    if m % 100 != 0 {
      var f := CentsFraction(m % 100);
      assert f[|f| - 1] != '0';
    } else if m > 0 {
      NonZeroHasNonZeroDigit(whole);
    }
    if m == 0 {
      assert whole == "0";
    }
  }

  /** parseFloat reads back a price from its printed form: the same cents and the same sign. */
  lemma PriceRoundTrip(cents: int)
    ensures ParseFloat(PriceToString(cents)).Some?
    ensures ToCents(ParseFloat(PriceToString(cents)).value) == cents
    ensures IsBelowZero(ParseFloat(PriceToString(cents)).value) <==> cents < 0
  {
    var m: nat := if cents < 0 then -cents else cents;
    PrintedPriceSplits(cents);
    ReadPriceText(cents < 0, m);
    PriceDigitsValue(cents < 0, m);
  }

  /** parseFloat of a printed price reads its unsigned text with the price's sign. */
  lemma PrintedPriceSplits(cents: int)
    ensures var m: nat := if cents < 0 then -cents else cents;
      ParseFloat(PriceToString(cents)) ==
        ReadDecimal(cents < 0, NatToDecimal(m / 100) + (if m % 100 == 0 then "" else "." + CentsFraction(m % 100)))
  {
    var m: nat := if cents < 0 then -cents else cents;
    var whole := NatToDecimal(m / 100);
    var text := whole + (if m % 100 == 0 then "" else "." + CentsFraction(m % 100));
    assert text[0] == whole[0];
    SignedDigits(cents < 0, text);
  }

  /** Digits behind an optional minus sign: parseFloat skips no space and reads the digits with that sign. */
  lemma SignedDigits(negative: bool, text: string)
    requires |text| > 0 && IsDigit(text[0])
    ensures ParseFloat(if negative then "-" + text else text) == ReadDecimal(negative, text)
  {
    if negative {
      var s := "-" + text;
      assert s[0] == '-' && s[1..] == text;
      ParseFloatOfWord(s);
    } else {
      ParseFloatOfWord(text);
    }
  }

  /** With no whitespace in front, parseFloat reads the sign and the digits where they stand. */
  lemma ParseFloatOfWord(s: string)
    requires |s| > 0 && !IsJsSpace(s[0])
    ensures ParseFloat(s) == ReadDecimal(OpensNegative(s), StripSign(s))
  {
    TrimStartOfWord(s);
  }

  /** trimStart leaves a string that does not open with whitespace alone. */
  lemma TrimStartOfWord(s: string)
    requires |s| > 0 && !IsJsSpace(s[0])
    ensures TrimStart(s) == s
  {
  }

  // ----------------------------------------------------------------------
  // Searching
  // ----------------------------------------------------------------------

  /** Index of the first occurrence of c in s, or -1. */
  function IndexOf(s: string, c: char): (i: int)
    ensures -1 <= i < |s|
    ensures i >= 0 ==> s[i] == c
    ensures forall k :: 0 <= k < |s| && (i < 0 || k < i) ==> s[k] != c
  {
    if |s| == 0 then -1
    else if s[0] == c then 0
    else
      var j := IndexOf(s[1..], c);
      if j < 0 then -1 else j + 1
  }

  /** Index of the last occurrence of c in s, or -1. */
  function LastIndexOf(s: string, c: char): (i: int)
    ensures -1 <= i < |s|
    ensures i >= 0 ==> s[i] == c
    ensures forall k :: i < k < |s| ==> s[k] != c
  {
    if |s| == 0 then -1
    else if s[|s| - 1] == c then |s| - 1
    else LastIndexOf(s[..|s| - 1], c)
  }

  predicate Lacks(s: string, c: char) {
    forall i :: 0 <= i < |s| ==> s[i] != c
  }

  /** LastIndexOf finds the occurrence that has no other after it, and reports a missing character as -1. */
  lemma {:induction false} LastIndexOfIs(s: string, c: char, i: int)
    requires -1 <= i < |s|
    requires i >= 0 ==> s[i] == c
    requires forall k :: i < k < |s| ==> s[k] != c
    ensures LastIndexOf(s, c) == i
  {
    if |s| > 0 && i < |s| - 1 {
      assert s[|s| - 1] != c;
      LastIndexOfIs(s[..|s| - 1], c, i);
    }
  }
}
