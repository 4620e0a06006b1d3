/** The JavaScript number conversions the app relies on: `parseInt` with no
    radix (section 19.2.5 of ECMA-262) and the decimal rendering of a count in a
    template literal. NaN is modelled as None; numbers are mathematical integers. */
module JsNumbers {
  import opened Wrappers

  function DigitChar(d: nat): (c: char)
    requires d < 10
    ensures '0' <= c <= '9'
  {
    ('0' as int + d) as char
  }

  /** The decimal digits of `n`, most significant first, without leading zeros. */
  function DecimalString(n: nat): (s: string)
    ensures |s| >= 1
    ensures forall i :: 0 <= i < |s| ==> '0' <= s[i] <= '9'
    decreases n
  {
    if n < 10 then [DigitChar(n)] else DecimalString(n / 10) + [DigitChar(n % 10)]
  }

  /** The value of a digit character in bases up to 36, as `parseInt` reads it. */
  function DigitValue(c: char): Option<nat>
  {
    if '0' <= c <= '9' then Some(c as int - '0' as int)
    else if 'a' <= c <= 'z' then Some(c as int - 'a' as int + 10)
    else if 'A' <= c <= 'Z' then Some(c as int - 'A' as int + 10)
    else None
  }

  predicate IsDigit(c: char, radix: nat)
  {
    DigitValue(c).Some? && DigitValue(c).value < radix
  }

  /** The length of the longest prefix of `s` made of digits in `radix`. */
  function LeadingDigits(s: string, radix: nat): (n: nat)
    ensures n <= |s|
    ensures forall i :: 0 <= i < n ==> IsDigit(s[i], radix)
    ensures n < |s| ==> !IsDigit(s[n], radix)
    decreases |s|
  {
    if s != [] && IsDigit(s[0], radix) then 1 + LeadingDigits(s[1..], radix) else 0
  }

  /** The value of a string of digits in `radix`, one of the two bases
      `parseInt` selects without an explicit radix argument. */
  function DigitsValue(s: string, radix: nat): int
    requires radix == 10 || radix == 16
    requires forall i :: 0 <= i < |s| ==> IsDigit(s[i], radix)
    decreases |s|
  {
    if s == [] then 0
    else
      assert IsDigit(s[|s| - 1], radix);
      var high := DigitsValue(s[..|s| - 1], radix);
      (if radix == 16 then 16 * high else 10 * high) + DigitValue(s[|s| - 1]).value
  }

  /** The white space and line terminators `parseInt` skips before the number. */
  predicate IsWhiteSpace(c: char)
  {
    || c == '\t' || c == '\U{000B}' || c == '\U{000C}' || c == ' ' || c == '\U{00A0}'
    || c == '\U{FEFF}' || c == '\n' || c == '\r' || c == '\U{2028}' || c == '\U{2029}'
    || c == '\U{1680}' || ('\U{2000}' <= c <= '\U{200A}') || c == '\U{202F}'
    || c == '\U{205F}' || c == '\U{3000}'
  }

  function TrimStart(s: string): (r: string)
    ensures |r| <= |s| && r == s[|s| - |r|..]
    ensures r != [] ==> !IsWhiteSpace(r[0])
    decreases |s|
  {
    if s != [] && IsWhiteSpace(s[0]) then TrimStart(s[1..]) else s
  }

  /** `parseInt` after the sign: a "0x"/"0X" prefix selects base 16 (else
      base 10), then the longest run of digits is read; None (NaN) when there
      is no digit. */
  function ParseUnsigned(unsigned: string): Option<int>
  {
    var hex := |unsigned| >= 2 && unsigned[0] == '0' && (unsigned[1] == 'x' || unsigned[1] == 'X');
    var radix := if hex then 16 else 10;
    var body := if hex then unsigned[2..] else unsigned;
    var digits := body[..LeadingDigits(body, radix)];
    if digits == [] then None else Some(DigitsValue(digits, radix))
  }

  /** `parseInt` after the white space: an optional sign, then the number
      after it, negated after a '-'. */
  function ParseSigned(s: string): Option<int>
  {
    if |s| > 0 && s[0] == '-' then Negate(ParseUnsigned(s[1..]))
    else if |s| > 0 && s[0] == '+' then ParseUnsigned(s[1..])
    else ParseUnsigned(s)
  }

  function Negate(r: Option<int>): Option<int>
  {
    match r
    case None => None
    case Some(v) => Some(-v)
  }

  /** `parseInt(input)`: skip leading white space, then read a signed number. */
  function ParseInt(input: string): Option<int>
  {
    ParseSigned(TrimStart(input))
  }

  lemma {:induction false} DecimalStringValue(n: nat)
    ensures DigitsValue(DecimalString(n), 10) == n
    decreases n
  {
    var s := DecimalString(n);
    if n >= 10 {
      DecimalStringValue(n / 10);
      assert s[..|s| - 1] == DecimalString(n / 10);
    }
  }

  predicate IsDecimal(s: string)
  {
    forall i :: 0 <= i < |s| ==> '0' <= s[i] <= '9'
  }

  lemma {:induction false} DecimalDigitsAreDigits(s: string)
    requires IsDecimal(s)
    ensures LeadingDigits(s, 10) == |s|
    decreases |s|
  {
    if s != [] {
      assert IsDigit(s[0], 10);
      DecimalDigitsAreDigits(s[1..]);
    }
  }

  /** A run of decimal digits is read whole, in base 10. */
  lemma ParseUnsignedDecimal(d: string)
    requires d != [] && IsDecimal(d)
    ensures ParseUnsigned(d) == Some(DigitsValue(d, 10))
  {
    DecimalDigitsAreDigits(d);
    assert d[..|d|] == d;
  }

  /** Nothing is trimmed from a string that starts with a digit or a '-'. */
  lemma TrimStartSigned(s: string)
    requires s != [] && ('0' <= s[0] <= '9' || s[0] == '-')
    ensures TrimStart(s) == s
  {
    assert !IsWhiteSpace(s[0]);
  }

  /** Without a sign the number is read unsigned. */
  lemma ParseSignedDigit(d: string)
    requires d != [] && '0' <= d[0] <= '9'
    ensures ParseSigned(d) == ParseUnsigned(d)
  {
  }

  /** After a '-' the number that follows is read and negated. */
  lemma ParseSignedMinus(d: string)
    ensures ParseSigned("-" + d) == Negate(ParseUnsigned(d))
  {
    var m := "-" + d;
    assert m[0] == '-';
    assert m[1..] == d;
  }

  /** A number that starts with a digit reads the same through `parseInt`,
      and negated after a '-'. */
  lemma ParseIntOfUnsigned(d: string, v: int)
    requires d != [] && '0' <= d[0] <= '9' && ParseUnsigned(d) == Some(v)
    ensures ParseInt(d) == Some(v)
    ensures ParseInt("-" + d) == Some(-v)
  {
    TrimStartSigned(d);
    TrimStartSigned("-" + d);
    ParseSignedDigit(d);
    ParseSignedMinus(d);
  }

  /** `parseInt` reads a non-empty run of decimal digits of value `n`, signed
      or not, as `n`. */
  lemma ParseDigits(d: string, n: nat)
    requires d != [] && IsDecimal(d) && DigitsValue(d, 10) == n
    ensures ParseInt(d) == Some(n)
    ensures ParseInt("-" + d) == Some(-(n as int))
  {
    ParseUnsignedDecimal(d);
    ParseIntOfUnsigned(d, n);
  }

  /** `parseInt` reads back the decimal rendering of a natural number, with or
      without a minus sign in front. */
  lemma ParseDecimal(n: nat)
    ensures ParseInt(DecimalString(n)) == Some(n)
    ensures ParseInt("-" + DecimalString(n)) == Some(-(n as int))
  {
    DecimalStringValue(n);
    ParseDigits(DecimalString(n), n);
  }
}
