/**
 * The Ruby values the attribute engine handles (nil, String, Integer) and
 * the two conversions it applies to them, `to_s` and `to_i`.
 */
module RubyValues {

  /** A Ruby value as the engine sees it: nil, a String or an Integer. */
  datatype Val = VNil | VStr(s: string) | VInt(i: int)

  predicate IsDigit(c: char) { '0' <= c <= '9' }

  predicate AllDigits(s: string) { forall i :: 0 <= i < |s| ==> IsDigit(s[i]) }

  /** The whitespace `String#to_i` skips before a number: space, \t, \n, \v, \f, \r. */
  predicate IsSpace(c: char) { c == ' ' || 9 <= c as int <= 13 }

  function DigitChar(d: nat): (c: char)
    requires d < 10
    ensures IsDigit(c)
  {
    (d + '0' as int) as char
  }

  function DigitValue(c: char): nat
    requires IsDigit(c)
  {
    c as int - '0' as int
  }

  /** The decimal digits of `n`, most significant first, without leading zeros. */
  function NatToString(n: nat): (s: string)
    ensures s != [] && AllDigits(s)
  {
    if n < 10 then [DigitChar(n)] else NatToString(n / 10) + [DigitChar(n % 10)]
  }

  /** `Integer#to_s`: a minus sign before the digits of a negative number. */
  function IntToString(i: int): string
  {
    if i < 0 then "-" + NatToString(-i) else NatToString(i)
  }

  /** The value of a string of decimal digits, most significant first. */
  function DigitsValue(s: string): nat
    requires AllDigits(s)
  {
    if s == [] then 0 else DigitsValue(s[..|s| - 1]) * 10 + DigitValue(s[|s| - 1])
  }

  /** The longest prefix of `s` made of decimal digits. */
  function LeadingDigits(s: string): (d: string)
    ensures AllDigits(d) && d <= s
    ensures d == s || !IsDigit(s[|d|])
  {
    if s != [] && IsDigit(s[0]) then [s[0]] + LeadingDigits(s[1..]) else []
  }

  /** `s` without its leading whitespace. */
  function SkipSpace(s: string): (t: string)
    ensures |t| <= |s| && t == s[|s| - |t|..]
    ensures t == [] || !IsSpace(t[0])
  {
    if s != [] && IsSpace(s[0]) then SkipSpace(s[1..]) else s
  }

  /**
   * `String#to_i` in base 10: leading whitespace, an optional sign, then the
   * longest run of digits; 0 when there are no digits.
   */
  function ParseInt(s: string): int
  {
    var t := SkipSpace(s);
    if t != [] && t[0] == '-' then -(DigitsValue(LeadingDigits(t[1..])) as int)
    else if t != [] && t[0] == '+' then DigitsValue(LeadingDigits(t[1..]))
    else DigitsValue(LeadingDigits(t))
  }

  /** `to_s`: nil becomes "", a String is itself, an Integer its decimal form. */
  function ToS(v: Val): string
  {
    match v
    case VNil => ""
    case VStr(s) => s
    case VInt(i) => IntToString(i)
  }

  /** `to_i`: nil becomes 0, a String is parsed, an Integer is itself. */
  function ToI(v: Val): int
  {
    match v
    case VNil => 0
    case VStr(s) => ParseInt(s)
    case VInt(i) => i
  }

  lemma {:induction false} NatToStringValue(n: nat)
    ensures DigitsValue(NatToString(n)) == n
  {
    if n >= 10 {
      var s := NatToString(n);
      var p := NatToString(n / 10);
      assert s == p + [DigitChar(n % 10)];
      assert s[..|s| - 1] == p;
      NatToStringValue(n / 10);
    }
  }

  /** A string of digits is its own longest digit prefix. */
  lemma LeadingDigitsOfDigits(s: string)
    requires AllDigits(s)
    ensures LeadingDigits(s) == s
  {
  }

  /** Nothing is skipped before a first character that is not whitespace. */
  lemma SkipSpaceStops(s: string)
    requires s != [] && !IsSpace(s[0])
    ensures SkipSpace(s) == s
  {
  }

  /** `to_i` of the digits of `m` is `m`. */
  lemma ParseNatToString(m: nat)
    ensures ParseInt(NatToString(m)) == m
  {
    var digits := NatToString(m);
    assert IsDigit(digits[0]);
    SkipSpaceStops(digits);
    assert digits[0] != '-' && digits[0] != '+';
    LeadingDigitsOfDigits(digits);
    NatToStringValue(m);
  }

  /** `to_i` of a minus sign and the digits of `m` is `-m`. */
  lemma ParseNegNatToString(m: nat)
    ensures ParseInt("-" + NatToString(m)) == -(m as int)
  {
    var digits := NatToString(m);
    var s := "-" + digits;
    assert s[0] == '-' && !IsSpace(s[0]);
    SkipSpaceStops(s);
    assert s[1..] == digits;
    LeadingDigitsOfDigits(digits);
    NatToStringValue(m);
  }

  /** Parsing the decimal form of an integer gives the integer back. */
  lemma IntToStringRoundTrip(i: int)
    ensures ParseInt(IntToString(i)) == i
  {
    if i < 0 {
      var m: nat := -i;
      ParseNegNatToString(m);
    } else {
      var m: nat := i;
      ParseNatToString(m);
    }
  }

  /** "4".to_i == 4 */
  lemma ParseFour()
    ensures ParseInt("4") == 4
  {
    assert NatToString(4) == "4";
    ParseNatToString(4);
  }
}
