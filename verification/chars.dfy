/**
 * Character classes and decimal numerals as the Rust standard library sees them:
 * `char::is_whitespace`, `char::is_ascii_digit` and `u64::from_str_radix(_, 10)`.
 */
module Chars {
  import opened Base

  /** The largest value of Rust's `u64`. */
  const U64_MAX: int := 0xFFFF_FFFF_FFFF_FFFF

  /** Rust's `u64`: the values a `Token::Number` or `Expr::Number` can hold. */
  newtype u64 = x: int | 0 <= x <= U64_MAX

  /**
   * `char::is_whitespace`: a space or one of tab to carriage return, or, above
   * the ASCII range, a character with the Unicode White_Space property.
   */
  predicate IsWhitespace(c: char) {
    c == ' ' || ('\t' <= c <= '\r') || (c > '\U{007F}' && c in UnicodeWhiteSpace)
  }

  /** The characters above U+007F that have the Unicode White_Space property. */
  const UnicodeWhiteSpace: seq<char> := [
    '\U{0085}', '\U{00A0}', '\U{1680}', '\U{2000}', '\U{2001}', '\U{2002}', '\U{2003}',
    '\U{2004}', '\U{2005}', '\U{2006}', '\U{2007}', '\U{2008}', '\U{2009}', '\U{200A}',
    '\U{2028}', '\U{2029}', '\U{202F}', '\U{205F}', '\U{3000}'
  ]

  /** `char::is_ascii_digit`. */
  predicate IsAsciiDigit(c: char) {
    '0' <= c <= '9'
  }

  predicate AllDigits(s: seq<char>) {
    forall i :: 0 <= i < |s| ==> IsAsciiDigit(s[i])
  }

  function DigitValue(c: char): (d: nat)
    requires IsAsciiDigit(c)
    ensures d < 10
  {
    (c as int) - ('0' as int)
  }

  function DigitChar(d: nat): (c: char)
    requires d < 10
    ensures IsAsciiDigit(c) && DigitValue(c) == d
  {
    ('0' as int + d) as char
  }

  /** The base-10 value of a string of ASCII digits, most significant digit first. */
  function DecimalValue(s: seq<char>): nat
    requires AllDigits(s)
  {
    if s == [] then 0 else DecimalValue(s[..|s| - 1]) * 10 + DigitValue(s[|s| - 1])
  }

  /** The shortest base-10 numeral of `n` (no leading zeros, "0" for zero). */
  function DecimalString(n: nat): (s: seq<char>)
    ensures s != []
  {
    if n < 10 then [DigitChar(n)] else DecimalString(n / 10) + [DigitChar(n % 10)]
  }

  /** The numeral of `n` is made of ASCII digits and reads back as `n`. */
  lemma {:induction false} DecimalValueOfString(n: nat)
    ensures AllDigits(DecimalString(n))
    ensures DecimalValue(DecimalString(n)) == n
  {
    var s := DecimalString(n);
    if n >= 10 {
      DecimalValueOfString(n / 10);
      assert s[..|s| - 1] == DecimalString(n / 10);
      assert s == DecimalString(n / 10) + [DigitChar(n % 10)];
    }
  }

  /**
   * `str::parse::<u64>`, that is `u64::from_str_radix(s, 10)`: one optional leading
   * `+`, then at least one ASCII digit, and a value that fits in 64 bits.
   */
  function ParseU64(s: seq<char>): (r: Option<u64>)
    ensures r.Some? ==> s != [] && (IsAsciiDigit(s[0]) || (s[0] == '+' && |s| > 1))
    ensures r.Some? ==> IsAsciiDigit(s[|s| - 1])
  {
    var digits := if |s| > 1 && s[0] == '+' then s[1..] else s;
    if digits != [] && AllDigits(digits) && DecimalValue(digits) <= U64_MAX
    then Some(DecimalValue(digits) as u64)
    else None
  }

  /** A string of ASCII digits parses to its decimal value exactly when that value fits. */
  lemma ParseDigits(s: seq<char>)
    requires s != [] && AllDigits(s)
    ensures DecimalValue(s) <= U64_MAX ==> ParseU64(s) == Some(DecimalValue(s) as u64)
    ensures DecimalValue(s) > U64_MAX ==> ParseU64(s) == None
  {
    assert !(s[0] == '+') by { assert IsAsciiDigit(s[0]); }
  }

  /**
   * A leading `+` is dropped before the digits are read, and a second `+` is not
   * accepted after it.
   */
  lemma ParsePlusDigits(s: seq<char>)
    requires |s| > 1 && s[0] == '+'
    ensures s[1] != '+' ==> ParseU64(s) == ParseU64(s[1..])
    ensures s[1] == '+' ==> ParseU64(s) == None
  {
    if s[1] == '+' {
      assert !IsAsciiDigit(s[1..][0]);
    } else {
      assert |s[1..]| <= 1 || s[1..][0] != '+';
    }
  }

  /**
   * A string holding a character that is neither an ASCII digit nor a leading `+`
   * does not parse: a `+` anywhere but first, a full stop or any other character.
   */
  lemma ParseRejectsNonDigit(s: seq<char>, i: nat)
    requires i < |s| && !IsAsciiDigit(s[i]) && (s[i] != '+' || i > 0)
    ensures ParseU64(s) == None
  {
    var digits := if |s| > 1 && s[0] == '+' then s[1..] else s;
    if |s| > 1 && s[0] == '+' {
      if i == 0 {
        assert false;
      } else {
        assert digits[i - 1] == s[i];
      }
    } else {
      assert digits[i] == s[i];
    }
  }
}
