/**
 * ECMAScript string values and the few built-in string operations the app uses:
 * `String.prototype.trim` and the decimal `toString` of an integral Number.
 *
 * An ECMAScript string is a sequence of UTF-16 code units, any of which may be an
 * unpaired surrogate; Dafny's `char` cannot hold a surrogate, so strings are
 * modelled as sequences of 16-bit code units.
 */
module JsStrings {

  /** A UTF-16 code unit. */
  newtype CodeUnit = x: int | 0 <= x < 0x1_0000

  type JsString = seq<CodeUnit>

  /** The code unit of a character of the Basic Multilingual Plane (U+FFFD for the others). */
  function Unit(c: char): CodeUnit
  {
    if c as int < 0x1_0000 then c as int as CodeUnit else 0xFFFD
  }

  /** The code units of a string literal written with characters of the Basic Multilingual Plane. */
  function Lit(s: string): (r: JsString)
    ensures |r| == |s|
  {
    seq(|s|, i requires 0 <= i < |s| => Unit(s[i]))
  }

  // ---------------------------------------------------------------------------
  // White space, as `String.prototype.trim` removes it: the WhiteSpace and
  // LineTerminator code points of ECMAScript (section 11.2 and 11.3 of ECMA-262).
  // ---------------------------------------------------------------------------

  predicate IsWhiteSpace(u: CodeUnit)
  {
    || u == 0x09 || u == 0x0B || u == 0x0C || u == 0x20 || u == 0xA0 || u == 0xFEFF  // TAB VT FF SP NBSP ZWNBSP
    || u == 0x1680 || (0x2000 <= u <= 0x200A) || u == 0x202F || u == 0x205F || u == 0x3000  // other Zs
    || u == 0x0A || u == 0x0D || u == 0x2028 || u == 0x2029  // LF CR LS PS
  }

  predicate AllWhiteSpace(s: JsString)
  {
    forall i :: 0 <= i < |s| ==> IsWhiteSpace(s[i])
  }

  predicate NoWhiteSpace(s: JsString)
  {
    forall i :: 0 <= i < |s| ==> !IsWhiteSpace(s[i])
  }

  /** The index of the first code unit of `s` at or after `i` that is not white space (`|s|` if none). */
  function SkipLeading(s: JsString, i: nat): (k: nat)
    requires i <= |s|
    ensures i <= k <= |s|
    ensures forall j :: i <= j < k ==> IsWhiteSpace(s[j])
    ensures k < |s| ==> !IsWhiteSpace(s[k])
    decreases |s| - i
  {
    if i < |s| && IsWhiteSpace(s[i]) then SkipLeading(s, i + 1) else i
  }

  /** The index just past the last code unit of `s[lo..e]` that is not white space (`lo` if none). */
  function SkipTrailing(s: JsString, lo: nat, e: nat): (k: nat)
    requires lo <= e <= |s|
    ensures lo <= k <= e
    ensures forall j :: k <= j < e ==> IsWhiteSpace(s[j])
    ensures lo < k ==> !IsWhiteSpace(s[k - 1])
    decreases e
  {
    if lo < e && IsWhiteSpace(s[e - 1]) then SkipTrailing(s, lo, e - 1) else e
  }

  /**
   * `String.prototype.trim`: the infix of `s` left once the white space at both ends
   * is dropped. It neither starts nor ends with white space, and everything of `s`
   * before and after it is white space.
   */
  function Trim(s: JsString): (r: JsString)
    ensures var k := SkipLeading(s, 0);
      && k + |r| <= |s| && r == s[k..k + |r|]
      && (forall j :: 0 <= j < k ==> IsWhiteSpace(s[j]))
      && (forall j :: k + |r| <= j < |s| ==> IsWhiteSpace(s[j]))
    ensures r != [] ==> !IsWhiteSpace(r[0]) && !IsWhiteSpace(r[|r| - 1])
  {
    var k := SkipLeading(s, 0);
    s[k..SkipTrailing(s, k, |s|)]
  }

  /** Trimming gives the empty string exactly when `s` is all white space. */
  lemma {:induction false} TrimEmptyIff(s: JsString)
    ensures Trim(s) == [] <==> AllWhiteSpace(s)
  {
  }

  /** A string without white space is its own trim. */
  lemma {:induction false} TrimNoWhiteSpace(s: JsString)
    requires NoWhiteSpace(s)
    ensures Trim(s) == s
  {
  }

  // ---------------------------------------------------------------------------
  // ASCII digits and the decimal form of an integral Number
  // ---------------------------------------------------------------------------

  predicate IsAsciiDigit(u: CodeUnit)
  {
    0x30 <= u <= 0x39
  }

  predicate AllAsciiDigits(s: JsString)
  {
    forall i :: 0 <= i < |s| ==> IsAsciiDigit(s[i])
  }

  function DigitUnit(d: nat): (u: CodeUnit)
    requires d < 10
    ensures IsAsciiDigit(u)
  {
    (0x30 + d) as CodeUnit
  }

  function DigitValue(u: CodeUnit): (d: nat)
    requires IsAsciiDigit(u)
    ensures d < 10 && DigitUnit(d) == u
  {
    (u - 0x30) as int
  }

  /** The shortest decimal numeral of `n`. */
  function DecimalDigits(n: nat): (r: JsString)
    ensures |r| >= 1 && AllAsciiDigits(r)
    ensures (|r| == 1) == (n < 10)
    ensures n > 0 ==> r[0] != DigitUnit(0)
  {
    if n < 10 then [DigitUnit(n)] else DecimalDigits(n / 10) + [DigitUnit(n % 10)]
  }

  /** The value of a decimal numeral. */
  function ParseDecimal(s: JsString): nat
    requires AllAsciiDigits(s)
  {
    if s == [] then 0 else ParseDecimal(s[..|s| - 1]) * 10 + DigitValue(s[|s| - 1])
  }

  /** Reading back a numeral gives the number it was written from. */
  lemma {:induction false} ParseDecimalDigits(n: nat)
    ensures ParseDecimal(DecimalDigits(n)) == n
  {
    if n >= 10 {
      var s := DecimalDigits(n);
      assert s[..|s| - 1] == DecimalDigits(n / 10);
      ParseDecimalDigits(n / 10);
    }
  }

  /** Largest magnitude for which `Number.prototype.toString` writes an integer in plain decimal. */
  const PlainDecimalBound: int := 1_000_000_000_000_000_000_000

  /**
   * `Number.prototype.toString()` of an integral Number below 10^21 in magnitude: a
   * `-` for a negative number, then the numeral of its magnitude without leading zeros.
   */
  function NumberToString(n: int): (r: JsString)
    requires -PlainDecimalBound < n < PlainDecimalBound
    ensures r != [] && (r[0] == Unit('-') <==> n < 0)
    ensures var digits := if n < 0 then r[1..] else r;
      && digits != [] && AllAsciiDigits(digits)
      && ParseDecimal(digits) == (if n < 0 then -n else n)
      && (|digits| == 1 || digits[0] != DigitUnit(0))
  {
    if n < 0 then
      ParseDecimalDigits(-n);
      assert ([Unit('-')] + DecimalDigits(-n))[1..] == DecimalDigits(-n);
      [Unit('-')] + DecimalDigits(-n)
    else
      ParseDecimalDigits(n);
      DecimalDigits(n)
  }

  /** Distinct naturals have distinct numerals. */
  lemma {:induction false} DecimalDigitsInjective(a: nat, b: nat)
    requires DecimalDigits(a) == DecimalDigits(b)
    ensures a == b
  {
    ParseDecimalDigits(a);
    ParseDecimalDigits(b);
  }

  /** Distinct integers have distinct decimal strings. */
  lemma {:induction false} NumberToStringInjective(a: int, b: int)
    requires -PlainDecimalBound < a < PlainDecimalBound
    requires -PlainDecimalBound < b < PlainDecimalBound
    ensures NumberToString(a) == NumberToString(b) <==> a == b
  {
    var sa, sb := NumberToString(a), NumberToString(b);
    if sa == sb {
      assert (a < 0) == (b < 0);
      if a < 0 {
        assert sa[1..] == DecimalDigits(-a) && sb[1..] == DecimalDigits(-b);
        DecimalDigitsInjective(-a, -b);
      } else {
        DecimalDigitsInjective(a, b);
      }
    }
  }
}
