/**
 * `encodeURIComponent` and `decodeURIComponent` of ECMAScript (sections 18.2.6.1.1
 * "Encode", 18.2.6.1.2 "Decode", 18.2.6.3 and 18.2.6.5 of ECMA-262, 2015 edition).
 *
 * Encoding leaves the code units of the unescaped component set as they are and
 * writes every other code point as the `%XX` triples of its UTF-8 octets. A
 * surrogate code unit that is not part of a pair makes it throw `URIError`, which
 * is `None` here.
 */
module UriEncoding {

  import opened Wrappers
  import opened JsStrings

  type Octet = x: int | 0 <= x < 0x100

  const Percent: CodeUnit := 0x25

  /** The unescaped component set: ASCII letters and digits and `- _ . ! ~ * ' ( )`. */
  predicate IsUnescaped(u: CodeUnit)
  {
    || (0x41 <= u <= 0x5A) || (0x61 <= u <= 0x7A) || (0x30 <= u <= 0x39)
    || u == 0x2D || u == 0x5F || u == 0x2E || u == 0x21 || u == 0x7E
    || u == 0x2A || u == 0x27 || u == 0x28 || u == 0x29
  }

  predicate AllUnescaped(s: JsString)
  {
    forall i :: 0 <= i < |s| ==> IsUnescaped(s[i])
  }

  predicate IsHighSurrogate(u: CodeUnit) { 0xD800 <= u <= 0xDBFF }

  predicate IsLowSurrogate(u: CodeUnit) { 0xDC00 <= u <= 0xDFFF }

  /** Every high surrogate is followed by a low one and every low surrogate preceded by a high one. */
  predicate IsWellFormedUtf16(s: JsString)
  {
    && (forall i :: 0 <= i < |s| && IsHighSurrogate(s[i]) ==> i + 1 < |s| && IsLowSurrogate(s[i + 1]))
    && (forall i :: 0 <= i < |s| && IsLowSurrogate(s[i]) ==> 0 < i && IsHighSurrogate(s[i - 1]))
  }

  // ---------------------------------------------------------------------------
  // Code points, UTF-8 and UTF-16
  // ---------------------------------------------------------------------------

  predicate IsScalarValue(cp: int)
  {
    0 <= cp <= 0x10FFFF && !(0xD800 <= cp <= 0xDFFF)
  }

  /** The code point of a surrogate pair. */
  function PairCodePoint(hi: CodeUnit, lo: CodeUnit): (cp: int)
    requires IsHighSurrogate(hi) && IsLowSurrogate(lo)
    ensures 0x10000 <= cp <= 0x10FFFF
  {
    (hi as int - 0xD800) * 0x400 + (lo as int - 0xDC00) + 0x10000
  }

  /** The UTF-16 code units of a code point. */
  function Utf16Encode(cp: int): (r: JsString)
    requires IsScalarValue(cp)
    ensures |r| == if cp < 0x10000 then 1 else 2
  {
    if cp < 0x10000 then [cp as CodeUnit]
    else [((cp - 0x10000) / 0x400 + 0xD800) as CodeUnit, ((cp - 0x10000) % 0x400 + 0xDC00) as CodeUnit]
  }

  /** The UTF-8 octets of a code point. */
  function Utf8Encode(cp: int): (octets: seq<Octet>)
    requires IsScalarValue(cp)
    ensures 1 <= |octets| <= 4
  {
    if cp < 0x80 then [cp]
    else if cp < 0x800 then [0xC0 + cp / 0x40, 0x80 + cp % 0x40]
    else if cp < 0x10000 then [0xE0 + cp / 0x1000, 0x80 + (cp / 0x40) % 0x40, 0x80 + cp % 0x40]
    else [0xF0 + cp / 0x40000, 0x80 + (cp / 0x1000) % 0x40, 0x80 + (cp / 0x40) % 0x40, 0x80 + cp % 0x40]
  }

  // ---------------------------------------------------------------------------
  // Percent-encoding
  // ---------------------------------------------------------------------------

  /** An upper-case hexadecimal digit, as the encoder writes them. */
  function HexDigit(d: nat): (u: CodeUnit)
    requires d < 16
    ensures IsUpperHexDigit(u)
  {
    if d < 10 then (0x30 + d) as CodeUnit else (0x41 + d - 10) as CodeUnit
  }

  predicate IsUpperHexDigit(u: CodeUnit)
  {
    (0x30 <= u <= 0x39) || (0x41 <= u <= 0x46)
  }

  /** The `%XX` triples of some octets. */
  function PercentEncode(octets: seq<Octet>): (r: JsString)
    ensures |r| == 3 * |octets|
  {
    if octets == [] then []
    else [Percent, HexDigit(octets[0] / 16), HexDigit(octets[0] % 16)] + PercentEncode(octets[1..])
  }

  /** `r` is a sequence of unescaped code units and `%XX` triples with upper-case hex digits. */
  predicate IsEncodedForm(r: JsString)
  {
    || r == []
    || (IsUnescaped(r[0]) && IsEncodedForm(r[1..]))
    || (|r| >= 3 && r[0] == Percent && IsUpperHexDigit(r[1]) && IsUpperHexDigit(r[2]) && IsEncodedForm(r[3..]))
  }

  function PrependTo(p: JsString, rest: Option<JsString>): (r: Option<JsString>)
    ensures r.Some? <==> rest.Some?
    ensures r.Some? ==> r.value == p + rest.value
  {
    match rest
    case None => None
    case Some(t) => Some(p + t)
  }

  /** `encodeURIComponent(s)`; `None` when it throws `URIError`. */
  function EncodeURIComponent(s: JsString): (r: Option<JsString>)
    decreases |s|
  {
    if s == [] then Some([])
    else if IsUnescaped(s[0]) then PrependTo([s[0]], EncodeURIComponent(s[1..]))
    else if IsLowSurrogate(s[0]) then None
    else if !IsHighSurrogate(s[0]) then PrependTo(PercentEncode(Utf8Encode(s[0] as int)), EncodeURIComponent(s[1..]))
    else if |s| == 1 || !IsLowSurrogate(s[1]) then None
    else PrependTo(PercentEncode(Utf8Encode(PairCodePoint(s[0], s[1]))), EncodeURIComponent(s[2..]))
  }

  // ---------------------------------------------------------------------------
  // What encoding produces
  // ---------------------------------------------------------------------------

  lemma {:induction false} PercentEncodeForm(octets: seq<Octet>, rest: JsString)
    requires IsEncodedForm(rest)
    ensures IsEncodedForm(PercentEncode(octets) + rest)
  {
    if octets != [] {
      PercentEncodeForm(octets[1..], rest);
      var r := PercentEncode(octets) + rest;
      assert r[0] == Percent && IsUpperHexDigit(r[1]) && IsUpperHexDigit(r[2]);
      assert r[3..] == PercentEncode(octets[1..]) + rest;
    } else {
      assert PercentEncode(octets) + rest == rest;
    }
  }

  /** A successful encoding consists of unescaped code units and `%XX` triples only. */
  lemma {:induction false} EncodeForm(s: JsString)
    requires EncodeURIComponent(s).Some?
    ensures IsEncodedForm(EncodeURIComponent(s).value)
    decreases |s|
  {
    if s == [] {
    } else if IsUnescaped(s[0]) {
      EncodeForm(s[1..]);
      var r := EncodeURIComponent(s).value;
      assert r[1..] == EncodeURIComponent(s[1..]).value;
    } else if !IsHighSurrogate(s[0]) {
      EncodeForm(s[1..]);
      PercentEncodeForm(Utf8Encode(s[0] as int), EncodeURIComponent(s[1..]).value);
    } else {
      EncodeForm(s[2..]);
      PercentEncodeForm(Utf8Encode(PairCodePoint(s[0], s[1])), EncodeURIComponent(s[2..]).value);
    }
  }

  /** Every code unit of an encoded form is unescaped, `%` or an upper-case hex digit. */
  lemma {:induction false} EncodedFormUnits(r: JsString)
    requires IsEncodedForm(r)
    ensures forall i :: 0 <= i < |r| ==> IsUnescaped(r[i]) || r[i] == Percent || IsUpperHexDigit(r[i])
  {
    if r != [] {
      if IsUnescaped(r[0]) && IsEncodedForm(r[1..]) {
        EncodedFormUnits(r[1..]);
        assert forall i :: 1 <= i < |r| ==> r[i] == r[1..][i - 1];
      } else {
        EncodedFormUnits(r[3..]);
        assert forall i :: 3 <= i < |r| ==> r[i] == r[3..][i - 3];
      }
    }
  }

  /**
   * The result of `encodeURIComponent` holds none of the delimiters `&`, `?`, `=`
   * and `#`, so text inserted with it cannot start a new field, query or fragment.
   */
  lemma {:induction false} EncodeHasNoDelimiters(s: JsString)
    requires EncodeURIComponent(s).Some?
    ensures var r := EncodeURIComponent(s).value;
      forall i :: 0 <= i < |r| ==> r[i] !in {Unit('&'), Unit('?'), Unit('='), Unit('#')}
  {
    EncodeForm(s);
    EncodedFormUnits(EncodeURIComponent(s).value);
  }

  // ---------------------------------------------------------------------------
  // When encoding throws
  // ---------------------------------------------------------------------------

  /** A leading code unit that is not a surrogate has no bearing on well-formedness. */
  lemma {:induction false} WellFormedTail1(s: JsString)
    requires s != [] && !IsHighSurrogate(s[0]) && !IsLowSurrogate(s[0])
    ensures IsWellFormedUtf16(s) <==> IsWellFormedUtf16(s[1..])
  {
  }

  /** Neither has a leading surrogate pair. */
  lemma {:induction false} WellFormedTail2(s: JsString)
    requires |s| >= 2 && IsHighSurrogate(s[0]) && IsLowSurrogate(s[1])
    ensures IsWellFormedUtf16(s) <==> IsWellFormedUtf16(s[2..])
  {
  }

  /** `encodeURIComponent` throws exactly when the string holds an unpaired surrogate. */
  lemma {:induction false} EncodeSucceedsIff(s: JsString)
    ensures EncodeURIComponent(s).Some? <==> IsWellFormedUtf16(s)
    decreases |s|
  {
    if s == [] {
    } else if IsLowSurrogate(s[0]) {
    } else if !IsHighSurrogate(s[0]) {
      EncodeSucceedsIff(s[1..]);
      WellFormedTail1(s);
    } else if |s| == 1 || !IsLowSurrogate(s[1]) {
    } else {
      EncodeSucceedsIff(s[2..]);
      WellFormedTail2(s);
    }
  }

  // ---------------------------------------------------------------------------
  // When encoding changes nothing
  // ---------------------------------------------------------------------------

  /**
   * Encoding never shortens a string, and leaves it unchanged exactly when all its
   * code units are in the unescaped set.
   */
  lemma {:induction false} EncodeLength(s: JsString)
    requires EncodeURIComponent(s).Some?
    ensures |EncodeURIComponent(s).value| >= |s|
    ensures |EncodeURIComponent(s).value| == |s| <==> AllUnescaped(s)
    decreases |s|
  {
    if s == [] {
    } else if IsUnescaped(s[0]) {
      EncodeLength(s[1..]);
      assert forall i :: 1 <= i < |s| ==> s[i] == s[1..][i - 1];
    } else if !IsHighSurrogate(s[0]) {
      EncodeLength(s[1..]);
    } else {
      EncodeLength(s[2..]);
    }
  }

  /** Strings of unescaped code units are their own encoding, and no others are. */
  lemma {:induction false} EncodeIdentityIff(s: JsString)
    ensures EncodeURIComponent(s) == Some(s) <==> AllUnescaped(s)
    decreases |s|
  {
    if AllUnescaped(s) {
      if s != [] {
        assert forall i :: 1 <= i < |s| ==> s[1..][i - 1] == s[i];
        EncodeIdentityIff(s[1..]);
        assert s == [s[0]] + s[1..];
      }
    } else if EncodeURIComponent(s).Some? {
      EncodeLength(s);
    }
  }

  // ---------------------------------------------------------------------------
  // Decoding, the inverse: `decodeURIComponent` (its reserved set is empty)
  // ---------------------------------------------------------------------------

  /** The value of a hexadecimal digit of either case. */
  function HexValue(u: CodeUnit): (d: Option<nat>)
    ensures d.Some? ==> d.value < 16
  {
    if 0x30 <= u <= 0x39 then Some((u - 0x30) as int)
    else if 0x41 <= u <= 0x46 then Some((u - 0x41) as int + 10)
    else if 0x61 <= u <= 0x66 then Some((u - 0x61) as int + 10)
    else None
  }

  /** The octet written as `%XX` at index `i` of `r`, if one is written there. */
  function OctetAt(r: JsString, i: nat): (b: Option<Octet>)
    ensures b.Some? ==> i + 2 < |r|
  {
    if i + 2 < |r| && r[i] == Percent && HexValue(r[i + 1]).Some? && HexValue(r[i + 2]).Some?
    then Some(HexValue(r[i + 1]).value * 16 + HexValue(r[i + 2]).value)
    else None
  }

  predicate IsContinuation(b: Octet)
  {
    0x80 <= b < 0xC0
  }

  /** The `n` continuation octets (each of the form 10xxxxxx) written as `%XX` from index `i` on. */
  function ContinuationOctets(r: JsString, i: nat, n: nat): (bs: Option<seq<Octet>>)
    ensures bs.Some? ==> |bs.value| == n && forall k :: 0 <= k < n ==> IsContinuation(bs.value[k])
    decreases n
  {
    if n == 0 then Some([])
    else match OctetAt(r, i)
      case None => None
      case Some(b) =>
        if !IsContinuation(b) then None
        else match ContinuationOctets(r, i + 3, n - 1)
          case None => None
          case Some(bs) => Some([b] + bs)
  }

  /** The number of leading one bits of an octet, up to 5. */
  function LeadingOnes(b: Octet): nat
  {
    if b < 0x80 then 0 else if b < 0xC0 then 1 else if b < 0xE0 then 2 else if b < 0xF0 then 3 else if b < 0xF8 then 4 else 5
  }

  /**
   * The code point of a UTF-8 sequence of two to four octets; `None` when it is not a
   * valid encoding (overlong, a surrogate, or above U+10FFFF).
   */
  function Utf8Decode(lead: Octet, cont: seq<Octet>): (v: Option<int>)
    requires 2 <= LeadingOnes(lead) <= 4 && |cont| == LeadingOnes(lead) - 1
    requires forall k :: 0 <= k < |cont| ==> IsContinuation(cont[k])
    ensures v.Some? ==> IsScalarValue(v.value)
  {
    var b0 := lead as int;
    if LeadingOnes(lead) == 2 then
      var v := (b0 - 0xC0) * 0x40 + (cont[0] as int - 0x80);
      if 0x80 <= v then Some(v) else None
    else if LeadingOnes(lead) == 3 then
      var v := (b0 - 0xE0) * 0x1000 + (cont[0] as int - 0x80) * 0x40 + (cont[1] as int - 0x80);
      if 0x800 <= v && !(0xD800 <= v <= 0xDFFF) then Some(v) else None
    else
      var v := (b0 - 0xF0) * 0x40000 + (cont[0] as int - 0x80) * 0x1000 + (cont[1] as int - 0x80) * 0x40 + (cont[2] as int - 0x80);
      if 0x10000 <= v <= 0x10FFFF then Some(v) else None
  }

  /** `decodeURIComponent(r)`; `None` when it throws `URIError`. */
  function DecodeURIComponent(r: JsString): (s: Option<JsString>)
    decreases |r|
  {
    if r == [] then Some([])
    else if r[0] != Percent then PrependTo([r[0]], DecodeURIComponent(r[1..]))
    else match OctetAt(r, 0)
      case None => None
      case Some(b) =>
        if b < 0x80 then PrependTo([b as CodeUnit], DecodeURIComponent(r[3..]))
        else if LeadingOnes(b) == 1 || LeadingOnes(b) > 4 || |r| < 3 * LeadingOnes(b) then None
        else match ContinuationOctets(r, 3, LeadingOnes(b) - 1)
          case None => None
          case Some(cont) =>
            match Utf8Decode(b, cont)
            case None => None
            case Some(v) => PrependTo(Utf16Encode(v), DecodeURIComponent(r[3 * LeadingOnes(b)..]))
  }

  // ---------------------------------------------------------------------------
  // Decoding undoes encoding
  // ---------------------------------------------------------------------------

  lemma {:induction false} HexRoundTrip(d: nat)
    requires d < 16
    ensures HexValue(HexDigit(d)) == Some(d)
  {
  }

  /** The triple at index `3 * j` of a percent-encoding (and whatever follows it) is that of the `j`-th octet. */
  lemma {:induction false} PercentEncodeAt(octets: seq<Octet>, rest: JsString, j: nat)
    requires j < |octets|
    ensures var x := PercentEncode(octets) + rest;
      && 3 * j + 2 < |x|
      && x[3 * j] == Percent
      && x[3 * j + 1] == HexDigit(octets[j] / 16)
      && x[3 * j + 2] == HexDigit(octets[j] % 16)
  {
    var b := octets[0];
    var tail := PercentEncode(octets[1..]) + rest;
    assert PercentEncode(octets) + rest == [Percent, HexDigit(b / 16), HexDigit(b % 16)] + tail;
    if j > 0 {
      PercentEncodeAt(octets[1..], rest, j - 1);
      assert octets[j] == octets[1..][j - 1];
    }
  }

  lemma {:induction false} OctetAtPercentEncode(octets: seq<Octet>, rest: JsString, j: nat)
    requires j < |octets|
    ensures OctetAt(PercentEncode(octets) + rest, 3 * j) == Some(octets[j])
  {
    PercentEncodeAt(octets, rest, j);
    OctetAtTriple(PercentEncode(octets) + rest, 3 * j, octets[j]);
  }

  /** Reading back the triple written for an octet gives that octet. */
  lemma {:induction false} OctetAtTriple(x: JsString, i: nat, b: Octet)
    requires i + 2 < |x|
    requires x[i] == Percent && x[i + 1] == HexDigit(b / 16) && x[i + 2] == HexDigit(b % 16)
    ensures OctetAt(x, i) == Some(b)
  {
  }

  lemma {:induction false} ContinuationOctetsOf(octets: seq<Octet>, rest: JsString, i: nat)
    requires 1 <= i <= |octets|
    requires forall k :: 1 <= k < |octets| ==> IsContinuation(octets[k])
    ensures ContinuationOctets(PercentEncode(octets) + rest, 3 * i, |octets| - i) == Some(octets[i..])
    decreases |octets| - i
  {
    if i < |octets| {
      OctetAtPercentEncode(octets, rest, i);
      ContinuationOctetsOf(octets, rest, i + 1);
      assert octets[i..] == [octets[i]] + octets[i + 1..];
    }
  }

  /** UTF-8 decoding undoes UTF-8 encoding of a code point of two to four octets. */
  lemma {:induction false} Utf8RoundTrip(cp: int)
    requires IsScalarValue(cp) && 0x80 <= cp
    ensures var o := Utf8Encode(cp);
      && LeadingOnes(o[0]) == |o|
      && (forall k :: 1 <= k < |o| ==> IsContinuation(o[k]))
      && Utf8Decode(o[0], o[1..]) == Some(cp)
  {
    if cp < 0x800 {
      Utf8RoundTrip2(cp);
    } else if cp < 0x10000 {
      Utf8RoundTrip3(cp);
    } else {
      Utf8RoundTrip4(cp);
    }
  }

  lemma {:induction false} Utf8RoundTrip2(cp: int)
    requires 0x80 <= cp < 0x800
    ensures var o := Utf8Encode(cp);
      && |o| == 2 && LeadingOnes(o[0]) == 2 && IsContinuation(o[1])
      && Utf8Decode(o[0], o[1..]) == Some(cp)
  {
  }

  lemma {:induction false} Utf8RoundTrip3(cp: int)
    requires 0x800 <= cp < 0x10000 && !(0xD800 <= cp <= 0xDFFF)
    ensures var o := Utf8Encode(cp);
      && |o| == 3 && LeadingOnes(o[0]) == 3 && IsContinuation(o[1]) && IsContinuation(o[2])
      && Utf8Decode(o[0], o[1..]) == Some(cp)
  {
    var o := Utf8Encode(cp);
    var hi, mid, lo := cp / 0x1000, (cp / 0x40) % 0x40, cp % 0x40;
    assert o == [0xE0 + hi, 0x80 + mid, 0x80 + lo];
    assert cp == (cp / 0x40) * 0x40 + lo;
    assert cp / 0x40 == hi * 0x40 + mid;
    assert cp == hi * 0x1000 + mid * 0x40 + lo;
  }

  lemma {:induction false} Utf8RoundTrip4(cp: int)
    requires 0x10000 <= cp <= 0x10FFFF
    ensures var o := Utf8Encode(cp);
      && |o| == 4 && LeadingOnes(o[0]) == 4
      && IsContinuation(o[1]) && IsContinuation(o[2]) && IsContinuation(o[3])
      && Utf8Decode(o[0], o[1..]) == Some(cp)
  {
    var o := Utf8Encode(cp);
    var top, hi, mid, lo := cp / 0x40000, (cp / 0x1000) % 0x40, (cp / 0x40) % 0x40, cp % 0x40;
    assert o == [0xF0 + top, 0x80 + hi, 0x80 + mid, 0x80 + lo];
    assert cp == (cp / 0x40) * 0x40 + lo;
    assert cp / 0x40 == (cp / 0x1000) * 0x40 + mid;
    assert cp / 0x1000 == top * 0x40 + hi;
    assert cp == top * 0x40000 + hi * 0x1000 + mid * 0x40 + lo;
  }

  /** Decoding the `%XX` triples of one code point gives its UTF-16 code units. */
  lemma {:induction false} DecodeChunk(cp: int, rest: JsString)
    requires IsScalarValue(cp)
    ensures DecodeURIComponent(PercentEncode(Utf8Encode(cp)) + rest)
         == PrependTo(Utf16Encode(cp), DecodeURIComponent(rest))
  {
    var octets := Utf8Encode(cp);
    var x := PercentEncode(octets) + rest;
    OctetAtPercentEncode(octets, rest, 0);
    assert x[0] == Percent;
    assert x[3 * |octets|..] == rest;
    if cp < 0x80 {
      assert x[3..] == rest;
    } else {
      Utf8RoundTrip(cp);
      ContinuationOctetsOf(octets, rest, 1);
    }
  }

  /** The code units of a surrogate pair are the UTF-16 encoding of its code point. */
  lemma {:induction false} PairRoundTrip(hi: CodeUnit, lo: CodeUnit)
    requires IsHighSurrogate(hi) && IsLowSurrogate(lo)
    ensures Utf16Encode(PairCodePoint(hi, lo)) == [hi, lo]
  {
  }

  /** `decodeURIComponent(encodeURIComponent(s))` gives back `s` whenever encoding succeeds. */
  lemma {:induction false} DecodeEncode(s: JsString)
    requires EncodeURIComponent(s).Some?
    ensures DecodeURIComponent(EncodeURIComponent(s).value) == Some(s)
    decreases |s|
  {
    if s == [] {
    } else if IsUnescaped(s[0]) {
      DecodeEncode(s[1..]);
      var x := EncodeURIComponent(s).value;
      assert x[0] == s[0] && x[1..] == EncodeURIComponent(s[1..]).value;
      assert s == [s[0]] + s[1..];
    } else if !IsHighSurrogate(s[0]) {
      DecodeEncode(s[1..]);
      DecodeChunk(s[0] as int, EncodeURIComponent(s[1..]).value);
      assert s == [s[0]] + s[1..];
    } else {
      DecodeEncode(s[2..]);
      DecodeChunk(PairCodePoint(s[0], s[1]), EncodeURIComponent(s[2..]).value);
      PairRoundTrip(s[0], s[1]);
      assert s == [s[0], s[1]] + s[2..];
    }
  }
}
