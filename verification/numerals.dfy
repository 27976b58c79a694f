/**
 * Decimal numerals: the digit strings the login URI carries, and the integer parsing
 * that Int32.TryParse / UInt32.TryParse perform under NumberStyles.Integer (optional
 * white space around an optional sign and one or more ASCII digits, then a range check;
 * on failure the out-argument is 0).
 */
module Numerals {
  import opened Wrappers

  const Int32Min: int := -0x8000_0000
  const Int32Max: int := 0x7FFF_FFFF
  const UInt32Max: int := 0xFFFF_FFFF

  predicate IsDigit(c: char) { '0' <= c <= '9' }

  /** One or more ASCII digits: what `\d+` matches. */
  predicate IsNumeral(s: string) {
    |s| > 0 && forall i :: 0 <= i < |s| ==> IsDigit(s[i])
  }

  function DigitValue(c: char): nat
    requires IsDigit(c)
  {
    (c as int) - ('0' as int)
  }

  function DigitChar(d: nat): char
    requires d < 10
  {
    ('0' as int + d) as char
  }

  /** The value of a digit string, most significant digit first. */
  function DigitsValue(s: string): nat
    requires forall i :: 0 <= i < |s| ==> IsDigit(s[i])
  {
    if |s| == 0 then 0 else DigitsValue(s[..|s| - 1]) * 10 + DigitValue(s[|s| - 1])
  }

  /** The shortest decimal numeral of `n`. */
  function NatText(n: nat): (s: string)
    ensures IsNumeral(s)
  {
    if n < 10 then [DigitChar(n)] else NatText(n / 10) + [DigitChar(n % 10)]
  }

  /** Reading back the numeral of `n` gives `n`. */
  lemma {:induction false} NatTextValue(n: nat)
    ensures DigitsValue(NatText(n)) == n
  {
    if n >= 10 {
      NatTextValue(n / 10);
      var s := NatText(n);
      assert s[..|s| - 1] == NatText(n / 10);
    }
  }

  /** U+0009 to U+000D and U+0020, the white space NumberStyles.Integer admits. */
  predicate IsWhite(c: char) { c == ' ' || '\t' <= c <= '\r' }

  function TrimStart(s: string): (t: string)
    ensures |t| <= |s|
    ensures |t| > 0 ==> !IsWhite(t[0])
    ensures t == s[|s| - |t|..]
  {
    if |s| > 0 && IsWhite(s[0]) then TrimStart(s[1..]) else s
  }

  function TrimEnd(s: string): (t: string)
    ensures |t| <= |s|
    ensures |t| > 0 ==> !IsWhite(t[|t| - 1])
    ensures t == s[..|t|]
  {
    if |s| > 0 && IsWhite(s[|s| - 1]) then TrimEnd(s[..|s| - 1]) else s
  }

  /** An optionally signed numeral with surrounding white space, any magnitude. */
  function ParseInteger(s: string): (r: Option<int>)
  {
    ParseTrimmed(TrimEnd(TrimStart(s)))
  }

  /** An optionally signed numeral with nothing around it, any magnitude. */
  function ParseTrimmed(t: string): (r: Option<int>)
  {
    if |t| > 0 && (t[0] == '-' || t[0] == '+') then
      var body := t[1..];
      if IsNumeral(body) then
        var magnitude: int := DigitsValue(body);
        Some(if t[0] == '-' then -magnitude else magnitude)
      else None
    else if IsNumeral(t) then Some(DigitsValue(t))
    else None
  }

  /** Int32.TryParse: the parsed value when it is in range, otherwise no value. */
  function TryParseInt32(s: string): (r: Option<int>)
    ensures r.Some? ==> Int32Min <= r.value <= Int32Max
    ensures r.Some? <==> ParseInteger(s).Some? && Int32Min <= ParseInteger(s).value <= Int32Max
  {
    var v := ParseInteger(s);
    if v.Some? && Int32Min <= v.value <= Int32Max then v else None
  }

  /** UInt32.TryParse: the parsed value when it is in range, otherwise no value. */
  function TryParseUInt32(s: string): (r: Option<nat>)
    ensures r.Some? ==> r.value <= UInt32Max
    ensures r.Some? <==> ParseInteger(s).Some? && 0 <= ParseInteger(s).value <= UInt32Max
  {
    var v := ParseInteger(s);
    if v.Some? && 0 <= v.value <= UInt32Max then Some(v.value) else None
  }

  /** The invariant-culture decimal text of an integer (Int32.ToString()). */
  function IntText(n: int): string
  {
    if n < 0 then "-" + NatText(-n) else NatText(n)
  }

  /** A string with no white space at either end is left alone by trimming. */
  lemma TrimmedAlready(s: string)
    requires |s| > 0 && !IsWhite(s[0]) && !IsWhite(s[|s| - 1])
    ensures TrimEnd(TrimStart(s)) == s
  {
    assert TrimStart(s) == s;
  }

  /** The numeral of `m` parses to `m`. */
  lemma ParseNatText(m: nat)
    ensures ParseInteger(NatText(m)) == Some(m)
  {
    var digits := NatText(m);
    NatTextValue(m);
    assert !IsWhite(digits[|digits| - 1]) && !IsWhite(digits[0]);
    TrimmedAlready(digits);
    ParseUnsignedCore(digits);
  }

  /** A minus sign before the numeral of `m` parses to `-m`. */
  lemma ParseNegatedNatText(m: nat)
    ensures ParseInteger("-" + NatText(m)) == Some(-(m as int))
  {
    NatTextValue(m);
    ParseNegatedDigits(NatText(m), m);
  }

  /** A minus sign before a numeral of value `m` parses to `-m`. */
  lemma ParseNegatedDigits(digits: string, m: nat)
    requires IsNumeral(digits) && DigitsValue(digits) == m
    ensures ParseInteger("-" + digits) == Some(-(m as int))
  {
    ParseLayout("", "-", digits, "");
    Unpadded("-", digits);
  }

  /** A layout with no white space on either side is just its sign and digits. */
  lemma Unpadded(sign: string, digits: string)
    ensures "" + sign + digits + "" == sign + digits
  {
  }

  /** Every Int32 value survives printing and Int32.TryParse. */
  lemma Int32TextRoundTrip(n: int)
    requires Int32Min <= n <= Int32Max
    ensures TryParseInt32(IntText(n)) == Some(n)
  {
    if n < 0 {
      var m: nat := -n;
      ParseNegatedNatText(m);
      NegativeRange("-" + NatText(m), m);
    } else {
      ParseNatText(n);
      Int32Range(NatText(n), n);
    }
  }

  /** A negative parsed value within 32 bits is kept by Int32.TryParse. */
  lemma NegativeRange(text: string, m: nat)
    requires ParseInteger(text) == Some(-(m as int)) && m <= -Int32Min
    ensures TryParseInt32(text) == Some(-(m as int))
  {
    Int32Range(text, -(m as int));
  }

  /** Every character is white space. */
  predicate AllWhite(s: string)
  {
    forall i :: 0 <= i < |s| ==> IsWhite(s[i])
  }

  /** Every character is the digit zero. */
  predicate AllZeros(s: string)
  {
    forall i :: 0 <= i < |s| ==> s[i] == '0'
  }

  /** White space before a text that starts with something else is trimmed away. */
  lemma {:induction false} TrimStartWhite(w: string, t: string)
    requires AllWhite(w) && |t| > 0 && !IsWhite(t[0])
    ensures TrimStart(w + t) == t
    decreases |w|
  {
    if |w| > 0 {
      assert (w + t)[1..] == w[1..] + t;
      TrimStartWhite(w[1..], t);
    } else {
      assert w + t == t;
    }
  }

  /** White space after a text that ends with something else is trimmed away. */
  lemma {:induction false} TrimEndWhite(t: string, w: string)
    requires AllWhite(w) && |t| > 0 && !IsWhite(t[|t| - 1])
    ensures TrimEnd(t + w) == t
    decreases |w|
  {
    if |w| > 0 {
      assert (t + w)[..|t + w| - 1] == t + w[..|w| - 1];
      TrimEndWhite(t, w[..|w| - 1]);
    } else {
      assert t + w == t;
    }
  }

  /** A run of zeros reads as zero. */
  lemma {:induction false} ZerosValue(z: string)
    requires AllZeros(z)
    ensures forall i :: 0 <= i < |z| ==> IsDigit(z[i])
    ensures DigitsValue(z) == 0
    decreases |z|
  {
    if |z| > 0 {
      ZerosValue(z[..|z| - 1]);
    }
  }

  /** Leading zeros do not change a numeral's value. */
  lemma {:induction false} LeadingZerosValue(z: string, d: string)
    requires AllZeros(z) && forall i :: 0 <= i < |d| ==> IsDigit(d[i])
    ensures forall i :: 0 <= i < |z + d| ==> IsDigit((z + d)[i])
    ensures DigitsValue(z + d) == DigitsValue(d)
    decreases |d|
  {
    ZerosValue(z);
    if |d| == 0 {
      assert z + d == z;
    } else {
      var zd := z + d;
      assert zd[..|zd| - 1] == z + d[..|d| - 1];
      assert zd[|zd| - 1] == d[|d| - 1];
      LeadingZerosValue(z, d[..|d| - 1]);
    }
  }

  /** Trimming removes exactly the white space around a text that neither starts nor ends with any. */
  lemma TrimAround(w1: string, core: string, w2: string)
    requires AllWhite(w1) && AllWhite(w2)
    requires |core| > 0 && !IsWhite(core[0]) && !IsWhite(core[|core| - 1])
    ensures TrimEnd(TrimStart(w1 + core + w2)) == core
  {
    assert w1 + core + w2 == w1 + (core + w2);
    assert (core + w2)[0] == core[0];
    TrimStartWhite(w1, core + w2);
    TrimEndWhite(core, w2);
  }

  /** Digits alone parse to their value. */
  lemma ParseUnsignedCore(digits: string)
    requires IsNumeral(digits)
    ensures ParseTrimmed(digits) == Some(DigitsValue(digits) as int)
  {
    assert digits[0] != '-' && digits[0] != '+';
  }

  /** A sign and digits parse to the digits' value, negated after a minus sign. */
  lemma ParseSignedCore(sign: char, digits: string)
    requires sign == '+' || sign == '-'
    requires IsNumeral(digits)
    ensures ParseTrimmed([sign] + digits) == Some(if sign == '-' then -(DigitsValue(digits) as int) else DigitsValue(digits) as int)
  {
    var t := [sign] + digits;
    assert t[0] == sign && t[1..] == digits;
  }

  /** The value a sign gives a magnitude: negated after a minus sign. */
  function Signed(sign: string, m: nat): int
  {
    if sign == "-" then -(m as int) else m
  }

  /**
   * The text NumberStyles.Integer accepts: white space, an optional sign, digits and white
   * space parse to the digits' value, negated after a minus sign, whatever the magnitude.
   */
  lemma ParseLayout(w1: string, sign: string, digits: string, w2: string)
    requires AllWhite(w1) && AllWhite(w2) && IsNumeral(digits)
    requires sign == "" || sign == "+" || sign == "-"
    ensures ParseInteger(w1 + sign + digits + w2) == Some(Signed(sign, DigitsValue(digits)))
  {
    var core := sign + digits;
    var s := w1 + sign + digits + w2;
    assert s == w1 + core + w2;
    assert core[|core| - 1] == digits[|digits| - 1];
    if sign == "" {
      assert core == digits;
      TrimAround(w1, core, w2);
      ParseUnsignedCore(digits);
    } else {
      assert core == [sign[0]] + digits;
      TrimAround(w1, core, w2);
      ParseSignedCore(sign[0], digits);
    }
  }

  /** Leading zeros before the numeral of `n` still make a numeral of value `n`. */
  lemma PaddedNumeral(zeros: string, n: nat)
    requires AllZeros(zeros)
    ensures IsNumeral(zeros + NatText(n)) && DigitsValue(zeros + NatText(n)) == n
  {
    LeadingZerosValue(zeros, NatText(n));
    NatTextValue(n);
  }

  /** A layout with leading zeros parses to the signed value of `n`. */
  lemma ParsePadded(w1: string, sign: string, zeros: string, n: nat, w2: string)
    requires AllWhite(w1) && AllWhite(w2) && AllZeros(zeros)
    requires sign == "" || sign == "+" || sign == "-"
    ensures ParseInteger(w1 + sign + zeros + NatText(n) + w2) == Some(Signed(sign, n))
  {
    var digits := zeros + NatText(n);
    PaddedNumeral(zeros, n);
    Regroup(w1, sign, zeros, NatText(n), w2);
    ParseLayout(w1, sign, digits, w2);
  }

  /**
   * Int32.TryParse of any accepted layout of `n`: white space, an optional sign, leading
   * zeros, the digits of `n` and white space give the signed value exactly when it fits
   * in 32 bits, and no value otherwise.
   */
  lemma TryParseInt32Layout(w1: string, sign: string, zeros: string, n: nat, w2: string)
    requires AllWhite(w1) && AllWhite(w2) && AllZeros(zeros)
    requires sign == "" || sign == "+" || sign == "-"
    ensures var v := Signed(sign, n);
      TryParseInt32(w1 + sign + zeros + NatText(n) + w2)
        == if Int32Min <= v <= Int32Max then Some(v) else None
  {
    ParsePadded(w1, sign, zeros, n, w2);
    Int32Range(w1 + sign + zeros + NatText(n) + w2, Signed(sign, n));
  }

  /**
   * UInt32.TryParse of any accepted layout of `n`: white space, an optional sign, leading
   * zeros, the digits of `n` and white space give `n` when it fits in 32 bits and no minus
   * sign makes it negative, and no value otherwise.
   */
  lemma TryParseUInt32Layout(w1: string, sign: string, zeros: string, n: nat, w2: string)
    requires AllWhite(w1) && AllWhite(w2) && AllZeros(zeros)
    requires sign == "" || sign == "+" || sign == "-"
    ensures TryParseUInt32(w1 + sign + zeros + NatText(n) + w2)
      == if n <= UInt32Max && (sign != "-" || n == 0) then Some(n) else None
  {
    ParsePadded(w1, sign, zeros, n, w2);
  }

  /** Grouping the digits of a layout together. */
  lemma Regroup(w1: string, sign: string, zeros: string, digits: string, w2: string)
    ensures w1 + sign + zeros + digits + w2 == w1 + sign + (zeros + digits) + w2
  {
  }

  /** Int32.TryParse keeps a parsed value exactly when it fits in 32 bits. */
  lemma Int32Range(text: string, v: int)
    requires ParseInteger(text) == Some(v)
    ensures TryParseInt32(text) == if Int32Min <= v <= Int32Max then Some(v) else None
  {
  }

  /** Every UInt32 value survives printing and UInt32.TryParse. */
  lemma UInt32TextRoundTrip(n: nat)
    requires n <= UInt32Max
    ensures TryParseUInt32(NatText(n)) == Some(n)
  {
    ParseNatText(n);
  }
}
