/**
 * The parts of Python's `int(str)`, `float(str)` and `str.lower()` that the
 * XMP extractor relies on. Numerals are restricted to an optional sign, ASCII
 * digits and (for floats) one optional decimal point; floats are exact reals.
 */
module PyNumbers {
  import opened Wrappers

  predicate IsDigit(c: char) {
    '0' <= c <= '9'
  }

  predicate AllDigits(s: string) {
    forall i :: 0 <= i < |s| ==> IsDigit(s[i])
  }

  function DigitValue(c: char): nat
    requires IsDigit(c)
  {
    c as int - '0' as int
  }

  function DigitChar(d: nat): (c: char)
    requires d < 10
    ensures IsDigit(c) && DigitValue(c) == d
  {
    ('0' as int + d) as char
  }

  function Pow10(n: nat): (p: nat)
    ensures p >= 1
  {
    if n == 0 then 1 else 10 * Pow10(n - 1)
  }

  /** The value of a run of decimal digits, most significant digit first. */
  function DigitsValue(s: string): nat
    requires AllDigits(s)
  {
    if s == [] then 0 else 10 * DigitsValue(s[..|s| - 1]) + DigitValue(s[|s| - 1])
  }

  lemma {:induction false} DigitsValueBound(s: string)
    requires AllDigits(s)
    ensures DigitsValue(s) < Pow10(|s|)
  {
    if s != [] {
      DigitsValueBound(s[..|s| - 1]);
    }
  }

  /** The decimal numeral of `n` without leading zeros, as `str(n)` writes it. */
  function FormatNat(n: nat): (s: string)
    ensures 0 < |s| && AllDigits(s)
    ensures DigitsValue(s) == n
  {
    if n < 10 then [DigitChar(n)]
    else
      var prefix := FormatNat(n / 10);
      var s := prefix + [DigitChar(n % 10)];
      assert s[..|s| - 1] == prefix;
      s
  }

  /** `n` written with exactly `width` digits, zero-padded on the left. */
  function PadNat(n: nat, width: nat): (s: string)
    requires n < Pow10(width)
    ensures |s| == width && AllDigits(s)
    ensures DigitsValue(s) == n
  {
    if width == 0 then ""
    else
      var prefix := PadNat(n / 10, width - 1);
      var s := prefix + [DigitChar(n % 10)];
      assert s[..|s| - 1] == prefix;
      s
  }

  /** `str(n)` for any integer. */
  function FormatInt(n: int): (s: string)
    ensures 0 < |s|
  {
    if n < 0 then "-" + FormatNat(-n) else FormatNat(n)
  }

  /** `int(s)`: an optional sign followed by at least one digit; anything else raises (None). */
  function ParseInt(s: string): (r: Option<int>)
    ensures r.Some? <==> (0 < |s| && AllDigits(s)) || (1 < |s| && s[0] in "+-" && AllDigits(s[1..]))
    ensures 0 < |s| && AllDigits(s) ==> r == Some(DigitsValue(s))
    ensures 1 < |s| && s[0] == '+' && AllDigits(s[1..]) ==> r == Some(DigitsValue(s[1..]))
    ensures 1 < |s| && s[0] == '-' && AllDigits(s[1..]) ==> r == Some(-(DigitsValue(s[1..]) as int))
  {
    if 0 < |s| && (s[0] == '+' || s[0] == '-') then
      var digits := s[1..];
      if 0 < |digits| && AllDigits(digits) then
        Some(if s[0] == '-' then -(DigitsValue(digits) as int) else DigitsValue(digits))
      else None
    else if 0 < |s| && AllDigits(s) then Some(DigitsValue(s))
    else None
  }

  lemma ParseIntFormatInt(n: int)
    ensures ParseInt(FormatInt(n)) == Some(n)
  {
    if n < 0 {
      var s := FormatInt(n);
      assert s[0] == '-' && s[1..] == FormatNat(-n);
    } else {
      var s := FormatNat(n);
      assert IsDigit(s[0]);
    }
  }

  /** The index of the first occurrence of `c` in `s`, if any. */
  function IndexOf(s: string, c: char): (r: Option<nat>)
    ensures r.None? <==> c !in s
    ensures r.Some? ==> r.value < |s| && s[r.value] == c && c !in s[..r.value]
  {
    if s == [] then None
    else if s[0] == c then Some(0)
    else
      var rest := IndexOf(s[1..], c);
      if rest.None? then None
      else
        assert s[..rest.value + 1] == [s[0]] + s[1..][..rest.value];
        Some(rest.value + 1)
  }

  /** The value of the digits after a decimal point: "25" is 0.25. */
  function FractionValue(frac: string): real
    requires AllDigits(frac)
  {
    if frac == [] then 0.0 else (DigitValue(frac[0]) as real + FractionValue(frac[1..])) / 10.0
  }

  /** The unsigned value `whole.frac` of a decimal numeral split at its point. */
  function DecimalValue(whole: string, frac: string): real
    requires AllDigits(whole) && AllDigits(frac)
  {
    DigitsValue(whole) as real + FractionValue(frac)
  }

  /** The text starts with a sign. */
  predicate IsSigned(s: string) {
    0 < |s| && (s[0] == '+' || s[0] == '-')
  }

  /** The text after an optional leading sign. */
  function Unsigned(s: string): (b: string)
    ensures IsSigned(s) ==> b == s[1..]
    ensures !IsSigned(s) ==> b == s
  {
    if IsSigned(s) then s[1..] else s
  }

  /**
   * The numerals `float` accepts in this model: an optional sign, then digits
   * with at most one decimal point among them, and at least one digit.
   */
  predicate IsFloatNumeral(s: string) {
    IsUnsignedNumeral(Unsigned(s))
  }

  /** Digits with at most one decimal point among them, and at least one digit. */
  predicate IsUnsignedNumeral(b: string) {
    && (forall i :: 0 <= i < |b| ==> IsDigit(b[i]) || b[i] == '.')
    && (forall i, j :: 0 <= i < j < |b| && b[i] == '.' ==> b[j] != '.')
    && (exists i :: 0 <= i < |b| && IsDigit(b[i]))
  }

  /**
   * `float(s)`: an optional sign, then digits with at most one decimal point
   * and at least one digit overall ("3.14", "-1", ".5", "7."); anything else
   * raises (None).
   */
  function ParseFloat(s: string): (r: Option<real>)
    ensures s == "" ==> r.None?
    ensures r.Some? ==> forall i :: 0 <= i < |s| ==> IsDigit(s[i]) || s[i] in "+-."
    ensures 0 < |s| && AllDigits(s) ==> r == Some(DigitsValue(s) as real)
  {
    var body := Unsigned(s);
    var dot := IndexOf(body, '.');
    var whole := if dot.Some? then body[..dot.value] else body;
    var frac := if dot.Some? then body[dot.value + 1..] else "";
    if 0 < |whole| + |frac| && AllDigits(whole) && AllDigits(frac) then
      var magnitude := DecimalValue(whole, frac);
      Some(if 0 < |s| && s[0] == '-' then -magnitude else magnitude)
    else None
  }

  /** `float` accepts exactly the numerals of `IsFloatNumeral`. */
  lemma ParseFloatAccepts(s: string)
    ensures ParseFloat(s).Some? <==> IsFloatNumeral(s)
  {
    var b := Unsigned(s);
    match IndexOf(b, '.')
    case None =>
      UnsignedNumeralWithoutPoint(b);
    case Some(d) =>
      UnsignedNumeralWithPoint(b, d);
  }

  lemma UnsignedNumeralWithoutPoint(b: string)
    requires '.' !in b
    ensures IsUnsignedNumeral(b) <==> 0 < |b| && AllDigits(b)
  {
    if 0 < |b| && AllDigits(b) {
      assert IsDigit(b[0]);
    }
  }

  lemma UnsignedNumeralWithPoint(b: string, d: nat)
    requires d < |b| && b[d] == '.' && '.' !in b[..d]
    ensures IsUnsignedNumeral(b)
        <==> 0 < |b[..d]| + |b[d + 1..]| && AllDigits(b[..d]) && AllDigits(b[d + 1..])
  {
    var whole, frac := b[..d], b[d + 1..];
    assert forall i :: 0 <= i < d ==> b[i] == whole[i];
    assert forall i :: d < i < |b| ==> b[i] == frac[i - d - 1];
    if IsUnsignedNumeral(b) {
      assert forall i :: 0 <= i < |frac| ==> frac[i] == b[d + 1 + i] && b[d + 1 + i] != '.';
      var k :| 0 <= k < |b| && IsDigit(b[k]);
      assert k < d || k > d;
    }
    if 0 < |whole| + |frac| && AllDigits(whole) && AllDigits(frac) {
      assert forall i :: 0 <= i < |b| && i != d ==> IsDigit(b[i]);
      if 0 < |whole| { assert IsDigit(b[0]); } else { assert IsDigit(b[d + 1]); }
    }
  }

  /** A signed decimal "±w.f" reads as its value, the sign applied. */
  lemma ParseFloatDecimal(sign: string, whole: string, frac: string)
    requires sign == "" || sign == "+" || sign == "-"
    requires AllDigits(whole) && AllDigits(frac) && 0 < |whole| + |frac|
    ensures ParseFloat(sign + whole + "." + frac)
         == Some(if sign == "-" then -DecimalValue(whole, frac) else DecimalValue(whole, frac))
  {
    var b := whole + "." + frac;
    assert sign + whole + "." + frac == sign + b;
    assert b[0] == '.' || IsDigit(b[0]);
    SignSlices(sign, b);
    ParseFloatPointed(sign + b, whole, frac);
  }

  /** `float` on a text whose unsigned part is "w.f". */
  lemma ParseFloatPointed(s: string, whole: string, frac: string)
    requires AllDigits(whole) && AllDigits(frac) && 0 < |whole| + |frac|
    requires Unsigned(s) == whole + "." + frac
    ensures ParseFloat(s)
         == Some(if 0 < |s| && s[0] == '-' then -DecimalValue(whole, frac) else DecimalValue(whole, frac))
  {
    var b := whole + "." + frac;
    assert b[|whole|] == '.' && b[..|whole|] == whole && b[|whole| + 1..] == frac;
    assert forall i :: 0 <= i < |whole| ==> whole[i] != '.';
    assert IndexOf(b, '.') == Some(|whole|);
  }

  /** A sign written before a text that does not itself start with one. */
  lemma SignSlices(sign: string, rest: string)
    requires sign == "" || sign == "+" || sign == "-"
    requires 0 < |rest| && rest[0] != '+' && rest[0] != '-'
    ensures Unsigned(sign + rest) == rest
    ensures (sign + rest)[0] == '-' <==> sign == "-"
  {
    if sign != "" {
      assert (sign + rest)[1..] == rest;
    }
  }

  /** A signed digit run "±w" without a point reads as its value, the sign applied. */
  lemma ParseFloatWhole(sign: string, whole: string)
    requires sign == "" || sign == "+" || sign == "-"
    requires AllDigits(whole) && 0 < |whole|
    ensures ParseFloat(sign + whole)
         == Some(if sign == "-" then -(DigitsValue(whole) as real) else DigitsValue(whole) as real)
  {
    assert IsDigit(whole[0]);
    SignSlices(sign, whole);
    ParseFloatNoPoint(sign + whole, whole);
  }

  lemma ParseFloatNoPoint(s: string, whole: string)
    requires AllDigits(whole) && 0 < |whole|
    requires Unsigned(s) == whole
    ensures ParseFloat(s)
         == Some(if 0 < |s| && s[0] == '-' then -(DigitsValue(whole) as real) else DigitsValue(whole) as real)
  {
    assert forall i :: 0 <= i < |whole| ==> whole[i] != '.';
    DecimalValueNoFraction(whole);
  }

  lemma DecimalValueNoFraction(whole: string)
    requires AllDigits(whole)
    ensures DecimalValue(whole, "") == DigitsValue(whole) as real
  {
  }

  /** `float("3.14") == 3.14`. */
  lemma ParseFloatPi()
    ensures ParseFloat("3.14") == Some(3.14)
  {
    PiValue();
    ParseFloatDecimal("", "3", "14");
  }

  lemma PiValue()
    ensures "" + "3" + "." + "14" == "3.14"
    ensures AllDigits("3") && AllDigits("14") && DecimalValue("3", "14") == 3.14
  {
    assert "14"[1..] == "4";
    assert "3"[..0] == "";
  }

  /** Every `str(int)` numeral is also read back by `float` as the same number. */
  lemma ParseFloatFormatInt(n: int)
    ensures ParseFloat(FormatInt(n)) == Some(n as real)
  {
    var s := FormatInt(n);
    var digits := FormatNat(if n < 0 then -n else n);
    assert forall i :: 0 <= i < |digits| ==> digits[i] != '.';
    if n < 0 {
      assert s[0] == '-' && s[1..] == digits;
    } else {
      assert IsDigit(s[0]);
    }
  }

  /** Lower-cases the ASCII letters of `s`, as `str.lower()` does for them. */
  function Lower(s: string): (r: string)
    ensures |r| == |s|
    ensures forall i :: 0 <= i < |s| ==> r[i] == LowerChar(s[i])
  {
    if s == [] then [] else [LowerChar(s[0])] + Lower(s[1..])
  }

  function LowerChar(c: char): char {
    if 'A' <= c <= 'Z' then (c as int - 'A' as int + 'a' as int) as char else c
  }

  /** Upper-cases the ASCII letters of `s`. */
  function Upper(s: string): (r: string)
    ensures |r| == |s|
    ensures forall i :: 0 <= i < |s| ==> r[i] == UpperChar(s[i])
  {
    if s == [] then [] else [UpperChar(s[0])] + Upper(s[1..])
  }

  function UpperChar(c: char): char {
    if 'a' <= c <= 'z' then (c as int - 'a' as int + 'A' as int) as char else c
  }

  /** `s.lower() == "true"`: the text spells "true" in any mix of cases. */
  predicate IsTrueText(s: string) {
    Lower(s) == "true"
  }

  /** Whether a text reads as true does not depend on the case it is written in. */
  lemma IsTrueTextIgnoresCase(s: string)
    ensures IsTrueText(Upper(s)) == IsTrueText(s)
    ensures IsTrueText(Lower(s)) == IsTrueText(s)
  {
    assert forall i :: 0 <= i < |s| ==> LowerChar(UpperChar(s[i])) == LowerChar(s[i]);
    assert Lower(Upper(s)) == Lower(s);
    assert forall i :: 0 <= i < |s| ==> LowerChar(LowerChar(s[i])) == LowerChar(s[i]);
    assert Lower(Lower(s)) == Lower(s);
  }
}
