/**
 * Python 2's `float(x)` as `make_company` applies it to the "Total Energy Use"
 * value of a JSON record: numbers pass through, booleans become 1 or 0, strings
 * are read as decimal literals (surrounding whitespace allowed, an optional sign,
 * an optional fraction and an optional exponent), and null, lists and objects
 * raise TypeError. Values are exact reals, so there is no rounding to a double.
 */
module FloatCoercion {
  import opened Wrappers
  import opened Errors
  import Json

  predicate IsDigit(ch: char) {
    '0' <= ch <= '9'
  }

  predicate AllDigits(s: string) {
    forall i | 0 <= i < |s| :: IsDigit(s[i])
  }

  predicate HasDigit(s: string) {
    exists i | 0 <= i < |s| :: IsDigit(s[i])
  }

  /** The ASCII whitespace that `float` strips: space, tab, newline, vertical tab, form feed, carriage return. */
  predicate IsSpace(ch: char) {
    ch == ' ' || '\t' <= ch <= '\r'
  }

  function Pow10(k: nat): (r: nat)
    ensures r >= 1
  {
    if k == 0 then 1 else 10 * Pow10(k - 1)
  }

  /** The number a string of decimal digits denotes; it has no more digits than its string. */
  function DigitsValue(s: string): (n: nat)
    requires AllDigits(s)
    ensures n < Pow10(|s|)
  {
    if s == [] then 0
    else 10 * DigitsValue(s[..|s| - 1]) + (s[|s| - 1] as int - '0' as int)
  }

  function DigitChar(d: nat): (ch: char)
    requires d < 10
    ensures IsDigit(ch) && ch as int - '0' as int == d
  {
    ('0' as int + d) as char
  }

  /** Canonical decimal spelling of a natural number: no leading zero except for 0 itself. */
  function NatToString(n: nat): (s: string)
    ensures |s| >= 1 && AllDigits(s)
    ensures s[0] == '0' <==> n == 0
  {
    if n < 10 then [DigitChar(n)] else NatToString(n / 10) + [DigitChar(n % 10)]
  }

  /** Reading back the canonical spelling of `n` gives `n`. */
  lemma {:induction false} DigitsValueOfNatToString(n: nat)
    ensures DigitsValue(NatToString(n)) == n
  {
    if n >= 10 {
      var s := NatToString(n);
      assert s[..|s| - 1] == NatToString(n / 10);
      DigitsValueOfNatToString(n / 10);
    }
  }

  function StripLeading(s: string): (t: string)
    ensures |t| <= |s| && t == s[|s| - |t|..]
    ensures |t| > 0 ==> !IsSpace(t[0])
  {
    if |s| > 0 && IsSpace(s[0]) then StripLeading(s[1..]) else s
  }

  function StripTrailing(s: string): (t: string)
    ensures |t| <= |s| && t == s[..|t|]
    ensures |t| > 0 ==> !IsSpace(t[|t| - 1])
  {
    if |s| > 0 && IsSpace(s[|s| - 1]) then StripTrailing(s[..|s| - 1]) else s
  }

  /** `s` without its leading and trailing whitespace: it neither starts nor ends with a space. */
  function Strip(s: string): (t: string)
    ensures |t| > 0 ==> !IsSpace(t[0]) && !IsSpace(t[|t| - 1])
  {
    StripTrailing(StripLeading(s))
  }

  /** The stripped string is the slice of `s` that starts after its leading whitespace. */
  lemma StripIsSlice(s: string)
    ensures |Strip(s)| <= |StripLeading(s)|
    ensures Strip(s) == s[|s| - |StripLeading(s)|..|s| - |StripLeading(s)| + |Strip(s)|]
  {
  }

  /** A digit in a slice is a digit of the whole string. */
  lemma HasDigitOfSlice(s: string, lo: nat, hi: nat)
    requires lo <= hi <= |s| && HasDigit(s[lo..hi])
    ensures HasDigit(s)
  {
    var i :| 0 <= i < hi - lo && IsDigit(s[lo..hi][i]);
    assert IsDigit(s[lo + i]);
  }

  lemma HasDigitOfStrip(s: string)
    requires HasDigit(Strip(s))
    ensures HasDigit(s)
  {
    StripIsSlice(s);
    var a := |s| - |StripLeading(s)|;
    var t := Strip(s);
    var i :| 0 <= i < |t| && IsDigit(t[i]);
    assert t[i] == s[a + i];
  }

  /** The first position holding `a` or `b`, or `|s|` when there is none. */
  function FirstIndexOf(s: string, a: char, b: char): (k: nat)
    ensures k <= |s|
  {
    if s == [] || s[0] == a || s[0] == b then 0 else 1 + FirstIndexOf(s[1..], a, b)
  }

  /** FirstIndexOf stops at an `a` or a `b`, and there is none before it. */
  lemma {:induction false} FirstIndexOfIsFirst(s: string, a: char, b: char)
    ensures FirstIndexOf(s, a, b) < |s| ==> s[FirstIndexOf(s, a, b)] == a || s[FirstIndexOf(s, a, b)] == b
    ensures forall i | 0 <= i < FirstIndexOf(s, a, b) :: s[i] != a && s[i] != b
  {
    if s != [] && s[0] != a && s[0] != b {
      var k := FirstIndexOf(s, a, b);
      FirstIndexOfIsFirst(s[1..], a, b);
      assert k == 1 + FirstIndexOf(s[1..], a, b);
      forall i | 0 < i < k ensures s[i] != a && s[i] != b {
        assert s[i] == s[1..][i - 1];
      }
    }
  }

  /** `x` times ten to the power `k`. */
  function ShiftLeft(x: real, k: nat): (r: real)
    ensures x >= 0.0 ==> r >= 0.0
  {
    if k == 0 then x else 10.0 * ShiftLeft(x, k - 1)
  }

  /** `x` divided by ten to the power `k`. */
  function ShiftRight(x: real, k: nat): (r: real)
    ensures x >= 0.0 ==> r >= 0.0
  {
    if k == 0 then x else ShiftRight(x, k - 1) / 10.0
  }

  /** `whole.frac` where `frac` is written with `count` digits. */
  function Decimal(whole: nat, frac: nat, count: nat): (r: real)
    ensures r >= whole as real
  {
    whole as real + ShiftRight(frac as real, count)
  }

  /** Digits with at most one decimal point and at least one digit: `12`, `12.`, `.5`, `12.5`. */
  function ParseMantissa(m: string): (r: Result<real, Exception>)
    ensures r.Success? ==> r.value >= 0.0
    ensures r.Failure? ==> r.error == ValueError
  {
    var k := FirstIndexOf(m, '.', '.');
    var whole := m[..k];
    var frac := if k < |m| then m[k + 1..] else "";
    if AllDigits(whole) && AllDigits(frac) && |whole| + |frac| > 0 then
      Success(Decimal(DigitsValue(whole), DigitsValue(frac), |frac|))
    else
      Failure(ValueError)
  }

  lemma ParseMantissaHasDigit(m: string)
    requires ParseMantissa(m).Success?
    ensures HasDigit(m)
  {
    var k := FirstIndexOf(m, '.', '.');
    if k > 0 {
      assert IsDigit(m[..k][0]);
    } else {
      assert IsDigit(m[k + 1..][0]);
    }
  }

  /** An optional sign followed by at least one digit; only a leading `-` makes it negative. */
  function ParseExponent(e: string): (r: Result<int, Exception>)
    ensures r.Failure? ==> r.error == ValueError
    ensures r.Success? ==> |e| > 0
    ensures r.Success? && r.value < 0 ==> e[0] == '-'
    ensures r.Success? && e[0] == '-' ==> r.value <= 0
  {
    var signed := |e| > 0 && (e[0] == '+' || e[0] == '-');
    var digits := if signed then e[1..] else e;
    if |digits| > 0 && AllDigits(digits) then
      var v: int := DigitsValue(digits);
      Success(if signed && e[0] == '-' then -v else v)
    else
      Failure(ValueError)
  }

  lemma ParseExponentHasDigit(e: string)
    requires ParseExponent(e).Success?
    ensures HasDigit(e)
  {
    if |e| > 0 && (e[0] == '+' || e[0] == '-') {
      assert IsDigit(e[1..][0]);
    } else {
      assert IsDigit(e[0]);
    }
  }

  /** `x` times ten to the power `e`, for an integer `e` of either sign. */
  function Scale(x: real, e: int): (r: real)
    ensures x >= 0.0 ==> r >= 0.0
  {
    if e >= 0 then ShiftLeft(x, e) else ShiftRight(x, -e)
  }

  /** A mantissa optionally followed by `e` or `E` and an exponent. */
  function ParseUnsigned(body: string): (r: Result<real, Exception>)
    ensures r.Success? ==> r.value >= 0.0
    ensures r.Failure? ==> r.error == ValueError
  {
    var k := FirstIndexOf(body, 'e', 'E');
    if k == |body| then
      ParseMantissa(body)
    else
      var m :- ParseMantissa(body[..k]);
      var e :- ParseExponent(body[k + 1..]);
      Success(Scale(m, e))
  }

  lemma ParseUnsignedHasDigit(body: string)
    requires ParseUnsigned(body).Success?
    ensures HasDigit(body)
  {
    var k := FirstIndexOf(body, 'e', 'E');
    if k == |body| {
      ParseMantissaHasDigit(body);
    } else {
      ParseMantissaHasDigit(body[..k]);
      HasDigitOfSlice(body, 0, k);
    }
  }

  /**
   * A literal with surrounding whitespace already removed: an optional sign and an
   * unsigned literal. Only a leading `-` gives a negative value.
   */
  function ParseSigned(t: string): (r: Result<real, Exception>)
    ensures r.Failure? ==> r.error == ValueError
    ensures r.Success? && r.value < 0.0 ==> |t| > 0 && t[0] == '-'
    ensures r.Success? && |t| > 0 && t[0] == '-' ==> r.value <= 0.0
  {
    if |t| > 0 && (t[0] == '+' || t[0] == '-') then
      var x :- ParseUnsigned(t[1..]);
      Success(if t[0] == '-' then -x else x)
    else
      ParseUnsigned(t)
  }

  lemma ParseSignedHasDigit(t: string)
    requires ParseSigned(t).Success?
    ensures HasDigit(t)
  {
    if |t| > 0 && (t[0] == '+' || t[0] == '-') {
      ParseUnsignedHasDigit(t[1..]);
      assert t[1..|t|] == t[1..];
      HasDigitOfSlice(t, 1, |t|);
    } else {
      ParseUnsignedHasDigit(t);
    }
  }

  /** `float(s)` for a string: the value of the decimal literal left after stripping whitespace, or ValueError. */
  function ParseFloat(s: string): (r: Result<real, Exception>)
    ensures r.Failure? ==> r.error == ValueError
  {
    ParseSigned(Strip(s))
  }

  /** A string without a digit never converts. */
  lemma ParseFloatHasDigit(s: string)
    requires ParseFloat(s).Success?
    ensures HasDigit(s)
  {
    ParseSignedHasDigit(Strip(s));
    HasDigitOfStrip(s);
  }

  /**
   * `float(v)` for a JSON value: numbers are kept, booleans become 1.0 or 0.0,
   * strings are parsed, and null, arrays and objects raise TypeError.
   */
  function ToFloat(v: Json.Value): (r: Result<real, Exception>)
    ensures r == Failure(TypeError) <==> v.Null? || v.Array? || v.Object?
    ensures r.Failure? ==> r.error == TypeError || r.error == ValueError
    ensures v.Number? ==> r == Success(v.n)
  {
    match v
    case Number(n) => Success(n)
    case Bool(b) => Success(if b then 1.0 else 0.0)
    case String(s) => ParseFloat(s)
    case _ => Failure(TypeError)
  }
}
