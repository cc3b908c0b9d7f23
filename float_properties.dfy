/** What `float` makes of well-formed and malformed numeric strings. */
module FloatCoercionProperties {
  import opened Wrappers
  import opened Errors
  import opened FloatCoercion

  /** A string that neither starts nor ends with whitespace is its own stripped form. */
  lemma StripOfTrimmed(s: string)
    requires |s| > 0 && !IsSpace(s[0]) && !IsSpace(s[|s| - 1])
    ensures Strip(s) == s
  {
    assert StripLeading(s) == s;
    assert StripTrailing(s) == s;
  }

  /** FirstIndexOf finds nothing in a string without either character. */
  lemma FirstIndexOfAbsent(s: string, a: char, b: char)
    requires forall i | 0 <= i < |s| :: s[i] != a && s[i] != b
    ensures FirstIndexOf(s, a, b) == |s|
  {
    FirstIndexOfIsFirst(s, a, b);
  }

  /** FirstIndexOf finds the first occurrence. */
  lemma FirstIndexOfAt(s: string, a: char, b: char, k: nat)
    requires k < |s| && (s[k] == a || s[k] == b)
    requires forall i | 0 <= i < k :: s[i] != a && s[i] != b
    ensures FirstIndexOf(s, a, b) == k
  {
    FirstIndexOfIsFirst(s, a, b);
  }

  /** A non-empty run of digits is a mantissa without a fraction. */
  lemma ParseMantissaOfDigits(w: string)
    requires |w| > 0 && AllDigits(w)
    ensures ParseMantissa(w) == Success(DigitsValue(w) as real)
  {
    forall i | 0 <= i < |w| ensures w[i] != '.' {
      assert IsDigit(w[i]);
    }
    FirstIndexOfAbsent(w, '.', '.');
    assert w[..|w|] == w;
    assert Decimal(DigitsValue(w), DigitsValue(""), 0) == DigitsValue(w) as real;
  }

  /** Without an exponent marker, the whole literal is the mantissa. */
  lemma ParseUnsignedWithoutExponent(s: string)
    requires forall i | 0 <= i < |s| :: s[i] != 'e' && s[i] != 'E'
    ensures ParseUnsigned(s) == ParseMantissa(s)
  {
    FirstIndexOfAbsent(s, 'e', 'E');
  }

  /** The canonical spelling of a natural number is an unsigned literal denoting it. */
  lemma ParseUnsignedOfNat(n: nat)
    ensures ParseUnsigned(NatToString(n)) == Success(n as real)
  {
    var s := NatToString(n);
    ParseUnsignedWithoutExponent(s);
    ParseMantissaOfDigits(s);
    DigitsValueOfNatToString(n);
  }

  /** `float` of a string without surrounding whitespace reads it as it is. */
  lemma ParseFloatOfTrimmed(t: string)
    requires |t| > 0 && !IsSpace(t[0]) && !IsSpace(t[|t| - 1])
    ensures ParseFloat(t) == ParseSigned(t)
  {
    StripOfTrimmed(t);
  }

  /** A trimmed literal without a sign is read as an unsigned literal. */
  lemma ParseFloatOfUnsigned(s: string)
    requires |s| > 0 && !IsSpace(s[0]) && !IsSpace(s[|s| - 1]) && s[0] != '+' && s[0] != '-'
    ensures ParseFloat(s) == ParseUnsigned(s)
  {
    ParseFloatOfTrimmed(s);
  }

  /** A sign in front of an unsigned literal: `-` negates it, `+` keeps it. */
  lemma ParseSignedOfSign(sign: char, u: string, x: real)
    requires (sign == '+' || sign == '-') && ParseUnsigned(u) == Success(x)
    ensures ParseSigned([sign] + u) == Success(if sign == '-' then -x else x)
  {
    assert ([sign] + u)[1..] == u;
  }

  /** A sign in front of a well-formed unsigned literal: `-` negates it, `+` keeps it. */
  lemma ParseFloatOfSigned(sign: char, u: string, x: real)
    requires sign == '+' || sign == '-'
    requires |u| > 0 && !IsSpace(u[|u| - 1]) && ParseUnsigned(u) == Success(x)
    ensures ParseFloat([sign] + u) == Success(if sign == '-' then -x else x)
  {
    var t := [sign] + u;
    assert t[|t| - 1] == u[|u| - 1];
    ParseFloatOfTrimmed(t);
    ParseSignedOfSign(sign, u, x);
  }

  /** `float` of the canonical spelling of a natural number is that number. */
  lemma ParseFloatOfNat(n: nat)
    ensures ParseFloat(NatToString(n)) == Success(n as real)
  {
    ParseFloatOfUnsigned(NatToString(n));
    ParseUnsignedOfNat(n);
  }

  /** Digits, a point and digits form a mantissa: the whole part plus the scaled-down fraction. */
  lemma ParseMantissaOfPoint(s: string, k: nat)
    requires k < |s| && s[k] == '.' && AllDigits(s[..k]) && AllDigits(s[k + 1..]) && |s| > 1
    ensures ParseMantissa(s) == Success(Decimal(DigitsValue(s[..k]), DigitsValue(s[k + 1..]), |s| - k - 1))
  {
    forall i | 0 <= i < k ensures s[i] != '.' {
      assert s[i] == s[..k][i];
    }
    FirstIndexOfAt(s, '.', '.', k);
  }

  /** A literal of digits around one point holds no exponent marker. */
  lemma NoExponentMarkerInDecimal(s: string, k: nat)
    requires k < |s| && s[k] == '.' && AllDigits(s[..k]) && AllDigits(s[k + 1..])
    ensures forall i | 0 <= i < |s| :: s[i] != 'e' && s[i] != 'E'
  {
    forall i | 0 <= i < |s| ensures s[i] != 'e' && s[i] != 'E' {
      if i < k {
        assert s[i] == s[..k][i];
      } else if i > k {
        assert s[i] == s[k + 1..][i - k - 1];
      }
    }
  }

  /** Digits, one point and digits, with a digit on each side, form a decimal literal. */
  lemma ParseFloatOfPoint(s: string, k: nat)
    requires 0 < k < |s| - 1 && s[k] == '.' && AllDigits(s[..k]) && AllDigits(s[k + 1..])
    ensures ParseFloat(s) == Success(Decimal(DigitsValue(s[..k]), DigitsValue(s[k + 1..]), |s| - k - 1))
  {
    NoExponentMarkerInDecimal(s, k);
    ParseUnsignedWithoutExponent(s);
    ParseMantissaOfPoint(s, k);
    assert IsDigit(s[..k][0]) && IsDigit(s[k + 1..][|s| - k - 2]);
    ParseFloatOfUnsigned(s);
  }

  /** The same for a literal written as its two digit runs around the point. */
  lemma ParseFloatOfDigitRuns(ws: string, fs: string)
    requires |ws| > 0 && |fs| > 0 && AllDigits(ws) && AllDigits(fs)
    ensures ParseFloat(ws + ['.'] + fs) == Success(Decimal(DigitsValue(ws), DigitsValue(fs), |fs|))
  {
    var s := ws + ['.'] + fs;
    assert s[..|ws|] == ws && s[|ws| + 1..] == fs;
    ParseFloatOfPoint(s, |ws|);
  }

  /** `w.f` is the whole part plus the fraction digits scaled down by their count. */
  lemma ParseFloatOfDecimal(w: nat, f: nat)
    ensures ParseFloat(NatToString(w) + ['.'] + NatToString(f)) == Success(Decimal(w, f, |NatToString(f)|))
  {
    ParseFloatOfDigitRuns(NatToString(w), NatToString(f));
    DigitsValueOfNatToString(w);
    DigitsValueOfNatToString(f);
  }

  /** `n.0` is `n`: the spelling the JSON input uses for whole energy figures. */
  lemma ParseFloatOfPointZero(n: nat)
    ensures ParseFloat(NatToString(n) + ".0") == Success(n as real)
  {
    var zero := NatToString(0);
    assert zero == "0";
    assert NatToString(n) + ".0" == NatToString(n) + ['.'] + zero;
    ParseFloatOfDecimal(n, 0);
    assert ShiftRight(0.0, 1) == 0.0;
    assert Decimal(n, 0, |zero|) == n as real;
  }

  /** An exponent spelled as digits. */
  lemma ParseExponentOfDigits(es: string)
    requires |es| > 0 && AllDigits(es)
    ensures ParseExponent(es) == Success(DigitsValue(es) as int)
  {
  }

  /** An exponent spelled as a minus sign and digits. */
  lemma ParseExponentOfNegatedDigits(e: string)
    requires |e| > 1 && e[0] == '-' && AllDigits(e[1..])
    ensures ParseExponent(e) == Success(-(DigitsValue(e[1..]) as int))
  {
  }

  /** The digits before the first exponent marker form the mantissa, the rest the exponent. */
  lemma ParseUnsignedOfExponent(ms: string, marker: char, es: string)
    requires |ms| > 0 && AllDigits(ms) && (marker == 'e' || marker == 'E')
    requires ParseExponent(es).Success?
    ensures ParseUnsigned(ms + [marker] + es)
         == Success(Scale(DigitsValue(ms) as real, ParseExponent(es).value))
  {
    var s := ms + [marker] + es;
    forall i | 0 <= i < |ms| ensures s[i] != 'e' && s[i] != 'E' {
      assert s[i] == ms[i];
    }
    FirstIndexOfAt(s, 'e', 'E', |ms|);
    assert s[..|ms|] == ms;
    assert s[|ms| + 1..] == es;
    ParseMantissaOfDigits(ms);
  }

  /** A trimmed, unsigned literal `float` reads as `x` when it is an unsigned literal denoting `x`. */
  lemma ParseFloatOfExponentForm(ms: string, marker: char, es: string)
    requires |ms| > 0 && AllDigits(ms) && (marker == 'e' || marker == 'E')
    requires |es| > 0 && IsDigit(es[|es| - 1]) && ParseExponent(es).Success?
    ensures ParseFloat(ms + [marker] + es)
         == Success(Scale(DigitsValue(ms) as real, ParseExponent(es).value))
  {
    var s := ms + [marker] + es;
    ParseUnsignedOfExponent(ms, marker, es);
    assert s[0] == ms[0] && s[|s| - 1] == es[|es| - 1];
    ParseFloatOfUnsigned(s);
  }

  /** `mek` is `m` times ten to the power `k`. */
  lemma ParseFloatOfPositiveExponent(m: nat, k: nat)
    ensures ParseFloat(NatToString(m) + ['e'] + NatToString(k)) == Success(Scale(m as real, k))
  {
    var ks := NatToString(k);
    ParseExponentOfDigits(ks);
    DigitsValueOfNatToString(k);
    DigitsValueOfNatToString(m);
    ParseFloatOfExponentForm(NatToString(m), 'e', ks);
  }

  /** `mE-k` is `m` divided by ten to the power `k`. */
  lemma ParseFloatOfNegativeExponent(m: nat, k: nat)
    ensures ParseFloat(NatToString(m) + ['E'] + (['-'] + NatToString(k))) == Success(Scale(m as real, -(k as int)))
  {
    var ks := NatToString(k);
    var es := ['-'] + ks;
    assert es[1..] == ks;
    assert es[|es| - 1] == ks[|ks| - 1];
    ParseExponentOfNegatedDigits(es);
    DigitsValueOfNatToString(k);
    DigitsValueOfNatToString(m);
    ParseFloatOfExponentForm(NatToString(m), 'E', es);
  }

  lemma {:induction false} StripLeadingAppendSpace(s: string, ch: char)
    requires IsSpace(ch)
    ensures StripLeading(s + [ch]) == if StripLeading(s) == [] then [] else StripLeading(s) + [ch]
  {
    if |s| == 0 {
      assert StripLeading([ch]) == StripLeading([]);
    } else if IsSpace(s[0]) {
      assert (s + [ch])[1..] == s[1..] + [ch];
      StripLeadingAppendSpace(s[1..], ch);
    }
  }

  /** Whitespace in front of the literal does not change what `float` returns. */
  lemma ParseFloatIgnoresLeadingSpace(s: string, ch: char)
    requires IsSpace(ch)
    ensures ParseFloat([ch] + s) == ParseFloat(s)
  {
    assert ([ch] + s)[1..] == s;
    assert Strip([ch] + s) == Strip(s);
  }

  lemma StripAppendSpace(s: string, ch: char)
    requires IsSpace(ch)
    ensures Strip(s + [ch]) == Strip(s)
  {
    StripLeadingAppendSpace(s, ch);
    var u := StripLeading(s);
    if u != [] {
      assert (u + [ch])[..|u|] == u;
    }
  }

  /** Whitespace after the literal does not change what `float` returns. */
  lemma ParseFloatIgnoresTrailingSpace(s: string, ch: char)
    requires IsSpace(ch)
    ensures ParseFloat(s + [ch]) == ParseFloat(s)
  {
    StripAppendSpace(s, ch);
  }

  /** A point after the first one leaves a fraction that is not all digits. */
  lemma ParseMantissaRejectsSecondPoint(m: string, k: nat, j: nat)
    requires k < j < |m| && m[k] == '.' && m[j] == '.'
    requires forall i | 0 <= i < k :: m[i] != '.'
    ensures ParseMantissa(m) == Failure(ValueError)
  {
    FirstIndexOfAt(m, '.', '.', k);
    assert m[k + 1..][j - k - 1] == '.';
  }

  /** A second decimal point is not a literal. */
  lemma ParseFloatRejectsTwoPoints()
    ensures ParseFloat("1.2.3") == Failure(ValueError)
  {
    var s := "1.2.3";
    assert forall i | 0 <= i < |s| :: s[i] != 'e' && s[i] != 'E';
    ParseFloatOfUnsigned(s);
    ParseUnsignedWithoutExponent(s);
    ParseMantissaRejectsSecondPoint(s, 1, 3);
  }

  /** An exponent marker needs digits after it. */
  lemma ParseFloatRejectsEmptyExponent()
    ensures ParseFloat("1e") == Failure(ValueError)
  {
    var s := "1e";
    ParseFloatOfUnsigned(s);
    FirstIndexOfAt(s, 'e', 'E', 1);
    assert s[2..] == "";
  }

  /** A mantissa cannot start with a sign. */
  lemma ParseMantissaRejectsSign(m: string)
    requires |m| > 0 && (m[0] == '+' || m[0] == '-')
    ensures ParseMantissa(m) == Failure(ValueError)
  {
    var k := FirstIndexOf(m, '.', '.');
    assert k > 0;
    assert m[..k][0] == m[0];
  }

  /** Nor can an unsigned literal. */
  lemma ParseUnsignedRejectsSign(u: string)
    requires |u| > 0 && (u[0] == '+' || u[0] == '-')
    ensures ParseUnsigned(u) == Failure(ValueError)
  {
    var k := FirstIndexOf(u, 'e', 'E');
    if k == |u| {
      ParseMantissaRejectsSign(u);
    } else {
      assert k > 0;
      assert u[..k][0] == u[0];
      ParseMantissaRejectsSign(u[..k]);
    }
  }

  /** Stripping trailing whitespace keeps every position up to the last non-space character. */
  lemma {:induction false} StripTrailingKeeps(s: string, j: nat)
    requires j < |s| && !IsSpace(s[j])
    ensures j < |StripTrailing(s)|
  {
    if IsSpace(s[|s| - 1]) {
      StripTrailingKeeps(s[..|s| - 1], j);
    }
  }

  /** Only one sign is allowed: a literal that starts with two signs raises ValueError. */
  lemma ParseFloatRejectsTwoSigns(t: string)
    requires |t| >= 2 && (t[0] == '+' || t[0] == '-') && (t[1] == '+' || t[1] == '-')
    ensures ParseFloat(t) == Failure(ValueError)
  {
    assert StripLeading(t) == t;
    StripTrailingKeeps(t, 1);
    var u := Strip(t);
    assert u == t[..|u|];
    assert u[1..][0] == t[1];
    ParseUnsignedRejectsSign(u[1..]);
  }

  /** Inner whitespace is not stripped. */
  lemma ParseFloatRejectsInnerSpace()
    ensures ParseFloat("1 2") == Failure(ValueError)
  {
    var s := "1 2";
    assert forall i | 0 <= i < |s| :: s[i] != 'e' && s[i] != 'E' && s[i] != '.';
    ParseFloatOfUnsigned(s);
    ParseUnsignedWithoutExponent(s);
    FirstIndexOfAbsent(s, '.', '.');
    assert s[..3] == s;
    assert !IsDigit(s[1]);
  }

  /**
   * Strings with neither a digit nor a letter (empty, blank, `.`, `+.`) raise
   * ValueError. Letters are excluded because Python also converts the spellings
   * of infinity and not-a-number.
   */
  lemma ParseFloatNeedsADigit(s: string)
    requires forall i | 0 <= i < |s| :: !IsDigit(s[i]) && !('a' <= s[i] <= 'z' || 'A' <= s[i] <= 'Z')
    ensures ParseFloat(s) == Failure(ValueError)
  {
    if ParseFloat(s).Success? {
      ParseFloatHasDigit(s);
      assert false;
    }
  }
}
