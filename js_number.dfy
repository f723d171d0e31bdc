/**
 * The part of JavaScript's number parsing that review-id validation relies
 * on: `parseFloat` (ECMA-262, section 19.2.4) and `Number.isInteger`
 * (ECMA-262, section 21.1.2.3). `parseFloat` skips leading white space and
 * reads the longest prefix that is a StrDecimalLiteral (sign, `Infinity`,
 * digits, an optional fraction, an optional exponent); without such a
 * prefix it gives NaN. The parsed decimal is kept exactly, and integrality
 * is decided on that exact value.
 */
module JsNumber {

  predicate IsDigit(c: char)
  {
    '0' <= c <= '9'
  }

  /** StrWhiteSpaceChar: the WhiteSpace and LineTerminator code points. */
  predicate IsStrWhiteSpaceChar(c: char)
  {
    // WhiteSpace: TAB, VT, FF, ZWNBSP and the space separators (category Zs)
    || c == '\t' || c == '\U{B}' || c == '\U{C}' || c == '\U{FEFF}'
    || c == ' ' || c == '\U{A0}' || c == '\U{1680}' || ('\U{2000}' <= c <= '\U{200A}')
    || c == '\U{202F}' || c == '\U{205F}' || c == '\U{3000}'
    // LineTerminator: LF, CR, LS, PS
    || c == '\n' || c == '\r' || c == '\U{2028}' || c == '\U{2029}'
  }

  predicate AllDigits(d: string)
  {
    forall i :: 0 <= i < |d| ==> IsDigit(d[i])
  }

  predicate AllWhiteSpace(w: string)
  {
    forall i :: 0 <= i < |w| ==> IsStrWhiteSpaceChar(w[i])
  }

  predicate AllZeros(d: string)
  {
    forall i :: 0 <= i < |d| ==> d[i] == '0'
  }

  type Digits = d: string | AllDigits(d)

  /** Length of the longest prefix of `s` made of decimal digits. */
  function LeadingDigits(s: string): (n: nat)
    ensures n <= |s|
    ensures AllDigits(s[..n])
    ensures n < |s| ==> !IsDigit(s[n])
  {
    if |s| > 0 && IsDigit(s[0]) then
      var n := 1 + LeadingDigits(s[1..]);
      assert forall i :: 1 <= i < n ==> s[..n][i] == s[1..][..n - 1][i - 1];
      n
    else 0
  }

  /** Length of the longest prefix of `s` made of white space. */
  function LeadingWhiteSpace(s: string): (n: nat)
    ensures n <= |s|
    ensures n < |s| ==> !IsStrWhiteSpaceChar(s[n])
  {
    if |s| > 0 && IsStrWhiteSpaceChar(s[0]) then 1 + LeadingWhiteSpace(s[1..]) else 0
  }

  function DigitValue(c: char): nat
    requires IsDigit(c)
  {
    (c as int) - ('0' as int)
  }

  /** The natural number a string of decimal digits denotes (0 for the empty string). */
  function DigitsValue(d: Digits): nat
    decreases |d|
  {
    if |d| == 0 then 0 else DigitsValue(d[..|d| - 1]) * 10 + DigitValue(d[|d| - 1])
  }

  function Pow10(k: nat): (p: nat)
    ensures p >= 1
  {
    if k == 0 then 1 else 10 * Pow10(k - 1)
  }

  /**
   * The result of `parseFloat`. A `Decimal` stands for the exact value
   * (-1)^negative * intDigits.fracDigits * 10^exponent.
   */
  datatype Number =
    | NaN
    | Infinity(negative: bool)
    | Decimal(negative: bool, intDigits: Digits, fracDigits: Digits, exponent: int)

  /** ExponentPart at the start of `rest`, or 0 when there is none (an `e` with no digits is not one). */
  function ExponentOf(rest: string): int
  {
    if |rest| > 0 && (rest[0] == 'e' || rest[0] == 'E') then SignedExponent(rest[1..]) else 0
  }

  /** An optionally signed run of digits, 0 when there are no digits. */
  function SignedExponent(v: string): int
  {
    if |v| > 0 && v[0] == '-' then 0 - LeadingValue(v[1..])
    else if |v| > 0 && v[0] == '+' then LeadingValue(v[1..])
    else LeadingValue(v)
  }

  /** The value of the leading digits of `w`. */
  function LeadingValue(w: string): nat
  {
    DigitsValue(w[..LeadingDigits(w)])
  }

  predicate StartsWithInfinity(u: string)
  {
    |u| >= 8 && u[..8] == "Infinity"
  }

  /** StrUnsignedDecimalLiteral at the start of `u`, its longest form. */
  function ParseUnsigned(u: string, negative: bool): Number
  {
    if StartsWithInfinity(u) then Infinity(negative) else ParseDecimal(u, negative)
  }

  /** Digits, an optional `.` with more digits, an optional exponent: at least one digit in all. */
  function ParseDecimal(u: string, negative: bool): (r: Number)
    ensures r.Decimal? ==> r.negative == negative && |r.intDigits| + |r.fracDigits| > 0
  {
    var i := LeadingDigits(u);
    if i < |u| && u[i] == '.' then
      var v := u[i + 1..];
      var f := LeadingDigits(v);
      if i + f == 0 then NaN else Decimal(negative, u[..i], v[..f], ExponentOf(v[f..]))
    else if i == 0 then NaN
    else Decimal(negative, u[..i], "", ExponentOf(u[i..]))
  }

  /** `parseFloat(s)` for a string argument. */
  function ParseFloat(s: string): (r: Number)
    ensures r.Decimal? ==> |r.intDigits| + |r.fracDigits| > 0
  {
    var t := s[LeadingWhiteSpace(s)..];
    if |t| > 0 && (t[0] == '+' || t[0] == '-') then ParseUnsigned(t[1..], t[0] == '-')
    else ParseUnsigned(t, false)
  }

  /** `Number.isInteger(v)`: false for NaN and the infinities, else whether the value is whole. */
  predicate IsInteger(v: Number): (b: bool)
    ensures b ==> v.Decimal?
  {
    match v
    case NaN => false
    case Infinity(_) => false
    case Decimal(_, intDigits, fracDigits, exponent) =>
      || exponent >= |fracDigits|
      || DigitsValue(intDigits + fracDigits) % Pow10(|fracDigits| - exponent) == 0
  }

  // ---------------------------------------------------------------------
  // Arithmetic on digit strings

  lemma {:induction false} DigitsValueBound(d: Digits)
    ensures DigitsValue(d) < Pow10(|d|)
    decreases |d|
  {
    if |d| > 0 {
      DigitsValueBound(d[..|d| - 1]);
    }
  }

  lemma Distribute(x: nat, p: nat, y: nat, c: nat)
    ensures (x * p + y) * 10 + c == x * (10 * p) + (y * 10 + c)
  {
  }

  lemma {:induction false} DigitsValueAppend(a: Digits, b: Digits)
    ensures AllDigits(a + b)
    ensures DigitsValue(a + b) == DigitsValue(a) * Pow10(|b|) + DigitsValue(b)
    decreases |b|
  {
    if |b| == 0 {
      assert a + b == a;
    } else {
      var b', c := b[..|b| - 1], b[|b| - 1];
      assert (a + b)[..|a + b| - 1] == a + b';
      assert (a + b)[|a + b| - 1] == c;
      DigitsValueAppend(a, b');
      var x, y, p := DigitsValue(a), DigitsValue(b'), Pow10(|b'|);
      assert DigitsValue(a + b) == (x * p + y) * 10 + DigitValue(c);
      assert DigitsValue(b) == y * 10 + DigitValue(c);
      Distribute(x, p, y, DigitValue(c));
    }
  }

  lemma {:induction false} DigitsValueZero(d: Digits)
    ensures DigitsValue(d) == 0 <==> AllZeros(d)
    decreases |d|
  {
    if |d| > 0 {
      var d' := d[..|d| - 1];
      DigitsValueZero(d');
      if AllZeros(d) {
        assert AllZeros(d');
      } else if AllZeros(d') {
        assert d[|d| - 1] != '0';
      }
    }
  }

  lemma MulMonotonic(x: nat, y: nat, p: nat)
    requires x <= y
    ensures x * p <= y * p
  {
  }

  lemma ModOfMultiplePlus(a: nat, p: nat, b: nat)
    requires p > 0 && b < p
    ensures (a * p + b) % p == b
  {
    var n := a * p + b;
    var q, r := n / p, n % p;
    assert n == q * p + r;
    var k := q - a;
    assert k * p == b - r;
    if k > 0 {
      MulMonotonic(1, k, p);
      assert false;
    } else if k < 0 {
      assert false;
    }
  }

  /** With no exponent, the value is whole exactly when every fractional digit is `0`. */
  lemma FractionDecidesInteger(negative: bool, d: Digits, f: Digits)
    ensures IsInteger(Decimal(negative, d, f, 0)) <==> AllZeros(f)
  {
    DigitsValueAppend(d, f);
    DigitsValueBound(f);
    ModOfMultiplePlus(DigitsValue(d), Pow10(|f|), DigitsValue(f));
    DigitsValueZero(f);
  }

  lemma {:induction false} Pow10Add(a: nat, b: nat)
    ensures Pow10(a + b) == Pow10(a) * Pow10(b)
    decreases a
  {
    if a > 0 {
      Pow10Add(a - 1, b);
    }
  }

  lemma MulRegroup(x: nat, p: nat, q: nat)
    ensures x * (p * q) == (x * q) * p + 0
  {
  }

  /** A fraction of zeros and a non-negative exponent give a whole value. */
  lemma ZeroFractionInteger(negative: bool, d: Digits, zeros: Digits, exponent: int)
    requires AllZeros(zeros) && exponent >= 0
    ensures IsInteger(Decimal(negative, d, zeros, exponent))
  {
    if exponent < |zeros| {
      var k := |zeros| - exponent;
      var x, p, q := DigitsValue(d), Pow10(k), Pow10(exponent);
      DigitsValueAppend(d, zeros);
      DigitsValueZero(zeros);
      assert DigitsValue(d + zeros) == x * Pow10(|zeros|);
      Pow10Add(k, exponent);
      assert Pow10(|zeros|) == p * q;
      MulRegroup(x, p, q);
      ModOfMultiplePlus(x * q, p, 0);
      assert DigitsValue(d + zeros) % p == 0;
    }
  }

  // ---------------------------------------------------------------------
  // parseFloat reads a prefix

  lemma {:induction false} LeadingWhiteSpaceAppend(w: string, s: string)
    requires AllWhiteSpace(w)
    ensures LeadingWhiteSpace(w + s) == |w| + LeadingWhiteSpace(s)
    decreases |w|
  {
    if |w| == 0 {
      assert w + s == s;
    } else {
      assert (w + s)[0] == w[0];
      assert (w + s)[1..] == w[1..] + s;
      LeadingWhiteSpaceAppend(w[1..], s);
    }
  }

  /** Leading white space never changes what `parseFloat` reads. */
  lemma WhiteSpaceIgnored(w: string, s: string)
    requires AllWhiteSpace(w)
    ensures ParseFloat(w + s) == ParseFloat(s)
  {
    LeadingWhiteSpaceAppend(w, s);
    assert (w + s)[LeadingWhiteSpace(w + s)..] == s[LeadingWhiteSpace(s)..];
  }

  lemma {:induction false} LeadingDigitsAppend(d: string, rest: string)
    requires AllDigits(d)
    requires rest == [] || !IsDigit(rest[0])
    ensures LeadingDigits(d + rest) == |d|
    decreases |d|
  {
    if |d| == 0 {
      assert d + rest == rest;
    } else {
      assert (d + rest)[0] == d[0];
      assert (d + rest)[1..] == d[1..] + rest;
      LeadingDigitsAppend(d[1..], rest);
    }
  }

  /** A string that starts a numeral: neither white space, nor a sign, nor `Infinity`. */
  lemma SignedParse(sign: string, u: string)
    requires sign == "" || sign == "+" || sign == "-"
    requires |u| > 0 && (IsDigit(u[0]) || u[0] == '.')
    ensures ParseFloat(sign + u) == ParseUnsigned(u, sign == "-")
  {
    var s := sign + u;
    assert !IsStrWhiteSpaceChar(s[0]);
    assert s[LeadingWhiteSpace(s)..] == s;
    if sign != "" {
      assert s[1..] == u;
    }
  }

  /** What may follow the digits of a numeral without adding to them: anything but a digit or a point. */
  predicate StopsDigits(rest: string)
  {
    rest == [] || (!IsDigit(rest[0]) && rest[0] != '.')
  }

  /** How ParseUnsigned reads digits, a point and more digits. */
  lemma ParseUnsignedWithPoint(u: string, negative: bool, i: nat, f: nat)
    requires i == LeadingDigits(u) && i < |u| && u[i] == '.'
    requires f == LeadingDigits(u[i + 1..]) && i + f > 0
    requires |u| > 0 && u[0] != 'I'
    ensures ParseUnsigned(u, negative) == Decimal(negative, u[..i], u[i + 1..][..f], ExponentOf(u[i + 1..][f..]))
  {
    assert !StartsWithInfinity(u) by {
      if |u| >= 8 { assert u[..8][0] == u[0]; }
    }
  }

  /** Where the pieces of `d.f` followed by `rest` sit in the concatenated string. */
  lemma SplitAtPoint(d: Digits, f: Digits, rest: string)
    requires StopsDigits(rest)
    ensures var u := d + "." + f + rest;
      && LeadingDigits(u) == |d| && u[|d|] == '.'
      && LeadingDigits(u[|d| + 1..]) == |f|
      && u[..|d|] == d && u[|d| + 1..][..|f|] == f && u[|d| + 1..][|f|..] == rest
      && u[0] == (if |d| > 0 then d[0] else '.')
  {
    var tail := f + rest;
    var u := d + (['.'] + tail);
    assert d + "." + f + rest == u;
    LeadingDigitsAppend(d, ['.'] + tail);
    assert u[|d| + 1..] == tail;
    LeadingDigitsAppend(f, rest);
  }

  lemma ParseDigitsThenFraction(d: Digits, f: Digits, rest: string, negative: bool)
    requires |d| + |f| > 0
    requires StopsDigits(rest)
    ensures ParseUnsigned(d + "." + f + rest, negative) == Decimal(negative, d, f, ExponentOf(rest))
  {
    SplitAtPoint(d, f, rest);
    ParseUnsignedWithPoint(d + "." + f + rest, negative, |d|, |f|);
  }

  lemma ParseDigitsOnly(d: Digits, rest: string, negative: bool)
    requires |d| > 0
    requires StopsDigits(rest)
    ensures ParseUnsigned(d + rest, negative) == Decimal(negative, d, "", ExponentOf(rest))
  {
    var u := d + rest;
    LeadingDigitsAppend(d, rest);
    assert u[..|d|] == d;
    assert u[|d|..] == rest;
    if |u| >= 8 {
      assert u[..8][0] == u[0];
    }
  }

  /**
   * An id whose leading numeral is integral is accepted whatever follows it:
   * optional white space, an optional sign, digits, then either nothing, a
   * bare `.`, or a `.` followed by zeros, then anything but a digit or a
   * point, including an exponent of zero or more (`7e5`) and an `e` that
   * starts no exponent (`7east`).
   */
  lemma {:induction false} IntegralPrefixAccepted(w: string, sign: string, d: Digits, zeros: Digits, point: bool, rest: string)
    requires AllWhiteSpace(w)
    requires sign == "" || sign == "+" || sign == "-"
    requires |d| > 0 && AllZeros(zeros)
    requires !point ==> zeros == ""
    requires StopsDigits(rest) && ExponentOf(rest) >= 0
    ensures IsInteger(ParseFloat(w + sign + (if point then d + "." + zeros else d) + rest))
  {
    var numeral := if point then d + "." + zeros else d;
    var u := numeral + rest;
    assert w + sign + numeral + rest == w + (sign + u);
    WhiteSpaceIgnored(w, sign + u);
    SignedParse(sign, u);
    if point {
      assert u == d + "." + zeros + rest;
      ParseDigitsThenFraction(d, zeros, rest, sign == "-");
      ZeroFractionInteger(sign == "-", d, zeros, ExponentOf(rest));
    } else {
      ParseDigitsOnly(d, rest, sign == "-");
    }
  }

  /** An id whose leading numeral has a non-zero fractional digit and no exponent (or a zero one) is rejected. */
  lemma {:induction false} FractionalPrefixRejected(w: string, sign: string, d: Digits, f: Digits, rest: string)
    requires AllWhiteSpace(w)
    requires sign == "" || sign == "+" || sign == "-"
    requires !AllZeros(f)
    requires StopsDigits(rest) && ExponentOf(rest) == 0
    ensures !IsInteger(ParseFloat(w + sign + d + "." + f + rest))
  {
    var u := d + "." + f + rest;
    assert w + sign + d + "." + f + rest == w + (sign + u);
    WhiteSpaceIgnored(w, sign + u);
    assert u[0] == (if |d| > 0 then d[0] else '.');
    SignedParse(sign, u);
    ParseDigitsThenFraction(d, f, rest, sign == "-");
    FractionDecidesInteger(sign == "-", d, f);
  }

  /** A string without a single decimal digit never parses to an integer. */
  lemma NoDigitRejected(s: string)
    requires forall i :: 0 <= i < |s| ==> !IsDigit(s[i])
    ensures !IsInteger(ParseFloat(s))
  {
    var a := LeadingWhiteSpace(s);
    var t := s[a..];
    var b := if |t| > 0 && (t[0] == '+' || t[0] == '-') then 1 else 0;
    var u := t[b..];
    if !StartsWithInfinity(u) {
      if |u| > 0 {
        assert u[0] == s[a + b];
      }
      assert LeadingDigits(u) == 0;
      if |u| > 1 {
        assert u[1..][0] == s[a + b + 1];
      }
      assert ParseDecimal(u, b == 1 && t[0] == '-') == NaN;
    }
  }

  /** Contrapositive of NoDigitRejected: whatever parses to an integer contains a digit. */
  lemma IntegerHasDigit(s: string)
    ensures IsInteger(ParseFloat(s)) ==> exists i :: 0 <= i < |s| && IsDigit(s[i])
  {
    if forall i :: 0 <= i < |s| ==> !IsDigit(s[i]) {
      NoDigitRejected(s);
    }
  }
}
