/** The three pieces of Python number handling the index-components code
    relies on: `round(x, n)` on an exact quotient, `str()` of a float that
    holds a whole number of hundredths, and `float()` of a string.  The
    round trip `PyFloatOfHundredthsText` is what lets a generated
    `change_percent` serve as a sort key. */
module PyNumbers {
  import opened Common
  import opened Text
  import opened DecimalLiteral

  // ---------------------------------------------------------------------------
  // round()
  // ---------------------------------------------------------------------------

  /** `round(num / den)`: the nearest integer, a tie going to the even one. */
  function RoundHalfEven(num: int, den: int): (n: int)
    requires den > 0
    ensures -den <= 2 * (num - n * den) <= den
    ensures (2 * (num - n * den) == den || 2 * (num - n * den) == -den) ==> n % 2 == 0
  {
    var q := num / den;
    var rem := num % den;
    assert num - q * den == rem;
    assert num - (q + 1) * den == rem - den;
    if 2 * rem < den then q
    else if 2 * rem > den then q + 1
    else if q % 2 == 0 then q
    else q + 1
  }

  /** Rounding keeps the sign of the quotient. */
  lemma RoundKeepsSign(num: int, den: int)
    requires den > 0
    ensures num >= 0 ==> RoundHalfEven(num, den) >= 0
    ensures num <= 0 ==> RoundHalfEven(num, den) <= 0
  {
    var n := RoundHalfEven(num, den);
    if n >= 1 {
      MultiplyAtLeast(n, den);
    }
    if n <= -1 {
      MultiplyAtLeast(-n, den);
    }
  }

  lemma MultiplyAtLeast(a: int, b: int)
    requires a >= 1 && b > 0
    ensures a * b >= b
  {
    assert a * b == (a - 1) * b + b;
  }

  // ---------------------------------------------------------------------------
  // str() of a float holding hundredths
  // ---------------------------------------------------------------------------

  /** The fractional digits Python prints for `r` hundredths: one digit when
      the second is zero ("0" for none), two otherwise. */
  function FractionText(r: nat): (s: string)
    requires r < 100
    ensures |s| >= 1 && AllDigits(s)
  {
    if r % 10 == 0 then NatToDigits(r / 10)
    else if r < 10 then "0" + NatToDigits(r)
    else NatToDigits(r)
  }

  /** The printed fraction digits are worth `r` hundredths. */
  lemma FractionTextValue(r: nat)
    requires r < 100
    ensures DigitsValue(FractionText(r)) as real / Pow10(|FractionText(r)|) as real == r as real / 100.0
  {
    assert Pow10(1) == 10 && Pow10(2) == 100;
    if r % 10 == 0 {
      assert |NatToDigits(r / 10)| == 1;
    } else if r < 10 {
      DigitsValueAppend("0", NatToDigits(r));
    } else {
      assert NatToDigits(r) == NatToDigits(r / 10) + [('0' as int + r % 10) as char];
    }
  }

  /** `str(x)` for a float `x` equal to `h` hundredths (below 10^14 in size,
      where Python writes fixed notation): the whole part, a point, and the
      fraction without trailing zeros; a negative zero is written "-0.0". */
  function HundredthsText(negative: bool, h: nat): (s: string)
    ensures |s| >= 3 && '%' !in s
  {
    var body := UnsignedText(h);
    if negative then "-" + body else body
  }

  function UnsignedText(h: nat): (s: string)
    ensures |s| >= 3 && IsDigit(s[0]) && IsDigit(s[|s| - 1])
  {
    NatToDigits(h / 100) + "." + FractionText(h % 100)
  }

  // ---------------------------------------------------------------------------
  // float()
  // ---------------------------------------------------------------------------

  /** `float(s)` on text: surrounding white space is stripped, an optional
      sign is taken off, and the rest must be, in full, an unsigned decimal
      literal; anything else raises. */
  function PyFloat(s: string): Option<real> {
    var t := PyStrip(s);
    if |t| > 0 && IsSign(t[0]) then
      var v := UnsignedFloat(t[1..]);
      if t[0] == '-' && v.Some? then Some(-v.value) else v
    else UnsignedFloat(t)
  }

  /** `float(s)` succeeds and gives `v`. */
  predicate ReadsAs(s: string, v: real) {
    PyFloat(s) == Some(v)
  }

  /** The value of text that is, in full, an unsigned decimal literal. */
  function UnsignedFloat(b: string): Option<real> {
    var lit := Scan(b, false);
    if |b| > 0 && !IsSign(b[0]) && lit.Decimal? && lit.length == |b| then Some(DecimalValue(lit)) else None
  }

  /** The unsigned reading accepts exactly the unsigned literals. */
  lemma UnsignedFloatAccepts(b: string)
    ensures UnsignedFloat(b).Some? <==> IsUnsignedLiteral(b, false)
  {
    ScanIsLongestLiteral(b, false);
    assert b[..|b|] == b;
    if IsUnsignedLiteral(b, false) {
      UnsignedLiteralHead(b, false);
    }
  }

  /** `float()` accepts exactly the texts that are a decimal literal once
      the surrounding white space is stripped. */
  lemma PyFloatAccepts(s: string)
    ensures PyFloat(s).Some? <==> IsLiteral(PyStrip(s), false)
  {
    var t := PyStrip(s);
    if |t| > 0 && IsSign(t[0]) {
      UnsignedFloatAccepts(t[1..]);
      if IsUnsignedLiteral(t, false) {
        UnsignedLiteralHead(t, false);
      }
    } else {
      UnsignedFloatAccepts(t);
    }
  }

  /** The number `n` hundredths: what a value kept in cents is worth. */
  function Hundredths(n: int): real {
    n as real / 100.0
  }

  /** The number `h` hundredths, negated when `negative`. */
  function SignedHundredths(negative: bool, h: nat): real {
    if negative then -Hundredths(h) else Hundredths(h)
  }

  /** Printing a whole number of hundredths and reading the text back with
      `float()` gives the number again. */
  lemma PyFloatOfHundredthsText(negative: bool, h: nat)
    ensures ReadsAs(HundredthsText(negative, h), SignedHundredths(negative, h))
  {
    PyFloatOfUnsignedText(h);
    PyFloatOfSigned(negative, UnsignedText(h), Hundredths(h), HundredthsText(negative, h), SignedHundredths(negative, h));
  }

  /** The sign step on its own: `t` is `u` with a minus sign when
      `negative`, and `w` is `u`'s value negated when `negative`. */
  lemma PyFloatOfSigned(negative: bool, u: string, v: real, t: string, w: real)
    requires |u| >= 1 && IsDigit(u[0]) && IsDigit(u[|u| - 1]) && PyFloat(u) == Some(v)
    requires t == if negative then "-" + u else u
    requires w == if negative then -v else v
    ensures PyFloat(t) == Some(w)
  {
    if negative {
      PyFloatNegates(u);
    }
  }

  lemma PyFloatOfUnsignedText(h: nat)
    ensures PyFloat(UnsignedText(h)) == Some(Hundredths(h))
  {
    var u := UnsignedText(h);
    ScanUnsignedText(h);
    PyStripUnchanged(u);
  }

  /** A minus sign in front of digit-led text negates what `float()` reads. */
  lemma PyFloatNegates(u: string)
    requires |u| >= 1 && IsDigit(u[0]) && IsDigit(u[|u| - 1]) && PyFloat(u).Some?
    ensures PyFloat("-" + u) == Some(-PyFloat(u).value)
  {
    PyStripUnchanged(u);
    PyStripSigned('-', u);
    var t := "-" + u;
    assert t[0] == '-' && t[1..] == u;
  }

  /** The unsigned text scans, in full, as a decimal worth `h` hundredths. */
  lemma ScanUnsignedText(h: nat)
    ensures var lit := Scan(UnsignedText(h), false);
      && lit.Decimal? && lit.length == |UnsignedText(h)| && !lit.negative && lit.exponent == 0
      && DecimalValue(lit) == h as real / 100.0
  {
    var intPart := NatToDigits(h / 100);
    var fracPart := FractionText(h % 100);
    var u := intPart + "." + fracPart;
    ScanPointDecimal(intPart, fracPart, false);
    var m := DigitsValue(intPart + fracPart);
    DigitsValueAppend(intPart, fracPart);
    FractionTextValue(h % 100);
    HundredthsValue(h, |fracPart|, DigitsValue(fracPart));
    DecimalValueNoExponent(|u|, m, |fracPart|);
  }

  lemma HundredthsValue(h: nat, k: nat, f: nat)
    requires f as real / Pow10(k) as real == (h % 100) as real / 100.0
    ensures ((h / 100) * Pow10(k) + f) as real / Pow10(k) as real == h as real / 100.0
  {
    var p := Pow10(k) as real;
    assert ((h / 100) * Pow10(k) + f) as real == (h / 100) as real * p + f as real;
    assert ((h / 100) as real * p + f as real) / p == (h / 100) as real + f as real / p;
    assert h == (h / 100) * 100 + h % 100;
  }
}
