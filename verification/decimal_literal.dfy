/** The decimal-literal syntax that JavaScript's `parseFloat` and `Number()`
    (StrDecimalLiteral, section 7.1.4.1 of ECMA-262) and Python's `float()`
    share: an optional sign, digits with an optional point, and an optional
    exponent.  `Scan` finds the longest prefix of a string in that syntax;
    `ScanIsLongestLiteral` proves it is the longest, against the declarative
    grammar `IsLiteral`. */
module DecimalLiteral {
  import opened Text

  // ---------------------------------------------------------------------------
  // The grammar, stated declaratively
  // ---------------------------------------------------------------------------

  predicate IsSign(c: char) {
    c == '+' || c == '-'
  }

  /** `e` or `E`, then an optionally signed run of at least one digit. */
  predicate IsExponentPart(x: string) {
    && |x| >= 2
    && (x[0] == 'e' || x[0] == 'E')
    && (AllDigits(x[1..]) || (|x| >= 3 && IsSign(x[1]) && AllDigits(x[2..])))
  }

  /** Digits, or digits and a point and digits with at least one digit overall. */
  predicate IsMantissa(x: string) {
    || (|x| >= 1 && AllDigits(x))
    || (exists p :: 0 <= p < |x| && x[p] == '.' && |x| >= 2 && AllDigits(x[..p]) && AllDigits(x[p + 1..]))
  }

  /** A literal without sign; `Infinity` only where the language accepts it. */
  predicate IsUnsignedLiteral(x: string, allowInfinity: bool) {
    || (allowInfinity && x == "Infinity")
    || IsMantissa(x)
    || (exists m :: 0 < m < |x| && IsMantissa(x[..m]) && IsExponentPart(x[m..]))
  }

  predicate IsLiteral(x: string, allowInfinity: bool) {
    || IsUnsignedLiteral(x, allowInfinity)
    || (|x| >= 1 && IsSign(x[0]) && IsUnsignedLiteral(x[1..], allowInfinity))
  }

  // ---------------------------------------------------------------------------
  // The scanner
  // ---------------------------------------------------------------------------

  /** Number of consecutive digits of `s` from index `from`. */
  function DigitRun(s: string, from: nat): (n: nat)
    requires from <= |s|
    ensures from + n <= |s|
    ensures forall i :: from <= i < from + n ==> IsDigit(s[i])
    ensures from + n == |s| || !IsDigit(s[from + n])
    decreases |s| - from
  {
    if from == |s| || !IsDigit(s[from]) then 0 else 1 + DigitRun(s, from + 1)
  }

  function IntegerDigits(b: string): nat {
    DigitRun(b, 0)
  }

  predicate HasPoint(b: string) {
    IntegerDigits(b) < |b| && b[IntegerDigits(b)] == '.'
  }

  function FractionDigits(b: string): (n: nat)
    ensures HasPoint(b) ==> IntegerDigits(b) + 1 + n <= |b|
  {
    if HasPoint(b) then DigitRun(b, IntegerDigits(b) + 1) else 0
  }

  /** The digits before the point. */
  function IntPart(b: string): string {
    b[..IntegerDigits(b)]
  }

  /** The digits after the point, empty when there is no point. */
  function FracPart(b: string): string {
    if HasPoint(b) then b[IntegerDigits(b) + 1..IntegerDigits(b) + 1 + FractionDigits(b)] else ""
  }

  /** Length of the mantissa at the start of `b`, 0 when there is none. */
  function MantissaLength(b: string): (n: nat)
    ensures n <= |b|
  {
    if IntegerDigits(b) == 0 && FractionDigits(b) == 0 then 0
    else if HasPoint(b) then IntegerDigits(b) + 1 + FractionDigits(b)
    else IntegerDigits(b)
  }

  /** Length of a well-formed exponent part starting at `at`, 0 when there is none. */
  function ExponentLength(b: string, at: nat): (n: nat)
    requires at <= |b|
    ensures at + n <= |b|
  {
    if at < |b| && (b[at] == 'e' || b[at] == 'E') then
      var signed := at + 1 < |b| && IsSign(b[at + 1]);
      var start := at + 1 + (if signed then 1 else 0);
      var run := DigitRun(b, start);
      if run > 0 then start - at + run else 0
    else 0
  }

  predicate StartsWithInfinity(b: string) {
    |b| >= 8 && b[..8] == "Infinity"
  }

  /** Length of the longest unsigned literal prefix of `b` (0: none). */
  function UnsignedLength(b: string, allowInfinity: bool): (n: nat)
    ensures n <= |b|
  {
    if allowInfinity && StartsWithInfinity(b) then 8
    else if MantissaLength(b) == 0 then 0
    else MantissaLength(b) + ExponentLength(b, MantissaLength(b))
  }

  function SignLength(s: string): nat {
    if |s| > 0 && IsSign(s[0]) then 1 else 0
  }

  /** The longest literal prefix of a string, decoded. */
  datatype Literal =
    | NoLiteral
    | Infinite(length: nat, negative: bool)
    | Decimal(length: nat, negative: bool, mantissa: nat, fractionLength: nat, exponent: int)
  {
    function Length(): nat {
      if NoLiteral? then 0 else length
    }
  }

  /** Value of the optionally signed digit run of an exponent part. */
  function ExponentValue(b: string, at: nat): int
    requires at <= |b|
    requires ExponentLength(b, at) > 0
  {
    var negative := b[at + 1] == '-';
    var start := if IsSign(b[at + 1]) then at + 2 else at + 1;
    var digits := b[start..at + ExponentLength(b, at)];
    assert AllDigits(digits);
    if negative then 0 - DigitsValue(digits) else DigitsValue(digits)
  }

  /** The longest prefix of `s` in the literal syntax, with its parts decoded. */
  function Scan(s: string, allowInfinity: bool): (lit: Literal)
    ensures lit.Length() <= |s|
    ensures lit.Infinite? ==> allowInfinity
  {
    var sign := SignLength(s);
    var b := s[sign..];
    var negative := sign == 1 && s[0] == '-';
    var n := UnsignedLength(b, allowInfinity);
    if n == 0 then NoLiteral
    else if allowInfinity && StartsWithInfinity(b) then Infinite(sign + 8, negative)
    else
      var m := MantissaLength(b);
      var intPart := IntPart(b);
      var fracPart := FracPart(b);
      assert AllDigits(intPart + fracPart);
      var e := if ExponentLength(b, m) > 0 then ExponentValue(b, m) else 0;
      Decimal(sign + n, negative, DigitsValue(intPart + fracPart), |fracPart|, e)
  }

  function Pow10(e: nat): (r: nat)
    ensures r >= 1
  {
    if e == 0 then 1 else 10 * Pow10(e - 1)
  }

  /** `x` times ten to the power `e`, for either sign of `e`. */
  function ScaleByPow10(x: real, e: int): real {
    if e >= 0 then x * Pow10(e) as real else x / Pow10(-e) as real
  }

  /** The exact value a decimal literal denotes. */
  function DecimalValue(lit: Literal): real
    requires lit.Decimal?
  {
    var magnitude := ScaleByPow10(lit.mantissa as real / Pow10(lit.fractionLength) as real, lit.exponent);
    if lit.negative then -magnitude else magnitude
  }

  /** A non-negative integer literal denotes its digits' value. */
  lemma DecimalValueInteger(length: nat, mantissa: nat)
    ensures DecimalValue(Decimal(length, false, mantissa, 0, 0)) == mantissa as real
  {
    DecimalValueNoExponent(length, mantissa, 0);
    assert Pow10(0) == 1;
  }

  /** A non-negative literal without exponent denotes its mantissa over a power of ten. */
  lemma DecimalValueNoExponent(length: nat, mantissa: nat, fractionLength: nat)
    ensures DecimalValue(Decimal(length, false, mantissa, fractionLength, 0))
      == mantissa as real / Pow10(fractionLength) as real
  {
    var x := mantissa as real / Pow10(fractionLength) as real;
    assert Pow10(0) == 1;
    assert ScaleByPow10(x, 0) == x * 1.0;
  }

  // ---------------------------------------------------------------------------
  // The scanner finds exactly the longest literal prefix
  // ---------------------------------------------------------------------------

  lemma AllDigitsSlice(s: string, i: nat, j: nat)
    requires i <= j <= |s|
    requires forall k :: i <= k < j ==> IsDigit(s[k])
    ensures AllDigits(s[i..j])
  {
  }

  /** Every position before the mantissa's end holds a digit or the point. */
  lemma InsideMantissa(b: string, i: int)
    requires 0 <= i < MantissaLength(b)
    ensures IsDigit(b[i]) || b[i] == '.'
    ensures b[i] == '.' ==> HasPoint(b) && i == IntegerDigits(b)
  {
  }

  /** A mantissa that is a prefix of `b` is no longer than the scanned one. */
  lemma MantissaBounded(b: string, k: nat)
    requires k <= |b| && IsMantissa(b[..k])
    ensures k <= MantissaLength(b)
    ensures MantissaLength(b) > 0
  {
    var x := b[..k];
    var d1 := IntegerDigits(b);
    if AllDigits(x) && |x| >= 1 {
      assert b[0..k] == x;
      DigitRunAtLeast(b, 0, k);
    } else {
      var p :| 0 <= p < |x| && x[p] == '.' && |x| >= 2 && AllDigits(x[..p]) && AllDigits(x[p + 1..]);
      assert b[0..p] == x[..p];
      DigitRunAtLeast(b, 0, p);
      assert b[p] == '.';
      assert p == d1;
      assert HasPoint(b);
      assert b[p + 1..k] == x[p + 1..];
      DigitRunAtLeast(b, p + 1, k);
      var d2 := FractionDigits(b);
      assert d2 >= k - p - 1;
    }
  }

  /** The scanned mantissa is a mantissa. */
  lemma MantissaSound(b: string)
    requires MantissaLength(b) > 0
    ensures IsMantissa(b[..MantissaLength(b)])
  {
    var d1 := IntegerDigits(b);
    var x := b[..MantissaLength(b)];
    if HasPoint(b) {
      var d2 := FractionDigits(b);
      assert x[..d1] == b[..d1];
      AllDigitsSlice(b, 0, d1);
      assert x[d1 + 1..] == b[d1 + 1..d1 + 1 + d2];
      AllDigitsSlice(b, d1 + 1, d1 + 1 + d2);
      assert x[d1] == '.';
    } else {
      AllDigitsSlice(b, 0, d1);
    }
  }

  /** An exponent part that is a slice of `b` from `at` is no longer than the scanned one. */
  lemma ExponentBounded(b: string, at: nat, k: nat)
    requires at <= k <= |b| && IsExponentPart(b[at..k])
    ensures 0 < ExponentLength(b, at) && k - at <= ExponentLength(b, at)
  {
    var x := b[at..k];
    assert b[at] == x[0];
    var signed := at + 1 < |b| && IsSign(b[at + 1]);
    var start := at + 1 + (if signed then 1 else 0);
    if signed {
      assert x[1] == b[at + 1];
      assert !IsDigit(x[1]);
      assert !AllDigits(x[1..]) by { assert x[1..][0] == x[1]; }
      assert AllDigits(x[2..]) && x[2..] == b[start..k];
    } else {
      assert AllDigits(x[1..]) && x[1..] == b[start..k];
    }
    assert start < k;
    DigitRunAtLeast(b, start, k);
  }

  /** A run of digits from `from` to `end` is counted in full. */
  lemma {:induction false} DigitRunAtLeast(s: string, from: nat, end: nat)
    requires from <= end <= |s| && AllDigits(s[from..end])
    ensures DigitRun(s, from) >= end - from
    decreases end - from
  {
    if from < end {
      assert s[from..end][0] == s[from];
      assert s[from + 1..end] == s[from..end][1..];
      DigitRunAtLeast(s, from + 1, end);
    }
  }

  lemma ExponentSound(b: string, at: nat)
    requires at <= |b| && ExponentLength(b, at) > 0
    ensures IsExponentPart(b[at..at + ExponentLength(b, at)])
  {
    var n := ExponentLength(b, at);
    var x := b[at..at + n];
    var signed := at + 1 < |b| && IsSign(b[at + 1]);
    var start := at + 1 + (if signed then 1 else 0);
    AllDigitsSlice(b, start, at + n);
    if signed {
      assert x[2..] == b[start..at + n];
    } else {
      assert x[1..] == b[start..at + n];
    }
  }

  /** Unsigned literals begin with a digit, a point, or the `I` of Infinity. */
  lemma UnsignedLiteralHead(x: string, allowInfinity: bool)
    requires IsUnsignedLiteral(x, allowInfinity)
    ensures |x| >= 1 && (IsDigit(x[0]) || x[0] == '.' || x[0] == 'I')
  {
    if IsMantissa(x) {
      MantissaHead(x);
    } else if !(allowInfinity && x == "Infinity") {
      var m :| 0 < m < |x| && IsMantissa(x[..m]) && IsExponentPart(x[m..]);
      MantissaHead(x[..m]);
    }
  }

  lemma MantissaHead(x: string)
    requires IsMantissa(x)
    ensures |x| >= 1 && (IsDigit(x[0]) || x[0] == '.')
  {
    if !(|x| >= 1 && AllDigits(x)) {
      var p :| 0 <= p < |x| && x[p] == '.' && |x| >= 2 && AllDigits(x[..p]) && AllDigits(x[p + 1..]);
      if p > 0 {
        assert x[..p][0] == x[0];
      }
    }
  }

  /** The unsigned scan is the longest unsigned literal prefix. */
  lemma {:induction false} UnsignedScanIsLongest(b: string, allowInfinity: bool)
    ensures UnsignedLength(b, allowInfinity) > 0 ==> IsUnsignedLiteral(b[..UnsignedLength(b, allowInfinity)], allowInfinity)
    ensures forall k :: UnsignedLength(b, allowInfinity) < k <= |b| ==> !IsUnsignedLiteral(b[..k], allowInfinity)
  {
    var n := UnsignedLength(b, allowInfinity);
    if n > 0 {
      if !(allowInfinity && StartsWithInfinity(b)) {
        var m := MantissaLength(b);
        MantissaSound(b);
        if ExponentLength(b, m) > 0 {
          ExponentSound(b, m);
          assert b[..n][..m] == b[..m];
          assert b[..n][m..] == b[m..n];
        }
      }
    }
    forall k | n < k <= |b|
      ensures !IsUnsignedLiteral(b[..k], allowInfinity)
    {
      if IsUnsignedLiteral(b[..k], allowInfinity) {
        UnsignedLonger(b, allowInfinity, k);
        assert false;
      }
    }
  }

  /** A literal that is a prefix of `b` is no longer than the unsigned scan. */
  lemma UnsignedLonger(b: string, allowInfinity: bool, k: nat)
    requires k <= |b| && IsUnsignedLiteral(b[..k], allowInfinity)
    ensures k <= UnsignedLength(b, allowInfinity)
  {
    var x := b[..k];
    if allowInfinity && x == "Infinity" {
      assert b[..8] == x;
    } else if IsMantissa(x) {
      MantissaBounded(b, k);
      MantissaHead(x);
      assert x[0] == b[0];
      NoInfinityAfterMantissa(b);
    } else {
      var m :| 0 < m < |x| && IsMantissa(x[..m]) && IsExponentPart(x[m..]);
      assert x[..m] == b[..m];
      assert x[m..] == b[m..k];
      ExponentLonger(b, allowInfinity, m, k);
    }
  }

  /** A mantissa followed by an exponent part, as a prefix of `b`, is no
      longer than the unsigned scan. */
  lemma ExponentLonger(b: string, allowInfinity: bool, m: nat, k: nat)
    requires 0 < m < k <= |b| && IsMantissa(b[..m]) && IsExponentPart(b[m..k])
    ensures k <= UnsignedLength(b, allowInfinity)
  {
    MantissaBounded(b, m);
    MantissaHead(b[..m]);
    assert b[..m][0] == b[0];
    NoInfinityAfterMantissa(b);
    var mb := MantissaLength(b);
    assert b[m] == 'e' || b[m] == 'E' by { assert b[m..k][0] == b[m]; }
    if m < mb {
      InsideMantissa(b, m);
      assert false;
    }
    ExponentBounded(b, m, k);
  }

  lemma NoInfinityAfterMantissa(b: string)
    requires |b| >= 1 && (IsDigit(b[0]) || b[0] == '.')
    ensures !StartsWithInfinity(b)
  {
    if |b| >= 8 {
      assert b[..8][0] == b[0];
    }
  }

  /** A literal that is a prefix of `s` is no longer than the scan. */
  lemma LiteralPrefixBounded(s: string, allowInfinity: bool, k: nat)
    requires k <= |s| && IsLiteral(s[..k], allowInfinity)
    ensures k <= Scan(s, allowInfinity).Length()
  {
    var sign := SignLength(s);
    var b := s[sign..];
    var x := s[..k];
    if IsUnsignedLiteral(x, allowInfinity) {
      UnsignedLiteralHead(x, allowInfinity);
      assert x[0] == s[0];
      assert sign == 0;
      assert x == b[..k];
      UnsignedLonger(b, allowInfinity, k);
    } else {
      assert x[0] == s[0];
      assert sign == 1;
      assert x[1..] == b[..k - 1];
      UnsignedLiteralHead(x[1..], allowInfinity);
      UnsignedLonger(b, allowInfinity, k - 1);
    }
  }

  /** The scanned prefix is a literal, and no longer prefix is. */
  lemma {:induction false} ScanIsLongestLiteral(s: string, allowInfinity: bool)
    ensures Scan(s, allowInfinity).Length() > 0 ==> IsLiteral(s[..Scan(s, allowInfinity).Length()], allowInfinity)
    ensures forall k :: Scan(s, allowInfinity).Length() < k <= |s| ==> !IsLiteral(s[..k], allowInfinity)
  {
    var sign := SignLength(s);
    var b := s[sign..];
    var n := Scan(s, allowInfinity).Length();
    UnsignedScanIsLongest(b, allowInfinity);
    var un := UnsignedLength(b, allowInfinity);
    if n > 0 {
      if sign == 1 {
        assert s[..n][1..] == b[..un];
      } else {
        assert s[..n] == b[..un];
      }
    }
    forall k | n < k <= |s|
      ensures !IsLiteral(s[..k], allowInfinity)
    {
      if IsLiteral(s[..k], allowInfinity) {
        LiteralPrefixBounded(s, allowInfinity, k);
        assert false;
      }
    }
  }

  // ---------------------------------------------------------------------------
  // Values of digit strings
  // ---------------------------------------------------------------------------

  lemma DigitsValueAppend(a: string, c: string)
    requires AllDigits(a) && AllDigits(c)
    ensures AllDigits(a + c)
    ensures DigitsValue(a + c) == DigitsValue(a) * Pow10(|c|) + DigitsValue(c)
    decreases |c|
  {
    if |c| == 0 {
      assert a + c == a;
    } else {
      var c' := c[..|c| - 1];
      var ac := a + c;
      assert ac[..|ac| - 1] == a + c';
      assert ac[|ac| - 1] == c[|c| - 1];
      DigitsValueAppend(a, c');
      ShiftDigit(DigitsValue(a), Pow10(|c'|), DigitsValue(c'), DigitValue(c[|c| - 1]));
    }
  }

  lemma ShiftDigit(va: nat, p: nat, vc: nat, d: nat)
    ensures (va * p + vc) * 10 + d == va * (p * 10) + (vc * 10 + d)
  {
  }

  /** An unsigned literal without exponent, as `Scan` decodes it: its
      digits on both sides of the point make the mantissa. */
  lemma ScanUnsignedPlain(s: string, allowInfinity: bool)
    requires |s| >= 1 && IsDigit(s[0])
    requires ExponentLength(s, MantissaLength(s)) == 0
    ensures MantissaLength(s) > 0
    ensures Scan(s, allowInfinity)
      == Decimal(MantissaLength(s), false, DigitsValue(IntPart(s) + FracPart(s)), |FracPart(s)|, 0)
  {
    DigitHeadIsFinite(s);
    assert SignLength(s) == 0;
    assert s[0..] == s;
  }

  lemma DigitHeadIsFinite(s: string)
    requires |s| >= 1 && IsDigit(s[0])
    ensures !StartsWithInfinity(s) && IntegerDigits(s) > 0
  {
    if |s| >= 8 {
      assert s[..8][0] == s[0];
    }
  }

  /** A literal begins with a sign, a digit, a point or the `I` of
      Infinity: text that begins otherwise has no literal prefix. */
  lemma ScanNeedsANumericHead(s: string, allowInfinity: bool)
    requires |s| >= 1 && !IsDigit(s[0]) && !IsSign(s[0]) && s[0] != '.' && s[0] != 'I'
    ensures Scan(s, allowInfinity) == NoLiteral
  {
    assert SignLength(s) == 0;
    assert s[0..] == s;
    assert IntegerDigits(s) == 0 && !HasPoint(s);
    assert !StartsWithInfinity(s) by {
      if |s| >= 8 {
        assert s[..8][0] == s[0];
      }
    }
  }

  /** A string of digits alone scans, in full, as the number it spells. */
  lemma ScanDigits(s: string, allowInfinity: bool)
    requires |s| >= 1 && AllDigits(s)
    ensures Scan(s, allowInfinity) == Decimal(|s|, false, DigitsValue(s), 0, 0)
  {
    DigitRunAll(s, 0);
    assert !HasPoint(s) && MantissaLength(s) == |s|;
    assert IntPart(s) + FracPart(s) == s;
    ScanUnsignedPlain(s, allowInfinity);
  }

  lemma DigitRunAll(s: string, from: nat)
    requires from <= |s|
    requires forall i :: from <= i < |s| ==> IsDigit(s[i])
    ensures DigitRun(s, from) == |s| - from
    decreases |s| - from
  {
    if from < |s| {
      DigitRunAll(s, from + 1);
    }
  }

  /** Digits, then a character that cannot continue a literal: the scan
      stops at that character. */
  lemma ScanDigitsThen(d: string, rest: string, allowInfinity: bool)
    requires |d| >= 1 && AllDigits(d)
    requires |rest| >= 1 && !IsDigit(rest[0]) && rest[0] != '.' && rest[0] != 'e' && rest[0] != 'E'
    ensures Scan(d + rest, allowInfinity) == Decimal(|d|, false, DigitsValue(d), 0, 0)
  {
    var s := d + rest;
    assert s[|d|] == rest[0];
    DigitRunPrefix(s, 0, |d|);
    assert !HasPoint(s) && MantissaLength(s) == |d|;
    assert ExponentLength(s, |d|) == 0;
    assert IntPart(s) + FracPart(s) == d;
    ScanUnsignedPlain(s, allowInfinity);
  }

  /** Digits, a point and digits scan, in full, as a decimal fraction. */
  lemma ScanPointDecimal(intPart: string, fracPart: string, allowInfinity: bool)
    requires |intPart| >= 1 && AllDigits(intPart) && AllDigits(fracPart)
    ensures Scan(intPart + "." + fracPart, allowInfinity)
      == Decimal(|intPart| + 1 + |fracPart|, false, DigitsValue(intPart + fracPart), |fracPart|, 0)
  {
    var s := intPart + "." + fracPart;
    PointDecimalMantissa(intPart, fracPart);
    assert s[0] == intPart[0];
    assert IntPart(s) == intPart;
    assert FracPart(s) == fracPart;
    ScanUnsignedPlain(s, allowInfinity);
  }

  lemma PointDecimalMantissa(intPart: string, fracPart: string)
    requires |intPart| >= 1 && AllDigits(intPart) && AllDigits(fracPart)
    ensures var s := intPart + "." + fracPart;
      && IntegerDigits(s) == |intPart| && HasPoint(s) && FractionDigits(s) == |fracPart|
      && MantissaLength(s) == |s| && ExponentLength(s, |s|) == 0
  {
    var s := intPart + "." + fracPart;
    DigitRunPrefix(s, 0, |intPart|);
    assert IntegerDigits(s) == |intPart|;
    DigitRunAll(s, |intPart| + 1);
  }

  lemma DigitRunPrefix(s: string, from: nat, end: nat)
    requires from <= end < |s|
    requires forall i :: from <= i < end ==> IsDigit(s[i])
    requires !IsDigit(s[end])
    ensures DigitRun(s, from) == end - from
    decreases end - from
  {
    if from < end {
      DigitRunPrefix(s, from + 1, end);
    }
  }
}
