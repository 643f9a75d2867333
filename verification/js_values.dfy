/** JavaScript values as the browser code receives them from `response.json()`,
    and the conversions the view code applies to them: `String(v)`, truthiness,
    `Number(v)`, `parseFloat` and `parseInt`.

    A number is carried as the text `Number.prototype.toString` gives for it
    ("12.5", "1e-7", "NaN", "Infinity"), so every conversion that goes through
    a string is exact; its numeric value is `ParseFloat` of that text. */
module JsValues {
  import opened Common
  import opened Text
  import opened DecimalLiteral

  /** A number: NaN, a signed infinity, or a finite value (taken exactly). */
  datatype JsNumber = NaN | Infinity(negative: bool) | Finite(value: real)

  datatype JsValue =
    | Undefined
    | Null
    | Bool(b: bool)
    | Num(text: string)
    | Str(s: string)
    | Arr(items: seq<JsValue>)
    | Obj(fields: map<string, JsValue>)

  // ---------------------------------------------------------------------------
  // parseFloat
  // ---------------------------------------------------------------------------

  /** The string with JavaScript white space skipped at the front. */
  function SkipSpace(s: string): string {
    TrimStart(s, IsJsSpace)
  }

  /** `parseFloat` (section 19.2.4 of ECMA-262): skip leading white space, read
      the longest prefix in the StrDecimalLiteral syntax, NaN when there is none. */
  function ParseFloat(s: string): JsNumber {
    var lit := Scan(SkipSpace(s), true);
    match lit
    case NoLiteral => NaN
    case Infinite(_, negative) => Infinity(negative)
    case Decimal(_, _, _, _, _) => Finite(DecimalValue(lit))
  }

  /** `parseFloat` is NaN exactly when no non-empty prefix of the text after
      the white space is a numeric literal. */
  lemma {:induction false} ParseFloatNaN(s: string)
    ensures ParseFloat(s) == NaN <==> forall k :: 0 < k <= |SkipSpace(s)| ==> !IsLiteral(SkipSpace(s)[..k], true)
  {
    var t := SkipSpace(s);
    var lit := Scan(t, true);
    ScanIsLongestLiteral(t, true);
    assert lit.Length() > 0 ==> IsLiteral(t[..lit.Length()], true);
  }

  /** Text whose first character is neither white space nor one a literal
      can begin with reads as NaN. */
  lemma ParseFloatNonNumeric(s: string)
    requires |s| >= 1 && !IsJsSpace(s[0])
    requires !IsDigit(s[0]) && !IsSign(s[0]) && s[0] != '.' && s[0] != 'I'
    ensures ParseFloat(s) == NaN
  {
    assert SkipSpace(s) == s;
    ScanNeedsANumericHead(s, true);
  }

  lemma {:induction false} ParseFloatDigits(n: nat)
    ensures ParseFloat(NatToDigits(n)) == Finite(n as real)
  {
    var d := NatToDigits(n);
    assert !IsJsSpace(d[0]);
    assert SkipSpace(d) == d;
    ScanDigits(d, true);
    DecimalValueInteger(|d|, n);
  }

  /** A run of digits followed by anything that cannot continue a number
      parses as that run alone: `parseFloat("42%") == 42`. */
  lemma {:induction false} ParseFloatDigitsThen(n: nat, rest: string)
    requires |rest| >= 1 && !IsDigit(rest[0]) && rest[0] != '.' && rest[0] != 'e' && rest[0] != 'E'
    ensures ParseFloat(NatToDigits(n) + rest) == Finite(n as real)
  {
    var d := NatToDigits(n);
    assert (d + rest)[0] == d[0];
    assert !IsJsSpace(d[0]);
    assert SkipSpace(d + rest) == d + rest;
    ScanDigitsThen(d, rest, true);
    DecimalValueInteger(|d|, n);
  }

  // ---------------------------------------------------------------------------
  // parseInt
  // ---------------------------------------------------------------------------

  /** Value of `c` as a digit of the given radix (2, 8, 10 or 16), -1 if it is none. */
  function RadixDigit(c: char, radix: nat): (d: int)
    ensures d < radix
  {
    var v := if '0' <= c <= '9' then (c as int) - ('0' as int)
      else if 'a' <= c <= 'f' then (c as int) - ('a' as int) + 10
      else if 'A' <= c <= 'F' then (c as int) - ('A' as int) + 10
      else -1;
    if v < radix then v else -1
  }

  predicate AllRadixDigits(s: string, radix: nat) {
    forall i :: 0 <= i < |s| ==> RadixDigit(s[i], radix) >= 0
  }

  function RadixValue(s: string, radix: nat): nat
    requires AllRadixDigits(s, radix)
  {
    if |s| == 0 then 0
    else
      assert RadixDigit(s[|s| - 1], radix) >= 0;
      RadixValue(s[..|s| - 1], radix) * radix + RadixDigit(s[|s| - 1], radix)
  }

  /** Number of leading characters of `s` that are digits of `radix`. */
  function RadixRun(s: string, radix: nat): (n: nat)
    ensures n <= |s|
    ensures AllRadixDigits(s[..n], radix)
    ensures n == |s| || RadixDigit(s[n], radix) < 0
  {
    if |s| == 0 || RadixDigit(s[0], radix) < 0 then 0
    else
      var n := 1 + RadixRun(s[1..], radix);
      assert s[..n] == [s[0]] + s[1..][..n - 1];
      n
  }

  /** `parseInt(s)` with no radix (section 19.2.5 of ECMA-262): skip white
      space, take a sign, switch to base 16 after `0x`/`0X`, then read the
      longest run of digits; NaN (here `None`) when the run is empty. */
  function ParseInt(s: string): (r: Option<int>)
  {
    ParseSignedInt(SkipSpace(s))
  }

  /** The sign step of `parseInt`: an optional `+` or `-`, then the digits. */
  function ParseSignedInt(t: string): (r: Option<int>)
  {
    var negative := |t| > 0 && t[0] == '-';
    var u := if |t| > 0 && IsSign(t[0]) then t[1..] else t;
    match ParseUnsignedInt(u)
    case None => None
    case Some(magnitude) => Some(Signed(negative, magnitude))
  }

  function Signed(negative: bool, magnitude: nat): int {
    if negative then -(magnitude as int) else magnitude
  }

  predicate HasHexPrefix(u: string) {
    |u| >= 2 && u[0] == '0' && (u[1] == 'x' || u[1] == 'X')
  }

  /** The digit step of `parseInt`: base 16 after `0x`/`0X`, base 10
      otherwise, and the longest run of digits of that base. */
  function ParseUnsignedInt(u: string): (r: Option<nat>)
  {
    var hex := HasHexPrefix(u);
    var radix := if hex then 16 else 10;
    var digits := if hex then u[2..] else u;
    var n := RadixRun(digits, radix);
    if n == 0 then None else Some(RadixValue(digits[..n], radix))
  }

  lemma RadixTenIsDecimal(s: string)
    requires AllRadixDigits(s, 10)
    ensures AllDigits(s) && RadixValue(s, 10) == DigitsValue(s)
  {
    if |s| > 0 {
      RadixTenIsDecimal(s[..|s| - 1]);
    }
  }

  /** On text that is a plain decimal number (no exponent, no `0x`),
      `parseInt` is `parseFloat` truncated toward zero: "12.7" gives 12. */
  lemma {:induction false} ParseIntTruncatesParseFloat(intPart: string, fracPart: string)
    requires |intPart| >= 1 && AllDigits(intPart) && AllDigits(fracPart)
    ensures ParseFloat(intPart + "." + fracPart) == Finite(DigitsValue(intPart + fracPart) as real / Pow10(|fracPart|) as real)
    ensures ParseInt(intPart + "." + fracPart) == Some(DigitsValue(intPart))
    ensures DigitsValue(intPart) as real <= DigitsValue(intPart + fracPart) as real / Pow10(|fracPart|) as real < DigitsValue(intPart) as real + 1.0
  {
    ParseFloatPointDecimal(intPart, fracPart);
    ParseIntOfPointDecimal(intPart, fracPart);
    TruncationBounds(intPart, fracPart);
  }

  lemma ParseFloatPointDecimal(intPart: string, fracPart: string)
    requires |intPart| >= 1 && AllDigits(intPart) && AllDigits(fracPart)
    ensures ParseFloat(intPart + "." + fracPart) == Finite(DigitsValue(intPart + fracPart) as real / Pow10(|fracPart|) as real)
  {
    var s := intPart + "." + fracPart;
    assert s[0] == intPart[0];
    ScanPointDecimal(intPart, fracPart, true);
    ParseFloatUnsigned(s);
  }

  lemma TruncationBounds(intPart: string, fracPart: string)
    requires AllDigits(intPart) && AllDigits(fracPart)
    ensures AllDigits(intPart + fracPart)
    ensures DigitsValue(intPart) as real <= DigitsValue(intPart + fracPart) as real / Pow10(|fracPart|) as real < DigitsValue(intPart) as real + 1.0
  {
    DigitsValueAppend(intPart, fracPart);
    FractionBelowOne(fracPart);
    DivisionBounds(DigitsValue(intPart), DigitsValue(fracPart), Pow10(|fracPart|));
  }

  /** Text starting with a digit is read by `parseFloat` as `Scan` decodes it. */
  lemma ParseFloatUnsigned(s: string)
    requires |s| >= 1 && IsDigit(s[0]) && Scan(s, true).Decimal? && Scan(s, true).exponent == 0
    ensures ParseFloat(s) == Finite(Scan(s, true).mantissa as real / Pow10(Scan(s, true).fractionLength) as real)
  {
    assert !IsJsSpace(s[0]);
    assert LeadingCount(s, IsJsSpace) == 0;
    assert SkipSpace(s) == s;
    var lit := Scan(s, true);
    assert !lit.negative by {
      assert SignLength(s) == 0;
    }
    DecimalValueNoExponent(lit.length, lit.mantissa, lit.fractionLength);
  }

  lemma ParseIntOfPointDecimal(intPart: string, fracPart: string)
    requires |intPart| >= 1 && AllDigits(intPart)
    ensures ParseInt(intPart + "." + fracPart) == Some(DigitsValue(intPart))
  {
    var s := intPart + "." + fracPart;
    assert s[0] == intPart[0];
    if |intPart| >= 2 {
      assert s[1] == intPart[1];
    } else {
      assert s[1] == '.';
    }
    RadixRunStopsAtPoint(s, intPart, fracPart);
    assert s[..|intPart|] == intPart;
    RadixTenIsDecimal(intPart);
    ParseIntUnsignedDecimal(s);
  }

  /** Text that starts with a digit and not with `0x` reads as its leading digit run. */
  lemma ParseIntUnsignedDecimal(s: string)
    requires |s| >= 1 && IsDigit(s[0])
    requires !(|s| >= 2 && s[0] == '0' && (s[1] == 'x' || s[1] == 'X'))
    ensures RadixRun(s, 10) >= 1
    ensures ParseInt(s) == Some(RadixValue(s[..RadixRun(s, 10)], 10))
  {
    assert !IsJsSpace(s[0]);
    assert LeadingCount(s, IsJsSpace) == 0;
    assert SkipSpace(s) == s;
    assert !IsSign(s[0]);
    assert RadixDigit(s[0], 10) >= 0;
  }

  lemma RadixRunStopsAtPoint(s: string, intPart: string, fracPart: string)
    requires |intPart| >= 1 && AllDigits(intPart) && s == intPart + "." + fracPart
    ensures RadixRun(s, 10) == |intPart|
    decreases |intPart|
  {
    if |intPart| > 1 {
      assert s[1..] == intPart[1..] + "." + fracPart;
      RadixRunStopsAtPoint(s[1..], intPart[1..], fracPart);
    } else {
      assert s[1..][0] == '.';
    }
  }

  /** White space in front of text that does not begin with white space is
      exactly what `SkipSpace` removes. */
  lemma SkipLeadingSpace(ws: string, t: string)
    requires forall i :: 0 <= i < |ws| ==> IsJsSpace(ws[i])
    requires |t| >= 1 && !IsJsSpace(t[0])
    ensures SkipSpace(ws + t) == t
  {
    var s := ws + t;
    var n := LeadingCount(s, IsJsSpace);
    assert s[|ws|] == t[0];
    assert n == |ws|;
    assert s[n..] == t;
  }

  /** The digits' value, negated after a minus sign. */
  function SignedDigits(sign: string, d: string): int
    requires AllDigits(d)
  {
    Signed(sign == "-", DigitsValue(d))
  }

  /** `parseInt` of optional white space, an optional sign, decimal digits
      and anything that does not continue them: the signed value of the
      digits.  Only "0x" or "0X" right after the sign switches to base 16. */
  lemma ParseIntOfDecimalText(ws: string, sign: string, d: string, rest: string)
    requires forall i :: 0 <= i < |ws| ==> IsJsSpace(ws[i])
    requires sign == "" || sign == "+" || sign == "-"
    requires |d| >= 1 && AllDigits(d)
    requires |rest| == 0 || !IsDigit(rest[0])
    requires !(d == "0" && |rest| >= 1 && (rest[0] == 'x' || rest[0] == 'X'))
    ensures ParseInt(ws + sign + d + rest) == Some(SignedDigits(sign, d))
  {
    var t := sign + d + rest;
    assert ws + sign + d + rest == ws + t;
    assert t[0] == if sign == "" then d[0] else sign[0];
    ParseSignedDigits(sign, d, rest);
    ParseIntSkipsSpace(ws, t);
  }

  /** The sign step of `ParseIntOfDecimalText`, before white space. */
  lemma ParseSignedDigits(sign: string, d: string, rest: string)
    requires sign == "" || sign == "+" || sign == "-"
    requires |d| >= 1 && AllDigits(d)
    requires |rest| == 0 || !IsDigit(rest[0])
    requires !(d == "0" && |rest| >= 1 && (rest[0] == 'x' || rest[0] == 'X'))
    ensures ParseSignedInt(sign + d + rest) == Some(SignedDigits(sign, d))
  {
    var u := d + rest;
    assert sign + d + rest == sign + u;
    assert u[0] == d[0];
    ParseUnsignedDigits(d, rest);
    if sign != "" {
      ParseIntSigned(sign, u, DigitsValue(d));
    } else {
      assert sign + u == u && !IsSign(u[0]);
    }
  }

  /** Leading white space does not change what `parseInt` reads. */
  lemma ParseIntSkipsSpace(ws: string, t: string)
    requires forall i :: 0 <= i < |ws| ==> IsJsSpace(ws[i])
    requires |t| >= 1 && !IsJsSpace(t[0])
    ensures ParseInt(ws + t) == ParseSignedInt(t) == ParseInt(t)
  {
    SkipLeadingSpace(ws, t);
    SkipLeadingSpace("", t);
    assert "" + t == t;
  }

  /** A sign in front of the digits keeps or negates what they read as. */
  lemma ParseIntSigned(sign: string, u: string, magnitude: nat)
    requires sign == "+" || sign == "-"
    requires ParseUnsignedInt(u) == Some(magnitude)
    ensures ParseSignedInt(sign + u) == Some(Signed(sign == "-", magnitude))
  {
    var t := sign + u;
    assert t[0] == sign[0] && t[1..] == u;
  }

  /** Decimal digits ended by the end of the text or a non-digit, with no
      "0x" prefix: the digit step gives the digits' value. */
  lemma ParseUnsignedDigits(d: string, rest: string)
    requires |d| >= 1 && AllDigits(d)
    requires |rest| == 0 || !IsDigit(rest[0])
    requires !(d == "0" && |rest| >= 1 && (rest[0] == 'x' || rest[0] == 'X'))
    ensures ParseUnsignedInt(d + rest) == Some(DigitsValue(d))
  {
    var u := d + rest;
    NoHexPrefix(d, rest);
    assert |rest| == 0 || RadixDigit(rest[0], 10) < 0;
    RadixRunOfDigits(d, rest);
    assert u[..|d|] == d;
    RadixTenIsDecimal(d);
  }

  lemma NoHexPrefix(d: string, rest: string)
    requires |d| >= 1 && AllDigits(d)
    requires !(d == "0" && |rest| >= 1 && (rest[0] == 'x' || rest[0] == 'X'))
    ensures !HasHexPrefix(d + rest)
  {
    var u := d + rest;
    assert u[0] == d[0];
    if |u| >= 2 && u[0] == '0' {
      if |d| >= 2 {
        assert u[1] == d[1] && IsDigit(d[1]);
      } else {
        assert d == "0" && u[1] == rest[0];
      }
    }
  }

  lemma FractionBelowOne(f: string)
    requires AllDigits(f)
    ensures DigitsValue(f) < Pow10(|f|)
  {
    if |f| > 0 {
      var init := f[..|f| - 1];
      FractionBelowOne(init);
      assert DigitsValue(init) + 1 <= Pow10(|init|);
      assert DigitsValue(f) == DigitsValue(init) * 10 + DigitValue(f[|f| - 1]);
      assert DigitsValue(init) * 10 + 10 <= Pow10(|init|) * 10;
    }
  }

  lemma DivisionBounds(i: nat, f: nat, p: nat)
    requires 1 <= p && f < p
    ensures i as real <= (i * p + f) as real / p as real < i as real + 1.0
  {
    var q := (i * p + f) as real / p as real;
    assert (i * p + f) as real == i as real * p as real + f as real;
    assert q == i as real + f as real / p as real;
    assert 0.0 <= f as real / p as real < 1.0;
  }

  lemma {:induction false} ParseIntDigitsThen(n: nat, rest: string)
    requires |rest| >= 1 && RadixDigit(rest[0], 10) < 0 && rest[0] != 'x' && rest[0] != 'X'
    ensures ParseInt(NatToDigits(n) + rest) == Some(n)
  {
    var d := NatToDigits(n);
    var s := d + rest;
    assert s[0] == d[0];
    if |d| >= 2 {
      assert s[1] == d[1];
      assert IsDigit(d[1]);
    } else {
      assert s[1] == rest[0];
    }
    RadixRunOfDigits(d, rest);
    assert s[..|d|] == d;
    RadixTenIsDecimal(d);
    assert IsDigit(s[0]);
    ParseIntUnsignedDecimal(s);
  }

  /** A run of decimal digits ended by the end of the text or by a
      character that is no decimal digit is the whole radix-10 run. */
  lemma {:induction false} RadixRunOfDigits(d: string, rest: string)
    requires AllDigits(d)
    requires |rest| == 0 || RadixDigit(rest[0], 10) < 0
    ensures RadixRun(d + rest, 10) == |d|
    decreases |d|
  {
    var s := d + rest;
    if |d| > 0 {
      assert s[0] == d[0] && RadixDigit(s[0], 10) >= 0;
      assert s[1..] == d[1..] + rest;
      RadixRunOfDigits(d[1..], rest);
    } else {
      assert s == rest;
    }
  }

  // ---------------------------------------------------------------------------
  // Number(v): the conversion behind `<`, `>=` and friends
  // ---------------------------------------------------------------------------

  /** `0x`/`0o`/`0b` integer syntax: the radix it selects, 0 when absent. */
  function NonDecimalRadix(t: string): nat {
    if |t| >= 3 && t[0] == '0' then
      if t[1] == 'x' || t[1] == 'X' then 16
      else if t[1] == 'o' || t[1] == 'O' then 8
      else if t[1] == 'b' || t[1] == 'B' then 2
      else 0
    else 0
  }

  /** StringToNumber (section 7.1.4.1.1 of ECMA-262): the WHOLE trimmed string
      must be a numeric literal; an empty or blank string is 0. */
  function StringToNumber(s: string): (r: JsNumber)
    ensures Trim(s, IsJsSpace) == "" ==> r == Finite(0.0)
  {
    var t := Trim(s, IsJsSpace);
    var radix := NonDecimalRadix(t);
    if t == "" then Finite(0.0)
    else if radix != 0 then
      (if AllRadixDigits(t[2..], radix) then Finite(RadixValue(t[2..], radix) as real) else NaN)
    else
      var lit := Scan(t, true);
      if lit.Length() != |t| then NaN
      else match lit
        case NoLiteral => NaN
        case Infinite(_, negative) => Infinity(negative)
        case Decimal(_, _, _, _, _) => Finite(DecimalValue(lit))
  }

  /** Array elements joined by commas, `null` and `undefined` as empty text. */
  function ToJsString(v: JsValue): string
    decreases v
  {
    match v
    case Undefined => "undefined"
    case Null => "null"
    case Bool(b) => if b then "true" else "false"
    case Num(text) => text
    case Str(s) => s
    case Arr(items) =>
      JoinWithCommas(seq(|items|, i requires 0 <= i < |items| =>
        if items[i].Undefined? || items[i].Null? then "" else ToJsString(items[i])))
    case Obj(_) => "[object Object]"
  }

  function JoinWithCommas(parts: seq<string>): string {
    if |parts| == 0 then ""
    else if |parts| == 1 then parts[0]
    else parts[0] + "," + JoinWithCommas(parts[1..])
  }

  /** `Number(v)` (section 7.1.4 of ECMA-262). */
  function ToNumber(v: JsValue): (r: JsNumber)
    ensures v.Undefined? ==> r == NaN
    ensures v.Null? ==> r == Finite(0.0)
    ensures v.Num? ==> r == ParseFloat(v.text)
    ensures v.Obj? ==> r == NaN
  {
    match v
    case Undefined => NaN
    case Null => Finite(0.0)
    case Bool(b) => Finite(if b then 1.0 else 0.0)
    case Num(text) => ParseFloat(text)
    case Str(s) => StringToNumber(s)
    case Arr(_) => StringToNumber(ToJsString(v))
    case Obj(_) =>
      assert StringToNumber("[object Object]") == NaN by {
        assert Trim("[object Object]", IsJsSpace) == "[object Object]" by {
          assert !IsJsSpace('[') && !IsJsSpace(']');
        }
      }
      StringToNumber(ToJsString(v))
  }

  /** ToBoolean (section 7.1.2 of ECMA-262): what `!v` and `v || d` test. */
  predicate Truthy(v: JsValue) {
    match v
    case Undefined => false
    case Null => false
    case Bool(b) => b
    case Num(text) => ParseFloat(text) != NaN && ParseFloat(text) != Finite(0.0)
    case Str(s) => s != ""
    case Arr(_) => true
    case Obj(_) => true
  }

  /** `x >= 0` once `x` is a number: false for NaN. */
  predicate AtLeastZero(n: JsNumber) {
    match n
    case NaN => false
    case Infinity(negative) => !negative
    case Finite(x) => x >= 0.0
  }

  /** `x > 0` once `x` is a number: false for NaN. */
  predicate AboveZero(n: JsNumber) {
    match n
    case NaN => false
    case Infinity(negative) => !negative
    case Finite(x) => x > 0.0
  }
}
