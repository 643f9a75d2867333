/** The stock-details view (app/static/js/main.js): the tolerant parsers
    `safeParseFloat` / `safeParseInt` and the figures the view derives from a
    quote payload with them. */
module SafeParse {
  import opened Common
  import opened Text
  import opened DecimalLiteral
  import opened JsValues

  /** The three strings the parsers treat like a missing value. */
  predicate IsSentinel(v: JsValue) {
    v == Str("NaN") || v == Str("null") || v == Str("undefined")
  }

  /** `safeParseFloat`: 0 for a falsy value or a sentinel string; otherwise the
      first `%` is dropped from the value's text, `parseFloat` reads it, and a
      NaN outcome becomes 0. It has no path that throws. */
  function SafeParseFloat(v: JsValue): (r: JsNumber)
    ensures r != NaN
    ensures !Truthy(v) || IsSentinel(v) ==> r == Finite(0.0)
    ensures Truthy(v) && !IsSentinel(v) && r != Finite(0.0) ==> r == ParseFloat(RemoveFirst(ToJsString(v), '%'))
    ensures Truthy(v) && !IsSentinel(v) && ParseFloat(RemoveFirst(ToJsString(v), '%')) != NaN
      ==> r == ParseFloat(RemoveFirst(ToJsString(v), '%'))
  {
    if !Truthy(v) || IsSentinel(v) then Finite(0.0)
    else
      var parsed := ParseFloat(RemoveFirst(ToJsString(v), '%'));
      if parsed == NaN then Finite(0.0) else parsed
  }

  /** `safeParseInt`: the same sentinel handling, no `%` stripping, and the
      leading integer of the value's text (0 when no digits lead). */
  function SafeParseInt(v: JsValue): (r: int)
    ensures !Truthy(v) || IsSentinel(v) ==> r == 0
    ensures Truthy(v) && !IsSentinel(v) && ParseInt(ToJsString(v)).None? ==> r == 0
    ensures r != 0 ==> ParseInt(ToJsString(v)) == Some(r)
    ensures Truthy(v) && !IsSentinel(v) && ParseInt(ToJsString(v)).Some? ==> r == ParseInt(ToJsString(v)).value
  {
    if !Truthy(v) || IsSentinel(v) then 0
    else ParseInt(ToJsString(v)).GetOr(0)
  }

  /** Some non-empty prefix of the text after its leading white space is a
      numeric literal: what `parseFloat` needs to give a number. */
  predicate LeadsWithLiteral(t: string) {
    exists k :: 0 < k <= |SkipSpace(t)| && IsLiteral(SkipSpace(t)[..k], true)
  }

  /** `safeParseFloat` of any string, stated through the literal syntax: 0
      unless the string is non-empty, not a sentinel, and a numeric literal
      leads its text once the first `%` is dropped. */
  lemma {:induction false} SafeParseFloatOfText(s: string)
    ensures SafeParseFloat(Str(s))
      == if s == "" || IsSentinel(Str(s)) || !LeadsWithLiteral(RemoveFirst(s, '%')) then Finite(0.0)
         else ParseFloat(RemoveFirst(s, '%'))
  {
    ParseFloatNaN(RemoveFirst(s, '%'));
  }

  /** None of the sentinel strings holds a digit. */
  lemma SentinelHasNoDigit(t: string, i: nat)
    requires IsSentinel(Str(t)) && i < |t|
    ensures !IsDigit(t[i])
  {
  }

  /** `safeParseInt` of white space, an optional sign and decimal digits
      followed by anything that does not continue them is the signed value of
      the digits, "0x" aside: "  -42 shares" gives -42. */
  lemma {:induction false} SafeParseIntOfDecimalText(ws: string, sign: string, d: string, rest: string)
    requires forall i :: 0 <= i < |ws| ==> IsJsSpace(ws[i])
    requires sign == "" || sign == "+" || sign == "-"
    requires |d| >= 1 && AllDigits(d)
    requires |rest| == 0 || !IsDigit(rest[0])
    requires !(d == "0" && |rest| >= 1 && (rest[0] == 'x' || rest[0] == 'X'))
    ensures SafeParseInt(Str(ws + sign + d + rest)) == SignedDigits(sign, d)
  {
    var s := ws + sign + d + rest;
    var k := |ws| + |sign|;
    assert s[k] == d[0] && IsDigit(s[k]);
    if IsSentinel(Str(s)) {
      SentinelHasNoDigit(s, k);
      assert false;
    }
    ParseIntOfDecimalText(ws, sign, d, rest);
  }

  /** A percentage as the quote provider writes it, "42%", reads as 42. */
  lemma {:induction false} SafeParseFloatPercent(n: nat)
    ensures SafeParseFloat(Str(NatToDigits(n) + "%")) == Finite(n as real)
  {
    var d := NatToDigits(n);
    var s := d + "%";
    assert s[0] == d[0];
    assert !IsSentinel(Str(s)) && Truthy(Str(s)) by {
      assert IsDigit(s[0]);
    }
    RemovePercentSuffix(d);
    ParseFloatDigits(n);
  }

  /** A decimal percentage, "1.25%", reads as its exact value. */
  lemma {:induction false} SafeParseFloatDecimalPercent(intPart: string, fracPart: string)
    requires |intPart| >= 1 && AllDigits(intPart) && AllDigits(fracPart)
    ensures AllDigits(intPart + fracPart)
    ensures SafeParseFloat(Str(intPart + "." + fracPart + "%"))
      == Finite(DigitsValue(intPart + fracPart) as real / Pow10(|fracPart|) as real)
  {
    var d := intPart + "." + fracPart;
    var s := d + "%";
    assert s[0] == intPart[0];
    assert !IsSentinel(Str(s)) && Truthy(Str(s)) by {
      assert IsDigit(s[0]);
    }
    assert '%' !in d by {
      forall i | 0 <= i < |d| ensures d[i] != '%' {
        if i < |intPart| {
          assert d[i] == intPart[i];
        } else if i > |intPart| {
          assert d[i] == fracPart[i - |intPart| - 1];
        }
      }
    }
    assert RemoveFirst(s, '%') == d by {
      assert IndexOf(s, '%') == |d| by {
        assert s[|d|] == '%';
        assert s[..|d|] == d;
        IndexOfFirst(s, '%', |d|);
      }
      assert s[..|d|] == d;
      assert s[|d| + 1..] == "";
    }
    ParseFloatPointDecimal(intPart, fracPart);
    TruncationBounds(intPart, fracPart);
  }

  lemma RemovePercentSuffix(d: string)
    requires AllDigits(d)
    ensures RemoveFirst(d + "%", '%') == d
  {
    var s := d + "%";
    assert '%' !in d by {
      forall i | 0 <= i < |d| ensures d[i] != '%' {
        assert IsDigit(d[i]);
      }
    }
    assert s[|d|] == '%';
    assert s[..|d|] == d;
    IndexOfFirst(s, '%', |d|);
    assert s[|d| + 1..] == "";
  }

  /** The first occurrence is where `IndexOf` stops. */
  lemma IndexOfFirst(s: string, c: char, k: nat)
    requires k < |s| && s[k] == c && c !in s[..k]
    ensures IndexOf(s, c) == k
  {
    var j := IndexOf(s, c);
    assert c in s;
    forall i | 0 <= i < j ensures s[i] != c {
      assert s[i] == s[..j][i];
    }
    forall i | 0 <= i < k ensures s[i] != c {
      assert s[i] == s[..k][i];
    }
  }

  /** A number's own text reads back as that number: no `%` to drop, and
      only 0 and NaN are falsy. */
  lemma {:induction false} SafeParseFloatOfNumber(text: string)
    requires '%' !in text && !IsSentinel(Num(text))
    ensures ParseFloat(text) == NaN ==> SafeParseFloat(Num(text)) == Finite(0.0)
    ensures ParseFloat(text) != NaN ==> SafeParseFloat(Num(text)) == ParseFloat(text)
  {
  }

  /** `safeParseInt` keeps the integer part of a decimal text: "12.7" gives 12,
      the integer `safeParseFloat` truncates to. */
  lemma {:induction false} SafeParseIntTruncates(intPart: string, fracPart: string)
    requires |intPart| >= 1 && AllDigits(intPart) && AllDigits(fracPart)
    ensures AllDigits(intPart + fracPart)
    ensures SafeParseInt(Str(intPart + "." + fracPart)) == DigitsValue(intPart)
    ensures DigitsValue(intPart) as real <= DigitsValue(intPart + fracPart) as real / Pow10(|fracPart|) as real < DigitsValue(intPart) as real + 1.0
  {
    var s := intPart + "." + fracPart;
    assert s[0] == intPart[0];
    assert !IsSentinel(Str(s)) && Truthy(Str(s)) by {
      assert IsDigit(s[0]);
    }
    ParseIntOfPointDecimal(intPart, fracPart);
    TruncationBounds(intPart, fracPart);
  }

  /** "12.7" gives 12. */
  lemma SafeParseIntExample()
    ensures SafeParseInt(Str("12.7")) == 12
  {
    TwelveDigits();
    SafeParseIntTruncates("12", "7");
  }

  lemma TwelveDigits()
    ensures AllDigits("12") && AllDigits("7") && DigitsValue("12") == 12
    ensures "12" + "." + "7" == "12.7"
  {
    assert DigitsValue("1") == 1 by {
      assert "1"[..0] == "";
    }
    assert "12"[..1] == "1";
  }

  // ---------------------------------------------------------------------------
  // The figures shown for a quote (main.js:760-781)
  // ---------------------------------------------------------------------------

  /** `data[key]`: a missing property, or a property of a non-object, reads
      as `undefined`. */
  function Field(data: JsValue, key: string): (r: JsValue)
    ensures data.Obj? && key in data.fields ==> r == data.fields[key]
    ensures !data.Obj? || key !in data.fields ==> r == Undefined
  {
    if data.Obj? && key in data.fields then data.fields[key] else Undefined
  }

  datatype QuoteFigures = QuoteFigures(
    price: JsNumber,
    changePercent: JsNumber,
    open: JsNumber,
    previousClose: JsNumber,
    volume: int,
    tradingDay: JsValue,
    up: bool)

  /** What the details view extracts from the decoded quote payload; `None`
      when `data` is `null` or `undefined`, where reading a property throws
      and the view shows its error line instead. */
  function Figures(data: JsValue): (r: Option<QuoteFigures>)
    ensures r.None? <==> data.Null? || data.Undefined?
    ensures r.Some? ==> r.value.price != NaN && r.value.changePercent != NaN
    ensures r.Some? ==> r.value.up == AtLeastZero(r.value.changePercent)
    ensures r.Some? ==> Truthy(r.value.tradingDay) || r.value.tradingDay == Str("Not available")
    ensures r.Some? && !data.Obj? ==> r.value.price == Finite(0.0) && r.value.volume == 0
    ensures r.Some? ==> r.value.price == SafeParseFloat(Field(data, "05. price"))
    ensures r.Some? ==> r.value.open == SafeParseFloat(Field(data, "02. open"))
    ensures r.Some? ==> r.value.previousClose == SafeParseFloat(Field(data, "08. previous close"))
    ensures r.Some? ==> r.value.volume == SafeParseInt(Field(data, "06. volume"))
    ensures r.Some? ==> r.value.changePercent == SafeParseFloat(Field(data, "10. change percent"))
    ensures r.Some? ==> var day := Field(data, "07. latest trading day");
      r.value.tradingDay == (if Truthy(day) then day else Str("Not available"))
  {
    if data.Null? || data.Undefined? then None
    else
      var changePercent := SafeParseFloat(Field(data, "10. change percent"));
      var day := Field(data, "07. latest trading day");
      Some(QuoteFigures(
        SafeParseFloat(Field(data, "05. price")),
        changePercent,
        SafeParseFloat(Field(data, "02. open")),
        SafeParseFloat(Field(data, "08. previous close")),
        SafeParseInt(Field(data, "06. volume")),
        if Truthy(day) then day else Str("Not available"),
        AtLeastZero(changePercent)))
  }

  /** The error body FastAPI sends for a failed quote has none of the quote's
      keys: every figure is 0 and the change counts as "up". */
  lemma ErrorBodyShowsZeros(detail: string)
    ensures var r := Figures(Obj(map["detail" := Str(detail)]));
      && r.Some? && r.value.price == Finite(0.0) && r.value.changePercent == Finite(0.0)
      && r.value.volume == 0 && r.value.up && r.value.tradingDay == Str("Not available")
  {
    var data := Obj(map["detail" := Str(detail)]);
    assert Field(data, "05. price") == Undefined;
    assert Field(data, "10. change percent") == Undefined;
    assert Field(data, "06. volume") == Undefined;
    assert Field(data, "07. latest trading day") == Undefined;
  }
}
