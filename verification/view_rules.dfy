/** Small rules the browser code applies when drawing: the up/down direction
    of a change, the colour class of a recommendation's confidence, and the
    31-point placeholder price chart (app/static/js/main.js). */
module ViewRules {
  import opened Text
  import opened DecimalLiteral
  import opened JsValues
  import opened SafeParse

  // ---------------------------------------------------------------------------
  // Direction
  // ---------------------------------------------------------------------------

  /** main.js:139 — an index component is "positive" when `change >= 0`. */
  predicate ComponentPositive(change: JsValue) {
    AtLeastZero(ToNumber(change))
  }

  /** main.js:548 — an index card is "positive" when `change > 0`. */
  predicate IndexPositive(change: JsValue) {
    AboveZero(ToNumber(change))
  }

  /** The two tests agree on every value but zero (and values that convert
      to zero, such as `null`, `""` and `false`), which the table calls
      positive and the cards negative. */
  lemma {:induction false} DirectionsDisagreeOnlyAtZero(change: JsValue)
    ensures ComponentPositive(change) != IndexPositive(change) <==> ToNumber(change) == Finite(0.0)
    ensures ToNumber(change) == Finite(0.0) ==> ComponentPositive(change) && !IndexPositive(change)
    ensures ToNumber(change) == NaN ==> !ComponentPositive(change) && !IndexPositive(change)
  {
    match ToNumber(change)
    case NaN =>
    case Infinity(_) =>
    case Finite(x) =>
  }

  /** A missing change reads as NaN and is drawn as a fall by both tests;
      `null` reads as 0. */
  lemma MissingChangeDirections()
    ensures !ComponentPositive(Undefined) && !IndexPositive(Undefined)
    ensures ComponentPositive(Null) && !IndexPositive(Null)
  {
  }

  // ---------------------------------------------------------------------------
  // Confidence buckets (main.js:702-705)
  // ---------------------------------------------------------------------------

  /** `x.toFixed(0)` read back as a number: the nearest integer, a tie going
      away from zero. */
  function RoundHalfAway(x: real): (n: int)
    ensures x >= 0.0 ==> (n as real) - 0.5 <= x < (n as real) + 0.5
    ensures x < 0.0 ==> (n as real) - 0.5 < x <= (n as real) + 0.5
  {
    if x >= 0.0 then (x + 0.5).Floor else -((-x + 0.5).Floor)
  }

  datatype ConfidenceClass = TextSuccess | TextPrimary | TextWarning

  /** The class of a confidence: the rounded percentage compared with 80,
      then with 60. */
  function ConfidenceClassOf(confidence: real): (c: ConfidenceClass)
    ensures c == TextSuccess <==> confidence * 100.0 >= 80.5
    ensures c == TextPrimary <==> 60.5 <= confidence * 100.0 < 80.5
    ensures c == TextWarning <==> confidence * 100.0 < 60.5
  {
    var percent := RoundHalfAway(confidence * 100.0);
    if percent > 80 then TextSuccess
    else if percent > 60 then TextPrimary
    else TextWarning
  }

  function ClassRank(c: ConfidenceClass): nat {
    match c
    case TextWarning => 0
    case TextPrimary => 1
    case TextSuccess => 2
  }

  /** More confidence never gets a weaker class. */
  lemma ConfidenceMonotone(a: real, b: real)
    requires a <= b
    ensures ClassRank(ConfidenceClassOf(a)) <= ClassRank(ConfidenceClassOf(b))
  {
  }

  // ---------------------------------------------------------------------------
  // The placeholder chart (main.js:847-860)
  // ---------------------------------------------------------------------------

  /** `price * factor` for a positive factor. */
  function Scale(price: JsNumber, factor: real): (r: JsNumber)
    requires factor > 0.0
    ensures price.NaN? <==> r.NaN?
    ensures price.Infinity? ==> r == price
    ensures price.Finite? ==> r == Finite(price.value * factor)
  {
    match price
    case NaN => NaN
    case Infinity(negative) => Infinity(negative)
    case Finite(p) => Finite(p * factor)
  }

  /** `Math.random()` results are in [0, 1). */
  predicate ValidDraws(draws: seq<real>) {
    forall k :: 0 <= k < |draws| ==> 0.0 <= draws[k] < 1.0
  }

  /** The price the chart is drawn around: `parseFloat` of the quote's price
      field, with no fallback. */
  function ChartPrice(data: JsValue): JsNumber {
    ParseFloat(ToJsString(Field(data, "05. price")))
  }

  /** A missing price gives a chart of NaN points. */
  lemma MissingPriceIsNaN()
    ensures ChartPrice(Obj(map[])) == NaN
  {
    var text := ToJsString(Field(Obj(map[]), "05. price"));
    assert text == "undefined";
    ParseFloatNonNumeric(text);
  }

  /** A chart point for `price`: NaN exactly when the price is, finite when
      it is, and within 5% below to 5% above a non-negative price. */
  predicate NearPrice(price: JsNumber, point: JsNumber) {
    && (point.NaN? <==> price.NaN?)
    && (price.Finite? ==> point.Finite?)
    && (price.Finite? && point.Finite? && price.value >= 0.0 ==>
          price.value * 0.95 <= point.value <= price.value * 1.05)
  }

  /** The chart's points: for `i` from 30 down to 0, the day `i` days before
      today and the price times a factor in [0.95, 1.05) built from the next
      random draw. */
  method ChartPoints(price: JsNumber, draws: seq<real>) returns (daysBack: seq<int>, prices: seq<JsNumber>)
    requires |draws| == 31 && ValidDraws(draws)
    ensures |daysBack| == 31 && |prices| == 31
    ensures forall k :: 0 <= k < 31 ==> daysBack[k] == 30 - k
    ensures forall k :: 0 <= k < 31 ==> NearPrice(price, prices[k])
  {
    daysBack := [];
    prices := [];
    var i := 30;
    while i >= 0
      invariant -1 <= i <= 30
      invariant |daysBack| == |prices| == 30 - i
      invariant forall k :: 0 <= k < |daysBack| ==> daysBack[k] == 30 - k
      invariant forall k :: 0 <= k < |prices| ==> NearPrice(price, prices[k])
    {
      var draw := draws[30 - i];
      ScaledPointIsNear(price, draw);
      daysBack := daysBack + [i];
      prices := prices + [Scale(price, 0.95 + draw * 0.1)];
      i := i - 1;
    }
  }

  lemma ScaledPointIsNear(price: JsNumber, draw: real)
    requires 0.0 <= draw < 1.0
    ensures 0.95 + draw * 0.1 > 0.0
    ensures NearPrice(price, Scale(price, 0.95 + draw * 0.1))
  {
    var factor := 0.95 + draw * 0.1;
    assert 0.95 <= factor <= 1.05;
    if price.Finite? && price.value >= 0.0 {
      var p := price.value;
      var point := Scale(price, factor);
      FactorBand(p, factor);
      assert point == Finite(p * factor);
      assert p * 0.95 <= point.value <= p * 1.05;
    }
  }

  lemma FactorBand(p: real, f: real)
    requires p >= 0.0 && 0.95 <= f <= 1.05
    ensures p * 0.95 <= p * f <= p * 1.05
  {
    assert p * (f - 0.95) >= 0.0;
    assert p * (1.05 - f) >= 0.0;
  }
}
