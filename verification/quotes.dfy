/** The quote endpoints (app/api/stocks.py): one symbol's quote with its
    error mapping, the trending list gathered from seven fetches, and the
    fixed recommendations.  What the quote provider returns for a symbol is
    a parameter: the decoded payload, or the message of the exception the
    request or the decoding raised. */
module Quotes {
  import opened Text
  import opened PyJson
  import opened ViewRules

  /** The result of `fetch_stock_data(symbol)`. */
  datatype FetchOutcome = Fetched(data: Json) | FetchFailed(message: string)

  /** A quote reply: the quote object, a 500 with its detail, or a 404. */
  datatype QuoteReply = Quote(quote: Json) | ServerError(detail: string) | NotFound(detail: string)

  const QuoteKey: string := "Global Quote"

  /** `str()` of the 404 raised for a payload without a quote: the status
      code, a colon and the detail. */
  const NotFoundDetail: string := "404: Stock not found"

  // ---------------------------------------------------------------------------
  // GET /quote/{symbol}
  // ---------------------------------------------------------------------------

  /** `get_stock_quote`: the payload's "Global Quote" entry.  The 404 for a
      payload without one is raised inside the `try`, so the handler's
      `except Exception` turns it, like every other failure, into a 500
      whose detail is the exception's text. */
  function GetStockQuote(fetched: FetchOutcome): (r: QuoteReply)
    ensures r.Quote? <==> fetched.Fetched? && fetched.data.JDict? && QuoteKey in fetched.data.fields
    ensures r.Quote? ==> r.quote == fetched.data.fields[QuoteKey]
    ensures fetched.FetchFailed? ==> r == ServerError(fetched.message)
    ensures !r.NotFound?
  {
    match fetched
    case FetchFailed(message) => ServerError(message)
    case Fetched(data) =>
      match HasKey(data, QuoteKey)
      case Raised(message) => ServerError(message)
      case Value(present) =>
        if !present then ServerError(NotFoundDetail)
        else
          match Subscript(data, QuoteKey)
          case Raised(message) => ServerError(message)
          case Value(quote) => Quote(quote)
  }

  /** A dictionary without a quote gets a 500 whose detail still reads
      "404: Stock not found": the client never sees a 404. */
  lemma MissingQuoteIsServerError(fields: map<string, Json>)
    requires QuoteKey !in fields
    ensures GetStockQuote(Fetched(JDict(fields))) == ServerError(NotFoundDetail)
  {
  }

  /** The handler as its 404 evidently means it: a payload without a quote
      gets a 404 with the detail "Stock not found", and everything else is
      answered as before. */
  function GetStockQuoteIntended(fetched: FetchOutcome): (r: QuoteReply)
    ensures r.NotFound? <==> fetched.Fetched? && HasKey(fetched.data, QuoteKey) == Value(false)
    ensures r.NotFound? ==> r.detail == "Stock not found"
    ensures !r.NotFound? ==> r == GetStockQuote(fetched)
    ensures r.Quote? <==> GetStockQuote(fetched).Quote?
  {
    if fetched.Fetched? && HasKey(fetched.data, QuoteKey) == Value(false) then NotFound("Stock not found")
    else GetStockQuote(fetched)
  }

  /** The two handlers differ exactly on the payloads the membership test
      rejects: there the intended 404 is sent as a 500 whose detail is
      the 404's text. */
  lemma NotFoundBecomesServerError(fetched: FetchOutcome)
    ensures GetStockQuoteIntended(fetched) != GetStockQuote(fetched)
            <==> fetched.Fetched? && HasKey(fetched.data, QuoteKey) == Value(false)
    ensures fetched.Fetched? && HasKey(fetched.data, QuoteKey) == Value(false) ==>
      && GetStockQuote(fetched) == ServerError(NotFoundDetail)
      && GetStockQuoteIntended(fetched) == NotFound("Stock not found")
  {
  }

  /** Whatever else the payload holds, the quote put under "Global Quote"
      is the quote returned. */
  lemma QuoteIsReturnedAsIs(fields: map<string, Json>, quote: Json)
    ensures GetStockQuote(Fetched(JDict(fields[QuoteKey := quote]))) == Quote(quote)
  {
  }

  /** A payload that is a list or a string mentioning "Global Quote" gets
      past the membership test and fails at the lookup. */
  lemma ListPayloadFailsAtLookup(items: seq<Json>)
    requires JStr(QuoteKey) in items
    ensures GetStockQuote(Fetched(JList(items))) == ServerError("list indices must be integers or slices, not str")
  {
  }

  /** A payload of another type fails the membership test itself. */
  lemma ScalarPayloadFailsAtMembership(data: Json)
    requires !IsContainer(data)
    ensures GetStockQuote(Fetched(data)) == ServerError("argument of type '" + TypeName(data) + "' is not iterable")
  {
  }

  // ---------------------------------------------------------------------------
  // GET /trending
  // ---------------------------------------------------------------------------

  const TrendingSymbols: seq<string> := ["AAPL", "GOOGL", "MSFT", "AMZN", "NVDA", "META", "TSLA"]

  /** What one symbol adds to the list: its quote, or nothing. */
  function QuoteOf(symbol: string, provider: string -> FetchOutcome): (r: seq<Json>)
    ensures |r| <= 1
    ensures |r| == 1 <==> GetStockQuote(provider(symbol)).Quote?
    ensures |r| == 1 ==> r[0] == GetStockQuote(provider(symbol)).quote
  {
    var reply := GetStockQuote(provider(symbol));
    if reply.Quote? then [reply.quote] else []
  }

  /** The quotes of `symbols` that `GetStockQuote` would return, in order:
      a symbol whose fetch raises, whose payload lacks a quote, or whose
      lookup raises contributes nothing. */
  function QuotesOf(symbols: seq<string>, provider: string -> FetchOutcome): (r: seq<Json>)
    ensures |r| <= |symbols|
  {
    if |symbols| == 0 then [] else QuoteOf(symbols[0], provider) + QuotesOf(symbols[1..], provider)
  }

  /** Gathering is a filter that keeps the order: the quotes of a
      concatenation are the quotes of each part, in turn. */
  lemma {:induction false} QuotesOfAppend(a: seq<string>, b: seq<string>, provider: string -> FetchOutcome)
    ensures QuotesOf(a + b, provider) == QuotesOf(a, provider) + QuotesOf(b, provider)
    decreases |a|
  {
    if |a| == 0 {
      assert a + b == b;
    } else {
      var head := QuoteOf(a[0], provider);
      assert (a + b)[0] == a[0] && (a + b)[1..] == a[1..] + b;
      calc {
        QuotesOf(a + b, provider);
        head + QuotesOf(a[1..] + b, provider);
        { QuotesOfAppend(a[1..], b, provider); }
        head + (QuotesOf(a[1..], provider) + QuotesOf(b, provider));
        (head + QuotesOf(a[1..], provider)) + QuotesOf(b, provider);
        QuotesOf(a, provider) + QuotesOf(b, provider);
      }
    }
  }

  /** Every symbol is kept exactly when its quote is returned. */
  lemma {:induction false} QuotesOfAllOrNone(symbols: seq<string>, provider: string -> FetchOutcome)
    ensures (forall k :: 0 <= k < |symbols| ==> GetStockQuote(provider(symbols[k])).Quote?)
            ==> |QuotesOf(symbols, provider)| == |symbols|
    ensures (forall k :: 0 <= k < |symbols| ==> GetStockQuote(provider(symbols[k])).ServerError?)
            ==> QuotesOf(symbols, provider) == []
    decreases |symbols|
  {
    if |symbols| > 0 {
      QuotesOfAllOrNone(symbols[1..], provider);
      assert forall k :: 0 <= k < |symbols[1..]| ==> symbols[1..][k] == symbols[k + 1];
    }
  }

  /** Every quote gathered is the quote of one of the symbols: nothing is
      invented and nothing but a quote is kept. */
  lemma {:induction false} QuotesOfComeFromSymbols(symbols: seq<string>, provider: string -> FetchOutcome)
    ensures forall q :: q in QuotesOf(symbols, provider) ==>
      exists k :: 0 <= k < |symbols| && GetStockQuote(provider(symbols[k])) == Quote(q)
    decreases |symbols|
  {
    if |symbols| > 0 {
      QuotesOfComeFromSymbols(symbols[1..], provider);
      forall q | q in QuotesOf(symbols, provider)
        ensures exists k :: 0 <= k < |symbols| && GetStockQuote(provider(symbols[k])) == Quote(q)
      {
        var reply := GetStockQuote(provider(symbols[0]));
        if !(reply.Quote? && q == reply.quote) {
          assert q in QuotesOf(symbols[1..], provider);
          var k :| 0 <= k < |symbols[1..]| && GetStockQuote(provider(symbols[1..][k])) == Quote(q);
          assert symbols[1..][k] == symbols[k + 1];
        }
      }
    }
  }

  /** `get_trending_stocks`: each of the seven symbols in turn, the quote
      appended when the payload has one, any exception skipped. */
  method GetTrendingStocks(provider: string -> FetchOutcome) returns (results: seq<Json>)
    ensures results == QuotesOf(TrendingSymbols, provider)
    ensures |results| <= 7
  {
    results := [];
    var i := 0;
    while i < |TrendingSymbols|
      invariant 0 <= i <= |TrendingSymbols|
      invariant results == QuotesOf(TrendingSymbols[..i], provider)
    {
      var symbol := TrendingSymbols[i];
      var fetched := provider(symbol);
      if fetched.Fetched? {
        var present := HasKey(fetched.data, QuoteKey);
        if present == Value(true) {
          var quote := Subscript(fetched.data, QuoteKey);
          if quote.Value? {
            results := results + [quote.value];
          }
        }
      }
      assert results == QuotesOf(TrendingSymbols[..i], provider) + QuoteOf(symbol, provider);
      assert QuotesOf([symbol], provider) == QuoteOf(symbol, provider) by {
        assert [symbol][1..] == [];
      }
      QuotesOfAppend(TrendingSymbols[..i], [symbol], provider);
      assert TrendingSymbols[..i + 1] == TrendingSymbols[..i] + [symbol];
      i := i + 1;
    }
    assert TrendingSymbols[..i] == TrendingSymbols;
  }

  // ---------------------------------------------------------------------------
  // GET /recommendations
  // ---------------------------------------------------------------------------

  datatype Recommendation = Recommendation(symbol: string, reason: string, confidence: real)

  /** `get_recommendations`: the same three entries on every call. */
  function Recommendations(): (r: seq<Recommendation>)
    ensures |r| == 3
    ensures r[0].symbol == "AMD" && r[1].symbol == "PLTR" && r[2].symbol == "SOFI"
    ensures forall k :: 0 <= k < |r| ==> 0.0 <= r[k].confidence <= 1.0
    ensures forall i, j :: 0 <= i < j < |r| ==> r[i].confidence > r[j].confidence
  {
    [
      Recommendation("AMD", "Strong growth in AI and data center markets", 0.85),
      Recommendation("PLTR", "Expanding AI capabilities and government contracts", 0.78),
      Recommendation("SOFI", "Digital banking growth and expanding user base", 0.72)
    ]
  }

  /** The browser draws the first recommendation in the success colour
      and the other two in the primary colour. */
  lemma RecommendationsAsDrawn()
    ensures var r := Recommendations();
      && ConfidenceClassOf(r[0].confidence) == TextSuccess
      && ConfidenceClassOf(r[1].confidence) == TextPrimary
      && ConfidenceClassOf(r[2].confidence) == TextPrimary
  {
  }
}
