/** The generated sample of an index's component stocks
    (app/api/index_stocks.py:69-223): the fixed company lists, the eleven
    sectors, and one record per company built from random draws.  The draws
    are parameters; prices and changes are whole cents, as `round(x, 2)`
    leaves them. */
module IndexSample {
  import opened Common
  import opened Text
  import opened PyNumbers

  datatype Company = Company(symbol: string, name: string)

  /** One component record as the sample file holds it.  Money fields are
      in hundredths (cents); `changePercent` is text such as "-1.25%". */
  datatype Stock = Stock(
    symbol: string,
    name: string,
    priceCents: int,
    changeCents: int,
    changePercent: string,
    volume: int,
    marketCapHundredths: int,
    sector: string)

  const Sectors: seq<string> := [
    "Technology", "Healthcare", "Financials", "Consumer Discretionary",
    "Communication Services", "Industrials", "Consumer Staples",
    "Energy", "Utilities", "Materials", "Real Estate"
  ]

  const SP500Companies: seq<Company> := [
    Company("AAPL", "Apple Inc."),
    Company("MSFT", "Microsoft Corporation"),
    Company("AMZN", "Amazon.com Inc."),
    Company("NVDA", "NVIDIA Corporation"),
    Company("GOOGL", "Alphabet Inc."),
    Company("META", "Meta Platforms Inc."),
    Company("TSLA", "Tesla, Inc."),
    Company("BRK.B", "Berkshire Hathaway Inc."),
    Company("UNH", "UnitedHealth Group Inc."),
    Company("JNJ", "Johnson & Johnson"),
    Company("JPM", "JPMorgan Chase & Co."),
    Company("V", "Visa Inc."),
    Company("PG", "Procter & Gamble Co."),
    Company("MA", "Mastercard Inc."),
    Company("HD", "Home Depot Inc."),
    Company("CVX", "Chevron Corporation"),
    Company("MRK", "Merck & Co. Inc."),
    Company("ABBV", "AbbVie Inc."),
    Company("PEP", "PepsiCo Inc."),
    Company("KO", "Coca-Cola Company"),
    Company("AVGO", "Broadcom Inc."),
    Company("COST", "Costco Wholesale Corp."),
    Company("TMO", "Thermo Fisher Scientific"),
    Company("BAC", "Bank of America Corp."),
    Company("LLY", "Eli Lilly and Company")
  ]

  const DowCompanies: seq<Company> := [
    Company("AAPL", "Apple Inc."),
    Company("AMGN", "Amgen Inc."),
    Company("AXP", "American Express Co."),
    Company("BA", "Boeing Co."),
    Company("CAT", "Caterpillar Inc."),
    Company("CRM", "Salesforce Inc."),
    Company("CSCO", "Cisco Systems Inc."),
    Company("CVX", "Chevron Corporation"),
    Company("DIS", "Walt Disney Co."),
    Company("DOW", "Dow Inc."),
    Company("GS", "Goldman Sachs Group Inc."),
    Company("HD", "Home Depot Inc."),
    Company("HON", "Honeywell International Inc."),
    Company("IBM", "International Business Machines"),
    Company("INTC", "Intel Corporation"),
    Company("JNJ", "Johnson & Johnson"),
    Company("JPM", "JPMorgan Chase & Co."),
    Company("KO", "Coca-Cola Company"),
    Company("MCD", "McDonald's Corporation"),
    Company("MMM", "3M Company"),
    Company("MRK", "Merck & Co. Inc."),
    Company("MSFT", "Microsoft Corporation"),
    Company("NKE", "Nike Inc."),
    Company("PG", "Procter & Gamble Co."),
    Company("TRV", "Travelers Companies Inc."),
    Company("UNH", "UnitedHealth Group Inc."),
    Company("V", "Visa Inc."),
    Company("VZ", "Verizon Communications Inc."),
    Company("WBA", "Walgreens Boots Alliance Inc."),
    Company("WMT", "Walmart Inc.")
  ]

  const NasdaqCompanies: seq<Company> := [
    Company("AAPL", "Apple Inc."),
    Company("MSFT", "Microsoft Corporation"),
    Company("AMZN", "Amazon.com Inc."),
    Company("NVDA", "NVIDIA Corporation"),
    Company("GOOGL", "Alphabet Inc. Class A"),
    Company("GOOG", "Alphabet Inc. Class C"),
    Company("META", "Meta Platforms Inc."),
    Company("TSLA", "Tesla, Inc."),
    Company("AVGO", "Broadcom Inc."),
    Company("PEP", "PepsiCo Inc."),
    Company("COST", "Costco Wholesale Corp."),
    Company("ADBE", "Adobe Inc."),
    Company("CSCO", "Cisco Systems Inc."),
    Company("TMUS", "T-Mobile US Inc."),
    Company("CMCSA", "Comcast Corporation"),
    Company("NFLX", "Netflix Inc."),
    Company("AMD", "Advanced Micro Devices Inc."),
    Company("INTC", "Intel Corporation"),
    Company("QCOM", "Qualcomm Inc."),
    Company("INTU", "Intuit Inc."),
    Company("AMAT", "Applied Materials Inc."),
    Company("TXN", "Texas Instruments Inc."),
    Company("PYPL", "PayPal Holdings Inc."),
    Company("SBUX", "Starbucks Corporation"),
    Company("ADI", "Analog Devices Inc.")
  ]

  const RussellCompanies: seq<Company> := [
    Company("ENSG", "The Ensign Group Inc."),
    Company("MEDP", "Medpace Holdings Inc."),
    Company("TTEK", "Tetra Tech Inc."),
    Company("PODD", "Insulet Corporation"),
    Company("EXEL", "Exelixis Inc."),
    Company("SAIA", "Saia Inc."),
    Company("LSTR", "Landstar System Inc."),
    Company("AXON", "Axon Enterprise Inc."),
    Company("BLDR", "Builders FirstSource Inc."),
    Company("CGNX", "Cognex Corporation"),
    Company("PNFP", "Pinnacle Financial Partners"),
    Company("HALO", "Halozyme Therapeutics Inc."),
    Company("KNSL", "Kinsale Capital Group Inc."),
    Company("EWBC", "East West Bancorp Inc."),
    Company("PCTY", "Paylocity Holding Corp."),
    Company("SYNH", "Syneos Health Inc."),
    Company("NATI", "National Instruments Corp."),
    Company("AZPN", "Aspen Technology Inc."),
    Company("QLYS", "Qualys Inc."),
    Company("FOXF", "Fox Factory Holding Corp."),
    Company("HOMB", "Home Bancshares Inc."),
    Company("CATY", "Cathay General Bancorp"),
    Company("CVLT", "Commvault Systems Inc."),
    Company("COLB", "Columbia Banking System Inc."),
    Company("FORM", "FormFactor Inc.")
  ]

  /** The company list for an index symbol; any symbol other than the
      S&P 500, Dow Jones and NASDAQ ones gets the Russell 2000 list. */
  function CompaniesFor(indexSymbol: string): (cs: seq<Company>)
    ensures 25 <= |cs| <= 30
  {
    if indexSymbol == "^GSPC" then SP500Companies
    else if indexSymbol == "^DJI" then DowCompanies
    else if indexSymbol == "^IXIC" then NasdaqCompanies
    else RussellCompanies
  }

  // ---------------------------------------------------------------------------
  // Random draws
  // ---------------------------------------------------------------------------

  /** What the random module supplies for one company: the price and change
      after rounding to cents, the volume, the share count the market cap
      is built from, and the index of the chosen sector. */
  datatype Draw = Draw(priceCents: int, changeCents: int, volume: int, shares: int, sectorIndex: int)

  /** The ranges of `random.uniform(20, 500)` and `random.uniform(-20, 20)`
      rounded to cents, of the two `random.randint` calls (both ends
      included), and of `random.choice` over the sectors. */
  predicate ValidDraw(d: Draw) {
    && 2000 <= d.priceCents <= 50000
    && -2000 <= d.changeCents <= 2000
    && 100000 <= d.volume <= 10000000
    && 1000000 <= d.shares <= 1000000000
    && 0 <= d.sectorIndex < |Sectors|
  }

  predicate ValidDraws(draws: seq<Draw>) {
    forall k :: 0 <= k < |draws| ==> ValidDraw(draws[k])
  }

  // ---------------------------------------------------------------------------
  // One generated record
  // ---------------------------------------------------------------------------

  /** `round(change / price * 100, 2)` in hundredths of a percent. */
  function ChangePercentHundredths(d: Draw): (n: int)
    requires ValidDraw(d)
    ensures d.changeCents >= 0 ==> n >= 0
    ensures d.changeCents <= 0 ==> n <= 0
    ensures -d.priceCents <= 2 * (d.changeCents * 10000 - n * d.priceCents) <= d.priceCents
  {
    RoundKeepsSign(d.changeCents * 10000, d.priceCents);
    RoundHalfEven(d.changeCents * 10000, d.priceCents)
  }

  /** `f"{x}%"` for a float `x` of `n` hundredths that carries the sign
      `negative`: `str` keeps the minus sign of a negative zero. */
  function PercentText(negative: bool, n: int): (s: string)
    ensures |s| >= 4 && s[|s| - 1] == '%'
  {
    HundredthsText(negative, if n < 0 then -n else n) + "%"
  }

  /** `f"{round(change / price * 100, 2)}%"`: a negative change keeps its
      minus sign even when the percentage rounds to zero. */
  function ChangePercentText(d: Draw): (s: string)
    requires ValidDraw(d)
    ensures |s| >= 4 && s[|s| - 1] == '%'
  {
    PercentText(d.changeCents < 0, ChangePercentHundredths(d))
  }

  /** `round(price * shares / 1000000000, 2)` in hundredths. */
  function MarketCapHundredths(d: Draw): (n: int)
    requires ValidDraw(d)
    ensures n >= 0
    ensures -1000000000 <= 2 * (d.priceCents * d.shares - n * 1000000000) <= 1000000000
  {
    RoundKeepsSign(d.priceCents * d.shares, 1000000000);
    RoundHalfEven(d.priceCents * d.shares, 1000000000)
  }

  function GenerateStock(c: Company, d: Draw): (s: Stock)
    requires ValidDraw(d)
    ensures s.symbol == c.symbol && s.name == c.name
    ensures 2000 <= s.priceCents <= 50000 && -2000 <= s.changeCents <= 2000
    ensures 100000 <= s.volume <= 10000000
    ensures s.sector in Sectors
    ensures |s.changePercent| > 0 && s.changePercent[|s.changePercent| - 1] == '%'
  {
    Stock(c.symbol, c.name, d.priceCents, d.changeCents, ChangePercentText(d), d.volume,
          MarketCapHundredths(d), Sectors[d.sectorIndex])
  }

  /** One record per company, in list order, company `k` using draw `k`. */
  function GenerateStocks(companies: seq<Company>, draws: seq<Draw>): (r: seq<Stock>)
    requires |draws| >= |companies| && ValidDraws(draws)
    ensures |r| == |companies|
    ensures forall k :: 0 <= k < |r| ==> r[k] == GenerateStock(companies[k], draws[k])
    decreases |companies|
  {
    if |companies| == 0 then []
    else [GenerateStock(companies[0], draws[0])] + GenerateStocks(companies[1..], draws[1..])
  }

  /** `generate_sample_index_components(index_symbol, limit)`: the records
      for `companies[:limit]`. */
  function GenerateSample(indexSymbol: string, limit: int, draws: seq<Draw>): (r: seq<Stock>)
    requires |draws| >= |CompaniesFor(indexSymbol)| && ValidDraws(draws)
  {
    GenerateStocks(PyPrefix(CompaniesFor(indexSymbol), limit), draws)
  }

  // ---------------------------------------------------------------------------
  // Properties of the sample
  // ---------------------------------------------------------------------------

  /** The records for `companies[:limit]` are one for each of the first
      `limit` companies (all but the last `-limit` for a negative limit), in
      list order, each with its volume in range, a known sector and a change
      percentage ending in `%`. */
  lemma GeneratedShape(companies: seq<Company>, limit: int, draws: seq<Draw>)
    requires |draws| >= |companies| && ValidDraws(draws)
    ensures var r := GenerateStocks(PyPrefix(companies, limit), draws);
      && |r| == (if limit >= 0 then (if limit < |companies| then limit else |companies|)
                 else (if |companies| + limit > 0 then |companies| + limit else 0))
      && (forall k :: 0 <= k < |r| ==> r[k].symbol == companies[k].symbol && r[k].name == companies[k].name)
      && (forall k :: 0 <= k < |r| ==> 100000 <= r[k].volume <= 10000000 && r[k].sector in Sectors)
      && (forall k :: 0 <= k < |r| ==> |r[k].changePercent| > 0 && r[k].changePercent[|r[k].changePercent| - 1] == '%')
  {
    var prefix := PyPrefix(companies, limit);
    var r := GenerateStocks(prefix, draws);
    forall k | 0 <= k < |r|
      ensures r[k].symbol == companies[k].symbol && r[k].name == companies[k].name
    {
      assert prefix[k] == companies[k];
    }
  }

  /** An unknown index symbol gets the Russell 2000 sample. */
  lemma UnknownSymbolUsesRussell(indexSymbol: string, limit: int, draws: seq<Draw>)
    requires indexSymbol != "^GSPC" && indexSymbol != "^DJI" && indexSymbol != "^IXIC"
    requires |draws| >= 30 && ValidDraws(draws)
    ensures GenerateSample(indexSymbol, limit, draws) == GenerateSample("^RUT", limit, draws)
  {
  }

  /** The numeric value `float()` reads from a generated change percentage
      once its `%` is removed: the rounded percentage, with the sign of the
      change. */
  lemma ChangePercentValue(d: Draw)
    requires ValidDraw(d)
    ensures ReadsAs(RemoveAll(ChangePercentText(d), '%'), Hundredths(ChangePercentHundredths(d)))
  {
    PercentTextValue(d.changeCents < 0, ChangePercentHundredths(d));
  }

  /** A percentage printed with a sign that agrees with its value reads
      back, without its `%`, as that value. */
  lemma PercentTextValue(negative: bool, n: int)
    requires negative ==> n <= 0
    requires !negative ==> n >= 0
    ensures ReadsAs(RemoveAll(PercentText(negative, n), '%'), Hundredths(n))
  {
    var h: nat := if n < 0 then -n else n;
    SignedMagnitude(negative, n, h);
    PyFloatOfHundredthsText(negative, h);
    ReadAfterRemoval(PercentText(negative, n), HundredthsText(negative, h), SignedHundredths(negative, h), Hundredths(n));
  }

  /** A magnitude with a sign that agrees with `n` is worth `n`. */
  lemma SignedMagnitude(negative: bool, n: int, h: nat)
    requires negative ==> n <= 0
    requires !negative ==> n >= 0
    requires h == if n < 0 then -n else n
    ensures SignedHundredths(negative, h) == Hundredths(n)
  {
  }

  /** The step that joins the pieces: the text, once `%` is gone, is the
      printed number, which reads as `v`. */
  lemma ReadAfterRemoval(text: string, body: string, v: real, w: real)
    requires text == body + "%" && '%' !in body
    requires ReadsAs(body, v) && v == w
    ensures ReadsAs(RemoveAll(text, '%'), w)
  {
    RemoveAllAppend(body, "%", '%');
    assert RemoveAll("%", '%') == "";
    assert RemoveAll(body, '%') + "" == body;
  }
}
