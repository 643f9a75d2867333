# Stock market dashboard: a Dafny model of its decision logic

The system is a FastAPI backend with a single-page browser front end. The
backend serves quotes, a trending list, fixed recommendations, the
components of four market indices and the status of the quote provider's
API key. The front end draws these and manages its overlays, sections and
search boxes.

This project models the small decision procedures beneath the templating
and HTTP plumbing and proves what they guarantee.

**Browser code** (`app/static/js/main.js`):
- the tolerant number parsers `safeParseFloat` and `safeParseInt`;
- the index-stocks table, with its snapshot and search filter;
- the sidebar navigation and the symbol search;
- the create-once modal and sections. As written, `showDashboard` shows every section already built, so switching is not exclusive (Finding 2). Navigation dispatches to these handlers as written; the corrected handlers sit beside them;
- the bootstrap → jQuery → manual show chain;
- the direction, confidence and chart rules.

The parsers rest on a model of JavaScript values, `parseFloat` and `parseInt` (section 19.2.4 and 19.2.5 of ECMA-262), and of the StrDecimalLiteral grammar.

**Index components** (`app/api/index_stocks.py`):
- the sample file per index;
- the stable sort on one of five fields, then the `limit` cut;
- the fallback to a generated sample;
- the query validation and the 404;
- the sample generator itself, with Python's `round`, `str` and `float` on whole hundredths.

**Quotes** (`app/api/stocks.py`):
- the quote handler's error mapping;
- the trending list as an order-preserving filter. Each entry is the symbol's raw "Global Quote" object, kept as that object (`Json`);
- the fixed recommendations.

**Key status** (`app/api/api_status.py`):
- the classification of the provider's reply by key precedence;
- the key mask `key[:5] + "..." + key[-5:]`.

How the outside world becomes data:
- The DOM is reduced to the row texts in a table body, the map from element ids to nodes, the set of hidden rows, and the number of backdrops.
- Everything the code receives from the network or the random module is a parameter. That covers a decoded payload, a fetch failure message, the random draws, and what the sample generator returns.
- The sample directory is a map from file name to contents.

## Model

| member | source | states |
|---|---|---|
| SafeParse.SafeParseFloat | app/static/js/main.js:760-764 | Never NaN; 0 for a falsy value or the strings "NaN", "null" and "undefined"; otherwise `parseFloat` of the text with its first `%` removed whenever that is a number, and 0 when it is NaN |
| SafeParse.SafeParseInt | app/static/js/main.js:766-770 | 0 for a falsy value or a sentinel, and 0 when no integer leads the text; otherwise exactly the integer `parseInt` reads from the value's text |
| SafeParse.SafeParseFloatOfText | app/static/js/main.js:760-764 | For every string: 0 when it is empty, a sentinel, or no numeric literal leads it once the first `%` is dropped; otherwise `parseFloat` of that text |
| SafeParse.SafeParseIntOfDecimalText | app/static/js/main.js:766-770 | White space, an optional sign, decimal digits and anything that does not continue them give the signed value of the digits ("0x" aside) |
| JsValues.ParseIntOfDecimalText | app/static/js/main.js:768 | `parseInt` skips leading white space, honours one sign and reads the longest run of decimal digits |
| SafeParse.SafeParseFloatPercent | app/static/js/main.js:760-764 | A provider percentage "42%" reads as 42 |
| SafeParse.SafeParseFloatDecimalPercent | app/static/js/main.js:760-764 | A decimal percentage "i.f%" reads as its exact value |
| SafeParse.SafeParseIntTruncates | app/static/js/main.js:766-770 | "i.f" gives the integer part i, which is the value `safeParseFloat` reads truncated toward zero ("12.7" gives 12) |
| SafeParse.SafeParseFloatOfNumber | app/static/js/main.js:760-764 | A number is read back as itself, or 0 when it is NaN |
| SafeParse.SafeParseIntExample | app/static/js/main.js:766-770 | `safeParseInt("12.7")` is 12 |
| SafeParse.Figures | app/static/js/main.js:773-781 | The details view's figures: price, open, previous close and change percentage are `safeParseFloat` of "05. price", "02. open", "08. previous close" and "10. change percent"; volume is `safeParseInt` of "06. volume"; never NaN; the change counts as up exactly when the percentage is at least 0; the trading day is "07. latest trading day" when truthy, else "Not available"; a null or undefined payload throws |
| SafeParse.ErrorBodyShowsZeros | app/static/js/main.js:773-781 | A FastAPI error body `{"detail": ...}` is shown as price 0, change 0% (up), volume 0 and "Not available" |
| JsValues.ParseFloatNaN | app/static/js/main.js:762-763 | `parseFloat` is NaN exactly when no non-empty prefix of the text after leading white space is a numeric literal |
| JsValues.ParseIntTruncatesParseFloat | app/static/js/main.js:762-768 | On "i.f", `parseFloat` gives the exact decimal value and `parseInt` its integer part |
| JsValues.ParseFloatDigits | app/static/js/main.js:762 | The digits of n read back as n |
| JsValues.ParseIntDigitsThen | app/static/js/main.js:768 | Digits followed by a non-digit give the digits' value |
| DecimalLiteral.ScanIsLongestLiteral | app/static/js/main.js:762 | The scanner's prefix is a literal of the declarative grammar, and no longer prefix is one |
| ViewRules.DirectionsDisagreeOnlyAtZero | app/static/js/main.js:139 | The table's `change >= 0` and the cards' `change > 0` (line 548) disagree exactly when the change converts to 0; a NaN change is a fall for both |
| ViewRules.MissingChangeDirections | app/static/js/main.js:548 | An undefined change is a fall in both views; null is up in the table and down on the cards |
| ViewRules.RoundHalfAway | app/static/js/main.js:703 | `toFixed(0)` lies within half a unit of its argument |
| ViewRules.ConfidenceClassOf | app/static/js/main.js:703-705 | Success exactly when confidence × 100 ≥ 80.5; primary exactly on [60.5, 80.5); warning below |
| ViewRules.ConfidenceMonotone | app/static/js/main.js:703-705 | More confidence never gets a weaker class |
| ViewRules.ChartPoints | app/static/js/main.js:852-860 | 31 points for 30 down to 0 days back; each is NaN exactly when the price is, and a non-negative price stays within [0.95, 1.05] of itself |
| ViewRules.MissingPriceIsNaN | app/static/js/main.js:846 | The chart price has no fallback: a payload without a price gives NaN |
| IndexTable.Load | app/static/js/main.js:124-178 | A successful load shows the rows and snapshots them; a failed one shows only the error row and keeps the previous snapshot |
| IndexTable.RowsRoundTrip | app/static/js/main.js:156-160 | Rows serialised into a table body parse back to the same rows |
| IndexTable.KeepMatching | app/static/js/main.js:198-201 | Exactly the rows whose lower-cased text contains the lower-cased term, each as many times as it occurs, as a subsequence in original order |
| IndexTable.Filter | app/static/js/main.js:182-210 | Corrected filter: it never touches the snapshot, and a blank term restores the snapshot verbatim |
| IndexTable.FilterShowsMatches | app/static/js/main.js:193-209 | A non-blank term shows exactly the matching snapshot rows, with their multiplicities, in snapshot order, or the single "No matching stocks found" row |
| IndexTable.LastFilterWins | app/static/js/main.js:182-195 | Filtering reads only the snapshot, so it is idempotent and the last term wins |
| IndexTable.BlankFilterRestoresLoad | app/static/js/main.js:186-189 | A blank search after a load shows the loaded rows |
| IndexTable.FailedLoadKeepsSnapshot | app/static/js/main.js:175-178 | After a failed reload the filter still works on the last good snapshot |
| IndexTable.SectorTermMatches | app/static/js/main.js:199-200 | The term "tech" finds a row showing "Technology" |
| IndexTable.FilterAsWritten | app/static/js/main.js:182-210 | The filter as written keeps the snapshot unchanged |
| IndexTable.DivHoldsNoRows | app/static/js/main.js:193-195 | Markup parsed inside a `div` holds no `tr` element |
| IndexTable.AsWrittenNeverMatches | app/static/js/main.js:193-206 | As written, every non-blank term shows the no-match row |
| IndexTable.AsWrittenMissesRow | app/static/js/main.js:193-206 | Concrete case: after loading "AAPL Apple Inc.", the term "aapl" finds nothing as written and finds the row once corrected |
| Navigation.Target | app/static/js/main.js:268 | The href with its first character removed |
| Navigation.Dispatch | app/static/js/main.js:271-289 | Four names call their section's handler as written; anything else calls `showDashboard` as written; the registry stays valid |
| Navigation.DispatchIntended | app/static/js/main.js:271-289 | The same switch over the corrected handlers |
| Navigation.Navigate | app/static/js/main.js:258-289 | The clicked link becomes active; a missing href stops there; otherwise the target is dispatched to the handlers as written |
| Navigation.NavigateIntended | app/static/js/main.js:258-289 | The same click over the corrected handlers |
| Navigation.HashLinksReachHandlers | app/static/js/main.js:268-289 | "#discover" and the like reach their section's handler; a name without "#" and "#dashboard" reach the dashboard; both as written and corrected |
| Navigation.DiscoverLinkTwice | app/static/js/main.js:258-289 | Clicking the discover link twice hides its filter row as written; the corrected handlers keep it visible |
| Navigation.WatchlistThenDashboard | app/static/js/main.js:258-314 | Clicking watchlist then dashboard leaves the watchlist on screen as written; the corrected handlers hide it |
| Navigation.SearchStock | app/static/js/main.js:295-303 | An all-space input does nothing; otherwise the trimmed, upper-cased symbol opens and the input is cleared |
| Navigation.SearchIdempotent | app/static/js/main.js:297 | Searching the opened symbol again opens the same symbol |
| Navigation.SearchSymbolShape | app/static/js/main.js:297 | The opened symbol has no lower-case ASCII letter and no surrounding white space |
| Registry.GetOrCreate | app/static/js/main.js:8-86 | The element is built exactly when its id is absent; its new node is fresh, and other ids keep their nodes |
| Registry.GetOrCreateReuses | app/static/js/main.js:8-86 | A second lookup builds nothing and returns the same node |
| Registry.LookupAll | app/static/js/main.js:327-378 | After any sequence of lookups every requested id is present, and earlier ids keep their nodes |
| Registry.BuiltAtMostOnce | app/static/js/main.js:327-378 | A lookup repeating an earlier one never builds |
| Registry.AlreadyPresent | app/static/js/main.js:392-418 | An id already in the document is never built again |
| Overlay.ShowModal | app/static/js/main.js:96-116 | Bootstrap if present, else jQuery, else the manual path; only the manual path changes the overlay, adding one backdrop |
| Overlay.BackdropsAccumulate | app/static/js/main.js:107-115 | Without either library, n shows leave n more backdrops |
| Overlay.LibrariesAddNoBackdrop | app/static/js/main.js:96-104 | With a library, repeated shows leave the overlay as it was |
| IndexModal.ShowIndexStocks | app/static/js/main.js:4-121 | The modal is built only if missing, its title is the index name, the table is loaded, and the show chain runs; visibility and the active link are untouched |
| IndexModal.ModalBuiltOnce | app/static/js/main.js:8-89 | Two indices in a row share one modal, which carries the second title |
| Sections.ShowSectionAsWritten | app/static/js/main.js:317-379 | As written: every `.row.mb-4`, including discover's inner filter row, is hidden except the section's root |
| Sections.ShowDashboardAsWritten | app/static/js/main.js:306-314 | As written: every `.row.mb-4` is shown |
| Sections.DiscoverTwiceHidesFilters | app/static/js/main.js:322-378 | Opening discover twice leaves its filter row hidden |
| Sections.DashboardShowsStaleSection | app/static/js/main.js:311-313 | Back on the dashboard, a section built earlier stays visible |
| Sections.ShowSection | app/static/js/main.js:317-379 | Corrected: among the top-level rows only the section's root is visible; sections are only ever added; discover's filters stay visible |
| Sections.ShowDashboard | app/static/js/main.js:306-314 | Corrected: among the top-level rows exactly the dashboard's rows are visible |
| Sections.DiscoverTwiceKeepsFilters | app/static/js/main.js:317-379 | Corrected: the filter row survives repeated visits |
| Sections.DashboardHidesSections | app/static/js/main.js:306-314 | Corrected: after any section the dashboard is shown alone |
| IndexStocks.AvailableIndices | app/api/index_stocks.py:246-249 | Four distinct entries, listing exactly the known indices |
| IndexStocks.KnownIndexSymbols | app/api/index_stocks.py:26-31 | The known symbols are exactly ^GSPC, ^DJI, ^IXIC and ^RUT |
| IndexStocks.SampleFileName | app/api/index_stocks.py:43 | The symbol without carets, followed by "_components.json" |
| IndexStocks.SampleFileNameCollides | app/api/index_stocks.py:43 | Two symbols share a file exactly when they agree without carets ("^GSPC" and "GSPC" do) |
| IndexStocks.SortFieldOf | app/api/index_stocks.py:55 | Five names select a numeric field, each found back from its name; others select none |
| IndexStocks.SortFieldNames | app/api/index_stocks.py:55 | Each sortable field is found again from its own name |
| IndexStocks.Key | app/api/index_stocks.py:57-60 | The sort key is the field's value; for `change_percent` it is `float()` of the text without `%`, the only key that can fail |
| IndexStocks.KeysOf | app/api/index_stocks.py:57-60 | All keys, index by index, or nothing exactly when some record's key fails |
| IndexStocks.Regenerate | app/api/index_stocks.py:218-223 | The generated records are returned and written to the index's file; other files are unchanged |
| IndexStocks.SortAndCut | app/api/index_stocks.py:53-63 | Fails exactly when a sortable field's key fails; otherwise a sub-multiset of the file of length min(limit, size) |
| IndexStocks.FetchSortsThenCuts | app/api/index_stocks.py:53-63 | On a sortable field the result is the first `limit` items of THE ordering that has keys in the requested direction and ties in file order |
| IndexStocks.FetchReturnsKeyOrder | app/api/index_stocks.py:54-63 | File records only, min(limit, size) of them, keys in the requested direction, directory untouched |
| IndexStocks.UnsortedFieldsKeepFileOrder | app/api/index_stocks.py:55-63 | `symbol`, `name` and `sector` return the file's first `limit` records in file order |
| IndexStocks.FallbackGenerates | app/api/index_stocks.py:36-67 | A missing or unusable file, or a bad percentage key, returns the generated records unsorted and writes them to the file |
| IndexStocks.FetchWithinLimit | app/api/index_stocks.py:63 | Every path returns at most `limit` records when the generator does |
| IndexStocks.OnlyChangePercentFails | app/api/index_stocks.py:57-60 | On a loadable file, every field but `change_percent` is sortable |
| IndexStocks.GeneratedKeysExist | app/api/index_stocks.py:57-58 | Every generated record has all five keys, including the percentage |
| IndexStocks.GeneratedChangePercentKey | app/api/index_stocks.py:57-58 | A generated percentage sorts by the rounded value it was printed from (line 203) |
| IndexStocks.FallbackFileSticks | app/api/index_stocks.py:43-51 | After a fallback, later calls read the written file: the directory stays the same and the results are drawn from the first records |
| IndexStocks.ReadsTheFile | app/api/index_stocks.py:49-63 | A loadable file with all requested keys is only read |
| IndexStocks.InvalidParams | app/api/index_stocks.py:228-230 | A parameter is reported exactly when it is present and breaks its constraint: limit in 1..100, one of eight names, "asc" or "desc" |
| IndexStocks.Respond | app/api/index_stocks.py:226-244 | 422 exactly on invalid parameters; then 404 "Index X not found" exactly for an unknown symbol; otherwise the listing is the fetch's records and directory with defaults 20, market_cap, desc |
| IndexStocks.FetchIndexStocks | app/api/index_stocks.py:36-67 | A missing or unloadable file, or a failed change-percentage key, returns the generated records and writes them to the index's file; a non-numeric `sort_by` returns the file's first `limit` records; a numeric one the first `limit` of the stable sort; both leave the directory alone |
| IndexStocks.GetIndexStocks | app/api/index_stocks.py:225-244 | The 422 and 404 conditions as above; a listing holds at most limit (default 20, at most 100) records |
| IndexStocks.ListingWithinLimit | app/api/index_stocks.py:228 | A listing never exceeds the limit when the generator keeps to it |
| IndexStocks.FirstRequestFixesTheSample | app/api/index_stocks.py:43-47 | After a first request on a missing file, any later request returns a sub-multiset of the first one's records and leaves the directory alone |
| IndexStocks.ListedIndicesAreServed | app/api/index_stocks.py:240-249 | With valid parameters, a symbol gets records exactly when `/indices` lists it |
| IndexStocks.EndpointDescendingExactly | app/api/index_stocks.py:54 | Through the endpoint, descending order happens exactly for "desc" or the default |
| IndexStocks.DefaultRequestIsTopMarketCaps | app/api/index_stocks.py:226-244 | The default S&P 500 request on a readable file: at most 20 file records, market caps descending, directory untouched |
| StableSort.SortedBy | app/api/index_stocks.py:58-60 | `sorted` is a permutation of its input |
| StableSort.SortIsTheOrderedPermutation | app/api/index_stocks.py:58-60 | The sort is the unique permutation with keys in order and ties in input order |
| StableSort.TiesKeepInputOrder | app/api/index_stocks.py:60 | Equal keys keep their input order, even with `reverse=True` |
| StableSort.SortedByFollowsKey | app/api/index_stocks.py:58-60 | The sorted items' keys run in the requested direction |
| StableSort.OrderedPermutationUnique | app/api/index_stocks.py:58-60 | Two ordered permutations of the same tagged items are equal |
| IndexSample.CompaniesFor | app/api/index_stocks.py:80-196 | Each index has a list of 25 to 30 companies |
| IndexSample.UnknownSymbolUsesRussell | app/api/index_stocks.py:169-196 | Any other symbol gets the Russell 2000 sample |
| IndexSample.GenerateStock | app/api/index_stocks.py:200-216 | The company's symbol and name; price, change and volume within the draw ranges; a known sector; a percentage ending in `%` |
| IndexSample.GenerateStocks | app/api/index_stocks.py:199-216 | One record per company, in list order |
| IndexSample.GeneratedShape | app/api/index_stocks.py:199-216 | `companies[:limit]` yields min(limit, n) records (Python slice semantics for negative limits), in list order, with volumes in [100000, 10000000] |
| IndexSample.ChangePercentHundredths | app/api/index_stocks.py:203 | The rounded percentage is within half a hundredth of change / price × 100 and has the change's sign |
| IndexSample.MarketCapHundredths | app/api/index_stocks.py:205 | The market cap is non-negative and within half a hundredth of price × shares / 10^9 |
| IndexSample.ChangePercentValue | app/api/index_stocks.py:203 | The printed percentage, without `%`, reads back with `float()` as the rounded value (the round trip behind line 58) |
| IndexSample.PercentTextValue | app/api/index_stocks.py:203 | Text printed with a sign matching its value reads back as that value |
| PyNumbers.RoundHalfEven | app/api/index_stocks.py:201-205 | `round` gives the nearest integer, a tie going to the even one |
| PyNumbers.RoundKeepsSign | app/api/index_stocks.py:203 | Rounding keeps the quotient's sign |
| PyNumbers.PyFloatOfHundredthsText | app/api/index_stocks.py:58 | `float(str(x))` is x for a whole number of hundredths |
| PyNumbers.PyFloatAccepts | app/api/index_stocks.py:58 | `float()` accepts exactly the texts that are a decimal literal once stripped |
| PyJson.HasKey | app/api/stocks.py:25 | `in` on a dict, list or string; a TypeError exactly on the other types |
| PyJson.Subscript | app/api/stocks.py:27 | `data[key]` succeeds exactly on a dict holding the key, giving its value |
| PyJson.MembershipThenLookup | app/api/stocks.py:40-41 | When `key in data` holds, the lookup succeeds exactly on a dict; a list fails it |
| Quotes.GetStockQuote | app/api/stocks.py:21-29 | A quote exactly when the payload is a dict with "Global Quote", and it is that value; every other case is a 500 and never a 404 |
| Quotes.MissingQuoteIsServerError | app/api/stocks.py:25-29 | A dict without a quote gets a 500 with detail "404: Stock not found" |
| Quotes.GetStockQuoteIntended | app/api/stocks.py:25-26 | Corrected: a 404 "Stock not found" exactly when the membership test fails; otherwise the same reply |
| Quotes.NotFoundBecomesServerError | app/api/stocks.py:23-29 | The handlers differ exactly where the membership test fails, and there the 404 goes out as that 500 |
| Quotes.QuoteIsReturnedAsIs | app/api/stocks.py:27 | The value under "Global Quote" is returned unchanged |
| Quotes.ListPayloadFailsAtLookup | app/api/stocks.py:25-27 | A list holding "Global Quote" passes the test and fails the lookup |
| Quotes.ScalarPayloadFailsAtMembership | app/api/stocks.py:25 | A scalar payload fails at `in` with Python's TypeError text |
| Quotes.QuotesOf | app/api/stocks.py:37-43 | Reference: the quotes of the symbols in order, with failures skipped; no longer than the symbol list |
| Quotes.QuotesOfAppend | app/api/stocks.py:37-45 | Gathering distributes over concatenation, so it keeps order |
| Quotes.QuotesOfComeFromSymbols | app/api/stocks.py:40-41 | Every gathered quote is some symbol's quote |
| Quotes.QuotesOfAllOrNone | app/api/stocks.py:37-45 | All fetches succeed gives one quote per symbol; all fail gives an empty list |
| Quotes.GetTrendingStocks | app/api/stocks.py:31-45 | The loop returns the reference quotes of the seven symbols, at most seven |
| Quotes.Recommendations | app/api/stocks.py:47-68 | Exactly AMD, PLTR and SOFI, confidences in [0, 1] and strictly decreasing |
| Quotes.RecommendationsAsDrawn | app/api/stocks.py:51-67 | The browser colours them success, primary and primary |
| ApiStatus.Mask | app/api/api_status.py:31 | 13 characters for a key of 5 or more, else 2·length + 3, with "..." in the middle |
| ApiStatus.MaskHidesTheMiddle | app/api/api_status.py:31 | Keys agreeing on their first and last five characters share a mask |
| ApiStatus.MaskShowsTheEnds | app/api/api_status.py:38 | The mask shows the key's first five and last five characters |
| ApiStatus.ShortKeyIsExposed | app/api/api_status.py:44 | A key of 5 to 10 characters is recoverable from its mask and length |
| ApiStatus.VeryShortKeyShowsTwice | app/api/api_status.py:31 | A key under five characters appears whole on both sides |
| ApiStatus.MasksCollide | app/api/api_status.py:31 | "abcde" and "abcdeabcde" have the same mask |
| ApiStatus.MaskedKey | app/config.py:8 | An unset key raises when sliced; a set one gives its mask |
| ApiStatus.GetApiStatus | app/api/api_status.py:7-48 | Every error is a 500 prefixed "Error checking API status: "; a dict payload with a key set always gets a status, with the masked key; usage info exactly on "active" |
| ApiStatus.DictionaryStatus | app/api/api_status.py:27-46 | "Note" wins over "Error Message"; the status is "error" exactly for an "Error Message" without a "Note"; the message is the note, the error or "API key is valid and working" |
| ApiStatus.ListWithNoteIsServerError | app/api/api_status.py:27-30 | A list holding "Note" fails at the lookup and becomes a 500 |
| ApiStatus.ScalarPayloadIsServerError | app/api/api_status.py:27 | A scalar payload fails at `in` and becomes a 500 |
| ApiStatus.UnsetKeyIsServerError | app/api/api_status.py:47-48 | An unset key never gets a status; on a dict payload the 500 carries the NoneType message |

## Left out

- DOM rendering, CSS classes, `toFixed`, `toLocaleString`, `console` logging and event-listener registration. These are presentation only. A table row is its text content.
- The network, `aiohttp` and `fetch`. Payloads and failure messages are parameters. The exception text of a failed request depends on the library and is not fixed by the model.
- IEEE-754 doubles. Numbers are exact reals, so rounding error, overflow to Infinity and negative zero of computed values are left out. Python's `float()` forms "inf", "nan" and underscore digit groups are not accepted by the model.
- Case mapping is ASCII only in `toLowerCase`, `toUpperCase` and `str.lower`.
- Query-string parsing of `limit`. The endpoint takes it already parsed as an integer.
- The `response_model` validation of listed records.
- Sample-file I/O. A file that does not parse as a JSON list of records is `Unreadable` and sends every call to the generator. Directory creation is not modelled.
- IndexStocks.SampleFile: records with a missing or mistyped field are not modelled. In the code such a file falls back to the generator only when the sort touches the bad field (a `KeyError` or `TypeError` at lines 58-60). With `sort_by` "symbol", "name" or "sector" it is returned as it stands and the file is kept; `response_model` validation then decides the reply.
- IndexStocks.FetchIndexStocks takes the generator's output as the parameter `generated`. Only GetIndexStocks ties it to `GenerateSample`.
- IndexStocks.FirstRequestFixesTheSample is stated for any company list, rather than through `CompaniesFor`. This keeps the list literals out of the proof.
- Date labels on the chart (main.js:851-855). Only the number of days back is kept.
- The startup call to the undefined `loadStockRecommendations` (main.js:248). Startup wiring is not modelled.
- app/main.py router mounting, app/models/stock.py and app/api/market_indices.py. The first two carry no logic; market indices is a fixed dictionary.
- Asynchronous interleaving of overlapping loads, and the listeners `loadIndexStocks` adds on every load.
- ApiStatus.GetApiStatus: with an unset key the real request may already fail in the HTTP client. The model lets the probe outcome be any value, so both failure points give the same 500 prefix.

## Findings

| source | as written | input that shows it | evidently intended | confidence | as-written member | corrected member |
|---|---|---|---|---|---|---|
| app/static/js/main.js:193-195 | The snapshot of `tr` rows is parsed inside a `div`, where the HTML parser drops table tags, so no row is found | Load "AAPL Apple Inc.", then type "aapl": "No matching stocks found" | Parse in table-body context and show the matching rows | high, not executed | IndexTable.AsWrittenMissesRow | IndexTable.FilterShowsMatches |
| app/static/js/main.js:311-313 | `showDashboard` shows every `.row.mb-4`, including the sections built earlier | Open watchlist, then dashboard: the watchlist stays on screen | Show the dashboard rows and hide the sections | medium, not executed | Sections.DashboardShowsStaleSection | Sections.DashboardHidesSections |
| app/static/js/main.js:322-324 | Each `showX` hides every `.row.mb-4`, including discover's inner filter row, and re-shows only the section root | Open discover, then discover again: the filter row is gone | Hide only the top-level rows | medium, not executed | Sections.DiscoverTwiceHidesFilters | Sections.DiscoverTwiceKeepsFilters |
| app/api/stocks.py:25-29 | The 404 is raised inside the `try`, and `except Exception` turns it into a 500 | A payload `{}`: 500 with detail "404: Stock not found" | A 404 "Stock not found" | high, not executed | Quotes.NotFoundBecomesServerError | Quotes.GetStockQuoteIntended |
