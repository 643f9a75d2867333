/** The index-components endpoint (app/api/index_stocks.py): the sample file
    an index's records are read from, the sort on one of five numeric
    fields, the `limit` cut, the fall back to a freshly generated sample
    when the file is missing or unusable, and the query validation and 404
    in front of it.  The directory of sample files is a map from file name
    to contents; the random draws the generator needs are a parameter. */
module IndexStocks {
  import opened Common
  import opened Text
  import opened PyNumbers
  import opened StableSort
  import opened IndexSample

  // ---------------------------------------------------------------------------
  // The known indices
  // ---------------------------------------------------------------------------

  datatype IndexEntry = IndexEntry(symbol: string, name: string)

  /** The index table, in its declaration order. */
  const KnownIndices: seq<IndexEntry> := [
    IndexEntry("^GSPC", "S&P 500"),
    IndexEntry("^DJI", "Dow Jones"),
    IndexEntry("^IXIC", "NASDAQ"),
    IndexEntry("^RUT", "Russell 2000")
  ]

  predicate IsKnownIndex(symbol: string) {
    exists k :: 0 <= k < |KnownIndices| && KnownIndices[k].symbol == symbol
  }

  /** `GET /indices`: one symbol/name pair per known index, in table order. */
  function AvailableIndices(): (r: seq<IndexEntry>)
    ensures |r| == 4
    ensures forall symbol :: IsKnownIndex(symbol) <==> exists k :: 0 <= k < |r| && r[k].symbol == symbol
    ensures forall i, j :: 0 <= i < j < |r| ==> r[i].symbol != r[j].symbol
  {
    KnownIndices
  }

  /** Exactly the four symbols of the table are known. */
  lemma KnownIndexSymbols(symbol: string)
    ensures IsKnownIndex(symbol) <==> symbol in {"^GSPC", "^DJI", "^IXIC", "^RUT"}
  {
    if symbol in {"^GSPC", "^DJI", "^IXIC", "^RUT"} {
      var k := if symbol == "^GSPC" then 0 else if symbol == "^DJI" then 1 else if symbol == "^IXIC" then 2 else 3;
      assert KnownIndices[k].symbol == symbol;
    }
  }

  // ---------------------------------------------------------------------------
  // Sample files
  // ---------------------------------------------------------------------------

  /** What a sample file yields when loaded: its records, or nothing usable
      because it does not parse as a JSON list of records. */
  datatype SampleFile = Unreadable | Records(stocks: seq<Stock>)

  /** The sample directory: file name to contents. */
  type Store = map<string, SampleFile>

  const ComponentsSuffix: string := "_components.json"

  /** The file an index's sample lives in: the symbol with every `^` taken
      out, then `_components.json`. */
  function SampleFileName(indexSymbol: string): (name: string)
    ensures |name| == |RemoveAll(indexSymbol, '^')| + |ComponentsSuffix|
    ensures name[..|name| - |ComponentsSuffix|] == RemoveAll(indexSymbol, '^')
    ensures name[|name| - |ComponentsSuffix|..] == ComponentsSuffix
  {
    RemoveAll(indexSymbol, '^') + ComponentsSuffix
  }

  /** Two symbols share a sample file exactly when they agree once their
      carets are removed; "^GSPC" and "GSPC" name the same file. */
  lemma SampleFileNameCollides(a: string, b: string)
    ensures SampleFileName(a) == SampleFileName(b) <==> RemoveAll(a, '^') == RemoveAll(b, '^')
    ensures SampleFileName("^GSPC") == SampleFileName("GSPC")
  {
    var na := SampleFileName(a);
    var nb := SampleFileName(b);
    if na == nb {
      assert na[..|na| - |ComponentsSuffix|] == nb[..|nb| - |ComponentsSuffix|];
    }
    assert RemoveAll("GSPC", '^') == "GSPC";
    assert RemoveAll("^GSPC", '^') == RemoveAll("GSPC", '^');
  }

  // ---------------------------------------------------------------------------
  // Sort keys
  // ---------------------------------------------------------------------------

  /** The five fields the records can be sorted on. */
  datatype SortField = Price | Change | ChangePercent | Volume | MarketCap

  function FieldName(field: SortField): string {
    match field
    case Price => "price"
    case Change => "change"
    case ChangePercent => "change_percent"
    case Volume => "volume"
    case MarketCap => "market_cap"
  }

  /** The sortable field a `sort_by` value names, if any; other names
      leave the file order alone. */
  function SortFieldOf(sortBy: string): (r: Option<SortField>)
    ensures r.Some? ==> FieldName(r.value) == sortBy
  {
    if sortBy == "price" then Some(Price)
    else if sortBy == "change" then Some(Change)
    else if sortBy == "change_percent" then Some(ChangePercent)
    else if sortBy == "volume" then Some(Volume)
    else if sortBy == "market_cap" then Some(MarketCap)
    else None
  }

  /** Every field is found again from its name. */
  lemma SortFieldNames(field: SortField)
    ensures SortFieldOf(FieldName(field)) == Some(field)
  {
  }

  /** A record's sort key: the number itself for the numeric fields, and
      `float()` of the text with every `%` removed for `change_percent`,
      which fails when that text is not a number. */
  function Key(s: Stock, field: SortField): (r: Option<real>)
    ensures field != ChangePercent ==> r.Some?
  {
    match field
    case Price => Some(Hundredths(s.priceCents))
    case Change => Some(Hundredths(s.changeCents))
    case ChangePercent => PyFloat(RemoveAll(s.changePercent, '%'))
    case Volume => Some(s.volume as real)
    case MarketCap => Some(Hundredths(s.marketCapHundredths))
  }

  /** The keys of all records, or nothing when any one of them fails (the
      sort computes every key before it compares any). */
  function KeysOf(stocks: seq<Stock>, field: SortField): (r: Option<seq<real>>)
    ensures r.Some? <==> forall k :: 0 <= k < |stocks| ==> Key(stocks[k], field).Some?
    ensures r.Some? ==> |r.value| == |stocks|
    ensures r.Some? ==> forall k :: 0 <= k < |stocks| ==> r.value[k] == Key(stocks[k], field).value
    decreases |stocks|
  {
    if |stocks| == 0 then Some([])
    else
      var head := Key(stocks[0], field);
      var tail := KeysOf(stocks[1..], field);
      if head.None? || tail.None? then
        assert forall k :: 0 <= k < |stocks[1..]| ==> stocks[1..][k] == stocks[k + 1];
        None
      else Some([head.value] + tail.value)
  }

  /** The key of a record whose keys are known to exist, as a total
      function for stating order. */
  function KeyValue(field: SortField): Stock -> real {
    s => var r := Key(s, field); if r.Some? then r.value else 0.0
  }

  // ---------------------------------------------------------------------------
  // fetch_index_stocks
  // ---------------------------------------------------------------------------

  /** The records returned, and the sample directory afterwards. */
  datatype Fetched = Fetched(stocks: seq<Stock>, store: Store)

  /** The fall back: the generator's records, written to the index's file
      before they are returned, unsorted. */
  function Regenerate(store: Store, indexSymbol: string, generated: seq<Stock>): (r: Fetched)
    ensures r.stocks == generated
    ensures SampleFileName(indexSymbol) in r.store && r.store[SampleFileName(indexSymbol)] == Records(generated)
    ensures forall name :: name in store && name != SampleFileName(indexSymbol) ==> name in r.store && r.store[name] == store[name]
  {
    Fetched(generated, store[SampleFileName(indexSymbol) := Records(generated)])
  }

  /** The part of `fetch_index_stocks` after the file is loaded: sort on a
      numeric field (descending when the order, lower-cased, is "desc") and
      keep the first `limit` records; any other `sort_by` keeps the file
      order.  Nothing when a change percentage is text `float()` rejects. */
  function SortAndCut(stocks: seq<Stock>, limit: int, sortBy: string, sortOrder: string): (r: Option<seq<Stock>>)
    ensures r.None? <==> SortFieldOf(sortBy).Some? && KeysOf(stocks, SortFieldOf(sortBy).value).None?
    ensures r.Some? ==> multiset(r.value) <= multiset(stocks)
    ensures r.Some? && limit >= 0 ==> |r.value| == if limit < |stocks| then limit else |stocks|
  {
    var field := SortFieldOf(sortBy);
    if field.None? then
      PrefixMultiset(stocks, limit);
      Some(PyPrefix(stocks, limit))
    else
      var keys := KeysOf(stocks, field.value);
      if keys.None? then None
      else
        var sorted := SortedBy(stocks, keys.value, ToLower(sortOrder) == "desc");
        PrefixMultiset(sorted, limit);
        Some(PyPrefix(sorted, limit))
  }

  /** `fetch_index_stocks`: the index's sample file, sorted and cut.  A
      missing file, an unusable one, or a failed sort key sends the call
      to the generator instead; `generated` is what the generator returns
      when it is called (`GenerateSample` for this symbol and limit). */
  function FetchIndexStocks(store: Store, indexSymbol: string, limit: int, sortBy: string, sortOrder: string,
                            generated: seq<Stock>): (r: Fetched)
    ensures !Loadable(store, indexSymbol) || (SortFieldOf(sortBy).Some? && !Sortable(store, indexSymbol, SortFieldOf(sortBy).value))
      ==> r.stocks == generated && r.store == store[SampleFileName(indexSymbol) := Records(generated)]
    ensures Loadable(store, indexSymbol) && SortFieldOf(sortBy).None?
      ==> r == Fetched(PyPrefix(store[SampleFileName(indexSymbol)].stocks, limit), store)
    ensures SortFieldOf(sortBy).Some? && Sortable(store, indexSymbol, SortFieldOf(sortBy).value)
      ==> var stocks := store[SampleFileName(indexSymbol)].stocks;
          var keys := KeysOf(stocks, SortFieldOf(sortBy).value).value;
          r == Fetched(PyPrefix(SortedBy(stocks, keys, ToLower(sortOrder) == "desc"), limit), store)
  {
    var name := SampleFileName(indexSymbol);
    if name !in store || store[name].Unreadable? then Regenerate(store, indexSymbol, generated)
    else
      var kept := SortAndCut(store[name].stocks, limit, sortBy, sortOrder);
      if kept.None? then Regenerate(store, indexSymbol, generated)
      else Fetched(kept.value, store)
  }

  /** The file is there and loads. */
  predicate Loadable(store: Store, indexSymbol: string) {
    var name := SampleFileName(indexSymbol);
    name in store && store[name].Records?
  }

  /** The file loads and every key of the requested field exists: the call
      only reads. */
  predicate Sortable(store: Store, indexSymbol: string, field: SortField) {
    Loadable(store, indexSymbol) && KeysOf(store[SampleFileName(indexSymbol)].stocks, field).Some?
  }

  // ---------------------------------------------------------------------------
  // Properties of a fetch
  // ---------------------------------------------------------------------------

  lemma PrefixMultiset<T>(s: seq<T>, n: int)
    ensures multiset(PyPrefix(s, n)) <= multiset(s)
  {
    var r := PyPrefix(s, n);
    assert s == r + s[|r|..];
  }

  lemma SubMultisetNoLonger<T>(a: seq<T>, b: seq<T>)
    requires multiset(a) <= multiset(b)
    ensures |a| <= |b|
  {
    var rest := multiset(b) - multiset(a);
    assert multiset(b) == multiset(a) + rest;
    assert |multiset(b)| == |multiset(a)| + |rest|;
  }

  /** On a sortable field, the call returns the first `limit` records of
      the one arrangement of the file's records that puts the keys in the
      requested direction and keeps equal keys in file order: given any
      ordering `other` of the tagged records that does so, the result is
      its first `limit` items.  The sample directory is left as it was. */
  lemma FetchSortsThenCuts(store: Store, indexSymbol: string, limit: int, sortBy: string, sortOrder: string,
                           generated: seq<Stock>, other: seq<Keyed<Stock>>)
    requires SortFieldOf(sortBy).Some? && Sortable(store, indexSymbol, SortFieldOf(sortBy).value)
    requires var stocks := store[SampleFileName(indexSymbol)].stocks;
      var keys := KeysOf(stocks, SortFieldOf(sortBy).value).value;
      multiset(other) == multiset(Tag(keys, stocks, 0)) && Ordered(other, ToLower(sortOrder) == "desc")
    ensures var r := FetchIndexStocks(store, indexSymbol, limit, sortBy, sortOrder, generated);
      r.store == store && r.stocks == PyPrefix(Items(other), limit)
  {
    var stocks := store[SampleFileName(indexSymbol)].stocks;
    var keys := KeysOf(stocks, SortFieldOf(sortBy).value).value;
    FetchOfSortable(store, indexSymbol, limit, sortBy, sortOrder, generated);
    SortIsTheOrderedPermutation(keys, stocks, ToLower(sortOrder) == "desc", other);
  }

  /** On a sortable field, the call reads the file, sorts it on the key and
      cuts it. */
  lemma FetchOfSortable(store: Store, indexSymbol: string, limit: int, sortBy: string, sortOrder: string,
                        generated: seq<Stock>)
    requires SortFieldOf(sortBy).Some? && Sortable(store, indexSymbol, SortFieldOf(sortBy).value)
    ensures var stocks := store[SampleFileName(indexSymbol)].stocks;
      var keys := KeysOf(stocks, SortFieldOf(sortBy).value).value;
      FetchIndexStocks(store, indexSymbol, limit, sortBy, sortOrder, generated)
        == Fetched(PyPrefix(SortedBy(stocks, keys, ToLower(sortOrder) == "desc"), limit), store)
  {
  }

  /** On a sortable field, the returned records come from the file, there
      are `limit` of them (or all, if fewer), and their keys run in the
      requested direction. */
  lemma FetchReturnsKeyOrder(store: Store, indexSymbol: string, limit: int, sortBy: string, sortOrder: string,
                             generated: seq<Stock>)
    requires limit >= 0
    requires SortFieldOf(sortBy).Some? && Sortable(store, indexSymbol, SortFieldOf(sortBy).value)
    ensures var stocks := store[SampleFileName(indexSymbol)].stocks;
      var r := FetchIndexStocks(store, indexSymbol, limit, sortBy, sortOrder, generated);
      && r.store == store
      && multiset(r.stocks) <= multiset(stocks)
      && |r.stocks| == (if limit < |stocks| then limit else |stocks|)
      && forall i, j :: 0 <= i < j < |r.stocks| ==>
           KeyInOrder(KeyValue(SortFieldOf(sortBy).value), r.stocks[i], r.stocks[j], ToLower(sortOrder) == "desc")
  {
    var field := SortFieldOf(sortBy).value;
    var stocks := store[SampleFileName(indexSymbol)].stocks;
    var keys := KeysOf(stocks, field).value;
    FetchOfSortable(store, indexSymbol, limit, sortBy, sortOrder, generated);
    SortedByFollowsKey(stocks, keys, ToLower(sortOrder) == "desc", KeyValue(field));
  }

  /** A `sort_by` that names no numeric field leaves the file order: the
      result is the file's first `limit` records. */
  lemma UnsortedFieldsKeepFileOrder(store: Store, indexSymbol: string, limit: int, sortBy: string, sortOrder: string,
                                    generated: seq<Stock>)
    requires sortBy in {"symbol", "name", "sector"}
    requires Loadable(store, indexSymbol)
    ensures var r := FetchIndexStocks(store, indexSymbol, limit, sortBy, sortOrder, generated);
      r.store == store && r.stocks == PyPrefix(store[SampleFileName(indexSymbol)].stocks, limit)
  {
    assert SortFieldOf(sortBy).None?;
  }

  /** A missing or unusable file, or a change percentage that does not
      read as a number, gets the generator's records; they are written to
      the index's file and no other file changes. */
  lemma FallbackGenerates(store: Store, indexSymbol: string, limit: int, sortBy: string, sortOrder: string,
                          generated: seq<Stock>)
    requires !Loadable(store, indexSymbol)
      || (SortFieldOf(sortBy).Some? && !Sortable(store, indexSymbol, SortFieldOf(sortBy).value))
    ensures var r := FetchIndexStocks(store, indexSymbol, limit, sortBy, sortOrder, generated);
      && r.stocks == generated
      && SampleFileName(indexSymbol) in r.store
      && r.store[SampleFileName(indexSymbol)] == Records(generated)
      && forall name :: name in store && name != SampleFileName(indexSymbol) ==> name in r.store && r.store[name] == store[name]
  {
  }

  /** Every path of a fetch returns at most `limit` records, given a
      generator that keeps to the limit. */
  lemma FetchWithinLimit(store: Store, indexSymbol: string, limit: int, sortBy: string, sortOrder: string,
                         generated: seq<Stock>)
    requires limit >= 0 && |generated| <= limit
    ensures |FetchIndexStocks(store, indexSymbol, limit, sortBy, sortOrder, generated).stocks| <= limit
  {
  }

  /** Only `change_percent` can send a loadable file to the generator. */
  lemma OnlyChangePercentFails(store: Store, indexSymbol: string, field: SortField)
    requires Loadable(store, indexSymbol) && field != ChangePercent
    ensures Sortable(store, indexSymbol, field)
  {
  }

  /** Every record the generator writes has all five keys. */
  lemma GeneratedKeysExist(companies: seq<Company>, draws: seq<Draw>, field: SortField)
    requires |draws| >= |companies| && ValidDraws(draws)
    ensures KeysOf(GenerateStocks(companies, draws), field).Some?
  {
    var stocks := GenerateStocks(companies, draws);
    forall k | 0 <= k < |stocks| ensures Key(stocks[k], field).Some? {
      GeneratedKeyExists(companies[k], draws[k], field);
    }
  }

  lemma GeneratedKeyExists(c: Company, d: Draw, field: SortField)
    requires ValidDraw(d)
    ensures Key(GenerateStock(c, d), field).Some?
  {
    if field == ChangePercent {
      ChangePercentValue(d);
    }
  }

  /** The change-percentage key of a generated record is the rounded
      percentage it was printed from. */
  lemma GeneratedChangePercentKey(c: Company, d: Draw)
    requires ValidDraw(d)
    ensures Key(GenerateStock(c, d), ChangePercent) == Some(Hundredths(ChangePercentHundredths(d)))
  {
    ChangePercentValue(d);
  }

  /** After a fall back, the file holds only the records generated for
      the first call: a later call, sorted or not and with any limit,
      reads that file, returns some of those records and never
      regenerates. */
  lemma FallbackFileSticks(store: Store, indexSymbol: string, companies: seq<Company>, limit1: int, limit2: int,
                           sortBy1: string, sortOrder1: string, sortBy2: string, sortOrder2: string,
                           draws: seq<Draw>, generated2: seq<Stock>)
    requires |draws| >= |companies| && ValidDraws(draws)
    requires !Loadable(store, indexSymbol)
    ensures var first := FetchIndexStocks(store, indexSymbol, limit1, sortBy1, sortOrder1,
                                          GenerateStocks(PyPrefix(companies, limit1), draws));
      var second := FetchIndexStocks(first.store, indexSymbol, limit2, sortBy2, sortOrder2, generated2);
      second.store == first.store && multiset(second.stocks) <= multiset(first.stocks)
  {
    var gen := GenerateStocks(PyPrefix(companies, limit1), draws);
    var first := FetchIndexStocks(store, indexSymbol, limit1, sortBy1, sortOrder1, gen);
    assert first == Regenerate(store, indexSymbol, gen);
    var field := SortFieldOf(sortBy2);
    if field.Some? {
      GeneratedKeysExist(PyPrefix(companies, limit1), draws, field.value);
    }
    ReadsTheFile(first.store, indexSymbol, gen, limit2, sortBy2, sortOrder2, generated2);
  }

  /** A file that loads, with every key of the requested field, is read
      and left alone: the call returns some of its records. */
  lemma ReadsTheFile(store: Store, indexSymbol: string, stocks: seq<Stock>, limit: int, sortBy: string,
                     sortOrder: string, generated: seq<Stock>)
    requires SampleFileName(indexSymbol) in store && store[SampleFileName(indexSymbol)] == Records(stocks)
    requires SortFieldOf(sortBy).Some? ==> KeysOf(stocks, SortFieldOf(sortBy).value).Some?
    ensures var r := FetchIndexStocks(store, indexSymbol, limit, sortBy, sortOrder, generated);
      r.store == store && multiset(r.stocks) <= multiset(stocks)
  {
    var kept := SortAndCut(stocks, limit, sortBy, sortOrder);
    assert kept.Some?;
  }

  // ---------------------------------------------------------------------------
  // GET /{index_symbol}/stocks
  // ---------------------------------------------------------------------------

  /** The reply: the records (and the directory afterwards), a 422 naming
      the query parameters that failed validation, or a 404. */
  datatype Reply =
    | Listed(stocks: seq<Stock>, store: Store)
    | Unprocessable(invalid: set<string>)
    | NotFound(detail: string)

  const SortByNames: set<string> :=
    {"price", "change", "change_percent", "volume", "market_cap", "symbol", "name", "sector"}

  /** The query parameters that fail their declared constraints: `limit`
      outside 1..100, a `sort_by` that is not one of the eight names in
      full, a `sort_order` other than exactly "asc" or "desc".  An absent
      parameter takes its default and passes. */
  function InvalidParams(limit: Option<int>, sortBy: Option<string>, sortOrder: Option<string>): (bad: set<string>)
    ensures "limit" in bad <==> limit.Some? && !(1 <= limit.value <= 100)
    ensures "sort_by" in bad <==> sortBy.Some? && sortBy.value !in SortByNames
    ensures "sort_order" in bad <==> sortOrder.Some? && sortOrder.value != "asc" && sortOrder.value != "desc"
    ensures bad <= {"limit", "sort_by", "sort_order"}
  {
    (if limit.Some? && !(1 <= limit.value <= 100) then {"limit"} else {})
    + (if sortBy.Some? && sortBy.value !in SortByNames then {"sort_by"} else {})
    + (if sortOrder.Some? && sortOrder.value != "asc" && sortOrder.value != "desc" then {"sort_order"} else {})
  }

  /** The handler once the parameters are parsed: validation first, then
      the 404 for a symbol outside the index table, then the fetch with the
      defaults (20, "market_cap", "desc") filled in.  `generated` is what
      the generator returns if the fetch falls back to it. */
  function Respond(store: Store, indexSymbol: string, limit: Option<int>, sortBy: Option<string>,
                   sortOrder: Option<string>, generated: seq<Stock>): (r: Reply)
    ensures r.Unprocessable? <==> InvalidParams(limit, sortBy, sortOrder) != {}
    ensures r.Unprocessable? ==> r.invalid == InvalidParams(limit, sortBy, sortOrder)
    ensures r.NotFound? <==> InvalidParams(limit, sortBy, sortOrder) == {} && !IsKnownIndex(indexSymbol)
    ensures r.NotFound? ==> r.detail == "Index " + indexSymbol + " not found"
    ensures r.Listed? ==> var f := FetchIndexStocks(store, indexSymbol, limit.GetOr(20), sortBy.GetOr("market_cap"),
                                                    sortOrder.GetOr("desc"), generated);
      r == Listed(f.stocks, f.store)
  {
    var bad := InvalidParams(limit, sortBy, sortOrder);
    if bad != {} then Unprocessable(bad)
    else if !IsKnownIndex(indexSymbol) then NotFound("Index " + indexSymbol + " not found")
    else
      var r := FetchIndexStocks(store, indexSymbol, limit.GetOr(20), sortBy.GetOr("market_cap"),
                                sortOrder.GetOr("desc"), generated);
      Listed(r.stocks, r.store)
  }

  /** `GET /{index_symbol}/stocks` with the random draws the generator
      would use: a listing never holds more records than the limit asked
      for (20 by default), whichever path produced it. */
  function GetIndexStocks(store: Store, indexSymbol: string, limit: Option<int>, sortBy: Option<string>,
                          sortOrder: Option<string>, draws: seq<Draw>): (r: Reply)
    requires |draws| >= 30 && ValidDraws(draws)
    ensures r.Unprocessable? <==> InvalidParams(limit, sortBy, sortOrder) != {}
    ensures r.NotFound? <==> InvalidParams(limit, sortBy, sortOrder) == {} && !IsKnownIndex(indexSymbol)
    ensures r.Listed? ==> |r.stocks| <= limit.GetOr(20) <= 100
  {
    var n := limit.GetOr(20);
    var generated := GenerateSample(indexSymbol, n, draws);
    GeneratedShape(CompaniesFor(indexSymbol), n, draws);
    ListingWithinLimit(store, indexSymbol, limit, sortBy, sortOrder, generated);
    Respond(store, indexSymbol, limit, sortBy, sortOrder, generated)
  }

  /** A listing holds at most the limit asked for, given a generator that
      keeps to it. */
  lemma ListingWithinLimit(store: Store, indexSymbol: string, limit: Option<int>, sortBy: Option<string>,
                           sortOrder: Option<string>, generated: seq<Stock>)
    requires |generated| <= limit.GetOr(20) || InvalidParams(limit, sortBy, sortOrder) != {}
    ensures var r := Respond(store, indexSymbol, limit, sortBy, sortOrder, generated);
      r.Listed? ==> |r.stocks| <= limit.GetOr(20) <= 100
  {
    if InvalidParams(limit, sortBy, sortOrder) == {} {
      FetchWithinLimit(store, indexSymbol, limit.GetOr(20), sortBy.GetOr("market_cap"), sortOrder.GetOr("desc"),
                       generated);
    }
  }

  /** The first request for an index whose file is missing fixes what every
      later request can see: after it, a request with any parameters
      returns some of the records the first one returned, so never more of
      them, and leaves the directory alone.  The first request's records
      are the generator's for any company list. */
  lemma FirstRequestFixesTheSample(store: Store, indexSymbol: string, companies: seq<Company>,
                                   limit1: Option<int>, limit2: Option<int>, sortBy2: Option<string>,
                                   sortOrder2: Option<string>, draws: seq<Draw>, generated2: seq<Stock>)
    requires |draws| >= |companies| && ValidDraws(draws)
    requires !Loadable(store, indexSymbol)
    ensures var first := Respond(store, indexSymbol, limit1, None, None,
                                 GenerateStocks(PyPrefix(companies, limit1.GetOr(20)), draws));
      var second := Respond(if first.Listed? then first.store else store, indexSymbol, limit2, sortBy2,
                            sortOrder2, generated2);
      first.Listed? && second.Listed? ==>
        && second.store == first.store
        && multiset(second.stocks) <= multiset(first.stocks)
        && |second.stocks| <= |first.stocks|
  {
    var n1 := limit1.GetOr(20);
    var first := Respond(store, indexSymbol, limit1, None, None, GenerateStocks(PyPrefix(companies, n1), draws));
    if first.Listed? {
      var second := Respond(first.store, indexSymbol, limit2, sortBy2, sortOrder2, generated2);
      FallbackFileSticks(store, indexSymbol, companies, n1, limit2.GetOr(20), "market_cap", "desc",
                         sortBy2.GetOr("market_cap"), sortOrder2.GetOr("desc"), draws, generated2);
      if second.Listed? {
        SubMultisetNoLonger(second.stocks, first.stocks);
      }
    }
  }

  /** The listing of indices and the 404 check agree: with valid
      parameters, a symbol gets records exactly when `GET /indices` lists
      it. */
  lemma ListedIndicesAreServed(store: Store, indexSymbol: string, generated: seq<Stock>)
    ensures var r := Respond(store, indexSymbol, None, None, None, generated);
      var listed := AvailableIndices();
      r.Listed? <==> exists k :: 0 <= k < |listed| && listed[k].symbol == indexSymbol
  {
  }

  /** Through the endpoint the direction test is exact: the records come
      back descending exactly when `sort_order` is "desc" or absent. */
  lemma EndpointDescendingExactly(sortOrder: Option<string>)
    requires sortOrder.None? || sortOrder.value == "asc" || sortOrder.value == "desc"
    ensures (ToLower(sortOrder.GetOr("desc")) == "desc") <==> (sortOrder.None? || sortOrder.value == "desc")
  {
    assert ToLower("asc") == "asc";
    assert ToLower("desc") == "desc";
  }

  /** The default request on a readable S&P 500 file: the largest market
      caps first, at most 20 of them, all from the file. */
  lemma DefaultRequestIsTopMarketCaps(store: Store, generated: seq<Stock>)
    requires Loadable(store, "^GSPC")
    ensures var r := Respond(store, "^GSPC", None, None, None, generated);
      && r.Listed? && r.store == store
      && |r.stocks| <= 20
      && multiset(r.stocks) <= multiset(store[SampleFileName("^GSPC")].stocks)
      && forall i, j :: 0 <= i < j < |r.stocks| ==>
           Hundredths(r.stocks[i].marketCapHundredths) >= Hundredths(r.stocks[j].marketCapHundredths)
  {
    var f := FetchIndexStocks(store, "^GSPC", 20, "market_cap", "desc", generated);
    KnownIndexSymbols("^GSPC");
    assert InvalidParams(None, None, None) == {};
    assert Respond(store, "^GSPC", None, None, None, generated) == Listed(f.stocks, f.store);
    EndpointDescendingExactly(None);
    OnlyChangePercentFails(store, "^GSPC", MarketCap);
    FetchReturnsKeyOrder(store, "^GSPC", 20, "market_cap", "desc", generated);
    forall i, j | 0 <= i < j < |f.stocks|
      ensures Hundredths(f.stocks[i].marketCapHundredths) >= Hundredths(f.stocks[j].marketCapHundredths)
    {
      MarketCapKeyOrder(f.stocks[i], f.stocks[j]);
    }
  }

  lemma MarketCapKeyOrder(a: Stock, b: Stock)
    requires KeyInOrder(KeyValue(MarketCap), a, b, true)
    ensures Hundredths(a.marketCapHundredths) >= Hundredths(b.marketCapHundredths)
  {
  }
}
