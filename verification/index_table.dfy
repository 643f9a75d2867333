/** The table body of the index-stocks modal (app/static/js/main.js:123-210):
    loading rows into it, the snapshot kept in `data-original-content`, and
    the search filter that rebuilds the body from that snapshot.

    Markup is a stream of tokens as the HTML tokenizer produces them; what the
    user sees is the sequence of `tr` elements the parser builds from it, each
    as its text content. Cells are folded into their row's text. */
module IndexTable {
  import opened Common
  import opened Text

  datatype Token = StartTag(name: string) | EndTag(name: string) | Chars(text: string)

  /** The markup of one row: `<tr>`, its text, `</tr>`. */
  function RowMarkup(text: string): seq<Token> {
    [StartTag("tr"), Chars(text), EndTag("tr")]
  }

  /** The markup `innerHTML` reads back for a body holding these rows. */
  function Serialize(rows: seq<string>): (m: seq<Token>)
    ensures |m| == 3 * |rows|
  {
    if |rows| == 0 then [] else RowMarkup(rows[0]) + Serialize(rows[1..])
  }

  /** Tags that belong to table structure. */
  predicate IsTablePart(name: string) {
    name in {"tr", "td", "th", "tbody", "thead", "tfoot", "caption", "col", "colgroup"}
  }

  /** The `tr` elements a token stream builds, each with its text: a `tr` start
      tag opens a row (closing one left open), text inside a row is its
      content, and text outside any row does not belong to one. */
  function TrElements(m: seq<Token>, open: Option<string>): seq<string> {
    if |m| == 0 then
      (if open.Some? then [open.value] else [])
    else
      var closed := if open.Some? then [open.value] else [];
      match m[0]
      case StartTag(name) =>
        if name == "tr" then closed + TrElements(m[1..], Some(""))
        else TrElements(m[1..], open)
      case EndTag(name) =>
        if name == "tr" then closed + TrElements(m[1..], None)
        else TrElements(m[1..], open)
      case Chars(text) =>
        TrElements(m[1..], if open.Some? then Some(open.value + text) else None)
  }

  /** Setting `innerHTML` on the `tbody` ("in table body" insertion mode,
      section 13.2.6.4.13 of the HTML standard): rows are built as written. */
  function ParseInTableBody(m: seq<Token>): seq<string> {
    TrElements(m, None)
  }

  /** Setting `innerHTML` on a `div` ("in body" insertion mode, section
      13.2.6.4.7 of the HTML standard): start and end tags of table parts are
      parse errors and are ignored, so only their text survives. */
  function ParseInDiv(m: seq<Token>): (r: seq<Token>)
    ensures forall i :: 0 <= i < |r| ==> !r[i].StartTag? || !IsTablePart(r[i].name)
    ensures forall i :: 0 <= i < |r| ==> !r[i].EndTag? || !IsTablePart(r[i].name)
  {
    if |m| == 0 then []
    else if (m[0].StartTag? || m[0].EndTag?) && IsTablePart(m[0].name) then ParseInDiv(m[1..])
    else [m[0]] + ParseInDiv(m[1..])
  }

  lemma {:induction false} RowsRoundTrip(rows: seq<string>)
    ensures ParseInTableBody(Serialize(rows)) == rows
  {
    if |rows| > 0 {
      var rest := Serialize(rows[1..]);
      var m := Serialize(rows);
      assert m[1..] == [Chars(rows[0]), EndTag("tr")] + rest;
      assert m[1..][1..] == [EndTag("tr")] + rest;
      assert m[1..][1..][1..] == rest;
      assert "" + rows[0] == rows[0];
      calc {
        TrElements(m, None);
        TrElements(m[1..], Some(""));
        TrElements(m[1..][1..], Some(rows[0]));
        [rows[0]] + TrElements(rest, None);
      }
      RowsRoundTrip(rows[1..]);
    }
  }

  /** Without `tr` tags a stream builds no rows. */
  lemma {:induction false} NoTrNoRows(m: seq<Token>)
    requires forall i :: 0 <= i < |m| ==> !m[i].StartTag? || !IsTablePart(m[i].name)
    requires forall i :: 0 <= i < |m| ==> !m[i].EndTag? || !IsTablePart(m[i].name)
    ensures TrElements(m, None) == []
  {
    if |m| > 0 {
      assert m[0].StartTag? ==> m[0].name != "tr";
      assert m[0].EndTag? ==> m[0].name != "tr";
      NoTrNoRows(m[1..]);
    }
  }

  /** Whatever markup a `div` is given, it holds no `tr` element. */
  lemma DivHoldsNoRows(m: seq<Token>)
    ensures TrElements(ParseInDiv(m), None) == []
  {
    NoTrNoRows(ParseInDiv(m));
  }

  // ---------------------------------------------------------------------------
  // The table body and its snapshot
  // ---------------------------------------------------------------------------

  /** `body` is the markup in the `tbody`; `snapshot` is
      `dataset.originalContent`, absent until a load succeeds. */
  datatype Table = Table(body: seq<Token>, snapshot: Option<seq<Token>>)

  const ErrorRow := "Error loading stocks. Please try again later."
  const NoMatchRow := "No matching stocks found"

  /** The rows on screen. */
  function Rows(t: Table): seq<string> {
    ParseInTableBody(t.body)
  }

  /** The response `loadIndexStocks` receives: the stock rows, or a failure
      (a non-OK status, a network error or an undecodable body). */
  datatype LoadOutcome = Loaded(rows: seq<string>) | LoadFailed

  /** `loadIndexStocks`: a successful load shows the rows and takes a new
      snapshot; a failed one shows the error row and keeps the old snapshot. */
  function Load(t: Table, outcome: LoadOutcome): (r: Table)
    ensures outcome.Loaded? ==> Rows(r) == outcome.rows && r.snapshot == Some(r.body)
    ensures outcome.LoadFailed? ==> Rows(r) == [ErrorRow] && r.snapshot == t.snapshot
  {
    RowsRoundTrip(if outcome.Loaded? then outcome.rows else [ErrorRow]);
    match outcome
    case Loaded(rows) => Table(Serialize(rows), Some(Serialize(rows)))
    case LoadFailed => Table(Serialize([ErrorRow]), t.snapshot)
  }

  /** The snapshot as markup; an absent one is the text "undefined". */
  function SnapshotMarkup(t: Table): seq<Token> {
    t.snapshot.GetOr([Chars("undefined")])
  }

  /** A row matches when its lower-cased text contains the lower-cased term
      (the term is not trimmed). */
  predicate Matches(text: string, term: string) {
    Contains(ToLower(text), ToLower(term))
  }

  /** `rows` with every element of `sub` drawn from it in order. */
  predicate IsSubsequence(sub: seq<string>, rows: seq<string>) {
    if |sub| == 0 then true
    else if |rows| == 0 then false
    else if sub[0] == rows[0] then IsSubsequence(sub[1..], rows[1..])
    else IsSubsequence(sub, rows[1..])
  }

  /** The rows whose text matches, in their original order. */
  function KeepMatching(rows: seq<string>, term: string): (r: seq<string>)
    ensures forall x :: x in r <==> x in rows && Matches(x, term)
    ensures forall x :: multiset(r)[x] == if Matches(x, term) then multiset(rows)[x] else 0
    ensures IsSubsequence(r, rows)
  {
    if |rows| == 0 then []
    else
      var rest := KeepMatching(rows[1..], term);
      assert forall x :: x in rows <==> x == rows[0] || x in rows[1..];
      assert rows == [rows[0]] + rows[1..];
      if Matches(rows[0], term) then [rows[0]] + rest
      else
        SubsequenceSkip(rest, rows);
        rest
  }

  lemma SubsequenceSkip(sub: seq<string>, rows: seq<string>)
    requires |rows| > 0 && IsSubsequence(sub, rows[1..])
    ensures IsSubsequence(sub, rows)
  {
    if |sub| > 0 && sub[0] == rows[0] {
      SubsequenceTail(sub, rows[1..]);
    }
  }

  lemma SubsequenceTail(sub: seq<string>, rows: seq<string>)
    requires |sub| > 0 && IsSubsequence(sub, rows)
    ensures IsSubsequence(sub[1..], rows)
  {
    if |rows| > 0 && sub[0] != rows[0] {
      SubsequenceTail(sub, rows[1..]);
      SubsequenceSkip(sub[1..], rows);
    } else if |rows| > 0 {
      SubsequenceSkip(sub[1..], rows);
    }
  }

  /** The body the filter produces from the rows it found. */
  function FilteredBody(found: seq<string>, term: string): seq<Token> {
    var kept := KeepMatching(found, term);
    if |kept| == 0 then Serialize([NoMatchRow]) else Serialize(kept)
  }

  /** `filterStocks` as written: a blank term restores the snapshot; otherwise
      the snapshot is parsed inside a `div` and its `tr` elements filtered. */
  function FilterAsWritten(t: Table, term: string): (r: Table)
    ensures r.snapshot == t.snapshot
  {
    if JsTrim(term) == "" then Table(SnapshotMarkup(t), t.snapshot)
    else Table(FilteredBody(TrElements(ParseInDiv(SnapshotMarkup(t)), None), term), t.snapshot)
  }

  /** As written, every non-blank term shows the no-match row, whatever the
      snapshot holds: the `div` parse leaves no `tr` to filter. */
  lemma AsWrittenNeverMatches(t: Table, term: string)
    requires JsTrim(term) != ""
    ensures Rows(FilterAsWritten(t, term)) == [NoMatchRow]
  {
    DivHoldsNoRows(SnapshotMarkup(t));
    RowsRoundTrip([NoMatchRow]);
  }

  /** After loading an AAPL row, searching "aapl" shows no stock as written,
      while the corrected filter shows the row. */
  lemma AsWrittenMissesRow()
    ensures var t := Load(Table([], None), Loaded(["AAPL Apple Inc."]));
      && Rows(FilterAsWritten(t, "aapl")) == [NoMatchRow]
      && Rows(Filter(t, "aapl")) == ["AAPL Apple Inc."]
  {
    var t := Load(Table([], None), Loaded(["AAPL Apple Inc."]));
    assert ParseInTableBody(SnapshotMarkup(t)) == ["AAPL Apple Inc."];
    assert JsTrim("aapl") != "" by {
      assert !IsJsSpace("aapl"[0]);
    }
    AsWrittenNeverMatches(t, "aapl");
    AaplMatches();
    FilterShowsMatches(t, "aapl");
    var shown := Rows(Filter(t, "aapl"));
    SingleSubsequence(shown, "AAPL Apple Inc.");
  }

  lemma AaplMatches()
    ensures Matches("AAPL Apple Inc.", "aapl")
  {
    assert ToLower("aapl") == "aapl";
    assert ToLower("AAPL Apple Inc.")[0..4] == "aapl";
    assert OccursAt(ToLower("AAPL Apple Inc."), "aapl", 0);
  }

  /** A subsequence of a one-row list that contains the row is that list. */
  lemma SingleSubsequence(sub: seq<string>, row: string)
    requires IsSubsequence(sub, [row]) && row in sub
    ensures sub == [row]
  {
    assert [row][1..] == [];
  }

  /** `filterStocks` with the snapshot parsed where its rows are valid: in
      table-body context. */
  function Filter(t: Table, term: string): (r: Table)
    ensures r.snapshot == t.snapshot
    ensures JsTrim(term) == "" ==> r.body == SnapshotMarkup(t)
  {
    if JsTrim(term) == "" then Table(SnapshotMarkup(t), t.snapshot)
    else Table(FilteredBody(ParseInTableBody(SnapshotMarkup(t)), term), t.snapshot)
  }

  /** A non-blank term shows exactly the snapshot rows that match, in
      snapshot order, or the single no-match row when none does. */
  lemma FilterShowsMatches(t: Table, term: string)
    requires JsTrim(term) != ""
    ensures var shown := Rows(Filter(t, term));
      var snap := ParseInTableBody(SnapshotMarkup(t));
      && ((exists x :: x in snap && Matches(x, term)) ==>
            (forall x :: x in shown <==> x in snap && Matches(x, term)) && IsSubsequence(shown, snap)
            && (forall x :: multiset(shown)[x] == if Matches(x, term) then multiset(snap)[x] else 0))
      && ((forall x :: x in snap ==> !Matches(x, term)) ==> shown == [NoMatchRow])
  {
    var snap := ParseInTableBody(SnapshotMarkup(t));
    var kept := KeepMatching(snap, term);
    assert |kept| == 0 || kept[0] in kept;
    RowsRoundTrip(kept);
    RowsRoundTrip([NoMatchRow]);
  }

  /** The filter reads only the snapshot, so a second filter undoes the first:
      repeating a term changes nothing and the last term typed wins. */
  lemma {:induction false} LastFilterWins(t: Table, first: string, second: string)
    ensures Filter(Filter(t, first), second) == Filter(t, second)
    ensures Filter(Filter(t, second), second) == Filter(t, second)
  {
    assert Filter(t, first).snapshot == t.snapshot;
    assert Filter(t, second).snapshot == t.snapshot;
  }

  /** A blank search after a load shows the loaded rows again. */
  lemma BlankFilterRestoresLoad(t: Table, rows: seq<string>, term: string)
    requires JsTrim(term) == ""
    ensures Rows(Filter(Load(t, Loaded(rows)), term)) == rows
  {
    RowsRoundTrip(rows);
  }

  /** A failed reload leaves the filter working on the last good snapshot. */
  lemma FailedLoadKeepsSnapshot(t: Table, term: string)
    ensures Filter(Load(t, LoadFailed), term) == Filter(t, term)
  {
    var failed := Load(t, LoadFailed);
    assert SnapshotMarkup(failed) == SnapshotMarkup(t);
    if JsTrim(term) == "" {
      assert Filter(failed, term) == Table(SnapshotMarkup(t), t.snapshot);
    } else {
      assert Filter(failed, term).body == Filter(t, term).body;
    }
  }

  lemma ToLowerAppend(a: string, b: string)
    ensures ToLower(a + b) == ToLower(a) + ToLower(b)
  {
    assert forall i :: 0 <= i < |a + b| ==> ToLower(a + b)[i] == (ToLower(a) + ToLower(b))[i];
  }

  /** A row showing the sector "Technology" is found by the term "tech". */
  lemma SectorTermMatches(before: string, after: string)
    ensures Matches(before + "Technology" + after, "tech")
  {
    ToLowerAppend(before + "Technology", after);
    ToLowerAppend(before, "Technology");
    var low := ToLower("Technology");
    assert low[0..4] == "tech";
    assert ToLower("tech") == "tech";
    ContainsWitness(low, "tech", 0);
    ContainsInside(ToLower(before), low, ToLower(after), "tech");
  }
}
