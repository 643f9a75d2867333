/** The sidebar links and the search box (app/static/js/main.js:252-303). */
module Navigation {
  import opened Common
  import opened Text
  import opened Sections

  /** `this.getAttribute('href').substring(1)`: the href without its first
      character (`substring(1)` of an empty string is empty). */
  function Target(href: string): (t: string)
    ensures |href| >= 1 ==> href == [href[0]] + t
    ensures |href| == 0 ==> t == ""
  {
    if |href| >= 1 then href[1..] else ""
  }

  /** The `switch` on the target: five handlers, the dashboard by default.
      The handlers are the ones the page has, as written: each section
      handler hides every `.row.mb-4` but its root, and the dashboard shows
      them all again. */
  function Dispatch(p: Page, target: string): (r: Page)
    requires p.registry.Valid()
    ensures r.registry.Valid()
    ensures target == "discover" ==> r == ShowSectionAsWritten(p, Discover)
    ensures target == "watchlist" ==> r == ShowSectionAsWritten(p, Watchlist)
    ensures target == "news" ==> r == ShowSectionAsWritten(p, News)
    ensures target == "settings" ==> r == ShowSectionAsWritten(p, Settings)
    ensures target !in {"discover", "watchlist", "news", "settings"} ==> r == ShowDashboardAsWritten(p)
  {
    match target
    case "dashboard" => ShowDashboardAsWritten(p)
    case "discover" => ShowSectionAsWritten(p, Discover)
    case "watchlist" => ShowSectionAsWritten(p, Watchlist)
    case "news" => ShowSectionAsWritten(p, News)
    case "settings" => ShowSectionAsWritten(p, Settings)
    case _ => ShowDashboardAsWritten(p)
  }

  /** The same `switch` over the corrected handlers, which toggle only the
      top-level rows. */
  function DispatchIntended(p: Page, target: string): (r: Page)
    requires p.registry.Valid()
    ensures r.registry.Valid()
    ensures target == "discover" ==> r == ShowSection(p, Discover)
    ensures target == "watchlist" ==> r == ShowSection(p, Watchlist)
    ensures target == "news" ==> r == ShowSection(p, News)
    ensures target == "settings" ==> r == ShowSection(p, Settings)
    ensures target !in {"discover", "watchlist", "news", "settings"} ==> r == ShowDashboard(p)
  {
    match target
    case "dashboard" => ShowDashboard(p)
    case "discover" => ShowSection(p, Discover)
    case "watchlist" => ShowSection(p, Watchlist)
    case "news" => ShowSection(p, News)
    case "settings" => ShowSection(p, Settings)
    case _ => ShowDashboard(p)
  }

  /** A click on sidebar link `link`: it becomes the active link, then its
      `href` is dispatched. A link without an `href` makes `substring` throw
      after the active link has moved, and nothing else changes. */
  function Navigate(p: Page, link: nat, href: Option<string>): (r: Page)
    requires p.registry.Valid()
    ensures r.activeLink == Some(link)
    ensures r.registry.Valid()
    ensures href.None? ==> r == p.(activeLink := Some(link))
    ensures href.Some? ==> r == Dispatch(p.(activeLink := Some(link)), Target(href.value))
  {
    var marked := p.(activeLink := Some(link));
    match href
    case None => marked
    case Some(h) => Dispatch(marked, Target(h))
  }

  /** A click as the corrected handlers would answer it. */
  function NavigateIntended(p: Page, link: nat, href: Option<string>): (r: Page)
    requires p.registry.Valid()
    ensures r.activeLink == Some(link)
    ensures r.registry.Valid()
    ensures href.None? ==> r == p.(activeLink := Some(link))
    ensures href.Some? ==> r == DispatchIntended(p.(activeLink := Some(link)), Target(href.value))
  {
    var marked := p.(activeLink := Some(link));
    match href
    case None => marked
    case Some(h) => DispatchIntended(marked, Target(h))
  }

  /** The name a sidebar link's `href` carries for a section: the
      section's element id without its "-section" suffix. */
  function LinkName(s: Section): (name: string)
    ensures SectionId(s) == name + "-section"
    ensures |name| >= 2
  {
    match s
    case Discover => "discover"
    case Watchlist => "watchlist"
    case News => "news"
    case Settings => "settings"
  }

  /** `#name` links reach their handler; an href without the `#` lands on
      the dashboard, as does "#dashboard". */
  lemma HashLinksReachHandlers(p: Page, link: nat, s: Section)
    requires p.registry.Valid()
    ensures var marked := p.(activeLink := Some(link));
      && Navigate(p, link, Some("#" + LinkName(s))) == ShowSectionAsWritten(marked, s)
      && Navigate(p, link, Some(LinkName(s))) == ShowDashboardAsWritten(marked)
      && Navigate(p, link, Some("#dashboard")) == ShowDashboardAsWritten(marked)
      && NavigateIntended(p, link, Some("#" + LinkName(s))) == ShowSection(marked, s)
      && NavigateIntended(p, link, Some(LinkName(s))) == ShowDashboard(marked)
      && NavigateIntended(p, link, Some("#dashboard")) == ShowDashboard(marked)
  {
    var name := LinkName(s);
    var marked := p.(activeLink := Some(link));
    HashIsDropped(name);
    HashIsDropped("dashboard");
    BareNameIsNoTarget(s);
  }

  /** Clicking the discover link twice, as written, leaves the filter row
      hidden; with the corrected handlers it stays. */
  lemma DiscoverLinkTwice(p: Page, link: nat)
    requires p.registry.Valid() && !Built(p, Discover)
    ensures var once := Navigate(p, link, Some("#discover"));
      var twice := Navigate(once, link, Some("#discover"));
      Visible(once, DiscoverFilters) && !Visible(twice, DiscoverFilters)
    ensures var twice := NavigateIntended(NavigateIntended(p, link, Some("#discover")), link, Some("#discover"));
      Visible(twice, DiscoverFilters)
  {
    var marked := p.(activeLink := Some(link));
    HashLinksReachHandlers(p, link, Discover);
    var once := Navigate(p, link, Some("#discover"));
    HashLinksReachHandlers(once, link, Discover);
    assert once.(activeLink := Some(link)) == once;
    DiscoverTwiceHidesFilters(marked);
    var onceI := NavigateIntended(p, link, Some("#discover"));
    HashLinksReachHandlers(onceI, link, Discover);
    assert onceI.(activeLink := Some(link)) == onceI;
    DiscoverTwiceKeepsFilters(marked);
  }

  /** The watchlist link, then the dashboard link: as written the watchlist
      stays on screen; with the corrected handlers it is hidden. */
  lemma WatchlistThenDashboard(p: Page, link: nat, back: nat)
    requires p.registry.Valid()
    ensures var r := Navigate(Navigate(p, link, Some("#watchlist")), back, Some("#dashboard"));
      Visible(r, SectionRoot(Watchlist))
    ensures var r := NavigateIntended(NavigateIntended(p, link, Some("#watchlist")), back, Some("#dashboard"));
      !Visible(r, SectionRoot(Watchlist))
  {
    var marked := p.(activeLink := Some(link));
    HashLinksReachHandlers(p, link, Watchlist);
    var once := Navigate(p, link, Some("#watchlist"));
    HashLinksReachHandlers(once, back, Watchlist);
    DashboardShowsStaleSection(marked, Watchlist);
    var onceI := NavigateIntended(p, link, Some("#watchlist"));
    HashLinksReachHandlers(onceI, back, Watchlist);
    DashboardHidesSections(marked, Watchlist);
  }

  /** The `#` in front of a name is what `substring(1)` drops. */
  lemma HashIsDropped(name: string)
    ensures Target("#" + name) == name
  {
    assert ("#" + name)[1..] == name;
  }

  /** A section's name without the `#` loses its first letter and is no
      handler's name. */
  lemma BareNameIsNoTarget(s: Section)
    ensures Target(LinkName(s)) !in {"discover", "watchlist", "news", "settings"}
  {
    var name := LinkName(s);
    var t := Target(name);
    assert t[0] == name[1];
    FirstLetterRules(t);
  }

  /** The four handler names begin with d, w, n and s; the second letters of
      those names (i, a, e, e) begin none of them. */
  lemma FirstLetterRules(t: string)
    requires |t| >= 1 && t[0] in "iae"
    ensures t !in {"discover", "watchlist", "news", "settings"}
  {
    assert "discover"[0] == 'd' && "watchlist"[0] == 'w' && "news"[0] == 'n' && "settings"[0] == 's';
  }

  // ---------------------------------------------------------------------------
  // searchStock
  // ---------------------------------------------------------------------------

  /** The outcome of a search: the symbol whose details open, if any, and
      what is left in the input box. */
  datatype Search = Search(details: Option<string>, input: string)

  /** `searchStock`: trim and upper-case the input; an empty result does
      nothing, anything else opens that symbol and clears the box. */
  function SearchStock(input: string): (r: Search)
    ensures r.details.None? <==> forall i :: 0 <= i < |input| ==> IsJsSpace(input[i])
    ensures r.details.None? ==> r.input == input
    ensures r.details.Some? ==> r.input == "" && r.details.value == ToUpper(JsTrim(input))
  {
    var symbol := ToUpper(JsTrim(input));
    if symbol == "" then Search(None, input) else Search(Some(symbol), "")
  }

  lemma UpperKeepsSpace(c: char)
    ensures IsJsSpace(UpperChar(c)) <==> IsJsSpace(c)
  {
  }

  /** A symbol the search opened, typed again, opens the same symbol. */
  lemma {:induction false} SearchIdempotent(input: string)
    requires SearchStock(input).details.Some?
    ensures SearchStock(SearchStock(input).details.value).details == SearchStock(input).details
  {
    var symbol := SearchStock(input).details.value;
    var t := JsTrim(input);
    assert |symbol| == |t| > 0;
    UpperKeepsSpace(t[0]);
    UpperKeepsSpace(t[|t| - 1]);
    TrimUnchanged(symbol, IsJsSpace);
    assert ToUpper(symbol) == symbol;
  }

  /** The opened symbol never holds a lower-case ASCII letter or surrounding
      white space. */
  lemma SearchSymbolShape(input: string)
    requires SearchStock(input).details.Some?
    ensures var symbol := SearchStock(input).details.value;
      && (forall i :: 0 <= i < |symbol| ==> !('a' <= symbol[i] <= 'z'))
      && !IsJsSpace(symbol[0]) && !IsJsSpace(symbol[|symbol| - 1])
  {
    var t := JsTrim(input);
    UpperKeepsSpace(t[0]);
    UpperKeepsSpace(t[|t| - 1]);
  }
}
