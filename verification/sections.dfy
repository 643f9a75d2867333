/** The page's sections and which of them are on screen
    (app/static/js/main.js:305-519).

    `showDashboard` and the four `showX` handlers work on every element
    matching `.row.mb-4`: the dashboard's own rows, the root of each section
    built so far (its class is `row mb-4`), and the filter row inside the
    discover section, which carries the same two classes. */
module Sections {
  import opened Common
  import opened Registry

  datatype Section = Discover | Watchlist | News | Settings

  const AllSections: seq<Section> := [Discover, Watchlist, News, Settings]

  function SectionId(s: Section): string {
    match s
    case Discover => "discover-section"
    case Watchlist => "watchlist-section"
    case News => "news-section"
    case Settings => "settings-section"
  }

  /** The elements `.row.mb-4` can match. */
  datatype RowElem = DashboardRow(k: nat) | SectionRoot(s: Section) | DiscoverFilters

  /** `dashboardRows` counts the dashboard's `.row.mb-4` rows; `hidden` holds
      the elements whose `display` is `none`; `activeLink` is the sidebar
      link carrying the `active` class. */
  datatype Page = Page(registry: Registry, dashboardRows: nat, hidden: set<RowElem>, activeLink: Option<nat>)

  /** The page as loaded: nothing built, nothing hidden. */
  function InitialPage(dashboardRows: nat): (p: Page)
    ensures p.registry.Valid()
  {
    Page(Empty, dashboardRows, {}, None)
  }

  predicate Built(p: Page, s: Section) {
    SectionId(s) in p.registry.ids
  }

  function DashboardRows(p: Page): set<RowElem> {
    set k | 0 <= k < p.dashboardRows :: DashboardRow(k)
  }

  function SectionRoots(p: Page): set<RowElem> {
    set s | s in AllSections && Built(p, s) :: SectionRoot(s)
  }

  /** The rows directly under the content container. */
  function TopLevelRows(p: Page): set<RowElem> {
    DashboardRows(p) + SectionRoots(p)
  }

  /** Everything `.row.mb-4` matches. */
  function MatchedRows(p: Page): set<RowElem> {
    TopLevelRows(p) + (if Built(p, Discover) then {DiscoverFilters} else {})
  }

  predicate Visible(p: Page, e: RowElem) {
    e in MatchedRows(p) && e !in p.hidden
  }

  lemma SectionIdsDistinct(a: Section, b: Section)
    ensures SectionId(a) == SectionId(b) ==> a == b
  {
  }

  // ---------------------------------------------------------------------------
  // As written
  // ---------------------------------------------------------------------------

  /** `showX` as written: hide every `.row.mb-4`, build the section if its id
      is missing, show its root. */
  function ShowSectionAsWritten(p: Page, s: Section): (r: Page)
    requires p.registry.Valid()
    ensures r.registry.Valid() && Built(r, s)
    ensures r.hidden == MatchedRows(p) - {SectionRoot(s)}
  {
    var l := GetOrCreate(p.registry, SectionId(s));
    p.(registry := l.registry, hidden := MatchedRows(p) - {SectionRoot(s)})
  }

  /** `showDashboard` as written: every `.row.mb-4` is shown. */
  function ShowDashboardAsWritten(p: Page): (r: Page)
    ensures r.registry == p.registry && r.hidden == {}
  {
    p.(hidden := {})
  }

  /** Opening discover a second time leaves its filter row hidden: the first
      visit built it visible, the second hid it with everything else and
      shows only the section's root. */
  lemma DiscoverTwiceHidesFilters(p: Page)
    requires p.registry.Valid() && !Built(p, Discover)
    ensures var once := ShowSectionAsWritten(p, Discover);
      var twice := ShowSectionAsWritten(once, Discover);
      && Visible(once, DiscoverFilters)
      && Visible(twice, SectionRoot(Discover))
      && !Visible(twice, DiscoverFilters)
  {
    var once := ShowSectionAsWritten(p, Discover);
    assert SectionRoot(Discover) in SectionRoots(once);
    var twice := ShowSectionAsWritten(once, Discover);
    assert SectionRoot(Discover) in SectionRoots(twice);
  }

  /** Going back to the dashboard as written shows a section built earlier
      next to the dashboard's rows. */
  lemma DashboardShowsStaleSection(p: Page, s: Section)
    requires p.registry.Valid()
    ensures var back := ShowDashboardAsWritten(ShowSectionAsWritten(p, s));
      Visible(back, SectionRoot(s))
  {
    var shown := ShowSectionAsWritten(p, s);
    assert SectionRoot(s) in SectionRoots(shown);
  }

  // ---------------------------------------------------------------------------
  // Corrected: only the top-level rows are toggled
  // ---------------------------------------------------------------------------

  /** `showX` with the hiding limited to the top-level rows (the container's
      own children), so the discover filter row is never hidden. */
  function ShowSection(p: Page, s: Section): (r: Page)
    requires p.registry.Valid()
    ensures r.registry.Valid() && Built(r, s)
    ensures r.dashboardRows == p.dashboardRows && r.activeLink == p.activeLink
    ensures forall t :: Built(p, t) ==> Built(r, t)
    ensures forall t :: Built(r, t) ==> t == s || Built(p, t)
    ensures forall e :: e in TopLevelRows(r) ==> (Visible(r, e) <==> e == SectionRoot(s))
    ensures Built(r, Discover) ==> Visible(r, DiscoverFilters)
  {
    var l := GetOrCreate(p.registry, SectionId(s));
    var r := p.(registry := l.registry, hidden := TopLevelRows(p) - {SectionRoot(s)});
    assert SectionRoot(s) in SectionRoots(r);
    assert forall t :: Built(r, t) ==> t == s || Built(p, t) by {
      forall t | Built(r, t) ensures t == s || Built(p, t) {
        SectionIdsDistinct(t, s);
      }
    }
    r
  }

  /** `showDashboard` showing the dashboard's rows and hiding the sections. */
  function ShowDashboard(p: Page): (r: Page)
    ensures r.registry == p.registry && r.dashboardRows == p.dashboardRows && r.activeLink == p.activeLink
    ensures forall e :: e in TopLevelRows(r) ==> (Visible(r, e) <==> e.DashboardRow?)
    ensures Built(r, Discover) ==> Visible(r, DiscoverFilters)
  {
    p.(hidden := SectionRoots(p))
  }

  /** Corrected, discover keeps its filters however often it is opened. */
  lemma DiscoverTwiceKeepsFilters(p: Page)
    requires p.registry.Valid()
    ensures var twice := ShowSection(ShowSection(p, Discover), Discover);
      Visible(twice, SectionRoot(Discover)) && Visible(twice, DiscoverFilters)
  {
    var twice := ShowSection(ShowSection(p, Discover), Discover);
    assert SectionRoot(Discover) in SectionRoots(twice);
  }

  /** Corrected, the dashboard is shown alone after any section. */
  lemma DashboardHidesSections(p: Page, s: Section)
    requires p.registry.Valid()
    ensures var back := ShowDashboard(ShowSection(p, s));
      !Visible(back, SectionRoot(s)) && forall k :: 0 <= k < p.dashboardRows ==> Visible(back, DashboardRow(k))
  {
    var back := ShowDashboard(ShowSection(p, s));
    assert SectionRoot(s) in SectionRoots(back);
    forall k | 0 <= k < p.dashboardRows ensures Visible(back, DashboardRow(k)) {
      assert DashboardRow(k) in DashboardRows(back);
    }
  }
}
