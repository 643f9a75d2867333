/** `showIndexStocks` (app/static/js/main.js:3-120): find or build the
    index-stocks modal, title it, load its table, then show it. */
module IndexModal {
  import opened Registry
  import opened Sections
  import opened IndexTable
  import opened Overlay

  const ModalId := "indexStocksModal"

  /** Everything the call touches. */
  datatype View = View(page: Page, modal: NodeId, title: string, table: Table, overlay: Overlay, path: ShowPath)

  /** The modal is built only when no element has its id, its title becomes
      the index name, the table is loaded (a failed load is handled inside
      `loadIndexStocks` and never stops the show), and the show chain runs. */
  function ShowIndexStocks(p: Page, table: Table, o: Overlay, indexName: string, outcome: LoadOutcome, tk: Toolkit): (v: View)
    requires p.registry.Valid()
    ensures v.page.registry.Valid()
    ensures ModalId in v.page.registry.ids && v.page.registry.ids[ModalId] == v.modal
    ensures ModalId in p.registry.ids ==> v.page == p && v.modal == p.registry.ids[ModalId]
    ensures v.title == indexName
    ensures v.table == Load(table, outcome)
    ensures v.path == ShowModal(o, tk).path && v.overlay == ShowModal(o, tk).overlay
    ensures v.page.hidden == p.hidden && v.page.activeLink == p.activeLink
  {
    var l := GetOrCreate(p.registry, ModalId);
    var shown := ShowModal(o, tk);
    View(p.(registry := l.registry), l.node, indexName, Load(table, outcome), shown.overlay, shown.path)
  }

  /** Opening two indices in a row reuses the first modal. */
  lemma ModalBuiltOnce(p: Page, table: Table, o: Overlay, first: string, second: string,
                       out1: LoadOutcome, out2: LoadOutcome, tk: Toolkit)
    requires p.registry.Valid()
    ensures var v1 := ShowIndexStocks(p, table, o, first, out1, tk);
      var v2 := ShowIndexStocks(v1.page, v1.table, v1.overlay, second, out2, tk);
      v2.modal == v1.modal && v2.page == v1.page && v2.title == second
  {
  }
}
