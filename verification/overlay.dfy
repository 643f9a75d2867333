/** How `showIndexStocks` opens its modal (app/static/js/main.js:93-116):
    Bootstrap when its global exists, else jQuery, else by hand with a
    backdrop element it creates itself. */
module Overlay {

  /** Which libraries the page has loaded: the `bootstrap` global, the `$`
      global, and whether that jQuery carries a `modal` plugin. */
  datatype Toolkit = Toolkit(bootstrap: bool, jquery: bool, jqueryModal: bool)

  datatype ShowPath =
    | BootstrapShow
    | JQueryShow
    | ManualShow
    /** `$(modal).modal` is not a function: the call throws, the error is
        logged and nothing is shown. */
    | JQueryThrew

  /** What the manual path touches: the modal's own display, the body's
      `modal-open` class, and the number of backdrop elements it appended. */
  datatype Overlay = Overlay(modalShown: bool, bodyModalOpen: bool, backdrops: nat)

  datatype Shown = Shown(path: ShowPath, overlay: Overlay)

  function ShowModal(o: Overlay, tk: Toolkit): (r: Shown)
    ensures r.path == BootstrapShow <==> tk.bootstrap
    ensures r.path == JQueryShow <==> !tk.bootstrap && tk.jquery && tk.jqueryModal
    ensures r.path == JQueryThrew <==> !tk.bootstrap && tk.jquery && !tk.jqueryModal
    ensures r.path == ManualShow <==> !tk.bootstrap && !tk.jquery
    ensures r.path == ManualShow ==> r.overlay == Overlay(true, true, o.backdrops + 1)
    ensures r.path != ManualShow ==> r.overlay == o
  {
    if tk.bootstrap then Shown(BootstrapShow, o)
    else if tk.jquery then Shown(if tk.jqueryModal then JQueryShow else JQueryThrew, o)
    else Shown(ManualShow, Overlay(true, true, o.backdrops + 1))
  }

  /** The same show repeated `n` times. */
  function ShowRepeatedly(o: Overlay, tk: Toolkit, n: nat): Overlay
    decreases n
  {
    if n == 0 then o else ShowRepeatedly(ShowModal(o, tk).overlay, tk, n - 1)
  }

  /** The manual path never reuses a backdrop: each show adds one more. */
  lemma {:induction false} BackdropsAccumulate(o: Overlay, tk: Toolkit, n: nat)
    requires !tk.bootstrap && !tk.jquery
    ensures ShowRepeatedly(o, tk, n).backdrops == o.backdrops + n
    decreases n
  {
    if n > 0 {
      BackdropsAccumulate(ShowModal(o, tk).overlay, tk, n - 1);
    }
  }

  /** With either library present, no backdrop is ever added by this code. */
  lemma {:induction false} LibrariesAddNoBackdrop(o: Overlay, tk: Toolkit, n: nat)
    requires tk.bootstrap || tk.jquery
    ensures ShowRepeatedly(o, tk, n) == o
    decreases n
  {
    if n > 0 {
      LibrariesAddNoBackdrop(ShowModal(o, tk).overlay, tk, n - 1);
    }
  }
}
