/** The selected movie: `handleMovieSelect` and `handleCloseMovie`. */
module Selection {
  import opened Wrappers
  import opened Catalog

  /** Clicking a result selects it, or deselects it when it is already the
      selection. */
  function Toggle(sel: Option<Id>, id: Id): (r: Option<Id>)
    ensures r.None? <==> sel == Some(id)
    ensures r.Some? ==> r.value == id
  {
    if sel == Some(id) then None else Some(id)
  }

  /** Closing clears the selection, whatever it was. */
  function Close(sel: Option<Id>): (r: Option<Id>)
    ensures r.None?
  {
    None
  }

  /** A detail view is rendered for a truthy selection only: `null` and the
      empty identifier render the watched list instead. */
  function Shown(sel: Option<Id>): (r: bool)
    ensures r ==> sel.Some?
    ensures r <==> sel != None && sel != Some("")
  {
    sel.Some? && sel.value != ""
  }

  /** Clicking the same movie twice returns to no selection from any
      selection other than that movie, and to that movie from itself. */
  lemma ToggleTwice(sel: Option<Id>, id: Id)
    ensures Toggle(Toggle(sel, id), id) == if sel == Some(id) then Some(id) else None
  {
  }

  lemma CloseIdempotent(sel: Option<Id>)
    ensures Close(Close(sel)) == Close(sel)
  {
  }
}
