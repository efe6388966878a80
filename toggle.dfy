/** The single-open toggle used by the client for disclosure widgets (the FAQ accordion, the
    per-row action menu): a state that is `null` or the one open item, and a click on an item
    that closes it when it is the open one and opens it otherwise. */
module Toggle {
  import opened Wrappers

  /** `open === x ? null : x`. */
  function Toggled<T(==)>(open: Option<T>, x: T): (r: Option<T>)
    ensures r == None <==> open == Some(x)
    ensures r != None ==> r == Some(x)
  {
    if open == Some(x) then None else Some(x)
  }

  /** Two clicks on the same item: from closed or from that item open, back where it started;
      from another item open, closed. */
  lemma ToggledTwice<T>(open: Option<T>, x: T)
    ensures open == None || open == Some(x) ==> Toggled(Toggled(open, x), x) == open
    ensures open != None && open != Some(x) ==> Toggled(Toggled(open, x), x) == None
  {
  }
}
