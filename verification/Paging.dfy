/** Lists that Azure answers page by page; the request for a page may fail. */
module Paging {
  import opened GrpcErrors

  datatype PageReply<T> = Page(items: seq<T>) | PageFailed(error: Error)

  /** The items of all pages. */
  function Concat<T>(pages: seq<PageReply<T>>): seq<T>
    requires forall g | g in pages :: g.Page?
  {
    if pages == [] then [] else pages[0].items + Concat(pages[1..])
  }

  lemma {:induction false} ConcatAppend<T>(pages: seq<PageReply<T>>, g: PageReply<T>)
    requires (forall h | h in pages :: h.Page?) && g.Page?
    ensures Concat(pages + [g]) == Concat(pages) + g.items
  {
    if pages == [] {
      assert pages + [g] == [g];
      assert [g][1..] == [];
    } else {
      assert (pages + [g])[1..] == pages[1..] + [g];
      ConcatAppend(pages[1..], g);
    }
  }
}
