/** The page records the tool passes around. */
module Pages {
  import opened Text
  import Sorting

  /** Page ids are opaque strings assigned by the server. */
  type Id = string

  /** `{"id": ..., "title": ...}`: a page as a listing returns it. */
  datatype Child = Child(id: Id, title: string)

  /** `{"id": ..., "title": ..., "children": [...]}`: a node of the page tree. */
  datatype PageNode = PageNode(id: Id, title: string, children: seq<PageNode>)

  /** The sort key `x["title"].lower()`. */
  function TitleKey(c: Child): string
  {
    LowerString(c.title)
  }

  /** `sorted(pages, key=lambda x: x["title"].lower())`: the same pages,
      ordered by lower-cased title (`SortByTitleOrders`). */
  function SortByTitle(cs: seq<Child>): (r: seq<Child>)
    ensures multiset(r) == multiset(cs)
    ensures |r| == |cs|
  {
    Sorting.SortBy(cs, TitleKey)
  }

  /** The result is ordered by lower-cased title, pages with equal keys keep
      their old order, and it is the only sequence with both properties. */
  lemma {:induction false} SortByTitleOrders(cs: seq<Child>)
    ensures Sorting.SortedBy(SortByTitle(cs), TitleKey)
    ensures Sorting.Stable(cs, SortByTitle(cs), TitleKey)
    ensures forall t :: Sorting.SortedBy(t, TitleKey) && Sorting.Stable(cs, t, TitleKey) ==> t == SortByTitle(cs)
  {
    Sorting.SortBySorted(cs, TitleKey);
    Sorting.SortByStable(cs, TitleKey);
    forall t | Sorting.SortedBy(t, TitleKey) && Sorting.Stable(cs, t, TitleKey) ensures t == SortByTitle(cs) {
      Sorting.StableSortIsUnique(cs, t, TitleKey);
    }
  }

  /** The `(id, title)` of a node. */
  function Label(n: PageNode): Child
  {
    Child(n.id, n.title)
  }
}
