/** The three offset-paginated listings: `list_spaces`, `get_root_pages` and
    `get_children`. Each request asks for `limit` results from offset
    `start`; the server is an oracle giving, for the `k`-th request of a
    listing, what `_get` returned for it. Beyond the pages listed the server
    answers with an empty page that has no `next` link. */
module Pagination {
  import opened Options
  import opened Fetcher
  import opened Pages

  /** `limit` of every listing request. */
  const Limit: nat := 100

  /** A decoded listing response: `data.get("results", [])` and whether
      `data["_links"]["next"]` is present and non-empty. */
  datatype Page<T> = Page(results: seq<T>, hasNext: bool)

  /** A space as the server returns it; a missing `key` or `name` is `None`. */
  datatype RawSpace = RawSpace(key: Option<string>, name: Option<string>)

  /** `{"key": ..., "name": ...}` as `list_spaces` returns it. */
  datatype Space = Space(key: string, name: string)

  /** A page as the server lists it; `ancestors` is `None` when missing
      (child listings do not expand it). */
  datatype RawPage = RawPage(id: Id, title: string, ancestors: Option<seq<Id>>)

  /** A listing's outcome: every collected item, or the exception or exit of
      the `_get` that ended it (earlier items are then lost). */
  datatype Listing<U> = Listed(items: seq<U>) | Aborted(fault: Fault)

  /** A listing and the number of requests it issued. */
  datatype Walk<U> = Walk(listing: Listing<U>, requests: nat)

  type Server<T> = seq<GetResult<Page<T>>>

  function PageAt<T>(pages: Server<T>, k: nat): GetResult<Page<T>>
  {
    if k < |pages| then pages[k] else Return(Page([], false))
  }

  /** The items the loop appends for the results `s`, `f` giving each one's. */
  function FlatMap<T, U>(s: seq<T>, f: T -> seq<U>): seq<U>
  {
    if s == [] then [] else f(s[0]) + FlatMap(s[1..], f)
  }

  lemma {:induction false} FlatMapAppend<T, U>(a: seq<T>, b: seq<T>, f: T -> seq<U>)
    ensures FlatMap(a + b, f) == FlatMap(a, f) + FlatMap(b, f)
  {
    if a == [] {
      assert a + b == b;
    } else {
      assert (a + b)[1..] == a[1..] + b;
      FlatMapAppend(a[1..], b, f);
    }
  }

  /** Whether the loop ends at the `k`-th request: `_get` failed, the page
      has no `next` link, or (`get_root_pages` only) the page is empty. */
  predicate Terminal<T>(pages: Server<T>, k: nat, stopOnEmpty: bool)
  {
    match PageAt(pages, k)
    case Failed(_) => true
    case Return(p) => !p.hasNext || (stopOnEmpty && p.results == [])
  }

  /** The listing starting with the `k`-th request. */
  function WalkFrom<T, U>(pages: Server<T>, k: nat, stopOnEmpty: bool, f: T -> seq<U>): Walk<U>
    decreases |pages| - k
  {
    match PageAt(pages, k)
    case Failed(e) => Walk(Aborted(e), 1)
    case Return(p) =>
      if stopOnEmpty && p.results == [] then Walk(Listed([]), 1)
      else if !p.hasNext then Walk(Listed(FlatMap(p.results, f)), 1)
      else
        var w := WalkFrom(pages, k + 1, stopOnEmpty, f);
        match w.listing
        case Listed(xs) => Walk(Listed(FlatMap(p.results, f) + xs), w.requests + 1)
        case Aborted(e) => Walk(Aborted(e), w.requests + 1)
  }

  /** `w` after earlier requests collected `xs` in `n` requests. */
  function After<U>(xs: seq<U>, n: nat, w: Walk<U>): Walk<U>
  {
    match w.listing
    case Listed(ys) => Walk(Listed(xs + ys), n + w.requests)
    case Aborted(e) => Walk(Aborted(e), n + w.requests)
  }

  /** One more page that is not the last one. */
  lemma {:induction false} WalkStep<T, U>(pages: Server<T>, k: nat, stopOnEmpty: bool, f: T -> seq<U>, acc: seq<U>)
    requires PageAt(pages, k).Return? && !Terminal(pages, k, stopOnEmpty)
    ensures After(acc, k, WalkFrom(pages, k, stopOnEmpty, f))
         == After(acc + FlatMap(PageAt(pages, k).body.results, f), k + 1, WalkFrom(pages, k + 1, stopOnEmpty, f))
  {
    var w := WalkFrom(pages, k + 1, stopOnEmpty, f);
    var here := FlatMap(PageAt(pages, k).body.results, f);
    if w.listing.Listed? {
      assert acc + (here + w.listing.items) == (acc + here) + w.listing.items;
    }
  }

  /** The request that ends the loop with a page. */
  lemma {:induction false} WalkLast<T, U>(pages: Server<T>, k: nat, stopOnEmpty: bool, f: T -> seq<U>, acc: seq<U>)
    requires PageAt(pages, k).Return? && Terminal(pages, k, stopOnEmpty)
    ensures After(acc, k, WalkFrom(pages, k, stopOnEmpty, f))
         == Walk(Listed(acc + FlatMap(PageAt(pages, k).body.results, f)), k + 1)
  {
  }

  /** The request that ends the loop with a failure. */
  lemma {:induction false} WalkFail<T, U>(pages: Server<T>, k: nat, stopOnEmpty: bool, f: T -> seq<U>, acc: seq<U>)
    requires PageAt(pages, k).Failed?
    ensures After(acc, k, WalkFrom(pages, k, stopOnEmpty, f)) == Walk(Aborted(PageAt(pages, k).fault), k + 1)
  {
  }

  /** The `start` parameter of each of the first `n` requests. */
  function Offsets(n: nat): (r: seq<nat>)
    ensures |r| == n
    ensures forall j :: 0 <= j < n ==> r[j] == j * Limit
  {
    if n == 0 then [] else Offsets(n - 1) + [(n - 1) * Limit]
  }

  /** The results of the `k`-th response (none when `_get` failed). */
  function ResultsAt<T>(pages: Server<T>, k: nat): seq<T>
  {
    match PageAt(pages, k)
    case Return(p) => p.results
    case Failed(_) => []
  }

  /** The results of responses `k .. n - 1`, in order. */
  function ResultsFrom<T>(pages: Server<T>, k: nat, n: nat): seq<T>
    decreases n - k
  {
    if n <= k then [] else ResultsAt(pages, k) + ResultsFrom(pages, k + 1, n)
  }

  /** The first request at or after the `k`-th that ends the loop. */
  function FirstTerminal<T>(pages: Server<T>, k: nat, stopOnEmpty: bool): (n: nat)
    ensures k <= n && Terminal(pages, n, stopOnEmpty)
    ensures forall j :: k <= j < n ==> !Terminal(pages, j, stopOnEmpty)
    ensures n <= if k < |pages| then |pages| else k
    decreases |pages| - k
  {
    if Terminal(pages, k, stopOnEmpty) then k else FirstTerminal(pages, k + 1, stopOnEmpty)
  }

  lemma {:induction false} WalkFromCollects<T, U>(pages: Server<T>, k: nat, stopOnEmpty: bool, f: T -> seq<U>)
    ensures var n := FirstTerminal(pages, k, stopOnEmpty);
      var w := WalkFrom(pages, k, stopOnEmpty, f);
      && w.requests == n - k + 1
      && (PageAt(pages, n).Failed? ==> w.listing == Aborted(PageAt(pages, n).fault))
      && (PageAt(pages, n).Return? ==> w.listing == Listed(FlatMap(ResultsFrom(pages, k, n + 1), f)))
    decreases |pages| - k
  {
    var n := FirstTerminal(pages, k, stopOnEmpty);
    if n == k {
      assert ResultsFrom(pages, k, n + 1) == ResultsAt(pages, k) + [];
      assert ResultsFrom(pages, k, n + 1) == ResultsAt(pages, k);
      if stopOnEmpty && PageAt(pages, k).Return? && PageAt(pages, k).body.results == [] {
        assert FlatMap(ResultsFrom(pages, k, n + 1), f) == [];
      }
    } else {
      WalkFromCollects(pages, k + 1, stopOnEmpty, f);
      FlatMapAppend(ResultsAt(pages, k), ResultsFrom(pages, k + 1, n + 1), f);
    }
  }

  /** Every listing issues requests up to and including the first one that
      fails, has no `next` link or (with `stopOnEmpty`) is empty, and no
      more; it collects the results of all of those pages in page order, or
      ends with the failure of the last one. */
  lemma {:induction false} WalkCollects<T, U>(pages: Server<T>, stopOnEmpty: bool, f: T -> seq<U>)
    ensures var n := FirstTerminal(pages, 0, stopOnEmpty);
      var w := WalkFrom(pages, 0, stopOnEmpty, f);
      && w.requests == n + 1
      && (PageAt(pages, n).Failed? ==> w.listing == Aborted(PageAt(pages, n).fault))
      && (PageAt(pages, n).Return? ==> w.listing == Listed(FlatMap(ResultsFrom(pages, 0, n + 1), f)))
  {
    WalkFromCollects(pages, 0, stopOnEmpty, f);
  }

  /** For a mapping that gives one item per result, `FlatMap` is a map. */
  lemma {:induction false} FlatMapSingle<T, U>(s: seq<T>, f: T -> seq<U>, g: T -> U)
    requires forall x :: x in s ==> f(x) == [g(x)]
    ensures |FlatMap(s, f)| == |s|
    ensures forall i :: 0 <= i < |s| ==> FlatMap(s, f)[i] == g(s[i])
  {
    if s != [] {
      FlatMapSingle(s[1..], f, g);
      assert forall i :: 0 < i < |s| ==> s[i] == s[1..][i - 1];
    }
  }

  // ---------------------------------------------------------------------
  // list_spaces

  /** `{"key": s.get("key", ""), "name": s.get("name", "")}`. */
  function SpaceOf(s: RawSpace): Space
  {
    Space(if s.key.Some? then s.key.value else "", if s.name.Some? then s.name.value else "")
  }

  function SpaceItems(s: RawSpace): seq<Space> { [SpaceOf(s)] }

  /** The `for s in data.get("results", [])` loop of `list_spaces`. */
  method AppendSpaces(acc: seq<Space>, results: seq<RawSpace>) returns (r: seq<Space>)
    ensures r == acc + FlatMap(results, SpaceItems)
  {
    r := acc;
    var j := 0;
    while j < |results|
      invariant 0 <= j <= |results|
      invariant r == acc + FlatMap(results[..j], SpaceItems)
    {
      FlatMapAppend(results[..j], [results[j]], SpaceItems);
      assert results[..j + 1] == results[..j] + [results[j]];
      r := r + [SpaceOf(results[j])];
      j := j + 1;
    }
    assert results[..j] == results;
  }

  /** `list_spaces`: `starts` are the offsets requested. */
  method ListSpaces(pages: Server<RawSpace>) returns (spaces: Listing<Space>, starts: seq<nat>)
    ensures Walk(spaces, |starts|) == WalkFrom(pages, 0, false, SpaceItems)
    ensures starts == Offsets(|starts|)
  {
    var acc: seq<Space> := [];
    var start: nat := 0;
    var k: nat := 0;
    starts := [];
    while true
      invariant start == k * Limit && starts == Offsets(k)
      invariant After(acc, k, WalkFrom(pages, k, false, SpaceItems)) == WalkFrom(pages, 0, false, SpaceItems)
      decreases |pages| - k
    {
      starts := starts + [start];
      var r := PageAt(pages, k);
      if r.Failed? {
        WalkFail(pages, k, false, SpaceItems, acc);
        spaces := Aborted(r.fault);
        return;
      }
      var data := r.body;
      ghost var before := acc;
      acc := AppendSpaces(acc, data.results);
      if !data.hasNext {
        WalkLast(pages, k, false, SpaceItems, before);
        spaces := Listed(acc);
        return;
      }
      WalkStep(pages, k, false, SpaceItems, before);
      start := start + Limit;
      k := k + 1;
    }
  }

  /** `list_spaces` returns one space per result of every page it fetched,
      in page order, with a missing key or name replaced by `""`. */
  lemma {:induction false} ListSpacesCollectsAll(pages: Server<RawSpace>)
    ensures var n := FirstTerminal(pages, 0, false);
      var all := ResultsFrom(pages, 0, n + 1);
      var w := WalkFrom(pages, 0, false, SpaceItems);
      && w.requests == n + 1
      && (PageAt(pages, n).Return? <==> w.listing.Listed?)
      && (w.listing.Listed? ==>
            && |w.listing.items| == |all|
            && forall i :: 0 <= i < |all| ==>
                 && w.listing.items[i].key == (if all[i].key.Some? then all[i].key.value else "")
                 && w.listing.items[i].name == (if all[i].name.Some? then all[i].name.value else ""))
  {
    var n := FirstTerminal(pages, 0, false);
    WalkCollects(pages, false, SpaceItems);
    FlatMapSingle(ResultsFrom(pages, 0, n + 1), SpaceItems, SpaceOf);
  }

  // ---------------------------------------------------------------------
  // get_root_pages

  /** Whether `not p.get("ancestors")`: missing or empty. */
  predicate IsRoot(p: RawPage)
  {
    p.ancestors.None? || p.ancestors.value == []
  }

  function RootItems(p: RawPage): seq<Child>
  {
    if IsRoot(p) then [Child(p.id, p.title)] else []
  }

  /** What `get_root_pages` returns. */
  function RootPages(pages: Server<RawPage>): Walk<Child>
  {
    var w := WalkFrom(pages, 0, true, RootItems);
    match w.listing
    case Listed(xs) => Walk(Listed(SortByTitle(xs)), w.requests)
    case Aborted(e) => w
  }

  /** The `for p in results` loop of `get_root_pages`. */
  method AppendRoots(acc: seq<Child>, results: seq<RawPage>) returns (r: seq<Child>)
    ensures r == acc + FlatMap(results, RootItems)
  {
    r := acc;
    var j := 0;
    while j < |results|
      invariant 0 <= j <= |results|
      invariant r == acc + FlatMap(results[..j], RootItems)
    {
      FlatMapAppend(results[..j], [results[j]], RootItems);
      assert results[..j + 1] == results[..j] + [results[j]];
      var p := results[j];
      if IsRoot(p) {
        r := r + [Child(p.id, p.title)];
      }
      j := j + 1;
    }
    assert results[..j] == results;
  }

  /** `get_root_pages`. */
  method GetRootPages(pages: Server<RawPage>) returns (roots: Listing<Child>, starts: seq<nat>)
    ensures Walk(roots, |starts|) == RootPages(pages)
    ensures starts == Offsets(|starts|)
  {
    var acc: seq<Child> := [];
    var start: nat := 0;
    var k: nat := 0;
    starts := [];
    while true
      invariant start == k * Limit && starts == Offsets(k)
      invariant After(acc, k, WalkFrom(pages, k, true, RootItems)) == WalkFrom(pages, 0, true, RootItems)
      decreases |pages| - k
    {
      starts := starts + [start];
      var r := PageAt(pages, k);
      if r.Failed? {
        WalkFail(pages, k, true, RootItems, acc);
        roots := Aborted(r.fault);
        return;
      }
      var data := r.body;
      if data.results == [] {
        WalkLast(pages, k, true, RootItems, acc);
        assert acc + FlatMap(data.results, RootItems) == acc;
        break;
      }
      ghost var before := acc;
      acc := AppendRoots(acc, data.results);
      start := start + Limit;
      if !data.hasNext {
        WalkLast(pages, k, true, RootItems, before);
        break;
      }
      WalkStep(pages, k, true, RootItems, before);
      k := k + 1;
    }
    roots := Listed(SortByTitle(acc));
  }

  lemma {:induction false} RootItemsMembers(s: seq<RawPage>, x: Child)
    ensures x in FlatMap(s, RootItems) <==> exists p :: p in s && IsRoot(p) && x == Child(p.id, p.title)
  {
    if s != [] {
      RootItemsMembers(s[1..], x);
      assert forall p :: p in s <==> p == s[0] || p in s[1..];
    }
  }

  /** The roots of `rs` after sorting are exactly the results of `rs`
      without ancestors. */
  lemma {:induction false} SortedRootMembers(rs: seq<RawPage>)
    ensures forall x :: x in SortByTitle(FlatMap(rs, RootItems)) <==> exists p :: p in rs && IsRoot(p) && x == Child(p.id, p.title)
  {
    var raw := FlatMap(rs, RootItems);
    SameMembers(raw, SortByTitle(raw));
    forall x ensures x in raw <==> exists p :: p in rs && IsRoot(p) && x == Child(p.id, p.title) {
      RootItemsMembers(rs, x);
    }
  }

  /** `get_root_pages` keeps exactly the results without ancestors, sorted
      stably by lower-cased title; it stops at an empty page or at the first
      page without a `next` link. */
  lemma {:induction false} RootPagesFiltered(pages: Server<RawPage>)
    ensures var n := FirstTerminal(pages, 0, true);
      var all := ResultsFrom(pages, 0, n + 1);
      var w := RootPages(pages);
      && w.requests == n + 1
      && (PageAt(pages, n).Return? <==> w.listing.Listed?)
      && (w.listing.Listed? ==>
            && Sorting.SortedBy(w.listing.items, TitleKey)
            && Sorting.Stable(FlatMap(all, RootItems), w.listing.items, TitleKey)
            && forall x :: x in w.listing.items <==> exists p :: p in all && IsRoot(p) && x == Child(p.id, p.title))
  {
    var n := FirstTerminal(pages, 0, true);
    var all := ResultsFrom(pages, 0, n + 1);
    WalkCollects(pages, true, RootItems);
    var w0 := WalkFrom(pages, 0, true, RootItems);
    if PageAt(pages, n).Return? {
      assert w0.listing == Listed(FlatMap(all, RootItems));
      assert RootPages(pages) == Walk(Listed(SortByTitle(FlatMap(all, RootItems))), w0.requests);
      SortByTitleOrders(FlatMap(all, RootItems));
      SortedRootMembers(all);
    } else {
      assert RootPages(pages) == w0;
    }
  }

  lemma {:induction false} SameMembers<T>(a: seq<T>, b: seq<T>)
    requires multiset(a) == multiset(b)
    ensures forall x :: x in a <==> x in b
  {
    forall x ensures x in a <==> x in b {
      assert x in a <==> x in multiset(a);
      assert x in b <==> x in multiset(b);
    }
  }

  // ---------------------------------------------------------------------
  // get_children

  function ChildItems(p: RawPage): seq<Child> { [Child(p.id, p.title)] }

  /** The `for p in results: yield ...` loop of `get_children`. */
  method YieldChildren(acc: seq<Child>, results: seq<RawPage>) returns (r: seq<Child>)
    ensures r == acc + FlatMap(results, ChildItems)
  {
    r := acc;
    var j := 0;
    while j < |results|
      invariant 0 <= j <= |results|
      invariant r == acc + FlatMap(results[..j], ChildItems)
    {
      FlatMapAppend(results[..j], [results[j]], ChildItems);
      assert results[..j + 1] == results[..j] + [results[j]];
      var p := results[j];
      r := r + [Child(p.id, p.title)];
      j := j + 1;
    }
    assert results[..j] == results;
  }

  /** `list(get_children(...))`. */
  method GetChildren(pages: Server<RawPage>) returns (children: Listing<Child>, starts: seq<nat>)
    ensures Walk(children, |starts|) == WalkFrom(pages, 0, false, ChildItems)
    ensures starts == Offsets(|starts|)
  {
    var acc: seq<Child> := [];
    var start: nat := 0;
    var k: nat := 0;
    starts := [];
    while true
      invariant start == k * Limit && starts == Offsets(k)
      invariant After(acc, k, WalkFrom(pages, k, false, ChildItems)) == WalkFrom(pages, 0, false, ChildItems)
      decreases |pages| - k
    {
      starts := starts + [start];
      var r := PageAt(pages, k);
      if r.Failed? {
        WalkFail(pages, k, false, ChildItems, acc);
        children := Aborted(r.fault);
        return;
      }
      var data := r.body;
      ghost var before := acc;
      acc := YieldChildren(acc, data.results);
      if !data.hasNext {
        WalkLast(pages, k, false, ChildItems, before);
        children := Listed(acc);
        return;
      }
      WalkStep(pages, k, false, ChildItems, before);
      start := start + Limit;
      k := k + 1;
    }
  }

  /** `get_children` yields one child per result of every page it fetched,
      in page order; a failing page discards the whole listing. */
  lemma {:induction false} GetChildrenCollectsAll(pages: Server<RawPage>)
    ensures var n := FirstTerminal(pages, 0, false);
      var all := ResultsFrom(pages, 0, n + 1);
      var w := WalkFrom(pages, 0, false, ChildItems);
      && w.requests == n + 1
      && (PageAt(pages, n).Return? <==> w.listing.Listed?)
      && (w.listing.Listed? ==>
            |w.listing.items| == |all|
            && forall i :: 0 <= i < |all| ==> w.listing.items[i] == Child(all[i].id, all[i].title))
  {
    var n := FirstTerminal(pages, 0, false);
    WalkCollects(pages, false, ChildItems);
    FlatMapSingle(ResultsFrom(pages, 0, n + 1), ChildItems, (p: RawPage) => Child(p.id, p.title));
  }
}
