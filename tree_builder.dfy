/** `build_tree_with_progress`, drained sequentially.

    The node dictionaries of the source are records in an arena `nodes`,
    and a node's handle is its position there; a node's `children` holds the
    handles of its child nodes, so `nodes` is exactly the object graph the
    source builds. Nodes are appended when they are created and each one gets
    one child-listing task; the tasks still registered in `futures` are the
    nodes from `done` on, and they are completed in creation order.

    The child listing of each page comes from an oracle `cp` mapping a page
    id to the responses of its `get_children` requests; `ls` names the
    outcome of each such listing. The source never stops on a cycle of the
    parent relation, so the builder requires a rank on ids that every listed
    child lowers. */
module TreeBuilder {
  import opened Options
  import opened Fetcher
  import opened Pages
  import opened Pagination
  import Sorting

  type ChildServer = Id -> Server<RawPage>

  /** What `list(get_children(base_url, id, auth))` ends with. */
  function ListingOf(cp: ChildServer, id: Id): Listing<Child>
  {
    WalkFrom(cp(id), 0, false, ChildItems).listing
  }

  /** The outcome of each page's child listing, named once so that the
      reasoning about the tree does not depend on how listings page. */
  type Lister = Id -> Listing<Child>

  ghost predicate Lists(cp: ChildServer, ls: Lister)
  {
    forall id :: ls(id) == ListingOf(cp, id)
  }

  /** The listing ended in `SystemExit`, which `except Exception` does not catch. */
  predicate ExitsOn(ls: Lister, id: Id)
  {
    ls(id).Aborted? && ls(id).fault.AuthExit?
  }

  /** `children_list`: the listing, or `[]` when it raised an `Exception`. */
  function ChildrenOf(ls: Lister, id: Id): seq<Child>
  {
    match ls(id)
    case Listed(xs) => xs
    case Aborted(_) => []
  }

  /** The children a node with this id receives, in order. */
  function SortedChildren(ls: Lister, id: Id): seq<Child>
  {
    SortByTitle(ChildrenOf(ls, id))
  }

  /** A node dictionary; `children` are handles into the arena. */
  datatype Slot = Slot(id: Id, title: string, children: seq<nat>)

  function SlotLabel(s: Slot): Child
  {
    Child(s.id, s.title)
  }

  /** The `(id, title)` of each slot, in arena order. */
  function Labels(slots: seq<Slot>): (r: seq<Child>)
    ensures |r| == |slots|
    ensures forall h :: 0 <= h < |slots| ==> r[h] == SlotLabel(slots[h])
  {
    if slots == [] then [] else Labels(slots[..|slots| - 1]) + [SlotLabel(slots[|slots| - 1])]
  }

  /** Fresh nodes for `cs`, with empty children, as the loop creates them. */
  function NewSlots(cs: seq<Child>): (r: seq<Slot>)
    ensures |r| == |cs|
    ensures forall j :: 0 <= j < |cs| ==> r[j] == Slot(cs[j].id, cs[j].title, [])
  {
    if cs == [] then [] else NewSlots(cs[..|cs| - 1]) + [Slot(cs[|cs| - 1].id, cs[|cs| - 1].title, [])]
  }

  /** `lo, lo + 1, ..., hi - 1`. */
  function Range(lo: nat, hi: nat): (r: seq<nat>)
    ensures |r| == if lo <= hi then hi - lo else 0
    ensures forall j :: 0 <= j < |r| ==> r[j] == lo + j
    decreases hi - lo
  {
    if hi <= lo then [] else Range(lo, hi - 1) + [hi - 1]
  }

  // ---------------------------------------------------------------------
  // The id -> title index, first writer wins.

  /** `id_to_title` after processing `s` in order: an id already visited is
      never written again. */
  function FirstWins(s: seq<Child>): map<Id, string>
  {
    if s == [] then map[]
    else
      var m := FirstWins(s[..|s| - 1]);
      var c := s[|s| - 1];
      if c.id in m then m else m[c.id := c.title]
  }

  /** The index has an entry for exactly the processed ids. */
  lemma {:induction false} FirstWinsKeys(s: seq<Child>)
    ensures FirstWins(s).Keys == set i | 0 <= i < |s| :: s[i].id
  {
    if s != [] {
      var p := s[..|s| - 1];
      FirstWinsKeys(p);
      var ids := set i | 0 <= i < |s| :: s[i].id;
      var pids := set i | 0 <= i < |p| :: p[i].id;
      assert FirstWins(s).Keys == pids + {s[|s| - 1].id};
      forall id | id in ids ensures id in pids + {s[|s| - 1].id} {
        var i :| 0 <= i < |s| && s[i].id == id;
        if i < |p| { assert p[i] == s[i]; }
      }
      forall id | id in pids ensures id in ids {
        var i :| 0 <= i < |p| && p[i].id == id;
        assert s[i] == p[i];
      }
      assert s[|s| - 1].id in ids;
    }
  }

  /** Each entry is the title of the first processed node with that id. */
  lemma {:induction false} FirstWinsFirst(s: seq<Child>, i: nat)
    requires i < |s| && forall j :: 0 <= j < i ==> s[j].id != s[i].id
    ensures s[i].id in FirstWins(s) && FirstWins(s)[s[i].id] == s[i].title
  {
    var p := s[..|s| - 1];
    if i < |p| {
      FirstWinsFirst(p, i);
    } else {
      FirstWinsKeys(p);
      assert forall k :: 0 <= k < |p| ==> p[k].id != s[i].id;
    }
  }

  // ---------------------------------------------------------------------
  // Termination: the work a task still causes.

  /** Every page listed as a child of `id` has a smaller rank than `id`. */
  ghost predicate WellFounded(ls: Lister, rank: Id -> nat)
  {
    forall id, c :: c in ChildrenOf(ls, id) ==> rank(c.id) < rank(id)
  }

  /** The number of tasks the task for `id` causes, itself included. */
  ghost function Work(ls: Lister, rank: Id -> nat, id: Id): nat
    decreases rank(id), 1, 0
  {
    1 + WorkList(ls, rank, SortedChildren(ls, id), rank(id))
  }

  ghost function WorkList(ls: Lister, rank: Id -> nat, cs: seq<Child>, bound: nat): nat
    decreases bound, 0, |cs|
  {
    if cs == [] then 0
    else (if rank(cs[0].id) < bound then Work(ls, rank, cs[0].id) else 0) + WorkList(ls, rank, cs[1..], bound)
  }

  lemma {:induction false} WorkListAppend(ls: Lister, rank: Id -> nat, cs: seq<Child>, c: Child, bound: nat)
    ensures WorkList(ls, rank, cs + [c], bound)
         == WorkList(ls, rank, cs, bound) + (if rank(c.id) < bound then Work(ls, rank, c.id) else 0)
  {
    if cs == [] {
      assert cs + [c] == [c];
    } else {
      assert (cs + [c])[1..] == cs[1..] + [c];
      WorkListAppend(ls, rank, cs[1..], c, bound);
    }
  }

  /** The work of the tasks still registered. */
  ghost function PendingWork(ls: Lister, rank: Id -> nat, nodes: seq<Slot>, from: nat): nat
    decreases |nodes| - from
  {
    if from >= |nodes| then 0 else Work(ls, rank, nodes[from].id) + PendingWork(ls, rank, nodes, from + 1)
  }

  lemma {:induction false} PendingAppend(ls: Lister, rank: Id -> nat, nodes: seq<Slot>, from: nat, s: Slot)
    requires from <= |nodes|
    ensures PendingWork(ls, rank, nodes + [s], from) == PendingWork(ls, rank, nodes, from) + Work(ls, rank, s.id)
    decreases |nodes| - from
  {
    if from < |nodes| {
      PendingAppend(ls, rank, nodes, from + 1, s);
      assert (nodes + [s])[from] == nodes[from];
    }
  }

  lemma {:induction false} PendingFrame(ls: Lister, rank: Id -> nat, a: seq<Slot>, b: seq<Slot>, from: nat)
    requires |a| == |b| && forall h :: from <= h < |a| ==> a[h].id == b[h].id
    ensures PendingWork(ls, rank, a, from) == PendingWork(ls, rank, b, from)
    decreases |a| - from
  {
    if from < |a| { PendingFrame(ls, rank, a, b, from + 1); }
  }

  // ---------------------------------------------------------------------
  // The arena invariant.

  /** Slot `h` is finished: its children are new slots after it, labelled
      with its sorted listing, and its listing did not exit. */
  ghost predicate SlotDone(ls: Lister, nodes: seq<Slot>, h: nat)
    requires h < |nodes|
  {
    var kids := SortedChildren(ls, nodes[h].id);
    && !ExitsOn(ls, nodes[h].id)
    && |nodes[h].children| == |kids|
    && forall j :: 0 <= j < |kids| ==>
         h < nodes[h].children[j] < |nodes| && SlotLabel(nodes[nodes[h].children[j]]) == kids[j]
  }

  /** Slots before `done` are finished, the rest still have no children. */
  ghost predicate Linked(ls: Lister, nodes: seq<Slot>, done: nat)
  {
    && done <= |nodes|
    && (forall h :: done <= h < |nodes| ==> nodes[h].children == [])
    && (forall h :: 0 <= h < done ==> SlotDone(ls, nodes, h))
  }

  lemma {:induction false} SlotDoneFrame(ls: Lister, a: seq<Slot>, b: seq<Slot>, h: nat)
    requires h < |a| <= |b| && SlotDone(ls, a, h) && b[h] == a[h]
    requires forall g :: 0 <= g < |a| ==> SlotLabel(b[g]) == SlotLabel(a[g])
    ensures SlotDone(ls, b, h)
  {
  }

  /** The arena after processing slot `done`, whose sorted listing is `sorted`. */
  function Grow(base: seq<Slot>, done: nat, sorted: seq<Child>): (r: seq<Slot>)
    requires done < |base|
    ensures |r| == |base| + |sorted|
    ensures r[done] == base[done].(children := Range(|base|, |base| + |sorted|))
    ensures forall g :: 0 <= g < |base| && g != done ==> r[g] == base[g]
    ensures forall j :: 0 <= j < |sorted| ==> r[|base| + j] == Slot(sorted[j].id, sorted[j].title, [])
  {
    (base + NewSlots(sorted))[done := base[done].(children := Range(|base|, |base| + |sorted|))]
  }

  lemma {:induction false} GrowLabels(base: seq<Slot>, done: nat, sorted: seq<Child>)
    requires done < |base|
    ensures Labels(Grow(base, done, sorted))[..|base|] == Labels(base)
    ensures forall g :: 0 <= g < |base| ==> SlotLabel(Grow(base, done, sorted)[g]) == SlotLabel(base[g])
  {
    var nodes := Grow(base, done, sorted);
    forall g | 0 <= g < |base| ensures SlotLabel(nodes[g]) == SlotLabel(base[g]) {
      if g == done { assert nodes[g].id == base[g].id && nodes[g].title == base[g].title; }
    }
    var a, b := Labels(nodes)[..|base|], Labels(base);
    assert |a| == |b|;
    forall g | 0 <= g < |base| ensures a[g] == b[g] {
      assert a[g] == SlotLabel(nodes[g]);
    }
  }

  lemma {:induction false} GrowDone(ls: Lister, base: seq<Slot>, done: nat, sorted: seq<Child>)
    requires done < |base|
    requires sorted == SortedChildren(ls, base[done].id) && !ExitsOn(ls, base[done].id)
    ensures SlotDone(ls, Grow(base, done, sorted), done)
  {
    var nodes := Grow(base, done, sorted);
    forall j | 0 <= j < |sorted|
      ensures done < nodes[done].children[j] < |nodes| && SlotLabel(nodes[nodes[done].children[j]]) == sorted[j]
    {
      assert nodes[done].children[j] == |base| + j;
    }
  }

  /** Processing slot `done`: append its children and point it at them. */
  lemma {:induction false} LinkStep(ls: Lister, base: seq<Slot>, done: nat, sorted: seq<Child>)
    requires Linked(ls, base, done) && done < |base|
    requires sorted == SortedChildren(ls, base[done].id) && !ExitsOn(ls, base[done].id)
    ensures Linked(ls, Grow(base, done, sorted), done + 1)
  {
    var nodes := Grow(base, done, sorted);
    GrowLabels(base, done, sorted);
    forall h | 0 <= h < done ensures SlotDone(ls, nodes, h) {
      assert SlotDone(ls, base, h);
      SlotDoneFrame(ls, base, nodes, h);
    }
    GrowDone(ls, base, done, sorted);
    forall h | done + 1 <= h < |nodes| ensures nodes[h].children == [] {
      if h < |base| { assert nodes[h] == base[h]; }
      else { assert nodes[h] == Slot(sorted[h - |base|].id, sorted[h - |base|].title, []); }
    }
  }

  /** Appending the nodes of a listing adds the work of each of them. */
  lemma {:induction false} PendingAppendAll(ls: Lister, rank: Id -> nat, nodes: seq<Slot>, from: nat, cs: seq<Child>, bound: nat)
    requires from <= |nodes|
    requires forall c :: c in cs ==> rank(c.id) < bound
    ensures PendingWork(ls, rank, nodes + NewSlots(cs), from) == PendingWork(ls, rank, nodes, from) + WorkList(ls, rank, cs, bound)
    decreases |cs|
  {
    if cs == [] {
      assert nodes + NewSlots(cs) == nodes;
    } else {
      var init, c := cs[..|cs| - 1], cs[|cs| - 1];
      var s := Slot(c.id, c.title, []);
      assert cs == init + [c];
      assert c in cs && forall d :: d in init ==> d in cs;
      PendingAppendAll(ls, rank, nodes, from, init, bound);
      assert nodes + NewSlots(cs) == (nodes + NewSlots(init)) + [s];
      PendingAppend(ls, rank, nodes + NewSlots(init), from, s);
      WorkListAppend(ls, rank, init, c, bound);
    }
  }

  /** Every child in a sorted listing has a smaller rank than its parent. */
  lemma {:induction false} SortedRanks(ls: Lister, rank: Id -> nat, id: Id)
    requires WellFounded(ls, rank)
    ensures forall c :: c in SortedChildren(ls, id) ==> rank(c.id) < rank(id)
  {
    forall c | c in SortedChildren(ls, id) ensures rank(c.id) < rank(id) {
      assert c in multiset(ChildrenOf(ls, id));
    }
  }

  /** Processing slot `done` lowers the pending work by one. */
  lemma {:induction false} WorkStep(ls: Lister, rank: Id -> nat, base: seq<Slot>, done: nat, sorted: seq<Child>)
    requires WellFounded(ls, rank) && done < |base|
    requires sorted == SortedChildren(ls, base[done].id)
    ensures PendingWork(ls, rank, Grow(base, done, sorted), done + 1) < PendingWork(ls, rank, base, done)
  {
    var id := base[done].id;
    SortedRanks(ls, rank, id);
    PendingAppendAll(ls, rank, base, done + 1, sorted, rank(id));
    GrowPending(ls, rank, base, done, sorted);
  }

  /** Pointing slot `done` at its children does not change the later work. */
  lemma {:induction false} GrowPending(ls: Lister, rank: Id -> nat, base: seq<Slot>, done: nat, sorted: seq<Child>)
    requires done < |base|
    ensures PendingWork(ls, rank, Grow(base, done, sorted), done + 1)
         == PendingWork(ls, rank, base + NewSlots(sorted), done + 1)
  {
    var grown := Grow(base, done, sorted);
    assert forall h :: done + 1 <= h < |grown| ==> (base + NewSlots(sorted))[h] == grown[h];
    PendingFrame(ls, rank, base + NewSlots(sorted), grown, done + 1);
  }

  // ---------------------------------------------------------------------
  // Reading the arena as a tree.

  /** The tree under slot `h`, following its children handles. */
  function Extract(nodes: seq<Slot>, h: nat): PageNode
    requires h < |nodes|
    decreases |nodes| - h, 1, 0
  {
    PageNode(nodes[h].id, nodes[h].title, ExtractAll(nodes, nodes[h].children, h))
  }

  /** The trees under `hs`, children of slot `parent`; a handle that does not
      point after the parent cannot occur in a linked arena. */
  function ExtractAll(nodes: seq<Slot>, hs: seq<nat>, parent: nat): (r: seq<PageNode>)
    requires parent < |nodes|
    ensures |r| == |hs|
    ensures forall j :: 0 <= j < |hs| && parent < hs[j] < |nodes| ==> r[j] == Extract(nodes, hs[j])
    decreases |nodes| - parent, 0, |hs|
  {
    if hs == [] then []
    else
      [if parent < hs[0] < |nodes| then Extract(nodes, hs[0]) else PageNode("", "", [])]
      + ExtractAll(nodes, hs[1..], parent)
  }

  /** The forest of the first `n` slots: the `tree` list the source returns. */
  function Forest(nodes: seq<Slot>, n: nat): (r: seq<PageNode>)
    requires n <= |nodes|
    ensures |r| == n
    ensures forall i :: 0 <= i < n ==> r[i] == Extract(nodes, i)
  {
    if n == 0 then [] else Forest(nodes, n - 1) + [Extract(nodes, n - 1)]
  }

  function NodeLabels(ts: seq<PageNode>): (r: seq<Child>)
    ensures |r| == |ts|
    ensures forall j :: 0 <= j < |ts| ==> r[j] == Label(ts[j])
  {
    if ts == [] then [] else [Label(ts[0])] + NodeLabels(ts[1..])
  }

  /** A tree the builder would produce for this oracle: every node's children
      are its stably sorted listing (empty when the listing failed), and no
      listing in it ended the process. */
  ghost predicate Conforms(ls: Lister, t: PageNode)
    decreases t
  {
    && !ExitsOn(ls, t.id)
    && NodeLabels(t.children) == SortedChildren(ls, t.id)
    && forall j :: 0 <= j < |t.children| ==> Conforms(ls, t.children[j])
  }

  lemma {:induction false} ExtractConforms(ls: Lister, nodes: seq<Slot>, h: nat)
    requires Linked(ls, nodes, |nodes|) && h < |nodes|
    ensures Conforms(ls, Extract(nodes, h))
    decreases |nodes| - h
  {
    var t := Extract(nodes, h);
    assert SlotDone(ls, nodes, h);
    forall j | 0 <= j < |t.children| ensures Conforms(ls, t.children[j]) {
      ExtractConforms(ls, nodes, nodes[h].children[j]);
    }
    assert NodeLabels(t.children) == SortedChildren(ls, t.id);
  }

  /** Once every slot is finished, the first slots read as the forest. */
  lemma {:induction false} ForestConforms(ls: Lister, nodes: seq<Slot>, roots: seq<Child>)
    requires Linked(ls, nodes, |nodes|) && |roots| <= |nodes|
    requires forall k :: 0 <= k < |roots| ==> SlotLabel(nodes[k]) == roots[k]
    ensures NodeLabels(Forest(nodes, |roots|)) == roots
    ensures forall i :: 0 <= i < |roots| ==> Conforms(ls, Forest(nodes, |roots|)[i])
  {
    var tree := Forest(nodes, |roots|);
    forall k | 0 <= k < |roots| ensures Conforms(ls, tree[k]) {
      ExtractConforms(ls, nodes, k);
    }
  }

  /** In a built tree every node's children are its listing ordered by
      lower-cased title, stably, and hold exactly the listed pages. */
  lemma {:induction false} ChildrenSorted(ls: Lister, t: PageNode)
    requires Conforms(ls, t)
    ensures Sorting.SortedBy(NodeLabels(t.children), TitleKey)
    ensures Sorting.Stable(ChildrenOf(ls, t.id), NodeLabels(t.children), TitleKey)
    ensures multiset(NodeLabels(t.children)) == multiset(ChildrenOf(ls, t.id))
  {
    SortByTitleOrders(ChildrenOf(ls, t.id));
  }

  /** A page whose child listing raised an `Exception` is a leaf: its subtree
      is cut off and the listing is not retried. */
  lemma {:induction false} FailedListingIsLeaf(ls: Lister, t: PageNode)
    requires Conforms(ls, t) && ls(t.id).Aborted?
    ensures t.children == []
  {
    assert |NodeLabels(t.children)| == |SortedChildren(ls, t.id)| == |ChildrenOf(ls, t.id)| == 0;
  }

  /** Child nodes are made without looking at `visited`: a page listed under
      two parents appears under both. */
  lemma {:induction false} SharedChild(ls: Lister, t1: PageNode, t2: PageNode, c: Child)
    requires Conforms(ls, t1) && Conforms(ls, t2)
    requires c in ChildrenOf(ls, t1.id) && c in ChildrenOf(ls, t2.id)
    ensures c in NodeLabels(t1.children) && c in NodeLabels(t2.children)
  {
    ChildrenSorted(ls, t1);
    ChildrenSorted(ls, t2);
    assert c in multiset(ChildrenOf(ls, t1.id));
    assert c in multiset(ChildrenOf(ls, t2.id));
  }


  // ---------------------------------------------------------------------
  // The builder.

  /** The index after processing slot `done`: its id is written unless an
      earlier slot already wrote it. */
  lemma {:induction false} IndexStep(base: seq<Slot>, done: nat, sorted: seq<Child>, index: map<Id, string>)
    requires done < |base| && index == FirstWins(Labels(base)[..done])
    ensures FirstWins(Labels(Grow(base, done, sorted))[..done + 1])
         == if base[done].id in index then index else index[base[done].id := base[done].title]
  {
    GrowLabels(base, done, sorted);
    var all, grown := Labels(base), Labels(Grow(base, done, sorted));
    assert grown[..|base|] == all;
    assert grown[..done + 1] == all[..done + 1] by {
      assert grown[..done + 1] == grown[..|base|][..done + 1];
    }
    assert all[..done + 1] == all[..done] + [all[done]];
    FirstWinsSnoc(all[..done], SlotLabel(base[done]));
  }

  /** `FirstWins` of one more node. */
  lemma {:induction false} FirstWinsSnoc(p: seq<Child>, c: Child)
    ensures FirstWins(p + [c]) == if c.id in FirstWins(p) then FirstWins(p) else FirstWins(p)[c.id := c.title]
  {
    assert (p + [c])[..|p|] == p;
  }

  lemma {:induction false} KeysUpdate(m: map<Id, string>, k: Id, v: string)
    ensures m[k := v].Keys == m.Keys + {k}
  {
  }

  /** The nodes for one sorted listing, appended to the arena, and the
      handles the parent node receives. */
  method AttachChildren(base: seq<Slot>, done: nat, sorted: seq<Child>) returns (nodes: seq<Slot>)
    requires done < |base|
    ensures nodes == Grow(base, done, sorted)
  {
    var handles: seq<nat> := [];
    var j := 0;
    nodes := base;
    while j < |sorted|
      invariant 0 <= j <= |sorted|
      invariant nodes == base + NewSlots(sorted[..j]) && handles == Range(|base|, |base| + j)
    {
      assert sorted[..j + 1] == sorted[..j] + [sorted[j]];
      nodes := nodes + [Slot(sorted[j].id, sorted[j].title, [])];
      handles := handles + [|nodes| - 1];
      j := j + 1;
    }
    assert sorted[..j] == sorted;
    nodes := nodes[done := base[done].(children := handles)];
  }

  /** Processing slot `done` keeps the arena linked and lowers the work. */
  lemma {:induction false} Step(ls: Lister, rank: Id -> nat, base: seq<Slot>, done: nat, roots: seq<Child>)
    requires WellFounded(ls, rank) && Linked(ls, base, done) && done < |base|
    requires !ExitsOn(ls, base[done].id)
    requires |roots| <= |base| && forall k :: 0 <= k < |roots| ==> SlotLabel(base[k]) == roots[k]
    ensures var nodes := Grow(base, done, SortedChildren(ls, base[done].id));
      && Linked(ls, nodes, done + 1)
      && PendingWork(ls, rank, nodes, done + 1) < PendingWork(ls, rank, base, done)
      && |roots| <= |nodes| && forall k :: 0 <= k < |roots| ==> SlotLabel(nodes[k]) == roots[k]
  {
    var sorted := SortedChildren(ls, base[done].id);
    LinkStep(ls, base, done, sorted);
    WorkStep(ls, rank, base, done, sorted);
    GrowLabels(base, done, sorted);
  }

  /** The root nodes, one per root page, in listing order. */
  method RootSlots(roots: seq<Child>) returns (nodes: seq<Slot>)
    ensures nodes == NewSlots(roots)
  {
    nodes := [];
    var i := 0;
    while i < |roots|
      invariant 0 <= i <= |roots| && nodes == NewSlots(roots[..i])
    {
      assert roots[..i + 1] == roots[..i] + [roots[i]];
      nodes := nodes + [Slot(roots[i].id, roots[i].title, [])];
      i := i + 1;
    }
    assert roots[..i] == roots;
  }

  // ---------------------------------------------------------------------
  // The specification: the arena the loop grows, in creation order.

  /** How the `while futures:` loop ends: every task completed, with the
      final arena, or the task of slot `at` raised `SystemExit(status)`. */
  datatype Drained = Finished(nodes: seq<Slot>) | Stopped(nodes: seq<Slot>, at: nat, status: int)

  /** The loop from slot `done` on: the task of each slot, in creation order,
      either ends the process or gives its node the sorted children and
      registers one task per child. */
  ghost function Expand(ls: Lister, rank: Id -> nat, nodes: seq<Slot>, done: nat): (r: Drained)
    requires WellFounded(ls, rank) && done <= |nodes|
    ensures |nodes| <= |r.nodes|
    ensures r.Stopped? ==> done <= r.at < |r.nodes|
    decreases PendingWork(ls, rank, nodes, done)
  {
    if done == |nodes| then Finished(nodes)
    else if ExitsOn(ls, nodes[done].id) then Stopped(nodes, done, ls(nodes[done].id).fault.status)
    else
      var sorted := SortedChildren(ls, nodes[done].id);
      WorkStep(ls, rank, nodes, done, sorted);
      Expand(ls, rank, Grow(nodes, done, sorted), done + 1)
  }

  datatype BuildResult =
    | Built(tree: seq<PageNode>, index: map<Id, string>)
    | RootsFailed(fault: Fault)
    | Exited(status: int)

  /** `build_tree_with_progress`: the root listing's failure, the
      `SystemExit` of a child listing, or the forest of the root slots and
      the first-wins index over all slots in creation order. */
  ghost function BuildSpec(rootPages: Server<RawPage>, ls: Lister, rank: Id -> nat): BuildResult
    requires WellFounded(ls, rank)
  {
    match RootPages(rootPages).listing
    case Aborted(f) => RootsFailed(f)
    case Listed(roots) =>
      match Expand(ls, rank, NewSlots(roots), 0)
      case Finished(nodes) => Built(Forest(nodes, |roots|), FirstWins(Labels(nodes)))
      case Stopped(_, _, status) => Exited(status)
  }

  // ---------------------------------------------------------------------
  // A reference: the tree each page's listings unfold into.

  /** The subtree the builder makes for page `c`: a node whose children are
      `c`'s sorted listing, each one unfolded in turn. */
  ghost function Unfold(ls: Lister, rank: Id -> nat, c: Child): (t: PageNode)
    requires WellFounded(ls, rank)
    ensures Label(t) == c && |t.children| == |SortedChildren(ls, c.id)|
    decreases rank(c.id)
  {
    var kids := SortedChildren(ls, c.id);
    SortedRanks(ls, rank, c.id);
    PageNode(c.id, c.title, seq(|kids|, j requires 0 <= j < |kids| => Unfold(ls, rank, kids[j])))
  }

  ghost function UnfoldForest(ls: Lister, rank: Id -> nat, roots: seq<Child>): (ts: seq<PageNode>)
    requires WellFounded(ls, rank)
    ensures |ts| == |roots|
  {
    seq(|roots|, k requires 0 <= k < |roots| => Unfold(ls, rank, roots[k]))
  }

  /** Every node of `t`, `t` included. */
  function Subtrees(t: PageNode): set<PageNode>
    decreases t, 0
  {
    {t} + SubtreesAll(t.children)
  }

  function SubtreesAll(ts: seq<PageNode>): set<PageNode>
    decreases ts, 1
  {
    if ts == [] then {} else Subtrees(ts[0]) + SubtreesAll(ts[1..])
  }

  /** The ids of all nodes of a forest. */
  function TreeIds(ts: seq<PageNode>): set<Id>
  {
    set t | t in SubtreesAll(ts) :: t.id
  }

  /** Some node of the forest has a listing that ends the process. */
  ghost predicate SomeExit(ls: Lister, ts: seq<PageNode>)
  {
    exists t :: t in SubtreesAll(ts) && ExitsOn(ls, t.id)
  }

  lemma {:induction false} SubtreesAllHas(ts: seq<PageNode>, j: nat)
    requires j < |ts|
    ensures Subtrees(ts[j]) <= SubtreesAll(ts)
  {
    if j > 0 {
      SubtreesAllHas(ts[1..], j - 1);
    }
  }

  lemma {:induction false} SubtreesAllMember(ts: seq<PageNode>, u: PageNode)
    requires u in SubtreesAll(ts)
    ensures exists j :: 0 <= j < |ts| && u in Subtrees(ts[j])
  {
    if u !in Subtrees(ts[0]) {
      SubtreesAllMember(ts[1..], u);
      var j :| 0 <= j < |ts[1..]| && u in Subtrees(ts[1..][j]);
      assert ts[1..][j] == ts[j + 1];
    }
  }

  /** A node's own nodes are nodes of every tree it is in. */
  lemma {:induction false} SubtreesClosed(t: PageNode, u: PageNode)
    requires u in Subtrees(t)
    ensures Subtrees(u) <= Subtrees(t)
    decreases t, 0
  {
    if u != t {
      SubtreesClosedAll(t.children, u);
    }
  }

  lemma {:induction false} SubtreesClosedAll(ts: seq<PageNode>, u: PageNode)
    requires u in SubtreesAll(ts)
    ensures Subtrees(u) <= SubtreesAll(ts)
    decreases ts, 1
  {
    if u in Subtrees(ts[0]) {
      SubtreesClosed(ts[0], u);
    } else {
      SubtreesClosedAll(ts[1..], u);
    }
  }

  /** Every node of a conforming tree conforms. */
  lemma {:induction false} ConformsSubtrees(ls: Lister, t: PageNode, u: PageNode)
    requires Conforms(ls, t) && u in Subtrees(t)
    ensures Conforms(ls, u)
    decreases t
  {
    if u != t {
      SubtreesAllMember(t.children, u);
      var j :| 0 <= j < |t.children| && u in Subtrees(t.children[j]);
      ConformsSubtrees(ls, t.children[j], u);
    }
  }

  /** A tree the builder would produce is the unfolding of its root: the
      listings determine it completely. */
  lemma {:induction false} ConformsUnique(ls: Lister, rank: Id -> nat, t: PageNode)
    requires WellFounded(ls, rank) && Conforms(ls, t)
    ensures t == Unfold(ls, rank, Label(t))
    decreases t
  {
    var u := Unfold(ls, rank, Label(t));
    var kids := SortedChildren(ls, t.id);
    forall j | 0 <= j < |t.children| ensures t.children[j] == u.children[j] {
      ConformsUnique(ls, rank, t.children[j]);
      assert Label(t.children[j]) == NodeLabels(t.children)[j] == kids[j];
    }
    assert t.children == u.children;
  }

  // ---------------------------------------------------------------------
  // What the loop keeps.

  /** Slot `h` was created as a child of an earlier slot. */
  ghost predicate HasParent(nodes: seq<Slot>, h: nat)
  {
    h <= |nodes| && exists p, j :: 0 <= p < h && 0 <= j < |nodes[p].children| && nodes[p].children[j] == h
  }

  /** The first `done` slots are finished, the root slots come first, and
      every other slot is a child of an earlier one. */
  ghost predicate Arena(ls: Lister, roots: seq<Child>, nodes: seq<Slot>, done: nat)
  {
    && Linked(ls, nodes, done)
    && |roots| <= |nodes| && (forall k :: 0 <= k < |roots| ==> SlotLabel(nodes[k]) == roots[k])
    && forall h :: |roots| <= h < |nodes| ==> HasParent(nodes, h)
  }

  lemma {:induction false} ArenaStart(ls: Lister, roots: seq<Child>)
    ensures Arena(ls, roots, NewSlots(roots), 0)
  {
  }

  lemma {:induction false} ArenaStep(ls: Lister, rank: Id -> nat, roots: seq<Child>, base: seq<Slot>, done: nat)
    requires WellFounded(ls, rank) && Arena(ls, roots, base, done) && done < |base|
    requires !ExitsOn(ls, base[done].id)
    ensures Arena(ls, roots, Grow(base, done, SortedChildren(ls, base[done].id)), done + 1)
  {
    var sorted := SortedChildren(ls, base[done].id);
    var nodes := Grow(base, done, sorted);
    Step(ls, rank, base, done, roots);
    forall h | |roots| <= h < |nodes| ensures HasParent(nodes, h) {
      if h < |base| {
        assert HasParent(base, h);
        var p, j :| 0 <= p < h && 0 <= j < |base[p].children| && base[p].children[j] == h;
        assert p != done;
        assert nodes[p] == base[p];
      } else {
        assert nodes[done].children[h - |base|] == h;
      }
    }
  }

  /** Whatever the loop ends with, what it keeps holds there; an exit is the
      listing of the slot it stopped at. */
  lemma {:induction false} ExpandArena(ls: Lister, rank: Id -> nat, roots: seq<Child>, nodes: seq<Slot>, done: nat)
    requires WellFounded(ls, rank) && done <= |nodes| && Arena(ls, roots, nodes, done)
    ensures var e := Expand(ls, rank, nodes, done);
      && (e.Finished? ==> Arena(ls, roots, e.nodes, |e.nodes|))
      && (e.Stopped? ==> Arena(ls, roots, e.nodes, e.at) && ls(e.nodes[e.at].id) == Aborted(AuthExit(e.status)))
    decreases PendingWork(ls, rank, nodes, done)
  {
    if done < |nodes| && !ExitsOn(ls, nodes[done].id) {
      var sorted := SortedChildren(ls, nodes[done].id);
      WorkStep(ls, rank, nodes, done, sorted);
      ArenaStep(ls, rank, roots, nodes, done);
      ExpandArena(ls, rank, roots, Grow(nodes, done, sorted), done + 1);
    }
  }

  /** Every slot's page, unfolded, is a node of the unfolded roots. */
  lemma {:induction false} Reach(ls: Lister, rank: Id -> nat, roots: seq<Child>, nodes: seq<Slot>, done: nat, h: nat)
    requires WellFounded(ls, rank) && Arena(ls, roots, nodes, done) && h < |nodes|
    ensures Unfold(ls, rank, SlotLabel(nodes[h])) in SubtreesAll(UnfoldForest(ls, rank, roots))
    decreases h
  {
    var forest := UnfoldForest(ls, rank, roots);
    if h < |roots| {
      SubtreesAllHas(forest, h);
    } else {
      assert HasParent(nodes, h);
      var p, j :| 0 <= p < h && 0 <= j < |nodes[p].children| && nodes[p].children[j] == h;
      assert SlotDone(ls, nodes, p);
      Reach(ls, rank, roots, nodes, done, p);
      var up := Unfold(ls, rank, SlotLabel(nodes[p]));
      assert up.children[j] == Unfold(ls, rank, SlotLabel(nodes[h]));
      SubtreesAllHas(up.children, j);
      SubtreesClosedAll(forest, up);
    }
  }

  /** The ids of the slots. */
  function SlotIds(nodes: seq<Slot>): set<Id>
  {
    set g | 0 <= g < |nodes| :: nodes[g].id
  }

  /** Every node read from a finished arena carries the id of a slot. */
  lemma {:induction false} ExtractIds(ls: Lister, nodes: seq<Slot>, h: nat, u: PageNode)
    requires Linked(ls, nodes, |nodes|) && h < |nodes| && u in Subtrees(Extract(nodes, h))
    ensures u.id in SlotIds(nodes)
    decreases |nodes| - h
  {
    var t := Extract(nodes, h);
    if u == t {
      assert u.id == nodes[h].id;
    } else {
      assert SlotDone(ls, nodes, h);
      SubtreesAllMember(t.children, u);
      var j :| 0 <= j < |t.children| && u in Subtrees(t.children[j]);
      ExtractIds(ls, nodes, nodes[h].children[j], u);
    }
  }

  lemma {:induction false} FirstWinsFrom(s: seq<Child>, id: Id)
    requires id in FirstWins(s)
    ensures exists i :: 0 <= i < |s| && s[i] == Child(id, FirstWins(s)[id])
  {
    var p := s[..|s| - 1];
    if id in FirstWins(p) {
      FirstWinsFrom(p, id);
      var i :| 0 <= i < |p| && p[i] == Child(id, FirstWins(p)[id]);
      assert s[i] == p[i];
    }
  }

  // ---------------------------------------------------------------------
  // What the builder promises.

  /** A finished arena reads as the roots unfolded, and every node of it conforms. */
  lemma {:induction false} FinishedForest(ls: Lister, rank: Id -> nat, roots: seq<Child>, nodes: seq<Slot>)
    requires WellFounded(ls, rank) && Arena(ls, roots, nodes, |nodes|)
    ensures Forest(nodes, |roots|) == UnfoldForest(ls, rank, roots)
    ensures NodeLabels(Forest(nodes, |roots|)) == roots
    ensures forall t :: t in SubtreesAll(Forest(nodes, |roots|)) ==> Conforms(ls, t)
  {
    var tree := Forest(nodes, |roots|);
    ForestConforms(ls, nodes, roots);
    forall k | 0 <= k < |roots| ensures tree[k] == UnfoldForest(ls, rank, roots)[k] {
      ConformsUnique(ls, rank, tree[k]);
      assert Label(tree[k]) == NodeLabels(tree)[k] == roots[k];
    }
    forall t | t in SubtreesAll(tree) ensures Conforms(ls, t) {
      SubtreesAllMember(tree, t);
      var k :| 0 <= k < |tree| && t in Subtrees(tree[k]);
      ConformsSubtrees(ls, tree[k], t);
    }
  }

  /** The nodes of a finished arena's forest carry exactly the slots' ids. */
  lemma {:induction false} FinishedIds(ls: Lister, rank: Id -> nat, roots: seq<Child>, nodes: seq<Slot>)
    requires WellFounded(ls, rank) && Arena(ls, roots, nodes, |nodes|)
    ensures TreeIds(Forest(nodes, |roots|)) == SlotIds(nodes)
  {
    var tree := Forest(nodes, |roots|);
    FinishedForest(ls, rank, roots, nodes);
    forall h | 0 <= h < |nodes| ensures nodes[h].id in TreeIds(tree) {
      Reach(ls, rank, roots, nodes, |nodes|, h);
    }
    forall u | u in SubtreesAll(tree) ensures u.id in SlotIds(nodes) {
      SubtreesAllMember(tree, u);
      var k :| 0 <= k < |tree| && u in Subtrees(tree[k]);
      ExtractIds(ls, nodes, k, u);
    }
  }

  /** The first-wins index of the slots has an entry for exactly their ids. */
  lemma {:induction false} IndexKeys(nodes: seq<Slot>)
    ensures FirstWins(Labels(nodes)).Keys == SlotIds(nodes)
  {
    var labels := Labels(nodes);
    FirstWinsKeys(labels);
    forall id | id in SlotIds(nodes) ensures id in FirstWins(labels).Keys {
      var g :| 0 <= g < |nodes| && nodes[g].id == id;
      assert labels[g].id == id;
    }
  }

  /** The index of a finished arena covers exactly the ids of its forest,
      each with the title of a node that has that id. */
  lemma {:induction false} FinishedIndex(ls: Lister, rank: Id -> nat, roots: seq<Child>, nodes: seq<Slot>)
    requires WellFounded(ls, rank) && Arena(ls, roots, nodes, |nodes|)
    ensures var tree, index := Forest(nodes, |roots|), FirstWins(Labels(nodes));
      && index.Keys == TreeIds(tree)
      && forall id :: id in index ==> exists t :: t in SubtreesAll(tree) && Label(t) == Child(id, index[id])
  {
    var tree, labels := Forest(nodes, |roots|), Labels(nodes);
    var index := FirstWins(labels);
    FinishedIds(ls, rank, roots, nodes);
    IndexKeys(nodes);
    FinishedForest(ls, rank, roots, nodes);
    forall id | id in index ensures exists t :: t in SubtreesAll(tree) && Label(t) == Child(id, index[id]) {
      FirstWinsFrom(labels, id);
      var i :| 0 <= i < |labels| && labels[i] == Child(id, index[id]);
      Reach(ls, rank, roots, nodes, |nodes|, i);
    }
  }

  /** A built tree is the roots unfolded: every node's children are its
      page's listing sorted by lower-cased title, and no listing in it
      ended the process. */
  lemma {:induction false} BuiltForest(rootPages: Server<RawPage>, ls: Lister, rank: Id -> nat)
    requires WellFounded(ls, rank)
    ensures var r := BuildSpec(rootPages, ls, rank);
      r.Built? ==>
        && RootPages(rootPages).listing.Listed?
        && r.tree == UnfoldForest(ls, rank, RootPages(rootPages).listing.items)
        && NodeLabels(r.tree) == RootPages(rootPages).listing.items
        && forall t :: t in SubtreesAll(r.tree) ==> Conforms(ls, t)
  {
    var listing := RootPages(rootPages).listing;
    if listing.Listed? {
      ArenaStart(ls, listing.items);
      ExpandArena(ls, rank, listing.items, NewSlots(listing.items), 0);
      var e := Expand(ls, rank, NewSlots(listing.items), 0);
      if e.Finished? {
        FinishedForest(ls, rank, listing.items, e.nodes);
      }
    }
  }

  /** The index of a built tree has an entry for exactly the ids in the
      tree, and each entry is the title of a node of the tree with that id
      (the first one created, `FirstWinsFirst`). */
  lemma {:induction false} BuiltIndex(rootPages: Server<RawPage>, ls: Lister, rank: Id -> nat)
    requires WellFounded(ls, rank)
    ensures var r := BuildSpec(rootPages, ls, rank);
      r.Built? ==>
        && r.index.Keys == TreeIds(r.tree)
        && forall id :: id in r.index ==> exists t :: t in SubtreesAll(r.tree) && Label(t) == Child(id, r.index[id])
  {
    var listing := RootPages(rootPages).listing;
    if listing.Listed? {
      ArenaStart(ls, listing.items);
      ExpandArena(ls, rank, listing.items, NewSlots(listing.items), 0);
      var e := Expand(ls, rank, NewSlots(listing.items), 0);
      if e.Finished? {
        FinishedIndex(ls, rank, listing.items, e.nodes);
      }
    }
  }

  /** Once the roots are listed, the builder exits exactly when the listing
      of some page of the unfolded tree raises `SystemExit`, with that
      listing's status. */
  lemma {:induction false} BuildExits(rootPages: Server<RawPage>, ls: Lister, rank: Id -> nat)
    requires WellFounded(ls, rank) && RootPages(rootPages).listing.Listed?
    ensures var roots := RootPages(rootPages).listing.items;
      var r := BuildSpec(rootPages, ls, rank);
      && (r.Exited? <==> SomeExit(ls, UnfoldForest(ls, rank, roots)))
      && (r.Exited? ==>
            exists t :: t in SubtreesAll(UnfoldForest(ls, rank, roots)) && ls(t.id) == Aborted(AuthExit(r.status)))
  {
    var roots := RootPages(rootPages).listing.items;
    var forest := UnfoldForest(ls, rank, roots);
    ArenaStart(ls, roots);
    ExpandArena(ls, rank, roots, NewSlots(roots), 0);
    var e := Expand(ls, rank, NewSlots(roots), 0);
    if e.Stopped? {
      Reach(ls, rank, roots, e.nodes, e.at, e.at);
      assert Unfold(ls, rank, SlotLabel(e.nodes[e.at])).id == e.nodes[e.at].id;
    } else {
      FinishedForest(ls, rank, roots, e.nodes);
      assert !SomeExit(ls, forest);
    }
  }

  // ---------------------------------------------------------------------
  // The builder.

  /** One completed task of the `while futures:` loop: the node `done` is
      marked visited (its title indexed unless its id was seen) and
      receives its sorted children, whose tasks are registered; the task's
      `SystemExit` ends the process with `exit`. */
  method Visit(cp: ChildServer, ghost ls: Lister, nodes: seq<Slot>, done: nat, index: map<Id, string>, visited: set<Id>)
    returns (exit: Option<int>, nodes': seq<Slot>, index': map<Id, string>, visited': set<Id>)
    requires Lists(cp, ls) && done < |nodes|
    ensures exit.Some? <==> ExitsOn(ls, nodes[done].id)
    ensures exit.Some? ==> exit.value == ls(nodes[done].id).fault.status
    ensures exit.None? ==>
      && nodes' == Grow(nodes, done, SortedChildren(ls, nodes[done].id))
      && index' == (if nodes[done].id in visited then index else index[nodes[done].id := nodes[done].title])
      && visited' == visited + {nodes[done].id}
  {
    var node := nodes[done];
    var listing, _ := GetChildren(cp(node.id));
    assert listing == ls(node.id);
    var kids: seq<Child> := [];
    nodes', index', visited' := nodes, index, visited;
    if listing.Aborted? {
      if listing.fault.AuthExit? {
        exit := Some(listing.fault.status);
        return;
      }
    } else {
      kids := listing.items;
    }
    exit := None;
    if node.id !in visited {
      visited' := visited + {node.id};
      index' := index[node.id := node.title];
    }
    nodes' := AttachChildren(nodes, done, SortByTitle(kids));
  }

  /** The `while futures:` loop of `build_tree_with_progress`, starting with
      the root nodes: it ends as `Expand` does, with the same arena; `exit`
      is the status of the 401/403 that ended the process, if any. */
  method Drain(cp: ChildServer, ghost ls: Lister, ghost rank: Id -> nat, roots: seq<Child>)
    returns (exit: Option<int>, nodes: seq<Slot>, index: map<Id, string>)
    requires Lists(cp, ls) && WellFounded(ls, rank)
    ensures var e := Expand(ls, rank, NewSlots(roots), 0);
      && nodes == e.nodes
      && (e.Finished? ==> exit == None && index == FirstWins(Labels(nodes)))
      && (e.Stopped? ==> exit == Some(e.status))
  {
    nodes := RootSlots(roots);
    var visited: set<Id> := {};
    index := map[];
    var done := 0;
    ghost var spec := Expand(ls, rank, nodes, 0);
    while done < |nodes|
      invariant done <= |nodes| && Expand(ls, rank, nodes, done) == spec
      invariant index == FirstWins(Labels(nodes)[..done]) && visited == index.Keys
      decreases PendingWork(ls, rank, nodes, done)
    {
      var next, index', visited';
      exit, next, index', visited' := Visit(cp, ls, nodes, done, index, visited);
      if exit.Some? {
        return;
      }
      ghost var sorted := SortedChildren(ls, nodes[done].id);
      WorkStep(ls, rank, nodes, done, sorted);
      IndexStep(nodes, done, sorted, index);
      KeysUpdate(index, nodes[done].id, nodes[done].title);
      nodes, index, visited, done := next, index', visited', done + 1;
    }
    assert Labels(nodes)[..done] == Labels(nodes);
    exit := None;
  }

  /** `build_tree_with_progress`: the root listing, then the loop over the
      tasks in creation order. */
  method BuildTree(rootPages: Server<RawPage>, cp: ChildServer, ghost ls: Lister, ghost rank: Id -> nat)
    returns (result: BuildResult)
    requires Lists(cp, ls) && WellFounded(ls, rank)
    ensures result == BuildSpec(rootPages, ls, rank)
  {
    var rootsListing, _ := GetRootPages(rootPages);
    if rootsListing.Aborted? {
      result := RootsFailed(rootsListing.fault);
      return;
    }
    var roots := rootsListing.items;
    var exit, nodes, index := Drain(cp, ls, rank, roots);
    if exit.Some? {
      result := Exited(exit.value);
      return;
    }
    result := Built(Forest(nodes, |roots|), index);
  }
}
