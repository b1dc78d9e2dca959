/** `flatten_tree_for_choices`: the page tree as the flat list of choices the
    picker shows, one per node in pre-order, indented two spaces per level. */
module Picker {
  import opened Text
  import opened Pages

  /** `{"name": ..., "value": ...}`. */
  datatype Choice = Choice(name: string, value: Id)

  const FolderIcon: string := "\U{1F4C2}"
  const PageIcon: string := "\U{1F4C4}"

  /** The folder icon for a node with children, the page icon otherwise. */
  function Icon(n: PageNode): string
  {
    if n.children != [] then FolderIcon else PageIcon
  }

  /** `f"{prefix}{icon} {node['title']}"`. */
  function ChoiceOf(n: PageNode, prefix: string): Choice
  {
    Choice(prefix + Icon(n) + " " + n.title, n.id)
  }

  /** The items for `tree` under `prefix`, as the function returns them. */
  function Flatten(tree: seq<PageNode>, prefix: string): seq<Choice>
    decreases tree, 1
  {
    if tree == [] then [] else FlattenNode(tree[0], prefix) + Flatten(tree[1..], prefix)
  }

  /** The item of one node followed by the items of its subtree. */
  function FlattenNode(n: PageNode, prefix: string): seq<Choice>
    decreases n, 0
  {
    [ChoiceOf(n, prefix)] + (if n.children != [] then Flatten(n.children, prefix + "  ") else [])
  }

  /** `flatten_tree_for_choices(tree, prefix)`, with its loop over `tree`. */
  method FlattenTreeForChoices(tree: seq<PageNode>, prefix: string) returns (items: seq<Choice>)
    ensures items == Flatten(tree, prefix)
    decreases tree
  {
    items := [];
    var i := 0;
    while i < |tree|
      invariant 0 <= i <= |tree|
      invariant items == Flatten(tree[..i], prefix)
    {
      var node := tree[i];
      items := items + [ChoiceOf(node, prefix)];
      if node.children != [] {
        var sub := FlattenTreeForChoices(node.children, prefix + "  ");
        items := items + sub;
      }
      FlattenSnoc(tree[..i], node, prefix);
      assert tree[..i + 1] == tree[..i] + [node];
      i := i + 1;
    }
    assert tree[..|tree|] == tree;
  }

  /** Flattening one more root appends that root's items. */
  lemma {:induction false} FlattenSnoc(tree: seq<PageNode>, n: PageNode, prefix: string)
    ensures Flatten(tree + [n], prefix) == Flatten(tree, prefix) + FlattenNode(n, prefix)
  {
    if tree == [] {
      assert [n][1..] == [];
    } else {
      assert (tree + [n])[1..] == tree[1..] + [n];
      FlattenSnoc(tree[1..], n, prefix);
    }
  }

  // ---------------------------------------------------------------------
  // A reference: the nodes in pre-order with their depths.

  /** A node of the tree with its depth (roots have depth `depth` of the call). */
  datatype Entry = Entry(node: PageNode, depth: nat)

  function PreOrder(tree: seq<PageNode>, depth: nat): seq<Entry>
    decreases tree, 1
  {
    if tree == [] then [] else PreOrderNode(tree[0], depth) + PreOrder(tree[1..], depth)
  }

  function PreOrderNode(n: PageNode, depth: nat): seq<Entry>
    decreases n, 0
  {
    [Entry(n, depth)] + PreOrder(n.children, depth + 1)
  }

  /** What the picker shows for one entry. */
  function Shown(e: Entry): Choice
  {
    ChoiceOf(e.node, Indent(e.depth))
  }

  function ShownAll(es: seq<Entry>): (r: seq<Choice>)
    ensures |r| == |es|
    ensures forall k :: 0 <= k < |es| ==> r[k] == Shown(es[k])
  {
    if es == [] then [] else [Shown(es[0])] + ShownAll(es[1..])
  }

  lemma {:induction false} ShownAllAppend(a: seq<Entry>, b: seq<Entry>)
    ensures ShownAll(a + b) == ShownAll(a) + ShownAll(b)
  {
    var l, r := ShownAll(a + b), ShownAll(a) + ShownAll(b);
    assert |l| == |r|;
    forall k | 0 <= k < |l| ensures l[k] == r[k] {
      if k < |a| { assert (a + b)[k] == a[k]; } else { assert (a + b)[k] == b[k - |a|]; }
    }
  }

  /** Flattening under the indentation of depth `d` shows exactly the nodes in
      pre-order, each as its icon and title behind two spaces per level, with
      its id as the value: one item per node, nothing else. */
  lemma {:induction false} FlattenIsPreOrder(tree: seq<PageNode>, d: nat)
    ensures Flatten(tree, Indent(d)) == ShownAll(PreOrder(tree, d))
    decreases tree, 1
  {
    if tree != [] {
      FlattenNodeIsPreOrder(tree[0], d);
      FlattenIsPreOrder(tree[1..], d);
      ShownAllAppend(PreOrderNode(tree[0], d), PreOrder(tree[1..], d));
    }
  }

  lemma {:induction false} FlattenNodeIsPreOrder(n: PageNode, d: nat)
    ensures FlattenNode(n, Indent(d)) == ShownAll(PreOrderNode(n, d))
    decreases n, 0
  {
    IndentSucc(d);
    FlattenIsPreOrder(n.children, d + 1);
    ShownAllAppend([Entry(n, d)], PreOrder(n.children, d + 1));
    if n.children == [] {
      assert PreOrder(n.children, d + 1) == [];
    }
  }

  /** Every node of the tree occurs in the pre-order, and nothing else does. */
  function Size(tree: seq<PageNode>): nat
    decreases tree
  {
    if tree == [] then 0 else 1 + Size(tree[0].children) + Size(tree[1..])
  }

  lemma {:induction false} PreOrderSize(tree: seq<PageNode>, d: nat)
    ensures |PreOrder(tree, d)| == Size(tree)
    decreases tree
  {
    if tree != [] {
      PreOrderSize(tree[0].children, d + 1);
      PreOrderSize(tree[1..], d);
    }
  }

  /** The top-level call: one choice per node of the forest, in pre-order,
      roots unindented. */
  lemma FlattenTopLevel(tree: seq<PageNode>)
    ensures Flatten(tree, "") == ShownAll(PreOrder(tree, 0))
    ensures |Flatten(tree, "")| == Size(tree)
  {
    FlattenIsPreOrder(tree, 0);
    PreOrderSize(tree, 0);
  }

  /** A folder with one page: the folder icon, then the page two spaces in. */
  lemma FolderThenPage()
    ensures Flatten([PageNode("1", "Docs", [PageNode("2", "Intro", [])])], "")
         == [Choice(FolderIcon + " Docs", "1"), Choice("  " + PageIcon + " Intro", "2")]
  {
    var leaf := PageNode("2", "Intro", []);
    var root := PageNode("1", "Docs", [leaf]);
    assert [root][1..] == [];
    assert [leaf][1..] == [];
    assert ChoiceOf(leaf, "  ").name == "  " + PageIcon + " Intro";
    assert ChoiceOf(root, "").name == FolderIcon + " Docs";
    assert FlattenNode(leaf, "  ") == [Choice("  " + PageIcon + " Intro", "2")];
    assert Flatten(root.children, "  ") == FlattenNode(leaf, "  ");
    assert "" + "  " == "  ";
    assert FlattenNode(root, "") == [ChoiceOf(root, "")] + FlattenNode(leaf, "  ");
    assert Flatten([root], "") == FlattenNode(root, "");
  }
}
