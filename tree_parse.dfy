/** `parseTree` of src/features/models/charts/DecisionTree.tsx:9-96. The
    nodes that the source allocates and links in place are kept in an arena
    (`TreeBuilder`): node `q` is the `q`-th surviving line, `kids[q]` is its
    `children` array, `roots` is `root.children`, and the stack holds node ids,
    so a stack entry and the tree share the node exactly as the objects do. */
module TreeParse {
  import opened Wrappers
  import opened JsText
  import opened TreeLines
  import opened TreeSpec

  // ---------------------------------------------------------------------------
  // The specification

  /** The node a line turns into, if its content survives stripping. */
  function LineItem(line: string): (r: Option<Item>)
    ensures r.Some? <==> Strip(line) != []
    ensures r.Some? ==> r.value.depth == Depth(line) && r.value.nodeLabel == Classify(Strip(line))
  {
    var content := Strip(line);
    if content == [] then None else Some(Item(Depth(line), Classify(content)))
  }

  /** The items one line contributes: its node, or nothing. */
  function LineItems(line: string): (r: seq<Item>)
    ensures |r| <= 1 && DepthsOk(r)
  {
    match LineItem(line)
    case None => []
    case Some(it) => [it]
  }

  /** The surviving lines, in order, as items. */
  function Items(lines: seq<string>): (r: seq<Item>)
    ensures DepthsOk(r) && |r| <= |lines|
    decreases |lines|
  {
    if lines == [] then []
    else Items(lines[..|lines| - 1]) + LineItems(lines[|lines| - 1])
  }

  /** Root normalisation (DecisionTree.tsx:88-95): a lone top-level node is
      the root itself; otherwise a condition root holds exactly the top level. */
  function Normalize(top: seq<TreeNode>): (r: TreeNode)
    ensures |top| == 1 ==> r == top[0]
    ensures |top| != 1 ==> r.Condition? && r.children == top
  {
    if |top| > 1 then Condition("Decision Tree Root", top)
    else if |top| == 1 then top[0]
    else Condition("Empty tree", [])
  }

  /** What `parseTree(text)` returns: for text that is not all whitespace,
      the normalised top level of the tree its lines describe. */
  function Parse(text: string): (r: TreeNode)
    ensures !IsBlank(text) ==>
      var top := TopLevel(Items(Lines(text)));
      && (|top| == 1 ==> r == top[0])
      && (|top| != 1 ==> r.Condition? && r.children == top)
  {
    LinesEmptyIffBlank(text);
    var lines := Lines(text);
    if lines == [] then Condition("No data", [])
    else Normalize(TopLevel(Items(lines)))
  }

  // ---------------------------------------------------------------------------
  // The arena and its stack

  /** Every children list names exactly the nodes whose parent it is, in
      line order, and `roots` does the same for the top level. */
  predicate ChildrenMatch(items: seq<Item>, kids: seq<seq<nat>>, roots: seq<nat>) {
    && |kids| == |items|
    && roots == ChildIds(items, None, 0)
    && forall q :: 0 <= q < |items| ==> kids[q] == ChildIds(items, Some(q), q + 1)
  }

  /** A new top-level node goes at the end of the top level and starts
      without children. */
  lemma AttachTopLevel(items: seq<Item>, kids: seq<seq<nat>>, roots: seq<nat>, x: Item)
    requires ChildrenMatch(items, kids, roots)
    requires ParentOf(items + [x], |items|) == None
    ensures ChildrenMatch(items + [x], kids + [[]], roots + [|items|])
  {
    var n := |items|;
    var items' := items + [x];
    ChildIdsSnocParent(items, x, None, 0);
    forall q | 0 <= q < n
      ensures (kids + [[]])[q] == ChildIds(items', Some(q), q + 1)
    {
      ChildKept(items, kids, x, q);
    }
    assert ChildIds(items', Some(n), n + 1) == [];
  }

  /** One earlier children list after a new top-level node is added: it stays. */
  lemma ChildKept(items: seq<Item>, kids: seq<seq<nat>>, x: Item, q: nat)
    requires |kids| == |items| && q < |items| && kids[q] == ChildIds(items, Some(q), q + 1)
    requires ParentOf(items + [x], |items|) == None
    ensures (kids + [[]])[q] == ChildIds(items + [x], Some(q), q + 1)
  {
    ChildIdsSnocOther(items, x, Some(q), q + 1);
    assert (kids + [[]])[q] == kids[q];
  }

  /** A new child of `i` goes at the end of the children of `i` and starts
      without children; nothing else changes. */
  lemma AttachChild(items: seq<Item>, kids: seq<seq<nat>>, roots: seq<nat>, x: Item, i: nat)
    requires ChildrenMatch(items, kids, roots)
    requires ParentOf(items + [x], |items|) == Some(i)
    ensures i < |kids|
    ensures ChildrenMatch(items + [x], kids[i := kids[i] + [|items|]] + [[]], roots)
  {
    var n := |items|;
    var items' := items + [x];
    var kids' := kids[i := kids[i] + [n]] + [[]];
    ChildIdsSnocOther(items, x, None, 0);
    forall q | 0 <= q < n
      ensures kids'[q] == ChildIds(items', Some(q), q + 1)
    {
      ChildAttached(items, kids, x, i, q);
    }
    assert kids'[n] == [] == ChildIds(items', Some(n), n + 1);
  }

  /** One earlier children list after a new child of `i` is attached: the
      list of `i` gains the new id, every other list stays. */
  lemma ChildAttached(items: seq<Item>, kids: seq<seq<nat>>, x: Item, i: nat, q: nat)
    requires |kids| == |items| && q < |items| && kids[q] == ChildIds(items, Some(q), q + 1)
    requires ParentOf(items + [x], |items|) == Some(i)
    ensures (kids[i := kids[i] + [|items|]] + [[]])[q] == ChildIds(items + [x], Some(q), q + 1)
  {
    if q == i {
      ParentListGrows(items, kids, x, i);
    } else {
      OtherListStays(items, kids, x, i, q);
    }
  }

  lemma ParentListGrows(items: seq<Item>, kids: seq<seq<nat>>, x: Item, i: nat)
    requires |kids| == |items| && i < |items| && kids[i] == ChildIds(items, Some(i), i + 1)
    requires ParentOf(items + [x], |items|) == Some(i)
    ensures (kids[i := kids[i] + [|items|]] + [[]])[i] == ChildIds(items + [x], Some(i), i + 1)
  {
    ChildIdsSnocParent(items, x, Some(i), i + 1);
    ListAfterAttach(kids, i, i, |items|, ChildIds(items, Some(i), i + 1), ChildIds(items + [x], Some(i), i + 1));
  }

  lemma OtherListStays(items: seq<Item>, kids: seq<seq<nat>>, x: Item, i: nat, q: nat)
    requires |kids| == |items| && i < |items| && q < |items| && q != i
    requires kids[q] == ChildIds(items, Some(q), q + 1)
    requires ParentOf(items + [x], |items|) == Some(i)
    ensures (kids[i := kids[i] + [|items|]] + [[]])[q] == ChildIds(items + [x], Some(q), q + 1)
  {
    ChildIdsSnocOther(items, x, Some(q), q + 1);
    ListAfterAttach(kids, i, q, |items|, ChildIds(items, Some(q), q + 1), ChildIds(items + [x], Some(q), q + 1));
  }

  /** The list at `q` once `n` is appended to the list at `i` and an empty list
      is added at the end. */
  lemma ListAfterAttach(kids: seq<seq<nat>>, i: nat, q: nat, n: nat, before: seq<nat>, after: seq<nat>)
    requires i < |kids| && q < |kids| && kids[q] == before
    requires q == i ==> after == before + [n]
    requires q != i ==> after == before
    ensures (kids[i := kids[i] + [n]] + [[]])[q] == after
  {
    assert (kids[i := kids[i] + [n]] + [[]])[q] == kids[i := kids[i] + [n]][q];
  }

  /** The stack after pushing a new node onto what remained of the stack once
      everything at its depth or deeper was popped. */
  lemma PushedPath(items: seq<Item>, x: Item)
    requires x.depth != 0
    ensures var n := |items|;
      Path(items + [x], n) == Kept(items, n, x.depth) + [Frame(x.depth, n)]
  {
    var n := |items|;
    var items' := items + [x];
    LastBelowSnoc(items, x, n, x.depth);
    match LastBelow(items, n, x.depth) {
      case None =>
      case Some(i) => PathSnoc(items, x, i);
    }
  }

  /** The parent the stack finds is the parent the specification names. */
  lemma KeptTop(items: seq<Item>, x: Item)
    requires x.depth != 0
    ensures var k := Kept(items, |items|, x.depth);
      && (k == [] <==> ParentOf(items + [x], |items|) == None)
      && (k != [] ==> k[|k| - 1].depth < x.depth && ParentOf(items + [x], |items|) == Some(k[|k| - 1].id))
  {
    LastBelowSnoc(items, x, |items|, x.depth);
  }

  /** Appending an item at depth -1 or more keeps every depth at -1 or more. */
  lemma DepthsOkSnoc(items: seq<Item>, x: Item)
    requires DepthsOk(items) && x.depth >= -1
    ensures DepthsOk(items + [x])
  {
  }

  /** The entries kept for a new node at depth `d` all lie below `d`. */
  lemma KeptBelow(items: seq<Item>, d: int)
    ensures var k := Kept(items, |items|, d); k != [] ==> k[|k| - 1].depth < d
  {
  }

  /** The builder's invariant on values: the stack is the ancestor chain of
      the last node, and every children array lists exactly the nodes whose
      parent it is, in line order. */
  ghost predicate Consistent(items: seq<Item>, kids: seq<seq<nat>>, roots: seq<nat>, stack: seq<Frame>) {
    && |kids| == |items|
    && DepthsOk(items)
    && (if items == [] then stack == [] else stack == Path(items, |items| - 1))
    && ChildrenMatch(items, kids, roots)
  }

  /** Placing a node at depth 0: it joins the top level and the stack
      becomes that node alone. */
  lemma TopLevelStep(items: seq<Item>, kids: seq<seq<nat>>, roots: seq<nat>, stack: seq<Frame>, x: Item)
    requires Consistent(items, kids, roots, stack) && x.depth == 0
    ensures ParentOf(items + [x], |items|) == None
    ensures Consistent(items + [x], kids + [[]], roots + [|items|], [Frame(0, |items|)])
  {
    AttachTopLevel(items, kids, roots, x);
    DepthsOkSnoc(items, x);
  }

  /** Placing a node at a depth other than 0 when popping empties the stack:
      it joins the top level and the stack becomes that node alone. */
  lemma NestedTopLevelStep(items: seq<Item>, kids: seq<seq<nat>>, roots: seq<nat>, stack: seq<Frame>, x: Item)
    requires Consistent(items, kids, roots, stack) && x.depth != 0 && x.depth >= -1
    requires Kept(items, |items|, x.depth) == []
    ensures ParentOf(items + [x], |items|) == None
    ensures Consistent(items + [x], kids + [[]], roots + [|items|], [Frame(x.depth, |items|)])
  {
    KeptTop(items, x);
    PushedPath(items, x);
    DepthsOkSnoc(items, x);
    AttachTopLevel(items, kids, roots, x);
    assert [] + [Frame(x.depth, |items|)] == [Frame(x.depth, |items|)];
  }

  /** Placing a node at a depth other than 0 when popping leaves `keep`: it
      becomes the last child of the node on top of `keep`, and the stack
      becomes `keep` with the node pushed. */
  lemma NestedChildStep(items: seq<Item>, kids: seq<seq<nat>>, roots: seq<nat>, stack: seq<Frame>, x: Item, keep: seq<Frame>, i: nat)
    requires Consistent(items, kids, roots, stack) && x.depth != 0 && x.depth >= -1
    requires keep == Kept(items, |items|, x.depth) && keep != [] && i == keep[|keep| - 1].id
    ensures ParentOf(items + [x], |items|) == Some(i) && i < |kids|
    ensures Consistent(items + [x], kids[i := kids[i] + [|items|]] + [[]], roots, keep + [Frame(x.depth, |items|)])
  {
    KeptTop(items, x);
    PushedPath(items, x);
    DepthsOkSnoc(items, x);
    AttachChild(items, kids, roots, x, i);
  }

  /** Popping from the top while the top is at depth `d` or deeper stops at
      `keep` when `keep` is what `PoppedTo` says is left. */
  lemma PopStops(start: seq<Frame>, keep: seq<Frame>, stack: seq<Frame>, d: int)
    requires PoppedTo(start, keep, d)
    requires keep != [] ==> keep[|keep| - 1].depth < d
    requires |keep| <= |stack| <= |start| && stack == start[..|stack|]
    requires stack == [] || stack[|stack| - 1].depth < d
    ensures stack == keep
  {
  }

  /** Pops every entry at depth `d` or deeper off the top of the stack
      (DecisionTree.tsx:69-71); `keep` is what the specification says is left. */
  method PopDeeper(stack: seq<Frame>, d: int, ghost keep: seq<Frame>) returns (r: seq<Frame>)
    requires PoppedTo(stack, keep, d)
    requires keep != [] ==> keep[|keep| - 1].depth < d
    ensures r == keep
  {
    r := stack;
    while |r| > 0 && r[|r| - 1].depth >= d
      invariant |keep| <= |r| <= |stack| && r == stack[..|r|]
      decreases |r|
    {
      r := r[..|r| - 1];
    }
    PopStops(stack, keep, r, d);
  }

  /** The mutable state of one `parseTree` call. */
  class TreeBuilder {
    /** The nodes created so far, in line order, with their depths. */
    var items: seq<Item>
    /** `kids[q]` is the `children` array of node `q`, as node ids. */
    var kids: seq<seq<nat>>
    /** `root.children`, as node ids. */
    var roots: seq<nat>
    /** `stack`: depths and the nodes pushed with them, bottom first. */
    var stack: seq<Frame>

    /** The stack is the ancestor chain of the last node, and every children
        array lists exactly the nodes whose parent it is, in line order. */
    ghost predicate Valid()
      reads this
    {
      Consistent(items, kids, roots, stack)
    }

    /** `const root = { children: [] }; const stack = [];` */
    constructor ()
      ensures Valid() && items == [] && kids == [] && roots == [] && stack == []
    {
      items := [];
      kids := [];
      roots := [];
      stack := [];
    }

    /** After each push the stack's depths strictly increase from bottom to
        top, and its top is the node just placed. */
    lemma StackIncreasing()
      requires Valid() && items != []
      ensures |stack| >= 1 && stack[|stack| - 1] == Frame(items[|items| - 1].depth, |items| - 1)
      ensures StackShape(items, stack)
    {
      PathShape(items, |items| - 1);
    }

    /** Popping the stack for a new node at depth `d` stops at the ancestor
        chain of the node `ParentOf` names, whose depths all lie below `d`. */
    lemma CutPoint(d: int)
      requires Valid() && d != 0
      ensures var keep := Kept(items, |items|, d);
        && PoppedTo(stack, keep, d)
        && (keep != [] ==> keep[|keep| - 1].depth < d)
    {
      if |items| > 0 {
        SpineCut(items, |items| - 1, d);
      }
      KeptBelow(items, d);
    }

    /** Places a node at depth `d` (DecisionTree.tsx:64-85): at depth 0 it is
        appended to the top level and the stack is reset to it; otherwise
        entries at depth `d` or deeper are popped, the node becomes the last
        child of the entry left on top (or of the top level when none is
        left), and it is pushed. */
    method Add(d: int, nodeLabel: NodeLabel)
      requires Valid() && d >= -1
      modifies this
      ensures Valid()
      ensures items == old(items) + [Item(d, nodeLabel)]
      ensures ParentOf(items, |old(items)|) == None ==>
        roots == old(roots) + [|old(items)|] && kids == old(kids) + [[]]
      ensures ParentOf(items, |old(items)|).Some? ==>
        var i := ParentOf(items, |old(items)|).value;
        i < |old(kids)| && roots == old(roots) && kids == old(kids)[i := old(kids)[i] + [|old(items)|]] + [[]]
    {
      var id := |items|;
      var x := Item(d, nodeLabel);
      if d == 0 {
        TopLevelStep(items, kids, roots, stack, x);
        roots := roots + [id];
        stack := [Frame(0, id)];
      } else {
        CutPoint(d);
        var keep := PopDeeper(stack, d, Kept(items, id, d));
        if |keep| > 0 {
          var parent := keep[|keep| - 1].id;
          NestedChildStep(items, kids, roots, stack, x, keep, parent);
          kids := kids[parent := kids[parent] + [id]];
        } else {
          NestedTopLevelStep(items, kids, roots, stack, x);
          roots := roots + [id];
        }
        stack := keep + [Frame(d, id)];
      }
      items := items + [x];
      kids := kids + [[]];
    }

    /** One turn of the loop over the lines (DecisionTree.tsx:22-86): the
        depth is read before stripping, a line with nothing left is skipped,
        and any other line is classified and placed. */
    method AddLine(line: string)
      requires Valid()
      modifies this
      ensures Valid() && items == old(items) + LineItems(line)
    {
      var depth := Depth(line);
      var content := StripContent(line);
      if content == [] {
        return;
      }
      var nodeLabel := Classify(content);
      Add(depth, nodeLabel);
    }

    /** Root normalisation (DecisionTree.tsx:88-95): several top-level nodes
        are wrapped in a synthetic root, a single one is the tree, and none
        gives the "Empty tree" node. */
    method Root() returns (tree: TreeNode)
      requires Valid()
      ensures tree == Normalize(TopLevel(items))
    {
      NodesAreForest(roots, 0);
      var top := Nodes(roots, 0);
      if |top| > 1 {
        tree := Condition("Decision Tree Root", top);
      } else if |top| == 1 {
        tree := top[0];
      } else {
        tree := Condition("Empty tree", []);
      }
    }

    /** The node `q` as it stands in memory: it carries line `q`'s label and
        one child per entry of its `children` array. */
    function Node(q: nat): (r: TreeNode)
      reads this
      requires Valid() && q < |items|
      ensures LabelOf(r) == items[q].nodeLabel
      ensures |r.children| == |kids[q]|
      decreases |items| - q, 0
    {
      var children := Nodes(kids[q], q + 1);
      LabelOfMakeNode(items[q].nodeLabel, children);
      MakeNode(items[q].nodeLabel, children)
    }

    /** The nodes `ids`, in order: the `k`-th is node `ids[k]`. */
    function Nodes(ids: seq<nat>, lo: nat): (r: seq<TreeNode>)
      reads this
      requires Valid() && lo <= |items|
      requires forall k :: 0 <= k < |ids| ==> lo <= ids[k] < |items|
      ensures |r| == |ids|
      ensures forall k :: 0 <= k < |ids| ==> r[k] == Node(ids[k])
      decreases |items| - lo, 1, |ids|
    {
      if ids == [] then [] else [Node(ids[0])] + Nodes(ids[1..], lo)
    }

    /** The nodes in memory form exactly the tree of the specification. */
    lemma {:induction false} NodeIsSubtree(q: nat)
      requires Valid() && q < |items|
      ensures Node(q) == Subtree(items, q)
      decreases |items| - q, 0
    {
      NodesAreForest(kids[q], q + 1);
    }

    lemma {:induction false} NodesAreForest(ids: seq<nat>, lo: nat)
      requires Valid() && lo <= |items|
      requires forall k :: 0 <= k < |ids| ==> lo <= ids[k] < |items|
      ensures Nodes(ids, lo) == Forest(items, ids, lo)
      decreases |items| - lo, 1, |ids|
    {
      if ids != [] {
        NodeIsSubtree(ids[0]);
        NodesAreForest(ids[1..], lo);
      }
    }
  }

  /** Reading the last line is reading one more item, or none. */
  lemma ItemsSnoc(lines: seq<string>, i: nat)
    requires i < |lines|
    ensures Items(lines[..i + 1]) == Items(lines[..i]) + LineItems(lines[i])
  {
    assert lines[..i + 1][..i] == lines[..i];
  }

  lemma WholePrefix(lines: seq<string>)
    ensures lines[..|lines|] == lines
  {
  }

  /** The loop of `parseTree` over the filtered lines (DecisionTree.tsx:22-86):
      afterwards the builder holds exactly the items of the surviving lines. */
  method Build(lines: seq<string>) returns (b: TreeBuilder)
    ensures fresh(b) && b.Valid() && b.items == Items(lines)
  {
    b := new TreeBuilder();
    for i := 0 to |lines|
      invariant fresh(b) && b.Valid() && b.items == Items(lines[..i])
    {
      ItemsSnoc(lines, i);
      b.AddLine(lines[i]);
    }
    WholePrefix(lines);
  }

  /** `parseTree`: split and filter the lines, then place each surviving line
      and normalise the top level to a single root. */
  method ParseTree(text: string) returns (tree: TreeNode)
    ensures tree == Parse(text)
  {
    var lines := Lines(text);
    if |lines| == 0 {
      return Condition("No data", []);
    }
    var b := Build(lines);
    tree := b.Root();
  }

  // ---------------------------------------------------------------------------
  // What the parsed tree looks like

  /** Empty or whitespace-only input gives exactly the "No data" node. */
  lemma ParseBlank(text: string)
    requires IsBlank(text)
    ensures Parse(text) == Condition("No data", [])
  {
    BlankGivesNoLines(text);
  }

  /** Input with a non-space character in it, none of whose lines survives
      stripping, gives the "Empty tree" node. */
  lemma ParseNothingSurvives(text: string)
    requires !IsBlank(text) && Items(Lines(text)) == []
    ensures Parse(text) == Condition("Empty tree", [])
  {
    NonBlankGivesLines(text);
    TopLevelEmptyIffNoItems([]);
  }

  /** Every surviving line appears in the parsed tree exactly once, in line
      order, below the synthetic "Decision Tree Root" when there are several
      top-level nodes. */
  lemma ParsePreorder(text: string)
    requires Items(Lines(text)) != []
    ensures var items := Items(Lines(text));
      Preorder(Parse(text)) ==
        (if |TopLevel(items)| > 1 then [ConditionLabel("Decision Tree Root")] else []) + LabelsFrom(items, 0, |items|)
  {
    var items := Items(Lines(text));
    assert Lines(text) != [];
    TopLevelPreorder(items);
    TopLevelEmptyIffNoItems(items);
    NormalizePreorder(TopLevel(items), LabelsFrom(items, 0, |items|));
  }

  /** Root normalisation adds the synthetic root's label in front of a forest
      of several trees and leaves a single tree as it is. */
  lemma NormalizePreorder(top: seq<TreeNode>, labels: seq<NodeLabel>)
    requires top != [] && PreorderForest(top) == labels
    ensures Preorder(Normalize(top)) ==
      (if |top| > 1 then [ConditionLabel("Decision Tree Root")] else []) + labels
  {
    if |top| == 1 {
      assert top == [top[0]] + [];
      PreorderForestCons(top[0], []);
      assert Preorder(top[0]) + [] == Preorder(top[0]);
    }
  }

  /** A lone surviving line is the whole tree, with no children; a lone class
      line therefore gives a root that is a leaf. */
  lemma LoneLineIsRoot(text: string, it: Item)
    requires Items(Lines(text)) == [it]
    ensures Parse(text) == MakeNode(it.nodeLabel, [])
  {
    SingleItemTree(it);
  }

  lemma SingleItemTree(it: Item)
    ensures Normalize(TopLevel([it])) == MakeNode(it.nodeLabel, [])
  {
    var items := [it];
    assert ChildIds(items, None, 1) == [];
    assert ChildIds(items, None, 0) == [0];
    assert ChildIds(items, Some(0), 1) == [];
    assert Subtree(items, 0) == MakeNode(it.nodeLabel, Forest(items, [], 1));
    assert TopLevel(items) == [Subtree(items, 0)] + Forest(items, [], 0);
  }
}
