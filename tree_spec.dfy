/** The tree that `parseTree` (src/features/models/charts/DecisionTree.tsx)
    builds, described without its stack. The lines that survive stripping are
    numbered in input order; each one is an `Item` with its depth and label.
    A line's parent is fixed by the depths alone, and the tree is read off
    the parent relation. The imperative builder (module TreeParse) is proved
    to produce exactly this tree. */
module TreeSpec {
  import opened Wrappers
  import opened TreeLines

  /** A line that survived stripping: its `|`-count depth and what it denotes. */
  datatype Item = Item(depth: int, nodeLabel: NodeLabel)

  /** `TreeNode` of DecisionTree.tsx:3-7. A condition node always carries a
      children array; a class leaf carries one only once a deeper line has
      been attached to it, and an absent array is written `[]` here. */
  datatype TreeNode =
    | Condition(condition: string, children: seq<TreeNode>)
    | Class(classId: nat, children: seq<TreeNode>)

  /** Depths are `|`-counts minus one, so never below -1. */
  predicate DepthsOk(items: seq<Item>) {
    forall k :: 0 <= k < |items| ==> items[k].depth >= -1
  }

  // ---------------------------------------------------------------------------
  // Parents

  /** The latest item before position `j` whose depth is below `d`. */
  function LastBelow(items: seq<Item>, j: nat, d: int): (r: Option<nat>)
    requires j <= |items|
    ensures r.Some? ==> r.value < j && items[r.value].depth < d
    ensures r.Some? ==> forall k :: r.value < k < j ==> items[k].depth >= d
    ensures r.None? ==> forall k :: 0 <= k < j ==> items[k].depth >= d
  {
    if j == 0 then None
    else if items[j - 1].depth < d then Some(j - 1)
    else LastBelow(items, j - 1, d)
  }

  /** The node that item `j` is attached to: none (top level) for depth 0,
      otherwise the latest earlier item of smaller depth, if there is one. */
  function ParentOf(items: seq<Item>, j: nat): (r: Option<nat>)
    requires j < |items|
    ensures r.Some? ==> r.value < j && items[r.value].depth < items[j].depth
    ensures r.Some? ==> items[j].depth != 0
  {
    if items[j].depth == 0 then None else LastBelow(items, j, items[j].depth)
  }

  /** A line without any `|` (depth -1) always lands at the top level. */
  lemma NoPipeIsTopLevel(items: seq<Item>, j: nat)
    requires DepthsOk(items) && j < |items| && items[j].depth == -1
    ensures ParentOf(items, j) == None
  {
  }

  /** A line deeper than the line just before it (and not at depth 0) is
      attached to that line, whatever kind of node that line is. */
  lemma DeeperLineAttachesToPrevious(items: seq<Item>, j: nat)
    requires 0 < j < |items|
    requires items[j].depth != 0 && items[j - 1].depth < items[j].depth
    ensures ParentOf(items, j) == Some(j - 1)
  {
  }

  /** Items that lie between positions `a` and `b` and are all at depth `d` or
      deeper do not change which item is found below `d`. */
  lemma {:induction false} LastBelowSkip(items: seq<Item>, a: nat, b: nat, d: int)
    requires a <= b <= |items|
    requires forall k :: a <= k < b ==> items[k].depth >= d
    ensures LastBelow(items, b, d) == LastBelow(items, a, d)
    decreases b - a
  {
    if a < b {
      LastBelowSkip(items, a, b - 1, d);
    }
  }

  // ---------------------------------------------------------------------------
  // The stack

  /** One stack entry of `parseTree`: a depth and the node pushed with it. */
  datatype Frame = Frame(depth: int, id: nat)

  /** The stack right after item `j` is pushed: its chain of ancestors, then
      `j` itself. Ids and depths strictly increase from bottom to top. */
  function Path(items: seq<Item>, j: nat): (r: seq<Frame>)
    requires j < |items|
    ensures |r| >= 1 && r[|r| - 1] == Frame(items[j].depth, j)
    decreases j
  {
    match ParentOf(items, j)
    case None => [Frame(items[j].depth, j)]
    case Some(i) => Path(items, i) + [Frame(items[j].depth, j)]
  }

  /** Each stack entry records its node's depth, and ids and depths strictly
      increase from bottom to top. */
  predicate StackShape(items: seq<Item>, r: seq<Frame>) {
    && (forall k :: 0 <= k < |r| ==> r[k].id < |items| && items[r[k].id].depth == r[k].depth)
    && (forall k, l :: 0 <= k < l < |r| ==> r[k].id < r[l].id && r[k].depth < r[l].depth)
  }

  lemma StackShapePush(items: seq<Item>, r: seq<Frame>, j: nat)
    requires StackShape(items, r) && j < |items|
    requires r != [] ==> r[|r| - 1].id < j && r[|r| - 1].depth < items[j].depth
    ensures StackShape(items, r + [Frame(items[j].depth, j)])
  {
    var r' := r + [Frame(items[j].depth, j)];
    forall k, l | 0 <= k < l < |r'|
      ensures r'[k].id < r'[l].id && r'[k].depth < r'[l].depth
    {
      assert r'[k] == r[k];
      if l < |r| {
        assert r'[l] == r[l];
      } else if k < |r| - 1 {
        assert r[k].id < r[|r| - 1].id && r[k].depth < r[|r| - 1].depth;
      }
    }
  }

  lemma {:induction false} PathShape(items: seq<Item>, j: nat)
    requires j < |items|
    ensures StackShape(items, Path(items, j))
    decreases j
  {
    match ParentOf(items, j) {
      case None =>
      case Some(i) =>
        PathShape(items, i);
        StackShapePush(items, Path(items, i), j);
    }
  }

  /** What is left of the stack once the parent of a new item at depth `d`
      is sought among the first `n` items: the stack of the item found by
      `LastBelow`, or nothing. */
  function Kept(items: seq<Item>, n: nat, d: int): seq<Frame>
    requires n <= |items|
  {
    match LastBelow(items, n, d)
    case None => []
    case Some(i) => Path(items, i)
  }

  /** `keep` is what remains of `stack` after popping every entry at depth
      `d` or deeper from its top, and only those. */
  predicate PoppedTo(stack: seq<Frame>, keep: seq<Frame>, d: int) {
    && |keep| <= |stack|
    && stack[..|keep|] == keep
    && forall k :: |keep| <= k < |stack| ==> stack[k].depth >= d
  }

  lemma PoppedToPush(stack: seq<Frame>, keep: seq<Frame>, d: int, f: Frame)
    requires PoppedTo(stack, keep, d) && f.depth >= d
    ensures PoppedTo(stack + [f], keep, d)
  {
    assert (stack + [f])[..|keep|] == stack[..|keep|];
  }

  /** Popping the stack left by item `m` while its top is at depth `d` or
      deeper stops exactly at the stack of the item found by `LastBelow`;
      when there is none, everything is popped. This is why the stack finds
      the same parent as `ParentOf`. */
  lemma {:induction false} SpineCut(items: seq<Item>, m: nat, d: int)
    requires DepthsOk(items) && m < |items| && d != 0
    ensures PoppedTo(Path(items, m), Kept(items, m + 1, d), d)
    decreases m
  {
    var p := Path(items, m);
    if items[m].depth < d {
      assert LastBelow(items, m + 1, d) == Some(m);
      assert p[..|p|] == p;
    } else {
      assert LastBelow(items, m + 1, d) == LastBelow(items, m, d);
      match ParentOf(items, m) {
        case None =>
          SpineCutTop(items, m, d);
        case Some(q) =>
          LastBelowSkip(items, q + 1, m, d);
          SpineCut(items, q, d);
          PoppedToPush(Path(items, q), Kept(items, q + 1, d), d, Frame(items[m].depth, m));
      }
    }
  }

  /** For a top-level item at depth `d` or deeper, nothing earlier is below `d`. */
  lemma SpineCutTop(items: seq<Item>, m: nat, d: int)
    requires DepthsOk(items) && m < |items| && d != 0
    requires ParentOf(items, m) == None && items[m].depth >= d
    ensures LastBelow(items, m, d) == None
  {
    if items[m].depth != 0 {
      LastBelowSkip(items, 0, m, d);
    }
  }

  // ---------------------------------------------------------------------------
  // Children

  /** The ids, from `lo` on and in line order, of the items whose parent is
      `p` (`None` stands for the top level). */
  function ChildIds(items: seq<Item>, p: Option<nat>, lo: nat): (r: seq<nat>)
    requires lo <= |items|
    ensures forall k :: 0 <= k < |r| ==> lo <= r[k] < |items|
    decreases |items| - lo
  {
    if lo == |items| then []
    else (if ParentOf(items, lo) == p then [lo] else []) + ChildIds(items, p, lo + 1)
  }

  /** A children list names only nodes whose parent it belongs to. */
  lemma {:induction false} ChildIdsAreChildren(items: seq<Item>, p: Option<nat>, lo: nat, c: nat)
    requires lo <= |items| && c in ChildIds(items, p, lo)
    ensures ParentOf(items, c) == p
    decreases |items| - lo
  {
    if lo < |items| {
      var rest := ChildIds(items, p, lo + 1);
      if c != lo || ParentOf(items, lo) != p {
        assert c in rest;
        ChildIdsAreChildren(items, p, lo + 1, c);
      }
    }
  }

  /** Every item with parent `p` from `lo` on is listed. */
  lemma {:induction false} ChildIdsComplete(items: seq<Item>, p: Option<nat>, lo: nat, c: nat)
    requires lo <= c < |items| && ParentOf(items, c) == p
    ensures c in ChildIds(items, p, lo)
    decreases c - lo
  {
    if lo < c {
      ChildIdsComplete(items, p, lo + 1, c);
    }
  }

  predicate Increasing(s: seq<nat>) {
    forall k, l :: 0 <= k < l < |s| ==> s[k] < s[l]
  }

  lemma IncreasingCons(x: nat, s: seq<nat>)
    requires Increasing(s) && forall k :: 0 <= k < |s| ==> x < s[k]
    ensures Increasing([x] + s)
  {
    var r := [x] + s;
    forall k, l | 0 <= k < l < |r|
      ensures r[k] < r[l]
    {
      assert r[l] == s[l - 1];
      if k > 0 {
        assert r[k] == s[k - 1];
      }
    }
  }

  /** Siblings keep their input-line order. */
  lemma {:induction false} ChildIdsIncreasing(items: seq<Item>, p: Option<nat>, lo: nat)
    requires lo <= |items|
    ensures Increasing(ChildIds(items, p, lo))
    decreases |items| - lo
  {
    if lo < |items| {
      ChildIdsIncreasing(items, p, lo + 1);
      var rest := ChildIds(items, p, lo + 1);
      if ParentOf(items, lo) == p {
        assert ChildIds(items, p, lo) == [lo] + rest;
        IncreasingCons(lo, rest);
      } else {
        assert ChildIds(items, p, lo) == rest;
      }
    }
  }

  /** A range with no child of `p` contributes nothing. */
  lemma {:induction false} ChildIdsSkip(items: seq<Item>, p: Option<nat>, a: nat, b: nat)
    requires a <= b <= |items|
    requires forall c :: a <= c < b ==> ParentOf(items, c) != p
    ensures ChildIds(items, p, a) == ChildIds(items, p, b)
    decreases b - a
  {
    if a < b {
      ChildIdsSkip(items, p, a + 1, b);
    }
  }

  // ---------------------------------------------------------------------------
  // Appending an item changes nothing about the earlier ones

  lemma {:induction false} LastBelowSnoc(items: seq<Item>, x: Item, j: nat, d: int)
    requires j <= |items|
    ensures LastBelow(items + [x], j, d) == LastBelow(items, j, d)
  {
    if j > 0 {
      assert (items + [x])[j - 1] == items[j - 1];
      LastBelowSnoc(items, x, j - 1, d);
    }
  }

  lemma ParentOfSnoc(items: seq<Item>, x: Item, j: nat)
    requires j < |items|
    ensures ParentOf(items + [x], j) == ParentOf(items, j)
  {
    assert (items + [x])[j] == items[j];
    LastBelowSnoc(items, x, j, items[j].depth);
  }

  lemma {:induction false} PathSnoc(items: seq<Item>, x: Item, j: nat)
    requires j < |items|
    ensures Path(items + [x], j) == Path(items, j)
    decreases j
  {
    ParentOfSnoc(items, x, j);
    assert (items + [x])[j] == items[j];
    match ParentOf(items, j)
    case None =>
    case Some(i) => PathSnoc(items, x, i);
  }

  /** Appending an item appends its id to its parent's children and leaves
      every other children list as it was. */
  lemma ChildIdsSnoc(items: seq<Item>, x: Item, p: Option<nat>, lo: nat)
    requires lo <= |items|
    ensures ParentOf(items + [x], |items|) == p ==>
      ChildIds(items + [x], p, lo) == ChildIds(items, p, lo) + [|items|]
    ensures ParentOf(items + [x], |items|) != p ==>
      ChildIds(items + [x], p, lo) == ChildIds(items, p, lo)
  {
    if ParentOf(items + [x], |items|) == p {
      ChildIdsSnocParent(items, x, p, lo);
    } else {
      ChildIdsSnocOther(items, x, p, lo);
    }
  }

  lemma {:induction false} ChildIdsSnocParent(items: seq<Item>, x: Item, p: Option<nat>, lo: nat)
    requires lo <= |items| && ParentOf(items + [x], |items|) == p
    ensures ChildIds(items + [x], p, lo) == ChildIds(items, p, lo) + [|items|]
    decreases |items| - lo
  {
    var n := |items|;
    var items' := items + [x];
    if lo < n {
      ParentOfSnoc(items, x, lo);
      ChildIdsSnocParent(items, x, p, lo + 1);
      AppendStep(ChildIds(items', p, lo), ChildIds(items, p, lo),
                 if ParentOf(items, lo) == p then [lo] else [],
                 ChildIds(items, p, lo + 1), [n]);
    } else {
      assert ChildIds(items', p, n + 1) == [];
      assert ChildIds(items', p, n) == [n] + [];
    }
  }

  /** One step of appending at the end of a list built front to back. */
  lemma AppendStep<T>(whole': seq<T>, whole: seq<T>, head: seq<T>, rest: seq<T>, tail: seq<T>)
    requires whole' == head + (rest + tail) && whole == head + rest
    ensures whole' == whole + tail
  {
  }

  lemma {:induction false} ChildIdsSnocOther(items: seq<Item>, x: Item, p: Option<nat>, lo: nat)
    requires lo <= |items| && ParentOf(items + [x], |items|) != p
    ensures ChildIds(items + [x], p, lo) == ChildIds(items, p, lo)
    decreases |items| - lo
  {
    var n := |items|;
    var items' := items + [x];
    if lo < n {
      ParentOfSnoc(items, x, lo);
      ChildIdsSnocOther(items, x, p, lo + 1);
      var head := if ParentOf(items, lo) == p then [lo] else [];
      assert ChildIds(items', p, lo) == head + ChildIds(items, p, lo + 1);
    } else {
      assert ChildIds(items', p, n + 1) == [];
      assert ChildIds(items', p, n) == [] + [];
    }
  }

  // ---------------------------------------------------------------------------
  // The tree

  /** A node for a label with the given children. */
  function MakeNode(nodeLabel: NodeLabel, children: seq<TreeNode>): (t: TreeNode)
    ensures t.children == children
  {
    match nodeLabel
    case ConditionLabel(text) => Condition(text, children)
    case ClassLabel(id) => Class(id, children)
  }

  /** The label a node was made from. */
  function LabelOf(t: TreeNode): NodeLabel {
    match t
    case Condition(text, _) => ConditionLabel(text)
    case Class(id, _) => ClassLabel(id)
  }

  lemma LabelOfMakeNode(nodeLabel: NodeLabel, children: seq<TreeNode>)
    ensures LabelOf(MakeNode(nodeLabel, children)) == nodeLabel
  {
  }

  /** The node of item `j` with all its descendants: it carries the item's
      label and has one child per item whose parent is `j`. */
  function Subtree(items: seq<Item>, j: nat): (r: TreeNode)
    requires j < |items|
    ensures LabelOf(r) == items[j].nodeLabel
    ensures |r.children| == |ChildIds(items, Some(j), j + 1)|
    decreases |items| - j, 0
  {
    var children := Forest(items, ChildIds(items, Some(j), j + 1), j + 1);
    LabelOfMakeNode(items[j].nodeLabel, children);
    MakeNode(items[j].nodeLabel, children)
  }

  /** The nodes of the items `ids`, in order: the `k`-th is the subtree of
      item `ids[k]`. Every id is at least `lo`. */
  function Forest(items: seq<Item>, ids: seq<nat>, lo: nat): (r: seq<TreeNode>)
    requires lo <= |items|
    requires forall k :: 0 <= k < |ids| ==> lo <= ids[k] < |items|
    ensures |r| == |ids|
    ensures forall k :: 0 <= k < |ids| ==> r[k] == Subtree(items, ids[k])
    decreases |items| - lo, 1, |ids|
  {
    if ids == [] then [] else [Subtree(items, ids[0])] + Forest(items, ids[1..], lo)
  }

  /** The bound `lo` only serves termination; the forest does not depend on it. */
  lemma {:induction false} ForestAnyBound(items: seq<Item>, ids: seq<nat>, lo: nat, lo': nat)
    requires lo <= |items| && lo' <= |items|
    requires forall k :: 0 <= k < |ids| ==> lo <= ids[k] < |items| && lo' <= ids[k]
    ensures Forest(items, ids, lo) == Forest(items, ids, lo')
    decreases |ids|
  {
    if ids != [] {
      ForestAnyBound(items, ids[1..], lo, lo');
    }
  }

  /** `root.children` once every item is placed: one subtree per id of the
      top-level children list, in order (`ChildIdsAreChildren` and
      `ChildIdsComplete` say those ids are exactly the parentless items). */
  function TopLevel(items: seq<Item>): (r: seq<TreeNode>)
    ensures |r| == |ChildIds(items, None, 0)|
    ensures forall k :: 0 <= k < |r| ==> r[k] == Subtree(items, ChildIds(items, None, 0)[k])
  {
    Forest(items, ChildIds(items, None, 0), 0)
  }

  // ---------------------------------------------------------------------------
  // Every item appears exactly once, in line order

  /** The labels of a tree in pre-order: a node, then each child's subtree. */
  function Preorder(t: TreeNode): seq<NodeLabel>
    decreases t, 1
  {
    [LabelOf(t)] + PreorderForest(t.children)
  }

  function PreorderForest(ts: seq<TreeNode>): seq<NodeLabel>
    decreases ts, 0
  {
    if ts == [] then [] else Preorder(ts[0]) + PreorderForest(ts[1..])
  }

  lemma PreorderForestCons(t: TreeNode, ts: seq<TreeNode>)
    ensures PreorderForest([t] + ts) == Preorder(t) + PreorderForest(ts)
  {
    assert ([t] + ts)[1..] == ts;
  }

  /** The labels of items `a` to `b`, in line order. */
  function LabelsFrom(items: seq<Item>, a: nat, b: nat): (r: seq<NodeLabel>)
    requires a <= b <= |items|
    ensures |r| == b - a
    ensures forall k :: 0 <= k < |r| ==> r[k] == items[a + k].nodeLabel
    decreases b - a
  {
    if a == b then [] else [items[a].nodeLabel] + LabelsFrom(items, a + 1, b)
  }

  lemma LabelsFromSplit(items: seq<Item>, a: nat, m: nat, b: nat)
    requires a <= m <= b <= |items|
    ensures LabelsFrom(items, a, b) == LabelsFrom(items, a, m) + LabelsFrom(items, m, b)
  {
    assert LabelsFrom(items, a, b) == LabelsFrom(items, a, m) + LabelsFrom(items, m, b);
  }

  /** `d` when it is positive, else 0: an item at depth -1 or 0 owns exactly
      the following items of positive depth. */
  function Floor0(d: int): int {
    if d < 0 then 0 else d
  }

  /** The first position from `k` on whose depth does not exceed
      `Floor0(depth of j)`, or the end: the items strictly between `j` and
      `BlockEnd(items, j, j + 1)` are exactly the descendants of `j`. */
  function BlockEnd(items: seq<Item>, j: nat, k: nat): (e: nat)
    requires j < k <= |items|
    ensures k <= e <= |items|
    ensures e < |items| ==> items[e].depth <= Floor0(items[j].depth)
    ensures forall c :: k <= c < e ==> items[c].depth > Floor0(items[j].depth)
    decreases |items| - k
  {
    if k == |items| || items[k].depth <= Floor0(items[j].depth) then k
    else BlockEnd(items, j, k + 1)
  }

  function End(items: seq<Item>, j: nat): nat
    requires j < |items|
  {
    BlockEnd(items, j, j + 1)
  }

  /** Every item inside the block of `j` has a parent inside the block. */
  lemma InsideBlock(items: seq<Item>, j: nat, c: nat)
    requires j < |items| && j < c < End(items, j)
    ensures ParentOf(items, c).Some?
    ensures j <= ParentOf(items, c).value < c
  {
    var d := items[c].depth;
    assert items[j].depth < d;
  }

  /** A child of `j` lies inside the block of `j`; its own block ends no
      later, either together with the block of `j` or at the next child of `j`. */
  lemma ChildBlock(items: seq<Item>, j: nat, c: nat)
    requires DepthsOk(items) && c < |items| && ParentOf(items, c) == Some(j)
    ensures j < c < End(items, j)
    ensures End(items, c) <= End(items, j)
    ensures End(items, c) == End(items, j) || ParentOf(items, End(items, c)) == Some(j)
  {
    var dc := items[c].depth;
    var dj := items[j].depth;
    assert dc > Floor0(dj) by {
      assert dj >= -1;
    }
    ChildInsideBlock(items, j, c, j + 1);
    var e := End(items, c);
    var ej := End(items, j);
    if ej < |items| {
      BlockEndBound(items, c, c + 1, ej);
    }
    if e < ej {
      var de := items[e].depth;
      assert de <= dc && de > Floor0(dj);
      LastBelowSkip(items, j + 1, e, de);
    }
  }

  /** A block ends no later than any position that is shallow enough. */
  lemma {:induction false} BlockEndBound(items: seq<Item>, j: nat, k: nat, x: nat)
    requires j < k <= x < |items|
    requires items[x].depth <= Floor0(items[j].depth)
    ensures BlockEnd(items, j, k) <= x
    decreases x - k
  {
    if k < x && items[k].depth > Floor0(items[j].depth) {
      BlockEndBound(items, j, k + 1, x);
    }
  }

  lemma {:induction false} ChildInsideBlock(items: seq<Item>, j: nat, c: nat, k: nat)
    requires DepthsOk(items) && c < |items| && ParentOf(items, c) == Some(j)
    requires j < k <= c
    requires forall i :: j < i < k ==> items[i].depth > Floor0(items[j].depth)
    ensures c < BlockEnd(items, j, k)
    decreases c - k
  {
    assert items[j].depth >= -1;
    if k < c {
      ChildInsideBlock(items, j, c, k + 1);
    }
  }

  /** For a top-level item, the next item after its block is top level too. */
  lemma TopBlock(items: seq<Item>, c: nat)
    requires DepthsOk(items) && c < |items| && ParentOf(items, c) == None
    ensures End(items, c) == |items| || ParentOf(items, End(items, c)) == None
  {
    var e := End(items, c);
    if e < |items| && items[e].depth != 0 {
      var de := items[e].depth;
      var dc := items[c].depth;
      assert de >= -1;
      if dc == 0 || dc == -1 {
        assert de == -1;
        NoPipeIsTopLevel(items, e);
      } else {
        LastBelowSkip(items, c + 1, e, de);
        LastBelowSkip(items, 0, c, dc);
        assert LastBelow(items, c + 1, de) == None;
      }
    }
  }

  /** The item right after `j`, when inside the block of `j`, is its first child. */
  lemma FirstChild(items: seq<Item>, j: nat)
    requires j < |items| && j + 1 < End(items, j)
    ensures ParentOf(items, j + 1) == Some(j)
  {
  }

  /** No child of `j` lies at or after the end of its block. */
  lemma ChildIdsAfterEnd(items: seq<Item>, j: nat)
    requires DepthsOk(items) && j < |items|
    ensures ChildIds(items, Some(j), End(items, j)) == []
  {
    forall c | End(items, j) <= c < |items|
      ensures ParentOf(items, c) != Some(j)
    {
      if ParentOf(items, c) == Some(j) {
        ChildBlock(items, j, c);
      }
    }
    ChildIdsSkip(items, Some(j), End(items, j), |items|);
  }

  /** Where the children of `p` stop: the end of its block, or the end of
      the input for the top level. */
  function Limit(items: seq<Item>, p: Option<nat>): nat
    requires p.Some? ==> p.value < |items|
  {
    match p
    case None => |items|
    case Some(j) => End(items, j)
  }

  lemma {:induction false} SubtreePreorder(items: seq<Item>, j: nat)
    requires DepthsOk(items) && j < |items|
    ensures Preorder(Subtree(items, j)) == LabelsFrom(items, j, End(items, j))
    decreases |items| - j, 0
  {
    var f := Forest(items, ChildIds(items, Some(j), j + 1), j + 1);
    LabelOfMakeNode(items[j].nodeLabel, f);
    if j + 1 < End(items, j) {
      FirstChild(items, j);
    }
    ForestPreorder(items, Some(j), j + 1);
  }

  /** The forest of the children of `p` from a child `lo` on is the subtree
      of `lo` followed by the forest from the end of the block of `lo`. */
  lemma ForestStep(items: seq<Item>, p: Option<nat>, lo: nat)
    requires DepthsOk(items) && lo < |items|
    requires p.Some? ==> p.value < lo
    requires ParentOf(items, lo) == p
    ensures Forest(items, ChildIds(items, p, lo), lo)
         == [Subtree(items, lo)] + Forest(items, ChildIds(items, p, End(items, lo)), End(items, lo))
  {
    var e := End(items, lo);
    forall c | lo + 1 <= c < e
      ensures ParentOf(items, c) != p
    {
      InsideBlock(items, lo, c);
    }
    ChildIdsSkip(items, p, lo + 1, e);
    var rest := ChildIds(items, p, e);
    assert ChildIds(items, p, lo) == [lo] + rest;
    assert ([lo] + rest)[1..] == rest;
    ForestAnyBound(items, rest, lo, e);
  }

  lemma {:induction false} ForestPreorder(items: seq<Item>, p: Option<nat>, lo: nat)
    requires DepthsOk(items) && lo <= |items|
    requires p.Some? ==> p.value < lo
    requires lo <= Limit(items, p)
    requires lo < Limit(items, p) ==> ParentOf(items, lo) == p
    ensures PreorderForest(Forest(items, ChildIds(items, p, lo), lo)) == LabelsFrom(items, lo, Limit(items, p))
    decreases |items| - lo, 1
  {
    var lim := Limit(items, p);
    if lo == lim {
      if p.Some? {
        ChildIdsAfterEnd(items, p.value);
      }
    } else {
      var e := End(items, lo);
      ForestStep(items, p, lo);
      PreorderForestCons(Subtree(items, lo), Forest(items, ChildIds(items, p, e), e));
      SubtreePreorder(items, lo);
      match p {
        case None => TopBlock(items, lo);
        case Some(j) => ChildBlock(items, j, lo);
      }
      ForestPreorder(items, p, e);
      LabelsFromSplit(items, lo, e, lim);
    }
  }

  /** Every item appears exactly once in the top-level forest, in line order. */
  lemma TopLevelPreorder(items: seq<Item>)
    requires DepthsOk(items)
    ensures PreorderForest(TopLevel(items)) == LabelsFrom(items, 0, |items|)
  {
    ForestPreorder(items, None, 0);
  }

  /** The top level is empty exactly when there are no items. */
  lemma TopLevelEmptyIffNoItems(items: seq<Item>)
    ensures TopLevel(items) == [] <==> items == []
  {
    if items != [] {
      assert ParentOf(items, 0) == None;
      assert 0 in ChildIds(items, None, 0);
    }
  }
}
