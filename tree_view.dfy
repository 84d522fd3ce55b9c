/** The layout rules of `TreeNodeView` (src/features/models/charts/DecisionTree.tsx:98-181):
    which nodes get a box, which children are drawn below a box, when the
    "True"/"False" tags and the horizontal connector appear, and which
    spacing the row of children gets. Colours, sizes and positions are not
    modelled; a drawn node is a `Box`. */
module TreeView {
  import opened Wrappers
  import opened TreeSpec

  /** The `gap-6` / `gap-12` spacing class of the row of children. */
  datatype Spacing = Gap6 | Gap12

  /** A drawn condition node: its caption, when the condition is not empty,
      and the block of children below it, when there are visible children. */
  datatype Box = Box(caption: Option<string>, below: Option<Below>)

  /** The block below a box: whether the horizontal connector is drawn, the
      spacing, and one branch per visible child, in order. */
  datatype Below = Below(connector: bool, spacing: Spacing, branches: seq<Branch>)

  /** A visible child: its "True"/"False" tag, if any, above its own box. */
  datatype Branch = Branch(tag: Option<string>, box: Box)

  /** `children.filter((child) => child.class === undefined)`: the children
      that are not class leaves, in their original order. */
  function Visible(children: seq<TreeNode>): (r: seq<TreeNode>)
    ensures |r| <= |children|
    ensures forall k :: 0 <= k < |r| ==> r[k].Condition? && r[k] in children
  {
    if children == [] then []
    else (if children[0].Condition? then [children[0]] else []) + Visible(children[1..])
  }

  /** Filtering a concatenation filters each part. */
  lemma {:induction false} VisibleAppend(a: seq<TreeNode>, b: seq<TreeNode>)
    ensures Visible(a + b) == Visible(a) + Visible(b)
  {
    if a == [] {
      assert a + b == b;
    } else {
      var head := if a[0].Condition? then [a[0]] else [];
      assert (a + b)[0] == a[0];
      assert (a + b)[1..] == a[1..] + b;
      VisibleAppend(a[1..], b);
      AppendStep(Visible(a + b), Visible(a), head, Visible(a[1..]), Visible(b));
    }
  }

  /** Every condition child is kept. */
  lemma {:induction false} VisibleKeepsConditions(children: seq<TreeNode>, k: nat)
    requires k < |children| && children[k].Condition?
    ensures children[k] in Visible(children)
  {
    if k > 0 {
      VisibleKeepsConditions(children[1..], k - 1);
    }
  }

  /** Children that are all class leaves leave nothing to draw. */
  lemma {:induction false} VisibleOfLeaves(children: seq<TreeNode>)
    requires forall k :: 0 <= k < |children| ==> children[k].Class?
    ensures Visible(children) == []
  {
    if children != [] {
      VisibleOfLeaves(children[1..]);
    }
  }

  /** The tag over the `k`-th of `count` visible children. */
  function Tag(count: nat, k: nat): (r: Option<string>)
    ensures r.Some? <==> count == 2
    ensures r.Some? ==> (r.value == "True" <==> k == 0)
    ensures r.Some? ==> (r.value == "False" <==> k != 0)
  {
    if count == 2 then Some(if k == 0 then "True" else "False") else None
  }

  /** `TreeNodeView(node)`: nothing for a class leaf, whatever its children;
      otherwise a box over its visible children. */
  function View(t: TreeNode): (r: Option<Box>)
    ensures r.None? <==> t.Class?
    decreases t
  {
    match t
    case Class(_, _) => None
    case Condition(text, children) =>
      var vis := Visible(children);
      var caption := if text == [] then None else Some(text);
      if vis == [] then Some(Box(caption, None))
      else
        var branches := seq(|vis|, k requires 0 <= k < |vis| => Branch(Tag(|vis|, k), View(vis[k]).value));
        Some(Box(caption, Some(Below(|vis| > 1, if |vis| > 2 then Gap6 else Gap12, branches))))
  }

  // ---------------------------------------------------------------------------
  // The rules, one by one

  /** A condition node is drawn with its condition as caption (unless empty);
      the block below it exists exactly when it has a visible child, and
      then holds one branch per visible child, drawn as that child's view. */
  lemma ConditionBox(text: string, children: seq<TreeNode>)
    ensures var b := View(Condition(text, children)).value;
      && (b.caption.Some? <==> text != [])
      && (b.caption.Some? ==> b.caption.value == text)
      && (b.below.Some? <==> Visible(children) != [])
      && (b.below.Some? ==> |b.below.value.branches| == |Visible(children)|)
      && (b.below.Some? ==> forall k :: 0 <= k < |Visible(children)| ==>
            Some(b.below.value.branches[k].box) == View(Visible(children)[k]))
  {
  }

  /** The tags are "True" then "False" when there are exactly two visible
      children, and there are none otherwise. */
  lemma TagRule(text: string, children: seq<TreeNode>)
    requires Visible(children) != []
    ensures var bs := View(Condition(text, children)).value.below.value.branches;
      && (|bs| == 2 ==> bs[0].tag == Some("True") && bs[1].tag == Some("False"))
      && (|bs| != 2 ==> forall k :: 0 <= k < |bs| ==> bs[k].tag.None?)
  {
  }

  /** The connector is drawn exactly when there is more than one visible
      child, and the tighter `gap-6` is used exactly when there are more than
      two. */
  lemma ConnectorAndSpacing(text: string, children: seq<TreeNode>)
    requires Visible(children) != []
    ensures var below := View(Condition(text, children)).value.below.value;
      && (below.connector <==> |Visible(children)| > 1)
      && (below.spacing == Gap6 <==> |Visible(children)| > 2)
  {
  }

  /** A condition node all of whose children are class leaves is drawn as a
      box with nothing below it. */
  lemma LeafChildrenDrawNothingBelow(text: string, children: seq<TreeNode>)
    requires forall k :: 0 <= k < |children| ==> children[k].Class?
    ensures View(Condition(text, children)).value.below == None
  {
    VisibleOfLeaves(children);
  }

  // ---------------------------------------------------------------------------
  // What gets drawn overall

  /** The number of boxes drawn for a view. */
  function BoxCount(b: Box): nat
    decreases b, 2
  {
    1 + (if b.below.None? then 0 else BranchBoxCount(b.below.value.branches))
  }

  function BranchBoxCount(bs: seq<Branch>): nat
    decreases bs, 0
  {
    if bs == [] then 0 else BranchCount(bs[0]) + BranchBoxCount(bs[1..])
  }

  function BranchCount(br: Branch): nat
    decreases br, 1
  {
    BoxCount(br.box)
  }

  /** The condition nodes of a tree that are not a class leaf and lie below no
      class leaf. */
  function Shown(t: TreeNode): (r: nat)
    ensures r == 0 <==> t.Class?
    decreases t, 1
  {
    if t.Class? then 0 else 1 + ShownAll(t.children)
  }

  function ShownAll(ts: seq<TreeNode>): nat
    decreases ts, 0
  {
    if ts == [] then 0 else Shown(ts[0]) + ShownAll(ts[1..])
  }

  /** Class leaves contribute nothing, so only the visible children count. */
  lemma {:induction false} ShownAllVisible(ts: seq<TreeNode>)
    ensures ShownAll(Visible(ts)) == ShownAll(ts)
  {
    if ts != [] {
      ShownAllVisible(ts[1..]);
      var head := if ts[0].Condition? then [ts[0]] else [];
      assert Visible(ts) == head + Visible(ts[1..]);
      ShownAllAppend(head, Visible(ts[1..]));
    }
  }

  lemma {:induction false} ShownAllAppend(a: seq<TreeNode>, b: seq<TreeNode>)
    ensures ShownAll(a + b) == ShownAll(a) + ShownAll(b)
  {
    if a == [] {
      assert a + b == b;
    } else {
      assert (a + b)[1..] == a[1..] + b;
      ShownAllAppend(a[1..], b);
    }
  }

  /** Exactly one box is drawn for every condition node that lies below no
      class leaf, and none for anything else: a class leaf hides itself and
      everything attached below it. */
  lemma {:induction false} BoxesAreShownNodes(t: TreeNode)
    requires t.Condition?
    ensures BoxCount(View(t).value) == Shown(t)
    decreases t, 1
  {
    var vis := Visible(t.children);
    ShownAllVisible(t.children);
    if vis != [] {
      var bs := View(t).value.below.value.branches;
      BranchesAreShownNodes(t, vis, bs, 0);
      assert bs[0..] == bs && vis[0..] == vis;
    }
  }

  lemma {:induction false} BranchesAreShownNodes(t: TreeNode, vis: seq<TreeNode>, bs: seq<Branch>, from: nat)
    requires from <= |vis| == |bs|
    requires forall k :: 0 <= k < |vis| ==> vis[k].Condition? && vis[k] in t.children
    requires forall k :: 0 <= k < |vis| ==> Some(bs[k].box) == View(vis[k])
    ensures BranchBoxCount(bs[from..]) == ShownAll(vis[from..])
    decreases t, 0, |vis| - from
  {
    if from < |vis| {
      BoxesAreShownNodes(vis[from]);
      BranchesAreShownNodes(t, vis, bs, from + 1);
      assert bs[from..][1..] == bs[from + 1..];
      assert vis[from..][1..] == vis[from + 1..];
    }
  }
}
