/** Searching and walking an AVL tree (avl.c: dlm_avl_walk, first, last, nearest, find). */
module AvlWalk {
  import opened Sides
  import opened AvlTree
  import opened AvlMemory
  import opened AvlRebalance

  // ---------- what lies on a side ----------

  /** The nodes outside the focus on the given side of it. */
  ghost function Beyond(ctx: Context, side: Side): seq<AvlNode> {
    if side == Left then Before(ctx) else After(ctx)
  }

  /** Two stretches of nodes on the given side, the nearer one first. */
  function Stretch(side: Side, near: seq<AvlNode>, far: seq<AvlNode>): seq<AvlNode> {
    if side == Left then far + near else near + far
  }

  /** The node of a stretch on the given side that is reached first. */
  function Nearby(side: Side, s: seq<AvlNode>): AvlNode? {
    if s == [] then null else if side == Left then s[|s| - 1] else s[0]
  }

  function Down(ctx: Context, t: Tree, side: Side): Context
    requires t.Node?
  {
    [Crumb(side, t.node, t.balance, Kid(t, Other(side)))] + ctx
  }

  lemma InOrderEmpty(t: Tree)
    ensures InOrder(t) == [] <==> t.Leaf?
  {}

  lemma DownHolds(st: State, ctx: Context, t: Tree, side: Side, rs: Side)
    requires Holds(st, ctx, t, rs) && t.Node?
    ensures Holds(st, Down(ctx, t, side), Kid(t, side), rs) && Zip(Down(ctx, t, side), Kid(t, side)) == Zip(ctx, t)
  {
    var c := Down(ctx, t, side);
    assert c[1..] == ctx && Plug(c[0], Kid(t, side)) == t;
    HoldsUp(st, c, Kid(t, side), rs);
  }

  lemma DownBeyond(ctx: Context, t: Tree, side: Side)
    requires t.Node?
    ensures Beyond(Down(ctx, t, side), side) == Beyond(ctx, side)
    ensures Beyond(Down(ctx, t, side), Other(side)) == Stretch(Other(side), Stretch(Other(side), [t.node], InOrder(Kid(t, Other(side)))), Beyond(ctx, Other(side)))
  {
    var c := Down(ctx, t, side);
    assert c[1..] == ctx;
    assert Before(ctx) + [] == Before(ctx) && [] + After(ctx) == After(ctx);
  }

  /** What follows a node on the given side. */
  ghost function Span(ctx: Context, t: Tree, side: Side): seq<AvlNode>
    requires t.Node?
  {
    Stretch(side, InOrder(Kid(t, side)), Beyond(ctx, side))
  }

  lemma SpanSplits(ctx: Context, t: Tree)
    requires t.Node?
    ensures InOrder(Zip(ctx, t)) == Span(ctx, t, Left) + [t.node] + Span(ctx, t, Right)
  {
    assert InOrder(t) == InOrder(t.left) + [t.node] + InOrder(t.right);
    hide InOrder, Zip, Before, After;
    ZipInOrder(ctx, t);
    Regroup(Before(ctx), InOrder(t.left), [t.node], InOrder(t.right), After(ctx));
  }

  /** The cell of the focus as the source reads it. */
  lemma FocusRead(root: AvlRoot, ctx: Context, t: Tree, rs: Side)
    requires Lies(root, ctx, t, rs) && t.Node?
    ensures t.node in root.nodes && t.node.left == Top(t.left) && t.node.right == Top(t.right)
    ensures t.node.parent == Above(ctx) && t.node.side == SideOf(ctx, rs) && t.node.balance == t.balance
  {
    hide Holds;
    ReadFocus(root.View(), ctx, t, rs);
    assert root.View().mem[t.node] == Cell(t.node.left, t.node.right, t.node.parent, t.node.side, t.node.balance);
  }

  // ---------- down one side ----------

  lemma EdgeStep(t: Tree, side: Side)
    requires t.Node? && Kid(t, side).Node?
    ensures Nearby(Other(side), InOrder(Kid(t, side))) == Nearby(Other(side), InOrder(t))
  {
    InOrderEmpty(Kid(t, side));
  }

  /** The loops that go down one side as far as they can. */
  method Outermost(root: AvlRoot, n0: AvlNode, side: Side, ghost ctx: Context, ghost t: Tree, ghost rs: Side)
    returns (n: AvlNode, ghost c: Context, ghost sub: Tree)
    requires Lies(root, ctx, t, rs) && t.Node? && n0 == t.node
    ensures Lies(root, c, sub, rs) && sub.Node? && n == sub.node && Kid(sub, side).Leaf? && Zip(c, sub) == Zip(ctx, t)
    ensures Beyond(c, side) == Beyond(ctx, side) && n == Nearby(Other(side), InOrder(t))
    ensures root.View() == old(root.View())
  {
    hide Holds, Zip, Beyond;
    n, c, sub := n0, ctx, t;
    FocusRead(root, c, sub, rs);
    while root.Child(n, side) != null
      invariant Lies(root, c, sub, rs) && sub.Node? && n == sub.node && n.left == Top(sub.left) && n.right == Top(sub.right)
      invariant Zip(c, sub) == Zip(ctx, t) && Beyond(c, side) == Beyond(ctx, side)
      invariant Nearby(Other(side), InOrder(sub)) == Nearby(Other(side), InOrder(t))
      decreases sub
    {
      DownHolds(root.View(), c, sub, side, rs);
      DownBeyond(c, sub, side);
      EdgeStep(sub, side);
      c, sub := Down(c, sub, side), Kid(sub, side);
      FocusRead(root, c, sub, rs);
      n := root.Child(n, side);
    }
    InOrderEmpty(Kid(sub, side));
  }

  /** dlm_avl_first and dlm_avl_last */
  method Extreme(root: AvlRoot, side: Side, ghost tree: Tree, ghost rs: Side) returns (prev: AvlNode?)
    requires Lies(root, [], tree, rs)
    ensures prev == Nearby(Other(side), InOrder(tree))
    ensures root.View() == old(root.View())
  {
    hide Holds, Zip, Beyond;
    RootTop(root.View(), tree, rs);
    InOrderEmpty(tree);
    prev := null;
    if root.root != null {
      ghost var c, sub;
      prev, c, sub := Outermost(root, root.root, side, [], tree, rs);
    }
  }

  lemma RootTop(st: State, tree: Tree, rs: Side)
    requires Holds(st, [], tree, rs)
    ensures st.root == Top(tree)
  {}

  // ---------- to the next node ----------

  /** Goes up until the walk comes from the other side. */
  method Ascend(root: AvlRoot, node0: AvlNode, side: Side, ghost ctx: Context, ghost t: Tree, ghost rs: Side) returns (node: AvlNode?)
    requires Lies(root, ctx, t, rs) && t.Node? && node0 == t.node
    ensures node == Nearby(side, Beyond(ctx, side))
    ensures root.View() == old(root.View())
  {
    hide Holds, Zip, Beyond;
    ghost var c, sub := ctx, t;
    var n := node0;
    while true
      invariant Lies(root, c, sub, rs) && sub.Node? && n == sub.node && Beyond(c, side) == Beyond(ctx, side)
      decreases |c|
    {
      FocusRead(root, c, sub, rs);
      UpBeyond(c, side);
      var wasChild := n.side;
      node := n.parent;
      if node == null {
        return;
      }
      if wasChild == Other(side) {
        return;
      }
      HoldsUp(root.View(), c, sub, rs);
      c, sub := c[1..], Plug(c[0], sub);
      n := node;
    }
  }

  lemma UpBeyond(c: Context, side: Side)
    ensures c == [] ==> Beyond(c, side) == []
    ensures c != [] && c[0].side == side ==> Beyond(c, side) == Beyond(c[1..], side)
    ensures c != [] && c[0].side == Other(side) ==> Nearby(side, Beyond(c, side)) == c[0].node
  {
    if c != [] {
      assert Before(c[1..]) + [] == Before(c[1..]) && [] + After(c[1..]) == After(c[1..]);
    }
  }

  method WalkFrom(root: AvlRoot, oldNode: AvlNode, side: Side, ghost ctx: Context, ghost t: Tree, ghost rs: Side) returns (node: AvlNode?)
    requires Lies(root, ctx, t, rs) && t.Node? && oldNode == t.node
    ensures node == Nearby(side, Span(ctx, t, side))
    ensures root.View() == old(root.View())
  {
    hide Holds, Zip, Beyond;
    FocusRead(root, ctx, t, rs);
    InOrderEmpty(Kid(t, side));
    if root.Child(oldNode, side) != null {
      DownHolds(root.View(), ctx, t, side, rs);
      ghost var c, sub;
      node, c, sub := Outermost(root, root.Child(oldNode, side), Other(side), Down(ctx, t, side), Kid(t, side), rs);
    } else {
      node := Ascend(root, oldNode, side, ctx, t, rs);
    }
  }

  // ---------- no node twice ----------

  ghost predicate Distinct(s: seq<AvlNode>) {
    forall i, j | 0 <= i < j < |s| :: s[i] != s[j]
  }

  lemma {:induction false} RepDistinct(m: map<AvlNode, Cell>, t: Tree, parent: AvlNode?, side: Side)
    requires Rep(m, t, parent, side)
    ensures Distinct(InOrder(t)) && |InOrder(t)| == |Nodes(t)|
  {
    if t.Node? {
      RepDistinct(m, t.left, t.node, Left);
      RepDistinct(m, t.right, t.node, Right);
      InOrderNodes(t.left);
      InOrderNodes(t.right);
      JoinDistinct(InOrder(t.left), t.node, InOrder(t.right), Nodes(t.left), Nodes(t.right));
    }
  }

  lemma JoinDistinct(a: seq<AvlNode>, x: AvlNode, b: seq<AvlNode>, l: set<AvlNode>, r: set<AvlNode>)
    requires Distinct(a) && Distinct(b) && (forall y | y in a :: y in l) && (forall y | y in b :: y in r) && l !! r && x !in l && x !in r
    ensures Distinct(a + [x] + b)
  {
    var s := a + [x] + b;
    forall i, j | 0 <= i < j < |s| ensures s[i] != s[j] {
      if i < |a| { assert s[i] in a; }
      if j > |a| { assert s[j] in b; }
    }
  }

  lemma UniqueSplit(b: seq<AvlNode>, x: AvlNode, a: seq<AvlNode>, b': seq<AvlNode>, a': seq<AvlNode>)
    requires b + [x] + a == b' + [x] + a' && Distinct(b + [x] + a)
    ensures b == b' && a == a'
  {
    var s := b + [x] + a;
    assert s[|b|] == x && s[|b'|] == x;
    assert |b| == |b'|;
    assert b == s[..|b|] && a == s[|b| + 1..];
    assert b' == s[..|b'|] && a' == s[|b'| + 1..];
  }

  /** The focus at a node of the tree, and what lies on either side of it. */
  lemma FocusAt(st: State, tree: Tree, before: seq<AvlNode>, node: AvlNode, after: seq<AvlNode>, rs: Side) returns (ctx: Context, t: Tree)
    requires Holds(st, [], tree, rs) && InOrder(tree) == before + [node] + after
    ensures Holds(st, ctx, t, rs) && t.Node? && t.node == node && Zip(ctx, t) == tree
    ensures Span(ctx, t, Left) == before && Span(ctx, t, Right) == after
  {
    InOrderNodes(tree);
    assert (before + [node] + after)[|before|] == node;
    ctx, t := Locate(tree, node, []);
    Rezip(st, [], tree, ctx, t, rs);
    RepDistinct(st.mem, tree, null, rs);
    SpanSplits(ctx, t);
    hide Span;
    UniqueSplit(before, node, after, Span(ctx, t, Left), Span(ctx, t, Right));
  }

  /** dlm_avl_walk: the node before or after the given one in order. */
  method Walk(root: AvlRoot, oldNode: AvlNode?, side: Side, ghost tree: Tree, ghost rs: Side, ghost before: seq<AvlNode>, ghost after: seq<AvlNode>)
    returns (node: AvlNode?)
    requires Lies(root, [], tree, rs) && (oldNode != null ==> InOrder(tree) == before + [oldNode] + after)
    ensures node == if oldNode == null then null else Nearby(side, if side == Left then before else after)
    ensures root.View() == old(root.View())
  {
    hide Holds, Zip, InOrder, Span;
    if oldNode == null {
      return null;
    }
    ghost var ctx, t := FocusAt(root.View(), tree, before, oldNode, after, rs);
    node := WalkFrom(root, oldNode, side, ctx, t, rs);
  }

  /** dlm_avl_nearest: the node on either side of an insertion point. */
  method Nearest(root: AvlRoot, where: AvlNode?, child: Side, direction: Side, ghost ctx: Context, ghost rs: Side) returns (node: AvlNode?)
    requires Lies(root, ctx, Leaf, rs) && where == Above(ctx) && (ctx != [] ==> child == ctx[0].side)
    ensures node == Nearby(direction, Beyond(ctx, direction))
    ensures root.View() == old(root.View())
  {
    UpBeyond(ctx, direction);
    if where == null {
      assert root.root == null;
      return null;
    }
    if child != direction {
      return where;
    }
    ghost var t := Plug(ctx[0], Leaf);
    InOrderEmpty(Leaf);
    assert Span(ctx[1..], t, direction) == Beyond(ctx[1..], direction);
    HoldsUp(root.View(), ctx, Leaf, rs);
    hide Holds, Zip, Beyond, Span;
    node := WalkFrom(root, where, direction, ctx[1..], t, rs);
  }

  /** Repeated AVL_NEXT from dlm_avl_first: all nodes of the tree, in order, each once. */
  method ListNodes(root: AvlRoot, ghost tree: Tree, ghost rs: Side) returns (listed: seq<AvlNode>)
    requires Lies(root, [], tree, rs)
    ensures listed == InOrder(tree) && Distinct(listed) && forall x :: x in listed <==> x in Nodes(tree)
  {
    hide Holds, Zip, InOrder;
    InOrderNodes(tree);
    RepDistinct2(root.View(), tree, rs);
    listed := [];
    var node := Extreme(root, Left, tree, rs);
    ghost var rest := InOrder(tree);
    while node != null
      invariant Lies(root, [], tree, rs) && InOrder(tree) == listed + rest && node == Nearby(Right, rest)
      decreases |rest|
    {
      assert rest == [node] + rest[1..];
      assert listed + rest == listed + [node] + rest[1..];
      var next := Walk(root, node, Right, tree, rs, listed, rest[1..]);
      listed, rest := listed + [node], rest[1..];
      node := next;
    }
    assert listed + [] == listed;
  }

  lemma RepDistinct2(st: State, tree: Tree, rs: Side)
    requires Holds(st, [], tree, rs)
    ensures Distinct(InOrder(tree))
  {
    RepDistinct(st.mem, tree, null, rs);
  }

  // ---------- search ----------

  /** The search order of the tree. */
  ghost predicate Ascending(s: seq<AvlNode>) {
    forall i, j | 0 <= i < j < |s| :: s[i].key < s[j].key
  }

  /** All keys on one side of the focus are on that side of the key. */
  ghost predicate Bounded(ctx: Context, key: int) {
    (forall x | x in Before(ctx) :: x.key < key) && (forall x | x in After(ctx) :: key < x.key)
  }

  lemma AscendingParts(l: seq<AvlNode>, x: AvlNode, r: seq<AvlNode>)
    requires Ascending(l + [x] + r)
    ensures Ascending(l) && Ascending(r)
    ensures (forall y | y in l :: y.key < x.key) && (forall y | y in r :: x.key < y.key)
  {
    var s := l + [x] + r;
    assert s[|l|] == x;
    assert forall i | 0 <= i < |l| :: l[i] == s[i];
    assert forall i | 0 <= i < |r| :: r[i] == s[|l| + 1 + i];
  }

  lemma DownBounded(ctx: Context, t: Tree, side: Side, key: int)
    requires t.Node? && Bounded(ctx, key) && Ascending(InOrder(t)) && (if side == Left then key < t.node.key else t.node.key < key)
    ensures Bounded(Down(ctx, t, side), key) && Ascending(InOrder(Kid(t, side)))
  {
    AscendingParts(InOrder(t.left), t.node, InOrder(t.right));
    hide Ascending, InOrder;
    var c := Down(ctx, t, side);
    assert c[1..] == ctx;
  }

  lemma NotBelow(ctx: Context, key: int)
    requires Bounded(ctx, key)
    ensures forall x | x in InOrder(Zip(ctx, Leaf)) :: x.key != key
  {
    ZipInOrder(ctx, Leaf);
  }

  /** dlm_avl_find: the node with the given key, or the place where to insert one. */
  method Find(root: AvlRoot, key: int, ghost tree: Tree, ghost rs: Side)
    returns (found: AvlNode?, where: AvlNode?, child: Side, ghost ctx: Context)
    requires Lies(root, [], tree, rs) && Ascending(InOrder(tree))
    ensures found != null ==> found in InOrder(tree) && found.key == key
    ensures found == null ==> forall x | x in InOrder(tree) :: x.key != key
    ensures found == null ==> Zip(ctx, Leaf) == tree && where == Above(ctx) && (ctx != [] ==> child == ctx[0].side) && Bounded(ctx, key)
    ensures root.View() == old(root.View())
  {
    hide Holds, Zip, InOrder, Bounded;
    var node := root.root;
    where, child, ctx := null, Left, [];
    ghost var t := tree;
    SearchStart(root.View(), tree, rs, key);
    while node != null
      invariant Lies(root, ctx, t, rs) && node == Top(t) && Zip(ctx, t) == tree && Ascending(InOrder(t)) && Bounded(ctx, key)
      invariant where == Above(ctx) && (ctx != [] ==> child == ctx[0].side)
      decreases t
    {
      where := node;
      FocusRead(root, ctx, t, rs);
      if key == node.key {
        FocusInOrder(ctx, t);
        return node, where, child, ctx;
      }
      child := if key < node.key then Left else Right;
      DownHolds(root.View(), ctx, t, child, rs);
      DownBounded(ctx, t, child, key);
      ctx, t := Down(ctx, t, child), Kid(t, child);
      node := root.Child(node, child);
    }
    NotBelow(ctx, key);
    found := null;
  }

  lemma SearchStart(st: State, tree: Tree, rs: Side, key: int)
    requires Holds(st, [], tree, rs)
    ensures st.root == Top(tree) && Zip([], tree) == tree && Bounded([], key)
  {}

  lemma FocusInOrder(ctx: Context, t: Tree)
    requires t.Node?
    ensures t.node in InOrder(Zip(ctx, t))
  {
    SpanSplits(ctx, t);
  }
}
