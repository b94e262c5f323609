/** The post-order walk that takes an AVL tree down without rebalancing it (avl.c: dlm_avl_destroy_nodes). */
module AvlDestroy {
  import opened Sides
  import opened AvlTree
  import opened AvlMemory
  import opened AvlRebalance
  import opened AvlInsert
  import opened AvlWalk

  /** What the walk keeps between calls: nothing yet, or the parent and the child index of the last node. */
  datatype Cookie = Begin | Last(parent: AvlNode?, child: Side)

  /** How far a walk has come: not begun, at a node whose subtree and whose left relatives are gone, or over. */
  datatype Phase = Whole(tree: Tree, rs: Side) | Inside(ctx: Context, at: AvlNode, index: Side) | Over

  ghost function PostOrder(t: Tree): seq<AvlNode> {
    if t.Leaf? then [] else PostOrder(t.left) + PostOrder(t.right) + [t.node]
  }

  ghost function PostRest(ctx: Context): seq<AvlNode> {
    if ctx == [] then []
    else (if ctx[0].side == Left then PostOrder(ctx[0].sibling) else []) + [ctx[0].node] + PostRest(ctx[1..])
  }

  /** The nodes that have not been returned yet. */
  ghost function Rest(phase: Phase): seq<AvlNode> {
    match phase
    case Whole(tree, _) => PostOrder(tree)
    case Inside(ctx, _, _) => PostRest(ctx)
    case Over => []
  }

  /** Left siblings are gone; right siblings are untouched AVL trees. */
  ghost predicate Halved(ctx: Context) {
    ctx != [] ==> (if ctx[0].side == Left then Avl(ctx[0].sibling) else ctx[0].sibling.Leaf?) && Halved(ctx[1..])
  }

  /**
   The tree between two calls.  The node returned last is no longer part of it and may have been freed:
   nothing is said about its fields.
   */
  ghost predicate Walking(root: AvlRoot, cookie: Cookie, phase: Phase)
    reads root, root.nodes
  {
    match phase
    case Whole(tree, rs) => cookie == Begin && IsTree(root, tree, rs)
    case Inside(ctx, at, rs) =>
      && cookie == Last(Above(ctx), SideOf(ctx, Right)) && Halved(ctx) && RepCtx(root.Mem(), ctx, at, root.root, rs)
      && at !in root.nodes && root.nodes == CtxNodes(ctx) && root.numnodes == |root.nodes| + 1
    case Over => cookie == Last(null, Right) && root.root == null && root.nodes == {} && root.numnodes == 0
  }

  /** A walk in the middle of a call, about to enter the subtree at the focus. */
  ghost predicate Entering(root: AvlRoot, ctx: Context, t: Tree, rs: Side)
    reads root, root.nodes
  {
    && Lies(root, ctx, t, rs) && t.Node? && Avl(t) && Halved(ctx)
    && root.nodes == Nodes(t) + CtxNodes(ctx) && root.numnodes == |root.nodes|
  }

  lemma DownShape(ctx: Context, t: Tree, side: Side)
    requires t.Node? && Avl(t) && Halved(ctx) && (side == Right ==> t.left.Leaf?)
    ensures Halved(Down(ctx, t, side)) && Avl(Kid(t, side))
    ensures Nodes(Kid(t, side)) + CtxNodes(Down(ctx, t, side)) == Nodes(t) + CtxNodes(ctx)
  {
    var c := Down(ctx, t, side);
    assert c[1..] == ctx;
  }

  lemma DownRest(ctx: Context, t: Tree, side: Side)
    requires t.Node? && (side == Right ==> t.left.Leaf?)
    ensures PostOrder(Kid(t, side)) + PostRest(Down(ctx, t, side)) == PostOrder(t) + PostRest(ctx)
  {
    var c := Down(ctx, t, side);
    assert c[1..] == ctx;
    LeftRest(PostOrder(t.left), PostOrder(t.right), [t.node], PostRest(ctx));
  }

  lemma LeftRest(l: seq<AvlNode>, r: seq<AvlNode>, n: seq<AvlNode>, rest: seq<AvlNode>)
    ensures l + (r + n + rest) == (l + r + n) + rest && r + ([] + n + rest) == ([] + r + n) + rest
  {}

  lemma EnterDown(root: AvlRoot, ctx: Context, t: Tree, side: Side, rs: Side)
    requires Entering(root, ctx, t, rs) && Kid(t, side).Node? && (side == Right ==> t.left.Leaf?)
    ensures Entering(root, Down(ctx, t, side), Kid(t, side), rs)
    ensures PostOrder(Kid(t, side)) + PostRest(Down(ctx, t, side)) == PostOrder(t) + PostRest(ctx)
  {
    DownShape(ctx, t, side);
    DownRest(ctx, t, side);
    DownHolds(root.View(), ctx, t, side, rs);
  }

  lemma EnterRead(root: AvlRoot, ctx: Context, t: Tree, rs: Side)
    requires Entering(root, ctx, t, rs)
    ensures t.node.left == Top(t.left) && t.node.right == Top(t.right) && t.node.balance == t.balance
    ensures t.left.Leaf? ==> if t.right.Leaf? then t.balance == 0 else t.balance == 1 && t.right.left.Leaf? && t.right.right.Leaf?
  {
    FocusRead(root, ctx, t, rs);
    if t.left.Leaf? { LeftmostShape(t); }
  }

  lemma EnterOut(root: AvlRoot, ctx: Context, t: Tree, rs: Side)
    requires Entering(root, ctx, t, rs)
    ensures Lies(root, ctx, t, rs) && Halved(ctx) && root.nodes == Nodes(t) + CtxNodes(ctx) && root.numnodes == |root.nodes| && t.node in root.nodes
  {}

  /** The leaf at the focus is handed out. */
  method HandOut(root: AvlRoot, node: AvlNode, ghost ctx: Context, ghost t: Tree, ghost rs: Side)
    returns (cookie: Cookie, ghost phase: Phase)
    requires Lies(root, ctx, t, rs) && t.Node? && t.left.Leaf? && t.right.Leaf? && node == t.node && Halved(ctx)
    requires root.nodes == Nodes(t) + CtxNodes(ctx) && root.numnodes == |root.nodes|
    modifies root`nodes
    ensures Walking(root, cookie, phase) && phase == Inside(ctx, node, rs)
    ensures root.nodes == old(root.nodes) - {node}
  {
    FocusRead(root, ctx, t, rs);
    HandedOut(root.View(), ctx, t, rs);
    if node.parent == null {
      cookie := Last(null, Right);
      assert node == root.root;
    } else {
      cookie := Last(node.parent, node.side);
    }
    ghost var m: map<AvlNode, Cell> := root.Mem();
    root.nodes := root.nodes - {node};
    assert root.Mem() == m - {node};
    phase := Inside(ctx, node, rs);
  }

  lemma HandedOut(st: State, ctx: Context, t: Tree, rs: Side)
    requires Holds(st, ctx, t, rs) && t.Node? && t.left.Leaf? && t.right.Leaf?
    ensures RepCtx(st.mem - {t.node}, ctx, t.node, st.root, rs) && Nodes(t) == {t.node} && t.node !in CtxNodes(ctx)
    ensures ctx == [] ==> st.root == t.node
  {
    CtxIn(st.mem, ctx, t.node, st.root, rs);
    CtxFrame(st.mem, st.mem - {t.node}, ctx, t.node, st.root, rs);
  }

  lemma LeafRest(t: Tree)
    requires t.Node? && t.left.Leaf? && t.right.Leaf?
    ensures PostOrder(t) == [t.node]
  {}

  method DownLeft(root: AvlRoot, node0: AvlNode, ghost ctx: Context, ghost t: Tree, ghost rs: Side)
    returns (node: AvlNode, ghost c: Context, ghost sub: Tree)
    requires Entering(root, ctx, t, rs) && node0 == t.node
    ensures Entering(root, c, sub, rs) && node == sub.node && sub.left.Leaf? && PostOrder(sub) + PostRest(c) == PostOrder(t) + PostRest(ctx)
    ensures root.View() == old(root.View()) && root.nodes == old(root.nodes)
  {
    hide Entering, PostOrder, PostRest;
    node, c, sub := node0, ctx, t;
    EnterNode(root, c, sub, rs);
    EnterRead(root, c, sub, rs);
    while node.left != null
      invariant Entering(root, c, sub, rs) && sub.Node? && node == sub.node && node.left == Top(sub.left)
      invariant PostOrder(sub) + PostRest(c) == PostOrder(t) + PostRest(ctx)
      decreases sub
    {
      EnterDown(root, c, sub, Left, rs);
      c, sub := Down(c, sub, Left), sub.left;
      EnterRead(root, c, sub, rs);
      node := node.left;
    }
  }

  lemma EnterNode(root: AvlRoot, ctx: Context, t: Tree, rs: Side)
    requires Entering(root, ctx, t, rs)
    ensures t.Node?
  {}

  /** Down to the leftmost descendant, and to its right child if it has one. */
  method EnterSubtree(root: AvlRoot, node0: AvlNode, ghost ctx: Context, ghost t: Tree, ghost rs: Side)
    returns (data: AvlNode, cookie: Cookie, ghost phase: Phase)
    requires Entering(root, ctx, t, rs) && node0 == t.node
    modifies root`nodes
    ensures Walking(root, cookie, phase) && [data] + Rest(phase) == PostOrder(t) + PostRest(ctx)
    ensures root.nodes == old(root.nodes) - {data} && data in old(root.nodes)
  {
    hide Entering, Lies, PostOrder, PostRest, Halved, Walking;
    var node;
    ghost var c, sub;
    node, c, sub := DownLeft(root, node0, ctx, t, rs);
    EnterNode(root, c, sub, rs);
    EnterRead(root, c, sub, rs);
    if node.right != null {
      assert node.balance == 1;
      EnterDown(root, c, sub, Right, rs);
      c, sub := Down(c, sub, Right), sub.right;
      EnterRead(root, c, sub, rs);
      node := node.right;
      assert node.left == null && node.right == null;
    } else {
      assert node.balance <= 0;
    }
    LeafRest(sub);
    EnterOut(root, c, sub, rs);
    data := node;
    cookie, phase := HandOut(root, node, c, sub, rs);
  }

  /** In an AVL tree the leftmost node has at most one child, a leaf on the right. */
  lemma LeftmostShape(t: Tree)
    requires Avl(t) && t.Node? && t.left.Leaf?
    ensures if t.right.Leaf? then t.balance == 0 else t.balance == 1 && t.right.left.Leaf? && t.right.right.Leaf?
  {
    if t.right.Node? { assert Height(t.right) == 1; }
  }

  // ---------- one call ----------

  lemma CutHolds(st: State, ctx: Context, at: AvlNode, rs: Side)
    requires ctx != [] && RepCtx(st.mem, ctx, at, st.root, rs)
    ensures ctx[0].node in st.mem && Holds(PutKid(st, ctx[0].node, ctx[0].side, null), ctx[1..], Plug(ctx[0], Leaf), rs)
  {
    var st' := PutKid(st, ctx[0].node, ctx[0].side, null);
    CtxIn(st.mem, ctx, at, st.root, rs);
    TopIn(ctx, Leaf);
    CtxMoved(st, st', ctx, at, null, rs);
    HoldsUp(st', ctx, Leaf, rs);
  }

  /** The subtree below the parent that was returned last is cut off. */
  method CutChild(root: AvlRoot, parent: AvlNode, child: Side, ghost ctx: Context, ghost at: AvlNode, ghost rs: Side)
    requires ctx != [] && parent == ctx[0].node && child == ctx[0].side
    requires RepCtx(root.Mem(), ctx, at, root.root, rs) && root.nodes == CtxNodes(ctx) && root.numnodes == |root.nodes| + 1
    modifies root`numnodes, root.nodes
    ensures Lies(root, ctx[1..], Plug(ctx[0], Leaf), rs)
    ensures root.nodes == old(root.nodes) && root.numnodes == |root.nodes|
  {
    hide RepCtx, Holds, PutKid, CtxNodes;
    CutHolds(root.View(), ctx, at, rs);
    TopIn(ctx, Leaf);
    root.SetChild(parent, child, null);
    assert root.nodes != {} by { assert parent in root.nodes; }
    assert root.numnodes > 1;
    root.numnodes := root.numnodes - 1;
  }

  method ClimbOrEnter(root: AvlRoot, parent: AvlNode, child: Side, ghost ctx: Context, ghost at: AvlNode, ghost rs: Side)
    returns (data: AvlNode, cookie: Cookie, ghost phase: Phase)
    requires ctx != [] && parent == ctx[0].node && child == ctx[0].side && Halved(ctx)
    requires RepCtx(root.Mem(), ctx, at, root.root, rs) && root.nodes == CtxNodes(ctx) && root.numnodes == |root.nodes| + 1
    modifies root, root.nodes
    ensures Walking(root, cookie, phase) && [data] + Rest(phase) == PostRest(ctx)
    ensures root.nodes == old(root.nodes) - {data} && data in old(root.nodes)
  {
    hide Avl, RepCtx, PostOrder;
    CutChild(root, parent, child, ctx, at, rs);
    ghost var c, t := ctx[1..], Plug(ctx[0], Leaf);
    FocusRead(root, c, t, rs);
    if child == Right || parent.right == null {
      CutRest(ctx);
      data := parent;
      cookie, phase := HandOut(root, parent, c, t, rs);
    } else {
      EnterRight(root, ctx, rs);
      data, cookie, phase := EnterSubtree(root, parent.right, [Crumb(Right, ctx[0].node, ctx[0].balance, Leaf)] + c, ctx[0].sibling, rs);
    }
  }

  lemma CutRest(ctx: Context)
    requires ctx != [] && (ctx[0].side == Right || ctx[0].sibling.Leaf?)
    ensures PostRest(ctx) == [ctx[0].node] + PostRest(ctx[1..])
    ensures CtxNodes(ctx) == Nodes(Plug(ctx[0], Leaf)) + CtxNodes(ctx[1..])
  {
    assert PostOrder(Leaf) == [];
    assert [] + [ctx[0].node] + PostRest(ctx[1..]) == [ctx[0].node] + PostRest(ctx[1..]);
  }

  lemma EnterRight(root: AvlRoot, ctx: Context, rs: Side)
    requires ctx != [] && ctx[0].side == Left && ctx[0].sibling.Node? && Halved(ctx)
    requires Lies(root, ctx[1..], Plug(ctx[0], Leaf), rs) && root.nodes == CtxNodes(ctx) && root.numnodes == |root.nodes|
    ensures var c := [Crumb(Right, ctx[0].node, ctx[0].balance, Leaf)] + ctx[1..];
      Entering(root, c, ctx[0].sibling, rs) && PostOrder(ctx[0].sibling) + PostRest(c) == PostRest(ctx)
  {
    var t := Plug(ctx[0], Leaf);
    var c := [Crumb(Right, ctx[0].node, ctx[0].balance, Leaf)] + ctx[1..];
    TurnRight(ctx, ctx[0].sibling, c);
    assert Down(ctx[1..], t, Right) == c;
    hide Holds, Halved, PostOrder, PostRest, CtxNodes, Nodes;
    DownHolds(root.View(), ctx[1..], t, Right, rs);
  }

  lemma TurnRight(ctx: Context, sib: Tree, c: Context)
    requires ctx != [] && ctx[0].side == Left && sib == ctx[0].sibling && Halved(ctx) && c == [Crumb(Right, ctx[0].node, ctx[0].balance, Leaf)] + ctx[1..]
    ensures Halved(c) && Avl(sib) && CtxNodes(ctx) == Nodes(sib) + CtxNodes(c) && PostOrder(sib) + PostRest(c) == PostRest(ctx)
  {
    assert c[1..] == ctx[1..];
    var s, p, r := PostOrder(sib), [ctx[0].node], PostRest(ctx[1..]);
    assert s + ([] + p + r) == s + p + r;
  }

  /** dlm_avl_destroy_nodes: returns the next node in post-order, and cuts off the one returned before. */
  method DestroyNodes(root: AvlRoot, cookie: Cookie, ghost phase: Phase)
    returns (data: AvlNode?, cookie': Cookie, ghost phase': Phase)
    requires Walking(root, cookie, phase)
    modifies root, root.nodes
    ensures Walking(root, cookie', phase')
    ensures data == null ==> Rest(phase) == [] && phase' == Over && root.root == null && root.nodes == {} && root.numnodes == 0
    ensures data != null ==> Rest(phase) == [data] + Rest(phase') && data in old(root.nodes)
    ensures root.nodes == old(root.nodes) - {data}
  {
    hide Holds, Avl, RepCtx;
    if cookie == Begin {
      StartRest(root, phase);
      if root.root == null {
        return null, Last(null, Right), Over;
      }
      data, cookie', phase' := EnterSubtree(root, root.root, [], phase.tree, phase.rs);
      return;
    }
    var parent := cookie.parent;
    if parent == null {
      LastRest(root, cookie, phase);
      if root.root != null {
        assert root.numnodes == 1;
        root.root := null;
        root.numnodes := 0;
      }
      return null, Last(null, Right), Over;
    }
    data, cookie', phase' := ClimbOrEnter(root, parent, cookie.child, phase.ctx, phase.at, phase.index);
  }

  lemma StartRest(root: AvlRoot, phase: Phase)
    requires Walking(root, Begin, phase)
    ensures phase.Whole? && (root.root == null <==> phase.tree.Leaf?)
    ensures phase.tree.Leaf? ==> Rest(phase) == [] && root.nodes == {} && root.numnodes == 0
    ensures phase.tree.Node? ==> root.root == phase.tree.node && Entering(root, [], phase.tree, phase.rs) && Rest(phase) == PostOrder(phase.tree) + PostRest([])
  {}

  lemma LastRest(root: AvlRoot, cookie: Cookie, phase: Phase)
    requires Walking(root, cookie, phase) && cookie.Last? && cookie.parent == null
    ensures Rest(phase) == [] && root.nodes == {} && (root.root != null ==> root.numnodes == 1) && (root.root == null ==> root.numnodes == 0) && cookie.child == Right
  {}

  // ---------- a whole walk ----------

  lemma {:induction false} PostOrderIsAll(t: Tree)
    ensures multiset(PostOrder(t)) == multiset(InOrder(t))
  {
    if t.Node? {
      PostOrderIsAll(t.left);
      PostOrderIsAll(t.right);
    }
  }

  /** Calling until nothing is returned: every node once, children before parents, and nothing left. */
  method DestroyAll(root: AvlRoot, ghost tree: Tree, ghost rs: Side) returns (visited: seq<AvlNode>)
    requires IsTree(root, tree, rs)
    modifies root, root.nodes
    ensures visited == PostOrder(tree) && multiset(visited) == multiset(InOrder(tree))
    ensures root.root == null && root.nodes == {} && root.numnodes == 0
  {
    hide Holds, Avl, RepCtx, PostOrder, Walking, Rest, IsTree;
    ghost var phase := Whole(tree, rs);
    PostOrderIsAll(tree);
    WholeRest(tree, rs);
    WalkStart(root, tree, rs);
    var cookie := Begin;
    visited := [];
    while true
      invariant root.nodes <= old(root.nodes)
      invariant Walking(root, cookie, phase) && PostOrder(tree) == visited + Rest(phase)
      decreases |Rest(phase)|
    {
      var data;
      data, cookie, phase := DestroyNodes(root, cookie, phase);
      if data == null {
        return;
      }
      visited := visited + [data];
    }
  }

  lemma WholeRest(tree: Tree, rs: Side)
    ensures Rest(Whole(tree, rs)) == PostOrder(tree) && Rest(Over) == []
  {}

  lemma WalkStart(root: AvlRoot, tree: Tree, rs: Side)
    requires IsTree(root, tree, rs)
    ensures Walking(root, Begin, Whole(tree, rs))
  {}
}
