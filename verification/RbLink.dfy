/**
 Linking a new node into an augmented tree (rbtree.h: rb_link_node; rbtree_augmented.h: the user
 first updates the caches on the path to the new node).
 */
module RbLink {
  import opened Sides
  import opened RbTree
  import opened RbMemory
  import opened RbRotate
  import opened RbAugment
  import opened RbInsert

  ghost function Path(ctx: Context): set<RbNode> {
    if ctx == [] then {} else {ctx[0].node} + Path(ctx[1..])
  }

  function Max(x: int, y: int): int {
    if x < y then y else x
  }

  /** The caches on the path are raised to at least v. */
  ghost predicate Raised(a: map<RbNode, int>, a': map<RbNode, int>, path: set<RbNode>, v: int) {
    a'.Keys == a.Keys && forall n | n in a :: a'[n] == if n in path then Max(a[n], v) else a[n]
  }

  /** The memory after rb_link_node. */
  function LinkedState(st: State, node: RbNode, parent: RbNode?, side: Side): State {
    var st1 := st.(mem := st.mem[node := Cell(null, null, parent, true)]);
    if parent == null then st1.(root := node) else PutKid(st1, parent, side, node)
  }

  function NewLeaf(node: RbNode): Tree {
    Node(Leaf, node, true, Leaf)
  }

  lemma LinkHolds(st: State, ctx: Context, node: RbNode)
    requires Holds(st, ctx, Leaf) && node !in st.mem
    ensures Holds(LinkedState(st, node, Above(ctx), SideAbove(ctx)), ctx, NewLeaf(node))
  {
    CtxIn(st.mem, ctx, null, st.root);
    TopIn(ctx, Leaf);
    hide RepCtx, CtxNodes;
    var st' := LinkedState(st, node, Above(ctx), SideAbove(ctx));
    if ctx != [] { WithKidTwice(st, ctx, node); }
    CtxMoved(st, st', ctx, null, node);
    assert Nodes(NewLeaf(node)) == {node};
    assert Rep(st'.mem, Leaf, node) && Rep(st'.mem, NewLeaf(node), Above(ctx));
  }

  lemma WithKidTwice(st: State, ctx: Context, node: RbNode)
    requires RepCtx(st.mem, ctx, null, st.root) && ctx != [] && node !in st.mem
    ensures ctx[0].node in st.mem && ctx[0].node != node
  {}

  lemma {:induction false} PathClosed(m: map<RbNode, Cell>, ctx: Context, hole: RbNode?, root: RbNode?)
    requires RepCtx(m, ctx, hole, root)
    ensures Path(ctx) <= CtxNodes(ctx)
    ensures forall n | n in Path(ctx) :: n in m && (m[n].parent != null ==> m[n].parent in Path(ctx))
  {
    if ctx != [] { PathClosed(m, ctx[1..], ctx[0].node, root); }
  }

  /** Each node of the path has exactly one child on the path, but for the last, which has the hole. */
  lemma {:induction false} PathChild(m: map<RbNode, Cell>, ctx: Context, hole: RbNode?, root: RbNode?, n: RbNode)
    requires RepCtx(m, ctx, hole, root) && n in Path(ctx)
    ensures n in m
    ensures n != Above(ctx) ==> exists side :: KidOf(m[n], side) in Path(ctx)
  {
    if n != ctx[0].node {
      PathChild(m, ctx[1..], ctx[0].node, root, n);
      if n == Above(ctx[1..]) { assert KidOf(m[n], ctx[1].side) == ctx[0].node; }
    }
  }

  /** Raising the caches on the path is just what a new leaf at its end needs. */
  lemma LinkKeepsCaches(st: State, a: map<RbNode, int>, a': map<RbNode, int>, ctx: Context, node: RbNode)
    requires Intact(st, a, ctx, Leaf) && node !in st.mem && Raised(a, a', Path(ctx), node.value)
    ensures Intact(LinkedState(st, node, Above(ctx), SideAbove(ctx)), a'[node := node.value], ctx, NewLeaf(node))
  {
    var st' := LinkedState(st, node, Above(ctx), SideAbove(ctx));
    LinkHolds(st, ctx, node);
    ZipNodes(ctx, Leaf);
    ZipNodes(ctx, NewLeaf(node));
    PathClosed(st.mem, ctx, null, st.root);
    HoldsParents(st, ctx, Leaf);
    forall n | n in st'.mem.Keys ensures AugAt(st'.mem, a'[node := node.value], n) {
      if n != node {
        assert AugAt(st.mem, a, n) && ParentAt(st.mem, n, Left) && ParentAt(st.mem, n, Right);
        if n in Path(ctx) { PathChild(st.mem, ctx, null, st.root, n); }
        CacheAfterLink(st, a, a', ctx, node, n);
      }
    }
  }

  lemma CacheAfterLink(st: State, a: map<RbNode, int>, a': map<RbNode, int>, ctx: Context, node: RbNode, n: RbNode)
    requires RepCtx(st.mem, ctx, null, st.root) && node !in st.mem && Raised(a, a', Path(ctx), node.value) && n in st.mem && n != node
    requires a.Keys == st.mem.Keys && AugAt(st.mem, a, n) && ParentAt(st.mem, n, Left) && ParentAt(st.mem, n, Right)
    requires forall k | k in Path(ctx) :: k in st.mem && (st.mem[k].parent != null ==> st.mem[k].parent in Path(ctx))
    requires n in Path(ctx) && n != Above(ctx) ==> exists side :: KidOf(st.mem[n], side) in Path(ctx)
    ensures AugAt(LinkedState(st, node, Above(ctx), SideAbove(ctx)).mem, a'[node := node.value], n)
  {
    var l, r := st.mem[n].left, st.mem[n].right;
    assert KidOf(st.mem[n], Left) == l && KidOf(st.mem[n], Right) == r;
    hide Path;
    if n == Above(ctx) {
      assert KidOf(st.mem[n], SideAbove(ctx)) == null;
    }
  }

  /** The user's part, in a tree with caches: raises them on the way from the parent of the new node to the root. */
  method RaisePath(root: RbRoot, parent: RbNode?, v: int, ghost ctx: Context)
    requires Whole(root, ctx, Leaf) && parent == Above(ctx)
    modifies root.nodes`augmented, root.nodes`shadow
    ensures root.View() == old(root.View()) && Raised(old(root.Augs()), root.Augs(), Path(ctx), v)
  {
    ghost var st, a := root.View(), root.Augs();
    if !root.callbacks {
      root.Shadow(map n | n in a :: if n in Path(ctx) then Max(a[n], v) else a[n]);
      return;
    }
    var p := parent;
    ghost var c, done, hole: RbNode? := ctx, {}, null;
    assert RepCtx(st.mem, c, hole, st.root);
    hide RepCtx, Path, Intact, Raised;
    RaisedNone(a, v);
    while p != null
      invariant p == Above(c) && root.View() == st && RepCtx(st.mem, c, hole, st.root)
      invariant Path(ctx) == done + Path(c) && done !! Path(c)
      invariant Raised(a, root.Augs(), done, v)
      decreases |c|
    {
      PathStep(st.mem, c, hole, st.root);
      assert root.View().mem[p] == Cell(p.left, p.right, p.parent, p.red);
      RaiseOne(root, p, v, a, done);
      done, hole := done + {p}, p;
      c := c[1..];
      p := p.parent;
    }
    NoPath(c);
  }

  lemma RaisedNone(a: map<RbNode, int>, v: int)
    ensures Raised(a, a, {}, v)
  {}

  lemma NoPath(c: Context)
    requires Above(c) == null
    ensures Path(c) == {}
  {}

  lemma PathStep(m: map<RbNode, Cell>, c: Context, hole: RbNode?, root: RbNode?)
    requires RepCtx(m, c, hole, root) && Above(c) != null
    ensures c != [] && c[0].node in m && m[c[0].node].parent == Above(c[1..]) && RepCtx(m, c[1..], c[0].node, root)
    ensures Path(c) == {c[0].node} + Path(c[1..]) && c[0].node !in Path(c[1..])
  {
    PathClosed(m, c[1..], c[0].node, root);
  }

  method RaiseOne(root: RbRoot, p: RbNode, v: int, ghost a: map<RbNode, int>, ghost done: set<RbNode>)
    requires p in root.nodes && p !in done && Raised(a, root.Augs(), done, v) && root.callbacks
    modifies {p}`augmented
    ensures root.View() == old(root.View()) && Raised(a, root.Augs(), done + {p}, v)
  {
    ghost var a0 := root.Augs();
    if p.augmented < v { p.augmented := v; }
    assert root.Augs() == a0[p := Max(a0[p], v)];
  }

  /** rb_link_node */
  method LinkNode(root: RbRoot, node: RbNode, parent: RbNode?, side: Side)
    requires node !in root.nodes && (parent != null ==> parent in root.nodes)
    modifies root`nodes, root`rbNode, node`left, node`right, node`parent, node`red, node`augmented, node`shadow
    modifies (if parent == null then {} else {parent})`left, (if parent == null then {} else {parent})`right
    ensures root.View() == LinkedState(old(root.View()), node, parent, side)
    ensures root.Augs() == old(root.Augs())[node := node.value] && root.nodes == old(root.nodes) + {node}
  {
    hide PutKid;
    FillNode(root, node, parent);
    if parent == null {
      root.rbNode := node;
    } else {
      root.SetChild(parent, side, node);
    }
  }

  /** The fields of the new node; its cache, if it has one, is its own value. */
  method FillNode(root: RbRoot, node: RbNode, parent: RbNode?)
    requires node !in root.nodes
    modifies root`nodes, node`left, node`right, node`parent, node`red, node`augmented, node`shadow
    ensures root.View() == old(root.View()).(mem := old(root.View()).mem[node := Cell(null, null, parent, true)])
    ensures root.Augs() == old(root.Augs())[node := node.value] && root.nodes == old(root.nodes) + {node}
  {
    ghost var m, a := root.Mem(), root.Augs();
    node.parent, node.red, node.left, node.right := parent, true, null, null;
    if root.callbacks { node.augmented := node.value; }
    node.shadow := node.value;
    root.nodes := root.nodes + {node};
    assert root.Mem() == m[node := Cell(null, null, parent, true)];
    assert root.Augs() == a[node := node.value];
  }

  /** The position of the free child slot of a node. */
  lemma SlotContext(st: State, a: map<RbNode, int>, tree: Tree, parent: RbNode?, side: Side) returns (ctx: Context)
    requires Intact(st, a, [], tree) && RedBlack(tree)
    requires if parent == null then tree == Leaf else parent in st.mem && KidOf(st.mem[parent], side) == null
    ensures Zip(ctx, Leaf) == tree && Above(ctx) == parent && (parent != null ==> SideAbove(ctx) == side)
  {
    if parent == null {
      ctx := [];
    } else {
      var up, sub := Locate(tree, parent, []);
      HoldsZip(st, up, sub);
      assert Kid(sub, side) == Leaf;
      ctx := [Crumb(side, parent, sub.red, Kid(sub, Other(side)))] + up;
      assert ctx[1..] == up && Plug(ctx[0], Leaf) == sub;
    }
  }

  lemma NewLeafInserting(ctx: Context, node: RbNode)
    requires RedBlack(Zip(ctx, Leaf))
    ensures Inserting(ctx, NewLeaf(node))
  {
    UnzipRedBlack(ctx, Leaf);
    var k := UnzipBlack(ctx, Leaf, BlackHeight(Zip(ctx, Leaf)));
    assert k == 0 && Black(NewLeaf(node), 0) && BlackHeight(NewLeaf(node)) == 0;
  }

  /**
   Insertion as a user of an augmented tree does it: update the path, link the node at a free slot,
   rebalance.  The node comes directly before or after its parent, and nothing else changes in order.
   */
  method Insert(root: RbRoot, node: RbNode, parent: RbNode?, side: Side, ghost tree0: Tree)
    returns (ghost tree: Tree, ghost before: seq<RbNode>, ghost after: seq<RbNode>)
    requires Whole(root, [], tree0) && RedBlack(tree0) && node !in root.nodes
    requires if parent == null then root.rbNode == null else parent in root.nodes && root.Child(parent, side) == null
    modifies root, root.nodes, node
    ensures Whole(root, [], tree) && RedBlack(tree) && root.nodes == old(root.nodes) + {node}
    ensures InOrder(tree0) == before + after && InOrder(tree) == before + [node] + after
    ensures Beside(before, after, parent, side)
  {
    ghost var st, a := root.View(), root.Augs();
    assert parent != null ==> root.View().mem[parent] == Cell(parent.left, parent.right, parent.parent, parent.red);
    RootLeaf(st, a, tree0);
    ghost var ctx := SlotFacts(st, a, tree0, node, parent, side);
    before, after := Before(ctx), After(ctx);
    SlotOrder(ctx, node);
    assert Beside(before, after, parent, side);
    hide Intact, RedBlack, InOrder, Zip, Inserting, LinkedState, Before, After, Raised;
    RaisePath(root, parent, node.value, ctx);
    ghost var a' := root.Augs();
    LinkKeepsCaches(st, a, a', ctx, node);
    LinkNode(root, node, parent, side);
    tree := InsertColor(root, node, ctx, NewLeaf(node));
  }

  lemma RootLeaf(st: State, a: map<RbNode, int>, tree: Tree)
    requires Intact(st, a, [], tree)
    ensures st.root == null <==> tree == Leaf
  {}

  ghost predicate Beside(before: seq<RbNode>, after: seq<RbNode>, parent: RbNode?, side: Side) {
    parent != null ==>
      if side == Left then after != [] && after[0] == parent else before != [] && before[|before| - 1] == parent
  }

  lemma SlotFacts(st: State, a: map<RbNode, int>, tree: Tree, node: RbNode, parent: RbNode?, side: Side) returns (ctx: Context)
    requires Intact(st, a, [], tree) && RedBlack(tree)
    requires if parent == null then tree == Leaf else parent in st.mem && KidOf(st.mem[parent], side) == null
    ensures Intact(st, a, ctx, Leaf) && Above(ctx) == parent && (parent != null ==> SideAbove(ctx) == side)
    ensures Inserting(ctx, NewLeaf(node)) && Zip(ctx, Leaf) == tree
  {
    ctx := SlotContext(st, a, tree, parent, side);
    hide Intact, RedBlack, Inserting, Zip;
    Unzipped(st, a, ctx, Leaf);
    NewLeafInserting(ctx, node);
  }

  lemma SlotOrder(ctx: Context, node: RbNode)
    ensures InOrder(Zip(ctx, Leaf)) == Before(ctx) + After(ctx)
    ensures InOrder(Zip(ctx, NewLeaf(node))) == Before(ctx) + [node] + After(ctx)
    ensures Beside(Before(ctx), After(ctx), Above(ctx), SideAbove(ctx))
  {
    ZipInOrder(ctx, Leaf);
    ZipInOrder(ctx, NewLeaf(node));
    assert InOrder(NewLeaf(node)) == [node];
    NextToParent(ctx);
  }

  lemma Unzipped(st: State, a: map<RbNode, int>, ctx: Context, t: Tree)
    requires Intact(st, a, [], Zip(ctx, t))
    ensures Intact(st, a, ctx, t)
  {
    HoldsZip(st, ctx, t);
  }

  lemma NextToParent(ctx: Context)
    ensures ctx != [] && ctx[0].side == Left ==> After(ctx) != [] && After(ctx)[0] == ctx[0].node
    ensures ctx != [] && ctx[0].side == Right ==> Before(ctx) != [] && Before(ctx)[|Before(ctx)| - 1] == ctx[0].node
  {}
}
