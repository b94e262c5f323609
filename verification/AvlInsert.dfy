/** Linking a node into an AVL tree (avl.c: dlm_avl_insert). */
module AvlInsert {
  import opened Sides
  import opened AvlTree
  import opened AvlMemory
  import opened AvlRebalance

  /** The tree that a root holds: laid out in memory, in balance, and counted. */
  ghost predicate IsTree(root: AvlRoot, tree: Tree, rs: Side)
    reads root, root.nodes
  {
    Done(root, tree, rs) && root.nodes == Nodes(tree) && root.numnodes == |root.nodes|
  }

  /** A new leaf at the given place. */
  function Linked(st: State, n: AvlNode, p: AvlNode?, which: Side): State {
    PutLink(st.(mem := st.mem[n := Cell(null, null, p, which, 0)]), p, which, n)
  }

  lemma LinkHolds(st: State, ctx: Context, n: AvlNode, which: Side, rs: Side)
    requires Holds(st, ctx, Leaf, rs) && n !in st.mem && (ctx != [] ==> which == ctx[0].side)
    ensures Holds(Linked(st, n, Above(ctx), which), ctx, Node(Leaf, n, 0, Leaf), if ctx == [] then which else rs)
  {
    var st' := Linked(st, n, Above(ctx), which);
    CtxIn(st.mem, ctx, null, st.root, rs);
    CtxMoved(st, st', ctx, null, n, rs);
  }

  lemma FreshLeaf(ctx: Context, n: AvlNode)
    requires Avl(Zip(ctx, Leaf))
    ensures Growing(ctx, Node(Leaf, n, 0, Leaf), 0)
    ensures InOrder(Zip(ctx, Node(Leaf, n, 0, Leaf))) == Before(ctx) + [n] + After(ctx)
  {
    UnzipAvl(ctx, Leaf);
    ZipInOrder(ctx, Node(Leaf, n, 0, Leaf));
  }

  /** dlm_avl_insert: links the node at an insertion point and rebalances the tree. */
  method Insert(root: AvlRoot, node: AvlNode, where: AvlNode?, which: Side, ghost ctx: Context, ghost rs: Side)
    returns (ghost tree: Tree)
    requires IsTree(root, Zip(ctx, Leaf), rs) && node !in root.nodes
    requires where == Above(ctx) && (ctx != [] ==> which == ctx[0].side)
    modifies root, root.nodes, node
    ensures IsTree(root, tree, if ctx == [] then which else rs)
    ensures InOrder(tree) == Before(ctx) + [node] + After(ctx)
    ensures root.nodes == old(root.nodes) + {node} && root.numnodes == old(root.numnodes) + 1
  {
    hide Holds, Avl, Zip, InOrder, Growing, Nodes, RepCtx, CtxNodes;
    HoldsZip(root.View(), ctx, Leaf, rs);
    ZipNodes(ctx, Leaf);
    FreshLeaf(ctx, node);
    TopIn(ctx, Leaf);
    LinkHolds(root.View(), ctx, node, which, rs);
    ghost var st: State := Linked(root.View(), node, where, which);
    LinkNode(root, node, where, which);
    assert root.View() == st;
    tree := Grow(root, where, which, ctx, Node(Leaf, node, 0, Leaf), 0, if ctx == [] then which else rs);
    Inserted(tree, ctx, node);
  }

  lemma Inserted(tree: Tree, ctx: Context, node: AvlNode)
    requires InOrder(tree) == InOrder(Zip(ctx, Node(Leaf, node, 0, Leaf)))
    ensures Nodes(tree) == Nodes(Zip(ctx, Leaf)) + {node}
  {
    InOrderNodes(tree);
    InOrderNodes(Zip(ctx, Node(Leaf, node, 0, Leaf)));
    ZipNodes(ctx, Leaf);
    ZipNodes(ctx, Node(Leaf, node, 0, Leaf));
  }

  method LinkNode(root: AvlRoot, node: AvlNode, where: AvlNode?, which: Side)
    requires node !in root.nodes && (where != null ==> where in root.nodes)
    modifies root, root.nodes, node
    ensures root.View() == Linked(old(root.View()), node, where, which)
    ensures root.nodes == old(root.nodes) + {node} && root.numnodes == old(root.numnodes) + 1
  {
    hide PutLink;
    root.numnodes := root.numnodes + 1;
    node.left, node.right := null, null;
    node.side, node.balance, node.parent := which, 0, where;
    ghost var before: State := root.View();
    root.nodes := root.nodes + {node};
    assert root.View() == before.(mem := before.mem[node := Cell(null, null, where, which, 0)]);
    root.SetLink(where, which, node);
  }
}
