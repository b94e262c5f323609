/** Removal from an AVL tree (avl.c: dlm_avl_remove). */
module AvlRemove {
  import opened Sides
  import opened AvlTree
  import opened AvlMemory
  import opened AvlRebalance
  import opened AvlInsert
  import opened AvlWalk
  import opened AvlSwap

  // ---------- a node with at most one child ----------

  /** The parent of x is connected to the child of x directly. */
  function Spliced(st: State, x: AvlNode): State {
    var c := At(st, x);
    var y := if c.left != null then c.left else c.right;
    var st1 := if y == null then st else PutParent(st, y, c.parent, c.side);
    var st2 := PutLink(st1, c.parent, c.side, y);
    st2.(mem := st2.mem - {x})
  }

  lemma SplicedHolds(st: State, ctx: Context, t: Tree, side: Side, rs: Side)
    requires Holds(st, ctx, t, rs) && t.Node? && Kid(t, side).Leaf?
    ensures Holds(Spliced(st, t.node), ctx, Kid(t, Other(side)), rs)
  {
    var x, y := t.node, Kid(t, Other(side));
    var st' := Spliced(st, x);
    RepIn(st.mem, y, x, Other(side));
    CtxIn(st.mem, ctx, x, st.root, rs);
    TopIn(ctx, y);
    SplicedCells(st, x, Top(y), Above(ctx), SideOf(ctx, rs));
    hide Spliced;
    RepMoved(st.mem, st'.mem, y, x, Other(side), Above(ctx), SideOf(ctx, rs));
    CtxMoved(st, st', ctx, x, Top(y), rs);
  }

  lemma SplicedCells(st: State, x: AvlNode, y: AvlNode?, p: AvlNode?, which: Side)
    requires x in st.mem && y != x && p != x && (y != null ==> y in st.mem && y != p) && (p != null ==> p in st.mem)
    requires st.mem[x].parent == p && st.mem[x].side == which && y == (if st.mem[x].left != null then st.mem[x].left else st.mem[x].right)
    ensures var st' := Spliced(st, x);
      && st'.mem.Keys == st.mem.Keys - {x} && (y != null ==> st'.mem[y] == st.mem[y].(parent := p, side := which))
      && (if p == null then st'.root == y else st'.root == st.root && st'.mem[p] == WithKid(st.mem[p], which, y))
      && forall k | k in st.mem && k != x && k != y && k != p :: st'.mem[k] == st.mem[k]
  {}

  lemma Shrunk(ctx: Context, t: Tree, side: Side)
    requires Avl(t) && CtxAvl(ctx, Height(t)) && t.Node? && Kid(t, side).Leaf?
    ensures Shrinking(ctx, Kid(t, Other(side)), Height(t))
  {}

  method WriteSplice(root: AvlRoot, delete: AvlNode) returns (parent: AvlNode?, which: Side)
    requires delete in root.nodes && root.numnodes > 0 && (delete.parent != null ==> delete.parent in root.nodes)
    requires (delete.left != null ==> delete.left in root.nodes) && (delete.right != null ==> delete.right in root.nodes)
    modifies root, root.nodes
    ensures root.View() == Spliced(old(root.View()), delete) && parent == old(delete.parent) && which == old(delete.side)
    ensures root.nodes == old(root.nodes) - {delete} && root.numnodes == old(root.numnodes) - 1
  {
    hide PutParent, PutLink;
    CellHere(root, delete);
    root.numnodes := root.numnodes - 1;
    parent, which := delete.parent, delete.side;
    var node := if delete.left != null then delete.left else delete.right;
    if node != null {
      root.SetParent(node, parent, which);
    }
    root.SetLink(parent, which, node);
    root.nodes := root.nodes - {delete};
  }

  method Splice(root: AvlRoot, delete: AvlNode, ghost ctx: Context, ghost t: Tree, ghost side: Side, ghost rs: Side)
    returns (parent: AvlNode?, which: Side)
    requires Lies(root, ctx, t, rs) && t.Node? && delete == t.node && Kid(t, side).Leaf? && root.numnodes > 0
    modifies root, root.nodes
    ensures Lies(root, ctx, Kid(t, Other(side)), rs) && parent == Above(ctx) && which == SideOf(ctx, rs)
    ensures root.nodes == old(root.nodes) - {delete} && root.numnodes == old(root.numnodes) - 1
  {
    hide Holds, Spliced;
    SplicedHolds(root.View(), ctx, t, side, rs);
    SpliceReads(root, ctx, t, side, rs);
    parent, which := WriteSplice(root, delete);
  }

  lemma SpliceReads(root: AvlRoot, ctx: Context, t: Tree, side: Side, rs: Side)
    requires Lies(root, ctx, t, rs) && t.Node? && Kid(t, side).Leaf?
    ensures t.node in root.nodes && t.node.parent == Above(ctx) && t.node.side == SideOf(ctx, rs)
    ensures (t.node.left != null ==> t.node.left in root.nodes) && (t.node.right != null ==> t.node.right in root.nodes)
    ensures t.node.parent != null ==> t.node.parent in root.nodes
  {
    FocusRead(root, ctx, t, rs);
    ReadFocus(root.View(), ctx, t, rs);
    if ctx != [] { ReadParent(root.View(), ctx, t, rs); }
  }

  /** The common end of a removal: delete has no more than one child. */
  method Unlink(root: AvlRoot, delete: AvlNode, ghost ctx: Context, ghost t: Tree, ghost side: Side, ghost rs: Side)
    returns (ghost tree: Tree)
    requires Lies(root, ctx, t, rs) && t.Node? && delete == t.node && Kid(t, side).Leaf? && root.numnodes > 0
    requires Avl(t) && CtxAvl(ctx, Height(t))
    modifies root, root.nodes
    ensures Done(root, tree, rs) && InOrder(tree) == InOrder(Zip(ctx, Kid(t, Other(side))))
    ensures root.nodes == old(root.nodes) - {delete} && root.numnodes == old(root.numnodes) - 1
  {
    hide Holds, Avl, CtxAvl, InOrder, Zip;
    Shrunk(ctx, t, side);
    var parent, which := Splice(root, delete, ctx, t, side, rs);
    tree := Shrink(root, parent, which, ctx, Kid(t, Other(side)), Height(t), rs);
  }

  // ---------- a node with two children ----------

  /** A way down along one side. */
  ghost predicate Along(i: Context, side: Side) {
    forall k | 0 <= k < |i| :: i[k].side == side
  }

  /** The neighbour's context with x in the place of the node above it. */
  function Below(i: Context, s: Side, x: AvlNode, b: int, far: Tree, ctx: Context): Context {
    i + ([Crumb(s, x, b, far)] + ctx)
  }

  lemma BelowZip(i: Context, s: Side, x: AvlNode, b: int, far: Tree, ctx: Context, y: Tree)
    ensures Zip(Below(i, s, x, b, far, ctx), y) == Zip(ctx, Make(s, Zip(i, y), x, b, far))
  {
    var c := [Crumb(s, x, b, far)] + ctx;
    ZipAppend(i, c, y);
    assert c[1..] == ctx;
  }

  lemma {:induction false} CtxAvlRenamed(i: Context, s: Side, x: AvlNode, x': AvlNode, b: int, far: Tree, ctx: Context, h: int)
    requires CtxAvl(Below(i, s, x, b, far, ctx), h)
    ensures CtxAvl(Below(i, s, x', b, far, ctx), h)
    decreases |i|
  {
    var c, c' := Below(i, s, x, b, far, ctx), Below(i, s, x', b, far, ctx);
    if i == [] {
      assert c[1..] == ctx && c'[1..] == ctx;
    } else {
      assert c[1..] == Below(i[1..], s, x, b, far, ctx) && c'[1..] == Below(i[1..], s, x', b, far, ctx);
      CtxAvlRenamed(i[1..], s, x, x', b, far, ctx, 1 + Max(h, Height(i[0].sibling)));
    }
  }

  lemma {:induction false} AppendNodes(a: Context, b: Context)
    ensures CtxNodes(a + b) == CtxNodes(a) + CtxNodes(b)
    decreases |a|
  {
    if a == [] {
      assert a + b == b;
    } else {
      assert (a + b)[1..] == a[1..] + b;
      AppendNodes(a[1..], b);
    }
  }

  lemma {:induction false} AlongBeyond(i: Context, side: Side)
    requires Along(i, side)
    ensures Beyond(i, side) == []  && Beyond(i, Other(side)) == if side == Left then After(i) else Before(i)
    decreases |i|
  {
    if i != [] { AlongBeyond(i[1..], side); }
  }

  /** Bringing up the neighbour only takes the node out of the order. */
  lemma SwapOrder(ctx: Context, t: Tree, s: Side, i: Context, y: Tree)
    requires t.Node? && Kid(t, s) == Zip(i, y) && y.Node? && Kid(y, Other(s)).Leaf? && Along(i, Other(s))
    ensures InOrder(Zip(Below(i, s, y.node, t.balance, Kid(t, Other(s)), ctx), Kid(y, s))) == Span(ctx, t, Left) + Span(ctx, t, Right)
  {
    var far, k, n := Kid(t, Other(s)), Kid(y, s), y.node;
    AlongBeyond(i, Other(s));
    ZipInOrder(i, y);
    ZipInOrder(i, k);
    BelowZip(i, s, n, t.balance, far, ctx, k);
    ZipInOrder(ctx, Make(s, Zip(i, k), n, t.balance, far));
    MakeInOrder(s, Zip(i, k), n, t.balance, far);
    YOrder(y, s);
    hide InOrder, Before, After, Zip;
    if s == Left {
      SwapGroup(Before(ctx), Before(i), InOrder(k), [n], InOrder(far), After(ctx));
    } else {
      SwapGroup2(Before(ctx), InOrder(far), [n], InOrder(k), After(i), After(ctx));
    }
  }

  lemma YOrder(y: Tree, s: Side)
    requires y.Node? && Kid(y, Other(s)).Leaf?
    ensures InOrder(y) == if s == Left then InOrder(Kid(y, s)) + [y.node] else [y.node] + InOrder(Kid(y, s))
  {
    assert InOrder(Leaf) == [];
  }

  lemma SwapGroup(b: seq<AvlNode>, i: seq<AvlNode>, k: seq<AvlNode>, n: seq<AvlNode>, f: seq<AvlNode>, a: seq<AvlNode>)
    ensures b + ((i + k + []) + n + f) + a == (b + (i + (k + n) + [])) + (f + a)
  {}

  lemma SwapGroup2(b: seq<AvlNode>, f: seq<AvlNode>, n: seq<AvlNode>, k: seq<AvlNode>, i: seq<AvlNode>, a: seq<AvlNode>)
    ensures b + (f + n + ([] + k + i)) + a == (b + f) + (([] + (n + k) + i) + a)
  {}

  lemma ZipTop(i: Context, y: Tree)
    requires y.Node?
    ensures Zip(i, y).Node? && (if i == [] then Top(Zip(i, y)) == y.node else Top(Zip(i, y)) in CtxNodes(i))
    decreases |i|
  {
    if i != [] { ZipTop(i[1..], Plug(i[0], y)); }
  }

  lemma SwapLinks(st: State, ctx: Context, t: Tree, s: Side, i: Context, y: Tree, rs: Side)
    requires Holds(st, ctx, t, rs) && t.Node? && Kid(t, Other(s)).Node?
    requires Kid(t, s) == Zip(i, y) && y.Node? && Kid(y, Other(s)).Leaf? && Along(i, Other(s))
    ensures Kid(t, s).Node? && t.node in st.mem && y.node in st.mem
    ensures var d, n, q := st.mem[t.node], st.mem[y.node], if i == [] then t.node else i[0].node;
      && KidOf(d, s) == Kid(t, s).node && KidOf(d, Other(s)) == Kid(t, Other(s)).node && d.parent == Above(ctx)
      && KidOf(n, s) == Top(Kid(y, s)) && KidOf(n, Other(s)) == null && n.parent == q && (i == [] ==> n.side == s)
      && KidOf(d, s) in st.mem && KidOf(d, Other(s)) in st.mem && q in st.mem && (KidOf(n, s) != null ==> KidOf(n, s) in st.mem)
      && (d.parent != null ==> d.parent in st.mem)
  {
    var far := Kid(t, Other(s));
    var c := Below(i, s, t.node, t.balance, far, ctx);
    ZipTop(i, y);
    BelowZip(i, s, t.node, t.balance, far, ctx, y);
    Rezip(st, ctx, t, c, y, rs);
    hide Holds, Zip;
    ReadFocus(st, ctx, t, rs);
    ReadFocus(st, c, y, rs);
    if ctx != [] { ReadParent(st, ctx, t, rs); }
    ReadParent(st, c, y, rs);
  }

  lemma SwapReady(st: State, ctx: Context, t: Tree, s: Side, i: Context, y: Tree, rs: Side)
    requires Holds(st, ctx, t, rs) && t.Node? && Kid(t, Other(s)).Node?
    requires Kid(t, s) == Zip(i, y) && y.Node? && Kid(y, Other(s)).Leaf? && Along(i, Other(s))
    ensures Kid(t, s).Node?
    ensures SwapCells(st, t.node, y.node, s, Kid(t, s).node, Kid(t, Other(s)).node, Top(Kid(y, s)), Above(ctx), if i == [] then t.node else i[0].node)
  {
    hide Holds, Nodes, CtxNodes, Zip;
    SwapLinks(st, ctx, t, s, i, y, rs);
    ZipTop(i, y);
    ZipNil(y);
    SwapApart(st, ctx, t, s, i, y, rs);
    TopIn(ctx, Kid(t, Other(s)));
    TopIn(i, Kid(y, s));
  }

  lemma SwapApart(st: State, ctx: Context, t: Tree, s: Side, i: Context, y: Tree, rs: Side)
    requires Holds(st, ctx, t, rs) && t.Node? && Kid(t, s) == Zip(i, y) && y.Node?
    ensures var far := Kid(t, Other(s));
      && Nodes(far) !! Nodes(y) + CtxNodes(i) && t.node !in Nodes(far) + Nodes(y) + CtxNodes(i)
      && Nodes(y) !! CtxNodes(i) && Nodes(far) + Nodes(y) + CtxNodes(i) + {t.node} !! CtxNodes(ctx)
      && y.node in Nodes(y) && y.node !in Nodes(Kid(y, s)) && Nodes(Kid(y, s)) <= Nodes(y)
  {
    ZipNodes(i, y);
    var far := Kid(t, Other(s));
    var c := Below(i, s, t.node, t.balance, far, ctx);
    BelowZip(i, s, t.node, t.balance, far, ctx, y);
    Rezip(st, ctx, t, c, y, rs);
    AppendNodes(i, [Crumb(s, t.node, t.balance, far)] + ctx);
  }

  /** After the swap the neighbour is where the node was, and the stand-in where the neighbour was. */
  lemma SwapHolds(st: State, ctx: Context, t: Tree, s: Side, i: Context, y: Tree, rs: Side, tmp: AvlNode)
    requires Holds(st, ctx, t, rs) && t.Node? && Kid(t, s) == Zip(i, y) && y.Node? && tmp !in st.mem && t.node != y.node
    ensures Holds(Replaced(Replaced(st, y.node, tmp), t.node, y.node), Below(i, s, y.node, t.balance, Kid(t, Other(s)), ctx), y.(node := tmp), rs)
  {
    hide Holds, Replaced, Zip;
    var far, d, n, y' := Kid(t, Other(s)), t.node, y.node, y.(node := tmp);
    BelowZip(i, s, d, t.balance, far, ctx, y);
    BelowZip(i, s, d, t.balance, far, ctx, y');
    BelowZip(i, s, n, t.balance, far, ctx, y');
    Rezip(st, ctx, t, Below(i, s, d, t.balance, far, ctx), y, rs);
    ReplacedHolds(st, Below(i, s, d, t.balance, far, ctx), y, rs, tmp);
    var st1 := Replaced(st, n, tmp);
    ReadFocus(st, ctx, t, rs);
    Rezip(st1, Below(i, s, d, t.balance, far, ctx), y', ctx, Make(s, Zip(i, y'), d, t.balance, far), rs);
    ReadFocus(st, Below(i, s, d, t.balance, far, ctx), y, rs);
    ReplacedHolds(st1, ctx, Make(s, Zip(i, y'), d, t.balance, far), rs, n);
    Rezip(Replaced(st1, d, n), ctx, Make(s, Zip(i, y'), n, t.balance, far), Below(i, s, n, t.balance, far, ctx), y', rs);
  }

  /** The loop to the neighbour: down once on the side, then as far as possible on the other one. */
  method FindNeighbour(root: AvlRoot, delete: AvlNode, left: Side, ghost ctx: Context, ghost t: Tree, ghost rs: Side)
    returns (node: AvlNode, ghost i: Context, ghost y: Tree)
    requires Lies(root, ctx, t, rs) && t.Node? && delete == t.node && Kid(t, left).Node?
    ensures Kid(t, left) == Zip(i, y) && y.Node? && node == y.node && Kid(y, Other(left)).Leaf? && Along(i, Other(left))
    ensures root.View() == old(root.View()) && root.nodes == old(root.nodes) && root.numnodes == old(root.numnodes)
  {
    hide Holds, Zip;
    ghost var c := Down(ctx, t, left);
    DownHolds(root.View(), ctx, t, left, rs);
    FocusRead(root, ctx, t, rs);
    node := root.Child(delete, left);
    i, y := [], Kid(t, left);
    assert [] + c == c;
    ZipNil(y);
    FocusRead(root, c, y, rs);
    while root.Child(node, Other(left)) != null
      invariant Lies(root, i + c, y, rs) && Kid(t, left) == Zip(i, y) && Along(i, Other(left))
      invariant y.Node? && node == y.node && node.left == Top(y.left) && node.right == Top(y.right)
      decreases y
    {
      DownHolds(root.View(), i + c, y, Other(left), rs);
      DownZip(i, y, Other(left));
      assert Down(i + c, y, Other(left)) == Down(i, y, Other(left)) + c;
      i, y := Down(i, y, Other(left)), Kid(y, Other(left));
      FocusRead(root, i + c, y, rs);
      node := root.Child(node, Other(left));
    }
  }

  lemma ZipNil(t: Tree)
    ensures Zip([], t) == t
  {}

  lemma DownZip(i: Context, y: Tree, side: Side)
    requires y.Node?
    ensures Zip(Down(i, y, side), Kid(y, side)) == Zip(i, y)
  {
    var c := Down(i, y, side);
    assert c[1..] == i && Plug(c[0], Kid(y, side)) == y;
  }

  // ---------- removal ----------

  lemma SwapAvl(ctx: Context, t: Tree, s: Side, i: Context, y: Tree, tmp: AvlNode)
    requires Avl(Zip(ctx, t)) && t.Node? && Kid(t, s) == Zip(i, y) && y.Node?
    ensures Avl(y.(node := tmp)) && CtxAvl(Below(i, s, y.node, t.balance, Kid(t, Other(s)), ctx), Height(y.(node := tmp)))
  {
    hide Avl, CtxAvl, Zip;
    var far := Kid(t, Other(s));
    BelowZip(i, s, t.node, t.balance, far, ctx, y);
    ShapeOf(s, t);
    UnzipAvl(Below(i, s, t.node, t.balance, far, ctx), y);
    CtxAvlRenamed(i, s, t.node, y.node, t.balance, far, ctx, Height(y));
    AvlRenamed(y, tmp);
  }

  lemma AvlRenamed(y: Tree, x: AvlNode)
    requires Avl(y) && y.Node?
    ensures Avl(y.(node := x)) && Height(y.(node := x)) == Height(y)
  {}

  method RemoveInner(root: AvlRoot, delete: AvlNode, ghost ctx: Context, ghost t: Tree, ghost rs: Side)
    returns (ghost tree: Tree)
    requires Lies(root, ctx, t, rs) && t.Node? && delete == t.node && t.left.Node? && t.right.Node? && Avl(Zip(ctx, t))
    requires root.numnodes > 0
    modifies root, root.nodes
    ensures Done(root, tree, rs) && InOrder(tree) == Span(ctx, t, Left) + Span(ctx, t, Right)
    ensures root.nodes == old(root.nodes) - {delete} && root.numnodes == old(root.numnodes) - 1
  {
    hide Holds, Avl, CtxAvl, InOrder, Zip, SwapCells, Replaced, Span;
    ghost var st: State := root.View();
    FocusRead(root, ctx, t, rs);
    var left := if delete.balance <= 0 then Left else Right;
    var node;
    ghost var i, y;
    node, i, y := FindNeighbour(root, delete, left, ctx, t, rs);
    SwapReady(st, ctx, t, left, i, y, rs);
    ghost var s := left;
    var tmp := SwapIn(root, delete, node, left, Kid(t, s).node, Kid(t, Other(s)).node, Top(Kid(y, s)), Above(ctx), if i == [] then t.node else i[0].node);
    SwapReads2(st, ctx, t, s, i, y, rs);
    SwapHolds(st, ctx, t, s, i, y, rs, tmp);
    SwapAvl(ctx, t, s, i, y, tmp);
    SwapOrder(ctx, t, s, i, y);
    tree := Unlink(root, tmp, Below(i, s, y.node, t.balance, Kid(t, Other(s)), ctx), y.(node := tmp), Other(s), rs);
  }

  lemma SwapReads2(st: State, ctx: Context, t: Tree, s: Side, i: Context, y: Tree, rs: Side)
    requires Holds(st, ctx, t, rs) && t.Node? && Kid(t, Other(s)).Node?
    requires Kid(t, s) == Zip(i, y) && y.Node? && Kid(y, Other(s)).Leaf? && Along(i, Other(s))
    ensures t.node != y.node
  {
    SwapReady(st, ctx, t, s, i, y, rs);
  }

  method RemoveOuter(root: AvlRoot, delete: AvlNode, ghost ctx: Context, ghost t: Tree, ghost side: Side, ghost rs: Side)
    returns (ghost tree: Tree)
    requires Lies(root, ctx, t, rs) && t.Node? && delete == t.node && Kid(t, side).Leaf? && Avl(Zip(ctx, t))
    requires root.numnodes > 0
    modifies root, root.nodes
    ensures Done(root, tree, rs) && InOrder(tree) == Span(ctx, t, Left) + Span(ctx, t, Right)
    ensures root.nodes == old(root.nodes) - {delete} && root.numnodes == old(root.numnodes) - 1
  {
    UnzipAvl(ctx, t);
    OuterOrder(ctx, t, side);
    hide Holds, Avl, CtxAvl, InOrder, Zip, Span;
    tree := Unlink(root, delete, ctx, t, side, rs);
  }

  lemma OuterOrder(ctx: Context, t: Tree, side: Side)
    requires t.Node? && Kid(t, side).Leaf?
    ensures InOrder(Zip(ctx, Kid(t, Other(side)))) == Span(ctx, t, Left) + Span(ctx, t, Right)
  {
    var x := Kid(t, Other(side));
    ZipInOrder(ctx, x);
    assert InOrder(Leaf) == [];
    var b, m, a := Before(ctx), InOrder(x), After(ctx);
    assert b + m + a == (b + []) + (m + a) && b + m + a == (b + m) + ([] + a);
  }

  /** dlm_avl_remove: takes exactly the node out of the order, and leaves an AVL tree. */
  method Remove(root: AvlRoot, data: AvlNode, ghost tree: Tree, ghost rs: Side, ghost before: seq<AvlNode>, ghost after: seq<AvlNode>)
    returns (ghost tree': Tree)
    requires IsTree(root, tree, rs) && InOrder(tree) == before + [data] + after
    modifies root, root.nodes
    ensures IsTree(root, tree', rs) && InOrder(tree') == before + after
    ensures root.nodes == old(root.nodes) - {data} && root.numnodes == old(root.numnodes) - 1
  {
    hide Holds, Avl, InOrder, Zip, Span;
    ghost var ctx, t := FocusAt(root.View(), tree, before, data, after, rs);
    FocusRead(root, ctx, t, rs);
    Removed(root.View(), tree, rs, before, data, after);
    assert root.numnodes > 0;
    if data.left != null && data.right != null {
      tree' := RemoveInner(root, data, ctx, t, rs);
    } else {
      tree' := RemoveOuter(root, data, ctx, t, if t.left.Leaf? then Left else Right, rs);
    }
    InOrderNodes(tree');
  }

  lemma Removed(st: State, tree: Tree, rs: Side, before: seq<AvlNode>, node: AvlNode, after: seq<AvlNode>)
    requires Holds(st, [], tree, rs) && InOrder(tree) == before + [node] + after
    ensures node in Nodes(tree) && Nodes(tree) - {node} == set x | x in before + after
  {
    InOrderNodes(tree);
    RepDistinct2(st, tree, rs);
    var s := InOrder(tree);
    assert s[|before|] == node;
    forall x | x in before + after ensures x != node && x in s {
      if x in before {
        var j :| 0 <= j < |before| && before[j] == x;
        assert s[j] == x;
      } else {
        var j :| 0 <= j < |after| && after[j] == x;
        assert s[|before| + 1 + j] == x;
      }
    }
  }
}
