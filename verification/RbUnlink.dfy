/**
 Taking a node out of a red-black tree (rbtree_augmented.h: __rb_erase_augmented; rbtree.c:
 rb_replace_node), on trees and memory as values.
 */
module RbUnlink {
  import opened Sides
  import opened RbTree
  import opened RbMemory
  import opened RbRotate
  import opened RbAugment
  import opened RbErase

  // ---------- colours after the removal of a node with at most one child ----------

  /** The node at the focus has no child on one side; what is on the other side takes its place. */
  lemma SingleColors(ctx: Context, sub: Tree, side: Side)
    requires RedBlack(Zip(ctx, sub)) && sub.Node? && Kid(sub, side) == Leaf
    ensures var x := Kid(sub, Other(side));
      && (x.Node? ==> !sub.red && x.red && RedBlack(Zip(ctx, Painted(x, sub.red))))
      && (x.Leaf? && (sub.red || ctx == []) ==> RedBlack(Zip(ctx, Leaf)))
      && (x.Leaf? && !sub.red && ctx != [] ==> Erasing(ctx, Leaf))
  {
    var x := Kid(sub, Other(side));
    UnzipRedBlack(ctx, sub);
    var k := UnzipBlack(ctx, sub, BlackHeight(Zip(ctx, sub)));
    assert Black(Leaf, k - Weight(sub.red)) && Black(x, 0);
    if x.Node? {
      BlackIsHeight(x, 0);
      HeightNat(x.left);
      assert x.red;
      assert Black(Painted(x, false), 1);
      ZipBlack(ctx, Painted(x, false), 1);
      ZipNoRed(ctx, Painted(x, false));
    } else if sub.red {
      ZipBlack(ctx, Leaf, 0);
      ZipNoRed(ctx, Leaf);
    }
  }

  // ---------- replacing a node by another ----------

  /** rb_replace_node: the new node takes over the victim's cell, and the neighbours point to it. */
  function Replaced(st: State, victim: RbNode, new_: RbNode): State {
    var c := At(st, victim);
    var st1 := st.(mem := st.mem[new_ := c]);
    var st2 := if c.left == null then st1 else PutParentColor(st1, c.left, new_, At(st1, c.left).red);
    var st3 := if c.right == null then st2 else PutParentColor(st2, c.right, new_, At(st2, c.right).red);
    ChangeChild(st3, victim, new_, c.parent)
  }

  ghost predicate CellsReplaced(st: State, st': State, victim: RbNode, new_: RbNode, p: RbNode?, pside: Side) {
    && victim in st.mem && new_ in st'.mem && st'.mem[new_] == st.mem[victim]
    && var l, r := st.mem[victim].left, st.mem[victim].right;
    && (l != null ==> l in st.mem && l in st'.mem && st'.mem[l] == st.mem[l].(parent := new_))
    && (r != null ==> r in st.mem && r in st'.mem && st'.mem[r] == st.mem[r].(parent := new_))
    && (forall n | n in st.mem && n != new_ && n != l && n != r && n != p :: n in st'.mem && st'.mem[n] == st.mem[n])
    && st'.root == (if p == null then new_ else st.root)
    && (p != null ==> p in st.mem && p in st'.mem && st'.mem[p] == WithKid(st.mem[p], pside, new_) && KidOf(st.mem[p], pside) == victim)
  }

  lemma ReplacedCells(st: State, victim: RbNode, new_: RbNode, l: RbNode?, r: RbNode?, p: RbNode?, pside: Side)
    requires victim in st.mem && victim != new_
    requires st.mem[victim].left == l && st.mem[victim].right == r && st.mem[victim].parent == p
    requires l != null ==> l in st.mem && l != victim && l != new_ && l != p && l != r
    requires r != null ==> r in st.mem && r != victim && r != new_ && r != p
    requires p != null ==> p in st.mem && p != victim && p != new_ && KidOf(st.mem[p], pside) == victim && KidOf(st.mem[p], Other(pside)) != victim
    ensures CellsReplaced(st, Replaced(st, victim, new_), victim, new_, p, pside)
  {}

  /** The tree with the node at the focus replaced. */
  lemma ReplacedHolds(st: State, ctx: Context, sub: Tree, new_: RbNode)
    requires Holds(st, ctx, sub) && sub.Node? && new_ !in Nodes(sub) + CtxNodes(ctx)
    ensures Holds(Replaced(st, sub.node, new_), ctx, sub.(node := new_))
  {
    hide Replaced, Holds, CellsReplaced;
    ReplacedAt(st, ctx, sub, new_);
    ReplacedPieces(st, Replaced(st, sub.node, new_), ctx, sub, new_);
  }

  lemma ReplacedAt(st: State, ctx: Context, sub: Tree, new_: RbNode)
    requires Holds(st, ctx, sub) && sub.Node? && new_ !in Nodes(sub) + CtxNodes(ctx)
    ensures CellsReplaced(st, Replaced(st, sub.node, new_), sub.node, new_, Above(ctx), SideAbove(ctx))
  {
    var victim, p := sub.node, Above(ctx);
    AroundParent(st, ctx, victim);
    RepIn(st.mem, sub, p);
    CtxIn(st.mem, ctx, victim, st.root);
    TopIn(ctx, sub);
    TopIn(ctx, sub.left);
    TopIn(ctx, sub.right);
    hide Replaced, CellsReplaced;
    ReplacedCells(st, victim, new_, Top(sub.left), Top(sub.right), p, SideAbove(ctx));
  }

  /** If the new node has the victim's value, and its cache too, all caches stay right. */
  lemma ReplacedCaches(st: State, st': State, a: map<RbNode, int>, victim: RbNode, new_: RbNode, p: RbNode?, pside: Side)
    requires CellsReplaced(st, st', victim, new_, p, pside) && new_ !in st.mem && st.mem[victim].parent == p
    requires AugOk(st.mem, a, st.mem.Keys) && ParentsOk(st.mem, st.mem.Keys) && a.Keys == st.mem.Keys && new_.value == victim.value
    ensures AugOk(st'.mem, (a - {victim})[new_ := a[victim]], st.mem.Keys - {victim} + {new_})
  {
    var a' := (a - {victim})[new_ := a[victim]];
    forall n | n in st.mem.Keys - {victim} + {new_} ensures AugAt(st'.mem, a', n) {
      if n == new_ {
        assert AugAt(st.mem, a, victim) && ParentAt(st.mem, victim, Left) && ParentAt(st.mem, victim, Right);
        ReplacedNew(st, st', a, victim, new_, p, pside);
      } else {
        assert AugAt(st.mem, a, n) && ParentAt(st.mem, n, Left) && ParentAt(st.mem, n, Right);
        ReplacedOther(st, st', a, victim, new_, p, pside, n);
      }
    }
  }

  lemma ReplacedNew(st: State, st': State, a: map<RbNode, int>, victim: RbNode, new_: RbNode, p: RbNode?, pside: Side)
    requires CellsReplaced(st, st', victim, new_, p, pside) && new_ !in st.mem && st.mem[victim].parent == p
    requires a.Keys == st.mem.Keys && new_.value == victim.value && AugAt(st.mem, a, victim)
    requires ParentAt(st.mem, victim, Left) && ParentAt(st.mem, victim, Right)
    ensures AugAt(st'.mem, (a - {victim})[new_ := a[victim]], new_)
  {
    assert st.mem[victim].left != victim && st.mem[victim].right != victim;
  }

  lemma ReplacedOther(st: State, st': State, a: map<RbNode, int>, victim: RbNode, new_: RbNode, p: RbNode?, pside: Side, n: RbNode)
    requires CellsReplaced(st, st', victim, new_, p, pside) && new_ !in st.mem && st.mem[victim].parent == p
    requires a.Keys == st.mem.Keys && n in st.mem && n != victim && AugAt(st.mem, a, n)
    requires ParentAt(st.mem, n, Left) && ParentAt(st.mem, n, Right)
    ensures AugAt(st'.mem, (a - {victim})[new_ := a[victim]], n)
  {
    assert KidOf(st.mem[n], Left) == st.mem[n].left && KidOf(st.mem[n], Right) == st.mem[n].right;
    if n == p {
      assert KidOf(st.mem[n], Other(pside)) != victim;
    } else {
      assert st.mem[n].left != victim && st.mem[n].right != victim;
    }
  }

  lemma ReplacedPieces(st: State, st': State, ctx: Context, sub: Tree, new_: RbNode)
    requires Holds(st, ctx, sub) && sub.Node? && new_ !in Nodes(sub) + CtxNodes(ctx)
    requires CellsReplaced(st, st', sub.node, new_, Above(ctx), SideAbove(ctx))
    ensures Holds(st', ctx, sub.(node := new_))
  {
    var l, r := sub.left, sub.right;
    RepIn(st.mem, sub, Above(ctx));
    CtxIn(st.mem, ctx, sub.node, st.root);
    TopIn(ctx, sub);
    TopIn(ctx, l);
    TopIn(ctx, r);
    RepRoot(st.mem, l, sub.node);
    RepRoot(st.mem, r, sub.node);
    assert Painted(l, IsRed(l)) == l && Painted(r, IsRed(r)) == r;
    assert Rep(st.mem, l, sub.node) && Rep(st.mem, r, sub.node) && Nodes(l) !! Nodes(r) && sub.node !in Nodes(l) + Nodes(r);
    assert Nodes(sub) == Nodes(l) + {sub.node} + Nodes(r);
    hide Rep, RepCtx, Nodes, CtxNodes;
    RepMoved(st.mem, st'.mem, l, sub.node, new_, IsRed(l));
    RepMoved(st.mem, st'.mem, r, sub.node, new_, IsRed(r));
    CtxMoved(st, st', ctx, sub.node, new_);
    ReplacedDone(st, st', ctx, sub, new_);
  }

  lemma RepRoot(m: map<RbNode, Cell>, t: Tree, parent: RbNode?)
    requires Rep(m, t, parent)
    ensures t.Node? ==> t.node in m && m[t.node].red == t.red && m[t.node].parent == parent
  {}

  lemma ReplacedDone(st: State, st': State, ctx: Context, sub: Tree, new_: RbNode)
    requires Holds(st, ctx, sub) && sub.Node? && new_ !in Nodes(sub) + CtxNodes(ctx)
    requires CellsReplaced(st, st', sub.node, new_, Above(ctx), SideAbove(ctx))
    requires Rep(st'.mem, sub.left, new_) && Rep(st'.mem, sub.right, new_) && RepCtx(st'.mem, ctx, new_, st'.root)
    ensures Holds(st', ctx, sub.(node := new_))
  {
    hide RepCtx, CtxNodes;
  }

  // ---------- splicing out a node with at most one child ----------

  /** The child of the node, if any, takes over its parent and colour; the parent points to the child. */
  function Spliced(st: State, n: RbNode, child: RbNode?): State {
    var c := At(st, n);
    var st1 := if child == null then st else PutParentColor(st, child, c.parent, c.red);
    ChangeChild(st1, n, child, c.parent)
  }

  lemma SplicedHolds(st: State, ctx: Context, sub: Tree, side: Side)
    requires Holds(st, ctx, sub) && sub.Node? && Kid(sub, side) == Leaf
    ensures var x := Kid(sub, Other(side)); Holds(Spliced(st, sub.node, Top(x)), ctx, Painted(x, sub.red))
  {
    var x, n, p := Kid(sub, Other(side)), sub.node, Above(ctx);
    var st' := Spliced(st, n, Top(x));
    AroundParent(st, ctx, n);
    RepIn(st.mem, sub, p);
    CtxIn(st.mem, ctx, n, st.root);
    TopIn(ctx, sub);
    TopIn(ctx, x);
    PaintedNodes(x, sub.red);
    assert Rep(st.mem, x, n) && Nodes(x) <= Nodes(sub) && n !in Nodes(x);
    assert st.mem[n].parent == p && st.mem[n].red == sub.red;
    hide Rep, RepCtx, Nodes, CtxNodes;
    RepMoved(st.mem, st'.mem, x, n, p, sub.red);
    CtxMoved(st, st', ctx, n, Top(x));
  }

  lemma SplicedCells(st: State, n: RbNode, child: RbNode?, p: RbNode?, pside: Side)
    requires n in st.mem && st.mem[n].parent == p && (child != null ==> child in st.mem && child != n && child != p)
    requires p != null ==> p in st.mem && p != n && KidOf(st.mem[p], pside) == n && KidOf(st.mem[p], Other(pside)) != n
    ensures var st' := Spliced(st, n, child);
      && st'.mem.Keys == st.mem.Keys
      && (child != null ==> st'.mem[child] == st.mem[child].(parent := p, red := st.mem[n].red))
      && (p != null ==> st'.mem[p] == WithKid(st.mem[p], pside, child))
      && (forall x | x in st.mem && x != child && x != p :: st'.mem[x] == st.mem[x])
      && st'.root == (if p == null then child else st.root)
  {}
}
