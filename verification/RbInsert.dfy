/** Insertion into a red-black tree (rbtree.c: __rb_insert; rbtree.h: rb_link_node). */
module RbInsert {
  import opened Sides
  import opened RbTree
  import opened RbMemory
  import opened RbRotate
  import opened RbAugment

  /** The only thing that may be wrong: the focus is red, and so may its parent be. */
  ghost predicate Inserting(ctx: Context, t: Tree) {
    && t.Node? && t.red && NoRed(t) && CtxNoRed(ctx)
    && Black(t, BlackHeight(t)) && CtxBlack(ctx, BlackHeight(t))
  }

  /** The focus is the root: painting it black is all that is left to do. */
  lemma RootInserted(t: Tree)
    requires Inserting([], t)
    ensures RedBlack(Painted(t, false)) && InOrder(Painted(t, false)) == InOrder(t)
  {
    var t' := Painted(t, false);
    BlackIsHeight(t', BlackHeight(t) + 1);
  }

  /** The parent is black: nothing is wrong. */
  lemma BlackParent(ctx: Context, t: Tree)
    requires Inserting(ctx, t) && ctx != [] && !ctx[0].red
    ensures RedBlack(Zip(ctx, t))
  {
    ZipBlack(ctx, t, BlackHeight(t));
    ZipNoRed(ctx, t);
  }

  /** A red parent has a black parent itself. */
  lemma Grandparent(ctx: Context, t: Tree)
    requires Inserting(ctx, t) && ctx != [] && ctx[0].red
    ensures |ctx| > 1 && !ctx[1].red && !IsRed(ctx[0].sibling)
  {}

  // ---------- case 1 ----------

  /** The uncle is red: the grandparent becomes red, its children black. */
  function Flipped(ctx: Context, t: Tree): Tree
    requires |ctx| > 1
  {
    Make(ctx[1].side, Painted(Plug(ctx[0], t), false), ctx[1].node, true, Painted(ctx[1].sibling, false))
  }

  lemma Case1(ctx: Context, t: Tree)
    requires Inserting(ctx, t) && ctx != [] && ctx[0].red && |ctx| > 1 && IsRed(ctx[1].sibling)
    ensures Inserting(ctx[2..], Flipped(ctx, t))
    ensures InOrder(Zip(ctx[2..], Flipped(ctx, t))) == InOrder(Zip(ctx, t))
  {
    var t1, t2 := Plug(ctx[0], t), Flipped(ctx, t);
    assert ctx[1..][0] == ctx[1] && ctx[1..][1..] == ctx[2..];
    assert CtxNoRed(ctx[1..]) && CtxBlack(ctx[1..], BlackHeight(t));
    BlackIsHeight(t1, BlackHeight(t));
    BlackIsHeight(ctx[1].sibling, BlackHeight(t));
    assert BlackHeight(Painted(t1, false)) == BlackHeight(t) + 1;
    assert Black(Painted(t1, false), BlackHeight(t) + 1) && Black(Painted(ctx[1].sibling, false), BlackHeight(t) + 1);
    BlackIsHeight(t2, BlackHeight(t) + 1);
    SameOrder(ctx[2..], Plug(ctx[1], t1), t2);
  }

  // ---------- case 2 ----------

  /** The focus is an inner grandchild, of a red parent: one rotation makes it an outer one. */
  function TurnedCtx(ctx: Context, t: Tree): Context
    requires ctx != [] && t.Node?
  {
    [Crumb(Other(ctx[0].side), t.node, true, Kid(t, ctx[0].side))] + ctx[1..]
  }

  function TurnedFocus(ctx: Context, t: Tree): Tree
    requires ctx != [] && t.Node?
  {
    Make(ctx[0].side, Kid(t, Other(ctx[0].side)), ctx[0].node, true, ctx[0].sibling)
  }

  lemma Case2(ctx: Context, t: Tree)
    requires Inserting(ctx, t) && ctx != [] && ctx[0].red
    ensures Inserting(TurnedCtx(ctx, t), TurnedFocus(ctx, t))
  {
    BlackIsHeight(TurnedFocus(ctx, t), BlackHeight(t));
    assert TurnedCtx(ctx, t)[1..] == ctx[1..];
    BlackIsHeight(Kid(t, Left), BlackHeight(t));
    BlackIsHeight(Kid(t, Right), BlackHeight(t));
  }

  lemma Case2Shape(ctx: Context, t: Tree)
    requires ctx != [] && t.Node? && t.red && ctx[0].red
    ensures var s := ctx[0].side;
      && t == Make(s, Kid(t, s), t.node, true, Kid(t, Other(s)))
      && Plug(ctx[0], t) == Make(s, t, ctx[0].node, true, ctx[0].sibling)
      && Plug(TurnedCtx(ctx, t)[0], TurnedFocus(ctx, t))
         == TreeRotated(s, Kid(t, s), t.node, true, Kid(t, Other(s)), ctx[0].node, true, ctx[0].sibling)
      && TurnedCtx(ctx, t)[1..] == ctx[1..]
  {}

  // ---------- case 3 ----------

  /** The focus is an outer grandchild and its uncle is black: the rotation at the grandparent. */
  function Balanced(ctx: Context, t: Tree): Tree
    requires |ctx| > 1
  {
    TreeRotated(ctx[1].side, t, ctx[0].node, false, ctx[0].sibling, ctx[1].node, true, ctx[1].sibling)
  }

  lemma Case3(ctx: Context, t: Tree)
    requires Inserting(ctx, t) && |ctx| > 1 && ctx[0].red && !ctx[1].red && ctx[0].side == ctx[1].side && !IsRed(ctx[1].sibling)
    ensures RedBlack(Zip(ctx[2..], Balanced(ctx, t)))
  {
    var h, t2 := BlackHeight(t), Balanced(ctx, t);
    assert ctx[1..][0] == ctx[1] && ctx[1..][1..] == ctx[2..];
    assert CtxNoRed(ctx[1..]) && CtxBlack(ctx[1..], h);
    assert Black(Make(ctx[1].side, ctx[0].sibling, ctx[1].node, true, ctx[1].sibling), h);
    ZipBlack(ctx[2..], t2, h + 1);
    ZipNoRed(ctx[2..], t2);
  }

  lemma Case3Shape(ctx: Context, t: Tree)
    requires |ctx| > 1 && ctx[0].red && !ctx[1].red && ctx[0].side == ctx[1].side
    ensures Plug(ctx[1], Plug(ctx[0], t))
      == Make(ctx[1].side, Make(ctx[1].side, t, ctx[0].node, true, ctx[0].sibling), ctx[1].node, false, ctx[1].sibling)
    ensures ctx[1..][0] == ctx[1] && ctx[1..][1..] == ctx[2..]
  {}

  // ---------- the program ----------

  ghost predicate Whole(root: RbRoot, ctx: Context, t: Tree)
    reads root, root.nodes
  {
    Intact(root.View(), root.Augs(), ctx, t)
  }

  /** __rb_rotate_set_parents */
  method RotateParents(root: RbRoot, old_: RbNode, new_: RbNode, red: bool)
    requires old_ in root.nodes && new_ in root.nodes && old_ != new_ && (old_.parent != null ==> old_.parent in root.nodes)
    modifies root`rbNode, root.nodes`left, root.nodes`right, root.nodes`parent, root.nodes`red
    ensures root.View() == RotateSetParents(old(root.View()), old_, new_, red)
  {
    hide ChangeChild, PutParentColor;
    var parent := old_.parent;
    root.SetParentColor(new_, parent, old_.red);
    root.SetParentColor(old_, new_, red);
    root.ChangeChildOf(old_, new_, parent);
  }

  /** Child pointers and the subtree between, as at the start of every rotation. */
  method MoveKids(root: RbRoot, side: Side, y: RbNode, x: RbNode)
    requires x in root.nodes && y in root.nodes && x != y
    requires root.Child(x, Other(side)) != null ==> root.Child(x, Other(side)) in root.nodes
    modifies root.nodes`left, root.nodes`right, root.nodes`parent, root.nodes`red
    ensures root.View() == KidsMoved(old(root.View()), side, y, x, true) && root.Augs() == old(root.Augs())
  {
    hide PutKid, PutParentColor;
    var tmp := root.Child(x, Other(side));
    root.SetChild(y, side, tmp);
    root.SetChild(x, Other(side), y);
    if tmp != null {
      root.SetParentColor(tmp, y, false);
    }
  }

  /** augment_rotate, or dummy_rotate */
  method AugmentRotate(root: RbRoot, old_: RbNode, new_: RbNode)
    requires old_ in root.nodes && new_ in root.nodes
    requires old_.left != null ==> old_.left in root.nodes
    requires old_.right != null ==> old_.right in root.nodes
    modifies root.nodes`augmented, root.nodes`shadow
    ensures root.View() == old(root.View())
    ensures root.Augs() == AugRotated(root.View().mem, old(root.Augs()), old_, new_)
  {
    ghost var a := root.Augs();
    if !root.callbacks {
      root.Shadow(AugRotated(root.View().mem, a, old_, new_));
      return;
    }
    new_.augmented := old_.augmented;
    ghost var a1 := a[new_ := a[old_]];
    assert root.Augs() == a1;
    var max := ComputeMax(root, old_);
    old_.augmented := max;
    assert root.Augs() == a1[old_ := max];
  }

  /** The largest of a node's value and its children's caches. */
  method ComputeMax(root: RbRoot, n: RbNode) returns (max: int)
    requires n in root.nodes && root.callbacks
    requires n.left != null ==> n.left in root.nodes
    requires n.right != null ==> n.right in root.nodes
    ensures max == Computed(root.View().mem[n], root.Augs(), n)
    ensures root.View() == old(root.View()) && root.Augs() == old(root.Augs())
  {
    max := n.value;
    if n.left != null && n.left.augmented > max { max := n.left.augmented; }
    if n.right != null && n.right.augmented > max { max := n.right.augmented; }
  }

  /** Case 2 leaves some pointers behind that case 3 writes; after both the memory is as after two whole rotations. */
  lemma TurnedThenRotated(st: State, s: Side, p: RbNode, n: RbNode, g: RbNode)
    requires p in st.mem && n in st.mem && g in st.mem && p != n && p != g && n != g
    requires st.mem[p].parent == g && st.mem[p].red && KidOf(st.mem[g], s) == p && KidOf(st.mem[g], Other(s)) != p
    requires var tmp := KidOf(st.mem[n], Other(Other(s))); tmp != null ==> tmp != g && tmp != p && tmp != n
    requires KidOf(st.mem[n], Other(s)) != n && KidOf(st.mem[n], Other(s)) != g
    ensures var st1, v1 := PutParentColor(KidsMoved(st, Other(s), p, n, true), p, n, true), Rotated(st, Other(s), p, n, true, true);
      && p in st1.mem && p in v1.mem && st1.mem[p] == v1.mem[p]
      && KidsMoved(st1, s, g, n, true).mem.Keys == KidsMoved(v1, s, g, n, true).mem.Keys
      && Rotated(st1, s, g, n, true, true) == Rotated(v1, s, g, n, true, true)
      && n in st1.mem && g in st1.mem && n in v1.mem && g in v1.mem
      && st1.mem[g].parent == v1.mem[g].parent && KidOf(st1.mem[n], Other(s)) == KidOf(v1.mem[n], Other(s))
  {
    var st0 := KidsMoved(st, Other(s), p, n, true);
    KidsMovedFacts(st, s, p, n, g, KidOf(st.mem[n], Other(Other(s))));
    hide KidsMoved, Rotated, WithKid;
    TurnedFields(st, st0, s, p, n, g);
  }

  /** The same, from the memory after the child pointers have been moved. */
  lemma TurnedFields(st: State, st0: State, s: Side, p: RbNode, n: RbNode, g: RbNode)
    requires p in st.mem && n in st.mem && g in st.mem && p != n && p != g && n != g && st0 == KidsMoved(st, Other(s), p, n, true)
    requires st.mem[p].parent == g && st.mem[p].red && KidOf(st.mem[g], s) == p && KidOf(st.mem[g], Other(s)) != p
    requires KidOf(st.mem[n], Other(s)) != n && KidOf(st.mem[n], Other(s)) != g
    requires p in st0.mem && n in st0.mem && g in st0.mem && st0.mem[g] == st.mem[g]
    requires exists tmp :: st0.mem[p] == WithKid(st.mem[p], Other(s), tmp)
    requires st0.mem[n] == WithKid(st.mem[n], s, p)
    ensures var st1, v1 := PutParentColor(st0, p, n, true), Rotated(st, Other(s), p, n, true, true);
      && p in st1.mem && p in v1.mem && st1.mem[p] == v1.mem[p]
      && KidsMoved(st1, s, g, n, true).mem.Keys == KidsMoved(v1, s, g, n, true).mem.Keys
      && Rotated(st1, s, g, n, true, true) == Rotated(v1, s, g, n, true, true)
      && n in st1.mem && g in st1.mem && n in v1.mem && g in v1.mem
      && st1.mem[g].parent == v1.mem[g].parent && KidOf(st1.mem[n], Other(s)) == KidOf(v1.mem[n], Other(s))
  {
    WholeRotation(st0, s, p, n, g);
    var st1 := PutParentColor(st0, p, n, true);
    assert Rotated(st, Other(s), p, n, true, true) == PutKid(PutParentColor(st1, n, g, true), g, s, n);
    hide Rotated;
    Overwritten(st1, s, g, n, g, true, n, true, true);
    SameKeysMoved(st1, s, g, n);
  }

  lemma SameKeysMoved(st1: State, s: Side, g: RbNode, n: RbNode)
    requires g in st1.mem && n in st1.mem && g != n && KidOf(st1.mem[n], Other(s)) != n
    ensures KidsMoved(st1, s, g, n, true).mem.Keys == KidsMoved(PutKid(PutParentColor(st1, n, g, true), g, s, n), s, g, n, true).mem.Keys
  {}

  lemma KidsMovedFacts(st: State, s: Side, p: RbNode, n: RbNode, g: RbNode, tmp: RbNode?)
    requires p in st.mem && n in st.mem && g in st.mem && p != n && p != g && n != g
    requires tmp == KidOf(st.mem[n], Other(Other(s))) && (tmp != null ==> tmp != g && tmp != p && tmp != n)
    ensures var st0 := KidsMoved(st, Other(s), p, n, true);
      && p in st0.mem && n in st0.mem && g in st0.mem && st0.mem[g] == st.mem[g]
      && st0.mem[p] == WithKid(st.mem[p], Other(s), tmp) && st0.mem[n] == WithKid(st.mem[n], s, p)
  {}

  /** What a whole rotation does beyond moving child pointers and repainting p. */
  lemma WholeRotation(st0: State, s: Side, p: RbNode, n: RbNode, g: RbNode)
    requires p in st0.mem && n in st0.mem && g in st0.mem && p != n && p != g && n != g
    requires st0.mem[p].parent == g && KidOf(st0.mem[g], s) == p && KidOf(st0.mem[g], Other(s)) != p
    ensures var c := st0.mem[p].red;
      RotateSetParents(st0, p, n, true) == PutKid(PutParentColor(PutParentColor(st0, p, n, true), n, g, c), g, s, n)
  {
    var c := st0.mem[p].red;
    assert st0.mem[n := st0.mem[n].(parent := g, red := c)][p := st0.mem[p].(parent := n, red := true)]
        == st0.mem[p := st0.mem[p].(parent := n, red := true)][n := st0.mem[n].(parent := g, red := c)];
  }

  /** A rotation at g with child n does not look at the fields given here, and writes them. */
  lemma Overwritten(st: State, s: Side, g: RbNode, n: RbNode, q: RbNode?, c: bool, k: RbNode?, paint: bool, red: bool)
    requires g in st.mem && n in st.mem && g != n && KidOf(st.mem[n], Other(s)) != n && KidOf(st.mem[n], Other(s)) != g
    ensures Rotated(PutKid(PutParentColor(st, n, q, c), g, s, k), s, g, n, paint, red) == Rotated(st, s, g, n, paint, red)
  {
    KidsOverwritten(st, s, g, n, q, c, k, paint);
    var y := KidsMoved(st, s, g, n, paint);
    KidsMovedIn(st, s, g, n, paint);
    hide KidsMoved, ChangeChild;
    assert PutParentColor(PutParentColor(y, n, q, c), n, y.mem[g].parent, y.mem[g].red)
        == PutParentColor(y, n, y.mem[g].parent, y.mem[g].red);
  }

  lemma KidsMovedIn(st: State, s: Side, g: RbNode, n: RbNode, paint: bool)
    requires g in st.mem && n in st.mem
    ensures g in KidsMoved(st, s, g, n, paint).mem && n in KidsMoved(st, s, g, n, paint).mem
  {}

  lemma KidsOverwritten(st: State, s: Side, g: RbNode, n: RbNode, q: RbNode?, c: bool, k: RbNode?, paint: bool)
    requires g in st.mem && n in st.mem && g != n && KidOf(st.mem[n], Other(s)) != n && KidOf(st.mem[n], Other(s)) != g
    ensures KidsMoved(PutKid(PutParentColor(st, n, q, c), g, s, k), s, g, n, paint) == PutParentColor(KidsMoved(st, s, g, n, paint), n, q, c)
  {
    var tmp := KidOf(st.mem[n], Other(s));
    var b := PutKid(PutKid(st, g, s, tmp), n, Other(s), g);
    ChildrenOverwritten(st, s, g, n, q, c, k, tmp);
    if tmp != null { PaintsCommute(b, n, q, c, tmp, g, if paint then false else At(b, tmp).red); }
  }

  lemma ChildrenOverwritten(st: State, s: Side, g: RbNode, n: RbNode, q: RbNode?, c: bool, k: RbNode?, tmp: RbNode?)
    requires g in st.mem && n in st.mem && g != n
    ensures PutKid(PutKid(PutKid(PutParentColor(st, n, q, c), g, s, k), g, s, tmp), n, Other(s), g)
      == PutParentColor(PutKid(PutKid(st, g, s, tmp), n, Other(s), g), n, q, c)
  {
    var m, st1 := st.mem, PutParentColor(st, n, q, c);
    assert PutKid(PutKid(st1, g, s, k), g, s, tmp) == PutKid(st1, g, s, tmp);
    assert PutKid(st1, g, s, tmp) == PutParentColor(PutKid(st, g, s, tmp), n, q, c);
  }

  lemma PaintsCommute(st: State, n: RbNode, q: RbNode?, c: bool, k: RbNode, r: RbNode?, d: bool)
    requires n != k
    ensures PutParentColor(PutParentColor(st, n, q, c), k, r, d) == PutParentColor(PutParentColor(st, k, r, d), n, q, c)
  {}

  lemma TwoUp(st: State, a: map<RbNode, int>, ctx: Context, t: Tree)
    requires |ctx| > 1
    ensures Intact(st, a, ctx, t) <==> Intact(st, a, ctx[1..], Plug(ctx[0], t))
    ensures Intact(st, a, ctx, t) <==> Intact(st, a, ctx[2..], Plug(ctx[1], Plug(ctx[0], t)))
    ensures Zip(ctx, t) == Zip(ctx[2..], Plug(ctx[1], Plug(ctx[0], t)))
  {
    IntactUp(st, a, ctx, t);
    assert ctx[1..][1..] == ctx[2..] && ctx[1..][0] == ctx[1];
    hide Intact;
    IntactUp(st, a, ctx[1..], Plug(ctx[0], t));
  }

  /** The writes of case 1. */
  function FlippedState(st: State, uncle: RbNode, parent: RbNode, gparent: RbNode, top: RbNode?): State {
    PutParentColor(PutParentColor(PutParentColor(st, uncle, gparent, false), parent, gparent, false), gparent, top, true)
  }

  lemma FlipIntact(st: State, a: map<RbNode, int>, ctx: Context, t: Tree)
    requires Intact(st, a, ctx, t) && |ctx| > 1 && ctx[1].sibling.Node?
    ensures Intact(FlippedState(st, ctx[1].sibling.node, ctx[0].node, ctx[1].node, Above(ctx[2..])), a, ctx[2..], Flipped(ctx, t))
  {
    hide Intact, InOrder;
    TwoUp(st, a, ctx, t);
    var c, p, u, rest := ctx[1], Plug(ctx[0], t), ctx[1].sibling, ctx[2..];
    assert ctx[1..][1..] == rest && ctx[1..][0] == c;
    AcrossIntact(st, a, ctx[1..], p);
    var cu := [Crumb(Other(c.side), c.node, c.red, p)] + rest;
    PaintIntact(st, a, cu, u, false);
    var st1, u' := PutParentColor(st, u.node, c.node, false), Painted(u, false);
    AcrossIntact(st1, a, cu, u');
    var cp := [Crumb(c.side, c.node, c.red, u')] + rest;
    assert cu[1..] == rest;
    PaintIntact(st1, a, cp, p, false);
    var st2, p' := PutParentColor(st1, p.node, c.node, false), Painted(p, false);
    IntactUp(st2, a, cp, p');
    assert cp[1..] == rest;
    PaintIntact(st2, a, rest, Plug(cp[0], p'), true);
  }

  /** Case 2: the child pointers, the colours and the caches; the rest is left to case 3. */
  method TurnInner(root: RbRoot, s: Side, parent: RbNode, node: RbNode)
    requires Turned(root.View(), root.Augs(), s, parent, node)
    modifies root.nodes
    ensures root.View() == PutParentColor(KidsMoved(old(root.View()), Other(s), parent, node, true), parent, node, true)
    ensures parent in root.View().mem && parent in old(root.Augs())
    ensures root.Augs() == AugRotated(root.View().mem, old(root.Augs()), parent, node)
  {
    hide KidsMoved, PutParentColor, AugRotated;
    MoveKids(root, Other(s), parent, node);
    root.SetParentColor(parent, node, true);
    assert root.View().mem[parent] == Cell(parent.left, parent.right, parent.parent, parent.red);
    AugmentRotate(root, parent, node);
  }

  /** What case 2 needs of the memory before it, and what it leaves. */
  ghost predicate Turned(st: State, a: map<RbNode, int>, s: Side, p: RbNode, n: RbNode) {
    var st1, v1 := PutParentColor(KidsMoved(st, Other(s), p, n, true), p, n, true), Rotated(st, Other(s), p, n, true, true);
    && p in st.mem && n in st.mem && p != n && n in a && p in a
    && (KidOf(st.mem[n], s) != null ==> KidOf(st.mem[n], s) in st.mem)
    && p in st1.mem && p in v1.mem && st1.mem[p] == v1.mem[p] && AugRotated(st1.mem, a, p, n) == AugRotated(v1.mem, a, p, n)
    && (st1.mem[p].left != null ==> st1.mem[p].left in st.mem) && (st1.mem[p].right != null ==> st1.mem[p].right in st.mem)
  }

  lemma TurnFacts(st: State, a: map<RbNode, int>, s: Side, ctx: Context, t: Tree)
    requires Intact(st, a, ctx, t) && Inserting(ctx, t) && |ctx| > 1 && ctx[0].red && ctx[0].side == Other(s) && ctx[1].side == s
    ensures Turned(st, a, s, ctx[0].node, t.node)
    ensures var v1 := Rotated(st, Other(s), ctx[0].node, t.node, true, true);
      Intact(v1, AugRotated(v1.mem, a, ctx[0].node, t.node), TurnedCtx(ctx, t), TurnedFocus(ctx, t))
    ensures InOrder(Zip(TurnedCtx(ctx, t), TurnedFocus(ctx, t))) == InOrder(Zip(ctx, t))
  {
    var p, n := ctx[0].node, t.node;
    TurnCells(st, a, s, ctx, t);
    TurnTree(st, a, s, ctx, t);
    hide Inserting, Intact, TurnedCtx, TurnedFocus, Plug, Rotated, KidsMoved, InOrder, Zip, AugRotated;
    TurnedThenRotated(st, s, p, n, ctx[1].node);
    var v1 := Rotated(st, Other(s), p, n, true, true);
    CacheKids(v1, AugRotated(v1.mem, a, p, n), TurnedCtx(ctx, t), TurnedFocus(ctx, t), p);
    assert v1.mem.Keys == st.mem.Keys by { RotatedSameKeys(st, Other(s), p, n, ctx[1].node); }
    assert AugRotated(PutParentColor(KidsMoved(st, Other(s), p, n, true), p, n, true).mem, a, p, n) == AugRotated(v1.mem, a, p, n) by {
      SameCell(PutParentColor(KidsMoved(st, Other(s), p, n, true), p, n, true).mem, v1.mem, a, p, n);
    }
  }

  lemma SameCell(m: map<RbNode, Cell>, m': map<RbNode, Cell>, a: map<RbNode, int>, p: RbNode, n: RbNode)
    requires p in m && p in m' && m[p] == m'[p] && p in a
    ensures AugRotated(m, a, p, n) == AugRotated(m', a, p, n)
  {}

  lemma RotatedSameKeys(st: State, side: Side, y: RbNode, x: RbNode, p: RbNode)
    requires x in st.mem && y in st.mem && p in st.mem && st.mem[y].parent == p && x != y && y != p
    requires KidOf(st.mem[x], Other(side)) != null ==> KidOf(st.mem[x], Other(side)) in st.mem && KidOf(st.mem[x], Other(side)) != y
    ensures Rotated(st, side, y, x, true, true).mem.Keys == st.mem.Keys
  {}

  lemma TurnTree(st: State, a: map<RbNode, int>, s: Side, ctx: Context, t: Tree)
    requires Intact(st, a, ctx, t) && Inserting(ctx, t) && |ctx| > 1 && ctx[0].red && ctx[0].side == Other(s) && ctx[1].side == s
    ensures ctx[0].node in st.mem && ctx[0].node in a && t.node in a
    ensures var v1 := Rotated(st, Other(s), ctx[0].node, t.node, true, true);
      ctx[0].node in v1.mem && Intact(v1, AugRotated(v1.mem, a, ctx[0].node, t.node), TurnedCtx(ctx, t), TurnedFocus(ctx, t))
    ensures InOrder(Zip(TurnedCtx(ctx, t), TurnedFocus(ctx, t))) == InOrder(Zip(ctx, t))
  {
    var o, p, n := Other(s), ctx[0].node, t.node;
    Case2Shape(ctx, t);
    IntactUp(st, a, ctx, t);
    assert !IsRed(Kid(t, s));
    assert Zip(TurnedCtx(ctx, t), TurnedFocus(ctx, t)) == Zip(ctx[1..], Plug(TurnedCtx(ctx, t)[0], TurnedFocus(ctx, t)));
    assert Zip(ctx, t) == Zip(ctx[1..], Plug(ctx[0], t));
    hide Inserting, Make, TurnedCtx, TurnedFocus, Plug, Rotated, InOrder, Intact, Zip, TreeRotated, AugRotated;
    RotationIntact(st, a, ctx[1..], o, Kid(t, o), n, true, Kid(t, Other(o)), p, true, ctx[0].sibling, true, true);
    var v1 := Rotated(st, o, p, n, true, true);
    IntactUp(v1, AugRotated(v1.mem, a, p, n), TurnedCtx(ctx, t), TurnedFocus(ctx, t));
    IntactKeys(st, a, ctx[1..], Plug(ctx[0], t));
  }

  lemma IntactKeys(st: State, a: map<RbNode, int>, ctx: Context, t: Tree)
    requires Intact(st, a, ctx, t)
    ensures a.Keys == st.mem.Keys
  {}

  /** The cells that case 2 looks at. */
  lemma TurnCells(st: State, a: map<RbNode, int>, s: Side, ctx: Context, t: Tree)
    requires Intact(st, a, ctx, t) && Inserting(ctx, t) && |ctx| > 1 && ctx[0].red && ctx[0].side == Other(s) && ctx[1].side == s
    ensures var p, n, g := ctx[0].node, t.node, ctx[1].node;
      && p in st.mem && n in st.mem && g in st.mem && p != n && p != g && n != g
      && st.mem[p].parent == g && st.mem[p].red && KidOf(st.mem[g], s) == p && KidOf(st.mem[g], Other(s)) != p
      && (KidOf(st.mem[n], s) != null ==> KidOf(st.mem[n], s) != g && KidOf(st.mem[n], s) != p && KidOf(st.mem[n], s) != n)
      && (KidOf(st.mem[n], s) != null ==> KidOf(st.mem[n], s) in st.mem)
      && KidOf(st.mem[n], Other(s)) != n && KidOf(st.mem[n], Other(s)) != g
  {
    var o, p, n := Other(s), ctx[0].node, t.node;
    Case2Shape(ctx, t);
    IntactUp(st, a, ctx, t);
    assert ctx[1..][0] == ctx[1];
    TopIn(ctx[1..], Kid(t, o));
    hide Inserting, Make, Nodes, CtxNodes, Rep, RepCtx, AugOk, Zip;
    AroundHolds(st, ctx[1..], o, Kid(t, o), n, true, Kid(t, s), p, true, ctx[0].sibling);
    AroundTops(st, ctx[1..], o, Kid(t, o), n, true, Kid(t, s), p, true, ctx[0].sibling);
  }

  /** The children of a node of the tree are nodes of the tree. */
  lemma CacheKids(st: State, a: map<RbNode, int>, ctx: Context, t: Tree, n: RbNode)
    requires Intact(st, a, ctx, t) && n in st.mem
    ensures st.mem[n].left != null ==> st.mem[n].left in st.mem
    ensures st.mem[n].right != null ==> st.mem[n].right in st.mem
  {
    HoldsParents(st, ctx, t);
    assert ParentAt(st.mem, n, Left) && ParentAt(st.mem, n, Right);
  }

  /** Child pointers, parents and colours of a rotation at y with its child x. */
  method RotateTree(root: RbRoot, side: Side, y: RbNode, x: RbNode, red: bool)
    requires x in root.nodes && y in root.nodes && x != y && (y.parent != null ==> y.parent in root.nodes)
    requires root.Child(x, Other(side)) != null ==> root.Child(x, Other(side)) in root.nodes && root.Child(x, Other(side)) != y
    modifies root`rbNode, root.nodes`left, root.nodes`right, root.nodes`parent, root.nodes`red
    ensures root.View() == Rotated(old(root.View()), side, y, x, true, red)
  {
    ghost var st := root.View();
    ParentStays(st, side, y, x);
    hide KidsMoved, RotateSetParents, KidOf;
    MoveKids(root, side, y, x);
    assert y.parent == root.View().mem[y].parent == st.mem[y].parent;
    RotateParents(root, y, x, red);
  }

  lemma ParentStays(st: State, side: Side, y: RbNode, x: RbNode)
    requires x in st.mem && y in st.mem && x != y && KidOf(st.mem[x], Other(side)) != y
    ensures y in KidsMoved(st, side, y, x, true).mem && KidsMoved(st, side, y, x, true).mem[y].parent == st.mem[y].parent
  {}

  /** What a rotation at y needs of the memory, and what the callback then needs. */
  ghost predicate Rotatable(v: State, a: map<RbNode, int>, side: Side, y: RbNode, x: RbNode, paint: bool, red: bool) {
    var v' := Rotated(v, side, y, x, paint, red);
    && x in v.mem && y in v.mem && x != y && x in a && y in a
    && (v.mem[y].parent != null ==> v.mem[y].parent in v.mem)
    && (KidOf(v.mem[x], Other(side)) != null ==> KidOf(v.mem[x], Other(side)) in v.mem && KidOf(v.mem[x], Other(side)) != y)
    && y in v'.mem && v'.mem.Keys == v.mem.Keys
    && (v'.mem[y].left != null ==> v'.mem[y].left in v.mem) && (v'.mem[y].right != null ==> v'.mem[y].right in v.mem)
  }

  lemma RotationPossible(st: State, a: map<RbNode, int>, ctx: Context, side: Side,
                         ta: Tree, x: RbNode, xred: bool, tb: Tree, y: RbNode, yred: bool, tc: Tree, paint: bool, red: bool)
    requires Intact(st, a, ctx, Make(side, Make(side, ta, x, xred, tb), y, yred, tc)) && (paint ==> !IsRed(tb))
    ensures Rotatable(st, a, side, y, x, paint, red)
    ensures var st' := Rotated(st, side, y, x, paint, red); var t' := TreeRotated(side, ta, x, yred, tb, y, red, tc);
      && y in st'.mem && Intact(st', AugRotated(st'.mem, a, y, x), ctx, t')
      && InOrder(Zip(ctx, t')) == InOrder(Zip(ctx, Make(side, Make(side, ta, x, xred, tb), y, yred, tc)))
  {
    var st' := Rotated(st, side, y, x, paint, red);
    RotationIntact(st, a, ctx, side, ta, x, xred, tb, y, yred, tc, paint, red);
    hide Rotated, AugRotated, Make, TreeRotated, Holds, AugOk, InOrder, Zip;
    AroundHolds(st, ctx, side, ta, x, xred, tb, y, yred, tc);
    AroundTops(st, ctx, side, ta, x, xred, tb, y, yred, tc);
    RotatedCells(st, side, y, x, Top(tb), Above(ctx), SideAbove(ctx), paint, red);
    CacheKids(st', AugRotated(st'.mem, a, y, x), ctx, TreeRotated(side, ta, x, yred, tb, y, red, tc), y);
  }

  /** A whole rotation, with the rotate callback. */
  method RotateAndAugment(root: RbRoot, side: Side, y: RbNode, x: RbNode, red: bool, ghost v: State)
    requires Rotatable(v, root.Augs(), side, y, x, true, red)
    requires Rotated(root.View(), side, y, x, true, red) == Rotated(v, side, y, x, true, red)
    requires root.nodes == v.mem.Keys && y.parent == v.mem[y].parent && root.Child(x, Other(side)) == KidOf(v.mem[x], Other(side))
    modifies root`rbNode, root.nodes
    ensures y in old(root.Augs()) && root.View() == Rotated(v, side, y, x, true, red) && y in root.View().mem
    ensures root.Augs() == AugRotated(root.View().mem, old(root.Augs()), y, x)
  {
    hide Rotated, AugRotated, KidOf;
    RotateTree(root, side, y, x, red);
    assert root.View().mem[y] == Cell(y.left, y.right, y.parent, y.red);
    AugmentRotate(root, y, x);
  }

  /** The same, from a memory that holds the tree. */
  method RotateInPlace(root: RbRoot, side: Side, y: RbNode, x: RbNode, red: bool)
    requires Rotatable(root.View(), root.Augs(), side, y, x, true, red)
    modifies root`rbNode, root.nodes
    ensures y in old(root.Augs()) && root.View() == Rotated(old(root.View()), side, y, x, true, red) && y in root.View().mem
    ensures root.Augs() == AugRotated(root.View().mem, old(root.Augs()), y, x)
  {
    ghost var v := root.View();
    assert y in v.mem && x in v.mem;
    assert v.mem[y] == Cell(y.left, y.right, y.parent, y.red) && v.mem[x] == Cell(x.left, x.right, x.parent, x.red);
    hide Rotated, AugRotated, Rotatable;
    RotateAndAugment(root, side, y, x, red, v);
  }

  /** What case 3 finds: a memory in which a rotation has the same effect as in v, which holds the tree. */
  ghost predicate OuterReady(root: RbRoot, s: Side, gparent: RbNode, parent: RbNode, v: State, ctx: Context, t: Tree)
    reads root, root.nodes, parent, gparent
  {
    && Intact(v, root.Augs(), ctx, t) && Inserting(ctx, t) && |ctx| > 1 && ctx[0].red && !ctx[1].red && !IsRed(ctx[1].sibling)
    && ctx[0].side == s && ctx[1].side == s && parent == ctx[0].node && gparent == ctx[1].node
    && Rotated(root.View(), s, gparent, parent, true, true) == Rotated(v, s, gparent, parent, true, true)
    && root.nodes == v.mem.Keys && gparent in v.mem && parent in v.mem && gparent in root.nodes
    && gparent.parent == v.mem[gparent].parent && root.Child(parent, Other(s)) == KidOf(v.mem[parent], Other(s))
  }

  /** Case 3: the rotation at the grandparent. */
  method RotateOuter(root: RbRoot, s: Side, gparent: RbNode, parent: RbNode, ghost v: State, ghost ctx: Context, ghost t: Tree)
    requires OuterReady(root, s, gparent, parent, v, ctx, t)
    modifies root`rbNode, root.nodes
    ensures Whole(root, ctx[2..], Balanced(ctx, t)) && InOrder(Zip(ctx[2..], Balanced(ctx, t))) == InOrder(Zip(ctx, t))
  {
    TwoUp(v, root.Augs(), ctx, t);
    Case3Shape(ctx, t);
    assert !IsRed(ctx[0].sibling);
    hide Rotated, Rotatable, Intact, AugRotated, KidOf, Make, TreeRotated, Zip, InOrder, Inserting;
    RotationPossible(v, root.Augs(), ctx[2..], s, t, parent, true, ctx[0].sibling, gparent, false, ctx[1].sibling, true, true);
    RotateAndAugment(root, s, gparent, parent, true, v);
  }

  lemma UncleFacts(st: State, a: map<RbNode, int>, ctx: Context, t: Tree)
    requires Intact(st, a, ctx, t) && |ctx| > 1 && t.Node?
    ensures ctx[0].node in st.mem && ctx[1].node in st.mem && t.node in st.mem
    ensures st.mem[t.node].parent == ctx[0].node && st.mem[ctx[0].node].parent == ctx[1].node && st.mem[ctx[1].node].parent == Above(ctx[2..])
    ensures st.mem[ctx[1].node].right == ctx[0].node <==> ctx[1].side == Right
    ensures KidOf(st.mem[ctx[1].node], Other(ctx[1].side)) == Top(ctx[1].sibling)
    ensures ctx[1].sibling.Node? ==> Top(ctx[1].sibling) in st.mem && st.mem[Top(ctx[1].sibling)].red == IsRed(ctx[1].sibling)
    ensures KidOf(st.mem[ctx[0].node], Other(ctx[1].side)) == t.node <==> ctx[0].side == Other(ctx[1].side)
    ensures ctx[1].node != ctx[0].node && ctx[1].node != Top(ctx[1].sibling)
    ensures Top(Flipped(ctx, t)) == ctx[1].node
  {
    UncleApart(st, ctx, t);
    hide Intact;
    IntactUp(st, a, ctx, t);
    Read(st, a, ctx, t);
    Read(st, a, ctx[1..], Plug(ctx[0], t));
    assert ctx[1..][0] == ctx[1] && ctx[1..][1..] == ctx[2..] && Top(Plug(ctx[0], t)) == ctx[0].node;
  }

  lemma UncleApart(st: State, ctx: Context, t: Tree)
    requires Holds(st, ctx, t) && |ctx| > 1 && t.Node?
    ensures ctx[1].node != ctx[0].node && ctx[1].node != Top(ctx[1].sibling)
  {
    assert ctx[1..][0] == ctx[1];
    assert RepCtx(st.mem, ctx[1..], ctx[0].node, st.root) && ctx[0].node !in CtxNodes(ctx[1..]);
  }

  /** Cases 2 and 3: the uncle is black. */
  method FinishInsert(root: RbRoot, s: Side, n: RbNode, parent0: RbNode, gparent: RbNode, ghost ctx: Context, ghost t: Tree)
    returns (ghost tree: Tree)
    requires Whole(root, ctx, t) && Inserting(ctx, t) && |ctx| > 1 && ctx[0].red && !ctx[1].red && !IsRed(ctx[1].sibling)
    requires ctx[1].side == s && n == t.node && parent0 == ctx[0].node && gparent == ctx[1].node
    modifies root`rbNode, root.nodes
    ensures Whole(root, [], tree) && RedBlack(tree) && InOrder(tree) == InOrder(Zip(ctx, t))
  {
    ghost var st, a := root.View(), root.Augs();
    UncleFacts(st, a, ctx, t);
    assert root.View().mem[parent0] == Cell(parent0.left, parent0.right, parent0.parent, parent0.red);
    assert root.View().mem[gparent] == Cell(gparent.left, gparent.right, gparent.parent, gparent.red);
    if root.Child(parent0, Other(s)) == n {
      tree := FinishInner(root, s, n, parent0, gparent, ctx, t);
    } else {
      hide Intact, Inserting, Rotated, Zip, InOrder, RedBlack, KidOf, Balanced;
      SideFlips(ctx[0].side, s);
      RotateOuter(root, s, gparent, parent0, st, ctx, t);
      Case3(ctx, t);
      tree := Zip(ctx[2..], Balanced(ctx, t));
      Zipped(root.View(), root.Augs(), ctx[2..], Balanced(ctx, t));
    }
  }

  lemma SideFlips(a: Side, b: Side)
    ensures a != Other(b) ==> a == b
  {}

  lemma Zipped(st: State, a: map<RbNode, int>, ctx: Context, t: Tree)
    requires Intact(st, a, ctx, t)
    ensures Intact(st, a, [], Zip(ctx, t))
  {
    HoldsZip(st, ctx, t);
  }

  /** Case 2, then case 3. */
  method FinishInner(root: RbRoot, s: Side, n: RbNode, parent: RbNode, gparent: RbNode, ghost ctx: Context, ghost t: Tree)
    returns (ghost tree: Tree)
    requires Whole(root, ctx, t) && Inserting(ctx, t) && |ctx| > 1 && ctx[0].red && !ctx[1].red && !IsRed(ctx[1].sibling)
    requires ctx[1].side == s && n == t.node && parent == ctx[0].node && gparent == ctx[1].node && ctx[0].side == Other(s)
    modifies root`rbNode, root.nodes
    ensures Whole(root, [], tree) && RedBlack(tree) && InOrder(tree) == InOrder(Zip(ctx, t))
  {
    assert t.Node?;
    hide Intact, Inserting, Rotated, Zip, InOrder, RedBlack, TurnedCtx, TurnedFocus, Balanced;
    ghost var v := InnerToOuter(root, s, n, parent, gparent, ctx, t);
    ghost var ctx1, t1 := TurnedCtx(ctx, t), TurnedFocus(ctx, t);
    Case3(ctx1, t1);
    RotateOuter(root, s, gparent, n, v, ctx1, t1);
    tree := Zip(ctx1[2..], Balanced(ctx1, t1));
    Zipped(root.View(), root.Augs(), ctx1[2..], Balanced(ctx1, t1));
  }

  /** Case 2. */
  method InnerToOuter(root: RbRoot, s: Side, n: RbNode, parent: RbNode, gparent: RbNode, ghost ctx: Context, ghost t: Tree)
    returns (ghost v: State)
    requires Whole(root, ctx, t) && Inserting(ctx, t) && |ctx| > 1 && ctx[0].red && !ctx[1].red && !IsRed(ctx[1].sibling)
    requires ctx[1].side == s && n == t.node && parent == ctx[0].node && gparent == ctx[1].node && ctx[0].side == Other(s)
    modifies root.nodes
    ensures OuterReady(root, s, gparent, n, v, TurnedCtx(ctx, t), TurnedFocus(ctx, t))
    ensures InOrder(Zip(TurnedCtx(ctx, t), TurnedFocus(ctx, t))) == InOrder(Zip(ctx, t))
  {
    hide Intact, Inserting, Rotated, AugRotated, KidsMoved, PutParentColor, Zip, InOrder, Turned, KidOf, TurnedCtx, TurnedFocus;
    ghost var st, a := root.View(), root.Augs();
    v := Rotated(st, Other(s), parent, n, true, true);
    TurnFacts(st, a, s, ctx, t);
    Case2(ctx, t);
    TurnReady(st, a, s, ctx, t);
    TurnInner(root, s, parent, n);
    assert root.View().mem[n] == Cell(n.left, n.right, n.parent, n.red);
    assert root.View().mem[gparent] == Cell(gparent.left, gparent.right, gparent.parent, gparent.red);
    TurnedSame(st, a, s, parent, n);
    ChildIs(root, n, Other(s));
  }

  lemma TurnedSame(st: State, a: map<RbNode, int>, s: Side, p: RbNode, n: RbNode)
    requires Turned(st, a, s, p, n)
    ensures var st1, v1 := PutParentColor(KidsMoved(st, Other(s), p, n, true), p, n, true), Rotated(st, Other(s), p, n, true, true);
      p in st1.mem && p in v1.mem && p in a && AugRotated(st1.mem, a, p, n) == AugRotated(v1.mem, a, p, n)
  {}

  lemma ChildIs(root: RbRoot, n: RbNode, side: Side)
    requires n in root.nodes
    ensures n in root.View().mem && root.Child(n, side) == KidOf(root.View().mem[n], side)
  {}

  lemma TurnReady(st: State, a: map<RbNode, int>, s: Side, ctx: Context, t: Tree)
    requires Intact(st, a, ctx, t) && Inserting(ctx, t) && |ctx| > 1 && ctx[0].red && !ctx[1].red && !IsRed(ctx[1].sibling)
    requires ctx[0].side == Other(s) && ctx[1].side == s
    ensures var p, n, g := ctx[0].node, t.node, ctx[1].node;
      var st1, v1 := PutParentColor(KidsMoved(st, Other(s), p, n, true), p, n, true), Rotated(st, Other(s), p, n, true, true);
      && Rotated(st1, s, g, n, true, true) == Rotated(v1, s, g, n, true, true)
      && n in st1.mem && g in st1.mem && n in v1.mem && g in v1.mem && v1.mem.Keys == st.mem.Keys
      && st1.mem[g].parent == v1.mem[g].parent && KidOf(st1.mem[n], Other(s)) == KidOf(v1.mem[n], Other(s))
    ensures var ctx1 := TurnedCtx(ctx, t);
      && |ctx1| > 1 && ctx1[0].red && !ctx1[1].red && !IsRed(ctx1[1].sibling)
      && ctx1[0].side == s && ctx1[1].side == s && ctx1[0].node == t.node && ctx1[1].node == ctx[1].node
  {
    TurnCells(st, a, s, ctx, t);
    hide Intact, Rotated, KidsMoved, PutParentColor;
    TurnedThenRotated(st, s, ctx[0].node, t.node, ctx[1].node);
    RotatedSameKeys(st, Other(s), ctx[0].node, t.node, ctx[1].node);
  }

  /** Case 1: the writes. */
  method FlipColors(root: RbRoot, uncle: RbNode, parent: RbNode, gparent: RbNode, ghost ctx: Context, ghost t: Tree)
    requires Whole(root, ctx, t) && |ctx| > 1 && ctx[1].sibling.Node?
    requires uncle == ctx[1].sibling.node && parent == ctx[0].node && gparent == ctx[1].node
    requires uncle in root.nodes && parent in root.nodes && gparent in root.nodes
    requires gparent != uncle && gparent != parent && gparent.parent == Above(ctx[2..])
    modifies root.nodes
    ensures Whole(root, ctx[2..], Flipped(ctx, t)) && gparent.parent == Above(ctx[2..])
  {
    ghost var a := root.Augs();
    FlipIntact(root.View(), a, ctx, t);
    hide Intact, PutParentColor, Flipped;
    WriteFlip(root, uncle, parent, gparent, Above(ctx[2..]));
  }

  method WriteFlip(root: RbRoot, uncle: RbNode, parent: RbNode, gparent: RbNode, ghost top: RbNode?)
    requires uncle in root.nodes && parent in root.nodes && gparent in root.nodes
    requires gparent != uncle && gparent != parent && gparent.parent == top
    modifies root.nodes`parent, root.nodes`red
    ensures root.View() == FlippedState(old(root.View()), uncle, parent, gparent, top) && gparent.parent == top
    ensures root.Augs() == old(root.Augs())
  {
    hide PutParentColor;
    root.SetParentColor(uncle, gparent, false);
    root.SetParentColor(parent, gparent, false);
    var p := gparent.parent;
    root.SetParentColor(gparent, p, true);
  }

  lemma InsertRead(st: State, a: map<RbNode, int>, ctx: Context, t: Tree)
    requires Intact(st, a, ctx, t) && Inserting(ctx, t)
    ensures t.Node? && t.node in st.mem && st.mem[t.node].parent == Above(ctx)
    ensures ctx != [] ==> ctx[0].node in st.mem && st.mem[ctx[0].node].red == ctx[0].red && st.mem[ctx[0].node].parent == Above(ctx[1..])
  {
    Read(st, a, ctx, t);
  }

  /** The focus is the root. */
  method PaintRoot(root: RbRoot, n: RbNode, ghost ctx: Context, ghost t: Tree) returns (ghost tree: Tree)
    requires Whole(root, ctx, t) && Inserting(ctx, t) && ctx == [] && n == t.node && n in root.nodes
    modifies root.nodes
    ensures Whole(root, [], tree) && RedBlack(tree) && InOrder(tree) == InOrder(Zip(ctx, t))
  {
    PaintIntact(root.View(), root.Augs(), [], t, false);
    RootInserted(t);
    hide Intact, RedBlack, InOrder;
    tree := Painted(t, false);
    root.SetParentColor(n, null, false);
  }

  /** __rb_insert: restores the red-black properties after a red node was linked in. */
  method InsertColor(root: RbRoot, node: RbNode, ghost ctx0: Context, ghost t0: Tree) returns (ghost tree: Tree)
    requires Whole(root, ctx0, t0) && Inserting(ctx0, t0) && node == t0.node
    modifies root`rbNode, root.nodes
    ensures Whole(root, [], tree) && RedBlack(tree) && InOrder(tree) == InOrder(Zip(ctx0, t0))
  {
    hide Intact, Inserting, Zip, InOrder, RedBlack, Flipped;
    ghost var ctx, t := ctx0, t0;
    InsertRead(root.View(), root.Augs(), ctx, t);
    var n, parent := node, node.parent;
    while true
      invariant Whole(root, ctx, t) && Inserting(ctx, t) && t.Node? && n == t.node && parent == Above(ctx)
      invariant InOrder(Zip(ctx, t)) == InOrder(Zip(ctx0, t0))
      decreases |ctx|
    {
      InsertRead(root.View(), root.Augs(), ctx, t);
      if parent == null {
        tree := PaintRoot(root, n, ctx, t);
        return;
      }
      if !parent.red {
        BlackParent(ctx, t);
        tree := Zip(ctx, t);
        Zipped(root.View(), root.Augs(), ctx, t);
        return;
      }
      Grandparent(ctx, t);
      UncleFacts(root.View(), root.Augs(), ctx, t);
      var gparent := parent.parent;
      assert root.View().mem[gparent] == Cell(gparent.left, gparent.right, gparent.parent, gparent.red);
      var s := if parent != gparent.right then Left else Right;
      var tmp := root.Child(gparent, Other(s));
      if tmp == null || !tmp.red {
        tree := FinishInsert(root, s, n, parent, gparent, ctx, t);
        return;
      }
      Case1(ctx, t);
      FlipColors(root, tmp, parent, gparent, ctx, t);
      n, parent := gparent, gparent.parent;
      ctx, t := ctx[2..], Flipped(ctx, t);
    }
  }
}
