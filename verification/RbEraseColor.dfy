/** Rebalancing after a removal (rbtree.c: ____rb_erase_color), in memory. */
module RbEraseColor {
  import opened Sides
  import opened RbTree
  import opened RbMemory
  import opened RbRotate
  import opened RbAugment
  import I = RbInsert
  import opened RbErase

  // ---------- case 1 ----------

  lemma LowerFacts(st: State, a: map<RbNode, int>, ctx: Context, t: Tree)
    requires Intact(st, a, ctx, t) && Erasing(ctx, t) && IsRed(ctx[0].sibling)
    ensures var c := ctx[0]; var o, p, s := Other(c.side), c.node, c.sibling.node; var st' := Rotated(st, o, p, s, true, true);
      && I.Rotatable(st, a, o, p, s, true, true) && p in a && p in st'.mem
      && Intact(st', AugRotated(st'.mem, a, p, s), Lowered(ctx), t) && InOrder(Zip(Lowered(ctx), t)) == InOrder(Zip(ctx, t))
  {
    var c := ctx[0];
    var o, p, s := Other(c.side), c.node, c.sibling.node;
    SiblingShape(c, t);
    Case1Shape(ctx, t);
    Case1(ctx, t);
    IntactUp(st, a, ctx, t);
    assert !IsRed(Kid(c.sibling, c.side));
    hide Erasing, Intact, Rotated, AugRotated, Make, TreeRotated, InOrder, Lowered, I.Rotatable, Zip, Plug;
    I.RotationPossible(st, a, ctx[1..], o, Kid(c.sibling, o), s, true, Kid(c.sibling, c.side), p, false, t, true, true);
    var st' := Rotated(st, o, p, s, true, true);
    I.TwoUp(st', AugRotated(st'.mem, a, p, s), Lowered(ctx), t);
    ZipUp(ctx, t);
  }

  lemma ZipUp(ctx: Context, t: Tree)
    requires ctx != []
    ensures Zip(ctx, t) == Zip(ctx[1..], Plug(ctx[0], t))
  {}

  /** Case 1: the rotation at the parent. */
  method LowerFocus(root: RbRoot, d: Side, parent: RbNode, sibling: RbNode, ghost ctx: Context, ghost t: Tree)
    requires I.Whole(root, ctx, t) && Erasing(ctx, t) && IsRed(ctx[0].sibling)
    requires parent == ctx[0].node && sibling == ctx[0].sibling.node && d == ctx[0].side
    modifies root`rbNode, root.nodes
    ensures I.Whole(root, Lowered(ctx), t) && InOrder(Zip(Lowered(ctx), t)) == InOrder(Zip(ctx, t))
  {
    ghost var st, a := root.View(), root.Augs();
    LowerFacts(st, a, ctx, t);
    hide Erasing, Intact, Rotated, AugRotated, I.Rotatable, Lowered, InOrder, Zip;
    I.RotateInPlace(root, Other(d), parent, sibling, true);
  }

  lemma SiblingSide(st: State, a: map<RbNode, int>, ctx: Context, t: Tree)
    requires Intact(st, a, ctx, t) && ctx != [] && ctx[0].sibling.Node?
    ensures ctx[0].node in st.mem && (st.mem[ctx[0].node].right == ctx[0].sibling.node <==> ctx[0].side == Left)
    ensures st.mem[ctx[0].node].right == Top(t) <==> ctx[0].side == Right
  {
    Read(st, a, ctx, t);
  }

  // ---------- case 2 ----------

  function RedSibling(ctx: Context): Context
    requires ctx != []
  {
    [ctx[0].(sibling := Painted(ctx[0].sibling, true))] + ctx[1..]
  }

  lemma PaintSibling(st: State, a: map<RbNode, int>, ctx: Context, t: Tree)
    requires Intact(st, a, ctx, t) && ctx != [] && ctx[0].sibling.Node?
    ensures ctx[0].sibling.node in st.mem
    ensures Intact(PutParentColor(st, ctx[0].sibling.node, ctx[0].node, true), a, RedSibling(ctx), t)
    ensures InOrder(Zip(RedSibling(ctx), t)) == InOrder(Zip(ctx, t))
  {
    var c := ctx[0];
    var cs := [Crumb(Other(c.side), c.node, c.red, t)] + ctx[1..];
    Across(ctx, t);
    Across(RedSibling(ctx), t);
    assert cs[1..] == ctx[1..] && RedSibling(ctx)[1..] == ctx[1..];
    hide Intact, InOrder, Zip;
    AcrossIntact(st, a, ctx, t);
    PaintIntact(st, a, cs, c.sibling, true);
    var st' := PutParentColor(st, c.sibling.node, c.node, true);
    AcrossIntact(st', a, RedSibling(ctx), t);
  }

  /** The focus and its sibling are even now; the parent becomes the focus, black. */
  lemma EvenFacts(st: State, a: map<RbNode, int>, ctx: Context, t: Tree)
    requires Intact(st, a, ctx, t) && ctx != [] && ctx[0].sibling.Node?
    ensures var st1 := PutParentColor(st, ctx[0].sibling.node, ctx[0].node, true);
      && ctx[0].sibling.node in st.mem && ctx[0].node in st.mem && ctx[0].node in st1.mem
      && st1.mem[ctx[0].node].parent == Above(ctx[1..])
      && (!ctx[0].red ==> Intact(st1, a, ctx[1..], Evened(ctx, t)))
      && Intact(PutParentColor(st1, ctx[0].node, Above(ctx[1..]), false), a, ctx[1..], Evened(ctx, t))
    ensures InOrder(Zip(ctx[1..], Evened(ctx, t))) == InOrder(Zip(ctx, t))
  {
    PaintSibling(st, a, ctx, t);
    var st1, red := PutParentColor(st, ctx[0].sibling.node, ctx[0].node, true), RedSibling(ctx);
    assert red[1..] == ctx[1..] && red[0] == ctx[0].(sibling := Painted(ctx[0].sibling, true));
    Read(st, a, ctx, t);
    ZipUp(red, t);
    hide Intact, InOrder, Zip;
    IntactUp(st1, a, red, t);
    PaintIntact(st1, a, ctx[1..], Plug(red[0], t), false);
    assert Painted(Plug(red[0], t), false) == Evened(ctx, t);
  }

  /** Case 2: the colour flip; the focus moves up if that is not the end. */
  method FlipSibling(root: RbRoot, parent: RbNode, sibling: RbNode, ghost ctx: Context, ghost t: Tree)
    requires I.Whole(root, ctx, t) && ctx != [] && ctx[0].sibling.Node?
    requires parent == ctx[0].node && sibling == ctx[0].sibling.node && sibling in root.nodes && parent in root.nodes && parent != sibling
    modifies root.nodes
    ensures I.Whole(root, ctx[1..], Evened(ctx, t)) && InOrder(Zip(ctx[1..], Evened(ctx, t))) == InOrder(Zip(ctx, t))
    ensures parent.parent == Above(ctx[1..])
  {
    ghost var st, a := root.View(), root.Augs();
    EvenFacts(st, a, ctx, t);
    Read(st, a, ctx, t);
    assert st.mem[parent] == Cell(parent.left, parent.right, parent.parent, parent.red);
    hide Intact, InOrder, Zip, PutParentColor, Evened;
    WriteEven(root, parent, sibling);
  }

  method WriteEven(root: RbRoot, parent: RbNode, sibling: RbNode)
    requires sibling in root.nodes && parent in root.nodes && parent != sibling
    modifies root.nodes`parent, root.nodes`red
    ensures root.Augs() == old(root.Augs()) && parent.parent == old(parent.parent)
    ensures var st1 := PutParentColor(old(root.View()), sibling, parent, true);
      root.View() == if old(parent.red) then PutParentColor(st1, parent, old(parent.parent), false) else st1
  {
    hide PutParentColor;
    root.SetParentColor(sibling, parent, true);
    if parent.red {
      root.SetParentColor(parent, parent.parent, false);
    }
  }

  // ---------- case 3 ----------

  /** The writes of case 3. */
  function TurnedState(st: State, d: Side, p: RbNode, s: RbNode, sl: RbNode): State {
    PutKid(KidsMoved(st, d, s, sl, true), p, Other(d), sl)
  }

  /** The memory after the whole rotation that case 3 is the first part of. */
  function TurnedWhole(st: State, d: Side, s: RbNode, sl: RbNode): State {
    Rotated(st, d, s, sl, true, true)
  }

  /** Case 4 as one function: the far nephew is painted, then the rotation at the parent. */
  function FinalState(st: State, o: Side, p: RbNode, s: RbNode, far: RbNode): State {
    Rotated(PutParentColor(st, far, s, false), o, p, s, false, false)
  }

  lemma TurnedThenFinal(st: State, d: Side, p: RbNode, s: RbNode, sl: RbNode, tmp: RbNode?)
    requires p in st.mem && s in st.mem && sl in st.mem && p != s && p != sl && s != sl
    requires tmp == KidOf(st.mem[sl], Other(d)) && (tmp != null ==> tmp in st.mem && !st.mem[tmp].red && tmp != p && tmp != s && tmp != sl)
    requires st.mem[s].parent == p && KidOf(st.mem[p], Other(d)) == s && KidOf(st.mem[p], d) != s
    requires KidOf(st.mem[sl], d) != p && KidOf(st.mem[sl], d) != sl
    ensures FinalState(TurnedState(st, d, p, s, sl), Other(d), p, sl, s) == FinalState(TurnedWhole(st, d, s, sl), Other(d), p, sl, s)
  {
    var st2, o := KidsMoved(st, d, s, sl, true), Other(d);
    KidsMovedCells(st, d, s, sl, tmp, true);
    assert st2.mem[p] == st.mem[p];
    hide KidsMoved;
    I.WholeRotation(st2, o, s, sl, p);
    var a, c := PutParentColor(PutKid(st2, p, o, sl), s, sl, false), st2.mem[s].red;
    PaintLater(st2, o, p, s, sl, c);
    hide Rotated;
    I.Overwritten(a, o, p, sl, p, c, sl, false, false);
  }

  lemma PaintLater(st2: State, o: Side, p: RbNode, s: RbNode, sl: RbNode, c: bool)
    requires p in st2.mem && s in st2.mem && sl in st2.mem && p != s && p != sl && s != sl
    ensures var a := PutParentColor(PutKid(st2, p, o, sl), s, sl, false);
      PutParentColor(PutKid(PutParentColor(PutParentColor(st2, s, sl, true), sl, p, c), p, o, sl), s, sl, false)
      == PutKid(PutParentColor(a, sl, p, c), p, o, sl)
  {
    var m := st2.mem;
    var x, y, z := WithKid(m[p], o, sl), m[s].(parent := sl, red := false), m[sl].(parent := p, red := c);
    assert WithKid(x, o, sl) == x;
    assert m[s := m[s].(parent := sl, red := true)][sl := z][p := x][s := y] == m[p := x][s := y][sl := z][p := x];
  }

  /** The tree part of case 3. */
  lemma TurnedTree(st: State, a: map<RbNode, int>, ctx: Context, t: Tree)
    requires Intact(st, a, ctx, t) && Erasing(ctx, t) && ctx[0].sibling.Node? && IsRed(Kid(ctx[0].sibling, ctx[0].side))
    ensures var c := ctx[0]; var d, s, sl := c.side, c.sibling.node, Kid(c.sibling, c.side).node; var v := TurnedWhole(st, d, s, sl);
      && I.Rotatable(st, a, d, s, sl, true, true) && s in a && s in v.mem
      && Intact(v, AugRotated(v.mem, a, s, sl), TurnedSibling(ctx), t)
    ensures InOrder(Zip(TurnedSibling(ctx), t)) == InOrder(Zip(ctx, t))
  {
    var c := ctx[0];
    var d, o, s, sl := c.side, Other(c.side), c.sibling.node, Kid(c.sibling, c.side);
    var cs := [Crumb(o, c.node, c.red, t)] + ctx[1..];
    Case3Shape(ctx, t);
    Across(ctx, t);
    Across(TurnedSibling(ctx), t);
    assert cs[1..] == ctx[1..] && TurnedSibling(ctx)[1..] == ctx[1..];
    assert NoRed(c.sibling) && NoRed(sl) && !IsRed(Kid(sl, o));
    hide Erasing, Intact, Rotated, AugRotated, Make, TreeRotated, InOrder, I.Rotatable, Zip, Plug;
    AcrossIntact(st, a, ctx, t);
    I.RotationPossible(st, a, cs, d, Kid(sl, d), sl.node, true, Kid(sl, o), s, c.sibling.red, Kid(c.sibling, o), true, true);
    var v := TurnedWhole(st, d, s, sl.node);
    AcrossIntact(v, AugRotated(v.mem, a, s, sl.node), TurnedSibling(ctx), t);
  }

  /** The cells that case 3 looks at. */
  lemma TurnedCells(st: State, a: map<RbNode, int>, ctx: Context, t: Tree)
    requires Intact(st, a, ctx, t) && Erasing(ctx, t) && ctx[0].sibling.Node? && IsRed(Kid(ctx[0].sibling, ctx[0].side))
    ensures var c := ctx[0]; var d, p, s, sl := c.side, c.node, c.sibling.node, Kid(c.sibling, c.side).node;
      && p in st.mem && s in st.mem && sl in st.mem && p != s && p != sl && s != sl
      && var tmp := KidOf(st.mem[sl], Other(d));
      && (tmp != null ==> tmp in st.mem && !st.mem[tmp].red && tmp != p && tmp != s && tmp != sl)
      && st.mem[s].parent == p && KidOf(st.mem[p], Other(d)) == s && KidOf(st.mem[p], d) != s
      && KidOf(st.mem[s], d) == sl && KidOf(st.mem[sl], d) != p && KidOf(st.mem[sl], d) != sl
      && (KidOf(st.mem[s], Other(d)) != null ==> KidOf(st.mem[s], Other(d)) in st.mem)
  {
    var c := ctx[0];
    var d, o, s, sl := c.side, Other(c.side), c.sibling.node, Kid(c.sibling, c.side);
    var cs := [Crumb(o, c.node, c.red, t)] + ctx[1..];
    Case3Shape(ctx, t);
    assert cs[1..] == ctx[1..] && cs[0] == Crumb(o, c.node, c.red, t);
    assert NoRed(c.sibling) && NoRed(sl) && !IsRed(Kid(sl, o));
    AcrossIntact(st, a, ctx, t);
    TopIn(cs, Kid(sl, d));
    RepInKid(st, a, ctx, t, o);
    hide Erasing, Make, Nodes, CtxNodes, Rep, RepCtx, AugOk, Zip, InOrder;
    AroundHolds(st, cs, d, Kid(sl, d), sl.node, true, Kid(sl, o), s, c.sibling.red, Kid(c.sibling, o));
    AroundTops(st, cs, d, Kid(sl, d), sl.node, true, Kid(sl, o), s, c.sibling.red, Kid(c.sibling, o));
  }

  lemma RepInKid(st: State, a: map<RbNode, int>, ctx: Context, t: Tree, o: Side)
    requires Intact(st, a, ctx, t) && ctx != [] && ctx[0].sibling.Node?
    ensures ctx[0].sibling.node in st.mem
    ensures KidOf(st.mem[ctx[0].sibling.node], o) != null ==> KidOf(st.mem[ctx[0].sibling.node], o) in st.mem
  {
    Read(st, a, ctx, t);
    I.CacheKids(st, a, ctx, t, ctx[0].sibling.node);
  }

  /** What case 3 needs of the memory. */
  ghost predicate Turnable(st: State, a: map<RbNode, int>, d: Side, p: RbNode, s: RbNode, sl: RbNode) {
    && p in st.mem && s in st.mem && sl in st.mem && p != s && p != sl && s != sl && a.Keys == st.mem.Keys
    && (KidOf(st.mem[sl], Other(d)) != null ==>
          var tmp := KidOf(st.mem[sl], Other(d));
          tmp in st.mem && !st.mem[tmp].red && tmp != p && tmp != s && tmp != sl)
    && st.mem[s].parent == p && KidOf(st.mem[p], Other(d)) == s && KidOf(st.mem[p], d) != s
    && KidOf(st.mem[s], d) == sl && KidOf(st.mem[sl], d) != p && KidOf(st.mem[sl], d) != sl
    && (KidOf(st.mem[s], Other(d)) != null ==> KidOf(st.mem[s], Other(d)) in st.mem)
  }

  /** The memory that case 3 leaves and the one after a whole rotation agree on what is read afterwards. */
  lemma TurnedAgree(st: State, a: map<RbNode, int>, d: Side, p: RbNode, s: RbNode, sl: RbNode)
    requires Turnable(st, a, d, p, s, sl)
    ensures var t, v, o := TurnedState(st, d, p, s, sl), TurnedWhole(st, d, s, sl), Other(d);
      && FinalState(t, o, p, sl, s) == FinalState(v, o, p, sl, s) && t.mem.Keys == st.mem.Keys
      && s in v.mem && p in v.mem && sl in v.mem && t.root == v.root
      && t.mem[s].left == v.mem[s].left && t.mem[s].right == v.mem[s].right
      && t.mem[p] == v.mem[p] && KidOf(t.mem[sl], d) == KidOf(v.mem[sl], d)
      && AugRotated(t.mem, a, s, sl) == AugRotated(v.mem, a, s, sl)
      && (t.mem[s].left != null ==> t.mem[s].left in st.mem) && (t.mem[s].right != null ==> t.mem[s].right in st.mem)
  {
    var tmp := KidOf(st.mem[sl], Other(d));
    TurnedThenFinal(st, d, p, s, sl, tmp);
    KidsMovedCells(st, d, s, sl, tmp, true);
    var st2, o := KidsMoved(st, d, s, sl, true), Other(d);
    assert st2.mem[p] == st.mem[p];
    hide KidsMoved, FinalState;
    I.WholeRotation(st2, o, s, sl, p);
  }

  /** Case 3: the rotation at the sibling, up to the fields that case 4 writes. */
  method TurnSibling(root: RbRoot, d: Side, parent: RbNode, sibling: RbNode, tmp2: RbNode)
    requires Turnable(root.View(), root.Augs(), d, parent, sibling, tmp2)
    modifies root.nodes
    ensures root.View() == TurnedState(old(root.View()), d, parent, sibling, tmp2)
    ensures sibling in old(root.Augs()) && sibling in root.View().mem
    ensures root.Augs() == AugRotated(root.View().mem, old(root.Augs()), sibling, tmp2)
  {
    ghost var a := root.Augs();
    TurnedAgree(root.View(), a, d, parent, sibling, tmp2);
    hide AugRotated, TurnedState, TurnedWhole, FinalState;
    assert root.View().mem[tmp2] == Cell(tmp2.left, tmp2.right, tmp2.parent, tmp2.red);
    TurnCommutes(root.View(), d, parent, sibling, tmp2, root.Child(tmp2, Other(d)));
    WriteTurn(root, d, parent, sibling, tmp2);
    assert root.View().mem[sibling] == Cell(sibling.left, sibling.right, sibling.parent, sibling.red);
    I.AugmentRotate(root, sibling, tmp2);
  }

  method WriteTurn(root: RbRoot, d: Side, parent: RbNode, sibling: RbNode, tmp2: RbNode)
    requires parent in root.nodes && sibling in root.nodes && tmp2 in root.nodes
    requires root.Child(tmp2, Other(d)) != null ==> root.Child(tmp2, Other(d)) in root.nodes
    modifies root.nodes`left, root.nodes`right, root.nodes`parent, root.nodes`red
    ensures var tmp := old(root.Child(tmp2, Other(d)));
      var st1 := PutKid(PutKid(PutKid(old(root.View()), sibling, d, tmp), tmp2, Other(d), sibling), parent, Other(d), tmp2);
      root.View() == if tmp == null then st1 else PutParentColor(st1, tmp, sibling, false)
    ensures root.Augs() == old(root.Augs())
  {
    hide PutKid, PutParentColor;
    var tmp1 := root.Child(tmp2, Other(d));
    root.SetChild(sibling, d, tmp1);
    root.SetChild(tmp2, Other(d), sibling);
    root.SetChild(parent, Other(d), tmp2);
    if tmp1 != null {
      root.SetParentColor(tmp1, sibling, false);
    }
  }

  lemma TurnCommutes(st: State, d: Side, p: RbNode, s: RbNode, sl: RbNode, tmp: RbNode?)
    requires p in st.mem && s in st.mem && sl in st.mem && tmp == KidOf(st.mem[sl], Other(d))
    requires p != s && p != sl && (tmp != null ==> tmp in st.mem && tmp != p)
    ensures var st1 := PutKid(PutKid(PutKid(st, s, d, tmp), sl, Other(d), s), p, Other(d), sl);
      TurnedState(st, d, p, s, sl) == if tmp == null then st1 else PutParentColor(st1, tmp, s, false)
  {
    var x := PutKid(PutKid(st, s, d, tmp), sl, Other(d), s);
    if tmp != null {
      assert PutParentColor(PutKid(x, p, Other(d), sl), tmp, s, false) == PutKid(PutParentColor(x, tmp, s, false), p, Other(d), sl);
    }
  }

  // ---------- case 4 ----------

  lemma RaiseTree(v: State, a: map<RbNode, int>, ctx: Context, t: Tree)
    requires Intact(v, a, ctx, t) && FarRed(ctx, t)
    ensures var c := ctx[0]; var o, p, s, far := Other(c.side), c.node, c.sibling.node, Kid(c.sibling, Other(c.side)).node;
      var v1, v' := PutParentColor(v, far, s, false), FinalState(v, o, p, s, far);
      && far in v.mem && I.Rotatable(v1, a, o, p, s, false, false) && p in a && p in v'.mem
      && Intact(v', AugRotated(v'.mem, a, p, s), ctx[1..], Raised(ctx, t))
    ensures InOrder(Zip(ctx[1..], Raised(ctx, t))) == InOrder(Zip(ctx, t))
  {
    var c := ctx[0];
    var o, p, s, far := Other(c.side), c.node, c.sibling, Kid(c.sibling, Other(c.side));
    var cs := [Crumb(o, p, c.red, t)] + ctx[1..];
    var cf := [Crumb(o, s.node, s.red, Kid(s, c.side))] + cs;
    Across(ctx, t);
    assert cs[1..] == ctx[1..] && cf[1..] == cs && cs[0] == Crumb(o, p, c.red, t) && cf[0] == Crumb(o, s.node, s.red, Kid(s, c.side));
    assert Plug(cf[0], far) == s;
    ZipUp(cf, far);
    ZipUp(cf, Painted(far, false));
    ZipUp(cs, Plug(cf[0], Painted(far, false)));
    hide FarRed, Intact, Rotated, AugRotated, InOrder, I.Rotatable, Zip;
    AcrossIntact(v, a, ctx, t);
    IntactUp(v, a, cf, far);
    PaintIntact(v, a, cf, far, false);
    var v1 := PutParentColor(v, far.node, s.node, false);
    IntactUp(v1, a, cf, Painted(far, false));
    IntactUp(v1, a, cs, Plug(cf[0], Painted(far, false)));
    I.RotationPossible(v1, a, ctx[1..], o, Painted(far, false), s.node, s.red, Kid(s, c.side), p, c.red, t, false, false);
    RaisedShape(ctx, t);
  }

  lemma RaisedShape(ctx: Context, t: Tree)
    requires FarRed(ctx, t)
    ensures var c := ctx[0]; var o, s := Other(c.side), ctx[0].sibling;
      Raised(ctx, t) == TreeRotated(o, Painted(Kid(s, o), false), s.node, c.red, Kid(s, c.side), c.node, false, t)
  {}

  /** What case 4 needs of the memory. */
  ghost predicate Raisable(st: State, a: map<RbNode, int>, d: Side, p: RbNode, s: RbNode, far: RbNode) {
    var f := FinalState(st, Other(d), p, s, far);
    && p in st.mem && s in st.mem && far in st.mem && p != s && p != far && s != far && a.Keys == st.mem.Keys
    && (KidOf(st.mem[s], d) != null ==>
          var tmp := KidOf(st.mem[s], d);
          tmp in st.mem && tmp != p && tmp != s && tmp != far)
    && (st.mem[p].parent != null ==> st.mem[p].parent in st.mem)
    && p in f.mem && (f.mem[p].left != null ==> f.mem[p].left in st.mem) && (f.mem[p].right != null ==> f.mem[p].right in st.mem)
  }

  lemma RaiseCells(v: State, a: map<RbNode, int>, ctx: Context, t: Tree)
    requires Intact(v, a, ctx, t) && FarRed(ctx, t)
    ensures Raisable(v, a, ctx[0].side, ctx[0].node, ctx[0].sibling.node, Kid(ctx[0].sibling, Other(ctx[0].side)).node)
  {
    hide Rotated, AugRotated, Make, InOrder, Zip, Nodes, CtxNodes, Rep, RepCtx, AugOk;
    var c := ctx[0];
    var d, o, p, s := c.side, Other(c.side), c.node, c.sibling;
    var far := Kid(s, o);
    RaiseTree(v, a, ctx, t);
    SiblingShape(c, t);
    TopIn(ctx[1..], far);
    TopIn(ctx[1..], Kid(s, d));
    IntactUp(v, a, ctx, t);
    AroundHolds(v, ctx[1..], o, far, s.node, s.red, Kid(s, d), p, c.red, t);
    AroundTops(v, ctx[1..], o, far, s.node, s.red, Kid(s, d), p, c.red, t);
  }

  /** Case 4: the rotation at the parent, with the colours exchanged. */
  method RaiseSibling(root: RbRoot, d: Side, parent: RbNode, sibling: RbNode, tmp1: RbNode)
    requires Raisable(root.View(), root.Augs(), d, parent, sibling, tmp1)
    modifies root`rbNode, root.nodes
    ensures root.View() == FinalState(old(root.View()), Other(d), parent, sibling, tmp1)
    ensures parent in old(root.Augs()) && parent in root.View().mem
    ensures root.Augs() == AugRotated(root.View().mem, old(root.Augs()), parent, sibling)
  {
    hide AugRotated, Raisable, FinalState;
    RaisableIs(root.View(), root.Augs(), d, parent, sibling, tmp1);
    RaiseLinks(root, d, parent, sibling, tmp1);
    assert root.View().mem[parent] == Cell(parent.left, parent.right, parent.parent, parent.red);
    I.AugmentRotate(root, parent, sibling);
  }

  /** The pointers and colours of case 4. */
  method RaiseLinks(root: RbRoot, d: Side, parent: RbNode, sibling: RbNode, tmp1: RbNode)
    requires Raisable(root.View(), root.Augs(), d, parent, sibling, tmp1)
    modifies root`rbNode, root.nodes`left, root.nodes`right, root.nodes`parent, root.nodes`red
    ensures root.View() == FinalState(old(root.View()), Other(d), parent, sibling, tmp1) && root.Augs() == old(root.Augs())
  {
    hide RotateSetParents, KidsMoved, Raisable, FinalState;
    ghost var st := root.View();
    RaisableIs(st, root.Augs(), d, parent, sibling, tmp1);
    assert st.mem[sibling] == Cell(sibling.left, sibling.right, sibling.parent, sibling.red);
    assert st.mem[parent] == Cell(parent.left, parent.right, parent.parent, parent.red);
    RaiseCommutes(st, d, parent, sibling, tmp1, root.Child(sibling, d));
    WriteRaise(root, d, parent, sibling, tmp1);
    I.RotateParents(root, parent, sibling, false);
  }

  lemma RaisableIs(st: State, a: map<RbNode, int>, d: Side, p: RbNode, s: RbNode, far: RbNode)
    requires Raisable(st, a, d, p, s, far)
    ensures p in st.mem && s in st.mem && far in st.mem && p != s && p != far && s != far && a.Keys == st.mem.Keys
    ensures var tmp := KidOf(st.mem[s], d); tmp != null ==> tmp in st.mem && tmp != p && tmp != s && tmp != far
    ensures st.mem[p].parent != null ==> st.mem[p].parent in st.mem
    ensures var f := FinalState(st, Other(d), p, s, far);
      && f == RotateSetParents(KidsMoved(PutParentColor(st, far, s, false), Other(d), p, s, false), p, s, false)
      && p in f.mem && (f.mem[p].left != null ==> f.mem[p].left in st.mem) && (f.mem[p].right != null ==> f.mem[p].right in st.mem)
  {}

  method WriteRaise(root: RbRoot, d: Side, parent: RbNode, sibling: RbNode, tmp1: RbNode)
    requires parent in root.nodes && sibling in root.nodes && tmp1 in root.nodes
    requires root.Child(sibling, d) != null ==> root.Child(sibling, d) in root.nodes && root.Child(sibling, d) != tmp1 && root.Child(sibling, d) != parent
    requires parent != tmp1
    modifies root.nodes`left, root.nodes`right, root.nodes`parent, root.nodes`red
    ensures var tmp := old(root.Child(sibling, d)); var st := old(root.View());
      var st1 := PutParentColor(PutKid(PutKid(st, parent, Other(d), tmp), sibling, d, parent), tmp1, sibling, false);
      root.View() == if tmp == null then st1 else PutParentColor(st1, tmp, parent, old(root.Child(sibling, d).red))
    ensures root.Augs() == old(root.Augs()) && parent.parent == old(parent.parent)
  {
    hide PutKid, PutParentColor;
    var tmp2 := root.Child(sibling, d);
    root.SetChild(parent, Other(d), tmp2);
    root.SetChild(sibling, d, parent);
    root.SetParentColor(tmp1, sibling, false);
    if tmp2 != null {
      root.SetParentColor(tmp2, parent, tmp2.red);
    }
  }

  lemma RaiseCommutes(st: State, d: Side, p: RbNode, s: RbNode, far: RbNode, tmp: RbNode?)
    requires p in st.mem && s in st.mem && far in st.mem && p != s && p != far && s != far && tmp == KidOf(st.mem[s], d)
    requires tmp != null ==> tmp in st.mem && tmp != p && tmp != s && tmp != far
    ensures var st1 := PutParentColor(PutKid(PutKid(st, p, Other(d), tmp), s, d, p), far, s, false);
      KidsMoved(PutParentColor(st, far, s, false), Other(d), p, s, false)
      == if tmp == null then st1 else PutParentColor(st1, tmp, p, st.mem[tmp].red)
  {
    var st0 := PutParentColor(st, far, s, false);
    assert PutKid(st0, p, Other(d), tmp) == PutParentColor(PutKid(st, p, Other(d), tmp), far, s, false);
    assert PutKid(PutKid(st0, p, Other(d), tmp), s, d, p) == PutParentColor(PutKid(PutKid(st, p, Other(d), tmp), s, d, p), far, s, false);
  }

  // ---------- the loop ----------

  /** The far nephew is red. */
  method FinishOuter(root: RbRoot, d: Side, parent: RbNode, sibling: RbNode, tmp1: RbNode, ghost ctx: Context, ghost t: Tree)
    returns (ghost tree: Tree)
    requires I.Whole(root, ctx, t) && FarRed(ctx, t) && d == ctx[0].side
    requires parent == ctx[0].node && sibling == ctx[0].sibling.node && tmp1 == Kid(ctx[0].sibling, Other(d)).node
    modifies root`rbNode, root.nodes
    ensures I.Whole(root, [], tree) && RedBlack(tree) && InOrder(tree) == InOrder(Zip(ctx, t))
  {
    ghost var st, a := root.View(), root.Augs();
    RaiseCells(st, a, ctx, t);
    RaiseTree(st, a, ctx, t);
    Case4(ctx, t);
    hide Intact, FarRed, RedBlack, InOrder, Zip, AugRotated, FinalState, Raised, I.Rotatable, Raisable;
    RaiseSibling(root, d, parent, sibling, tmp1);
    tree := Zip(ctx[1..], Raised(ctx, t));
    I.Zipped(root.View(), root.Augs(), ctx[1..], Raised(ctx, t));
  }

  /** The near nephew is red and the far one is not. */
  method FinishInner(root: RbRoot, d: Side, parent: RbNode, sibling: RbNode, tmp2: RbNode, ghost ctx: Context, ghost t: Tree)
    returns (ghost tree: Tree)
    requires I.Whole(root, ctx, t) && Erasing(ctx, t) && d == ctx[0].side && ctx[0].sibling.Node? && !IsRed(ctx[0].sibling)
    requires IsRed(Kid(ctx[0].sibling, d)) && !IsRed(Kid(ctx[0].sibling, Other(d)))
    requires parent == ctx[0].node && sibling == ctx[0].sibling.node && tmp2 == Kid(ctx[0].sibling, d).node
    modifies root`rbNode, root.nodes
    ensures I.Whole(root, [], tree) && RedBlack(tree) && InOrder(tree) == InOrder(Zip(ctx, t))
  {
    ghost var st, a := root.View(), root.Augs();
    ghost var ctx1 := TurnedSibling(ctx);
    ghost var v := TurnedWhole(st, d, sibling, tmp2);
    TurnReady(st, a, ctx, t);
    Case3(ctx, t);
    Case4(ctx1, t);
    hide Intact, FarRed, Erasing, RedBlack, InOrder, Zip, AugRotated, FinalState, Raised, I.Rotatable, Raisable, Turnable, TurnedSibling,
         TurnedState, TurnedWhole;
    TurnSibling(root, d, parent, sibling, tmp2);
    RaiseSibling(root, d, parent, tmp2, sibling);
    tree := Zip(ctx1[1..], Raised(ctx1, t));
    I.Zipped(root.View(), root.Augs(), ctx1[1..], Raised(ctx1, t));
  }

  /** Case 3 prepares case 4. */
  lemma TurnReady(st: State, a: map<RbNode, int>, ctx: Context, t: Tree)
    requires Intact(st, a, ctx, t) && Erasing(ctx, t) && ctx[0].sibling.Node? && !IsRed(ctx[0].sibling)
    requires IsRed(Kid(ctx[0].sibling, ctx[0].side)) && !IsRed(Kid(ctx[0].sibling, Other(ctx[0].side)))
    ensures var d, p, s, sl := ctx[0].side, ctx[0].node, ctx[0].sibling.node, Kid(ctx[0].sibling, ctx[0].side).node;
      var t1, v, o := TurnedState(st, d, p, s, sl), TurnedWhole(st, d, s, sl), Other(d);
      && Turnable(st, a, d, p, s, sl) && s in a && s in t1.mem && s in v.mem
      && var a1 := AugRotated(t1.mem, a, s, sl); var f := FinalState(t1, o, p, sl, s);
      && a1 == AugRotated(v.mem, a, s, sl) && Raisable(t1, a1, d, p, sl, s)
      && p in a1 && p in f.mem && Intact(f, AugRotated(f.mem, a1, p, sl), TurnedSibling(ctx)[1..], Raised(TurnedSibling(ctx), t))
    ensures InOrder(Zip(TurnedSibling(ctx)[1..], Raised(TurnedSibling(ctx), t))) == InOrder(Zip(ctx, t))
  {
    var d, p, s, sl := ctx[0].side, ctx[0].node, ctx[0].sibling.node, Kid(ctx[0].sibling, ctx[0].side).node;
    var ctx1, t1, v := TurnedSibling(ctx), TurnedState(st, d, p, s, sl), TurnedWhole(st, d, s, sl);
    I.IntactKeys(st, a, ctx, t);
    TurnedCells(st, a, ctx, t);
    TurnedTree(st, a, ctx, t);
    Case3(ctx, t);
    Case3Parts(ctx);
    hide Intact, FarRed, Erasing, InOrder, Zip, AugRotated, FinalState, Raised, I.Rotatable, Raisable, TurnedSibling, TurnedState, TurnedWhole;
    TurnedAgree(st, a, d, p, s, sl);
    var a1 := AugRotated(v.mem, a, s, sl);
    RaiseCells(v, a1, ctx1, t);
    RaiseTree(v, a1, ctx1, t);
    I.IntactKeys(v, a1, ctx1, t);
    RaisableToo(t1, v, a1, d, p, sl, s);
  }

  lemma Case3Parts(ctx: Context)
    requires ctx != [] && ctx[0].sibling.Node? && Kid(ctx[0].sibling, ctx[0].side).Node?
    ensures var c, c1 := ctx[0], TurnedSibling(ctx)[0];
      && c1.side == c.side && c1.node == c.node && c1.sibling.Node? && c1.sibling.node == Kid(c.sibling, c.side).node
      && Kid(c1.sibling, Other(c.side)).Node? && Kid(c1.sibling, Other(c.side)).node == c.sibling.node
  {}

  lemma RaisableToo(t: State, v: State, a: map<RbNode, int>, d: Side, p: RbNode, s: RbNode, far: RbNode)
    requires Raisable(v, a, d, p, s, far) && FinalState(t, Other(d), p, s, far) == FinalState(v, Other(d), p, s, far)
    requires t.mem.Keys == v.mem.Keys && t.mem[p] == v.mem[p] && KidOf(t.mem[s], d) == KidOf(v.mem[s], d)
    ensures Raisable(t, a, d, p, s, far)
  {
    hide FinalState;
  }

  /** What can be read around the focus. */
  lemma EraseRead(st: State, a: map<RbNode, int>, ctx: Context, t: Tree)
    requires Intact(st, a, ctx, t) && Erasing(ctx, t)
    ensures ctx[0].sibling.Node? && ctx[0].node in st.mem && ctx[0].sibling.node in st.mem && ctx[0].node != ctx[0].sibling.node
    ensures st.mem[ctx[0].node].right == Top(t) <==> ctx[0].side == Right
    ensures st.mem[ctx[0].node].parent == Above(ctx[1..]) && st.mem[ctx[0].node].red == ctx[0].red
    ensures KidOf(st.mem[ctx[0].node], Other(ctx[0].side)) == ctx[0].sibling.node
    ensures st.mem[ctx[0].sibling.node].red == ctx[0].sibling.red
    ensures forall side :: KidOf(st.mem[ctx[0].sibling.node], side) == Top(Kid(ctx[0].sibling, side))
    ensures forall side | Kid(ctx[0].sibling, side).Node? :: Top(Kid(ctx[0].sibling, side)) in st.mem
    ensures forall side | Kid(ctx[0].sibling, side).Node? :: st.mem[Top(Kid(ctx[0].sibling, side))].red == IsRed(Kid(ctx[0].sibling, side))
  {
    HasSibling(ctx, t);
    Read(st, a, ctx, t);
    SiblingSide(st, a, ctx, t);
    hide Erasing, AugOk, InOrder, Zip;
    assert Rep(st.mem, ctx[0].sibling, ctx[0].node);
  }

  /** Case 1, if the sibling is red. */
  method SettleSibling(root: RbRoot, d: Side, parent: RbNode, ghost ctx: Context, ghost t: Tree)
    returns (sibling: RbNode, ghost ctx': Context)
    requires I.Whole(root, ctx, t) && Erasing(ctx, t) && parent == ctx[0].node && d == ctx[0].side
    modifies root`rbNode, root.nodes
    ensures I.Whole(root, ctx', t) && Erasing(ctx', t) && InOrder(Zip(ctx', t)) == InOrder(Zip(ctx, t))
    ensures ctx' != [] && ctx'[0].side == d && ctx'[0].node == parent && !IsRed(ctx'[0].sibling) && Top(ctx'[0].sibling) == sibling
    ensures ctx' == ctx || ctx'[0].red
  {
    ghost var st, a := root.View(), root.Augs();
    EraseRead(st, a, ctx, t);
    hide Intact, InOrder, Zip;
    assert st.mem[parent] == Cell(parent.left, parent.right, parent.parent, parent.red);
    ctx' := ctx;
    sibling := root.Child(parent, Other(d));
    assert st.mem[sibling] == Cell(sibling.left, sibling.right, sibling.parent, sibling.red);
    if sibling.red {
      Case1(ctx, t);
      var tmp1 := root.Child(sibling, d);
      ctx' := Lowered(ctx);
      LowerFocus(root, d, parent, sibling, ctx, t);
      HasSibling(ctx', t);
      hide Erasing;
      sibling := tmp1;
    }
  }

  /** ____rb_erase_color: makes up for the black node missing below parent. */
  method EraseColor(root: RbRoot, parent0: RbNode, ghost ctx0: Context) returns (ghost tree: Tree)
    requires I.Whole(root, ctx0, Leaf) && Erasing(ctx0, Leaf) && ctx0 != [] && parent0 == ctx0[0].node
    modifies root`rbNode, root.nodes
    ensures I.Whole(root, [], tree) && RedBlack(tree) && InOrder(tree) == InOrder(Zip(ctx0, Leaf))
  {
    hide Intact, InOrder, Zip, RedBlack, Erasing, FarRed, Evened;
    var node: RbNode?, parent := null, parent0;
    ghost var ctx, t := ctx0, Leaf;
    while true
      invariant I.Whole(root, ctx, t) && Erasing(ctx, t) && ctx != [] && parent == ctx[0].node && node == Top(t)
      invariant InOrder(Zip(ctx, t)) == InOrder(Zip(ctx0, Leaf))
      decreases |ctx|
    {
      EraseRead(root.View(), root.Augs(), ctx, t);
      assert root.View().mem[parent] == Cell(parent.left, parent.right, parent.parent, parent.red);
      var d := if node != parent.right then Left else Right;
      ghost var ctx1: Context;
      var sibling;
      sibling, ctx1 := SettleSibling(root, d, parent, ctx, t);
      var more;
      more, tree := Resolve(root, d, parent, sibling, ctx1, t);
      if !more { return; }
      node, parent := parent, parent.parent;
      ctx, t := ctx1[1..], Evened(ctx1, t);
    }
  }

  /** Cases 2 to 4, with a black sibling; if there is more to do, the focus has moved up to the parent. */
  method Resolve(root: RbRoot, d: Side, parent: RbNode, sibling: RbNode, ghost ctx: Context, ghost t: Tree)
    returns (more: bool, ghost tree: Tree)
    requires I.Whole(root, ctx, t) && Erasing(ctx, t) && ctx != [] && d == ctx[0].side && parent == ctx[0].node
    requires !IsRed(ctx[0].sibling) && Top(ctx[0].sibling) == sibling
    modifies root`rbNode, root.nodes
    ensures !more ==> I.Whole(root, [], tree) && RedBlack(tree) && InOrder(tree) == InOrder(Zip(ctx, t))
    ensures more ==> !ctx[0].red && |ctx| > 1 && I.Whole(root, ctx[1..], Evened(ctx, t)) && Erasing(ctx[1..], Evened(ctx, t))
    ensures more ==> InOrder(Zip(ctx[1..], Evened(ctx, t))) == InOrder(Zip(ctx, t)) && parent.parent == Above(ctx[1..])
    ensures Top(Evened(ctx, t)) == parent
  {
    ghost var st := root.View();
    EraseRead(st, root.Augs(), ctx, t);
    hide Intact, InOrder, Zip, RedBlack, Erasing, FarRed;
    assert st.mem[parent] == Cell(parent.left, parent.right, parent.parent, parent.red);
    assert st.mem[sibling] == Cell(sibling.left, sibling.right, sibling.parent, sibling.red);
    var tmp1, tmp2 := root.Child(sibling, Other(d)), root.Child(sibling, d);
    more := false;
    if tmp1 != null && tmp1.red {
      Case4Applies(ctx, t);
      tree := FinishOuter(root, d, parent, sibling, tmp1, ctx, t);
    } else if tmp2 != null && tmp2.red {
      tree := FinishInner(root, d, parent, sibling, tmp2, ctx, t);
    } else {
      var wasRed := parent.red;
      KidsBlack(ctx, d);
      Case2(ctx, t);
      FlipSibling(root, parent, sibling, ctx, t);
      more := !wasRed && parent.parent != null;
      tree := Zip(ctx[1..], Evened(ctx, t));
      I.Zipped(root.View(), root.Augs(), ctx[1..], Evened(ctx, t));
      if |ctx| == 1 { ZipNothing(Evened(ctx, t)); }
    }
  }

  lemma ZipNothing(t: Tree)
    ensures Zip([], t) == t
  {}

  lemma KidsBlack(ctx: Context, d: Side)
    requires ctx != [] && ctx[0].sibling.Node? && !IsRed(Kid(ctx[0].sibling, d)) && !IsRed(Kid(ctx[0].sibling, Other(d)))
    ensures !IsRed(ctx[0].sibling.left) && !IsRed(ctx[0].sibling.right)
  {}
}
