/** avl_rotation and the two balancing loops of insertion and removal (avl.c). */
module AvlRebalance {
  import opened Sides
  import opened AvlTree
  import opened AvlMemory
  import opened AvlRotate

  ghost predicate Lies(root: AvlRoot, ctx: Context, t: Tree, rs: Side)
    reads root, root.nodes
  {
    Holds(root.View(), ctx, t, rs)
  }

  // ---------- avl_rotation ----------

  method WriteSlid(root: AvlRoot, s: Side, node: AvlNode, child: AvlNode)
    requires node in root.nodes && child in root.nodes
    requires root.Child(child, Other(s)) != null ==> root.Child(child, Other(s)) in root.nodes
    modifies root.nodes
    ensures root.View() == Slid(old(root.View()), s, node, child)
  {
    hide PutKid, PutParent;
    assert root.View().mem[child] == Cell(child.left, child.right, child.parent, child.side, child.balance);
    var cright := root.Child(child, Other(s));
    root.SetChild(node, s, cright);
    if cright != null {
      root.SetParent(cright, node, s);
    }
  }

  method WriteRaised(root: AvlRoot, s: Side, node: AvlNode, child: AvlNode, cb: int, parent: AvlNode?, which: Side)
    requires node in root.nodes && child in root.nodes && (parent != null ==> parent in root.nodes)
    modifies root`root, root.nodes
    ensures root.View() == Raised(old(root.View()), s, node, child, cb, parent, which)
  {
    hide PutKid, PutParent, PutBalance, PutLink;
    root.SetChild(child, Other(s), node);
    root.SetBalance(node, -cb);
    root.SetParent(node, child, Other(s));
    root.SetBalance(child, cb);
    root.SetParent(child, parent, which);
    root.SetLink(parent, which, child);
  }

  method WriteParted(root: AvlRoot, s: Side, node: AvlNode, child: AvlNode, gchild: AvlNode)
    requires node in root.nodes && child in root.nodes && gchild in root.nodes
    requires root.Child(gchild, s) != null ==> root.Child(gchild, s) in root.nodes
    requires root.Child(gchild, Other(s)) != null ==> root.Child(gchild, Other(s)) in root.nodes
    modifies root.nodes
    ensures root.View() == Parted(old(root.View()), s, node, child, gchild)
  {
    hide PutKid, PutParent;
    assert root.View().mem[gchild] == Cell(gchild.left, gchild.right, gchild.parent, gchild.side, gchild.balance);
    var gleft, gright := root.Child(gchild, s), root.Child(gchild, Other(s));
    root.SetChild(node, s, gright);
    if gright != null {
      root.SetParent(gright, node, s);
    }
    root.SetChild(child, Other(s), gleft);
    if gleft != null {
      root.SetParent(gleft, child, Other(s));
    }
  }

  method WriteCrowned(root: AvlRoot, s: Side, node: AvlNode, child: AvlNode, gchild: AvlNode, xb: int, nb: int, parent: AvlNode?, which: Side)
    requires node in root.nodes && child in root.nodes && gchild in root.nodes && (parent != null ==> parent in root.nodes)
    modifies root`root, root.nodes
    ensures root.View() == Crowned(old(root.View()), s, node, child, gchild, xb, nb, parent, which)
  {
    hide PutKid, PutParent, PutBalance, PutLink;
    root.SetChild(gchild, s, child);
    root.SetBalance(child, xb);
    root.SetParent(child, gchild, s);
    root.SetChild(gchild, Other(s), node);
    root.SetBalance(node, nb);
    root.SetParent(node, gchild, Other(s));
    root.SetBalance(gchild, 0);
    root.SetParent(gchild, parent, which);
    root.SetLink(parent, which, gchild);
  }

  /** What a rotation at the focus finds in memory. */
  lemma RotationCells(st: State, ctx: Context, s: Side, x: Tree, n: AvlNode, nb: int, c: Tree, rs: Side)
    requires Holds(st, ctx, Make(s, x, n, nb, c), rs) && x.Node? && (x.balance == -Sign(s) ==> Kid(x, Other(s)).Node?)
    ensures n in st.mem && x.node in st.mem && (ctx != [] ==> Above(ctx) in st.mem)
    ensures KidOf(st.mem[n], s) == x.node && st.mem[n].parent == Above(ctx) && st.mem[n].side == SideOf(ctx, rs)
    ensures st.mem[x.node].balance == x.balance && KidOf(st.mem[x.node], Other(s)) == Top(Kid(x, Other(s)))
    ensures Kid(x, Other(s)).Node? ==> var g := Kid(x, Other(s)); g.node in st.mem && st.mem[g.node].balance == g.balance
    ensures Kid(x, Other(s)).Node? ==> var g := Kid(x, Other(s));
      forall side :: KidOf(st.mem[g.node], side) == Top(Kid(g, side)) && (Kid(g, side).Node? ==> Kid(g, side).node in st.mem)
  {
    var t := Make(s, x, n, nb, c);
    ReadFocus(st, ctx, t, rs);
    if ctx != [] { ReadParent(st, ctx, t, rs); }
    var cx := [Crumb(s, n, nb, c)] + ctx;
    assert cx[1..] == ctx && Plug(cx[0], x) == t;
    HoldsUp(st, cx, x, rs);
    hide Holds;
    ReadFocus(st, cx, x, rs);
    var g, o := Kid(x, Other(s)), Other(s);
    if g.Node? {
      var cg := [Crumb(o, x.node, x.balance, Kid(x, s))] + cx;
      assert cg[1..] == cx && Plug(cg[0], g) == x;
      HoldsUp(st, cg, g, rs);
      ReadFocus(st, cg, g, rs);
    }
  }

  /**
   avl_rotation: balances the subtree at the focus, whose side s is two too high, and tells whether it
   got shorter.
   */
  method Rotation(root: AvlRoot, node: AvlNode, balance: int, ghost ctx: Context, ghost x: Tree, ghost nb: int, ghost c: Tree, ghost rs: Side)
    returns (shorter: bool)
    requires balance == -2 || balance == 2
    requires var s := if balance < 0 then Left else Right;
      Lies(root, ctx, Make(s, x, node, nb, c), rs) && x.Node? && (x.balance == -Sign(s) ==> Kid(x, Other(s)).Node?)
    requires -1 <= x.balance <= 1
    modifies root`root, root.nodes
    ensures Lies(root, ctx, RotatedTree(if balance < 0 then Left else Right, x, node, c), rs)
    ensures shorter == Shorter(if balance < 0 then Left else Right, x)
  {
    hide Holds, Make, RotatedTree, Single, Double, Parted, Crowned, Slid, Raised;
    ghost var st := root.View();
    var s := if balance < 0 then Left else Right;
    RotationCells(st, ctx, s, x, node, nb, c, rs);
    assert st.mem[node] == Cell(node.left, node.right, node.parent, node.side, node.balance);
    var parent, child, which := node.parent, root.Child(node, s), node.side;
    assert st.mem[child] == Cell(child.left, child.right, child.parent, child.side, child.balance);
    var cb := child.balance;
    if cb != -Sign(s) {
      cb := cb - Sign(s);
      SingleIs(st, ctx, s, x, node, nb, c, rs);
      SingleDef(st, s, node, child, cb, parent, which);
      WriteSlid(root, s, node, child);
      WriteRaised(root, s, node, child, cb, parent, which);
      return cb == 0;
    }
    var gchild := root.Child(child, Other(s));
    assert st.mem[gchild] == Cell(gchild.left, gchild.right, gchild.parent, gchild.side, gchild.balance);
    var gb := gchild.balance;
    DoubleIs(st, ctx, s, x, node, nb, c, rs);
    assert KidOf(st.mem[gchild], s) == root.Child(gchild, s) && KidOf(st.mem[gchild], Other(s)) == root.Child(gchild, Other(s));
    DoubleDef(st, s, node, child, gchild, if gb == -Sign(s) then Sign(s) else 0, if gb == Sign(s) then -Sign(s) else 0, parent, which);
    WriteParted(root, s, node, child, gchild);
    WriteCrowned(root, s, node, child, gchild, if gb == -Sign(s) then Sign(s) else 0, if gb == Sign(s) then -Sign(s) else 0, parent, which);
    return true;
  }

  lemma SingleDef(st: State, s: Side, n: AvlNode, x: AvlNode, cb: int, p: AvlNode?, which: Side)
    ensures Single(st, s, n, x, cb, p, which) == Raised(Slid(st, s, n, x), s, n, x, cb, p, which)
  {}

  lemma DoubleDef(st: State, s: Side, n: AvlNode, x: AvlNode, g: AvlNode, xb: int, nb: int, p: AvlNode?, which: Side)
    ensures Double(st, s, n, x, g, xb, nb, p, which) == Crowned(Parted(st, s, n, x, g), s, n, x, g, xb, nb, p, which)
  {}

  lemma SingleIs(st: State, ctx: Context, s: Side, x: Tree, n: AvlNode, nb: int, c: Tree, rs: Side)
    requires Holds(st, ctx, Make(s, x, n, nb, c), rs) && x.Node? && x.balance != -Sign(s)
    ensures Holds(Single(st, s, n, x.node, x.balance - Sign(s), Above(ctx), SideOf(ctx, rs)), ctx, RotatedTree(s, x, n, c), rs)
  {
    hide Holds, Single;
    ShapeOf(s, x);
    SingleHolds(st, ctx, s, Kid(x, s), x.node, x.balance, Kid(x, Other(s)), n, nb, c, rs, x.balance - Sign(s));
  }

  lemma DoubleIs(st: State, ctx: Context, s: Side, x: Tree, n: AvlNode, nb: int, c: Tree, rs: Side)
    requires Holds(st, ctx, Make(s, x, n, nb, c), rs) && x.Node? && x.balance == -Sign(s) && Kid(x, Other(s)).Node?
    ensures var g := Kid(x, Other(s));
      Holds(Double(st, s, n, x.node, g.node, if g.balance == -Sign(s) then Sign(s) else 0, if g.balance == Sign(s) then -Sign(s) else 0,
                   Above(ctx), SideOf(ctx, rs)), ctx, RotatedTree(s, x, n, c), rs)
  {
    hide Holds, Double;
    var g := Kid(x, Other(s));
    ShapeOf(s, x);
    ShapeOf(s, g);
    DoubleHolds(st, ctx, s, Kid(x, s), x.node, x.balance, Kid(g, s), g.node, g.balance, Kid(g, Other(s)), n, nb, c, rs,
                if g.balance == -Sign(s) then Sign(s) else 0, if g.balance == Sign(s) then -Sign(s) else 0);
  }

  // ---------- balances ----------

  lemma BalanceHolds(st: State, ctx: Context, t: Tree, rs: Side, b: int)
    requires Holds(st, ctx, t, rs) && t.Node?
    ensures t.node in st.mem && Holds(PutBalance(st, t.node, b), ctx, t.(balance := b), rs)
  {
    var st' := PutBalance(st, t.node, b);
    RepIn(st.mem, t, Above(ctx), SideOf(ctx, rs));
    CtxIn(st.mem, ctx, t.node, st.root, rs);
    RepFrame(st.mem, st'.mem, t.left, t.node, Left);
    RepFrame(st.mem, st'.mem, t.right, t.node, Right);
    CtxFrame(st.mem, st'.mem, ctx, t.node, st.root, rs);
  }

  /** The parent of the focus gets a balance and becomes the focus. */
  method BalanceParent(root: AvlRoot, node: AvlNode, b: int, ghost ctx: Context, ghost t: Tree, ghost rs: Side)
    requires Lies(root, ctx, t, rs) && ctx != [] && node == ctx[0].node && node in root.nodes
    modifies root.nodes
    ensures Lies(root, ctx[1..], Plug(ctx[0].(balance := b), t), rs)
    ensures InOrder(Zip(ctx[1..], Plug(ctx[0].(balance := b), t))) == InOrder(Zip(ctx, t))
    ensures node.parent == old(node.parent) && node.side == old(node.side)
  {
    BalanceOrder(ctx, t, b);
    hide Holds, InOrder, Zip;
    HoldsUp(root.View(), ctx, t, rs);
    BalanceHolds(root.View(), ctx[1..], Plug(ctx[0], t), rs, b);
    root.SetBalance(node, b);
  }

  lemma BalanceOrder(ctx: Context, t: Tree, b: int)
    requires ctx != []
    ensures InOrder(Zip(ctx[1..], Plug(ctx[0].(balance := b), t))) == InOrder(Zip(ctx, t))
  {
    SameOrder(ctx[1..], Plug(ctx[0].(balance := b), t), Plug(ctx[0], t));
  }

  // ---------- after an insertion ----------

  /** The focus is one higher than its context expects, and not because it was balanced before. */
  ghost predicate Growing(ctx: Context, t: Tree, h: int) {
    t.Node? && Avl(t) && Height(t) == h + 1 && CtxAvl(ctx, h) && (h > 0 ==> t.balance != 0)
  }

  lemma GrowStep(ctx: Context, t: Tree, h: int)
    requires Growing(ctx, t, h) && ctx != []
    ensures var c := ctx[0]; var b := c.balance + Sign(c.side); var t' := Plug(c.(balance := b), t);
      && -1 <= c.balance <= 1
      && (b == 0 ==> Avl(Zip(ctx[1..], t')))
      && (c.balance == 0 ==> Growing(ctx[1..], t', 1 + Max(h, Height(c.sibling))))
  {
    var c := ctx[0];
    var b := c.balance + Sign(c.side);
    var t' := Plug(c.(balance := b), t);
    HeightsOf(c, t, h);
    hide Avl, Height, Make;
    MakeAvl(c.side, t, c.node, b, c.sibling);
    SignTimes(c.side, h - Height(c.sibling));
    SignTimes(c.side, Height(t) - Height(c.sibling));
    if b == 0 { ZipAvl(ctx[1..], t'); }
  }

  lemma HeightsOf(c: Crumb, t: Tree, h: int)
    ensures Height(c.sibling) >= 0 && Height(t) >= 0
  {}

  lemma GrowRotation(ctx: Context, t: Tree, h: int)
    requires Growing(ctx, t, h) && ctx != [] && ctx[0].balance + Sign(ctx[0].side) != 0 && ctx[0].balance != 0
    ensures var c := ctx[0];
      && c.balance == Sign(c.side) && (t.balance == -Sign(c.side) ==> Kid(t, Other(c.side)).Node?) && -1 <= t.balance <= 1
      && Avl(Zip(ctx[1..], RotatedTree(c.side, t, c.node, c.sibling)))
      && InOrder(Zip(ctx[1..], RotatedTree(c.side, t, c.node, c.sibling))) == InOrder(Zip(ctx, t))
  {
    var c := ctx[0];
    HeightsOf(c, t, h);
    GrowBounds(t);
    hide Avl, Height, InOrder, RotatedTree;
    RotationBalances(c.side, t, c.node, c.sibling);
    RotationOrder(c.side, t, c.node, c.balance, c.sibling);
    ZipAvl(ctx[1..], RotatedTree(c.side, t, c.node, c.sibling));
    SameOrder(ctx[1..], RotatedTree(c.side, t, c.node, c.sibling), Plug(c, t));
  }

  lemma GrowBounds(t: Tree)
    requires Avl(t) && t.Node?
    ensures -1 <= t.balance <= 1
  {}

  ghost predicate Done(root: AvlRoot, tree: Tree, rs: Side)
    reads root, root.nodes
  {
    Lies(root, [], tree, rs) && Avl(tree)
  }

  lemma Zipped(st: State, ctx: Context, t: Tree, rs: Side)
    requires Holds(st, ctx, t, rs)
    ensures Holds(st, [], Zip(ctx, t), rs)
  {
    HoldsZip(st, ctx, t, rs);
  }

  /** Backs up the tree after an insertion, until a subtree comes into balance or is rotated. */
  method Grow(root: AvlRoot, parent0: AvlNode?, which0: Side, ghost ctx0: Context, ghost t0: Tree, ghost h0: int, ghost rs: Side)
    returns (ghost tree: Tree)
    requires Lies(root, ctx0, t0, rs) && Growing(ctx0, t0, h0) && parent0 == Above(ctx0) && which0 == SideOf(ctx0, rs)
    requires forall x | x in CtxNodes(ctx0) :: x in root.nodes
    modifies root`root, root.nodes
    ensures Done(root, tree, rs) && InOrder(tree) == InOrder(Zip(ctx0, t0))
  {
    hide Holds, Avl, Zip, InOrder, Growing, RotatedTree;
    ghost var ctx, t, h := ctx0, t0, h0;
    var parent, which := parent0, which0;
    while true
      invariant Lies(root, ctx, t, rs) && Growing(ctx, t, h) && parent == Above(ctx) && which == SideOf(ctx, rs)
      invariant InOrder(Zip(ctx, t)) == InOrder(Zip(ctx0, t0))
      decreases |ctx|
    {
      GrowingIs(ctx, t, h);
      var node := parent;
      if node == null {
        tree := t;
        ZipNothing(ctx, t);
        return;
      }
      ReadParent(root.View(), ctx, t, rs);
      assert root.View().mem[node] == Cell(node.left, node.right, node.parent, node.side, node.balance);
      GrowStep(ctx, t, h);
      var oldBalance := node.balance;
      var newBalance := oldBalance + Sign(which);
      if newBalance == 0 {
        BalanceParent(root, node, 0, ctx, t, rs);
        tree := Zip(ctx[1..], Plug(ctx[0].(balance := 0), t));
        Zipped(root.View(), ctx[1..], Plug(ctx[0].(balance := 0), t), rs);
        return;
      }
      if oldBalance != 0 {
        tree := GrowRotate(root, node, newBalance, ctx, t, h, rs);
        return;
      }
      BalanceParent(root, node, newBalance, ctx, t, rs);
      parent, which := node.parent, node.side;
      ctx, t, h := ctx[1..], Plug(ctx[0].(balance := newBalance), t), 1 + Max(h, Height(ctx[0].sibling));
    }
  }

  lemma GrowingIs(ctx: Context, t: Tree, h: int)
    requires Growing(ctx, t, h)
    ensures t.Node? && Avl(t)
  {}

  lemma ZipNothing(ctx: Context, t: Tree)
    requires Above(ctx) == null
    ensures ctx == [] && Zip(ctx, t) == t
  {}

  method GrowRotate(root: AvlRoot, node: AvlNode, newBalance: int, ghost ctx: Context, ghost t: Tree, ghost h: int, ghost rs: Side)
    returns (ghost tree: Tree)
    requires Lies(root, ctx, t, rs) && Growing(ctx, t, h) && ctx != [] && node == ctx[0].node
    requires ctx[0].balance != 0 && newBalance == ctx[0].balance + Sign(ctx[0].side) && newBalance != 0
    modifies root`root, root.nodes
    ensures Done(root, tree, rs) && InOrder(tree) == InOrder(Zip(ctx, t))
  {
    hide Holds, Avl, Zip, InOrder, Growing, RotatedTree;
    GrowingIs(ctx, t, h);
    GrowRotation(ctx, t, h);
    HoldsUp(root.View(), ctx, t, rs);
    ghost var c := ctx[0];
    var _ := Rotation(root, node, newBalance, ctx[1..], t, c.balance, c.sibling, rs);
    tree := Zip(ctx[1..], RotatedTree(c.side, t, c.node, c.sibling));
    Zipped(root.View(), ctx[1..], RotatedTree(c.side, t, c.node, c.sibling), rs);
  }

  // ---------- after a removal ----------

  /** The focus is one lower than its context expects. */
  ghost predicate Shrinking(ctx: Context, t: Tree, h: int) {
    Avl(t) && Height(t) == h - 1 && CtxAvl(ctx, h)
  }

  lemma ShrinkHeights(ctx: Context, t: Tree, h: int)
    requires Shrinking(ctx, t, h) && ctx != []
    ensures var c := ctx[0]; var k := Height(c.sibling);
      && Avl(c.sibling) && CtxAvl(ctx[1..], 1 + Max(h, k)) && Avl(t) && Height(t) == h - 1
      && c.balance == (if c.side == Left then k - h else h - k) && -1 <= c.balance <= 1 && k >= 0 && h >= 1
  {
    hide Avl, Height;
    HeightsOf(ctx[0], t, h);
    SignTimes(ctx[0].side, h - Height(ctx[0].sibling));
  }

  lemma SignTimes(side: Side, x: int)
    ensures Sign(side) * x == if side == Left then -x else x
  {}

  lemma ShrinkStep(ctx: Context, t: Tree, h: int)
    requires Shrinking(ctx, t, h) && ctx != []
    ensures var c := ctx[0]; var b := c.balance - Sign(c.side); var t' := Plug(c.(balance := b), t);
      && -1 <= c.balance <= 1
      && (c.balance == 0 ==> Avl(Zip(ctx[1..], t')))
      && (b == 0 ==> Shrinking(ctx[1..], t', 1 + Max(h, Height(c.sibling))))
  {
    var c := ctx[0];
    ShrinkHeights(ctx, t, h);
    var b := c.balance - Sign(c.side);
    var t' := Plug(c.(balance := b), t);
    var k := Height(c.sibling);
    hide Avl, Height, CtxAvl, Make;
    MakeAvl(c.side, t, c.node, b, c.sibling);
    SignTimes(c.side, Height(t) - k);
    if c.balance == 0 {
      assert Height(t') == 1 + Max(h, k);
      ZipAvl(ctx[1..], t');
    }
  }

  lemma ShrinkRotation(ctx: Context, t: Tree, h: int)
    requires Shrinking(ctx, t, h) && ctx != [] && ctx[0].balance - Sign(ctx[0].side) != 0 && ctx[0].balance != 0
    ensures var c := ctx[0]; var s, x := Other(c.side), c.sibling;
      && c.balance == Sign(s) && x.Node? && (x.balance == -Sign(s) ==> Kid(x, Other(s)).Node?) && -1 <= x.balance <= 1
      && Plug(c, t) == Make(s, x, c.node, c.balance, t)
      && InOrder(Zip(ctx[1..], RotatedTree(s, x, c.node, t))) == InOrder(Zip(ctx, t))
      && (if Shorter(s, x) then Shrinking(ctx[1..], RotatedTree(s, x, c.node, t), 1 + Max(h, Height(x)))
          else Avl(Zip(ctx[1..], RotatedTree(s, x, c.node, t))))
  {
    var c := ctx[0];
    var s, x := Other(c.side), c.sibling;
    HeightsOf(c, t, h);
    assert x.Node?;
    GrowBounds(x);
    hide Avl, Height, InOrder, RotatedTree;
    RotationBalances(s, x, c.node, t);
    RotationOrder(s, x, c.node, c.balance, t);
    if !Shorter(s, x) { ZipAvl(ctx[1..], RotatedTree(s, x, c.node, t)); }
    SameOrder(ctx[1..], RotatedTree(s, x, c.node, t), Plug(c, t));
  }

  lemma ShrunkRoot(ctx: Context, t: Tree, h: int)
    requires Shrinking(ctx, t, h) && Above(ctx) == null
    ensures ctx == [] && Avl(t)
  {}

  /** Moves up the tree after a removal, adjusting balances and rotating, as long as subtrees get shorter. */
  method Shrink(root: AvlRoot, parent0: AvlNode?, which0: Side, ghost ctx0: Context, ghost t0: Tree, ghost h0: int, ghost rs: Side)
    returns (ghost tree: Tree)
    requires Lies(root, ctx0, t0, rs) && Shrinking(ctx0, t0, h0) && parent0 == Above(ctx0) && which0 == SideOf(ctx0, rs)
    modifies root`root, root.nodes
    ensures Done(root, tree, rs) && InOrder(tree) == InOrder(Zip(ctx0, t0))
  {
    hide Holds, Avl, Zip, InOrder, Shrinking, RotatedTree;
    ghost var ctx, t, h := ctx0, t0, h0;
    var parent, which := parent0, which0;
    while parent != null
      invariant Lies(root, ctx, t, rs) && Shrinking(ctx, t, h) && parent == Above(ctx) && which == SideOf(ctx, rs)
      invariant InOrder(Zip(ctx, t)) == InOrder(Zip(ctx0, t0))
      decreases |ctx|
    {
      var node := parent;
      ReadParent(root.View(), ctx, t, rs);
      assert root.View().mem[node] == Cell(node.left, node.right, node.parent, node.side, node.balance);
      ShrinkStep(ctx, t, h);
      var oldBalance := node.balance;
      var newBalance := oldBalance - Sign(which);
      parent, which := node.parent, node.side;
      if oldBalance == 0 {
        BalanceParent(root, node, newBalance, ctx, t, rs);
        tree := Zip(ctx[1..], Plug(ctx[0].(balance := newBalance), t));
        Zipped(root.View(), ctx[1..], Plug(ctx[0].(balance := newBalance), t), rs);
        return;
      }
      ghost var c, h' := ctx[0], 1 + Max(h, Height(ctx[0].sibling));
      if newBalance == 0 {
        BalanceParent(root, node, newBalance, ctx, t, rs);
        t := Plug(c.(balance := 0), t);
      } else {
        ShrinkRotation(ctx, t, h);
        HoldsUp(root.View(), ctx, t, rs);
        var shorter := Rotation(root, node, newBalance, ctx[1..], c.sibling, c.balance, t, rs);
        t := RotatedTree(Other(c.side), c.sibling, c.node, t);
        if !shorter {
          tree := Zip(ctx[1..], t);
          Zipped(root.View(), ctx[1..], t, rs);
          return;
        }
      }
      ctx, h := ctx[1..], h';
    }
    ShrunkRoot(ctx, t, h);
    ZipNothing(ctx, t);
    tree := t;
  }
}
