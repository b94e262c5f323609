/** Rebalancing after a removal (rbtree.c: ____rb_erase_color), on trees. */
module RbErase {
  import opened Sides
  import opened RbTree
  import opened RbMemory
  import opened RbRotate

  /** Paths through the focus, which is not red, lack one black node; nothing else is wrong. */
  ghost predicate Erasing(ctx: Context, t: Tree) {
    && ctx != [] && !IsRed(t) && NoRed(t) && CtxNoRed(ctx)
    && Black(t, BlackHeight(t)) && CtxBlack(ctx, BlackHeight(t) + 1)
  }

  lemma {:induction false} HeightNat(t: Tree)
    ensures BlackHeight(t) >= 0
  {
    if t.Node? { HeightNat(t.left); }
  }

  /** The sibling exists. */
  lemma HasSibling(ctx: Context, t: Tree)
    requires Erasing(ctx, t)
    ensures ctx[0].sibling.Node?
  {
    HeightNat(t);
  }

  lemma SiblingShape(c: Crumb, t: Tree)
    requires c.sibling.Node?
    ensures var o, s := Other(c.side), c.sibling;
      Plug(c, t) == Make(o, Make(o, Kid(s, o), s.node, s.red, Kid(s, c.side)), c.node, c.red, t)
  {}

  // ---------- case 1 ----------

  /** The sibling is red: after a rotation the focus has a black sibling and a red parent. */
  function Lowered(ctx: Context): Context
    requires ctx != [] && ctx[0].sibling.Node?
  {
    var c := ctx[0];
    [Crumb(c.side, c.node, true, Kid(c.sibling, c.side)), Crumb(c.side, c.sibling.node, false, Kid(c.sibling, Other(c.side)))] + ctx[1..]
  }

  lemma Case1(ctx: Context, t: Tree)
    requires Erasing(ctx, t) && IsRed(ctx[0].sibling)
    ensures Erasing(Lowered(ctx), t) && !IsRed(Lowered(ctx)[0].sibling) && !ctx[0].red
  {
    var c, h := ctx[0], BlackHeight(t) + 1;
    assert Lowered(ctx)[1..][0] == Lowered(ctx)[1] && Lowered(ctx)[1..][1..] == ctx[1..];
    assert Black(Kid(c.sibling, Left), h) && Black(Kid(c.sibling, Right), h);
    assert CtxBlack(ctx[1..], h + 1) && CtxBlack(Lowered(ctx)[1..], h);
  }

  lemma Case1Shape(ctx: Context, t: Tree)
    requires ctx != [] && ctx[0].sibling.Node?
    ensures var c, low := ctx[0], Lowered(ctx); var o := Other(c.side);
      && Plug(low[1], Plug(low[0], t))
         == TreeRotated(o, Kid(c.sibling, o), c.sibling.node, false, Kid(c.sibling, c.side), c.node, true, t)
      && |low| > 1 && low[2..] == ctx[1..]
  {}

  // ---------- case 2 ----------

  /** The sibling and its children are black: the sibling becomes red, and the parent black. */
  function Evened(ctx: Context, t: Tree): Tree
    requires ctx != []
  {
    Make(ctx[0].side, t, ctx[0].node, false, Painted(ctx[0].sibling, true))
  }

  lemma Case2(ctx: Context, t: Tree)
    requires Erasing(ctx, t) && ctx[0].sibling.Node? && !IsRed(ctx[0].sibling)
    requires !IsRed(ctx[0].sibling.left) && !IsRed(ctx[0].sibling.right)
    ensures ctx[0].red ==> RedBlack(Zip(ctx[1..], Evened(ctx, t)))
    ensures !ctx[0].red && |ctx| == 1 ==> RedBlack(Evened(ctx, t))
    ensures !ctx[0].red && |ctx| > 1 ==> Erasing(ctx[1..], Evened(ctx, t))
  {
    var t2, h := Evened(ctx, t), BlackHeight(t);
    var s' := Painted(ctx[0].sibling, true);
    assert Black(s', h) && NoRed(s');
    assert Black(t2, h + 1) && NoRed(t2);
    BlackIsHeight(t2, h + 1);
    if ctx[0].red {
      ZipBlack(ctx[1..], t2, h + 1);
      ZipNoRed(ctx[1..], t2);
    }
  }

  // ---------- case 3 ----------

  /** The near nephew is red and the far one is not: a rotation at the sibling makes the far one red. */
  function TurnedSibling(ctx: Context): Context
    requires ctx != [] && ctx[0].sibling.Node? && Kid(ctx[0].sibling, ctx[0].side).Node?
  {
    var c := ctx[0];
    var d, o, sl := c.side, Other(c.side), Kid(c.sibling, c.side);
    [c.(sibling := TreeRotated(d, Kid(sl, d), sl.node, false, Kid(sl, o), c.sibling.node, true, Kid(c.sibling, o)))] + ctx[1..]
  }

  /** After case 3 the far nephew is red, with black children; the red-red pair that case 3 may leave is gone with case 4. */
  ghost predicate FarRed(ctx: Context, t: Tree) {
    && ctx != [] && !IsRed(t) && NoRed(t) && CtxNoRed(ctx[1..]) && (ctx[0].red ==> |ctx| > 1 && !ctx[1].red)
    && Black(t, BlackHeight(t)) && CtxBlack(ctx, BlackHeight(t) + 1)
    && var s, o := ctx[0].sibling, Other(ctx[0].side);
      s.Node? && !s.red && IsRed(Kid(s, o)) && NoRed(Painted(Kid(s, o), false)) && NoRed(Kid(s, ctx[0].side))
  }

  lemma Case3(ctx: Context, t: Tree)
    requires Erasing(ctx, t) && ctx[0].sibling.Node? && !IsRed(ctx[0].sibling)
    requires IsRed(Kid(ctx[0].sibling, ctx[0].side)) && !IsRed(Kid(ctx[0].sibling, Other(ctx[0].side)))
    ensures FarRed(TurnedSibling(ctx), t)
  {
    var c, h := ctx[0], BlackHeight(t);
    var sl := Kid(c.sibling, c.side);
    assert Black(sl, h) && Black(Kid(c.sibling, Other(c.side)), h);
    assert Black(TurnedSibling(ctx)[0].sibling, h + 1);
    assert NoRed(c.sibling) && NoRed(sl) && NoRed(Kid(sl, Left)) && NoRed(Kid(sl, Right)) && NoRed(Kid(c.sibling, Other(c.side)));
    assert TurnedSibling(ctx)[1..] == ctx[1..];
  }

  lemma Case4Applies(ctx: Context, t: Tree)
    requires Erasing(ctx, t) && ctx[0].sibling.Node? && !IsRed(ctx[0].sibling) && IsRed(Kid(ctx[0].sibling, Other(ctx[0].side)))
    ensures FarRed(ctx, t)
  {
    var s := ctx[0].sibling;
    assert NoRed(s) && NoRed(s.left) && NoRed(s.right);
  }

  lemma Case3Shape(ctx: Context, t: Tree)
    requires ctx != [] && ctx[0].sibling.Node? && Kid(ctx[0].sibling, ctx[0].side).Node?
    ensures var c := ctx[0]; var d, o, sl := c.side, Other(c.side), Kid(c.sibling, c.side);
      && c.sibling == Make(d, Make(d, Kid(sl, d), sl.node, sl.red, Kid(sl, o)), c.sibling.node, c.sibling.red, Kid(c.sibling, o))
      && TurnedSibling(ctx)[0].sibling
         == TreeRotated(d, Kid(sl, d), sl.node, false, Kid(sl, o), c.sibling.node, true, Kid(c.sibling, o))
      && TurnedSibling(ctx)[1..] == ctx[1..] && |TurnedSibling(ctx)| == |ctx|
  {}

  // ---------- case 4 ----------

  /** The far nephew is red: a rotation at the parent, with colours exchanged, makes up for the lack. */
  function Raised(ctx: Context, t: Tree): Tree
    requires ctx != [] && ctx[0].sibling.Node?
  {
    var c := ctx[0];
    var o, s := Other(c.side), c.sibling;
    TreeRotated(o, Painted(Kid(s, o), false), s.node, c.red, Kid(s, c.side), c.node, false, t)
  }

  lemma Case4(ctx: Context, t: Tree)
    requires FarRed(ctx, t)
    ensures RedBlack(Zip(ctx[1..], Raised(ctx, t)))
  {
    var c, h, t2 := ctx[0], BlackHeight(t), Raised(ctx, t);
    var o, s := Other(c.side), c.sibling;
    assert Black(Kid(s, c.side), h) && Black(Kid(s, o), h) && Black(Painted(Kid(s, o), false), h + 1);
    assert Black(Make(o, Kid(s, c.side), c.node, false, t), h + 1);
    assert Black(t2, h + 1 + Weight(c.red));
    assert NoRed(Make(o, Kid(s, c.side), c.node, false, t));
    assert NoRed(t2);
    ZipBlack(ctx[1..], t2, h + 1 + Weight(c.red));
    ZipNoRed(ctx[1..], t2);
  }
}
