/**
 Red-black trees and their contexts as values (rbtree.c, rbtree_augmented.h).  The source writes every
 case twice, once for each side; here a side is a parameter.
 */
module RbTree {
  import opened Sides

  class RbNode {
    var left: RbNode?
    var right: RbNode?
    var parent: RbNode?
    var red: bool
    /** the largest value in the subtree */
    var augmented: int
    /** the value that the user computes for the node itself */
    const value: int
    /** what a callback would have cached; never read by a branch, and set only where the callbacks are dummies */
    ghost var shadow: int

    constructor (value: int)
      ensures this.value == value && fresh(this)
    {
      this.value := value;
      left, right, parent := null, null, null;
      red, augmented, shadow := true, value, value;
    }
  }

  datatype Tree = Leaf | Node(left: Tree, node: RbNode, red: bool, right: Tree)

  /** A node whose subtree on the given side is near. */
  function Make(side: Side, near: Tree, node: RbNode, red: bool, far: Tree): Tree {
    if side == Left then Node(near, node, red, far) else Node(far, node, red, near)
  }

  function Kid(t: Tree, side: Side): Tree
    requires t.Node?
  {
    if side == Left then t.left else t.right
  }

  function Top(t: Tree): RbNode? {
    if t.Leaf? then null else t.node
  }

  function IsRed(t: Tree): bool {
    t.Node? && t.red
  }

  ghost function Nodes(t: Tree): set<RbNode> {
    if t.Leaf? then {} else Nodes(t.left) + {t.node} + Nodes(t.right)
  }

  ghost function InOrder(t: Tree): seq<RbNode> {
    if t.Leaf? then [] else InOrder(t.left) + [t.node] + InOrder(t.right)
  }

  // ---------- the red-black properties ----------

  /** Every path down to a leaf passes h black nodes. */
  ghost predicate Black(t: Tree, h: int) {
    if t.Leaf? then h == 0
    else Black(t.left, h - Weight(t.red)) && Black(t.right, h - Weight(t.red))
  }

  function Weight(red: bool): int {
    if red then 0 else 1
  }

  /** No red node has a red child. */
  ghost predicate NoRed(t: Tree) {
    t.Node? ==> NoRed(t.left) && NoRed(t.right) && (t.red ==> !IsRed(t.left) && !IsRed(t.right))
  }

  ghost function BlackHeight(t: Tree): int {
    if t.Leaf? then 0 else BlackHeight(t.left) + Weight(t.red)
  }

  ghost predicate RedBlack(t: Tree) {
    !IsRed(t) && NoRed(t) && Black(t, BlackHeight(t))
  }

  lemma {:induction false} BlackIsHeight(t: Tree, h: int)
    requires Black(t, h)
    ensures h == BlackHeight(t) && h >= 0
  {
    if t.Node? { BlackIsHeight(t.left, h - Weight(t.red)); }
  }

  // ---------- contexts ----------

  /** One step up: the focus is the subtree of node on the given side, and sibling the other one. */
  datatype Crumb = Crumb(side: Side, node: RbNode, red: bool, sibling: Tree)

  /** From the focus, innermost first, up to the root. */
  type Context = seq<Crumb>

  function Plug(c: Crumb, t: Tree): Tree {
    Make(c.side, t, c.node, c.red, c.sibling)
  }

  function Zip(ctx: Context, t: Tree): Tree {
    if ctx == [] then t else Zip(ctx[1..], Plug(ctx[0], t))
  }

  /** The parent of the focus. */
  function Above(ctx: Context): RbNode? {
    if ctx == [] then null else ctx[0].node
  }

  ghost function CtxNodes(ctx: Context): set<RbNode> {
    if ctx == [] then {} else {ctx[0].node} + Nodes(ctx[0].sibling) + CtxNodes(ctx[1..])
  }

  /** What stands before and after the focus in order. */
  ghost function Before(ctx: Context): seq<RbNode> {
    if ctx == [] then []
    else Before(ctx[1..]) + if ctx[0].side == Left then [] else InOrder(ctx[0].sibling) + [ctx[0].node]
  }

  ghost function After(ctx: Context): seq<RbNode> {
    if ctx == [] then []
    else (if ctx[0].side == Left then [ctx[0].node] + InOrder(ctx[0].sibling) else []) + After(ctx[1..])
  }

  lemma {:induction false} ZipInOrder(ctx: Context, t: Tree)
    ensures InOrder(Zip(ctx, t)) == Before(ctx) + InOrder(t) + After(ctx)
    decreases |ctx|
  {
    if ctx != [] {
      ZipInOrder(ctx[1..], Plug(ctx[0], t));
      var b, a := Before(ctx[1..]), After(ctx[1..]);
      if ctx[0].side == Left {
        Regroup(b, [], InOrder(t), [ctx[0].node] + InOrder(ctx[0].sibling), a);
      } else {
        Regroup(b, InOrder(ctx[0].sibling) + [ctx[0].node], InOrder(t), [], a);
      }
    }
  }

  lemma {:induction false} ZipNodes(ctx: Context, t: Tree)
    ensures Nodes(Zip(ctx, t)) == Nodes(t) + CtxNodes(ctx)
    decreases |ctx|
  {
    if ctx != [] { ZipNodes(ctx[1..], Plug(ctx[0], t)); }
  }

  lemma {:induction false} InOrderNodes(t: Tree)
    ensures Nodes(t) == set x | x in InOrder(t)
  {
    if t.Node? {
      InOrderNodes(t.left);
      InOrderNodes(t.right);
    }
  }

  /** A focus that passes h black nodes makes all paths of the tree equal. */
  ghost predicate CtxBlack(ctx: Context, h: int) {
    ctx != [] ==> Black(ctx[0].sibling, h) && CtxBlack(ctx[1..], h + Weight(ctx[0].red))
  }

  /** The context has no red node with a red child, and its root is black. */
  ghost predicate CtxNoRed(ctx: Context) {
    ctx != [] ==>
      && NoRed(ctx[0].sibling) && CtxNoRed(ctx[1..])
      && (ctx[0].red ==> !IsRed(ctx[0].sibling) && |ctx| > 1 && !ctx[1].red)
  }

  lemma {:induction false} ZipBlack(ctx: Context, t: Tree, h: int)
    requires Black(t, h) && CtxBlack(ctx, h)
    ensures Black(Zip(ctx, t), BlackHeight(Zip(ctx, t)))
    decreases |ctx|
  {
    if ctx == [] {
      BlackIsHeight(t, h);
    } else {
      ZipBlack(ctx[1..], Plug(ctx[0], t), h + Weight(ctx[0].red));
    }
  }

  lemma {:induction false} ZipNoRed(ctx: Context, t: Tree)
    requires NoRed(t) && CtxNoRed(ctx) && (IsRed(t) ==> ctx != [] && !ctx[0].red)
    ensures NoRed(Zip(ctx, t)) && !IsRed(Zip(ctx, t))
    decreases |ctx|
  {
    if ctx != [] { ZipNoRed(ctx[1..], Plug(ctx[0], t)); }
  }

  /** Going down: what is a context of the focus if the whole is red-black. */
  lemma {:induction false} UnzipRedBlack(ctx: Context, t: Tree)
    requires NoRed(Zip(ctx, t)) && !IsRed(Zip(ctx, t))
    ensures NoRed(t) && CtxNoRed(ctx) && (IsRed(t) ==> ctx != [] && !ctx[0].red)
    decreases |ctx|
  {
    if ctx != [] { UnzipRedBlack(ctx[1..], Plug(ctx[0], t)); }
  }

  lemma {:induction false} UnzipBlack(ctx: Context, t: Tree, h: int) returns (k: int)
    requires Black(Zip(ctx, t), h)
    ensures Black(t, k) && CtxBlack(ctx, k)
    decreases |ctx|
  {
    if ctx == [] {
      k := h;
    } else {
      k := UnzipBlack(ctx[1..], Plug(ctx[0], t), h);
      k := k - Weight(ctx[0].red);
    }
  }

  /** The context of a node of the tree. */
  lemma {:induction false} Locate(t: Tree, x: RbNode, above: Context) returns (ctx: Context, sub: Tree)
    requires x in Nodes(t)
    ensures Zip(ctx, sub) == Zip(above, t) && sub.Node? && sub.node == x
    decreases t
  {
    if x == t.node {
      ctx, sub := above, t;
    } else if x in Nodes(t.left) {
      ctx, sub := Locate(t.left, x, [Crumb(Left, t.node, t.red, t.right)] + above);
    } else {
      ctx, sub := Locate(t.right, x, [Crumb(Right, t.node, t.red, t.left)] + above);
    }
  }

  lemma {:induction false} ZipAppend(a: Context, b: Context, t: Tree)
    ensures Zip(a + b, t) == Zip(b, Zip(a, t))
    decreases |a|
  {
    if a == [] {
      assert a + b == b;
    } else {
      assert (a + b)[1..] == a[1..] + b;
      ZipAppend(a[1..], b, Plug(a[0], t));
    }
  }
}
