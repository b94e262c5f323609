/**
 AVL trees and their contexts as values (avl.c).  Balances are stored, as in the source, and the
 source's child indices 0 and 1 are sides.
 */
module AvlTree {
  import opened Sides

  /** avl_child2balance */
  function Sign(side: Side): int {
    if side == Left then -1 else 1
  }

  /** A node and the user's data that it is part of. */
  class AvlNode {
    var left: AvlNode?
    var right: AvlNode?
    var parent: AvlNode?
    var side: Side
    var balance: int
    const key: int
    const ptr: nat

    constructor (key: int, ptr: nat)
      ensures this.key == key && this.ptr == ptr && fresh(this)
    {
      this.key, this.ptr := key, ptr;
      left, right, parent, side, balance := null, null, null, Left, 0;
    }
  }

  datatype Tree = Leaf | Node(left: Tree, node: AvlNode, balance: int, right: Tree)

  /** A node whose subtree on the given side is near. */
  function Make(side: Side, near: Tree, node: AvlNode, balance: int, far: Tree): Tree {
    if side == Left then Node(near, node, balance, far) else Node(far, node, balance, near)
  }

  function Kid(t: Tree, side: Side): Tree
    requires t.Node?
  {
    if side == Left then t.left else t.right
  }

  function Top(t: Tree): AvlNode? {
    if t.Leaf? then null else t.node
  }

  ghost function Nodes(t: Tree): set<AvlNode> {
    if t.Leaf? then {} else Nodes(t.left) + {t.node} + Nodes(t.right)
  }

  ghost function InOrder(t: Tree): seq<AvlNode> {
    if t.Leaf? then [] else InOrder(t.left) + [t.node] + InOrder(t.right)
  }

  function Max(x: int, y: int): int {
    if x < y then y else x
  }

  function Height(t: Tree): (h: int)
    ensures h >= 0 && (h == 0 <==> t.Leaf?)
  {
    if t.Leaf? then 0 else 1 + Max(Height(t.left), Height(t.right))
  }

  /** Every stored balance is right height minus left height, and at most one either way. */
  ghost predicate Avl(t: Tree) {
    t.Node? ==>
      && t.balance == Height(t.right) - Height(t.left) && -1 <= t.balance <= 1
      && Avl(t.left) && Avl(t.right)
  }

  lemma MakeAvl(side: Side, near: Tree, node: AvlNode, balance: int, far: Tree)
    ensures Avl(Make(side, near, node, balance, far)) <==>
      && Avl(near) && Avl(far) && balance == Sign(side) * (Height(near) - Height(far)) && -1 <= balance <= 1
    ensures Height(Make(side, near, node, balance, far)) == 1 + Max(Height(near), Height(far))
  {}

  // ---------- contexts ----------

  /** One step up: the focus is the subtree of node on the given side, and sibling the other one. */
  datatype Crumb = Crumb(side: Side, node: AvlNode, balance: int, sibling: Tree)

  type Context = seq<Crumb>

  function Plug(c: Crumb, t: Tree): Tree {
    Make(c.side, t, c.node, c.balance, c.sibling)
  }

  function Zip(ctx: Context, t: Tree): Tree {
    if ctx == [] then t else Zip(ctx[1..], Plug(ctx[0], t))
  }

  function Above(ctx: Context): AvlNode? {
    if ctx == [] then null else ctx[0].node
  }

  /** On which side of its parent the focus is; the root has a side too, which means nothing. */
  function SideOf(ctx: Context, rootSide: Side): Side {
    if ctx == [] then rootSide else ctx[0].side
  }

  ghost function CtxNodes(ctx: Context): set<AvlNode> {
    if ctx == [] then {} else {ctx[0].node} + Nodes(ctx[0].sibling) + CtxNodes(ctx[1..])
  }

  ghost function Before(ctx: Context): seq<AvlNode> {
    if ctx == [] then []
    else Before(ctx[1..]) + if ctx[0].side == Left then [] else InOrder(ctx[0].sibling) + [ctx[0].node]
  }

  ghost function After(ctx: Context): seq<AvlNode> {
    if ctx == [] then []
    else (if ctx[0].side == Left then [ctx[0].node] + InOrder(ctx[0].sibling) else []) + After(ctx[1..])
  }

  /** A focus of height h makes the whole an AVL tree. */
  ghost predicate CtxAvl(ctx: Context, h: int) {
    ctx != [] ==>
      var c := ctx[0];
      && Avl(c.sibling) && c.balance == Sign(c.side) * (h - Height(c.sibling)) && -1 <= c.balance <= 1
      && CtxAvl(ctx[1..], 1 + Max(h, Height(c.sibling)))
  }

  lemma {:induction false} ZipAvl(ctx: Context, t: Tree)
    requires Avl(t) && CtxAvl(ctx, Height(t))
    ensures Avl(Zip(ctx, t))
    decreases |ctx|
  {
    if ctx != [] {
      MakeAvl(ctx[0].side, t, ctx[0].node, ctx[0].balance, ctx[0].sibling);
      ZipAvl(ctx[1..], Plug(ctx[0], t));
    }
  }

  lemma {:induction false} UnzipAvl(ctx: Context, t: Tree)
    requires Avl(Zip(ctx, t))
    ensures Avl(t) && CtxAvl(ctx, Height(t))
    decreases |ctx|
  {
    if ctx != [] {
      UnzipAvl(ctx[1..], Plug(ctx[0], t));
      MakeAvl(ctx[0].side, t, ctx[0].node, ctx[0].balance, ctx[0].sibling);
    }
  }

  lemma {:induction false} ZipInOrder(ctx: Context, t: Tree)
    ensures InOrder(Zip(ctx, t)) == Before(ctx) + InOrder(t) + After(ctx)
    decreases |ctx|
  {
    if ctx != [] {
      ZipInOrder(ctx[1..], Plug(ctx[0], t));
      var b, a := Before(ctx[1..]), After(ctx[1..]);
      if ctx[0].side == Left {
        Regroup(b, [], InOrder(t), [ctx[0].node] + InOrder(ctx[0].sibling), a);
      } else {
        Regroup(b, InOrder(ctx[0].sibling) + [ctx[0].node], InOrder(t), [], a);
      }
    }
  }

  lemma {:induction false} ZipNodes(ctx: Context, t: Tree)
    ensures Nodes(Zip(ctx, t)) == Nodes(t) + CtxNodes(ctx)
    decreases |ctx|
  {
    if ctx != [] { ZipNodes(ctx[1..], Plug(ctx[0], t)); }
  }

  lemma {:induction false} InOrderNodes(t: Tree)
    ensures Nodes(t) == set x | x in InOrder(t)
  {
    if t.Node? {
      InOrderNodes(t.left);
      InOrderNodes(t.right);
    }
  }

  lemma SameOrder(ctx: Context, t: Tree, t': Tree)
    requires InOrder(t) == InOrder(t')
    ensures InOrder(Zip(ctx, t)) == InOrder(Zip(ctx, t')) && Nodes(Zip(ctx, t)) == Nodes(Zip(ctx, t'))
  {
    ZipInOrder(ctx, t);
    ZipInOrder(ctx, t');
    InOrderNodes(Zip(ctx, t));
    InOrderNodes(Zip(ctx, t'));
  }

  lemma {:induction false} Locate(t: Tree, x: AvlNode, above: Context) returns (ctx: Context, sub: Tree)
    requires x in Nodes(t)
    ensures Zip(ctx, sub) == Zip(above, t) && sub.Node? && sub.node == x
    decreases t
  {
    if x == t.node {
      ctx, sub := above, t;
    } else if x in Nodes(t.left) {
      ctx, sub := Locate(t.left, x, [Crumb(Left, t.node, t.balance, t.right)] + above);
    } else {
      ctx, sub := Locate(t.right, x, [Crumb(Right, t.node, t.balance, t.left)] + above);
    }
  }

  lemma {:induction false} ZipAppend(a: Context, b: Context, t: Tree)
    ensures Zip(a + b, t) == Zip(b, Zip(a, t))
    decreases |a|
  {
    if a == [] {
      assert a + b == b;
    } else {
      assert (a + b)[1..] == a[1..] + b;
      ZipAppend(a[1..], b, Plug(a[0], t));
    }
  }

  lemma MakeInOrder(side: Side, near: Tree, n: AvlNode, balance: int, far: Tree)
    ensures InOrder(Make(side, near, n, balance, far))
      == if side == Left then InOrder(near) + [n] + InOrder(far) else InOrder(far) + [n] + InOrder(near)
  {}

  // ---------- rotation ----------

  /** What avl_rotation leaves in place of a node with subtrees x on the heavy side s and c on the other. */
  function RotatedTree(s: Side, x: Tree, n: AvlNode, c: Tree): Tree
    requires x.Node? && (x.balance == -Sign(s) ==> Kid(x, Other(s)).Node?)
  {
    var o := Other(s);
    if x.balance != -Sign(s) then
      var cb := x.balance - Sign(s);
      Make(s, Kid(x, s), x.node, cb, Make(s, Kid(x, o), n, -cb, c))
    else
      var g := Kid(x, o);
      Make(s, Make(s, Kid(x, s), x.node, if g.balance == -Sign(s) then Sign(s) else 0, Kid(g, s)), g.node, 0,
           Make(s, Kid(g, o), n, if g.balance == Sign(s) then -Sign(s) else 0, c))
  }

  /** What avl_rotation returns: whether the subtree got shorter. */
  function Shorter(s: Side, x: Tree): bool
    requires x.Node?
  {
    x.balance != 0
  }

  lemma HeavyGrandchild(s: Side, x: Tree)
    requires x.Node? && Avl(x) && x.balance == -Sign(s)
    ensures Kid(x, Other(s)).Node?
  {}

  /**
   A rotation balances a node whose heavy side is two higher, and returns non-zero exactly when the
   subtree got shorter than it was before.
   */
  lemma RotationBalances(s: Side, x: Tree, n: AvlNode, c: Tree)
    requires x.Node? && Avl(x) && Avl(c) && Height(x) == Height(c) + 2
    ensures x.balance == -Sign(s) ==> Kid(x, Other(s)).Node?
    ensures var t := RotatedTree(s, x, n, c);
      Avl(t) && Height(t) == (if Shorter(s, x) then Height(x) else Height(x) + 1)
  {
    var o := Other(s);
    ShapeOf(s, x);
    MakeAvl(s, Kid(x, s), x.node, x.balance, Kid(x, o));
    if x.balance == -Sign(s) {
      HeavyGrandchild(s, x);
      DoubleBalances(s, Kid(x, s), x.node, Kid(x, o), n, c);
    } else {
      SingleBalances(s, Kid(x, s), x.node, x.balance, Kid(x, o), n, c);
    }
  }

  lemma ShapeOf(s: Side, x: Tree)
    requires x.Node?
    ensures x == Make(s, Kid(x, s), x.node, x.balance, Kid(x, Other(s)))
  {}

  lemma SingleBalances(s: Side, a: Tree, x: AvlNode, xb: int, b: Tree, n: AvlNode, c: Tree)
    requires Avl(a) && Avl(b) && Avl(c) && xb == Sign(s) * (Height(a) - Height(b)) && (xb == 0 || xb == Sign(s))
    requires 1 + Max(Height(a), Height(b)) == Height(c) + 2
    ensures var t := Make(s, a, x, xb - Sign(s), Make(s, b, n, Sign(s) - xb, c));
      Avl(t) && Height(t) == if xb != 0 then 1 + Max(Height(a), Height(b)) else 2 + Max(Height(a), Height(b))
  {
    hide Avl, Make, Height;
    MakeAvl(s, b, n, Sign(s) - xb, c);
    MakeAvl(s, a, x, xb - Sign(s), Make(s, b, n, Sign(s) - xb, c));
  }

  lemma DoubleBalances(s: Side, a: Tree, x: AvlNode, g: Tree, n: AvlNode, c: Tree)
    requires Avl(a) && Avl(g) && Avl(c) && g.Node? && Height(g) == Height(a) + 1 && Height(g) == Height(c) + 1
    ensures var p, q := if g.balance == -Sign(s) then Sign(s) else 0, if g.balance == Sign(s) then -Sign(s) else 0;
      var t := Make(s, Make(s, a, x, p, Kid(g, s)), g.node, 0, Make(s, Kid(g, Other(s)), n, q, c));
      Avl(t) && Height(t) == Height(g) + 1
  {
    var gl, gr := Kid(g, s), Kid(g, Other(s));
    var p, q := if g.balance == -Sign(s) then Sign(s) else 0, if g.balance == Sign(s) then -Sign(s) else 0;
    ShapeOf(s, g);
    hide Avl, Make, Height, Kid;
    MakeAvl(s, gl, g.node, g.balance, gr);
    MakeAvl(s, a, x, p, gl);
    MakeAvl(s, gr, n, q, c);
    MakeAvl(s, Make(s, a, x, p, gl), g.node, 0, Make(s, gr, n, q, c));
  }

  lemma RotationOrder(s: Side, x: Tree, n: AvlNode, b: int, c: Tree)
    requires x.Node? && (x.balance == -Sign(s) ==> Kid(x, Other(s)).Node?)
    ensures InOrder(RotatedTree(s, x, n, c)) == InOrder(Make(s, x, n, b, c))
  {
    if x.balance != -Sign(s) {
      SingleOrder(s, Kid(x, s), x.node, x.balance, Kid(x, Other(s)), n, b, c, x.balance - Sign(s), Sign(s) - x.balance);
    } else {
      var g := Kid(x, Other(s));
      DoubleOrder(s, Kid(x, s), x.node, x.balance, g, n, b, c, if g.balance == -Sign(s) then Sign(s) else 0, if g.balance == Sign(s) then -Sign(s) else 0);
    }
  }

  lemma SingleOrder(s: Side, a: Tree, x: AvlNode, xb: int, b: Tree, n: AvlNode, nb: int, c: Tree, p: int, q: int)
    ensures InOrder(Make(s, a, x, p, Make(s, b, n, q, c))) == InOrder(Make(s, Make(s, a, x, xb, b), n, nb, c))
  {
    hide InOrder, Make;
    MakeInOrder(s, a, x, xb, b);
    MakeInOrder(s, Make(s, a, x, xb, b), n, nb, c);
    MakeInOrder(s, b, n, q, c);
    MakeInOrder(s, a, x, p, Make(s, b, n, q, c));
    var i, j, k := InOrder(a), InOrder(b), InOrder(c);
    assert (i + [x] + j) + [n] + k == i + [x] + (j + [n] + k);
    assert k + [n] + (j + [x] + i) == (k + [n] + j) + [x] + i;
  }

  lemma DoubleOrder(s: Side, a: Tree, x: AvlNode, xb: int, g: Tree, n: AvlNode, nb: int, c: Tree, p: int, q: int)
    requires g.Node?
    ensures InOrder(Make(s, Make(s, a, x, p, Kid(g, s)), g.node, 0, Make(s, Kid(g, Other(s)), n, q, c)))
      == InOrder(Make(s, Make(s, a, x, xb, g), n, nb, c))
  {
    var gl, gr := Kid(g, s), Kid(g, Other(s));
    assert g == Make(s, gl, g.node, g.balance, gr);
    hide InOrder, Make;
    MakeInOrder(s, gl, g.node, g.balance, gr);
    MakeInOrder(s, a, x, xb, g);
    MakeInOrder(s, Make(s, a, x, xb, g), n, nb, c);
    MakeInOrder(s, a, x, p, gl);
    MakeInOrder(s, gr, n, q, c);
    MakeInOrder(s, Make(s, a, x, p, gl), g.node, 0, Make(s, gr, n, q, c));
    DoubleGroup(InOrder(a), [x], InOrder(gl), [g.node], InOrder(gr), [n], InOrder(c));
  }

  lemma DoubleGroup(a: seq<AvlNode>, x: seq<AvlNode>, i: seq<AvlNode>, g: seq<AvlNode>, j: seq<AvlNode>, n: seq<AvlNode>, c: seq<AvlNode>)
    ensures (a + x + i) + g + (j + n + c) == (a + x + (i + g + j)) + n + c
    ensures (c + n + j) + g + (i + x + a) == c + n + ((j + g + i) + x + a)
  {}
}
