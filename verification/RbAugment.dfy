/**
 Augmented red-black trees (rbtree_augmented.h): each node caches the largest value of its subtree.
 The cache is right at a node if it agrees with the caches of the node's children.
 */
module RbAugment {
  import opened Sides
  import opened RbTree
  import opened RbMemory
  import opened RbRotate

  /** One step of the template: a child's cache counts if it is larger. */
  function Raise(max: int, a: map<RbNode, int>, child: RbNode?): int {
    if child != null && child in a && a[child] > max then a[child] else max
  }

  /** What the template computes for a node, from its value and its children. */
  function Computed(c: Cell, a: map<RbNode, int>, n: RbNode): int {
    Raise(Raise(n.value, a, c.left), a, c.right)
  }

  ghost predicate AugAt(m: map<RbNode, Cell>, a: map<RbNode, int>, n: RbNode) {
    n in m && n in a && a[n] == Computed(m[n], a, n)
  }

  ghost predicate AugOk(m: map<RbNode, Cell>, a: map<RbNode, int>, s: set<RbNode>) {
    forall n | n in s :: AugAt(m, a, n)
  }

  // ---------- what the caches mean ----------

  ghost predicate Largest(max: int, s: set<RbNode>) {
    (forall x | x in s :: x.value <= max) && exists x | x in s :: x.value == max
  }

  /** If every cache agrees with its children's, each holds the largest value of its whole subtree. */
  lemma {:induction false} CachesAreMaxima(m: map<RbNode, Cell>, a: map<RbNode, int>, t: Tree, parent: RbNode?)
    requires Rep(m, t, parent) && AugOk(m, a, Nodes(t)) && t.Node?
    ensures t.node in a && Largest(a[t.node], Nodes(t))
    decreases t
  {
    assert AugAt(m, a, t.node);
    if t.left.Node? {
      CachesAreMaxima(m, a, t.left, t.node);
      assert AugAt(m, a, t.left.node);
    }
    if t.right.Node? {
      CachesAreMaxima(m, a, t.right, t.node);
      assert AugAt(m, a, t.right.node);
    }
    var max := a[t.node];
    if max == t.node.value {
    } else if t.right.Node? && max == a[t.right.node] {
      var x :| x in Nodes(t.right) && x.value == max;
      assert x in Nodes(t);
    } else {
      var x :| x in Nodes(t.left) && x.value == max;
      assert x in Nodes(t);
    }
  }

  // ---------- parents are unique ----------

  ghost predicate ParentAt(m: map<RbNode, Cell>, n: RbNode, side: Side) {
    n in m && var k := KidOf(m[n], side); k != null ==> k in m && m[k].parent == n && KidOf(m[n], Other(side)) != k
  }

  ghost predicate ParentsOk(m: map<RbNode, Cell>, s: set<RbNode>) {
    forall n, side | n in s :: ParentAt(m, n, side)
  }

  lemma {:induction false} RepParents(m: map<RbNode, Cell>, t: Tree, parent: RbNode?)
    requires Rep(m, t, parent)
    ensures ParentsOk(m, Nodes(t))
  {
    if t.Node? {
      RepParents(m, t.left, t.node);
      RepParents(m, t.right, t.node);
    }
  }

  lemma HoldsParents(st: State, ctx: Context, t: Tree)
    requires Holds(st, ctx, t)
    ensures ParentsOk(st.mem, Nodes(Zip(ctx, t)))
  {
    HoldsZip(st, ctx, t);
    RepParents(st.mem, Zip(ctx, t), null);
  }

  // ---------- the rotate callback ----------

  /** The caches after augment_rotate(y, x): x takes over y's, and y's is computed anew. */
  function AugRotated(m: map<RbNode, Cell>, a: map<RbNode, int>, y: RbNode, x: RbNode): map<RbNode, int>
    requires y in m && y in a
  {
    var a1 := a[x := a[y]];
    a1[y := Computed(m[y], a1, y)]
  }

  /** A rotation keeps every cache right. */
  lemma RotationKeepsCaches(st: State, st': State, a: map<RbNode, int>, s: set<RbNode>,
                            side: Side, y: RbNode, x: RbNode, tmp: RbNode?, p: RbNode?, pside: Side, red: bool)
    requires CellsRotated(st, st', side, y, x, tmp, p, pside, red)
    requires AugOk(st.mem, a, s) && ParentsOk(st.mem, s) && x in s && y in s && (p != null ==> p in s) && x != y && p != x && p != y
    requires KidOf(st.mem[y], side) == x && KidOf(st.mem[x], Other(side)) == tmp && st.mem[y].parent == p && st.mem[x].parent == y
    requires p != null ==> KidOf(st.mem[p], pside) == y
    requires tmp != null ==> tmp != x && tmp != y && tmp != p
    ensures AugOk(st'.mem, AugRotated(st'.mem, a, y, x), s)
  {
    var a' := AugRotated(st'.mem, a, y, x);
    assert AugAt(st.mem, a, x) && AugAt(st.mem, a, y);
    forall n | n in s ensures AugAt(st'.mem, a', n) {
      assert AugAt(st.mem, a, n) && ParentAt(st.mem, n, Left) && ParentAt(st.mem, n, Right);
      if n == x {
        RotatedTop(st, st', a, s, side, y, x, tmp, p, pside, red);
      } else if n == y {
      } else if n == p {
        ParentOfRotated(st, st', a, side, y, x, tmp, p, pside, red);
      } else {
        assert KidOf(st.mem[n], Left) != x && KidOf(st.mem[n], Left) != y;
        assert KidOf(st.mem[n], Right) != x && KidOf(st.mem[n], Right) != y;
      }
    }
  }

  lemma RotatedTop(st: State, st': State, a: map<RbNode, int>, s: set<RbNode>,
                   side: Side, y: RbNode, x: RbNode, tmp: RbNode?, p: RbNode?, pside: Side, red: bool)
    requires CellsRotated(st, st', side, y, x, tmp, p, pside, red)
    requires AugAt(st.mem, a, x) && AugAt(st.mem, a, y) && x != y
    requires ParentAt(st.mem, x, Left) && ParentAt(st.mem, x, Right) && ParentAt(st.mem, y, Left) && ParentAt(st.mem, y, Right)
    requires KidOf(st.mem[y], side) == x && KidOf(st.mem[x], Other(side)) == tmp && st.mem[x].parent == y && st.mem[y].parent == p && p != x
    ensures AugAt(st'.mem, AugRotated(st'.mem, a, y, x), x)
  {
    var m, m' := st.mem, st'.mem;
    var a' := AugRotated(m', a, y, x);
    assert KidOf(m[x], side) != x && KidOf(m[x], side) != y && tmp != x && tmp != y by {
      assert KidOf(m[x], Left) != x && KidOf(m[x], Right) != x && KidOf(m[x], Left) != y && KidOf(m[x], Right) != y;
    }
    assert KidOf(m[y], Other(side)) != y && KidOf(m[y], Other(side)) != x by {
      assert KidOf(m[y], Left) != y && KidOf(m[y], Right) != y;
    }
    assert KidOf(m'[x], side) == KidOf(m[x], side) && KidOf(m'[x], Other(side)) == y;
    assert KidOf(m'[y], side) == tmp && KidOf(m'[y], Other(side)) == KidOf(m[y], Other(side));
    hide CellsRotated, KidOf, Computed, ParentAt;
    ComputedBySide(m[x], a, x, side);
    ComputedBySide(m[y], a, y, side);
    ComputedBySide(m'[y], a[x := a[y]], y, side);
    ComputedBySide(m'[x], a', x, side);
  }

  /** The order in which the children are looked at does not matter. */
  lemma ComputedBySide(c: Cell, a: map<RbNode, int>, n: RbNode, side: Side)
    ensures Computed(c, a, n) == Raise(Raise(n.value, a, KidOf(c, side)), a, KidOf(c, Other(side)))
  {}

  lemma ParentOfRotated(st: State, st': State, a: map<RbNode, int>,
                        side: Side, y: RbNode, x: RbNode, tmp: RbNode?, p: RbNode, pside: Side, red: bool)
    requires CellsRotated(st, st', side, y, x, tmp, p, pside, red)
    requires AugAt(st.mem, a, p) && ParentAt(st.mem, p, Left) && ParentAt(st.mem, p, Right) && y in a
    requires KidOf(st.mem[p], pside) == y && st.mem[x].parent == y && p != x && p != y && x != y
    ensures AugAt(st'.mem, AugRotated(st'.mem, a, y, x), p)
  {
    assert KidOf(st.mem[p], Other(pside)) != x && KidOf(st.mem[p], Other(pside)) != y;
  }

  // ---------- everything about one rotation ----------

  /** The focus in its context lies in memory, is all of it, and every cache is right. */
  ghost predicate Intact(st: State, a: map<RbNode, int>, ctx: Context, t: Tree) {
    && Holds(st, ctx, t) && st.mem.Keys == Nodes(Zip(ctx, t)) && a.Keys == st.mem.Keys
    && AugOk(st.mem, a, st.mem.Keys)
  }

  lemma IntactUp(st: State, a: map<RbNode, int>, ctx: Context, t: Tree)
    requires ctx != []
    ensures Intact(st, a, ctx, t) <==> Intact(st, a, ctx[1..], Plug(ctx[0], t))
  {
    HoldsUp(st, ctx, t);
  }

  lemma SameOrder(ctx: Context, t: Tree, t': Tree)
    requires InOrder(t) == InOrder(t')
    ensures InOrder(Zip(ctx, t)) == InOrder(Zip(ctx, t')) && Nodes(Zip(ctx, t)) == Nodes(Zip(ctx, t'))
  {
    ZipInOrder(ctx, t);
    ZipInOrder(ctx, t');
    InOrderNodes(Zip(ctx, t));
    InOrderNodes(Zip(ctx, t'));
  }

  lemma RotatedInOrder(side: Side, a: Tree, x: RbNode, xred: bool, b: Tree, y: RbNode, yred: bool, c: Tree, x': bool, y': bool)
    ensures InOrder(TreeRotated(side, a, x, x', b, y, y', c)) == InOrder(Make(side, Make(side, a, x, xred, b), y, yred, c))
  {
    hide InOrder, Make;
    MakeInOrder(side, a, x, xred, b);
    MakeInOrder(side, Make(side, a, x, xred, b), y, yred, c);
    MakeInOrder(side, b, y, y', c);
    MakeInOrder(side, a, x, x', Make(side, b, y, y', c));
    var p, q, r := InOrder(a), InOrder(b), InOrder(c);
    assert (p + [x] + q) + [y] + r == p + [x] + (q + [y] + r);
    assert r + [y] + (q + [x] + p) == (r + [y] + q) + [x] + p;
  }

  /** A rotation, with the rotate callback, keeps the nodes, their order, and the caches. */
  lemma RotationIntact(st: State, a: map<RbNode, int>, ctx: Context, side: Side,
                       ta: Tree, x: RbNode, xred: bool, tb: Tree, y: RbNode, yred: bool, tc: Tree, paint: bool, red: bool)
    requires Intact(st, a, ctx, Make(side, Make(side, ta, x, xred, tb), y, yred, tc)) && (paint ==> !IsRed(tb))
    ensures y in a && y in st.mem && x in st.mem
    ensures var st' := Rotated(st, side, y, x, paint, red); var t' := TreeRotated(side, ta, x, yred, tb, y, red, tc);
      && y in st'.mem && Intact(st', AugRotated(st'.mem, a, y, x), ctx, t')
      && InOrder(Zip(ctx, t')) == InOrder(Zip(ctx, Make(side, Make(side, ta, x, xred, tb), y, yred, tc)))
  {
    var t, t' := Make(side, Make(side, ta, x, xred, tb), y, yred, tc), TreeRotated(side, ta, x, yred, tb, y, red, tc);
    var st' := Rotated(st, side, y, x, paint, red);
    AroundHolds(st, ctx, side, ta, x, xred, tb, y, yred, tc);
    AroundTops(st, ctx, side, ta, x, xred, tb, y, yred, tc);
    AroundKids(st, ctx, side, ta, x, xred, tb, y, yred, tc);
    hide Rotated, Around, Make, TreeRotated, CellsRotated, AugOk, Holds, AugRotated, ParentsOk, KidOf;
    RotatedCells(st, side, y, x, Top(tb), Above(ctx), SideAbove(ctx), paint, red);
    RotatedHolds(st, ctx, side, ta, x, xred, tb, y, yred, tc, paint, red);
    HoldsParents(st, ctx, t);
    RotationKeepsCaches(st, st', a, st.mem.Keys, side, y, x, Top(tb), Above(ctx), SideAbove(ctx), red);
    RotatedKeys(st, st', a, side, y, x, Top(tb), Above(ctx), SideAbove(ctx), red);
    RotatedInOrder(side, ta, x, xred, tb, y, yred, tc, yred, red);
    SameOrder(ctx, t, t');
  }

  lemma AroundKids(st: State, ctx: Context, side: Side, ta: Tree, x: RbNode, xred: bool, tb: Tree, y: RbNode, yred: bool, tc: Tree)
    requires Around(st, ctx, side, ta, x, xred, tb, y, yred, tc)
    ensures KidOf(st.mem[y], side) == x && st.mem[x].parent == y
  {}

  lemma RotatedKeys(st: State, st': State, a: map<RbNode, int>, side: Side, y: RbNode, x: RbNode, tmp: RbNode?, p: RbNode?, pside: Side, red: bool)
    requires CellsRotated(st, st', side, y, x, tmp, p, pside, red) && a.Keys == st.mem.Keys
    ensures y in st'.mem && y in a && AugRotated(st'.mem, a, y, x).Keys == st'.mem.Keys && st'.mem.Keys == st.mem.Keys
  {}

  // ---------- painting ----------

  /** A node that keeps its parent gets a colour. */
  lemma PaintIntact(st: State, a: map<RbNode, int>, ctx: Context, t: Tree, red: bool)
    requires Intact(st, a, ctx, t) && t.Node?
    ensures t.node in st.mem && st.mem[t.node].parent == Above(ctx)
    ensures Intact(PutParentColor(st, t.node, Above(ctx), red), a, ctx, Painted(t, red))
    ensures InOrder(Zip(ctx, Painted(t, red))) == InOrder(Zip(ctx, t))
  {
    var st' := PutParentColor(st, t.node, Above(ctx), red);
    PaintHolds(st, ctx, t, red);
    hide AugOk, Holds, Zip;
    SameOrder(ctx, t, Painted(t, red));
    SameKids(st.mem, st'.mem, a, st.mem.Keys);
  }

  lemma PaintHolds(st: State, ctx: Context, t: Tree, red: bool)
    requires Holds(st, ctx, t) && t.Node?
    ensures t.node in st.mem && st.mem[t.node].parent == Above(ctx)
    ensures Holds(PutParentColor(st, t.node, Above(ctx), red), ctx, Painted(t, red))
  {
    var st' := PutParentColor(st, t.node, Above(ctx), red);
    RepIn(st.mem, t, Above(ctx));
    CtxIn(st.mem, ctx, t.node, st.root);
    PaintedNodes(t, red);
    assert t.node in Nodes(t) && t.node in st.mem && st.mem[t.node].parent == Above(ctx);
    hide Rep, RepCtx, Nodes, CtxNodes;
    RepMoved(st.mem, st'.mem, t, Above(ctx), Above(ctx), red);
    CtxFrame(st.mem, st'.mem, ctx, t.node, st.root);
  }

  lemma PaintedNodes(t: Tree, red: bool)
    ensures Nodes(Painted(t, red)) == Nodes(t) && Top(Painted(t, red)) == Top(t) && InOrder(Painted(t, red)) == InOrder(t)
  {}

  /** The caches depend on the child pointers only. */
  lemma SameKids(m: map<RbNode, Cell>, m': map<RbNode, Cell>, a: map<RbNode, int>, s: set<RbNode>)
    requires AugOk(m, a, s) && forall n | n in s && n in m :: n in m' && m'[n].left == m[n].left && m'[n].right == m[n].right
    ensures AugOk(m', a, s)
  {
    forall n | n in s ensures AugAt(m', a, n) { assert AugAt(m, a, n); }
  }

  /** The focus moves to the other child of the same parent. */
  lemma Across(ctx: Context, t: Tree)
    requires ctx != []
    ensures var c := ctx[0];
      Zip([Crumb(Other(c.side), c.node, c.red, t)] + ctx[1..], c.sibling) == Zip(ctx, t)
      && Plug(Crumb(Other(c.side), c.node, c.red, t), c.sibling) == Plug(c, t)
  {
    assert ([Crumb(Other(ctx[0].side), ctx[0].node, ctx[0].red, t)] + ctx[1..])[1..] == ctx[1..];
  }

  lemma AcrossIntact(st: State, a: map<RbNode, int>, ctx: Context, t: Tree)
    requires ctx != []
    ensures var c := ctx[0];
      Intact(st, a, [Crumb(Other(c.side), c.node, c.red, t)] + ctx[1..], c.sibling) <==> Intact(st, a, ctx, t)
  {
    var c := ctx[0];
    var ctx' := [Crumb(Other(c.side), c.node, c.red, t)] + ctx[1..];
    Across(ctx, t);
    hide Intact;
    IntactUp(st, a, ctx, t);
    IntactUp(st, a, ctx', c.sibling);
    assert ctx'[1..] == ctx[1..] && ctx'[0] == Crumb(Other(c.side), c.node, c.red, t);
  }

  // ---------- what the program can read ----------

  /** Following the parent pointer from the focus, and looking at the sibling. */
  lemma Read(st: State, a: map<RbNode, int>, ctx: Context, t: Tree)
    requires Intact(st, a, ctx, t)
    ensures t.Node? ==> t.node in st.mem && st.mem[t.node].parent == Above(ctx) && st.mem[t.node].red == t.red
    ensures t.Node? ==> st.mem[t.node].left == Top(t.left) && st.mem[t.node].right == Top(t.right)
    ensures ctx != [] ==> ctx[0].node in st.mem && st.mem[ctx[0].node].red == ctx[0].red
    ensures ctx != [] ==> st.mem[ctx[0].node].parent == Above(ctx[1..])
    ensures ctx != [] ==> KidOf(st.mem[ctx[0].node], ctx[0].side) == Top(t)
    ensures ctx != [] ==> KidOf(st.mem[ctx[0].node], Other(ctx[0].side)) == Top(ctx[0].sibling)
    ensures ctx != [] && ctx[0].sibling.Node? ==> Top(ctx[0].sibling) in st.mem && st.mem[Top(ctx[0].sibling)].red == IsRed(ctx[0].sibling)
    ensures ctx != [] && (t.Node? || ctx[0].sibling.Node?) ==> Top(ctx[0].sibling) != Top(t)
  {}
}
