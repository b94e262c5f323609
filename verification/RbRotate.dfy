/** Rotations of a red-black tree in memory, as rbtree.c performs them, and what they do to the tree. */
module RbRotate {
  import opened Sides
  import opened RbTree
  import opened RbMemory

  lemma MakeRep(m: map<RbNode, Cell>, side: Side, near: Tree, n: RbNode, red: bool, far: Tree, parent: RbNode?)
    ensures Rep(m, Make(side, near, n, red, far), parent) <==>
      && n in m && m[n] == WithKid(WithKid(Cell(null, null, parent, red), side, Top(near)), Other(side), Top(far))
      && Rep(m, near, n) && Rep(m, far, n)
      && n !in Nodes(near) && n !in Nodes(far) && Nodes(near) !! Nodes(far)
  {}

  lemma MakeNodes(side: Side, near: Tree, n: RbNode, red: bool, far: Tree)
    ensures Nodes(Make(side, near, n, red, far)) == Nodes(near) + {n} + Nodes(far)
    ensures Top(Make(side, near, n, red, far)) == n
  {}

  lemma MakeInOrder(side: Side, near: Tree, n: RbNode, red: bool, far: Tree)
    ensures InOrder(Make(side, near, n, red, far))
      == if side == Left then InOrder(near) + [n] + InOrder(far) else InOrder(far) + [n] + InOrder(near)
  {}

  // ---------- one rotation ----------

  /**
   Rotation at y: its child x on the given side takes its place and its colour, and y becomes red or
   black as told, below x on the other side.  The subtree between them gets y as its parent, and the
   colour black if paint is set.
   */
  function Rotated(st: State, side: Side, y: RbNode, x: RbNode, paint: bool, red: bool): State {
    RotateSetParents(KidsMoved(st, side, y, x, paint), y, x, red)
  }

  /** The first part of it: the child pointers and the subtree between. */
  function KidsMoved(st: State, side: Side, y: RbNode, x: RbNode, paint: bool): State {
    var tmp := KidOf(At(st, x), Other(side));
    var st1 := PutKid(PutKid(st, y, side, tmp), x, Other(side), y);
    if tmp == null then st1 else PutParentColor(st1, tmp, y, if paint then false else At(st1, tmp).red)
  }

  function TreeRotated(side: Side, a: Tree, x: RbNode, color: bool, b: Tree, y: RbNode, red: bool, c: Tree): Tree {
    Make(side, a, x, color, Make(side, b, y, red, c))
  }

  /** What holds of memory around the two nodes of a rotation. */
  ghost predicate Around(st: State, ctx: Context, side: Side, a: Tree, x: RbNode, xred: bool, b: Tree, y: RbNode, yred: bool, c: Tree) {
    && x in st.mem && y in st.mem && x != y
    && st.mem[y] == WithKid(WithKid(Cell(null, null, Above(ctx), yred), side, x), Other(side), Top(c))
    && st.mem[x] == WithKid(WithKid(Cell(null, null, y, xred), side, Top(a)), Other(side), Top(b))
    && RepCtx(st.mem, ctx, y, st.root)
    && Rep(st.mem, a, x) && Rep(st.mem, b, x) && Rep(st.mem, c, y)
    && x !in Nodes(a) + Nodes(b) + Nodes(c) && y !in Nodes(a) + Nodes(b) + Nodes(c)
    && Nodes(a) !! Nodes(b) && Nodes(a) + Nodes(b) !! Nodes(c)
    && x !in CtxNodes(ctx) && y !in CtxNodes(ctx) && Nodes(a) + Nodes(b) + Nodes(c) !! CtxNodes(ctx)
  }

  lemma AroundHolds(st: State, ctx: Context, side: Side, a: Tree, x: RbNode, xred: bool, b: Tree, y: RbNode, yred: bool, c: Tree)
    ensures Holds(st, ctx, Make(side, Make(side, a, x, xred, b), y, yred, c)) <==> Around(st, ctx, side, a, x, xred, b, y, yred, c)
  {
    hide Rep, RepCtx, Nodes, CtxNodes, Make;
    var t := Make(side, a, x, xred, b);
    MakeNodes(side, a, x, xred, b);
    MakeNodes(side, t, y, yred, c);
    MakeRep(st.mem, side, a, x, xred, b, y);
    MakeRep(st.mem, side, t, y, yred, c, Above(ctx));
  }

  ghost predicate AroundRotated(st: State, ctx: Context, side: Side, a: Tree, x: RbNode, xred: bool, b: Tree, y: RbNode, yred: bool, c: Tree) {
    && x in st.mem && y in st.mem && x != y
    && st.mem[x] == WithKid(WithKid(Cell(null, null, Above(ctx), xred), side, Top(a)), Other(side), y)
    && st.mem[y] == WithKid(WithKid(Cell(null, null, x, yred), side, Top(b)), Other(side), Top(c))
    && RepCtx(st.mem, ctx, x, st.root)
    && Rep(st.mem, a, x) && Rep(st.mem, b, y) && Rep(st.mem, c, y)
    && x !in Nodes(a) + Nodes(b) + Nodes(c) && y !in Nodes(a) + Nodes(b) + Nodes(c)
    && Nodes(a) !! Nodes(b) && Nodes(a) + Nodes(b) !! Nodes(c)
    && x !in CtxNodes(ctx) && y !in CtxNodes(ctx) && Nodes(a) + Nodes(b) + Nodes(c) !! CtxNodes(ctx)
  }

  lemma AroundRotatedHolds(st: State, ctx: Context, side: Side, a: Tree, x: RbNode, xred: bool, b: Tree, y: RbNode, yred: bool, c: Tree)
    ensures Holds(st, ctx, TreeRotated(side, a, x, xred, b, y, yred, c)) <==> AroundRotated(st, ctx, side, a, x, xred, b, y, yred, c)
  {
    hide Rep, RepCtx, Nodes, CtxNodes, Make;
    var t := Make(side, b, y, yred, c);
    MakeNodes(side, b, y, yred, c);
    MakeNodes(side, a, x, xred, t);
    MakeRep(st.mem, side, b, y, yred, c, x);
    MakeRep(st.mem, side, a, x, xred, t, Above(ctx));
  }

  /** st' is st but for what a rotation changes: y's child x, x's child tmp, and y's parent p. */
  ghost predicate CellsRotated(st: State, st': State, side: Side, y: RbNode, x: RbNode, tmp: RbNode?, p: RbNode?, pside: Side, red: bool) {
    && x in st.mem && y in st.mem && (p != null ==> p in st.mem) && (tmp != null ==> tmp in st.mem)
    && st'.mem.Keys == st.mem.Keys
    && st'.mem[x] == WithKid(st.mem[x].(parent := p, red := st.mem[y].red), Other(side), y)
    && st'.mem[y] == WithKid(st.mem[y].(parent := x, red := red), side, tmp)
    && (tmp != null ==> st'.mem[tmp] == st.mem[tmp].(parent := y))
    && (forall n | n in st.mem && n != x && n != y && n != tmp && n != p :: st'.mem[n] == st.mem[n])
    && st'.root == (if p == null then x else st.root)
    && (p != null ==> st'.mem[p] == WithKid(st.mem[p], pside, x))
  }

  /** The memory after a rotation, node by node. */
  lemma RotatedCells(st: State, side: Side, y: RbNode, x: RbNode, tmp: RbNode?, p: RbNode?, pside: Side, paint: bool, red: bool)
    requires x in st.mem && y in st.mem && x != y && KidOf(st.mem[x], Other(side)) == tmp && st.mem[y].parent == p
    requires tmp != null ==> tmp in st.mem && tmp != x && tmp != y && (paint ==> !st.mem[tmp].red)
    requires p != null ==> p in st.mem && p != x && p != y && p != tmp
    requires p != null ==> KidOf(st.mem[p], pside) == y && KidOf(st.mem[p], Other(pside)) != y
    ensures CellsRotated(st, Rotated(st, side, y, x, paint, red), side, y, x, tmp, p, pside, red)
  {
    KidsMovedCells(st, side, y, x, tmp, paint);
    var st2 := KidsMoved(st, side, y, x, paint);
    hide KidsMoved, RotateSetParents;
    assert p != null ==> st2.mem[p] == st.mem[p];
    RotatedParents(st2, y, x, p, pside, red);
  }

  lemma KidsMovedCells(st: State, side: Side, y: RbNode, x: RbNode, tmp: RbNode?, paint: bool)
    requires x in st.mem && y in st.mem && x != y && KidOf(st.mem[x], Other(side)) == tmp
    requires tmp != null ==> tmp in st.mem && tmp != x && tmp != y && (paint ==> !st.mem[tmp].red)
    ensures var st' := KidsMoved(st, side, y, x, paint);
      && st'.mem.Keys == st.mem.Keys && st'.root == st.root
      && st'.mem[x] == WithKid(st.mem[x], Other(side), y)
      && st'.mem[y] == WithKid(st.mem[y], side, tmp)
      && (tmp != null ==> st'.mem[tmp] == st.mem[tmp].(parent := y))
      && (forall n | n in st.mem && n != x && n != y && n != tmp :: st'.mem[n] == st.mem[n])
  {}

  lemma RotatedParents(st: State, y: RbNode, x: RbNode, p: RbNode?, pside: Side, red: bool)
    requires x in st.mem && y in st.mem && x != y && st.mem[y].parent == p
    requires p != null ==> p in st.mem && p != x && p != y
    requires p != null ==> KidOf(st.mem[p], pside) == y && KidOf(st.mem[p], Other(pside)) != y
    ensures var st' := RotateSetParents(st, y, x, red);
      && st'.mem.Keys == st.mem.Keys
      && st'.mem[x] == st.mem[x].(parent := p, red := st.mem[y].red)
      && st'.mem[y] == st.mem[y].(parent := x, red := red)
      && (forall n | n in st.mem && n != x && n != y && n != p :: st'.mem[n] == st.mem[n])
      && st'.root == (if p == null then x else st.root)
      && (p != null ==> st'.mem[p] == WithKid(st.mem[p], pside, x))
  {}

  /** A rotation in memory is a rotation of the tree. */
  lemma RotatedHolds(st: State, ctx: Context, side: Side, a: Tree, x: RbNode, xred: bool, b: Tree, y: RbNode, yred: bool, c: Tree,
                     paint: bool, red: bool)
    requires Holds(st, ctx, Make(side, Make(side, a, x, xred, b), y, yred, c)) && (paint ==> !IsRed(b))
    ensures Holds(Rotated(st, side, y, x, paint, red), ctx, TreeRotated(side, a, x, yred, b, y, red, c))
  {
    AroundHolds(st, ctx, side, a, x, xred, b, y, yred, c);
    AroundTops(st, ctx, side, a, x, xred, b, y, yred, c);
    var st' := Rotated(st, side, y, x, paint, red);
    hide Rotated, Holds, Make, TreeRotated, Around, AroundRotated, CellsRotated, KidOf;
    RotatedCells(st, side, y, x, Top(b), Above(ctx), SideAbove(ctx), paint, red);
    PiecesStay(st, st', ctx, side, a, x, xred, b, y, yred, c, red);
    PieceMoves(st, st', ctx, side, a, x, xred, b, y, yred, c, red);
    ContextMoves(st, st', ctx, side, a, x, xred, b, y, yred, c, red);
    AroundRotatedIntro(st, st', ctx, side, a, x, xred, b, y, yred, c, red);
    AroundRotatedHolds(st', ctx, side, a, x, yred, b, y, red, c);
  }

  function SideAbove(ctx: Context): Side {
    if ctx == [] then Left else ctx[0].side
  }

  lemma AroundTops(st: State, ctx: Context, side: Side, a: Tree, x: RbNode, xred: bool, b: Tree, y: RbNode, yred: bool, c: Tree)
    requires Around(st, ctx, side, a, x, xred, b, y, yred, c)
    ensures var tmp, p := Top(b), Above(ctx);
      && x in st.mem && y in st.mem && x != y && KidOf(st.mem[x], Other(side)) == tmp && st.mem[y].parent == p
      && (tmp != null ==> tmp in st.mem && tmp != x && tmp != y && st.mem[tmp].red == IsRed(b))
      && (p != null ==> p in st.mem && p != x && p != y && p != tmp)
      && (p != null ==> KidOf(st.mem[p], SideAbove(ctx)) == y && KidOf(st.mem[p], Other(SideAbove(ctx))) != y)
  {
    AroundParent(st, ctx, y);
    RepIn(st.mem, b, x);
  }

  lemma PiecesStay(st: State, st': State, ctx: Context, side: Side, a: Tree, x: RbNode, xred: bool, b: Tree, y: RbNode, yred: bool, c: Tree, red: bool)
    requires Around(st, ctx, side, a, x, xred, b, y, yred, c)
    requires CellsRotated(st, st', side, y, x, Top(b), Above(ctx), SideAbove(ctx), red)
    ensures Rep(st'.mem, a, x) && Rep(st'.mem, c, y)
  {
    RepIn(st.mem, a, x);
    RepIn(st.mem, c, y);
    TopIn(ctx, b);
    hide Rep, RepCtx, Nodes, CtxNodes;
    RepFrame(st.mem, st'.mem, a, x);
    RepFrame(st.mem, st'.mem, c, y);
  }

  lemma TopIn(ctx: Context, t: Tree)
    ensures ctx != [] ==> Above(ctx) in CtxNodes(ctx)
    ensures t.Node? ==> t.node in Nodes(t)
  {}

  lemma PieceMoves(st: State, st': State, ctx: Context, side: Side, a: Tree, x: RbNode, xred: bool, b: Tree, y: RbNode, yred: bool, c: Tree, red: bool)
    requires Around(st, ctx, side, a, x, xred, b, y, yred, c)
    requires CellsRotated(st, st', side, y, x, Top(b), Above(ctx), SideAbove(ctx), red)
    ensures Rep(st'.mem, b, y)
  {
    RepIn(st.mem, b, x);
    TopIn(ctx, b);
    assert b.Node? ==> st.mem[b.node].red == b.red;
    hide Rep, RepCtx, Nodes, CtxNodes;
    RepMoved(st.mem, st'.mem, b, x, y, IsRed(b));
  }

  lemma ContextMoves(st: State, st': State, ctx: Context, side: Side, a: Tree, x: RbNode, xred: bool, b: Tree, y: RbNode, yred: bool, c: Tree, red: bool)
    requires Around(st, ctx, side, a, x, xred, b, y, yred, c)
    requires CellsRotated(st, st', side, y, x, Top(b), Above(ctx), SideAbove(ctx), red)
    ensures RepCtx(st'.mem, ctx, x, st'.root)
  {
    CtxIn(st.mem, ctx, y, st.root);
    TopIn(ctx, b);
    hide Rep, RepCtx, Nodes, CtxNodes;
    CtxMoved(st, st', ctx, y, x);
  }

  lemma AroundRotatedIntro(st: State, st': State, ctx: Context, side: Side, a: Tree, x: RbNode, xred: bool, b: Tree, y: RbNode, yred: bool,
                           c: Tree, red: bool)
    requires Around(st, ctx, side, a, x, xred, b, y, yred, c)
    requires CellsRotated(st, st', side, y, x, Top(b), Above(ctx), SideAbove(ctx), red)
    requires Rep(st'.mem, a, x) && Rep(st'.mem, b, y) && Rep(st'.mem, c, y) && RepCtx(st'.mem, ctx, x, st'.root)
    ensures AroundRotated(st', ctx, side, a, x, yred, b, y, red, c)
  {
    hide Rep, RepCtx, Nodes, CtxNodes;
  }

  lemma AroundParent(st: State, ctx: Context, y: RbNode)
    requires RepCtx(st.mem, ctx, y, st.root) && y !in CtxNodes(ctx)
    ensures ctx != [] ==> Above(ctx) in st.mem && Above(ctx) in CtxNodes(ctx)
    ensures ctx != [] ==> KidOf(st.mem[Above(ctx)], ctx[0].side) == y && KidOf(st.mem[Above(ctx)], Other(ctx[0].side)) != y
  {}
}
