/** Rotations of an AVL tree in memory (avl.c: avl_rotation). */
module AvlRotate {
  import opened Sides
  import opened AvlTree
  import opened AvlMemory

  /** Nothing changes but the cells of the given nodes. */
  ghost predicate Elsewhere(st: State, st': State, s: set<AvlNode>) {
    st'.mem.Keys == st.mem.Keys && forall k | k in st.mem && k !in s :: st'.mem[k] == st.mem[k]
  }

  function Some(x: AvlNode?): set<AvlNode> {
    if x == null then {} else {x}
  }

  /** The pointer into the subtree has been set. */
  ghost predicate LinkSet(st: State, st': State, ctx: Context, x: AvlNode?) {
    if ctx == [] then st'.root == x else
      st'.root == st.root && ctx[0].node in st.mem && ctx[0].node in st'.mem
      && st'.mem[ctx[0].node] == WithKid(st.mem[ctx[0].node], ctx[0].side, x)
  }

  /** A subtree whose top, if any, has moved below p. */
  ghost predicate MovedTo(st: State, st': State, x: AvlNode?, p: AvlNode, side: Side) {
    x != null ==> x in st.mem && x in st'.mem && st'.mem[x] == st.mem[x].(parent := p, side := side)
  }

  lemma MoveTree(st: State, st': State, t: Tree, p: AvlNode, side: Side, p': AvlNode, side': Side, s: set<AvlNode>)
    requires Rep(st.mem, t, p, side) && Elsewhere(st, st', s) && MovedTo(st, st', Top(t), p', side')
    requires forall k | k in s && k in Nodes(t) :: k == Top(t)
    ensures Rep(st'.mem, t, p', side')
  {
    RepIn(st.mem, t, p, side);
    RepMoved(st.mem, st'.mem, t, p, side, p', side');
  }

  lemma StayTree(st: State, st': State, t: Tree, p: AvlNode, side: Side, s: set<AvlNode>)
    requires Rep(st.mem, t, p, side) && Elsewhere(st, st', s) && s !! Nodes(t)
    ensures Rep(st'.mem, t, p, side)
  {
    RepIn(st.mem, t, p, side);
    RepFrame(st.mem, st'.mem, t, p, side);
  }

  lemma MoveCtx(st: State, st': State, ctx: Context, hole: AvlNode?, hole': AvlNode?, rs: Side, s: set<AvlNode>)
    requires RepCtx(st.mem, ctx, hole, st.root, rs) && Elsewhere(st, st', s) && LinkSet(st, st', ctx, hole')
    requires forall k | k in s && k in CtxNodes(ctx) :: k == Above(ctx)
    ensures RepCtx(st'.mem, ctx, hole', st'.root, rs)
  {
    CtxIn(st.mem, ctx, hole, st.root, rs);
    CtxMoved(st, st', ctx, hole, hole', rs);
  }

  // ---------- case 1 ----------

  /** The child's inner subtree moves to the node. */
  function Slid(st: State, s: Side, n: AvlNode, x: AvlNode): State {
    var b := KidOf(At(st, x), Other(s));
    var st1 := PutKid(st, n, s, b);
    if b == null then st1 else PutParent(st1, b, n, s)
  }

  /** The node moves below the child. */
  function Raised(st: State, s: Side, n: AvlNode, x: AvlNode, cb: int, p: AvlNode?, which: Side): State {
    var st4 := PutParent(PutBalance(PutKid(st, x, Other(s), n), n, -cb), n, x, Other(s));
    PutLink(PutParent(PutBalance(st4, x, cb), x, p, which), p, which, x)
  }

  /** The writes of case 1. */
  function Single(st: State, s: Side, n: AvlNode, x: AvlNode, cb: int, p: AvlNode?, which: Side): State {
    Raised(Slid(st, s, n, x), s, n, x, cb, p, which)
  }

  /** The nodes around a rotation and their cells. */
  ghost predicate SingleBefore(st: State, s: Side, n: AvlNode, x: AvlNode, a: AvlNode?, b: AvlNode?, c: AvlNode?, p: AvlNode?, which: Side) {
    && n in st.mem && x in st.mem && n != x && (b != null ==> b in st.mem && b != n && b != x) && (p != null ==> p in st.mem && p != n && p != x && p != b)
    && KidOf(st.mem[n], Other(s)) == c && KidOf(st.mem[x], s) == a && KidOf(st.mem[x], Other(s)) == b
  }

  lemma SingleCells(st: State, s: Side, n: AvlNode, x: AvlNode, a: AvlNode?, b: AvlNode?, c: AvlNode?, p: AvlNode?, which: Side, cb: int)
    requires SingleBefore(st, s, n, x, a, b, c, p, which)
    ensures var st' := Single(st, s, n, x, cb, p, which);
      && Elsewhere(st, st', {n, x} + Some(b) + Some(p))
      && st'.mem[x] == CellOf(s, a, n, p, which, cb) && st'.mem[n] == CellOf(s, b, c, x, Other(s), -cb)
      && MovedTo(st, st', b, n, s)
      && (if p == null then st'.root == x else st'.root == st.root && st'.mem[p] == WithKid(st.mem[p], which, x))
  {
    SingleTwo(st, s, n, x, a, b, c, p, which, cb);
    SingleRest(st, s, n, x, a, b, c, p, which, cb);
    SingleLinks(st, s, n, x, a, b, c, p, which, cb);
    hide Single, SingleBefore, Elsewhere, MovedTo, CellOf, WithKid;
  }

  /** The two nodes that the rotation turns. */
  lemma SingleTwo(st: State, s: Side, n: AvlNode, x: AvlNode, a: AvlNode?, b: AvlNode?, c: AvlNode?, p: AvlNode?, which: Side, cb: int)
    requires SingleBefore(st, s, n, x, a, b, c, p, which)
    ensures var st' := Single(st, s, n, x, cb, p, which);
      && n in st'.mem && x in st'.mem && (p != null ==> p in st.mem)
      && st'.mem[x] == CellOf(s, a, n, p, which, cb) && st'.mem[n] == CellOf(s, b, c, x, Other(s), -cb)
  {}

  /** The parent, and the subtree between. */
  lemma SingleLinks(st: State, s: Side, n: AvlNode, x: AvlNode, a: AvlNode?, b: AvlNode?, c: AvlNode?, p: AvlNode?, which: Side, cb: int)
    requires SingleBefore(st, s, n, x, a, b, c, p, which)
    ensures var st' := Single(st, s, n, x, cb, p, which);
      && MovedTo(st, st', b, n, s) && (p != null ==> p in st.mem && p in st'.mem)
      && (if p == null then st'.root == x else st'.root == st.root && st'.mem[p] == WithKid(st.mem[p], which, x))
  {}

  /** The others. */
  lemma SingleRest(st: State, s: Side, n: AvlNode, x: AvlNode, a: AvlNode?, b: AvlNode?, c: AvlNode?, p: AvlNode?, which: Side, cb: int)
    requires SingleBefore(st, s, n, x, a, b, c, p, which)
    ensures var st' := Single(st, s, n, x, cb, p, which);
      Elsewhere(st, st', {n, x} + Some(b) + Some(p))
  {}

  /** A rotation of case 1 in memory is a rotation of the tree. */
  lemma SingleHolds(st: State, ctx: Context, s: Side, a: Tree, x: AvlNode, xb: int, b: Tree, n: AvlNode, nb: int, c: Tree, rs: Side, cb: int)
    requires Holds(st, ctx, Make(s, Make(s, a, x, xb, b), n, nb, c), rs)
    ensures SingleBefore(st, s, n, x, Top(a), Top(b), Top(c), Above(ctx), SideOf(ctx, rs))
    ensures Holds(Single(st, s, n, x, cb, Above(ctx), SideOf(ctx, rs)), ctx, Make(s, a, x, cb, Make(s, b, n, -cb, c)), rs)
  {
    hide Single, Rep, RepCtx, Nodes, CtxNodes, Make, Holds, Elsewhere, MovedTo;
    SingleFacts(st, ctx, s, a, x, xb, b, n, nb, c, rs);
    var p, which := Above(ctx), SideOf(ctx, rs);
    var st' := Single(st, s, n, x, cb, p, which);
    SingleCells(st, s, n, x, Top(a), Top(b), Top(c), p, which, cb);
    SameKeys(st, st', {n, x} + Some(Top(b)) + Some(p));
    DoubleLink(st, st', ctx, x, p, which, rs, n);
    SingleMoves(st, st', ctx, s, a, x, b, n, c, rs);
    SingleDone(st', ctx, s, a, x, cb, b, n, -cb, c, rs);
  }

  lemma SingleMoves(st: State, st': State, ctx: Context, s: Side, a: Tree, x: AvlNode, b: Tree, n: AvlNode, c: Tree, rs: Side)
    requires Rep(st.mem, a, x, s) && Rep(st.mem, b, x, Other(s)) && Rep(st.mem, c, n, Other(s)) && RepCtx(st.mem, ctx, n, st.root, rs)
    requires n !in Nodes(a) + Nodes(b) + Nodes(c) + CtxNodes(ctx) && x !in Nodes(a) + Nodes(b) + Nodes(c) + CtxNodes(ctx) && n != x
    requires Nodes(a) !! Nodes(b) && Nodes(a) + Nodes(b) !! Nodes(c) && Nodes(a) + Nodes(b) + Nodes(c) !! CtxNodes(ctx)
    requires Elsewhere(st, st', {n, x} + Some(Top(b)) + Some(Above(ctx))) && MovedTo(st, st', Top(b), n, s) && LinkSet(st, st', ctx, x)
    ensures Rep(st'.mem, a, x, s) && Rep(st'.mem, b, n, s) && Rep(st'.mem, c, n, Other(s)) && RepCtx(st'.mem, ctx, x, st'.root, rs)
  {
    hide Rep, RepCtx, Nodes, CtxNodes, Elsewhere, MovedTo, LinkSet;
    var w := {n, x} + Some(Top(b)) + Some(Above(ctx));
    CtxTop(ctx);
    TopIn(ctx, b);
    StayTree(st, st', a, x, s, w);
    MoveTree(st, st', b, x, Other(s), n, s, w);
    StayTree(st, st', c, n, Other(s), w);
    MoveCtx(st, st', ctx, n, x, rs, w);
  }

  lemma CtxTop(ctx: Context)
    ensures ctx != [] ==> Above(ctx) == ctx[0].node && Above(ctx) in CtxNodes(ctx)
  {}

  lemma SingleFacts(st: State, ctx: Context, s: Side, a: Tree, x: AvlNode, xb: int, b: Tree, n: AvlNode, nb: int, c: Tree, rs: Side)
    requires Holds(st, ctx, Make(s, Make(s, a, x, xb, b), n, nb, c), rs)
    ensures SingleBefore(st, s, n, x, Top(a), Top(b), Top(c), Above(ctx), SideOf(ctx, rs))
    ensures Rep(st.mem, a, x, s) && Rep(st.mem, b, x, Other(s)) && Rep(st.mem, c, n, Other(s)) && RepCtx(st.mem, ctx, n, st.root, rs)
    ensures n !in Nodes(a) + Nodes(b) + Nodes(c) + CtxNodes(ctx) && x !in Nodes(a) + Nodes(b) + Nodes(c) + CtxNodes(ctx) && n != x
    ensures Nodes(a) !! Nodes(b) && Nodes(a) + Nodes(b) !! Nodes(c) && Nodes(a) + Nodes(b) + Nodes(c) !! CtxNodes(ctx)
    ensures n in st.mem && x in st.mem && (ctx != [] ==> ctx[0].node in st.mem)
  {
    hide Rep, RepCtx, Nodes, CtxNodes, Make, Holds;
    SinglePieces(st, ctx, s, a, x, xb, b, n, nb, c, rs);
    CtxTop(ctx);
    TopIn(ctx, b);
    RepIn(st.mem, b, x, Other(s));
    CtxIn(st.mem, ctx, n, st.root, rs);
  }

  lemma SinglePieces(st: State, ctx: Context, s: Side, a: Tree, x: AvlNode, xb: int, b: Tree, n: AvlNode, nb: int, c: Tree, rs: Side)
    requires Holds(st, ctx, Make(s, Make(s, a, x, xb, b), n, nb, c), rs)
    ensures n in st.mem && x in st.mem && n != x
    ensures KidOf(st.mem[n], Other(s)) == Top(c) && KidOf(st.mem[x], s) == Top(a) && KidOf(st.mem[x], Other(s)) == Top(b)
    ensures Rep(st.mem, a, x, s) && Rep(st.mem, b, x, Other(s)) && Rep(st.mem, c, n, Other(s)) && RepCtx(st.mem, ctx, n, st.root, rs)
    ensures n !in Nodes(a) + Nodes(b) + Nodes(c) + CtxNodes(ctx) && x !in Nodes(a) + Nodes(b) + Nodes(c) + CtxNodes(ctx)
    ensures Nodes(a) !! Nodes(b) && Nodes(a) + Nodes(b) !! Nodes(c) && Nodes(a) + Nodes(b) + Nodes(c) !! CtxNodes(ctx)
  {
    hide Rep, RepCtx, Nodes, CtxNodes, Make;
    var t := Make(s, a, x, xb, b);
    MakeRep(st.mem, s, a, x, xb, b, n, s);
    MakeRep(st.mem, s, t, n, nb, c, Above(ctx), SideOf(ctx, rs));
    MakeNodes(s, a, x, xb, b);
    MakeNodes(s, t, n, nb, c);
  }

  lemma SingleDone(st: State, ctx: Context, s: Side, a: Tree, x: AvlNode, xb: int, b: Tree, n: AvlNode, nb: int, c: Tree, rs: Side)
    requires n in st.mem && x in st.mem && n != x
    requires st.mem[x] == CellOf(s, Top(a), n, Above(ctx), SideOf(ctx, rs), xb) && st.mem[n] == CellOf(s, Top(b), Top(c), x, Other(s), nb)
    requires Rep(st.mem, a, x, s) && Rep(st.mem, b, n, s) && Rep(st.mem, c, n, Other(s)) && RepCtx(st.mem, ctx, x, st.root, rs)
    requires n !in Nodes(a) + Nodes(b) + Nodes(c) + CtxNodes(ctx) && x !in Nodes(a) + Nodes(b) + Nodes(c) + CtxNodes(ctx)
    requires Nodes(a) !! Nodes(b) && Nodes(a) + Nodes(b) !! Nodes(c) && Nodes(a) + Nodes(b) + Nodes(c) !! CtxNodes(ctx)
    ensures Holds(st, ctx, Make(s, a, x, xb, Make(s, b, n, nb, c)), rs)
  {
    hide Rep, RepCtx, Nodes, CtxNodes, Make;
    var t := Make(s, b, n, nb, c);
    MakeRep(st.mem, s, b, n, nb, c, x, Other(s));
    MakeRep(st.mem, s, a, x, xb, t, Above(ctx), SideOf(ctx, rs));
    MakeNodes(s, b, n, nb, c);
    MakeNodes(s, a, x, xb, t);
  }

  // ---------- case 2 ----------

  /** The grandchild's subtrees move to the two nodes around them. */
  function Parted(st: State, s: Side, n: AvlNode, x: AvlNode, g: AvlNode): State {
    var gl, gr := KidOf(At(st, g), s), KidOf(At(st, g), Other(s));
    var st1 := PutKid(st, n, s, gr);
    var st2 := if gr == null then st1 else PutParent(st1, gr, n, s);
    var st3 := PutKid(st2, x, Other(s), gl);
    if gl == null then st3 else PutParent(st3, gl, x, Other(s))
  }

  /** The two nodes move below the grandchild. */
  function Crowned(st: State, s: Side, n: AvlNode, x: AvlNode, g: AvlNode, xb: int, nb: int, p: AvlNode?, which: Side): State {
    var st1 := PutParent(PutBalance(PutKid(st, g, s, x), x, xb), x, g, s);
    var st2 := PutParent(PutBalance(PutKid(st1, g, Other(s), n), n, nb), n, g, Other(s));
    PutLink(PutParent(PutBalance(st2, g, 0), g, p, which), p, which, g)
  }

  /** The writes of case 2. */
  function Double(st: State, s: Side, n: AvlNode, x: AvlNode, g: AvlNode, xb: int, nb: int, p: AvlNode?, which: Side): State {
    Crowned(Parted(st, s, n, x, g), s, n, x, g, xb, nb, p, which)
  }

  ghost predicate DoubleBefore(st: State, s: Side, n: AvlNode, x: AvlNode, g: AvlNode, a: AvlNode?, gl: AvlNode?, gr: AvlNode?, c: AvlNode?, p: AvlNode?) {
    && n in st.mem && x in st.mem && g in st.mem && n != x && n != g && x != g
    && (gl != null ==> gl in st.mem && gl != n && gl != x && gl != g && gl != gr && gl != p)
    && (gr != null ==> gr in st.mem && gr != n && gr != x && gr != g && gr != p)
    && (p != null ==> p in st.mem && p != n && p != x && p != g)
    && KidOf(st.mem[n], Other(s)) == c && KidOf(st.mem[x], s) == a && KidOf(st.mem[g], s) == gl && KidOf(st.mem[g], Other(s)) == gr
  }

  lemma PartedCells(st: State, s: Side, n: AvlNode, x: AvlNode, g: AvlNode, a: AvlNode?, gl: AvlNode?, gr: AvlNode?, c: AvlNode?, p: AvlNode?)
    requires DoubleBefore(st, s, n, x, g, a, gl, gr, c, p)
    ensures var st' := Parted(st, s, n, x, g);
      && Elsewhere(st, st', {n, x} + Some(gl) + Some(gr)) && st'.root == st.root
      && st'.mem[n] == WithKid(st.mem[n], s, gr) && st'.mem[x] == WithKid(st.mem[x], Other(s), gl)
      && MovedTo(st, st', gl, x, Other(s)) && MovedTo(st, st', gr, n, s) && st'.mem[g] == st.mem[g] && (p != null ==> st'.mem[p] == st.mem[p])
  {}

  lemma CrownedCells(st: State, s: Side, n: AvlNode, x: AvlNode, g: AvlNode, a: AvlNode?, gl: AvlNode?, gr: AvlNode?, c: AvlNode?,
                     p: AvlNode?, which: Side, xb: int, nb: int)
    requires n in st.mem && x in st.mem && g in st.mem && n != x && n != g && x != g && (p != null ==> p in st.mem && p != n && p != x && p != g)
    requires KidOf(st.mem[n], s) == gr && KidOf(st.mem[n], Other(s)) == c && KidOf(st.mem[x], s) == a && KidOf(st.mem[x], Other(s)) == gl
    ensures var st' := Crowned(st, s, n, x, g, xb, nb, p, which);
      && Elsewhere(st, st', {n, x, g} + Some(p))
      && st'.mem[g] == CellOf(s, x, n, p, which, 0) && st'.mem[x] == CellOf(s, a, gl, g, s, xb) && st'.mem[n] == CellOf(s, gr, c, g, Other(s), nb)
      && (if p == null then st'.root == g else st'.root == st.root && st'.mem[p] == WithKid(st.mem[p], which, g))
  {
    CrownedRest(st, s, n, x, g, p, which, xb, nb);
    hide Elsewhere;
  }

  lemma CrownedRest(st: State, s: Side, n: AvlNode, x: AvlNode, g: AvlNode, p: AvlNode?, which: Side, xb: int, nb: int)
    requires n in st.mem && x in st.mem && g in st.mem && n != x && n != g && x != g && (p != null ==> p in st.mem && p != n && p != x && p != g)
    ensures Elsewhere(st, Crowned(st, s, n, x, g, xb, nb, p, which), {n, x, g} + Some(p))
  {}

  lemma DoubleCells(st: State, s: Side, n: AvlNode, x: AvlNode, g: AvlNode, a: AvlNode?, gl: AvlNode?, gr: AvlNode?, c: AvlNode?,
                    p: AvlNode?, which: Side, xb: int, nb: int)
    requires DoubleBefore(st, s, n, x, g, a, gl, gr, c, p)
    ensures var st' := Double(st, s, n, x, g, xb, nb, p, which);
      && Elsewhere(st, st', {n, x, g} + Some(gl) + Some(gr) + Some(p))
      && st'.mem[g] == CellOf(s, x, n, p, which, 0) && st'.mem[x] == CellOf(s, a, gl, g, s, xb) && st'.mem[n] == CellOf(s, gr, c, g, Other(s), nb)
      && MovedTo(st, st', gl, x, Other(s)) && MovedTo(st, st', gr, n, s)
      && (if p == null then st'.root == g else st'.root == st.root && st'.mem[p] == WithKid(st.mem[p], which, g))
  {
    hide Parted, Crowned, Elsewhere, MovedTo, CellOf;
    var st1, st2 := Parted(st, s, n, x, g), Double(st, s, n, x, g, xb, nb, p, which);
    var w1, w2 := {n, x} + Some(gl) + Some(gr), {n, x, g} + Some(p);
    PartedCells(st, s, n, x, g, a, gl, gr, c, p);
    SameKeys(st, st1, w1);
    CrownedCells(st1, s, n, x, g, a, gl, gr, c, p, which, xb, nb);
    SameKeys(st1, st2, w2);
    MovedStays(st, st1, st2, gl, x, Other(s), w2);
    MovedStays(st, st1, st2, gr, n, s, w2);
    Joined(st, st1, st2, w1, w2, {n, x, g} + Some(gl) + Some(gr) + Some(p));
  }

  lemma SameKeys(st: State, st': State, w: set<AvlNode>)
    requires Elsewhere(st, st', w)
    ensures st'.mem.Keys == st.mem.Keys
  {}

  lemma MovedStays(st: State, st1: State, st2: State, x: AvlNode?, p: AvlNode, side: Side, w: set<AvlNode>)
    requires MovedTo(st, st1, x, p, side) && Elsewhere(st1, st2, w) && (x != null ==> x !in w)
    ensures MovedTo(st, st2, x, p, side)
  {}

  lemma Joined(st: State, st1: State, st2: State, w1: set<AvlNode>, w2: set<AvlNode>, w: set<AvlNode>)
    requires Elsewhere(st, st1, w1) && Elsewhere(st1, st2, w2) && w1 <= w && w2 <= w
    ensures Elsewhere(st, st2, w)
  {}

  /** The tree around a double rotation, taken apart. */
  ghost predicate DoubleParts(st: State, ctx: Context, s: Side, a: Tree, x: AvlNode, gl: Tree, g: AvlNode, gr: Tree, n: AvlNode, c: Tree, rs: Side) {
    && Rep(st.mem, a, x, s) && Rep(st.mem, gl, g, s) && Rep(st.mem, gr, g, Other(s)) && Rep(st.mem, c, n, Other(s)) && RepCtx(st.mem, ctx, n, st.root, rs)
  }

  ghost predicate DoubleApart(ctx: Context, a: Tree, x: AvlNode, gl: Tree, g: AvlNode, gr: Tree, n: AvlNode, c: Tree) {
    var all := Nodes(a) + Nodes(gl) + Nodes(gr) + Nodes(c) + CtxNodes(ctx);
    && n !in all && x !in all && g !in all && n != x && n != g && x != g
    && Nodes(a) !! Nodes(gl) && Nodes(a) + Nodes(gl) !! Nodes(gr) && Nodes(a) + Nodes(gl) + Nodes(gr) !! Nodes(c)
    && Nodes(a) + Nodes(gl) + Nodes(gr) + Nodes(c) !! CtxNodes(ctx)
  }

  lemma DoubleTaken(st: State, ctx: Context, s: Side, a: Tree, x: AvlNode, xb: int, gl: Tree, g: AvlNode, gb: int, gr: Tree, n: AvlNode, nb: int, c: Tree, rs: Side)
    requires Holds(st, ctx, Make(s, Make(s, a, x, xb, Make(s, gl, g, gb, gr)), n, nb, c), rs)
    ensures DoubleParts(st, ctx, s, a, x, gl, g, gr, n, c, rs)
    ensures n in st.mem && x in st.mem && g in st.mem && KidOf(st.mem[n], Other(s)) == Top(c) && KidOf(st.mem[x], s) == Top(a)
    ensures KidOf(st.mem[g], s) == Top(gl) && KidOf(st.mem[g], Other(s)) == Top(gr) && st.mem[g].balance == gb
    ensures KidOf(st.mem[n], s) == x && KidOf(st.mem[x], Other(s)) == g && st.mem[x].balance == xb
  {
    hide Rep, RepCtx, Nodes, CtxNodes, Make;
    var tg := Make(s, gl, g, gb, gr);
    var tx := Make(s, a, x, xb, tg);
    MakeRep(st.mem, s, gl, g, gb, gr, x, Other(s));
    MakeRep(st.mem, s, a, x, xb, tg, n, s);
    MakeRep(st.mem, s, tx, n, nb, c, Above(ctx), SideOf(ctx, rs));
    MakeNodes(s, gl, g, gb, gr);
    MakeNodes(s, a, x, xb, tg);
    MakeNodes(s, tx, n, nb, c);
  }

  lemma DoubleTakenApart(st: State, ctx: Context, s: Side, a: Tree, x: AvlNode, xb: int, gl: Tree, g: AvlNode, gb: int, gr: Tree, n: AvlNode, nb: int, c: Tree, rs: Side)
    requires Holds(st, ctx, Make(s, Make(s, a, x, xb, Make(s, gl, g, gb, gr)), n, nb, c), rs)
    ensures DoubleApart(ctx, a, x, gl, g, gr, n, c)
  {
    hide Rep, RepCtx, Nodes, CtxNodes, Make;
    var tg := Make(s, gl, g, gb, gr);
    var tx := Make(s, a, x, xb, tg);
    MakeRep(st.mem, s, gl, g, gb, gr, x, Other(s));
    MakeRep(st.mem, s, a, x, xb, tg, n, s);
    MakeRep(st.mem, s, tx, n, nb, c, Above(ctx), SideOf(ctx, rs));
    MakeNodes(s, gl, g, gb, gr);
    MakeNodes(s, a, x, xb, tg);
    MakeNodes(s, tx, n, nb, c);
  }

  lemma DoubleReady(st: State, ctx: Context, s: Side, a: Tree, x: AvlNode, xb: int, gl: Tree, g: AvlNode, gb: int, gr: Tree, n: AvlNode, nb: int, c: Tree, rs: Side)
    requires Holds(st, ctx, Make(s, Make(s, a, x, xb, Make(s, gl, g, gb, gr)), n, nb, c), rs)
    ensures DoubleBefore(st, s, n, x, g, Top(a), Top(gl), Top(gr), Top(c), Above(ctx))
  {
    hide Rep, RepCtx, Nodes, CtxNodes, Make, Holds;
    DoubleTaken(st, ctx, s, a, x, xb, gl, g, gb, gr, n, nb, c, rs);
    DoubleTakenApart(st, ctx, s, a, x, xb, gl, g, gb, gr, n, nb, c, rs);
    CtxTop(ctx);
    TopIn(ctx, gl);
    TopIn(ctx, gr);
    RepIn(st.mem, gl, g, s);
    RepIn(st.mem, gr, g, Other(s));
    CtxIn(st.mem, ctx, n, st.root, rs);
  }

  /** A rotation of case 2 in memory is a double rotation of the tree. */
  lemma DoubleHolds(st: State, ctx: Context, s: Side, a: Tree, x: AvlNode, xb: int, gl: Tree, g: AvlNode, gb: int, gr: Tree, n: AvlNode, nb: int, c: Tree,
                    rs: Side, xb': int, nb': int)
    requires Holds(st, ctx, Make(s, Make(s, a, x, xb, Make(s, gl, g, gb, gr)), n, nb, c), rs)
    ensures Holds(Double(st, s, n, x, g, xb', nb', Above(ctx), SideOf(ctx, rs)), ctx, Make(s, Make(s, a, x, xb', gl), g, 0, Make(s, gr, n, nb', c)), rs)
  {
    hide Double, Rep, RepCtx, Nodes, CtxNodes, Make, Holds, Elsewhere, MovedTo;
    var p, which := Above(ctx), SideOf(ctx, rs);
    var st' := Double(st, s, n, x, g, xb', nb', p, which);
    DoubleTaken(st, ctx, s, a, x, xb, gl, g, gb, gr, n, nb, c, rs);
    DoubleTakenApart(st, ctx, s, a, x, xb, gl, g, gb, gr, n, nb, c, rs);
    DoubleReady(st, ctx, s, a, x, xb, gl, g, gb, gr, n, nb, c, rs);
    DoubleCells(st, s, n, x, g, Top(a), Top(gl), Top(gr), Top(c), p, which, xb', nb');
    SameKeys(st, st', {n, x, g} + Some(Top(gl)) + Some(Top(gr)) + Some(p));
    DoubleLink(st, st', ctx, g, p, which, rs, n);
    DoubleMoves(st, st', ctx, s, a, x, gl, g, gr, n, c, rs);
    DoubleDone(st', ctx, s, a, x, xb', gl, g, gr, n, nb', c, rs);
  }

  lemma DoubleLink(st: State, st': State, ctx: Context, g: AvlNode, p: AvlNode?, which: Side, rs: Side, n: AvlNode)
    requires p == Above(ctx) && which == SideOf(ctx, rs) && RepCtx(st.mem, ctx, n, st.root, rs) && st'.mem.Keys == st.mem.Keys
    requires if p == null then st'.root == g else st'.root == st.root && p in st.mem && p in st'.mem && st'.mem[p] == WithKid(st.mem[p], which, g)
    ensures LinkSet(st, st', ctx, g)
  {}

  lemma DoubleMoves(st: State, st': State, ctx: Context, s: Side, a: Tree, x: AvlNode, gl: Tree, g: AvlNode, gr: Tree, n: AvlNode, c: Tree, rs: Side)
    requires DoubleParts(st, ctx, s, a, x, gl, g, gr, n, c, rs) && DoubleApart(ctx, a, x, gl, g, gr, n, c)
    requires Elsewhere(st, st', {n, x, g} + Some(Top(gl)) + Some(Top(gr)) + Some(Above(ctx)))
    requires MovedTo(st, st', Top(gl), x, Other(s)) && MovedTo(st, st', Top(gr), n, s) && LinkSet(st, st', ctx, g)
    ensures Rep(st'.mem, a, x, s) && Rep(st'.mem, gl, x, Other(s)) && Rep(st'.mem, gr, n, s) && Rep(st'.mem, c, n, Other(s))
    ensures RepCtx(st'.mem, ctx, g, st'.root, rs)
  {
    hide Rep, RepCtx, Nodes, CtxNodes, Elsewhere, MovedTo, LinkSet;
    var w := {n, x, g} + Some(Top(gl)) + Some(Top(gr)) + Some(Above(ctx));
    CtxTop(ctx);
    TopIn(ctx, gl);
    TopIn(ctx, gr);
    StayTree(st, st', a, x, s, w);
    MoveTree(st, st', gl, g, s, x, Other(s), w);
    MoveTree(st, st', gr, g, Other(s), n, s, w);
    StayTree(st, st', c, n, Other(s), w);
    MoveCtx(st, st', ctx, n, g, rs, w);
  }

  lemma DoubleDone(st: State, ctx: Context, s: Side, a: Tree, x: AvlNode, xb: int, gl: Tree, g: AvlNode, gr: Tree, n: AvlNode, nb: int, c: Tree, rs: Side)
    requires DoubleApart(ctx, a, x, gl, g, gr, n, c) && n in st.mem && x in st.mem && g in st.mem
    requires st.mem[g] == CellOf(s, x, n, Above(ctx), SideOf(ctx, rs), 0)
    requires st.mem[x] == CellOf(s, Top(a), Top(gl), g, s, xb) && st.mem[n] == CellOf(s, Top(gr), Top(c), g, Other(s), nb)
    requires Rep(st.mem, a, x, s) && Rep(st.mem, gl, x, Other(s)) && Rep(st.mem, gr, n, s) && Rep(st.mem, c, n, Other(s))
    requires RepCtx(st.mem, ctx, g, st.root, rs)
    ensures Holds(st, ctx, Make(s, Make(s, a, x, xb, gl), g, 0, Make(s, gr, n, nb, c)), rs)
  {
    hide Rep, RepCtx, Nodes, CtxNodes, Make;
    var tx, tn := Make(s, a, x, xb, gl), Make(s, gr, n, nb, c);
    MakeRep(st.mem, s, a, x, xb, gl, g, s);
    MakeRep(st.mem, s, gr, n, nb, c, g, Other(s));
    MakeRep(st.mem, s, tx, g, 0, tn, Above(ctx), SideOf(ctx, rs));
    MakeNodes(s, a, x, xb, gl);
    MakeNodes(s, gr, n, nb, c);
    MakeNodes(s, tx, g, 0, tn);
  }
}
