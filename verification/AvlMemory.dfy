/** How an AVL tree lies in memory (avl.c, avl_impl.h): child and parent pointers, child indices and balances. */
module AvlMemory {
  import opened Sides
  import opened AvlTree

  datatype Cell = Cell(left: AvlNode?, right: AvlNode?, parent: AvlNode?, side: Side, balance: int)

  datatype State = State(root: AvlNode?, mem: map<AvlNode, Cell>)

  function KidOf(c: Cell, side: Side): AvlNode? {
    if side == Left then c.left else c.right
  }

  function WithKid(c: Cell, side: Side, x: AvlNode?): Cell {
    if side == Left then c.(left := x) else c.(right := x)
  }

  /** The cell of a node with the given children. */
  function CellOf(side: Side, near: AvlNode?, far: AvlNode?, parent: AvlNode?, index: Side, balance: int): Cell {
    if side == Left then Cell(near, far, parent, index, balance) else Cell(far, near, parent, index, balance)
  }

  ghost predicate Rep(m: map<AvlNode, Cell>, t: Tree, parent: AvlNode?, side: Side) {
    t.Node? ==>
      && t.node in m && m[t.node] == Cell(Top(t.left), Top(t.right), parent, side, t.balance)
      && Rep(m, t.left, t.node, Left) && Rep(m, t.right, t.node, Right)
      && t.node !in Nodes(t.left) && t.node !in Nodes(t.right) && Nodes(t.left) !! Nodes(t.right)
  }

  /** The same for the context of a focus whose topmost node is hole. */
  ghost predicate RepCtx(m: map<AvlNode, Cell>, ctx: Context, hole: AvlNode?, root: AvlNode?, rs: Side) {
    if ctx == [] then hole == root
    else
      var c := ctx[0];
      && c.node in m && Rep(m, c.sibling, c.node, Other(c.side)) && RepCtx(m, ctx[1..], c.node, root, rs)
      && m[c.node] == CellOf(c.side, hole, Top(c.sibling), Above(ctx[1..]), SideOf(ctx[1..], rs), c.balance)
      && c.node !in Nodes(c.sibling) && c.node !in CtxNodes(ctx[1..]) && Nodes(c.sibling) !! CtxNodes(ctx[1..])
  }

  ghost predicate Holds(st: State, ctx: Context, t: Tree, rs: Side) {
    RepCtx(st.mem, ctx, Top(t), st.root, rs) && Rep(st.mem, t, Above(ctx), SideOf(ctx, rs)) && Nodes(t) !! CtxNodes(ctx)
  }

  lemma MakeRep(m: map<AvlNode, Cell>, side: Side, near: Tree, n: AvlNode, balance: int, far: Tree, parent: AvlNode?, index: Side)
    ensures Rep(m, Make(side, near, n, balance, far), parent, index) <==>
      && n in m && m[n] == CellOf(side, Top(near), Top(far), parent, index, balance)
      && Rep(m, near, n, side) && Rep(m, far, n, Other(side))
      && n !in Nodes(near) && n !in Nodes(far) && Nodes(near) !! Nodes(far)
  {}

  lemma MakeNodes(side: Side, near: Tree, n: AvlNode, balance: int, far: Tree)
    ensures Nodes(Make(side, near, n, balance, far)) == Nodes(near) + {n} + Nodes(far)
    ensures Top(Make(side, near, n, balance, far)) == n
  {}

  // ---------- frames ----------

  lemma {:induction false} RepFrame(m: map<AvlNode, Cell>, m': map<AvlNode, Cell>, t: Tree, parent: AvlNode?, side: Side)
    requires Rep(m, t, parent, side) && forall x | x in Nodes(t) :: x in m' && (x in m ==> m'[x] == m[x])
    ensures Rep(m', t, parent, side)
  {
    if t.Node? {
      RepFrame(m, m', t.left, t.node, Left);
      RepFrame(m, m', t.right, t.node, Right);
    }
  }

  /** A subtree moves below another parent, or to the other side. */
  lemma RepMoved(m: map<AvlNode, Cell>, m': map<AvlNode, Cell>, t: Tree, parent: AvlNode?, side: Side, parent': AvlNode?, side': Side)
    requires Rep(m, t, parent, side)
    requires forall x | x in Nodes(t) && x != Top(t) :: x in m' && (x in m ==> m'[x] == m[x])
    requires t.Node? ==> t.node in m' && t.node in m && m'[t.node] == m[t.node].(parent := parent', side := side')
    ensures Rep(m', t, parent', side')
  {
    if t.Node? {
      RepFrame(m, m', t.left, t.node, Left);
      RepFrame(m, m', t.right, t.node, Right);
    }
  }

  lemma {:induction false} CtxFrame(m: map<AvlNode, Cell>, m': map<AvlNode, Cell>, ctx: Context, hole: AvlNode?, root: AvlNode?, rs: Side)
    requires RepCtx(m, ctx, hole, root, rs) && forall x | x in CtxNodes(ctx) :: x in m' && (x in m ==> m'[x] == m[x])
    ensures RepCtx(m', ctx, hole, root, rs)
  {
    if ctx != [] {
      RepFrame(m, m', ctx[0].sibling, ctx[0].node, Other(ctx[0].side));
      CtxFrame(m, m', ctx[1..], ctx[0].node, root, rs);
    }
  }

  /** The focus gets another topmost node. */
  lemma CtxMoved(st: State, st': State, ctx: Context, hole: AvlNode?, hole': AvlNode?, rs: Side)
    requires RepCtx(st.mem, ctx, hole, st.root, rs)
    requires forall x | x in CtxNodes(ctx) && x != Above(ctx) :: x in st'.mem && (x in st.mem ==> st'.mem[x] == st.mem[x])
    requires if ctx == [] then st'.root == hole' else
      st'.root == st.root && ctx[0].node in st'.mem && st'.mem[ctx[0].node] == WithKid(st.mem[ctx[0].node], ctx[0].side, hole')
    ensures RepCtx(st'.mem, ctx, hole', st'.root, rs)
  {
    if ctx != [] {
      RepFrame(st.mem, st'.mem, ctx[0].sibling, ctx[0].node, Other(ctx[0].side));
      CtxFrame(st.mem, st'.mem, ctx[1..], ctx[0].node, st.root, rs);
    }
  }

  lemma HoldsUp(st: State, ctx: Context, t: Tree, rs: Side)
    requires ctx != []
    ensures Holds(st, ctx, t, rs) <==> Holds(st, ctx[1..], Plug(ctx[0], t), rs)
  {}

  lemma {:induction false} HoldsZip(st: State, ctx: Context, t: Tree, rs: Side)
    ensures Holds(st, ctx, t, rs) <==> Holds(st, [], Zip(ctx, t), rs)
    decreases |ctx|
  {
    if ctx != [] {
      HoldsUp(st, ctx, t, rs);
      HoldsZip(st, ctx[1..], Plug(ctx[0], t), rs);
    }
  }

  lemma Rezip(st: State, c1: Context, t1: Tree, c2: Context, t2: Tree, rs: Side)
    requires Holds(st, c1, t1, rs) && Zip(c1, t1) == Zip(c2, t2)
    ensures Holds(st, c2, t2, rs)
  {
    HoldsZip(st, c1, t1, rs);
    HoldsZip(st, c2, t2, rs);
  }

  lemma {:induction false} RepIn(m: map<AvlNode, Cell>, t: Tree, parent: AvlNode?, side: Side)
    requires Rep(m, t, parent, side)
    ensures forall x | x in Nodes(t) :: x in m
  {
    if t.Node? {
      RepIn(m, t.left, t.node, Left);
      RepIn(m, t.right, t.node, Right);
    }
  }

  lemma {:induction false} CtxIn(m: map<AvlNode, Cell>, ctx: Context, hole: AvlNode?, root: AvlNode?, rs: Side)
    requires RepCtx(m, ctx, hole, root, rs)
    ensures forall x | x in CtxNodes(ctx) :: x in m
  {
    if ctx != [] {
      RepIn(m, ctx[0].sibling, ctx[0].node, Other(ctx[0].side));
      CtxIn(m, ctx[1..], ctx[0].node, root, rs);
    }
  }

  lemma TopIn(ctx: Context, t: Tree)
    ensures ctx != [] ==> Above(ctx) in CtxNodes(ctx)
    ensures t.Node? ==> t.node in Nodes(t)
  {}

  // ---------- what can be read ----------

  /** The cell at the focus. */
  lemma ReadFocus(st: State, ctx: Context, t: Tree, rs: Side)
    requires Holds(st, ctx, t, rs) && t.Node?
    ensures t.node in st.mem && st.mem[t.node] == Cell(Top(t.left), Top(t.right), Above(ctx), SideOf(ctx, rs), t.balance)
    ensures t.left.Node? ==> t.left.node in st.mem && st.mem[t.left.node].balance == t.left.balance
    ensures t.right.Node? ==> t.right.node in st.mem && st.mem[t.right.node].balance == t.right.balance
  {
    assert Rep(st.mem, t.left, t.node, Left) && Rep(st.mem, t.right, t.node, Right);
  }

  /** The cell of the parent. */
  lemma ReadParent(st: State, ctx: Context, t: Tree, rs: Side)
    requires Holds(st, ctx, t, rs) && ctx != []
    ensures var c := ctx[0];
      c.node in st.mem && st.mem[c.node] == CellOf(c.side, Top(t), Top(c.sibling), Above(ctx[1..]), SideOf(ctx[1..], rs), c.balance)
    ensures ctx[0].sibling.Node? ==> ctx[0].sibling.node in st.mem
    ensures t.Node? ==> KidOf(st.mem[ctx[0].node], Other(ctx[0].side)) != t.node
  {
    RepIn(st.mem, ctx[0].sibling, ctx[0].node, Other(ctx[0].side));
    TopIn(ctx, ctx[0].sibling);
    TopIn(ctx, t);
  }

  // ---------- memory operations as values ----------

  function At(st: State, n: AvlNode): Cell {
    if n in st.mem then st.mem[n] else Cell(null, null, null, Left, 0)
  }

  function PutKid(st: State, n: AvlNode, side: Side, x: AvlNode?): State {
    st.(mem := st.mem[n := WithKid(At(st, n), side, x)])
  }

  /** AVL_SETPARENT and AVL_SETCHILD */
  function PutParent(st: State, n: AvlNode, p: AvlNode?, side: Side): State {
    st.(mem := st.mem[n := At(st, n).(parent := p, side := side)])
  }

  function PutBalance(st: State, n: AvlNode, b: int): State {
    st.(mem := st.mem[n := At(st, n).(balance := b)])
  }

  /** The pointer into a subtree: parent->avl_child[] or avl_root. */
  function PutLink(st: State, p: AvlNode?, side: Side, x: AvlNode?): State {
    if p == null then st.(root := x) else PutKid(st, p, side, x)
  }

  // ---------- the object ----------

  class AvlRoot {
    var root: AvlNode?
    var numnodes: nat
    /** the nodes linked into the tree */
    ghost var nodes: set<AvlNode>

    ghost function Mem(): map<AvlNode, Cell>
      reads this`nodes, nodes
    {
      map n | n in nodes :: Cell(n.left, n.right, n.parent, n.side, n.balance)
    }

    ghost function View(): State
      reads this`nodes, this`root, nodes
    {
      State(root, Mem())
    }

    /** dlm_avl_create */
    constructor ()
      ensures root == null && nodes == {} && numnodes == 0 && fresh(this)
    {
      root, nodes, numnodes := null, {}, 0;
    }

    function Child(n: AvlNode, side: Side): AvlNode?
      reads n`left, n`right
    {
      if side == Left then n.left else n.right
    }

    method SetChild(n: AvlNode, side: Side, x: AvlNode?)
      requires n in nodes
      modifies n`left, n`right
      ensures View() == PutKid(old(View()), n, side, x)
      ensures Child(n, side) == x && Child(n, Other(side)) == old(Child(n, Other(side)))
    {
      if side == Left { n.left := x; } else { n.right := x; }
    }

    method SetParent(n: AvlNode, p: AvlNode?, side: Side)
      requires n in nodes
      modifies n`parent, n`side
      ensures View() == PutParent(old(View()), n, p, side) && n.parent == p && n.side == side
    {
      n.parent, n.side := p, side;
    }

    method SetBalance(n: AvlNode, b: int)
      requires n in nodes
      modifies n`balance
      ensures View() == PutBalance(old(View()), n, b) && n.balance == b
    {
      n.balance := b;
    }

    method SetLink(p: AvlNode?, side: Side, x: AvlNode?)
      requires p != null ==> p in nodes
      modifies this`root, (if p == null then {} else {p})`left, (if p == null then {} else {p})`right
      ensures View() == PutLink(old(View()), p, side, x)
    {
      if p != null {
        SetChild(p, side, x);
      } else {
        root := x;
      }
    }
  }
}
