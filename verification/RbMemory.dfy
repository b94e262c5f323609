/**
 How a red-black tree lies in memory (rbtree.h, rbtree_augmented.h): child and parent pointers and
 colours agree with a tree.  Memory is a value here; RbRoot is the object that it is read from.
 */
module RbMemory {
  import opened Sides
  import opened RbTree

  datatype Cell = Cell(left: RbNode?, right: RbNode?, parent: RbNode?, red: bool)

  /** rb_root and the nodes linked below it. */
  datatype State = State(root: RbNode?, mem: map<RbNode, Cell>)

  function KidOf(c: Cell, side: Side): RbNode? {
    if side == Left then c.left else c.right
  }

  function WithKid(c: Cell, side: Side, x: RbNode?): Cell {
    if side == Left then c.(left := x) else c.(right := x)
  }

  ghost predicate Rep(m: map<RbNode, Cell>, t: Tree, parent: RbNode?) {
    t.Node? ==>
      && t.node in m && m[t.node] == Cell(Top(t.left), Top(t.right), parent, t.red)
      && Rep(m, t.left, t.node) && Rep(m, t.right, t.node)
      && t.node !in Nodes(t.left) && t.node !in Nodes(t.right) && Nodes(t.left) !! Nodes(t.right)
  }

  /** The same for the context of a focus whose topmost node is hole. */
  ghost predicate RepCtx(m: map<RbNode, Cell>, ctx: Context, hole: RbNode?, root: RbNode?) {
    if ctx == [] then hole == root
    else
      var c := ctx[0];
      && c.node in m && Rep(m, c.sibling, c.node) && RepCtx(m, ctx[1..], c.node, root)
      && m[c.node] == WithKid(WithKid(Cell(null, null, Above(ctx[1..]), c.red), c.side, hole), Other(c.side), Top(c.sibling))
      && c.node !in Nodes(c.sibling) && c.node !in CtxNodes(ctx[1..]) && Nodes(c.sibling) !! CtxNodes(ctx[1..])
  }

  ghost predicate Holds(st: State, ctx: Context, t: Tree) {
    RepCtx(st.mem, ctx, Top(t), st.root) && Rep(st.mem, t, Above(ctx)) && Nodes(t) !! CtxNodes(ctx)
  }

  // ---------- frames ----------

  lemma {:induction false} RepFrame(m: map<RbNode, Cell>, m': map<RbNode, Cell>, t: Tree, parent: RbNode?)
    requires Rep(m, t, parent) && forall x | x in Nodes(t) :: x in m' && (x in m ==> m'[x] == m[x])
    ensures Rep(m', t, parent)
  {
    if t.Node? {
      RepFrame(m, m', t.left, t.node);
      RepFrame(m, m', t.right, t.node);
    }
  }

  function Painted(t: Tree, red: bool): Tree {
    if t.Leaf? then t else t.(red := red)
  }

  /** A subtree gets another parent, and its topmost node another colour. */
  lemma RepMoved(m: map<RbNode, Cell>, m': map<RbNode, Cell>, t: Tree, parent: RbNode?, parent': RbNode?, red: bool)
    requires Rep(m, t, parent)
    requires forall x | x in Nodes(t) && x != Top(t) :: x in m' && (x in m ==> m'[x] == m[x])
    requires t.Node? ==> t.node in m' && m'[t.node] == m[t.node].(parent := parent', red := red)
    ensures Rep(m', Painted(t, red), parent')
  {
    if t.Node? {
      RepFrame(m, m', t.left, t.node);
      RepFrame(m, m', t.right, t.node);
    }
  }

  lemma {:induction false} CtxFrame(m: map<RbNode, Cell>, m': map<RbNode, Cell>, ctx: Context, hole: RbNode?, root: RbNode?)
    requires RepCtx(m, ctx, hole, root) && forall x | x in CtxNodes(ctx) :: x in m' && (x in m ==> m'[x] == m[x])
    ensures RepCtx(m', ctx, hole, root)
  {
    if ctx != [] {
      RepFrame(m, m', ctx[0].sibling, ctx[0].node);
      CtxFrame(m, m', ctx[1..], ctx[0].node, root);
    }
  }

  /** The focus gets another topmost node. */
  lemma CtxMoved(st: State, st': State, ctx: Context, hole: RbNode?, hole': RbNode?)
    requires RepCtx(st.mem, ctx, hole, st.root)
    requires forall x | x in CtxNodes(ctx) && x != Above(ctx) :: x in st'.mem && (x in st.mem ==> st'.mem[x] == st.mem[x])
    requires if ctx == [] then st'.root == hole' else
      st'.root == st.root && ctx[0].node in st'.mem && st'.mem[ctx[0].node] == WithKid(st.mem[ctx[0].node], ctx[0].side, hole')
    ensures RepCtx(st'.mem, ctx, hole', st'.root)
  {
    if ctx != [] {
      RepFrame(st.mem, st'.mem, ctx[0].sibling, ctx[0].node);
      CtxFrame(st.mem, st'.mem, ctx[1..], ctx[0].node, st.root);
    }
  }

  // ---------- moving the focus ----------

  lemma {:induction false} HoldsUp(st: State, ctx: Context, t: Tree)
    requires ctx != []
    ensures Holds(st, ctx, t) <==> Holds(st, ctx[1..], Plug(ctx[0], t))
  {}

  /** A focus in its context is the whole tree. */
  lemma {:induction false} HoldsZip(st: State, ctx: Context, t: Tree)
    ensures Holds(st, ctx, t) <==> Holds(st, [], Zip(ctx, t))
    decreases |ctx|
  {
    if ctx != [] {
      HoldsUp(st, ctx, t);
      HoldsZip(st, ctx[1..], Plug(ctx[0], t));
    }
  }

  lemma {:induction false} RepIn(m: map<RbNode, Cell>, t: Tree, parent: RbNode?)
    requires Rep(m, t, parent)
    ensures forall x | x in Nodes(t) :: x in m
  {
    if t.Node? {
      RepIn(m, t.left, t.node);
      RepIn(m, t.right, t.node);
    }
  }

  lemma {:induction false} CtxIn(m: map<RbNode, Cell>, ctx: Context, hole: RbNode?, root: RbNode?)
    requires RepCtx(m, ctx, hole, root)
    ensures forall x | x in CtxNodes(ctx) :: x in m
  {
    if ctx != [] {
      RepIn(m, ctx[0].sibling, ctx[0].node);
      CtxIn(m, ctx[1..], ctx[0].node, root);
    }
  }

  // ---------- memory operations as values ----------

  function At(st: State, n: RbNode): Cell {
    if n in st.mem then st.mem[n] else Cell(null, null, null, false)
  }

  function PutKid(st: State, n: RbNode, side: Side, x: RbNode?): State {
    st.(mem := st.mem[n := WithKid(At(st, n), side, x)])
  }

  /** rb_set_parent_color */
  function PutParentColor(st: State, n: RbNode, p: RbNode?, red: bool): State {
    st.(mem := st.mem[n := At(st, n).(parent := p, red := red)])
  }

  /** __rb_change_child */
  function ChangeChild(st: State, old_: RbNode, new_: RbNode?, parent: RbNode?): State {
    if parent == null then st.(root := new_)
    else if At(st, parent).left == old_ then PutKid(st, parent, Left, new_)
    else PutKid(st, parent, Right, new_)
  }

  /** __rb_rotate_set_parents */
  function RotateSetParents(st: State, old_: RbNode, new_: RbNode, red: bool): State {
    var c := At(st, old_);
    ChangeChild(PutParentColor(PutParentColor(st, new_, c.parent, c.red), old_, new_, red), old_, new_, c.parent)
  }

  // ---------- the object ----------

  class RbRoot {
    /** whether the tree is used with the user's callbacks, or with the dummies of rb_insert_color and rb_erase */
    const callbacks: bool
    var rbNode: RbNode?
    /** the nodes linked into the tree */
    ghost var nodes: set<RbNode>

    ghost function Mem(): map<RbNode, Cell>
      reads this`nodes, nodes`left, nodes`right, nodes`parent, nodes`red
    {
      map n | n in nodes :: Cell(n.left, n.right, n.parent, n.red)
    }

    ghost function View(): State
      reads this, nodes`left, nodes`right, nodes`parent, nodes`red
    {
      State(rbNode, Mem())
    }

    /** The caches; without callbacks, what they would be. */
    ghost function Augs(): map<RbNode, int>
      reads this`nodes, nodes`augmented, nodes`shadow
    {
      map n | n in nodes :: if callbacks then n.augmented else n.shadow
    }

    constructor (callbacks: bool)
      ensures rbNode == null && nodes == {} && this.callbacks == callbacks && fresh(this)
    {
      this.callbacks := callbacks;
      rbNode, nodes := null, {};
    }

    /** What a callback would have done, where it is a dummy. */
    ghost method Shadow(a: map<RbNode, int>)
      requires !callbacks && a.Keys == nodes
      modifies nodes`shadow
      ensures Augs() == a && View() == old(View())
    {
      forall n | n in nodes { n.shadow := a[n]; }
    }

    function Child(n: RbNode, side: Side): RbNode?
      reads n`left, n`right
    {
      if side == Left then n.left else n.right
    }

    method SetChild(n: RbNode, side: Side, x: RbNode?)
      requires n in nodes
      modifies n`left, n`right
      ensures View() == PutKid(old(View()), n, side, x) && Augs() == old(Augs())
    {
      if side == Left { n.left := x; } else { n.right := x; }
    }

    method SetParentColor(n: RbNode, p: RbNode?, red: bool)
      requires n in nodes
      modifies n`parent, n`red
      ensures View() == PutParentColor(old(View()), n, p, red) && n.parent == p && n.red == red && Augs() == old(Augs())
    {
      n.parent, n.red := p, red;
    }

    method ChangeChildOf(old_: RbNode, new_: RbNode?, parent: RbNode?)
      requires parent != null ==> parent in nodes
      modifies this`rbNode, (if parent == null then {} else {parent})`left, (if parent == null then {} else {parent})`right
      ensures View() == ChangeChild(old(View()), old_, new_, parent) && Augs() == old(Augs())
    {
      if parent != null {
        if parent.left == old_ {
          SetChild(parent, Left, new_);
        } else {
          SetChild(parent, Right, new_);
        }
      } else {
        rbNode := new_;
      }
    }
  }
}
