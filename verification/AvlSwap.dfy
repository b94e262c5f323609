/**
 How dlm_avl_remove (avl.c) deals with a node that has two children: the neighbour takes its place, and
 a temporary stand-in takes the place of the neighbour.
 */
module AvlSwap {
  import opened Sides
  import opened AvlTree
  import opened AvlMemory

  /** AVL_SETPARENT, which keeps the child index. */
  function PutUp(st: State, n: AvlNode, p: AvlNode?): State {
    st.(mem := st.mem[n := At(st, n).(parent := p)])
  }

  function PutUpIf(st: State, n: AvlNode?, p: AvlNode?): State {
    if n == null then st else PutUp(st, n, p)
  }

  /** y takes the place of x. */
  function Replaced(st: State, x: AvlNode, y: AvlNode): State {
    var c := At(st, x);
    var st1 := st.(mem := st.mem[y := c] - {x});
    PutUpIf(PutUpIf(PutLink(st1, c.parent, c.side, y), c.left, y), c.right, y)
  }

  /** The writes of the source: the copies, and the link to the node in its new place. */
  function Taken(st: State, d: AvlNode, n: AvlNode, tmp: AvlNode, s: Side): State {
    var dc := At(st, d);
    var st1 := st.(mem := st.mem[tmp := At(st, n)][n := dc]);
    var st2 := if KidOf(dc, s) == n then PutKid(st1, n, s, tmp) else st1;
    PutLink(st2, dc.parent, dc.side, n)
  }

  /** The writes of the source up to the links from the new children. */
  function Raised(st: State, d: AvlNode, n: AvlNode, tmp: AvlNode, s: Side): State {
    var st' := Taken(st, d, n, tmp, s);
    PutUpIf(PutUpIf(st', KidOf(At(st', n), s), n), KidOf(At(st', n), Other(s)), n)
  }

  /** The writes of the source: the links to the stand-in. */
  function StoodIn(st: State, tmp: AvlNode): State {
    var tc := At(st, tmp);
    var st' := PutLink(st, tc.parent, tc.side, tmp);
    PutUpIf(st', if tc.right != null then tc.right else tc.left, tmp)
  }

  function Swapped(st: State, d: AvlNode, n: AvlNode, tmp: AvlNode, s: Side): State {
    var st' := StoodIn(Raised(st, d, n, tmp, s), tmp);
    st'.(mem := st'.mem - {d})
  }

  /** The cells around a node d with two children and its neighbour n, on the side s. */
  ghost predicate SwapCells(st: State, d: AvlNode, n: AvlNode, s: Side, l: AvlNode, r: AvlNode, c: AvlNode?, p: AvlNode?, q: AvlNode) {
    && d in st.mem && n in st.mem && l in st.mem && r in st.mem && q in st.mem && d != n
    && KidOf(st.mem[d], s) == l && KidOf(st.mem[d], Other(s)) == r && st.mem[d].parent == p
    && KidOf(st.mem[n], s) == c && KidOf(st.mem[n], Other(s)) == null && st.mem[n].parent == q
    && r != d && r != n && r != l && r != q && l != d && p != d
    && (c != null ==> c in st.mem && c != d && c != n && c != l && c != r && c != q)
    && (p != null ==> p in st.mem && p != n && p != l && p != r && p != c && p != q)
    && (if l == n then q == d && st.mem[n].side == s else q != d && q != n)
  }

  /** The cells after the swap. */
  ghost predicate SwapDone(st: State, st': State, d: AvlNode, n: AvlNode, tmp: AvlNode, s: Side, l: AvlNode, r: AvlNode, c: AvlNode?, p: AvlNode?, q: AvlNode)
    requires SwapCells(st, d, n, s, l, r, c, p, q) && tmp !in st.mem
  {
    && st'.mem.Keys == st.mem.Keys - {d} + {tmp} && st'.root == (if p == null then n else st.root)
    && st'.mem[n] == WithKid(st.mem[d], s, if l == n then tmp else l) && st'.mem[tmp] == st.mem[n].(parent := if l == n then n else q)
    && (l != n ==> st'.mem[l] == (if q == l then WithKid(st.mem[l], st.mem[n].side, tmp) else st.mem[l]).(parent := n))
    && (q != d && q != l ==> st'.mem[q] == WithKid(st.mem[q], st.mem[n].side, tmp))
    && st'.mem[r] == st.mem[r].(parent := n) && (c != null ==> st'.mem[c] == st.mem[c].(parent := tmp))
    && (p != null ==> st'.mem[p] == WithKid(st.mem[p], st.mem[d].side, n))
    && forall k | k in st.mem && k != d && k != n && k != l && k != r && k != c && k != p && k != q :: st'.mem[k] == st.mem[k]
  }

  lemma RaisedCells(st: State, d: AvlNode, n: AvlNode, tmp: AvlNode, s: Side, l: AvlNode, r: AvlNode, c: AvlNode?, p: AvlNode?, q: AvlNode)
    requires SwapCells(st, d, n, s, l, r, c, p, q) && tmp !in st.mem
    ensures var st' := Raised(st, d, n, tmp, s);
      && st'.mem.Keys == st.mem.Keys + {tmp} && st'.root == (if p == null then n else st.root)
      && st'.mem[n] == WithKid(st.mem[d], s, if l == n then tmp else l) && st'.mem[tmp] == st.mem[n].(parent := if l == n then n else q)
      && (l != n ==> st'.mem[l] == st.mem[l].(parent := n)) && st'.mem[r] == st.mem[r].(parent := n)
      && (p != null ==> st'.mem[p] == WithKid(st.mem[p], st.mem[d].side, n))
      && forall k | k in st.mem && k != n && k != l && k != r && k != p :: st'.mem[k] == st.mem[k]
  {}

  lemma StoodInCells(st: State, tmp: AvlNode, x: AvlNode?, q: AvlNode, side: Side)
    requires tmp in st.mem && q in st.mem && (x != null ==> x in st.mem && x != q && x != tmp) && q != tmp
    requires x == (if st.mem[tmp].right != null then st.mem[tmp].right else st.mem[tmp].left) && st.mem[tmp].parent == q && st.mem[tmp].side == side
    ensures var st' := StoodIn(st, tmp);
      && st'.mem.Keys == st.mem.Keys && st'.root == st.root && st'.mem[q] == WithKid(st.mem[q], side, tmp)
      && (x != null ==> st'.mem[x] == st.mem[x].(parent := tmp))
      && forall k | k in st.mem && k != q && k != x :: st'.mem[k] == st.mem[k]
  {}

  lemma SwappedCells(st: State, d: AvlNode, n: AvlNode, tmp: AvlNode, s: Side, l: AvlNode, r: AvlNode, c: AvlNode?, p: AvlNode?, q: AvlNode)
    requires SwapCells(st, d, n, s, l, r, c, p, q) && tmp !in st.mem
    ensures SwapDone(st, Swapped(st, d, n, tmp, s), d, n, tmp, s, l, r, c, p, q)
  {
    hide Raised, StoodIn;
    var st1 := Raised(st, d, n, tmp, s);
    RaisedCells(st, d, n, tmp, s, l, r, c, p, q);
    var q' := if l == n then n else q;
    var st2 := StoodIn(st1, tmp);
    StoodInCells(st1, tmp, c, q', st.mem[n].side);
    if l == n {
      assert SwapDone(st, st2.(mem := st2.mem - {d}), d, n, tmp, s, l, r, c, p, q);
    } else {
      assert SwapDone(st, st2.(mem := st2.mem - {d}), d, n, tmp, s, l, r, c, p, q);
    }
  }

  // ---------- one node for another ----------

  lemma ReplacedCells(st: State, x: AvlNode, y: AvlNode, l: AvlNode?, r: AvlNode?, p: AvlNode?, which: Side, b: int)
    requires x in st.mem && y !in st.mem && st.mem[x] == Cell(l, r, p, which, b)
    requires l != x && r != x && p != x && (l != null ==> l in st.mem && l != r && l != p) && (r != null ==> r in st.mem && r != p) && (p != null ==> p in st.mem)
    ensures var st' := Replaced(st, x, y);
      && st'.mem.Keys == st.mem.Keys - {x} + {y} && st'.mem[y] == st.mem[x]
      && (l != null ==> st'.mem[l] == st.mem[l].(parent := y)) && (r != null ==> st'.mem[r] == st.mem[r].(parent := y))
      && (if p == null then st'.root == y else st'.root == st.root && st'.mem[p] == WithKid(st.mem[p], which, y))
      && forall k | k in st.mem && k != x && k != l && k != r && k != p :: st'.mem[k] == st.mem[k]
  {}

  lemma ReplacedTwice(st: State, d: AvlNode, n: AvlNode, tmp: AvlNode, s: Side, l: AvlNode, r: AvlNode, c: AvlNode?, p: AvlNode?, q: AvlNode)
    requires SwapCells(st, d, n, s, l, r, c, p, q) && tmp !in st.mem
    ensures SwapDone(st, Replaced(Replaced(st, n, tmp), d, n), d, n, tmp, s, l, r, c, p, q)
  {
    hide Replaced;
    var nc, dc := st.mem[n], st.mem[d];
    ReplacedCells(st, n, tmp, nc.left, nc.right, q, nc.side, nc.balance);
    var st' := Replaced(st, n, tmp);
    dc := st'.mem[d];
    ReplacedCells(st', d, n, dc.left, dc.right, p, dc.side, dc.balance);
  }

  /** The writes of the source amount to one replacement after another. */
  lemma SwapIsTwo(st: State, d: AvlNode, n: AvlNode, tmp: AvlNode, s: Side, l: AvlNode, r: AvlNode, c: AvlNode?, p: AvlNode?, q: AvlNode)
    requires SwapCells(st, d, n, s, l, r, c, p, q) && tmp !in st.mem
    ensures Swapped(st, d, n, tmp, s) == Replaced(Replaced(st, n, tmp), d, n)
  {
    var a, b := Swapped(st, d, n, tmp, s), Replaced(Replaced(st, n, tmp), d, n);
    SwappedCells(st, d, n, tmp, s, l, r, c, p, q);
    ReplacedTwice(st, d, n, tmp, s, l, r, c, p, q);
    hide Swapped, Replaced;
    assert forall k | k in a.mem :: a.mem[k] == b.mem[k];
  }

  lemma ReplacedHolds(st: State, ctx: Context, t: Tree, rs: Side, y: AvlNode)
    requires Holds(st, ctx, t, rs) && t.Node? && y !in st.mem
    ensures Holds(Replaced(st, t.node, y), ctx, t.(node := y), rs) && Replaced(st, t.node, y).mem.Keys == st.mem.Keys - {t.node} + {y}
  {
    var x := t.node;
    var p, which := Above(ctx), SideOf(ctx, rs);
    RepIn(st.mem, t.left, x, Left);
    RepIn(st.mem, t.right, x, Right);
    CtxIn(st.mem, ctx, x, st.root, rs);
    TopIn(ctx, t.left);
    TopIn(ctx, t.right);
    ReplacedCells(st, x, y, Top(t.left), Top(t.right), p, which, t.balance);
    var st' := Replaced(st, x, y);
    hide Replaced;
    RepMoved(st.mem, st'.mem, t.left, x, Left, y, Left);
    RepMoved(st.mem, st'.mem, t.right, x, Right, y, Right);
    CtxMoved(st, st', ctx, x, y, rs);
  }

  // ---------- the writes ----------

  method SetUp(root: AvlRoot, n: AvlNode, p: AvlNode?)
    requires n in root.nodes
    modifies n`parent
    ensures root.View() == PutUp(old(root.View()), n, p)
  {
    n.parent := p;
  }

  method CopyNode(root: AvlRoot, to: AvlNode, from: AvlNode)
    requires to in root.nodes && from in root.nodes
    modifies to
    ensures var st := old(root.View()); root.View() == st.(mem := st.mem[to := At(st, from)])
  {
    to.left, to.right, to.parent, to.side, to.balance := from.left, from.right, from.parent, from.side, from.balance;
  }

  lemma CellHere(root: AvlRoot, n: AvlNode)
    requires n in root.nodes
    ensures At(root.View(), n) == Cell(n.left, n.right, n.parent, n.side, n.balance)
  {}

  method WriteTaken(root: AvlRoot, delete: AvlNode, node: AvlNode, tmp: AvlNode, left: Side, ghost before: State)
    requires delete in root.nodes && node in root.nodes && tmp in root.nodes && delete != node && delete != tmp && node != tmp
    requires root.View() == before.(mem := before.mem[tmp := At(before, node)])
    requires delete.parent != null ==> delete.parent in root.nodes && delete.parent != node
    modifies root`root, root.nodes
    ensures root.View() == Taken(before, delete, node, tmp, left)
    ensures root.Child(node, left) == (if KidOf(At(before, delete), left) == node then tmp else KidOf(At(before, delete), left))
    ensures root.Child(node, Other(left)) == KidOf(At(before, delete), Other(left))
  {
    hide PutKid, PutLink;
    CellHere(root, delete);
    CopyNode(root, node, delete);
    CellHere(root, node);
    if root.Child(node, left) == node {
      root.SetChild(node, left, tmp);
    }
    var parent := node.parent;
    root.SetLink(parent, node.side, node);
  }

  method WriteRaised(root: AvlRoot, delete: AvlNode, node: AvlNode, tmp: AvlNode, left: Side, ghost before: State)
    requires delete in root.nodes && node in root.nodes && tmp in root.nodes && delete != node && delete != tmp && node != tmp
    requires root.View() == before.(mem := before.mem[tmp := At(before, node)])
    requires delete.parent != null ==> delete.parent in root.nodes && delete.parent != node
    requires KidOf(At(before, delete), left) != null && KidOf(At(before, delete), left) in root.nodes
    requires KidOf(At(before, delete), Other(left)) != null && KidOf(At(before, delete), Other(left)) in root.nodes
    modifies root`root, root.nodes
    ensures root.View() == Raised(before, delete, node, tmp, left)
  {
    hide PutUp, Taken;
    WriteTaken(root, delete, node, tmp, left, before);
    CellHere(root, node);
    var l, r := root.Child(node, left), root.Child(node, Other(left));
    SetUp(root, l, node);
    SetUp(root, root.Child(node, Other(left)), node);
  }

  method WriteStoodIn(root: AvlRoot, delete: AvlNode)
    requires delete in root.nodes && delete.parent != null && delete.parent in root.nodes && delete.parent != delete
    requires delete.left == null || delete.right == null
    requires forall side :: root.Child(delete, side) != null ==> root.Child(delete, side) in root.nodes
    modifies root.nodes
    ensures root.View() == StoodIn(old(root.View()), delete)
  {
    hide PutUp, PutKid;
    CellHere(root, delete);
    var parent := delete.parent;
    root.SetChild(parent, delete.side, delete);
    var which := if delete.right != null then Right else Left;
    if root.Child(delete, which) != null {
      SetUp(root, root.Child(delete, which), delete);
    }
  }

  lemma SwapReads(root: AvlRoot, d: AvlNode, n: AvlNode, s: Side, l: AvlNode, r: AvlNode, c: AvlNode?, p: AvlNode?, q: AvlNode)
    requires SwapCells(root.View(), d, n, s, l, r, c, p, q)
    ensures d in root.nodes && n in root.nodes && d != n && d.parent == p && (p != null ==> p in root.nodes && p != n)
    ensures KidOf(At(root.View(), d), s) == l && l in root.nodes && KidOf(At(root.View(), d), Other(s)) == r && r in root.nodes
  {}

  /** The stand-in has a parent and at most one child. */
  lemma StandInReads(st: State, root: AvlRoot, d: AvlNode, n: AvlNode, tmp: AvlNode, s: Side, l: AvlNode, r: AvlNode, c: AvlNode?, p: AvlNode?, q: AvlNode)
    requires SwapCells(st, d, n, s, l, r, c, p, q) && tmp !in st.mem
    requires root.View() == Raised(st, d, n, tmp, s) && tmp in root.nodes
    ensures tmp.parent != null && tmp.parent in root.nodes && tmp.parent != tmp && (tmp.left == null || tmp.right == null)
    ensures forall side :: root.Child(tmp, side) != null ==> root.Child(tmp, side) in root.nodes
  {
    RaisedCells(st, d, n, tmp, s, l, r, c, p, q);
    hide Raised;
    CellHere(root, tmp);
  }

  method WriteSwap(root: AvlRoot, delete: AvlNode, node: AvlNode, tmp: AvlNode, left: Side, ghost before: State,
                   ghost l: AvlNode, ghost r: AvlNode, ghost c: AvlNode?, ghost p: AvlNode?, ghost q: AvlNode)
    requires SwapCells(before, delete, node, left, l, r, c, p, q) && tmp !in before.mem
    requires delete in root.nodes && node in root.nodes && tmp in root.nodes && delete != node && delete != tmp && node != tmp
    requires delete.parent == p && (p != null ==> p in root.nodes && p != node)
    requires KidOf(At(before, delete), left) == l && l in root.nodes && KidOf(At(before, delete), Other(left)) == r && r in root.nodes
    requires root.View() == before.(mem := before.mem[tmp := At(before, node)])
    modifies root`root, root.nodes
    ensures root.View() == StoodIn(Raised(before, delete, node, tmp, left), tmp)
  {
    hide SwapCells, Raised, StoodIn;
    WriteRaised(root, delete, node, tmp, left, before);
    StandInReads(before, root, delete, node, tmp, left, l, r, c, p, q);
    WriteStoodIn(root, tmp);
  }

  /** A temporary stand-in that is a copy of the node. */
  method NewStandIn(root: AvlRoot, node: AvlNode) returns (tmp: AvlNode)
    requires node in root.nodes
    modifies root`nodes
    ensures fresh(tmp) && root.nodes == old(root.nodes) + {tmp}
    ensures var st := old(root.View()); root.View() == st.(mem := st.mem[tmp := At(st, node)])
  {
    tmp := new AvlNode(0, 0);
    root.nodes := root.nodes + {tmp};
    CopyNode(root, tmp, node);
  }

  /** The node takes the place of delete, and the returned stand-in that of the node. */
  method SwapIn(root: AvlRoot, delete: AvlNode, node: AvlNode, left: Side,
                ghost l: AvlNode, ghost r: AvlNode, ghost c: AvlNode?, ghost p: AvlNode?, ghost q: AvlNode)
    returns (tmp: AvlNode)
    requires SwapCells(root.View(), delete, node, left, l, r, c, p, q)
    modifies root, root.nodes
    ensures fresh(tmp) && root.nodes == old(root.nodes) - {delete} + {tmp} && root.numnodes == old(root.numnodes)
    ensures root.View() == Replaced(Replaced(old(root.View()), node, tmp), delete, node)
  {
    hide SwapCells, Replaced, Raised, StoodIn;
    ghost var before: State := root.View();
    SwapReads(root, delete, node, left, l, r, c, p, q);
    tmp := NewStandIn(root, node);
    SwapIsTwo(before, delete, node, tmp, left, l, r, c, p, q);
    WriteSwap(root, delete, node, tmp, left, before, l, r, c, p, q);
    root.nodes := root.nodes - {delete};
  }
}
