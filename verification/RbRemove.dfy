/** Removal from an augmented red-black tree (rbtree_augmented.h: __rb_erase_augmented, the propagate callback). */
module RbRemove {
  import opened Sides
  import opened RbTree
  import opened RbMemory
  import opened RbRotate
  import opened RbAugment
  import I = RbInsert
  import opened RbUnlink

  // ---------- the propagate callback ----------

  /** Children are known, point back to their parents, and are two different nodes. */
  ghost predicate Linked(m: map<RbNode, Cell>, s: set<RbNode>) {
    ParentsOk(m, s) && forall n | n in s :: n in m && m[n].left != n && m[n].right != n
  }

  lemma {:induction false} RepLinked(m: map<RbNode, Cell>, t: Tree, parent: RbNode?)
    requires Rep(m, t, parent)
    ensures Linked(m, Nodes(t))
  {
    RepParents(m, t, parent);
    if t.Node? {
      RepLinked(m, t.left, t.node);
      RepLinked(m, t.right, t.node);
      assert forall n | n in Nodes(t) :: n in Nodes(t.left) || n in Nodes(t.right) || n == t.node;
      TopIn([], t.left);
      TopIn([], t.right);
    }
  }

  ghost predicate AugExcept(m: map<RbNode, Cell>, a: map<RbNode, int>, s: set<RbNode>, x: RbNode?) {
    forall n | n in s && n != x :: AugAt(m, a, n)
  }

  /** The nodes on the way up to stop. */
  ghost predicate UpPath(m: map<RbNode, Cell>, path: seq<RbNode>, stop: RbNode?) {
    forall i | 0 <= i < |path| :: path[i] in m && path[i] != stop && m[path[i]].parent == NextUp(path, i, stop)
  }

  function NextUp(path: seq<RbNode>, i: nat, stop: RbNode?): RbNode? {
    if i + 1 < |path| then path[i + 1] else stop
  }

  lemma UpPathStep(m: map<RbNode, Cell>, path: seq<RbNode>, stop: RbNode?)
    requires UpPath(m, path, stop) && path != []
    ensures UpPath(m, path[1..], stop) && m[path[0]].parent == (if path[1..] == [] then stop else path[1..][0])
  {
    var rest := path[1..];
    forall i | 0 <= i < |rest| ensures rest[i] in m && rest[i] != stop && m[rest[i]].parent == NextUp(rest, i, stop) {
      assert path[i + 1] in m;
    }
  }

  /** Only its parent has x as a child. */
  ghost predicate OnlyParent(m: map<RbNode, Cell>, s: set<RbNode>, x: RbNode) {
    x in m && forall n, side | n in s :: n in m && (KidOf(m[n], side) == x ==> m[x].parent == n && n != x)
  }

  ghost predicate KidsKnown(m: map<RbNode, Cell>, s: set<RbNode>) {
    forall n | n in s :: n in m && (m[n].left != null ==> m[n].left in m) && (m[n].right != null ==> m[n].right in m)
  }

  lemma LinkedMeans(m: map<RbNode, Cell>, s: set<RbNode>)
    requires Linked(m, s)
    ensures KidsKnown(m, s) && forall x | x in m :: OnlyParent(m, s, x)
  {
    forall n | n in s ensures n in m && (m[n].left != null ==> m[n].left in m) && (m[n].right != null ==> m[n].right in m) {
      assert ParentAt(m, n, Left) && ParentAt(m, n, Right);
    }
    forall x, n, side | x in m && n in s && KidOf(m[n], side) == x ensures m[x].parent == n && n != x {
      assert ParentAt(m, n, side);
    }
  }

  /** Setting one cache right can only upset the parent's. */
  lemma CacheSet(m: map<RbNode, Cell>, a: map<RbNode, int>, s: set<RbNode>, rb: RbNode)
    requires OnlyParent(m, s, rb) && AugExcept(m, a, s, rb) && rb in s && rb in m && rb in a
    ensures AugExcept(m, a[rb := Computed(m[rb], a, rb)], s, m[rb].parent)
    ensures a[rb] == Computed(m[rb], a, rb) ==> AugExcept(m, a, s, null)
  {
    var a' := a[rb := Computed(m[rb], a, rb)];
    assert KidOf(m[rb], Left) != rb && KidOf(m[rb], Right) != rb;
    forall n | n in s && n != m[rb].parent ensures AugAt(m, a', n) {
      if n != rb {
        assert AugAt(m, a, n);
        assert KidOf(m[n], Left) != rb && KidOf(m[n], Right) != rb;
      }
    }
  }

  /** The caches that a propagation would leave. */
  lemma {:induction false} Propagated(m: map<RbNode, Cell>, a: map<RbNode, int>, rb: RbNode?, stop: RbNode?, path: seq<RbNode>, s: set<RbNode>)
    returns (a': map<RbNode, int>)
    requires (stop != null ==> stop !in s) && (forall x | x in path :: x in s && x in a && OnlyParent(m, s, x))
    requires UpPath(m, path, stop) && rb == (if path == [] then stop else path[0]) && AugExcept(m, a, s, rb)
    ensures AugExcept(m, a', s, null) && a'.Keys == a.Keys && forall n | n in a && n !in s :: a'[n] == a[n]
  {
    hide AugExcept, UpPath, Computed, OnlyParent;
    if path == [] {
      NoneExcepted(m, a, s, stop);
      a' := a;
    } else {
      assert rb in m by { UpPathHead(m, path, stop); }
      CacheSet(m, a, s, rb);
      UpPathStep(m, path, stop);
      a' := Propagated(m, a[rb := Computed(m[rb], a, rb)], m[rb].parent, stop, path[1..], s);
    }
  }

  lemma UpPathHead(m: map<RbNode, Cell>, path: seq<RbNode>, stop: RbNode?)
    requires UpPath(m, path, stop) && path != []
    ensures path[0] in m
  {}

  /** dummy_propagate: nothing is done. */
  ghost method DummyPropagate(root: RbRoot, rb: RbNode?, stop: RbNode?, path: seq<RbNode>, s: set<RbNode>)
    requires !root.callbacks
    requires s <= root.nodes && (stop != null ==> stop !in s) && (forall x | x in path :: x in s && OnlyParent(root.View().mem, s, x))
    requires UpPath(root.View().mem, path, stop) && rb == if path == [] then stop else path[0]
    requires AugExcept(root.View().mem, root.Augs(), s, rb)
    modifies s`shadow
    ensures root.View() == old(root.View()) && AugExcept(root.View().mem, root.Augs(), s, null)
    ensures root.Augs().Keys == old(root.Augs()).Keys && forall n | n in root.nodes && n !in s :: root.Augs()[n] == old(root.Augs())[n]
  {
    hide AugExcept, UpPath, Computed, OnlyParent;
    ghost var a := root.Augs();
    ghost var a' := Propagated(root.View().mem, a, rb, stop, path, s);
    forall n | n in s { n.shadow := a'[n]; }
    assert root.Augs() == a';
  }

  /** augment->propagate, or dummy_propagate */
  method Propagate(root: RbRoot, rb0: RbNode?, stop: RbNode?, ghost path0: seq<RbNode>, ghost s: set<RbNode>)
    requires s <= root.nodes && (stop != null ==> stop !in s) && (forall x | x in path0 :: x in s && OnlyParent(root.View().mem, s, x))
    requires UpPath(root.View().mem, path0, stop) && rb0 == if path0 == [] then stop else path0[0]
    requires KidsKnown(root.View().mem, s) && AugExcept(root.View().mem, root.Augs(), s, rb0)
    modifies s`augmented, s`shadow
    ensures root.View() == old(root.View()) && AugExcept(root.View().mem, root.Augs(), s, null)
    ensures root.Augs().Keys == old(root.Augs()).Keys && forall n | n in root.nodes && n !in s :: root.Augs()[n] == old(root.Augs())[n]
  {
    hide AugExcept, UpPath, OnlyParent, KidsKnown;
    if root.callbacks {
      PropagateCaches(root, rb0, stop, path0, s);
    } else {
      DummyPropagate(root, rb0, stop, path0, s);
    }
  }

  /** Recomputes caches from rb upwards, until one does not change or stop is reached. */
  method PropagateCaches(root: RbRoot, rb0: RbNode?, stop: RbNode?, ghost path0: seq<RbNode>, ghost s: set<RbNode>)
    requires root.callbacks
    requires s <= root.nodes && (stop != null ==> stop !in s) && (forall x | x in path0 :: x in s && OnlyParent(root.View().mem, s, x))
    requires UpPath(root.View().mem, path0, stop) && rb0 == if path0 == [] then stop else path0[0]
    requires KidsKnown(root.View().mem, s) && AugExcept(root.View().mem, root.Augs(), s, rb0)
    modifies s`augmented
    ensures root.View() == old(root.View()) && AugExcept(root.View().mem, root.Augs(), s, null)
    ensures root.Augs().Keys == old(root.Augs()).Keys && forall n | n in root.nodes && n !in s :: root.Augs()[n] == old(root.Augs())[n]
  {
    hide AugExcept, UpPath, Computed, OnlyParent;
    ghost var m, path := root.View().mem, path0;
    var rb := rb0;
    while rb != stop
      invariant root.View().mem == m && rb == (if path == [] then stop else path[0])
      invariant forall x | x in path :: x in s && OnlyParent(m, s, x)
      invariant UpPath(m, path, stop) && AugExcept(m, root.Augs(), s, rb)
      decreases |path|
    {
      ghost var a := root.Augs();
      CacheSet(m, a, s, rb);
      UpPathStep(m, path, stop);
      assert m[rb] == Cell(rb.left, rb.right, rb.parent, rb.red);
      var max := I.ComputeMax(root, rb);
      if rb.augmented == max { return; }
      rb.augmented := max;
      assert root.Augs() == a[rb := max];
      rb := rb.parent;
      path := path[1..];
    }
    NoneExcepted(m, root.Augs(), s, stop);
  }

  lemma NoneExcepted(m: map<RbNode, Cell>, a: map<RbNode, int>, s: set<RbNode>, stop: RbNode?)
    requires AugExcept(m, a, s, stop) && (stop != null ==> stop !in s)
    ensures AugExcept(m, a, s, null)
  {}

  /** Everything is right but, perhaps, the cache of the focus' parent. */
  ghost predicate Nearly(st: State, a: map<RbNode, int>, ctx: Context, t: Tree) {
    && Holds(st, ctx, t) && st.mem.Keys == Nodes(Zip(ctx, t)) && a.Keys == st.mem.Keys
    && AugExcept(st.mem, a, st.mem.Keys, Above(ctx))
  }

  function PathOf(ctx: Context): seq<RbNode> {
    seq(|ctx|, i requires 0 <= i < |ctx| => ctx[i].node)
  }

  lemma {:induction false} PathGoesUp(m: map<RbNode, Cell>, ctx: Context, hole: RbNode?, root: RbNode?)
    requires RepCtx(m, ctx, hole, root)
    ensures UpPath(m, PathOf(ctx), null) && forall x | x in PathOf(ctx) :: x in CtxNodes(ctx)
  {
    if ctx != [] {
      var path, rest := PathOf(ctx), PathOf(ctx[1..]);
      PathGoesUp(m, ctx[1..], ctx[0].node, root);
      assert path[1..] == rest;
      forall i | 0 <= i < |path| ensures path[i] in m && m[path[i]].parent == NextUp(path, i, null) && path[i] in CtxNodes(ctx) {
        if i > 0 {
          assert rest[i - 1] == path[i] && rest[i - 1] in m && rest[i - 1] in CtxNodes(ctx[1..]);
          assert NextUp(rest, i - 1, null) == NextUp(path, i, null);
        }
      }
    }
  }

  lemma NearlyFacts(st: State, a: map<RbNode, int>, ctx: Context, t: Tree)
    requires Nearly(st, a, ctx, t)
    ensures UpPath(st.mem, PathOf(ctx), null) && (forall x | x in PathOf(ctx) :: x in st.mem.Keys)
    ensures Above(ctx) == if PathOf(ctx) == [] then null else PathOf(ctx)[0]
    ensures KidsKnown(st.mem, st.mem.Keys) && forall x | x in PathOf(ctx) :: OnlyParent(st.mem, st.mem.Keys, x)
  {
    PathGoesUp(st.mem, ctx, Top(t), st.root);
    ZipNodes(ctx, t);
    HoldsZip(st, ctx, t);
    RepLinked(st.mem, Zip(ctx, t), null);
    LinkedMeans(st.mem, st.mem.Keys);
  }

  /** augment->propagate from the parent of the focus to the root. */
  method PropagateUp(root: RbRoot, p: RbNode?, ghost ctx: Context, ghost t: Tree)
    requires Nearly(root.View(), root.Augs(), ctx, t) && p == Above(ctx)
    modifies root.nodes`augmented, root.nodes`shadow
    ensures I.Whole(root, ctx, t) && root.View() == old(root.View())
  {
    NearlyFacts(root.View(), root.Augs(), ctx, t);
    hide Holds, OnlyParent, UpPath, PathOf;
    Propagate(root, p, null, PathOf(ctx), root.nodes);
    assert root.Augs().Keys == root.nodes;
  }

  // ---------- a node with at most one child ----------

  function Drop(st: State, n: RbNode): State {
    st.(mem := st.mem - {n})
  }

  lemma DropHolds(st: State, ctx: Context, t: Tree, n: RbNode)
    requires Holds(st, ctx, t) && n !in Nodes(t) + CtxNodes(ctx)
    ensures Holds(Drop(st, n), ctx, t)
  {
    RepIn(st.mem, t, Above(ctx));
    CtxIn(st.mem, ctx, Top(t), st.root);
    hide Rep, RepCtx, Nodes, CtxNodes;
    RepFrame(st.mem, Drop(st, n).mem, t, Above(ctx));
    CtxFrame(st.mem, Drop(st, n).mem, ctx, Top(t), st.root);
  }

  lemma SingleNearly(st: State, a: map<RbNode, int>, ctx: Context, sub: Tree, side: Side)
    requires Intact(st, a, ctx, sub) && sub.Node? && Kid(sub, side) == Leaf
    ensures var x := Kid(sub, Other(side));
      sub.node in st.mem && Nearly(Drop(Spliced(st, sub.node, Top(x)), sub.node), a - {sub.node}, ctx, Painted(x, sub.red))
  {
    hide Intact, Nearly, Spliced, Zip, Nodes, CtxNodes, Holds, KidOf, AugOk, ParentsOk, AugExcept;
    var x, n, p := Kid(sub, Other(side)), sub.node, Above(ctx);
    var st1 := Spliced(st, n, Top(x));
    IntactParts(st, a, ctx, sub);
    SplicedHolds(st, ctx, sub, side);
    SingleCells(st, ctx, sub, side);
    SplicedCells(st, n, Top(x), p, SideAbove(ctx));
    HoldsParents(st, ctx, sub);
    SingleNodes(st, ctx, sub, side);
    DropHolds(st1, ctx, Painted(x, sub.red), n);
    SingleKids(st, st1, n, Top(x), p, SideAbove(ctx));
    SingleCaches(st, st1, a, n, p);
    NearlyIntro(Drop(st1, n), a - {n}, ctx, Painted(x, sub.red));
  }

  lemma IntactParts(st: State, a: map<RbNode, int>, ctx: Context, t: Tree)
    requires Intact(st, a, ctx, t)
    ensures Holds(st, ctx, t) && st.mem.Keys == Nodes(Zip(ctx, t)) && a.Keys == st.mem.Keys && AugOk(st.mem, a, st.mem.Keys)
  {}

  lemma NearlyIntro(st: State, a: map<RbNode, int>, ctx: Context, t: Tree)
    requires Holds(st, ctx, t) && st.mem.Keys == Nodes(Zip(ctx, t)) && a.Keys == st.mem.Keys
    requires AugExcept(st.mem, a, st.mem.Keys, Above(ctx))
    ensures Nearly(st, a, ctx, t)
  {}

  lemma SingleKids(st: State, st1: State, n: RbNode, child: RbNode?, p: RbNode?, pside: Side)
    requires n in st.mem && st1.mem.Keys == st.mem.Keys && (child != null ==> child in st.mem) && (p != null ==> p in st.mem)
    requires child != null ==> st1.mem[child] == st.mem[child].(parent := p, red := st.mem[n].red)
    requires forall x | x in st.mem && x != child && x != p :: st1.mem[x] == st.mem[x]
    ensures forall k | k in st.mem && k != p && k != n :: st1.mem[k].left == st.mem[k].left && st1.mem[k].right == st.mem[k].right
  {}

  lemma SingleNodes(st: State, ctx: Context, sub: Tree, side: Side)
    requires Holds(st, ctx, sub) && sub.Node? && Kid(sub, side) == Leaf
    ensures var x := Painted(Kid(sub, Other(side)), sub.red);
      sub.node !in Nodes(x) + CtxNodes(ctx) && Nodes(Zip(ctx, x)) == Nodes(Zip(ctx, sub)) - {sub.node}
  {
    var x := Kid(sub, Other(side));
    PaintedNodes(x, sub.red);
    ZipNodes(ctx, sub);
    ZipNodes(ctx, Painted(x, sub.red));
    assert Nodes(sub) == Nodes(x) + {sub.node};
  }

  lemma SingleCaches(st: State, st1: State, a: map<RbNode, int>, n: RbNode, p: RbNode?)
    requires AugOk(st.mem, a, st.mem.Keys) && ParentsOk(st.mem, st.mem.Keys) && n in st.mem && st.mem[n].parent == p
    requires st1.mem.Keys == st.mem.Keys
    requires forall k | k in st.mem && k != p && k != n :: st1.mem[k].left == st.mem[k].left && st1.mem[k].right == st.mem[k].right
    ensures AugExcept(Drop(st1, n).mem, a - {n}, Drop(st1, n).mem.Keys, p)
  {
    var m', a' := Drop(st1, n).mem, a - {n};
    forall k | k in m'.Keys && k != p ensures AugAt(m', a', k) {
      assert AugAt(st.mem, a, k) && ParentAt(st.mem, k, Left) && ParentAt(st.mem, k, Right);
      assert KidOf(st.mem[k], Left) != n && KidOf(st.mem[k], Right) != n;
    }
  }

  lemma SingleCells(st: State, ctx: Context, sub: Tree, side: Side)
    requires Holds(st, ctx, sub) && sub.Node? && Kid(sub, side) == Leaf
    ensures var x, n, p := Kid(sub, Other(side)), sub.node, Above(ctx);
      && n in st.mem && st.mem[n].parent == p && st.mem[n].red == sub.red && KidOf(st.mem[n], side) == null && KidOf(st.mem[n], Other(side)) == Top(x)
      && (x.Node? ==> x.node in st.mem && x.node != n && x.node != p)
      && (p != null ==> p in st.mem && p != n && KidOf(st.mem[p], SideAbove(ctx)) == n && KidOf(st.mem[p], Other(SideAbove(ctx))) != n)
  {
    AroundParent(st, ctx, sub.node);
    TopIn(ctx, Kid(sub, Other(side)));
    TopIn(ctx, sub);
    assert Nodes(Kid(sub, Other(side))) <= Nodes(sub);
    assert Rep(st.mem, Kid(sub, Other(side)), sub.node);
  }

  /** Case 1: the node has no more than one child. */
  method EraseSingle(root: RbRoot, node: RbNode, side: Side, ghost ctx: Context, ghost sub: Tree) returns (rebalance: RbNode?)
    requires I.Whole(root, ctx, sub) && sub.Node? && Kid(sub, side) == Leaf && node == sub.node
    modifies root, root.nodes
    ensures I.Whole(root, ctx, Painted(Kid(sub, Other(side)), sub.red)) && root.nodes == old(root.nodes) - {node}
    ensures rebalance == if Kid(sub, Other(side)).Leaf? && !sub.red then Above(ctx) else null
  {
    hide Intact, Nearly, Spliced, Holds;
    ghost var st, a := root.View(), root.Augs();
    IntactParts(st, a, ctx, sub);
    SingleNearly(st, a, ctx, sub, side);
    SingleCells(st, ctx, sub, side);
    assert st.mem[node] == Cell(node.left, node.right, node.parent, node.red);
    var parent, child := node.parent, root.Child(node, Other(side));
    rebalance := if child == null && !node.red then parent else null;
    Splice(root, node, child);
    Forget(root, node);
    PropagateUp(root, parent, ctx, Painted(Kid(sub, Other(side)), sub.red));
  }

  /** The parent's child pointer, and the parent and colour of the child. */
  method Splice(root: RbRoot, node: RbNode, child: RbNode?)
    requires node in root.nodes && (child != null ==> child in root.nodes && child != node && child != node.parent)
    requires node.parent != null ==> node.parent in root.nodes && node.parent != node
    modifies root`rbNode, root.nodes`left, root.nodes`right, root.nodes`parent, root.nodes`red
    ensures root.View() == Spliced(old(root.View()), node, child) && root.Augs() == old(root.Augs())
  {
    hide ChangeChild, PutParentColor;
    var parent, red := node.parent, node.red;
    if child != null {
      root.SetParentColor(child, parent, red);
    }
    root.ChangeChildOf(node, child, parent);
  }

  /** The node is no longer part of the tree. */
  ghost method Forget(root: RbRoot, node: RbNode)
    requires node in root.nodes
    modifies root`nodes
    ensures root.nodes == old(root.nodes) - {node}
    ensures root.View() == Drop(old(root.View()), node) && root.Augs() == old(root.Augs()) - {node}
  {
    ghost var m, a := root.Mem(), root.Augs();
    root.nodes := root.nodes - {node};
    assert root.Mem() == m - {node} && root.Augs() == a - {node};
  }
}
