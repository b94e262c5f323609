/**
 Trees without caches, as rb_insert_color and rb_erase keep them, and the variants of the operations
 that keep a pointer to the leftmost node (rbtree.c, rbtree.h, rbtree_augmented.h).
 */
module RbCached {
  import opened Sides
  import opened RbTree
  import opened RbMemory
  import opened RbRotate
  import opened RbAugment
  import opened RbUnlink
  import opened RbRemove
  import opened RbLink
  import opened RbOperations

  // ---------- a tree of either kind ----------

  /** A red-black tree in memory.  Where the callbacks are dummies there are no caches to be right. */
  ghost predicate Sound(root: RbRoot, tree: Tree)
    reads root, root.nodes
  {
    Shaped(root, tree) && RedBlack(tree) && (root.callbacks ==> Good(root, tree))
  }

  lemma GoodIsSound(root: RbRoot, tree: Tree)
    requires Good(root, tree)
    ensures Sound(root, tree)
  {
    assert Zip([], tree) == tree;
  }

  /** Every tree has right caches. */
  lemma {:induction false} RightCaches(m: map<RbNode, Cell>, t: Tree, parent: RbNode?) returns (a: map<RbNode, int>)
    requires Rep(m, t, parent)
    ensures a.Keys == Nodes(t) && AugOk(m, a, Nodes(t))
  {
    if t.Leaf? {
      a := map[];
    } else {
      var l := RightCaches(m, t.left, t.node);
      var r := RightCaches(m, t.right, t.node);
      a := (l + r)[t.node := Computed(m[t.node], l + r, t.node)];
      KidsBelow(m, t.left, t.node);
      KidsBelow(m, t.right, t.node);
      TopIn([], t.left);
      TopIn([], t.right);
      forall n | n in Nodes(t) ensures AugAt(m, a, n) {
        if n in Nodes(t.left) {
          assert AugAt(m, l, n);
        } else if n in Nodes(t.right) {
          assert AugAt(m, r, n);
        }
      }
    }
  }

  lemma {:induction false} KidsBelow(m: map<RbNode, Cell>, t: Tree, parent: RbNode?)
    requires Rep(m, t, parent)
    ensures forall n | n in Nodes(t) :: n in m
    ensures forall n | n in Nodes(t) :: (m[n].left != null ==> m[n].left in Nodes(t)) && (m[n].right != null ==> m[n].right in Nodes(t))
  {
    if t.Node? {
      KidsBelow(m, t.left, t.node);
      KidsBelow(m, t.right, t.node);
      TopIn([], t.left);
      TopIn([], t.right);
    }
  }

  /** For the proof alone: pretends that the caches of a tree without callbacks are right. */
  ghost method Pretend(root: RbRoot, tree: Tree)
    requires Sound(root, tree)
    modifies root.nodes`shadow
    ensures Good(root, tree) && root.View() == old(root.View())
  {
    assert Zip([], tree) == tree;
    if !root.callbacks {
      var a := RightCaches(root.View().mem, tree, null);
      root.Shadow(a);
    }
  }

  /** rb_link_node and rb_insert_color, or with callbacks rb_insert_augmented. */
  method InsertNode(root: RbRoot, node: RbNode, parent: RbNode?, side: Side, ghost tree0: Tree)
    returns (ghost tree: Tree, ghost before: seq<RbNode>, ghost after: seq<RbNode>)
    requires Sound(root, tree0) && node !in root.nodes
    requires if parent == null then root.rbNode == null else parent in root.nodes && root.Child(parent, side) == null
    modifies root, root.nodes, node
    ensures Sound(root, tree) && root.nodes == old(root.nodes) + {node}
    ensures InOrder(tree0) == before + after && InOrder(tree) == before + [node] + after && Beside(before, after, parent, side)
  {
    hide Intact, RedBlack, InOrder, Shaped;
    Pretend(root, tree0);
    tree, before, after := Insert(root, node, parent, side, tree0);
    GoodIsSound(root, tree);
  }

  /** rb_erase, or with callbacks rb_erase_augmented. */
  method EraseNode(root: RbRoot, node: RbNode, ghost tree0: Tree) returns (ghost tree: Tree, ghost before: seq<RbNode>, ghost after: seq<RbNode>)
    requires Sound(root, tree0) && node in root.nodes
    modifies root, root.nodes
    ensures Sound(root, tree) && root.nodes == old(root.nodes) - {node}
    ensures InOrder(tree0) == before + [node] + after && InOrder(tree) == before + after
  {
    hide Good, RedBlack, InOrder, Shaped;
    Pretend(root, tree0);
    tree, before, after := Erase(root, node, tree0);
    GoodIsSound(root, tree);
  }

  /** rb_replace_node: without caches, or with equal ones, the tree stays sound. */
  method ReplaceSound(root: RbRoot, victim: RbNode, new_: RbNode, ghost tree0: Tree)
    returns (ghost tree: Tree, ghost before: seq<RbNode>, ghost after: seq<RbNode>)
    requires Sound(root, tree0) && victim in root.nodes && new_ !in root.nodes
    modifies root, root.nodes, new_
    ensures Shaped(root, tree) && RedBlack(tree) && root.nodes == old(root.nodes) - {victim} + {new_}
    ensures !root.callbacks || (new_.value == victim.value && old(new_.augmented == victim.augmented)) ==> Sound(root, tree)
    ensures InOrder(tree0) == before + [victim] + after && InOrder(tree) == before + [new_] + after
  {
    hide RedBlack, Shaped, InOrder, Intact;
    ghost var st, a := root.View(), root.Augs();
    ghost var agree := root.callbacks && new_.value == victim.value && new_.augmented == victim.augmented;
    tree, before, after := ReplaceNode(root, victim, new_, tree0);
    if agree {
      assert root.Augs() == (a - {victim})[new_ := a[victim]];
      StillGood(root, st, a, tree0, victim, new_, tree);
    }
  }

  // ---------- the cached leftmost node ----------

  /** rb_root_cached */
  class RbRootCached {
    const rbRoot: RbRoot
    var rbLeftmost: RbNode?

    constructor (callbacks: bool)
      ensures fresh(this) && fresh(rbRoot) && rbRoot.callbacks == callbacks && rbRoot.nodes == {} && Valid(Leaf)
    {
      rbRoot := new RbRoot(callbacks);
      rbLeftmost := null;
    }

    /** The cache is the first node in order. */
    ghost predicate Valid(tree: Tree)
      reads this, rbRoot, rbRoot.nodes
    {
      Sound(rbRoot, tree) && rbLeftmost == FirstOf(InOrder(tree))
    }

    /** rb_insert_color_cached; the caller knows whether the free slot is the leftmost one. */
    method InsertCached(node: RbNode, parent: RbNode?, side: Side, leftmost: bool, ghost tree0: Tree)
      returns (ghost tree: Tree, ghost before: seq<RbNode>, ghost after: seq<RbNode>)
      requires Valid(tree0) && node !in rbRoot.nodes
      requires if parent == null then rbRoot.rbNode == null else parent in rbRoot.nodes && rbRoot.Child(parent, side) == null
      requires leftmost <==> parent == null || (side == Left && parent == rbLeftmost)
      modifies this, rbRoot, rbRoot.nodes, node
      ensures Valid(tree) && rbRoot.nodes == old(rbRoot.nodes) + {node}
      ensures InOrder(tree0) == before + after && InOrder(tree) == before + [node] + after && Beside(before, after, parent, side)
    {
      NoDuplicates(rbRoot, tree0);
      EmptyTree(rbRoot, tree0);
      hide Sound, InOrder;
      ghost var first := rbLeftmost;
      if leftmost {
        rbLeftmost := node;
      }
      tree, before, after := InsertNode(rbRoot, node, parent, side, tree0);
      FirstInserted(before, after, parent, side, node, first);
    }

    /** rb_erase_cached: if the first node goes, the next one becomes the first. */
    method EraseCached(node: RbNode, ghost tree0: Tree) returns (ghost tree: Tree, ghost before: seq<RbNode>, ghost after: seq<RbNode>)
      requires Valid(tree0) && node in rbRoot.nodes
      modifies this, rbRoot, rbRoot.nodes
      ensures Valid(tree) && rbRoot.nodes == old(rbRoot.nodes) - {node}
      ensures InOrder(tree0) == before + [node] + after && InOrder(tree) == before + after
    {
      NoDuplicates(rbRoot, tree0);
      before, after := Position(rbRoot, tree0, node);
      hide Sound, InOrder;
      ghost var first := rbLeftmost;
      if rbLeftmost == node {
        rbLeftmost := Next(rbRoot, node, tree0, before, after);
      }
      ghost var b, f;
      tree, b, f := EraseNode(rbRoot, node, tree0);
      UniqueSplit(before, node, after, b, f);
      FirstErased(before, after, node);
    }

    /** rb_replace_node_cached; if there are caches, it is the user's business that the new node's is right. */
    method ReplaceCached(victim: RbNode, new_: RbNode, ghost tree0: Tree)
      returns (ghost tree: Tree, ghost before: seq<RbNode>, ghost after: seq<RbNode>)
      requires Valid(tree0) && victim in rbRoot.nodes && new_ !in rbRoot.nodes
      modifies this, rbRoot, rbRoot.nodes, new_
      ensures Shaped(rbRoot, tree) && RedBlack(tree) && rbLeftmost == FirstOf(InOrder(tree))
      ensures !rbRoot.callbacks || (new_.value == victim.value && old(new_.augmented == victim.augmented)) ==> Valid(tree)
      ensures rbRoot.nodes == old(rbRoot.nodes) - {victim} + {new_}
      ensures InOrder(tree0) == before + [victim] + after && InOrder(tree) == before + [new_] + after
    {
      NoDuplicates(rbRoot, tree0);
      hide Sound, RedBlack, Shaped, InOrder;
      ghost var first := rbLeftmost;
      if rbLeftmost == victim {
        rbLeftmost := new_;
      }
      tree, before, after := ReplaceSound(rbRoot, victim, new_, tree0);
      FirstReplaced(before, after, victim, new_);
    }

    /** rb_first_cached */
    method FirstCached(ghost tree: Tree) returns (n: RbNode?)
      requires Valid(tree)
      ensures n == FirstOf(InOrder(tree))
    {
      n := rbLeftmost;
    }

    /**
     A user's search for the slot of a new node: down from the root, at each node to the side that its comparison
     tells (here the given turns, then left), remembering whether it ever went right.
     */
    method Search(turns: seq<Side>, ghost tree: Tree) returns (parent: RbNode?, side: Side, leftmost: bool)
      requires Valid(tree)
      ensures if parent == null then rbRoot.rbNode == null else parent in rbRoot.nodes && rbRoot.Child(parent, side) == null
      ensures leftmost <==> parent == null || (side == Left && parent == rbLeftmost)
    {
      NoDuplicates(rbRoot, tree);
      ghost var c, t: Tree := [], tree;
      assert Holds(rbRoot.View(), c, t) && Zip(c, t) == tree;
      var n, i := rbRoot.rbNode, 0;
      parent, side, leftmost := null, Left, true;
      hide Sound, Holds, Zip, InOrder;
      while n != null
        invariant Holds(rbRoot.View(), c, t) && Zip(c, t) == tree && n == Top(t)
        invariant parent == Above(c) && (c != [] ==> side == c[0].side) && (leftmost <==> OnlyLeft(c))
        invariant parent != null ==> parent in rbRoot.nodes && rbRoot.Child(parent, side) == n
        decreases t
      {
        var s := if i < |turns| then turns[i] else Left;
        SearchStep(rbRoot, c, t, s);
        leftmost := leftmost && s == Left;
        parent, side, n := n, s, rbRoot.Child(n, s);
        i := i + 1;
        c, t := [Crumb(s, t.node, t.red, Kid(t, Other(s)))] + c, Kid(t, s);
      }
      SlotIsFirst(c, tree);
    }
  }

  lemma StillGood(root: RbRoot, st: State, a: map<RbNode, int>, tree0: Tree, victim: RbNode, new_: RbNode, tree: Tree)
    requires Intact(st, a, [], tree0) && victim in st.mem && new_ !in st.mem && new_.value == victim.value
    requires Shaped(root, tree) && RedBlack(tree) && root.View() == Drop(Replaced(st, victim, new_), victim)
    requires root.nodes == st.mem.Keys - {victim} + {new_} && root.Augs() == (a - {victim})[new_ := a[victim]]
    ensures Good(root, tree)
  {
    hide RedBlack;
    ReplacedAugs(st, a, tree0, victim, new_);
    assert Zip([], tree) == tree;
    hide Replaced, Rep, RepCtx;
    SameCaches(Replaced(st, victim, new_).mem, root.View().mem, root.Augs(), root.nodes);
  }

  lemma SameCaches(m: map<RbNode, Cell>, m': map<RbNode, Cell>, a: map<RbNode, int>, s: set<RbNode>)
    requires AugOk(m, a, s) && forall n | n in s :: n in m && n in m' && m'[n] == m[n]
    ensures AugOk(m', a, s)
  {
    forall n | n in s ensures AugAt(m', a, n) { assert AugAt(m, a, n); }
  }

  lemma ReplacedAugs(st: State, a: map<RbNode, int>, tree0: Tree, victim: RbNode, new_: RbNode)
    requires Intact(st, a, [], tree0) && victim in st.mem && new_ !in st.mem && new_.value == victim.value
    ensures victim in a && AugOk(Replaced(st, victim, new_).mem, (a - {victim})[new_ := a[victim]], st.mem.Keys - {victim} + {new_})
  {
    assert Zip([], tree0) == tree0;
    var ctx, sub := Locate(tree0, victim, []);
    HoldsZip(st, ctx, sub);
    ZipNodes(ctx, sub);
    HoldsParents(st, ctx, sub);
    ReplacedAt(st, ctx, sub, new_);
    assert st.mem[victim].parent == Above(ctx);
    ReplacedCaches(st, Replaced(st, victim, new_), a, victim, new_, Above(ctx), SideAbove(ctx));
  }

  /** Whether the way from the root was left all along. */
  predicate OnlyLeft(c: Context) {
    forall i | 0 <= i < |c| :: c[i].side == Left
  }

  lemma SearchStep(root: RbRoot, c: Context, t: Tree, s: Side)
    requires Holds(root.View(), c, t) && t.Node?
    ensures t.node in root.nodes && root.Child(t.node, s) == Top(Kid(t, s))
    ensures var c' := [Crumb(s, t.node, t.red, Kid(t, Other(s)))] + c;
      Holds(root.View(), c', Kid(t, s)) && Zip(c', Kid(t, s)) == Zip(c, t) && (OnlyLeft(c') <==> s == Left && OnlyLeft(c))
  {
    var c' := [Crumb(s, t.node, t.red, Kid(t, Other(s)))] + c;
    assert c'[1..] == c && Plug(c'[0], Kid(t, s)) == t;
    HoldsUp(root.View(), c', Kid(t, s));
    assert root.View().mem[t.node] == Cell(t.node.left, t.node.right, t.node.parent, t.node.red);
    assert forall i | 0 < i < |c'| :: c'[i] == c[i - 1];
    if OnlyLeft(c') { assert c'[0].side == Left; forall i | 0 <= i < |c| ensures c[i].side == Left { assert c'[i + 1].side == Left; } }
  }

  lemma {:induction false} NothingBefore(c: Context)
    ensures Before(c) == [] <==> OnlyLeft(c)
  {
    if c != [] {
      NothingBefore(c[1..]);
      assert forall i | 0 < i < |c| :: c[i] == c[1..][i - 1];
      if OnlyLeft(c[1..]) && c[0].side == Left { assert OnlyLeft(c); }
      if OnlyLeft(c) { assert c[0].side == Left && OnlyLeft(c[1..]); }
    }
  }

  /** A free slot is the leftmost one if and only if it is left of the first node. */
  lemma SlotIsFirst(c: Context, tree: Tree)
    requires Zip(c, Leaf) == tree && Distinct(InOrder(tree))
    ensures OnlyLeft(c) <==> c == [] || (c[0].side == Left && c[0].node == FirstOf(InOrder(tree)))
  {
    ZipInOrder(c, Leaf);
    NothingBefore(c);
    NextToParent(c);
    var order := Before(c) + After(c);
    assert InOrder(tree) == order;
    if c != [] && c[0].side == Left { assert order[|Before(c)|] == c[0].node; }
    if c != [] && OnlyLeft(c) { assert c[0].side == Left; }
  }

  // ---------- any mix of the cached operations ----------

  /** An insertion after a search, a removal, or a replacement. */
  datatype CachedOp = InsertOp(node: RbNode, turns: seq<Side>) | EraseOp(node: RbNode) | ReplaceOp(victim: RbNode, new_: RbNode)

  /** What the source demands: only nodes outside the tree are linked, only nodes of the tree are taken out. */
  predicate Applies(s: set<RbNode>, op: CachedOp) {
    match op
    case InsertOp(node, _) => node !in s
    case EraseOp(node) => node in s
    case ReplaceOp(victim, new_) => victim in s && new_ !in s
  }

  function NodesAfter(s: set<RbNode>, op: CachedOp): set<RbNode> {
    match op
    case InsertOp(node, _) => s + {node}
    case EraseOp(node) => s - {node}
    case ReplaceOp(victim, new_) => s - {victim} + {new_}
  }

  predicate AllApply(s: set<RbNode>, ops: seq<CachedOp>)
    decreases |ops|
  {
    ops != [] ==> Applies(s, ops[0]) && AllApply(NodesAfter(s, ops[0]), ops[1..])
  }

  /** The nodes that some operation links. */
  function Comers(ops: seq<CachedOp>): set<RbNode> {
    (set op | op in ops && op.InsertOp? :: op.node) + (set op | op in ops && op.ReplaceOp? :: op.new_)
  }

  /** What one operation does, at place k, to the nodes in order. */
  ghost predicate StepAt(s: seq<RbNode>, op: CachedOp, k: nat, s': seq<RbNode>) {
    match op
    case InsertOp(node, _) => k <= |s| && s' == s[..k] + [node] + s[k..]
    case EraseOp(node) => k < |s| && s[k] == node && s' == s[..k] + s[k + 1..]
    case ReplaceOp(victim, new_) => k < |s| && s[k] == victim && s' == s[k := new_]
  }

  ghost predicate OrderStep(s: seq<RbNode>, op: CachedOp, s': seq<RbNode>) {
    exists k :: StepAt(s, op, k, s')
  }

  lemma StepIs(s: seq<RbNode>, op: CachedOp, before: seq<RbNode>, after: seq<RbNode>, s': seq<RbNode>)
    requires op.InsertOp? ==> s == before + after && s' == before + [op.node] + after
    requires op.EraseOp? ==> s == before + [op.node] + after && s' == before + after
    requires op.ReplaceOp? ==> s == before + [op.victim] + after && s' == before + [op.new_] + after
    ensures OrderStep(s, op, s')
  {
    assert before == s[..|before|];
    assert StepAt(s, op, |before|, s');
  }

  /** One operation of a mix. */
  method ApplyCached(root: RbRootCached, op: CachedOp, ghost tree0: Tree) returns (ghost tree: Tree)
    requires root.Valid(tree0) && !root.rbRoot.callbacks && Applies(root.rbRoot.nodes, op)
    modifies root, root.rbRoot, root.rbRoot.nodes, Comers([op])
    ensures root.Valid(tree) && root.rbRoot.nodes == NodesAfter(old(root.rbRoot.nodes), op)
    ensures OrderStep(InOrder(tree0), op, InOrder(tree))
  {
    hide Sound, InOrder;
    ghost var before, after;
    assert op in [op];
    match op {
      case InsertOp(node, turns) =>
        var parent, side, leftmost := root.Search(turns, tree0);
        tree, before, after := root.InsertCached(node, parent, side, leftmost, tree0);
      case EraseOp(node) =>
        tree, before, after := root.EraseCached(node, tree0);
      case ReplaceOp(victim, new_) =>
        tree, before, after := root.ReplaceCached(victim, new_, tree0);
    }
    StepIs(InOrder(tree0), op, before, after, InOrder(tree));
  }

  /**
   Through any mix of cached operations, what rb_first_cached returns after each of them is the first node of
   the tree, the node that rb_first finds.
   */
  method RunCached(root: RbRootCached, ops: seq<CachedOp>, ghost tree0: Tree)
    returns (firsts: seq<RbNode?>, ghost trees: seq<Tree>)
    requires root.Valid(tree0) && !root.rbRoot.callbacks && AllApply(root.rbRoot.nodes, ops)
    modifies root, root.rbRoot, root.rbRoot.nodes, Comers(ops)
    ensures |firsts| == |ops| && |trees| == |ops| + 1 && trees[0] == tree0 && root.Valid(trees[|ops|])
    ensures forall i | 0 <= i < |ops| :: OrderStep(InOrder(trees[i]), ops[i], InOrder(trees[i + 1]))
    ensures forall i | 0 <= i < |ops| :: firsts[i] == FirstOf(InOrder(trees[i + 1]))
  {
    hide Sound, InOrder, OrderStep, RbRootCached.Valid, AllApply, Applies, NodesAfter, Comers;
    firsts, trees := [], [tree0];
    var k := 0;
    assert ops[0..] == ops;
    while k < |ops|
      invariant k == |firsts| <= |ops| && |trees| == k + 1 && trees[0] == tree0 && root.Valid(trees[k])
      invariant AllApply(root.rbRoot.nodes, ops[k..]) && root.rbRoot.nodes <= old(root.rbRoot.nodes) + Comers(ops)
      invariant forall i | 0 <= i < k :: OrderStep(InOrder(trees[i]), ops[i], InOrder(trees[i + 1]))
      invariant forall i | 0 <= i < k :: firsts[i] == FirstOf(InOrder(trees[i + 1]))
    {
      ComersOf(ops, k);
      NextApplies(root.rbRoot.nodes, ops, k);
      ghost var tree := ApplyCached(root, ops[k], trees[k]);
      var n := root.FirstCached(tree);
      firsts, trees := firsts + [n], trees + [tree];
      k := k + 1;
    }
  }

  lemma NextApplies(s: set<RbNode>, ops: seq<CachedOp>, k: nat)
    requires k < |ops| && AllApply(s, ops[k..])
    ensures Applies(s, ops[k]) && AllApply(NodesAfter(s, ops[k]), ops[k + 1..])
  {
    assert ops[k..][0] == ops[k] && ops[k..][1..] == ops[k + 1..];
  }

  lemma ComersOf(ops: seq<CachedOp>, k: nat)
    requires k < |ops|
    ensures Comers([ops[k]]) <= Comers(ops) && forall s: set<RbNode> :: NodesAfter(s, ops[k]) <= s + Comers(ops)
  {
    assert ops[k] in ops && ops[k] in [ops[k]];
  }

  lemma NoDuplicates(root: RbRoot, tree: Tree)
    requires Shaped(root, tree)
    ensures Distinct(InOrder(tree))
  {
    RepDistinct(root.View().mem, tree, null);
  }

  lemma Position(root: RbRoot, tree: Tree, node: RbNode) returns (before: seq<RbNode>, after: seq<RbNode>)
    requires Shaped(root, tree) && node in root.nodes
    ensures InOrder(tree) == before + [node] + after
  {
    InOrderNodes(tree);
    assert Zip([], tree) == tree;
    var order := InOrder(tree);
    assert node in Nodes(tree);
    assert node in order;
    var i :| 0 <= i < |order| && order[i] == node;
    before, after := order[..i], order[i + 1..];
  }

  lemma FirstInserted(before: seq<RbNode>, after: seq<RbNode>, parent: RbNode?, side: Side, node: RbNode, first: RbNode?)
    requires Distinct(before + after) && Beside(before, after, parent, side) && first == FirstOf(before + after)
    requires parent == null ==> before + after == []
    ensures FirstOf(before + [node] + after) == if parent == null || (side == Left && parent == first) then node else first
  {
    var s := before + after;
    if parent != null && side == Left {
      assert s[|before|] == parent;
    }
  }

  lemma EmptyTree(root: RbRoot, tree: Tree)
    requires Shaped(root, tree)
    ensures root.rbNode == null <==> InOrder(tree) == []
  {
    InOrderEmpty(tree);
  }

  lemma FirstReplaced(before: seq<RbNode>, after: seq<RbNode>, victim: RbNode, new_: RbNode)
    requires Distinct(before + [victim] + after)
    ensures FirstOf(before + [new_] + after)
      == if FirstOf(before + [victim] + after) == victim then new_ else FirstOf(before + [victim] + after)
  {
    var s := before + [victim] + after;
    assert s[|before|] == victim;
  }

  lemma FirstErased(before: seq<RbNode>, after: seq<RbNode>, node: RbNode)
    requires Distinct(before + [node] + after)
    ensures FirstOf(before + after) == if FirstOf(before + [node] + after) == node then FirstOf(after) else FirstOf(before + [node] + after)
  {
    var s := before + [node] + after;
    assert s[|before|] == node;
  }
}
