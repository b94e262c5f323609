/**
 The operations of the red-black tree: erase, first, next and replace (rbtree.c, rbtree_augmented.h).
 */
module RbOperations {
  import opened Sides
  import opened RbTree
  import opened RbMemory
  import opened RbRotate
  import opened RbAugment
  import I = RbInsert
  import opened RbErase
  import opened RbEraseColor
  import opened RbUnlink
  import opened RbRemove
  import opened RbEraseTwo
  import opened RbLink

  /** A red-black tree in memory, all caches right. */
  ghost predicate Good(root: RbRoot, tree: Tree)
    reads root, root.nodes
  {
    I.Whole(root, [], tree) && RedBlack(tree)
  }

  // ---------- erase ----------

  lemma Found(st: State, a: map<RbNode, int>, tree: Tree, node: RbNode) returns (ctx: Context, sub: Tree)
    requires Intact(st, a, [], tree) && node in st.mem
    ensures Intact(st, a, ctx, sub) && Zip(ctx, sub) == tree && sub.Node? && sub.node == node
  {
    assert Zip([], tree) == tree;
    ctx, sub := Locate(tree, node, []);
    Unzipped(st, a, ctx, sub);
  }

  /** rb_erase_augmented: exactly the given node leaves the tree. */
  method Erase(root: RbRoot, node: RbNode, ghost tree0: Tree) returns (ghost tree: Tree, ghost before: seq<RbNode>, ghost after: seq<RbNode>)
    requires Good(root, tree0) && node in root.nodes
    modifies root, root.nodes
    ensures Good(root, tree) && root.nodes == old(root.nodes) - {node}
    ensures InOrder(tree0) == before + [node] + after && InOrder(tree) == before + after
  {
    hide Intact, RedBlack, Zip, InOrder;
    ghost var st, a := root.View(), root.Augs();
    ghost var ctx, sub := Found(st, a, tree0, node);
    SubRead(st, a, ctx, sub);
    assert st.mem[node] == Cell(node.left, node.right, node.parent, node.red);
    if node.left == null {
      tree, before, after := EraseOne(root, node, Left, ctx, sub);
    } else if node.right == null {
      tree, before, after := EraseOne(root, node, Right, ctx, sub);
    } else {
      tree, before, after := EraseBoth(root, node, ctx, sub);
    }
  }

  lemma OneOrder(ctx: Context, sub: Tree, side: Side)
    requires sub.Node? && Kid(sub, side) == Leaf
    ensures var x := Kid(sub, Other(side));
      var b := Before(ctx) + (if side == Left then [] else InOrder(x)); var f := (if side == Left then InOrder(x) else []) + After(ctx);
      && InOrder(Zip(ctx, sub)) == b + [sub.node] + f && InOrder(Zip(ctx, Painted(x, sub.red))) == b + f
  {
    var x := Kid(sub, Other(side));
    OneSubOrder(sub, side);
    PaintedNodes(x, sub.red);
    hide InOrder, Before, After, Zip;
    ZipInOrder(ctx, sub);
    ZipInOrder(ctx, Painted(x, sub.red));
    OneGroup(Before(ctx), InOrder(x), After(ctx), [sub.node]);
  }

  lemma OneGroup(b: seq<RbNode>, m: seq<RbNode>, f: seq<RbNode>, n: seq<RbNode>)
    ensures b + (n + m) + f == (b + []) + n + (m + f) && b + m + f == (b + []) + (m + f)
    ensures b + (m + n) + f == (b + m) + n + ([] + f) && b + m + f == (b + m) + ([] + f)
  {}

  lemma OneSubOrder(sub: Tree, side: Side)
    requires sub.Node? && Kid(sub, side) == Leaf
    ensures InOrder(sub) == if side == Left then [sub.node] + InOrder(Kid(sub, Other(side))) else InOrder(Kid(sub, Other(side))) + [sub.node]
  {
    assert InOrder(Leaf) == [];
  }

  method EraseOne(root: RbRoot, node: RbNode, side: Side, ghost ctx: Context, ghost sub: Tree)
    returns (ghost tree: Tree, ghost before: seq<RbNode>, ghost after: seq<RbNode>)
    requires I.Whole(root, ctx, sub) && RedBlack(Zip(ctx, sub)) && sub.Node? && node == sub.node && Kid(sub, side) == Leaf
    modifies root, root.nodes
    ensures Good(root, tree) && root.nodes == old(root.nodes) - {node}
    ensures InOrder(Zip(ctx, sub)) == before + [node] + after && InOrder(tree) == before + after
  {
    hide Intact, RedBlack, Zip, InOrder, Erasing;
    ghost var x := Kid(sub, Other(side));
    SingleColors(ctx, sub, side);
    OneOrder(ctx, sub, side);
    before := Before(ctx) + (if side == Left then [] else InOrder(x));
    after := (if side == Left then InOrder(x) else []) + After(ctx);
    var rebalance := EraseSingle(root, node, side, ctx, sub);
    if rebalance != null {
      tree := EraseColor(root, rebalance, ctx);
    } else {
      tree := Zip(ctx, Painted(x, sub.red));
      I.Zipped(root.View(), root.Augs(), ctx, Painted(x, sub.red));
    }
  }

  method EraseBoth(root: RbRoot, node: RbNode, ghost ctx: Context, ghost sub: Tree)
    returns (ghost tree: Tree, ghost before: seq<RbNode>, ghost after: seq<RbNode>)
    requires I.Whole(root, ctx, sub) && RedBlack(Zip(ctx, sub)) && sub.Node? && sub.left.Node? && sub.right.Node? && node == sub.node
    modifies root, root.nodes
    ensures Good(root, tree) && root.nodes == old(root.nodes) - {node}
    ensures InOrder(Zip(ctx, sub)) == before + [node] + after && InOrder(tree) == before + after
  {
    hide Intact, RedBlack, Zip, InOrder, Erasing, Below, AllLeft;
    var rebalance;
    ghost var i, y;
    rebalance, i, y := EraseTwo(root, node, ctx, sub);
    before, after := TwoOrder(ctx, sub, i, y);
    TwoColors(ctx, sub, i, y);
    ghost var c := Below(i, y.node, sub.red, sub.left, ctx);
    if rebalance != null {
      tree := EraseColor(root, rebalance, c);
    } else {
      tree := Zip(c, Painted(y.right, y.red));
      I.Zipped(root.View(), root.Augs(), c, Painted(y.right, y.red));
    }
  }

  lemma TwoOrder(ctx: Context, sub: Tree, i: Context, y: Tree) returns (before: seq<RbNode>, after: seq<RbNode>)
    requires sub.Node? && sub.right == Zip(i, y) && y.Node? && y.left.Leaf? && AllLeft(i)
    ensures InOrder(Zip(ctx, sub)) == before + [sub.node] + after
    ensures InOrder(Zip(Below(i, y.node, sub.red, sub.left, ctx), Painted(y.right, y.red))) == before + after
  {
    before := Before(ctx) + InOrder(sub.left);
    after := [y.node] + InOrder(y.right) + After(i) + After(ctx);
    PaintedNodes(y.right, y.red);
    BelowZip(i, sub.node, sub.red, sub.left, ctx, y);
    SuccessorOrder(i, sub.node, sub.red, sub.left, ctx, y.node, y.red, y.right, Painted(y.right, y.red));
  }

  lemma TwoColors(ctx: Context, sub: Tree, i: Context, y: Tree)
    requires RedBlack(Zip(ctx, sub)) && sub.Node? && sub.right == Zip(i, y) && y.Node? && y.left.Leaf?
    ensures var c := Below(i, y.node, sub.red, sub.left, ctx);
      && c != [] && c[0].node == Old(i, y.node)
      && (y.right.Node? || y.red ==> RedBlack(Zip(c, Painted(y.right, y.red))))
      && (y.right.Leaf? && !y.red ==> Erasing(c, Leaf) && Painted(y.right, y.red) == Leaf)
  {
    hide RedBlack, Erasing, Zip;
    SubColors(ctx, sub, i, y);
    var c0 := Below(i, sub.node, sub.red, sub.left, ctx);
    SingleColors(c0, y, Left);
    if y.right.Node? || y.red {
      BelowRedBlack(i, sub.node, y.node, sub.red, sub.left, ctx, Painted(y.right, y.red));
    } else {
      BelowErasing(i, sub.node, y.node, sub.red, sub.left, ctx);
    }
  }

  // ---------- first and next ----------

  ghost function FirstOf(s: seq<RbNode>): RbNode? {
    if s == [] then null else s[0]
  }

  lemma InOrderEmpty(t: Tree)
    ensures InOrder(t) == [] <==> t.Leaf?
  {}

  /** A tree in memory, whatever its caches hold. */
  ghost predicate Shaped(root: RbRoot, tree: Tree)
    reads root, root.nodes
  {
    Holds(root.View(), [], tree) && root.nodes == Nodes(tree)
  }

  /** The loop that goes down to the leftmost node below n. */
  method Leftmost(root: RbRoot, n0: RbNode, ghost ctx: Context, ghost sub: Tree) returns (n: RbNode)
    requires Holds(root.View(), ctx, sub) && sub.Node? && n0 == sub.node
    ensures n == FirstOf(InOrder(sub))
  {
    hide Holds, Zip;
    n := n0;
    ghost var c, t := ctx, sub;
    SubRep(root.View(), c, t);
    assert root.View().mem[n] == Cell(n.left, n.right, n.parent, n.red);
    while n.left != null
      invariant Holds(root.View(), c, t) && t.Node? && n == t.node && n.left == Top(t.left)
      invariant FirstOf(InOrder(t)) == FirstOf(InOrder(sub))
      decreases t
    {
      LeftStep(root.View(), c, t);
      n := n.left;
      assert root.View().mem[n] == Cell(n.left, n.right, n.parent, n.red);
      c, t := [Crumb(Left, t.node, t.red, t.right)] + c, t.left;
    }
    InOrderEmpty(t.left);
  }

  lemma LeftStep(st: State, c: Context, t: Tree)
    requires Holds(st, c, t) && t.Node? && t.left.Node?
    ensures Holds(st, [Crumb(Left, t.node, t.red, t.right)] + c, t.left)
    ensures t.left.node in st.mem && st.mem[t.left.node].left == Top(t.left.left)
    ensures FirstOf(InOrder(t.left)) == FirstOf(InOrder(t))
  {
    var c' := [Crumb(Left, t.node, t.red, t.right)] + c;
    assert c'[1..] == c && Plug(c'[0], t.left) == t;
    InOrderEmpty(t.left);
    hide Holds, Zip;
    HoldsUp(st, c', t.left);
    SubRep(st, c', t.left);
  }

  /** rb_first */
  method First(root: RbRoot, ghost tree: Tree) returns (n: RbNode?)
    requires Shaped(root, tree)
    ensures n == FirstOf(InOrder(tree))
  {
    assert root.rbNode == Top(tree);
    InOrderEmpty(tree);
    n := root.rbNode;
    if n != null {
      n := Leftmost(root, n, [], tree);
    }
  }

  /** rb_next: what follows the node in order. */
  method Next(root: RbRoot, node: RbNode, ghost tree: Tree, ghost before: seq<RbNode>, ghost after: seq<RbNode>) returns (n: RbNode?)
    requires Shaped(root, tree) && InOrder(tree) == before + [node] + after
    ensures n == FirstOf(after)
  {
    ghost var st := root.View();
    ghost var ctx, sub := OrderedIn(st, tree, before, node, after);
    hide Holds, Zip, InOrder;
    SubRep(st, ctx, sub);
    assert st.mem[node] == Cell(node.left, node.right, node.parent, node.red);
    NextSplit(st, ctx, sub, before, after);
    InOrderEmpty(sub.right);
    if node.right != null {
      RightStep(st, ctx, sub);
      n := Leftmost(root, node.right, [Crumb(Right, sub.node, sub.red, sub.left)] + ctx, sub.right);
    } else {
      n := ClimbUp(root, node, ctx, sub);
    }
  }

  lemma RightStep(st: State, ctx: Context, sub: Tree)
    requires Holds(st, ctx, sub) && sub.Node?
    ensures Holds(st, [Crumb(Right, sub.node, sub.red, sub.left)] + ctx, sub.right)
  {
    var c := [Crumb(Right, sub.node, sub.red, sub.left)] + ctx;
    assert c[1..] == ctx && Plug(c[0], sub.right) == sub;
    HoldsUp(st, c, sub.right);
  }

  /** Goes up as long as the node is a right child: the parent then reached is next. */
  method ClimbUp(root: RbRoot, node: RbNode, ghost ctx: Context, ghost sub: Tree) returns (parent: RbNode?)
    requires Holds(root.View(), ctx, sub) && sub.Node? && node == sub.node
    ensures parent == FirstOf(After(ctx))
  {
    hide Holds, Zip;
    ghost var st, c, t := root.View(), ctx, sub;
    var n := node;
    ClimbRead(st, c, t);
    assert st.mem[n] == Cell(n.left, n.right, n.parent, n.red);
    parent := n.parent;
    while parent != null && n == parent.right
      invariant Holds(st, c, t) && root.View() == st && t.Node? && n == t.node && parent == Above(c)
      invariant After(c) == After(ctx)
      decreases |c|
    {
      ClimbRead(st, c, t);
      assert st.mem[parent] == Cell(parent.left, parent.right, parent.parent, parent.red);
      HoldsUp(st, c, t);
      assert After(c) == [] + After(c[1..]);
      n := parent;
      c, t := c[1..], Plug(c[0], t);
      parent := n.parent;
    }
    if parent != null {
      ClimbRead(st, c, t);
      assert st.mem[parent] == Cell(parent.left, parent.right, parent.parent, parent.red);
    }
  }

  lemma ClimbRead(st: State, c: Context, t: Tree)
    requires Holds(st, c, t) && t.Node?
    ensures t.node in st.mem && st.mem[t.node].parent == Above(c)
    ensures c != [] ==> c[0].node in st.mem && st.mem[c[0].node].parent == Above(c[1..])
    ensures c != [] ==> (st.mem[c[0].node].right == t.node <==> c[0].side == Right)
  {
    SubRep(st, c, t);
  }

  // ---------- no node twice ----------

  ghost predicate Distinct(s: seq<RbNode>) {
    forall i, j | 0 <= i < j < |s| :: s[i] != s[j]
  }

  lemma {:induction false} RepDistinct(m: map<RbNode, Cell>, t: Tree, parent: RbNode?)
    requires Rep(m, t, parent)
    ensures Distinct(InOrder(t))
  {
    if t.Node? {
      RepDistinct(m, t.left, t.node);
      RepDistinct(m, t.right, t.node);
      InOrderNodes(t.left);
      InOrderNodes(t.right);
      JoinDistinct(InOrder(t.left), t.node, InOrder(t.right), Nodes(t.left), Nodes(t.right));
    }
  }

  lemma JoinDistinct(a: seq<RbNode>, x: RbNode, b: seq<RbNode>, l: set<RbNode>, r: set<RbNode>)
    requires Distinct(a) && Distinct(b) && (forall y | y in a :: y in l) && (forall y | y in b :: y in r) && l !! r && x !in l && x !in r
    ensures Distinct(a + [x] + b)
  {
    var s := a + [x] + b;
    forall i, j | 0 <= i < j < |s| ensures s[i] != s[j] {
      if i < |a| { assert s[i] in a; }
      if j > |a| { assert s[j] in b; }
    }
  }

  lemma UniqueSplit(b: seq<RbNode>, x: RbNode, a: seq<RbNode>, b': seq<RbNode>, a': seq<RbNode>)
    requires b + [x] + a == b' + [x] + a' && Distinct(b + [x] + a)
    ensures b == b' && a == a'
  {
    var s := b + [x] + a;
    assert s[|b|] == x && s[|b'|] == x;
    assert |b| == |b'|;
    assert b == s[..|b|] && a == s[|b| + 1..];
    assert b' == s[..|b'|] && a' == s[|b'| + 1..];
  }

  lemma OrderedIn(st: State, tree: Tree, before: seq<RbNode>, node: RbNode, after: seq<RbNode>) returns (ctx: Context, sub: Tree)
    requires Holds(st, [], tree) && InOrder(tree) == before + [node] + after
    ensures Holds(st, ctx, sub) && Zip(ctx, sub) == tree && sub.Node? && sub.node == node
  {
    InOrderNodes(tree);
    assert InOrder(tree)[|before|] == node;
    ctx, sub := Locate(tree, node, []);
    HoldsZip(st, ctx, sub);
  }

  lemma NextSplit(st: State, ctx: Context, sub: Tree, before: seq<RbNode>, after: seq<RbNode>)
    requires Holds(st, ctx, sub) && sub.Node? && InOrder(Zip(ctx, sub)) == before + [sub.node] + after
    ensures after == InOrder(sub.right) + After(ctx)
  {
    var tree := Zip(ctx, sub);
    HoldsZip(st, ctx, sub);
    RepDistinct(st.mem, tree, null);
    ZipInOrder(ctx, sub);
    hide InOrder, Distinct, Before, After, Holds, Zip;
    assert InOrder(sub) == InOrder(sub.left) + [sub.node] + InOrder(sub.right) by { SubOrder(sub); }
    Group(Before(ctx), InOrder(sub.left), sub.node, InOrder(sub.right), After(ctx));
    UniqueSplit(before, sub.node, after, Before(ctx) + InOrder(sub.left), InOrder(sub.right) + After(ctx));
  }

  lemma SubOrder(t: Tree)
    requires t.Node?
    ensures InOrder(t) == InOrder(t.left) + [t.node] + InOrder(t.right)
  {}

  lemma Group(a: seq<RbNode>, b: seq<RbNode>, x: RbNode, c: seq<RbNode>, d: seq<RbNode>)
    ensures a + (b + [x] + c) + d == (a + b) + [x] + (c + d)
  {}

  // ---------- replace ----------

  /** rb_replace_node: the new node stands where the victim stood, and nothing else changes; no cache is touched. */
  method ReplaceNode(root: RbRoot, victim: RbNode, new_: RbNode, ghost tree0: Tree)
    returns (ghost tree: Tree, ghost before: seq<RbNode>, ghost after: seq<RbNode>)
    requires Shaped(root, tree0) && RedBlack(tree0) && victim in root.nodes && new_ !in root.nodes
    modifies root, root.nodes, new_
    ensures Shaped(root, tree) && RedBlack(tree) && root.nodes == old(root.nodes) - {victim} + {new_}
    ensures InOrder(tree0) == before + [victim] + after && InOrder(tree) == before + [new_] + after
    ensures root.View() == Drop(Replaced(old(root.View()), victim, new_), victim)
    ensures forall n | n in root.nodes :: n.augmented == old(n.augmented)
  {
    hide RedBlack, InOrder, Holds, Zip, Nodes;
    ghost var st := root.View();
    ghost var ctx, sub;
    ctx, sub, tree, before, after := ReplaceFacts(st, tree0, victim, new_);
    assert st.mem[victim] == Cell(victim.left, victim.right, victim.parent, victim.red);
    root.nodes := root.nodes + {new_};
    WriteReplace(root, victim, new_, st);
    Forget(root, victim);
  }

  lemma ReplaceFacts(st: State, tree0: Tree, victim: RbNode, new_: RbNode)
    returns (ctx: Context, sub: Tree, tree: Tree, before: seq<RbNode>, after: seq<RbNode>)
    requires Holds(st, [], tree0) && st.mem.Keys == Nodes(tree0) && RedBlack(tree0) && victim in st.mem && new_ !in st.mem
    ensures Holds(Drop(Replaced(st, victim, new_), victim), [], tree) && Nodes(tree) == Nodes(tree0) - {victim} + {new_} && RedBlack(tree)
    ensures InOrder(tree0) == before + [victim] + after && InOrder(tree) == before + [new_] + after
    ensures var c := st.mem[victim];
      && (c.left != null ==> c.left in st.mem && c.left != victim) && (c.right != null ==> c.right in st.mem && c.right != victim)
      && (c.parent != null ==> c.parent in st.mem && c.parent != victim)
    ensures Drop(Replaced(st, victim, new_), victim).mem.Keys == Nodes(tree)
  {
    assert Zip([], tree0) == tree0;
    ctx, sub := Locate(tree0, victim, []);
    HoldsZip(st, ctx, sub);
    var sub' := sub.(node := new_);
    tree := Zip(ctx, sub');
    hide Holds, RedBlack, InOrder, Nodes, Zip, Before, After, Replaced, CtxNodes;
    ZipNodes(ctx, sub);
    ZipNodes(ctx, sub');
    before, after := Before(ctx) + InOrder(sub.left), InOrder(sub.right) + After(ctx);
    ReplaceOrder(ctx, sub, new_);
    ReplacedHolds(st, ctx, sub, new_);
    FreshTop(st, ctx, sub, new_);
    DropHolds(Replaced(st, victim, new_), ctx, sub', victim);
    Rezip(Drop(Replaced(st, victim, new_), victim), ctx, sub', [], tree);
    ReplaceColors(ctx, sub, new_);
    ReplaceCells(st, ctx, sub);
    ReplaceKeys(st, victim, new_);
  }

  lemma ReplaceOrder(ctx: Context, sub: Tree, new_: RbNode)
    requires sub.Node?
    ensures var b, f := Before(ctx) + InOrder(sub.left), InOrder(sub.right) + After(ctx);
      InOrder(Zip(ctx, sub)) == b + [sub.node] + f && InOrder(Zip(ctx, sub.(node := new_))) == b + [new_] + f
  {
    hide InOrder, Before, After, Zip;
    var sub' := sub.(node := new_);
    ZipInOrder(ctx, sub);
    ZipInOrder(ctx, sub');
    SubOrder(sub);
    SubOrder(sub');
    Group(Before(ctx), InOrder(sub.left), sub.node, InOrder(sub.right), After(ctx));
    Group(Before(ctx), InOrder(sub.left), new_, InOrder(sub.right), After(ctx));
  }

  lemma ReplaceColors(ctx: Context, sub: Tree, new_: RbNode)
    requires RedBlack(Zip(ctx, sub)) && sub.Node?
    ensures RedBlack(Zip(ctx, sub.(node := new_)))
  {
    UnzipRedBlack(ctx, sub);
    var k := UnzipBlack(ctx, sub, BlackHeight(Zip(ctx, sub)));
    ZipBlack(ctx, sub.(node := new_), k);
    ZipNoRed(ctx, sub.(node := new_));
  }

  lemma ReplaceCells(st: State, ctx: Context, sub: Tree)
    requires Holds(st, ctx, sub) && sub.Node?
    ensures sub.node in st.mem
    ensures var c := st.mem[sub.node];
      && (c.left != null ==> c.left in st.mem && c.left != sub.node) && (c.right != null ==> c.right in st.mem && c.right != sub.node)
      && (c.parent != null ==> c.parent in st.mem && c.parent != sub.node)
  {
    SubRep(st, ctx, sub);
    SubApart(st, ctx, sub);
    TopIn(ctx, sub.left);
    TopIn(ctx, sub.right);
  }

  lemma ReplaceKeys(st: State, victim: RbNode, new_: RbNode)
    requires victim in st.mem
    requires var c := st.mem[victim];
      && (c.left != null ==> c.left in st.mem) && (c.right != null ==> c.right in st.mem) && (c.parent != null ==> c.parent in st.mem)
    ensures Replaced(st, victim, new_).mem.Keys == st.mem.Keys + {new_}
  {}

  method WriteReplace(root: RbRoot, victim: RbNode, new_: RbNode, ghost st: State)
    requires victim in root.nodes && new_ in root.nodes && st.mem == root.Mem() - {new_} && st.root == root.rbNode && victim != new_
    requires victim.left != null ==> victim.left in root.nodes && victim.left != new_ && victim.left != victim
    requires victim.right != null ==> victim.right in root.nodes && victim.right != new_ && victim.right != victim
    requires victim.parent != null ==> victim.parent in root.nodes && victim.parent != new_ && victim.parent != victim
    modifies root`rbNode, root.nodes`left, root.nodes`right, root.nodes`parent, root.nodes`red
    ensures root.View() == Replaced(st, victim, new_)
  {
    ghost var c := st.mem[victim];
    assert c == Cell(victim.left, victim.right, victim.parent, victim.red);
    CopyFields(root, victim, new_, st);
    hide PutParentColor, ChangeChild;
    var l, r, p := victim.left, victim.right, victim.parent;
    if l != null {
      root.SetParentColor(l, new_, l.red);
    }
    if r != null {
      root.SetParentColor(r, new_, r.red);
    }
    root.ChangeChildOf(victim, new_, p);
  }

  method CopyFields(root: RbRoot, victim: RbNode, new_: RbNode, ghost st: State)
    requires victim in root.nodes && new_ in root.nodes && st.mem == root.Mem() - {new_} && st.root == root.rbNode && victim != new_
    modifies {new_}`left, {new_}`right, {new_}`parent, {new_}`red
    ensures victim in st.mem && root.View() == st.(mem := st.mem[new_ := st.mem[victim]])
  {
    new_.left, new_.right, new_.parent, new_.red := victim.left, victim.right, victim.parent, victim.red;
    assert root.Mem() == st.mem[new_ := st.mem[victim]];
  }
}
