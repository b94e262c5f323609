/** Removal of a node with two children (rbtree_augmented.h: __rb_erase_augmented, cases 2 and 3), in memory. */
module RbEraseTwo {
  import opened Sides
  import opened RbTree
  import opened RbMemory
  import opened RbRotate
  import opened RbAugment
  import I = RbInsert
  import opened RbErase
  import opened RbUnlink
  import opened RbSuccessor
  import opened RbRemove

  // ---------- the successor ----------

  ghost predicate AllLeft(i: Context) {
    forall k | 0 <= k < |i| :: i[k].side == Left
  }

  /** The context of a place below the right child of the focus. */
  function Below(i: Context, node: RbNode, red: bool, l: Tree, ctx: Context): Context {
    i + ([Crumb(Right, node, red, l)] + ctx)
  }

  lemma BelowZip(i: Context, node: RbNode, red: bool, l: Tree, ctx: Context, t: Tree)
    ensures Zip(Below(i, node, red, l, ctx), t) == Zip(ctx, Node(l, node, red, Zip(i, t)))
  {
    ZipAppend(i, [Crumb(Right, node, red, l)] + ctx, t);
    assert ([Crumb(Right, node, red, l)] + ctx)[1..] == ctx;
  }

  /** Left steps change nothing of what comes before, and what comes after does not see right steps. */
  lemma {:induction false} BelowOrder(i: Context, node: RbNode, red: bool, l: Tree, ctx: Context)
    requires AllLeft(i)
    ensures Before(Below(i, node, red, l, ctx)) == Before(ctx) + InOrder(l) + [node]
    ensures After(Below(i, node, red, l, ctx)) == After(i) + After(ctx)
  {
    var base := [Crumb(Right, node, red, l)] + ctx;
    assert base[1..] == ctx;
    if i == [] {
      assert Below(i, node, red, l, ctx) == base;
    } else {
      assert Below(i, node, red, l, ctx)[1..] == Below(i[1..], node, red, l, ctx);
      BelowOrder(i[1..], node, red, l, ctx);
    }
  }

  /** The order after the successor has taken the node's place: the node is gone, nothing else has moved. */
  lemma SuccessorOrder(i: Context, node: RbNode, red: bool, l: Tree, ctx: Context, s: RbNode, sred: bool, c: Tree, c': Tree)
    requires AllLeft(i) && InOrder(c') == InOrder(c)
    ensures var before := Before(ctx) + InOrder(l); var after := [s] + InOrder(c) + After(i) + After(ctx);
      && InOrder(Zip(Below(i, node, red, l, ctx), Node(Leaf, s, sred, c))) == before + [node] + after
      && InOrder(Zip(Below(i, s, red, l, ctx), c')) == before + after
  {
    OnlyRight(s, sred, c);
    hide InOrder, Before, After, Zip, Below, AllLeft;
    BelowOrder(i, node, red, l, ctx);
    BelowOrder(i, s, red, l, ctx);
    ZipInOrder(Below(i, node, red, l, ctx), Node(Leaf, s, sred, c));
    ZipInOrder(Below(i, s, red, l, ctx), c');
    Reassociate(Before(ctx), InOrder(l), [node], [s], InOrder(c), After(i), After(ctx));
  }

  lemma OnlyRight(s: RbNode, red: bool, c: Tree)
    ensures InOrder(Node(Leaf, s, red, c)) == [s] + InOrder(c)
  {}

  lemma Reassociate(b: seq<RbNode>, l: seq<RbNode>, n: seq<RbNode>, s: seq<RbNode>, c: seq<RbNode>, i: seq<RbNode>, a: seq<RbNode>)
    ensures (b + l + n) + (s + c) + (i + a) == (b + l) + n + (s + c + i + a)
    ensures (b + l + s) + c + (i + a) == (b + l) + (s + c + i + a)
  {}

  /** Which node a crumb belongs to does not matter for the colours. */
  lemma {:induction false} BelowColors(i: Context, node: RbNode, s: RbNode, red: bool, l: Tree, ctx: Context, h: int)
    ensures CtxBlack(Below(i, node, red, l, ctx), h) <==> CtxBlack(Below(i, s, red, l, ctx), h)
    ensures CtxNoRed(Below(i, node, red, l, ctx)) <==> CtxNoRed(Below(i, s, red, l, ctx))
  {
    if i == [] {
      assert Below(i, node, red, l, ctx)[1..] == ctx && Below(i, s, red, l, ctx)[1..] == ctx;
    } else {
      BelowColors(i[1..], node, s, red, l, ctx, h + Weight(i[0].red));
      assert Below(i, node, red, l, ctx)[1..] == Below(i[1..], node, red, l, ctx);
      assert Below(i, s, red, l, ctx)[1..] == Below(i[1..], s, red, l, ctx);
    }
  }

  lemma BelowErasing(i: Context, node: RbNode, s: RbNode, red: bool, l: Tree, ctx: Context)
    requires Erasing(Below(i, node, red, l, ctx), Leaf)
    ensures Erasing(Below(i, s, red, l, ctx), Leaf) && Above(Below(i, s, red, l, ctx)) == if i == [] then s else i[0].node
  {
    BelowColors(i, node, s, red, l, ctx, 1);
  }

  lemma BelowRedBlack(i: Context, node: RbNode, s: RbNode, red: bool, l: Tree, ctx: Context, t: Tree)
    requires RedBlack(Zip(Below(i, node, red, l, ctx), t))
    ensures RedBlack(Zip(Below(i, s, red, l, ctx), t))
  {
    var c, c' := Below(i, node, red, l, ctx), Below(i, s, red, l, ctx);
    UnzipRedBlack(c, t);
    var k := UnzipBlack(c, t, BlackHeight(Zip(c, t)));
    BelowColors(i, node, s, red, l, ctx, k);
    if |i| > 0 { assert c'[0] == i[0] == c[0]; }
    ZipBlack(c', t, k);
    ZipNoRed(c', t);
  }

  /** Goes down to the leftmost node of the right subtree. */
  method FindSuccessor(root: RbRoot, node: RbNode, ghost ctx: Context, ghost sub: Tree)
    returns (s: RbNode, parent: RbNode, ghost i: Context, ghost y: Tree)
    requires I.Whole(root, ctx, sub) && sub.Node? && node == sub.node && sub.right.Node?
    ensures I.Whole(root, Below(i, node, sub.red, sub.left, ctx), y) && AllLeft(i) && sub.right == Zip(i, y)
    ensures y.Node? && y.left.Leaf? && s == y.node && parent == (if i == [] then s else i[0].node)
    ensures root.View() == old(root.View()) && root.Augs() == old(root.Augs())
  {
    hide Intact, Zip, Holds;
    ghost var st, a := root.View(), root.Augs();
    SubRead(st, a, ctx, sub);
    assert st.mem[node] == Cell(node.left, node.right, node.parent, node.red);
    i, y := [], sub.right;
    DownStart(st, a, ctx, sub);
    s := node.right;
    parent := s;
    assert st.mem[s] == Cell(s.left, s.right, s.parent, s.red);
    var tmp := s.left;
    while tmp != null
      invariant Intact(st, a, Below(i, node, sub.red, sub.left, ctx), y) && AllLeft(i) && sub.right == Zip(i, y)
      invariant y.Node? && s == y.node && tmp == Top(y.left) && parent == (if i == [] then s else i[0].node)
      decreases y
    {
      ghost var i0, y0 := i, y;
      DownStep(st, a, i, node, sub.red, sub.left, ctx, y);
      parent := s;
      s := tmp;
      assert st.mem[s] == Cell(s.left, s.right, s.parent, s.red);
      tmp := s.left;
      i, y := [Crumb(Left, y.node, y.red, y.right)] + i, y.left;
    }
  }

  lemma SubRead(st: State, a: map<RbNode, int>, ctx: Context, sub: Tree)
    requires Intact(st, a, ctx, sub) && sub.Node?
    ensures sub.node in st.mem && st.mem[sub.node] == Cell(Top(sub.left), Top(sub.right), Above(ctx), sub.red)
    ensures sub.left.Node? ==> sub.left.node in st.mem
    ensures sub.right.Node? ==> sub.right.node in st.mem && st.mem[sub.right.node].left == Top(sub.right.left)
  {
    RepRoot(st.mem, sub, Above(ctx));
    assert Rep(st.mem, sub.left, sub.node) && Rep(st.mem, sub.right, sub.node);
  }

  lemma DownStart(st: State, a: map<RbNode, int>, ctx: Context, sub: Tree)
    requires Intact(st, a, ctx, sub) && sub.Node?
    ensures Intact(st, a, Below([], sub.node, sub.red, sub.left, ctx), sub.right) && sub.right == Zip([], sub.right)
  {
    var c := [Crumb(Right, sub.node, sub.red, sub.left)] + ctx;
    assert Below([], sub.node, sub.red, sub.left, ctx) == c && c[1..] == ctx && Plug(c[0], sub.right) == sub;
    IntactUp(st, a, c, sub.right);
  }

  lemma DownStep(st: State, a: map<RbNode, int>, i: Context, node: RbNode, red: bool, l: Tree, ctx: Context, y: Tree)
    requires Intact(st, a, Below(i, node, red, l, ctx), y) && y.Node? && y.left.Node? && AllLeft(i)
    ensures var i' := [Crumb(Left, y.node, y.red, y.right)] + i;
      && Intact(st, a, Below(i', node, red, l, ctx), y.left) && AllLeft(i') && Zip(i', y.left) == Zip(i, y)
      && y.left.node in st.mem && st.mem[y.left.node].left == Top(y.left.left)
  {
    hide Intact, Zip;
    var i' := [Crumb(Left, y.node, y.red, y.right)] + i;
    BelowStep(i, node, red, l, ctx, y);
    IntactUp(st, a, Below(i', node, red, l, ctx), y.left);
    SubRead(st, a, Below(i', node, red, l, ctx), y.left);
  }

  lemma BelowStep(i: Context, node: RbNode, red: bool, l: Tree, ctx: Context, y: Tree)
    requires y.Node?
    ensures var i' := [Crumb(Left, y.node, y.red, y.right)] + i; var b := Below(i', node, red, l, ctx);
      && b != [] && b[1..] == Below(i, node, red, l, ctx) && Plug(b[0], y.left) == y && Zip(i', y.left) == Zip(i, y)
  {
    var i' := [Crumb(Left, y.node, y.red, y.right)] + i;
    assert i'[1..] == i && Below(i', node, red, l, ctx)[1..] == Below(i, node, red, l, ctx);
  }

  // ---------- the tree with the successor in place ----------

  /** Splicing the successor out and putting it in the node's place, on the tree. */
  lemma TwoHolds(st: State, a: map<RbNode, int>, i: Context, node: RbNode, red: bool, l: Tree, ctx: Context, y: Tree)
    requires Intact(st, a, Below(i, node, red, l, ctx), y) && y.Node? && y.left.Leaf?
    ensures var g := Replaced(Spliced(st, y.node, Top(y.right)), node, y.node);
      var sub' := Node(l, y.node, red, Zip(i, Painted(y.right, y.red)));
      && Holds(Drop(g, node), ctx, sub') && node !in Nodes(Zip(ctx, sub'))
      && Nodes(Zip(ctx, sub')) == Nodes(Zip(Below(i, node, red, l, ctx), y)) - {node}
  {
    hide Intact, Holds, Zip, Spliced, Replaced, Nodes, CtxNodes, Below;
    var s, c' := y.node, Painted(y.right, y.red);
    var c := Below(i, node, red, l, ctx);
    var st1 := Spliced(st, s, Top(y.right));
    var mid := Node(l, node, red, Zip(i, c'));
    IntactParts(st, a, c, y);
    SplicedHolds(st, c, y, Left);
    SingleNodes(st, c, y, Left);
    BelowZip(i, node, red, l, ctx, c');
    Rezip(st1, c, c', ctx, mid);
    ZipNodes(ctx, mid);
    ZipNodes(c, c');
    ReplacedHolds(st1, ctx, mid, s);
    var g := Replaced(st1, node, s);
    var sub' := Node(l, s, red, Zip(i, c'));
    FreshTop(st1, ctx, mid, s);
    ZipNodes(ctx, sub');
    ZipNodes(c, y);
    YNodes(y);
    DropHolds(g, ctx, sub', node);
  }

  lemma Rezip(st: State, c1: Context, t1: Tree, c2: Context, t2: Tree)
    requires Holds(st, c1, t1) && Zip(c1, t1) == Zip(c2, t2)
    ensures Holds(st, c2, t2)
  {
    HoldsZip(st, c1, t1);
    HoldsZip(st, c2, t2);
  }

  lemma FreshTop(st: State, ctx: Context, mid: Tree, s: RbNode)
    requires Holds(st, ctx, mid) && mid.Node? && s !in Nodes(mid) + CtxNodes(ctx)
    ensures var sub' := mid.(node := s); mid.node !in Nodes(sub') + CtxNodes(ctx) && Nodes(sub') == Nodes(mid) - {mid.node} + {s}
  {}

  lemma YNodes(y: Tree)
    requires y.Node? && y.left.Leaf?
    ensures y.node in Nodes(y)
  {}

  lemma {:induction false} BelowNodes(i: Context, node: RbNode, red: bool, l: Tree, ctx: Context)
    ensures CtxNodes(Below(i, node, red, l, ctx)) == CtxNodes(i) + {node} + Nodes(l) + CtxNodes(ctx)
  {
    if i == [] {
      assert Below(i, node, red, l, ctx)[1..] == ctx;
    } else {
      assert Below(i, node, red, l, ctx)[1..] == Below(i[1..], node, red, l, ctx);
      BelowNodes(i[1..], node, red, l, ctx);
    }
  }

  lemma {:induction false} TopZip(i: Context, t: Tree)
    ensures i == [] ==> Top(Zip(i, t)) == Top(t)
    ensures i != [] ==> Top(Zip(i, t)) in CtxNodes(i)
    decreases |i|
  {
    if i != [] {
      TopZip(i[1..], Plug(i[0], t));
    }
  }

  lemma TwoCellsHold(st: State, a: map<RbNode, int>, i: Context, node: RbNode, red: bool, l: Tree, ctx: Context, y: Tree)
    requires Intact(st, a, Below(i, node, red, l, ctx), y) && y.Node? && y.left.Leaf? && l.Node? && AllLeft(i)
    requires y.right.Node? ==> !y.red
    ensures var s := y.node; var parent := if i == [] then s else i[0].node;
      && Top(Zip(i, y)) != null && TwoCells(st, node, s, parent, l.node, Top(Zip(i, y)), Top(y.right), Above(ctx), SideAbove(ctx))
      && (parent != s ==> KidOf(st.mem[parent], Right) != s)
  {
    hide Intact, Holds, Zip, Below, TwoMem, TwoApart, TwoCells;
    TwoMemHolds(st, a, i, node, red, l, ctx, y);
    TwoApartHolds(st, a, i, node, red, l, ctx, y);
    TwoCellsIntro(st, i, node, red, l, ctx, y);
  }

  /** The cells around the node and its successor, field by field. */
  ghost predicate TwoMem(st: State, i: Context, node: RbNode, red: bool, l: RbNode, r: RbNode, ctx: Context, s: RbNode, child2: RbNode?) {
    && node in st.mem && st.mem[node] == Cell(l, r, Above(ctx), red) && l in st.mem && r in st.mem
    && s in st.mem && st.mem[s].left == null && st.mem[s].right == child2
    && st.mem[s].parent == (if i == [] then node else i[0].node)
    && (child2 != null ==> child2 in st.mem)
    && (i != [] ==> i[0].node in st.mem && st.mem[i[0].node].left == s && st.mem[i[0].node].right != s)
    && (ctx != [] ==> Above(ctx) in st.mem && KidOf(st.mem[Above(ctx)], SideAbove(ctx)) == node
                      && KidOf(st.mem[Above(ctx)], Other(SideAbove(ctx))) != node)
  }

  lemma TwoMemHolds(st: State, a: map<RbNode, int>, i: Context, node: RbNode, red: bool, l: Tree, ctx: Context, y: Tree)
    requires Intact(st, a, Below(i, node, red, l, ctx), y) && y.Node? && y.left.Leaf? && l.Node? && AllLeft(i)
    ensures Zip(i, y).Node? && TwoMem(st, i, node, red, l.node, Zip(i, y).node, ctx, y.node, Top(y.right))
    ensures y.node in st.mem && st.mem[y.node].red == y.red
  {
    var s, c, r := y.node, Below(i, node, red, l, ctx), Zip(i, y);
    var sub := Node(l, node, red, r);
    IntactParts(st, a, c, y);
    BelowZip(i, node, red, l, ctx, y);
    Rezip(st, c, y, ctx, sub);
    TopZip(i, y);
    SubRep(st, ctx, sub);
    SubRep(st, c, y);
    if i != [] { ParentOfS(st, c, i, y); }
    if i == [] { assert Above(c) == node; } else { assert Above(c) == i[0].node; }
  }

  lemma SubRep(st: State, ctx: Context, sub: Tree)
    requires Holds(st, ctx, sub) && sub.Node?
    ensures sub.node in st.mem && st.mem[sub.node] == Cell(Top(sub.left), Top(sub.right), Above(ctx), sub.red)
    ensures sub.left.Node? ==> sub.left.node in st.mem
    ensures sub.right.Node? ==> sub.right.node in st.mem
    ensures ctx != [] ==> Above(ctx) in st.mem && KidOf(st.mem[Above(ctx)], SideAbove(ctx)) == sub.node
    ensures ctx != [] ==> KidOf(st.mem[Above(ctx)], Other(SideAbove(ctx))) != sub.node
  {
    AroundParent(st, ctx, sub.node);
    RepRoot(st.mem, sub, Above(ctx));
    assert Rep(st.mem, sub.left, sub.node) && Rep(st.mem, sub.right, sub.node);
  }

  ghost predicate TwoApart(i: Context, node: RbNode, l: RbNode, r: RbNode, ctx: Context, s: RbNode, child2: RbNode?) {
    var parent, p := if i == [] then s else i[0].node, Above(ctx);
    && node != s && l != node && l != s && l != r && l != parent && l != child2 && l != p && r != node && r != p
    && parent != node && parent != p && s != p && node != p && child2 != node && child2 != s && child2 != r && (child2 != null ==> child2 != p && child2 != parent)
    && (if i == [] then r == s else r != s && parent != s)
  }

  lemma TwoApartHolds(st: State, a: map<RbNode, int>, i: Context, node: RbNode, red: bool, l: Tree, ctx: Context, y: Tree)
    requires Intact(st, a, Below(i, node, red, l, ctx), y) && y.Node? && y.left.Leaf? && l.Node?
    ensures Zip(i, y).Node? && TwoApart(i, node, l.node, Zip(i, y).node, ctx, y.node, Top(y.right))
  {
    hide Intact, Holds, Nodes, CtxNodes, Zip, Below, TwoApart;
    var c, r := Below(i, node, red, l, ctx), Zip(i, y);
    var sub := Node(l, node, red, r);
    IntactParts(st, a, c, y);
    BelowZip(i, node, red, l, ctx, y);
    BelowNodes(i, node, red, l, ctx);
    Rezip(st, c, y, ctx, sub);
    SubApart(st, ctx, sub);
    SubApart(st, c, y);
    TopZip(i, y);
    ZipNodes(i, y);
    TopIn(ctx, l);
    TopIn(ctx, r);
    TopIn(i, y.right);
    ApartSets(i, node, l.node, r.node, ctx, y.node, Top(y.right), Nodes(l), Nodes(r), CtxNodes(ctx), CtxNodes(i), Nodes(y.right));
  }

  lemma ApartSets(i: Context, node: RbNode, l: RbNode, r: RbNode, ctx: Context, s: RbNode, child2: RbNode?,
                  left: set<RbNode>, right: set<RbNode>, above: set<RbNode>, path: set<RbNode>, below: set<RbNode>)
    requires left !! right && node !in left + right && node !in above && left !! above && right !! above
    requires l in left && r in right && s in right && s !in path && s !in below && path <= right && below <= right && path !! below
    requires i != [] ==> i[0].node in path && r in path
    requires i == [] ==> r == s
    requires child2 != null ==> child2 in below
    requires ctx != [] ==> ctx[0].node in above
    ensures TwoApart(i, node, l, r, ctx, s, child2)
  {}

  lemma SubApart(st: State, ctx: Context, sub: Tree)
    requires Holds(st, ctx, sub) && sub.Node?
    ensures Nodes(sub.left) !! Nodes(sub.right) && sub.node !in Nodes(sub.left) + Nodes(sub.right)
    ensures Nodes(sub) == Nodes(sub.left) + {sub.node} + Nodes(sub.right) && Nodes(sub) !! CtxNodes(ctx)
  {}

  lemma TwoCellsIntro(st: State, i: Context, node: RbNode, red: bool, l: Tree, ctx: Context, y: Tree)
    requires y.Node? && l.Node? && Zip(i, y).Node? && (y.right.Node? ==> !y.red)
    requires TwoMem(st, i, node, red, l.node, Zip(i, y).node, ctx, y.node, Top(y.right)) && (y.node in st.mem ==> st.mem[y.node].red == y.red)
    requires TwoApart(i, node, l.node, Zip(i, y).node, ctx, y.node, Top(y.right))
    ensures var s := y.node; var parent := if i == [] then s else i[0].node;
      && TwoCells(st, node, s, parent, l.node, Top(Zip(i, y)), Top(y.right), Above(ctx), SideAbove(ctx))
      && (parent != s ==> KidOf(st.mem[parent], Right) != s)
  {}

  lemma ParentOfS(st: State, c: Context, i: Context, y: Tree)
    requires Holds(st, c, y) && y.Node? && i != [] && |i| <= |c| && c[0] == i[0] && i[0].side == Left
    ensures i[0].node in st.mem && st.mem[i[0].node].left == y.node && st.mem[i[0].node].right != y.node && st.mem[y.node].parent == i[0].node
    ensures i[0].node in CtxNodes(i)
  {
    AroundParent(st, c, y.node);
    RepRoot(st.mem, y, Above(c));
  }

  // ---------- the caches ----------

  /** The right subtree without the successor: its nodes have their parents in it, or the node, or the successor. */
  ghost predicate Region(st: State, region: set<RbNode>, node: RbNode, s: RbNode) {
    && node !in region && s !in region
    && forall k | k in region :: k in st.mem && (st.mem[k].parent == node || st.mem[k].parent == s || st.mem[k].parent in region)
  }

  lemma {:induction false} RepRegion(m: map<RbNode, Cell>, t: Tree, parent: RbNode?)
    requires Rep(m, t, parent)
    ensures forall k | k in Nodes(t) :: k in m && (m[k].parent == parent || m[k].parent in Nodes(t))
  {
    if t.Node? {
      RepRegion(m, t.left, t.node);
      RepRegion(m, t.right, t.node);
    }
  }

  ghost predicate Around2(st: State, a: map<RbNode, int>, region: set<RbNode>, node: RbNode, s: RbNode) {
    && AugOk(st.mem, a, st.mem.Keys) && ParentsOk(st.mem, st.mem.Keys) && a.Keys == st.mem.Keys && Region(st, region, node, s)
  }

  lemma SameCache(m: map<RbNode, Cell>, m': map<RbNode, Cell>, a: map<RbNode, int>, a': map<RbNode, int>, n: RbNode)
    requires AugAt(m, a, n) && n in m' && n in a' && a'[n] == a[n] && m'[n].left == m[n].left && m'[n].right == m[n].right
    requires forall side :: var k := KidOf(m[n], side); k != null ==> (k in a <==> k in a') && (k in a ==> a'[k] == a[k])
    ensures AugAt(m', a', n)
  {
    assert KidOf(m[n], Left) == m[n].left && KidOf(m[n], Right) == m[n].right;
  }

  /** The memory in which the caches of the region are recomputed. */
  function Middle(st: State, s: RbNode, parent: RbNode, child: RbNode, child2: RbNode?): State {
    if parent == s then st else Detached(st, s, parent, child, child2)
  }

  lemma MiddleCells(st: State, node: RbNode, s: RbNode, parent: RbNode, l: RbNode, child: RbNode, child2: RbNode?, p: RbNode?, pside: Side)
    requires TwoCells(st, node, s, parent, l, child, child2, p, pside)
    ensures var st1 := Middle(st, s, parent, child, child2);
      && st1.mem.Keys == st.mem.Keys
      && (forall n | n in st.mem && n != s && n != parent :: st1.mem[n].left == st.mem[n].left && st1.mem[n].right == st.mem[n].right)
      && (parent != s ==> st1.mem[parent].left == child2 && st1.mem[parent].right == st.mem[parent].right)
      && st1.mem[node] == st.mem[node] && (p != null ==> st1.mem[p] == st.mem[p])
  {
    if parent != s { DetachedCells(st, node, s, parent, l, child, child2, p, pside); }
  }

  /** After the copy callback the caches of the region are right, but for the successor's old parent. */
  lemma CopyCaches(st: State, a: map<RbNode, int>, region: set<RbNode>, node: RbNode, s: RbNode, parent: RbNode,
                   l: RbNode, child: RbNode, child2: RbNode?, p: RbNode?, pside: Side)
    requires TwoCells(st, node, s, parent, l, child, child2, p, pside) && Around2(st, a, region, node, s)
    ensures var m := Middle(st, s, parent, child, child2).mem;
      AugExcept(m, a[s := a[node]], region, if parent == s then null else parent) && KidsKnown(m, region)
  {
    var st1, a1 := Middle(st, s, parent, child, child2), a[s := a[node]];
    MiddleCells(st, node, s, parent, l, child, child2, p, pside);
    hide Middle, AugAt;
    forall n | n in region && n != parent ensures AugAt(st1.mem, a1, n) {
      assert AugAt(st.mem, a, n) && ParentAt(st.mem, n, Left) && ParentAt(st.mem, n, Right);
      SameCache(st.mem, st1.mem, a, a1, n);
    }
    forall n | n in region ensures n in st1.mem && (st1.mem[n].left != null ==> st1.mem[n].left in st1.mem)
      && (st1.mem[n].right != null ==> st1.mem[n].right in st1.mem)
    {
      assert ParentAt(st.mem, n, Left) && ParentAt(st.mem, n, Right);
    }
  }

  lemma FinalCells(st: State, node: RbNode, s: RbNode, parent: RbNode, l: RbNode, child: RbNode, child2: RbNode?, p: RbNode?, pside: Side)
    requires TwoCells(st, node, s, parent, l, child, child2, p, pside)
    ensures var st1 := Middle(st, s, parent, child, child2); var m' := Drop(Placed(st1, node, s, parent, child2), node).mem;
      && m'.Keys == st.mem.Keys - {node}
      && (forall n | n in m' && n != s && n != p :: m'[n].left == st1.mem[n].left && m'[n].right == st1.mem[n].right)
      && (p != null ==> p in m' && KidOf(m'[p], pside) == s && KidOf(m'[p], Other(pside)) == KidOf(st.mem[p], Other(pside)))
  {
    MiddleCells(st, node, s, parent, l, child, child2, p, pside);
    hide Middle;
    PlacedCells(Middle(st, s, parent, child, child2), node, s, parent, l, child2, p, pside);
  }

  /** When the caches of the region are right, all are but the successor's. */
  lemma FinalCaches(st: State, a: map<RbNode, int>, a2: map<RbNode, int>, region: set<RbNode>, node: RbNode, s: RbNode, parent: RbNode,
                    l: RbNode, child: RbNode, child2: RbNode?, p: RbNode?, pside: Side)
    requires TwoCells(st, node, s, parent, l, child, child2, p, pside) && Around2(st, a, region, node, s)
    requires p !in region && l !in region && (parent != s ==> parent in region)
    requires a2.Keys == a.Keys && a2[s] == a[node] && forall n | n in a && n !in region && n != s :: a2[n] == a[n]
    requires AugExcept(Middle(st, s, parent, child, child2).mem, a2, region, null)
    ensures var m' := Drop(Placed(Middle(st, s, parent, child, child2), node, s, parent, child2), node).mem;
      AugExcept(m', a2 - {node}, m'.Keys, s)
  {
    hide Placed, Around2, AugAt, TwoCells, Drop;
    var st1 := Middle(st, s, parent, child, child2);
    MiddleCells(st, node, s, parent, l, child, child2, p, pside);
    FinalCells(st, node, s, parent, l, child, child2, p, pside);
    Around2At(st, a, region, node, s);
    hide Middle;
    var m' := Drop(Placed(st1, node, s, parent, child2), node).mem;
    forall n | n in m'.Keys && n != s ensures AugAt(m', a2 - {node}, n) {
      if n in region {
        assert AugAt(st1.mem, a2, n);
        RegionKids(st, st1, a, region, node, s, parent, l, child, child2, p, pside, n);
        InRegion(st1.mem, m', a2, node, n);
      } else if n == p {
        AtParent(st, m', a, a2, region, node, s, parent, l, child, child2, n, pside);
      } else {
        Outside(st, m', a, a2, region, node, s, parent, l, child, child2, p, pside, n);
      }
    }
  }

  lemma Around2At(st: State, a: map<RbNode, int>, region: set<RbNode>, node: RbNode, s: RbNode)
    requires Around2(st, a, region, node, s)
    ensures forall n | n in st.mem :: AugAt(st.mem, a, n) && ParentAt(st.mem, n, Left) && ParentAt(st.mem, n, Right)
    ensures region <= st.mem.Keys && s !in region && a.Keys == st.mem.Keys
  {
    forall n | n in st.mem ensures AugAt(st.mem, a, n) && ParentAt(st.mem, n, Left) && ParentAt(st.mem, n, Right) {}
  }

  lemma InRegion(m: map<RbNode, Cell>, m': map<RbNode, Cell>, a: map<RbNode, int>, node: RbNode, n: RbNode)
    requires AugAt(m, a, n) && n in m' && n != node && m'[n].left == m[n].left && m'[n].right == m[n].right
    requires KidOf(m[n], Left) != node && KidOf(m[n], Right) != node
    ensures AugAt(m', a - {node}, n)
  {
    SameCache(m, m', a, a - {node}, n);
  }

  /** Children outside the region, and not the successor, have the caches they had. */
  lemma KidOutside(st: State, a: map<RbNode, int>, a2: map<RbNode, int>, region: set<RbNode>, node: RbNode, s: RbNode, parent: RbNode,
                   l: RbNode, child: RbNode, child2: RbNode?, p: RbNode?, pside: Side, n: RbNode, k: RbNode)
    requires TwoCells(st, node, s, parent, l, child, child2, p, pside) && Around2(st, a, region, node, s) && (parent != s ==> parent in region)
    requires a2.Keys == a.Keys && forall x | x in a && x !in region && x != s :: a2[x] == a[x]
    requires n in st.mem && n !in region && n != s && n != node && k in st.mem && st.mem[k].parent == n && k != node
    ensures k in a && k in a2 && a2[k] == a[k]
  {}

  lemma AtParent(st: State, m': map<RbNode, Cell>, a: map<RbNode, int>, a2: map<RbNode, int>, region: set<RbNode>, node: RbNode, s: RbNode,
                 parent: RbNode, l: RbNode, child: RbNode, child2: RbNode?, p: RbNode, pside: Side)
    requires TwoCells(st, node, s, parent, l, child, child2, p, pside) && Around2(st, a, region, node, s)
    requires p !in region && (parent != s ==> parent in region) && a2.Keys == a.Keys && a2[s] == a[node]
    requires forall n | n in a && n !in region && n != s :: a2[n] == a[n]
    requires p in m' && KidOf(m'[p], pside) == s && KidOf(m'[p], Other(pside)) == KidOf(st.mem[p], Other(pside))
    ensures AugAt(m', a2 - {node}, p)
  {
    hide AugAt;
    Around2At(st, a, region, node, s);
    var k := KidOf(st.mem[p], Other(pside));
    assert ParentAt(st.mem, p, Other(pside));
    if k != null { KidOutside(st, a, a2, region, node, s, parent, l, child, child2, p, pside, p, k); }
    ParentCache(st.mem, m', a, a2 - {node}, node, s, p, pside);
  }

  lemma Outside(st: State, m': map<RbNode, Cell>, a: map<RbNode, int>, a2: map<RbNode, int>, region: set<RbNode>, node: RbNode, s: RbNode,
                parent: RbNode, l: RbNode, child: RbNode, child2: RbNode?, p: RbNode?, pside: Side, n: RbNode)
    requires TwoCells(st, node, s, parent, l, child, child2, p, pside) && Around2(st, a, region, node, s)
    requires (parent != s ==> parent in region) && a2.Keys == a.Keys
    requires forall x | x in a && x !in region && x != s :: a2[x] == a[x]
    requires n in st.mem && n !in region && n != s && n != node && n != p
    requires n in m' && m'[n].left == st.mem[n].left && m'[n].right == st.mem[n].right
    ensures AugAt(m', a2 - {node}, n)
  {
    hide AugAt;
    Around2At(st, a, region, node, s);
    forall side ensures var k := KidOf(st.mem[n], side);
      k != null ==> k in a && k in a2 - {node} && (a2 - {node})[k] == a[k]
    {
      var k := KidOf(st.mem[n], side);
      assert ParentAt(st.mem, n, side);
      if k != null { KidOutside(st, a, a2, region, node, s, parent, l, child, child2, p, pside, n, k); }
    }
    SameCache(st.mem, m', a, a2 - {node}, n);
  }

  lemma RegionKids(st: State, st1: State, a: map<RbNode, int>, region: set<RbNode>, node: RbNode, s: RbNode, parent: RbNode,
                   l: RbNode, child: RbNode, child2: RbNode?, p: RbNode?, pside: Side, n: RbNode)
    requires TwoCells(st, node, s, parent, l, child, child2, p, pside) && st1 == Middle(st, s, parent, child, child2)
    requires n in region && region <= st.mem.Keys && p !in region && ParentAt(st.mem, n, Left) && ParentAt(st.mem, n, Right) && n != s
    ensures n in st1.mem && KidOf(st1.mem[n], Left) != node && KidOf(st1.mem[n], Right) != node
  {
    MiddleCells(st, node, s, parent, l, child, child2, p, pside);
  }

  lemma ParentCache(m: map<RbNode, Cell>, m': map<RbNode, Cell>, a: map<RbNode, int>, a': map<RbNode, int>,
                    node: RbNode, s: RbNode, p: RbNode, pside: Side)
    requires AugAt(m, a, p) && p in m' && p in a' && a'[p] == a[p] && node in a && s in a' && a'[s] == a[node]
    requires KidOf(m[p], pside) == node && KidOf(m'[p], pside) == s && KidOf(m'[p], Other(pside)) == KidOf(m[p], Other(pside))
    requires var k := KidOf(m[p], Other(pside)); k != null ==> (k in a <==> k in a') && (k in a ==> a'[k] == a[k])
    ensures AugAt(m', a', p)
  {}

  // ---------- the inner propagation ----------

  lemma {:induction false} PathBelow(m: map<RbNode, Cell>, i: Context, node: RbNode, red: bool, l: Tree, ctx: Context, hole: RbNode?, root: RbNode?)
    requires RepCtx(m, Below(i, node, red, l, ctx), hole, root)
    ensures UpPath(m, PathOf(i), node) && forall x | x in PathOf(i) :: x in CtxNodes(i) && x != node
    ensures i != [] ==> node !in CtxNodes(i)
  {
    var c := Below(i, node, red, l, ctx);
    if i != [] {
      var path, rest := PathOf(i), PathOf(i[1..]);
      assert c[1..] == Below(i[1..], node, red, l, ctx) && c[0] == i[0];
      PathBelow(m, i[1..], node, red, l, ctx, i[0].node, root);
      BelowNodes(i[1..], node, red, l, ctx);
      assert path[1..] == rest;
      if |i| == 1 { assert c[1..][0] == Crumb(Right, node, red, l); } else { assert c[1..][0] == i[1]; }
      forall j | 0 <= j < |path| ensures path[j] in m && path[j] != node && m[path[j]].parent == NextUp(path, j, node) && path[j] in CtxNodes(i) {
        if j > 0 {
          assert rest[j - 1] == path[j] && rest[j - 1] in m && rest[j - 1] in CtxNodes(i[1..]);
          assert NextUp(rest, j - 1, node) == NextUp(path, j, node);
        }
      }
    }
  }

  lemma {:induction false} TopIsLast(i: Context, t: Tree)
    requires i != []
    ensures Top(Zip(i, t)) == PathOf(i)[|i| - 1]
    decreases |i|
  {
    if |i| > 1 {
      TopIsLast(i[1..], Plug(i[0], t));
      assert PathOf(i)[1..] == PathOf(i[1..]);
    } else {
      assert Zip(i, t) == Plug(i[0], t);
    }
  }

  /** In the memory of the inner propagation the way up ends at the successor. */
  lemma MiddlePath(st: State, i: Context, node: RbNode, s: RbNode, parent: RbNode, l: RbNode, child: RbNode, child2: RbNode?, p: RbNode?, pside: Side)
    requires TwoCells(st, node, s, parent, l, child, child2, p, pside) && parent != s
    requires UpPath(st.mem, PathOf(i), node) && i != [] && child == PathOf(i)[|i| - 1] && s !in PathOf(i)
    ensures UpPath(Middle(st, s, parent, child, child2).mem, PathOf(i), s)
  {
    DetachedCells(st, node, s, parent, l, child, child2, p, pside);
    var m, path := Middle(st, s, parent, child, child2).mem, PathOf(i);
    hide Middle, Detached;
    forall j | 0 <= j < |path| ensures path[j] in m && path[j] != s && m[path[j]].parent == NextUp(path, j, s) {
      assert path[j] in st.mem;
      assert j < |path| - 1 ==> path[j] != child;
      assert path[j] != s;
    }
  }

  lemma MiddleOnlyParent(st: State, region: set<RbNode>, node: RbNode, s: RbNode, parent: RbNode, l: RbNode, child: RbNode, child2: RbNode?,
                         p: RbNode?, pside: Side, x: RbNode)
    requires TwoCells(st, node, s, parent, l, child, child2, p, pside) && parent != s && region <= st.mem.Keys && node !in region && s !in region
    requires OnlyParent(st.mem, st.mem.Keys, x) && x != child2 && x != s && x in st.mem
    ensures OnlyParent(Middle(st, s, parent, child, child2).mem, region, x)
  {
    DetachedCells(st, node, s, parent, l, child, child2, p, pside);
    var m := Middle(st, s, parent, child, child2).mem;
    hide Middle, Detached;
    assert KidOf(st.mem[node], Right) == child;
    forall n, side | n in region && KidOf(m[n], side) == x ensures m[x].parent == n && n != x {
      assert KidOf(st.mem[n], side) == x;
    }
  }

  // ---------- the whole case ----------

  ghost predicate Setting(st: State, a: map<RbNode, int>, i: Context, node: RbNode, red: bool, l: Tree, ctx: Context, y: Tree) {
    && Intact(st, a, Below(i, node, red, l, ctx), y) && AllLeft(i) && y.Node? && y.left.Leaf? && l.Node? && (y.right.Node? ==> !y.red)
  }

  function Old(i: Context, s: RbNode): RbNode {
    if i == [] then s else i[0].node
  }

  /** Everything that the writes need, and what they reach. */
  ghost predicate Ready(st: State, a: map<RbNode, int>, i: Context, node: RbNode, red: bool, l: Tree, ctx: Context, y: Tree, region: set<RbNode>) {
    && y.Node? && l.Node? && Top(Zip(i, y)) != null
    && var s, child: RbNode, child2, p := y.node, Top(Zip(i, y)), Top(y.right), Above(ctx); var parent := Old(i, s);
    && TwoCells(st, node, s, parent, l.node, child, child2, p, SideAbove(ctx)) && (parent != s ==> KidOf(st.mem[parent], Right) != s)
    && Around2(st, a, region, node, s) && p !in region && l.node !in region && (parent != s ==> parent in region)
    && (forall x | x in PathOf(i) :: x in region && OnlyParent(st.mem, st.mem.Keys, x) && x != child2 && x != s)
    && UpPath(st.mem, PathOf(i), node) && (i != [] ==> child == PathOf(i)[|i| - 1]) && region <= st.mem.Keys
  }

  lemma SettingReady(st: State, a: map<RbNode, int>, i: Context, node: RbNode, red: bool, l: Tree, ctx: Context, y: Tree)
    requires Setting(st, a, i, node, red, l, ctx, y)
    ensures Ready(st, a, i, node, red, l, ctx, y, Nodes(Zip(i, y)) - {y.node})
  {
    var c, r, s := Below(i, node, red, l, ctx), Zip(i, y), y.node;
    var region := Nodes(r) - {s};
    hide Intact, Holds, Zip, Below, TwoCells, UpPath, PathOf, OnlyParent, AugOk, ParentsOk, Nodes, CtxNodes, Rep, RepCtx;
    TwoCellsHold(st, a, i, node, red, l, ctx, y);
    IntactParts(st, a, c, y);
    HoldsParents(st, c, y);
    HoldsLinked(st, c, y);
    ReadyPath(st, i, node, red, l, ctx, y);
    ReadyRegion(st, i, node, red, l, ctx, y);
  }

  lemma HoldsLinked(st: State, ctx: Context, t: Tree)
    requires Holds(st, ctx, t) && st.mem.Keys == Nodes(Zip(ctx, t))
    ensures forall x | x in st.mem :: OnlyParent(st.mem, st.mem.Keys, x)
  {
    HoldsZip(st, ctx, t);
    RepLinked(st.mem, Zip(ctx, t), null);
    LinkedMeans(st.mem, st.mem.Keys);
  }

  lemma ReadyPath(st: State, i: Context, node: RbNode, red: bool, l: Tree, ctx: Context, y: Tree)
    requires Holds(st, Below(i, node, red, l, ctx), y) && y.Node?
    ensures UpPath(st.mem, PathOf(i), node) && (i != [] ==> Top(Zip(i, y)) == PathOf(i)[|i| - 1])
    ensures forall x | x in PathOf(i) :: x in st.mem && x in Nodes(Zip(i, y)) && x != Top(y.right) && x != y.node
    ensures i != [] ==> i[0].node in PathOf(i)
  {
    PathBelow(st.mem, i, node, red, l, ctx, y.node, st.root);
    BelowNodes(i, node, red, l, ctx);
    if i != [] { TopIsLast(i, y); assert PathOf(i)[0] == i[0].node; }
    ZipNodes(i, y);
    TopIn(i, y.right);
    YNode(y);
    hide Zip, Below, Rep, RepCtx, Nodes, CtxNodes, PathOf;
    forall x | x in PathOf(i) ensures x in st.mem {
      var j :| 0 <= j < |PathOf(i)| && PathOf(i)[j] == x;
    }
  }

  lemma YNode(y: Tree)
    requires y.Node?
    ensures y.node in Nodes(y) && Nodes(y.right) <= Nodes(y)
  {}

  lemma ReadyRegion(st: State, i: Context, node: RbNode, red: bool, l: Tree, ctx: Context, y: Tree)
    requires Holds(st, Below(i, node, red, l, ctx), y) && y.Node? && l.Node?
    ensures var region := Nodes(Zip(i, y)) - {y.node};
      Region(st, region, node, y.node) && Above(ctx) !in region && l.node !in region && region <= st.mem.Keys
  {
    var r := Zip(i, y);
    var sub := Node(l, node, red, r);
    BelowZip(i, node, red, l, ctx, y);
    Rezip(st, Below(i, node, red, l, ctx), y, ctx, sub);
    assert Rep(st.mem, r, node) && Nodes(l) !! Nodes(r) && node !in Nodes(r) && Nodes(sub) !! CtxNodes(ctx);
    RepRegion(st.mem, r, node);
    TopIn(ctx, l);
    assert Nodes(r) <= Nodes(sub);
  }

  /** The writes of case 3 before the callbacks. */
  method WriteDetach(root: RbRoot, s: RbNode, parent: RbNode, child: RbNode, child2: RbNode?)
    requires s in root.nodes && parent in root.nodes && child in root.nodes
    modifies root.nodes`left, root.nodes`right, root.nodes`parent, root.nodes`red
    ensures root.View() == Detached(old(root.View()), s, parent, child, child2) && root.Augs() == old(root.Augs())
  {
    hide PutKid, PutParentColor;
    root.SetChild(parent, Left, child2);
    root.SetChild(s, Right, child);
    root.SetParentColor(child, s, child.red);
  }

  /** The writes after the two cases have joined; they tell whether to rebalance, and where. */
  method WritePlaced(root: RbRoot, node: RbNode, s: RbNode, parent: RbNode, child2: RbNode?) returns (rebalance: RbNode?)
    requires node in root.nodes && s in root.nodes && node != s && node.left != s && node != child2 && s != child2 && node.parent != s
    requires node.left != null && node.left in root.nodes && node.left != node
    requires child2 != null ==> child2 in root.nodes
    requires node.parent != null ==> node.parent in root.nodes && node.parent != node
    modifies root`rbNode, root.nodes`left, root.nodes`right, root.nodes`parent, root.nodes`red
    ensures root.View() == Placed(old(root.View()), node, s, parent, child2) && root.Augs() == old(root.Augs())
    ensures rebalance == if child2 == null && !old(s.red) then parent else null
  {
    hide PutKid, PutParentColor, PutParent, ChangeChild;
    ghost var st := root.View();
    assert st.mem[node] == Cell(node.left, node.right, node.parent, node.red);
    var tmp, gp, red := node.left, node.parent, node.red;
    WriteLeft(root, s, tmp);
    root.ChangeChildOf(node, s, gp);
    if child2 != null {
      root.SetParentColor(child2, parent, false);
      rebalance := null;
    } else {
      rebalance := if !s.red then parent else null;
    }
    root.SetParentColor(s, gp, red);
  }

  method WriteLeft(root: RbRoot, s: RbNode, tmp: RbNode)
    requires s in root.nodes && tmp in root.nodes
    modifies root.nodes`left, root.nodes`right, {tmp}`parent, {tmp}`red
    ensures root.View() == PutParent(PutKid(old(root.View()), s, Left, tmp), tmp, s) && root.Augs() == old(root.Augs())
    ensures tmp.red == old(tmp.red)
  {
    hide PutKid, PutParentColor;
    root.SetChild(s, Left, tmp);
    root.SetParentColor(tmp, s, tmp.red);
  }

  /** augment->copy, or dummy_copy */
  method CopyCache(root: RbRoot, node: RbNode, s: RbNode)
    requires node in root.nodes && s in root.nodes
    modifies root.nodes`augmented, root.nodes`shadow
    ensures root.View() == old(root.View()) && root.Augs() == old(root.Augs())[s := old(root.Augs())[node]]
  {
    ghost var a := root.Augs();
    if !root.callbacks {
      root.Shadow(a[s := a[node]]);
      return;
    }
    s.augmented := node.augmented;
    assert root.Augs() == a[s := a[node]];
  }

  /** The caches after the first half: the region is right, the successor has the node's, the rest is as before. */
  ghost predicate Copied(m: map<RbNode, Cell>, a: map<RbNode, int>, a2: map<RbNode, int>, region: set<RbNode>, node: RbNode, s: RbNode) {
    && node in a && a2.Keys == a.Keys && s in a2 && a2[s] == a[node] && (forall n | n in a && n !in region && n != s :: a2[n] == a[n])
    && AugExcept(m, a2, region, null)
  }

  /** The first half: in case 3 the successor leaves its place; the copy callback, and the inner propagation. */
  method MoveUp(root: RbRoot, node: RbNode, s: RbNode, parent: RbNode, child: RbNode, child2: RbNode?,
                ghost i: Context, ghost red: bool, ghost l: Tree, ghost ctx: Context, ghost y: Tree, ghost region: set<RbNode>)
    requires Ready(root.View(), root.Augs(), i, node, red, l, ctx, y, region)
    requires s == y.node && parent == Old(i, s) && child == Top(Zip(i, y)) && child2 == Top(y.right)
    modifies root`rbNode, root.nodes
    ensures root.View() == Middle(old(root.View()), s, parent, child, child2)
    ensures Copied(root.View().mem, old(root.Augs()), root.Augs(), region, node, s)
  {
    ghost var st, a := root.View(), root.Augs();
    MoveFacts(st, a, i, node, red, l, ctx, y, region);
    hide Ready, Zip, UpPath, PathOf, OnlyParent, AugExcept, Detached, KidsKnown, Copied;
    if parent == s {
      CopyCache(root, node, s);
      CopiedIs(root.View().mem, a, root.Augs(), region, node, s);
    } else {
      WriteDetach(root, s, parent, child, child2);
      CopyAndPropagate(root, node, s, parent, PathOf(i), region);
    }
  }

  /** The callbacks of case 3 between the two halves. */
  method CopyAndPropagate(root: RbRoot, node: RbNode, s: RbNode, parent: RbNode, ghost path: seq<RbNode>, ghost region: set<RbNode>)
    requires node in root.nodes && s in root.nodes && region <= root.nodes && s !in region && path != [] && path[0] == parent
    requires AugExcept(root.View().mem, root.Augs()[s := root.Augs()[node]], region, parent) && KidsKnown(root.View().mem, region)
    requires UpPath(root.View().mem, path, s) && forall x | x in path :: x in region && OnlyParent(root.View().mem, region, x)
    modifies root.nodes`augmented, root.nodes`shadow
    ensures root.View() == old(root.View()) && Copied(root.View().mem, old(root.Augs()), root.Augs(), region, node, s)
  {
    hide UpPath, OnlyParent, AugExcept, KidsKnown, Copied;
    ghost var a := root.Augs();
    CopyCache(root, node, s);
    Propagate(root, parent, s, path, region);
    CopiedIs(root.View().mem, a, root.Augs(), region, node, s);
  }

  lemma CopiedIs(m: map<RbNode, Cell>, a: map<RbNode, int>, a2: map<RbNode, int>, region: set<RbNode>, node: RbNode, s: RbNode)
    requires node in a && a2.Keys == a.Keys && s in a2 && a2[s] == a[node] && AugExcept(m, a2, region, null)
    requires forall n | n in a && n !in region && n != s :: a2[n] == a[n]
    ensures Copied(m, a, a2, region, node, s)
  {}

  lemma MoveFacts(st: State, a: map<RbNode, int>, i: Context, node: RbNode, red: bool, l: Tree, ctx: Context, y: Tree, region: set<RbNode>)
    requires Ready(st, a, i, node, red, l, ctx, y, region)
    ensures var s, child: RbNode, child2 := y.node, Top(Zip(i, y)), Top(y.right); var parent := Old(i, s);
      var m := Middle(st, s, parent, child, child2).mem;
      && node in st.mem && s in st.mem && parent in st.mem && child in st.mem && node in a && a.Keys == st.mem.Keys
      && m.Keys == st.mem.Keys && region <= st.mem.Keys && s !in region && node !in region
      && AugExcept(m, a[s := a[node]], region, if parent == s then null else parent) && KidsKnown(m, region)
      && (parent != s ==> UpPath(m, PathOf(i), s) && PathOf(i) != [] && PathOf(i)[0] == parent)
      && (parent != s ==> forall x | x in PathOf(i) :: x in region && OnlyParent(m, region, x))
  {
    var s, child: RbNode, child2, p := y.node, Top(Zip(i, y)), Top(y.right), Above(ctx);
    var parent, pside := Old(i, s), SideAbove(ctx);
    hide Zip, UpPath, PathOf, OnlyParent, AugExcept, Middle, KidsKnown, TwoCells, Around2;
    CopyCaches(st, a, region, node, s, parent, l.node, child, child2, p, pside);
    MiddleCells(st, node, s, parent, l.node, child, child2, p, pside);
    Around2At(st, a, region, node, s);
    CellsIn(st, node, s, parent, l.node, child, child2, p, pside);
    if parent != s {
      PathFirst(i, s);
      MiddlePath(st, i, node, s, parent, l.node, child, child2, p, pside);
      RegionApart(st, a, region, node, s);
      forall x | x in PathOf(i) ensures OnlyParent(Middle(st, s, parent, child, child2).mem, region, x) {
        MiddleOnlyParent(st, region, node, s, parent, l.node, child, child2, p, pside, x);
      }
    } else {
      RegionApart(st, a, region, node, s);
    }
  }

  lemma CellsIn(st: State, node: RbNode, s: RbNode, parent: RbNode, l: RbNode, child: RbNode, child2: RbNode?, p: RbNode?, pside: Side)
    requires TwoCells(st, node, s, parent, l, child, child2, p, pside)
    ensures node in st.mem && s in st.mem && parent in st.mem && child in st.mem && l in st.mem
  {}

  lemma PathFirst(i: Context, s: RbNode)
    requires Old(i, s) != s
    ensures i != [] && PathOf(i) != [] && PathOf(i)[0] == Old(i, s)
  {}

  lemma RegionApart(st: State, a: map<RbNode, int>, region: set<RbNode>, node: RbNode, s: RbNode)
    requires Around2(st, a, region, node, s)
    ensures node !in region && s !in region
  {}

  /** After the writes everything is right but, perhaps, the cache of the successor in its new place. */
  lemma PlacedNearly(st: State, a: map<RbNode, int>, a2: map<RbNode, int>, i: Context, node: RbNode, red: bool, l: Tree, ctx: Context, y: Tree,
                     region: set<RbNode>)
    requires Setting(st, a, i, node, red, l, ctx, y) && Ready(st, a, i, node, red, l, ctx, y, region)
    requires Copied(Middle(st, y.node, Old(i, y.node), Top(Zip(i, y)), Top(y.right)).mem, a, a2, region, node, y.node)
    ensures var s, child: RbNode, child2 := y.node, Top(Zip(i, y)), Top(y.right); var parent := Old(i, s);
      Nearly(Drop(Placed(Middle(st, s, parent, child, child2), node, s, parent, child2), node), a2 - {node},
             [Crumb(Right, s, red, l)] + ctx, Zip(i, Painted(y.right, y.red)))
  {
    var s, child: RbNode, child2, p := y.node, Top(Zip(i, y)), Top(y.right), Above(ctx);
    var parent, pside := Old(i, s), SideAbove(ctx);
    var h := Drop(Placed(Middle(st, s, parent, child, child2), node, s, parent, child2), node);
    var g := Replaced(Spliced(st, s, child2), node, s);
    var c2, t2 := [Crumb(Right, s, red, l)] + ctx, Zip(i, Painted(y.right, y.red));
    assert c2[1..] == ctx && Plug(c2[0], t2) == Node(l, s, red, t2) && Zip(c2, t2) == Zip(ctx, Node(l, s, red, t2));
    hide Intact, Holds, Zip, Below, TwoCells, UpPath, PathOf, OnlyParent, Around2, AugExcept, Placed, Detached, Replaced, Spliced, Nodes, CtxNodes;
    TwoHolds(st, a, i, node, red, l, ctx, y);
    TwoStates(st, node, s, parent, l.node, child, child2, p, pside);
    assert h == Drop(g, node);
    Rezip(h, ctx, Node(l, s, red, t2), c2, t2);
    IntactParts(st, a, Below(i, node, red, l, ctx), y);
    FinalCaches(st, a, a2, region, node, s, parent, l.node, child, child2, p, pside);
    NearlyIntro(h, a2 - {node}, c2, t2);
  }

  lemma SubColors(ctx: Context, sub: Tree, i: Context, y: Tree)
    requires RedBlack(Zip(ctx, sub)) && sub.Node? && sub.right == Zip(i, y) && y.Node? && y.left.Leaf?
    ensures RedBlack(Zip(Below(i, sub.node, sub.red, sub.left, ctx), y)) && (y.right.Node? ==> !y.red)
  {
    BelowZip(i, sub.node, sub.red, sub.left, ctx, y);
    SingleColors(Below(i, sub.node, sub.red, sub.left, ctx), y, Left);
  }

  /** What WritePlaced asks for, in the memory it works on. */
  lemma PlaceableCells(st: State, node: RbNode, s: RbNode, parent: RbNode, l: RbNode, child: RbNode, child2: RbNode?, p: RbNode?, pside: Side)
    requires TwoCells(st, node, s, parent, l, child, child2, p, pside)
    ensures var m := Middle(st, s, parent, child, child2).mem;
      && m.Keys == st.mem.Keys && m[node] == st.mem[node] && m[node].left == l && m[node].parent == p && l in st.mem && l != s && l != node
      && node != s && node != child2 && s != child2 && p != s && (p != null ==> p in st.mem && p != node)
      && (child2 != null ==> child2 in st.mem) && s in st.mem && m[s].red == st.mem[s].red
  {
    if parent != s { DetachedCells(st, node, s, parent, l, child, child2, p, pside); }
    if child2 == null {}
  }

  lemma SettingIs(st: State, a: map<RbNode, int>, i: Context, node: RbNode, red: bool, l: Tree, ctx: Context, y: Tree)
    requires Intact(st, a, Below(i, node, red, l, ctx), y) && AllLeft(i) && y.Node? && y.left.Leaf? && l.Node? && (y.right.Node? ==> !y.red)
    ensures Setting(st, a, i, node, red, l, ctx, y)
  {}

  lemma EraseCells(st: State, a: map<RbNode, int>, i: Context, node: RbNode, red: bool, l: Tree, ctx: Context, y: Tree, region: set<RbNode>)
    requires Ready(st, a, i, node, red, l, ctx, y, region) && Setting(st, a, i, node, red, l, ctx, y)
    ensures node in st.mem && node in a && y.node in st.mem && Top(Zip(i, y)) != null
    ensures st.mem[node].right == Top(Zip(i, y)) && st.mem[y.node].right == Top(y.right) && st.mem[y.node].red == y.red
  {
    SubRead(st, a, Below(i, node, red, l, ctx), y);
  }

  lemma WholeBelow(st: State, a: map<RbNode, int>, i: Context, s: RbNode, red: bool, l: Tree, ctx: Context, t: Tree)
    requires Intact(st, a, [Crumb(Right, s, red, l)] + ctx, Zip(i, t))
    ensures Intact(st, a, Below(i, s, red, l, ctx), t)
  {
    var c := [Crumb(Right, s, red, l)] + ctx;
    ZipAppend(i, c, t);
    Rezip(st, c, Zip(i, t), Below(i, s, red, l, ctx), t);
  }

  /** The second half: the successor is put in the node's place, and the node is gone. */
  method Place(root: RbRoot, node: RbNode, s: RbNode, parent: RbNode, child2: RbNode?, ghost st: State, ghost a: map<RbNode, int>,
               ghost i: Context, ghost red: bool, ghost l: Tree, ghost ctx: Context, ghost y: Tree, ghost region: set<RbNode>)
    returns (rebalance: RbNode?)
    requires Ready(st, a, i, node, red, l, ctx, y, region) && Top(Zip(i, y)) != null
    requires s == y.node && parent == Old(i, s) && child2 == Top(y.right) && s in st.mem && st.mem[s].red == y.red
    requires var child: RbNode := Top(Zip(i, y)); root.View() == Middle(st, s, parent, child, child2)
    modifies root, root.nodes
    ensures var child: RbNode := Top(Zip(i, y));
      root.View() == Drop(Placed(Middle(st, s, parent, child, child2), node, s, parent, child2), node)
    ensures root.Augs() == old(root.Augs()) - {node} && root.nodes == old(root.nodes) - {node}
    ensures rebalance == if child2 == null && !y.red then parent else null
  {
    hide Zip, TwoCells, Middle, Placed, Around2, UpPath, PathOf, OnlyParent;
    ghost var child: RbNode := Top(Zip(i, y));
    PlaceableCells(st, node, s, parent, l.node, child, child2, Above(ctx), SideAbove(ctx));
    NodeIn(st, node, s, parent, l.node, child, child2, Above(ctx), SideAbove(ctx));
    assert root.View().mem[node] == Cell(node.left, node.right, node.parent, node.red);
    assert root.View().mem[s] == Cell(s.left, s.right, s.parent, s.red);
    rebalance := WritePlaced(root, node, s, parent, child2);
    Forget(root, node);
  }

  lemma NodeIn(st: State, node: RbNode, s: RbNode, parent: RbNode, l: RbNode, child: RbNode, child2: RbNode?, p: RbNode?, pside: Side)
    requires TwoCells(st, node, s, parent, l, child, child2, p, pside)
    ensures node in st.mem
  {}

  /** Cases 2 and 3: the node has two children; its successor takes its place. */
  method EraseTwo(root: RbRoot, node: RbNode, ghost ctx: Context, ghost sub: Tree)
    returns (rebalance: RbNode?, ghost i: Context, ghost y: Tree)
    requires I.Whole(root, ctx, sub) && sub.Node? && sub.left.Node? && sub.right.Node? && node == sub.node && RedBlack(Zip(ctx, sub))
    modifies root, root.nodes
    ensures y.Node? && y.left.Leaf? && AllLeft(i) && sub.right == Zip(i, y) && root.nodes == old(root.nodes) - {node}
    ensures I.Whole(root, Below(i, y.node, sub.red, sub.left, ctx), Painted(y.right, y.red))
    ensures rebalance == if y.right.Leaf? && !y.red then Old(i, y.node) else null
  {
    hide Intact, Zip, Below, RedBlack, TwoCells, Setting, Ready, Middle, Placed, Nearly, AllLeft;
    ghost var st, a := root.View(), root.Augs();
    var s, parent;
    s, parent, i, y := FindSuccessor(root, node, ctx, sub);
    ghost var red, l, region := sub.red, sub.left, Nodes(Zip(i, y)) - {y.node};
    SubColors(ctx, sub, i, y);
    SettingIs(st, a, i, node, red, l, ctx, y);
    SettingReady(st, a, i, node, red, l, ctx, y);
    EraseCells(st, a, i, node, red, l, ctx, y, region);
    assert st.mem[node] == Cell(node.left, node.right, node.parent, node.red) && st.mem[s] == Cell(s.left, s.right, s.parent, s.red);
    var child, child2 := node.right, s.right;
    MoveUp(root, node, s, parent, child, child2, i, red, l, ctx, y, region);
    ghost var a2 := root.Augs();
    PlacedNearly(st, a, a2, i, node, red, l, ctx, y, region);
    rebalance := Place(root, node, s, parent, child2, st, a, i, red, l, ctx, y, region);
    PropagateUp(root, s, [Crumb(Right, s, red, l)] + ctx, Zip(i, Painted(y.right, y.red)));
    WholeBelow(root.View(), root.Augs(), i, s, red, l, ctx, Painted(y.right, y.red));
  }
}
