/**
 Removal of a node with two children: the successor takes its place (rbtree_augmented.h, cases 2 and
 3 of __rb_erase_augmented).  The writes of the source, in their order, amount to splicing the
 successor out and then putting it in the place of the node.
 */
module RbSuccessor {
  import opened Sides
  import opened RbTree
  import opened RbMemory
  import opened RbUnlink

  /** rb_set_parent of a node that keeps its colour. */
  function PutParent(st: State, n: RbNode, p: RbNode?): State {
    PutParentColor(st, n, p, At(st, n).red)
  }

  /** The writes of case 3 before the two cases join. */
  function Detached(st: State, s: RbNode, parent: RbNode, child: RbNode, child2: RbNode?): State {
    PutParent(PutKid(PutKid(st, parent, Left, child2), s, Right, child), child, s)
  }

  /** The writes after the two cases have joined. */
  function Placed(st: State, node: RbNode, s: RbNode, parent: RbNode, child2: RbNode?): State {
    var c := At(st, node);
    var st3 := if c.left == null then st else PutParent(PutKid(st, s, Left, c.left), c.left, s);
    var st4 := ChangeChild(st3, node, s, c.parent);
    var st5 := if child2 == null then st4 else PutParentColor(st4, child2, parent, false);
    PutParentColor(st5, s, c.parent, c.red)
  }

  /** The cells around a node with two children and its successor. */
  ghost predicate TwoCells(st: State, node: RbNode, s: RbNode, parent: RbNode, l: RbNode, child: RbNode, child2: RbNode?, p: RbNode?, pside: Side) {
    && node in st.mem && s in st.mem && l in st.mem && child in st.mem && parent in st.mem && node != s
    && st.mem[node].left == l && st.mem[node].right == child && st.mem[node].parent == p
    && st.mem[s].right == child2 && st.mem[s].left == null
    && l != node && l != s && l != child && l != parent && l != child2 && l != p && child != node && child != p && parent != node && parent != p && s != p
    && (child2 != null ==> child2 in st.mem && child2 != node && child2 != s && child2 != parent && child2 != p && child2 != child && !st.mem[s].red)
    && (p != null ==> p in st.mem && p != node && KidOf(st.mem[p], pside) == node && KidOf(st.mem[p], Other(pside)) != node)
    && (if parent == s then child == s && st.mem[s].parent == node
        else child != s && st.mem[s].parent == parent && st.mem[parent].left == s)
  }

  lemma FarCells(st: State, node: RbNode, s: RbNode, parent: RbNode, l: RbNode, child: RbNode, child2: RbNode?, p: RbNode?, pside: Side)
    requires TwoCells(st, node, s, parent, l, child, child2, p, pside) && parent != s
    ensures var m' := Placed(Detached(st, s, parent, child, child2), node, s, parent, child2).mem;
      && m'.Keys == st.mem.Keys && m'[s] == st.mem[node] && m'[l] == st.mem[l].(parent := s)
      && m'[child] == (if child == parent then st.mem[child].(left := child2, parent := s) else st.mem[child].(parent := s))
      && (child != parent ==> m'[parent] == st.mem[parent].(left := child2))
      && (child2 != null ==> m'[child2] == st.mem[child2].(parent := parent, red := false))
      && (p != null ==> m'[p] == WithKid(st.mem[p], pside, s))
      && forall n | n in st.mem && n != node && n != s && n != l && n != child && n != parent && n != child2 && n != p :: m'[n] == st.mem[n]
    ensures Placed(Detached(st, s, parent, child, child2), node, s, parent, child2).root == if p == null then s else st.root
  {
    var st1 := Detached(st, s, parent, child, child2);
    DetachedCells(st, node, s, parent, l, child, child2, p, pside);
    hide Detached;
    PlacedCells(st1, node, s, parent, l, child2, p, pside);
  }

  lemma DetachedCells(st: State, node: RbNode, s: RbNode, parent: RbNode, l: RbNode, child: RbNode, child2: RbNode?, p: RbNode?, pside: Side)
    requires TwoCells(st, node, s, parent, l, child, child2, p, pside) && parent != s
    ensures var st' := Detached(st, s, parent, child, child2);
      && st'.mem.Keys == st.mem.Keys && st'.root == st.root && st'.mem[s] == st.mem[s].(right := child)
      && st'.mem[child] == (if child == parent then st.mem[child].(left := child2, parent := s) else st.mem[child].(parent := s))
      && (child != parent ==> st'.mem[parent] == st.mem[parent].(left := child2))
      && forall n | n in st.mem && n != s && n != child && n != parent :: st'.mem[n] == st.mem[n]
  {}

  lemma PlacedCells(st: State, node: RbNode, s: RbNode, parent: RbNode, l: RbNode, child2: RbNode?, p: RbNode?, pside: Side)
    requires node in st.mem && s in st.mem && l in st.mem && node != s && l != node && l != s && l != child2 && l != p && s != p && s != child2
    requires st.mem[node].left == l && st.mem[node].parent == p && (child2 != null ==> child2 in st.mem && child2 != node && child2 != p)
    requires p != null ==> p in st.mem && p != node && KidOf(st.mem[p], pside) == node && KidOf(st.mem[p], Other(pside)) != node
    ensures var st' := Placed(st, node, s, parent, child2);
      && st'.mem.Keys == st.mem.Keys && st'.root == (if p == null then s else st.root)
      && st'.mem[s] == st.mem[s].(left := l, parent := p, red := st.mem[node].red)
      && st'.mem[l] == st.mem[l].(parent := s)
      && (child2 != null ==> st'.mem[child2] == st.mem[child2].(parent := parent, red := false))
      && (p != null ==> st'.mem[p] == WithKid(st.mem[p], pside, s))
      && forall n | n in st.mem && n != s && n != l && n != child2 && n != p :: st'.mem[n] == st.mem[n]
  {}

  /** What the two steps of the description do to each cell, case 3. */
  lemma FarGoal(st: State, node: RbNode, s: RbNode, parent: RbNode, l: RbNode, child: RbNode, child2: RbNode?, p: RbNode?, pside: Side)
    requires TwoCells(st, node, s, parent, l, child, child2, p, pside) && parent != s
    requires KidOf(st.mem[parent], Right) != s
    ensures var g := Replaced(Spliced(st, s, child2), node, s); var m' := g.mem;
      && m'.Keys == st.mem.Keys && m'[s] == st.mem[node] && m'[l] == st.mem[l].(parent := s)
      && m'[child] == (if child == parent then st.mem[child].(left := child2, parent := s) else st.mem[child].(parent := s))
      && (child != parent ==> m'[parent] == st.mem[parent].(left := child2))
      && (child2 != null ==> m'[child2] == st.mem[child2].(parent := parent, red := false))
      && (p != null ==> m'[p] == WithKid(st.mem[p], pside, s))
      && (forall n | n in st.mem && n != node && n != s && n != l && n != child && n != parent && n != child2 && n != p :: m'[n] == st.mem[n])
      && g.root == if p == null then s else st.root
  {
    SplicedCells(st, s, child2, parent, Left);
    var st1 := Spliced(st, s, child2);
    hide Spliced;
    assert st1.mem[node] == st.mem[node];
    ReplacedCells(st1, node, s, l, child, p, pside);
    ReplacedKeys(st1, node, s);
  }

  lemma ReplacedKeys(st: State, victim: RbNode, new_: RbNode)
    requires victim in st.mem && new_ in st.mem
    requires st.mem[victim].left != null ==> st.mem[victim].left in st.mem
    requires st.mem[victim].right != null ==> st.mem[victim].right in st.mem
    requires st.mem[victim].parent != null ==> st.mem[victim].parent in st.mem
    ensures Replaced(st, victim, new_).mem.Keys == st.mem.Keys
  {}

  lemma NearCells(st: State, node: RbNode, s: RbNode, l: RbNode, child2: RbNode?, p: RbNode?, pside: Side)
    requires TwoCells(st, node, s, s, l, s, child2, p, pside)
    ensures var g, h := Replaced(Spliced(st, s, child2), node, s), Placed(st, node, s, s, child2);
      && g.mem.Keys == h.mem.Keys == st.mem.Keys && g.root == h.root && forall n | n in st.mem && n != node :: g.mem[n] == h.mem[n]
  {
    PlacedCells(st, node, s, s, l, child2, p, pside);
    SplicedCells(st, s, child2, node, Right);
    var st1 := Spliced(st, s, child2);
    hide Spliced, Placed;
    assert st1.mem[node] == WithKid(st.mem[node], Right, child2);
    ReplacedCells(st1, node, s, l, child2, p, pside);
    ReplacedKeys(st1, node, s);
  }

  /** In both cases, but for the node that is taken out. */
  lemma TwoStates(st: State, node: RbNode, s: RbNode, parent: RbNode, l: RbNode, child: RbNode, child2: RbNode?, p: RbNode?, pside: Side)
    requires TwoCells(st, node, s, parent, l, child, child2, p, pside) && (parent != s ==> KidOf(st.mem[parent], Right) != s)
    ensures var g := Replaced(Spliced(st, s, child2), node, s);
      var h := Placed(if parent == s then st else Detached(st, s, parent, child, child2), node, s, parent, child2);
      && g.mem.Keys == h.mem.Keys == st.mem.Keys && g.root == h.root && g.mem - {node} == h.mem - {node}
  {
    if parent == s {
      NearCells(st, node, s, l, child2, p, pside);
    } else {
      FarCells(st, node, s, parent, l, child, child2, p, pside);
      FarGoal(st, node, s, parent, l, child, child2, p, pside);
      hide Replaced, Spliced, Placed, Detached, TwoCells;
      var g, h := Replaced(Spliced(st, s, child2), node, s), Placed(Detached(st, s, parent, child, child2), node, s, parent, child2);
      assert forall n | n in st.mem && n != node :: g.mem[n] == h.mem[n];
    }
  }
}
