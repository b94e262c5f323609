/** Adding nodes by key or next to a node, and destroying a tree in post-order (avl.c). */
module AvlOperations {
  import opened Sides
  import opened AvlTree
  import opened AvlMemory
  import opened AvlInsert
  import opened AvlWalk

  // ---------- dlm_avl_add ----------

  lemma AddedAscending(before: seq<AvlNode>, x: AvlNode, after: seq<AvlNode>)
    requires Ascending(before + after) && (forall y | y in before :: y.key < x.key) && (forall y | y in after :: x.key < y.key)
    ensures Ascending(before + [x] + after)
  {
    var s, t := before + [x] + after, before + after;
    forall i, j | 0 <= i < j < |s| ensures s[i].key < s[j].key {
      if i < |before| { assert s[i] in before && s[i] == t[i]; }
      if j > |before| { assert s[j] in after && s[j] == t[j - 1]; }
      if i > |before| { assert s[i] == t[i - 1]; }
      if j < |before| { assert s[j] == t[j]; }
    }
  }

  /** dlm_avl_add: the new node gets its place in the order of keys. */
  method Add(root: AvlRoot, newNode: AvlNode, ghost tree: Tree, ghost rs: Side)
    returns (ghost tree': Tree, ghost rs': Side, ghost before: seq<AvlNode>, ghost after: seq<AvlNode>)
    requires IsTree(root, tree, rs) && Ascending(InOrder(tree)) && newNode !in root.nodes
    requires forall x | x in InOrder(tree) :: x.key != newNode.key
    modifies root, root.nodes, newNode
    ensures IsTree(root, tree', rs') && Ascending(InOrder(tree'))
    ensures InOrder(tree) == before + after && InOrder(tree') == before + [newNode] + after
    ensures root.nodes == old(root.nodes) + {newNode}
  {
    hide Holds, Avl, InOrder, Zip;
    var found, where, child;
    ghost var ctx;
    found, where, child, ctx := Find(root, newNode.key, tree, rs);
    assert found == null;
    before, after := Before(ctx), After(ctx);
    EmptySlot(ctx, tree);
    AddedAscending(before, newNode, after);
    tree' := Insert(root, newNode, where, child, ctx, rs);
    rs' := if ctx == [] then child else rs;
  }

  lemma EmptySlot(ctx: Context, tree: Tree)
    requires Zip(ctx, Leaf) == tree
    ensures InOrder(tree) == Before(ctx) + After(ctx)
  {
    ZipInOrder(ctx, Leaf);
    assert Before(ctx) + [] + After(ctx) == Before(ctx) + After(ctx);
  }

  // ---------- dlm_avl_insert_here ----------

  /** dlm_avl_insert_here: the new node goes right before or right after the given one. */
  method InsertHere(root: AvlRoot, newNode: AvlNode, here: AvlNode, direction: Side,
                    ghost tree: Tree, ghost rs: Side, ghost before: seq<AvlNode>, ghost after: seq<AvlNode>)
    returns (ghost tree': Tree)
    requires IsTree(root, tree, rs) && InOrder(tree) == before + [here] + after && newNode !in root.nodes
    modifies root, root.nodes, newNode
    ensures IsTree(root, tree', rs)
    ensures InOrder(tree') == if direction == Left then before + [newNode] + ([here] + after) else before + [here] + [newNode] + after
    ensures root.nodes == old(root.nodes) + {newNode}
  {
    hide Holds, Avl, InOrder, Zip, Beyond, Span, Rep, RepCtx;
    ghost var ctx, t := FocusAt(root.View(), tree, before, here, after, rs);
    FocusRead(root, ctx, t, rs);
    DownHolds(root.View(), ctx, t, direction, rs);
    DownSides(ctx, t, direction);
    ghost var c, sub := Down(ctx, t, direction), Kid(t, direction);
    var node, child := here, direction;
    if root.Child(node, child) != null {
      node, child := root.Child(node, child), Other(child);
      ghost var c', sub';
      node, c', sub' := Outermost(root, node, child, c, sub, rs);
      DownHolds(root.View(), c', sub', child, rs);
      DownBeyond(c', sub', child);
      DownTop(c', sub', child);
      c, sub := Down(c', sub', child), Kid(sub', child);
    }
    SlotOrder(c, tree, direction, before, here, after, newNode);
    tree' := Insert(root, newNode, node, child, c, rs);
  }

  lemma DownSides(ctx: Context, t: Tree, side: Side)
    requires t.Node?
    ensures var c := Down(ctx, t, side);
      && c != [] && c[0].side == side && Above(c) == t.node
      && Beyond(c, Other(side)) == if side == Left then [t.node] + Span(ctx, t, Right) else Span(ctx, t, Left) + [t.node]
  {
    var c := Down(ctx, t, side);
    assert c[1..] == ctx;
  }

  lemma DownTop(ctx: Context, t: Tree, side: Side)
    requires t.Node?
    ensures var c := Down(ctx, t, side); c != [] && c[0].side == side && Above(c) == t.node
  {}

  /** One side of an insertion point determines the other. */
  lemma SlotOrder(c: Context, tree: Tree, direction: Side, before: seq<AvlNode>, here: AvlNode, after: seq<AvlNode>, x: AvlNode)
    requires Zip(c, Leaf) == tree && InOrder(tree) == before + [here] + after
    requires Beyond(c, Other(direction)) == if direction == Left then [here] + after else before + [here]
    ensures Before(c) + [x] + After(c) == if direction == Left then before + [x] + ([here] + after) else before + [here] + [x] + after
  {
    EmptySlot(c, tree);
    if direction == Left {
      Cancel(Before(c), before, [here] + after);
      assert before + [here] + after == before + ([here] + after);
    } else {
      CancelLeft(before + [here], After(c), after);
    }
  }

  lemma Cancel(a: seq<AvlNode>, b: seq<AvlNode>, s: seq<AvlNode>)
    ensures a + s == b + s ==> a == b
  {
    if a + s == b + s {
      assert |a| == |b|;
      assert a == (a + s)[..|a|] && b == (b + s)[..|b|];
    }
  }

  lemma CancelLeft(s: seq<AvlNode>, a: seq<AvlNode>, b: seq<AvlNode>)
    ensures s + a == s + b ==> a == b
  {
    if s + a == s + b {
      assert a == (s + a)[|s|..] && b == (s + b)[|s|..];
    }
  }
}
