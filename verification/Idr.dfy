/**
 The map from ids to pointers (idr.c): an AVL tree of entries and a unit number space for the ids, which
 always agree.  A pointer is a number, and NULL is 0.
 */
module Idr {
  import opened Sides
  import opened AvlTree
  import opened AvlMemory
  import opened AvlRebalance
  import opened AvlInsert
  import opened AvlWalk
  import AvlRemove
  import AvlOperations
  import AvlDestroy
  import opened IdrEntries
  import Units = UnitNumbers
  import Space = UnitAllocator

  const ENOMEM := 12

  // ---------- the object ----------

  class IdrStruct {
    const unr: Space.UnrHdr
    const tree: AvlRoot
    ghost var t: Tree
    ghost var rs: Side

    /** The ids in use, least first, with their pointers. */
    ghost function List(): seq<AvlNode>
      reads this`t
    {
      InOrder(t)
    }

    ghost predicate SpaceOk()
      reads unr, unr.head, Space.MapsOf(unr.head)
    {
      Units.Quiet(unr) && unr.high == INT_MAX
    }

    ghost predicate TreeOk()
      reads this, tree, tree.nodes
    {
      IsTree(tree, t, rs) && Ascending(List())
    }

    /** The ids of the entries are exactly the units in use. */
    ghost predicate Valid()
      reads this, unr, unr.head, Space.MapsOf(unr.head), tree, tree.nodes
    {
      SpaceOk() && TreeOk() && Keys(List()) == Units.Allocated(unr)
    }

    ghost function Map(): map<int, nat>
      requires Ascending(List())
      reads this`t
    {
      Entries(List())
    }

    /** idr_init_base */
    constructor (base: nat)
      requires base <= INT_MAX
      ensures Valid() && Map() == map[] && unr.low == base && fresh(unr) && fresh(tree) && unr.blocks == {} && tree.nodes == {}
    {
      var u := Units.NewUnrhdr(base, INT_MAX);
      var a := new AvlRoot();
      unr, tree, t, rs := u, a, Leaf, Left;
      new;
      EmptyTree(tree);
    }

    method TakeUnit() returns (id: int)
      requires SpaceOk() && TreeOk()
      modifies unr, unr.Footprint()
      ensures SpaceOk() && TreeOk() && List() == old(List()) && unr.low == old(unr.low) && unr.blocks <= old(unr.blocks)
      ensures id == -1 <==> forall y | unr.low <= y <= INT_MAX :: y in old(Units.Allocated(unr))
      ensures id == -1 ==> Units.Allocated(unr) == old(Units.Allocated(unr))
      ensures id != -1 ==> unr.low <= id <= INT_MAX && id !in old(Units.Allocated(unr)) && Units.Allocated(unr) == old(Units.Allocated(unr)) + {id}
      ensures id != -1 ==> forall y | unr.low <= y < id :: y in old(Units.Allocated(unr))
    {
      hide TreeOk, InOrder, Units.Allocated, Units.Quiet;
      id := Units.AllocUnr(unr);
    }

    method AddEntry(node: AvlNode)
      requires SpaceOk() && TreeOk() && node !in tree.nodes && node.key !in Keys(List())
      modifies this, tree, tree.nodes, node
      ensures SpaceOk() && TreeOk() && Units.Allocated(unr) == old(Units.Allocated(unr)) && unr.low == old(unr.low)
      ensures tree.nodes == old(tree.nodes) + {node} && unr.blocks == old(unr.blocks)
      ensures Keys(List()) == old(Keys(List())) + {node.key} && Map() == old(Map())[node.key := node.ptr]
    {
      hide SpaceOk, Units.Allocated, InOrder, Ascending, Keys, Entries, IsTree;
      ghost var maps: set<array<bv64>> := Space.MapsOf(unr.head);
      UnusedKey(List(), node.key);
      ghost var before, after;
      t, rs, before, after := AvlOperations.Add(tree, node, t, rs);
      EntryAdded(before, node, after);
    }

    lemma TreeNodes()
      requires TreeOk()
      ensures tree.nodes == Nodes(t) && Lies(tree, [], t, rs) && Ascending(List())
    {}

    method DropUnit(id: nat)
      requires SpaceOk() && TreeOk() && id in Units.Allocated(unr)
      modifies unr, unr.Footprint()
      ensures SpaceOk() && TreeOk() && List() == old(List()) && unr.low == old(unr.low) && Units.Allocated(unr) == old(Units.Allocated(unr)) - {id}
    {
      hide TreeOk, InOrder, Units.Allocated, Units.Quiet;
      Units.FreeUnr(unr, id);
    }

    method DropEntry(node: AvlNode)
      requires SpaceOk() && TreeOk() && node in List()
      modifies this, tree, tree.nodes
      ensures SpaceOk() && TreeOk() && Units.Allocated(unr) == old(Units.Allocated(unr)) && unr.low == old(unr.low)
      ensures Keys(List()) == old(Keys(List())) - {node.key} && Map() == old(Map()) - {node.key} && tree.nodes <= old(tree.nodes)
    {
      hide SpaceOk, Units.Allocated, InOrder, Ascending, Keys, Entries, IsTree;
      ghost var maps: set<array<bv64>> := Space.MapsOf(unr.head);
      ghost var was := List();
      ghost var before, after := Around(was, node);
      t := AvlRemove.Remove(tree, node, t, rs, before, after);
      WithoutAscending(before, node, after);
      EntryAdded(before, node, after);
    }

    /** idr_alloc: the least id not in use now stands for the pointer, unless memory or ids have run out. */
    method Alloc(ptr: nat, noMemory: bool) returns (r: int)
      requires Valid()
      modifies this, unr, unr.Footprint(), tree, tree.nodes
      ensures Valid() && unr.low == old(unr.low) && unr.blocks <= old(unr.blocks) && fresh(tree.nodes - old(tree.nodes))
      ensures r == -ENOMEM <==> noMemory || forall y | unr.low <= y <= INT_MAX :: y in old(Map())
      ensures r == -ENOMEM ==> Map() == old(Map())
      ensures r != -ENOMEM ==> unr.low <= r <= INT_MAX && r !in old(Map()) && Map() == old(Map())[r := ptr]
      ensures r != -ENOMEM ==> forall y | unr.low <= y < r :: y in old(Map())
    {
      hide SpaceOk, Ascending, Entries, InOrder, IsTree, Units.Allocated, Keys;
      if noMemory {
        return -ENOMEM;
      }
      SameKeys(List());
      var id := TakeUnit();
      if id == -1 {
        return -ENOMEM;
      }
      ghost var maps: set<array<bv64>> := Space.MapsOf(unr.head);
      var node := new AvlNode(id, ptr);
      AddEntry(node);
      r := id;
    }

    /** idr_remove: the id no longer stands for anything and can be given out again; returns what it stood for. */
    method Remove(id: int) returns (ptr: nat)
      requires Valid()
      modifies this, unr, unr.Footprint(), tree, tree.nodes
      ensures Valid() && unr.low == old(unr.low) && tree.nodes <= old(tree.nodes)
      ensures Map() == old(Map()) - {id} && ptr == if id in old(Map()) then old(Map())[id] else NULL
    {
      hide SpaceOk, Ascending, Entries, InOrder, IsTree, Units.Allocated, Keys;
      SameKeys(List());
      ptr := NULL;
      var found, where, child;
      ghost var ctx;
      found, where, child, ctx := FindEntry(id);
      if found != null {
        ptr := found.ptr;
        UsedId(unr, id);
        DropUnit(id);
        DropEntry(found);
      }
    }

    method FindEntry(id: int) returns (found: AvlNode?, where: AvlNode?, child: Side, ghost ctx: Context)
      requires Valid()
      ensures Valid() && tree.View() == old(tree.View()) && Units.Allocated(unr) == old(Units.Allocated(unr))
      ensures found != null ==> found in List() && found.key == id && id in Map() && Map()[id] == found.ptr
      ensures found == null ==> id !in Map() && id !in Keys(List())
      ensures found == null ==> Lies(tree, ctx, Leaf, rs) && where == Above(ctx) && (ctx != [] ==> child == ctx[0].side)
      ensures found == null ==> From(List(), id) == Beyond(ctx, Right)
    {
      hide SpaceOk, Ascending, Entries, InOrder, IsTree, Units.Allocated, Keys, Zip, Holds, From, Beyond, Bounded;
      ghost var maps: set<array<bv64>> := Space.MapsOf(unr.head);
      TreeNodes();
      found, where, child, ctx := Find(tree, id, t, rs);
      EntryOut(List(), id);
      TreeNodes();
      if found != null {
        EntryIn(List(), found);
      } else {
        HoldsZip(tree.View(), ctx, Leaf, rs);
        FromSlot(t, ctx, id);
      }
    }

    /** idr_find */
    method Lookup(id: int) returns (ptr: nat)
      requires Valid()
      ensures ptr == if id in Map() then Map()[id] else NULL
    {
      var found, where, child;
      ghost var ctx;
      found, where, child, ctx := FindEntry(id);
      ptr := if found == null then NULL else found.ptr;
    }

    /** idr_get_next: the entry with the least id from nextid on. */
    method GetNext(nextid: int) returns (ptr: nat, nextid': int)
      requires Valid()
      ensures Valid() && List() == old(List())
      ensures var rest := From(List(), nextid);
        if rest == [] then ptr == NULL && nextid' == nextid else ptr == rest[0].ptr && nextid' == rest[0].key
    {
      hide SpaceOk, TreeOk, Ascending, InOrder, From, Keys, Units.Allocated, Beyond, Holds;
      var found, where, child;
      ghost var ctx;
      ListAscends();
      found, where, child, ctx := FindEntry(nextid);
      if found != null {
        FromFound(List(), found);
      } else {
        ghost var maps: set<array<bv64>> := Space.MapsOf(unr.head);
        found := Nearest(tree, where, child, Right, ctx, rs);
      }
      ptr, nextid' := NULL, nextid;
      if found != null {
        ptr, nextid' := found.ptr, found.key;
      }
    }

    /** idr_for_each: the callback gets the entries in order of id until it returns non-zero. */
    method ForEach(fn: (int, nat) -> int) returns (ret: int, visited: seq<AvlNode>)
      requires Valid()
      ensures |visited| <= |List()| && visited == List()[..|visited|]
      ensures forall i | 0 <= i < |visited| - 1 :: fn(visited[i].key, visited[i].ptr) == 0
      ensures ret == if visited == [] then 0 else var last := visited[|visited| - 1]; fn(last.key, last.ptr)
      ensures ret == 0 ==> visited == List()
    {
      hide SpaceOk, TreeOk, Ascending, InOrder, Keys, Units.Allocated, Holds;
      TreeNodes();
      ghost var rest := List();
      var node := Extreme(tree, Left, t, rs);
      ret, visited := 0, [];
      while node != null
        invariant Lies(tree, [], t, rs) && List() == visited + rest && node == Nearby(Right, rest) && ret == 0
        invariant forall i | 0 <= i < |visited| :: fn(visited[i].key, visited[i].ptr) == 0
        decreases |rest|
      {
        assert rest == [node] + rest[1..];
        assert visited + rest == visited + [node] + rest[1..];
        var next := Walk(tree, node, Right, t, rs, visited, rest[1..]);
        visited, rest := visited + [node], rest[1..];
        ret := fn(node.key, node.ptr);
        if ret != 0 {
          return;
        }
        node := next;
      }
      assert visited + [] == visited;
    }

    /**
     idr_for_each_entry: idr_get_next from 0 on, each time from the id after the last one, until it
     returns NULL.  The loop may go on for ever, so it is watched for a number of runs of its body.
     */
    method ForEachEntry(limit: nat) returns (seen: seq<(int, nat)>, ended: bool)
      requires Valid()
      ensures Valid() && List() == old(List()) && |seen| <= limit && seen == Visits(List(), |seen|)
      ensures if ended then EndsAfter(List(), |seen|) else |seen| == limit && forall k: nat | k <= limit :: NthCall(List(), k).0 != NULL
      ensures Ascending(List()) && (!Endless(Map()) && |Seen(List())| <= limit ==> ended && seen == Pairs(Seen(List())))
    {
      hide Valid, InOrder, Ascending, InRange, From, Entries, Call, NthCall, Visits, Seen, Pairs, Endless;
      Ids();
      ghost var s := List();
      FirstRun(s);
      var id, entry := 0, NULL;
      seen := [];
      entry, id := GetNext(id);
      CallIs(s, 0, entry, id);
      while entry != NULL && |seen| < limit
        invariant Valid() && List() == s && |seen| <= limit
        invariant (entry, id) == NthCall(s, |seen|) && seen == Visits(s, |seen|)
        invariant forall k: nat | k < |seen| :: NthCall(s, k).0 != NULL
        decreases limit - |seen|
      {
        ghost var n, pair, next := |seen|, (id, entry), NextId(id);
        seen := seen + [(id, entry)];
        id := NextId(id);
        entry, id := GetNext(id);
        CallIs(s, next, entry, id);
        RunOnce(s, n, pair, (entry, id));
      }
      ended := entry == NULL;
      Watched(s, |seen|, ended);
    }

    /** What the loop relies on. */
    lemma Ids()
      requires Valid()
      ensures Ascending(List()) && InRange(List())
    {
      forall x | x in List() ensures 0 <= x.key <= INT_MAX {
        assert x.key in Units.Allocated(unr);
      }
    }

    /**
     idr_for_each_entry ends having visited every non-null entry once if and only if no null entry comes before
     one of them, and not both INT_MAX is in use and no entry is null.
     */
    lemma EntryLoop()
      requires Valid()
      ensures Ascending(List())
      ensures (exists n: nat :: EndsAfter(List(), n) && Visits(List(), n) == Pairs(NonNull(List())))
         <==> !NullBefore(Map()) && !Endless(Map())
      ensures Endless(Map()) <==> forall n: nat :: !EndsAfter(List(), n)
    {
      hide Ascending, InRange, NullBefore, Endless, Visits, NthCall, Entries, InOrder, Pairs, NonNull;
      Ids();
      LoopSeesAll(List());
      LoopEnds(List());
    }

    /**
     idr_destroy: every entry is freed, once, and the tree is empty; the number space keeps its blocks.  They are
     lost unless its list was empty: always if the ids in use have a gap, never if no id is in use.
     */
    method Destroy() returns (freed: seq<AvlNode>)
      requires Valid()
      modifies tree, tree.nodes
      ensures multiset(freed) == multiset(old(List())) && tree.root == null && tree.numnodes == 0 && tree.nodes == {}
      ensures unr.alloc == old(unr.alloc) && unr.blocks == old(unr.blocks) && |unr.blocks| == unr.alloc
      ensures unr.blocks == {} <==> old(unr.head) == []
      ensures old(Ascending(List()))
      ensures old(Units.Gap(unr.low, Map().Keys)) ==> unr.blocks != {}
      ensures old(Map()) == map[] ==> unr.blocks == {}
    {
      ListAscends();
      SameKeys(List());
      UsedIds();
      Units.HeldBlocks(unr);
      hide Units.Quiet, Units.Gap, Units.Allocated, Entries, IsTree, Ascending;
      freed := AvlDestroy.DestroyAll(tree, t, rs);
    }

    lemma UsedIds()
      requires Valid()
      ensures Ascending(List()) && Map().Keys == Units.Allocated(unr)
    {
      SameKeys(List());
    }

    lemma ListAscends()
      requires Valid()
      ensures Ascending(List())
    {}
  }

  lemma SameKeys(s: seq<AvlNode>)
    requires Ascending(s)
    ensures forall k :: k in Entries(s) <==> k in Keys(s)
  {
    forall k ensures k in Entries(s) <==> k in Keys(s) {
      EntryOut(s, k);
    }
  }

  lemma UnusedKey(s: seq<AvlNode>, id: int)
    ensures id !in Keys(s) ==> forall x | x in s :: x.key != id
  {}

  lemma UsedId(unr: Space.UnrHdr, id: int)
    ensures id in Units.Allocated(unr) ==> id >= 0
  {}

  lemma Around(s: seq<AvlNode>, x: AvlNode) returns (before: seq<AvlNode>, after: seq<AvlNode>)
    requires x in s
    ensures s == before + [x] + after
  {
    var i :| 0 <= i < |s| && s[i] == x;
    before, after := s[..i], s[i + 1..];
  }

  lemma WithoutAscending(before: seq<AvlNode>, x: AvlNode, after: seq<AvlNode>)
    requires Ascending(before + [x] + after)
    ensures Ascending(before + after)
  {
    var s, t := before + after, before + [x] + after;
    forall i, j | 0 <= i < j < |s| ensures s[i].key < s[j].key {
      assert s[i] == t[if i < |before| then i else i + 1] && s[j] == t[if j < |before| then j else j + 1];
    }
  }

  lemma FromFound(s: seq<AvlNode>, x: AvlNode)
    requires Ascending(s) && x in s
    ensures From(s, x.key) != [] && From(s, x.key)[0] == x
  {
    var before, after := Around(s, x);
    AscendingParts(before, x, after);
    assert s == before + ([x] + after);
    FromCut(before, [x] + after, x.key);
  }

  lemma FromSlot(t: Tree, ctx: Context, id: int)
    requires Ascending(InOrder(t)) && Zip(ctx, Leaf) == t && Bounded(ctx, id)
    ensures From(InOrder(t), id) == Beyond(ctx, Right)
  {
    AvlOperations.EmptySlot(ctx, t);
    FromCut(Before(ctx), After(ctx), id);
  }

  lemma EmptyTree(tree: AvlRoot)
    requires tree.root == null && tree.nodes == {} && tree.numnodes == 0
    ensures IsTree(tree, Leaf, Left) && InOrder(Leaf) == []
  {}

  // ---------- what the loop over all entries misses ----------

  lemma FirstRun(s: seq<AvlNode>)
    ensures NthCall(s, 0) == Call(s, 0) && Visits(s, 0) == []
  {}

  lemma RunOnce(s: seq<AvlNode>, n: nat, pair: (int, nat), next: (nat, int))
    requires (pair.1, pair.0) == NthCall(s, n) && Call(s, NextId(pair.0)) == next
    ensures NthCall(s, n + 1) == next && Visits(s, n + 1) == Visits(s, n) + [pair]
  {}

  lemma Watched(s: seq<AvlNode>, n: nat, ended: bool)
    requires Ascending(s) && InRange(s)
    requires if ended then EndsAfter(s, n) else forall k: nat | k <= n :: NthCall(s, k).0 != NULL
    ensures !Endless(Entries(s)) && (ended || |Seen(s)| <= n) ==> ended && Visits(s, n) == Pairs(Seen(s))
  {
    hide Ascending, InRange, Endless, NthCall, Visits;
    LoopEnds(s);
    if ended && !Endless(Entries(s)) { EndsOnce(s, n, |Seen(s)|); }
  }

  /** Ids 0, 1 and 2, of which 1 is removed again: destroying the map loses blocks. */
  method GapIsLost() returns (idr: IdrStruct)
    ensures idr.tree.root == null && idr.unr.blocks != {}
  {
    hide IdrStruct.Valid, Entries, InOrder, Units.Gap;
    idr := new IdrStruct(0);
    ghost var m: map<int, nat> := map[];
    assert 0 !in m;
    var a := idr.Alloc(5, false);
    m := map[0 := 5];
    assert 1 !in m;
    var b := idr.Alloc(6, false);
    m := map[0 := 5, 1 := 6];
    assert 2 !in m;
    var c := idr.Alloc(7, false);
    var p := idr.Remove(1);
    idr.ListAscends();
    assert idr.Map() == map[0 := 5, 2 := 7];
    GapAtOne(idr.Map());
    var freed := idr.Destroy();
  }

  lemma GapAtOne(m: map<int, nat>)
    requires m == map[0 := 5, 2 := 7]
    ensures Units.Gap(0, m.Keys)
  {
    assert 1 !in m.Keys && 2 in m.Keys;
  }

  lemma CallIs(s: seq<AvlNode>, id: int, ptr: nat, id': int)
    requires var rest := From(s, id); if rest == [] then ptr == NULL && id' == id else ptr == rest[0].ptr && id' == rest[0].key
    ensures Call(s, id) == (ptr, id')
  {}

  /** A stored NULL pointer hides the entries after it. */
  method NullHidesLater() returns (idr: IdrStruct, seen: seq<(int, nat)>, ended: bool)
    ensures idr.Valid() && Ascending(idr.List()) && idr.Map() == map[0 := NULL, 1 := 7] && seen == [] && ended
  {
    hide IdrStruct.Valid, Ascending, Entries, InOrder, NthCall, Visits;
    idr := new IdrStruct(0);
    ghost var m: map<int, nat> := map[];
    assert 0 !in m;
    var a := idr.Alloc(NULL, false);
    m := map[0 := NULL];
    assert 1 !in m;
    var b := idr.Alloc(7, false);
    idr.Ids();
    NullFirst(idr.List());
    seen, ended := idr.ForEachEntry(1);
  }

  lemma NullFirst(s: seq<AvlNode>)
    requires Ascending(s) && InRange(s) && Entries(s) == map[0 := NULL, 1 := 7]
    ensures NthCall(s, 0).0 == NULL && Visits(s, 0) == []
  {
    EntryOut(s, 0);
    var i :| 0 <= i < |s| && s[i].key == 0 && s[i].ptr == NULL;
    EntryIn(s, s[0]);
    assert i == 0;
    FirstCall(s);
  }

  /** With INT_MAX as the only id in use, each search finds it again and the loop never ends. */
  method GreatestIdForEver() returns (idr: IdrStruct, first: (nat, int), second: (nat, int))
    ensures idr.Valid() && Ascending(idr.List()) && idr.Map() == map[INT_MAX := 7]
    ensures first == (7, INT_MAX) && second == (7, INT_MAX)
    ensures forall n: nat :: NthCall(idr.List(), n).0 != NULL
  {
    hide IdrStruct.Valid, Ascending, Entries, InOrder, NthCall, InRange;
    idr := new IdrStruct(INT_MAX);
    ghost var m: map<int, nat> := map[];
    assert INT_MAX !in m;
    var a := idr.Alloc(7, false);
    idr.Ids();
    OnlyGreatest(idr.List());
    LoopEnds(idr.List());
    var p, i := idr.GetNext(0);
    var q, j := idr.GetNext(NextId(INT_MAX));
    first, second := (p, i), (q, j);
  }

  lemma OnlyGreatest(s: seq<AvlNode>)
    requires Ascending(s) && InRange(s) && Entries(s) == map[INT_MAX := 7]
    ensures Endless(Entries(s))
    ensures From(s, 0) != [] && From(s, NextId(INT_MAX)) == From(s, 0) && From(s, 0)[0].key == INT_MAX && From(s, 0)[0].ptr == 7
  {
    FromAll(s, 0);
    FromAll(s, INT_MIN);
    EntryOut(s, INT_MAX);
    EntryIn(s, s[0]);
  }
}
