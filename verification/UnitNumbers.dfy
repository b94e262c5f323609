/**
 The interface of the unit number allocator (unr.c): a space is a set of units in use, and the memory
 it holds is exactly what its list needs.
 */
module UnitNumbers {
  import opened UnitSpec
  import opened UnitUpdate
  import opened UnitAllocator

  /** The units in use. */
  ghost function InUse(low: int, space: seq<bool>): set<int> {
    set i | 0 <= i < |space| && space[i] :: low + i
  }

  ghost function Allocated(uh: UnrHdr): set<int>
    reads uh, uh.head, MapsOf(uh.head)
  {
    InUse(uh.low, uh.Space())
  }

  lemma InUseAt(low: int, space: seq<bool>, x: int)
    ensures x in InUse(low, space) <==> 0 <= x - low < |space| && space[x - low]
  {
    if 0 <= x - low < |space| && space[x - low] {
      var i := x - low;
      assert x == low + i;
    }
  }

  lemma InUseSet(low: int, space: seq<bool>, i: nat)
    requires i < |space|
    ensures InUse(low, space[i := true]) == InUse(low, space) + {low + i}
    ensures InUse(low, space[i := false]) == InUse(low, space) - {low + i}
  {
    var was, now, later := InUse(low, space), InUse(low, space[i := true]), InUse(low, space[i := false]);
    var one := {low + i};
    forall x ensures x in now <==> x in was || x in one {
      InUseAt(low, space[i := true], x);
      InUseAt(low, space, x);
    }
    forall x ensures x in later <==> x in was && x !in one {
      InUseAt(low, space[i := false], x);
      InUseAt(low, space, x);
    }
  }

  lemma {:induction false} CountIsSize(low: int, space: seq<bool>)
    ensures CountTrue(space) == |InUse(low, space)|
  {
    if space == [] {
      assert InUse(low, space) == {};
    } else {
      var n := |space| - 1;
      var front := space[..n];
      CountIsSize(low, front);
      assert space == front + [space[n]];
      CountAppend(front, [space[n]]);
      forall x ensures x in InUse(low, space) <==> x in InUse(low, front) || (space[n] && x == low + n) {
        InUseAt(low, space, x);
        InUseAt(low, front, x);
      }
      assert InUse(low, space) == InUse(low, front) + (if space[n] then {low + n} else {});
      InUseAt(low, front, low + n);
    }
  }

  /** busy is the number of units in use. */
  lemma BusyIsSize(uh: UnrHdr)
    requires uh.Consistent()
    ensures uh.busy == |Allocated(uh)|
  {
    CountIsSize(uh.low, uh.Space());
  }

  // ---------- memory ----------

  function SeqSet<T>(s: seq<T>): set<T> {
    set i | 0 <= i < |s| :: s[i]
  }

  lemma {:induction false} DistinctSize(s: seq<Block>)
    requires Distinct(s)
    ensures |SeqSet(s)| == |s|
  {
    if s != [] {
      var n := |s| - 1;
      DistinctSize(s[..n]);
      assert SeqSet(s) == SeqSet(s[..n]) + {s[n]};
    }
  }

  ghost function BitmapsOf(nodes: seq<Node>): set<Block> {
    set i | 0 <= i < |nodes| && nodes[i].ptr.ToBitmap? :: nodes[i].ptr.ub
  }

  function BitmapCount(nodes: seq<Node>): nat {
    if nodes == [] then 0 else BitmapCount(nodes[..|nodes| - 1]) + if nodes[|nodes| - 1].ptr.ToBitmap? then 1 else 0
  }

  lemma {:induction false} BitmapsSize(nodes: seq<Node>)
    requires forall i, j | 0 <= i < j < |nodes| && nodes[i].ptr.ToBitmap? && nodes[j].ptr.ToBitmap? ::
      nodes[i].ptr.ub != nodes[j].ptr.ub
    ensures |BitmapsOf(nodes)| == BitmapCount(nodes)
  {
    if nodes != [] {
      var n := |nodes| - 1;
      BitmapsSize(nodes[..n]);
      assert BitmapsOf(nodes) == BitmapsOf(nodes[..n]) + if nodes[n].ptr.ToBitmap? then {nodes[n].ptr.ub} else {};
    }
  }

  lemma {:induction false} CostIsBlocks(nodes: seq<Node>, es: seq<Elem>)
    requires |nodes| == |es| && forall i | 0 <= i < |es| :: es[i].Map? <==> nodes[i].ptr.ToBitmap?
    ensures CostSum(es) == |nodes| + BitmapCount(nodes)
  {
    if es != [] {
      var n := |es| - 1;
      CostIsBlocks(nodes[..n], es[..n]);
      assert es == es[..n] + [es[n]];
      CostAppend(es[..n], [es[n]]);
      FlatOne(es[n]);
    }
  }

  lemma StructuredSize(head: seq<Block>, nodes: seq<Node>, ppfree: seq<Block>, blocks: set<Block>)
    requires Structured(head, nodes, ppfree, blocks)
    ensures |blocks| == |head| + BitmapCount(nodes) + |ppfree|
  {
    DistinctSize(head);
    DistinctSize(ppfree);
    BitmapsSize(nodes);
    var a, b, c := SeqSet(head), BitmapsOf(nodes), SeqSet(ppfree);
    BlocksDivided(head, nodes, ppfree, blocks);
    hide Structured, SeqSet, BitmapsOf;
    assert blocks == (a + b) + c;
  }

  lemma BlocksDivided(head: seq<Block>, nodes: seq<Node>, ppfree: seq<Block>, blocks: set<Block>)
    requires Structured(head, nodes, ppfree, blocks)
    ensures forall b :: b in blocks <==> b in SeqSet(head) || b in BitmapsOf(nodes) || b in SeqSet(ppfree)
    ensures SeqSet(head) !! BitmapsOf(nodes) && SeqSet(head) + BitmapsOf(nodes) !! SeqSet(ppfree)
  {
    hide OwnWords, Distinct;
    forall b | b in blocks && b !in head && b !in ppfree ensures b in BitmapsOf(nodes) {
      assert IsBitmapOf(nodes, b);
    }
  }

  /** No block is lost: alloc and the blocks waiting to be freed account for every block. */
  lemma BlocksAccounted(uh: UnrHdr)
    requires uh.Consistent()
    ensures |uh.blocks| == uh.alloc + |uh.ppfree|
  {
    StructuredSize(uh.head, uh.Nodes(), uh.ppfree, uh.blocks);
    uh.ElemsMatch();
    uh.NodesOfHead();
    CostIsBlocks(uh.Nodes(), uh.Elems());
  }

  /** Memory is bounded by the span between the first and the last element, and none is held when no unit is in use. */
  lemma SpaceMemory(uh: UnrHdr)
    requires uh.Consistent()
    ensures uh.alloc <= 4 * ((uh.high - uh.low + 1 - uh.first - uh.last) / (NBITS + 1)) + 2
    ensures Allocated(uh) == {} ==> uh.alloc == 0 && uh.head == [] && uh.blocks == SeqSet(uh.ppfree)
  {
    MemoryBound(uh.Elems());
    BusyIsSize(uh);
    if Allocated(uh) == {} {
      IdleIsEmpty(uh.first, uh.Elems(), uh.last, uh.high - uh.low + 1, uh.busy, uh.alloc);
      NothingButFreed(uh.Nodes(), uh.ppfree, uh.blocks);
    }
  }

  lemma NothingButFreed(nodes: seq<Node>, ppfree: seq<Block>, blocks: set<Block>)
    requires Structured([], nodes, ppfree, blocks)
    ensures blocks == SeqSet(ppfree)
  {
    forall b | b in blocks ensures b in SeqSet(ppfree) {
      assert !IsBitmapOf(nodes, b);
    }
  }

  lemma StructuredFreed(head: seq<Block>, nodes: seq<Node>, ppfree: seq<Block>, blocks: set<Block>)
    requires Structured(head, nodes, ppfree, blocks) && ppfree != []
    ensures Structured(head, nodes, ppfree[1..], blocks - {ppfree[0]})
  {
    var ppfree', blocks' := ppfree[1..], blocks - {ppfree[0]};
    forall b | b in blocks' ensures b in head || b in ppfree' || IsBitmapOf(nodes, b) {
      if b in ppfree {
        var i :| 0 <= i < |ppfree| && ppfree[i] == b;
        assert ppfree'[i - 1] == b;
      }
    }
    assert forall i | 0 <= i < |ppfree'| :: ppfree'[i] in ppfree;
  }

  /** clean_unrhdrl: gives back the blocks that wait to be freed; then exactly alloc blocks are held. */
  method CleanUnrhdr(uh: UnrHdr)
    requires uh.Consistent()
    modifies uh`ppfree, uh`blocks
    ensures uh.Consistent() && uh.Space() == old(uh.Space()) && uh.ppfree == []
    ensures uh.blocks <= old(uh.blocks) && |uh.blocks| == uh.alloc
  {
    while uh.ppfree != []
      invariant uh.Consistent() && uh.Space() == old(uh.Space()) && uh.blocks <= old(uh.blocks)
      decreases |uh.ppfree|
    {
      FreeOne(uh);
    }
    BlocksAccounted(uh);
  }

  method FreeOne(uh: UnrHdr)
    requires uh.Consistent() && uh.ppfree != []
    modifies uh`ppfree, uh`blocks
    ensures uh.Consistent() && uh.Space() == old(uh.Space())
    ensures uh.ppfree == old(uh.ppfree)[1..] && uh.blocks == old(uh.blocks) - {old(uh.ppfree)[0]}
  {
    hide Structured, ElemOf, Units, SpaceOk;
    ghost var es := uh.Elems();
    StructuredFreed(uh.head, uh.Nodes(), uh.ppfree, uh.blocks);
    var up := uh.ppfree[0];
    uh.ppfree, uh.blocks := uh.ppfree[1..], uh.blocks - {up};
    assert uh.Elems() == es;
  }

  // ---------- the set refined ----------

  /** Nothing between calls: the blocks of the space are those of its list. */
  ghost predicate Quiet(uh: UnrHdr)
    reads uh, uh.head, MapsOf(uh.head)
  {
    uh.Consistent() && uh.ppfree == [] && |uh.blocks| == uh.alloc
  }

  /** Some unit is free that is less than one in use. */
  ghost predicate Gap(low: int, used: set<int>) {
    exists i, j :: low <= i < j && i !in used && j in used
  }

  /** Which spaces hold memory between two operations: those with a list, as every gap needs one. */
  lemma HeldBlocks(uh: UnrHdr)
    requires Quiet(uh)
    ensures uh.blocks == {} <==> uh.head == []
    ensures Gap(uh.low, Allocated(uh)) ==> uh.blocks != {}
    ensures Allocated(uh) == {} ==> uh.blocks == {}
  {
    SpaceMemory(uh);
    var es := uh.Elems();
    if uh.head == [] {
      assert uh.alloc == CostSum(es) == 0;
      forall i: int, j: int | uh.low <= i < j && j in Allocated(uh) ensures i in Allocated(uh) {
        NoListNoGap(uh.low, uh.first, es, uh.last, i, j);
      }
    } else {
      assert CostSum(es) == Cost(es[0]) + CostSum(es[1..]);
    }
  }

  lemma NoListNoGap(low: int, first: nat, es: seq<Elem>, last: nat, i: int, j: int)
    requires es == [] && low <= i < j && j in InUse(low, Units(first, es, last))
    ensures i in InUse(low, Units(first, es, last))
  {
    InUseAt(low, Units(first, es, last), i);
    InUseAt(low, Units(first, es, last), j);
  }

  /** new_unrhdr: nothing is in use and no memory is held. */
  method NewUnrhdr(low: nat, high: nat) returns (uh: UnrHdr)
    requires low <= high
    ensures fresh(uh) && Quiet(uh) && uh.low == low && uh.high == high && Allocated(uh) == {} && uh.blocks == {}
  {
    uh := new UnrHdr(low, high);
    BlocksAccounted(uh);
  }

  /** alloc_unr: the least unit not in use, or -1 exactly when there is none. */
  method AllocUnr(uh: UnrHdr) returns (x: int)
    requires Quiet(uh)
    modifies uh, uh.Footprint()
    ensures Quiet(uh) && uh.low == old(uh.low) && uh.high == old(uh.high) && uh.blocks <= old(uh.blocks)
    ensures x == -1 <==> forall y | uh.low <= y <= uh.high :: y in old(Allocated(uh))
    ensures x == -1 ==> Allocated(uh) == old(Allocated(uh))
    ensures x != -1 ==> uh.low <= x <= uh.high && x !in old(Allocated(uh)) && Allocated(uh) == old(Allocated(uh)) + {x}
    ensures x != -1 ==> forall y | uh.low <= y < x :: y in old(Allocated(uh))
  {
    hide Structured, ElemOf, Units, SpaceOk, FirstFree, InUse;
    ghost var was, low := uh.Space(), uh.low;
    uh.ConsistentIs();
    x := uh.AllocUnrl();
    assert uh.low == low && uh.high == low + |was| - 1;
    AllocMeans(low, was, x);
    ghost var used := InUse(low, was);
    assert used == old(Allocated(uh));
    assert x == -1 <==> forall y | uh.low <= y <= uh.high :: y in used;
    CleanUnrhdr(uh);
    if x != -1 {
      assert uh.Space() == was[x - low := true];
    }
  }

  lemma AllocMeans(low: nat, space: seq<bool>, x: int)
    requires x == -1 <==> false !in space
    requires x != -1 ==> low <= x && FirstFree(space, x - low)
    ensures x == -1 <==> forall y | low <= y < low + |space| :: y in InUse(low, space)
    ensures x != -1 ==> low <= x < low + |space| && x !in InUse(low, space) && forall y | low <= y < x :: y in InUse(low, space)
    ensures x != -1 ==> InUse(low, space[x - low := true]) == InUse(low, space) + {x}
  {
    hide InUse;
    forall y ensures y in InUse(low, space) <==> 0 <= y - low < |space| && space[y - low] {
      InUseAt(low, space, y);
    }
    if x != -1 {
      InUseSet(low, space, x - low);
    }
  }

  /** free_unr: exactly the given unit goes out of use; the spare blocks not needed are given back. */
  method FreeUnr(uh: UnrHdr, x: nat)
    requires Quiet(uh) && x in Allocated(uh)
    modifies uh, uh.Footprint()
    ensures Quiet(uh) && uh.low == old(uh.low) && uh.high == old(uh.high) && fresh(uh.blocks - old(uh.blocks))
    ensures Allocated(uh) == old(Allocated(uh)) - {x}
  {
    hide Structured, ElemOf, Units, SpaceOk, InUse;
    ghost var was, low := uh.Space(), uh.low;
    InUseAt(low, was, x);
    InUseSet(low, was, x - low);
    uh.ConsistentIs();
    ghost var now, used := was[x - low := false], InUse(low, was);
    assert used == old(Allocated(uh)) && InUse(low, now) == used - {x};
    Release(uh, x);
    CleanUnrhdr(uh);
    assert uh.Space() == now;
  }

  method Release(uh: UnrHdr, x: nat)
    requires uh.Consistent() && uh.low <= x <= uh.high && uh.Space()[x - uh.low]
    modifies uh, uh.Footprint()
    ensures uh.Consistent() && uh.low == old(uh.low) && uh.high == old(uh.high) && fresh(uh.blocks - old(uh.blocks))
    ensures uh.Space() == old(uh.Space())[x - uh.low := false]
  {
    hide Structured, ElemOf, Units, SpaceOk, OwnWords;
    ghost var blocks := uh.blocks;
    var p1, p2 := TwoBlocks(uh);
    assert uh.blocks == blocks;
    var q1, q2 := uh.FreeUnrl(x, p1, p2);
  }

  method TwoBlocks(uh: UnrHdr) returns (p1: Block, p2: Block)
    requires uh.Consistent()
    ensures uh.Consistent() && uh.Space() == old(uh.Space())
    ensures SparesOk(uh.blocks, p1, p2) && fresh({p1, p2}) && fresh(p1.words) && fresh(p2.words)
  {
    hide ElemOf, Units, SpaceOk;
    ghost var es := uh.Elems();
    p1 := new Block();
    assert uh.Elems() == es;
    p2 := new Block();
    assert uh.Elems() == es;
    Spares(uh, p1, p2);
  }

  lemma Spares(uh: UnrHdr, p1: Block, p2: Block)
    requires OwnWords(uh.blocks) && p1 !in uh.blocks && p2 !in uh.blocks && p1 != p2 && p1.words != p2.words
    requires p1.words.Length == p2.words.Length == NWORDS
    requires forall b | b in uh.blocks :: b.words != p1.words && b.words != p2.words
    ensures SparesOk(uh.blocks, p1, p2)
  {}
}
