/**
 What a stable merge sort computes (list_sort.c), on sequences of nodes.  The comparison need only be
 defined on pairs whose first node came first in the input.
 */
module ListSortSpec {

  class ListHead {
    var next: ListHead?
    var prev: ListHead?

    /** INIT_LIST_HEAD */
    constructor ()
      ensures next == prev == this
    {
      next, prev := this, this;
    }
  }

  /** Where each node stood in the input. */
  ghost predicate Positions(pos: map<ListHead, nat>, input: seq<ListHead>) {
    && (forall i | 0 <= i < |input| :: input[i] in pos && pos[input[i]] == i)
    && (forall x | x in pos :: pos[x] < |input| && input[pos[x]] == x)
  }

  /** cmp may be called whenever its first argument came before the second in the input. */
  ghost predicate Callable(cmp: (ListHead, ListHead) --> int, pos: map<ListHead, nat>) {
    forall x, y | x in pos && y in pos && pos[x] < pos[y] :: cmp.requires(x, y)
  }

  /** The order a stable sort establishes: what cmp says, earlier nodes first where it has no opinion. */
  ghost predicate Precedes(cmp: (ListHead, ListHead) --> int, pos: map<ListHead, nat>, x: ListHead, y: ListHead)
    requires Callable(cmp, pos) && x in pos && y in pos
  {
    if pos[x] <= pos[y] then pos[x] < pos[y] && cmp(x, y) <= 0 else cmp(y, x) > 0
  }

  /** cmp makes sense as a comparison. */
  ghost predicate Transitive(cmp: (ListHead, ListHead) --> int, pos: map<ListHead, nat>)
    requires Callable(cmp, pos)
  {
    forall x, y, z | x in pos && y in pos && z in pos && Precedes(cmp, pos, x, y) && Precedes(cmp, pos, y, z) ::
      Precedes(cmp, pos, x, z)
  }

  ghost predicate Known(pos: map<ListHead, nat>, s: seq<ListHead>) {
    forall x | x in s :: x in pos
  }

  ghost predicate Sorted(cmp: (ListHead, ListHead) --> int, pos: map<ListHead, nat>, s: seq<ListHead>)
    requires Callable(cmp, pos) && Known(pos, s)
  {
    forall i, j | 0 <= i < j < |s| :: Precedes(cmp, pos, s[i], s[j])
  }

  ghost predicate Distinct(s: seq<ListHead>) {
    forall i, j | 0 <= i < j < |s| :: s[i] != s[j]
  }

  // ---------- merging ----------

  ghost predicate Comparable(cmp: (ListHead, ListHead) --> int, a: seq<ListHead>, b: seq<ListHead>) {
    forall x, y | x in a && y in b :: cmp.requires(x, y)
  }

  /** The stable merge; a came first in the input. */
  ghost function Merged(cmp: (ListHead, ListHead) --> int, a: seq<ListHead>, b: seq<ListHead>): (s: seq<ListHead>)
    requires Comparable(cmp, a, b)
    ensures |s| == |a| + |b|
    decreases |a| + |b|
  {
    if a == [] then b
    else if b == [] then a
    else if cmp(a[0], b[0]) <= 0 then [a[0]] + Merged(cmp, a[1..], b)
    else [b[0]] + Merged(cmp, a, b[1..])
  }

  lemma {:induction false} MergedIs(cmp: (ListHead, ListHead) --> int, a: seq<ListHead>, b: seq<ListHead>)
    requires Comparable(cmp, a, b)
    ensures multiset(Merged(cmp, a, b)) == multiset(a) + multiset(b)
    ensures forall x | x in Merged(cmp, a, b) :: x in a || x in b
    ensures forall x | x in a || x in b :: x in Merged(cmp, a, b)
    decreases |a| + |b|
  {
    if a != [] && b != [] {
      assert a == [a[0]] + a[1..] && b == [b[0]] + b[1..];
      if cmp(a[0], b[0]) <= 0 { MergedIs(cmp, a[1..], b); } else { MergedIs(cmp, a, b[1..]); }
    }
  }

  lemma {:induction false} MergedDistinct(cmp: (ListHead, ListHead) --> int, a: seq<ListHead>, b: seq<ListHead>)
    requires Comparable(cmp, a, b) && Distinct(a) && Distinct(b) && forall x | x in a :: x !in b
    ensures Distinct(Merged(cmp, a, b))
    decreases |a| + |b|
  {
    if a != [] && b != [] {
      if cmp(a[0], b[0]) <= 0 {
        MergedDistinct(cmp, a[1..], b);
        MergedIs(cmp, a[1..], b);
        DistinctCons(a[0], Merged(cmp, a[1..], b));
      } else {
        MergedDistinct(cmp, a, b[1..]);
        MergedIs(cmp, a, b[1..]);
        DistinctCons(b[0], Merged(cmp, a, b[1..]));
      }
    }
  }

  lemma DistinctCons(x: ListHead, rest: seq<ListHead>)
    requires Distinct(rest) && x !in rest
    ensures Distinct([x] + rest)
  {}

  lemma HeadPrecedes(cmp: (ListHead, ListHead) --> int, pos: map<ListHead, nat>, x: ListHead, s: seq<ListHead>, rest: seq<ListHead>)
    requires Callable(cmp, pos) && x in pos && Known(pos, rest) && Sorted(cmp, pos, rest)
    requires forall y | y in rest :: Precedes(cmp, pos, x, y)
    requires s == [x] + rest
    ensures Known(pos, s) && Sorted(cmp, pos, s)
  {}

  lemma SortedTail(cmp: (ListHead, ListHead) --> int, pos: map<ListHead, nat>, s: seq<ListHead>)
    requires Callable(cmp, pos) && Known(pos, s) && Sorted(cmp, pos, s) && s != []
    ensures Known(pos, s[1..]) && Sorted(cmp, pos, s[1..])
    ensures forall y | y in s[1..] :: Precedes(cmp, pos, s[0], y)
  {}

  lemma ComparableSegments(cmp: (ListHead, ListHead) --> int, pos: map<ListHead, nat>, a: seq<ListHead>, b: seq<ListHead>)
    requires Callable(cmp, pos) && Known(pos, a) && Known(pos, b)
    requires forall x, y | x in a && y in b :: pos[x] < pos[y]
    ensures Comparable(cmp, a, b)
  {}

  /** Merging two sorted lists, all of the first from before the second, gives a sorted list. */
  lemma {:induction false} MergedSorted(cmp: (ListHead, ListHead) --> int, pos: map<ListHead, nat>, a: seq<ListHead>, b: seq<ListHead>)
    requires Callable(cmp, pos) && Known(pos, a) && Known(pos, b) && Transitive(cmp, pos)
    requires Sorted(cmp, pos, a) && Sorted(cmp, pos, b) && Comparable(cmp, a, b)
    requires forall x, y | x in a && y in b :: pos[x] < pos[y]
    ensures Known(pos, Merged(cmp, a, b)) && Sorted(cmp, pos, Merged(cmp, a, b))
    decreases |a| + |b|
  {
    if a != [] && b != [] {
      SortedTail(cmp, pos, a);
      SortedTail(cmp, pos, b);
      var x, y := a[0], b[0];
      if cmp(x, y) <= 0 {
        MergedSorted(cmp, pos, a[1..], b);
        MergedIs(cmp, a[1..], b);
        assert Precedes(cmp, pos, x, y);
        HeadPrecedes(cmp, pos, x, Merged(cmp, a, b), Merged(cmp, a[1..], b));
      } else {
        MergedSorted(cmp, pos, a, b[1..]);
        MergedIs(cmp, a, b[1..]);
        assert Precedes(cmp, pos, y, x);
        HeadPrecedes(cmp, pos, y, Merged(cmp, a, b), Merged(cmp, a, b[1..]));
      }
    }
  }

  // ---------- what is left when one list is used up ----------

  /** How many nodes of the other list the merge then appends without comparing them. */
  ghost function Leftover(cmp: (ListHead, ListHead) --> int, a: seq<ListHead>, b: seq<ListHead>): nat
    requires Comparable(cmp, a, b)
    decreases |a| + |b|
  {
    if a == [] then |b|
    else if b == [] then |a|
    else if cmp(a[0], b[0]) <= 0 then Leftover(cmp, a[1..], b)
    else Leftover(cmp, a, b[1..])
  }

  lemma {:induction false} LeftoverBound(cmp: (ListHead, ListHead) --> int, a: seq<ListHead>, b: seq<ListHead>)
    requires Comparable(cmp, a, b)
    ensures Leftover(cmp, a, b) <= |a| || Leftover(cmp, a, b) <= |b|
    decreases |a| + |b|
  {
    if a != [] && b != [] {
      if cmp(a[0], b[0]) <= 0 { LeftoverBound(cmp, a[1..], b); } else { LeftoverBound(cmp, a, b[1..]); }
    }
  }

  /** The nodes of b that no node of a sorts after. */
  ghost function AfterAll(cmp: (ListHead, ListHead) --> int, a: seq<ListHead>, b: seq<ListHead>): set<ListHead>
    requires Comparable(cmp, a, b)
  {
    set y | y in b && forall x | x in a :: cmp(x, y) <= 0
  }

  /** The nodes of a that sort after every node of b. */
  ghost function BeyondAll(cmp: (ListHead, ListHead) --> int, a: seq<ListHead>, b: seq<ListHead>): set<ListHead>
    requires Comparable(cmp, a, b)
  {
    set x | x in a && forall y | y in b :: cmp(x, y) > 0
  }

  /** Nodes of one list that sort behind the whole other list; only one of the two lists has such nodes. */
  ghost function Overhang(cmp: (ListHead, ListHead) --> int, a: seq<ListHead>, b: seq<ListHead>): nat
    requires Comparable(cmp, a, b)
  {
    |AfterAll(cmp, a, b)| + |BeyondAll(cmp, a, b)|
  }

  /** Only which nodes there are matters, not their order. */
  lemma OverhangOfSets(cmp: (ListHead, ListHead) --> int, a: seq<ListHead>, b: seq<ListHead>, a': seq<ListHead>, b': seq<ListHead>)
    requires Comparable(cmp, a, b) && (forall x :: x in a <==> x in a') && (forall x :: x in b <==> x in b')
    ensures Comparable(cmp, a', b') && Overhang(cmp, a', b') == Overhang(cmp, a, b)
  {
    assert AfterAll(cmp, a', b') == AfterAll(cmp, a, b);
    assert BeyondAll(cmp, a', b') == BeyondAll(cmp, a, b);
  }

  /** Two lists to merge, sorted by a comparison that makes sense, all of the first from before the second. */
  ghost predicate ReadyToMerge(cmp: (ListHead, ListHead) --> int, pos: map<ListHead, nat>, a: seq<ListHead>, b: seq<ListHead>) {
    && Callable(cmp, pos) && Known(pos, a) && Known(pos, b) && Transitive(cmp, pos) && Distinct(a) && Distinct(b)
    && Sorted(cmp, pos, a) && Sorted(cmp, pos, b) && Comparable(cmp, a, b) && forall x, y | x in a && y in b :: pos[x] < pos[y]
  }

  lemma {:induction false} SetOfDistinct(s: seq<ListHead>)
    requires Distinct(s)
    ensures |set x | x in s| == |s|
  {
    if s != [] {
      SetOfDistinct(s[1..]);
      assert (set x | x in s) == (set x | x in s[1..]) + {s[0]};
    }
  }

  lemma TakeFirst(cmp: (ListHead, ListHead) --> int, pos: map<ListHead, nat>, a: seq<ListHead>, b: seq<ListHead>)
    requires ReadyToMerge(cmp, pos, a, b) && a != [] && b != [] && cmp(a[0], b[0]) <= 0
    ensures ReadyToMerge(cmp, pos, a[1..], b) && forall y | y in b :: cmp(a[0], y) <= 0
    ensures |a| == 1 ==> AfterAll(cmp, a, b) == (set y | y in b) && BeyondAll(cmp, a, b) == {}
    ensures |a| > 1 ==> AfterAll(cmp, a, b) == AfterAll(cmp, a[1..], b) && BeyondAll(cmp, a, b) == BeyondAll(cmp, a[1..], b)
  {
    SortedTail(cmp, pos, a);
    SortedTail(cmp, pos, b);
    forall y | y in b ensures cmp(a[0], y) <= 0 {
      if y != b[0] {
        assert y in b[1..];
        assert Precedes(cmp, pos, a[0], b[0]) && Precedes(cmp, pos, b[0], y);
        assert Precedes(cmp, pos, a[0], y);
      }
    }
    assert a == [a[0]] + a[1..];
  }

  lemma TakeSecond(cmp: (ListHead, ListHead) --> int, pos: map<ListHead, nat>, a: seq<ListHead>, b: seq<ListHead>)
    requires ReadyToMerge(cmp, pos, a, b) && a != [] && b != [] && cmp(a[0], b[0]) > 0
    ensures ReadyToMerge(cmp, pos, a, b[1..]) && forall x | x in a :: cmp(x, b[0]) > 0
    ensures |b| == 1 ==> BeyondAll(cmp, a, b) == (set x | x in a) && AfterAll(cmp, a, b) == {}
    ensures |b| > 1 ==> AfterAll(cmp, a, b) == AfterAll(cmp, a, b[1..]) && BeyondAll(cmp, a, b) == BeyondAll(cmp, a, b[1..])
  {
    SortedTail(cmp, pos, a);
    SortedTail(cmp, pos, b);
    forall x | x in a ensures cmp(x, b[0]) > 0 {
      if x != a[0] {
        assert x in a[1..];
        assert Precedes(cmp, pos, b[0], a[0]) && Precedes(cmp, pos, a[0], x);
        assert Precedes(cmp, pos, b[0], x);
      }
    }
    assert b == [b[0]] + b[1..];
  }

  /** What is left are the nodes that sort behind the whole other list. */
  lemma {:induction false} LeftoverIsOverhang(cmp: (ListHead, ListHead) --> int, pos: map<ListHead, nat>, a: seq<ListHead>, b: seq<ListHead>)
    requires ReadyToMerge(cmp, pos, a, b) && a != [] && b != []
    ensures Leftover(cmp, a, b) == Overhang(cmp, a, b)
    decreases |a| + |b|
  {
    hide AfterAll, BeyondAll, Transitive, Precedes, Sorted, Callable;
    if cmp(a[0], b[0]) <= 0 {
      TakeFirst(cmp, pos, a, b);
      if |a| == 1 { SetOfDistinct(b); } else { LeftoverIsOverhang(cmp, pos, a[1..], b); }
    } else {
      TakeSecond(cmp, pos, a, b);
      if |b| == 1 { SetOfDistinct(a); } else { LeftoverIsOverhang(cmp, pos, a, b[1..]); }
    }
  }

  // ---------- segments of the input ----------

  /** s holds the nodes that stood at lo to hi - 1 in the input, sorted if cmp makes sense. */
  ghost predicate Segment(cmp: (ListHead, ListHead) --> int, pos: map<ListHead, nat>, input: seq<ListHead>,
                          s: seq<ListHead>, lo: nat, hi: nat)
    requires Callable(cmp, pos)
  {
    && lo <= hi <= |input| && multiset(s) == multiset(input[lo..hi]) && |s| == hi - lo
    && Distinct(s) && Known(pos, s) && (forall x | x in s :: lo <= pos[x] < hi)
    && (Transitive(cmp, pos) ==> Sorted(cmp, pos, s))
  }

  lemma SegmentOne(cmp: (ListHead, ListHead) --> int, pos: map<ListHead, nat>, input: seq<ListHead>, i: nat)
    requires Callable(cmp, pos) && Positions(pos, input) && i < |input|
    ensures Segment(cmp, pos, input, [input[i]], i, i + 1)
  {
    assert input[i..i + 1] == [input[i]];
  }

  lemma SegmentMerge(cmp: (ListHead, ListHead) --> int, pos: map<ListHead, nat>, input: seq<ListHead>,
                     a: seq<ListHead>, b: seq<ListHead>, lo: nat, mid: nat, hi: nat)
    requires Callable(cmp, pos) && Positions(pos, input)
    requires Segment(cmp, pos, input, a, lo, mid) && Segment(cmp, pos, input, b, mid, hi)
    ensures Comparable(cmp, a, b) && forall x | x in a :: x !in b
    ensures Segment(cmp, pos, input, Merged(cmp, a, b), lo, hi)
  {
    assert input[lo..mid] + input[mid..hi] == input[lo..hi];
    hide Transitive, Sorted, Precedes, Distinct, Merged, Callable, Comparable, Positions;
    ComparableSegments(cmp, pos, a, b);
    MergedIs(cmp, a, b);
    MergedDistinct(cmp, a, b);
    var s := Merged(cmp, a, b);
    assert forall x | x in s :: x in a || x in b;
    assert Known(pos, s) && forall x | x in s :: lo <= pos[x] < hi;
    if Transitive(cmp, pos) {
      MergedSorted(cmp, pos, a, b);
    }
    assert multiset(s) == multiset(input[lo..hi]);
  }

  /** The pending lists, newest first, are segments that together make up the first m nodes of the input. */
  ghost predicate Cover(cmp: (ListHead, ListHead) --> int, pos: map<ListHead, nat>, input: seq<ListHead>,
                        lists: seq<seq<ListHead>>, m: nat)
    requires Callable(cmp, pos)
  {
    if lists == [] then m == 0
    else
      && lists[0] != [] && |lists[0]| <= m
      && Segment(cmp, pos, input, lists[0], m - |lists[0]|, m)
      && Cover(cmp, pos, input, lists[1..], m - |lists[0]|)
  }

  lemma {:induction false} CoverBelow(cmp: (ListHead, ListHead) --> int, pos: map<ListHead, nat>, input: seq<ListHead>,
                                      lists: seq<seq<ListHead>>, m: nat, i: nat)
    requires Callable(cmp, pos) && Cover(cmp, pos, input, lists, m) && i < |lists|
    ensures lists[i] != [] && Distinct(lists[i]) && forall x | x in lists[i] :: x in pos && pos[x] < m
  {
    if i > 0 {
      CoverBelow(cmp, pos, input, lists[1..], m - |lists[0]|, i - 1);
    }
  }

  /** No node is in two pending lists. */
  lemma {:induction false} CoverApart(cmp: (ListHead, ListHead) --> int, pos: map<ListHead, nat>, input: seq<ListHead>,
                                      lists: seq<seq<ListHead>>, m: nat, i: nat, j: nat)
    requires Callable(cmp, pos) && Cover(cmp, pos, input, lists, m) && i < j < |lists|
    ensures forall x | x in lists[i] :: x !in lists[j]
  {
    if i > 0 {
      CoverApart(cmp, pos, input, lists[1..], m - |lists[0]|, i - 1, j - 1);
    } else {
      CoverBelow(cmp, pos, input, lists[1..], m - |lists[0]|, j - 1);
    }
  }

  /** Two neighbouring pending lists replaced by their merge; the older one is the first argument. */
  ghost function MergeAt(cmp: (ListHead, ListHead) --> int, lists: seq<seq<ListHead>>, i: nat): seq<seq<ListHead>>
    requires i + 1 < |lists| && Comparable(cmp, lists[i + 1], lists[i])
  {
    lists[..i] + [Merged(cmp, lists[i + 1], lists[i])] + lists[i + 2..]
  }

  lemma {:induction false} CoverMerge(cmp: (ListHead, ListHead) --> int, pos: map<ListHead, nat>, input: seq<ListHead>,
                                      lists: seq<seq<ListHead>>, m: nat, i: nat)
    requires Callable(cmp, pos) && Positions(pos, input) && Cover(cmp, pos, input, lists, m) && i + 1 < |lists|
    ensures Comparable(cmp, lists[i + 1], lists[i]) && forall x | x in lists[i] :: x !in lists[i + 1]
    ensures Cover(cmp, pos, input, MergeAt(cmp, lists, i), m)
  {
    hide Segment, Callable, Positions, Merged, Comparable;
    if i > 0 {
      var rest := lists[1..];
      CoverMerge(cmp, pos, input, rest, m - |lists[0]|, i - 1);
      assert rest[i] == lists[i + 1] && rest[i - 1] == lists[i] && rest[i - 1 + 2..] == lists[i + 2..];
      assert MergeAt(cmp, lists, i)[1..] == MergeAt(cmp, rest, i - 1);
    } else {
      var mid := m - |lists[0]|;
      assert lists[1..][0] == lists[1] && lists[1..][1..] == lists[2..];
      SegmentMerge(cmp, pos, input, lists[1], lists[0], mid - |lists[1]|, mid, m);
      assert MergeAt(cmp, lists, 0)[1..] == lists[2..];
    }
  }

  lemma CoverPush(cmp: (ListHead, ListHead) --> int, pos: map<ListHead, nat>, input: seq<ListHead>,
                  lists: seq<seq<ListHead>>, m: nat)
    requires Callable(cmp, pos) && Positions(pos, input) && Cover(cmp, pos, input, lists, m) && m < |input|
    ensures Cover(cmp, pos, input, [[input[m]]] + lists, m + 1)
  {
    SegmentOne(cmp, pos, input, m);
    assert ([[input[m]]] + lists)[1..] == lists;
  }

  // ---------- what the order means for an ordinary comparison ----------

  /** cmp(x, y) <= 0 is total and transitive, whatever positive and negative values are returned. */
  ghost predicate TotalPreorder(cmp: (ListHead, ListHead) -> int, nodes: set<ListHead>) {
    && (forall x, y | x in nodes && y in nodes :: cmp(x, y) <= 0 || cmp(y, x) <= 0)
    && (forall x, y, z | x in nodes && y in nodes && z in nodes && cmp(x, y) <= 0 && cmp(y, z) <= 0 :: cmp(x, z) <= 0)
  }

  /**
   A comparison that says <= 0 for a total preorder (three-way or 0/1) makes sense, and then sorted
   means ascending, with equal nodes in the order of the input.
   */
  lemma StableSorted(cmp: (ListHead, ListHead) -> int, pos: map<ListHead, nat>, s: seq<ListHead>)
    requires TotalPreorder(cmp, pos.Keys) && Known(pos, s) && Callable(cmp, pos)
    requires forall x, y | x in pos && y in pos && pos[x] == pos[y] :: x == y
    ensures Transitive(cmp, pos)
    ensures Sorted(cmp, pos, s) <==> forall i, j | 0 <= i < j < |s| ::
      cmp(s[i], s[j]) <= 0 && (cmp(s[j], s[i]) <= 0 ==> pos[s[i]] < pos[s[j]])
  {
    forall x, y | x in pos && y in pos ensures
      Precedes(cmp, pos, x, y) <==> cmp(x, y) <= 0 && (cmp(y, x) <= 0 ==> pos[x] < pos[y])
    {}
    hide Precedes;
    forall x, y, z | x in pos && y in pos && z in pos && Precedes(cmp, pos, x, y) && Precedes(cmp, pos, y, z)
      ensures Precedes(cmp, pos, x, z)
    {}
  }

  /** Permutation and order determine the result: there is one stable sort. */
  lemma {:induction false} SortedUnique(cmp: (ListHead, ListHead) --> int, pos: map<ListHead, nat>, s: seq<ListHead>, t: seq<ListHead>)
    requires Callable(cmp, pos) && Known(pos, s) && Known(pos, t)
    requires Sorted(cmp, pos, s) && Sorted(cmp, pos, t) && multiset(s) == multiset(t)
    ensures s == t
  {
    if s == [] {
      assert |multiset(t)| == 0;
    } else {
      assert |multiset(t)| == |s|;
      SameFirst(cmp, pos, s, t);
      hide Precedes, Callable, Sorted;
      TailMultiset(s);
      TailMultiset(t);
      SortedTail(cmp, pos, s);
      SortedTail(cmp, pos, t);
      SortedUnique(cmp, pos, s[1..], t[1..]);
    }
  }

  lemma TailMultiset(s: seq<ListHead>)
    requires s != []
    ensures multiset(s[1..]) == multiset(s) - multiset{s[0]}
  {
    assert s == [s[0]] + s[1..];
  }

  lemma SameFirst(cmp: (ListHead, ListHead) --> int, pos: map<ListHead, nat>, s: seq<ListHead>, t: seq<ListHead>)
    requires Callable(cmp, pos) && Known(pos, s) && Known(pos, t) && s != [] && t != []
    requires Sorted(cmp, pos, s) && Sorted(cmp, pos, t) && multiset(s) == multiset(t)
    ensures s[0] == t[0]
  {
    assert t[0] in multiset(s) && s[0] in multiset(t);
    if s[0] != t[0] {
      FirstPrecedes(cmp, pos, s, t[0]);
      FirstPrecedes(cmp, pos, t, s[0]);
    }
  }

  lemma FirstPrecedes(cmp: (ListHead, ListHead) --> int, pos: map<ListHead, nat>, s: seq<ListHead>, x: ListHead)
    requires Callable(cmp, pos) && Known(pos, s) && Sorted(cmp, pos, s) && x in s && x != s[0]
    ensures Precedes(cmp, pos, s[0], x)
  {}
}
