/**
 On which inputs util_list_sort (list_sort.c) calls the comparison on a node and itself: none below 384
 nodes, and some of every length from 384 on.
 */
module ListSortCalls {
  import opened ListSortSpec
  import opened MergeSchedule
  import opened ListSort

  /** A circular list of n new nodes. */
  method Ring(n: nat) returns (head: ListHead, ghost input: seq<ListHead>)
    ensures |input| == n && Circular(head, input) && Distinct([head] + input)
    ensures fresh(head) && forall x | x in input :: fresh(x)
  {
    head := new ListHead();
    var tail, k := head, 0;
    input := [];
    while k < n
      invariant k == |input| <= n && fresh(head) && fresh(tail) && (forall x | x in input :: fresh(x))
      invariant (k == 0 ==> head.next == head.prev == head) && Distinct([head] + input) && Linked([head] + input, k) && tail == ([head] + input)[k]
    {
      var x := new ListHead();
      ghost var r := [head] + input;
      NewNode(r, x);
      tail.next := x;
      x.prev := tail;
      input := input + [x];
      assert [head] + input == r + [x];
      tail := x;
      k := k + 1;
    }
    if n > 0 {
      Close(head, tail, [head] + input);
    }
  }

  lemma NewNode(r: seq<ListHead>, x: ListHead)
    requires Distinct(r) && x !in r
    ensures Distinct(r + [x])
  {}

  /** The comparison of a list that is to be reversed: whatever came first sorts after. */
  function Reverse(x: ListHead, y: ListHead): int {
    if x == y then 0 else 1
  }

  lemma {:induction false} AllLeft(s: seq<ListHead>, t: seq<ListHead>)
    requires s != [] && Comparable(Reverse, s, t) && forall x | x in s :: x !in t
    ensures Leftover(Reverse, s, t) == |s|
    decreases |t|
  {
    if t != [] {
      assert s[0] in s && t[0] in t;
      AllLeft(s, t[1..]);
    }
  }

  function PositionsOf(input: seq<ListHead>): map<ListHead, nat> {
    if input == [] then map[] else PositionsOf(input[..|input| - 1])[input[|input| - 1] := |input| - 1]
  }

  lemma {:induction false} PositionsAre(input: seq<ListHead>)
    requires Distinct(input)
    ensures Positions(PositionsOf(input), input)
  {
    if input != [] {
      var front := input[..|input| - 1];
      PositionsAre(front);
      var pos := PositionsOf(input);
      forall i | 0 <= i < |input| ensures input[i] in pos && pos[input[i]] == i {
        if i < |front| { assert front[i] == input[i]; }
      }
      forall x | x in pos ensures pos[x] < |input| && input[pos[x]] == x {
        if x != input[|input| - 1] { assert front[pos[x]] == x; }
      }
    }
  }

  /** The halves of an input have no node in common. */
  lemma HalvesApart(cmp: (ListHead, ListHead) --> int, pos: map<ListHead, nat>, input: seq<ListHead>, s: seq<ListHead>, t: seq<ListHead>)
    requires Callable(cmp, pos) && Halves(cmp, pos, input, s, t)
    ensures |s| == Split(|input|) && forall x | x in s :: x !in t
  {}

  /** For every length from 384 on there is a list on which the comparison is called on a node and itself. */
  method SelfCallHappens(n: nat) returns (head: ListHead, ghost out: seq<ListHead>, ghost selfCalls: nat)
    requires n >= 384
    ensures Circular(head, out) && |out| == n && selfCalls == Split(n) / 256 > 0
  {
    hide Circular, Positions, Halves, Distinct, Leftover, MaySelfCall, CutComparable, CutOverhang, Transitive, Split, PositionsOf, Sorted;
    ghost var input, s, t;
    head, input := Ring(n);
    ghost var pos := PositionsOf(input);
    RingInput(head, input);
    SplitAt384(n);
    out, s, t, selfCalls := UtilListSort(Reverse, head, pos, input);
    HalvesApart(Reverse, pos, input, s, t);
    AllLeft(s, t);
    assert |out| == |multiset(out)| == |multiset(input)|;
  }

  lemma RingInput(head: ListHead, input: seq<ListHead>)
    requires Distinct([head] + input)
    ensures head !in input && Positions(PositionsOf(input), input)
  {
    var r: seq<ListHead> := [head] + input;
    forall i | 0 <= i < |input| ensures input[i] != head { assert r[i + 1] == input[i] && r[0] == head; }
    forall i, j | 0 <= i < j < |input| ensures input[i] != input[j] { assert r[i + 1] == input[i] && r[j + 1] == input[j]; }
    PositionsAre(input);
  }
}
