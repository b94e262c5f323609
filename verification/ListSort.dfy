/**
 The bottom-up merge sort of a circular doubly linked list (list_sort.c).  The methods relink the
 nodes in place; sequences of nodes say what the links spell.
 */
module ListSort {
  import opened ListSortSpec
  import opened MergeSchedule
  import opened Powers

  ghost function Nodes(s: seq<ListHead>): set<ListHead> {
    set x | x in s
  }

  ghost function NextIn(s: seq<ListHead>, k: nat): ListHead? {
    if k + 1 < |s| then s[k + 1] else null
  }

  /** From element i on, s is a null-terminated singly linked list. */
  ghost predicate ListFrom(s: seq<ListHead>, i: nat)
    reads Nodes(s)`next
  {
    forall k | i <= k < |s| :: s[k].next == NextIn(s, k)
  }

  ghost predicate IsList(s: seq<ListHead>)
    reads Nodes(s)`next
  {
    ListFrom(s, 0)
  }

  /** The first n + 1 nodes of r are linked both ways. */
  ghost predicate Linked(r: seq<ListHead>, n: nat)
    requires n < |r|
    reads Nodes(r)`next, Nodes(r)`prev
  {
    forall k | 0 <= k < n :: r[k].next == r[k + 1] && r[k + 1].prev == r[k]
  }

  ghost predicate Circular(head: ListHead, s: seq<ListHead>)
    reads Nodes([head] + s)`next, Nodes([head] + s)`prev
  {
    var r := [head] + s;
    Linked(r, |s|) && r[|s|].next == head && head.prev == r[|s|]
  }

  // ---------- merge ----------

  /** How far a merge has come: i nodes of a and j nodes of b are out. */
  ghost predicate Progress(cmp: (ListHead, ListHead) --> int, a: seq<ListHead>, b: seq<ListHead>, i: nat, j: nat, out: seq<ListHead>) {
    && Comparable(cmp, a, b) && i <= |a| && j <= |b| && |out| == |a| + |b| && Distinct(out)
    && out[i + j..] == Merged(cmp, a[i..], b[j..])
  }

  lemma Started(cmp: (ListHead, ListHead) --> int, a: seq<ListHead>, b: seq<ListHead>)
    requires Comparable(cmp, a, b) && Distinct(a) && Distinct(b) && forall x | x in a :: x !in b
    ensures Progress(cmp, a, b, 0, 0, Merged(cmp, a, b))
  {
    MergedDistinct(cmp, a, b);
    assert a[0..] == a && b[0..] == b;
  }

  lemma Taken(cmp: (ListHead, ListHead) --> int, a: seq<ListHead>, b: seq<ListHead>, i: nat, j: nat, out: seq<ListHead>)
    requires Progress(cmp, a, b, i, j, out) && i < |a| && j < |b|
    ensures cmp.requires(a[i], b[j])
    ensures cmp(a[i], b[j]) <= 0 ==> out[i + j] == a[i] && Progress(cmp, a, b, i + 1, j, out)
    ensures cmp(a[i], b[j]) > 0 ==> out[i + j] == b[j] && Progress(cmp, a, b, i, j + 1, out)
  {
    var rest := out[i + j..];
    assert a[i..][1..] == a[i + 1..] && b[j..][1..] == b[j + 1..];
    assert a[i] in a && b[j] in b;
    assert rest[0] == out[i + j] && rest[1..] == out[i + j + 1..];
  }

  /** Nodes not yet taken are none of those already out. */
  lemma NotOut(cmp: (ListHead, ListHead) --> int, a: seq<ListHead>, b: seq<ListHead>, i: nat, j: nat, out: seq<ListHead>)
    requires Progress(cmp, a, b, i, j, out)
    ensures forall k, m | i <= k < |a| && 0 <= m < i + j :: a[k] != out[m]
    ensures forall k, m | j <= k < |b| && 0 <= m < i + j :: b[k] != out[m]
  {
    MergedIs(cmp, a[i..], b[j..]);
    forall k, m | i <= k < |a| && 0 <= m < i + j ensures a[k] != out[m] {
      assert a[k] == a[i..][k - i];
      assert a[k] in out[i + j..];
    }
    forall k, m | j <= k < |b| && 0 <= m < i + j ensures b[k] != out[m] {
      assert b[k] == b[j..][k - j];
      assert b[k] in out[i + j..];
    }
  }

  /** One list is used up: the rest of the other is the rest of the result. */
  lemma Remainder(cmp: (ListHead, ListHead) --> int, a: seq<ListHead>, b: seq<ListHead>, i: nat, j: nat, out: seq<ListHead>)
    requires Progress(cmp, a, b, i, j, out)
    ensures i == |a| ==> forall m | i + j <= m < |out| :: out[m] == b[m - (i + j) + j]
    ensures j == |b| ==> forall m | i + j <= m < |out| :: out[m] == a[m - (i + j) + i]
  {
    var rest := out[i + j..];
    assert i == |a| ==> rest == b[j..];
    assert j == |b| ==> rest == a[i..];
    assert forall m | i + j <= m < |out| :: out[m] == rest[m - i - j];
  }

  /** The first n nodes of out are linked; the last of them is the tail. */
  ghost predicate Chained(out: seq<ListHead>, n: nat, tail: ListHead?)
    reads Nodes(out)`next
  {
    && n <= |out| && (forall k | 0 <= k < n - 1 :: out[k].next == out[k + 1])
    && (if n == 0 then tail == null else tail == out[n - 1])
  }

  /** None of the nodes of s from i on is the node given. */
  ghost predicate Avoids(s: seq<ListHead>, i: nat, x: ListHead?) {
    forall k | i <= k < |s| :: s[k] != x
  }

  /** Appends node x, the next of the result: *tail = x.  What is left of the two lists stays. */
  method Append(tail: ListHead?, x: ListHead, was: ListHead, ghost out: seq<ListHead>, ghost n: nat,
                ghost s: seq<ListHead>, ghost i: nat, ghost t: seq<ListHead>, ghost j: nat) returns (head: ListHead)
    requires n < |out| && x == out[n] && Distinct(out) && Chained(out, n, tail) && (n > 0 ==> was == out[0])
    requires ListFrom(s, i) && ListFrom(t, j) && Avoids(s, i, tail) && Avoids(t, j, tail)
    modifies (if tail == null then {} else {tail})`next
    ensures Chained(out, n + 1, x) && head == out[0]
    ensures ListFrom(s, i) && ListFrom(t, j)
  {
    head := was;
    if tail == null {
      head := x;
    } else {
      tail.next := x;
    }
  }

  /** Appends what is left of one list. */
  method AppendRest(tail: ListHead, x: ListHead, ghost out: seq<ListHead>, ghost n: nat, ghost rest: seq<ListHead>, ghost i: nat)
    requires Chained(out, n, tail) && Distinct(out) && i < |rest| && |rest| - i == |out| - n
    requires forall m | n <= m < |out| :: out[m] == rest[m - n + i]
    requires x == rest[i] && ListFrom(rest, i)
    modifies {tail}`next
    ensures IsList(out)
  {
    ghost var k := n - 1;
    assert forall m | i <= m < |rest| :: rest[m] == out[m - i + n];
    tail.next := x;
    Spliced(out, n, rest, i);
  }

  /** The remainder of one list linked behind the nodes already out. */
  lemma Spliced(out: seq<ListHead>, n: nat, rest: seq<ListHead>, i: nat)
    requires 0 < n <= |out| && i < |rest| && |rest| - i == |out| - n
    requires forall m | n <= m < |out| :: out[m] == rest[m - n + i]
    requires forall k | 0 <= k < n - 1 :: out[k].next == out[k + 1]
    requires out[n - 1].next == rest[i] && ListFrom(rest, i)
    ensures IsList(out)
  {
    forall k | 0 <= k < |out| ensures out[k].next == NextIn(out, k) {
      if k >= n {
        assert rest[k - n + i].next == NextIn(rest, k - n + i);
      }
    }
  }

  /** merge: one null-terminated list from two; if equal, the node of the first list comes first. */
  method Merge(cmp: (ListHead, ListHead) --> int, first: ListHead, second: ListHead,
               ghost s: seq<ListHead>, ghost t: seq<ListHead>) returns (head: ListHead)
    requires s != [] && t != [] && first == s[0] && second == t[0] && IsList(s) && IsList(t)
    requires Distinct(s) && Distinct(t) && (forall x | x in s :: x !in t) && Comparable(cmp, s, t)
    modifies Nodes(s + t)`next
    ensures IsList(Merged(cmp, s, t)) && head == Merged(cmp, s, t)[0]
  {
    hide Merged, Progress, ListFrom, Chained, IsList, Distinct;
    ghost var out := Merged(cmp, s, t);
    Started(cmp, s, t);
    InMerged(cmp, s, t);
    Begin(s, t, out);
    MergedDistinct(cmp, s, t);
    var tail, b;
    ghost var n, rest, at;
    head, tail, b, n, rest, at := MergeNodes(cmp, first, second, s, t, out);
    ChainedTail(out, n, tail);
    AppendRest(tail, b, out, n, rest, at);
  }

  /** The loop of merge: until one list is used up; b is then the first node left of the other. */
  method MergeNodes(cmp: (ListHead, ListHead) --> int, first: ListHead, second: ListHead,
                    ghost s: seq<ListHead>, ghost t: seq<ListHead>, ghost out: seq<ListHead>)
    returns (head: ListHead, tail: ListHead, b: ListHead, ghost n: nat, ghost rest: seq<ListHead>, ghost at: nat)
    requires s != [] && t != [] && first == s[0] && second == t[0]
    requires ListFrom(s, 0) && ListFrom(t, 0) && Progress(cmp, s, t, 0, 0, out) && Chained(out, 0, null)
    requires |out| == |s| + |t| && forall m | 0 <= m < |out| :: out[m] in s + t
    modifies Nodes(s + t)`next
    ensures 0 < n < |out| && head == out[0] && Chained(out, n, tail)
    ensures at < |rest| && |rest| - at == |out| - n && b == rest[at] && ListFrom(rest, at)
    ensures forall m | n <= m < |out| :: out[m] == rest[m - n + at]
  {
    hide Merged, Progress, ListFrom, Chained, IsList, Distinct;
    var a := first;
    head, tail, b := first, first, second;
    var place: ListHead? := null;
    ghost var i, j := 0, 0;
    while true
      invariant i < |s| && j < |t| && a == s[i] && b == t[j] && Progress(cmp, s, t, i, j, out)
      invariant ListFrom(s, i) && ListFrom(t, j)
      invariant Chained(out, i + j, place) && (i + j > 0 ==> head == out[0])
      decreases |s| + |t| - i - j
    {
      Taken(cmp, s, t, i, j, out);
      Indices(cmp, s, t, i, j, out);
      NotOut(cmp, s, t, i, j, out);
      ChainedTail(out, i + j, place);
      if cmp(a, b) <= 0 {
        head := Append(place, a, head, out, i + j, s, i, t, j);
        FirstOf(s, i);
        tail, place := a, a;
        i := i + 1;
        if a.next == null {
          Remainder(cmp, s, t, i, j, out);
          n, rest, at := i + j, t, j;
          break;
        }
        a := a.next;
      } else {
        head := Append(place, b, head, out, i + j, s, i, t, j);
        FirstOf(t, j);
        tail, place := b, b;
        j := j + 1;
        if b.next == null {
          Remainder(cmp, s, t, i, j, out);
          b := a;
          n, rest, at := i + j, s, i;
          break;
        }
        b := b.next;
      }
    }
  }

  lemma Begin(s: seq<ListHead>, t: seq<ListHead>, out: seq<ListHead>)
    requires IsList(s) && IsList(t)
    ensures ListFrom(s, 0) && ListFrom(t, 0) && Chained(out, 0, null)
  {}

  lemma ChainedTail(out: seq<ListHead>, n: nat, tail: ListHead?)
    requires Chained(out, n, tail)
    ensures tail == if n == 0 then null else out[n - 1]
  {}

  lemma FirstOf(s: seq<ListHead>, i: nat)
    requires ListFrom(s, i) && i < |s|
    ensures s[i].next == NextIn(s, i) && ListFrom(s, i + 1)
  {}

  lemma InMerged(cmp: (ListHead, ListHead) --> int, s: seq<ListHead>, t: seq<ListHead>)
    requires Comparable(cmp, s, t)
    ensures forall k | 0 <= k < |s| + |t| :: Merged(cmp, s, t)[k] in s + t
  {
    MergedIs(cmp, s, t);
  }

  lemma Indices(cmp: (ListHead, ListHead) --> int, a: seq<ListHead>, b: seq<ListHead>, i: nat, j: nat, out: seq<ListHead>)
    requires Progress(cmp, a, b, i, j, out)
    ensures |out| == |a| + |b| && Distinct(out)
  {}

  // ---------- merge_final ----------

  /** Links node x behind the tail, both ways.  What is left of the two lists stays. */
  method LinkBoth(tail: ListHead, x: ListHead, ghost r: seq<ListHead>, ghost n: nat,
                  ghost s: seq<ListHead>, ghost i: nat, ghost t: seq<ListHead>, ghost j: nat)
    requires n + 1 < |r| && tail == r[n] && x == r[n + 1] && Distinct(r) && Linked(r, n)
    requires ListFrom(s, i) && ListFrom(t, j) && Avoids(s, i, tail) && Avoids(t, j, tail)
    modifies {tail}`next, {x}`prev
    ensures Linked(r, n + 1) && ListFrom(s, i) && ListFrom(t, j)
  {
    tail.next := x;
    x.prev := tail;
    forall k | 0 <= k < n + 1 ensures r[k].next == r[k + 1] && r[k + 1].prev == r[k] {}
  }

  /** Closes the ring: the last node and the head point to each other. */
  method Close(head: ListHead, tail: ListHead, ghost r: seq<ListHead>)
    requires |r| > 1 && Distinct(r) && Linked(r, |r| - 1) && head == r[0] && tail == r[|r| - 1]
    modifies {tail}`next, {head}`prev
    ensures Linked(r, |r| - 1) && r[|r| - 1].next == head && head.prev == r[|r| - 1]
  {
    ghost var n := |r| - 1;
    tail.next := head;
    head.prev := tail;
    forall k | 0 <= k < n ensures r[k].next == r[k + 1] && r[k + 1].prev == r[k] {}
  }

  /**
   merge_final: merges the last two lists behind head and restores both links of the circular list.
   Once in 256 nodes of the remainder cmp is called for its side effects, on a node and itself; selfCalls
   counts these calls.
   */
  method MergeFinal(cmp: (ListHead, ListHead) --> int, head: ListHead, first: ListHead, second: ListHead,
                    ghost s: seq<ListHead>, ghost t: seq<ListHead>) returns (ghost selfCalls: nat)
    requires s != [] && t != [] && first == s[0] && second == t[0] && IsList(s) && IsList(t) && head !in s && head !in t
    requires Distinct(s) && Distinct(t) && (forall x | x in s :: x !in t) && Comparable(cmp, s, t)
    requires Leftover(cmp, s, t) >= 256 ==> forall x | x in s + t :: cmp.requires(x, x)
    modifies Nodes([head] + s + t)
    ensures Circular(head, Merged(cmp, s, t)) && selfCalls == Leftover(cmp, s, t) / 256
  {
    hide Leftover, Comparable;
    hide Merged, Progress, ListFrom, IsList, Distinct, Linked, Circular;
    ghost var out := Merged(cmp, s, t);
    Started(cmp, s, t);
    InMerged(cmp, s, t);
    Begin(s, t, out);
    BeginRing(head, s, t, out);
    forall m | 0 <= m < |out| ensures Leftover(cmp, s, t) >= 256 ==> cmp.requires(out[m], out[m]) { assert out[m] in s + t; }
    ghost var n, rest, at;
    var tail, b;
    tail, b, n, rest, at := MergeLoop(cmp, head, first, second, s, t, out);
    selfCalls := FinishRing(cmp, head, tail, b, out, n, rest, at);
  }

  /** The loop of merge_final: until one list is used up; b is then the first node left of the other. */
  method MergeLoop(cmp: (ListHead, ListHead) --> int, head: ListHead, first: ListHead, second: ListHead,
                   ghost s: seq<ListHead>, ghost t: seq<ListHead>, ghost out: seq<ListHead>)
    returns (tail: ListHead, b: ListHead, ghost n: nat, ghost rest: seq<ListHead>, ghost at: nat)
    requires s != [] && t != [] && first == s[0] && second == t[0] && head !in s && head !in t
    requires ListFrom(s, 0) && ListFrom(t, 0) && Progress(cmp, s, t, 0, 0, out)
    requires Distinct([head] + out) && Linked([head] + out, 0)
    requires |out| == |s| + |t| && forall m | 0 <= m < |out| :: out[m] in s + t
    modifies Nodes([head] + s + t)
    ensures 0 < n < |out| && tail == ([head] + out)[n] && Linked([head] + out, n)
    ensures LeftIn(cmp, s, t, out, n, rest, at) && b == rest[at] && ListFrom(rest, at)
  {
    hide Going, LeftIn, Comparable, Leftover, Progress, Merged, ListFrom, IsList, Distinct, Linked, Avoids;
    ToGoStart(cmp, s, t, out);
    var a := first;
    tail, b := head, second;
    ghost var i, j, r := 0, 0, [head] + out;
    while true
      invariant i < |s| && j < |t| && a == s[i] && b == t[j] && Going(cmp, s, t, i, j, out)
      invariant ListFrom(s, i) && ListFrom(t, j)
      invariant Linked(r, i + j) && tail == r[i + j]
      decreases |s| + |t| - i - j
    {
      GoOn(cmp, head, s, t, i, j, out);
      if cmp(a, b) <= 0 {
        LinkBoth(tail, a, r, i + j, s, i, t, j);
        FirstOf(s, i);
        tail := a;
        i := i + 1;
        if a.next == null {
          LeftInIs(cmp, s, t, i, j, out);
          n, rest, at := i + j, t, j;
          break;
        }
        a := a.next;
      } else {
        LinkBoth(tail, b, r, i + j, s, i, t, j);
        FirstOf(t, j);
        tail := b;
        j := j + 1;
        if b.next == null {
          LeftInIs(cmp, s, t, i, j, out);
          b := a;
          n, rest, at := i + j, s, i;
          break;
        }
        b := b.next;
      }
    }
  }

  /** How far the last merge has come; taking nodes does not change how many will be left. */
  ghost predicate Going(cmp: (ListHead, ListHead) --> int, s: seq<ListHead>, t: seq<ListHead>, i: nat, j: nat, out: seq<ListHead>) {
    && Progress(cmp, s, t, i, j, out) && Comparable(cmp, s[i..], t[j..])
    && Leftover(cmp, s, t) == Leftover(cmp, s[i..], t[j..])
  }

  lemma ToGoStart(cmp: (ListHead, ListHead) --> int, s: seq<ListHead>, t: seq<ListHead>, out: seq<ListHead>)
    requires Progress(cmp, s, t, 0, 0, out)
    ensures Going(cmp, s, t, 0, 0, out)
  {
    assert s[0..] == s && t[0..] == t;
  }

  lemma GoOn(cmp: (ListHead, ListHead) --> int, head: ListHead, s: seq<ListHead>, t: seq<ListHead>, i: nat, j: nat, out: seq<ListHead>)
    requires Going(cmp, s, t, i, j, out) && head !in s && head !in t && i < |s| && j < |t|
    ensures |out| == |s| + |t| && ([head] + out)[i + j + 1] == out[i + j] && cmp.requires(s[i], t[j])
    ensures Avoids(s, i, ([head] + out)[i + j]) && Avoids(t, j, ([head] + out)[i + j])
    ensures cmp(s[i], t[j]) <= 0 ==> out[i + j] == s[i] && Going(cmp, s, t, i + 1, j, out)
    ensures cmp(s[i], t[j]) > 0 ==> out[i + j] == t[j] && Going(cmp, s, t, i, j + 1, out)
  {
    Taken(cmp, s, t, i, j, out);
    NotInRing(cmp, head, s, t, i, j, out);
    hide Avoids;
    assert s[i..][1..] == s[i + 1..] && t[j..][1..] == t[j + 1..];
    assert s[i] in s && t[j] in t;
  }

  /** The nodes of rest from the given place on are what is left, and belong at n. */
  ghost predicate LeftIn(cmp: (ListHead, ListHead) --> int, s: seq<ListHead>, t: seq<ListHead>, out: seq<ListHead>,
                         n: nat, rest: seq<ListHead>, at: nat)
  {
    && n < |out| && at < |rest| && |rest| - at == |out| - n && (forall m | n <= m < |out| :: out[m] == rest[m - n + at])
    && Comparable(cmp, s, t) && |out| - n == Leftover(cmp, s, t)
  }

  lemma LeftInIs(cmp: (ListHead, ListHead) --> int, s: seq<ListHead>, t: seq<ListHead>, i: nat, j: nat, out: seq<ListHead>)
    requires Going(cmp, s, t, i, j, out)
    ensures i == |s| && j < |t| ==> LeftIn(cmp, s, t, out, i + j, t, j)
    ensures j == |t| && i < |s| ==> LeftIn(cmp, s, t, out, i + j, s, i)
  {
    if i == |s| || j == |t| { Remainder(cmp, s, t, i, j, out); }
  }

  lemma BeginRing(head: ListHead, s: seq<ListHead>, t: seq<ListHead>, out: seq<ListHead>)
    requires Distinct(out) && (forall k | 0 <= k < |out| :: out[k] in s + t) && head !in s && head !in t
    ensures Distinct([head] + out) && Linked([head] + out, 0)
  {}

  lemma NotInRing(cmp: (ListHead, ListHead) --> int, head: ListHead, s: seq<ListHead>, t: seq<ListHead>, i: nat, j: nat, out: seq<ListHead>)
    requires Progress(cmp, s, t, i, j, out) && head !in s && head !in t && i < |s| && j < |t|
    ensures |out| == |s| + |t| && ([head] + out)[i + j + 1] == out[i + j]
    ensures Avoids(s, i, ([head] + out)[i + j]) && Avoids(t, j, ([head] + out)[i + j])
  {
    NotOut(cmp, s, t, i, j, out);
    forall k | i <= k < |s| ensures s[k] != ([head] + out)[i + j] { assert s[k] in s; }
    forall k | j <= k < |t| ensures t[k] != ([head] + out)[i + j] { assert t[k] in t; }
  }

  method FinishRing(cmp: (ListHead, ListHead) --> int, head: ListHead, tail: ListHead, b: ListHead,
                    ghost out: seq<ListHead>, ghost n: nat, ghost rest: seq<ListHead>, ghost at: nat) returns (ghost selfCalls: nat)
    requires 0 < n < |out| && Distinct([head] + out) && tail == ([head] + out)[n] && Linked([head] + out, n)
    requires at < |rest| && |rest| - at == |out| - n && b == rest[at] && ListFrom(rest, at)
    requires forall m | n <= m < |out| :: out[m] == rest[m - n + at]
    requires |out| - n >= 256 ==> forall m | 0 <= m < |out| :: cmp.requires(out[m], out[m])
    modifies Nodes([head] + out)
    ensures Circular(head, out) && selfCalls == (|out| - n) / 256
  {
    hide Distinct, ListFrom;
    ghost var r := [head] + out;
    forall m | n < m < |r| ensures r[m] == rest[m - n - 1 + at] && (|out| - n >= 256 ==> cmp.requires(r[m], r[m])) {
      assert r[m] == out[m - 1];
    }
    selfCalls := LinkRemainder(cmp, head, tail, b, r, n, rest, at);
  }

  /** Links the remainder of a list behind the tail, and closes the circle. */
  method LinkRemainder(cmp: (ListHead, ListHead) --> int, head: ListHead, last: ListHead, first: ListHead,
                       ghost r: seq<ListHead>, ghost n: nat, ghost rest: seq<ListHead>, ghost at: nat) returns (ghost selfCalls: nat)
    requires 0 < n && n + 1 < |r| && Distinct(r) && r[0] == head && last == r[n] && Linked(r, n)
    requires at < |rest| && |rest| - at == |r| - n - 1 && first == rest[at] && ListFrom(rest, at)
    requires forall m | n < m < |r| :: r[m] == rest[m - n - 1 + at] && (|r| - 1 - n >= 256 ==> cmp.requires(r[m], r[m]))
    modifies Nodes(r)
    ensures Linked(r, |r| - 1) && r[|r| - 1].next == head && head.prev == r[|r| - 1]
    ensures selfCalls == (|r| - 1 - n) / 256
  {
    hide Distinct, Linked, ListFrom;
    var tail, b := last, first;
    var count := 0;
    ghost var k := n;
    selfCalls := 0;
    RemainderInRing(r, n, rest, at);
    SetNext(tail, b, r, n);
    while true
      invariant n <= k < |r| - 1 && tail == r[k] && b == r[k + 1] && tail.next == b
      invariant Linked(r, k) && ListFrom(r, k + 1)
      invariant count == (k - n) % 256 && selfCalls == (k - n) / 256
      decreases |r| - k
    {
      Wraps(k - n);
      count := (count + 1) % 256;
      if count == 0 {
        var _ := cmp(b, b);
        selfCalls := selfCalls + 1;
      }
      SetPrev(tail, b, r, k);
      FirstOf(r, k + 1);
      tail := b;
      k := k + 1;
      if b.next == null { break; }
      b := b.next;
    }
    Close(head, tail, r);
  }

  /** One step of a counter of eight bits. */
  lemma Wraps(n: nat)
    ensures (n % 256 + 1) % 256 == (n + 1) % 256
    ensures (n + 1) / 256 == n / 256 + (if (n + 1) % 256 == 0 then 1 else 0)
    ensures (n + 1) % 256 == 0 ==> n + 1 >= 256
  {}

  method SetNext(tail: ListHead, b: ListHead, ghost r: seq<ListHead>, ghost n: nat)
    requires n + 1 < |r| && Distinct(r) && tail == r[n] && Linked(r, n) && ListFrom(r, n + 1)
    modifies {tail}`next
    ensures Linked(r, n) && ListFrom(r, n + 1) && tail.next == b
  {
    tail.next := b;
  }

  method SetPrev(tail: ListHead, b: ListHead, ghost r: seq<ListHead>, ghost k: nat)
    requires k + 1 < |r| && Distinct(r) && tail == r[k] && b == r[k + 1] && tail.next == b && Linked(r, k)
    modifies {b}`prev
    ensures Linked(r, k + 1)
  {
    b.prev := tail;
  }

  lemma RemainderInRing(r: seq<ListHead>, n: nat, rest: seq<ListHead>, at: nat)
    requires at < |rest| && n + 1 < |r| && |rest| - at == |r| - n - 1 && ListFrom(rest, at)
    requires forall m | n < m < |r| :: r[m] == rest[m - n - 1 + at]
    ensures ListFrom(r, n + 1)
  {
    forall k | n + 1 <= k < |r| ensures r[k].next == NextIn(r, k) {
      assert rest[k - n - 1 + at].next == NextIn(rest, k - n - 1 + at);
    }
  }

  // ---------- the pending lists ----------

  ghost function FirstIn(lists: seq<seq<ListHead>>, i: nat): ListHead? {
    if i < |lists| && lists[i] != [] then lists[i][0] else null
  }

  ghost function Firsts(lists: seq<seq<ListHead>>): set<ListHead> {
    set i | 0 <= i < |lists| && lists[i] != [] :: lists[i][0]
  }

  ghost function AllNodes(lists: seq<seq<ListHead>>): set<ListHead> {
    set i, k | 0 <= i < |lists| && 0 <= k < |lists[i]| :: lists[i][k]
  }

  /** pending is a prev-linked list of the first nodes of the sublists. */
  ghost predicate Chain(pending: ListHead?, lists: seq<seq<ListHead>>)
    reads Firsts(lists)`prev
  {
    && pending == FirstIn(lists, 0)
    && (forall i | 0 <= i < |lists| :: lists[i] != [])
    && (forall i | 0 <= i < |lists| :: lists[i][0].prev == FirstIn(lists, i + 1))
  }

  /** Each sublist is a null-terminated list. */
  ghost predicate Sublists(lists: seq<seq<ListHead>>)
    reads AllNodes(lists)`next
  {
    forall i | 0 <= i < |lists| :: IsList(lists[i])
  }

  function Lengths(lists: seq<seq<ListHead>>): (r: seq<nat>)
    ensures |r| == |lists| && forall i | 0 <= i < |r| :: r[i] == |lists[i]|
  {
    seq(|lists|, i requires 0 <= i < |lists| => |lists[i]|)
  }

  ghost predicate Disjoint(a: seq<ListHead>, b: seq<ListHead>) {
    forall x | x in a :: x !in b
  }

  /** No node is in two of the lists, or twice in one. */
  ghost predicate Separate(lists: seq<seq<ListHead>>) {
    && (forall i | 0 <= i < |lists| :: lists[i] != [] && Distinct(lists[i]))
    && (forall i, j | 0 <= i < |lists| && 0 <= j < |lists| && i != j :: Disjoint(lists[i], lists[j]))
  }

  lemma CoverSeparate(cmp: (ListHead, ListHead) --> int, pos: map<ListHead, nat>, input: seq<ListHead>,
                      lists: seq<seq<ListHead>>, m: nat)
    requires Callable(cmp, pos) && Positions(pos, input) && Cover(cmp, pos, input, lists, m) && m <= |input|
    ensures Separate(lists) && forall k | m <= k < |input| :: input[k] !in AllNodes(lists)
  {
    forall i | 0 <= i < |lists| ensures lists[i] != [] && Distinct(lists[i]) && forall x | x in lists[i] :: x in pos && pos[x] < m {
      CoverBelow(cmp, pos, input, lists, m, i);
    }
    forall i, j | 0 <= i < |lists| && 0 <= j < |lists| && i != j ensures Disjoint(lists[i], lists[j]) {
      if i < j {
        CoverApart(cmp, pos, input, lists, m, i, j);
      } else {
        CoverApart(cmp, pos, input, lists, m, j, i);
      }
    }
  }

  // ---------- which lists to merge ----------

  /** The place tail in the chain leads to the j-th list. */
  lemma ChainTail(pending: ListHead?, lists: seq<seq<ListHead>>, j: nat, tail: ListHead?)
    requires Chain(pending, lists) && j < |lists| && tail == (if j == 0 then null else FirstIn(lists, j - 1))
    ensures (if tail == null then pending else tail.prev) == FirstIn(lists, j) && lists[j] != [] && FirstIn(lists, j) != null
  {
    assert j > 0 ==> lists[j - 1][0].prev == FirstIn(lists, j);
  }

  /**
   Finds the least significant clear bit of count, and the place tail in the chain that goes with it:
   the prev field of the node returned, or pending itself if null.  If there are set bits above, the
   two lists at that place exist and have equal size.
   */
  method FindMerge(count: nat, pending: ListHead?, ghost lists: seq<seq<ListHead>>)
    returns (bits: nat, tail: ListHead?, ghost j: nat)
    requires Chain(pending, lists) && Lengths(lists) == PendingSizes(count)
    ensures j <= |lists| && tail == (if j == 0 then null else FirstIn(lists, j - 1))
    ensures bits % 2 == 0 && count == bits * Pow2(j) + Pow2(j) - 1
    ensures forall i | 0 <= i < j :: |lists[i]| == Pow2(i)
    ensures bits == 0 ==> j == |lists| && Sizes(count + 1, false, 0) == Lengths(lists)
    ensures bits != 0 ==> j + 1 < |lists| && |lists[j]| == |lists[j + 1]| == Pow2(j)
    ensures bits != 0 ==> Sizes(count + 1, false, 0) == Lengths(lists)[..j] + [2 * Pow2(j)] + Lengths(lists)[j + 2..]
  {
    hide PlaceAt, Chain, Sizes, Pow2, FirstIn, Lengths;
    hide LowBits;
    bits, tail := count, null;
    j := 0;
    ghost var sizes := Lengths(lists);
    PlaceStart(sizes, count);
    LowBitsStart(count);
    PlaceNext(sizes, count, bits, 0);
    while bits % 2 == 1
      invariant PlaceAt(sizes, count, bits, j) && j <= |lists| && (bits != 0 ==> j < |lists|)
      invariant Chain(pending, lists) && LowBits(count, bits, j)
      invariant tail == (if j == 0 then null else FirstIn(lists, j - 1)) && (j > 0 ==> tail != null)
      decreases bits
    {
      PlaceOdd(sizes, count, bits, j);
      LowBitsOdd(count, bits, j);
      ChainTail(pending, lists, j, tail);
      tail := if tail == null then pending else tail.prev;
      bits := bits / 2;
      j := j + 1;
      PlaceNext(sizes, count, bits, j);
    }
    PlaceEnd(sizes, count, bits, j);
    LowBitsEnd(count, bits, j);
  }

  // ---------- the indicated merge ----------

  ghost predicate Mergeable(cmp: (ListHead, ListHead) --> int, lists: seq<seq<ListHead>>, j: nat) {
    j + 1 < |lists| && Separate(lists) && Comparable(cmp, lists[j + 1], lists[j])
  }

  /** Merges two neighbouring pending lists; the links between lists are not touched. */
  method MergeTwo(cmp: (ListHead, ListHead) --> int, b: ListHead, a: ListHead, ghost lists: seq<seq<ListHead>>, ghost j: nat)
    returns (head: ListHead)
    requires Mergeable(cmp, lists, j) && Sublists(lists) && a == lists[j][0] && b == lists[j + 1][0]
    modifies Nodes(lists[j + 1] + lists[j])`next
    ensures Sublists(MergeAt(cmp, lists, j)) && head == MergeAt(cmp, lists, j)[j][0]
  {
    hide Merged, Comparable, IsList, Distinct;
    ghost var s, t := lists[j + 1], lists[j];
    assert Disjoint(s, t);
    head := Merge(cmp, b, a, s, t);
    forall i | 0 <= i < |lists| && i != j && i != j + 1 ensures IsList(lists[i]) {
      assert Disjoint(lists[i], s) && Disjoint(lists[i], t);
      assert Nodes(lists[i]) !! Nodes(s + t);
      assert old(IsList(lists[i]));
    }
  }

  lemma MergeAtFirsts(cmp: (ListHead, ListHead) --> int, lists: seq<seq<ListHead>>, j: nat)
    requires Mergeable(cmp, lists, j)
    ensures var lists' := MergeAt(cmp, lists, j);
      && |lists'| == |lists| - 1 && lists'[j] == Merged(cmp, lists[j + 1], lists[j])
      && (forall i | 0 <= i < j :: lists'[i] == lists[i]) && (forall i | j < i < |lists'| :: lists'[i] == lists[i + 1])
      && Lengths(lists') == Lengths(lists)[..j] + [|lists[j]| + |lists[j + 1]|] + Lengths(lists)[j + 2..]
  {}

  /** Puts the merged list in place of its two inputs. */
  method Install(cmp: (ListHead, ListHead) --> int, pending: ListHead?, tail: ListHead?, b: ListHead, a: ListHead,
                 ghost lists: seq<seq<ListHead>>, ghost j: nat) returns (pending': ListHead?)
    requires Mergeable(cmp, lists, j) && Chain(pending, lists)
    requires tail == (if j == 0 then null else lists[j - 1][0]) && b == lists[j + 1][0]
    requires a == MergeAt(cmp, lists, j)[j][0] && Sublists(MergeAt(cmp, lists, j))
    modifies {a}`prev, (if tail == null then {} else {tail})`prev
    ensures Chain(pending', MergeAt(cmp, lists, j)) && Sublists(MergeAt(cmp, lists, j))
  {
    hide Merged, Comparable, Distinct, MergeAt, Sublists, Lengths, Disjoint;
    ghost var lists': seq<seq<ListHead>> := MergeAt(cmp, lists, j);
    MergeAtFirsts(cmp, lists, j);
    FirstOfMerge(cmp, lists, j);
    assert b.prev == FirstIn(lists, j + 2);
    SetPrevOf(a, b.prev, lists');
    if tail == null {
      pending' := a;
    } else {
      SetPrevOf(tail, a, lists');
      pending' := pending;
    }
    MergedChain(lists, lists', j);
  }

  /** The links of the lists around the merged one are those of the new chain. */
  lemma MergedChain(lists: seq<seq<ListHead>>, lists': seq<seq<ListHead>>, j: nat)
    requires j + 1 < |lists| && |lists'| == |lists| - 1
    requires (forall i | 0 <= i < |lists| :: lists[i] != []) && forall i | 0 <= i < |lists'| :: lists'[i] != []
    requires (forall i | 0 <= i < j :: lists'[i] == lists[i]) && forall i | j < i < |lists'| :: lists'[i] == lists[i + 1]
    requires lists'[j][0].prev == FirstIn(lists, j + 2) && (j > 0 ==> lists[j - 1][0].prev == lists'[j][0])
    requires forall i | 0 <= i < |lists| && i != j && i != j + 1 && i + 1 != j :: lists[i][0].prev == FirstIn(lists, i + 1)
    ensures forall i | 0 <= i < |lists'| :: lists'[i][0].prev == FirstIn(lists', i + 1)
  {
    forall i | 0 <= i < |lists'| ensures lists'[i][0].prev == FirstIn(lists', i + 1) {
      if i < j - 1 { assert lists[i][0].prev == FirstIn(lists, i + 1); }
      if i > j { assert lists[i + 1][0].prev == FirstIn(lists, i + 2); }
    }
  }

  method SetPrevOf(x: ListHead, prev: ListHead?, ghost lists: seq<seq<ListHead>>)
    requires Sublists(lists)
    modifies {x}`prev
    ensures x.prev == prev && Sublists(lists)
  {
    hide IsList;
    x.prev := prev;
    forall i | 0 <= i < |lists| ensures IsList(lists[i]) { assert old(IsList(lists[i])); }
  }

  /** The first node of the merged list is the first of none of the others. */
  lemma FirstOfMerge(cmp: (ListHead, ListHead) --> int, lists: seq<seq<ListHead>>, j: nat)
    requires Mergeable(cmp, lists, j)
    ensures Merged(cmp, lists[j + 1], lists[j]) != []
    ensures forall i | 0 <= i < |lists| && i != j && i != j + 1 :: lists[i][0] != Merged(cmp, lists[j + 1], lists[j])[0]
    ensures forall i, k | 0 <= i < |lists| && 0 <= k < |lists| && i != k :: lists[i][0] != lists[k][0]
  {
    MergedIs(cmp, lists[j + 1], lists[j]);
    forall i, k | 0 <= i < |lists| && 0 <= k < |lists| && i != k ensures lists[i][0] !in lists[k] {
      assert Disjoint(lists[i], lists[k]);
    }
  }

  // ---------- one round ----------

  /** What holds before each round: the pending lists cover the first count nodes; the rest is still a list. */
  ghost predicate Round(cmp: (ListHead, ListHead) --> int, pos: map<ListHead, nat>, input: seq<ListHead>,
                        lists: seq<seq<ListHead>>, count: nat)
  {
    && Callable(cmp, pos) && Positions(pos, input) && count <= |input|
    && Cover(cmp, pos, input, lists, count) && Lengths(lists) == PendingSizes(count)
  }

  /** The lists after the merge that count calls for. */
  ghost predicate Merging(cmp: (ListHead, ListHead) --> int, pos: map<ListHead, nat>, input: seq<ListHead>,
                          lists: seq<seq<ListHead>>, count: nat)
  {
    && Callable(cmp, pos) && Positions(pos, input) && count <= |input|
    && Cover(cmp, pos, input, lists, count) && Lengths(lists) == Sizes(count + 1, false, 0)
  }

  lemma RoundMerge(cmp: (ListHead, ListHead) --> int, pos: map<ListHead, nat>, input: seq<ListHead>,
                   lists: seq<seq<ListHead>>, count: nat, j: nat)
    requires Round(cmp, pos, input, lists, count) && j + 1 < |lists| && |lists[j]| == |lists[j + 1]| == Pow2(j)
    requires Sizes(count + 1, false, 0) == Lengths(lists)[..j] + [2 * Pow2(j)] + Lengths(lists)[j + 2..]
    ensures Mergeable(cmp, lists, j) && Merging(cmp, pos, input, MergeAt(cmp, lists, j), count)
  {
    hide Cover, Separate, MergeAt, Sizes, Positions, Callable, Comparable;
    CoverMerge(cmp, pos, input, lists, count, j);
    CoverSeparate(cmp, pos, input, lists, count);
    MergeAtFirsts(cmp, lists, j);
  }

  lemma RoundSeparate(cmp: (ListHead, ListHead) --> int, pos: map<ListHead, nat>, input: seq<ListHead>,
                      lists: seq<seq<ListHead>>, count: nat)
    requires Round(cmp, pos, input, lists, count) || Merging(cmp, pos, input, lists, count)
    ensures Separate(lists) && forall k | count <= k < |input| :: input[k] !in AllNodes(lists)
  {
    CoverSeparate(cmp, pos, input, lists, count);
  }

  /** The merge of a round, if one is due. */
  method MergePending(cmp: (ListHead, ListHead) --> int, count: nat, pending: ListHead?,
                      ghost pos: map<ListHead, nat>, ghost input: seq<ListHead>, ghost lists: seq<seq<ListHead>>)
    returns (pending': ListHead?, ghost lists': seq<seq<ListHead>>)
    requires Round(cmp, pos, input, lists, count) && Chain(pending, lists) && Sublists(lists) && ListFrom(input, count)
    modifies AllNodes(lists)
    ensures Merging(cmp, pos, input, lists', count) && Chain(pending', lists') && Sublists(lists') && ListFrom(input, count)
  {
    hide Round, Merging, Sublists, MergeAt, Sizes, Mergeable, Separate, Cover;
    RoundSeparate(cmp, pos, input, lists, count);
    assert Lengths(lists) == PendingSizes(count) by { RoundLengths(cmp, pos, input, lists, count); }
    var bits, tail;
    ghost var j;
    bits, tail, j := FindMerge(count, pending, lists);
    assert Sublists(lists) && Chain(pending, lists) && ListFrom(input, count);
    if bits != 0 {
      RoundMerge(cmp, pos, input, lists, count, j);
      MergeableIs(cmp, lists, j);
      lists' := MergeAt(cmp, lists, j);
      pending' := MergeHere(cmp, pending, tail, lists, j);
    } else {
      pending', lists' := pending, lists;
      NoMerge(cmp, pos, input, lists, count);
    }
  }

  lemma RoundLengths(cmp: (ListHead, ListHead) --> int, pos: map<ListHead, nat>, input: seq<ListHead>,
                     lists: seq<seq<ListHead>>, count: nat)
    requires Round(cmp, pos, input, lists, count)
    ensures Lengths(lists) == PendingSizes(count)
  {}

  lemma NoMerge(cmp: (ListHead, ListHead) --> int, pos: map<ListHead, nat>, input: seq<ListHead>,
                lists: seq<seq<ListHead>>, count: nat)
    requires Round(cmp, pos, input, lists, count) && Sizes(count + 1, false, 0) == Lengths(lists)
    ensures Merging(cmp, pos, input, lists, count)
  {}

  /** Does the indicated merge and installs the result. */
  method MergeHere(cmp: (ListHead, ListHead) --> int, pending: ListHead?, tail: ListHead?,
                   ghost lists: seq<seq<ListHead>>, ghost j: nat) returns (pending': ListHead?)
    requires Mergeable(cmp, lists, j) && Chain(pending, lists) && Sublists(lists)
    requires tail == (if j == 0 then null else FirstIn(lists, j - 1))
    modifies AllNodes(lists)
    ensures Chain(pending', MergeAt(cmp, lists, j)) && Sublists(MergeAt(cmp, lists, j))
  {
    hide Mergeable, MergeAt, Sublists;
    MergeableIs(cmp, lists, j);
    var a := if tail == null then pending else tail.prev;
    assert j > 0 ==> lists[j - 1][0].prev == FirstIn(lists, j);
    var b := a.prev;
    ghost var lists' := MergeAt(cmp, lists, j);
    a := MergeTwo(cmp, b, a, lists, j);
    assert Chain(pending, lists);
    pending' := Install(cmp, pending, tail, b, a, lists, j);
  }

  lemma MergeableIs(cmp: (ListHead, ListHead) --> int, lists: seq<seq<ListHead>>, j: nat)
    requires Mergeable(cmp, lists, j)
    ensures j + 1 < |lists| && Comparable(cmp, lists[j + 1], lists[j])
    ensures |MergeAt(cmp, lists, j)| > j && MergeAt(cmp, lists, j)[j] != []
    ensures MergeAt(cmp, lists, j)[j][0] in AllNodes(lists)
  {
    MergedIs(cmp, lists[j + 1], lists[j]);
    var x := Merged(cmp, lists[j + 1], lists[j])[0];
    assert x in lists[j + 1] || x in lists[j];
  }

  /** Moves one element from the input list to the pending lists. */
  method Push(cmp: (ListHead, ListHead) --> int, count: nat, pending: ListHead?, list: ListHead,
              ghost pos: map<ListHead, nat>, ghost input: seq<ListHead>, ghost lists: seq<seq<ListHead>>)
    returns (pending': ListHead, list': ListHead?)
    requires Merging(cmp, pos, input, lists, count) && Chain(pending, lists) && Sublists(lists) && ListFrom(input, count)
    requires count < |input| && list == input[count]
    modifies {list}
    ensures Round(cmp, pos, input, [[list]] + lists, count + 1)
    ensures Chain(pending', [[list]] + lists) && Sublists([[list]] + lists) && ListFrom(input, count + 1)
    ensures list' == if count + 1 < |input| then input[count + 1] else null
  {
    hide Sizes, Cover;
    RoundSeparate(cmp, pos, input, lists, count);
    PushRound(cmp, pos, input, lists, count);
    NewNode(list, lists);
    hide Round, Merging, Separate, Sublists, Chain, IsList;
    pending' := list;
    list' := Cut(list, pending, lists, input, count);
  }

  /** Makes a node a list of its own, in front of the others. */
  method Cut(list: ListHead, pending: ListHead?, ghost lists: seq<seq<ListHead>>, ghost input: seq<ListHead>, ghost count: nat)
    returns (list': ListHead?)
    requires Chain(pending, lists) && Sublists(lists) && ListFrom(input, count)
    requires forall i | 0 <= i < |lists| :: lists[i] != [] && list != lists[i][0] && list !in Nodes(lists[i])
    requires count < |input| && list == input[count] && forall k | count < k < |input| :: input[k] != list
    modifies {list}
    ensures Chain(list, [[list]] + lists) && Sublists([[list]] + lists) && ListFrom(input, count + 1)
    ensures list' == NextIn(input, count)
  {
    hide IsList;
    ghost var lists': seq<seq<ListHead>> := [[list]] + lists;
    list.prev := pending;
    forall i | 0 <= i < |lists'| ensures lists'[i][0].prev == FirstIn(lists', i + 1) {
      if i > 0 { assert lists[i - 1][0].prev == FirstIn(lists, i); }
    }
    list' := list.next;
    list.next := null;
    Alone(list);
    forall i | 0 <= i < |lists'| ensures IsList(lists'[i]) {
      if i > 0 { assert old(IsList(lists[i - 1])) && list !in Nodes(lists[i - 1]); }
    }
  }

  lemma Alone(list: ListHead)
    requires list.next == null
    ensures IsList([list])
  {}

  lemma NewNode(list: ListHead, lists: seq<seq<ListHead>>)
    requires Separate(lists) && list !in AllNodes(lists)
    ensures forall i | 0 <= i < |lists| :: lists[i] != [] && list != lists[i][0] && list !in Nodes(lists[i])
  {}

  lemma PushRound(cmp: (ListHead, ListHead) --> int, pos: map<ListHead, nat>, input: seq<ListHead>,
                  lists: seq<seq<ListHead>>, count: nat)
    requires Merging(cmp, pos, input, lists, count) && count < |input|
    ensures Round(cmp, pos, input, [[input[count]]] + lists, count + 1)
    ensures forall k | count < k < |input| :: input[k] != input[count]
  {
    hide Cover, Sizes;
    CoverPush(cmp, pos, input, lists, count);
    NextSizes(count);
    assert Lengths([[input[count]]] + lists) == [1] + Lengths(lists);
  }

  // ---------- the end of the input ----------

  /** What is left to merge: acc first, then the pending lists from the i-th on. */
  ghost predicate Closing(cmp: (ListHead, ListHead) --> int, pos: map<ListHead, nat>, input: seq<ListHead>,
                          lists: seq<seq<ListHead>>, acc: seq<ListHead>, i: nat)
  {
    && Callable(cmp, pos) && Positions(pos, input) && 0 < i < |lists| && Lengths(lists) == PendingSizes(|input|)
    && Cover(cmp, pos, input, [acc] + lists[i..], |input|) && |acc| == Sum(PendingSizes(|input|)[..i])
  }

  /** Sizes that differ at most by a factor of two: a pending list of size 2^k and what is merged into it. */
  ghost predicate Balanced(size: nat, more: nat) {
    size <= 2 * more && more <= 2 * size - 1
  }

  lemma ClosingStart(cmp: (ListHead, ListHead) --> int, pos: map<ListHead, nat>, input: seq<ListHead>, lists: seq<seq<ListHead>>)
    requires Round(cmp, pos, input, lists, |input|) && |input| >= 2
    ensures |lists| >= 2 && Closing(cmp, pos, input, lists, lists[0], 1)
  {
    var n := |input|;
    assert lists == [lists[0]] + lists[1..] by { OneMore(n, 0); }
    OneMore(n, 0);
    assert |lists| >= 2 by {
      if n % 2 == 1 { OddDigit(n, 0); OneMore(n / 2, 1); } else { EvenDigit(n, 0); }
    }
    assert PendingSizes(n)[..1] == [|lists[0]|];
  }

  lemma ClosingIs(cmp: (ListHead, ListHead) --> int, pos: map<ListHead, nat>, input: seq<ListHead>,
                  lists: seq<seq<ListHead>>, acc: seq<ListHead>, i: nat)
    requires Closing(cmp, pos, input, lists, acc, i)
    ensures 0 < i < |lists| && Mergeable(cmp, [acc] + lists[i..], 0) && Balanced(|lists[i]|, |acc|)
    ensures MergeAt(cmp, [acc] + lists[i..], 0) == [Merged(cmp, lists[i], acc)] + lists[i + 1..]
    ensures i + 1 < |lists| ==> Closing(cmp, pos, input, lists, Merged(cmp, lists[i], acc), i + 1)
    ensures i + 1 == |lists| ==> Segment(cmp, pos, input, Merged(cmp, lists[i], acc), 0, |input|)
  {
    hide Segment, Positions, Callable, Sizes, Cover, Mergeable, MergeAt, Merged, Balanced, Sum;
    ClosingBalance(cmp, pos, input, lists, acc, i);
    ClosingMerge(cmp, pos, input, lists, acc, i);
  }

  lemma ClosingBalance(cmp: (ListHead, ListHead) --> int, pos: map<ListHead, nat>, input: seq<ListHead>,
                       lists: seq<seq<ListHead>>, acc: seq<ListHead>, i: nat)
    requires Closing(cmp, pos, input, lists, acc, i)
    ensures Balanced(|lists[i]|, |acc|) && |acc| + |lists[i]| == Sum(PendingSizes(|input|)[..i + 1])
  {
    hide Cover, Positions, Callable, Sizes;
    var sizes := PendingSizes(|input|);
    FinalBalance(|input|, i);
    assert sizes[..i + 1] == sizes[..i] + [sizes[i]];
    SumAppend(sizes[..i], [sizes[i]]);
    assert Sum([sizes[i]]) == sizes[i];
  }

  lemma ClosingMerge(cmp: (ListHead, ListHead) --> int, pos: map<ListHead, nat>, input: seq<ListHead>,
                     lists: seq<seq<ListHead>>, acc: seq<ListHead>, i: nat)
    requires Closing(cmp, pos, input, lists, acc, i)
    ensures Mergeable(cmp, [acc] + lists[i..], 0)
    ensures var cur' := [Merged(cmp, lists[i], acc)] + lists[i + 1..];
      MergeAt(cmp, [acc] + lists[i..], 0) == cur' && Cover(cmp, pos, input, cur', |input|)
    ensures i + 1 == |lists| ==> Segment(cmp, pos, input, Merged(cmp, lists[i], acc), 0, |input|)
  {
    hide Segment, Positions, Callable, Sizes, Sum;
    var cur, n := [acc] + lists[i..], |input|;
    CoverMerge(cmp, pos, input, cur, n, 0);
    CoverSeparate(cmp, pos, input, cur, n);
    assert cur[2..] == lists[i + 1..] && cur[1] == lists[i] && cur[0] == acc;
    var merged := Merged(cmp, lists[i], acc);
    var cur' := [merged] + lists[i + 1..];
    assert MergeAt(cmp, cur, 0) == cur';
    if i + 1 == |lists| {
      assert |cur'| == 1 && cur'[0] == merged;
    }
  }

  /**
   Merges the pending lists from smallest to largest, up to the last two.  Every merge, the one left
   to do included, joins lists of balanced size.
   */
  method MergeAll(cmp: (ListHead, ListHead) --> int, last: ListHead,
                  ghost pos: map<ListHead, nat>, ghost input: seq<ListHead>, ghost lists: seq<seq<ListHead>>)
    returns (pending: ListHead, list: ListHead, ghost s: seq<ListHead>, ghost t: seq<ListHead>)
    requires Round(cmp, pos, input, lists, |input|) && |input| >= 2 && Chain(last, lists) && Sublists(lists)
    modifies AllNodes(lists)
    ensures IsList(s) && IsList(t) && s != [] && t != [] && pending == s[0] && list == t[0]
    ensures Distinct(s) && Distinct(t) && Disjoint(s, t) && Comparable(cmp, s, t)
    ensures Segment(cmp, pos, input, Merged(cmp, s, t), 0, |input|) && Balanced(|s|, |t|)
    ensures Halves(cmp, pos, input, s, t)
  {
    hide Round, Closing, Segment, Merged, IsList, Distinct, Comparable, Mergeable, MergeAt, Cover, Balanced, Disjoint, Chain;
    hide AllNodes, Nodes, Halves;
    ClosingStart(cmp, pos, input, lists);
    SublistsAre(lists);
    ChainAt(last, lists, 0);
    FirstWithin(lists, 0);
    list := last;
    pending := list.prev;
    ghost var i, acc := 1, lists[0];
    while true
      invariant Closing(cmp, pos, input, lists, acc, i) && 0 < i < |lists|
      invariant acc != [] && list == acc[0] && IsList(acc) && (forall k | i <= k < |lists| :: IsList(lists[k]))
      invariant Chain(last, lists) && lists[i] != [] && pending == lists[i][0]
      invariant forall x | x in acc :: x in AllNodes(lists)
      decreases |lists| - i
    {
      ClosingIs(cmp, pos, input, lists, acc, i);
      ChainAt(last, lists, i);
      var next := pending.prev;
      if next == null { break; }
      LastTwo(cmp, lists, acc, i);
      MergedAcc(cmp, lists, acc, i);
      BothWithin(lists, acc, i);
      list := MergeAcc(cmp, pending, list, acc, lists, i, last);
      acc := Merged(cmp, lists[i], acc);
      pending := next;
      i := i + 1;
    }
    s, t := lists[i], acc;
    LastTwo(cmp, lists, acc, i);
    ClosingHalves(cmp, pos, input, lists, acc, i);
  }

  /** The last two lists: the nodes before the cut, and those from it on. */
  ghost predicate Halves(cmp: (ListHead, ListHead) --> int, pos: map<ListHead, nat>, input: seq<ListHead>,
                         s: seq<ListHead>, t: seq<ListHead>)
    requires Callable(cmp, pos)
  {
    && |s| == Split(|input|) <= |input|
    && Segment(cmp, pos, input, s, 0, |s|) && Segment(cmp, pos, input, t, |s|, |input|)
  }

  lemma ClosingHalves(cmp: (ListHead, ListHead) --> int, pos: map<ListHead, nat>, input: seq<ListHead>,
                      lists: seq<seq<ListHead>>, acc: seq<ListHead>, i: nat)
    requires Closing(cmp, pos, input, lists, acc, i) && i + 1 == |lists|
    ensures Halves(cmp, pos, input, lists[i], acc)
  {
    hide Segment, Sizes;
    var cur := [acc] + lists[i..];
    var rest, m := cur[1..], |input| - |acc|;
    assert cur[0] == acc && rest == [lists[i]] && |rest[1..]| == 0;
    assert Cover(cmp, pos, input, rest, m);
    assert Cover(cmp, pos, input, rest[1..], m - |lists[i]|);
    assert m == |lists[i]|;
    assert |lists[i]| == Lengths(lists)[i] == PendingSizes(|input|)[i] && |PendingSizes(|input|)| == |lists|;
  }

  /** One of those merges. */
  method MergeAcc(cmp: (ListHead, ListHead) --> int, b: ListHead, a: ListHead,
                  ghost acc: seq<ListHead>, ghost lists: seq<seq<ListHead>>, ghost i: nat, ghost last: ListHead) returns (head: ListHead)
    requires i < |lists| && Mergeable(cmp, [acc] + lists[i..], 0) && acc != [] && lists[i] != []
    requires a == acc[0] && b == lists[i][0] && IsList(acc) && forall k | i <= k < |lists| :: IsList(lists[k])
    requires Comparable(cmp, lists[i], acc) && Chain(last, lists)
    modifies Nodes(lists[i] + acc)`next
    ensures IsList(Merged(cmp, lists[i], acc)) && Merged(cmp, lists[i], acc) != [] && head == Merged(cmp, lists[i], acc)[0]
    ensures Chain(last, lists) && forall k | i < k < |lists| :: IsList(lists[k])
  {
    hide Merged, Comparable, IsList, Distinct, Mergeable;
    LastTwo(cmp, lists, acc, i);
    MergedIs(cmp, lists[i], acc);
    OthersApart(cmp, lists, acc, i);
    head := Merge(cmp, b, a, lists[i], acc);
    forall k | i < k < |lists| ensures IsList(lists[k]) {
      assert old(IsList(lists[k])) && Nodes(lists[k]) !! Nodes(lists[i] + acc);
    }
  }

  lemma ChainAt(pending: ListHead?, lists: seq<seq<ListHead>>, i: nat)
    requires Chain(pending, lists) && i < |lists|
    ensures pending == FirstIn(lists, 0) && lists[i] != [] && lists[i][0].prev == FirstIn(lists, i + 1)
    ensures i + 1 < |lists| ==> lists[i + 1] != []
  {}

  lemma OthersApart(cmp: (ListHead, ListHead) --> int, lists: seq<seq<ListHead>>, acc: seq<ListHead>, i: nat)
    requires i < |lists| && Mergeable(cmp, [acc] + lists[i..], 0)
    ensures forall k | i < k < |lists| :: Nodes(lists[k]) !! Nodes(lists[i] + acc)
  {
    var cur := [acc] + lists[i..];
    forall k | i < k < |lists| ensures Nodes(lists[k]) !! Nodes(lists[i] + acc) {
      assert cur[k - i + 1] == lists[k] && cur[1] == lists[i];
      assert Disjoint(cur[k - i + 1], cur[1]) && Disjoint(cur[k - i + 1], cur[0]);
    }
  }

  lemma LastTwo(cmp: (ListHead, ListHead) --> int, lists: seq<seq<ListHead>>, acc: seq<ListHead>, i: nat)
    requires i < |lists| && Mergeable(cmp, [acc] + lists[i..], 0)
    ensures Distinct(lists[i]) && Distinct(acc) && Disjoint(lists[i], acc) && lists[i] != [] && acc != []
    ensures Comparable(cmp, lists[i], acc)
  {
    var cur := [acc] + lists[i..];
    assert cur[1] == lists[i] && cur[0] == acc;
    assert Disjoint(cur[1], cur[0]);
  }

  lemma SublistsAre(lists: seq<seq<ListHead>>)
    requires Sublists(lists)
    ensures forall i | 0 <= i < |lists| :: IsList(lists[i])
  {}

  lemma FirstWithin(lists: seq<seq<ListHead>>, i: nat)
    requires i < |lists|
    ensures forall x | x in lists[i] :: x in AllNodes(lists)
  {}

  lemma BothWithin(lists: seq<seq<ListHead>>, acc: seq<ListHead>, i: nat)
    requires i < |lists| && forall x | x in acc :: x in AllNodes(lists)
    ensures Nodes(lists[i] + acc) <= AllNodes(lists)
  {
    FirstWithin(lists, i);
  }

  lemma MergedAcc(cmp: (ListHead, ListHead) --> int, lists: seq<seq<ListHead>>, acc: seq<ListHead>, i: nat)
    requires i < |lists| && Comparable(cmp, lists[i], acc) && forall x | x in acc :: x in AllNodes(lists)
    ensures forall x | x in Merged(cmp, lists[i], acc) :: x in AllNodes(lists)
  {
    MergedIs(cmp, lists[i], acc);
  }

  // ---------- util_list_sort ----------

  /** The input on both sides of the cut for the last merge. */
  ghost predicate CutComparable(cmp: (ListHead, ListHead) --> int, input: seq<ListHead>) {
    var q := Split(|input|);
    q <= |input| && Comparable(cmp, input[..q], input[q..])
  }

  /** How many nodes of one part of the input sort behind the whole other part. */
  ghost function CutOverhang(cmp: (ListHead, ListHead) --> int, input: seq<ListHead>): nat
    requires CutComparable(cmp, input)
  {
    var q := Split(|input|);
    Overhang(cmp, input[..q], input[q..])
  }

  /** What a caller can tell beforehand of calls on a node and itself. */
  ghost predicate MaySelfCall(cmp: (ListHead, ListHead) --> int, pos: map<ListHead, nat>, input: seq<ListHead>)
    requires Callable(cmp, pos)
  {
    |input| >= 384 && (Transitive(cmp, pos) ==> CutComparable(cmp, input) && CutOverhang(cmp, input) >= 256)
  }

  /**
   util_list_sort: relinks the circular list behind head so that it is the stable sort of the input.
   cmp is called on two different nodes only in the order of the input: nothing else need be in its domain, but
   for a node and itself.  selfCalls counts such calls: once for every 256 nodes that are left when one of the last
   two lists, s and t, is used up; that is, if cmp makes sense, of the nodes that sort behind the other part.
   */
  method UtilListSort(cmp: (ListHead, ListHead) --> int, head: ListHead, ghost pos: map<ListHead, nat>, ghost input: seq<ListHead>)
    returns (ghost out: seq<ListHead>, ghost s: seq<ListHead>, ghost t: seq<ListHead>, ghost selfCalls: nat)
    requires Callable(cmp, pos) && Positions(pos, input) && Circular(head, input) && head !in input
    requires MaySelfCall(cmp, pos, input) ==> forall x | x in input :: cmp.requires(x, x)
    modifies Nodes([head] + input)
    ensures Circular(head, out) && multiset(out) == multiset(input)
    ensures Transitive(cmp, pos) ==> Known(pos, out) && Sorted(cmp, pos, out)
    ensures |input| >= 2 ==> Comparable(cmp, s, t) && out == Merged(cmp, s, t) && Halves(cmp, pos, input, s, t)
    ensures |input| >= 2 ==> selfCalls == Leftover(cmp, s, t) / 256
    ensures |input| >= 2 && Transitive(cmp, pos) ==> CutComparable(cmp, input) && selfCalls == CutOverhang(cmp, input) / 256
    ensures selfCalls > 0 ==> MaySelfCall(cmp, pos, input)
  {
    hide Circular, Segment, Sorted, Transitive, Positions, Callable, MaySelfCall, CutComparable, CutOverhang, Comparable, Halves;
    FewNodes(cmp, pos, head, input);
    var list := head.next;
    if list == head.prev {
      out, s, t, selfCalls := input, input, [], 0;
      return;
    }
    out, s, t, selfCalls := SortMany(cmp, head, pos, input);
  }

  lemma FewNodes(cmp: (ListHead, ListHead) --> int, pos: map<ListHead, nat>, head: ListHead, input: seq<ListHead>)
    requires Callable(cmp, pos) && Positions(pos, input) && Circular(head, input) && head !in input
    ensures head.next == head.prev <==> |input| < 2
    ensures |input| < 2 ==> Known(pos, input) && Sorted(cmp, pos, input)
  {
    var r: seq<ListHead> := [head] + input;
    assert r[0] == head;
    if |input| >= 1 { assert r[0].next == r[1]; }
    if |input| >= 2 {
      assert r[1] == input[0] && r[|input|] == input[|input| - 1];
      assert pos[input[0]] != pos[input[|input| - 1]];
    }
  }

  /** Two or more elements. */
  method SortMany(cmp: (ListHead, ListHead) --> int, head: ListHead, ghost pos: map<ListHead, nat>, ghost input: seq<ListHead>)
    returns (ghost out: seq<ListHead>, ghost s: seq<ListHead>, ghost t: seq<ListHead>, ghost selfCalls: nat)
    requires Callable(cmp, pos) && Positions(pos, input) && Circular(head, input) && head !in input && |input| >= 2
    requires MaySelfCall(cmp, pos, input) ==> forall x | x in input :: cmp.requires(x, x)
    modifies Nodes([head] + input)
    ensures Circular(head, out) && multiset(out) == multiset(input)
    ensures Transitive(cmp, pos) ==> Known(pos, out) && Sorted(cmp, pos, out)
    ensures Comparable(cmp, s, t) && out == Merged(cmp, s, t) && Halves(cmp, pos, input, s, t)
    ensures selfCalls == Leftover(cmp, s, t) / 256
    ensures Transitive(cmp, pos) ==> CutComparable(cmp, input) && selfCalls == CutOverhang(cmp, input) / 256
    ensures selfCalls > 0 ==> MaySelfCall(cmp, pos, input)
  {
    hide MaySelfCall, CutComparable, CutOverhang, Halves, Leftover;
    hide Segment, Sorted, Transitive, Positions, Callable, Round, Merged, IsList, Distinct, Comparable, Sublists, Chain, Circular;
    var first := OpenList(head, pos, input);
    var pending;
    ghost var lists;
    pending, lists := Collect(cmp, first, pos, input);
    RoundNodes(cmp, pos, input, lists, |input|);
    var a, b;
    a, b, s, t := MergeAll(cmp, pending, pos, input, lists);
    out := Merged(cmp, s, t);
    WholeInput(cmp, pos, input, head, s, t);
    SelfCallsOf(cmp, pos, input, s, t);
    selfCalls := MergeFinal(cmp, head, a, b, s, t);
  }

  lemma WholeInput(cmp: (ListHead, ListHead) --> int, pos: map<ListHead, nat>, input: seq<ListHead>, head: ListHead,
                   s: seq<ListHead>, t: seq<ListHead>)
    requires Callable(cmp, pos) && Positions(pos, input) && head !in input && Comparable(cmp, s, t)
    requires Segment(cmp, pos, input, Merged(cmp, s, t), 0, |input|)
    ensures multiset(Merged(cmp, s, t)) == multiset(input)
    ensures Transitive(cmp, pos) ==> Known(pos, Merged(cmp, s, t)) && Sorted(cmp, pos, Merged(cmp, s, t))
    ensures head !in s && head !in t && (forall x | x in s + t :: x in input)
    ensures Nodes(s + t) <= Nodes(input)
  {
    hide Sorted, Transitive, Merged;
    assert input[0..|input|] == input;
    MergedIs(cmp, s, t);
    forall x | x in s + t ensures x in pos && x in input {
      assert x in Merged(cmp, s, t);
    }
  }

  /** What is left at the end of the last merge, in terms of the input. */
  lemma SelfCallsOf(cmp: (ListHead, ListHead) --> int, pos: map<ListHead, nat>, input: seq<ListHead>, s: seq<ListHead>, t: seq<ListHead>)
    requires Callable(cmp, pos) && Positions(pos, input) && |input| >= 2 && Comparable(cmp, s, t) && Halves(cmp, pos, input, s, t)
    ensures Transitive(cmp, pos) ==> CutComparable(cmp, input) && Leftover(cmp, s, t) == CutOverhang(cmp, input)
    ensures Leftover(cmp, s, t) >= 256 ==> MaySelfCall(cmp, pos, input)
  {
    hide Leftover, Overhang, Split;
    SplitAt384(|input|);
    LeftoverBound(cmp, s, t);
    var q := Split(|input|);
    if Transitive(cmp, pos) {
      LeftoverIsOverhang(cmp, pos, s, t);
      CutEnds(input, q);
      SameMembers(s, input[..q]);
      SameMembers(t, input[q..]);
      OverhangOfSets(cmp, s, t, input[..q], input[q..]);
    }
  }

  lemma CutEnds(s: seq<ListHead>, q: nat)
    requires q <= |s|
    ensures s[0..q] == s[..q] && s[q..|s|] == s[q..]
  {}

  lemma SameMembers(s: seq<ListHead>, t: seq<ListHead>)
    requires multiset(s) == multiset(t)
    ensures forall x :: x in s <==> x in t
  {
    assert forall x :: x in s <==> x in multiset(s);
    assert forall x :: x in t <==> x in multiset(t);
  }

  lemma RoundNodes(cmp: (ListHead, ListHead) --> int, pos: map<ListHead, nat>, input: seq<ListHead>,
                   lists: seq<seq<ListHead>>, count: nat)
    requires Round(cmp, pos, input, lists, count) || Merging(cmp, pos, input, lists, count)
    ensures AllNodes(lists) <= Nodes(input)
  {
    forall i | 0 <= i < |lists| ensures forall x | x in lists[i] :: x in Nodes(input) {
      CoverBelow(cmp, pos, input, lists, count, i);
    }
  }

  /** Opens the ring at the head: what is left is a chain of next pointers. */
  method OpenList(head: ListHead, ghost pos: map<ListHead, nat>, ghost input: seq<ListHead>) returns (first: ListHead)
    requires Positions(pos, input) && Circular(head, input) && head !in input && |input| >= 2
    modifies Nodes([head] + input)
    ensures ListFrom(input, 0) && first == input[0]
  {
    ghost var n := |input|;
    ghost var r: seq<ListHead> := [head] + input;
    assert r[n] == input[n - 1] && r[1] == input[0] && r[0] == head;
    first := head.next;
    forall k | 0 <= k < n - 1 ensures input[k].next == input[k + 1] && input[k] != input[n - 1] {
      assert input[k] == r[k + 1] && input[k + 1] == r[k + 2];
      assert pos[input[k]] != pos[input[n - 1]];
    }
    head.prev.next := null;
  }

  /** The main loop: one round for each element of the input. */
  method Collect(cmp: (ListHead, ListHead) --> int, first: ListHead, ghost pos: map<ListHead, nat>, ghost input: seq<ListHead>)
    returns (pending: ListHead, ghost lists: seq<seq<ListHead>>)
    requires Callable(cmp, pos) && Positions(pos, input) && input != [] && first == input[0] && ListFrom(input, 0)
    modifies Nodes(input)
    ensures Round(cmp, pos, input, lists, |input|) && Chain(pending, lists) && Sublists(lists)
  {
    hide Round, Merging, Sublists, Chain, ListFrom, Positions, Callable;
    FirstRound(cmp, pos, input);
    lists := [];
    var list: ListHead? := first;
    var chain: ListHead? := null;
    var count: nat := 0;
    while list != null
      invariant count <= |input| && list == if count < |input| then input[count] else null
      invariant Round(cmp, pos, input, lists, count) && Chain(chain, lists) && Sublists(lists) && ListFrom(input, count)
      invariant count > 0 ==> lists != []
      decreases |input| - count
    {
      RoundNodes(cmp, pos, input, lists, count);
      chain, lists := MergePending(cmp, count, chain, pos, input, lists);
      assert list in Nodes(input);
      ghost var x: ListHead := list;
      chain, list := Push(cmp, count, chain, list, pos, input, lists);
      lists := [[x]] + lists;
      count := count + 1;
    }
    ChainAt(chain, lists, 0);
    pending := chain;
  }

  lemma FirstRound(cmp: (ListHead, ListHead) --> int, pos: map<ListHead, nat>, input: seq<ListHead>)
    requires Callable(cmp, pos) && Positions(pos, input)
    ensures Round(cmp, pos, input, [], 0) && Chain(null, []) && Sublists([])
  {}
}
