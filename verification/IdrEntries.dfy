/**
 What the entries of an id map are as a list, and what the loop over all entries makes of them
 (idr.c, idr.h).
 */
module IdrEntries {
  import opened AvlTree
  import opened AvlWalk

  const INT_MAX := 0x7FFF_FFFF

  const NULL: nat := 0

  ghost function Keys(s: seq<AvlNode>): set<int> {
    set x | x in s :: x.key
  }

  /** The finite map that a tree of entries stands for. */
  ghost function Entries(s: seq<AvlNode>): map<int, nat>
    requires Ascending(s)
  {
    map i | 0 <= i < |s| :: s[i].key := s[i].ptr
  }

  lemma EntryIn(s: seq<AvlNode>, x: AvlNode)
    requires Ascending(s) && x in s
    ensures x.key in Entries(s) && Entries(s)[x.key] == x.ptr
  {
    var i :| 0 <= i < |s| && s[i] == x;
    assert s[i].key in Entries(s);
  }

  lemma EntryOut(s: seq<AvlNode>, k: int)
    requires Ascending(s)
    ensures k in Entries(s) <==> k in Keys(s)
    ensures k in Entries(s) ==> exists i :: 0 <= i < |s| && s[i].key == k && s[i].ptr == Entries(s)[k]
  {
    if k in Keys(s) {
      var x :| x in s && x.key == k;
      EntryIn(s, x);
    }
  }

  /** What a list of entries holds for one id. */
  lemma EntryAddedAt(before: seq<AvlNode>, x: AvlNode, after: seq<AvlNode>, k: int)
    requires Ascending(before + after) && Ascending(before + [x] + after)
    ensures var s, t := before + after, before + [x] + after;
      && (k in Entries(t) <==> k in Entries(s) || k == x.key) && (k in Keys(t) <==> k in Keys(s) || k == x.key)
      && (k in Entries(t) ==> Entries(t)[k] == Entries(s)[x.key := x.ptr][k])
      && (k == x.key ==> k !in Entries(s) && k !in Keys(s))
  {
    hide Ascending, Entries;
    var s, t := before + after, before + [x] + after;
    SplitMembers(before, x, after);
    KeyApart(before, x, after);
    EntryOut(s, k);
    EntryOut(t, k);
    if k in Entries(t) {
      var i :| 0 <= i < |t| && t[i].key == k && t[i].ptr == Entries(t)[k];
      assert t[i] in t;
      if t[i] != x { EntryIn(s, t[i]); }
    }
  }

  lemma EntryAdded(before: seq<AvlNode>, x: AvlNode, after: seq<AvlNode>)
    requires Ascending(before + after) && Ascending(before + [x] + after)
    ensures x.key !in Keys(before + after) && x.key !in Entries(before + after)
    ensures Keys(before + [x] + after) == Keys(before + after) + {x.key}
    ensures Entries(before + [x] + after) == Entries(before + after)[x.key := x.ptr]
  {
    hide Ascending, Entries, Keys;
    var s, t := before + after, before + [x] + after;
    EntryAddedAt(before, x, after, x.key);
    forall k ensures k in Entries(t) <==> k in Entries(s)[x.key := x.ptr] {
      EntryAddedAt(before, x, after, k);
    }
    forall k ensures k in Keys(t) <==> k in Keys(s) + {x.key} {
      EntryAddedAt(before, x, after, k);
    }
    forall k | k in Entries(t) ensures Entries(t)[k] == Entries(s)[x.key := x.ptr][k] {
      EntryAddedAt(before, x, after, k);
    }
  }

  lemma SplitMembers(before: seq<AvlNode>, x: AvlNode, after: seq<AvlNode>)
    ensures forall y :: y in before + [x] + after <==> y in before + after || y == x
  {}

  lemma KeyApart(before: seq<AvlNode>, x: AvlNode, after: seq<AvlNode>)
    requires Ascending(before + [x] + after)
    ensures forall y | y in before + after :: y.key != x.key
  {
    AscendingParts(before, x, after);
  }

  // ---------- iteration ----------

  /** The entries with ids from the given one on. */
  ghost function From(s: seq<AvlNode>, id: int): seq<AvlNode> {
    if s == [] then [] else if s[0].key < id then From(s[1..], id) else s
  }

  ghost function NonNull(s: seq<AvlNode>): seq<AvlNode> {
    if s == [] then [] else (if s[0].ptr != NULL then [s[0]] else []) + NonNull(s[1..])
  }

  /** What idr_for_each_entry sees of a list of entries: it ends at the first NULL pointer. */
  ghost function Seen(s: seq<AvlNode>): seq<AvlNode> {
    if s == [] || s[0].ptr == NULL then [] else [s[0]] + Seen(s[1..])
  }

  /** The entries before the first NULL are all the non-null ones if and only if no NULL comes before one of them. */
  lemma {:induction false} SeesAllNonNull(s: seq<AvlNode>)
    ensures Seen(s) == NonNull(s) <==> forall i, j | 0 <= i < j < |s| :: s[i].ptr == NULL ==> s[j].ptr == NULL
  {
    if s != [] {
      SeesAllNonNull(s[1..]);
      assert forall i | 1 <= i < |s| :: s[i] == s[1..][i - 1];
      if s[0].ptr == NULL {
        NoneNonNull(s[1..]);
      } else {
        assert ([s[0]] + Seen(s[1..]))[1..] == Seen(s[1..]) && ([s[0]] + NonNull(s[1..]))[1..] == NonNull(s[1..]);
        assert (forall i, j | 0 <= i < j < |s| :: s[i].ptr == NULL ==> s[j].ptr == NULL)
          <==> (forall i, j | 0 <= i < j < |s[1..]| :: s[1..][i].ptr == NULL ==> s[1..][j].ptr == NULL) by {
          Later(s);
        }
      }
    }
  }

  lemma Later(s: seq<AvlNode>)
    requires s != [] && s[0].ptr != NULL
    ensures (forall i, j | 0 <= i < j < |s| :: s[i].ptr == NULL ==> s[j].ptr == NULL)
      <==> (forall i, j | 0 <= i < j < |s[1..]| :: s[1..][i].ptr == NULL ==> s[1..][j].ptr == NULL)
  {
    var t := s[1..];
    if forall i, j | 0 <= i < j < |t| :: t[i].ptr == NULL ==> t[j].ptr == NULL {
      forall i, j | 0 <= i < j < |s| && s[i].ptr == NULL ensures s[j].ptr == NULL {
        assert t[i - 1] == s[i] && t[j - 1] == s[j];
      }
    }
    if forall i, j | 0 <= i < j < |s| :: s[i].ptr == NULL ==> s[j].ptr == NULL {
      forall i, j | 0 <= i < j < |t| && t[i].ptr == NULL ensures t[j].ptr == NULL {
        assert t[i] == s[i + 1] && t[j] == s[j + 1];
      }
    }
  }

  lemma {:induction false} NoneNonNull(s: seq<AvlNode>)
    ensures NonNull(s) == [] <==> forall j | 0 <= j < |s| :: s[j].ptr == NULL
  {
    if s != [] {
      NoneNonNull(s[1..]);
      assert forall i | 1 <= i < |s| :: s[i] == s[1..][i - 1];
      assert forall i | 0 <= i < |s[1..]| :: s[1..][i] == s[i + 1];
    }
  }

  /** A cut of the list between smaller and greater ids is where From begins. */
  lemma {:induction false} FromCut(before: seq<AvlNode>, after: seq<AvlNode>, id: int)
    requires Ascending(before + after) && (forall x | x in before :: x.key < id) && (forall x | x in after :: id <= x.key)
    ensures From(before + after, id) == after
  {
    if before == [] {
      assert [] + after == after;
      if after != [] { assert after[0] in after; }
    } else {
      var s := before + after;
      assert before[0] in before && s[1..] == before[1..] + after;
      assert forall i | 0 <= i < |s[1..]| :: s[1..][i] == s[i + 1];
      FromCut(before[1..], after, id);
    }
  }

  // ---------- the loop over all entries ----------

  const INT_MIN := -0x8000_0000

  /** id += 1U for a 32-bit id */
  function NextId(id: int): int {
    if id == INT_MAX then INT_MIN else id + 1
  }

  ghost function Pairs(s: seq<AvlNode>): seq<(int, nat)> {
    if s == [] then [] else [(s[0].key, s[0].ptr)] + Pairs(s[1..])
  }

  /** What idr_get_next makes of an id: the pointer it returns and the id it leaves. */
  ghost function Call(s: seq<AvlNode>, id: int): (nat, int) {
    var rest := From(s, id);
    if rest == [] then (NULL, id) else (rest[0].ptr, rest[0].key)
  }

  /** The call of idr_get_next that the loop makes after n runs of its body: first from 0, then from the id after the last. */
  ghost function NthCall(s: seq<AvlNode>, n: nat): (nat, int) {
    Call(s, if n == 0 then 0 else NextId(NthCall(s, n - 1).1))
  }

  /** The loop ends after n runs of its body. */
  ghost predicate EndsAfter(s: seq<AvlNode>, n: nat) {
    NthCall(s, n).0 == NULL && forall k: nat | k < n :: NthCall(s, k).0 != NULL
  }

  /** What the body gets in its first n runs. */
  ghost function Visits(s: seq<AvlNode>, n: nat): seq<(int, nat)> {
    if n == 0 then [] else Visits(s, n - 1) + [(NthCall(s, n - 1).1, NthCall(s, n - 1).0)]
  }

  ghost predicate InRange(s: seq<AvlNode>) {
    forall x | x in s :: 0 <= x.key <= INT_MAX
  }

  lemma FromAll(s: seq<AvlNode>, id: int)
    requires Ascending(s) && InRange(s) && id <= 0
    ensures From(s, id) == s
  {
    assert [] + s == s;
    FromCut([], s, id);
  }

  lemma KeysAround(s: seq<AvlNode>, k: nat)
    requires Ascending(s) && k < |s|
    ensures (forall x | x in s[..k + 1] :: x.key <= s[k].key) && (forall x | x in s[k + 1..] :: s[k].key < x.key)
  {
    forall x | x in s[..k + 1] ensures x.key <= s[k].key {
      var i :| 0 <= i < k + 1 && s[..k + 1][i] == x;
      assert s[i] == x;
    }
    forall x | x in s[k + 1..] ensures s[k].key < x.key {
      var i :| 0 <= i < |s| - k - 1 && s[k + 1..][i] == x;
      assert s[k + 1 + i] == x;
    }
  }

  lemma FromAfter(s: seq<AvlNode>, k: nat)
    requires Ascending(s) && k < |s|
    ensures From(s, s[k].key + 1) == s[k + 1..]
  {
    hide Ascending, From;
    KeysAround(s, k);
    assert s == s[..k + 1] + s[k + 1..];
    FromCut(s[..k + 1], s[k + 1..], s[k].key + 1);
  }

  /** The call from the id after the k-th entry finds the next one; after INT_MAX it starts over. */
  lemma CallAfter(s: seq<AvlNode>, k: nat)
    requires Ascending(s) && InRange(s) && k < |s|
    ensures var next := Call(s, NextId(s[k].key));
      if k + 1 < |s| then next == (s[k + 1].ptr, s[k + 1].key)
      else if s[k].key == INT_MAX then next == (s[0].ptr, s[0].key) else next.0 == NULL
  {
    assert s[k] in s;
    if k + 1 < |s| { assert s[k + 1] in s; }
    FromAfter(s, k);
    FromAll(s, INT_MIN);
  }

  lemma {:induction false} NthIs(s: seq<AvlNode>, n: nat)
    requires Ascending(s) && InRange(s) && n < |s|
    ensures NthCall(s, n) == (s[n].ptr, s[n].key)
  {
    hide Ascending, InRange, Call;
    if n == 0 {
      FirstCall(s);
    } else {
      NthIs(s, n - 1);
      CallAfter(s, n - 1);
    }
  }

  lemma FirstCall(s: seq<AvlNode>)
    requires Ascending(s) && InRange(s)
    ensures Call(s, 0) == if s == [] then (NULL, 0) else (s[0].ptr, s[0].key)
  {
    FromAll(s, 0);
  }

  lemma {:induction false} VisitsAre(s: seq<AvlNode>, n: nat)
    requires Ascending(s) && InRange(s) && n <= |s|
    ensures Visits(s, n) == Pairs(s[..n])
  {
    hide Ascending, InRange, NthCall;
    if n > 0 {
      VisitsAre(s, n - 1);
      NthIs(s, n - 1);
      assert s[..n] == s[..n - 1] + [s[n - 1]];
      PairsAppend(s[..n - 1], s[n - 1]);
    }
  }

  lemma {:induction false} PairsAppend(s: seq<AvlNode>, x: AvlNode)
    ensures Pairs(s + [x]) == Pairs(s) + [(x.key, x.ptr)]
  {
    if s != [] {
      assert (s + [x])[1..] == s[1..] + [x];
      PairsAppend(s[1..], x);
    }
  }

  lemma {:induction false} SeenIs(s: seq<AvlNode>)
    ensures var n := |Seen(s)|;
      && n <= |s| && Seen(s) == s[..n] && (forall i | 0 <= i < n :: s[i].ptr != NULL) && (n < |s| ==> s[n].ptr == NULL)
  {
    if s != [] && s[0].ptr != NULL {
      SeenIs(s[1..]);
      var n := |Seen(s)|;
      assert s[..n] == [s[0]] + s[1..][..n - 1];
      assert forall i | 1 <= i < n :: s[i] == s[1..][i - 1];
    }
  }

  /** With INT_MAX in use the calls go round and round. */
  lemma {:induction false} GoesRound(s: seq<AvlNode>, n: nat)
    requires Ascending(s) && InRange(s) && s != [] && s[|s| - 1].key == INT_MAX
    ensures exists i :: 0 <= i < |s| && NthCall(s, n) == (s[i].ptr, s[i].key)
  {
    hide Ascending, InRange, Call;
    if n == 0 {
      FirstCall(s);
      assert NthCall(s, n) == (s[0].ptr, s[0].key);
    } else {
      GoesRound(s, n - 1);
      var i :| 0 <= i < |s| && NthCall(s, n - 1) == (s[i].ptr, s[i].key);
      CallAfter(s, i);
      var j := if i + 1 < |s| then i + 1 else 0;
      assert NthCall(s, n) == (s[j].ptr, s[j].key);
    }
  }

  /** INT_MAX is in use, and nothing stops the loop before it. */
  ghost predicate Endless(m: map<int, nat>) {
    INT_MAX in m && forall i | i in m :: m[i] != NULL
  }

  /** Some NULL comes before a pointer. */
  ghost predicate NullBefore(m: map<int, nat>) {
    exists i, j :: i in m && j in m && i < j && m[i] == NULL && m[j] != NULL
  }

  lemma GreatestIsLast(s: seq<AvlNode>, i: nat)
    requires Ascending(s) && InRange(s) && i < |s| && s[i].key == INT_MAX
    ensures i == |s| - 1
  {
    assert s[|s| - 1] in s;
  }

  lemma EntriesAt(s: seq<AvlNode>)
    requires Ascending(s)
    ensures forall i | 0 <= i < |s| :: s[i].key in Entries(s) && Entries(s)[s[i].key] == s[i].ptr
    ensures forall k | k in Entries(s) :: exists i :: 0 <= i < |s| && s[i].key == k && s[i].ptr == Entries(s)[k]
  {
    hide Ascending, Entries;
    forall i | 0 <= i < |s| ensures s[i].key in Entries(s) && Entries(s)[s[i].key] == s[i].ptr {
      EntryIn(s, s[i]);
    }
    forall k | k in Entries(s) ensures exists i :: 0 <= i < |s| && s[i].key == k && s[i].ptr == Entries(s)[k] {
      EntryOut(s, k);
    }
  }

  lemma EndlessIs(s: seq<AvlNode>)
    requires Ascending(s) && InRange(s)
    ensures Endless(Entries(s)) <==> (s != [] && s[|s| - 1].key == INT_MAX && forall i | 0 <= i < |s| :: s[i].ptr != NULL)
  {
    hide Ascending, InRange, Entries;
    EntriesAt(s);
    if INT_MAX in Entries(s) {
      var i :| 0 <= i < |s| && s[i].key == INT_MAX && s[i].ptr == Entries(s)[INT_MAX];
      GreatestIsLast(s, i);
    }
  }

  lemma NullBeforeIs(s: seq<AvlNode>)
    requires Ascending(s)
    ensures NullBefore(Entries(s)) <==> !forall i, j | 0 <= i < j < |s| :: s[i].ptr == NULL ==> s[j].ptr == NULL
  {
    hide Entries;
    EntriesAt(s);
    var m := Entries(s);
    if i, j :| 0 <= i < j < |s| && s[i].ptr == NULL && s[j].ptr != NULL {
      assert s[i].key < s[j].key && m[s[i].key] == NULL && m[s[j].key] != NULL;
    }
    if k, l :| k in m && l in m && k < l && m[k] == NULL && m[l] != NULL {
      var i :| 0 <= i < |s| && s[i].key == k && s[i].ptr == m[k];
      var j :| 0 <= j < |s| && s[j].key == l && s[j].ptr == m[l];
      assert i < j;
    }
  }

  /** The loop never ends if and only if INT_MAX is in use and no entry is null; otherwise it ends before the first NULL. */
  lemma LoopEnds(s: seq<AvlNode>)
    requires Ascending(s) && InRange(s)
    ensures Endless(Entries(s)) ==> forall n: nat :: NthCall(s, n).0 != NULL
    ensures !Endless(Entries(s)) ==> EndsAfter(s, |Seen(s)|) && Visits(s, |Seen(s)|) == Pairs(Seen(s))
  {
    hide Ascending, InRange, Entries, Call, NthCall;
    EndlessIs(s);
    SeenIs(s);
    var n := |Seen(s)|;
    if Endless(Entries(s)) {
      forall k: nat ensures NthCall(s, k).0 != NULL { GoesRound(s, k); }
    } else {
      forall k: nat | k < n ensures NthCall(s, k).0 != NULL { NthIs(s, k); }
      VisitsAre(s, n);
      LoopStops(s, n);
    }
  }

  lemma LoopStops(s: seq<AvlNode>, n: nat)
    requires Ascending(s) && InRange(s) && n <= |s| && (n < |s| ==> s[n].ptr == NULL)
    requires n == |s| ==> s == [] || s[|s| - 1].key != INT_MAX
    ensures NthCall(s, n).0 == NULL
  {
    if n < |s| {
      NthIs(s, n);
    } else if n == 0 {
      FirstCall(s);
    } else {
      NthIs(s, n - 1);
      CallAfter(s, n - 1);
    }
  }

  lemma EndsOnce(s: seq<AvlNode>, n: nat, k: nat)
    requires EndsAfter(s, n) && EndsAfter(s, k)
    ensures n == k
  {}

  lemma {:induction false} PairsLength(s: seq<AvlNode>)
    ensures |Pairs(s)| == |s|
  {
    if s != [] { PairsLength(s[1..]); }
  }

  lemma {:induction false} SeenIsPrefix(s: seq<AvlNode>)
    ensures Seen(s) <= NonNull(s)
  {
    if s != [] { SeenIsPrefix(s[1..]); }
  }

  /**
   The loop ends having visited every non-null entry once, in order of id, if and only if no null entry comes
   before one of them and it is not the case that INT_MAX is in use while no entry is null.
   */
  lemma LoopSeesAll(s: seq<AvlNode>)
    requires Ascending(s) && InRange(s)
    ensures (exists n: nat :: EndsAfter(s, n) && Visits(s, n) == Pairs(NonNull(s)))
       <==> !NullBefore(Entries(s)) && !Endless(Entries(s))
  {
    hide Ascending, InRange, Entries, NthCall, Visits, Endless, NullBefore, Pairs, Seen, NonNull, EndsAfter;
    LoopEnds(s);
    NullBeforeIs(s);
    SeesAllNonNull(s);
    if n: nat :| EndsAfter(s, n) && Visits(s, n) == Pairs(NonNull(s)) {
      if Endless(Entries(s)) {
        NotEndless(s, n);
      } else {
        EndsOnce(s, n, |Seen(s)|);
        SeenIsPrefix(s);
        PairsLength(Seen(s));
        PairsLength(NonNull(s));
      }
    }
  }

  lemma NotEndless(s: seq<AvlNode>, n: nat)
    requires EndsAfter(s, n)
    ensures NthCall(s, n).0 == NULL
  {}
}
