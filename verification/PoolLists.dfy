/**
 The lists of a worker pool (workqueue.c): work items, the links that tie barriers to the items they
 wait for, and how many items of a kind a list holds.
 */
module PoolLists {

  const WORK_NO_COLOR: int := 15

  /**
   A queued or running work item.  An id stands for a work item with its function; the ticket, which no
   step looks at, is its place in the order of queueing.
   */
  datatype Entry = Entry(id: nat, pwq: nat, color: int, linked: bool, ticket: nat)

  predicate Colored(e: Entry) {
    e.color != WORK_NO_COLOR
  }

  // ---------- counting ----------

  /** Kinds of items. */
  datatype Kind = OfColor(p: nat, c: int) | ColoredOf(p: nat) | OfPwq(p: nat) | OfId(id: nat) | OfTicket(t: nat) | OfItem(p: nat, c: int, t: nat)

  predicate Is(e: Entry, kind: Kind) {
    match kind
    case OfColor(p, c) => e.pwq == p && e.color == c
    case ColoredOf(p) => e.pwq == p && Colored(e)
    case OfPwq(p) => e.pwq == p
    case OfId(id) => e.id == id
    case OfTicket(t) => e.ticket == t
    case OfItem(p, c, t) => e.pwq == p && e.color == c && e.ticket == t
  }

  function One(e: Entry, kind: Kind): nat {
    if Is(e, kind) then 1 else 0
  }

  function Count(s: seq<Entry>, kind: Kind): nat {
    if s == [] then 0 else One(s[0], kind) + Count(s[1..], kind)
  }

  lemma {:induction false} CountAppend(a: seq<Entry>, b: seq<Entry>, kind: Kind)
    ensures Count(a + b, kind) == Count(a, kind) + Count(b, kind)
    decreases |a|
  {
    if a == [] {
      assert a + b == b;
    } else {
      assert (a + b)[1..] == a[1..] + b;
      CountAppend(a[1..], b, kind);
    }
  }

  lemma CountCut(s: seq<Entry>, i: nat, j: nat, kind: Kind)
    requires i <= j <= |s|
    ensures Count(s, kind) == Count(s[..i] + s[j..], kind) + Count(s[i..j], kind)
  {
    assert s == s[..i] + s[i..j] + s[j..];
    CountAppend(s[..i] + s[i..j], s[j..], kind);
    CountAppend(s[..i], s[i..j], kind);
    CountAppend(s[..i], s[j..], kind);
  }

  lemma CountOne(e: Entry, kind: Kind)
    ensures Count([e], kind) == One(e, kind)
  {
    assert Count([e][1..], kind) == 0;
  }

  /** One item at a position. */
  lemma CountAt(s: seq<Entry>, i: nat, kind: Kind)
    requires i < |s|
    ensures Count(s, kind) == Count(s[..i] + s[i + 1..], kind) + One(s[i], kind)
  {
    CountCut(s, i, i + 1, kind);
    assert s[i..i + 1] == [s[i]];
    CountOne(s[i], kind);
  }

  lemma {:induction false} CountNone(s: seq<Entry>, kind: Kind)
    ensures Count(s, kind) == 0 <==> forall e | e in s :: !Is(e, kind)
  {
    if s != [] {
      CountNone(s[1..], kind);
      assert forall e :: e in s <==> e == s[0] || e in s[1..];
    }
  }

  lemma {:induction false} CountAll(s: seq<Entry>, kind: Kind)
    requires forall e | e in s :: Is(e, kind)
    ensures Count(s, kind) == |s|
  {
    if s != [] { CountAll(s[1..], kind); }
  }

  /** Items of the colours below n. */
  function CountColors(s: seq<Entry>, p: nat, n: nat): nat {
    if n == 0 then 0 else CountColors(s, p, n - 1) + Count(s, OfColor(p, n - 1))
  }

  // ---------- links ----------

  /** A linked item is followed by a barrier, and so the last item is not linked. */
  ghost predicate Chained(s: seq<Entry>) {
    forall i | 0 <= i < |s| && s[i].linked :: i + 1 < |s| && !Colored(s[i + 1])
  }

  /** Every barrier comes right after an item that it is linked to. */
  ghost predicate Headed(s: seq<Entry>) {
    forall i | 0 <= i < |s| && !Colored(s[i]) :: i > 0 && s[i - 1].linked
  }

  /** Where move_linked_works, starting at i, stops. */
  function RunEnd(s: seq<Entry>, i: nat): (j: nat)
    requires i < |s|
    ensures i < j <= |s|
    decreases |s| - i
  {
    if s[i].linked && i + 1 < |s| then RunEnd(s, i + 1) else i + 1
  }

  lemma {:induction false} RunStops(s: seq<Entry>, i: nat)
    requires i < |s| && Chained(s)
    ensures !s[RunEnd(s, i) - 1].linked
    ensures forall k | i < k < RunEnd(s, i) :: !Colored(s[k])
    decreases |s| - i
  {
    if s[i].linked { RunStops(s, i + 1); }
  }

  lemma ChainedAppend(a: seq<Entry>, b: seq<Entry>)
    requires Chained(a) && Chained(b)
    ensures Chained(a + b)
  {
    var s := a + b;
    forall i | 0 <= i < |s| && s[i].linked ensures i + 1 < |s| && !Colored(s[i + 1]) {
      if i < |a| { assert a[i].linked; } else { assert b[i - |a|].linked; }
    }
  }

  /** A run can be taken out. */
  lemma RunOut(s: seq<Entry>, i: nat)
    requires i < |s| && Chained(s) && Colored(s[i])
    ensures var j := RunEnd(s, i);
      Chained(s[i..j]) && Chained(s[..i] + s[j..]) && (Headed(s) ==> Headed(s[..i] + s[j..]))
  {
    var j := RunEnd(s, i);
    RunStops(s, i);
    RunParts(s, i, j);
  }

  lemma RunParts(s: seq<Entry>, i: nat, j: nat)
    requires i < j <= |s| && Chained(s) && !s[j - 1].linked && (i > 0 ==> !s[i - 1].linked || Colored(s[i]))
    ensures Chained(s[i..j]) && Chained(s[..i] + s[j..]) && (Headed(s) ==> Headed(s[..i] + s[j..]))
  {
    var r, t := s[i..j], s[..i] + s[j..];
    forall k | 0 <= k < |r| && r[k].linked ensures k + 1 < |r| && !Colored(r[k + 1]) {
      assert s[i + k].linked;
    }
    forall k | 0 <= k < |t| && t[k].linked ensures k + 1 < |t| && !Colored(t[k + 1]) {
      assert t[k] == if k < i then s[k] else s[k + (j - i)];
    }
    if Headed(s) {
      forall k | 0 <= k < |t| && !Colored(t[k]) ensures k > 0 && t[k - 1].linked {
        assert t[k] == if k < i then s[k] else s[k + (j - i)];
      }
    }
  }

  /** A run at the front can be taken out. */
  lemma FrontOut(s: seq<Entry>)
    requires s != [] && Chained(s)
    ensures var j := RunEnd(s, 0); Chained(s[..j]) && Chained(s[j..]) && (Headed(s) ==> Headed(s[j..]))
  {
    var j := RunEnd(s, 0);
    RunStops(s, 0);
    RunParts(s, 0, j);
    assert s[0..j] == s[..j] && s[..0] + s[j..] == s[j..];
  }

  /** A single item at the front can be taken out. */
  lemma FirstOut(s: seq<Entry>)
    requires s != [] && Chained(s)
    ensures Chained(s[1..])
  {
    forall k | 0 <= k < |s[1..]| && s[1..][k].linked ensures k + 1 < |s[1..]| && !Colored(s[1..][k + 1]) {
      assert s[k + 1].linked;
    }
  }

  /** A coloured item can be taken out alone; its barriers stay. */
  lemma ItemOut(s: seq<Entry>, i: nat)
    requires i < |s| && Chained(s) && Colored(s[i])
    ensures Chained(s[..i] + s[i + 1..])
  {
    var t := s[..i] + s[i + 1..];
    forall k | 0 <= k < |t| && t[k].linked ensures k + 1 < |t| && !Colored(t[k + 1]) {
      assert t[k] == if k < i then s[k] else s[k + 1];
      if k < i { assert s[k].linked; } else { assert s[k + 1].linked; }
    }
  }

  // ---------- barriers ----------

  /** insert_wq_barrier behind the item at i, which inherits and sets the link. */
  function WithBarrier(s: seq<Entry>, i: nat, id: nat, ticket: nat): seq<Entry>
    requires i < |s|
  {
    s[..i] + [s[i].(linked := true), Entry(id, s[i].pwq, WORK_NO_COLOR, s[i].linked, ticket)] + s[i + 1..]
  }

  lemma BarrierChained(s: seq<Entry>, i: nat, id: nat, ticket: nat)
    requires i < |s| && Chained(s)
    ensures Chained(WithBarrier(s, i, id, ticket)) && (Headed(s) ==> Headed(WithBarrier(s, i, id, ticket)))
  {
    var t := WithBarrier(s, i, id, ticket);
    forall k | 0 <= k < |t| && t[k].linked ensures k + 1 < |t| && !Colored(t[k + 1]) {
      if k < i { assert s[k].linked; }
      if k > i { assert s[k - 1].linked; }
    }
    if Headed(s) {
      forall k | 0 <= k < |t| && !Colored(t[k]) ensures k > 0 && t[k - 1].linked {
        if k <= i { assert !Colored(s[k]); }
        if k > i + 1 { assert !Colored(s[k - 1]) && t[k] == s[k - 1]; }
      }
    }
  }

  lemma BarrierCount(s: seq<Entry>, i: nat, id: nat, ticket: nat, kind: Kind)
    requires i < |s|
    ensures Count(WithBarrier(s, i, id, ticket), kind) == Count(s, kind) + One(Entry(id, s[i].pwq, WORK_NO_COLOR, s[i].linked, ticket), kind)
  {
    var x, b := s[i].(linked := true), Entry(id, s[i].pwq, WORK_NO_COLOR, s[i].linked, ticket);
    CountAt(s, i, kind);
    CountAppend(s[..i], s[i + 1..], kind);
    CountAppend(s[..i] + [x, b], s[i + 1..], kind);
    CountAppend(s[..i], [x, b], kind);
    assert [x, b] == [x] + [b];
    CountAppend([x], [b], kind);
    CountOne(x, kind);
    CountOne(b, kind);
  }
}
