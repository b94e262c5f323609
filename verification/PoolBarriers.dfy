/** A barrier starts only after the item that it was queued behind has finished or has been taken back. */
module PoolBarriers {
  import opened Options
  import opened PoolLists
  import opened PoolProtocol
  import opened PoolInvariant
  import opened PoolSteps
  import opened PoolTheorems
  import opened PoolTickets

  // ---------- lists ----------

  /** From x to y, each item is linked to the next. */
  ghost predicate Chain(l: seq<Entry>, x: int, y: int) {
    0 <= x < y < |l| && forall k | x <= k < y :: l[k].linked
  }

  /** The item with ticket b stands behind the one with ticket t in one linked run. */
  ghost predicate Follows(l: seq<Entry>, t: nat, b: nat) {
    exists x, y :: Chain(l, x, y) && l[x].ticket == t && l[y].ticket == b
  }

  /** The list has the barrier with ticket b. */
  ghost predicate Holds(l: seq<Entry>, b: nat) {
    exists i :: 0 <= i < |l| && l[i].ticket == b && !Colored(l[i])
  }

  lemma FollowsAt(l: seq<Entry>, x: int, y: int, t: nat, b: nat)
    requires Chain(l, x, y) && l[x].ticket == t && l[y].ticket == b
    ensures Follows(l, t, b)
  {}

  /** The stretch from x to y stands d places further on in m. */
  lemma FollowsMoved(l: seq<Entry>, x: int, y: int, m: seq<Entry>, d: int, t: nat, b: nat)
    requires Chain(l, x, y) && l[x].ticket == t && l[y].ticket == b
    requires 0 <= x + d && y + d < |m| && forall k | x <= k <= y :: m[k + d] == l[k]
    ensures Follows(m, t, b)
  {
    forall k | x + d <= k < y + d ensures m[k].linked { assert m[(k - d) + d] == l[k - d]; }
    assert m[x + d] == l[x] && m[y + d] == l[y];
    FollowsAt(m, x + d, y + d, t, b);
  }

  lemma ChainAppend(l: seq<Entry>, m: seq<Entry>, x: int, y: int, t: nat, b: nat)
    requires Chain(m, x, y) && m[x].ticket == t && m[y].ticket == b
    ensures Follows(l + m, t, b)
  {
    hide Follows;
    FollowsMoved(m, x, y, l + m, |l|, t, b);
  }

  lemma ChainPrepend(l: seq<Entry>, m: seq<Entry>, x: int, y: int, t: nat, b: nat)
    requires Chain(l, x, y) && l[x].ticket == t && l[y].ticket == b
    ensures Follows(l + m, t, b)
  {
    hide Follows;
    FollowsMoved(l, x, y, l + m, 0, t, b);
  }

  lemma FollowsAppend(l: seq<Entry>, m: seq<Entry>, t: nat, b: nat)
    requires Follows(l, t, b) || Follows(m, t, b)
    ensures Follows(l + m, t, b)
  {
    if Follows(l, t, b) {
      var x, y :| Chain(l, x, y) && l[x].ticket == t && l[y].ticket == b;
      ChainPrepend(l, m, x, y, t, b);
    } else {
      var x, y :| Chain(m, x, y) && m[x].ticket == t && m[y].ticket == b;
      ChainAppend(l, m, x, y, t, b);
    }
  }

  /** A linked stretch does not reach over the end of a run. */
  lemma ChainStops(l: seq<Entry>, x: int, y: int, j: nat)
    requires Chain(l, x, y) && 0 < j <= |l| && !l[j - 1].linked
    ensures y < j || x >= j
  {}

  /** Whole runs are taken out: nobody is torn from what stands before. */
  lemma FollowsCut(l: seq<Entry>, i: nat, j: nat, t: nat, b: nat)
    requires i < j <= |l| && Chained(l) && !l[j - 1].linked && (i > 0 ==> Colored(l[i])) && Follows(l, t, b)
    ensures Follows(l[i..j], t, b) || Follows(l[..i] + l[j..], t, b)
  {
    var x, y :| Chain(l, x, y) && l[x].ticket == t && l[y].ticket == b;
    assert i > 0 ==> !l[i - 1].linked;
    if i > 0 { ChainStops(l, x, y, i); }
    ChainStops(l, x, y, j);
    hide Follows, Chained, Chain;
    if y < i {
      FollowsMoved(l, x, y, l[..i] + l[j..], 0, t, b);
    } else if x >= j {
      FollowsMoved(l, x, y, l[..i] + l[j..], i - j, t, b);
    } else {
      FollowsMoved(l, x, y, l[i..j], 0 - i, t, b);
    }
  }

  lemma FollowsFront(l: seq<Entry>, t: nat, b: nat)
    requires l != [] && Chained(l) && Follows(l, t, b)
    ensures Follows(l[..RunEnd(l, 0)], t, b) || Follows(l[RunEnd(l, 0)..], t, b)
  {
    var j := RunEnd(l, 0);
    RunStops(l, 0);
    FollowsCut(l, 0, j, t, b);
    assert l[0..j] == l[..j] && l[..0] + l[j..] == l[j..];
  }

  /** A coloured item taken out leaves its barriers, and no other barrier loses its target. */
  lemma FollowsWithout(l: seq<Entry>, i: nat, t: nat, b: nat)
    requires i < |l| && Chained(l) && Colored(l[i]) && Follows(l, t, b)
    ensures l[i].ticket == t || Follows(l[..i] + l[i + 1..], t, b)
  {
    var x, y :| Chain(l, x, y) && l[x].ticket == t && l[y].ticket == b;
    var m := l[..i] + l[i + 1..];
    if i < x {
      FollowsMoved(l, x, y, m, -1, t, b);
    } else if i > y {
      FollowsMoved(l, x, y, m, 0, t, b);
    } else {
      assert i > 0 ==> !l[i - 1].linked;
    }
  }

  /** The first item goes: what follows it is still there. */
  lemma FollowsRest(l: seq<Entry>, t: nat, b: nat)
    requires l != [] && Chained(l) && Follows(l, t, b)
    ensures Follows(l[1..], t, b) || (l[0].linked && l[0].ticket == t && Holds(l[1..], b))
  {
    var x, y :| Chain(l, x, y) && l[x].ticket == t && l[y].ticket == b;
    if x == 0 {
      assert l[y - 1].linked && l[1..][y - 1] == l[y];
    } else {
      FollowsMoved(l, x, y, l[1..], -1, t, b);
    }
  }

  lemma FollowsBarrier(l: seq<Entry>, i: nat, id: nat, ticket: nat, t: nat, b: nat)
    requires i < |l| && Follows(l, t, b)
    ensures Follows(WithBarrier(l, i, id, ticket), t, b)
  {
    var x, y :| Chain(l, x, y) && l[x].ticket == t && l[y].ticket == b;
    var m := WithBarrier(l, i, id, ticket);
    var x', y' := if x <= i then x else x + 1, if y <= i then y else y + 1;
    forall k | x' <= k < y' ensures m[k].linked {
      if k < i { assert m[k] == l[k]; } else if k > i + 1 { assert m[k] == l[k - 1]; } else if k == i + 1 { assert l[i].linked; }
    }
    FollowsAt(m, x', y', t, b);
  }

  lemma NewFollows(l: seq<Entry>, i: nat, id: nat, ticket: nat)
    requires i < |l|
    ensures Follows(WithBarrier(l, i, id, ticket), l[i].ticket, ticket)
  {
    FollowsAt(WithBarrier(l, i, id, ticket), i, i + 1, l[i].ticket, ticket);
  }

  lemma HoldsBarrier(l: seq<Entry>, i: nat, id: nat, ticket: nat, b: nat)
    requires i < |l| && Holds(l, b)
    ensures Holds(WithBarrier(l, i, id, ticket), b)
  {
    var k :| 0 <= k < |l| && l[k].ticket == b && !Colored(l[k]);
    assert WithBarrier(l, i, id, ticket)[if k <= i then k else k + 1].ticket == b;
  }

  lemma HoldsAppend(l: seq<Entry>, m: seq<Entry>, b: nat)
    requires Holds(l, b) || Holds(m, b)
    ensures Holds(l + m, b)
  {
    if Holds(l, b) {
      var k :| 0 <= k < |l| && l[k].ticket == b && !Colored(l[k]);
      assert (l + m)[k].ticket == b;
    } else {
      var k :| 0 <= k < |m| && m[k].ticket == b && !Colored(m[k]);
      assert (l + m)[|l| + k].ticket == b;
    }
  }

  // ---------- the tie ----------

  /** At a worker: behind the target in its list, or in its list while it runs the target. */
  ghost predicate AtWorker(w: Worker, t: nat, b: nat) {
    || Follows(w.scheduled, t, b)
    || (w.current.Some? && w.current.value.ticket == t && Holds(w.scheduled, b))
  }

  /** The barrier with ticket b cannot start before the item with ticket t is gone. */
  ghost predicate Tied(s: State, t: nat, b: nat) {
    || Follows(s.worklist, t, b)
    || (exists w :: 0 <= w < |s.workers| && AtWorker(s.workers[w], t, b))
    || (exists p :: 0 <= p < |s.pwqs| && Follows(s.pwqs[p].delayedWorks, t, b))
  }

  lemma TiedAtWorker(s: State, w: nat, t: nat, b: nat)
    requires w < |s.workers| && AtWorker(s.workers[w], t, b)
    ensures Tied(s, t, b)
  {}

  lemma TiedDelayed(s: State, p: nat, t: nat, b: nat)
    requires p < |s.pwqs| && Follows(s.pwqs[p].delayedWorks, t, b)
    ensures Tied(s, t, b)
  {}

  /** All delayed lists as they were. */
  ghost predicate SameDelayed(s: State, s': State) {
    |s'.pwqs| == |s.pwqs| && forall p | 0 <= p < |s.pwqs| :: s'.pwqs[p].delayedWorks == s.pwqs[p].delayedWorks
  }

  lemma StillTied(s: State, s': State, t: nat, b: nat)
    requires Tied(s, t, b) && s'.worklist == s.worklist && s'.workers == s.workers && SameDelayed(s, s')
    ensures Tied(s', t, b)
  {
    hide Follows, AtWorker;
    if Follows(s.worklist, t, b) {
    } else if w :| 0 <= w < |s.workers| && AtWorker(s.workers[w], t, b) {
      TiedAtWorker(s', w, t, b);
    } else {
      var p :| 0 <= p < |s.pwqs| && Follows(s.pwqs[p].delayedWorks, t, b);
      TiedDelayed(s', p, t, b);
    }
  }

  /** One worker changes: if its tie is kept, all are. */
  lemma TiedWorker(s: State, s': State, w: nat, t: nat, b: nat)
    requires w < |s.workers| && |s'.workers| == |s.workers| && SameDelayed(s, s') && Tied(s, t, b)
    requires forall v | 0 <= v < |s.workers| && v != w :: s'.workers[v] == s.workers[v]
    requires AtWorker(s.workers[w], t, b) || Follows(s.worklist, t, b) ==> Tied(s', t, b)
    ensures Tied(s', t, b)
  {
    hide Follows, AtWorker;
    if Follows(s.worklist, t, b) || AtWorker(s.workers[w], t, b) {
    } else if v :| 0 <= v < |s.workers| && AtWorker(s.workers[v], t, b) {
      TiedAtWorker(s', v, t, b);
    } else {
      var p :| 0 <= p < |s.pwqs| && Follows(s.pwqs[p].delayedWorks, t, b);
      TiedDelayed(s', p, t, b);
    }
  }

  lemma AtWorkerAppend(w: Worker, m: seq<Entry>, t: nat, b: nat)
    requires AtWorker(w, t, b) || Follows(m, t, b)
    ensures AtWorker(w.(scheduled := w.scheduled + m), t, b)
  {
    if Follows(w.scheduled, t, b) || Follows(m, t, b) {
      FollowsAppend(w.scheduled, m, t, b);
    } else {
      HoldsAppend(w.scheduled, m, b);
    }
  }

  lemma TakeTied(s: State, v: nat, t: nat, b: nat)
    requires Listed(s) && Tied(s, t, b) && v < |s.workers| && s.worklist != []
    ensures var j := RunEnd(s.worklist, 0);
      Tied(s.(worklist := s.worklist[j..], workers := s.workers[v := s.workers[v].(scheduled := s.workers[v].scheduled + s.worklist[..j])]), t, b)
  {
    hide Follows, AtWorker;
    var j := RunEnd(s.worklist, 0);
    var x := s.workers[v].(scheduled := s.workers[v].scheduled + s.worklist[..j]);
    var s' := s.(worklist := s.worklist[j..], workers := s.workers[v := x]);
    if Follows(s.worklist, t, b) { FollowsFront(s.worklist, t, b); }
    if AtWorker(s.workers[v], t, b) || Follows(s.worklist[..j], t, b) {
      AtWorkerAppend(s.workers[v], s.worklist[..j], t, b);
      TiedAtWorker(s', v, t, b);
    }
    TiedWorker(s, s', v, t, b);
  }

  lemma DeferTied(s: State, w: nat, v: nat, fromWorklist: bool, t: nat, b: nat)
    requires Listed(s) && Tied(s, t, b) && CanDefer(s, w, v, fromWorklist)
    ensures Tied(Defer(s, w, v, fromWorklist), t, b)
  {
    hide Follows, AtWorker, Listed;
    if fromWorklist {
      TakeTied(s, v, t, b);
    } else {
      DeferScheduledTied(s, w, v, t, b);
    }
  }

  lemma DeferScheduledTied(s: State, w: nat, v: nat, t: nat, b: nat)
    requires Listed(s) && Tied(s, t, b) && CanDefer(s, w, v, false)
    ensures Tied(Defer(s, w, v, false), t, b)
  {
    hide Follows;
    var l := s.workers[w].scheduled;
    var j := RunEnd(l, 0);
    var x, y := s.workers[w].(scheduled := l[j..]), s.workers[v].(scheduled := s.workers[v].scheduled + l[..j]);
    var s1 := s.(workers := s.workers[v := y]);
    var s' := Defer(s, w, v, false);
    assert WorkerOk(s.workers[w], |s.pwqs|);
    if Follows(l, t, b) { FollowsFront(l, t, b); }
    if AtWorker(s.workers[v], t, b) || Follows(l[..j], t, b) {
      AtWorkerAppend(s.workers[v], l[..j], t, b);
      TiedAtWorker(s', v, t, b);
    } else if Follows(l[j..], t, b) {
      TiedAtWorker(s', w, t, b);
    } else {
      assert !AtWorker(s.workers[w], t, b);
      hide AtWorker;
      TiedWorker(s, s1, v, t, b);
      TiedWorker(s1, s', w, t, b);
    }
  }

  lemma WithoutTied(s: State, at: Place, t: nat, b: nat)
    requires Listed(s) && Tied(s, t, b) && Exists(s, at) && !at.InDelayed? && Colored(At(s, at)) && At(s, at).ticket != t
    ensures Tied(Without(s, at), t, b)
  {
    hide Follows;
    var s' := Without(s, at);
    match at {
      case InWorklist(i) =>
        if Follows(s.worklist, t, b) { FollowsWithout(s.worklist, i, t, b); } else { hide AtWorker; WorklistTied(s, s', t, b); }
      case InScheduled(w, i) =>
        var x := s.workers[w];
        assert WorkerOk(x, |s.pwqs|);
        if AtWorker(x, t, b) {
          if Follows(x.scheduled, t, b) { FollowsWithout(x.scheduled, i, t, b); } else { HoldsWithout(x.scheduled, i, b); }
          TiedAtWorker(s', w, t, b);
        }
        hide AtWorker;
        TiedWorker(s, s', w, t, b);
    }
  }

  lemma HoldsWithout(l: seq<Entry>, i: nat, b: nat)
    requires i < |l| && Colored(l[i]) && Holds(l, b)
    ensures Holds(l[..i] + l[i + 1..], b)
  {
    var k :| 0 <= k < |l| && l[k].ticket == b && !Colored(l[k]);
    assert (l[..i] + l[i + 1..])[if k < i then k else k - 1].ticket == b;
  }

  /** Only the worklist changes. */
  lemma WorklistTied(s: State, s': State, t: nat, b: nat)
    requires Tied(s, t, b) && s'.workers == s.workers && SameDelayed(s, s')
    requires Follows(s.worklist, t, b) ==> Follows(s'.worklist, t, b)
    ensures Tied(s', t, b)
  {
    hide Follows, AtWorker;
    if Follows(s.worklist, t, b) {
    } else {
      StillTied(s.(worklist := s'.worklist), s', t, b);
    }
  }

  lemma ActivateTied(s: State, p: nat, i: nat, t: nat, b: nat)
    requires Listed(s) && Tied(s, t, b) && p < |s.pwqs| && i < |s.pwqs[p].delayedWorks| && Colored(s.pwqs[p].delayedWorks[i])
    ensures Tied(Activate(s, p, i), t, b)
  {
    hide Follows, AtWorker;
    var s', d := Activate(s, p, i), s.pwqs[p].delayedWorks;
    var j := RunEnd(d, i);
    assert PwqOk(s.pwqs[p], p, |s.pwqs|);
    RunStops(d, i);
    if Follows(d, t, b) { FollowsCut(d, i, j, t, b); }
    if Follows(s.worklist, t, b) || Follows(d[i..j], t, b) {
      FollowsAppend(s.worklist, d[i..j], t, b);
    } else if Follows(d[..i] + d[j..], t, b) {
      TiedDelayed(s', p, t, b);
    } else if w :| 0 <= w < |s.workers| && AtWorker(s.workers[w], t, b) {
      TiedAtWorker(s', w, t, b);
    } else {
      var q :| 0 <= q < |s.pwqs| && Follows(s.pwqs[q].delayedWorks, t, b);
      TiedDelayed(s', q, t, b);
    }
  }

  lemma DecTied(s: State, p: nat, c: int, t: nat, b: nat)
    requires Listed(s) && Tied(s, t, b) && p < |s.pwqs| && (c != WORK_NO_COLOR ==> 0 <= c < |s.pwqs[p].nrInFlight|)
    ensures Tied(Dec(s, p, c), t, b)
  {
    hide Tied, Activate;
    if c == WORK_NO_COLOR {
      StillTied(s, Put(s, p), t, b);
    } else {
      DecIs(s, p, c);
      var s1 := Drop(s, p, c);
      StillTied(s, s1, t, b);
      if s.pwqs[p].delayedWorks != [] && s.pwqs[p].nrActive - 1 < s.pwqs[p].maxActive {
        DropListed(s, p, c);
        FirstColored(s1, p);
        ActivateTied(s1, p, 0, t, b);
      }
    }
  }

  lemma GrabTied(s: State, at: Place, t: nat, b: nat)
    requires Listed(s) && Tied(s, t, b) && CanGrab(s, at) && At(s, at).ticket != t
    ensures Tied(Grab(s, at), t, b)
  {
    hide Tied, Dec;
    var e := At(s, at);
    AtFits(s, at);
    if at.InDelayed? {
      var s1, last := Activate(s, at.p, at.i), InWorklist(|s.worklist|);
      ActivateTied(s, at.p, at.i, t, b);
      ActivateListed(s, at.p, at.i);
      assert s1.worklist[|s.worklist|] == e;
      WithoutTied(s1, last, t, b);
      WithoutListed(s1, last);
      hide Listed;
      DecTied(Without(s1, last), e.pwq, e.color, t, b);
    } else {
      WithoutTied(s, at, t, b);
      WithoutListed(s, at);
      hide Listed;
      DecTied(Without(s, at), e.pwq, e.color, t, b);
    }
  }

  lemma FinishTied(s: State, w: nat, t: nat, b: nat)
    requires Listed(s) && Tied(s, t, b) && CanFinish(s, w) && s.workers[w].current.value.ticket != t
    ensures Tied(Finish(s, w), t, b)
  {
    hide Dec;
    var e := s.workers[w].current.value;
    var x := s.workers[w].(current := None);
    var s1 := s.(workers := s.workers[w := x]);
    assert WorkerOk(s.workers[w], |s.pwqs|) && WorkerOk(x, |s.pwqs|);
    if AtWorker(s.workers[w], t, b) { TiedAtWorker(s1, w, t, b); }
    assert Listed(s1);
    hide AtWorker, Follows, Listed;
    TiedWorker(s, s1, w, t, b);
    DecTied(s1, e.pwq, e.color, t, b);
  }

  lemma StartTied(s: State, w: nat, fromWorklist: bool, t: nat, b: nat)
    requires Listed(s) && Tied(s, t, b) && CanStart(s, w, fromWorklist)
    ensures Tied(Start(s, w, fromWorklist), t, b)
  {
    hide Follows;
    var s', e := Start(s, w, fromWorklist), Next(s, w, fromWorklist);
    assert WorkerOk(s.workers[w], |s.pwqs|);
    assert SameDelayed(s, s') by { StartedPwqs(s.(pending := s.pending - {e.id}), e); }
    if fromWorklist {
      if Follows(s.worklist, t, b) { FollowsRest(s.worklist, t, b); }
      assert !AtWorker(s.workers[w], t, b) by { assert !Follows([], t, b) by { NothingFollows(t, b); } }
      hide AtWorker;
      TiedWorker(s, s', w, t, b);
    } else {
      if AtWorker(s.workers[w], t, b) {
        FollowsRest(s.workers[w].scheduled, t, b);
        TiedAtWorker(s', w, t, b);
      }
      hide AtWorker;
      TiedWorker(s, s', w, t, b);
    }
  }

  lemma NothingFollows(t: nat, b: nat)
    ensures !Follows([], t, b)
  {}

  lemma QueueTied(s: State, p: nat, id: nat, t: nat, b: nat)
    requires Tied(s, t, b) && CanQueue(s, p, id)
    ensures Tied(Queue(s, p, id), t, b)
  {
    hide Follows, AtWorker;
    var s' := Queue(s, p, id);
    var e := Entry(id, p, s.pwqs[p].workColor, false, s.nextTicket);
    if Follows(s.worklist, t, b) {
      FollowsAppend(s.worklist, [e], t, b);
    } else if w :| 0 <= w < |s.workers| && AtWorker(s.workers[w], t, b) {
      TiedAtWorker(s', w, t, b);
    } else {
      var q :| 0 <= q < |s.pwqs| && Follows(s.pwqs[q].delayedWorks, t, b);
      FollowsAppend(s.pwqs[q].delayedWorks, [e], t, b);
      TiedDelayed(s', q, t, b);
    }
  }

  lemma BarrierTied(s: State, at: Place, id: nat, t: nat, b: nat)
    requires Tied(s, t, b) && CanBarrier(s, at, id)
    ensures Tied(Barrier(s, at, id), t, b)
  {
    hide Follows;
    var s' := Barrier(s, at, id);
    match at {
      case InWorklist(i) =>
        if Follows(s.worklist, t, b) { FollowsBarrier(s.worklist, i, id, s.nextTicket, t, b); }
        hide AtWorker;
        WorklistTied(s, s', t, b);
      case InScheduled(w, i) =>
        var x := s.workers[w];
        if AtWorker(x, t, b) {
          if Follows(x.scheduled, t, b) { FollowsBarrier(x.scheduled, i, id, s.nextTicket, t, b); }
          else { HoldsBarrier(x.scheduled, i, id, s.nextTicket, b); }
          TiedAtWorker(s', w, t, b);
        }
        hide AtWorker;
        TiedWorker(s, s', w, t, b);
      case InDelayed(p, i) =>
        hide AtWorker;
        BarrierDelayedTied(s, at, id, t, b);
    }
  }

  lemma BarrierDelayedTied(s: State, at: Place, id: nat, t: nat, b: nat)
    requires Tied(s, t, b) && CanBarrier(s, at, id) && at.InDelayed?
    ensures Tied(Barrier(s, at, id), t, b)
  {
    hide Follows, AtWorker;
    var s' := Barrier(s, at, id);
    if Follows(s.worklist, t, b) {
    } else if w :| 0 <= w < |s.workers| && AtWorker(s.workers[w], t, b) {
      TiedAtWorker(s', w, t, b);
    } else {
      var p :| 0 <= p < |s.pwqs| && Follows(s.pwqs[p].delayedWorks, t, b);
      if p == at.p { FollowsBarrier(s.pwqs[p].delayedWorks, at.i, id, s.nextTicket, t, b); }
      TiedDelayed(s', p, t, b);
    }
  }

  lemma BarrierRunningTied(s: State, w: nat, id: nat, t: nat, b: nat)
    requires Tied(s, t, b) && CanBarrierRunning(s, w, id)
    ensures Tied(BarrierRunning(s, w, id), t, b)
  {
    hide Follows;
    var s', x := BarrierRunning(s, w, id), s.workers[w];
    var e := Entry(id, x.current.value.pwq, WORK_NO_COLOR, false, s.nextTicket);
    if AtWorker(x, t, b) {
      if Follows(x.scheduled, t, b) { FollowsAppend([e], x.scheduled, t, b); } else { HoldsAppend([e], x.scheduled, b); }
      TiedAtWorker(s', w, t, b);
    }
    hide AtWorker;
    TiedWorker(s, s', w, t, b);
  }

  // ---------- all steps ----------

  /** The item with ticket t is gone, or the barrier with ticket b is tied to it. */
  ghost predicate Blocked(s: State, t: nat, b: nat) {
    Total(s, OfTicket(t)) == 0 || Tied(s, t, b)
  }

  /** The step takes the item with ticket t away. */
  ghost predicate TakesAway(s: State, step: Step, t: nat) {
    Enabled(s, step) && Leaving(s, step) != [] && Leaving(s, step)[0].ticket == t
  }

  lemma StepTied(s: State, step: Step, t: nat, b: nat)
    requires Listed(s) && Enabled(s, step) && Tied(s, t, b) && !TakesAway(s, step, t)
    ensures Tied(Apply(s, step), t, b)
  {
    hide Tied, Listed;
    match step {
      case DoSetColor(p, c) => StillTied(s, SetColor(s, p, c), t, b);
      case DoQueue(p, id) => QueueTied(s, p, id, t, b);
      case DoGrab(at) => GrabTied(s, at, t, b);
      case DoClaim(id) => StillTied(s, Claim(s, id), t, b);
      case DoRelease(id) => StillTied(s, Release(s, id), t, b);
      case DoBarrier(at, id) => BarrierTied(s, at, id, t, b);
      case DoBarrierRunning(w, id) => BarrierRunningTied(s, w, id, t, b);
      case DoTakeRun(w) => TakeTied(s, w, t, b);
      case DoDefer(w, v, fromWorklist) => DeferTied(s, w, v, fromWorklist, t, b);
      case DoStart(w, fromWorklist) => StartTied(s, w, fromWorklist, t, b);
      case DoFinish(w) => FinishTied(s, w, t, b);
    }
  }

  lemma StepBlocked(s: State, step: Step, t: nat, b: nat)
    requires Inv(s) && Unique(s) && Enabled(s, step) && t < s.nextTicket && Blocked(s, t, b)
    ensures Blocked(Apply(s, step), t, b) && t < Apply(s, step).nextTicket
  {
    hide Listed, Counted, Limits, Owned, Alone, Tied, Total, Enabled, Apply, Arriving, Leaving;
    NextTicketGrows(s, step);
    assert Total(s, OfTicket(t)) <= 1;
    if Total(s, OfTicket(t)) == 0 || TakesAway(s, step, t) {
      Conserved(s, step, OfTicket(t));
      CountNone(Arriving(s, step), OfTicket(t));
      if TakesAway(s, step, t) { TakenCounts(Leaving(s, step), OfTicket(t)); }
    } else {
      StepTied(s, step, t, b);
    }
  }

  lemma TakenCounts(l: seq<Entry>, kind: Kind)
    requires l != [] && Is(l[0], kind)
    ensures Count(l, kind) >= 1
  {}

  /** While a tied barrier runs, it is there twice. */
  lemma TiedIsQueued(s: State, t: nat, b: nat)
    requires Tied(s, t, b)
    ensures Count(s.worklist, OfTicket(b)) + Held(s.workers, OfTicket(b)) + Delayed(s.pwqs, OfTicket(b)) >= 1
  {
    hide Count, Held, Delayed;
    if Follows(s.worklist, t, b) {
      var x, y :| Chain(s.worklist, x, y) && s.worklist[x].ticket == t && s.worklist[y].ticket == b;
      PlaceCounts(s, InWorklist(y), OfTicket(b));
    } else if w :| 0 <= w < |s.workers| && AtWorker(s.workers[w], t, b) {
      var l := s.workers[w].scheduled;
      if Follows(l, t, b) {
        var x, y :| Chain(l, x, y) && l[x].ticket == t && l[y].ticket == b;
        PlaceCounts(s, InScheduled(w, y), OfTicket(b));
      } else {
        var y :| 0 <= y < |l| && l[y].ticket == b && !Colored(l[y]);
        PlaceCounts(s, InScheduled(w, y), OfTicket(b));
      }
    } else {
      var p :| 0 <= p < |s.pwqs| && Follows(s.pwqs[p].delayedWorks, t, b);
      var l := s.pwqs[p].delayedWorks;
      var x, y :| Chain(l, x, y) && l[x].ticket == t && l[y].ticket == b;
      PlaceCounts(s, InDelayed(p, y), OfTicket(b));
    }
  }

  /** A blocked barrier that starts has seen its target go. */
  lemma BlockedStart(s: State, w: nat, fromWorklist: bool, t: nat, b: nat)
    requires Inv(s) && Unique(s) && Blocked(s, t, b) && CanStart(s, w, fromWorklist) && Next(s, w, fromWorklist).ticket == b
    ensures Total(s, OfTicket(t)) == 0
  {
    hide Listed, Counted, Limits, Owned, Alone, Tied, Active;
    var s' := Start(s, w, fromWorklist);
    if Total(s, OfTicket(t)) != 0 {
      StartTied(s, w, fromWorklist, t, b);
      TiedIsQueued(s', t, b);
      RunningCounts(s', w, OfTicket(b));
      StartTotal(s, w, fromWorklist, OfTicket(b));
      assert Total(s, OfTicket(b)) <= 1;
      TotalParts(s', OfTicket(b));
    }
  }

  lemma TotalParts(s: State, kind: Kind)
    ensures Total(s, kind) == Count(s.worklist, kind) + Held(s.workers, kind) + Delayed(s.pwqs, kind) + Running(s.workers, kind)
  {}

  // ---------- runs ----------

  /** The step queues a barrier behind the item with ticket t. */
  ghost predicate InsertsBehind(s: State, step: Step, t: nat) {
    match step
    case DoBarrier(at, id) => CanBarrier(s, at, id) && At(s, at).ticket == t
    case DoBarrierRunning(w, id) => CanBarrierRunning(s, w, id) && s.workers[w].current.value.ticket == t
    case _ => false
  }

  lemma InsertBlocks(s: State, step: Step, t: nat)
    requires Inv(s) && Unique(s) && Enabled(s, step) && InsertsBehind(s, step, t)
    ensures Blocked(Apply(s, step), t, s.nextTicket) && t < s.nextTicket && Total(Apply(s, step), OfTicket(t)) == 1
  {
    hide Listed, Counted, Limits, Owned, Alone, Total, Follows, Apply, Arriving, Leaving, AtWorker;
    TargetCounts(s, step, t);
    assert Total(s, OfTicket(t)) <= if t < s.nextTicket then 1 else 0;
    Conserved(s, step, OfTicket(t));
    NextTicketGrows(s, step);
    CountNone(Arriving(s, step), OfTicket(t));
    NoneLeaves(s, step, t);
    InsertTies(s, step, t);
  }

  lemma NoneLeaves(s: State, step: Step, t: nat)
    requires Enabled(s, step) && InsertsBehind(s, step, t)
    ensures Count(Leaving(s, step), OfTicket(t)) == 0
  {}

  lemma TargetCounts(s: State, step: Step, t: nat)
    requires InsertsBehind(s, step, t)
    ensures Total(s, OfTicket(t)) >= 1
  {
    hide Count, Held, Delayed, Running;
    match step {
      case DoBarrier(at, id) => PlaceCounts(s, at, OfTicket(t));
      case DoBarrierRunning(w, id) => RunningCounts(s, w, OfTicket(t));
    }
  }

  lemma InsertTies(s: State, step: Step, t: nat)
    requires Enabled(s, step) && InsertsBehind(s, step, t)
    ensures Tied(Apply(s, step), t, s.nextTicket)
  {
    hide Follows;
    var s', b := Apply(s, step), s.nextTicket;
    match step {
      case DoBarrier(at, id) =>
        match at {
          case InWorklist(i) => NewFollows(s.worklist, i, id, b);
          case InScheduled(w, i) =>
            NewFollows(s.workers[w].scheduled, i, id, b);
            TiedAtWorker(s', w, t, b);
          case InDelayed(p, i) =>
            NewFollows(s.pwqs[p].delayedWorks, i, id, b);
            TiedDelayed(s', p, t, b);
        }
      case DoBarrierRunning(w, id) =>
        assert s'.workers[w].scheduled[0].ticket == b;
        TiedAtWorker(s', w, t, b);
    }
  }

  lemma {:induction false} RunBlocked(states: seq<State>, steps: seq<Step>, i: nat, j: nat, t: nat)
    requires IsRun(states, steps) && i < j < |states| && InsertsBehind(states[i], steps[i], t)
    ensures Blocked(states[j], t, states[i].nextTicket) && t < states[j].nextTicket
    ensures Total(states[j], OfTicket(t)) == 1 || exists k :: i < k < j && TakesAway(states[k], steps[k], t)
  {
    hide Inv, Apply, Enabled, Blocked, Total, InsertsBehind, Unique;
    RunInv(states, steps, j - 1);
    RunUnique(states, steps, j - 1);
    NextTicketGrows(states[j - 1], steps[j - 1]);
    if j == i + 1 {
      InsertBlocks(states[i], steps[i], t);
    } else {
      RunBlocked(states, steps, i, j - 1, t);
      StepBlocked(states[j - 1], steps[j - 1], t, states[i].nextTicket);
      if !TakesAway(states[j - 1], steps[j - 1], t) { StaysThere(states[j - 1], steps[j - 1], t); }
    }
  }

  /** A step that does not take the item away leaves it there. */
  lemma StaysThere(s: State, step: Step, t: nat)
    requires Inv(s) && Enabled(s, step) && t < s.nextTicket && !TakesAway(s, step, t)
    ensures Total(Apply(s, step), OfTicket(t)) == Total(s, OfTicket(t))
  {
    hide Inv, Enabled, Apply, Arriving, Leaving, Total;
    NextTicketGrows(s, step);
    Conserved(s, step, OfTicket(t));
    CountNone(Arriving(s, step), OfTicket(t));
    CountNone(Leaving(s, step), OfTicket(t));
  }

  lemma {:induction false} StaysGone(states: seq<State>, steps: seq<Step>, i: nat, j: nat, t: nat)
    requires IsRun(states, steps) && i <= j < |states| && t < states[i].nextTicket && Total(states[i], OfTicket(t)) == 0
    ensures t < states[j].nextTicket && Total(states[j], OfTicket(t)) == 0
  {
    hide Inv, Apply, Enabled, Total;
    if i < j {
      StaysGone(states, steps, i, j - 1, t);
      RunInv(states, steps, j - 1);
      NextTicketGrows(states[j - 1], steps[j - 1]);
      Conserved(states[j - 1], steps[j - 1], OfTicket(t));
      CountNone(Arriving(states[j - 1], steps[j - 1]), OfTicket(t));
    }
  }

  /**
   A barrier is queued at step i behind the item with ticket t, waiting or running, and starts at step j.
   In between, that item has been taken back or its function has returned, and it is never there again.
   */
  lemma BarrierWaits(states: seq<State>, steps: seq<Step>, i: nat, j: nat, t: nat)
    requires IsRun(states, steps) && i < j < |steps| && InsertsBehind(states[i], steps[i], t)
    requires steps[j].DoStart? && Next(states[j], steps[j].w, steps[j].fromWorklist).ticket == states[i].nextTicket
    ensures exists k :: i < k < j && TakesAway(states[k], steps[k], t)
    ensures forall k | j <= k < |states| :: Gone(states[k], t)
  {
    hide Inv, Apply, Total, Unique, Blocked, InsertsBehind, Gone;
    RunInv(states, steps, j);
    RunUnique(states, steps, j);
    RunBlocked(states, steps, i, j, t);
    BlockedStart(states[j], steps[j].w, steps[j].fromWorklist, t, states[i].nextTicket);
    forall k | j <= k < |states| ensures Gone(states[k], t) {
      StaysGone(states, steps, j, k, t);
      NoneIsGone(states[k], t);
    }
  }
}
