/** The items of a pwq leave the worklist in the order in which they were queued, for every max_active. */
module PoolTurns {
  import opened Options
  import opened PoolLists
  import opened PoolProtocol
  import opened PoolInvariant
  import opened PoolSteps
  import opened PoolTheorems
  import opened PoolTickets

  function Own(e: Entry, p: nat): seq<nat> {
    if Is(e, ColoredOf(p)) then [e.ticket] else []
  }

  /** The tickets of the coloured items of a pwq. */
  function Mine(l: seq<Entry>, p: nat): seq<nat> {
    if l == [] then [] else Own(l[0], p) + Mine(l[1..], p)
  }

  /** The items of a pwq that no worker has: those on the worklist, and behind them the delayed ones. */
  function Turns(s: State, p: nat): seq<nat>
    requires p < |s.pwqs|
  {
    Mine(s.worklist, p) + Mine(s.pwqs[p].delayedWorks, p)
  }

  predicate Ascending(a: seq<nat>, bound: nat) {
    (forall i, j | 0 <= i < j < |a| :: a[i] < a[j]) && forall i | 0 <= i < |a| :: a[i] < bound
  }

  // ---------- lists ----------

  lemma {:induction false} MineAppend(a: seq<Entry>, b: seq<Entry>, p: nat)
    ensures Mine(a + b, p) == Mine(a, p) + Mine(b, p)
    decreases |a|
  {
    hide Own;
    if a == [] {
      assert a + b == b;
    } else {
      assert (a + b)[0] == a[0] && (a + b)[1..] == a[1..] + b;
      MineAppend(a[1..], b, p);
      assert Own(a[0], p) + (Mine(a[1..], p) + Mine(b, p)) == (Own(a[0], p) + Mine(a[1..], p)) + Mine(b, p);
    }
  }

  lemma MineOne(e: Entry, p: nat)
    ensures Mine([e], p) == Own(e, p)
  {
    assert Mine([e][1..], p) == [];
  }

  lemma {:induction false} MineNone(l: seq<Entry>, p: nat)
    requires forall k | 0 <= k < |l| :: !Is(l[k], ColoredOf(p))
    ensures Mine(l, p) == []
  {
    if l != [] { MineNone(l[1..], p); }
  }

  lemma MineAt(l: seq<Entry>, i: nat, p: nat)
    requires i < |l|
    ensures Mine(l, p) == Mine(l[..i], p) + Own(l[i], p) + Mine(l[i + 1..], p)
    ensures Mine(l[..i] + l[i + 1..], p) == Mine(l[..i], p) + Mine(l[i + 1..], p)
  {
    assert l == l[..i] + [l[i]] + l[i + 1..];
    MineAppend(l[..i] + [l[i]], l[i + 1..], p);
    MineAppend(l[..i], [l[i]], p);
    MineAppend(l[..i], l[i + 1..], p);
    MineOne(l[i], p);
  }

  lemma MineCut(l: seq<Entry>, i: nat, j: nat, p: nat)
    requires i <= j <= |l|
    ensures Mine(l, p) == Mine(l[..i], p) + Mine(l[i..j], p) + Mine(l[j..], p)
    ensures Mine(l[..i] + l[j..], p) == Mine(l[..i], p) + Mine(l[j..], p)
  {
    hide Mine;
    assert l == l[..i] + l[i..j] + l[j..];
    MineAppend(l[..i] + l[i..j], l[j..], p);
    MineAppend(l[..i], l[i..j], p);
    MineAppend(l[..i], l[j..], p);
  }

  /** In a run, only the first item can be coloured. */
  lemma MineRun(l: seq<Entry>, i: nat, p: nat)
    requires i < |l| && Chained(l)
    ensures var j := RunEnd(l, i);
      && Mine(l[i..j], p) == Own(l[i], p)
      && Mine(l[i + 1..j], p) == []
      && Mine(l, p) == Mine(l[..i], p) + Mine(l[i..j], p) + Mine(l[j..], p)
      && Mine(l[..i] + l[j..], p) == Mine(l[..i], p) + Mine(l[j..], p)
  {
    hide Mine, Chained;
    var j := RunEnd(l, i);
    RunStops(l, i);
    hide RunEnd;
    var r := l[i + 1..j];
    assert forall k | 0 <= k < |r| :: r[k] == l[i + 1 + k];
    MineNone(r, p);
    assert l[i..j] == [l[i]] + r;
    MineAppend([l[i]], r, p);
    MineOne(l[i], p);
    MineCut(l, i, j, p);
  }

  lemma MineBarrier(l: seq<Entry>, i: nat, id: nat, ticket: nat, p: nat)
    requires i < |l|
    ensures Mine(WithBarrier(l, i, id, ticket), p) == Mine(l, p)
  {
    var x, b := l[i].(linked := true), Entry(id, l[i].pwq, WORK_NO_COLOR, l[i].linked, ticket);
    MineAt(l, i, p);
    MineAppend(l[..i] + [x, b], l[i + 1..], p);
    MineAppend(l[..i], [x, b], p);
    assert [x, b] == [x] + [b];
    MineAppend([x], [b], p);
    MineOne(x, p);
    MineOne(b, p);
  }

  // ---------- what a step does to the turns ----------

  /** The item at place k, if any, has gone; the others are in their order, and what is new is last. */
  ghost predicate Passed(a: seq<nat>, b: seq<nat>, k: int, more: seq<nat>) {
    && -1 <= k < |a|
    && b == (if k < 0 then a else a[..k] + a[k + 1..]) + more
  }

  /** The step takes the item with ticket t away from the worklist, or takes it back. */
  ghost predicate Takes(s: State, step: Step, t: nat) {
    Enabled(s, step) &&
    match step
    case DoStart(_, fromWorklist) => fromWorklist && s.worklist[0].ticket == t
    case DoDefer(_, _, fromWorklist) => fromWorklist && s.worklist[0].ticket == t
    case DoTakeRun(_) => s.worklist[0].ticket == t
    case DoGrab(at) => At(s, at).ticket == t
    case _ => false
  }

  lemma FrontRun(l: seq<Entry>, p: nat)
    requires l != [] && Chained(l)
    ensures var j := RunEnd(l, 0); Mine(l[0..j], p) + Mine(l[..0] + l[j..], p) == Mine(l, p)
  {
    hide Chained;
    MineRun(l, 0, p);
    MineNone([], p);
    assert l[..0] == [];
  }

  lemma OthersRun(l: seq<Entry>, i: nat, j: nat, p: nat, q: nat)
    requires i <= j <= |l| && p != q && forall e | e in l :: e.pwq == p
    ensures Mine(l[i..j], q) == []
  {
    forall k | 0 <= k < |l[i..j]| ensures !Is(l[i..j][k], ColoredOf(q)) { assert l[i + k] in l; }
    MineNone(l[i..j], q);
  }

  /** Activation only moves the border between the worklist and what is delayed. */
  lemma ActivateTurns(s: State, p: nat, q: nat)
    requires Listed(s) && p < |s.pwqs| && q < |s.pwqs| && s.pwqs[p].delayedWorks != []
    ensures Turns(Activate(s, p, 0), q) == Turns(s, q)
  {
    hide Mine, RunEnd, Chained, Headed;
    var d := s.pwqs[p].delayedWorks;
    var j := RunEnd(d, 0);
    assert PwqOk(s.pwqs[p], p, |s.pwqs|);
    hide Listed;
    MineAppend(s.worklist, d[0..j], q);
    if p == q { FrontRun(d, p); } else { OthersRun(d, 0, j, p, q); }
  }

  lemma DecTurns(s: State, p: nat, c: int, q: nat)
    requires Listed(s) && p < |s.pwqs| && q < |s.pwqs| && (c != WORK_NO_COLOR ==> 0 <= c < |s.pwqs[p].nrInFlight|)
    ensures |Dec(s, p, c).pwqs| == |s.pwqs| && Turns(Dec(s, p, c), q) == Turns(s, q)
  {
    hide Mine, Activate;
    if c != WORK_NO_COLOR {
      DecIs(s, p, c);
      var s1 := Drop(s, p, c);
      if s.pwqs[p].delayedWorks != [] && s.pwqs[p].nrActive - 1 < s.pwqs[p].maxActive {
        DropListed(s, p, c);
        ActivateTurns(s1, p, q);
        ActivateSize(s1, p);
      }
    }
  }

  lemma ActivateSize(s: State, p: nat)
    requires p < |s.pwqs| && s.pwqs[p].delayedWorks != []
    ensures |Activate(s, p, 0).pwqs| == |s.pwqs|
  {}

  /** An active item is taken back. */
  lemma WithoutTurns(s: State, at: Place, p: nat) returns (k: int)
    requires Exists(s, at) && !at.InDelayed? && p < |s.pwqs|
    ensures |Without(s, at).pwqs| == |s.pwqs| && Passed(Turns(s, p), Turns(Without(s, at), p), k, [])
    ensures k >= 0 ==> Turns(s, p)[k] == At(s, at).ticket
  {
    hide Mine;
    k := -1;
    match at {
      case InWorklist(i) =>
        MineAt(s.worklist, i, p);
        if Is(s.worklist[i], ColoredOf(p)) { k := |Mine(s.worklist[..i], p)|; }
      case InScheduled(w, i) =>
    }
  }

  lemma MiddlePassed(w: seq<nat>, a: seq<nat>, own: seq<nat>, b: seq<nat>)
    requires |own| <= 1
    ensures Passed(w + (a + own + b), w + (a + b), if own == [] then -1 else |w| + |a|, [])
  {
    var l, r := w + (a + own + b), w + (a + b);
    assert r + [] == r;
    if own == [] {
      assert a + own == a;
    } else {
      var k := |w| + |a|;
      assert l[..k] == w + a && l[k + 1..] == b;
      assert (w + a) + b == r;
    }
  }

  lemma UntakenLists(s: State, p: nat, i: nat)
    requires p < |s.pwqs| && i < |s.pwqs[p].delayedWorks|
    ensures var d, s2 := s.pwqs[p].delayedWorks, Without(Activate(s, p, i), InWorklist(|s.worklist|));
      var j := RunEnd(d, i);
      && s2.worklist == s.worklist + d[i + 1..j] && |s2.pwqs| == |s.pwqs| && s2.pwqs[p].delayedWorks == d[..i] + d[j..]
      && forall q | 0 <= q < |s.pwqs| && q != p :: s2.pwqs[q] == s.pwqs[q]
  {
    hide RunEnd;
    var d, n := s.pwqs[p].delayedWorks, |s.worklist|;
    var r := d[i..RunEnd(d, i)];
    assert (s.worklist + r)[..n] + (s.worklist + r)[n + 1..] == s.worklist + d[i + 1..RunEnd(d, i)];
  }

  /** A delayed item is activated and taken back; its barriers stay on the worklist. */
  lemma DelayedTurns(s: State, p: nat, i: nat, q: nat) returns (k: int)
    requires Listed(s) && p < |s.pwqs| && q < |s.pwqs| && i < |s.pwqs[p].delayedWorks| && Colored(s.pwqs[p].delayedWorks[i])
    ensures var s2 := Without(Activate(s, p, i), InWorklist(|s.worklist|));
      |s2.pwqs| == |s.pwqs| && Passed(Turns(s, q), Turns(s2, q), k, [])
    ensures k >= 0 ==> Turns(s, q)[k] == s.pwqs[p].delayedWorks[i].ticket
  {
    hide Mine, Passed, Without, Activate, RunEnd, Chained, Headed;
    var d := s.pwqs[p].delayedWorks;
    var j := RunEnd(d, i);
    assert PwqOk(s.pwqs[p], p, |s.pwqs|);
    hide Listed, PwqOk;
    UntakenLists(s, p, i);
    MineAppend(s.worklist, d[i + 1..j], q);
    MineRun(d, i, q);
    var w := Mine(s.worklist, q);
    assert w + [] == w;
    if q == p {
      var a, own, b := Mine(d[..i], p), Own(d[i], p), Mine(d[j..], p);
      MiddlePassed(w, a, own, b);
      k := if own == [] then -1 else |w| + |a|;
    } else {
      var e := Mine(s.pwqs[q].delayedWorks, q);
      MiddlePassed(w, [], [], e);
      assert [] + [] + e == e && [] + e == e;
      k := -1;
    }
  }

  lemma GrabTurns(s: State, at: Place, p: nat) returns (k: int)
    requires Listed(s) && CanGrab(s, at) && p < |s.pwqs|
    ensures |Grab(s, at).pwqs| == |s.pwqs| && Passed(Turns(s, p), Turns(Grab(s, at), p), k, [])
    ensures k >= 0 ==> Turns(s, p)[k] == At(s, at).ticket
  {
    hide Dec, Activate, Turns, Passed;
    var e := At(s, at);
    AtFits(s, at);
    if at.InDelayed? {
      var s1, last := Activate(s, at.p, at.i), InWorklist(|s.worklist|);
      LastOne(s, at.p, at.i);
      k := DelayedTurns(s, at.p, at.i, p);
      ActivateListed(s, at.p, at.i);
      WithoutListed(s1, last);
      DecTurns(Without(s1, last), e.pwq, e.color, p);
    } else {
      k := WithoutTurns(s, at, p);
      WithoutListed(s, at);
      DecTurns(Without(s, at), e.pwq, e.color, p);
    }
  }

  lemma LastOne(s: State, p: nat, i: nat)
    requires p < |s.pwqs| && i < |s.pwqs[p].delayedWorks|
    ensures var s1 := Activate(s, p, i); |s1.worklist| > |s.worklist| && s1.worklist[|s.worklist|] == s.pwqs[p].delayedWorks[i] && |s1.pwqs| == |s.pwqs|
  {}

  lemma Appended(w: seq<nat>, d: seq<nat>, e: seq<nat>)
    ensures Passed(w + d, w + (d + e), -1, e) && (d == [] || e == [] ==> Passed(w + d, (w + e) + d, -1, e))
  {
    assert w + (d + e) == (w + d) + e;
  }

  lemma QueueTurns(s: State, p: nat, id: nat, q: nat)
    requires Inv(s) && CanQueue(s, p, id) && q < |s.pwqs|
    ensures |Queue(s, p, id).pwqs| == |s.pwqs|
    ensures Passed(Turns(s, q), Turns(Queue(s, p, id), q), -1, Mine([Entry(id, p, s.pwqs[p].workColor, false, s.nextTicket)], q))
  {
    var e := Entry(id, p, s.pwqs[p].workColor, false, s.nextTicket);
    NoDelayedBelow(s, p);
    hide Inv, Mine, Passed;
    var w, d, x := Mine(s.worklist, q), Mine(s.pwqs[q].delayedWorks, q), Mine([e], q);
    MineNone([], q);
    MineOne(e, q);
    Appended(w, d, x);
    QueuedLists(s, p, id, q, e);
    if s.pwqs[p].nrActive < s.pwqs[p].maxActive {
      assert Turns(Queue(s, p, id), q) == (w + x) + d;
    } else {
      assert Turns(Queue(s, p, id), q) == w + (d + x);
    }
  }

  lemma QueuedLists(s: State, p: nat, id: nat, q: nat, e: Entry)
    requires CanQueue(s, p, id) && q < |s.pwqs| && e == Entry(id, p, s.pwqs[p].workColor, false, s.nextTicket)
    ensures var s', active := Queue(s, p, id), s.pwqs[p].nrActive < s.pwqs[p].maxActive;
      && |s'.pwqs| == |s.pwqs|
      && Mine(s'.worklist, q) == Mine(s.worklist, q) + (if active then Mine([e], q) else [])
      && Mine(s'.pwqs[q].delayedWorks, q) == Mine(s.pwqs[q].delayedWorks, q) + (if active then [] else Mine([e], q))
  {
    hide Mine;
    MineAppend(s.worklist, [e], q);
    MineAppend(s.pwqs[q].delayedWorks, [e], q);
    MineOne(e, q);
  }

  lemma FrontMine(l: seq<Entry>, j: nat, p: nat)
    requires l != [] && Chained(l) && (j == 1 || j == RunEnd(l, 0))
    ensures j <= |l| && Mine(l, p) == Own(l[0], p) + Mine(l[j..], p)
  {
    hide Mine, Own, Chained;
    if j == 1 {
      assert l == [l[0]] + l[1..];
      MineAppend([l[0]], l[1..], p);
      MineOne(l[0], p);
    } else {
      MineRun(l, 0, p);
      MineNone([], p);
      assert l[..0] == [];
      assert [] + Own(l[0], p) == Own(l[0], p);
    }
  }

  lemma FirstPassed(own: seq<nat>, rest: seq<nat>, d: seq<nat>)
    requires |own| <= 1
    ensures Passed((own + rest) + d, rest + d, |own| - 1, [])
  {
    assert own == [] ==> own + rest == rest;
    assert own != [] ==> ((own + rest) + d)[..0] + ((own + rest) + d)[1..] == rest + d;
    assert (rest + d) + [] == rest + d;
  }

  /** The run at the front leaves the worklist. */
  lemma FrontTurns(s: State, j: nat, p: nat) returns (k: int)
    requires Listed(s) && s.worklist != [] && p < |s.pwqs| && (j == 1 || j == RunEnd(s.worklist, 0))
    ensures j <= |s.worklist| && Passed(Turns(s, p), Mine(s.worklist[j..], p) + Mine(s.pwqs[p].delayedWorks, p), k, [])
    ensures k >= 0 ==> Turns(s, p)[k] == s.worklist[0].ticket
  {
    hide Mine, Passed, RunEnd;
    FrontMine(s.worklist, j, p);
    var own := Own(s.worklist[0], p);
    FirstPassed(own, Mine(s.worklist[j..], p), Mine(s.pwqs[p].delayedWorks, p));
    k := |own| - 1;
  }

  lemma StartTurns(s: State, w: nat, fromWorklist: bool, p: nat) returns (k: int)
    requires Listed(s) && CanStart(s, w, fromWorklist) && p < |s.pwqs|
    ensures |Start(s, w, fromWorklist).pwqs| == |s.pwqs| && Passed(Turns(s, p), Turns(Start(s, w, fromWorklist), p), k, [])
    ensures k >= 0 ==> fromWorklist && Turns(s, p)[k] == s.worklist[0].ticket
  {
    hide Mine, Listed;
    k := -1;
    if fromWorklist { k := FrontTurns(s, 1, p); }
  }

  lemma BarrierTurns(s: State, at: Place, id: nat, p: nat)
    requires Listed(s) && CanBarrier(s, at, id) && p < |s.pwqs|
    ensures |Barrier(s, at, id).pwqs| == |s.pwqs| && Turns(Barrier(s, at, id), p) == Turns(s, p)
  {
    hide Mine, Listed;
    match at {
      case InWorklist(i) => MineBarrier(s.worklist, i, id, s.nextTicket, p);
      case InScheduled(w, i) =>
      case InDelayed(q, i) => MineBarrier(s.pwqs[q].delayedWorks, i, id, s.nextTicket, p);
    }
  }

  /** A step takes at most one item of a pwq from its place, and a new one comes last. */
  lemma StepTurns(s: State, step: Step, p: nat) returns (k: int)
    requires Inv(s) && Enabled(s, step) && p < |s.pwqs|
    ensures |Apply(s, step).pwqs| == |s.pwqs| && Passed(Turns(s, p), Turns(Apply(s, step), p), k, Mine(Arriving(s, step), p))
    ensures k >= 0 ==> Takes(s, step, Turns(s, p)[k])
  {
    hide Mine, Queue, Grab, Start, Barrier, Dec, Listed, Counted, Limits, Owned, Alone;
    MineNone([], p);
    k := -1;
    match step {
      case DoQueue(q, id) => QueueTurns(s, q, id, p);
      case DoGrab(at) => k := GrabTurns(s, at, p);
      case DoBarrier(at, id) =>
        BarrierTurns(s, at, id, p);
        MineNone(Arriving(s, step), p);
      case DoBarrierRunning(w, id) => MineNone(Arriving(s, step), p);
      case DoTakeRun(w) => k := FrontTurns(s, RunEnd(s.worklist, 0), p);
      case DoDefer(w, v, fromWorklist) => if fromWorklist { k := FrontTurns(s, RunEnd(s.worklist, 0), p); }
      case DoStart(w, fromWorklist) => k := StartTurns(s, w, fromWorklist, p);
      case DoFinish(w) => FinishTurns(s, w, p);
      case _ =>
    }
  }

  lemma FinishTurns(s: State, w: nat, p: nat)
    requires Inv(s) && CanFinish(s, w) && p < |s.pwqs|
    ensures |Finish(s, w).pwqs| == |s.pwqs| && Turns(Finish(s, w), p) == Turns(s, p)
  {
    hide Dec, Turns;
    var e := s.workers[w].current.value;
    FinishCounted(s, w);
    SameTurns(s, s.(workers := s.workers[w := s.workers[w].(current := None)]), p);
    DecTurns(s.(workers := s.workers[w := s.workers[w].(current := None)]), e.pwq, e.color, p);
  }

  lemma SameTurns(s: State, s': State, p: nat)
    requires p < |s.pwqs| && s'.worklist == s.worklist && s'.pwqs == s.pwqs
    ensures Turns(s', p) == Turns(s, p)
  {}

  // ---------- runs ----------

  lemma StepAscending(s: State, step: Step, p: nat)
    requires Inv(s) && Enabled(s, step) && p < |s.pwqs| && Ascending(Turns(s, p), s.nextTicket)
    ensures |Apply(s, step).pwqs| == |s.pwqs| && Ascending(Turns(Apply(s, step), p), Apply(s, step).nextTicket)
  {
    hide Inv, Enabled, Apply, Turns, Mine, Arriving;
    var k := StepTurns(s, step, p);
    NextTicketGrows(s, step);
    if Arriving(s, step) == [] {
      MineNone([], p);
    } else {
      var e := Arriving(s, step)[0];
      assert Arriving(s, step) == [e];
      MineOne(e, p);
    }
  }

  lemma {:induction false} RunAscending(states: seq<State>, steps: seq<Step>, k: nat, p: nat)
    requires IsRun(states, steps) && k < |states| && p < |states[0].pwqs|
    ensures |states[k].pwqs| == |states[0].pwqs| && Ascending(Turns(states[k], p), states[k].nextTicket)
  {
    hide Inv, Apply, Enabled, Turns;
    if k == 0 {
      InitTurns(states[0], p);
    } else {
      RunAscending(states, steps, k - 1, p);
      RunInv(states, steps, k - 1);
      StepAscending(states[k - 1], steps[k - 1], p);
    }
  }

  lemma InitTurns(s: State, p: nat)
    requires Init(s) && p < |s.pwqs|
    ensures Turns(s, p) == []
  {}

  /** An item that waits for its turn waits until a step takes it. */
  lemma {:induction false} WaitsOn(states: seq<State>, steps: seq<Step>, i: nat, j: nat, p: nat, t: nat)
    requires IsRun(states, steps) && i <= j < |states| && p < |states[0].pwqs|
    requires |states[i].pwqs| == |states[0].pwqs| && t in Turns(states[i], p)
    ensures |states[j].pwqs| == |states[0].pwqs|
    ensures t in Turns(states[j], p) || exists k :: i <= k < j && Takes(states[k], steps[k], t)
  {
    hide Inv, Apply, Enabled, Turns, Takes;
    if i < j {
      WaitsOn(states, steps, i, j - 1, p, t);
      RunInv(states, steps, j - 1);
      var k := StepTurns(states[j - 1], steps[j - 1], p);
      if t in Turns(states[j - 1], p) { InOrGone(Turns(states[j - 1], p), Turns(states[j], p), k, Mine(Arriving(states[j - 1], steps[j - 1]), p), t); }
    }
  }

  lemma InOrGone(a: seq<nat>, b: seq<nat>, k: int, more: seq<nat>, t: nat)
    requires Passed(a, b, k, more) && t in a
    ensures t in b || (k >= 0 && a[k] == t)
  {
    var x :| 0 <= x < |a| && a[x] == t;
    if k < 0 || x < k {
      assert b[x] == t;
    } else if x > k {
      assert b[x - 1] == t;
    }
  }

  /**
   In every run and for every max_active: when a coloured item of a pwq leaves the worklist at its front,
   because it starts, is deferred or is taken along, every item of that pwq that was queued before it and
   was still waiting at some earlier time has been taken before: it has started, has been deferred or taken
   along in its turn, or has been taken back.
   */
  lemma TurnsInQueueOrder(states: seq<State>, steps: seq<Step>, i: nat, j: nat, p: nat, t: nat)
    requires IsRun(states, steps) && i <= j < |steps| && p < |states[i].pwqs| && t in Turns(states[i], p)
    requires states[j].worklist != [] && Is(states[j].worklist[0], ColoredOf(p)) && t < states[j].worklist[0].ticket
    requires Takes(states[j], steps[j], states[j].worklist[0].ticket) && !steps[j].DoGrab?
    ensures exists k :: i <= k < j && Takes(states[k], steps[k], t)
  {
    hide Inv, Apply, Enabled, Init, Takes;
    SamePwqs(states, steps, i);
    RunAscending(states, steps, j, p);
    WaitsOn(states, steps, i, j, p, t);
    FirstTurn(states[j], p, t);
  }

  lemma FirstTurn(s: State, p: nat, t: nat)
    requires p < |s.pwqs| && s.worklist != [] && Is(s.worklist[0], ColoredOf(p)) && Ascending(Turns(s, p), s.nextTicket)
    requires t < s.worklist[0].ticket
    ensures t !in Turns(s, p)
  {
    assert Turns(s, p)[0] == s.worklist[0].ticket;
  }

  lemma {:induction false} SamePwqs(states: seq<State>, steps: seq<Step>, k: nat)
    requires IsRun(states, steps) && k < |states|
    ensures |states[k].pwqs| == |states[0].pwqs|
  {
    hide Enabled, Apply, Init;
    if k > 0 {
      SamePwqs(states, steps, k - 1);
      PwqsStay(states[k - 1], steps[k - 1]);
    }
  }
}
