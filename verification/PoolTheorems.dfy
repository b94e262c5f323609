/** What holds over every run of a worker pool. */
module PoolTheorems {
  import opened WorkColors
  import opened Options
  import opened PoolLists
  import opened PoolProtocol
  import opened PoolInvariant
  import opened PoolSteps
  import opened PoolOrder

  /** A run: states, and the steps between them. */
  ghost predicate IsRun(states: seq<State>, steps: seq<Step>) {
    && |states| == |steps| + 1 && Init(states[0])
    && forall k | 0 <= k < |steps| :: Enabled(states[k], steps[k]) && states[k + 1] == Apply(states[k], steps[k])
  }

  lemma {:induction false} RunInv(states: seq<State>, steps: seq<Step>, k: nat)
    requires IsRun(states, steps) && k < |states|
    ensures Inv(states[k]) && Orderly(states[k])
  {
    if k == 0 {
      InitInv(states[0]);
      InitOrder(states[0]);
    } else {
      RunInv(states, steps, k - 1);
      StepInv(states[k - 1], steps[k - 1]);
      StepOrder(states[k - 1], steps[k - 1]);
    }
  }

  lemma InitOrder(s: State)
    requires Init(s)
    ensures Orderly(s)
  {}

  // ---------- accounting ----------

  /** Sum over the first n colours. */
  function InFlightSum(nr: seq<int>, n: nat): int
    requires n <= |nr|
  {
    if n == 0 then 0 else InFlightSum(nr, n - 1) + nr[n - 1]
  }

  lemma {:induction false} OneColor(e: Entry, p: nat, n: nat)
    requires 0 <= e.color
    ensures CountColors([e], p, n) == if e.pwq == p && e.color < n then 1 else 0
  {
    if n > 0 {
      OneColor(e, p, n - 1);
      CountOne(e, OfColor(p, n - 1));
    }
  }

  lemma {:induction false} ColorsAppend(a: seq<Entry>, b: seq<Entry>, p: nat, n: nat)
    ensures CountColors(a + b, p, n) == CountColors(a, p, n) + CountColors(b, p, n)
  {
    if n > 0 {
      ColorsAppend(a, b, p, n - 1);
      CountAppend(a, b, OfColor(p, n - 1));
    }
  }

  lemma {:induction false} ColorsEmpty(p: nat, n: nat)
    ensures CountColors([], p, n) == 0
  {
    if n > 0 { ColorsEmpty(p, n - 1); }
  }

  /** The coloured items are those of the fifteen colours. */
  lemma {:induction false} ColorsAreColored(l: seq<Entry>, p: nat)
    requires forall e | e in l :: 0 <= e.color <= WORK_NO_COLOR
    ensures CountColors(l, p, WORK_NR_COLORS) == Count(l, ColoredOf(p))
  {
    if l == [] {
      ColorsEmpty(p, WORK_NR_COLORS);
    } else {
      assert l == [l[0]] + l[1..];
      ColorsAreColored(l[1..], p);
      ColorsAppend([l[0]], l[1..], p, WORK_NR_COLORS);
      CountAppend([l[0]], l[1..], ColoredOf(p));
      OneColor(l[0], p, WORK_NR_COLORS);
      CountOne(l[0], ColoredOf(p));
    }
  }

  /** All items that a worker has. */
  function Items(w: Worker): seq<Entry> {
    w.scheduled + if w.current.Some? then [w.current.value] else []
  }

  /** All active items. */
  function AllOf(ws: seq<Worker>): seq<Entry> {
    if ws == [] then [] else AllOf(ws[..|ws| - 1]) + Items(ws[|ws| - 1])
  }

  lemma {:induction false} AllCounts(ws: seq<Worker>, kind: Kind)
    ensures Count(AllOf(ws), kind) == Held(ws, kind) + Running(ws, kind)
  {
    if ws != [] {
      var n := |ws| - 1;
      AllCounts(ws[..n], kind);
      CountAppend(AllOf(ws[..n]), Items(ws[n]), kind);
      if ws[n].current.Some? {
        CountAppend(ws[n].scheduled, [ws[n].current.value], kind);
        CountOne(ws[n].current.value, kind);
      } else {
        assert Items(ws[n]) == ws[n].scheduled;
      }
    }
  }

  lemma {:induction false} AllFit(ws: seq<Worker>, n: nat)
    requires forall w | 0 <= w < |ws| :: WorkerOk(ws[w], n)
    ensures forall e | e in AllOf(ws) :: Fits(e, n)
  {
    if ws != [] {
      AllFit(ws[..|ws| - 1], n);
      assert WorkerOk(ws[|ws| - 1], n);
    }
  }

  lemma InFlightAt(s: State, p: nat, c: nat)
    requires Listed(s) && Counted(s, []) && p < |s.pwqs| && c < WORK_NR_COLORS
    ensures |s.pwqs[p].nrInFlight| == WORK_NR_COLORS
    ensures s.pwqs[p].nrInFlight[c] == Active(s, OfColor(p, c)) + Count(s.pwqs[p].delayedWorks, OfColor(p, c))
  {
    assert PwqOk(s.pwqs[p], p, |s.pwqs|) && Account(s, p, []);
  }

  lemma {:induction false} SumIs(s: State, p: nat, n: nat)
    requires Listed(s) && Counted(s, []) && p < |s.pwqs| && n <= WORK_NR_COLORS
    ensures |s.pwqs[p].nrInFlight| == WORK_NR_COLORS
    ensures InFlightSum(s.pwqs[p].nrInFlight, n) == CountColors(s.worklist + AllOf(s.workers), p, n) + CountColors(s.pwqs[p].delayedWorks, p, n)
  {
    hide Listed, Counted, Count;
    InFlightAt(s, p, 0);
    if n > 0 {
      SumIs(s, p, n - 1);
      InFlightAt(s, p, n - 1);
      AllCounts(s.workers, OfColor(p, n - 1));
      CountAppend(s.worklist, AllOf(s.workers), OfColor(p, n - 1));
    }
  }

  /**
   At every release of pool->lock: the reference count of a pwq is its base reference and one for each
   item, barriers included; nr_in_flight sums up to nr_active and the delayed coloured items; no more
   than max_active are active, and none is delayed unless that many are.
   */
  lemma Accounting(states: seq<State>, steps: seq<Step>, k: nat, p: nat)
    requires IsRun(states, steps) && k < |states| && p < |states[k].pwqs|
    ensures var s := states[k]; var q := s.pwqs[p];
      && q.refcnt == 1 + Count(s.worklist, OfPwq(p)) + Held(s.workers, OfPwq(p)) + Running(s.workers, OfPwq(p)) + |q.delayedWorks|
      && |q.nrInFlight| == WORK_NR_COLORS
      && InFlightSum(q.nrInFlight, WORK_NR_COLORS) == q.nrActive + Count(q.delayedWorks, ColoredOf(p))
      && q.nrActive <= q.maxActive && (q.delayedWorks != [] ==> q.nrActive == q.maxActive > 0)
      && forall c | 0 <= c < WORK_NR_COLORS :: q.nrInFlight[c] >= 0
  {
    var s := states[k];
    var q := s.pwqs[p];
    RunInv(states, steps, k);
    assert Account(s, p, []) && Limited(q) && PwqOk(q, p, |s.pwqs|);
    CountAll(q.delayedWorks, OfPwq(p));
    SumIs(s, p, WORK_NR_COLORS);
    AllFit(s.workers, |s.pwqs|);
    ColorsAreColored(s.worklist + AllOf(s.workers), p);
    ColorsAreColored(q.delayedWorks, p);
    AllCounts(s.workers, ColoredOf(p));
    CountAppend(s.worklist, AllOf(s.workers), ColoredOf(p));
  }

  /** When nothing is active or delayed, only the base reference is left, and never less. */
  lemma BaseReference(states: seq<State>, steps: seq<Step>, k: nat, p: nat)
    requires IsRun(states, steps) && k < |states| && p < |states[k].pwqs|
    ensures states[k].pwqs[p].refcnt >= 1
    ensures states[k].pwqs[p].refcnt == 1 <==>
      Active(states[k], OfPwq(p)) == 0 && states[k].pwqs[p].delayedWorks == []
  {
    var s := states[k];
    RunInv(states, steps, k);
    assert Account(s, p, []) && PwqOk(s.pwqs[p], p, |s.pwqs|);
    CountAll(s.pwqs[p].delayedWorks, OfPwq(p));
  }

  // ---------- single execution ----------

  /** No two workers of the pool ever run the same item. */
  lemma NeverTwice(states: seq<State>, steps: seq<Step>, k: nat, v: nat, w: nat)
    requires IsRun(states, steps) && k < |states| && v < |states[k].workers| && w < |states[k].workers| && v != w
    requires states[k].workers[v].current.Some? && states[k].workers[w].current.Some?
    ensures states[k].workers[v].current.value.id != states[k].workers[w].current.value.id
  {
    RunInv(states, steps, k);
    if v < w {} else {}
  }

  lemma HoldsCounts(l: seq<Entry>, i: nat, kind: Kind)
    requires i < |l| && Is(l[i], kind)
    ensures Count(l, kind) >= 1
  {
    CountAt(l, i, kind);
  }

  /** A queued item counts. */
  lemma PlaceCounts(s: State, at: Place, kind: Kind)
    requires Exists(s, at) && Is(At(s, at), kind)
    ensures Count(s.worklist, kind) + Held(s.workers, kind) + Delayed(s.pwqs, kind) >= 1
  {
    match at {
      case InWorklist(i) => HoldsCounts(s.worklist, i, kind);
      case InScheduled(w, i) =>
        HoldsCounts(s.workers[w].scheduled, i, kind);
        WorkerSet(s.workers, w, s.workers[w], kind);
      case InDelayed(p, i) =>
        HoldsCounts(s.pwqs[p].delayedWorks, i, kind);
        PwqSet(s.pwqs, p, s.pwqs[p], kind);
    }
  }

  /** A work item whose PENDING bit is clear is on no list: queueing it never finds it queued already. */
  lemma NeverQueuedTwice(states: seq<State>, steps: seq<Step>, k: nat, at: Place)
    requires IsRun(states, steps) && k < |states| && Exists(states[k], at)
    ensures At(states[k], at).id in states[k].pending && Queued(states[k], At(states[k], at).id) == 1
  {
    var s := states[k];
    RunInv(states, steps, k);
    PlaceCounts(s, at, OfId(At(s, at).id));
  }

  // ---------- order ----------

  predicate Starts(s: State, step: Step, p: nat) {
    step.DoStart? && CanStart(s, step.w, step.fromWorklist) && Colored(Next(s, step.w, step.fromWorklist)) && Next(s, step.w, step.fromWorklist).pwq == p
  }

  /** The ticket of the item that a step starts. */
  function TicketOf(s: State, step: Step, p: nat): int
    requires Starts(s, step, p)
  {
    Next(s, step.w, step.fromWorklist).ticket
  }

  lemma StartedLate(s: State, step: Step, p: nat)
    requires Inv(s) && Orderly(s) && p < |s.pwqs| && s.pwqs[p].maxActive == 1 && Starts(s, step, p)
    ensures s.pwqs[p].started < TicketOf(s, step, p) && Running(s.workers, ColoredOf(p)) == 0
    ensures Apply(s, step).pwqs[p].started == TicketOf(s, step, p)
  {
    assert Order(s, p) && Account(s, p, []) && Limited(s.pwqs[p]);
    NextWaits(s, step.w, step.fromWorklist);
    var e := Next(s, step.w, step.fromWorklist);
    StartCounts(s, step.w, step.fromWorklist, ColoredOf(p));
  }

  /** The history only moves forward. */
  lemma StartedGrows(s: State, step: Step, p: nat)
    requires Inv(s) && Orderly(s) && Enabled(s, step) && p < |s.pwqs| && s.pwqs[p].maxActive == 1
    ensures p < |Apply(s, step).pwqs| && Apply(s, step).pwqs[p].maxActive == 1 && s.pwqs[p].started <= Apply(s, step).pwqs[p].started
  {
    hide Inv, Orderly, Activate, Chained, Headed;
    if Starts(s, step, p) {
      StartedLate(s, step, p);
    } else if step.DoStart? {
      StartedPwqs(s.(pending := s.pending - {Next(s, step.w, step.fromWorklist).id}), Next(s, step.w, step.fromWorklist));
    } else {
      StartedStays(s, step, p);
    }
  }

  lemma StartedStays(s: State, step: Step, p: nat)
    requires Enabled(s, step) && !step.DoStart? && p < |s.pwqs|
    ensures p < |Apply(s, step).pwqs| && Apply(s, step).pwqs[p].maxActive == s.pwqs[p].maxActive && Apply(s, step).pwqs[p].started == s.pwqs[p].started
  {
    hide RunEnd, WithBarrier;
    match step {
      case DoGrab(at) =>
        if at.InDelayed? { DecStarted(Without(Activate(s, at.p, at.i), InWorklist(|s.worklist|)), At(s, at).pwq, At(s, at).color, p); }
        else { DecStarted(Without(s, at), At(s, at).pwq, At(s, at).color, p); }
      case DoFinish(w) =>
        var e := s.workers[w].current.value;
        DecStarted(s.(workers := s.workers[w := s.workers[w].(current := None)]), e.pwq, e.color, p);
      case _ =>
    }
  }

  lemma DecStarted(s: State, p: nat, c: int, q: nat)
    requires p < |s.pwqs| && q < |s.pwqs| && (c != WORK_NO_COLOR ==> 0 <= c < |s.pwqs[p].nrInFlight|)
    ensures var s' := Dec(s, p, c); |s'.pwqs| == |s.pwqs| && s'.pwqs[q].maxActive == s.pwqs[q].maxActive && s'.pwqs[q].started == s.pwqs[q].started
  {}

  lemma {:induction false} StartedUpTo(states: seq<State>, steps: seq<Step>, i: nat, j: nat, p: nat)
    requires IsRun(states, steps) && i <= j < |states| && p < |states[i].pwqs| && states[i].pwqs[p].maxActive == 1
    ensures p < |states[j].pwqs| && states[j].pwqs[p].maxActive == 1 && states[i].pwqs[p].started <= states[j].pwqs[p].started
  {
    hide Apply, Enabled, Inv, Orderly, Init;
    if i < j {
      StartedUpTo(states, steps, i, j - 1, p);
      RunInv(states, steps, j - 1);
      StartedGrows(states[j - 1], steps[j - 1], p);
    }
  }

  /**
   With max_active 1, the coloured items of a pwq start one at a time and in the order in which they
   were queued, in every run.
   */
  lemma StartsInQueueOrder(states: seq<State>, steps: seq<Step>, i: nat, j: nat, p: nat)
    requires IsRun(states, steps) && i < j < |steps| && p < |states[i].pwqs| && states[i].pwqs[p].maxActive == 1
    requires Starts(states[i], steps[i], p) && Starts(states[j], steps[j], p)
    ensures TicketOf(states[i], steps[i], p) < TicketOf(states[j], steps[j], p)
    ensures Running(states[j].workers, ColoredOf(p)) == 0
  {
    RunInv(states, steps, i);
    StartedLate(states[i], steps[i], p);
    StartedGrows(states[i], steps[i], p);
    StartedUpTo(states, steps, i + 1, j, p);
    RunInv(states, steps, j);
    StartedLate(states[j], steps[j], p);
  }
}
