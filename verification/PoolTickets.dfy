/** The items of a pool by their tickets: what arrives, what leaves, and that no ticket is there twice. */
module PoolTickets {
  import opened Options
  import opened PoolLists
  import opened PoolProtocol
  import opened PoolInvariant
  import opened PoolSteps
  import opened PoolTheorems

  /** All items of a kind: queued, delayed or running. */
  function Total(s: State, kind: Kind): nat {
    Active(s, kind) + Delayed(s.pwqs, kind)
  }

  /** The item that a step brings. */
  ghost function Arriving(s: State, step: Step): (es: seq<Entry>)
    requires Enabled(s, step)
    ensures |es| <= 1
  {
    match step
    case DoQueue(p, id) => [Entry(id, p, s.pwqs[p].workColor, false, s.nextTicket)]
    case DoBarrier(at, id) => [Entry(id, At(s, at).pwq, WORK_NO_COLOR, At(s, at).linked, s.nextTicket)]
    case DoBarrierRunning(w, id) => [Entry(id, s.workers[w].current.value.pwq, WORK_NO_COLOR, false, s.nextTicket)]
    case _ => []
  }

  /** The item that a step takes away: it has been taken back, or its function has returned. */
  ghost function Leaving(s: State, step: Step): (es: seq<Entry>)
    requires Enabled(s, step)
    ensures |es| <= 1
  {
    match step
    case DoGrab(at) => [At(s, at)]
    case DoFinish(w) => [s.workers[w].current.value]
    case _ => []
  }

  // ---------- conservation ----------

  lemma ActivateTotal(s: State, p: nat, i: nat, kind: Kind)
    requires p < |s.pwqs| && i < |s.pwqs[p].delayedWorks|
    ensures Total(Activate(s, p, i), kind) == Total(s, kind)
  {
    hide Count, Held, Running, Delayed;
    ActivateMoves(s, p, i, kind);
  }

  lemma DecTotal(s: State, p: nat, c: int, kind: Kind)
    requires p < |s.pwqs| && (c != WORK_NO_COLOR ==> 0 <= c < |s.pwqs[p].nrInFlight|)
    ensures Total(Dec(s, p, c), kind) == Total(s, kind)
  {
    hide Count, Held, Running, Delayed, Activate;
    if c == WORK_NO_COLOR {
      SamePwqCounts(s, p, Put(s, p).pwqs[p], kind);
    } else {
      DecIs(s, p, c);
      var s1 := Drop(s, p, c);
      SamePwqCounts(s, p, s1.pwqs[p], kind);
      if s.pwqs[p].delayedWorks != [] && s.pwqs[p].nrActive - 1 < s.pwqs[p].maxActive { ActivateTotal(s1, p, 0, kind); }
    }
  }

  lemma WithoutTotal(s: State, at: Place, kind: Kind)
    requires Exists(s, at) && !at.InDelayed?
    ensures Total(s, kind) == Total(Without(s, at), kind) + Count([At(s, at)], kind)
  {
    WithoutCounts(s, at, kind);
    CountOne(At(s, at), kind);
  }

  lemma GrabTotal(s: State, at: Place, kind: Kind)
    requires Listed(s) && CanGrab(s, at)
    ensures Total(Grab(s, at), kind) + Count([At(s, at)], kind) == Total(s, kind)
  {
    hide Total, Dec;
    var e := At(s, at);
    AtFits(s, at);
    if at.InDelayed? {
      var s1 := Activate(s, at.p, at.i);
      ActivateTotal(s, at.p, at.i, kind);
      assert s1.worklist[|s.worklist|] == e;
      WithoutTotal(s1, InWorklist(|s.worklist|), kind);
      DecTotal(Without(s1, InWorklist(|s.worklist|)), e.pwq, e.color, kind);
    } else {
      WithoutTotal(s, at, kind);
      DecTotal(Without(s, at), e.pwq, e.color, kind);
    }
  }

  lemma FinishTotal(s: State, w: nat, kind: Kind)
    requires CanFinish(s, w)
    ensures Total(Finish(s, w), kind) + Count([s.workers[w].current.value], kind) == Total(s, kind)
  {
    hide Dec, Count, Held, Running, Delayed;
    var e := s.workers[w].current.value;
    var x := s.workers[w].(current := None);
    WorkerSet(s.workers, w, x, kind);
    CountOne(e, kind);
    DecTotal(s.(workers := s.workers[w := x]), e.pwq, e.color, kind);
  }

  lemma QueueTotal(s: State, p: nat, id: nat, kind: Kind)
    requires CanQueue(s, p, id)
    ensures Total(Queue(s, p, id), kind) == Total(s, kind) + Count([Entry(id, p, s.pwqs[p].workColor, false, s.nextTicket)], kind)
  {
    hide Count, Held, Running, Delayed;
    QueueCounts(s, p, id, kind);
    CountOne(Entry(id, p, s.pwqs[p].workColor, false, s.nextTicket), kind);
  }

  lemma BarrierTotal(s: State, at: Place, id: nat, kind: Kind)
    requires Listed(s) && CanBarrier(s, at, id)
    ensures Total(Barrier(s, at, id), kind)
      == Total(s, kind) + Count([Entry(id, At(s, at).pwq, WORK_NO_COLOR, At(s, at).linked, s.nextTicket)], kind)
  {
    hide Count, Held, Running, Delayed, WithBarrier;
    AtFits(s, at);
    BarrierListed(s, at, id);
    BarrierSums(s, at, id, kind);
    SameRunning(s.workers, Barrier(s, at, id).workers, kind);
    CountOne(Entry(id, At(s, at).pwq, WORK_NO_COLOR, At(s, at).linked, s.nextTicket), kind);
  }

  lemma {:induction false} SameRunning(ws: seq<Worker>, vs: seq<Worker>, kind: Kind)
    requires |ws| == |vs| && forall w | 0 <= w < |ws| :: ws[w].current == vs[w].current
    ensures Running(ws, kind) == Running(vs, kind)
  {
    if ws != [] { SameRunning(ws[..|ws| - 1], vs[..|vs| - 1], kind); }
  }

  lemma BarrierRunningTotal(s: State, w: nat, id: nat, kind: Kind)
    requires CanBarrierRunning(s, w, id)
    ensures Total(BarrierRunning(s, w, id), kind)
      == Total(s, kind) + Count([Entry(id, s.workers[w].current.value.pwq, WORK_NO_COLOR, false, s.nextTicket)], kind)
  {
    hide Count, Held, Running, Delayed;
    var s' := BarrierRunning(s, w, id);
    var p := s.workers[w].current.value.pwq;
    var b := Entry(id, p, WORK_NO_COLOR, false, s.nextTicket);
    CountAppend([b], s.workers[w].scheduled, kind);
    WorkerSet(s.workers, w, s'.workers[w], kind);
    SamePwqCounts(s, p, s'.pwqs[p], kind);
  }

  lemma TakeTotal(s: State, v: nat, kind: Kind)
    requires v < |s.workers| && s.worklist != []
    ensures var j := RunEnd(s.worklist, 0);
      Total(s.(worklist := s.worklist[j..], workers := s.workers[v := s.workers[v].(scheduled := s.workers[v].scheduled + s.worklist[..j])]), kind)
        == Total(s, kind)
  {
    hide Count, Held, Running, Delayed;
    FrontCounts(s.worklist, s.workers[v].scheduled, kind);
    WorkerSet(s.workers, v, s.workers[v].(scheduled := s.workers[v].scheduled + s.worklist[..RunEnd(s.worklist, 0)]), kind);
  }

  lemma DeferTotal(s: State, w: nat, v: nat, fromWorklist: bool, kind: Kind)
    requires CanDefer(s, w, v, fromWorklist)
    ensures Total(Defer(s, w, v, fromWorklist), kind) == Total(s, kind)
  {
    hide Count, Held, Running, Delayed;
    if fromWorklist {
      TakeTotal(s, v, kind);
    } else {
      var l := s.workers[w].scheduled;
      var j := RunEnd(l, 0);
      var x, y := s.workers[w].(scheduled := l[j..]), s.workers[v].(scheduled := s.workers[v].scheduled + l[..j]);
      FrontCounts(l, s.workers[v].scheduled, kind);
      WorkerSet(s.workers, w, x, kind);
      WorkerSet(s.workers[w := x], v, y, kind);
      assert Defer(s, w, v, false).workers == s.workers[w := x][v := y];
    }
  }

  lemma StartTotal(s: State, w: nat, fromWorklist: bool, kind: Kind)
    requires CanStart(s, w, fromWorklist)
    ensures Total(Start(s, w, fromWorklist), kind) == Total(s, kind)
  {
    hide Count, Held, Running, Active;
    var e := Next(s, w, fromWorklist);
    StartCounts(s, w, fromWorklist, kind);
    StartedPwqs(s.(pending := s.pending - {e.id}), e);
  }

  /** Every item that is there has arrived, and stays until it is taken back or its function has returned. */
  lemma Conserved(s: State, step: Step, kind: Kind)
    requires Inv(s) && Enabled(s, step)
    ensures Total(Apply(s, step), kind) + Count(Leaving(s, step), kind) == Total(s, kind) + Count(Arriving(s, step), kind)
  {
    hide Total, Count, Listed, Counted, Limits, Owned, Alone;
    CountNil(kind);
    match step {
      case DoSetColor(p, c) => SetColorTotal(s, p, c, kind);
      case DoQueue(p, id) => QueueTotal(s, p, id, kind);
      case DoGrab(at) => GrabTotal(s, at, kind);
      case DoClaim(id) => ClaimTotal(s, id, kind);
      case DoRelease(id) => ReleaseTotal(s, id, kind);
      case DoBarrier(at, id) => BarrierTotal(s, at, id, kind);
      case DoBarrierRunning(w, id) => BarrierRunningTotal(s, w, id, kind);
      case DoTakeRun(w) => TakeTotal(s, w, kind);
      case DoDefer(w, v, fromWorklist) => DeferTotal(s, w, v, fromWorklist, kind);
      case DoStart(w, fromWorklist) => StartTotal(s, w, fromWorklist, kind);
      case DoFinish(w) => FinishTotal(s, w, kind);
    }
  }

  lemma SetColorTotal(s: State, p: nat, c: int, kind: Kind)
    requires CanSetColor(s, p, c)
    ensures Total(SetColor(s, p, c), kind) == Total(s, kind)
  {
    SamePwqCounts(s, p, SetColor(s, p, c).pwqs[p], kind);
  }

  lemma ClaimTotal(s: State, id: nat, kind: Kind)
    ensures Total(Claim(s, id), kind) == Total(s, kind)
  {}

  lemma ReleaseTotal(s: State, id: nat, kind: Kind)
    ensures Total(Release(s, id), kind) == Total(s, kind)
  {}

  // ---------- tickets ----------

  /** A ticket that has been given out is there at most once, any other not at all. */
  ghost predicate Unique(s: State) {
    forall t: nat :: Total(s, OfTicket(t)) <= if t < s.nextTicket then 1 else 0
  }

  lemma PwqsStay(s: State, step: Step)
    requires Enabled(s, step)
    ensures |Apply(s, step).pwqs| == |s.pwqs|
  {}

  lemma NextTicketGrows(s: State, step: Step)
    requires Enabled(s, step)
    ensures Apply(s, step).nextTicket == s.nextTicket + |Arriving(s, step)|
    ensures forall e | e in Arriving(s, step) :: e.ticket == s.nextTicket
  {
    hide Dec, Activate, Started;
    match step {
      case DoGrab(at) => GrabKeeps(s, at);
      case DoFinish(w) =>
        DecKeeps(s.(workers := s.workers[w := s.workers[w].(current := None)]), s.workers[w].current.value.pwq, s.workers[w].current.value.color);
      case DoStart(w, fromWorklist) => StartedKeeps(s.(pending := s.pending - {Next(s, w, fromWorklist).id}), Next(s, w, fromWorklist));
      case _ =>
    }
  }

  lemma GrabKeeps(s: State, at: Place)
    requires CanGrab(s, at)
    ensures Grab(s, at).nextTicket == s.nextTicket
  {}

  lemma DecKeeps(s: State, p: nat, c: int)
    requires p < |s.pwqs| && (c != WORK_NO_COLOR ==> 0 <= c < |s.pwqs[p].nrInFlight|)
    ensures Dec(s, p, c).nextTicket == s.nextTicket
  {}

  lemma StartedKeeps(s: State, e: Entry)
    ensures Started(s, e).nextTicket == s.nextTicket
  {}

  lemma StepUnique(s: State, step: Step)
    requires Inv(s) && Unique(s) && Enabled(s, step)
    ensures Unique(Apply(s, step))
  {
    hide Inv, Apply, Total, Leaving, Enabled;
    NextTicketGrows(s, step);
    forall t: nat ensures Total(Apply(s, step), OfTicket(t)) <= if t < Apply(s, step).nextTicket then 1 else 0 {
      Conserved(s, step, OfTicket(t));
      assert Total(s, OfTicket(t)) <= if t < s.nextTicket then 1 else 0;
      if Arriving(s, step) == [] {
        CountNil(OfTicket(t));
      } else {
        assert Arriving(s, step) == [Arriving(s, step)[0]];
        CountOne(Arriving(s, step)[0], OfTicket(t));
      }
    }
  }

  lemma {:induction false} RunUnique(states: seq<State>, steps: seq<Step>, k: nat)
    requires IsRun(states, steps) && k < |states|
    ensures Unique(states[k])
  {
    hide Inv, Apply, Enabled;
    if k == 0 {
      InitUnique(states[0]);
    } else {
      RunUnique(states, steps, k - 1);
      RunInv(states, steps, k - 1);
      StepUnique(states[k - 1], steps[k - 1]);
    }
  }

  lemma InitUnique(s: State)
    requires Init(s)
    ensures Unique(s)
  {
    forall t: nat ensures Total(s, OfTicket(t)) == 0 {
      IdleSums(s.workers, OfTicket(t));
      NoDelayed(s.pwqs, OfTicket(t));
    }
  }

  // ---------- where an item is ----------

  /** An item is neither queued nor running. */
  ghost predicate Gone(s: State, t: nat) {
    && (forall at: Place | Exists(s, at) :: At(s, at).ticket != t)
    && forall w | 0 <= w < |s.workers| && s.workers[w].current.Some? :: s.workers[w].current.value.ticket != t
  }

  lemma RunningCounts(s: State, w: nat, kind: Kind)
    requires w < |s.workers| && s.workers[w].current.Some? && Is(s.workers[w].current.value, kind)
    ensures Running(s.workers, kind) >= 1
  {
    WorkerSet(s.workers, w, s.workers[w], kind);
  }

  lemma NoneIsGone(s: State, t: nat)
    requires Total(s, OfTicket(t)) == 0
    ensures Gone(s, t)
  {
    forall at: Place | Exists(s, at) ensures At(s, at).ticket != t {
      if At(s, at).ticket == t { PlaceCounts(s, at, OfTicket(t)); }
    }
    forall w | 0 <= w < |s.workers| && s.workers[w].current.Some? ensures s.workers[w].current.value.ticket != t {
      if s.workers[w].current.value.ticket == t { RunningCounts(s, w, OfTicket(t)); }
    }
  }
}
