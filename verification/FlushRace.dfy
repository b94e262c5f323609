/**
 The race for which the first flusher is looked at again under the mutex (workqueue.c:1648-1650) can
 happen: a run in which a flusher goes for the mutex as the first one, and is not when it has it.
 */
module FlushRace {
  import opened WorkColors
  import opened Options
  import opened FlushProtocol
  import opened FlushTheorems

  function Counters(n: int): seq<int> {
    seq(WORK_NR_COLORS, c => if c == 0 then n else 0)
  }

  const ITEM := Item(0, 0, 0)

  function WithItem(workColor: int, flushColor: int): seq<Pwq> {
    [Pwq(workColor, flushColor, Counters(1), {ITEM})]
  }

  function Drained(): seq<Pwq> {
    [Pwq(2, -1, Counters(0), {})]
  }

  /** Two flushers; the second one gets its colour while the first one waits for the item. */
  function F0(done: nat, pc: Pc): Flusher { Flusher(0, done, pc, 1, 1, 0) }

  function F1(done: nat, pc: Pc): Flusher { Flusher(1, done, pc, 1, 1, 1) }

  function Beginning(k: nat): State
    requires k <= 7
  {
    match k
    case 0 => State(0, 0, 0, None, [], [], [], [Pwq(0, -1, Counters(0), {})], Free, 0, 0, 0)
    case 1 => State(0, 0, 0, None, [], [], [], WithItem(0, -1), Free, 1, 0, 0)
    case 2 => State(1, 0, 1, Some(0), [], [], [F0(0, InMutex)], WithItem(0, -1), Prep(0, 0, false, AsFirst), 1, 1, 0)
    case 3 => State(1, 0, 2, Some(0), [], [], [F0(0, InMutex)], WithItem(1, 0), Prep(0, 1, true, AsFirst), 1, 1, 0)
    case 4 => State(1, 0, 1, Some(0), [], [], [F0(0, Waiting)], WithItem(1, 0), Free, 1, 1, 0)
    case 5 => State(2, 0, 1, Some(0), [1], [], [F0(0, Waiting), F1(0, InMutex)], WithItem(1, 0), Prep(1, 0, false, AsQueued), 1, 2, 0)
    case 6 => State(2, 0, 1, Some(0), [1], [], [F0(0, Waiting), F1(0, InMutex)], WithItem(2, 0), Prep(1, 1, false, AsQueued), 1, 2, 0)
    case _ => State(2, 0, 1, Some(0), [1], [], [F0(0, Waiting), F1(0, Waiting)], WithItem(2, 0), Free, 1, 2, 0)
  }

  function Ending(k: nat): State
    requires 8 <= k <= 17
  {
    match k
    case 8 => State(2, 0, 0, Some(0), [1], [], [F0(1, Waiting), F1(0, Waiting)], Drained(), Free, 1, 2, 0)
    case 9 => State(2, 0, 0, Some(0), [1], [], [F0(0, Woken), F1(0, Waiting)], Drained(), Free, 1, 2, 0)
    case 10 => State(2, 0, 0, Some(0), [1], [], [F0(0, Relock), F1(0, Waiting)], Drained(), Free, 1, 2, 0)
    case 11 => State(2, 1, 1, Some(1), [], [], [F0(0, Cascading), F1(0, Waiting)], Drained(), Prep(0, 0, false, AsNextFirst), 1, 2, 1)
    case 12 => State(2, 1, 1, Some(1), [], [], [F0(0, Cascading), F1(0, Waiting)], Drained(), Prep(0, 1, false, AsNextFirst), 1, 2, 1)
    case 13 => State(2, 1, 0, Some(1), [], [], [F0(0, Cascading), F1(1, Waiting)], Drained(), Prep(0, 1, false, AsNextDone), 1, 2, 1)
    case 14 => State(2, 1, 0, Some(1), [], [], [F0(0, Cascading), F1(0, Woken)], Drained(), Prep(0, 1, false, AsNextDone), 1, 2, 1)
    case 15 => State(2, 1, 0, Some(1), [], [], [F0(0, Cascading), F1(0, Relock)], Drained(), Prep(0, 1, false, AsNextDone), 1, 2, 1)
    case 16 => State(2, 2, 0, None, [], [], [F0(0, Returned), F1(0, Relock)], Drained(), Free, 1, 2, 2)
    case _ => State(2, 2, 0, None, [], [], [F0(0, Returned), F1(0, Returned)], Drained(), Free, 1, 2, 2)
  }

  function StateAt(k: nat): State
    requires k <= 17
  {
    if k <= 7 then Beginning(k) else Ending(k)
  }

  function ActionAt(k: nat): Action
    requires k < 17
  {
    match k
    case 0 => QueueA(0)
    case 1 => FlushA
    case 2 => PrepA
    case 3 => EndA
    case 4 => FlushA
    case 5 => PrepA
    case 6 => EndA
    case 7 => FinishA(0, ITEM)
    case 8 => WakeA(0)
    case 9 => CheckA(0)
    case 10 => CascadeA(0)
    case 11 => PrepA
    case 12 => EndA
    case 13 => WakeA(1)
    case 14 => CheckA(1)
    case 15 => EndA
    case _ => CascadeA(1)
  }

  lemma ItemIsQueued()
    ensures Step(Beginning(0), ActionAt(0), Beginning(1))
  {
    assert Counters(0)[0 := 1] == Counters(1);
    assert {} + {ITEM} == {ITEM};
  }

  lemma FirstFlush(k: nat)
    requires 1 <= k < 4
    ensures Step(Beginning(k), ActionAt(k), Beginning(k + 1))
  {}

  lemma SecondFlush(k: nat)
    requires 4 <= k < 7
    ensures Step(Beginning(k), ActionAt(k), Beginning(k + 1))
  {}

  lemma ItemFinishes()
    ensures Step(Beginning(7), ActionAt(7), Ending(8))
  {
    assert Counters(1)[0 := 0] == Counters(0);
    assert {ITEM} - {ITEM} == {};
  }

  lemma FirstWakes(k: nat)
    requires 8 <= k < 11
    ensures Step(Ending(k), ActionAt(k), Ending(k + 1))
  {}

  lemma SecondIsDone(k: nat)
    requires 11 <= k < 15
    ensures Step(Ending(k), ActionAt(k), Ending(k + 1))
  {}

  lemma SecondIsLate(k: nat)
    requires 15 <= k < 17
    ensures Step(Ending(k), ActionAt(k), Ending(k + 1))
  {}

  lemma StepAt(k: nat)
    requires k < 17
    ensures Step(StateAt(k), ActionAt(k), StateAt(k + 1))
  {
    hide Step, Beginning, Ending, ActionAt;
    if k == 0 { ItemIsQueued(); }
    else if k < 4 { FirstFlush(k); }
    else if k < 7 { SecondFlush(k); }
    else if k == 7 { ItemFinishes(); }
    else if k < 11 { FirstWakes(k); }
    else if k < 15 { SecondIsDone(k); }
    else { SecondIsLate(k); }
  }

  /** The last step of this run takes the mutex for a flusher that is no longer the first one. */
  lemma RaceHappens() returns (states: seq<State>, actions: seq<Action>)
    ensures IsRun(states, actions) && |actions| == 17 && actions[16].CascadeA?
    ensures var f := actions[16].f;
      f < |states[15].flushers| && states[15].firstFlusher == Some(f) && states[15].flushers[f].pc.Relock?
    ensures CanCascade(states[16], actions[16].f) && states[16].firstFlusher != Some(actions[16].f)
  {
    hide Step;
    states := seq(18, k requires 0 <= k < 18 => StateAt(k));
    actions := seq(17, k requires 0 <= k < 17 => ActionAt(k));
    forall k | 0 <= k < 17 ensures Step(states[k], actions[k], states[k + 1]) {
      StepAt(k);
    }
    assert Counters(0) == seq(WORK_NR_COLORS, _ => 0);
  }
}
