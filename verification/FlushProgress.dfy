/**
 No flush is lost.  Once nobody queues work or calls flush any more and every running work
 function returns, every caller of flush_workqueue returns, in whatever order the remaining
 critical sections are scheduled.
 */
module FlushProgress {
  import opened Options
  import opened FlushProtocol
  import opened FlushInvariant

  /** Steps of workers, waiters and the holder of the mutex; no new work and no new flush. */
  predicate Quiet(a: Action) {
    !a.QueueA? && !a.FlushA?
  }

  predicate AllDone(s: State) {
    && s.holder.Free?
    && (forall p | 0 <= p < |s.pwqs| :: s.pwqs[p].inFlight == {})
    && (forall f | 0 <= f < |s.flushers| :: s.flushers[f].pc.Returned?)
  }

  // ---------- no deadlock ----------

  /** While something is left to do, some quiet step can be taken. */
  lemma NoDeadlock(s: State) returns (a: Action, s': State)
    requires Inv(s) && !AllDone(s)
    ensures Quiet(a) && Step(s, a, s')
  {
    if s.holder.Prep? {
      if s.holder.idx < |s.pwqs| {
        assert PwqOk(s, s.holder.idx);
        a, s' := PrepA, PrepPwq(s);
      } else {
        a, s' := EndA, PrepEnd(s);
      }
    } else if p: nat :| p < |s.pwqs| && s.pwqs[p].inFlight != {} {
      var item :| item in s.pwqs[p].inFlight;
      assert PwqOk(s, p) && ItemOk(s, p, item);
      a, s' := FinishA(p, item), Finish(s, p, item);
    } else {
      var f: nat :| f < |s.flushers| && !s.flushers[f].pc.Returned?;
      a, s' := SomeFlusherMoves(s, f);
    }
  }

  /** With no work in flight, the flusher itself or the first flusher it depends on can go on. */
  lemma SomeFlusherMoves(s: State, f: nat) returns (a: Action, s': State)
    requires Inv(s) && s.holder.Free? && f < |s.flushers| && !s.flushers[f].pc.Returned?
    requires forall p | 0 <= p < |s.pwqs| :: s.pwqs[p].inFlight == {}
    ensures Quiet(a) && Step(s, a, s')
  {
    assert FlusherOk(s, f);
    if s.flushers[f].pc.Waiting? && s.flushers[f].done == 0 {
      var g := s.firstFlusher.value;
      assert FlusherOk(s, g);
      forall p | 0 <= p < |s.pwqs| ensures s.pwqs[p].flushColor == -1 { assert ArmOk(s, p); }
      assert Armed(s.pwqs) == {};
      a, s' := FlusherMoves(s, g);
    } else {
      a, s' := FlusherMoves(s, f);
    }
  }

  lemma FlusherMoves(s: State, f: nat) returns (a: Action, s': State)
    requires Inv(s) && s.holder.Free? && f < |s.flushers| && !s.flushers[f].pc.Returned? && Finished(s.flushers[f])
    ensures Quiet(a) && Step(s, a, s')
  {
    assert FlusherOk(s, f);
    match s.flushers[f].pc
    case Waiting => a, s' := WakeA(f), Wake(s, f);
    case Woken => a, s' := CheckA(f), CheckFirst(s, f);
    case Relock => a, s' := CascadeA(f), Cascade(s, f);
  }

  // ---------- a variant ----------

  function ItemsLeft(pwqs: seq<Pwq>): nat {
    if pwqs == [] then 0 else |pwqs[0].inFlight| + ItemsLeft(pwqs[1..])
  }

  function PcRank(pc: Pc): nat {
    match pc
    case InMutex => 5
    case Waiting => 4
    case Woken => 3
    case Relock => 2
    case Cascading => 1
    case Returned => 0
  }

  function PcSum(flushers: seq<Flusher>): nat {
    if flushers == [] then 0 else PcRank(flushers[0].pc) + PcSum(flushers[1..])
  }

  function ResumeRank(holder: Holder): nat {
    match holder
    case Prep(_, _, _, AsNextDone) => 1
    case Prep(_, _, _, AsNextFirst) => 2
    case Prep(_, _, _, _) => 3
    case _ => 0
  }

  function PwqsLeft(s: State): nat {
    if s.holder.Prep? && s.holder.idx <= |s.pwqs| then |s.pwqs| - s.holder.idx else 0
  }

  function EpochsLeft(s: State): nat {
    if s.flushEpoch <= s.workEpoch then s.workEpoch - s.flushEpoch else 0
  }

  /** Lexicographic: work left, overflowed flushers, open epochs, positions of the flushers, position of the holder. */
  predicate Before(s': State, s: State) {
    || ItemsLeft(s'.pwqs) < ItemsLeft(s.pwqs)
    || (ItemsLeft(s'.pwqs) == ItemsLeft(s.pwqs) &&
        (|| |s'.flusherOverflow| < |s.flusherOverflow|
         || (|s'.flusherOverflow| == |s.flusherOverflow| &&
             (|| EpochsLeft(s') < EpochsLeft(s)
              || (EpochsLeft(s') == EpochsLeft(s) &&
                  (|| PcSum(s'.flushers) < PcSum(s.flushers)
                   || (PcSum(s'.flushers) == PcSum(s.flushers) &&
                       (|| ResumeRank(s'.holder) < ResumeRank(s.holder)
                        || (ResumeRank(s'.holder) == ResumeRank(s.holder) && PwqsLeft(s') < PwqsLeft(s))))))))))
  }

  lemma {:induction false} ItemsLeftSame(pwqs: seq<Pwq>, pwqs': seq<Pwq>)
    requires |pwqs| == |pwqs'| && forall p | 0 <= p < |pwqs| :: pwqs'[p].inFlight == pwqs[p].inFlight
    ensures ItemsLeft(pwqs') == ItemsLeft(pwqs)
  {
    if pwqs != [] { ItemsLeftSame(pwqs[1..], pwqs'[1..]); }
  }

  lemma {:induction false} ItemsLeftUpdate(pwqs: seq<Pwq>, p: nat, pwq: Pwq)
    requires p < |pwqs|
    ensures ItemsLeft(pwqs[p := pwq]) == ItemsLeft(pwqs) - |pwqs[p].inFlight| + |pwq.inFlight|
  {
    if p == 0 {
      assert pwqs[0 := pwq][1..] == pwqs[1..];
    } else {
      assert pwqs[p := pwq][1..] == pwqs[1..][p - 1 := pwq];
      ItemsLeftUpdate(pwqs[1..], p - 1, pwq);
    }
  }

  lemma {:induction false} PcSumSame(flushers: seq<Flusher>, flushers': seq<Flusher>)
    requires |flushers| == |flushers'| && forall f | 0 <= f < |flushers| :: flushers'[f].pc == flushers[f].pc
    ensures PcSum(flushers') == PcSum(flushers)
  {
    if flushers != [] { PcSumSame(flushers[1..], flushers'[1..]); }
  }

  lemma {:induction false} PcSumLess(flushers: seq<Flusher>, flushers': seq<Flusher>, f: nat)
    requires f < |flushers| == |flushers'| && PcRank(flushers'[f].pc) < PcRank(flushers[f].pc)
    requires forall g | 0 <= g < |flushers| && g != f :: flushers'[g].pc == flushers[g].pc
    ensures PcSum(flushers') < PcSum(flushers)
  {
    if f == 0 {
      PcSumSame(flushers[1..], flushers'[1..]);
    } else {
      PcSumLess(flushers[1..], flushers'[1..], f - 1);
    }
  }

  lemma FinishBefore(s: State, p: nat, item: Item)
    requires Inv(s) && CanFinish(s, p, item)
    ensures Before(Finish(s, p, item), s)
  {
    var pwq := Finish(s, p, item).pwqs[p];
    ItemsLeftUpdate(s.pwqs, p, pwq);
  }

  lemma PrepPwqBefore(s: State)
    requires Inv(s) && CanPrepPwq(s)
    ensures Before(PrepPwq(s), s)
  {
    ItemsLeftSame(s.pwqs, PrepPwq(s).pwqs);
  }

  /** The cascade loop either empties the overflow list or retires an epoch. */
  lemma HeadBefore(s: State, me: nat)
    requires me < |s.flushers| && s.flushEpoch < s.workEpoch && CascadeHead(s, me).holder != Crashed
    ensures var s' := CascadeHead(s, me);
      ItemsLeft(s'.pwqs) == ItemsLeft(s.pwqs) &&
      (|| |s'.flusherOverflow| < |s.flusherOverflow|
       || (|s'.flusherOverflow| == |s.flusherOverflow| && EpochsLeft(s') < EpochsLeft(s)))
  {}

  lemma PrepEndBefore(s: State)
    requires Inv(s) && CanPrepEnd(s)
    ensures Before(PrepEnd(s), s)
  {
    hide PwqOk, FlusherSafe, FlusherSplit, QueueOk, CascadeHead;
    var s' := PrepEnd(s);
    var me := s.holder.owner;
    assert FlusherOk(s, me);
    if Arming(s) { DropBias(s); }
    match s.holder.resume
    case AsFirst =>
      if s.holder.wait { PcSumLess(s.flushers, s'.flushers, me); }
    case AsQueued => PcSumLess(s.flushers, s'.flushers, me);
    case AfterOverflow(next) =>
      if s'.holder.Free? { PcSumLess(s.flushers, s'.flushers, me); } else { PcSumSame(s.flushers, s'.flushers); }
    case AsNextFirst =>
      if s.holder.wait { PcSumLess(s.flushers, s'.flushers, me); } else { PcSumSame(s.flushers, s'.flushers); }
    case AsNextDone =>
      RepeatBefore(s);
  }

  lemma RepeatBefore(s: State)
    requires Inv(s) && CanPrepEnd(s) && s.holder.resume.AsNextDone?
    ensures Before(PrepEnd(s), s)
  {
    assert FlusherOk(s, s.firstFlusher.value);
    PrepEndInv(s);
    HeadBefore(s.(firstFlusher := None), s.holder.owner);
  }

  lemma CascadeBefore(s: State, f: nat)
    requires Inv(s) && CanCascade(s, f)
    ensures Before(Cascade(s, f), s)
  {
    assert FlusherOk(s, f);
    if s.firstFlusher != Some(f) {
      PcSumLess(s.flushers, Cascade(s, f).flushers, f);
    } else {
      var t := s.(firstFlusher := None, flushers := SetPc(s.flushers, f, Cascading));
      CascadeInv(s, f);
      HeadBefore(t, f);
    }
  }

  /** Every quiet step brings the end nearer. */
  lemma QuietStepBefore(s: State, a: Action, s': State)
    requires Inv(s) && Quiet(a) && Step(s, a, s')
    ensures Before(s', s)
  {
    match a
    case FinishA(p, item) => FinishBefore(s, p, item);
    case PrepA => PrepPwqBefore(s);
    case EndA => PrepEndBefore(s);
    case WakeA(f) => PcSumLess(s.flushers, s'.flushers, f);
    case CheckA(f) => PcSumLess(s.flushers, s'.flushers, f);
    case CascadeA(f) => CascadeBefore(s, f);
  }

  // ---------- every schedule ends ----------

  /** A schedule that goes on for ever must, sooner or later, queue new work, flush again or take no step. */
  lemma NoInfiniteQuietRun(states: nat -> State, actions: nat -> Action)
    requires Inv(states(0))
    ensures exists i: nat :: !(Quiet(actions(i)) && Step(states(i), actions(i), states(i + 1)))
  {
    if forall i: nat :: Quiet(actions(i)) && Step(states(i), actions(i), states(i + 1)) {
      Descend(states, actions, 0);
    }
  }

  lemma {:induction false} Descend(states: nat -> State, actions: nat -> Action, i: nat)
    requires Inv(states(i))
    requires forall k: nat :: Quiet(actions(k)) && Step(states(k), actions(k), states(k + 1))
    ensures false
    decreases ItemsLeft(states(i).pwqs), |states(i).flusherOverflow|, EpochsLeft(states(i)),
              PcSum(states(i).flushers), ResumeRank(states(i).holder), PwqsLeft(states(i))
  {
    hide Inv, Step;
    assert Step(states(i), actions(i), states(i + 1));
    StepInv(states(i), actions(i), states(i + 1));
    QuietStepBefore(states(i), actions(i), states(i + 1));
    Descend(states, actions, i + 1);
  }

  /** A quiet schedule that cannot be continued has let every flusher return and every item finish. */
  lemma StuckMeansDone(s: State)
    requires Inv(s) && forall a, s' | Quiet(a) :: !Step(s, a, s')
    ensures AllDone(s)
  {
    hide Inv, Step;
    if !AllDone(s) {
      var a, s' := NoDeadlock(s);
    }
  }

  /** Such a schedule exists from every reachable state. */
  lemma {:induction false} EveryFlushCanReturn(s: State) returns (states: seq<State>, actions: seq<Action>)
    requires Inv(s)
    ensures |states| == |actions| + 1 && states[0] == s && AllDone(states[|actions|])
    ensures forall i | 0 <= i < |actions| :: Quiet(actions[i]) && Step(states[i], actions[i], states[i + 1])
    decreases ItemsLeft(s.pwqs), |s.flusherOverflow|, EpochsLeft(s), PcSum(s.flushers), ResumeRank(s.holder), PwqsLeft(s)
  {
    hide Inv, Step;
    if AllDone(s) {
      states, actions := [s], [];
    } else {
      var a, s1 := NoDeadlock(s);
      StepInv(s, a, s1);
      QuietStepBefore(s, a, s1);
      var states1, actions1 := EveryFlushCanReturn(s1);
      states, actions := [s] + states1, [a] + actions1;
    }
  }
}
