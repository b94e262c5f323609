/**
 The code of workqueue.c that runs inside the critical sections, as a class whose methods update
 its fields in place.  Each method is one step of FlushProtocol and keeps its invariant.
 */
module Workqueue {
  import opened WorkColors
  import opened Options
  import opened FlushProtocol
  import opened FlushInvariant

  class WorkqueueStruct {
    var workColor: int
    var flushColor: int
    var nrPwqsToFlush: int
    var firstFlusher: Option<nat>
    var flusherQueue: seq<nat>
    var flusherOverflow: seq<nat>
    var flushers: seq<Flusher>
    var pwqs: seq<Pwq>
    var holder: Holder
    // history: never read by a branch
    var nextTicket: nat
    var workEpoch: nat
    var flushEpoch: nat

    ghost function View(): State
      reads this
    {
      State(workColor, flushColor, nrPwqsToFlush, firstFlusher, flusherQueue, flusherOverflow, flushers, pwqs,
            holder, nextTicket, workEpoch, flushEpoch)
    }

    /** alloc_workqueue: all colours 0, no flush in progress. */
    constructor (nrPwqs: nat)
      ensures Init(View()) && Inv(View()) && |pwqs| == nrPwqs
    {
      workColor, flushColor, nrPwqsToFlush := 0, 0, 0;
      firstFlusher, flusherQueue, flusherOverflow, flushers := None, [], [], [];
      pwqs := seq(nrPwqs, _ => Pwq(0, -1, seq(WORK_NR_COLORS, _ => 0), {}));
      holder := Free;
      nextTicket, workEpoch, flushEpoch := 0, 0, 0;
      new;
      InitInv(View());
    }

    /** The coloured part of __queue_work. */
    method QueueWork(p: nat)
      requires Inv(View()) && CanQueueWork(View(), p)
      modifies this
      ensures View() == FlushProtocol.QueueWork(old(View()), p) && Inv(View())
    {
      QueueWorkInv(View(), p);
      var pwq := pwqs[p];
      var color := pwq.workColor;
      var item := Item(nextTicket, color, workEpoch);
      nextTicket := nextTicket + 1;
      pwqs := pwqs[p := pwq.(nrInFlight := pwq.nrInFlight[color := pwq.nrInFlight[color] + 1],
                             inFlight := pwq.inFlight + {item})];
    }

    /** The flush half of pwq_dec_nr_in_flight. */
    method PwqDecNrInFlight(p: nat, item: Item)
      requires Inv(View()) && CanFinish(View(), p, item)
      modifies this
      ensures View() == Finish(old(View()), p, item) && Inv(View())
    {
      FinishInv(View(), p, item);
      assert ArmOk(View(), p);
      var color := item.color;
      var pwq := pwqs[p];
      pwq := pwq.(nrInFlight := pwq.nrInFlight[color := pwq.nrInFlight[color] - 1],
                  inFlight := pwq.inFlight - {item});
      pwqs := pwqs[p := pwq];
      if pwq.flushColor != color {
        return;
      }
      if pwq.nrInFlight[color] != 0 {
        return;
      }
      pwqs := pwqs[p := pwq.(flushColor := -1)];
      DecAndTest();
    }

    /** atomic_dec_and_test of nr_pwqs_to_flush; at zero the first flusher is completed. */
    method DecAndTest()
      requires firstFlusher.Some? && !Gone(flushers, firstFlusher.value)
      modifies this`nrPwqsToFlush, this`flushers
      ensures View() == DecPwqsToFlush(old(View()))
    {
      nrPwqsToFlush := nrPwqsToFlush - 1;
      if nrPwqsToFlush == 0 {
        CompleteFlusher(firstFlusher.value);
      }
    }

    /** util_complete */
    method CompleteFlusher(f: nat)
      requires f < |flushers|
      modifies this`flushers
      ensures flushers == Complete(old(flushers), f)
    {
      flushers := flushers[f := flushers[f].(done := flushers[f].done + 1)];
    }

    /** util_flush_workqueue, from taking the mutex to the first pool->lock section. */
    method StartFlush() returns (me: nat)
      requires Inv(View()) && holder.Free?
      modifies this
      ensures View() == FlushStart(old(View())) && Inv(View())
      ensures me == |old(flushers)|
    {
      hide Inv;
      FlushStartInv(View());
      me := |flushers|;
      var nextColor := NextColor(workColor);
      if nextColor != flushColor {
        flushers := flushers + [Flusher(workColor, 0, InMutex, nextTicket, nextTicket, workEpoch)];
        workColor := nextColor;
        workEpoch := workEpoch + 1;
        if firstFlusher.None? {
          firstFlusher := Some(me);
          nrPwqsToFlush := 1;
          holder := Prep(me, 0, false, AsFirst);
        } else {
          flusherQueue := flusherQueue + [me];
          holder := Prep(me, 0, false, AsQueued);
        }
      } else {
        flushers := flushers + [Flusher(-1, 0, Waiting, nextTicket, 0, 0)];
        flusherOverflow := flusherOverflow + [me];
      }
    }

    /** One pool->lock section of flush_workqueue_prep_pwqs. */
    method PrepPwq()
      requires Inv(View()) && CanPrepPwq(View())
      modifies this
      ensures View() == FlushProtocol.PrepPwq(old(View())) && Inv(View())
    {
      PrepPwqInv(View());
      var i, wait := holder.idx, holder.wait;
      if Arms(holder.resume) && pwqs[i].nrInFlight[flushColor] != 0 {
        pwqs := pwqs[i := pwqs[i].(flushColor := flushColor)];
        nrPwqsToFlush := nrPwqsToFlush + 1;
        wait := true;
      }
      if Advances(holder.resume) {
        pwqs := pwqs[i := pwqs[i].(workColor := workColor)];
      }
      holder := holder.(idx := i + 1, wait := wait);
    }

    /** The end of flush_workqueue_prep_pwqs and the code of its caller up to the next wait or loop. */
    method FinishPrep()
      requires Inv(View()) && CanPrepEnd(View())
      modifies this
      ensures View() == PrepEnd(old(View())) && Inv(View())
    {
      hide Inv, CascadeHead, CascadeTail;
      PrepEndInv(View());
      PrepEndIds();
      var me, wait, resume := holder.owner, holder.wait, holder.resume;
      if Arms(resume) {
        DecAndTest();
      }
      match resume {
        case AsFirst =>
          if wait {
            SetFlusherPc(me, Waiting);
          } else {
            flushColor := workColor;
            flushEpoch := flushEpoch + 1;
            firstFlusher := None;
            SetFlusherPc(me, Returned);
          }
          holder := Free;
        case AsQueued =>
          SetFlusherPc(me, Waiting);
          holder := Free;
        case AfterOverflow(next) =>
          PromoteNext(me, next);
        case AsNextFirst =>
          if wait {
            SetFlusherPc(me, Returned);
            holder := Free;
          } else {
            holder := Prep(me, holder.idx, false, AsNextDone);
          }
        case AsNextDone =>
          firstFlusher := None;
          CascadeOnce(me);
      }
    }

    /** What FinishPrep relies on. */
    lemma PrepEndIds()
      requires Inv(View()) && CanPrepEnd(View()) && Inv(PrepEnd(View()))
      ensures holder.owner < |flushers| && !PrepEnd(View()).holder.Crashed?
      ensures Arms(holder.resume) ==> firstFlusher.Some? && !Gone(flushers, firstFlusher.value)
      ensures forall i | 0 <= i < |flusherQueue| :: flusherQueue[i] < |flushers|
      ensures forall i | 0 <= i < |flusherOverflow| :: flusherOverflow[i] < |flushers|
      ensures forall i, j | 0 <= i < j < |flusherQueue| :: flusherQueue[i] != flusherQueue[j]
      ensures holder.resume.AfterOverflow? ==> holder.resume.next.Some?
    {}

    method SetFlusherPc(f: nat, pc: Pc)
      requires f < |flushers|
      modifies this`flushers
      ensures flushers == SetPc(old(flushers), f, pc)
    {
      flushers := flushers[f := flushers[f].(pc := pc)];
    }

    /** util_wait_for_completion and the unlocked look at first_flusher, as two steps. */
    method WaitForCompletion(f: nat)
      requires Inv(View()) && CanWake(View(), f)
      modifies this
      ensures View() == Wake(old(View()), f) && Inv(View())
    {
      WakeInv(View(), f);
      flushers := flushers[f := flushers[f].(done := flushers[f].done - 1, pc := Woken)];
    }

    method CheckFirstFlusher(f: nat)
      requires Inv(View()) && CanCheckFirst(View(), f)
      modifies this
      ensures View() == CheckFirst(old(View()), f) && Inv(View())
    {
      CheckFirstInv(View(), f);
      if firstFlusher != Some(f) {
        SetFlusherPc(f, Returned);
      } else {
        SetFlusherPc(f, Relock);
      }
    }

    /** The wake-up-and-cascade phase, from retaking the mutex. */
    method WakeUpAndCascade(f: nat)
      requires Inv(View()) && CanCascade(View(), f)
      modifies this
      ensures View() == Cascade(old(View()), f) && Inv(View())
    {
      hide Inv;
      CascadeInv(View(), f);
      CascadeReady(View(), f);
      if firstFlusher != Some(f) {
        SetFlusherPc(f, Returned);
        return;
      }
      firstFlusher := None;
      SetFlusherPc(f, Cascading);
      CascadeOnce(f);
    }

    /** The body of the cascade loop up to its next pool->lock section. */
    method CascadeOnce(me: nat)
      requires me < |flushers| && CascadeHead(View(), me).holder != Crashed
      requires forall i | 0 <= i < |flusherQueue| :: flusherQueue[i] < |flushers|
      requires forall i | 0 <= i < |flusherOverflow| :: flusherOverflow[i] < |flushers|
      requires forall i, j | 0 <= i < j < |flusherQueue| :: flusherQueue[i] != flusherQueue[j]
      modifies this
      ensures View() == CascadeHead(old(View()), me)
    {
      hide ScanLength, CompleteAll, AssignColor;
      CompleteSharers();
      var next := if flusherQueue == [] then None else Some(flusherQueue[0]);
      flushColor := NextColor(flushColor);
      flushEpoch := flushEpoch + 1;
      if flusherOverflow != [] {
        AssignOverflowColors();
        workColor := NextColor(workColor);
        workEpoch := workEpoch + 1;
        flusherQueue, flusherOverflow := flusherQueue + flusherOverflow, [];
        holder := Prep(me, 0, false, AfterOverflow(next));
      } else {
        PromoteNext(me, next);
      }
    }

    /** Completes and unlinks the flushers at the front of the queue that share the flush colour. */
    method CompleteSharers()
      requires forall i | 0 <= i < |flusherQueue| :: flusherQueue[i] < |flushers|
      requires forall i, j | 0 <= i < j < |flusherQueue| :: flusherQueue[i] != flusherQueue[j]
      modifies this`flushers, this`flusherQueue
      ensures var k := ScanLength(old(flusherQueue), old(flushers), flushColor);
        flusherQueue == old(flusherQueue)[k..] && flushers == CompleteAll(old(flushers), old(flusherQueue)[..k])
    {
      hide CompleteAll, ScanLength;
      ghost var queue0, flushers0, k := flusherQueue, flushers, 0;
      NoneCompleted(flushers0);
      while flusherQueue != [] && flushers[flusherQueue[0]].flushColor == flushColor
        invariant k <= |queue0| && flusherQueue == queue0[k..]
        invariant flushers == CompleteAll(flushers0, queue0[..k])
        invariant ScanLength(queue0, flushers0, flushColor) == k + ScanLength(queue0[k..], flushers0, flushColor)
        decreases |flusherQueue|
      {
        var next := flusherQueue[0];
        assert next == queue0[k] && next !in queue0[..k];
        CompleteOne(flushers0, queue0, k);
        ScanOne(queue0, flushers0, flushColor, k);
        flusherQueue := flusherQueue[1..];
        CompleteFlusher(next);
        k := k + 1;
      }
      if k < |queue0| { CompleteOne(flushers0, queue0, k); }
      ScanEnds(queue0, flushers0, flushColor, k);
    }

    /** Gives the work colour to every overflowed flusher. */
    method AssignOverflowColors()
      requires forall i | 0 <= i < |flusherOverflow| :: flusherOverflow[i] < |flushers|
      modifies this`flushers
      ensures flushers == AssignColor(old(flushers), flusherOverflow, workColor, nextTicket, workEpoch)
    {
      ghost var flushers0 := flushers;
      var i := 0;
      while i < |flusherOverflow|
        invariant 0 <= i <= |flusherOverflow|
        invariant flushers == AssignColor(flushers0, flusherOverflow[..i], workColor, nextTicket, workEpoch)
      {
        var f := flusherOverflow[i];
        flushers := flushers[f := flushers[f].(flushColor := workColor, colorTicket := nextTicket, epoch := workEpoch)];
        assert flusherOverflow[..i + 1] == flusherOverflow[..i] + [f];
        i := i + 1;
      }
      assert flusherOverflow[..i] == flusherOverflow;
    }

    /** The end of the cascade loop body: stop, or make the next flusher the first one. */
    method PromoteNext(me: nat, next: Option<nat>)
      requires me < |flushers| && CascadeTail(View(), me, next).holder != Crashed
      modifies this
      ensures View() == CascadeTail(old(View()), me, next)
    {
      if flusherQueue == [] {
        SetFlusherPc(me, Returned);
        holder := Free;
        return;
      }
      flusherQueue := Unlink(flusherQueue, next.value);
      firstFlusher := next;
      nrPwqsToFlush := 1;
      holder := Prep(me, 0, false, AsNextFirst);
    }
  }

  lemma CascadeReady(s: State, f: nat)
    requires Inv(s) && CanCascade(s, f)
    ensures forall i | 0 <= i < |s.flusherQueue| :: s.flusherQueue[i] < |s.flushers|
    ensures forall i | 0 <= i < |s.flusherOverflow| :: s.flusherOverflow[i] < |s.flushers|
    ensures forall i, j | 0 <= i < j < |s.flusherQueue| :: s.flusherQueue[i] != s.flusherQueue[j]
    ensures Cascade(s, f).holder != Crashed
  {
    CascadeInv(s, f);
  }

  lemma NoneCompleted(flushers: seq<Flusher>)
    ensures CompleteAll(flushers, []) == flushers
  {}

  lemma CompleteOne(flushers: seq<Flusher>, queue: seq<nat>, k: nat)
    requires k < |queue| && queue[k] < |flushers| && queue[k] !in queue[..k]
    ensures queue[k] < |CompleteAll(flushers, queue[..k])|
    ensures CompleteAll(flushers, queue[..k + 1]) == Complete(CompleteAll(flushers, queue[..k]), queue[k])
    ensures forall i | 0 <= i < |flushers| && i !in queue[..k] :: CompleteAll(flushers, queue[..k])[i] == flushers[i]
  {
    assert queue[..k + 1] == queue[..k] + [queue[k]];
  }

  lemma ScanOne(queue: seq<nat>, flushers: seq<Flusher>, color: int, k: nat)
    requires k < |queue| && queue[k] < |flushers| && flushers[queue[k]].flushColor == color
    ensures ScanLength(queue[k..], flushers, color) == 1 + ScanLength(queue[k + 1..], flushers, color)
  {
    assert queue[k..][1..] == queue[k + 1..];
  }

  lemma ScanEnds(queue: seq<nat>, flushers: seq<Flusher>, color: int, k: nat)
    requires k <= |queue| && (k < |queue| && queue[k] < |flushers| ==> flushers[queue[k]].flushColor != color)
    ensures ScanLength(queue[k..], flushers, color) == 0
  {}
}
