/** The inductive invariant of the flushing protocol and its preservation by every step. */
module FlushInvariant {
  import opened WorkColors
  import opened Options
  import opened FlushProtocol

  // ---------- counting ----------

  ghost function Count(items: set<Item>, color: int): nat {
    |set i | i in items && i.color == color|
  }

  lemma CountAdd(items: set<Item>, item: Item, color: int)
    requires item !in items
    ensures Count(items + {item}, color) == Count(items, color) + (if item.color == color then 1 else 0)
  {
    var before := set i | i in items && i.color == color;
    var after := set i | i in items + {item} && i.color == color;
    assert after == if item.color == color then before + {item} else before;
  }

  lemma CountRemove(items: set<Item>, item: Item, color: int)
    requires item in items
    ensures Count(items - {item}, color) == Count(items, color) - (if item.color == color then 1 else 0)
  {
    assert items - {item} + {item} == items;
    CountAdd(items - {item}, item, color);
  }

  lemma CountZero(items: set<Item>, color: int)
    ensures Count(items, color) == 0 <==> forall i | i in items :: i.color != color
  {
    var hits := set i | i in items && i.color == color;
    if forall i | i in items :: i.color != color {
      assert hits == {};
    } else {
      var i :| i in items && i.color == color;
      assert i in hits;
    }
  }

  ghost function Armed(pwqs: seq<Pwq>): set<int> {
    set p | 0 <= p < |pwqs| && pwqs[p].flushColor != -1
  }

  /** Colours identify epochs inside a window shorter than the colour space. */
  lemma ColorsAreInjective(e1: nat, e2: nat, low: nat)
    requires low <= e1 < low + WORK_NR_COLORS && low <= e2 < low + WORK_NR_COLORS
    requires e1 % WORK_NR_COLORS == e2 % WORK_NR_COLORS
    ensures e1 == e2
  {}

  /** Advancing a colour advances the epoch it stands for. */
  lemma NextColorIsNextEpoch(e: nat)
    ensures NextColor(e % WORK_NR_COLORS) == (e + 1) % WORK_NR_COLORS
  {}

  // ---------- the invariant ----------

  predicate InPrep(s: State) { s.holder.Prep? }

  predicate Arming(s: State) { s.holder.Prep? && Arms(s.holder.resume) }

  predicate Advancing(s: State) { s.holder.Prep? && Advances(s.holder.resume) }

  /** Already visited by the arming loop of the current first flusher. */
  predicate Visited(s: State, p: int) { Arming(s) ==> p < s.holder.idx }

  /** The epoch whose colour a pwq hands out; it lags one behind until the advancing loop has visited it. */
  function PwqEpoch(s: State, p: int): int {
    if Advancing(s) && s.holder.idx <= p then s.workEpoch - 1 else s.workEpoch
  }

  predicate Finished(fl: Flusher) {
    fl.done > 0 || fl.pc.Woken? || fl.pc.Relock? || fl.pc.Cascading? || fl.pc.Returned?
  }

  predicate Colored(fl: Flusher) { fl.flushColor != -1 }

  /** Colours are epochs modulo the colour count and at most 15 epochs are open. */
  predicate EpochsOk(s: State) {
    && s.flushEpoch <= s.workEpoch < s.flushEpoch + WORK_NR_COLORS
    && s.workColor == s.workEpoch % WORK_NR_COLORS
    && s.flushColor == s.flushEpoch % WORK_NR_COLORS
  }

  predicate ItemOk(s: State, p: int, item: Item) {
    && s.flushEpoch <= item.epoch <= PwqEpoch(s, p)
    && item.color == item.epoch % WORK_NR_COLORS
    && item.ticket < s.nextTicket
  }

  ghost predicate PwqOk(s: State, p: int)
    requires 0 <= p < |s.pwqs|
  {
    var pwq := s.pwqs[p];
    && |pwq.nrInFlight| == WORK_NR_COLORS
    && pwq.workColor == PwqEpoch(s, p) % WORK_NR_COLORS
    && (forall c | 0 <= c < WORK_NR_COLORS :: pwq.nrInFlight[c] == Count(pwq.inFlight, c))
    && (forall item | item in pwq.inFlight :: ItemOk(s, p, item))
  }

  /** What is armed is what still has work of the colour being flushed. */
  predicate ArmOk(s: State, p: int)
    requires 0 <= p < |s.pwqs|
  {
    var pwq := s.pwqs[p];
    && (pwq.flushColor == -1 || (pwq.flushColor == s.flushColor && s.firstFlusher.Some?))
    && (!Visited(s, p) ==> pwq.flushColor == -1)
    && (pwq.flushColor == s.flushColor ==> exists item :: item in pwq.inFlight && item.epoch == s.flushEpoch)
    && (s.firstFlusher.Some? && Visited(s, p) && pwq.flushColor == -1
        ==> forall item | item in pwq.inFlight :: item.epoch != s.flushEpoch)
  }

  ghost predicate ArmsOk(s: State) {
    && (forall p | 0 <= p < |s.pwqs| :: ArmOk(s, p))
    && s.nrPwqsToFlush == |Armed(s.pwqs)| + (if Arming(s) then 1 else 0)
    && (Arming(s) && !s.holder.wait ==>
          forall p | 0 <= p < s.holder.idx && p < |s.pwqs| ::
            s.pwqs[p].flushColor == -1)
  }

  predicate FlusherOk(s: State, f: int)
    requires 0 <= f < |s.flushers|
  {
    var fl := s.flushers[f];
    && fl.startTicket <= s.nextTicket
    && (f in s.flusherOverflow <==> !Colored(fl))
    && (Colored(fl) ==>
          && fl.epoch < s.workEpoch && fl.flushColor == fl.epoch % WORK_NR_COLORS
          && fl.startTicket <= fl.colorTicket <= s.nextTicket
          && (fl.epoch < s.flushEpoch ==> Finished(fl)))
    && (Finished(fl) ==>
          && Colored(fl) && f !in s.flusherQueue && fl.epoch <= s.flushEpoch)
    && (!Finished(fl) ==> f in s.flusherQueue || f in s.flusherOverflow || s.firstFlusher == Some(f))
    && fl.done <= 1
    && (fl.done == 1 ==> fl.pc.Waiting? || fl.pc.InMutex? || fl.pc.Returned?)
    && (fl.pc.InMutex? ==> InPrep(s) && s.holder.owner == f && (s.holder.resume.AsFirst? || s.holder.resume.AsQueued?))
    && (fl.pc.Cascading? ==> InPrep(s) && s.holder.owner == f && (s.holder.resume.AfterOverflow? || s.holder.resume.AsNextFirst? || s.holder.resume.AsNextDone?))
  }

  /** No in-flight item is of the flusher's epoch or older once the flusher has been completed. */
  predicate FlusherSafe(fl: Flusher, pwqs: seq<Pwq>) {
    Finished(fl) ==>
      forall p, item | 0 <= p < |pwqs| && item in pwqs[p].inFlight :: item.epoch > fl.epoch
  }

  /** An item queued before the flusher got its colour is not of a later epoch; one queued after is. */
  predicate FlusherSplit(fl: Flusher, pwqs: seq<Pwq>) {
    Colored(fl) ==>
      forall p, item | 0 <= p < |pwqs| && item in pwqs[p].inFlight ::
        item.ticket < fl.colorTicket <==> item.epoch <= fl.epoch
  }

  /** The first epoch that queued flushers must cover. */
  function CoverFrom(s: State): nat {
    if s.firstFlusher.Some? then s.flushEpoch + 1 else s.flushEpoch
  }

  predicate IdsOk(s: State) {
    && (forall i | 0 <= i < |s.flusherQueue| :: s.flusherQueue[i] < |s.flushers|)
    && (forall i | 0 <= i < |s.flusherOverflow| :: s.flusherOverflow[i] < |s.flushers|)
    && (s.firstFlusher.Some? ==> s.firstFlusher.value < |s.flushers|)
    && (InPrep(s) ==> s.holder.owner < |s.flushers| && s.holder.idx <= |s.pwqs|)
    && !s.holder.Crashed?
  }

  /** Some queued flusher waits for this epoch. */
  ghost predicate Covered(queue: seq<nat>, flushers: seq<Flusher>, e: nat)
    requires forall i | 0 <= i < |queue| :: queue[i] < |flushers|
  {
    exists i :: 0 <= i < |queue| && flushers[queue[i]].epoch == e
  }

  ghost predicate Covers(queue: seq<nat>, flushers: seq<Flusher>, from: nat, to: nat)
    requires forall i | 0 <= i < |queue| :: queue[i] < |flushers|
  {
    forall e: nat | from <= e < to :: Covered(queue, flushers, e)
  }

  predicate Sorted(queue: seq<nat>, flushers: seq<Flusher>)
    requires forall i | 0 <= i < |queue| :: queue[i] < |flushers|
  {
    && (forall i, j | 0 <= i < j < |queue| :: flushers[queue[i]].epoch <= flushers[queue[j]].epoch)
    && (forall i, j | 0 <= i < j < |queue| :: queue[i] != queue[j])
  }

  ghost predicate QueueOk(s: State)
    requires IdsOk(s)
  {
    && Sorted(s.flusherQueue, s.flushers)
    && (forall i | 0 <= i < |s.flusherQueue| :: Colored(s.flushers[s.flusherQueue[i]]) && s.flushEpoch <= s.flushers[s.flusherQueue[i]].epoch)
    && Covers(s.flusherQueue, s.flushers, CoverFrom(s), s.workEpoch)
    && (s.flusherOverflow != [] ==> s.workEpoch == s.flushEpoch + WORK_NR_COLORS - 1)
    && (forall i, j | 0 <= i < j < |s.flusherOverflow| :: s.flusherOverflow[i] != s.flusherOverflow[j])
  }

  /** Who is first flusher, and what the holder of the mutex may rely on. */
  predicate FirstOk(s: State)
    requires IdsOk(s)
  {
    && (s.firstFlusher.Some? ==>
          var f := s.firstFlusher.value;
          var fl := s.flushers[f];
          && Colored(fl) && fl.epoch == s.flushEpoch && f !in s.flusherQueue
          && (fl.pc.Waiting? || fl.pc.Woken? || fl.pc.Relock? || fl.pc.InMutex?)
          && (Finished(fl) <==> s.nrPwqsToFlush == 0))
    && (s.firstFlusher.None? && !InPrep(s) ==>
          s.workEpoch == s.flushEpoch && s.flusherQueue == [] && s.flusherOverflow == [])
    && (InPrep(s) ==>
          var owner := s.flushers[s.holder.owner];
          match s.holder.resume
          case AsFirst => s.firstFlusher == Some(s.holder.owner) && s.flusherQueue == [] && s.flusherOverflow == []
                          && s.workEpoch == s.flushEpoch + 1 && owner.pc.InMutex?
          case AsQueued => s.firstFlusher.Some? && s.flusherOverflow == [] && owner.pc.InMutex?
          case AfterOverflow(next) =>
            && s.firstFlusher.None? && s.flusherOverflow == [] && owner.pc.Cascading?
            && s.flusherQueue != [] && next == Some(s.flusherQueue[0])
            && s.workEpoch == s.flushEpoch + WORK_NR_COLORS - 1
          case AsNextFirst => s.firstFlusher.Some? && s.flusherOverflow == [] && owner.pc.Cascading?
                              && s.holder.owner != s.firstFlusher.value
          case AsNextDone => s.firstFlusher.Some? && s.flusherOverflow == [] && owner.pc.Cascading?
                             && s.holder.owner != s.firstFlusher.value
                             && s.nrPwqsToFlush == 0 && s.holder.idx == |s.pwqs|)
  }

  ghost predicate Inv(s: State) {
    && IdsOk(s)
    && EpochsOk(s)
    && (forall p | 0 <= p < |s.pwqs| :: PwqOk(s, p))
    && ArmsOk(s)
    && (forall f | 0 <= f < |s.flushers| :: FlusherOk(s, f))
    && (forall f | 0 <= f < |s.flushers| :: FlusherSafe(s.flushers[f], s.pwqs))
    && (forall f | 0 <= f < |s.flushers| :: FlusherSplit(s.flushers[f], s.pwqs))
    && QueueOk(s)
    && FirstOk(s)
  }

  lemma InitInv(s: State)
    requires Init(s)
    ensures Inv(s)
  {
    assert Armed(s.pwqs) == {};
    forall p | 0 <= p < |s.pwqs| ensures PwqOk(s, p) {
      forall c | 0 <= c < WORK_NR_COLORS ensures s.pwqs[p].nrInFlight[c] == Count(s.pwqs[p].inFlight, c) {
        CountZero(s.pwqs[p].inFlight, c);
      }
    }
  }

  lemma QueueWorkInv(s: State, p: nat)
    requires Inv(s) && CanQueueWork(s, p)
    ensures Inv(QueueWork(s, p))
  {
    var s' := QueueWork(s, p);
    var item := Item(s.nextTicket, s.pwqs[p].workColor, s.workEpoch);
    assert Armed(s'.pwqs) == Armed(s.pwqs);
    assert PwqOk(s, p);
    assert s.firstFlusher.Some? ==> FlusherOk(s, s.firstFlusher.value);
    forall q | 0 <= q < |s'.pwqs| ensures PwqOk(s', q) && ArmOk(s', q) {
      assert PwqOk(s, q) && ArmOk(s, q);
      if q == p {
        assert forall i | i in s.pwqs[p].inFlight :: ItemOk(s, p, i);
        assert item !in s.pwqs[p].inFlight;
        forall c | 0 <= c < WORK_NR_COLORS ensures s'.pwqs[p].nrInFlight[c] == Count(s'.pwqs[p].inFlight, c) {
          CountAdd(s.pwqs[p].inFlight, item, c);
        }
        forall i | i in s'.pwqs[p].inFlight ensures ItemOk(s', p, i) {
          if i != item { assert ItemOk(s, p, i); }
        }
      } else {
        forall i | i in s'.pwqs[q].inFlight ensures ItemOk(s', q, i) { assert ItemOk(s, q, i); }
      }
    }
    forall f | 0 <= f < |s'.flushers| ensures FlusherOk(s', f) && FlusherSafe(s'.flushers[f], s'.pwqs) && FlusherSplit(s'.flushers[f], s'.pwqs) {
      assert FlusherOk(s, f) && FlusherSafe(s.flushers[f], s.pwqs) && FlusherSplit(s.flushers[f], s.pwqs);
    }
    assert FirstOk(s) && QueueOk(s);
  }

  /** Within one pwq, being of the flush colour and being of the flush epoch are the same. */
  lemma FlushColorIsFlushEpoch(s: State, p: int, item: Item)
    requires Inv(s) && 0 <= p < |s.pwqs| && item in s.pwqs[p].inFlight
    ensures ItemOk(s, p, item)
    ensures item.color == s.flushColor <==> item.epoch == s.flushEpoch
  {
    assert PwqOk(s, p);
    if item.color == s.flushColor { ColorsAreInjective(item.epoch, s.flushEpoch, s.flushEpoch); }
  }

  predicate Disarms(s: State, p: nat, item: Item)
    requires CanFinish(s, p, item)
  {
    s.pwqs[p].flushColor == item.color && s.pwqs[p].nrInFlight[item.color] == 1
  }

  lemma FinishPwqs(s: State, p: nat, item: Item)
    requires Inv(s) && CanFinish(s, p, item)
    ensures Finish(s, p, item).holder == s.holder
    ensures forall q | 0 <= q < |s.pwqs| :: PwqOk(Finish(s, p, item), q)
  {
    var s' := Finish(s, p, item);
    assert PwqOk(s, p) && ArmOk(s, p);
    forall q | 0 <= q < |s.pwqs| ensures PwqOk(s', q) {
      assert PwqOk(s, q);
      forall i | i in s'.pwqs[q].inFlight ensures ItemOk(s', q, i) { assert ItemOk(s, q, i); }
      forall c | 0 <= c < WORK_NR_COLORS ensures s'.pwqs[q].nrInFlight[c] == Count(s'.pwqs[q].inFlight, c) {
        CountRemove(s.pwqs[p].inFlight, item, c);
      }
    }
  }

  /** After the last item of the flush colour has left, none of the flush epoch is in flight on the pwq. */
  lemma FinishLast(s: State, p: nat, item: Item)
    requires Inv(s) && CanFinish(s, p, item) && item.color == s.flushColor
    ensures s.pwqs[p].nrInFlight[item.color] == 1 <==>
            forall i | i in s.pwqs[p].inFlight - {item} :: i.epoch != s.flushEpoch
  {
    var rest := s.pwqs[p].inFlight - {item};
    assert PwqOk(s, p);
    CountRemove(s.pwqs[p].inFlight, item, item.color);
    CountZero(rest, item.color);
    forall i | i in rest ensures i.color == s.flushColor <==> i.epoch == s.flushEpoch {
      FlushColorIsFlushEpoch(s, p, i);
    }
  }

  lemma FinishArms(s: State, p: nat, item: Item)
    requires Inv(s) && CanFinish(s, p, item)
    ensures ArmsOk(Finish(s, p, item))
  {
    var s' := Finish(s, p, item);
    FinishPwqs(s, p, item);
    assert ArmOk(s, p) && PwqOk(s, p);
    FlushColorIsFlushEpoch(s, p, item);
    if item.color == s.flushColor { FinishLast(s, p, item); }
    assert Armed(s'.pwqs) == if Disarms(s, p, item) then Armed(s.pwqs) - {p} else Armed(s.pwqs);
    if Disarms(s, p, item) { assert p in Armed(s.pwqs); }
    forall q | 0 <= q < |s'.pwqs| ensures ArmOk(s', q) {
      assert ArmOk(s, q);
    }
  }

  /** When the count of armed pwqs reaches zero, no work of the flush epoch is left anywhere. */
  lemma FinishDrains(s: State, p: nat, item: Item)
    requires Inv(s) && CanFinish(s, p, item) && Finish(s, p, item).nrPwqsToFlush == 0 && Disarms(s, p, item)
    ensures forall q, i | 0 <= q < |s.pwqs| && i in Finish(s, p, item).pwqs[q].inFlight :: i.epoch > s.flushEpoch
  {
    var s' := Finish(s, p, item);
    FinishPwqs(s, p, item);
    FinishArms(s, p, item);
    assert Armed(s'.pwqs) == {};
    assert ArmOk(s, p);
    forall q, i | 0 <= q < |s.pwqs| && i in s'.pwqs[q].inFlight ensures i.epoch > s.flushEpoch {
      assert ArmOk(s', q) && PwqOk(s', q) && ItemOk(s', q, i);
      assert q !in Armed(s'.pwqs);
    }
  }

  lemma FinishFlushers(s: State, p: nat, item: Item)
    requires Inv(s) && CanFinish(s, p, item)
    ensures forall f | 0 <= f < |s.flushers| ::
              var s' := Finish(s, p, item);
              FlusherOk(s', f) && FlusherSafe(s'.flushers[f], s'.pwqs) && FlusherSplit(s'.flushers[f], s'.pwqs)
  {
    forall f | 0 <= f < |s.flushers|
      ensures var s' := Finish(s, p, item); FlusherOk(s', f) && FlusherSafe(s'.flushers[f], s'.pwqs) && FlusherSplit(s'.flushers[f], s'.pwqs)
    {
      FinishFlusher(s, p, item, f);
    }
  }

  /** What Finish leaves alone. */
  lemma FinishFrame(s: State, p: nat, item: Item)
    requires Inv(s) && CanFinish(s, p, item)
    ensures var s' := Finish(s, p, item);
      && s' == s.(pwqs := s'.pwqs, nrPwqsToFlush := s'.nrPwqsToFlush, flushers := s'.flushers)
      && |s'.flushers| == |s.flushers| && |s'.pwqs| == |s.pwqs|
      && (forall f | 0 <= f < |s.flushers| :: s'.flushers[f] == s.flushers[f].(done := s'.flushers[f].done))
  {
    FinishPwqs(s, p, item);
    assert ArmOk(s, p);
    hide PwqOk, FlusherOk, FlusherSafe, FlusherSplit, QueueOk;
  }

  lemma FinishFlusher(s: State, p: nat, item: Item, f: nat)
    requires Inv(s) && CanFinish(s, p, item) && f < |s.flushers|
    ensures var s' := Finish(s, p, item); f < |s'.flushers| && FlusherOk(s', f) && FlusherSafe(s'.flushers[f], s'.pwqs) && FlusherSplit(s'.flushers[f], s'.pwqs)
  {
    FinishFlusherOk(s, p, item, f);
    var s' := Finish(s, p, item);
    if Disarms(s, p, item) && s'.nrPwqsToFlush == 0 { FinishDrains(s, p, item); }
    assert FlusherOk(s, f) && FlusherSafe(s.flushers[f], s.pwqs) && FlusherSplit(s.flushers[f], s.pwqs);
    assert forall q | 0 <= q < |s.pwqs| :: s'.pwqs[q].inFlight <= s.pwqs[q].inFlight;
    hide PwqOk, ArmsOk, QueueOk, FirstOk, FlusherOk;
  }

  lemma FinishFlusherOk(s: State, p: nat, item: Item, f: nat)
    requires Inv(s) && CanFinish(s, p, item) && f < |s.flushers|
    ensures f < |Finish(s, p, item).flushers| && FlusherOk(Finish(s, p, item), f)
  {
    FinishFrame(s, p, item);
    FinishArms(s, p, item);
    assert ArmOk(s, p) && FlusherOk(s, f);
    hide PwqOk, ArmOk, QueueOk, FlusherSafe, FlusherSplit;
  }

  lemma FinishQueue(s: State, p: nat, item: Item)
    requires Inv(s) && CanFinish(s, p, item)
    ensures IdsOk(Finish(s, p, item)) && QueueOk(Finish(s, p, item)) && FirstOk(Finish(s, p, item))
  {
    hide PwqOk, ArmOk, FlusherOk, FlusherSafe, FlusherSplit, Sorted, Covers, FirstOk;
    var s' := Finish(s, p, item);
    FinishFrame(s, p, item);
    QueueKept(s.flusherQueue, s.flushers, s'.flushers, CoverFrom(s), s.workEpoch);
    FinishFirst(s, p, item);
  }

  lemma FinishFirst(s: State, p: nat, item: Item)
    requires Inv(s) && CanFinish(s, p, item) && IdsOk(Finish(s, p, item))
    ensures FirstOk(Finish(s, p, item))
  {
    FinishFrame(s, p, item);
    FinishArms(s, p, item);
    assert ArmOk(s, p);
    hide PwqOk, ArmOk, FlusherOk, FlusherSafe, FlusherSplit, QueueOk;
  }

  lemma FinishInv(s: State, p: nat, item: Item)
    requires Inv(s) && CanFinish(s, p, item)
    ensures Inv(Finish(s, p, item))
  {
    FinishPwqs(s, p, item);
    FinishArms(s, p, item);
    FinishFlushers(s, p, item);
    FinishQueue(s, p, item);
    assert |Finish(s, p, item).flushers| == |s.flushers|;
    hide IdsOk, QueueOk, FirstOk, ArmsOk, PwqOk, FlusherOk;
  }

  /** Queue order and coverage depend only on the colours and epochs of the flushers in the queue. */
  lemma QueueKept(queue: seq<nat>, flushers: seq<Flusher>, flushers': seq<Flusher>, from: nat, to: nat)
    requires forall i | 0 <= i < |queue| :: queue[i] < |flushers| && queue[i] < |flushers'|
    requires forall i | 0 <= i < |queue| :: flushers'[queue[i]].epoch == flushers[queue[i]].epoch
    requires Sorted(queue, flushers) && Covers(queue, flushers, from, to)
    ensures Sorted(queue, flushers') && Covers(queue, flushers', from, to)
  {
    forall e: nat | from <= e < to ensures Covered(queue, flushers', e) {
      assert Covered(queue, flushers, e);
    }
  }

  // ---------- starting a flush ----------

  lemma NoneArmed(s: State)
    requires ArmsOk(s) && s.firstFlusher.None?
    ensures Armed(s.pwqs) == {}
  {
    forall p | 0 <= p < |s.pwqs| ensures s.pwqs[p].flushColor == -1 { assert ArmOk(s, p); }
  }

  lemma FlushStartInv(s: State)
    requires Inv(s) && s.holder.Free?
    ensures Inv(FlushStart(s))
  {
    hide IdsOk, EpochsOk, PwqOk, ArmsOk, ArmOk, FlusherOk, FlusherSafe, FlusherSplit, QueueOk, FirstOk, FlushStart;
    FlushStartArms(s);
    forall p | 0 <= p < |FlushStart(s).pwqs| ensures PwqOk(FlushStart(s), p) { FlushStartPwq(s, p); }
    FlushStartFlushers(s);
    FlushStartQueue(s);
    FlushStartFirst(s);
  }

  /** The colour space is full when the next colour is the one being flushed. */
  lemma FullColors(s: State)
    requires EpochsOk(s)
    ensures NextColor(s.workColor) == s.flushColor <==> s.workEpoch == s.flushEpoch + WORK_NR_COLORS - 1
  {}

  lemma FlushStartEpochs(s: State)
    requires EpochsOk(s) && s.holder.Free?
    ensures EpochsOk(FlushStart(s))
  {
    FullColors(s);
    NextColorIsNextEpoch(s.workEpoch);
    hide NextColor;
  }

  lemma FlushStartArms(s: State)
    requires Inv(s) && s.holder.Free?
    ensures FlushStart(s).pwqs == s.pwqs && EpochsOk(FlushStart(s)) && ArmsOk(FlushStart(s))
  {
    var s' := FlushStart(s);
    FullColors(s);
    FlushStartEpochs(s);
    hide NextColor, EpochsOk;
    assert s.firstFlusher.Some? ==> FlusherOk(s, s.firstFlusher.value);
    assert Armed(s'.pwqs) == Armed(s.pwqs);
    if s.firstFlusher.None? { NoneArmed(s); }
    forall p | 0 <= p < |s'.pwqs| ensures ArmOk(s', p) { FlushStartPwq(s, p); }
  }

  lemma FlushStartPwq(s: State, p: nat)
    requires Inv(s) && s.holder.Free? && p < |s.pwqs|
    ensures PwqOk(FlushStart(s), p) && ArmOk(FlushStart(s), p)
  {
    var s' := FlushStart(s);
    assert PwqOk(s, p) && ArmOk(s, p);
    if s.firstFlusher.None? { NoneArmed(s); }
    forall i | i in s'.pwqs[p].inFlight ensures ItemOk(s', p, i) { assert ItemOk(s, p, i); }
  }

  lemma FlushStartQueue(s: State)
    requires Inv(s) && s.holder.Free?
    ensures IdsOk(FlushStart(s)) && QueueOk(FlushStart(s))
  {
    StartQueueEpochs(s);
    hide FlusherOk, PwqOk, ArmsOk, FlushStart, EpochsOk, FirstOk, QueueOk, IdsOk;
    StartIds(s);
    if NextColor(s.workColor) == s.flushColor { StartFull(s); } else { StartQueueOnly(s); }
  }

  lemma StartIds(s: State)
    requires IdsOk(s) && s.holder.Free?
    ensures IdsOk(FlushStart(s))
  {}

  lemma StartFull(s: State)
    requires IdsOk(s) && EpochsOk(s) && QueueOk(s) && s.holder.Free? && IdsOk(FlushStart(s)) && NextColor(s.workColor) == s.flushColor
    ensures QueueOk(FlushStart(s))
  {
    assert s.workEpoch == s.flushEpoch + WORK_NR_COLORS - 1;
    QueueKept(s.flusherQueue, s.flushers, FlushStart(s).flushers, CoverFrom(s), s.workEpoch);
  }

  lemma StartQueueOnly(s: State)
    requires IdsOk(s) && EpochsOk(s) && QueueOk(s) && FirstOk(s) && s.holder.Free? && IdsOk(FlushStart(s)) && NextColor(s.workColor) != s.flushColor
    requires forall i | 0 <= i < |s.flusherQueue| :: s.flushers[s.flusherQueue[i]].epoch < s.workEpoch
    ensures QueueOk(FlushStart(s))
  {
    var s' := FlushStart(s);
    assert s.workEpoch != s.flushEpoch + WORK_NR_COLORS - 1;
    hide IdsOk, NextColor;
    QueueKept(s.flusherQueue, s.flushers, s'.flushers, CoverFrom(s), s.workEpoch);
    if s.firstFlusher.Some? { QueueAppend(s.flusherQueue, s'.flushers, [|s.flushers|], CoverFrom(s), s.workEpoch); }
  }

  /** Queued flushers are of older epochs than the one that a new flusher closes. */
  lemma StartQueueEpochs(s: State)
    requires Inv(s)
    ensures forall i | 0 <= i < |s.flusherQueue| :: s.flusherQueue[i] < |s.flushers| && s.flushers[s.flusherQueue[i]].epoch < s.workEpoch
  {
    forall i | 0 <= i < |s.flusherQueue| ensures s.flushers[s.flusherQueue[i]].epoch < s.workEpoch {
      assert FlusherOk(s, s.flusherQueue[i]);
    }
  }

  lemma FlushStartFirst(s: State)
    requires Inv(s) && s.holder.Free?
    ensures IdsOk(FlushStart(s)) && FirstOk(FlushStart(s))
  {
    var s' := FlushStart(s);
    var full := NextColor(s.workColor) == s.flushColor;
    assert full <==> s.workEpoch == s.flushEpoch + WORK_NR_COLORS - 1;
    assert forall i | 0 <= i < |s.flusherQueue| :: s.flusherQueue[i] < |s.flushers|;
    if s.firstFlusher.None? { NoneArmed(s); }
  }

  /** Flushers of the newest epoch go to the end of the queue. */
  lemma QueueAppend(queue: seq<nat>, flushers: seq<Flusher>, ids: seq<nat>, from: nat, to: nat)
    requires forall i | 0 <= i < |queue| :: queue[i] < |flushers| && flushers[queue[i]].epoch < to
    requires forall i | 0 <= i < |ids| :: ids[i] < |flushers| && flushers[ids[i]].epoch == to && ids[i] !in queue
    requires forall i, j | 0 <= i < j < |ids| :: ids[i] != ids[j]
    requires ids != []
    requires Sorted(queue, flushers) && Covers(queue, flushers, from, to)
    ensures forall i | 0 <= i < |queue + ids| :: (queue + ids)[i] < |flushers|
    ensures Sorted(queue + ids, flushers) && Covers(queue + ids, flushers, from, to + 1)
  {
    var queue' := queue + ids;
    forall e: nat | from <= e < to + 1 ensures Covered(queue', flushers, e) {
      if e == to {
        assert queue'[|queue|] == ids[0];
      } else {
        assert Covered(queue, flushers, e);
        var i :| 0 <= i < |queue| && flushers[queue[i]].epoch == e;
        assert queue'[i] == queue[i];
      }
    }
  }

  lemma FlushStartFlushers(s: State)
    requires Inv(s) && s.holder.Free?
    ensures var s' := FlushStart(s);
      forall f | 0 <= f < |s'.flushers| :: FlusherOk(s', f) && FlusherSafe(s'.flushers[f], s'.pwqs) && FlusherSplit(s'.flushers[f], s'.pwqs)
  {
    var s' := FlushStart(s);
    var me := |s.flushers|;
    assert me !in s.flusherQueue && me !in s.flusherOverflow;
    forall f | 0 <= f < |s'.flushers| ensures FlusherOk(s', f) && FlusherSafe(s'.flushers[f], s'.pwqs) && FlusherSplit(s'.flushers[f], s'.pwqs) {
      if f < me {
        assert s'.flushers[f] == s.flushers[f];
        assert FlusherOk(s, f) && FlusherSafe(s.flushers[f], s.pwqs) && FlusherSplit(s.flushers[f], s.pwqs);
      } else {
        forall p, i | 0 <= p < |s.pwqs| && i in s.pwqs[p].inFlight ensures i.ticket < s.nextTicket && i.epoch <= s.workEpoch {
          assert PwqOk(s, p) && ItemOk(s, p, i);
        }
      }
    }
  }

  // ---------- the loop of flush_workqueue_prep_pwqs ----------

  lemma PrepPwqInv(s: State)
    requires Inv(s) && CanPrepPwq(s)
    ensures Inv(PrepPwq(s))
  {
    var s' := PrepPwq(s);
    var i := s.holder.idx;
    PrepPwqPwqs(s);
    PrepPwqArms(s);
    forall f | 0 <= f < |s'.flushers| ensures FlusherOk(s', f) && FlusherSafe(s'.flushers[f], s'.pwqs) && FlusherSplit(s'.flushers[f], s'.pwqs) {
      assert FlusherOk(s, f) && FlusherSafe(s.flushers[f], s.pwqs) && FlusherSplit(s.flushers[f], s.pwqs);
      assert forall q | 0 <= q < |s.pwqs| :: s'.pwqs[q].inFlight == s.pwqs[q].inFlight;
    }
  }

  lemma PrepPwqPwqs(s: State)
    requires Inv(s) && CanPrepPwq(s)
    ensures forall p | 0 <= p < |s.pwqs| :: PwqOk(PrepPwq(s), p)
  {
    var s' := PrepPwq(s);
    forall p | 0 <= p < |s.pwqs| ensures PwqOk(s', p) {
      assert PwqOk(s, p);
      forall i | i in s'.pwqs[p].inFlight ensures ItemOk(s', p, i) { assert ItemOk(s, p, i); }
    }
  }

  lemma PrepPwqArms(s: State)
    requires Inv(s) && CanPrepPwq(s)
    ensures ArmsOk(PrepPwq(s))
    ensures !Arming(s) ==> PrepPwq(s).nrPwqsToFlush == s.nrPwqsToFlush
    ensures Arming(s) ==> PrepPwq(s).nrPwqsToFlush > 0
  {
    var s' := PrepPwq(s);
    var i := s.holder.idx;
    var pwq := s.pwqs[i];
    assert PwqOk(s, i) && ArmOk(s, i);
    CountZero(pwq.inFlight, s.flushColor);
    forall item | item in pwq.inFlight ensures item.color == s.flushColor <==> item.epoch == s.flushEpoch {
      FlushColorIsFlushEpoch(s, i, item);
    }
    if Arming(s) && pwq.nrInFlight[s.flushColor] != 0 {
      assert Armed(s'.pwqs) == Armed(s.pwqs) + {i};
      assert i !in Armed(s.pwqs);
    } else {
      assert Armed(s'.pwqs) == Armed(s.pwqs);
    }
    forall p | 0 <= p < |s.pwqs| ensures ArmOk(s', p) { assert ArmOk(s, p); }
  }

  // ---------- the waiter ----------

  lemma WakeInv(s: State, f: nat)
    requires Inv(s) && CanWake(s, f)
    ensures Inv(Wake(s, f))
  {
    assert FlusherOk(s, f);
    PcChangeInv(s, Wake(s, f), f);
  }

  lemma CheckFirstInv(s: State, f: nat)
    requires Inv(s) && CanCheckFirst(s, f)
    ensures Inv(CheckFirst(s, f))
  {
    assert FlusherOk(s, f);
    PcChangeInv(s, CheckFirst(s, f), f);
  }

  /** A completed flusher moves through its wake-up code without touching anything shared. */
  predicate PcChange(s: State, s': State, f: nat) {
    && f < |s.flushers| && Finished(s.flushers[f])
    && |s'.flushers| == |s.flushers| && s' == s.(flushers := s'.flushers)
    && s'.flushers == s.flushers[f := s'.flushers[f]]
    && s'.flushers[f] == s.flushers[f].(done := s'.flushers[f].done, pc := s'.flushers[f].pc)
    && (s'.flushers[f].done == 0 || (s'.flushers[f].done == 1 && s'.flushers[f].pc.Returned?))
    && (s'.flushers[f].pc.Woken? || s'.flushers[f].pc.Relock? || s'.flushers[f].pc.Returned?)
    && (s'.flushers[f].pc.Returned? ==> s.firstFlusher != Some(f))
    && (InPrep(s) ==> s.holder.owner != f)
  }

  lemma PcChangeInv(s: State, s': State, f: nat)
    requires Inv(s) && PcChange(s, s', f)
    ensures Inv(s')
  {
    forall g | 0 <= g < |s'.flushers| ensures FlusherOk(s', g) && FlusherSafe(s'.flushers[g], s'.pwqs) && FlusherSplit(s'.flushers[g], s'.pwqs) {
      PcChangeFlusher(s, s', f, g);
    }
    forall p | 0 <= p < |s'.pwqs| ensures PwqOk(s', p) && ArmOk(s', p) {
      PcChangePwq(s, s', p);
    }
    PcChangeQueue(s, s', f);
    PcChangeFirst(s, s', f);
    hide FlusherOk, FlusherSafe, FlusherSplit, PwqOk, ArmOk, QueueOk, FirstOk;
  }

  lemma PcChangeFlusher(s: State, s': State, f: nat, g: nat)
    requires Inv(s) && PcChange(s, s', f) && g < |s.flushers|
    ensures FlusherOk(s', g) && FlusherSafe(s'.flushers[g], s'.pwqs) && FlusherSplit(s'.flushers[g], s'.pwqs)
  {
    hide PwqOk, ArmsOk, QueueOk, FirstOk;
    assert FlusherOk(s, g) && FlusherSafe(s.flushers[g], s.pwqs) && FlusherSplit(s.flushers[g], s.pwqs);
  }

  lemma PcChangeQueue(s: State, s': State, f: nat)
    requires Inv(s) && PcChange(s, s', f)
    ensures IdsOk(s') && QueueOk(s')
  {
    hide PwqOk, ArmsOk, FlusherOk, FlusherSafe, FlusherSplit, FirstOk;
    QueueKept(s.flusherQueue, s.flushers, s'.flushers, CoverFrom(s), s.workEpoch);
  }

  lemma PcChangeFirst(s: State, s': State, f: nat)
    requires Inv(s) && PcChange(s, s', f)
    ensures IdsOk(s') && FirstOk(s')
  {
    hide PwqOk, ArmsOk, FlusherOk, FlusherSafe, FlusherSplit, QueueOk;
  }

  lemma PcChangePwq(s: State, s': State, p: nat)
    requires Inv(s) && s' == s.(flushers := s'.flushers) && p < |s.pwqs|
    ensures PwqOk(s', p) && ArmOk(s', p)
  {
    assert PwqOk(s, p) && ArmOk(s, p);
    forall i | i in s'.pwqs[p].inFlight ensures ItemOk(s', p, i) { assert ItemOk(s, p, i); }
  }

  // ---------- between two flushes: the cascade ----------

  /** The mutex is held by me, no flush is in progress and no pwq is armed.  The holder field
      is fixed here because neither half of the cascade loop reads it. */
  ghost predicate Between(s: State, me: nat) {
    && s.holder == Prep(me, |s.pwqs|, false, AsNextFirst)
    && IdsOk(s) && EpochsOk(s)
    && s.firstFlusher.None? && s.nrPwqsToFlush == 0
    && (forall p | 0 <= p < |s.pwqs| :: PwqOk(s, p) && s.pwqs[p].flushColor == -1)
    && (forall f | 0 <= f < |s.flushers| :: FlusherOk(s, f))
    && (forall f | 0 <= f < |s.flushers| ::
          FlusherSafe(s.flushers[f], s.pwqs) && FlusherSplit(s.flushers[f], s.pwqs))
    && s.flushers[me].pc.Cascading?
    && Sorted(s.flusherQueue, s.flushers)
    && (forall i | 0 <= i < |s.flusherQueue| ::
          Colored(s.flushers[s.flusherQueue[i]]) && s.flushEpoch <= s.flushers[s.flusherQueue[i]].epoch)
    && (forall i, j | 0 <= i < j < |s.flusherOverflow| :: s.flusherOverflow[i] != s.flusherOverflow[j])
  }

  /** The current flush epoch is drained but not yet retired. */
  ghost predicate Drained(s: State, me: nat) {
    && Between(s, me)
    && s.flushEpoch < s.workEpoch
    && Covers(s.flusherQueue, s.flushers, s.flushEpoch + 1, s.workEpoch)
    && (forall p, item | 0 <= p < |s.pwqs| && item in s.pwqs[p].inFlight :: item.epoch > s.flushEpoch)
    && (s.flusherOverflow != [] ==> s.workEpoch == s.flushEpoch + WORK_NR_COLORS - 1)
  }

  /** The flush epoch has been advanced; one colour may just have become free. */
  ghost predicate Retired(s: State, me: nat) {
    && Between(s, me)
    && Covers(s.flusherQueue, s.flushers, s.flushEpoch, s.workEpoch)
    && (s.flusherOverflow != [] ==> s.workEpoch == s.flushEpoch + WORK_NR_COLORS - 2)
  }

  lemma {:induction false} ScanLengthIsMaximal(queue: seq<nat>, flushers: seq<Flusher>, color: int)
    requires forall i | 0 <= i < |queue| :: queue[i] < |flushers|
    ensures var k := ScanLength(queue, flushers, color);
      && (forall i | 0 <= i < k :: flushers[queue[i]].flushColor == color)
      && (k < |queue| ==> flushers[queue[k]].flushColor != color)
  {
    if queue != [] && flushers[queue[0]].flushColor == color {
      ScanLengthIsMaximal(queue[1..], flushers, color);
      var k := ScanLength(queue, flushers, color);
      assert forall i | 0 < i < k :: queue[i] == queue[1..][i - 1];
      assert k < |queue| ==> queue[k] == queue[1..][k - 1];
    }
  }

  /** The state after the scan loop and the advance of flush_color (workqueue.c:1665-1676). */
  function Scanned(s: State): State {
    var k := ScanLength(s.flusherQueue, s.flushers, s.flushColor);
    s.(flushers := CompleteAll(s.flushers, s.flusherQueue[..k]), flusherQueue := s.flusherQueue[k..],
       flushColor := NextColor(s.flushColor), flushEpoch := s.flushEpoch + 1)
  }

  /** The scan completes exactly the queued flushers of the flush epoch. */
  lemma ScanSplitsByEpoch(s: State, me: nat)
    requires Drained(s, me)
    ensures var k := ScanLength(s.flusherQueue, s.flushers, s.flushColor);
      forall i | 0 <= i < |s.flusherQueue| :: (i < k <==> s.flushers[s.flusherQueue[i]].epoch == s.flushEpoch)
  {
    var queue := s.flusherQueue;
    var k := ScanLength(queue, s.flushers, s.flushColor);
    ScanLengthIsMaximal(queue, s.flushers, s.flushColor);
    forall i | 0 <= i < |queue| ensures
      s.flushers[queue[i]].flushColor == s.flushColor <==> s.flushers[queue[i]].epoch == s.flushEpoch
    {
      assert FlusherOk(s, queue[i]);
      if s.flushers[queue[i]].flushColor == s.flushColor {
        ColorsAreInjective(s.flushers[queue[i]].epoch, s.flushEpoch, s.flushEpoch);
      }
    }
    if k < |queue| {
      assert s.flushers[queue[k]].epoch > s.flushEpoch;
    }
  }

  lemma ScanRetires(s: State, me: nat)
    requires Drained(s, me)
    ensures Retired(Scanned(s), me)
  {
    var s' := Scanned(s);
    ScanQueue(s, me);
    ScanEpochs(s);
    ScanPwqs(s, me);
    forall f | 0 <= f < |s'.flushers| ensures
      FlusherOk(s', f) && FlusherSafe(s'.flushers[f], s'.pwqs) && FlusherSplit(s'.flushers[f], s'.pwqs)
    {
      ScanFlusher(s, me, f);
    }
    assert Between(s', me);
  }

  lemma ScanPwqs(s: State, me: nat)
    requires Drained(s, me)
    ensures forall p | 0 <= p < |s.pwqs| :: PwqOk(Scanned(s), p)
  {
    var s' := Scanned(s);
    forall p | 0 <= p < |s.pwqs| ensures PwqOk(s', p) {
      assert PwqOk(s, p);
      forall i | i in s'.pwqs[p].inFlight ensures ItemOk(s', p, i) { assert ItemOk(s, p, i); }
    }
  }

  /** Dropping flushers of retired epochs keeps the rest of the queue ordered and covering. */
  lemma QueueDrop(queue: seq<nat>, k: nat, flushers: seq<Flusher>, flushers': seq<Flusher>, low: nat, to: nat)
    requires k <= |queue| && forall i | 0 <= i < |queue| :: queue[i] < |flushers| && queue[i] < |flushers'|
    requires forall i | 0 <= i < |queue| :: flushers'[queue[i]].epoch == flushers[queue[i]].epoch
    requires Sorted(queue, flushers) && Covers(queue, flushers, low, to)
    requires forall i | 0 <= i < |queue| :: i < k ==> flushers[queue[i]].epoch < low
    ensures forall i | 0 <= i < |queue[k..]| :: queue[k..][i] == queue[k + i] && queue[k..][i] < |flushers'|
    ensures Sorted(queue[k..], flushers') && Covers(queue[k..], flushers', low, to)
  {
    var rest := queue[k..];
    forall e: nat | low <= e < to ensures Covered(rest, flushers', e) {
      assert Covered(queue, flushers, e);
      var i :| 0 <= i < |queue| && flushers[queue[i]].epoch == e;
      assert rest[i - k] == queue[i];
    }
  }

  lemma ScanQueue(s: State, me: nat)
    requires Drained(s, me)
    ensures var s' := Scanned(s);
      && IdsOk(s') && Sorted(s'.flusherQueue, s'.flushers)
      && (forall i | 0 <= i < |s'.flusherQueue| ::
          Colored(s'.flushers[s'.flusherQueue[i]]) && s'.flushEpoch <= s'.flushers[s'.flusherQueue[i]].epoch)
      && Covers(s'.flusherQueue, s'.flushers, s.flushEpoch + 1, s.workEpoch)
  {
    hide FlusherOk, FlusherSafe, FlusherSplit, PwqOk;
    ScanDrops(s, me);
    ScanKeepsColors(s, me);
  }

  lemma ScanDrops(s: State, me: nat)
    requires Drained(s, me)
    ensures var s' := Scanned(s);
      IdsOk(s') && Sorted(s'.flusherQueue, s'.flushers) && Covers(s'.flusherQueue, s'.flushers, s.flushEpoch + 1, s.workEpoch)
  {
    hide FlusherOk, FlusherSafe, FlusherSplit, PwqOk, ScanLength, Sorted, Covers;
    var k := ScanLength(s.flusherQueue, s.flushers, s.flushColor);
    ScanSplitsByEpoch(s, me);
    QueueDrop(s.flusherQueue, k, s.flushers, Scanned(s).flushers, s.flushEpoch + 1, s.workEpoch);
  }

  lemma ScanKeepsColors(s: State, me: nat)
    requires Drained(s, me) && IdsOk(Scanned(s))
    ensures var s' := Scanned(s);
      forall i | 0 <= i < |s'.flusherQueue| ::
        Colored(s'.flushers[s'.flusherQueue[i]]) && s'.flushEpoch <= s'.flushers[s'.flusherQueue[i]].epoch
  {
    var k := ScanLength(s.flusherQueue, s.flushers, s.flushColor);
    ScanSplitsByEpoch(s, me);
    CompletedColors(s.flushers, s.flusherQueue[..k]);
    DropKeepsColors(s.flusherQueue, k, s.flushers, Scanned(s).flushers, s.flushEpoch + 1);
    hide FlusherOk, FlusherSafe, FlusherSplit, PwqOk, ScanLength, Sorted, Covers, CompleteAll, IdsOk, EpochsOk, NextColor, Between;
  }

  lemma CompletedColors(flushers: seq<Flusher>, ids: seq<nat>)
    ensures var flushers' := CompleteAll(flushers, ids);
      |flushers'| == |flushers| && forall f | 0 <= f < |flushers| ::
        flushers'[f].flushColor == flushers[f].flushColor && flushers'[f].epoch == flushers[f].epoch
  {}

  lemma DropKeepsColors(queue: seq<nat>, k: nat, flushers: seq<Flusher>, flushers': seq<Flusher>, low: nat)
    requires k <= |queue| && |flushers'| == |flushers| && forall i | 0 <= i < |queue| :: queue[i] < |flushers|
    requires forall f | 0 <= f < |flushers| ::
      flushers'[f].flushColor == flushers[f].flushColor && flushers'[f].epoch == flushers[f].epoch
    requires forall i | 0 <= i < |queue| :: i < k || (Colored(flushers[queue[i]]) && low <= flushers[queue[i]].epoch)
    ensures forall i | 0 <= i < |queue[k..]| ::
      queue[k..][i] < |flushers'| && Colored(flushers'[queue[k..][i]]) && low <= flushers'[queue[k..][i]].epoch
  {
    assert forall i | 0 <= i < |queue[k..]| :: queue[k..][i] == queue[k + i];
  }

  lemma ScanFlusher(s: State, me: nat, f: nat)
    requires Drained(s, me) && f < |s.flushers|
    ensures var s' := Scanned(s);
        FlusherOk(s', f) && FlusherSafe(s'.flushers[f], s'.pwqs) && FlusherSplit(s'.flushers[f], s'.pwqs)
  {
    var s' := Scanned(s);
    ScanMembership(s, me, f);
    assert FlusherOk(s, f) && FlusherSafe(s.flushers[f], s.pwqs) && FlusherSplit(s.flushers[f], s.pwqs);
  }

  lemma ScanMembership(s: State, me: nat, f: nat)
    requires Drained(s, me) && f < |s.flushers|
    ensures var s' := Scanned(s);
      var hit := f in s.flusherQueue && s.flushers[f].epoch == s.flushEpoch;
      && (f in s'.flusherQueue <==> f in s.flusherQueue && !hit)
      && s'.flushers[f] == s.flushers[f].(done := s.flushers[f].done + (if hit then 1 else 0))
  {
    hide FlusherOk, FlusherSafe, FlusherSplit, PwqOk, Covers, EpochsOk, ScanLength;
    var queue := s.flusherQueue;
    var k := ScanLength(queue, s.flushers, s.flushColor);
    ScanSplitsByEpoch(s, me);
    QueueMembership(queue, k, f);
    if f in queue[k..] { var i :| 0 <= i < |queue| - k && queue[k..][i] == f; assert queue[k + i] == f; }
  }

  lemma QueueMembership(queue: seq<nat>, k: nat, f: nat)
    requires k <= |queue| && forall i, j | 0 <= i < j < |queue| :: queue[i] != queue[j]
    ensures f in queue[..k] ==> f in queue && f !in queue[k..]
    ensures f in queue <==> f in queue[..k] || f in queue[k..]
    ensures forall i | 0 <= i < |queue| :: (i < k ==> queue[i] in queue[..k]) && (i >= k ==> queue[i] in queue[k..])
    ensures forall x | x in queue[..k] :: exists i :: 0 <= i < k && queue[i] == x
  {
    assert queue == queue[..k] + queue[k..];
    forall i | 0 <= i < |queue| ensures (i < k ==> queue[i] in queue[..k]) && (i >= k ==> queue[i] in queue[k..]) {
      if i < k { assert queue[..k][i] == queue[i]; } else { assert queue[k..][i - k] == queue[i]; }
    }
  }

  // ---------- overflow and promotion ----------

  function Head(queue: seq<nat>): Option<nat> {
    if queue == [] then None else Some(queue[0])
  }

  /** What CascadeHead does after the scan, when flushers overflowed. */
  function Spliced(s: State, me: nat): State {
    var next := Head(s.flusherQueue);
    s.(flushers := AssignColor(s.flushers, s.flusherOverflow, s.workColor, s.nextTicket, s.workEpoch),
       workColor := NextColor(s.workColor), workEpoch := s.workEpoch + 1,
       flusherQueue := s.flusherQueue + s.flusherOverflow, flusherOverflow := [],
       holder := Prep(me, 0, false, AfterOverflow(next)))
  }

  lemma SplicePwqs(s: State, me: nat)
    requires Retired(s, me) && s.flusherOverflow != []
    ensures forall p | 0 <= p < |s.pwqs| :: PwqOk(Spliced(s, me), p)
    ensures ArmsOk(Spliced(s, me))
  {
    var s' := Spliced(s, me);
    assert Armed(s'.pwqs) == {};
    forall p | 0 <= p < |s.pwqs| ensures PwqOk(s', p) {
      assert PwqOk(s, p);
      assert PwqEpoch(s', p) == s.workEpoch == PwqEpoch(s, p);
      forall i | i in s'.pwqs[p].inFlight ensures ItemOk(s', p, i) { assert ItemOk(s, p, i); }
    }
  }

  lemma SpliceEpochs(s: State, me: nat)
    requires EpochsOk(s) && s.workEpoch == s.flushEpoch + WORK_NR_COLORS - 2
    ensures EpochsOk(Spliced(s, me))
  {
    hide NextColor, AssignColor;
    NextColorIsNextEpoch(s.workEpoch);
  }

  lemma ScanEpochs(s: State)
    requires EpochsOk(s) && s.flushEpoch < s.workEpoch
    ensures EpochsOk(Scanned(s))
  {
    hide NextColor, ScanLength, CompleteAll;
    NextColorIsNextEpoch(s.flushEpoch);
  }

  lemma SpliceFlusher(s: State, me: nat, f: nat)
    requires Retired(s, me) && s.flusherOverflow != [] && f < |s.flushers|
    ensures var s' := Spliced(s, me);
        FlusherOk(s', f) && FlusherSafe(s'.flushers[f], s'.pwqs) && FlusherSplit(s'.flushers[f], s'.pwqs)
  {
    var s' := Spliced(s, me);
    assert FlusherOk(s, f) && FlusherSafe(s.flushers[f], s.pwqs) && FlusherSplit(s.flushers[f], s.pwqs);
    if f in s.flusherOverflow {
      forall p, i | 0 <= p < |s.pwqs| && i in s.pwqs[p].inFlight ensures i.ticket < s.nextTicket && i.epoch <= s.workEpoch {
        assert PwqOk(s, p) && ItemOk(s, p, i);
      }
    }
  }

  lemma SpliceQueue(s: State, me: nat)
    requires Retired(s, me) && s.flusherOverflow != []
    ensures IdsOk(Spliced(s, me)) && QueueOk(Spliced(s, me)) && FirstOk(Spliced(s, me))
  {
    hide FlusherOk, FlusherSafe, FlusherSplit, PwqOk, Sorted, Covers, AssignColor, FirstOk;
    SpliceCovers(s, me);
    SpliceFirst(s, me);
  }

  lemma SpliceFirst(s: State, me: nat)
    requires Retired(s, me) && s.flusherOverflow != [] && IdsOk(Spliced(s, me))
    ensures FirstOk(Spliced(s, me))
  {
    hide FlusherOk, FlusherSafe, FlusherSplit, PwqOk, Sorted, Covers, EpochsOk, NextColor, FirstOk;
    CoversOne(s.flusherQueue, s.flushers, s.flushEpoch, s.workEpoch);
    var s' := Spliced(s, me);
    assert s'.flushers[me].pc.Cascading?;
    assert s'.flusherQueue[0] == s.flusherQueue[0];
    OverflowFirst(s', me);
  }

  lemma OverflowFirst(s: State, me: nat)
    requires IdsOk(s) && s.firstFlusher.None? && s.flusherQueue != [] && s.flusherOverflow == []
    requires s.holder == Prep(me, 0, false, AfterOverflow(Some(s.flusherQueue[0])))
    requires s.flushers[me].pc.Cascading? && s.workEpoch == s.flushEpoch + WORK_NR_COLORS - 1
    ensures FirstOk(s)
  {}

  lemma CoversOne(queue: seq<nat>, flushers: seq<Flusher>, from: nat, to: nat)
    requires (forall i | 0 <= i < |queue| :: queue[i] < |flushers|) && Covers(queue, flushers, from, to) && from < to
    ensures Covered(queue, flushers, from) && queue != []
  {}

  lemma SpliceCovers(s: State, me: nat)
    requires Retired(s, me) && s.flusherOverflow != []
    ensures var s' := Spliced(s, me);
      && IdsOk(s') && Sorted(s'.flusherQueue, s'.flushers) && Covers(s'.flusherQueue, s'.flushers, s.flushEpoch, s.workEpoch + 1)
      && (forall i | 0 <= i < |s'.flusherQueue| ::
          Colored(s'.flushers[s'.flusherQueue[i]]) && s.flushEpoch <= s'.flushers[s'.flusherQueue[i]].epoch)
  {
    hide FlusherSafe, FlusherSplit, PwqOk;
    var s' := Spliced(s, me);
    var queue := s.flusherQueue;
    forall i | 0 <= i < |queue| ensures queue[i] !in s.flusherOverflow && s.flushers[queue[i]].epoch < s.workEpoch {
      assert FlusherOk(s, queue[i]);
    }
    QueueKept(queue, s.flushers, s'.flushers, s.flushEpoch, s.workEpoch);
    QueueAppend(queue, s'.flushers, s.flusherOverflow, s.flushEpoch, s.workEpoch);
  }

  lemma SpliceInv(s: State, me: nat)
    requires Retired(s, me) && s.flusherOverflow != []
    ensures Inv(Spliced(s, me))
  {
    SplicePwqs(s, me);
    SpliceEpochs(s, me);
    SpliceQueue(s, me);
    forall f | 0 <= f < |s.flushers| ensures
      var s' := Spliced(s, me);
      FlusherOk(s', f) && FlusherSafe(s'.flushers[f], s'.pwqs) && FlusherSplit(s'.flushers[f], s'.pwqs)
    {
      SpliceFlusher(s, me, f);
    }
  }

  /** list_del of the head of a duplicate-free queue. */
  lemma UnlinkHead(queue: seq<nat>)
    requires queue != []
    ensures Unlink(queue, queue[0]) == queue[1..]
  {}

  /** No flusher on a list has returned. */
  lemma ListedLive(s: State, me: nat)
    requires Between(s, me)
    ensures !SomeGone(s.flushers, s.flusherQueue) && !SomeGone(s.flushers, s.flusherOverflow)
    ensures s.flusherQueue != [] ==> !Gone(s.flushers, s.flusherQueue[0])
  {
    forall i | 0 <= i < |s.flusherQueue| ensures !Gone(s.flushers, s.flusherQueue[i]) {
      assert FlusherOk(s, s.flusherQueue[i]);
    }
    forall i | 0 <= i < |s.flusherOverflow| ensures !Gone(s.flushers, s.flusherOverflow[i]) {
      assert FlusherOk(s, s.flusherOverflow[i]);
    }
  }

  lemma TailFlusher(s: State, me: nat, f: nat)
    requires Retired(s, me) && s.flusherOverflow == [] && f < |s.flushers|
    ensures var s' := CascadeTail(s, me, Head(s.flusherQueue));
      |s'.flushers| == |s.flushers| &&
      FlusherOk(s', f) && FlusherSafe(s'.flushers[f], s'.pwqs) && FlusherSplit(s'.flushers[f], s'.pwqs)
  {
    ListedLive(s, me);
    assert FlusherOk(s, f) && FlusherSafe(s.flushers[f], s.pwqs) && FlusherSplit(s.flushers[f], s.pwqs);
    assert FlusherOk(s, me);
    if s.flusherQueue != [] {
      UnlinkHead(s.flusherQueue);
      QueueMembership(s.flusherQueue, 1, f);
      assert s.flusherQueue[..1] == [s.flusherQueue[0]];
    }
  }

  lemma TailPwqs(s: State, me: nat)
    requires Retired(s, me) && s.flusherOverflow == []
    ensures var s' := CascadeTail(s, me, Head(s.flusherQueue));
      && (forall p | 0 <= p < |s'.pwqs| :: PwqOk(s', p))
      && ArmsOk(s') && EpochsOk(s')
  {
    ListedLive(s, me);
    var s' := CascadeTail(s, me, Head(s.flusherQueue));
    assert Armed(s'.pwqs) == {};
    forall p | 0 <= p < |s'.pwqs| ensures PwqOk(s', p) {
      assert PwqOk(s, p);
      forall i | i in s'.pwqs[p].inFlight ensures ItemOk(s', p, i) { assert ItemOk(s, p, i); }
    }
  }

  /** The queue is empty exactly when every epoch has been flushed; otherwise its head is of the oldest one. */
  lemma NextIsOldest(s: State, me: nat)
    requires Retired(s, me)
    ensures s.flushEpoch == s.workEpoch ==> s.flusherQueue == []
    ensures s.flushEpoch < s.workEpoch ==> s.flusherQueue != [] && s.flushers[s.flusherQueue[0]].epoch == s.flushEpoch
  {
    if s.flusherQueue != [] { assert FlusherOk(s, s.flusherQueue[0]); }
    if s.flushEpoch < s.workEpoch { assert Covered(s.flusherQueue, s.flushers, s.flushEpoch); }
  }

  lemma TailQueue(s: State, me: nat)
    requires Retired(s, me) && s.flusherOverflow == []
    ensures var s' := CascadeTail(s, me, Head(s.flusherQueue));
      IdsOk(s') && QueueOk(s') && FirstOk(s')
  {
    var queue := s.flusherQueue;
    var s' := CascadeTail(s, me, Head(queue));
    NextIsOldest(s, me);
    ListedLive(s, me);
    if queue != [] {
      UnlinkHead(queue);
      assert FlusherOk(s, queue[0]);
      QueueDropHead(queue, s.flushers, s.flushEpoch, s.workEpoch);
    }
  }

  lemma QueueDropHead(queue: seq<nat>, flushers: seq<Flusher>, low: nat, to: nat)
    requires queue != [] && forall i | 0 <= i < |queue| :: queue[i] < |flushers|
    requires flushers[queue[0]].epoch == low
    requires Sorted(queue, flushers) && Covers(queue, flushers, low, to)
    ensures forall i | 0 <= i < |queue[1..]| :: queue[1..][i] == queue[1 + i] && queue[1..][i] < |flushers|
    ensures Sorted(queue[1..], flushers) && Covers(queue[1..], flushers, low + 1, to)
    ensures queue[0] !in queue[1..]
  {
    QueueDrop(queue, 1, flushers, flushers, low + 1, to);
  }

  lemma TailInv(s: State, me: nat)
    requires Retired(s, me) && s.flusherOverflow == []
    ensures Inv(CascadeTail(s, me, Head(s.flusherQueue)))
  {
    TailQueue(s, me);
    TailPwqs(s, me);
    var s' := CascadeTail(s, me, Head(s.flusherQueue));
    forall f | 0 <= f < |s'.flushers| ensures
      FlusherOk(s', f) && FlusherSafe(s'.flushers[f], s'.pwqs) && FlusherSplit(s'.flushers[f], s'.pwqs)
    {
      TailFlusher(s, me, f);
    }
  }

  /** The two halves of CascadeHead. */
  lemma HeadHalves(s: State, me: nat)
    requires me < |s.flushers| && !SomeGone(s.flushers, s.flusherQueue) && !SomeGone(s.flushers, s.flusherOverflow)
    ensures CascadeHead(s, me) ==
      if s.flusherOverflow != [] then Spliced(Scanned(s), me) else CascadeTail(Scanned(s), me, Head(Scanned(s).flusherQueue))
    ensures NextFlusher(s) == Head(Scanned(s).flusherQueue)
  {
    hide ScanLength, AssignColor, CompleteAll, CascadeTail, SomeGone;
  }

  lemma HeadInv(s: State, me: nat)
    requires Drained(s, me)
    ensures Inv(CascadeHead(s, me))
  {
    ListedLive(s, me);
    hide Inv, CascadeHead, CascadeTail, SomeGone, Gone, Spliced, Sorted, FlusherOk, FlusherSafe, FlusherSplit, PwqOk, Covers, Retired;
    ScanRetires(s, me);
    HeadHalves(s, me);
    if s.flusherOverflow != [] {
      SpliceInv(Scanned(s), me);
    } else {
      TailInv(Scanned(s), me);
    }
  }

  /** Neither half of the cascade loop reads the holder field. */
  lemma HolderIsOverwritten(s: State, me: nat, holder: Holder)
    requires me < |s.flushers|
    ensures CascadeHead(s, me) == CascadeHead(s.(holder := holder), me)
    ensures forall next: Option<nat> :: CascadeTail(s, me, next) == CascadeTail(s.(holder := holder), me, next)
  {}

  lemma CascadeInv(s: State, f: nat)
    requires Inv(s) && CanCascade(s, f)
    ensures Inv(Cascade(s, f))
  {
    assert FlusherOk(s, f);
    if s.firstFlusher != Some(f) {
      PcChangeInv(s, Cascade(s, f), f);
    } else {
      var s1 := s.(firstFlusher := None, flushers := SetPc(s.flushers, f, Cascading));
      var s2 := s1.(holder := Prep(f, |s.pwqs|, false, AsNextFirst));
      CascadeDrained(s, f);
      HeadInv(s2, f);
      HolderIsOverwritten(s1, f, s2.holder);
    }
  }

  lemma CascadeDrained(s: State, f: nat)
    requires Inv(s) && CanCascade(s, f) && s.firstFlusher == Some(f)
    ensures Drained(s.(firstFlusher := None, flushers := SetPc(s.flushers, f, Cascading),
                       holder := Prep(f, |s.pwqs|, false, AsNextFirst)), f)
  {
    var s' := s.(firstFlusher := None, flushers := SetPc(s.flushers, f, Cascading),
                 holder := Prep(f, |s.pwqs|, false, AsNextFirst));
    assert FlusherOk(s, f);
    assert Armed(s.pwqs) == {};
    forall p | 0 <= p < |s.pwqs| ensures PwqOk(s', p) && s'.pwqs[p].flushColor == -1
      && forall i | i in s.pwqs[p].inFlight :: i.epoch > s.flushEpoch
    {
      assert PwqOk(s, p) && ArmOk(s, p) && p !in Armed(s.pwqs);
      forall i | i in s'.pwqs[p].inFlight ensures ItemOk(s', p, i) { assert ItemOk(s, p, i); }
    }
    forall g | 0 <= g < |s'.flushers| ensures
      FlusherOk(s', g) && FlusherSafe(s'.flushers[g], s'.pwqs) && FlusherSplit(s'.flushers[g], s'.pwqs)
    {
      assert FlusherOk(s, g) && FlusherSafe(s.flushers[g], s.pwqs) && FlusherSplit(s.flushers[g], s.pwqs);
    }
    QueueKept(s.flusherQueue, s.flushers, s'.flushers, s.flushEpoch + 1, s.workEpoch);
  }

  // ---------- the end of flush_workqueue_prep_pwqs ----------

  /** The bias of one is dropped; what remains counts the armed pwqs. */
  lemma DropBias(s: State)
    requires Inv(s) && CanPrepEnd(s) && Arming(s)
    ensures var t := DecPwqsToFlush(s);
      && t.holder == s.holder && t.nrPwqsToFlush == |Armed(s.pwqs)|
      && |t.flushers| == |s.flushers|
      && (!s.holder.wait ==> t.nrPwqsToFlush == 0)
      && (t.nrPwqsToFlush == 0 ==>
            forall p, i | 0 <= p < |s.pwqs| && i in s.pwqs[p].inFlight :: i.epoch > s.flushEpoch)
  {
    var t := DecPwqsToFlush(s);
    if !s.holder.wait {
      assert Armed(s.pwqs) == {};
    }
    if t.nrPwqsToFlush == 0 {
      forall p, i | 0 <= p < |s.pwqs| && i in s.pwqs[p].inFlight ensures i.epoch > s.flushEpoch {
        assert ArmOk(s, p) && PwqOk(s, p) && p !in Armed(s.pwqs) && ItemOk(s, p, i);
      }
    }
  }

  /** PrepEnd when the caller goes on to wait, or returns with a flush in progress. */
  predicate StopsHere(s: State) {
    InPrep(s) && (s.holder.resume.AsQueued? || (Arms(s.holder.resume) && s.holder.wait))
  }

  lemma PrepEndStops(s: State)
    requires Inv(s) && CanPrepEnd(s) && StopsHere(s)
    ensures Inv(PrepEnd(s))
  {
    var s' := PrepEnd(s);
    PrepEndFirst(s);
    PrepEndPwqs(s);
    PrepEndQueue(s);
    forall f | 0 <= f < |s.flushers| ensures
      |s'.flushers| == |s.flushers| &&
      FlusherOk(s', f) && FlusherSafe(s'.flushers[f], s'.pwqs) && FlusherSplit(s'.flushers[f], s'.pwqs)
    {
      PrepEndFlusher(s, f);
    }
    PrepEndFrame(s);
    hide PrepEnd, IdsOk, PwqOk, ArmsOk, QueueOk, FirstOk, FlusherOk, FlusherSafe, FlusherSplit;
  }

  lemma PrepEndFrame(s: State)
    requires Inv(s) && CanPrepEnd(s) && StopsHere(s)
    ensures var s' := PrepEnd(s);
      && s'.pwqs == s.pwqs && s'.holder == Free && EpochsOk(s')
      && s'.flusherQueue == s.flusherQueue && s'.flusherOverflow == s.flusherOverflow
      && s'.firstFlusher == s.firstFlusher && s'.flushEpoch == s.flushEpoch && s'.workEpoch == s.workEpoch
      && |s'.flushers| == |s.flushers|
      && (forall f | 0 <= f < |s.flushers| ::
            s'.flushers[f] == s.flushers[f].(done := s'.flushers[f].done, pc := s'.flushers[f].pc))
  {
    if Arming(s) { DropBias(s); }
    hide PwqOk, FlusherOk, FlusherSafe, FlusherSplit, QueueOk;
  }

  lemma PrepEndPwqs(s: State)
    requires Inv(s) && CanPrepEnd(s) && StopsHere(s)
    ensures (forall p | 0 <= p < |PrepEnd(s).pwqs| :: PwqOk(PrepEnd(s), p)) && ArmsOk(PrepEnd(s))
  {
    var s' := PrepEnd(s);
    if Arming(s) { DropBias(s); }
    PrepEndFrame(s);
    forall p | 0 <= p < |s'.pwqs| ensures PwqOk(s', p) && ArmOk(s', p) {
      assert PwqOk(s, p) && ArmOk(s, p);
      forall i | i in s'.pwqs[p].inFlight ensures ItemOk(s', p, i) { assert ItemOk(s, p, i); }
    }
  }

  lemma PrepEndQueue(s: State)
    requires Inv(s) && CanPrepEnd(s) && StopsHere(s) && IdsOk(PrepEnd(s))
    ensures QueueOk(PrepEnd(s))
  {
    PrepEndFrame(s);
    hide PrepEnd, PwqOk, ArmsOk, FlusherOk, FlusherSafe, FlusherSplit, FirstOk;
    QueueKept(s.flusherQueue, s.flushers, PrepEnd(s).flushers, CoverFrom(s), s.workEpoch);
  }

  lemma PrepEndFlusher(s: State, f: nat)
    requires Inv(s) && CanPrepEnd(s) && StopsHere(s) && f < |s.flushers|
    ensures var s' := PrepEnd(s);
      |s'.flushers| == |s.flushers| &&
      FlusherOk(s', f) && FlusherSafe(s'.flushers[f], s'.pwqs) && FlusherSplit(s'.flushers[f], s'.pwqs)
  {
    if Arming(s) { DropBias(s); }
    assert FlusherOk(s, s.holder.owner);
    assert s.firstFlusher.Some? ==> FlusherOk(s, s.firstFlusher.value);
    assert FlusherOk(s, f) && FlusherSafe(s.flushers[f], s.pwqs) && FlusherSplit(s.flushers[f], s.pwqs);
  }

  lemma PrepEndFirst(s: State)
    requires Inv(s) && CanPrepEnd(s) && StopsHere(s)
    ensures IdsOk(PrepEnd(s)) && FirstOk(PrepEnd(s))
  {
    if Arming(s) { DropBias(s); }
    assert FlusherOk(s, s.holder.owner);
    assert FlusherOk(s, s.firstFlusher.value);
  }

  /** The very first flusher finds nothing to wait for (workqueue.c:1615-1621). */
  lemma PrepEndNothing(s: State)
    requires Inv(s) && CanPrepEnd(s) && s.holder.resume.AsFirst? && !s.holder.wait
    ensures Inv(PrepEnd(s))
  {
    var s' := PrepEnd(s);
    DropBias(s);
    var me := s.holder.owner;
    assert FlusherOk(s, me);
    assert Armed(s.pwqs) == {};
    forall p | 0 <= p < |s'.pwqs| ensures PwqOk(s', p) && ArmOk(s', p) {
      assert PwqOk(s, p) && ArmOk(s, p) && p !in Armed(s.pwqs);
      forall i | i in s'.pwqs[p].inFlight ensures ItemOk(s', p, i) { assert ItemOk(s, p, i); }
    }
    forall f | 0 <= f < |s'.flushers| ensures
      FlusherOk(s', f) && FlusherSafe(s'.flushers[f], s'.pwqs) && FlusherSplit(s'.flushers[f], s'.pwqs)
    {
      assert FlusherOk(s, f) && FlusherSafe(s.flushers[f], s.pwqs) && FlusherSplit(s.flushers[f], s.pwqs);
    }
  }

  /** The overflowed flushers have their colour; go on with the next flusher. */
  lemma PrepEndOverflow(s: State)
    requires Inv(s) && CanPrepEnd(s) && s.holder.resume.AfterOverflow?
    ensures Inv(PrepEnd(s))
  {
    var me := s.holder.owner;
    var t := s.(holder := Prep(me, |s.pwqs|, false, AsNextFirst));
    NoneArmed(s);
    forall p | 0 <= p < |s.pwqs| ensures PwqOk(t, p) && t.pwqs[p].flushColor == -1 {
      assert PwqOk(s, p) && p !in Armed(s.pwqs);
      forall i | i in s.pwqs[p].inFlight ensures ItemOk(t, p, i) { assert ItemOk(s, p, i); }
    }
    forall f | 0 <= f < |s.flushers| ensures FlusherOk(t, f) {
      assert FlusherOk(s, f);
    }
    assert Between(t, me);
    TailInv(t, me);
    HolderIsOverwritten(s, me, t.holder);
  }

  /** The next colour is already done: its flusher is completed, and first_flusher not yet cleared. */
  lemma PrepEndNextDone(s: State)
    requires Inv(s) && CanPrepEnd(s) && s.holder.resume.AsNextFirst? && !s.holder.wait
    ensures Inv(PrepEnd(s))
  {
    var s' := PrepEnd(s);
    DropBias(s);
    NextDonePwqs(s);
    NextDoneQueue(s);
    forall f | 0 <= f < |s'.flushers| ensures
      FlusherOk(s', f) && FlusherSafe(s'.flushers[f], s'.pwqs) && FlusherSplit(s'.flushers[f], s'.pwqs)
    {
      NextDoneFlusher(s, f);
    }
    hide PrepEnd, IdsOk, PwqOk, ArmsOk, QueueOk, FirstOk, FlusherOk, FlusherSafe, FlusherSplit;
  }

  lemma NextDonePwqs(s: State)
    requires Inv(s) && CanPrepEnd(s) && s.holder.resume.AsNextFirst? && !s.holder.wait
    ensures var s' := PrepEnd(s); (forall p | 0 <= p < |s'.pwqs| :: PwqOk(s', p)) && ArmsOk(s') && EpochsOk(s')
  {
    var s' := PrepEnd(s);
    DropBias(s);
    forall p | 0 <= p < |s'.pwqs| ensures PwqOk(s', p) && ArmOk(s', p) {
      assert PwqOk(s, p) && ArmOk(s, p);
      forall i | i in s'.pwqs[p].inFlight ensures ItemOk(s', p, i) { assert ItemOk(s, p, i); }
    }
  }

  lemma NextDoneQueue(s: State)
    requires Inv(s) && CanPrepEnd(s) && s.holder.resume.AsNextFirst? && !s.holder.wait
    ensures IdsOk(PrepEnd(s)) && QueueOk(PrepEnd(s)) && FirstOk(PrepEnd(s))
  {
    DropBias(s);
    assert FlusherOk(s, s.firstFlusher.value) && FlusherOk(s, s.holder.owner);
    QueueKept(s.flusherQueue, s.flushers, PrepEnd(s).flushers, CoverFrom(s), s.workEpoch);
  }

  lemma NextDoneFlusher(s: State, f: nat)
    requires Inv(s) && CanPrepEnd(s) && s.holder.resume.AsNextFirst? && !s.holder.wait && f < |s.flushers|
    ensures var s' := PrepEnd(s);
      |s'.flushers| == |s.flushers| &&
      FlusherOk(s', f) && FlusherSafe(s'.flushers[f], s'.pwqs) && FlusherSplit(s'.flushers[f], s'.pwqs)
  {
    DropBias(s);
    assert FlusherOk(s, s.firstFlusher.value);
    assert FlusherOk(s, f) && FlusherSafe(s.flushers[f], s.pwqs) && FlusherSplit(s.flushers[f], s.pwqs);
  }

  /** first_flusher is cleared and the cascade repeats (workqueue.c:1714-1718). */
  lemma PrepEndRepeat(s: State)
    requires Inv(s) && CanPrepEnd(s) && s.holder.resume.AsNextDone?
    ensures Inv(PrepEnd(s))
  {
    RepeatDrained(s);
    var t := s.(firstFlusher := None);
    HeadInv(t.(holder := Prep(s.holder.owner, |s.pwqs|, false, AsNextFirst)), s.holder.owner);
    HolderIsOverwritten(t, s.holder.owner, Prep(s.holder.owner, |s.pwqs|, false, AsNextFirst));
  }

  lemma RepeatDrained(s: State)
    requires Inv(s) && CanPrepEnd(s) && s.holder.resume.AsNextDone?
    ensures Drained(s.(firstFlusher := None, holder := Prep(s.holder.owner, |s.pwqs|, false, AsNextFirst)), s.holder.owner)
  {
    var t := s.(firstFlusher := None, holder := Prep(s.holder.owner, |s.pwqs|, false, AsNextFirst));
    assert Armed(s.pwqs) == {};
    forall p | 0 <= p < |s.pwqs| ensures PwqOk(t, p) && t.pwqs[p].flushColor == -1
      && forall i | i in s.pwqs[p].inFlight :: i.epoch > s.flushEpoch
    {
      assert PwqOk(s, p) && ArmOk(s, p) && p !in Armed(s.pwqs);
      forall i | i in s.pwqs[p].inFlight ensures ItemOk(t, p, i) { assert ItemOk(s, p, i); }
    }
    assert FlusherOk(s, s.firstFlusher.value);
    forall f | 0 <= f < |s.flushers| ensures
      FlusherOk(t, f) && FlusherSafe(t.flushers[f], t.pwqs) && FlusherSplit(t.flushers[f], t.pwqs)
    {
      assert FlusherOk(s, f) && FlusherSafe(s.flushers[f], s.pwqs) && FlusherSplit(s.flushers[f], s.pwqs);
    }
    QueueKept(s.flusherQueue, s.flushers, t.flushers, s.flushEpoch + 1, s.workEpoch);
  }

  lemma PrepEndInv(s: State)
    requires Inv(s) && CanPrepEnd(s)
    ensures Inv(PrepEnd(s))
  {
    if StopsHere(s) { PrepEndStops(s); }
    else {
      match s.holder.resume
      case AsFirst => PrepEndNothing(s);
      case AfterOverflow(_) => PrepEndOverflow(s);
      case AsNextFirst => PrepEndNextDone(s);
      case AsNextDone => PrepEndRepeat(s);
    }
  }

  lemma StepInv(s: State, a: Action, s': State)
    requires Inv(s) && Step(s, a, s')
    ensures Inv(s')
  {
    match a
    case QueueA(p) => QueueWorkInv(s, p);
    case FinishA(p, item) => FinishInv(s, p, item);
    case FlushA => FlushStartInv(s);
    case PrepA => PrepPwqInv(s);
    case EndA => PrepEndInv(s);
    case WakeA(f) => WakeInv(s, f);
    case CheckA(f) => CheckFirstInv(s, f);
    case CascadeA(f) => CascadeInv(s, f);
  }
}
