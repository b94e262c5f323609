/** What the flushing protocol guarantees over whole runs. */
module FlushTheorems {
  import opened WorkColors
  import opened Options
  import opened FlushProtocol
  import opened FlushInvariant

  // ---------- runs ----------

  ghost predicate IsRun(states: seq<State>, actions: seq<Action>) {
    && |states| == |actions| + 1
    && Init(states[0])
    && forall i | 0 <= i < |actions| :: Step(states[i], actions[i], states[i + 1])
  }

  lemma {:induction false} RunInv(states: seq<State>, actions: seq<Action>, i: nat)
    requires IsRun(states, actions) && i < |states|
    ensures Inv(states[i])
  {
    hide Inv, Init, Step;
    if i == 0 {
      InitInv(states[0]);
    } else {
      RunInv(states, actions, i - 1);
      StepInv(states[i - 1], actions[i - 1], states[i]);
    }
  }

  /** A flusher keeps its ticket and, once it has one, its colour. */
  predicate Persists(fl: Flusher, fl': Flusher) {
    && fl'.startTicket == fl.startTicket
    && (Colored(fl) ==> fl'.flushColor == fl.flushColor && fl'.epoch == fl.epoch && fl'.colorTicket == fl.colorTicket)
  }

  lemma HeadPersists(s: State, me: nat, f: nat)
    requires me < |s.flushers| && f < |s.flushers| && (f in s.flusherOverflow ==> !Colored(s.flushers[f]))
    ensures |s.flushers| == |CascadeHead(s, me).flushers| && Persists(s.flushers[f], CascadeHead(s, me).flushers[f])
  {
    hide ScanLength, SomeGone, Gone, Unlink, NextColor;
  }

  lemma PrepEndPersists(s: State, f: nat)
    requires Inv(s) && CanPrepEnd(s) && f < |s.flushers|
    ensures |s.flushers| == |PrepEnd(s).flushers| && Persists(s.flushers[f], PrepEnd(s).flushers[f])
  {
    assert FlusherOk(s, f);
    if s.holder.resume.AsNextDone? {
      HeadPersists(s.(firstFlusher := None), s.holder.owner, f);
    }
  }

  lemma CascadePersists(s: State, g: nat, f: nat)
    requires Inv(s) && CanCascade(s, g) && f < |s.flushers|
    ensures |s.flushers| == |Cascade(s, g).flushers| && Persists(s.flushers[f], Cascade(s, g).flushers[f])
  {
    assert FlusherOk(s, f);
    HeadPersists(s.(firstFlusher := None, flushers := SetPc(s.flushers, g, Cascading)), g, f);
  }

  lemma StepPersists(s: State, a: Action, s': State, f: nat)
    requires Inv(s) && Step(s, a, s') && f < |s.flushers|
    ensures |s.flushers| <= |s'.flushers| && Persists(s.flushers[f], s'.flushers[f])
  {
    match a
    case EndA => PrepEndPersists(s, f);
    case CascadeA(g) => CascadePersists(s, g, f);
    case FinishA(p, item) =>
    case FlushA =>
    case _ =>
  }

  lemma {:induction false} RunPersists(states: seq<State>, actions: seq<Action>, i: nat, j: nat, f: nat)
    requires IsRun(states, actions) && i <= j < |states| && f < |states[i].flushers|
    ensures f < |states[j].flushers| && Persists(states[i].flushers[f], states[j].flushers[f])
  {
    hide Step, Inv;
    if i < j {
      RunPersists(states, actions, i, j - 1, f);
      RunInv(states, actions, j - 1);
      StepPersists(states[j - 1], actions[j - 1], states[j], f);
    }
  }

  /**
   Flush safety.  A flush is called at step k and has returned in state j.  Then no work item that
   was in flight anywhere on the workqueue when it was called is still in flight.
   */
  lemma FlushSafety(states: seq<State>, actions: seq<Action>, k: nat, j: nat, p: nat, q: nat, item: Item)
    requires IsRun(states, actions) && k < |actions| && actions[k].FlushA?
    requires k < j < |states|
    requires |states[k].flushers| < |states[j].flushers| && states[j].flushers[|states[k].flushers|].pc.Returned?
    requires p < |states[k].pwqs| && item in states[k].pwqs[p].inFlight
    ensures q < |states[j].pwqs| ==> item !in states[j].pwqs[q].inFlight
  {
    var me := |states[k].flushers|;
    RunInv(states, actions, k);
    RunInv(states, actions, j);
    assert states[k + 1].flushers[me].startTicket == states[k].nextTicket;
    RunPersists(states, actions, k + 1, j, me);
    var fl := states[j].flushers[me];
    assert PwqOk(states[k], p) && ItemOk(states[k], p, item);
    assert FlusherOk(states[j], me) && FlusherSafe(fl, states[j].pwqs) && FlusherSplit(fl, states[j].pwqs);
  }

  /**
   While a flusher that has its colour has not been completed, every in-flight item of that colour
   was queued before the colour was handed out: later work never enters the count it waits on.
   */
  lemma LaterWorkIsNotCounted(states: seq<State>, actions: seq<Action>, j: nat, f: nat, p: nat, item: Item)
    requires IsRun(states, actions) && j < |states| && f < |states[j].flushers| && p < |states[j].pwqs|
    requires Colored(states[j].flushers[f]) && !Finished(states[j].flushers[f])
    requires item in states[j].pwqs[p].inFlight && item.color == states[j].flushers[f].flushColor
    ensures item.ticket < states[j].flushers[f].colorTicket
  {
    RunInv(states, actions, j);
    var s := states[j];
    assert FlusherOk(s, f) && FlusherSplit(s.flushers[f], s.pwqs) && PwqOk(s, p) && ItemOk(s, p, item);
    ColorsAreInjective(item.epoch, s.flushers[f].epoch, s.flushEpoch);
  }

  /** The counters the protocol consults are exact. */
  lemma CountersAreExact(states: seq<State>, actions: seq<Action>, j: nat, p: nat, c: nat)
    requires IsRun(states, actions) && j < |states| && p < |states[j].pwqs| && c < WORK_NR_COLORS
    ensures |states[j].pwqs[p].nrInFlight| == WORK_NR_COLORS
    ensures states[j].pwqs[p].nrInFlight[c] == |(set i | i in states[j].pwqs[p].inFlight && i.color == c)|
  {
    RunInv(states, actions, j);
    hide Step;
    assert PwqOk(states[j], p);
    assert states[j].pwqs[p].nrInFlight[c] == Count(states[j].pwqs[p].inFlight, c);
  }

  /** The first flusher is waited on by exactly the pwqs that still have work of the flush colour. */
  lemma PwqsToFlushIsExact(states: seq<State>, actions: seq<Action>, j: nat)
    requires IsRun(states, actions) && j < |states| && states[j].holder.Free? && states[j].firstFlusher.Some?
    ensures states[j].nrPwqsToFlush ==
        |(set p | 0 <= p < |states[j].pwqs| && exists i :: i in states[j].pwqs[p].inFlight && i.color == states[j].flushColor)|
  {
    RunInv(states, actions, j);
    var s := states[j];
    hide Step;
    forall p | 0 <= p < |s.pwqs| ensures
      s.pwqs[p].flushColor != -1 <==> exists i :: i in s.pwqs[p].inFlight && i.color == s.flushColor
    {
      assert ArmOk(s, p);
      forall i | i in s.pwqs[p].inFlight ensures i.color == s.flushColor <==> i.epoch == s.flushEpoch {
        FlushColorIsFlushEpoch(s, p, i);
      }
    }
    assert Armed(s.pwqs) ==
      set p | 0 <= p < |s.pwqs| && exists i :: i in s.pwqs[p].inFlight && i.color == s.flushColor;
  }

  // ---------- colour space ----------

  /** Colour c lies strictly between the flush colour and the work colour, going round. */
  predicate StrictlyBetween(flush: int, work: int, c: int) {
    0 < (c - flush) % WORK_NR_COLORS < (work - flush) % WORK_NR_COLORS
  }

  /**
   The shape of the colour space at every release of the mutex, in terms of the real fields only:
   idle means empty, overflow means full, and the queue covers every colour in between.
   */
  lemma ColorSpace(states: seq<State>, actions: seq<Action>, j: nat)
    requires IsRun(states, actions) && j < |states| && states[j].holder.Free?
    ensures var s := states[j];
      && (s.firstFlusher.None? ==> s.flushColor == s.workColor && s.flusherQueue == [] && s.flusherOverflow == [])
      && (s.firstFlusher.Some? ==>
            s.firstFlusher.value < |s.flushers| && s.flushers[s.firstFlusher.value].flushColor == s.flushColor)
      && (s.flusherOverflow != [] ==> NextColor(s.workColor) == s.flushColor)
      && (forall i | 0 <= i < |s.flusherQueue| :: s.flusherQueue[i] < |s.flushers|)
      && (forall c | 0 <= c < WORK_NR_COLORS && StrictlyBetween(s.flushColor, s.workColor, c) ::
            exists i :: 0 <= i < |s.flusherQueue| && s.flushers[s.flusherQueue[i]].flushColor == c)
  {
    hide Step, Init, IsRun, PwqOk, ArmsOk, FlusherSafe, FlusherSplit;
    RunInv(states, actions, j);
    var s := states[j];
    if s.firstFlusher.Some? { assert FlusherOk(s, s.firstFlusher.value); }
    if s.flusherOverflow != [] { NextColorIsNextEpoch(s.workEpoch); }
    forall c | 0 <= c < WORK_NR_COLORS && StrictlyBetween(s.flushColor, s.workColor, c) ensures
      exists i :: 0 <= i < |s.flusherQueue| && s.flushers[s.flusherQueue[i]].flushColor == c
    {
      ColorIsCovered(s, c);
    }
  }

  lemma ColorIsCovered(s: State, c: int)
    requires Inv(s) && s.holder.Free? && 0 <= c < WORK_NR_COLORS && StrictlyBetween(s.flushColor, s.workColor, c)
    ensures exists i :: 0 <= i < |s.flusherQueue| && s.flushers[s.flusherQueue[i]].flushColor == c
  {
    ColorDistance(s.workEpoch, s.flushEpoch);
    var e := s.flushEpoch + (c - s.flushColor) % WORK_NR_COLORS;
    EpochOfColor(s.flushEpoch, c);
    assert Covered(s.flusherQueue, s.flushers, e);
    var i :| 0 <= i < |s.flusherQueue| && s.flushers[s.flusherQueue[i]].epoch == e;
    assert FlusherOk(s, s.flusherQueue[i]);
  }

  /** Queued flushers stand in cyclic colour order. */
  lemma QueueInColorOrder(states: seq<State>, actions: seq<Action>, j: nat, i: nat, k: nat)
    requires IsRun(states, actions) && j < |states| && i <= k < |states[j].flusherQueue|
    ensures var s := states[j];
      s.flusherQueue[i] < |s.flushers| && s.flusherQueue[k] < |s.flushers| &&
      (s.flushers[s.flusherQueue[i]].flushColor - s.flushColor) % WORK_NR_COLORS
      <= (s.flushers[s.flusherQueue[k]].flushColor - s.flushColor) % WORK_NR_COLORS
      <= (s.workColor - s.flushColor) % WORK_NR_COLORS
  {
    RunInv(states, actions, j);
    var s := states[j];
    hide Step;
    assert FlusherOk(s, s.flusherQueue[i]) && FlusherOk(s, s.flusherQueue[k]);
    ColorDistance(s.flushers[s.flusherQueue[i]].epoch, s.flushEpoch);
    ColorDistance(s.flushers[s.flusherQueue[k]].epoch, s.flushEpoch);
    ColorDistance(s.workEpoch, s.flushEpoch);
  }

  /** No pwq has work in flight of a colour outside the cyclic range from flush colour to work colour. */
  lemma WorkInColorRange(states: seq<State>, actions: seq<Action>, j: nat, p: nat, item: Item)
    requires IsRun(states, actions) && j < |states| && p < |states[j].pwqs| && item in states[j].pwqs[p].inFlight
    ensures (item.color - states[j].flushColor) % WORK_NR_COLORS
            <= (states[j].workColor - states[j].flushColor) % WORK_NR_COLORS
  {
    RunInv(states, actions, j);
    var s := states[j];
    hide Step;
    assert PwqOk(s, p) && ItemOk(s, p, item);
    ColorDistance(item.epoch, s.flushEpoch);
    ColorDistance(s.workEpoch, s.flushEpoch);
  }

  /** Inside the window, the cyclic distance of two colours is the distance of their epochs. */
  lemma ColorDistance(e: nat, base: nat)
    requires base <= e < base + WORK_NR_COLORS
    ensures (e % WORK_NR_COLORS - base % WORK_NR_COLORS) % WORK_NR_COLORS == e - base
  {
    var q, r := base / 15, base % 15;
    assert base == 15 * q + r;
    if r + (e - base) < 15 {
      assert e == 15 * q + (r + (e - base));
      assert e % 15 == r + (e - base);
    } else {
      assert e == 15 * (q + 1) + (r + (e - base) - 15);
      assert e % 15 == r + (e - base) - 15;
    }
  }

  lemma EpochOfColor(base: nat, c: int)
    requires 0 <= c < WORK_NR_COLORS
    ensures (base + (c - base % WORK_NR_COLORS) % WORK_NR_COLORS) % WORK_NR_COLORS == c
  {
    var q, r := base / 15, base % 15;
    assert base == 15 * q + r;
    if c >= r {
      assert base + (c - r) == 15 * q + c;
    } else {
      assert (c - r) % 15 == c - r + 15;
      assert base + (c - r + 15) == 15 * (q + 1) + c;
    }
  }

  // ---------- assertions in the code ----------

  /** The conditions warned about in the start-to-wait phase and in the loop over the pwqs never arise. */
  lemma StartNeverWarns(s: State)
    requires Inv(s)
    ensures s.holder.Free? && NextColor(s.workColor) != s.flushColor ==>
      && s.flusherOverflow == []
      && (s.firstFlusher.None? ==> s.flushColor == s.workColor && s.nrPwqsToFlush == 0)
      && (s.firstFlusher.Some? ==> s.flushColor != s.workColor)
    ensures CanPrepPwq(s) && Arming(s) ==> s.pwqs[s.holder.idx].flushColor == -1
    ensures CanPrepPwq(s) && Advancing(s) ==> s.workColor == NextColor(s.pwqs[s.holder.idx].workColor)
  {
    FreeNeverWarns(s);
    hide Inv;
    if CanPrepPwq(s) { PrepNeverWarns(s); }
  }

  lemma FreeNeverWarns(s: State)
    requires Inv(s)
    ensures s.holder.Free? && NextColor(s.workColor) != s.flushColor ==>
      && s.flusherOverflow == []
      && (s.firstFlusher.None? ==> s.flushColor == s.workColor && s.nrPwqsToFlush == 0)
      && (s.firstFlusher.Some? ==> s.flushColor != s.workColor)
  {
    if s.holder.Free? {
      if s.firstFlusher.None? { NoneArmed(s); }
      else {
        assert FlusherOk(s, s.firstFlusher.value);
        if s.flushColor == s.workColor { ColorsAreInjective(s.workEpoch, s.flushEpoch, s.flushEpoch); }
      }
      if s.flusherOverflow != [] { NextColorIsNextEpoch(s.workEpoch); }
    }
  }

  lemma PrepNeverWarns(s: State)
    requires Inv(s) && CanPrepPwq(s)
    ensures Arming(s) ==> s.pwqs[s.holder.idx].flushColor == -1
    ensures Advancing(s) ==> s.workColor == NextColor(s.pwqs[s.holder.idx].workColor)
  {
    assert ArmOk(s, s.holder.idx) && PwqOk(s, s.holder.idx);
    if Advancing(s) {
      if s.workEpoch > 0 { NextColorIsNextEpoch(s.workEpoch - 1); }
    }
  }

  /** The step runs the scan of the cascade loop. */
  predicate Scans(s: State, a: Action) {
    match a
    case CascadeA(f) => CanCascade(s, f) && s.firstFlusher == Some(f)
    case EndA => CanPrepEnd(s) && s.holder.resume.AsNextDone?
    case _ => false
  }

  /** The step goes on with the cascade once the overflowed flushers have their colour. */
  predicate GoesOn(s: State, a: Action) {
    a.EndA? && CanPrepEnd(s) && s.holder.resume.AfterOverflow?
  }

  /**
   At every iteration of the cascade: the flusher that began it was on no list and carried the flush colour; an
   overflow means a full colour space; and no pwq is counted when the pwqs are about to be armed.
   */
  lemma CascadeNeverWarns(s: State, a: Action)
    requires Inv(s) && (Scans(s, a) || GoesOn(s, a))
    ensures a.CascadeA? ==> a.f !in s.flusherQueue && a.f !in s.flusherOverflow && s.flushers[a.f].flushColor == s.flushColor
    ensures Scans(s, a) && s.flusherOverflow != [] ==> s.flushColor == NextColor(s.workColor)
    ensures s.nrPwqsToFlush == 0
  {
    hide PwqOk, FlusherSafe, FlusherSplit, Sorted, Covers;
    if a.CascadeA? { assert FlusherOk(s, a.f); }
    if s.flusherOverflow != [] { NextColorIsNextEpoch(s.workEpoch); }
    if s.firstFlusher.None? { NoneArmed(s); }
  }

  /** A flusher whose call has not returned and which holds the colour to be flushed. */
  predicate Real(s: State, next: Option<nat>) {
    && next.Some? && next.value < |s.flushers| && !Gone(s.flushers, next.value)
    && s.flushers[next.value].flushColor == s.flushColor != s.workColor
  }

  /**
   Every scan of a run leaves behind either a real flusher of the new flush colour, which the same step stores
   or promotes, or nothing, and then nothing is queued or overflowed and the colour space is empty.
   (Neither way into the scan changes the queue or a colour, so NextFlusher is taken of the state before the step.)
   */
  lemma NextIsReal(states: seq<State>, actions: seq<Action>, i: nat)
    requires IsRun(states, actions) && i < |actions| && Scans(states[i], actions[i])
    ensures var (s, s') := (states[i], states[i + 1]);
      var next := NextFlusher(s);
      && (next.Some? ==> Real(s', next))
      && (next.None? ==> s'.holder.Free? && s'.firstFlusher.None? && s'.flusherQueue == [] && s'.flushColor == s'.workColor)
      && (if s.flusherOverflow != [] then s'.holder.Prep? && s'.holder.resume == AfterOverflow(next) else s'.firstFlusher == next)
      && s'.flusherOverflow == []
  {
    var (s, s') := (states[i], states[i + 1]);
    RunInv(states, actions, i);
    RunInv(states, actions, i + 1);
    hide IsRun, Inv, Drained, CascadeHead, Real;
    var next := NextFlusher(s);
    match actions[i]
    case CascadeA(f) =>
      CascadeDrained(s, f);
      var t := s.(firstFlusher := None, flushers := SetPc(s.flushers, f, Cascading));
      HolderIsOverwritten(t, f, Prep(f, |s.pwqs|, false, AsNextFirst));
      ScanReadsColors(s.flusherQueue, s.flushers, t.flushers, s.flushColor);
      HeadLeaves(t.(holder := Prep(f, |s.pwqs|, false, AsNextFirst)), f);
    case EndA =>
      var me := s.holder.owner;
      RepeatDrained(s);
      HolderIsOverwritten(s.(firstFlusher := None), me, Prep(me, |s.pwqs|, false, AsNextFirst));
      HeadLeaves(s.(firstFlusher := None, holder := Prep(me, |s.pwqs|, false, AsNextFirst)), me);
  }

  lemma {:induction false} ScanReadsColors(queue: seq<nat>, flushers: seq<Flusher>, flushers': seq<Flusher>, color: int)
    requires |flushers'| == |flushers| && forall f | 0 <= f < |flushers| :: flushers'[f].flushColor == flushers[f].flushColor
    ensures ScanLength(queue, flushers', color) == ScanLength(queue, flushers, color)
  {
    if queue != [] { ScanReadsColors(queue[1..], flushers, flushers', color); }
  }

  lemma HeadLeaves(s: State, me: nat)
    requires Drained(s, me)
    ensures var s' := CascadeHead(s, me);
      var next := NextFlusher(s);
      && (next.Some? ==> Real(s', next))
      && (next.None? ==> s'.holder.Free? && s'.firstFlusher.None? && s'.flusherQueue == [] && s'.flushColor == s'.workColor)
      && (if s.flusherOverflow != [] then s'.holder.Prep? && s'.holder.resume == AfterOverflow(next) else s'.firstFlusher == next)
      && s'.flusherOverflow == []
  {
    ListedLive(s, me);
    hide Drained, SomeGone, ScanLength, Gone;
    ScanRetires(s, me);
    HeadHalves(s, me);
    HeadIsNext(Scanned(s), me);
    if s.flusherOverflow != [] {
      SplicedNext(Scanned(s), me);
    } else {
      TailNext(Scanned(s), me);
    }
  }

  lemma SplicedNext(s: State, me: nat)
    requires Retired(s, me) && s.flusherOverflow != []
    ensures s.flusherQueue != [] && Real(Spliced(s, me), Head(s.flusherQueue))
  {
    SpliceInv(s, me);
    HeadIsNext(s, me);
    ListedLive(s, me);
    assert FlusherOk(s, s.flusherQueue[0]);
    SameColorSameEpoch(Spliced(s, me));
  }

  lemma TailNext(s: State, me: nat)
    requires Retired(s, me) && s.flusherOverflow == []
    ensures var s' := CascadeTail(s, me, Head(s.flusherQueue));
      && (s.flusherQueue != [] ==> Real(s', Head(s.flusherQueue)))
      && (s.flusherQueue == [] ==> s'.holder.Free? && s'.flushColor == s'.workColor)
      && s'.firstFlusher == Head(s.flusherQueue)
  {
    HeadIsNext(s, me);
    ListedLive(s, me);
  }

  /** While the overflowed flushers get their pwqs advanced, the queue starts with a flusher of the flush epoch. */
  lemma KeptIsOldest(s: State)
    requires Inv(s) && s.holder.Prep? && s.holder.resume.AfterOverflow?
    ensures s.flusherQueue != [] && s.flushers[s.flusherQueue[0]].epoch == s.flushEpoch < s.workEpoch
  {
    assert Covered(s.flusherQueue, s.flushers, s.flushEpoch);
  }

  /** The pointer kept while the overflowed flushers get their pwqs advanced stays real, and then becomes the first flusher. */
  lemma KeptNextIsReal(states: seq<State>, actions: seq<Action>, j: nat)
    requires IsRun(states, actions) && j < |states|
    requires states[j].holder.Prep? && states[j].holder.resume.AfterOverflow?
    ensures var s := states[j];
      var next := s.holder.resume.next;
      && Real(s, next) && s.flusherQueue != [] && s.flusherQueue[0] == next.value
      && (j < |actions| && actions[j].EndA? ==> states[j + 1].firstFlusher == next)
  {
    RunInv(states, actions, j);
    var s := states[j];
    assert FlusherOk(s, s.flusherQueue[0]);
    KeptIsOldest(s);
    SameColorSameEpoch(s);
    if j < |actions| && actions[j].EndA? {
      assert Step(states[j], actions[j], states[j + 1]);
    }
  }

  lemma HeadIsNext(s: State, me: nat)
    requires Retired(s, me)
    ensures
      && (s.flusherOverflow != [] ==> s.flusherQueue != [])
      && (s.flusherQueue == [] ==> s.flushColor == s.workColor)
      && (s.flusherQueue != [] ==>
            s.flusherQueue[0] < |s.flushers| && s.flushers[s.flusherQueue[0]].flushColor == s.flushColor
            && s.flushColor != s.workColor)
  {
    NextIsOldest(s, me);
    SameColorSameEpoch(s);
    if s.flusherQueue != [] { assert FlusherOk(s, s.flusherQueue[0]); }
  }

  lemma SameColorSameEpoch(s: State)
    requires EpochsOk(s)
    ensures s.flushColor == s.workColor <==> s.flushEpoch == s.workEpoch
  {
    if s.flushColor == s.workColor { ColorsAreInjective(s.workEpoch, s.flushEpoch, s.flushEpoch); }
  }

  /**
   A run never completes, scans, colours or promotes a flusher through a null pointer or one whose call has
   returned, and no guard on an array index ever blocks.
   */
  lemma RunNeverCrashes(states: seq<State>, actions: seq<Action>, j: nat)
    requires IsRun(states, actions) && j < |states|
    ensures var s := states[j];
      && !s.holder.Crashed?
      && (s.holder.Free? ==> forall p: nat | p < |s.pwqs| :: CanQueueWork(s, p))
      && (forall p: nat, item | p < |s.pwqs| && item in s.pwqs[p].inFlight :: CanFinish(s, p, item))
      && (s.holder.Prep? ==> CanPrepPwq(s) || CanPrepEnd(s))
  {
    RunInv(states, actions, j);
    var s := states[j];
    forall p: nat | p < |s.pwqs| ensures 0 <= s.pwqs[p].workColor < |s.pwqs[p].nrInFlight| == WORK_NR_COLORS
      && forall item | item in s.pwqs[p].inFlight :: CanFinish(s, p, item)
    {
      assert PwqOk(s, p);
      forall item | item in s.pwqs[p].inFlight ensures CanFinish(s, p, item) { assert ItemOk(s, p, item); }
    }
  }
}
