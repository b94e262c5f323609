/**
 The colour-based flushing protocol of a workqueue, as a state machine whose
 steps are the critical sections of wq->mutex and of pool->lock.

 Colours are reused modulo WORK_NR_COLORS.  To say what a colour meant when it
 was handed out, the state carries history variables: every advance of the
 work colour opens a new, never reused epoch, and every queued work item and
 every flusher remembers the epoch (and the ticket) it got.  No step branches
 on a history variable.
 */
module FlushProtocol {
  import opened Options
  import opened WorkColors

  function NextColor(color: int): int {
    (color + 1) % WORK_NR_COLORS
  }

  // ---------- state ----------

  /** A coloured work item in flight; ticket and epoch are history. */
  datatype Item = Item(ticket: nat, color: int, epoch: nat)

  /** The part of a pool_workqueue that takes part in flushing. */
  datatype Pwq = Pwq(workColor: int, flushColor: int, nrInFlight: seq<int>, inFlight: set<Item>)

  /** Where the thread calling flush currently is. */
  datatype Pc = InMutex | Waiting | Woken | Relock | Cascading | Returned

  /** A wq_flusher on the stack of its caller.  startTicket, colorTicket and epoch are history. */
  datatype Flusher = Flusher(flushColor: int, done: nat, pc: Pc,
                             startTicket: nat, colorTicket: nat, epoch: nat)

  /** What the caller of flush_workqueue_prep_pwqs does once the pwqs have been visited.  AsNextDone: the next first
      flusher had nothing to wait for; it has been completed, and first_flusher is about to be cleared. */
  datatype Resume = AsFirst | AsQueued | AfterOverflow(next: Option<nat>) | AsNextFirst | AsNextDone

  /** The holder of wq->mutex between two pool->lock sections.  Crashed stands for completing,
      scanning, colouring or promoting a flusher through a null or a stale pointer. */
  datatype Holder = Free | Prep(owner: nat, idx: nat, wait: bool, resume: Resume) | Crashed

  datatype State = State(
    workColor: int,
    flushColor: int,
    nrPwqsToFlush: int,
    firstFlusher: Option<nat>,
    flusherQueue: seq<nat>,
    flusherOverflow: seq<nat>,
    flushers: seq<Flusher>,
    pwqs: seq<Pwq>,
    holder: Holder,
    // history
    nextTicket: nat,
    workEpoch: nat,
    flushEpoch: nat)

  predicate Arms(resume: Resume) {
    resume.AsFirst? || resume.AsNextFirst?
  }

  predicate Advances(resume: Resume) {
    resume.AsFirst? || resume.AsQueued? || resume.AfterOverflow?
  }

  // ---------- steps ----------

  predicate Init(s: State) {
    && s.workColor == 0 && s.flushColor == 0 && s.nrPwqsToFlush == 0
    && s.firstFlusher == None && s.flusherQueue == [] && s.flusherOverflow == []
    && s.flushers == [] && s.holder == Free
    && s.workEpoch == 0 && s.flushEpoch == 0
    && forall p | 0 <= p < |s.pwqs| ::
         s.pwqs[p] == Pwq(0, -1, seq(WORK_NR_COLORS, _ => 0), {})
  }

  /** __queue_work: takes both wq->mutex and pool->lock, so it excludes any flush holding the mutex. */
  predicate CanQueueWork(s: State, p: nat) {
    s.holder.Free? && p < |s.pwqs| && 0 <= s.pwqs[p].workColor < |s.pwqs[p].nrInFlight|
  }

  function QueueWork(s: State, p: nat): State
    requires CanQueueWork(s, p)
  {
    var pwq := s.pwqs[p];
    var item := Item(s.nextTicket, pwq.workColor, s.workEpoch);
    var pwq' := pwq.(nrInFlight := pwq.nrInFlight[pwq.workColor := pwq.nrInFlight[pwq.workColor] + 1],
                     inFlight := pwq.inFlight + {item});
    s.(pwqs := s.pwqs[p := pwq'], nextTicket := s.nextTicket + 1)
  }

  /** A flusher lives on the stack of its caller: once the call has returned, pointers to it are stale. */
  predicate Gone(flushers: seq<Flusher>, f: nat) {
    f < |flushers| ==> flushers[f].pc.Returned?
  }

  predicate SomeGone(flushers: seq<Flusher>, ids: seq<nat>) {
    exists i :: 0 <= i < |ids| && Gone(flushers, ids[i])
  }

  /** util_complete */
  function Complete(flushers: seq<Flusher>, f: nat): (r: seq<Flusher>)
    requires f < |flushers|
  {
    flushers[f := flushers[f].(done := flushers[f].done + 1)]
  }

  /** atomic_dec_and_test of nr_pwqs_to_flush, completing the first flusher at zero. */
  function DecPwqsToFlush(s: State): State {
    var s' := s.(nrPwqsToFlush := s.nrPwqsToFlush - 1);
    if s'.nrPwqsToFlush != 0 then s'
    else if s.firstFlusher.Some? && !Gone(s.flushers, s.firstFlusher.value) then
      s'.(flushers := Complete(s.flushers, s.firstFlusher.value))
    else s'.(holder := Crashed)
  }

  /** A coloured item leaves the queue: its function returned or it was grabbed back. */
  predicate CanFinish(s: State, p: nat, item: Item) {
    && p < |s.pwqs| && item in s.pwqs[p].inFlight
    && 0 <= item.color < |s.pwqs[p].nrInFlight|
    && !s.holder.Crashed?
  }

  /** The flush half of pwq_dec_nr_in_flight. */
  function Finish(s: State, p: nat, item: Item): State
    requires CanFinish(s, p, item)
  {
    var c := item.color;
    var pwq := s.pwqs[p];
    var left := pwq.nrInFlight[c] - 1;
    var pwq1 := pwq.(nrInFlight := pwq.nrInFlight[c := left], inFlight := pwq.inFlight - {item});
    if pwq1.flushColor != c || left != 0 then
      s.(pwqs := s.pwqs[p := pwq1])
    else
      DecPwqsToFlush(s.(pwqs := s.pwqs[p := pwq1.(flushColor := -1)]))
  }

  /** The start-to-wait phase of util_flush_workqueue, up to its first pool->lock section. */
  function FlushStart(s: State): State
    requires s.holder.Free?
  {
    var me := |s.flushers|;
    var nextColor := NextColor(s.workColor);
    if nextColor != s.flushColor then
      var this_ := Flusher(s.workColor, 0, InMutex, s.nextTicket, s.nextTicket, s.workEpoch);
      var s1 := s.(flushers := s.flushers + [this_], workColor := nextColor, workEpoch := s.workEpoch + 1);
      if s.firstFlusher.None? then
        s1.(firstFlusher := Some(me), nrPwqsToFlush := 1, holder := Prep(me, 0, false, AsFirst))
      else
        s1.(flusherQueue := s.flusherQueue + [me], holder := Prep(me, 0, false, AsQueued))
    else
      var this_ := Flusher(-1, 0, Waiting, s.nextTicket, 0, 0);
      s.(flushers := s.flushers + [this_], flusherOverflow := s.flusherOverflow + [me])
  }

  /** One iteration of the loop of flush_workqueue_prep_pwqs. */
  predicate CanPrepPwq(s: State) {
    && s.holder.Prep? && s.holder.idx < |s.pwqs|
    && 0 <= s.flushColor < |s.pwqs[s.holder.idx].nrInFlight|
  }

  function PrepPwq(s: State): State
    requires CanPrepPwq(s)
  {
    var i := s.holder.idx;
    var pwq := s.pwqs[i];
    var arm := Arms(s.holder.resume) && pwq.nrInFlight[s.flushColor] != 0;
    var pwq1 := if arm then pwq.(flushColor := s.flushColor) else pwq;
    var pwq2 := if Advances(s.holder.resume) then pwq1.(workColor := s.workColor) else pwq1;
    s.(pwqs := s.pwqs[i := pwq2],
       nrPwqsToFlush := if arm then s.nrPwqsToFlush + 1 else s.nrPwqsToFlush,
       holder := s.holder.(idx := i + 1, wait := s.holder.wait || arm))
  }

  function SetPc(flushers: seq<Flusher>, f: nat, pc: Pc): seq<Flusher>
    requires f < |flushers|
  {
    flushers[f := flushers[f].(pc := pc)]
  }

  /** How many flushers at the front of the queue share the given colour. */
  function ScanLength(queue: seq<nat>, flushers: seq<Flusher>, color: int): (k: nat)
    ensures k <= |queue|
  {
    if queue != [] && queue[0] < |flushers| && flushers[queue[0]].flushColor == color
    then 1 + ScanLength(queue[1..], flushers, color) else 0
  }

  function CompleteAll(flushers: seq<Flusher>, ids: seq<nat>): (r: seq<Flusher>)
    ensures |r| == |flushers|
  {
    seq(|flushers|, i requires 0 <= i < |flushers| =>
      if i in ids then flushers[i].(done := flushers[i].done + 1) else flushers[i])
  }

  function AssignColor(flushers: seq<Flusher>, ids: seq<nat>, color: int, ticket: nat, epoch: nat): (r: seq<Flusher>)
    ensures |r| == |flushers|
  {
    seq(|flushers|, i requires 0 <= i < |flushers| =>
      if i in ids then flushers[i].(flushColor := color, colorTicket := ticket, epoch := epoch) else flushers[i])
  }

  /** list_del */
  function Unlink(queue: seq<nat>, f: nat): seq<nat> {
    if queue == [] then []
    else if queue[0] == f then queue[1..]
    else [queue[0]] + Unlink(queue[1..], f)
  }

  /** The flusher on which the scan stops. */
  function NextFlusher(s: State): Option<nat> {
    var k := ScanLength(s.flusherQueue, s.flushers, s.flushColor);
    if k == |s.flusherQueue| then None else Some(s.flusherQueue[k])
  }

  /** The body of the cascade loop up to the handling of the overflow list. */
  function CascadeHead(s: State, me: nat): State
    requires me < |s.flushers|
  {
    if SomeGone(s.flushers, s.flusherQueue) || SomeGone(s.flushers, s.flusherOverflow) then s.(holder := Crashed) else
    var k := ScanLength(s.flusherQueue, s.flushers, s.flushColor);
    var rest := s.flusherQueue[k..];
    var next := NextFlusher(s);
    var s1 := s.(flushers := CompleteAll(s.flushers, s.flusherQueue[..k]), flusherQueue := rest,
                 flushColor := NextColor(s.flushColor), flushEpoch := s.flushEpoch + 1);
    if s.flusherOverflow != [] then
      s1.(flushers := AssignColor(s1.flushers, s.flusherOverflow, s.workColor, s.nextTicket, s.workEpoch),
          workColor := NextColor(s.workColor), workEpoch := s.workEpoch + 1,
          flusherQueue := rest + s.flusherOverflow, flusherOverflow := [],
          holder := Prep(me, 0, false, AfterOverflow(next)))
    else CascadeTail(s1, me, next)
  }

  /** The rest of the cascade loop body: promote the next flusher and start arming the pwqs. */
  function CascadeTail(s: State, me: nat, next: Option<nat>): State
    requires me < |s.flushers|
  {
    if s.flusherQueue == [] then
      s.(flushers := SetPc(s.flushers, me, Returned), holder := Free)
    else if next.None? || Gone(s.flushers, next.value) then s.(holder := Crashed)
    else
      s.(flusherQueue := Unlink(s.flusherQueue, next.value), firstFlusher := next, nrPwqsToFlush := 1,
         holder := Prep(me, 0, false, AsNextFirst))
  }

  /** The end of flush_workqueue_prep_pwqs and what its caller does with the result. */
  predicate CanPrepEnd(s: State) {
    s.holder.Prep? && s.holder.idx == |s.pwqs| && s.holder.owner < |s.flushers|
  }

  function PrepEnd(s: State): State
    requires CanPrepEnd(s)
  {
    var Prep(me, _, wait, resume) := s.holder;
    var s1 := if Arms(resume) then DecPwqsToFlush(s) else s;
    if s1.holder.Crashed? then s1 else
    match resume
    case AsFirst =>
      if wait then s1.(flushers := SetPc(s1.flushers, me, Waiting), holder := Free)
      else s1.(flushColor := s.workColor, flushEpoch := s.flushEpoch + 1, firstFlusher := None,
               flushers := SetPc(s1.flushers, me, Returned), holder := Free)
    case AsQueued =>
      s1.(flushers := SetPc(s1.flushers, me, Waiting), holder := Free)
    case AfterOverflow(next) =>
      CascadeTail(s1, me, next)
    case AsNextFirst =>
      if wait then s1.(flushers := SetPc(s1.flushers, me, Returned), holder := Free)
      else s1.(holder := Prep(me, s.holder.idx, false, AsNextDone))
    case AsNextDone =>
      CascadeHead(s1.(firstFlusher := None), me)
  }

  /** util_wait_for_completion returns */
  predicate CanWake(s: State, f: nat) {
    f < |s.flushers| && s.flushers[f].pc.Waiting? && s.flushers[f].done > 0 && !s.holder.Crashed?
  }

  function Wake(s: State, f: nat): State
    requires CanWake(s, f)
  {
    s.(flushers := s.flushers[f := s.flushers[f].(done := s.flushers[f].done - 1, pc := Woken)])
  }

  /** The unlocked look at first_flusher. */
  predicate CanCheckFirst(s: State, f: nat) {
    f < |s.flushers| && s.flushers[f].pc.Woken? && !s.holder.Crashed?
  }

  function CheckFirst(s: State, f: nat): State
    requires CanCheckFirst(s, f)
  {
    s.(flushers := SetPc(s.flushers, f, if s.firstFlusher == Some(f) then Relock else Returned))
  }

  /** The mutex is taken again and the wake-up-and-cascade phase begins. */
  predicate CanCascade(s: State, f: nat) {
    f < |s.flushers| && s.flushers[f].pc.Relock? && s.holder.Free?
  }

  function Cascade(s: State, f: nat): State
    requires CanCascade(s, f)
  {
    if s.firstFlusher != Some(f) then s.(flushers := SetPc(s.flushers, f, Returned))
    else CascadeHead(s.(firstFlusher := None, flushers := SetPc(s.flushers, f, Cascading)), f)
  }

  datatype Action = QueueA(p: nat) | FinishA(p: nat, item: Item) | FlushA | PrepA | EndA
                  | WakeA(f: nat) | CheckA(f: nat) | CascadeA(f: nat)

  predicate Step(s: State, a: Action, s': State) {
    match a
    case QueueA(p) => CanQueueWork(s, p) && s' == QueueWork(s, p)
    case FinishA(p, item) => CanFinish(s, p, item) && s' == Finish(s, p, item)
    case FlushA => s.holder.Free? && s' == FlushStart(s)
    case PrepA => CanPrepPwq(s) && s' == PrepPwq(s)
    case EndA => CanPrepEnd(s) && s' == PrepEnd(s)
    case WakeA(f) => CanWake(s, f) && s' == Wake(s, f)
    case CheckA(f) => CanCheckFirst(s, f) && s' == CheckFirst(s, f)
    case CascadeA(f) => CanCascade(s, f) && s' == Cascade(s, f)
  }
}
