/**
 A worker pool and the pwqs that it serves (workqueue.c), as a state machine whose steps are the
 critical sections of pool->lock.
 */
module PoolProtocol {
  import opened WorkColors
  import opened Options
  import opened PoolLists

  /** started, the ticket of the item started last, is history. */
  datatype Pwq = Pwq(refcnt: int, workColor: int, nrInFlight: seq<int>, nrActive: int, maxActive: int, delayedWorks: seq<Entry>, started: int)

  datatype Worker = Worker(current: Option<Entry>, scheduled: seq<Entry>)

  /** pending holds the ids whose PENDING bit is set. */
  datatype State = State(worklist: seq<Entry>, pwqs: seq<Pwq>, workers: seq<Worker>, pending: set<nat>, nextTicket: nat)

  predicate Init(s: State) {
    && s.worklist == [] && s.pending == {} && s.nextTicket == 0
    && (forall w | 0 <= w < |s.workers| :: s.workers[w] == Worker(None, []))
    && forall p | 0 <= p < |s.pwqs| ::
         var q := s.pwqs[p];
         q.maxActive > 0 && 0 <= q.workColor < WORK_NR_COLORS && q == Pwq(1, q.workColor, seq(WORK_NR_COLORS, _ => 0), 0, q.maxActive, [], -1)
  }

  // ---------- steps ----------

  /** A flush gives the pwq another colour to work with. */
  predicate CanSetColor(s: State, p: nat, c: int) {
    p < |s.pwqs| && 0 <= c < WORK_NR_COLORS
  }

  function SetColor(s: State, p: nat, c: int): State
    requires CanSetColor(s, p, c)
  {
    s.(pwqs := s.pwqs[p := s.pwqs[p].(workColor := c)])
  }

  /** util_queue_work: the PENDING bit was clear, and now is set. */
  predicate CanQueue(s: State, p: nat, id: nat) {
    p < |s.pwqs| && id !in s.pending && 0 <= s.pwqs[p].workColor < |s.pwqs[p].nrInFlight|
  }

  /** __queue_work: beyond max_active, items are delayed. */
  function Queue(s: State, p: nat, id: nat): State
    requires CanQueue(s, p, id)
  {
    var q := s.pwqs[p];
    var c := q.workColor;
    var e := Entry(id, p, c, false, s.nextTicket);
    var q1 := q.(nrInFlight := q.nrInFlight[c := q.nrInFlight[c] + 1], refcnt := q.refcnt + 1);
    var s1 := s.(pending := s.pending + {id}, nextTicket := s.nextTicket + 1);
    if q.nrActive < q.maxActive then
      s1.(pwqs := s.pwqs[p := q1.(nrActive := q.nrActive + 1)], worklist := s.worklist + [e])
    else
      s1.(pwqs := s.pwqs[p := q1.(delayedWorks := q.delayedWorks + [e])])
  }

  /** pwq_activate_delayed_work: the item at i, with the barriers linked to it, goes to the worklist. */
  function Activate(s: State, p: nat, i: nat): State
    requires p < |s.pwqs| && i < |s.pwqs[p].delayedWorks|
  {
    var q := s.pwqs[p];
    var d := q.delayedWorks;
    var j := RunEnd(d, i);
    s.(worklist := s.worklist + d[i..j], pwqs := s.pwqs[p := q.(delayedWorks := d[..i] + d[j..], nrActive := q.nrActive + 1)])
  }

  /** pwq_dec_nr_in_flight without its flushing part. */
  function Dec(s: State, p: nat, c: int): State
    requires p < |s.pwqs| && (c != WORK_NO_COLOR ==> 0 <= c < |s.pwqs[p].nrInFlight|)
  {
    var q := s.pwqs[p];
    if c == WORK_NO_COLOR then Put(s, p)
    else
      var s1 := s.(pwqs := s.pwqs[p := q.(nrInFlight := q.nrInFlight[c := q.nrInFlight[c] - 1], nrActive := q.nrActive - 1)]);
      var s2 := if q.delayedWorks != [] && q.nrActive - 1 < q.maxActive then Activate(s1, p, 0) else s1;
      Put(s2, p)
  }

  /** put_pwq */
  function Put(s: State, p: nat): State
    requires p < |s.pwqs|
  {
    s.(pwqs := s.pwqs[p := s.pwqs[p].(refcnt := s.pwqs[p].refcnt - 1)])
  }

  /** Where a queued item is. */
  datatype Place = InWorklist(i: nat) | InScheduled(w: nat, i: nat) | InDelayed(p: nat, i: nat)

  predicate Exists(s: State, at: Place) {
    match at
    case InWorklist(i) => i < |s.worklist|
    case InScheduled(w, i) => w < |s.workers| && i < |s.workers[w].scheduled|
    case InDelayed(p, i) => p < |s.pwqs| && i < |s.pwqs[p].delayedWorks|
  }

  function At(s: State, at: Place): Entry
    requires Exists(s, at)
  {
    match at
    case InWorklist(i) => s.worklist[i]
    case InScheduled(w, i) => s.workers[w].scheduled[i]
    case InDelayed(p, i) => s.pwqs[p].delayedWorks[i]
  }

  /** list_del_init of an active item */
  function Without(s: State, at: Place): State
    requires Exists(s, at) && !at.InDelayed?
  {
    match at
    case InWorklist(i) => s.(worklist := s.worklist[..i] + s.worklist[i + 1..])
    case InScheduled(w, i) =>
      var l := s.workers[w].scheduled;
      s.(workers := s.workers[w := s.workers[w].(scheduled := l[..i] + l[i + 1..])])
  }

  predicate CanGrab(s: State, at: Place) {
    Exists(s, at) && var e := At(s, at); Colored(e) && e.pwq < |s.pwqs| && 0 <= e.color < |s.pwqs[e.pwq].nrInFlight|
  }

  /** try_to_grab_pending: takes back an item; a delayed one is activated first.  PENDING stays set. */
  function Grab(s: State, at: Place): State
    requires CanGrab(s, at)
  {
    var e := At(s, at);
    if at.InDelayed? then
      Dec(Without(Activate(s, at.p, at.i), InWorklist(|s.worklist|)), e.pwq, e.color)
    else
      Dec(Without(s, at), e.pwq, e.color)
  }

  /** try_to_grab_pending, when the item is idle: its PENDING bit is set. */
  predicate CanClaim(s: State, id: nat) {
    id !in s.pending
  }

  function Claim(s: State, id: nat): State {
    s.(pending := s.pending + {id})
  }

  /** The owner of a grabbed item clears PENDING. */
  ghost predicate CanRelease(s: State, id: nat) {
    id in s.pending && forall at: Place | Exists(s, at) :: At(s, at).id != id
  }

  function Release(s: State, id: nat): State {
    s.(pending := s.pending - {id})
  }

  /** insert_wq_barrier behind a queued item. */
  predicate CanBarrier(s: State, at: Place, id: nat) {
    Exists(s, at) && id !in s.pending && At(s, at).pwq < |s.pwqs|
  }

  function Get(s: State, p: nat, id: nat): State
    requires p < |s.pwqs|
  {
    s.(pwqs := s.pwqs[p := s.pwqs[p].(refcnt := s.pwqs[p].refcnt + 1)], pending := s.pending + {id}, nextTicket := s.nextTicket + 1)
  }

  function Barrier(s: State, at: Place, id: nat): State
    requires CanBarrier(s, at, id)
  {
    var s1 := Get(s, At(s, at).pwq, id);
    match at
    case InWorklist(i) => s1.(worklist := WithBarrier(s.worklist, i, id, s.nextTicket))
    case InScheduled(w, i) => s1.(workers := s.workers[w := s.workers[w].(scheduled := WithBarrier(s.workers[w].scheduled, i, id, s.nextTicket))])
    case InDelayed(p, i) => s1.(pwqs := s1.pwqs[p := s1.pwqs[p].(delayedWorks := WithBarrier(s.pwqs[p].delayedWorks, i, id, s.nextTicket))])
  }

  /** insert_wq_barrier for a running item: next in line at its worker. */
  predicate CanBarrierRunning(s: State, w: nat, id: nat) {
    w < |s.workers| && s.workers[w].current.Some? && id !in s.pending && s.workers[w].current.value.pwq < |s.pwqs|
  }

  function BarrierRunning(s: State, w: nat, id: nat): State
    requires CanBarrierRunning(s, w, id)
  {
    var p := s.workers[w].current.value.pwq;
    var b := Entry(id, p, WORK_NO_COLOR, false, s.nextTicket);
    Get(s, p, id).(workers := s.workers[w := s.workers[w].(scheduled := [b] + s.workers[w].scheduled)])
  }

  /** find_worker_executing_work */
  predicate Runs(s: State, v: nat, id: nat) {
    v < |s.workers| && s.workers[v].current.Some? && s.workers[v].current.value.id == id
  }

  predicate Collides(s: State, id: nat) {
    exists v | 0 <= v < |s.workers| :: Runs(s, v, id)
  }

  /** An idle worker moves a linked run from the worklist to its own list. */
  predicate CanTakeRun(s: State, w: nat) {
    w < |s.workers| && s.workers[w] == Worker(None, []) && s.worklist != [] && s.worklist[0].linked
  }

  function TakeRun(s: State, w: nat): State
    requires CanTakeRun(s, w)
  {
    var j := RunEnd(s.worklist, 0);
    s.(worklist := s.worklist[j..], workers := s.workers[w := s.workers[w].(scheduled := s.workers[w].scheduled + s.worklist[..j])])
  }

  /** process_one_work, when another worker v runs the item: the run waits there. */
  predicate CanDefer(s: State, w: nat, v: nat, fromWorklist: bool) {
    && w < |s.workers| && s.workers[w].current.None?
    && (if fromWorklist then s.workers[w].scheduled == [] && s.worklist != [] && !s.worklist[0].linked && Runs(s, v, s.worklist[0].id)
        else s.workers[w].scheduled != [] && Runs(s, v, s.workers[w].scheduled[0].id))
  }

  function Defer(s: State, w: nat, v: nat, fromWorklist: bool): State
    requires CanDefer(s, w, v, fromWorklist)
  {
    if fromWorklist then
      var j := RunEnd(s.worklist, 0);
      s.(worklist := s.worklist[j..], workers := s.workers[v := s.workers[v].(scheduled := s.workers[v].scheduled + s.worklist[..j])])
    else
      var l := s.workers[w].scheduled;
      var j := RunEnd(l, 0);
      var ws := s.workers[w := s.workers[w].(scheduled := l[j..])];
      s.(workers := ws[v := ws[v].(scheduled := ws[v].scheduled + l[..j])])
  }

  /** process_one_work, when nobody runs the item: the worker claims it, and PENDING is cleared. */
  predicate CanStart(s: State, w: nat, fromWorklist: bool) {
    && w < |s.workers| && s.workers[w].current.None?
    && (if fromWorklist then s.workers[w].scheduled == [] && s.worklist != [] && !s.worklist[0].linked && !Collides(s, s.worklist[0].id)
        else s.workers[w].scheduled != [] && !Collides(s, s.workers[w].scheduled[0].id))
  }

  function Next(s: State, w: nat, fromWorklist: bool): Entry
    requires CanStart(s, w, fromWorklist)
  {
    if fromWorklist then s.worklist[0] else s.workers[w].scheduled[0]
  }

  /** History: the pwq's item started last. */
  function Started(s: State, e: Entry): State {
    if Colored(e) && e.pwq < |s.pwqs| then s.(pwqs := s.pwqs[e.pwq := s.pwqs[e.pwq].(started := e.ticket)]) else s
  }

  function Start(s: State, w: nat, fromWorklist: bool): State
    requires CanStart(s, w, fromWorklist)
  {
    var e := Next(s, w, fromWorklist);
    var s1 := Started(s.(pending := s.pending - {e.id}), e);
    if fromWorklist then
      s1.(worklist := s.worklist[1..], workers := s.workers[w := s.workers[w].(current := Some(e))])
    else
      s1.(workers := s.workers[w := Worker(Some(e), s.workers[w].scheduled[1..])])
  }

  /** process_one_work, after the item's function has returned. */
  predicate CanFinish(s: State, w: nat) {
    && w < |s.workers| && s.workers[w].current.Some?
    && var e := s.workers[w].current.value;
       e.pwq < |s.pwqs| && (Colored(e) ==> 0 <= e.color < |s.pwqs[e.pwq].nrInFlight|)
  }

  function Finish(s: State, w: nat): State
    requires CanFinish(s, w)
  {
    var e := s.workers[w].current.value;
    Dec(s.(workers := s.workers[w := s.workers[w].(current := None)]), e.pwq, e.color)
  }

  datatype Step =
    | DoSetColor(p: nat, c: int)
    | DoQueue(p: nat, id: nat)
    | DoGrab(at: Place)
    | DoClaim(id: nat)
    | DoRelease(id: nat)
    | DoBarrier(at: Place, id: nat)
    | DoBarrierRunning(w: nat, id: nat)
    | DoTakeRun(w: nat)
    | DoDefer(w: nat, v: nat, fromWorklist: bool)
    | DoStart(w: nat, fromWorklist: bool)
    | DoFinish(w: nat)

  ghost predicate Enabled(s: State, step: Step) {
    match step
    case DoSetColor(p, c) => CanSetColor(s, p, c)
    case DoQueue(p, id) => CanQueue(s, p, id)
    case DoGrab(at) => CanGrab(s, at)
    case DoClaim(id) => CanClaim(s, id)
    case DoRelease(id) => CanRelease(s, id)
    case DoBarrier(at, id) => CanBarrier(s, at, id)
    case DoBarrierRunning(w, id) => CanBarrierRunning(s, w, id)
    case DoTakeRun(w) => CanTakeRun(s, w)
    case DoDefer(w, v, fromWorklist) => CanDefer(s, w, v, fromWorklist)
    case DoStart(w, fromWorklist) => CanStart(s, w, fromWorklist)
    case DoFinish(w) => CanFinish(s, w)
  }

  ghost function Apply(s: State, step: Step): State
    requires Enabled(s, step)
  {
    match step
    case DoSetColor(p, c) => SetColor(s, p, c)
    case DoQueue(p, id) => Queue(s, p, id)
    case DoGrab(at) => Grab(s, at)
    case DoClaim(id) => Claim(s, id)
    case DoRelease(id) => Release(s, id)
    case DoBarrier(at, id) => Barrier(s, at, id)
    case DoBarrierRunning(w, id) => BarrierRunning(s, w, id)
    case DoTakeRun(w) => TakeRun(s, w)
    case DoDefer(w, v, fromWorklist) => Defer(s, w, v, fromWorklist)
    case DoStart(w, fromWorklist) => Start(s, w, fromWorklist)
    case DoFinish(w) => Finish(s, w)
  }
}
