/**
 The code of workqueue.c that runs under pool->lock, as a class whose methods update its fields in
 place.  Each method is a step of PoolProtocol and keeps its invariant.
 */
module WorkerPool {
  import opened WorkColors
  import opened Options
  import opened PoolLists
  import opened PoolProtocol
  import opened PoolInvariant
  import opened PoolSteps
  import opened PoolTheorems

  const EAGAIN: int := 11
  const ENOENT: int := 2

  class Pool {
    var worklist: seq<Entry>
    var pwqs: seq<Pwq>
    var workers: seq<Worker>
    var pending: set<nat>
    // history: never read by a branch
    var nextTicket: nat

    function View(): State
      reads this
    {
      State(worklist, pwqs, workers, pending, nextTicket)
    }

    constructor (maxActive: seq<int>, nrWorkers: nat)
      requires forall p | 0 <= p < |maxActive| :: maxActive[p] > 0
      ensures Init(View()) && Inv(View()) && |pwqs| == |maxActive| && |workers| == nrWorkers
    {
      worklist, pending, nextTicket := [], {}, 0;
      pwqs := seq(|maxActive|, p requires 0 <= p < |maxActive| => Pwq(1, 0, seq(WORK_NR_COLORS, _ => 0), 0, maxActive[p], [], -1));
      workers := seq(nrWorkers, _ => Worker(None, []));
      new;
      InitInv(View());
    }

    /** util_queue_work: an item whose PENDING bit is set is left alone. */
    method QueueWork(p: nat, id: nat) returns (queued: bool)
      requires Inv(View()) && p < |pwqs|
      modifies this
      ensures Inv(View()) && queued == (id !in old(pending))
      ensures View() == if queued then Queue(old(View()), p, id) else old(View())
    {
      hide Inv, Queue;
      if id in pending {
        return false;
      }
      Queueable(View(), p, id);
      QueueInv(View(), p, id);
      Enqueue(p, id);
      return true;
    }

    /** __queue_work */
    method Enqueue(p: nat, id: nat)
      requires CanQueue(View(), p, id)
      modifies this
      ensures View() == Queue(old(View()), p, id)
    {
      pending := pending + {id};
      var pwq := pwqs[p];
      var color := pwq.workColor;
      var work := Entry(id, p, color, false, nextTicket);
      nextTicket := nextTicket + 1;
      pwq := pwq.(nrInFlight := pwq.nrInFlight[color := pwq.nrInFlight[color] + 1]);
      if pwq.nrActive < pwq.maxActive {
        pwq := pwq.(nrActive := pwq.nrActive + 1);
        worklist := worklist + [work];
      } else {
        pwq := pwq.(delayedWorks := pwq.delayedWorks + [work]);
      }
      pwqs := pwqs[p := pwq.(refcnt := pwq.refcnt + 1)];
    }

    /** move_linked_works: up to the first item that is not linked. */
    method RunLength(l: seq<Entry>, i: nat) returns (j: nat)
      requires i < |l|
      ensures j == RunEnd(l, i)
    {
      j := i;
      while l[j].linked && j + 1 < |l|
        invariant i <= j < |l| && RunEnd(l, i) == RunEnd(l, j)
        decreases |l| - j
      {
        j := j + 1;
      }
      j := j + 1;
    }

    /** pwq_activate_delayed_work */
    method ActivateDelayed(p: nat, i: nat)
      requires p < |pwqs| && i < |pwqs[p].delayedWorks|
      modifies this`worklist, this`pwqs
      ensures View() == Activate(old(View()), p, i)
    {
      var pwq := pwqs[p];
      var j := RunLength(pwq.delayedWorks, i);
      worklist := worklist + pwq.delayedWorks[i..j];
      pwqs := pwqs[p := pwq.(delayedWorks := pwq.delayedWorks[..i] + pwq.delayedWorks[j..], nrActive := pwq.nrActive + 1)];
    }

    /** pwq_dec_nr_in_flight, without its flushing part */
    method DecNrInFlight(p: nat, color: int)
      requires p < |pwqs| && (color != WORK_NO_COLOR ==> 0 <= color < |pwqs[p].nrInFlight|)
      modifies this`worklist, this`pwqs
      ensures View() == Dec(old(View()), p, color)
    {
      if color != WORK_NO_COLOR {
        var pwq := pwqs[p];
        pwqs := pwqs[p := pwq.(nrInFlight := pwq.nrInFlight[color := pwq.nrInFlight[color] - 1], nrActive := pwq.nrActive - 1)];
        if pwqs[p].delayedWorks != [] {
          if pwqs[p].nrActive < pwqs[p].maxActive {
            ActivateDelayed(p, 0);
          }
        }
      }
      pwqs := pwqs[p := pwqs[p].(refcnt := pwqs[p].refcnt - 1)];
    }

    /** list_del_init */
    method Unlist(at: Place)
      requires Exists(View(), at) && !at.InDelayed?
      modifies this`worklist, this`workers
      ensures View() == Without(old(View()), at)
    {
      match at
      case InWorklist(i) => worklist := worklist[..i] + worklist[i + 1..];
      case InScheduled(w, i) =>
        var l := workers[w].scheduled;
        workers := workers[w := workers[w].(scheduled := l[..i] + l[i + 1..])];
    }

    method FindIn(l: seq<Entry>, id: nat) returns (i: Option<nat>)
      ensures i.Some? ==> i.value < |l| && l[i.value].id == id
      ensures i.None? ==> forall e | e in l :: e.id != id
    {
      for k := 0 to |l|
        invariant forall j | 0 <= j < k :: l[j].id != id
      {
        if l[k].id == id { return Some(k); }
      }
      return None;
    }

    /** Where the work item is queued; the source reads this off work->data. */
    method FindQueued(id: nat) returns (at: Option<Place>)
      ensures at.Some? ==> Exists(View(), at.value) && At(View(), at.value).id == id
      ensures at.None? ==> forall place: Place | Exists(View(), place) :: At(View(), place).id != id
    {
      var i := FindIn(worklist, id);
      if i.Some? { return Some(InWorklist(i.value)); }
      for w := 0 to |workers|
        invariant forall v | 0 <= v < w :: forall e | e in workers[v].scheduled :: e.id != id
      {
        i := FindIn(workers[w].scheduled, id);
        if i.Some? { return Some(InScheduled(w, i.value)); }
      }
      for p := 0 to |pwqs|
        invariant forall q | 0 <= q < p :: forall e | e in pwqs[q].delayedWorks :: e.id != id
      {
        i := FindIn(pwqs[p].delayedWorks, id);
        if i.Some? { return Some(InDelayed(p, i.value)); }
      }
      return None;
    }

    /** try_to_grab_pending, but for the timer of a delayed work item: 0 if the item was idle, 1 if it was queued. */
    method TryToGrabPending(id: nat, canceling: bool) returns (ret: int)
      requires Inv(View())
      // a barrier belongs to the flush that queued it
      requires forall at: Place | Exists(View(), at) && At(View(), at).id == id :: Colored(At(View(), at))
      modifies this`worklist, this`pwqs, this`workers, this`pending
      ensures Inv(View())
      ensures ret == 0 <==> id !in old(pending)
      ensures ret == 0 ==> View() == Claim(old(View()), id)
      ensures ret == 1 <==> exists at: Place :: Exists(old(View()), at) && At(old(View()), at).id == id
      ensures ret == 1 ==> exists at: Place :: CanGrab(old(View()), at) && At(old(View()), at).id == id && View() == Grab(old(View()), at)
      ensures ret != 0 && ret != 1 ==> ret == (if canceling then -ENOENT else -EAGAIN) && View() == old(View())
    {
      ghost var s := View();
      if id !in pending {
        IdleIsNotQueued(s, id);
        ClaimInv(s, id);
        hide Inv;
        pending := pending + {id};
        return 0;
      }
      var at := FindQueued(id);
      if at.Some? {
        Grabbable(s, at.value);
        hide Inv;
        GrabPending(at.value);
        return 1;
      }
      return if canceling then -ENOENT else -EAGAIN;
    }

    /** try_to_grab_pending, for an item that is queued */
    method GrabPending(at: Place)
      requires Inv(View()) && CanGrab(View(), at)
      modifies this`worklist, this`pwqs, this`workers
      ensures View() == Grab(old(View()), at) && Inv(View())
    {
      GrabInv(View(), at);
      hide Inv;
      var place := at;
      var work := At(View(), at);
      if at.InDelayed? {
        place := InWorklist(|worklist|);
        ActivateDelayed(at.p, at.i);
      }
      Unlist(place);
      DecNrInFlight(work.pwq, work.color);
    }

    /** insert_wq_barrier behind a queued item */
    method InsertBarrier(at: Place, id: nat)
      requires Inv(View()) && CanBarrier(View(), at, id)
      modifies this
      ensures View() == Barrier(old(View()), at, id) && Inv(View())
    {
      hide Inv, Barrier;
      BarrierInv(View(), at, id);
      LinkBarrier(at, id);
    }

    method LinkBarrier(at: Place, id: nat)
      requires CanBarrier(View(), at, id)
      modifies this
      ensures View() == Barrier(old(View()), at, id)
    {
      var p := At(View(), at).pwq;
      pwqs := pwqs[p := pwqs[p].(refcnt := pwqs[p].refcnt + 1)];
      pending := pending + {id};
      match at {
        case InWorklist(i) => worklist := WithBarrier(worklist, i, id, nextTicket);
        case InScheduled(w, i) => workers := workers[w := workers[w].(scheduled := WithBarrier(workers[w].scheduled, i, id, nextTicket))];
        case InDelayed(q, i) => pwqs := pwqs[q := pwqs[q].(delayedWorks := WithBarrier(pwqs[q].delayedWorks, i, id, nextTicket))];
      }
      nextTicket := nextTicket + 1;
    }

    /** insert_wq_barrier for a running item */
    method InsertBarrierRunning(w: nat, id: nat)
      requires Inv(View()) && CanBarrierRunning(View(), w, id)
      modifies this
      ensures View() == BarrierRunning(old(View()), w, id) && Inv(View())
    {
      BarrierRunningInv(View(), w, id);
      hide Inv;
      var p := workers[w].current.value.pwq;
      workers := workers[w := workers[w].(scheduled := [Entry(id, p, WORK_NO_COLOR, false, nextTicket)] + workers[w].scheduled)];
      pwqs := pwqs[p := pwqs[p].(refcnt := pwqs[p].refcnt + 1)];
      pending, nextTicket := pending + {id}, nextTicket + 1;
    }

    /** find_worker_executing_work */
    method FindWorker(id: nat) returns (v: Option<nat>)
      ensures v.Some? ==> Runs(View(), v.value, id)
      ensures v.None? <==> !Collides(View(), id)
    {
      for i := 0 to |workers|
        invariant forall w | 0 <= w < i :: !Runs(View(), w, id)
      {
        if workers[i].current.Some? && workers[i].current.value.id == id {
          assert Runs(View(), i, id);
          return Some(i);
        }
      }
      return None;
    }

    /** process_one_work, up to the call of the item's function */
    method ProcessOneWork(w: nat, fromWorklist: bool) returns (claimed: bool)
      requires Inv(View()) && w < |workers| && workers[w].current.None?
      requires if fromWorklist then workers[w].scheduled == [] && worklist != [] && !worklist[0].linked else workers[w].scheduled != []
      modifies this
      ensures Inv(View())
      ensures claimed ==> CanStart(old(View()), w, fromWorklist) && View() == Start(old(View()), w, fromWorklist)
      ensures !claimed ==> exists v: nat :: CanDefer(old(View()), w, v, fromWorklist) && View() == Defer(old(View()), w, v, fromWorklist)
    {
      var work := if fromWorklist then worklist[0] else workers[w].scheduled[0];
      var collision := FindWorker(work.id);
      if collision.Some? {
        DeferInv(View(), w, collision.value, fromWorklist);
        MoveRun(w, collision.value, fromWorklist);
        return false;
      }
      StartInv(View(), w, fromWorklist);
      hide Inv;
      if fromWorklist {
        workers := workers[w := workers[w].(current := Some(work))];
        worklist := worklist[1..];
      } else {
        workers := workers[w := Worker(Some(work), workers[w].scheduled[1..])];
      }
      if Colored(work) && work.pwq < |pwqs| {
        pwqs := pwqs[work.pwq := pwqs[work.pwq].(started := work.ticket)];
      }
      pending := pending - {work.id};
      return true;
    }

    /** move_linked_works to the worker that runs the item */
    method MoveRun(w: nat, v: nat, fromWorklist: bool)
      requires CanDefer(View(), w, v, fromWorklist)
      modifies this`worklist, this`workers
      ensures View() == Defer(old(View()), w, v, fromWorklist)
    {
      if fromWorklist {
        var j := RunLength(worklist, 0);
        workers := workers[v := workers[v].(scheduled := workers[v].scheduled + worklist[..j])];
        worklist := worklist[j..];
      } else {
        var l := workers[w].scheduled;
        var j := RunLength(l, 0);
        workers := workers[w := workers[w].(scheduled := l[j..])];
        workers := workers[v := workers[v].(scheduled := workers[v].scheduled + l[..j])];
      }
    }

    /** worker_thread, when the first item of the worklist is linked */
    method TakeLinked(w: nat)
      requires Inv(View()) && CanTakeRun(View(), w)
      modifies this`worklist, this`workers
      ensures View() == TakeRun(old(View()), w) && Inv(View())
    {
      TakeRunInv(View(), w);
      hide Inv;
      var j := RunLength(worklist, 0);
      workers := workers[w := workers[w].(scheduled := workers[w].scheduled + worklist[..j])];
      worklist := worklist[j..];
    }

    /** process_one_work, after the item's function has returned */
    method FinishWork(w: nat)
      requires Inv(View()) && CanFinish(View(), w)
      modifies this`worklist, this`pwqs, this`workers
      ensures View() == Finish(old(View()), w) && Inv(View())
    {
      FinishInv(View(), w);
      hide Inv;
      var work := workers[w].current.value;
      workers := workers[w := workers[w].(current := None)];
      DecNrInFlight(work.pwq, work.color);
    }
  }

  lemma Queueable(s: State, p: nat, id: nat)
    requires Inv(s) && p < |s.pwqs| && id !in s.pending
    ensures CanQueue(s, p, id)
  {
    assert PwqOk(s.pwqs[p], p, |s.pwqs|);
  }

  lemma Grabbable(s: State, at: Place)
    requires Inv(s) && Exists(s, at) && Colored(At(s, at))
    ensures CanGrab(s, at)
  {
    AtFits(s, at);
    assert PwqOk(s.pwqs[At(s, at).pwq], At(s, at).pwq, |s.pwqs|);
  }

  /** An item whose PENDING bit is clear is at no place. */
  lemma IdleIsNotQueued(s: State, id: nat)
    requires Inv(s) && id !in s.pending
    ensures forall at: Place | Exists(s, at) :: At(s, at).id != id
  {
    assert Queued(s, id) == 0;
    forall at: Place | Exists(s, at) ensures At(s, at).id != id {
      if At(s, at).id == id { PlaceCounts(s, at, OfId(id)); }
    }
  }
}
