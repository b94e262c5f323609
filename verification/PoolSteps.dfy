/** Every step of a worker pool keeps the invariant. */
module PoolSteps {
  import opened WorkColors
  import opened Options
  import opened PoolLists
  import opened PoolProtocol
  import opened PoolInvariant

  // ---------- items that only change lists ----------

  /** Active items have only moved. */
  ghost predicate OnlyMoved(s: State, s': State) {
    && s'.pwqs == s.pwqs && s'.pending == s.pending
    && (forall kind: Kind :: Active(s', kind) == Active(s, kind))
    && (forall id: nat :: Queued(s', id) == Queued(s, id))
  }

  ghost predicate SameCurrents(s: State, s': State) {
    |s'.workers| == |s.workers| && forall w | 0 <= w < |s.workers| :: s'.workers[w].current == s.workers[w].current
  }

  lemma MovedInv(s: State, s': State)
    requires Inv(s) && OnlyMoved(s, s') && SameCurrents(s, s') && Listed(s')
    ensures Inv(s')
  {
    forall p | 0 <= p < |s'.pwqs| ensures Account(s', p, []) {
      assert Account(s, p, []);
    }
  }

  lemma AloneKept(s: State, s': State)
    requires Alone(s) && SameCurrents(s, s')
    ensures Alone(s')
  {}

  /** A run goes from the front of one list to the end of another. */
  lemma FrontCounts(l: seq<Entry>, to: seq<Entry>, kind: Kind)
    requires l != []
    ensures var j := RunEnd(l, 0); Count(l[j..], kind) + Count(to + l[..j], kind) == Count(l, kind) + Count(to, kind)
  {
    var j := RunEnd(l, 0);
    assert l == l[..j] + l[j..];
    CountAppend(l[..j], l[j..], kind);
    CountAppend(to, l[..j], kind);
  }

  lemma TakeRunInv(s: State, w: nat)
    requires Inv(s) && CanTakeRun(s, w)
    ensures Inv(TakeRun(s, w))
  {
    TakeFromWorklist(s, w);
  }

  /** The run at the front of the worklist goes to a worker. */
  lemma TakeFromWorklist(s: State, v: nat)
    requires Inv(s) && v < |s.workers| && s.worklist != []
    ensures var j := RunEnd(s.worklist, 0);
      Inv(s.(worklist := s.worklist[j..], workers := s.workers[v := s.workers[v].(scheduled := s.workers[v].scheduled + s.worklist[..j])]))
  {
    var j := RunEnd(s.worklist, 0);
    var x := s.workers[v].(scheduled := s.workers[v].scheduled + s.worklist[..j]);
    var s' := s.(worklist := s.worklist[j..], workers := s.workers[v := x]);
    forall kind: Kind ensures Active(s', kind) == Active(s, kind) {
      FrontCounts(s.worklist, s.workers[v].scheduled, kind);
      WorkerSet(s.workers, v, x, kind);
    }
    forall id: nat ensures Queued(s', id) == Queued(s, id) {
      FrontCounts(s.worklist, s.workers[v].scheduled, OfId(id));
      WorkerSet(s.workers, v, x, OfId(id));
    }
    TakenListed(s, v);
    hide Active, Queued, Listed;
    MovedInv(s, s');
  }

  lemma TakenListed(s: State, v: nat)
    requires Listed(s) && v < |s.workers| && s.worklist != []
    ensures var j := RunEnd(s.worklist, 0);
      Listed(s.(worklist := s.worklist[j..], workers := s.workers[v := s.workers[v].(scheduled := s.workers[v].scheduled + s.worklist[..j])]))
  {
    var n := |s.pwqs|;
    var j := RunEnd(s.worklist, 0);
    assert WorkerOk(s.workers[v], n);
    ListFront(s.worklist, n);
    ListAppend(s.workers[v].scheduled, s.worklist[..j], n);
    var x := s.workers[v].(scheduled := s.workers[v].scheduled + s.worklist[..j]);
    assert WorkerOk(x, n);
    hide WorkerOk, ListOk, PwqOk;
  }

  lemma DeferScheduledInv(s: State, w: nat, v: nat)
    requires Inv(s) && CanDefer(s, w, v, false)
    ensures Inv(Defer(s, w, v, false))
  {
    var s' := Defer(s, w, v, false);
    assert w != v;
    var l := s.workers[w].scheduled;
    var j := RunEnd(l, 0);
    var x := s.workers[w].(scheduled := l[j..]);
    var y := s.workers[v].(scheduled := s.workers[v].scheduled + l[..j]);
    assert s'.workers == s.workers[w := x][v := y];
    forall kind: Kind ensures Active(s', kind) == Active(s, kind) {
      FrontCounts(l, s.workers[v].scheduled, kind);
      WorkerSet(s.workers, w, x, kind);
      WorkerSet(s.workers[w := x], v, y, kind);
    }
    forall id: nat ensures Queued(s', id) == Queued(s, id) {
      FrontCounts(l, s.workers[v].scheduled, OfId(id));
      WorkerSet(s.workers, w, x, OfId(id));
      WorkerSet(s.workers[w := x], v, y, OfId(id));
    }
    DeferredListed(s, w, v);
    hide Active, Queued, Listed;
    MovedInv(s, s');
  }

  lemma DeferredListed(s: State, w: nat, v: nat)
    requires Listed(s) && CanDefer(s, w, v, false) && w != v
    ensures Listed(Defer(s, w, v, false))
  {
    var n := |s.pwqs|;
    var l := s.workers[w].scheduled;
    var j := RunEnd(l, 0);
    assert WorkerOk(s.workers[v], n) && WorkerOk(s.workers[w], n);
    ListFront(l, n);
    ListAppend(s.workers[v].scheduled, l[..j], n);
    assert WorkerOk(s.workers[v].(scheduled := s.workers[v].scheduled + l[..j]), n) && WorkerOk(s.workers[w].(scheduled := l[j..]), n);
    hide WorkerOk, ListOk, PwqOk;
  }

  lemma DeferInv(s: State, w: nat, v: nat, fromWorklist: bool)
    requires Inv(s) && CanDefer(s, w, v, fromWorklist)
    ensures Inv(Defer(s, w, v, fromWorklist))
  {
    if fromWorklist {
      TakeFromWorklist(s, v);
    } else {
      DeferScheduledInv(s, w, v);
    }
  }

  // ---------- grabbing ----------

  lemma WithoutCounts(s: State, at: Place, kind: Kind)
    requires Exists(s, at) && !at.InDelayed?
    ensures Active(s, kind) == Active(Without(s, at), kind) + One(At(s, at), kind)
    ensures Count(s.worklist, kind) + Held(s.workers, kind)
      == Count(Without(s, at).worklist, kind) + Held(Without(s, at).workers, kind) + One(At(s, at), kind)
  {
    match at {
      case InWorklist(i) => CountAt(s.worklist, i, kind);
      case InScheduled(w, i) =>
        CountAt(s.workers[w].scheduled, i, kind);
        WorkerSet(s.workers, w, Without(s, at).workers[w], kind);
    }
  }

  lemma WithoutListed(s: State, at: Place)
    requires Listed(s) && Exists(s, at) && !at.InDelayed? && Colored(At(s, at))
    ensures Listed(Without(s, at)) && SameCurrents(s, Without(s, at))
  {
    var n := |s.pwqs|;
    match at {
      case InWorklist(i) => ListItem(s.worklist, i, n);
      case InScheduled(w, i) =>
        assert WorkerOk(s.workers[w], n);
        ListItem(s.workers[w].scheduled, i, n);
        assert WorkerOk(Without(s, at).workers[w], n);
    }
    hide WorkerOk, ListOk, PwqOk;
  }

  lemma WithoutCounted(s: State, at: Place)
    requires Listed(s) && Counted(s, []) && Exists(s, at) && !at.InDelayed? && Colored(At(s, at))
    ensures var s', e := Without(s, at), At(s, at);
      && Listed(s') && Counted(s', [e]) && SameCurrents(s, s') && s'.pwqs == s.pwqs && s'.pending == s.pending
      && Fits(e, |s.pwqs|) && forall id: nat :: Queued(s, id) == Queued(s', id) + One(e, OfId(id))
  {
    var s', e := Without(s, at), At(s, at);
    WithoutListed(s, at);
    AtFits(s, at);
    forall id: nat ensures Queued(s, id) == Queued(s', id) + One(e, OfId(id)) { WithoutCounts(s, at, OfId(id)); }
    forall kind: Kind ensures Active(s, kind) == Active(s', kind) + Count([e], kind) {
      WithoutCounts(s, at, kind);
      CountOne(e, kind);
    }
    hide Active, Queued, Without;
    forall p | 0 <= p < |s'.pwqs| ensures Account(s', p, [e]) {
      assert Account(s, p, []);
      CountNil(OfPwq(p));
      CountNil(ColoredOf(p));
      forall c: int ensures Count([], OfColor(p, c)) == 0 { CountNil(OfColor(p, c)); }
    }
  }

  lemma AtFits(s: State, at: Place)
    requires Listed(s) && Exists(s, at)
    ensures Fits(At(s, at), |s.pwqs|) && (at.InDelayed? ==> At(s, at).pwq == at.p)
  {
    match at {
      case InWorklist(i) => assert s.worklist[i] in s.worklist;
      case InScheduled(w, i) => assert WorkerOk(s.workers[w], |s.pwqs|) && s.workers[w].scheduled[i] in s.workers[w].scheduled;
      case InDelayed(p, i) => assert PwqOk(s.pwqs[p], p, |s.pwqs|) && s.pwqs[p].delayedWorks[i] in s.pwqs[p].delayedWorks;
    }
  }

  lemma GrabActiveInv(s: State, at: Place)
    requires Inv(s) && CanGrab(s, at) && !at.InDelayed?
    ensures Inv(Grab(s, at))
  {
    var s1, e := Without(s, at), At(s, at);
    WithoutCounted(s, at);
    hide Listed, Counted, Without, Queued;
    DecCounted(s1, e);
    AloneKept(s, Grab(s, at));
  }

  lemma GrabDelayedInv(s: State, at: Place)
    requires Inv(s) && CanGrab(s, at) && at.InDelayed?
    ensures Inv(Grab(s, at))
  {
    var p, i, e := at.p, at.i, At(s, at);
    AtFits(s, at);
    var s1 := Activate(s, p, i);
    ActivateCounted(s, p, i, []);
    assert s1.worklist[|s.worklist|] == e;
    var s2 := Without(s1, InWorklist(|s.worklist|));
    WithoutCounted(s1, InWorklist(|s.worklist|));
    assert Limited(s.pwqs[p]);
    forall id: nat ensures Queued(s1, id) == Queued(s, id) { ActivateMoves(s, p, i, OfId(id)); }
    ActivatedReady(s, p, i, e);
    hide Listed, Counted, Queued, Activate, Without;
    DecCounted(s2, e);
    AloneKept(s, Grab(s, at));
  }

  lemma ActivatedReady(s: State, p: nat, i: nat, e: Entry)
    requires Limits(s) && p < |s.pwqs| && i < |s.pwqs[p].delayedWorks| && e.pwq == p && Colored(e)
    ensures var s1 := Activate(s, p, i);
      (forall q | 0 <= q < |s1.pwqs| :: if Colored(e) && q == e.pwq then Ready(s1.pwqs[q]) else Limited(s1.pwqs[q])) && s1.workers == s.workers
  {
    assert Limited(s.pwqs[p]);
  }

  lemma GrabInv(s: State, at: Place)
    requires Inv(s) && CanGrab(s, at)
    ensures Inv(Grab(s, at))
  {
    if at.InDelayed? {
      GrabDelayedInv(s, at);
    } else {
      GrabActiveInv(s, at);
    }
  }

  // ---------- running ----------

  lemma FinishCounted(s: State, w: nat)
    requires Inv(s) && CanFinish(s, w)
    ensures var e := s.workers[w].current.value; var s1 := s.(workers := s.workers[w := s.workers[w].(current := None)]);
      && Listed(s1) && Counted(s1, [e]) && Fits(e, |s.pwqs|) && forall id: nat :: Queued(s1, id) == Queued(s, id)
  {
    var e := s.workers[w].current.value;
    var x := s.workers[w].(current := None);
    var s1 := s.(workers := s.workers[w := x]);
    assert WorkerOk(s.workers[w], |s.pwqs|);
    forall kind: Kind ensures Active(s, kind) == Active(s1, kind) + Count([e], kind) {
      WorkerSet(s.workers, w, x, kind);
      CountOne(e, kind);
    }
    forall id: nat ensures Queued(s1, id) == Queued(s, id) { WorkerSet(s.workers, w, x, OfId(id)); }
    assert WorkerOk(x, |s.pwqs|);
    assert Listed(s1);
    hide Active, Queued;
    forall p | 0 <= p < |s1.pwqs| ensures Account(s1, p, [e]) {
      assert Account(s, p, []);
      CountNil(OfPwq(p));
      CountNil(ColoredOf(p));
      forall c: int ensures Count([], OfColor(p, c)) == 0 { CountNil(OfColor(p, c)); }
    }
  }

  lemma FinishInv(s: State, w: nat)
    requires Inv(s) && CanFinish(s, w)
    ensures Inv(Finish(s, w))
  {
    FinishCounted(s, w);
    hide Listed, Counted, Queued;
    DecCounted(s.(workers := s.workers[w := s.workers[w].(current := None)]), s.workers[w].current.value);
  }

  lemma StartListed(s: State, w: nat, fromWorklist: bool)
    requires Listed(s) && CanStart(s, w, fromWorklist)
    ensures Listed(Start(s, w, fromWorklist)) && Fits(Next(s, w, fromWorklist), |s.pwqs|)
  {
    var n, e := |s.pwqs|, Next(s, w, fromWorklist);
    var s' := Start(s, w, fromWorklist);
    assert WorkerOk(s.workers[w], n);
    if fromWorklist {
      FirstOut(s.worklist);
      assert e in s.worklist;
      assert ListOk(s.worklist[1..], n);
    } else {
      FirstOut(s.workers[w].scheduled);
      assert e in s.workers[w].scheduled;
      assert ListOk(s.workers[w].scheduled[1..], n);
    }
    assert WorkerOk(s'.workers[w], n);
    forall p | 0 <= p < |s'.pwqs| ensures PwqOk(s'.pwqs[p], p, n) { assert PwqOk(s.pwqs[p], p, n); }
  }

  lemma StartCounts(s: State, w: nat, fromWorklist: bool, kind: Kind)
    requires CanStart(s, w, fromWorklist)
    ensures var s', e := Start(s, w, fromWorklist), Next(s, w, fromWorklist);
      && Active(s', kind) == Active(s, kind)
      && Count(s.worklist, kind) + Held(s.workers, kind) == Count(s'.worklist, kind) + Held(s'.workers, kind) + One(e, kind)
  {
    var s', e := Start(s, w, fromWorklist), Next(s, w, fromWorklist);
    WorkerSet(s.workers, w, s'.workers[w], kind);
  }

  lemma StartedPwqs(s: State, e: Entry)
    ensures |Started(s, e).pwqs| == |s.pwqs|
    ensures forall p | 0 <= p < |s.pwqs| :: Started(s, e).pwqs[p] == s.pwqs[p].(started := Started(s, e).pwqs[p].started)
    ensures forall kind: Kind :: Delayed(Started(s, e).pwqs, kind) == Delayed(s.pwqs, kind)
  {
    forall kind: Kind ensures Delayed(Started(s, e).pwqs, kind) == Delayed(s.pwqs, kind) {
      if Colored(e) && e.pwq < |s.pwqs| { PwqSet(s.pwqs, e.pwq, Started(s, e).pwqs[e.pwq], kind); }
    }
  }

  /** What the worker claims is run by nobody else, and is no longer queued. */
  lemma StartInv(s: State, w: nat, fromWorklist: bool)
    requires Inv(s) && CanStart(s, w, fromWorklist)
    ensures Inv(Start(s, w, fromWorklist))
  {
    var s', e := Start(s, w, fromWorklist), Next(s, w, fromWorklist);
    StartListed(s, w, fromWorklist);
    StartedPwqs(s.(pending := s.pending - {e.id}), e);
    forall kind: Kind ensures Active(s', kind) == Active(s, kind) { StartCounts(s, w, fromWorklist, kind); }
    forall id: nat ensures Queued(s, id) == Queued(s', id) + One(e, OfId(id)) { StartCounts(s, w, fromWorklist, OfId(id)); }
    StartAlone(s, w, fromWorklist);
    hide Listed, Active, Queued, Alone, Start;
    forall p | 0 <= p < |s'.pwqs| ensures Account(s', p, []) && Limited(s'.pwqs[p]) {
      assert Account(s, p, []) && Limited(s.pwqs[p]);
    }
    StartOwned(s, s', e);
  }

  lemma StartOwned(s: State, s': State, e: Entry)
    requires Owned(s) && s'.pending == s.pending - {e.id} && forall id: nat :: Queued(s, id) == Queued(s', id) + One(e, OfId(id))
    ensures Owned(s')
  {
    hide Queued;
    forall id: nat ensures Queued(s', id) <= 1 && (Queued(s', id) > 0 ==> id in s'.pending) {
      assert Queued(s, id) <= 1;
    }
  }

  lemma StartAlone(s: State, w: nat, fromWorklist: bool)
    requires Alone(s) && CanStart(s, w, fromWorklist)
    ensures Alone(Start(s, w, fromWorklist))
  {
    var s', e := Start(s, w, fromWorklist), Next(s, w, fromWorklist);
    forall a, b | 0 <= a < b < |s'.workers| && s'.workers[a].current.Some? && s'.workers[b].current.Some?
      ensures s'.workers[a].current.value.id != s'.workers[b].current.value.id
    {
      assert !Runs(s, a, e.id) && !Runs(s, b, e.id);
    }
  }

  // ---------- queueing ----------

  /** A new item at the end of the list that the limit allows. */
  lemma QueueCounts(s: State, p: nat, id: nat, kind: Kind)
    requires CanQueue(s, p, id)
    ensures var s' := Queue(s, p, id); var e := Entry(id, p, s.pwqs[p].workColor, false, s.nextTicket); var active := s.pwqs[p].nrActive < s.pwqs[p].maxActive;
      && Active(s', kind) == Active(s, kind) + (if active then One(e, kind) else 0)
      && Count(s'.pwqs[p].delayedWorks, kind) == Count(s.pwqs[p].delayedWorks, kind) + (if active then 0 else One(e, kind))
      && Count(s'.worklist, kind) + Held(s'.workers, kind) + Delayed(s'.pwqs, kind)
         == Count(s.worklist, kind) + Held(s.workers, kind) + Delayed(s.pwqs, kind) + One(e, kind)
  {
    var s' := Queue(s, p, id);
    var e := Entry(id, p, s.pwqs[p].workColor, false, s.nextTicket);
    CountOne(e, kind);
    CountAppend(s.worklist, [e], kind);
    CountAppend(s.pwqs[p].delayedWorks, [e], kind);
    PwqSet(s.pwqs, p, s'.pwqs[p], kind);
  }

  lemma QueueListed(s: State, p: nat, id: nat)
    requires Listed(s) && CanQueue(s, p, id)
    ensures Listed(Queue(s, p, id))
  {
    var n := |s.pwqs|;
    var s' := Queue(s, p, id);
    var e := Entry(id, p, s.pwqs[p].workColor, false, s.nextTicket);
    assert PwqOk(s.pwqs[p], p, n);
    ListOne(e, n);
    ListAppend(s.worklist, [e], n);
    ListAppend(s.pwqs[p].delayedWorks, [e], n);
    assert PwqOk(s'.pwqs[p], p, n);
    hide WorkerOk, ListOk, PwqOk;
  }

  lemma QueueInv(s: State, p: nat, id: nat)
    requires Inv(s) && CanQueue(s, p, id)
    ensures Inv(Queue(s, p, id))
  {
    var s' := Queue(s, p, id);
    QueueListed(s, p, id);
    assert PwqOk(s.pwqs[p], p, |s.pwqs|);
    forall q | 0 <= q < |s'.pwqs| ensures Account(s', q, []) && Limited(s'.pwqs[q]) {
      QueueAccount(s, p, id, q);
      assert Limited(s.pwqs[q]);
      if q == p { NoDelayedBelow(s, p); }
    }
    forall x: nat ensures Queued(s', x) <= 1 && (Queued(s', x) > 0 ==> x in s'.pending) {
      QueueCounts(s, p, id, OfId(x));
      assert Queued(s, x) <= 1 && (Queued(s, x) > 0 ==> x in s.pending);
    }
    AloneKept(s, s');
  }

  lemma NoDelayedBelow(s: State, p: nat)
    requires Limits(s) && p < |s.pwqs|
    ensures s.pwqs[p].nrActive < s.pwqs[p].maxActive ==> s.pwqs[p].delayedWorks == []
  {
    assert Limited(s.pwqs[p]);
  }

  lemma QueuePwqs(s: State, p: nat, id: nat, q: nat)
    requires CanQueue(s, p, id) && q < |s.pwqs|
    ensures |Queue(s, p, id).pwqs| == |s.pwqs|
    ensures var x, x' := s.pwqs[q], Queue(s, p, id).pwqs[q];
      && (q != p ==> x' == x)
      && (q == p ==> x'.refcnt == x.refcnt + 1 && x'.nrInFlight == x.nrInFlight[x.workColor := x.nrInFlight[x.workColor] + 1]
                     && x'.nrActive == x.nrActive + if x.nrActive < x.maxActive then 1 else 0)
  {}

  lemma ExactCounters(s: State, p: nat, q: nat)
    requires Listed(s) && Counted(s, []) && p < |s.pwqs| && q < |s.pwqs|
    ensures |s.pwqs[q].nrInFlight| == WORK_NR_COLORS && Account(s, q, [])
    ensures |s.pwqs[p].nrInFlight| == WORK_NR_COLORS && 0 <= s.pwqs[p].workColor < WORK_NR_COLORS
  {
    assert PwqOk(s.pwqs[p], p, |s.pwqs|) && PwqOk(s.pwqs[q], q, |s.pwqs|);
  }

  lemma QueueAccount(s: State, p: nat, id: nat, q: nat)
    requires Listed(s) && CanQueue(s, p, id) && Counted(s, []) && q < |s.pwqs| && |s.pwqs[q].nrInFlight| == WORK_NR_COLORS
    ensures |Queue(s, p, id).pwqs[q].nrInFlight| == WORK_NR_COLORS && Account(Queue(s, p, id), q, [])
  {
    hide Active, Queue, Listed, Counted, Count;
    var s' := Queue(s, p, id);
    ExactCounters(s, p, q);
    QueuePwqs(s, p, id, q);
    CountNil(OfPwq(q));
    CountNil(ColoredOf(q));
    QueueCounts(s, p, id, OfPwq(q));
    QueueCounts(s, p, id, ColoredOf(q));
    forall c | 0 <= c < WORK_NR_COLORS
      ensures s'.pwqs[q].nrInFlight[c] == Active(s', OfColor(q, c)) + Count(s'.pwqs[q].delayedWorks, OfColor(q, c)) + Count([], OfColor(q, c))
    {
      CountNil(OfColor(q, c));
      QueueCounts(s, p, id, OfColor(q, c));
    }
  }

  lemma SetColorInv(s: State, p: nat, c: int)
    requires Inv(s) && CanSetColor(s, p, c)
    ensures Inv(SetColor(s, p, c))
  {
    var s' := SetColor(s, p, c);
    assert PwqOk(s.pwqs[p], p, |s.pwqs|) && PwqOk(s'.pwqs[p], p, |s.pwqs|);
    assert Listed(s');
    forall q | 0 <= q < |s'.pwqs| ensures Account(s', q, []) && Limited(s'.pwqs[q]) {
      assert Account(s, q, []) && Limited(s.pwqs[q]);
    }
    forall id: nat ensures Queued(s', id) == Queued(s, id) { SamePwqCounts(s, p, s'.pwqs[p], OfId(id)); }
    hide Queued;
    assert forall id: nat :: Queued(s', id) == Queued(s, id) && s'.pending == s.pending;
  }

  lemma ClaimInv(s: State, id: nat)
    requires Inv(s)
    ensures Inv(Claim(s, id))
  {
    var s' := Claim(s, id);
    assert Listed(s');
    forall p | 0 <= p < |s'.pwqs| ensures Account(s', p, []) { assert Account(s, p, []); }
    assert forall x: nat :: Queued(s', x) == Queued(s, x);
    hide Queued;
    forall x: nat ensures Queued(s', x) <= 1 && (Queued(s', x) > 0 ==> x in s'.pending) {
      assert Queued(s, x) <= 1;
    }
  }

  lemma ReleaseInv(s: State, id: nat)
    requires Inv(s) && CanRelease(s, id)
    ensures Inv(Release(s, id))
  {
    var s' := Release(s, id);
    NotQueued(s, OfId(id));
    assert Listed(s');
    forall p | 0 <= p < |s'.pwqs| ensures Account(s', p, []) { assert Account(s, p, []); }
    assert forall x: nat :: Queued(s', x) == Queued(s, x);
    hide Queued;
    forall x: nat ensures Queued(s', x) <= 1 && (Queued(s', x) > 0 ==> x in s'.pending) {
      assert Queued(s, x) <= 1;
    }
  }

  /** A kind of item that is at no place is not queued. */
  lemma NotQueued(s: State, kind: Kind)
    requires forall at: Place | Exists(s, at) :: !Is(At(s, at), kind)
    ensures Count(s.worklist, kind) + Held(s.workers, kind) + Delayed(s.pwqs, kind) == 0
  {
    forall e | e in s.worklist ensures !Is(e, kind) {
      var i :| 0 <= i < |s.worklist| && s.worklist[i] == e;
      assert At(s, InWorklist(i)) == e;
    }
    CountNone(s.worklist, kind);
    forall w | 0 <= w < |s.workers| ensures Count(s.workers[w].scheduled, kind) == 0 {
      var l := s.workers[w].scheduled;
      forall e | e in l ensures !Is(e, kind) {
        var i :| 0 <= i < |l| && l[i] == e;
        assert At(s, InScheduled(w, i)) == e;
      }
      CountNone(l, kind);
    }
    NoneHeld(s.workers, kind);
    forall p | 0 <= p < |s.pwqs| ensures Count(s.pwqs[p].delayedWorks, kind) == 0 {
      var l := s.pwqs[p].delayedWorks;
      forall e | e in l ensures !Is(e, kind) {
        var i :| 0 <= i < |l| && l[i] == e;
        assert At(s, InDelayed(p, i)) == e;
      }
      CountNone(l, kind);
    }
    NoneDelayed(s.pwqs, kind);
  }

  lemma {:induction false} NoneHeld(ws: seq<Worker>, kind: Kind)
    requires forall w | 0 <= w < |ws| :: Count(ws[w].scheduled, kind) == 0
    ensures Held(ws, kind) == 0
  {
    if ws != [] { NoneHeld(ws[..|ws| - 1], kind); }
  }

  lemma {:induction false} NoneDelayed(ps: seq<Pwq>, kind: Kind)
    requires forall p | 0 <= p < |ps| :: Count(ps[p].delayedWorks, kind) == 0
    ensures Delayed(ps, kind) == 0
  {
    if ps != [] { NoneDelayed(ps[..|ps| - 1], kind); }
  }

  // ---------- barriers ----------

  /** A barrier adds one uncoloured item of a pwq, and one reference. */
  ghost predicate Added(s: State, s': State, b: Entry, delayed: bool) {
    && !Colored(b) && b.pwq < |s.pwqs| && |s'.pwqs| == |s.pwqs| && s'.pending == s.pending + {b.id} && b.id !in s.pending
    && (forall p | 0 <= p < |s.pwqs| :: s'.pwqs[p] == s.pwqs[p].(delayedWorks := s'.pwqs[p].delayedWorks, refcnt := s.pwqs[p].refcnt + if p == b.pwq then 1 else 0))
    && (forall p | 0 <= p < |s.pwqs| :: s'.pwqs[p].delayedWorks == [] <==> s.pwqs[p].delayedWorks == [])
    && (forall kind: Kind :: Active(s', kind) == Active(s, kind) + if delayed then 0 else One(b, kind))
    && (forall p, kind: Kind | 0 <= p < |s.pwqs| ::
          Count(s'.pwqs[p].delayedWorks, kind) == Count(s.pwqs[p].delayedWorks, kind) + if delayed && p == b.pwq then One(b, kind) else 0)
    && (forall id: nat :: Queued(s', id) == Queued(s, id) + One(b, OfId(id)))
  }

  lemma AddedInv(s: State, s': State, b: Entry, delayed: bool)
    requires Inv(s) && Listed(s') && Added(s, s', b, delayed) && SameCurrents(s, s')
    ensures Inv(s')
  {
    forall p | 0 <= p < |s'.pwqs| ensures Account(s', p, []) && Limited(s'.pwqs[p]) {
      assert Account(s, p, []) && Limited(s.pwqs[p]);
      AddedAccount(s, s', b, delayed, p);
    }
    forall id: nat ensures Queued(s', id) <= 1 && (Queued(s', id) > 0 ==> id in s'.pending) {
      assert Queued(s, id) <= 1 && (Queued(s, id) > 0 ==> id in s.pending);
      assert Queued(s', id) == Queued(s, id) + One(b, OfId(id));
    }
    AloneKept(s, s');
  }

  lemma AddedAccount(s: State, s': State, b: Entry, delayed: bool, p: nat)
    requires Added(s, s', b, delayed) && p < |s.pwqs| && |s.pwqs[p].nrInFlight| == WORK_NR_COLORS && Account(s, p, [])
    ensures |s'.pwqs[p].nrInFlight| == WORK_NR_COLORS && Account(s', p, [])
  {
    hide Active;
    var q, q' := s.pwqs[p], s'.pwqs[p];
    assert q' == q.(delayedWorks := q'.delayedWorks, refcnt := q.refcnt + if p == b.pwq then 1 else 0);
    assert Active(s', OfPwq(p)) + Count(q'.delayedWorks, OfPwq(p)) == Active(s, OfPwq(p)) + Count(q.delayedWorks, OfPwq(p)) + One(b, OfPwq(p));
    assert Active(s', ColoredOf(p)) == Active(s, ColoredOf(p));
    forall c | 0 <= c < WORK_NR_COLORS
      ensures q'.nrInFlight[c] == Active(s', OfColor(p, c)) + Count(q'.delayedWorks, OfColor(p, c)) + Count([], OfColor(p, c))
    {
      var kind := OfColor(p, c);
      assert Active(s', kind) + Count(q'.delayedWorks, kind) == Active(s, kind) + Count(q.delayedWorks, kind) + One(b, kind);
    }
  }

  lemma BarrierListed(s: State, at: Place, id: nat)
    requires Listed(s) && CanBarrier(s, at, id)
    ensures Listed(Barrier(s, at, id)) && SameCurrents(s, Barrier(s, at, id))
  {
    var n, s' := |s.pwqs|, Barrier(s, at, id);
    AtFits(s, at);
    var p := At(s, at).pwq;
    assert PwqOk(s.pwqs[p], p, n);
    match at {
      case InWorklist(i) => ListBarrier(s.worklist, i, id, s.nextTicket, n);
      case InScheduled(w, i) =>
        assert WorkerOk(s.workers[w], n);
        ListBarrier(s.workers[w].scheduled, i, id, s.nextTicket, n);
        assert WorkerOk(s'.workers[w], n);
      case InDelayed(q, i) => ListBarrier(s.pwqs[q].delayedWorks, i, id, s.nextTicket, n);
    }
    assert PwqOk(s'.pwqs[p], p, n);
    hide WorkerOk, ListOk, PwqOk;
  }

  lemma BarrierAdds(s: State, at: Place, id: nat)
    requires CanBarrier(s, at, id) && (at.InDelayed? ==> At(s, at).pwq == at.p)
    ensures Added(s, Barrier(s, at, id), Entry(id, At(s, at).pwq, WORK_NO_COLOR, At(s, at).linked, s.nextTicket), at.InDelayed?)
  {
    hide Active, Held, Delayed, Count;
    var s', e := Barrier(s, at, id), At(s, at);
    var b := Entry(id, e.pwq, WORK_NO_COLOR, e.linked, s.nextTicket);
    forall kind: Kind
      ensures Active(s', kind) == Active(s, kind) + if at.InDelayed? then 0 else One(b, kind)
      ensures Count(s'.worklist, kind) + Held(s'.workers, kind) + Delayed(s'.pwqs, kind) == Count(s.worklist, kind) + Held(s.workers, kind) + Delayed(s.pwqs, kind) + One(b, kind)
    {
      BarrierSums(s, at, id, kind);
    }
    forall p, kind: Kind | 0 <= p < |s.pwqs|
      ensures Count(s'.pwqs[p].delayedWorks, kind) == Count(s.pwqs[p].delayedWorks, kind) + if at.InDelayed? && p == b.pwq then One(b, kind) else 0
    {
      BarrierDelayed(s, at, id, kind, p);
    }
  }

  lemma BarrierDelayed(s: State, at: Place, id: nat, kind: Kind, p: nat)
    requires CanBarrier(s, at, id) && (at.InDelayed? ==> At(s, at).pwq == at.p) && p < |s.pwqs|
    ensures var b := Entry(id, At(s, at).pwq, WORK_NO_COLOR, At(s, at).linked, s.nextTicket);
      Count(Barrier(s, at, id).pwqs[p].delayedWorks, kind) == Count(s.pwqs[p].delayedWorks, kind) + if at.InDelayed? && p == b.pwq then One(b, kind) else 0
  {
    hide Count, One;
    if at.InDelayed? { BarrierCount(s.pwqs[at.p].delayedWorks, at.i, id, s.nextTicket, kind); }
  }

  lemma BarrierSums(s: State, at: Place, id: nat, kind: Kind)
    requires CanBarrier(s, at, id) && (at.InDelayed? ==> At(s, at).pwq == at.p)
    ensures var s' := Barrier(s, at, id); var b := Entry(id, At(s, at).pwq, WORK_NO_COLOR, At(s, at).linked, s.nextTicket);
      && Active(s', kind) == Active(s, kind) + (if at.InDelayed? then 0 else One(b, kind))
      && Count(s'.worklist, kind) + Held(s'.workers, kind) + Delayed(s'.pwqs, kind) == Count(s.worklist, kind) + Held(s.workers, kind) + Delayed(s.pwqs, kind) + One(b, kind)
  {
    hide Count, One, Held, Delayed, Running;
    var s' := Barrier(s, at, id);
    var p := At(s, at).pwq;
    assert s'.pwqs == s.pwqs[p := s'.pwqs[p]];
    PwqSet(s.pwqs, p, s'.pwqs[p], kind);
    match at {
      case InWorklist(i) => BarrierCount(s.worklist, i, id, s.nextTicket, kind);
      case InScheduled(w, i) =>
        BarrierCount(s.workers[w].scheduled, i, id, s.nextTicket, kind);
        WorkerSet(s.workers, w, s'.workers[w], kind);
      case InDelayed(q, i) => BarrierCount(s.pwqs[q].delayedWorks, i, id, s.nextTicket, kind);
    }
  }

  lemma BarrierInv(s: State, at: Place, id: nat)
    requires Inv(s) && CanBarrier(s, at, id)
    ensures Inv(Barrier(s, at, id))
  {
    AtFits(s, at);
    BarrierListed(s, at, id);
    BarrierAdds(s, at, id);
    hide Added, Listed, SameCurrents;
    AddedInv(s, Barrier(s, at, id), Entry(id, At(s, at).pwq, WORK_NO_COLOR, At(s, at).linked, s.nextTicket), at.InDelayed?);
  }

  lemma BarrierRunningInv(s: State, w: nat, id: nat)
    requires Inv(s) && CanBarrierRunning(s, w, id)
    ensures Inv(BarrierRunning(s, w, id))
  {
    var s' := BarrierRunning(s, w, id);
    var b := Entry(id, s.workers[w].current.value.pwq, WORK_NO_COLOR, false, s.nextTicket);
    BarrierRunningListed(s, w, id);
    BarrierRunningAdds(s, w, id);
    hide Added, Listed;
    AddedInv(s, s', b, false);
  }

  lemma BarrierRunningListed(s: State, w: nat, id: nat)
    requires Listed(s) && CanBarrierRunning(s, w, id)
    ensures Listed(BarrierRunning(s, w, id)) && SameCurrents(s, BarrierRunning(s, w, id))
  {
    var n, s' := |s.pwqs|, BarrierRunning(s, w, id);
    var p := s.workers[w].current.value.pwq;
    var b := Entry(id, p, WORK_NO_COLOR, false, s.nextTicket);
    assert WorkerOk(s.workers[w], n) && PwqOk(s.pwqs[p], p, n);
    ListOne(b, n);
    ListAppend([b], s.workers[w].scheduled, n);
    assert WorkerOk(s'.workers[w], n) && PwqOk(s'.pwqs[p], p, n);
    hide WorkerOk, PwqOk, ListOk;
  }

  lemma BarrierRunningAdds(s: State, w: nat, id: nat)
    requires CanBarrierRunning(s, w, id)
    ensures Added(s, BarrierRunning(s, w, id), Entry(id, s.workers[w].current.value.pwq, WORK_NO_COLOR, false, s.nextTicket), false)
  {
    hide Count, One;
    var s' := BarrierRunning(s, w, id);
    var p := s.workers[w].current.value.pwq;
    var b := Entry(id, p, WORK_NO_COLOR, false, s.nextTicket);
    forall kind: Kind
      ensures Active(s', kind) == Active(s, kind) + One(b, kind) && Delayed(s'.pwqs, kind) == Delayed(s.pwqs, kind)
      ensures Count(s'.worklist, kind) + Held(s'.workers, kind) == Count(s.worklist, kind) + Held(s.workers, kind) + One(b, kind)
    {
      CountAppend([b], s.workers[w].scheduled, kind);
      CountOne(b, kind);
      WorkerSet(s.workers, w, s'.workers[w], kind);
      PwqSet(s.pwqs, p, s'.pwqs[p], kind);
    }
  }

  // ---------- all steps ----------

  lemma StepInv(s: State, step: Step)
    requires Inv(s) && Enabled(s, step)
    ensures Inv(Apply(s, step))
  {
    hide Inv;
    match step {
      case DoSetColor(p, c) => SetColorInv(s, p, c);
      case DoQueue(p, id) => QueueInv(s, p, id);
      case DoGrab(at) => GrabInv(s, at);
      case DoClaim(id) => ClaimInv(s, id);
      case DoRelease(id) => ReleaseInv(s, id);
      case DoBarrier(at, id) => BarrierInv(s, at, id);
      case DoBarrierRunning(w, id) => BarrierRunningInv(s, w, id);
      case DoTakeRun(w) => TakeRunInv(s, w);
      case DoDefer(w, v, fromWorklist) => DeferInv(s, w, v, fromWorklist);
      case DoStart(w, fromWorklist) => StartInv(s, w, fromWorklist);
      case DoFinish(w) => FinishInv(s, w);
    }
  }
}
