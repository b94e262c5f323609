/**
 A flush of a workqueue whose pwqs are served by worker pools: the two state machines step together, and
 the in-flight items of the one are the coloured entries in the lists and workers of the others.
 */
module PoolFlush {
  import opened WorkColors
  import opened Options
  import opened PoolLists
  import F = FlushProtocol
  import FI = FlushInvariant
  import FT = FlushTheorems
  import P = PoolProtocol
  import PI = PoolInvariant
  import PS = PoolSteps
  import PT = PoolTickets
  import PR = PoolTheorems

  // ---------- the two machines together ----------

  /** A pwq of a pool. */
  datatype Place = Place(pool: nat, pwq: nat)

  /** An entry of a pool, by its ticket. */
  datatype Key = Key(pool: nat, ticket: nat)

  /** The workqueue, all pools, and as history the item that each coloured entry of the workqueue is for the flush. */
  datatype State = State(flush: F.State, pools: seq<P.State>, items: map<Key, F.Item>)

  datatype Step = OfPool(k: nat, step: P.Step) | OfFlush(a: F.Action)

  /** Where the pwqs of the workqueue are. */
  ghost predicate Placed(places: seq<Place>, s: State) {
    && |s.flush.pwqs| == |places|
    && (forall a | 0 <= a < |places| :: places[a].pool < |s.pools| && places[a].pwq < |s.pools[places[a].pool].pwqs|)
    && forall a, b | 0 <= a < b < |places| :: places[a] != places[b]
  }

  /** Which pwq of the workqueue a pwq of a pool is. */
  ghost function Index(places: seq<Place>, k: nat, p: nat): (a: Option<nat>)
    ensures a.Some? ==> a.value < |places| && places[a.value] == Place(k, p)
    ensures a.None? ==> Place(k, p) !in places
  {
    if i :| 0 <= i < |places| && places[i] == Place(k, p) then Some(i) else None
  }

  ghost predicate Init(places: seq<Place>, s: State) {
    && Placed(places, s) && F.Init(s.flush) && s.items == map[]
    && (forall k | 0 <= k < |s.pools| :: P.Init(s.pools[k]))
    && forall a | 0 <= a < |places| :: s.pools[places[a].pool].pwqs[places[a].pwq].workColor == 0
  }

  /** The coloured entry of the workqueue that the step of pool k takes away, and its pwq. */
  ghost function Dropped(places: seq<Place>, s: P.State, k: nat, step: P.Step): (r: Option<(nat, Entry)>)
    requires P.Enabled(s, step)
    ensures r.Some? ==> r.value.0 < |places|
  {
    var es := PT.Leaving(s, step);
    if es == [] || !Colored(es[0]) then None
    else match Index(places, k, es[0].pwq)
      case None => None
      case Some(a) => Some((a, es[0]))
  }

  /** What a step of pool k does to the flush. */
  ghost predicate PoolPart(places: seq<Place>, s: State, k: nat, step: P.Step, s': State)
    requires k < |s.pools| && P.Enabled(s.pools[k], step)
  {
    if step.DoQueue? && Index(places, k, step.p).Some? then
      var a := Index(places, k, step.p).value;
      && F.Step(s.flush, F.QueueA(a), s'.flush)
      && s'.items == s.items[Key(k, s.pools[k].nextTicket) := F.Item(s.flush.nextTicket, s.flush.pwqs[a].workColor, s.flush.workEpoch)]
    else if Dropped(places, s.pools[k], k, step).Some? then
      var (a, e) := Dropped(places, s.pools[k], k, step).value;
      && Key(k, e.ticket) in s.items && F.Step(s.flush, F.FinishA(a, s.items[Key(k, e.ticket)]), s'.flush)
      && s'.items == s.items
    else s'.flush == s.flush && s'.items == s.items
  }

  /** The pools after a step of the flush: only the loop over the pwqs reaches into them. */
  ghost function Recolored(places: seq<Place>, s: State, a: F.Action): seq<P.State>
    requires Placed(places, s)
  {
    if a.PrepA? && F.CanPrepPwq(s.flush) && F.Advances(s.flush.holder.resume) then
      var at, c := places[s.flush.holder.idx], s.flush.workColor;
      if P.CanSetColor(s.pools[at.pool], at.pwq, c) then s.pools[at.pool := P.SetColor(s.pools[at.pool], at.pwq, c)] else s.pools
    else s.pools
  }

  /** A critical section of a pool's lock, or a step of a flush. */
  ghost predicate IsStep(places: seq<Place>, s: State, step: Step, s': State)
    requires Placed(places, s)
  {
    match step
    case OfPool(k, st) =>
      && k < |s.pools| && P.Enabled(s.pools[k], st) && s'.pools == s.pools[k := P.Apply(s.pools[k], st)]
      && (st.DoSetColor? ==> Place(k, st.p) !in places)
      && PoolPart(places, s, k, st, s')
    case OfFlush(a) =>
      && !a.QueueA? && !a.FinishA? && F.Step(s.flush, a, s'.flush)
      && s'.items == s.items && s'.pools == Recolored(places, s, a)
  }

  // ---------- the correspondence ----------

  /** A coloured entry of a pwq is queued, delayed or running. */
  ghost predicate There(s: P.State, p: nat, c: int, t: nat) {
    c != WORK_NO_COLOR && PT.Total(s, OfItem(p, c, t)) > 0
  }

  /** A pwq of the workqueue and its place in a pool agree on the colours, the counters and the items in flight. */
  ghost predicate SameAt(s: State, at: Place, pwq: F.Pwq)
    requires at.pool < |s.pools| && at.pwq < |s.pools[at.pool].pwqs|
  {
    var q := s.pools[at.pool].pwqs[at.pwq];
    && pwq.workColor == q.workColor && pwq.nrInFlight == q.nrInFlight
    && (forall item | item in pwq.inFlight :: exists t: nat :: Stands(s, at, item, t))
    && forall c: int, t: nat | There(s.pools[at.pool], at.pwq, c, t) ::
         Key(at.pool, t) in s.items && s.items[Key(at.pool, t)].color == c && s.items[Key(at.pool, t)] in pwq.inFlight
  }

  /** The entry with ticket t is that item. */
  ghost predicate Stands(s: State, at: Place, item: F.Item, t: nat)
    requires at.pool < |s.pools|
  {
    Key(at.pool, t) in s.items && s.items[Key(at.pool, t)] == item && There(s.pools[at.pool], at.pwq, item.color, t)
  }

  ghost predicate Same(places: seq<Place>, s: State) {
    Placed(places, s) && forall a | 0 <= a < |places| :: SameAt(s, places[a], s.flush.pwqs[a])
  }

  /** Different entries are different items. */
  ghost predicate ItemsOk(s: State) {
    && (forall x | x in s.items :: x.pool < |s.pools| && x.ticket < s.pools[x.pool].nextTicket && s.items[x].ticket < s.flush.nextTicket)
    && forall x, y | x in s.items && y in s.items && s.items[x].ticket == s.items[y].ticket :: x == y
  }

  ghost predicate PoolOk(s: P.State) {
    PI.Inv(s) && PT.Unique(s)
  }

  ghost predicate Inv(places: seq<Place>, s: State) {
    Same(places, s) && ItemsOk(s) && FI.Inv(s.flush) && forall k | 0 <= k < |s.pools| :: PoolOk(s.pools[k])
  }

  // ---------- what a step of a pool does to its counters ----------

  /** The counters of pwq p after the step. */
  ghost function CountersAfter(s: P.State, step: P.Step, p: nat): seq<int>
    requires P.Enabled(s, step) && p < |s.pwqs|
  {
    var nr := s.pwqs[p].nrInFlight;
    if step.DoQueue? && step.p == p then nr[s.pwqs[p].workColor := nr[s.pwqs[p].workColor] + 1]
    else
      var es := PT.Leaving(s, step);
      if es != [] && Colored(es[0]) && es[0].pwq == p then nr[es[0].color := nr[es[0].color] - 1] else nr
  }

  lemma DecCounters(s: P.State, q: nat, c: int, p: nat)
    requires q < |s.pwqs| && p < |s.pwqs| && (c != WORK_NO_COLOR ==> 0 <= c < |s.pwqs[q].nrInFlight|)
    ensures var s' := P.Dec(s, q, c);
      && |s'.pwqs| == |s.pwqs| && s'.pwqs[p].workColor == s.pwqs[p].workColor
      && s'.pwqs[p].nrInFlight == (var nr := s.pwqs[p].nrInFlight; if c != WORK_NO_COLOR && q == p then nr[c := nr[c] - 1] else nr)
  {}

  lemma GrabCounters(s: P.State, at: P.Place, p: nat)
    requires PI.Listed(s) && P.CanGrab(s, at) && p < |s.pwqs|
    ensures var s', e := P.Grab(s, at), P.At(s, at);
      && |s'.pwqs| == |s.pwqs| && s'.pwqs[p].workColor == s.pwqs[p].workColor
      && s'.pwqs[p].nrInFlight == (var nr := s.pwqs[p].nrInFlight; if e.pwq == p then nr[e.color := nr[e.color] - 1] else nr)
  {
    hide P.Dec, PI.Listed;
    var e := P.At(s, at);
    var s1 := if at.InDelayed? then P.Activate(s, at.p, at.i) else s;
    DecCounters(P.Without(s1, if at.InDelayed? then P.InWorklist(|s.worklist|) else at), e.pwq, e.color, p);
  }

  lemma PoolCounters(s: P.State, step: P.Step, p: nat)
    requires PI.Listed(s) && P.Enabled(s, step) && p < |s.pwqs| && !(step.DoSetColor? && step.p == p)
    ensures var s' := P.Apply(s, step);
      |s'.pwqs| == |s.pwqs| && s'.pwqs[p].workColor == s.pwqs[p].workColor && s'.pwqs[p].nrInFlight == CountersAfter(s, step, p)
  {
    hide P.Dec, P.Grab, PI.Listed;
    match step {
      case DoGrab(at) => GrabCounters(s, at, p);
      case DoFinish(w) =>
        var e := s.workers[w].current.value;
        DecCounters(s.(workers := s.workers[w := s.workers[w].(current := None)]), e.pwq, e.color, p);
      case _ =>
    }
  }

  // ---------- which entries are there ----------

  lemma MatchCount(es: seq<Entry>, kind: Kind)
    requires |es| <= 1
    ensures Count(es, kind) == if es != [] && Is(es[0], kind) then 1 else 0
  {
    if es == [] { PI.CountNil(kind); } else { assert es == [es[0]]; CountOne(es[0], kind); }
  }

  /** An entry is there after a step if it was there before or arrives, and does not leave. */
  lemma ThereStep(s: P.State, step: P.Step, p: nat, c: int, t: nat)
    requires PoolOk(s) && P.Enabled(s, step)
    ensures c != WORK_NO_COLOR ==>
      var kind := OfItem(p, c, t);
      (There(P.Apply(s, step), p, c, t) <==>
         || (There(s, p, c, t) && !(PT.Leaving(s, step) != [] && Is(PT.Leaving(s, step)[0], kind)))
         || (PT.Arriving(s, step) != [] && Is(PT.Arriving(s, step)[0], kind)))
  {
    hide P.Apply, P.Enabled, PT.Total, PI.Inv;
    var kind := OfItem(p, c, t);
    PT.Conserved(s, step, kind);
    MatchCount(PT.Leaving(s, step), kind);
    MatchCount(PT.Arriving(s, step), kind);
    AtMostOnce(s, p, c, t);
  }

  lemma {:induction false} ItemIsTicket(l: seq<Entry>, p: nat, c: int, t: nat)
    ensures Count(l, OfItem(p, c, t)) <= Count(l, OfTicket(t))
  {
    if l != [] { ItemIsTicket(l[1..], p, c, t); }
  }

  lemma {:induction false} HeldItems(ws: seq<P.Worker>, p: nat, c: int, t: nat)
    ensures PI.Held(ws, OfItem(p, c, t)) <= PI.Held(ws, OfTicket(t)) && PI.Running(ws, OfItem(p, c, t)) <= PI.Running(ws, OfTicket(t))
  {
    if ws != [] {
      HeldItems(ws[..|ws| - 1], p, c, t);
      ItemIsTicket(ws[|ws| - 1].scheduled, p, c, t);
    }
  }

  lemma {:induction false} DelayedItems(ps: seq<P.Pwq>, p: nat, c: int, t: nat)
    ensures PI.Delayed(ps, OfItem(p, c, t)) <= PI.Delayed(ps, OfTicket(t))
  {
    if ps != [] {
      DelayedItems(ps[..|ps| - 1], p, c, t);
      ItemIsTicket(ps[|ps| - 1].delayedWorks, p, c, t);
    }
  }

  lemma TotalItems(s: P.State, p: nat, c: int, t: nat)
    ensures PT.Total(s, OfItem(p, c, t)) <= PT.Total(s, OfTicket(t))
  {
    hide PI.Held, PI.Running, PI.Delayed, Count;
    ItemIsTicket(s.worklist, p, c, t);
    HeldItems(s.workers, p, c, t);
    DelayedItems(s.pwqs, p, c, t);
  }

  lemma AtMostOnce(s: P.State, p: nat, c: int, t: nat)
    requires PT.Unique(s)
    ensures PT.Total(s, OfItem(p, c, t)) <= if t < s.nextTicket then 1 else 0
  {
    hide PT.Total;
    TotalItems(s, p, c, t);
    assert PT.Total(s, OfTicket(t)) <= if t < s.nextTicket then 1 else 0;
  }

  /** What leaves was there. */
  lemma LeavingWasThere(s: P.State, step: P.Step)
    requires P.Enabled(s, step) && PT.Leaving(s, step) != [] && Colored(PT.Leaving(s, step)[0])
    ensures var e := PT.Leaving(s, step)[0]; There(s, e.pwq, e.color, e.ticket)
  {
    var e := PT.Leaving(s, step)[0];
    var kind := OfItem(e.pwq, e.color, e.ticket);
    hide PI.Held, PI.Running, PI.Delayed, Count;
    match step {
      case DoGrab(at) => PR.PlaceCounts(s, at, kind);
      case DoFinish(w) => PT.RunningCounts(s, w, kind);
    }
  }

  /** The step queues or drops coloured work of pwq p, or gives the pwq another colour. */
  ghost predicate Touches(s: P.State, step: P.Step, p: nat)
    requires P.Enabled(s, step)
  {
    || (step.DoQueue? && step.p == p)
    || (step.DoSetColor? && step.p == p)
    || (PT.Leaving(s, step) != [] && Colored(PT.Leaving(s, step)[0]) && PT.Leaving(s, step)[0].pwq == p)
  }

  lemma PoolListed(s: P.State)
    requires PoolOk(s)
    ensures PI.Listed(s)
  {}

  lemma Untouched(s: P.State, step: P.Step, p: nat)
    requires PoolOk(s) && P.Enabled(s, step) && p < |s.pwqs| && !Touches(s, step, p)
    ensures var s' := P.Apply(s, step);
      && p < |s'.pwqs| && s'.pwqs[p].workColor == s.pwqs[p].workColor && s'.pwqs[p].nrInFlight == s.pwqs[p].nrInFlight
      && forall c: int, t: nat :: There(s', p, c, t) <==> There(s, p, c, t)
  {
    hide P.Apply, PoolOk, PI.Listed, PT.Total;
    PoolListed(s);
    PoolCounters(s, step, p);
    forall c: int, t: nat ensures There(P.Apply(s, step), p, c, t) <==> There(s, p, c, t) {
      ThereStep(s, step, p, c, t);
    }
  }

  // ---------- keeping the correspondence ----------

  /** Nothing that the correspondence looks at has changed at one place. */
  lemma SameKept(s: State, s': State, at: Place, pwq: F.Pwq, pwq': F.Pwq)
    requires at.pool < |s.pools| && at.pwq < |s.pools[at.pool].pwqs| && SameAt(s, at, pwq)
    requires at.pool < |s'.pools| && at.pwq < |s'.pools[at.pool].pwqs|
    requires pwq'.nrInFlight == pwq.nrInFlight && pwq'.inFlight == pwq.inFlight
    requires var q, q' := s.pools[at.pool].pwqs[at.pwq], s'.pools[at.pool].pwqs[at.pwq]; q'.workColor == pwq'.workColor && q'.nrInFlight == q.nrInFlight
    requires forall c: int, t: nat :: There(s'.pools[at.pool], at.pwq, c, t) <==> There(s.pools[at.pool], at.pwq, c, t)
    requires forall x | x in s.items :: x in s'.items && s'.items[x] == s.items[x]
    ensures SameAt(s', at, pwq')
  {
    hide There;
    forall item | item in pwq'.inFlight ensures exists t: nat :: Stands(s', at, item, t) {
      var t: nat :| Stands(s, at, item, t);
      assert Stands(s', at, item, t);
    }
  }

  lemma SameAtPlace(places: seq<Place>, s: State, a: nat)
    requires Same(places, s) && a < |places|
    ensures SameAt(s, places[a], s.flush.pwqs[a])
  {}

  /** The step queues on the pwq at index a. */
  lemma QueueSameAt(places: seq<Place>, s: State, k: nat, step: P.Step, s': State, a: nat)
    requires Inv(places, s) && IsStep(places, s, OfPool(k, step), s') && step.DoQueue? && Index(places, k, step.p) == Some(a)
    ensures a < |s'.flush.pwqs| && step.p < |s'.pools[k].pwqs| && SameAt(s', places[a], s'.flush.pwqs[a])
  {
    hide PoolOk, FI.Inv, P.Apply, There;
    var p, c, t0 := step.p, s.pools[k].pwqs[step.p].workColor, s.pools[k].nextTicket;
    SameAtPlace(places, s, a);
    PoolListed(s.pools[k]);
    PoolCounters(s.pools[k], step, p);
    var e := Entry(step.id, p, c, false, t0);
    assert PT.Arriving(s.pools[k], step) == [e] && PT.Leaving(s.pools[k], step) == [];
    var item := F.Item(s.flush.nextTicket, c, s.flush.workEpoch);
    var s0 := s'.pools[k];
    ColorsBelow(s.pools[k], p);
    forall c: int, t: nat ensures There(s0, p, c, t) <==> There(s.pools[k], p, c, t) || (c == e.color && t == t0) {
      ThereStep(s.pools[k], step, p, c, t);
      OnlyColored(s0, p, c, t);
      OnlyColored(s.pools[k], p, c, t);
    }
    forall i | i in s'.flush.pwqs[a].inFlight ensures exists t: nat :: Stands(s', places[a], i, t) {
      if i == item {
        assert Stands(s', places[a], i, t0);
      } else {
        var t: nat :| Stands(s, places[a], i, t);
        assert Stands(s', places[a], i, t);
      }
    }
  }

  lemma ColorsBelow(s: P.State, p: nat)
    requires PoolOk(s) && p < |s.pwqs|
    ensures |s.pwqs[p].nrInFlight| == WORK_NR_COLORS && 0 <= s.pwqs[p].workColor < WORK_NR_COLORS
  {
    assert PI.PwqOk(s.pwqs[p], p, |s.pwqs|);
  }

  lemma OnlyColored(s: P.State, p: nat, c: int, t: nat)
    ensures There(s, p, c, t) ==> c != WORK_NO_COLOR
  {}

  /** Finishing an item in the flush: what becomes of its pwq, and nothing of the others. */
  lemma FinishPwqs(s: F.State, a: nat, item: F.Item)
    requires F.CanFinish(s, a, item)
    ensures var s' := F.Finish(s, a, item);
      && |s'.pwqs| == |s.pwqs| && s'.nextTicket == s.nextTicket
      && s'.pwqs[a].workColor == s.pwqs[a].workColor && s'.pwqs[a].inFlight == s.pwqs[a].inFlight - {item}
      && s'.pwqs[a].nrInFlight == s.pwqs[a].nrInFlight[item.color := s.pwqs[a].nrInFlight[item.color] - 1]
      && forall b | 0 <= b < |s.pwqs| && b != a :: s'.pwqs[b] == s.pwqs[b]
  {}

  /** The coloured entry that a step of a pool takes away is an item in flight, which the flush can finish. */
  lemma DroppedIsInFlight(places: seq<Place>, s: State, k: nat, step: P.Step)
    requires Inv(places, s) && k < |s.pools| && P.Enabled(s.pools[k], step) && Dropped(places, s.pools[k], k, step).Some?
    ensures var (a, e) := Dropped(places, s.pools[k], k, step).value;
      && Key(k, e.ticket) in s.items && s.items[Key(k, e.ticket)].color == e.color
      && F.CanFinish(s.flush, a, s.items[Key(k, e.ticket)]) && PT.Leaving(s.pools[k], step) == [e] && places[a] == Place(k, e.pwq)
  {
    hide FI.Inv, PoolOk, P.Enabled, There;
    var (a, e) := Dropped(places, s.pools[k], k, step).value;
    LeavingWasThere(s.pools[k], step);
    SameAtPlace(places, s, a);
    assert PT.Leaving(s.pools[k], step) == [e];
    InFlightColors(s.flush, a, s.items[Key(k, e.ticket)]);
  }

  lemma InFlightColors(s: F.State, a: nat, item: F.Item)
    requires FI.Inv(s) && a < |s.pwqs| && item in s.pwqs[a].inFlight
    ensures F.CanFinish(s, a, item)
  {
    assert FI.PwqOk(s, a) && FI.ItemOk(s, a, item);
  }

  /** The step drops an entry of the pwq at index a. */
  lemma DropSameAt(places: seq<Place>, s: State, k: nat, step: P.Step, s': State, a: nat, e: Entry)
    requires k < |s.pools| && P.Enabled(s.pools[k], step) && Dropped(places, s.pools[k], k, step) == Some((a, e))
    requires places[a] == Place(k, e.pwq) && k < |s'.pools|
    requires Inv(places, s) && IsStep(places, s, OfPool(k, step), s')
    ensures a < |s'.flush.pwqs| && e.pwq < |s'.pools[k].pwqs| && SameAt(s', places[a], s'.flush.pwqs[a])
  {
    hide PoolOk, FI.Inv, P.Apply, P.Enabled, F.Finish, There;
    DroppedIsInFlight(places, s, k, step);
    var item0 := s.items[Key(k, e.ticket)];
    FinishPwqs(s.flush, a, item0);
    SameAtPlace(places, s, a);
    PoolListed(s.pools[k]);
    NoSetColor(s.pools[k], step);
    PoolCounters(s.pools[k], step, e.pwq);
    var r, r' := s.pools[k], s'.pools[k];
    forall c: int, t: nat ensures There(r', e.pwq, c, t) <==> There(r, e.pwq, c, t) && !(c == e.color && t == e.ticket) {
      ThereStep(r, step, e.pwq, c, t);
      OnlyColored(r, e.pwq, c, t);
      OnlyColored(r', e.pwq, c, t);
    }
    forall i | i in s'.flush.pwqs[a].inFlight ensures exists t: nat :: Stands(s', places[a], i, t) {
      var t: nat :| Stands(s, places[a], i, t);
      assert Stands(s', places[a], i, t);
    }
    forall c: int, t: nat | There(r', e.pwq, c, t)
      ensures Key(k, t) in s'.items && s'.items[Key(k, t)].color == c && s'.items[Key(k, t)] in s'.flush.pwqs[a].inFlight
    {
      assert There(r, e.pwq, c, t);
      assert s.items[Key(k, t)].ticket == item0.ticket ==> Key(k, t) == Key(k, e.ticket);
    }
  }

  lemma NoSetColor(s: P.State, step: P.Step)
    requires P.Enabled(s, step)
    ensures PT.Leaving(s, step) != [] ==> !step.DoSetColor? && !step.DoQueue? && PT.Arriving(s, step) == []
  {}

  lemma IndexIs(places: seq<Place>, s: State, a: nat)
    requires Placed(places, s) && a < |places|
    ensures Index(places, places[a].pool, places[a].pwq) == Some(a)
  {
    var i := Index(places, places[a].pool, places[a].pwq);
    if i.value < a {} else if a < i.value {}
  }

  /** Which pwq of the workqueue a step of a pool changes. */
  ghost function Touched(places: seq<Place>, s: P.State, k: nat, step: P.Step): (a: Option<nat>)
    requires P.Enabled(s, step)
  {
    if step.DoQueue? then Index(places, k, step.p)
    else if Dropped(places, s, k, step).Some? then Some(Dropped(places, s, k, step).value.0) else None
  }

  lemma NotTouched(places: seq<Place>, s: State, k: nat, step: P.Step, s': State, b: nat)
    requires Placed(places, s) && IsStep(places, s, OfPool(k, step), s') && b < |places| && places[b].pool == k
    requires Touched(places, s.pools[k], k, step) != Some(b)
    ensures !Touches(s.pools[k], step, places[b].pwq)
  {
    hide P.Enabled, P.Apply, PoolPart;
    NoSetColor(s.pools[k], step);
    IndexIs(places, s, b);
  }

  /** What a step of a pool does to the pwqs of the flush, and to the history. */
  lemma FlushPart(places: seq<Place>, s: State, k: nat, step: P.Step, s': State)
    requires Inv(places, s) && IsStep(places, s, OfPool(k, step), s')
    ensures |s'.flush.pwqs| == |s.flush.pwqs| && FI.Inv(s'.flush)
    ensures forall b | 0 <= b < |s.flush.pwqs| && Touched(places, s.pools[k], k, step) != Some(b) :: s'.flush.pwqs[b] == s.flush.pwqs[b]
  {
    hide FI.Inv, PoolOk, P.Apply, P.Enabled, Same, ItemsOk, F.Finish;
    NoSetColor(s.pools[k], step);
    if step.DoQueue? && Index(places, k, step.p).Some? {
      FI.StepInv(s.flush, F.QueueA(Index(places, k, step.p).value), s'.flush);
    } else if Dropped(places, s.pools[k], k, step).Some? {
      var (a, e) := Dropped(places, s.pools[k], k, step).value;
      FI.StepInv(s.flush, F.FinishA(a, s.items[Key(k, e.ticket)]), s'.flush);
      FinishPwqs(s.flush, a, s.items[Key(k, e.ticket)]);
    }
  }

  lemma ItemsPart(places: seq<Place>, s: State, k: nat, step: P.Step, s': State)
    requires Inv(places, s) && IsStep(places, s, OfPool(k, step), s')
    ensures s'.flush.nextTicket >= s.flush.nextTicket && ItemsOk(s')
    ensures forall x | x in s.items :: x in s'.items && s'.items[x] == s.items[x]
  {
    hide FI.Inv, PoolOk, P.Apply, P.Enabled, Same, F.Finish;
    PT.NextTicketGrows(s.pools[k], step);
    NoSetColor(s.pools[k], step);
    if step.DoQueue? && Index(places, k, step.p).Some? {
    } else if Dropped(places, s.pools[k], k, step).Some? {
      var (a, e) := Dropped(places, s.pools[k], k, step).value;
      FinishPwqs(s.flush, a, s.items[Key(k, e.ticket)]);
    }
  }

  lemma PoolStepSameAt(places: seq<Place>, s: State, k: nat, step: P.Step, s': State, b: nat)
    requires Inv(places, s) && IsStep(places, s, OfPool(k, step), s') && b < |places|
    ensures places[b].pool < |s'.pools| && places[b].pwq < |s'.pools[places[b].pool].pwqs| && b < |s'.flush.pwqs|
    ensures SameAt(s', places[b], s'.flush.pwqs[b])
  {
    hide FI.Inv, PoolOk, P.Apply, P.Enabled, SameAt, There, ItemsOk;
    PT.PwqsStay(s.pools[k], step);
    FlushPart(places, s, k, step, s');
    ItemsPart(places, s, k, step, s');
    if Touched(places, s.pools[k], k, step) == Some(b) {
      if step.DoQueue? {
        QueueSameAt(places, s, k, step, s', b);
      } else {
        DropSameAt(places, s, k, step, s', b, Dropped(places, s.pools[k], k, step).value.1);
      }
    } else {
      if places[b].pool == k {
        NotTouched(places, s, k, step, s', b);
        Untouched(s.pools[k], step, places[b].pwq);
      }
      SameAtPlace(places, s, b);
      SameKept(s, s', places[b], s.flush.pwqs[b], s'.flush.pwqs[b]);
    }
  }

  lemma PoolStepInv(places: seq<Place>, s: State, k: nat, step: P.Step, s': State)
    requires Inv(places, s) && IsStep(places, s, OfPool(k, step), s')
    ensures Inv(places, s')
  {
    hide FI.Inv, P.Apply, P.Enabled, SameAt, ItemsOk, PoolPart, PI.Inv, PT.Unique;
    FlushPart(places, s, k, step, s');
    ItemsPart(places, s, k, step, s');
    assert PoolOk(s.pools[k]);
    PS.StepInv(s.pools[k], step);
    PT.StepUnique(s.pools[k], step);
    forall b | 0 <= b < |places|
      ensures places[b].pool < |s'.pools| && places[b].pwq < |s'.pools[places[b].pool].pwqs| && b < |s'.flush.pwqs| && SameAt(s', places[b], s'.flush.pwqs[b])
    {
      PoolStepSameAt(places, s, k, step, s', b);
    }
    PT.PwqsStay(s.pools[k], step);
  }

  // ---------- the steps of a flush ----------

  /** Outside the loop over the pwqs, a flush leaves the pwqs alone. */
  lemma FlushKeeps(s: F.State, a: F.Action, s': F.State)
    requires F.Step(s, a, s') && !a.QueueA? && !a.FinishA?
    ensures s'.nextTicket == s.nextTicket && |s'.pwqs| == |s.pwqs|
    ensures forall b | 0 <= b < |s.pwqs| :: s'.pwqs[b].inFlight == s.pwqs[b].inFlight && s'.pwqs[b].nrInFlight == s.pwqs[b].nrInFlight
    ensures forall b | 0 <= b < |s.pwqs| ::
      s'.pwqs[b].workColor == if a.PrepA? && F.Advances(s.holder.resume) && b == s.holder.idx then s.workColor else s.pwqs[b].workColor
  {
    hide F.CompleteAll, F.AssignColor, F.Unlink, F.ScanLength, F.SomeGone, F.Gone;
  }

  lemma WorkColorFits(s: F.State)
    requires FI.Inv(s)
    ensures 0 <= s.workColor < WORK_NR_COLORS
  {}

  /** The pools take over the new colour of the pwq that the loop visits, and nothing else changes there. */
  lemma RecoloredPools(places: seq<Place>, s: State, a: F.Action)
    requires Inv(places, s)
    ensures var ps := Recolored(places, s, a);
      && |ps| == |s.pools| && (forall k | 0 <= k < |ps| :: PoolOk(ps[k]) && ps[k].nextTicket == s.pools[k].nextTicket && |ps[k].pwqs| == |s.pools[k].pwqs|)
      && (forall k, kind: Kind | 0 <= k < |ps| :: PT.Total(ps[k], kind) == PT.Total(s.pools[k], kind))
      && (forall k, p: nat, c: int, t: nat | 0 <= k < |ps| :: There(ps[k], p, c, t) <==> There(s.pools[k], p, c, t))
      && forall k, p | 0 <= k < |ps| && 0 <= p < |ps[k].pwqs| ::
           && ps[k].pwqs[p].nrInFlight == s.pools[k].pwqs[p].nrInFlight
           && ps[k].pwqs[p].workColor ==
                if a.PrepA? && F.CanPrepPwq(s.flush) && F.Advances(s.flush.holder.resume) && places[s.flush.holder.idx] == Place(k, p)
                then s.flush.workColor else s.pools[k].pwqs[p].workColor
  {
    hide FI.Inv, SameAt, ItemsOk, PI.Inv, PT.Unique, PT.Total;
    if a.PrepA? && F.CanPrepPwq(s.flush) && F.Advances(s.flush.holder.resume) {
      var at, c := places[s.flush.holder.idx], s.flush.workColor;
      WorkColorFits(s.flush);
      var r := s.pools[at.pool];
      assert PoolOk(r);
      PS.StepInv(r, P.DoSetColor(at.pwq, c));
      PT.StepUnique(r, P.DoSetColor(at.pwq, c));
      forall kind: Kind ensures PT.Total(P.SetColor(r, at.pwq, c), kind) == PT.Total(r, kind) { PT.SetColorTotal(r, at.pwq, c, kind); }
    }
  }

  lemma FlushSameAt(places: seq<Place>, s: State, a: F.Action, s': State, b: nat)
    requires Inv(places, s) && IsStep(places, s, OfFlush(a), s') && b < |places|
    ensures places[b].pool < |s'.pools| && places[b].pwq < |s'.pools[places[b].pool].pwqs| && b < |s'.flush.pwqs|
    ensures SameAt(s', places[b], s'.flush.pwqs[b])
  {
    hide FI.Inv, F.Step, PoolOk, There, Recolored, SameAt, ItemsOk;
    FlushKeeps(s.flush, a, s'.flush);
    RecoloredPools(places, s, a);
    SameAtPlace(places, s, b);
    SameColor(s, places[b], s.flush.pwqs[b]);
    if a.PrepA? {
      PrepIsPossible(s.flush, s'.flush);
      if s.flush.holder.idx < |places| { IndexIs(places, s, s.flush.holder.idx); }
      IndexIs(places, s, b);
    }
    SameKept(s, s', places[b], s.flush.pwqs[b], s'.flush.pwqs[b]);
  }

  lemma SameColor(s: State, at: Place, pwq: F.Pwq)
    requires at.pool < |s.pools| && at.pwq < |s.pools[at.pool].pwqs| && SameAt(s, at, pwq)
    ensures pwq.workColor == s.pools[at.pool].pwqs[at.pwq].workColor
  {}

  lemma PrepIsPossible(s: F.State, s': F.State)
    requires F.Step(s, F.PrepA, s')
    ensures F.CanPrepPwq(s)
  {}

  lemma FlushStepInv(places: seq<Place>, s: State, a: F.Action, s': State)
    requires Inv(places, s) && IsStep(places, s, OfFlush(a), s')
    ensures Inv(places, s')
  {
    hide FI.Inv, F.Step, PoolOk, There, Recolored, SameAt;
    FI.StepInv(s.flush, a, s'.flush);
    FlushKeeps(s.flush, a, s'.flush);
    RecoloredPools(places, s, a);
    forall b | 0 <= b < |places|
      ensures places[b].pool < |s'.pools| && places[b].pwq < |s'.pools[places[b].pool].pwqs| && b < |s'.flush.pwqs| && SameAt(s', places[b], s'.flush.pwqs[b])
    {
      FlushSameAt(places, s, a, s', b);
    }
  }

  // ---------- runs ----------

  lemma InitPool(s: P.State)
    requires P.Init(s)
    ensures PoolOk(s) && forall p: nat, c: int, t: nat :: !There(s, p, c, t)
  {
    hide PI.Inv, PT.Total;
    PI.InitInv(s);
    PT.InitUnique(s);
    forall p: nat, c: int, t: nat ensures !There(s, p, c, t) { AtMostOnce(s, p, c, t); }
  }

  lemma InitInv(places: seq<Place>, s: State)
    requires Init(places, s)
    ensures Inv(places, s)
  {
    hide FI.Inv, PoolOk, There;
    FI.InitInv(s.flush);
    forall k | 0 <= k < |s.pools| ensures PoolOk(s.pools[k]) { InitPool(s.pools[k]); }
    forall a | 0 <= a < |places| ensures SameAt(s, places[a], s.flush.pwqs[a]) {
      InitPool(s.pools[places[a].pool]);
    }
  }

  lemma StepInv(places: seq<Place>, s: State, step: Step, s': State)
    requires Inv(places, s) && IsStep(places, s, step, s')
    ensures Inv(places, s')
  {
    hide Inv, IsStep;
    match step {
      case OfPool(k, st) => PoolStepInv(places, s, k, st, s');
      case OfFlush(a) => FlushStepInv(places, s, a, s');
    }
  }

  ghost predicate IsRun(places: seq<Place>, states: seq<State>, steps: seq<Step>) {
    && |states| == |steps| + 1 && Init(places, states[0])
    && forall i | 0 <= i < |steps| :: Placed(places, states[i]) && IsStep(places, states[i], steps[i], states[i + 1])
  }

  lemma {:induction false} RunInv(places: seq<Place>, states: seq<State>, steps: seq<Step>, i: nat)
    requires IsRun(places, states, steps) && i < |states|
    ensures Inv(places, states[i])
  {
    hide Inv, IsStep, Init, Placed;
    if i == 0 {
      InitInv(places, states[0]);
    } else {
      RunInv(places, states, steps, i - 1);
      StepInv(places, states[i - 1], steps[i - 1], states[i]);
    }
  }

  /** An entry is queued, delayed or running. */
  ghost predicate Carries(s: P.State, e: Entry) {
    || (exists at: P.Place :: P.Exists(s, at) && P.At(s, at) == e)
    || exists w :: 0 <= w < |s.workers| && s.workers[w].current == Some(e)
  }

  /** The entry e, of pwq p, is the item. */
  ghost predicate IsItem(s: State, at: Place, e: Entry, item: F.Item)
    requires at.pool < |s.pools|
  {
    && Carries(s.pools[at.pool], e) && Colored(e) && e.pwq == at.pwq && e.color == item.color
    && Key(at.pool, e.ticket) in s.items && s.items[Key(at.pool, e.ticket)] == item
  }

  /**
   In every run, a pwq of the workqueue and its place in a pool agree: the counters are the same, every coloured
   entry there is an item in flight of its colour, every item in flight is an entry there, and different entries
   are different items.
   */
  lemma ItemsAreEntries(places: seq<Place>, states: seq<State>, steps: seq<Step>, i: nat, a: nat)
    requires IsRun(places, states, steps) && i < |states| && a < |places|
    ensures var s := states[i]; var at := places[a];
      && at.pool < |s.pools| && at.pwq < |s.pools[at.pool].pwqs| && a < |s.flush.pwqs|
      && s.flush.pwqs[a].nrInFlight == s.pools[at.pool].pwqs[at.pwq].nrInFlight
      && (forall e: Entry | Carries(s.pools[at.pool], e) && Colored(e) && e.pwq == at.pwq ::
            exists item :: item in s.flush.pwqs[a].inFlight && IsItem(s, at, e, item))
      && (forall item | item in s.flush.pwqs[a].inFlight :: exists e :: IsItem(s, at, e, item))
    ensures forall x, y | x in states[i].items && y in states[i].items && states[i].items[x] == states[i].items[y] :: x == y
  {
    hide IsStep, FI.Inv, PoolOk, There, Carries;
    RunInv(places, states, steps, i);
    var s, at := states[i], places[a];
    SameAtPlace(places, s, a);
    forall e: Entry | Carries(s.pools[at.pool], e) && Colored(e) && e.pwq == at.pwq
      ensures exists item :: item in s.flush.pwqs[a].inFlight && IsItem(s, at, e, item)
    {
      CarriedIsThere(s.pools[at.pool], e);
      assert IsItem(s, at, e, s.items[Key(at.pool, e.ticket)]);
    }
    forall item | item in s.flush.pwqs[a].inFlight ensures exists e :: IsItem(s, at, e, item) {
      var t: nat :| Stands(s, at, item, t);
      var e := ThereIsCarried(s.pools[at.pool], at.pwq, item.color, t);
      assert IsItem(s, at, e, item);
    }
  }

  lemma ThereIsCarried(s: P.State, p: nat, c: int, t: nat) returns (e: Entry)
    requires There(s, p, c, t)
    ensures Carries(s, e) && Colored(e) && e.pwq == p && e.color == c && e.ticket == t
  {
    hide PI.Held, PI.Delayed, Count;
    var kind := OfItem(p, c, t);
    if at: P.Place :| P.Exists(s, at) && Is(P.At(s, at), kind) {
      e := P.At(s, at);
    } else if w :| 0 <= w < |s.workers| && s.workers[w].current.Some? && Is(s.workers[w].current.value, kind) {
      e := s.workers[w].current.value;
    } else {
      PS.NotQueued(s, kind);
      NoneRuns(s.workers, kind);
      assert false;
    }
  }

  lemma {:induction false} NoneRuns(ws: seq<P.Worker>, kind: Kind)
    requires forall w | 0 <= w < |ws| && ws[w].current.Some? :: !Is(ws[w].current.value, kind)
    ensures PI.Running(ws, kind) == 0
  {
    if ws != [] { NoneRuns(ws[..|ws| - 1], kind); }
  }

  lemma CarriedIsThere(s: P.State, e: Entry)
    requires Carries(s, e) && Colored(e)
    ensures There(s, e.pwq, e.color, e.ticket)
  {
    hide PI.Held, PI.Running, PI.Delayed, Count;
    var kind := OfItem(e.pwq, e.color, e.ticket);
    if at: P.Place :| P.Exists(s, at) && P.At(s, at) == e {
      PR.PlaceCounts(s, at, kind);
    } else {
      var w :| 0 <= w < |s.workers| && s.workers[w].current == Some(e);
      PT.RunningCounts(s, w, kind);
    }
  }

  /** The flush holds up no pool: what a worker finishes, and what is taken back, the flush can always finish. */
  lemma FinishIsNeverBlocked(places: seq<Place>, states: seq<State>, steps: seq<Step>, i: nat, k: nat, step: P.Step)
    requires IsRun(places, states, steps) && i < |states| && k < |states[i].pools| && P.Enabled(states[i].pools[k], step)
    requires step.DoSetColor? ==> Place(k, step.p) !in places
    requires step.DoQueue? && Place(k, step.p) in places ==> states[i].flush.holder.Free?
    ensures Placed(places, states[i]) && exists s' :: IsStep(places, states[i], OfPool(k, step), s')
  {
    hide FI.Inv, PoolOk, SameAt, P.Apply, P.Enabled;
    RunInv(places, states, steps, i);
    var s := states[i];
    var pools := s.pools[k := P.Apply(s.pools[k], step)];
    NoSetColor(s.pools[k], step);
    if step.DoQueue? && Index(places, k, step.p).Some? {
      var a := Index(places, k, step.p).value;
      CanQueue(s.flush, a);
      var item := F.Item(s.flush.nextTicket, s.flush.pwqs[a].workColor, s.flush.workEpoch);
      assert IsStep(places, s, OfPool(k, step), State(F.QueueWork(s.flush, a), pools, s.items[Key(k, s.pools[k].nextTicket) := item]));
    } else if Dropped(places, s.pools[k], k, step).Some? {
      var (a, e) := Dropped(places, s.pools[k], k, step).value;
      DroppedIsInFlight(places, s, k, step);
      assert IsStep(places, s, OfPool(k, step), State(F.Finish(s.flush, a, s.items[Key(k, e.ticket)]), pools, s.items));
    } else {
      assert IsStep(places, s, OfPool(k, step), State(s.flush, pools, s.items));
    }
  }

  lemma CanQueue(s: F.State, a: nat)
    requires FI.Inv(s) && s.holder.Free? && a < |s.pwqs|
    ensures F.CanQueueWork(s, a)
  {
    assert FI.PwqOk(s, a);
  }

  // ---------- flush safety in the pools ----------

  lemma StepPersists(places: seq<Place>, s: State, step: Step, s': State, f: nat)
    requires Inv(places, s) && IsStep(places, s, step, s') && f < |s.flush.flushers|
    ensures f < |s'.flush.flushers| && FT.Persists(s.flush.flushers[f], s'.flush.flushers[f])
  {
    hide FI.Inv, F.Step, FT.Persists, Same, ItemsOk, PoolOk, P.Apply, P.Enabled;
    match step {
      case OfFlush(a) => FT.StepPersists(s.flush, a, s'.flush, f);
      case OfPool(k, st) =>
        if st.DoQueue? && Index(places, k, st.p).Some? {
          FT.StepPersists(s.flush, F.QueueA(Index(places, k, st.p).value), s'.flush, f);
        } else if Dropped(places, s.pools[k], k, st).Some? {
          var (a, e) := Dropped(places, s.pools[k], k, st).value;
          FT.StepPersists(s.flush, F.FinishA(a, s.items[Key(k, e.ticket)]), s'.flush, f);
        } else {
          SamePersists(s.flush.flushers[f]);
        }
    }
  }

  lemma SamePersists(fl: F.Flusher)
    ensures FT.Persists(fl, fl)
  {}

  /** An entry keeps its item, and whatever has its ticket is of its pwq and colour. */
  lemma StepKeepsEntry(places: seq<Place>, s: State, step: Step, s': State, k: nat, e: Entry)
    requires Inv(places, s) && IsStep(places, s, step, s') && k < |s.pools| && Key(k, e.ticket) in s.items
    requires PT.Total(s.pools[k], OfTicket(e.ticket)) <= PT.Total(s.pools[k], OfItem(e.pwq, e.color, e.ticket))
    ensures k < |s'.pools| && Key(k, e.ticket) in s'.items && s'.items[Key(k, e.ticket)] == s.items[Key(k, e.ticket)]
    ensures PT.Total(s'.pools[k], OfTicket(e.ticket)) <= PT.Total(s'.pools[k], OfItem(e.pwq, e.color, e.ticket))
  {
    hide FI.Inv, F.Step, Same, PI.Inv, P.Apply, P.Enabled, PT.Total, PoolPart, Recolored;
    match step {
      case OfPool(h, st) =>
        ItemsPart(places, s, h, st, s');
        if h == k { PoolKeepsEntry(s.pools[k], st, e); }
      case OfFlush(a) => RecoloredPools(places, s, a);
    }
  }

  lemma PoolKeepsEntry(s: P.State, step: P.Step, e: Entry)
    requires PoolOk(s) && P.Enabled(s, step) && e.ticket < s.nextTicket
    requires PT.Total(s, OfTicket(e.ticket)) <= PT.Total(s, OfItem(e.pwq, e.color, e.ticket))
    ensures var s' := P.Apply(s, step); PT.Total(s', OfTicket(e.ticket)) <= PT.Total(s', OfItem(e.pwq, e.color, e.ticket))
  {
    hide PI.Inv, P.Apply, P.Enabled, PT.Total;
    var tick, item := OfTicket(e.ticket), OfItem(e.pwq, e.color, e.ticket);
    PT.NextTicketGrows(s, step);
    PT.Conserved(s, step, tick);
    PT.Conserved(s, step, item);
    MatchCount(PT.Leaving(s, step), tick);
    MatchCount(PT.Arriving(s, step), tick);
    MatchCount(PT.Leaving(s, step), item);
    MatchCount(PT.Arriving(s, step), item);
  }

  lemma {:induction false} RunKeeps(places: seq<Place>, states: seq<State>, steps: seq<Step>, i: nat, j: nat, f: nat, k: nat, e: Entry)
    requires IsRun(places, states, steps) && i < j < |states| && f < |states[i + 1].flush.flushers|
    requires k < |states[i].pools| && Key(k, e.ticket) in states[i].items
    requires PT.Total(states[i].pools[k], OfTicket(e.ticket)) <= PT.Total(states[i].pools[k], OfItem(e.pwq, e.color, e.ticket))
    ensures f < |states[j].flush.flushers| && FT.Persists(states[i + 1].flush.flushers[f], states[j].flush.flushers[f])
    ensures k < |states[j].pools| && Key(k, e.ticket) in states[j].items && states[j].items[Key(k, e.ticket)] == states[i].items[Key(k, e.ticket)]
    ensures PT.Total(states[j].pools[k], OfTicket(e.ticket)) <= PT.Total(states[j].pools[k], OfItem(e.pwq, e.color, e.ticket))
  {
    hide Inv, IsStep, PT.Total, Init, Placed;
    RunInv(places, states, steps, j - 1);
    if j == i + 1 {
      SamePersists(states[j].flush.flushers[f]);
    } else {
      RunKeeps(places, states, steps, i, j - 1, f, k, e);
      StepPersists(places, states[j - 1], steps[j - 1], states[j], f);
    }
    StepKeepsEntry(places, states[j - 1], steps[j - 1], states[j], k, e);
  }

  /** An item that was in flight when a flusher started is not in flight once that flusher has returned. */
  lemma ReturnedMeansOlderDone(s: F.State, f: nat, a: nat, item: F.Item)
    requires FI.Inv(s) && f < |s.flushers| && s.flushers[f].pc.Returned? && a < |s.pwqs| && item in s.pwqs[a].inFlight
    ensures item.ticket >= s.flushers[f].startTicket
  {
    assert FI.FlusherOk(s, f) && FI.FlusherSafe(s.flushers[f], s.pwqs) && FI.FlusherSplit(s.flushers[f], s.pwqs);
  }

  /**
   Flush safety down to the lists of the pools.  A flush is called at step i, when a pool queues, delays or runs
   the coloured entry e of the workqueue, and has returned in state j.  Then no list and no worker of the pool
   has the entry any more.
   */
  lemma FlushedEntryIsGone(places: seq<Place>, states: seq<State>, steps: seq<Step>, i: nat, j: nat, a: nat, e: Entry)
    requires IsRun(places, states, steps) && i < |steps| && i < j < |states| && steps[i] == OfFlush(F.FlushA)
    requires |states[i].flush.flushers| < |states[j].flush.flushers| && states[j].flush.flushers[|states[i].flush.flushers|].pc.Returned?
    requires a < |places| && places[a].pool < |states[i].pools| && Carries(states[i].pools[places[a].pool], e)
    requires Colored(e) && e.pwq == places[a].pwq
    ensures places[a].pool < |states[j].pools| && PT.Gone(states[j].pools[places[a].pool], e.ticket)
  {
    hide FI.Inv, PI.Inv, F.Step, PT.Total, Carries, PT.Gone;
    var me, k, s := |states[i].flush.flushers|, places[a].pool, states[i];
    RunInv(places, states, steps, i);
    RunInv(places, states, steps, j);
    StartTicket(s.flush, states[i + 1].flush);
    SameAtPlace(places, s, a);
    CarriedIsThere(s.pools[k], e);
    assert PoolOk(s.pools[k]);
    assert PT.Total(s.pools[k], OfTicket(e.ticket)) <= 1;
    RunKeeps(places, states, steps, i, j, me, k, e);
    var item := s.items[Key(k, e.ticket)];
    assert item.ticket < s.flush.nextTicket;
    SameAtPlace(places, states[j], a);
    if There(states[j].pools[k], e.pwq, e.color, e.ticket) {
      ReturnedMeansOlderDone(states[j].flush, me, a, item);
    }
    PT.NoneIsGone(states[j].pools[k], e.ticket);
  }

  lemma StartTicket(s: F.State, s': F.State)
    requires F.Step(s, F.FlushA, s')
    ensures |s'.flushers| == |s.flushers| + 1 && s'.flushers[|s.flushers|].startTicket == s.nextTicket
  {}
}
