/** With max_active 1, the items of a pwq start in the order in which they were queued. */
module PoolOrder {
  import opened WorkColors
  import opened Options
  import opened PoolLists
  import opened PoolProtocol
  import opened PoolInvariant
  import opened PoolSteps

  /** The list holds a coloured item of pwq p with the given ticket. */
  ghost predicate Has(l: seq<Entry>, p: nat, t: int) {
    exists i :: 0 <= i < |l| && l[i].pwq == p && Colored(l[i]) && l[i].ticket == t
  }

  /** Such an item is active, but has not started. */
  ghost predicate Waits(s: State, p: nat, t: int) {
    Has(s.worklist, p, t) || exists w :: 0 <= w < |s.workers| && Has(s.workers[w].scheduled, p, t)
  }

  ghost predicate Rising(l: seq<Entry>) {
    forall i, j | 0 <= i < j < |l| && Colored(l[i]) && Colored(l[j]) :: l[i].ticket < l[j].ticket
  }

  /** What has started comes before what waits, and that before what is delayed, oldest first. */
  ghost predicate Order(s: State, p: nat)
    requires p < |s.pwqs|
  {
    var q := s.pwqs[p];
    && (forall t: int | Waits(s, p, t) :: q.started < t < s.nextTicket)
    && (forall t: int | Has(q.delayedWorks, p, t) :: q.started < t < s.nextTicket)
    && (forall t: int, u: int | Waits(s, p, t) && Has(q.delayedWorks, p, u) :: t < u)
    && Rising(q.delayedWorks) && q.started < s.nextTicket
  }

  ghost predicate Orderly(s: State) {
    forall p | 0 <= p < |s.pwqs| && s.pwqs[p].maxActive == 1 :: Order(s, p)
  }

  // ---------- lists ----------

  lemma HasAppend(a: seq<Entry>, b: seq<Entry>, p: nat, t: int)
    ensures Has(a + b, p, t) <==> Has(a, p, t) || Has(b, p, t)
  {
    var s := a + b;
    if Has(a, p, t) {
      var i :| 0 <= i < |a| && a[i].pwq == p && Colored(a[i]) && a[i].ticket == t;
      assert s[i] == a[i];
    }
    if Has(b, p, t) {
      var i :| 0 <= i < |b| && b[i].pwq == p && Colored(b[i]) && b[i].ticket == t;
      assert s[|a| + i] == b[i];
    }
  }

  lemma HasCut(l: seq<Entry>, i: nat, j: nat, p: nat, t: int)
    requires i <= j <= |l|
    ensures Has(l, p, t) <==> Has(l[..i] + l[j..], p, t) || Has(l[i..j], p, t)
  {
    assert l == l[..i] + l[i..j] + l[j..];
    HasAppend(l[..i] + l[i..j], l[j..], p, t);
    HasAppend(l[..i], l[i..j], p, t);
    HasAppend(l[..i], l[j..], p, t);
  }

  /** No item of that kind. */
  lemma HasNot(l: seq<Entry>, p: nat, t: int)
    ensures Count(l, ColoredOf(p)) == 0 ==> !Has(l, p, t)
  {
    CountNone(l, ColoredOf(p));
    if Has(l, p, t) {
      var i :| 0 <= i < |l| && l[i].pwq == p && Colored(l[i]) && l[i].ticket == t;
      assert l[i] in l;
    }
  }

  lemma RisingCut(l: seq<Entry>, i: nat, j: nat)
    requires i <= j <= |l| && Rising(l)
    ensures Rising(l[..i] + l[j..])
  {
    var t := l[..i] + l[j..];
    forall a, b | 0 <= a < b < |t| && Colored(t[a]) && Colored(t[b]) ensures t[a].ticket < t[b].ticket {
      assert t[a] == l[if a < i then a else a + (j - i)] && t[b] == l[if b < i then b else b + (j - i)];
    }
  }

  lemma HasBarrier(l: seq<Entry>, i: nat, id: nat, ticket: nat, p: nat, t: int)
    requires i < |l|
    ensures Has(WithBarrier(l, i, id, ticket), p, t) ==> Has(l, p, t)
  {
    var m := WithBarrier(l, i, id, ticket);
    if Has(m, p, t) {
      var k :| 0 <= k < |m| && m[k].pwq == p && Colored(m[k]) && m[k].ticket == t;
      assert k != i + 1;
      assert l[if k <= i then k else k - 1].ticket == t;
    }
  }

  lemma RisingBarrier(l: seq<Entry>, i: nat, id: nat, ticket: nat)
    requires i < |l| && Rising(l)
    ensures Rising(WithBarrier(l, i, id, ticket))
  {
    var m := WithBarrier(l, i, id, ticket);
    forall a, b | 0 <= a < b < |m| && Colored(m[a]) && Colored(m[b]) ensures m[a].ticket < m[b].ticket {
      var x, y := if a <= i then a else a - 1, if b <= i then b else b - 1;
      assert m[a].ticket == l[x].ticket && m[b].ticket == l[y].ticket && Colored(l[x]) && Colored(l[y]);
    }
  }

  /** When no coloured item of p is on the worklist or scheduled, none waits. */
  lemma NoneWaits(s: State, p: nat)
    requires Count(s.worklist, ColoredOf(p)) + Held(s.workers, ColoredOf(p)) == 0
    ensures forall t: int :: !Waits(s, p, t)
  {
    forall t: int ensures !Waits(s, p, t) {
      HasNot(s.worklist, p, t);
      forall w | 0 <= w < |s.workers| ensures !Has(s.workers[w].scheduled, p, t) {
        WorkerSet(s.workers, w, s.workers[w], ColoredOf(p));
        HasNot(s.workers[w].scheduled, p, t);
      }
    }
  }

  // ---------- steps that bring nothing new ----------

  /** Nothing new waits or is delayed. */
  ghost predicate Fewer(s: State, s': State, p: nat)
    requires p < |s.pwqs| && p < |s'.pwqs|
  {
    && s'.pwqs[p].started == s.pwqs[p].started && s.nextTicket <= s'.nextTicket && Rising(s'.pwqs[p].delayedWorks)
    && (forall t: int | Waits(s', p, t) :: Waits(s, p, t))
    && (forall t: int | Has(s'.pwqs[p].delayedWorks, p, t) :: Has(s.pwqs[p].delayedWorks, p, t))
  }

  lemma FewerOrder(s: State, s': State, p: nat)
    requires p < |s.pwqs| && p < |s'.pwqs| && Order(s, p) && Fewer(s, s', p)
    ensures Order(s', p)
  {
    hide Waits, Has, Rising;
  }

  /** Every list of s' only has what some list of s has. */
  lemma WaitsSub(s: State, s': State, p: nat, t: int)
    requires Waits(s', p, t)
    requires Has(s'.worklist, p, t) ==> Waits(s, p, t)
    requires forall w | 0 <= w < |s'.workers| && Has(s'.workers[w].scheduled, p, t) :: Waits(s, p, t)
    ensures Waits(s, p, t)
  {
    if !Has(s'.worklist, p, t) {
      var w :| 0 <= w < |s'.workers| && Has(s'.workers[w].scheduled, p, t);
    }
  }

  lemma TakeWaits(s: State, v: nat, p: nat, t: int)
    requires v < |s.workers| && s.worklist != []
    ensures var j := RunEnd(s.worklist, 0);
      var s' := s.(worklist := s.worklist[j..], workers := s.workers[v := s.workers[v].(scheduled := s.workers[v].scheduled + s.worklist[..j])]);
      Waits(s', p, t) ==> Waits(s, p, t)
  {
    var j := RunEnd(s.worklist, 0);
    var s' := s.(worklist := s.worklist[j..], workers := s.workers[v := s.workers[v].(scheduled := s.workers[v].scheduled + s.worklist[..j])]);
    HasAppend(s.worklist[..j], s.worklist[j..], p, t);
    assert s.worklist == s.worklist[..j] + s.worklist[j..];
    HasAppend(s.workers[v].scheduled, s.worklist[..j], p, t);
    if Waits(s', p, t) { WaitsSub(s, s', p, t); }
  }

  lemma DeferWaits(s: State, w: nat, v: nat, p: nat, t: int)
    requires CanDefer(s, w, v, false)
    ensures Waits(Defer(s, w, v, false), p, t) ==> Waits(s, p, t)
  {
    var s' := Defer(s, w, v, false);
    var l := s.workers[w].scheduled;
    var j := RunEnd(l, 0);
    assert l == l[..j] + l[j..];
    HasAppend(l[..j], l[j..], p, t);
    HasAppend(s.workers[v].scheduled, l[..j], p, t);
    if Waits(s', p, t) { WaitsSub(s, s', p, t); }
  }

  lemma WithoutWaits(s: State, at: Place, p: nat, t: int)
    requires Exists(s, at) && !at.InDelayed?
    ensures Waits(Without(s, at), p, t) ==> Waits(s, p, t)
  {
    match at {
      case InWorklist(i) => HasCut(s.worklist, i, i + 1, p, t);
      case InScheduled(w, i) => HasCut(s.workers[w].scheduled, i, i + 1, p, t);
    }
    if Waits(Without(s, at), p, t) { WaitsSub(s, Without(s, at), p, t); }
  }

  lemma BarrierWaits(s: State, at: Place, id: nat, p: nat, t: int)
    requires CanBarrier(s, at, id)
    ensures Waits(Barrier(s, at, id), p, t) ==> Waits(s, p, t)
  {
    match at {
      case InWorklist(i) => HasBarrier(s.worklist, i, id, s.nextTicket, p, t);
      case InScheduled(w, i) => HasBarrier(s.workers[w].scheduled, i, id, s.nextTicket, p, t);
      case InDelayed(q, i) =>
    }
    if Waits(Barrier(s, at, id), p, t) { WaitsSub(s, Barrier(s, at, id), p, t); }
  }

  lemma BarrierRunningWaits(s: State, w: nat, id: nat, p: nat, t: int)
    requires CanBarrierRunning(s, w, id)
    ensures Waits(BarrierRunning(s, w, id), p, t) ==> Waits(s, p, t)
  {
    var b := Entry(id, s.workers[w].current.value.pwq, WORK_NO_COLOR, false, s.nextTicket);
    HasAppend([b], s.workers[w].scheduled, p, t);
    if Waits(BarrierRunning(s, w, id), p, t) { WaitsSub(s, BarrierRunning(s, w, id), p, t); }
  }

  // ---------- activation ----------

  lemma ActivateWaits(s: State, p: nat, i: nat, q: nat, t: int)
    requires p < |s.pwqs| && i < |s.pwqs[p].delayedWorks|
    ensures var d := s.pwqs[p].delayedWorks;
      Waits(Activate(s, p, i), q, t) ==> Waits(s, q, t) || Has(d[i..RunEnd(d, i)], q, t)
  {
    var d := s.pwqs[p].delayedWorks;
    HasAppend(s.worklist, d[i..RunEnd(d, i)], q, t);
  }

  /** A run has one coloured item: its first. */
  lemma RunHas(d: seq<Entry>, i: nat, p: nat, q: nat, t: int)
    requires i < |d| && Chained(d) && (forall e | e in d :: e.pwq == p) && Has(d[i..RunEnd(d, i)], q, t)
    ensures q == p && t == d[i].ticket
  {
    RunStops(d, i);
    var r := d[i..RunEnd(d, i)];
    var k :| 0 <= k < |r| && r[k].pwq == q && Colored(r[k]) && r[k].ticket == t;
    assert d[i + k] in d;
  }

  /** What is behind the first run of a rising list comes after its first item. */
  lemma BehindHead(d: seq<Entry>, p: nat, t: int)
    requires d != [] && Rising(d) && Colored(d[0]) && Has(d[RunEnd(d, 0)..], p, t)
    ensures Has(d, p, t) && d[0].ticket < t
  {
    var j := RunEnd(d, 0);
    var k :| 0 <= k < |d[j..]| && d[j..][k].pwq == p && Colored(d[j..][k]) && d[j..][k].ticket == t;
    assert d[j + k] == d[j..][k];
  }

  /** The oldest delayed item gets its turn when nothing waits. */
  lemma ActivateOrder(s: State, p: nat)
    requires Listed(s) && p < |s.pwqs| && s.pwqs[p].delayedWorks != [] && Order(s, p) && forall t: int :: !Waits(s, p, t)
    ensures Order(Activate(s, p, 0), p)
  {
    var s', d := Activate(s, p, 0), s.pwqs[p].delayedWorks;
    assert PwqOk(s.pwqs[p], p, |s.pwqs|);
    var j := RunEnd(d, 0);
    forall t: int | Waits(s', p, t) ensures t == d[0].ticket {
      ActivateWaits(s, p, 0, p, t);
      RunHas(d, 0, p, p, t);
    }
    assert d[0] in d && Has(d, p, d[0].ticket);
    assert d[..0] + d[j..] == d[j..];
    RisingCut(d, 0, j);
    forall t: int | Has(d[j..], p, t) ensures Has(d, p, t) && d[0].ticket < t { BehindHead(d, p, t); }
    hide Listed, PwqOk, Waits, Has, Rising;
  }

  lemma ActivateFewer(s: State, p: nat, i: nat, q: nat)
    requires Listed(s) && p < |s.pwqs| && q < |s.pwqs| && q != p && i < |s.pwqs[p].delayedWorks| && Rising(s.pwqs[q].delayedWorks)
    ensures Fewer(s, Activate(s, p, i), q)
  {
    var s', d := Activate(s, p, i), s.pwqs[p].delayedWorks;
    assert PwqOk(s.pwqs[p], p, |s.pwqs|);
    forall t: int | Waits(s', q, t) ensures Waits(s, q, t) {
      ActivateWaits(s, p, i, q, t);
      if Has(d[i..RunEnd(d, i)], q, t) { RunHas(d, i, p, q, t); }
    }
  }

  // ---------- pwq_dec_nr_in_flight ----------

  lemma DropFewer(s: State, p: nat, c: int, q: nat)
    requires p < |s.pwqs| && q < |s.pwqs| && 0 <= c < |s.pwqs[p].nrInFlight| && Rising(s.pwqs[q].delayedWorks)
    ensures Fewer(s, Drop(s, p, c), q)
  {
    assert forall t: int :: Waits(Drop(s, p, c), q, t) <==> Waits(s, q, t);
  }

  lemma DecOrder(s: State, e: Entry)
    requires Listed(s) && Fits(e, |s.pwqs|) && Counted(s, [e]) && Orderly(s)
    requires Colored(e) && s.pwqs[e.pwq].maxActive == 1 ==> s.pwqs[e.pwq].nrActive >= 1
    ensures Orderly(Dec(s, e.pwq, e.color))
  {
    var p, c := e.pwq, e.color;
    var s' := Dec(s, p, c);
    assert PwqOk(s.pwqs[p], p, |s.pwqs|);
    forall q | 0 <= q < |s'.pwqs| && s'.pwqs[q].maxActive == 1 ensures Order(s', q) {
      assert Order(s, q);
      if !Colored(e) {
        assert forall t: int :: Waits(s', q, t) <==> Waits(s, q, t);
        FewerOrder(s, s', q);
      } else {
        DecOneOrder(s, e, q);
      }
    }
  }

  lemma DecOneOrder(s: State, e: Entry, q: nat)
    requires Listed(s) && Fits(e, |s.pwqs|) && Counted(s, [e]) && Colored(e) && q < |s.pwqs| && s.pwqs[q].maxActive == 1 && Order(s, q)
    requires s.pwqs[e.pwq].maxActive == 1 ==> s.pwqs[e.pwq].nrActive >= 1
    requires |s.pwqs[e.pwq].nrInFlight| == WORK_NR_COLORS
    ensures q < |Dec(s, e.pwq, e.color).pwqs| && Order(Dec(s, e.pwq, e.color), q)
  {
    var p, c := e.pwq, e.color;
    DecIs(s, p, c);
    DropCounted(s, e);
    var s1 := Drop(s, p, c);
    DropFewer(s, p, c, q);
    FewerOrder(s, s1, q);
    if s.pwqs[p].delayedWorks != [] && s.pwqs[p].nrActive - 1 < s.pwqs[p].maxActive {
      if q == p {
        assert Account(s1, p, []);
        NoneWaits(s1, p);
        hide Listed, Counted, Order;
        ActivateOrder(s1, p);
      } else {
        hide Listed, Counted;
        ActivateFewer(s1, p, 0, q);
        FewerOrder(s1, Activate(s1, p, 0), q);
      }
    }
  }

  // ---------- all steps ----------

  lemma QueueOrder(s: State, p: nat, id: nat)
    requires Inv(s) && Orderly(s) && CanQueue(s, p, id)
    ensures Orderly(Queue(s, p, id))
  {
    var s' := Queue(s, p, id);
    forall q | 0 <= q < |s'.pwqs| && s'.pwqs[q].maxActive == 1 ensures Order(s', q) {
      assert Order(s, q);
      QueueOneOrder(s, p, id, q);
    }
  }

  lemma QueueOneOrder(s: State, p: nat, id: nat, q: nat)
    requires Inv(s) && CanQueue(s, p, id) && q < |s.pwqs| && s.pwqs[q].maxActive == 1 && Order(s, q)
    ensures Order(Queue(s, p, id), q)
  {
    var s' := Queue(s, p, id);
    var e := Entry(id, p, s.pwqs[p].workColor, false, s.nextTicket);
    assert PwqOk(s.pwqs[p], p, |s.pwqs|) && Account(s, q, []);
    NoDelayedBelow(s, p);
    forall t: int ensures Waits(s', q, t) ==> Waits(s, q, t) || (q == p && t == s.nextTicket) { QueueWaits(s, p, id, q, t); }
    if s.pwqs[p].nrActive < s.pwqs[p].maxActive {
      if q == p { NoneWaits(s, p); }
    } else {
      forall t: int ensures Has(s'.pwqs[q].delayedWorks, q, t) ==> Has(s.pwqs[q].delayedWorks, q, t) || (q == p && t == s.nextTicket) {
        HasAppend(s.pwqs[p].delayedWorks, [e], q, t);
        OneHas(e, q, t);
      }
      if q == p { RisingAdd(s.pwqs[p].delayedWorks, e, p); }
      assert forall t: int :: Waits(s', q, t) <==> Waits(s, q, t);
    }
  }

  lemma QueueWaits(s: State, p: nat, id: nat, q: nat, t: int)
    requires CanQueue(s, p, id)
    ensures Waits(Queue(s, p, id), q, t) ==> Waits(s, q, t) || (q == p && t == s.nextTicket)
  {
    var e := Entry(id, p, s.pwqs[p].workColor, false, s.nextTicket);
    HasAppend(s.worklist, [e], q, t);
    OneHas(e, q, t);
  }

  lemma OneHas(e: Entry, p: nat, t: int)
    ensures Has([e], p, t) ==> e.pwq == p && e.ticket == t
  {}

  lemma RisingAdd(l: seq<Entry>, e: Entry, p: nat)
    requires Rising(l) && (forall t: int | Has(l, p, t) :: t < e.ticket) && forall x | x in l :: x.pwq == p
    ensures Rising(l + [e])
  {
    var m := l + [e];
    forall i, j | 0 <= i < j < |m| && Colored(m[i]) && Colored(m[j]) ensures m[i].ticket < m[j].ticket {
      if j == |l| {
        assert l[i] in l && Has(l, p, l[i].ticket);
      }
    }
  }

  lemma GrabOrder(s: State, at: Place)
    requires Inv(s) && Orderly(s) && CanGrab(s, at)
    ensures Orderly(Grab(s, at))
  {
    var e := At(s, at);
    AtFits(s, at);
    if !at.InDelayed? {
      WithoutCounted(s, at);
      var s1 := Without(s, at);
      forall q | 0 <= q < |s1.pwqs| && s1.pwqs[q].maxActive == 1 ensures Order(s1, q) {
        assert Order(s, q);
        forall t: int ensures Waits(s1, q, t) ==> Waits(s, q, t) { WithoutWaits(s, at, q, t); }
        FewerOrder(s, s1, q);
      }
      assert Account(s1, e.pwq, [e]);
      CountOne(e, ColoredOf(e.pwq));
      hide Listed, Counted, Order;
      DecOrder(s1, e);
    } else {
      GrabDelayedOrder(s, at, e);
    }
  }

  lemma GrabDelayedOrder(s: State, at: Place, e: Entry)
    requires Inv(s) && Orderly(s) && CanGrab(s, at) && at.InDelayed? && e == At(s, at) && e.pwq == at.p && Fits(e, |s.pwqs|)
    ensures Orderly(Grab(s, at))
  {
    var p, i := at.p, at.i;
    var s1 := Activate(s, p, i);
    ActivateCounted(s, p, i, []);
    assert s1.worklist[|s.worklist|] == e;
    var s2 := Without(s1, InWorklist(|s.worklist|));
    WithoutCounted(s1, InWorklist(|s.worklist|));
    forall q | 0 <= q < |s2.pwqs| && s2.pwqs[q].maxActive == 1 ensures Order(s2, q) {
      assert Order(s, q);
      TakenOutFewer(s, p, i, q);
      FewerOrder(s, s2, q);
    }
    assert Limited(s.pwqs[p]);
    hide Listed, Counted, Order, Without, Limits;
    DecOrder(s2, e);
  }

  /** Activating a delayed item and taking it out again leaves nothing new but its barriers. */
  lemma TakenOutFewer(s: State, p: nat, i: nat, q: nat)
    requires Listed(s) && p < |s.pwqs| && q < |s.pwqs| && i < |s.pwqs[p].delayedWorks| && Colored(s.pwqs[p].delayedWorks[i])
    requires Rising(s.pwqs[q].delayedWorks)
    ensures Fewer(s, Without(Activate(s, p, i), InWorklist(|s.worklist|)), q)
  {
    var d := s.pwqs[p].delayedWorks;
    var j := RunEnd(d, i);
    var s2 := Without(Activate(s, p, i), InWorklist(|s.worklist|));
    assert PwqOk(s.pwqs[p], p, |s.pwqs|);
    RunStops(d, i);
    var r := d[i..j];
    assert (s.worklist + r)[..|s.worklist|] + (s.worklist + r)[|s.worklist| + 1..] == s.worklist + r[1..];
    forall t: int | Waits(s2, q, t) ensures Waits(s, q, t) {
      HasAppend(s.worklist, r[1..], q, t);
      BarriersHaveNot(r[1..], q, t);
      WaitsSub(s, s2, q, t);
    }
    if q == p {
      RisingCut(d, i, j);
      forall t: int | Has(d[..i] + d[j..], p, t) ensures Has(d, p, t) { HasCut(d, i, j, p, t); }
    }
  }

  lemma BarriersHaveNot(l: seq<Entry>, p: nat, t: int)
    requires forall k | 0 <= k < |l| :: !Colored(l[k])
    ensures !Has(l, p, t)
  {}

  lemma StartOrder(s: State, w: nat, fromWorklist: bool)
    requires Inv(s) && Orderly(s) && CanStart(s, w, fromWorklist)
    ensures Orderly(Start(s, w, fromWorklist))
  {
    var s', e := Start(s, w, fromWorklist), Next(s, w, fromWorklist);
    StartedPwqs(s.(pending := s.pending - {e.id}), e);
    forall p | 0 <= p < |s'.pwqs| && s'.pwqs[p].maxActive == 1 ensures Order(s', p) {
      assert Order(s, p);
      StartOneOrder(s, w, fromWorklist, p);
    }
  }

  lemma StartOneOrder(s: State, w: nat, fromWorklist: bool, p: nat)
    requires Inv(s) && CanStart(s, w, fromWorklist) && p < |s.pwqs| && s.pwqs[p].maxActive == 1 && Order(s, p)
    ensures p < |Start(s, w, fromWorklist).pwqs| && Order(Start(s, w, fromWorklist), p)
  {
    var s', e := Start(s, w, fromWorklist), Next(s, w, fromWorklist);
    StartedPwqs(s.(pending := s.pending - {e.id}), e);
    forall t: int ensures Waits(s', p, t) ==> Waits(s, p, t) { StartWaits(s, w, fromWorklist, p, t); }
    if Colored(e) && e.pwq == p {
      OnlyOneActive(s, w, fromWorklist);
      NoneWaits(s', p);
      NextWaits(s, w, fromWorklist);
    }
    hide Inv, Waits, Has, Rising, CanStart;
  }

  /** With one active item, starting it leaves none waiting. */
  lemma OnlyOneActive(s: State, w: nat, fromWorklist: bool)
    requires Inv(s) && CanStart(s, w, fromWorklist) && Colored(Next(s, w, fromWorklist))
    requires Next(s, w, fromWorklist).pwq < |s.pwqs| && s.pwqs[Next(s, w, fromWorklist).pwq].maxActive == 1
    ensures var s', p := Start(s, w, fromWorklist), Next(s, w, fromWorklist).pwq;
      Count(s'.worklist, ColoredOf(p)) + Held(s'.workers, ColoredOf(p)) == 0
  {
    var p := Next(s, w, fromWorklist).pwq;
    assert Account(s, p, []) && Limited(s.pwqs[p]);
    hide Inv, Account;
    StartCounts(s, w, fromWorklist, ColoredOf(p));
  }

  lemma NextWaits(s: State, w: nat, fromWorklist: bool)
    requires CanStart(s, w, fromWorklist) && Colored(Next(s, w, fromWorklist))
    ensures var e := Next(s, w, fromWorklist); Waits(s, e.pwq, e.ticket)
  {
    var e := Next(s, w, fromWorklist);
    if fromWorklist {
      assert Has(s.worklist, e.pwq, e.ticket);
    } else {
      assert Has(s.workers[w].scheduled, e.pwq, e.ticket);
    }
  }

  lemma StartWaits(s: State, w: nat, fromWorklist: bool, p: nat, t: int)
    requires CanStart(s, w, fromWorklist)
    ensures Waits(Start(s, w, fromWorklist), p, t) ==> Waits(s, p, t)
  {
    var s' := Start(s, w, fromWorklist);
    var l := if fromWorklist then s.worklist else s.workers[w].scheduled;
    assert l == [l[0]] + l[1..];
    HasAppend([l[0]], l[1..], p, t);
    if Waits(s', p, t) { WaitsSub(s, s', p, t); }
  }

  lemma FinishOrder(s: State, w: nat)
    requires Inv(s) && Orderly(s) && CanFinish(s, w)
    ensures Orderly(Finish(s, w))
  {
    var e := s.workers[w].current.value;
    var x := s.workers[w].(current := None);
    var s1 := s.(workers := s.workers[w := x]);
    FinishCounted(s, w);
    forall q | 0 <= q < |s1.pwqs| && s1.pwqs[q].maxActive == 1 ensures Order(s1, q) {
      assert Order(s, q);
      forall t: int | Waits(s1, q, t) ensures Waits(s, q, t) { WaitsSub(s, s1, q, t); }
      FewerOrder(s, s1, q);
    }
    assert Account(s1, e.pwq, [e]);
    CountOne(e, ColoredOf(e.pwq));
    hide Listed, Counted, Order;
    DecOrder(s1, e);
  }

  lemma BarrierOrder(s: State, at: Place, id: nat)
    requires Inv(s) && Orderly(s) && CanBarrier(s, at, id)
    ensures Orderly(Barrier(s, at, id))
  {
    var s' := Barrier(s, at, id);
    forall q | 0 <= q < |s'.pwqs| && s'.pwqs[q].maxActive == 1 ensures Order(s', q) {
      assert Order(s, q);
      forall t: int ensures Waits(s', q, t) ==> Waits(s, q, t) { BarrierWaits(s, at, id, q, t); }
      if at.InDelayed? && at.p == q {
        RisingBarrier(s.pwqs[q].delayedWorks, at.i, id, s.nextTicket);
        forall t: int ensures Has(s'.pwqs[q].delayedWorks, q, t) ==> Has(s.pwqs[q].delayedWorks, q, t) {
          HasBarrier(s.pwqs[q].delayedWorks, at.i, id, s.nextTicket, q, t);
        }
      }
      FewerOrder(s, s', q);
    }
  }

  lemma MovedOrder(s: State, s': State)
    requires Orderly(s) && s'.pwqs == s.pwqs && s.nextTicket <= s'.nextTicket
    requires forall p: nat, t: int :: Waits(s', p, t) ==> Waits(s, p, t)
    ensures Orderly(s')
  {
    forall q | 0 <= q < |s'.pwqs| && s'.pwqs[q].maxActive == 1 ensures Order(s', q) {
      assert Order(s, q);
      FewerOrder(s, s', q);
    }
  }

  lemma DeferOrder(s: State, w: nat, v: nat, fromWorklist: bool)
    requires Orderly(s) && CanDefer(s, w, v, fromWorklist)
    ensures Orderly(Defer(s, w, v, fromWorklist))
  {
    var s' := Defer(s, w, v, fromWorklist);
    forall p: nat, t: int ensures Waits(s', p, t) ==> Waits(s, p, t) {
      if fromWorklist { TakeWaits(s, v, p, t); } else { DeferWaits(s, w, v, p, t); }
    }
    hide Waits, Defer;
    MovedOrder(s, s');
  }

  lemma TakeRunOrder(s: State, w: nat)
    requires Orderly(s) && CanTakeRun(s, w)
    ensures Orderly(TakeRun(s, w))
  {
    var s' := TakeRun(s, w);
    forall p: nat, t: int ensures Waits(s', p, t) ==> Waits(s, p, t) { TakeWaits(s, w, p, t); }
    hide Waits;
    MovedOrder(s, s');
  }

  lemma BarrierRunningOrder(s: State, w: nat, id: nat)
    requires Orderly(s) && CanBarrierRunning(s, w, id)
    ensures Orderly(BarrierRunning(s, w, id))
  {
    var s' := BarrierRunning(s, w, id);
    forall q | 0 <= q < |s'.pwqs| && s'.pwqs[q].maxActive == 1 ensures Order(s', q) {
      assert Order(s, q);
      forall t: int ensures Waits(s', q, t) ==> Waits(s, q, t) { BarrierRunningWaits(s, w, id, q, t); }
      FewerOrder(s, s', q);
    }
  }

  lemma StillOrder(s: State, s': State)
    requires Orderly(s) && s'.worklist == s.worklist && s'.workers == s.workers && s'.nextTicket == s.nextTicket && |s'.pwqs| == |s.pwqs|
    requires forall p | 0 <= p < |s.pwqs| :: s'.pwqs[p].started == s.pwqs[p].started && s'.pwqs[p].delayedWorks == s.pwqs[p].delayedWorks && s'.pwqs[p].maxActive == s.pwqs[p].maxActive
    ensures Orderly(s')
  {
    assert forall p: nat, t: int :: Waits(s', p, t) <==> Waits(s, p, t);
    forall q | 0 <= q < |s'.pwqs| && s'.pwqs[q].maxActive == 1 ensures Order(s', q) {
      assert Order(s, q);
      FewerOrder(s, s', q);
    }
  }

  lemma StepOrder(s: State, step: Step)
    requires Inv(s) && Orderly(s) && Enabled(s, step)
    ensures Orderly(Apply(s, step))
  {
    hide Inv, Orderly;
    match step {
      case DoSetColor(p, c) => StillOrder(s, SetColor(s, p, c));
      case DoQueue(p, id) => QueueOrder(s, p, id);
      case DoGrab(at) => GrabOrder(s, at);
      case DoClaim(id) => StillOrder(s, Claim(s, id));
      case DoRelease(id) => StillOrder(s, Release(s, id));
      case DoBarrier(at, id) => BarrierOrder(s, at, id);
      case DoBarrierRunning(w, id) => BarrierRunningOrder(s, w, id);
      case DoTakeRun(w) => TakeRunOrder(s, w);
      case DoDefer(w, v, fromWorklist) => DeferOrder(s, w, v, fromWorklist);
      case DoStart(w, fromWorklist) => StartOrder(s, w, fromWorklist);
      case DoFinish(w) => FinishOrder(s, w);
    }
  }
}
