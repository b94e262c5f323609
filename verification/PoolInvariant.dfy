/** What every step of a worker pool keeps: exact counters, the limit on active items, single execution, order. */
module PoolInvariant {
  import opened WorkColors
  import opened Options
  import opened PoolLists
  import opened PoolProtocol

  // ---------- sums ----------

  function Held(ws: seq<Worker>, kind: Kind): nat {
    if ws == [] then 0 else Held(ws[..|ws| - 1], kind) + Count(ws[|ws| - 1].scheduled, kind)
  }

  function RunOf(w: Worker, kind: Kind): nat {
    if w.current.Some? then One(w.current.value, kind) else 0
  }

  function Running(ws: seq<Worker>, kind: Kind): nat {
    if ws == [] then 0 else Running(ws[..|ws| - 1], kind) + RunOf(ws[|ws| - 1], kind)
  }

  function Delayed(ps: seq<Pwq>, kind: Kind): nat {
    if ps == [] then 0 else Delayed(ps[..|ps| - 1], kind) + Count(ps[|ps| - 1].delayedWorks, kind)
  }

  lemma {:induction false} WorkerSet(ws: seq<Worker>, w: nat, x: Worker, kind: Kind)
    requires w < |ws|
    ensures Held(ws[w := x], kind) == Held(ws, kind) - Count(ws[w].scheduled, kind) + Count(x.scheduled, kind)
    ensures Running(ws[w := x], kind) == Running(ws, kind) - RunOf(ws[w], kind) + RunOf(x, kind)
    ensures Count(ws[w].scheduled, kind) <= Held(ws, kind) && RunOf(ws[w], kind) <= Running(ws, kind)
  {
    var n := |ws| - 1;
    if w == n {
      assert ws[w := x][..n] == ws[..n];
    } else {
      assert ws[w := x][..n] == ws[..n][w := x];
      WorkerSet(ws[..n], w, x, kind);
    }
  }

  lemma {:induction false} PwqSet(ps: seq<Pwq>, p: nat, x: Pwq, kind: Kind)
    requires p < |ps|
    ensures Delayed(ps[p := x], kind) == Delayed(ps, kind) - Count(ps[p].delayedWorks, kind) + Count(x.delayedWorks, kind)
    ensures Count(ps[p].delayedWorks, kind) <= Delayed(ps, kind)
  {
    var n := |ps| - 1;
    if p == n {
      assert ps[p := x][..n] == ps[..n];
    } else {
      assert ps[p := x][..n] == ps[..n][p := x];
      PwqSet(ps[..n], p, x, kind);
    }
  }

  /** Items of a kind that are not delayed: on the worklist, scheduled with a worker, or running. */
  function Active(s: State, kind: Kind): nat {
    Count(s.worklist, kind) + Held(s.workers, kind) + Running(s.workers, kind)
  }

  /** How often an id is queued. */
  function Queued(s: State, id: nat): nat {
    Count(s.worklist, OfId(id)) + Held(s.workers, OfId(id)) + Delayed(s.pwqs, OfId(id))
  }

  // ---------- the invariant ----------

  predicate Fits(e: Entry, n: nat) {
    e.pwq < n && 0 <= e.color <= WORK_NO_COLOR
  }

  ghost predicate ListOk(l: seq<Entry>, n: nat) {
    Chained(l) && forall e | e in l :: Fits(e, n)
  }

  ghost predicate WorkerOk(w: Worker, n: nat) {
    ListOk(w.scheduled, n) && (w.current.Some? ==> Fits(w.current.value, n))
  }

  ghost predicate PwqOk(q: Pwq, p: nat, n: nat) {
    && |q.nrInFlight| == WORK_NR_COLORS && 0 <= q.workColor < WORK_NR_COLORS && q.maxActive > 0
    && ListOk(q.delayedWorks, n) && Headed(q.delayedWorks) && forall e | e in q.delayedWorks :: e.pwq == p
  }

  ghost predicate Listed(s: State) {
    && ListOk(s.worklist, |s.pwqs|)
    && (forall w | 0 <= w < |s.workers| :: WorkerOk(s.workers[w], |s.pwqs|))
    && forall p | 0 <= p < |s.pwqs| :: PwqOk(s.pwqs[p], p, |s.pwqs|)
  }

  /** The counters of a pwq are exact, but for the extra items that have just left the lists. */
  ghost predicate Account(s: State, p: nat, extra: seq<Entry>)
    requires p < |s.pwqs| && |s.pwqs[p].nrInFlight| == WORK_NR_COLORS
  {
    var q := s.pwqs[p];
    && q.refcnt == 1 + Active(s, OfPwq(p)) + Count(q.delayedWorks, OfPwq(p)) + Count(extra, OfPwq(p))
    && q.nrActive == Active(s, ColoredOf(p)) + Count(extra, ColoredOf(p))
    && forall c | 0 <= c < WORK_NR_COLORS ::
         q.nrInFlight[c] == Active(s, OfColor(p, c)) + Count(q.delayedWorks, OfColor(p, c)) + Count(extra, OfColor(p, c))
  }

  ghost predicate Counted(s: State, extra: seq<Entry>)
    requires Listed(s)
  {
    forall p | 0 <= p < |s.pwqs| :: Account(s, p, extra)
  }

  /** No more than max_active active items, and items are delayed only when there are as many. */
  predicate Limited(q: Pwq) {
    q.nrActive <= q.maxActive && (q.delayedWorks != [] ==> q.nrActive == q.maxActive)
  }

  ghost predicate Limits(s: State) {
    forall p | 0 <= p < |s.pwqs| :: Limited(s.pwqs[p])
  }

  /** An item whose PENDING bit is clear is not queued, and no item is queued twice. */
  ghost predicate Owned(s: State) {
    forall id: nat :: Queued(s, id) <= 1 && (Queued(s, id) > 0 ==> id in s.pending)
  }

  /** No two workers run the same item. */
  ghost predicate Alone(s: State) {
    forall v, w | 0 <= v < w < |s.workers| && s.workers[v].current.Some? && s.workers[w].current.Some? ::
      s.workers[v].current.value.id != s.workers[w].current.value.id
  }

  ghost predicate Inv(s: State) {
    Listed(s) && Counted(s, []) && Limits(s) && Owned(s) && Alone(s)
  }

  lemma CountNil(kind: Kind)
    ensures Count([], kind) == 0
  {}

  // ---------- the start ----------

  lemma {:induction false} IdleSums(ws: seq<Worker>, kind: Kind)
    requires forall w | 0 <= w < |ws| :: ws[w] == Worker(None, [])
    ensures Held(ws, kind) == 0 && Running(ws, kind) == 0
  {
    if ws != [] { IdleSums(ws[..|ws| - 1], kind); }
  }

  lemma {:induction false} NoDelayed(ps: seq<Pwq>, kind: Kind)
    requires forall p | 0 <= p < |ps| :: ps[p].delayedWorks == []
    ensures Delayed(ps, kind) == 0
  {
    if ps != [] { NoDelayed(ps[..|ps| - 1], kind); }
  }

  lemma InitInv(s: State)
    requires Init(s)
    ensures Inv(s)
  {
    forall kind: Kind ensures Active(s, kind) == 0 {
      IdleSums(s.workers, kind);
    }
    forall id: nat ensures Queued(s, id) == 0 {
      IdleSums(s.workers, OfId(id));
      NoDelayed(s.pwqs, OfId(id));
    }
  }

  // ---------- lists ----------

  lemma ListAppend(a: seq<Entry>, b: seq<Entry>, n: nat)
    requires ListOk(a, n) && ListOk(b, n)
    ensures ListOk(a + b, n)
  {
    ChainedAppend(a, b);
  }

  lemma ListOne(e: Entry, n: nat)
    requires Fits(e, n) && !e.linked
    ensures ListOk([e], n)
  {}

  /** The run at the front of a list, and the rest. */
  lemma ListFront(l: seq<Entry>, n: nat)
    requires ListOk(l, n) && l != []
    ensures ListOk(l[..RunEnd(l, 0)], n) && ListOk(l[RunEnd(l, 0)..], n) && (Headed(l) ==> Headed(l[RunEnd(l, 0)..]))
  {
    FrontOut(l);
  }

  lemma ListRun(l: seq<Entry>, i: nat, n: nat)
    requires ListOk(l, n) && i < |l| && Colored(l[i])
    ensures var j := RunEnd(l, i);
      ListOk(l[i..j], n) && ListOk(l[..i] + l[j..], n) && (Headed(l) ==> Headed(l[..i] + l[j..]))
  {
    RunOut(l, i);
  }

  lemma ListItem(l: seq<Entry>, i: nat, n: nat)
    requires ListOk(l, n) && i < |l| && Colored(l[i])
    ensures ListOk(l[..i] + l[i + 1..], n)
  {
    ItemOut(l, i);
  }

  lemma ListBarrier(l: seq<Entry>, i: nat, id: nat, ticket: nat, n: nat)
    requires ListOk(l, n) && i < |l|
    ensures ListOk(WithBarrier(l, i, id, ticket), n) && (Headed(l) ==> Headed(WithBarrier(l, i, id, ticket)))
    ensures forall e | e in WithBarrier(l, i, id, ticket) :: e.pwq == l[i].pwq || exists f :: f in l && e.pwq == f.pwq
  {
    BarrierChained(l, i, id, ticket);
    var t := WithBarrier(l, i, id, ticket);
    forall e | e in t ensures Fits(e, n) && (e.pwq == l[i].pwq || exists f :: f in l && e.pwq == f.pwq) {
      assert l[i] in l;
      if e in l {}
    }
  }

  // ---------- activation ----------

  lemma RunCounts(d: seq<Entry>, i: nat, p: nat)
    requires i < |d| && Chained(d) && Colored(d[i]) && (forall e | e in d :: e.pwq == p)
    ensures var r := d[i..RunEnd(d, i)];
      Count(r, ColoredOf(p)) == 1 && (forall e | e in r :: e.pwq == p) && forall q: nat | q != p :: Count(r, ColoredOf(q)) == 0 && Count(r, OfPwq(q)) == 0
    ensures var r := d[i..RunEnd(d, i)]; forall q: nat, c: int | q != p :: Count(r, OfColor(q, c)) == 0
  {
    var r := d[i..RunEnd(d, i)];
    RunStops(d, i);
    CountNone(r[1..], ColoredOf(p));
    assert forall e | e in r :: e in d;
    forall q: nat | q != p ensures Count(r, ColoredOf(q)) == 0 && Count(r, OfPwq(q)) == 0 {
      CountNone(r, ColoredOf(q));
      CountNone(r, OfPwq(q));
    }
    forall q: nat, c: int | q != p ensures Count(r, OfColor(q, c)) == 0 {
      CountNone(r, OfColor(q, c));
    }
  }

  /** Activation only moves items of one pwq from its delayed list to the worklist. */
  lemma ActivateMoves(s: State, p: nat, i: nat, kind: Kind)
    requires p < |s.pwqs| && i < |s.pwqs[p].delayedWorks|
    ensures var d := s.pwqs[p].delayedWorks; var r := d[i..RunEnd(d, i)]; var s' := Activate(s, p, i);
      && Active(s', kind) == Active(s, kind) + Count(r, kind)
      && Count(s'.pwqs[p].delayedWorks, kind) + Count(r, kind) == Count(d, kind)
      && Count(s'.worklist, kind) + Held(s'.workers, kind) + Delayed(s'.pwqs, kind) == Count(s.worklist, kind) + Held(s.workers, kind) + Delayed(s.pwqs, kind)
  {
    var d := s.pwqs[p].delayedWorks;
    var j := RunEnd(d, i);
    CountCut(d, i, j, kind);
    CountAppend(s.worklist, d[i..j], kind);
    PwqSet(s.pwqs, p, Activate(s, p, i).pwqs[p], kind);
  }

  lemma ActivateListed(s: State, p: nat, i: nat)
    requires Listed(s) && p < |s.pwqs| && i < |s.pwqs[p].delayedWorks| && Colored(s.pwqs[p].delayedWorks[i])
    ensures Listed(Activate(s, p, i))
  {
    var q := s.pwqs[p];
    var n := |s.pwqs|;
    assert PwqOk(q, p, n);
    ListRun(q.delayedWorks, i, n);
    ListAppend(s.worklist, q.delayedWorks[i..RunEnd(q.delayedWorks, i)], n);
    var s' := Activate(s, p, i);
    assert PwqOk(s'.pwqs[p], p, n);
    hide ListOk, PwqOk, WorkerOk;
  }

  lemma ActivateCounted(s: State, p: nat, i: nat, extra: seq<Entry>)
    requires Listed(s) && p < |s.pwqs| && i < |s.pwqs[p].delayedWorks| && Colored(s.pwqs[p].delayedWorks[i]) && Counted(s, extra)
    ensures Listed(Activate(s, p, i)) && Counted(Activate(s, p, i), extra)
  {
    var s', d := Activate(s, p, i), s.pwqs[p].delayedWorks;
    ActivateListed(s, p, i);
    assert PwqOk(s.pwqs[p], p, |s.pwqs|);
    RunCounts(d, i, p);
    hide Listed, PwqOk, Activate, Active;
    forall q | 0 <= q < |s'.pwqs| ensures Account(s', q, extra) {
      assert Account(s, q, extra);
      ActivateAccount(s, p, i, extra, q);
    }
  }

  lemma ActivateAccount(s: State, p: nat, i: nat, extra: seq<Entry>, q: nat)
    requires p < |s.pwqs| && i < |s.pwqs[p].delayedWorks| && q < |s.pwqs| && |s.pwqs[q].nrInFlight| == WORK_NR_COLORS
    requires var d := s.pwqs[p].delayedWorks; var r := d[i..RunEnd(d, i)];
      && Count(r, ColoredOf(p)) == 1 && (q != p ==> Count(r, ColoredOf(q)) == 0 && Count(r, OfPwq(q)) == 0)
      && (q != p ==> forall c: int :: Count(r, OfColor(q, c)) == 0)
    requires Account(s, q, extra)
    ensures Account(Activate(s, p, i), q, extra)
  {
    var s' := Activate(s, p, i);
    ActivateMoves(s, p, i, OfPwq(q));
    ActivateMoves(s, p, i, ColoredOf(q));
    forall c | 0 <= c < WORK_NR_COLORS
      ensures s'.pwqs[q].nrInFlight[c] == Active(s', OfColor(q, c)) + Count(s'.pwqs[q].delayedWorks, OfColor(q, c)) + Count(extra, OfColor(q, c))
    {
      ActivateMoves(s, p, i, OfColor(q, c));
    }
  }

  // ---------- pwq_dec_nr_in_flight ----------

  /** The counters of pwq p give up the extra item. */
  function Drop(s: State, p: nat, c: int): State
    requires p < |s.pwqs| && 0 <= c < |s.pwqs[p].nrInFlight|
  {
    var q := s.pwqs[p];
    s.(pwqs := s.pwqs[p := q.(nrInFlight := q.nrInFlight[c := q.nrInFlight[c] - 1], nrActive := q.nrActive - 1, refcnt := q.refcnt - 1)])
  }

  lemma SamePwqCounts(s: State, p: nat, x: Pwq, kind: Kind)
    requires p < |s.pwqs| && x.delayedWorks == s.pwqs[p].delayedWorks
    ensures Delayed(s.pwqs[p := x], kind) == Delayed(s.pwqs, kind)
  {
    PwqSet(s.pwqs, p, x, kind);
  }

  lemma DropCounted(s: State, e: Entry)
    requires Listed(s) && Fits(e, |s.pwqs|) && Colored(e) && Counted(s, [e])
    ensures Listed(Drop(s, e.pwq, e.color)) && Counted(Drop(s, e.pwq, e.color), [])
  {
    var p, s' := e.pwq, Drop(s, e.pwq, e.color);
    assert PwqOk(s.pwqs[p], p, |s.pwqs|);
    assert PwqOk(s'.pwqs[p], p, |s.pwqs|);
    forall q | 0 <= q < |s'.pwqs| ensures Account(s', q, []) {
      assert Account(s, q, [e]);
      CountOne(e, OfPwq(q));
      CountOne(e, ColoredOf(q));
      forall c | 0 <= c < WORK_NR_COLORS
        ensures s'.pwqs[q].nrInFlight[c] == Active(s', OfColor(q, c)) + Count(s'.pwqs[q].delayedWorks, OfColor(q, c)) + Count([], OfColor(q, c))
      {
        CountOne(e, OfColor(q, c));
      }
    }
  }

  lemma PutCounted(s: State, e: Entry)
    requires Listed(s) && Fits(e, |s.pwqs|) && !Colored(e) && Counted(s, [e])
    ensures Listed(Put(s, e.pwq)) && Counted(Put(s, e.pwq), [])
  {
    var p, s' := e.pwq, Put(s, e.pwq);
    assert PwqOk(s.pwqs[p], p, |s.pwqs|);
    assert PwqOk(s'.pwqs[p], p, |s.pwqs|);
    forall q | 0 <= q < |s'.pwqs| ensures Account(s', q, []) {
      assert Account(s, q, [e]);
      CountOne(e, OfPwq(q));
      CountOne(e, ColoredOf(q));
      forall c | 0 <= c < WORK_NR_COLORS
        ensures s'.pwqs[q].nrInFlight[c] == Active(s', OfColor(q, c)) + Count(s'.pwqs[q].delayedWorks, OfColor(q, c)) + Count([], OfColor(q, c))
      {
        CountOne(e, OfColor(q, c));
      }
    }
  }

  /** How many active items there may be right before one of them is taken off the counters. */
  predicate Ready(q: Pwq) {
    q.nrActive <= q.maxActive + 1 && (q.delayedWorks != [] ==> q.nrActive >= q.maxActive)
  }

  /** Dec is Drop, followed by an activation if the limit allows one. */
  lemma DecIs(s: State, p: nat, c: int)
    requires p < |s.pwqs| && 0 <= c < |s.pwqs[p].nrInFlight| && c != WORK_NO_COLOR
    ensures var q := s.pwqs[p];
      Dec(s, p, c) == if q.delayedWorks != [] && q.nrActive - 1 < q.maxActive then Activate(Drop(s, p, c), p, 0) else Drop(s, p, c)
  {}

  lemma DropListed(s: State, p: nat, c: int)
    requires Listed(s) && p < |s.pwqs| && 0 <= c < |s.pwqs[p].nrInFlight|
    ensures Listed(Drop(s, p, c))
  {
    var s' := Drop(s, p, c);
    assert PwqOk(s.pwqs[p], p, |s.pwqs|) && PwqOk(s'.pwqs[p], p, |s.pwqs|);
    hide PwqOk, WorkerOk, ListOk;
  }

  lemma DecCounted(s: State, e: Entry)
    requires Listed(s) && Fits(e, |s.pwqs|) && Counted(s, [e])
    requires forall q | 0 <= q < |s.pwqs| :: if Colored(e) && q == e.pwq then Ready(s.pwqs[q]) else Limited(s.pwqs[q])
    ensures var s' := Dec(s, e.pwq, e.color);
      && Listed(s') && Counted(s', []) && Limits(s') && s'.workers == s.workers && s'.pending == s.pending
      && forall id: nat :: Queued(s', id) == Queued(s, id)
  {
    var p, c := e.pwq, e.color;
    assert PwqOk(s.pwqs[p], p, |s.pwqs|);
    hide Listed, Counted, PwqOk;
    if !Colored(e) {
      PutCounted(s, e);
      var s' := Dec(s, p, c);
      forall id: nat ensures Queued(s', id) == Queued(s, id) { SamePwqCounts(s, p, s'.pwqs[p], OfId(id)); }
    } else {
      DropCounted(s, e);
      DecIs(s, p, c);
      var s1 := Drop(s, p, c);
      forall id: nat ensures Queued(s1, id) == Queued(s, id) { SamePwqCounts(s, p, s1.pwqs[p], OfId(id)); }
      if s.pwqs[p].delayedWorks != [] && s.pwqs[p].nrActive - 1 < s.pwqs[p].maxActive {
        FirstColored(s1, p);
        ActivateCounted(s1, p, 0, []);
        forall id: nat ensures Queued(Activate(s1, p, 0), id) == Queued(s1, id) { ActivateMoves(s1, p, 0, OfId(id)); }
      }
    }
  }

  lemma FirstColored(s: State, p: nat)
    requires Listed(s) && p < |s.pwqs| && s.pwqs[p].delayedWorks != []
    ensures Colored(s.pwqs[p].delayedWorks[0])
  {
    assert PwqOk(s.pwqs[p], p, |s.pwqs|);
  }
}
