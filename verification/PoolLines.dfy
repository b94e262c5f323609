/**
 The worklist of a pool and the lists of its workers are lines: who comes first leaves first, and only
 a barrier for the running item goes to the front.
 */
module PoolLines {
  import opened Options
  import opened PoolLists
  import opened PoolProtocol
  import opened PoolInvariant
  import opened PoolTheorems
  import opened PoolTickets

  /** The worklist, or what is scheduled with a worker. */
  datatype Line = Worklist | AtWorker(w: nat)

  function LineOf(s: State, line: Line): seq<Entry> {
    match line
    case Worklist => s.worklist
    case AtWorker(w) => if w < |s.workers| then s.workers[w].scheduled else []
  }

  ghost predicate On(l: seq<Entry>, t: nat) {
    exists x :: 0 <= x < |l| && l[x].ticket == t
  }

  /** The item with ticket t stands in front of the one with ticket u. */
  ghost predicate Ahead(l: seq<Entry>, t: nat, u: nat) {
    exists x, y :: 0 <= x < y < |l| && l[x].ticket == t && l[y].ticket == u
  }

  ghost predicate Comes(s: State, step: Step, line: Line, t: nat) {
    Enabled(s, step) && !On(LineOf(s, line), t) && On(LineOf(Apply(s, step), line), t)
  }

  ghost predicate Leaves(s: State, step: Step, line: Line, t: nat) {
    Enabled(s, step) && On(LineOf(s, line), t) && !On(LineOf(Apply(s, step), line), t)
  }

  predicate InsertsBarrier(step: Step) {
    step.DoBarrier? || step.DoBarrierRunning?
  }

  // ---------- lists ----------

  lemma OnParts(a: seq<Entry>, b: seq<Entry>, t: nat)
    ensures On(a + b, t) <==> On(a, t) || On(b, t)
  {
    if On(a, t) {
      var x :| 0 <= x < |a| && a[x].ticket == t;
      assert (a + b)[x] == a[x];
    }
    if On(b, t) {
      var x :| 0 <= x < |b| && b[x].ticket == t;
      assert (a + b)[|a| + x] == b[x];
    }
  }

  lemma AheadAt(l: seq<Entry>, x: nat, y: nat, t: nat, u: nat)
    requires x < y < |l| && l[x].ticket == t && l[y].ticket == u
    ensures Ahead(l, t, u)
  {}

  lemma AheadParts(a: seq<Entry>, b: seq<Entry>, t: nat, u: nat)
    requires On(a, t) && On(b, u)
    ensures Ahead(a + b, t, u)
  {
    var x :| 0 <= x < |a| && a[x].ticket == t;
    var y :| 0 <= y < |b| && b[y].ticket == u;
    AheadAt(a + b, x, |a| + y, t, u);
  }

  /** What is cut out of a list and what is put at its end leave the others in their order. */
  lemma AheadCut(l: seq<Entry>, i: nat, j: nat, m: seq<Entry>, t: nat, u: nat)
    requires i <= j <= |l| && Ahead(l, t, u)
    ensures Ahead(l[..i] + l[j..] + m, t, u) || On(l[i..j], t) || (i > 0 && On(l[i..j], u))
  {
    var x, y :| 0 <= x < y < |l| && l[x].ticket == t && l[y].ticket == u;
    var r := l[..i] + l[j..] + m;
    if i <= x < j {
      assert l[i..j][x - i] == l[x];
    } else if i <= y < j {
      assert l[i..j][y - i] == l[y];
    } else {
      var x', y' := if x < i then x else x - (j - i), if y < i then y else y - (j - i);
      assert r[x'] == l[x] && r[y'] == l[y];
      AheadAt(r, x', y', t, u);
    }
  }

  lemma AheadBarrier(l: seq<Entry>, i: nat, id: nat, ticket: nat, t: nat, u: nat)
    requires i < |l| && Ahead(l, t, u)
    ensures Ahead(WithBarrier(l, i, id, ticket), t, u)
  {
    var x, y :| 0 <= x < y < |l| && l[x].ticket == t && l[y].ticket == u;
    AheadAt(WithBarrier(l, i, id, ticket), if x <= i then x else x + 1, if y <= i then y else y + 1, t, u);
  }

  lemma OnBarrier(l: seq<Entry>, i: nat, id: nat, ticket: nat, t: nat)
    requires i < |l| && On(l, t)
    ensures On(WithBarrier(l, i, id, ticket), t)
  {
    var x :| 0 <= x < |l| && l[x].ticket == t;
    assert WithBarrier(l, i, id, ticket)[if x <= i then x else x + 1].ticket == t;
  }

  lemma AheadOn(l: seq<Entry>, t: nat, u: nat)
    requires Ahead(l, t, u)
    ensures On(l, t) && On(l, u)
  {
    var x, y :| 0 <= x < y < |l| && l[x].ticket == t && l[y].ticket == u;
  }

  lemma OnRest(l: seq<Entry>, i: nat, j: nat, t: nat)
    requires i <= j <= |l|
    ensures On(l, t) <==> On(l[..i] + l[j..], t) || On(l[i..j], t)
  {
    hide On;
    assert l == l[..i] + l[i..j] + l[j..];
    OnParts(l[..i] + l[i..j], l[j..], t);
    OnParts(l[..i], l[i..j], t);
    OnParts(l[..i], l[j..], t);
  }

  /** When no ticket is there twice, what is cut off the front is gone. */
  lemma CutOff(l: seq<Entry>, j: nat, t: nat)
    requires j <= |l| && On(l[..j], t) && forall x, y | 0 <= x < y < |l| :: l[x].ticket != l[y].ticket
    ensures !On(l[j..], t)
  {
    var x :| 0 <= x < j && l[..j][x].ticket == t;
    forall y | 0 <= y < |l[j..]| ensures l[j..][y].ticket != t {
      assert l[x].ticket != l[j + y].ticket;
    }
  }

  // ---------- tickets on a line ----------

  lemma LineCounts(s: State, line: Line, kind: Kind)
    ensures Count(LineOf(s, line), kind) <= Total(s, kind)
  {
    match line {
      case Worklist =>
      case AtWorker(w) => if w < |s.workers| { WorkerSet(s.workers, w, s.workers[w], kind); }
    }
  }

  lemma OnCounts(s: State, line: Line, t: nat)
    requires On(LineOf(s, line), t)
    ensures Total(s, OfTicket(t)) >= 1
  {
    hide Total, LineOf;
    var x :| 0 <= x < |LineOf(s, line)| && LineOf(s, line)[x].ticket == t;
    LineCounts(s, line, OfTicket(t));
    HoldsCounts(LineOf(s, line), x, OfTicket(t));
  }

  lemma Twice(l: seq<Entry>, x: nat, y: nat, kind: Kind)
    requires x < y < |l| && Is(l[x], kind) && Is(l[y], kind)
    ensures Count(l, kind) >= 2
  {
    CountAt(l, x, kind);
    HoldsCounts(l[..x] + l[x + 1..], y - 1, kind);
  }

  lemma Distinct(s: State, line: Line)
    requires Unique(s)
    ensures forall x, y | 0 <= x < y < |LineOf(s, line)| :: LineOf(s, line)[x].ticket != LineOf(s, line)[y].ticket
  {
    hide Total, LineOf, Unique;
    var l := LineOf(s, line);
    forall x, y | 0 <= x < y < |l| ensures l[x].ticket != l[y].ticket {
      if l[x].ticket == l[y].ticket {
        Twice(l, x, y, OfTicket(l[x].ticket));
        LineCounts(s, line, OfTicket(l[x].ticket));
        AtMostOnce(s, l[x].ticket);
      }
    }
  }

  lemma AtMostOnce(s: State, t: nat)
    requires Unique(s)
    ensures Total(s, OfTicket(t)) <= 1
  {
    hide Total;
  }

  /** An item that has been taken back is nowhere. */
  lemma GrabbedIsGone(s: State, at: Place)
    requires Inv(s) && Unique(s) && CanGrab(s, at)
    ensures Total(Grab(s, at), OfTicket(At(s, at).ticket)) == 0
  {
    hide Total, Unique, Grab, Counted, Limits, Owned, Alone;
    var t := At(s, at).ticket;
    GrabTotal(s, at, OfTicket(t));
    CountOne(At(s, at), OfTicket(t));
    AtMostOnce(s, t);
  }

  // ---------- how a line moves ----------

  lemma DecLine(s: State, p: nat, c: int) returns (m: seq<Entry>)
    requires p < |s.pwqs| && (c != WORK_NO_COLOR ==> 0 <= c < |s.pwqs[p].nrInFlight|)
    ensures Dec(s, p, c).worklist == s.worklist + m && Dec(s, p, c).workers == s.workers
  {
    hide RunEnd;
    m := [];
    if c != WORK_NO_COLOR {
      DecIs(s, p, c);
      var d := s.pwqs[p].delayedWorks;
      if d != [] && s.pwqs[p].nrActive - 1 < s.pwqs[p].maxActive { m := d[0..RunEnd(d, 0)]; }
    }
  }

  lemma GrabActiveLine(s: State, at: Place, line: Line) returns (i: nat, j: nat, m: seq<Entry>)
    requires CanGrab(s, at) && !at.InDelayed?
    ensures var l := LineOf(s, line); i <= j <= |l| && j <= i + 1 && LineOf(Grab(s, at), line) == l[..i] + l[j..] + m
    ensures i < j ==> LineOf(s, line)[i] == At(s, at)
  {
    hide Dec, RunEnd;
    var l := LineOf(s, line);
    var more := DecLine(Without(s, at), At(s, at).pwq, At(s, at).color);
    i, j, m := 0, 0, if line.Worklist? then more else [];
    match at {
      case InWorklist(k) => if line.Worklist? { i, j := k, k + 1; }
      case InScheduled(w, k) => if line == AtWorker(w) { i, j := k, k + 1; }
    }
    if i == j { assert l[..i] + l[j..] == l; }
  }

  lemma GrabDelayedLine(s: State, at: Place, line: Line) returns (m: seq<Entry>)
    requires CanGrab(s, at) && at.InDelayed?
    ensures LineOf(Grab(s, at), line) == LineOf(s, line) + m
  {
    hide Dec, RunEnd;
    var s1, k := Activate(s, at.p, at.i), |s.worklist|;
    var d := s.pwqs[at.p].delayedWorks;
    var r := d[at.i..RunEnd(d, at.i)];
    var more := DecLine(Without(s1, InWorklist(k)), At(s, at).pwq, At(s, at).color);
    assert s1.worklist[..k] + s1.worklist[k + 1..] == s.worklist + r[1..];
    m := if line.Worklist? then r[1..] + more else [];
  }

  lemma GrabLine(s: State, at: Place, line: Line) returns (i: nat, j: nat, m: seq<Entry>)
    requires CanGrab(s, at)
    ensures var l := LineOf(s, line); i <= j <= |l| && j <= i + 1 && LineOf(Grab(s, at), line) == l[..i] + l[j..] + m
    ensures i < j ==> LineOf(s, line)[i] == At(s, at)
  {
    hide Grab, LineOf;
    if at.InDelayed? {
      i, j := 0, 0;
      m := GrabDelayedLine(s, at, line);
      assert LineOf(s, line)[..0] + LineOf(s, line)[0..] == LineOf(s, line);
    } else {
      i, j, m := GrabActiveLine(s, at, line);
    }
  }

  /** The line that a worker takes its next item from. */
  function Source(w: nat, fromWorklist: bool): Line {
    if fromWorklist then Worklist else AtWorker(w)
  }

  /** What a step takes out of a line: any one item for a grab, else the first item, or the run at the front. */
  ghost predicate CutOut(s: State, step: Step, line: Line, i: nat, j: nat)
    requires Enabled(s, step) && i < j <= |LineOf(s, line)|
  {
    match step
    case DoGrab(at) => j == i + 1 && LineOf(s, line)[i] == At(s, at)
    case DoStart(w, fromWorklist) => i == 0 && j == 1 && line == Source(w, fromWorklist)
    case DoDefer(w, _, fromWorklist) => i == 0 && j == RunEnd(LineOf(s, line), 0) && line == Source(w, fromWorklist)
    case DoTakeRun(_) => i == 0 && j == RunEnd(LineOf(s, line), 0) && line.Worklist?
    case _ => false
  }

  lemma DeferLine(s: State, w: nat, v: nat, fromWorklist: bool, line: Line) returns (j: nat, m: seq<Entry>)
    requires CanDefer(s, w, v, fromWorklist)
    ensures j <= |LineOf(s, line)| && LineOf(Defer(s, w, v, fromWorklist), line) == LineOf(s, line)[j..] + m
    ensures j > 0 ==> j == RunEnd(LineOf(s, line), 0) && line == Source(w, fromWorklist) && m == []
  {
    hide RunEnd;
    j, m := 0, [];
    if line == Source(w, fromWorklist) {
      j := RunEnd(LineOf(s, line), 0);
    } else if line == AtWorker(v) {
      var from := LineOf(s, Source(w, fromWorklist));
      m := from[..RunEnd(from, 0)];
    }
  }

  lemma StartedLists(s: State, e: Entry)
    ensures Started(s, e).worklist == s.worklist && Started(s, e).workers == s.workers
  {}

  lemma StartLine(s: State, w: nat, fromWorklist: bool, line: Line) returns (j: nat)
    requires CanStart(s, w, fromWorklist)
    ensures j <= |LineOf(s, line)| && LineOf(Start(s, w, fromWorklist), line) == LineOf(s, line)[j..]
    ensures j > 0 ==> j == 1 && line == Source(w, fromWorklist)
  {
    hide Started;
    StartedLists(s.(pending := s.pending - {Next(s, w, fromWorklist).id}), Next(s, w, fromWorklist));
    j := if line == Source(w, fromWorklist) then 1 else 0;
  }

  /** Except for barriers, items come to a line only at its end; and only a grab takes one out of its middle. */
  lemma LineMoves(s: State, step: Step, line: Line) returns (i: nat, j: nat, m: seq<Entry>)
    requires Enabled(s, step) && !InsertsBarrier(step)
    ensures var l := LineOf(s, line); i <= j <= |l| && LineOf(Apply(s, step), line) == l[..i] + l[j..] + m
    ensures i < j ==> CutOut(s, step, line, i, j) && (step.DoGrab? || m == [])
  {
    hide Dec, Grab, RunEnd, Defer, Start;
    var l := LineOf(s, line);
    i, j, m := 0, 0, [];
    match step {
      case DoQueue(p, id) =>
        if line.Worklist? && s.pwqs[p].nrActive < s.pwqs[p].maxActive { m := [Entry(id, p, s.pwqs[p].workColor, false, s.nextTicket)]; }
      case DoGrab(at) => i, j, m := GrabLine(s, at, line);
      case DoTakeRun(w) =>
        if line.Worklist? { j := RunEnd(l, 0); } else if line.w == w { m := s.worklist[..RunEnd(s.worklist, 0)]; }
      case DoDefer(w, v, fromWorklist) => j, m := DeferLine(s, w, v, fromWorklist, line);
      case DoStart(w, fromWorklist) => j := StartLine(s, w, fromWorklist, line);
      case DoFinish(w) =>
        var e := s.workers[w].current.value;
        var more := DecLine(s.(workers := s.workers[w := s.workers[w].(current := None)]), e.pwq, e.color);
        if line.Worklist? { m := more; }
      case _ =>
    }
    if !step.DoGrab? { assert l[..0] + l[j..] + m == l[j..] + m && l[0..] == l; }
    assert l[j..] + [] == l[j..];
  }

  /** A barrier comes to a line, and nobody leaves or changes his place among the others. */
  lemma BarrierKeeps(s: State, step: Step, line: Line, t: nat)
    requires Enabled(s, step) && InsertsBarrier(step) && On(LineOf(s, line), t)
    ensures On(LineOf(Apply(s, step), line), t)
    ensures forall u | Ahead(LineOf(s, line), t, u) :: Ahead(LineOf(Apply(s, step), line), t, u)
  {
    hide WithBarrier, On, Ahead;
    var l := LineOf(s, line);
    match step {
      case DoBarrier(at, id) =>
        match at {
          case InWorklist(i) => if line.Worklist? { BarrierPut(l, i, id, s.nextTicket, t); }
          case InScheduled(w, i) => if line == AtWorker(w) { BarrierPut(l, i, id, s.nextTicket, t); }
          case InDelayed(_, _) =>
        }
      case DoBarrierRunning(w, id) =>
        var b := Entry(id, s.workers[w].current.value.pwq, WORK_NO_COLOR, false, s.nextTicket);
        if line == AtWorker(w) { InFront(b, l, t); }
    }
  }

  lemma BarrierPut(l: seq<Entry>, i: nat, id: nat, ticket: nat, t: nat)
    requires i < |l| && On(l, t)
    ensures var r := WithBarrier(l, i, id, ticket); On(r, t) && forall u | Ahead(l, t, u) :: Ahead(r, t, u)
  {
    hide On, Ahead;
    OnBarrier(l, i, id, ticket, t);
    forall u | Ahead(l, t, u) ensures Ahead(WithBarrier(l, i, id, ticket), t, u) { AheadBarrier(l, i, id, ticket, t, u); }
  }

  lemma InFront(b: Entry, l: seq<Entry>, t: nat)
    requires On(l, t)
    ensures On([b] + l, t) && Ahead([b] + l, b.ticket, t) && forall u | Ahead(l, t, u) :: Ahead([b] + l, t, u)
  {
    var r := [b] + l;
    var x :| 0 <= x < |l| && l[x].ticket == t;
    AheadAt(r, 0, x + 1, b.ticket, t);
    OnParts([b], l, t);
    forall u | Ahead(l, t, u) ensures Ahead(r, t, u) {
      var x, y :| 0 <= x < y < |l| && l[x].ticket == t && l[y].ticket == u;
      AheadAt(r, x + 1, y + 1, t, u);
    }
  }

  /**
   The ways out of a line: the first item starts, the run at the front goes to a worker's line, or the item
   is taken back.
   */
  lemma HowItLeaves(s: State, step: Step, line: Line, t: nat)
    requires Leaves(s, step, line, t)
    ensures match step
      case DoGrab(at) => At(s, at).ticket == t
      case DoStart(w, fromWorklist) => line == Source(w, fromWorklist) && Next(s, w, fromWorklist).ticket == t
      case DoDefer(w, _, fromWorklist) => line == Source(w, fromWorklist) && On(LineOf(s, line)[..RunEnd(LineOf(s, line), 0)], t)
      case DoTakeRun(_) => line.Worklist? && On(s.worklist[..RunEnd(s.worklist, 0)], t)
      case _ => false
  {
    hide Apply, RunEnd, On;
    var l := LineOf(s, line);
    if InsertsBarrier(step) {
      BarrierKeeps(s, step, line, t);
    } else {
      var i, j, m := LineMoves(s, step, line);
      OnCut(l, i, j, m, t);
      if i < j { assert CutOut(s, step, line, i, j); }
    }
  }

  lemma OnCut(l: seq<Entry>, i: nat, j: nat, m: seq<Entry>, t: nat)
    requires i <= j <= |l| && On(l, t) && !On(l[..i] + l[j..] + m, t)
    ensures i < j && On(l[i..j], t) && (i == 0 ==> On(l[..j], t)) && (j == i + 1 ==> l[i].ticket == t)
  {
    OnRest(l, i, j, t);
    OnParts(l[..i] + l[j..], m, t);
    assert i == 0 ==> l[i..j] == l[..j];
  }

  // ---------- first come, first served ----------

  /** What is cut out of a line is not on it any more. */
  lemma CutLeaves(s: State, step: Step, line: Line, i: nat, j: nat, m: seq<Entry>, t: nat)
    requires Inv(s) && Unique(s) && Enabled(s, step) && i < j <= |LineOf(s, line)| && CutOut(s, step, line, i, j) && (step.DoGrab? || m == [])
    requires LineOf(Apply(s, step), line) == LineOf(s, line)[..i] + LineOf(s, line)[j..] + m && On(LineOf(s, line)[i..j], t)
    ensures Leaves(s, step, line, t) && (step.DoGrab? ==> Total(Apply(s, step), OfTicket(t)) == 0)
  {
    hide Inv, Unique, Total, LineOf, RunEnd, Grab;
    var l := LineOf(s, line);
    OnRest(l, i, j, t);
    if step.DoGrab? {
      GrabbedIsGone(s, step.at);
      if On(LineOf(Apply(s, step), line), t) { OnCounts(Apply(s, step), line, t); }
    } else {
      Distinct(s, line);
      assert l[i..j] == l[..j] && l[..i] + l[j..] + m == l[j..];
      CutOff(l, j, t);
    }
  }

  lemma NotFirst(s: State, line: Line, t: nat, u: nat)
    requires Unique(s) && Ahead(LineOf(s, line), t, u)
    ensures LineOf(s, line)[0].ticket != u
  {
    hide Unique, LineOf;
    var x, y :| 0 <= x < y < |LineOf(s, line)| && LineOf(s, line)[x].ticket == t && LineOf(s, line)[y].ticket == u;
    Distinct(s, line);
    assert LineOf(s, line)[0].ticket != LineOf(s, line)[y].ticket;
  }

  /** Who stands in front stays in front until he leaves, unless the one behind is taken back. */
  lemma StaysAhead(s: State, step: Step, line: Line, t: nat, u: nat)
    requires Inv(s) && Unique(s) && Enabled(s, step) && Ahead(LineOf(s, line), t, u)
    ensures Ahead(LineOf(Apply(s, step), line), t, u) || Leaves(s, step, line, t) || Total(Apply(s, step), OfTicket(u)) == 0
  {
    hide Inv, Unique, Total, Apply, On, Ahead, LineOf, Leaves, Enabled, CutOut;
    var l := LineOf(s, line);
    AheadOn(l, t, u);
    if InsertsBarrier(step) {
      BarrierKeeps(s, step, line, t);
    } else {
      var i, j, m := LineMoves(s, step, line);
      AheadCut(l, i, j, m, t, u);
      if i < j {
        if On(l[i..j], t) {
          CutLeaves(s, step, line, i, j, m, t);
        } else if i > 0 && On(l[i..j], u) {
          OnlyGrabsWithin(s, step, line, i, j);
          CutLeaves(s, step, line, i, j, m, u);
        }
      } else {
        NothingBetween(l, i, t, u);
      }
    }
  }

  lemma OnlyGrabsWithin(s: State, step: Step, line: Line, i: nat, j: nat)
    requires Enabled(s, step) && i < j <= |LineOf(s, line)| && CutOut(s, step, line, i, j) && i > 0
    ensures step.DoGrab?
  {}

  lemma NothingBetween(l: seq<Entry>, i: nat, t: nat, u: nat)
    requires i <= |l|
    ensures !On(l[i..i], t) && !On(l[i..i], u)
  {}

  /** Only the first item of a line starts. */
  lemma BehindDoesNotStart(s: State, step: Step, line: Line, t: nat, u: nat)
    requires Unique(s) && Ahead(LineOf(s, line), t, u) && step.DoStart?
    ensures !Leaves(s, step, line, u)
  {
    hide Unique, Apply, On, Ahead;
    NotFirst(s, line, t, u);
    if Leaves(s, step, line, u) { HowItLeaves(s, step, line, u); }
  }

  /** Who comes to a line other than as a barrier comes behind all who are there. */
  lemma ComesBehind(s: State, step: Step, line: Line, t: nat, u: nat)
    requires Inv(s) && Unique(s) && !InsertsBarrier(step) && On(LineOf(s, line), t) && Comes(s, step, line, u)
    ensures Ahead(LineOf(Apply(s, step), line), t, u) || Leaves(s, step, line, t)
  {
    hide Inv, Unique, Apply, On, Ahead, LineOf, Leaves, Enabled, CutOut;
    var l := LineOf(s, line);
    var i, j, m := LineMoves(s, step, line);
    OnRest(l, i, j, t);
    OnRest(l, i, j, u);
    OnParts(l[..i] + l[j..], m, u);
    if On(l[i..j], t) {
      if i == j { NothingBetween(l, i, t, t); }
      CutLeaves(s, step, line, i, j, m, t);
    } else {
      AheadParts(l[..i] + l[j..], m, t, u);
    }
  }

  /** A barrier for the running item comes in front of all that is scheduled with its worker. */
  lemma BarrierComesFirst(s: State, w: nat, id: nat, t: nat)
    requires CanBarrierRunning(s, w, id) && On(LineOf(s, AtWorker(w)), t)
    ensures Ahead(LineOf(BarrierRunning(s, w, id), AtWorker(w)), s.nextTicket, t)
  {
    hide On, Ahead;
    InFront(Entry(id, s.workers[w].current.value.pwq, WORK_NO_COLOR, false, s.nextTicket), s.workers[w].scheduled, t);
  }

  /**
   Where an item goes that leaves a line: it runs at the worker that starts it, it joins the line of the
   worker that runs the same item already or has taken its run, or it is nowhere.
   */
  lemma WhereItGoes(s: State, step: Step, line: Line, t: nat)
    requires Inv(s) && Unique(s) && Leaves(s, step, line, t)
    ensures var s' := Apply(s, step);
      match step
      case DoStart(w, _) => w < |s'.workers| && s'.workers[w].current.Some? && s'.workers[w].current.value.ticket == t
      case DoDefer(w, v, _) => Runs(s', v, LineOf(s, line)[0].id) && On(LineOf(s', AtWorker(v)), t)
      case DoTakeRun(w) => On(LineOf(s', AtWorker(w)), t)
      case DoGrab(_) => Total(s', OfTicket(t)) == 0
      case _ => false
  {
    hide Inv, Unique, Total, On, RunEnd, Grab, Started;
    HowItLeaves(s, step, line, t);
    match step {
      case DoStart(w, fromWorklist) =>
        StartedLists(s.(pending := s.pending - {Next(s, w, fromWorklist).id}), Next(s, w, fromWorklist));
      case DoDefer(w, v, fromWorklist) =>
        var l := LineOf(s, Source(w, fromWorklist));
        OnParts(s.workers[v].scheduled, l[..RunEnd(l, 0)], t);
      case DoTakeRun(w) =>
        OnParts(s.workers[w].scheduled, s.worklist[..RunEnd(s.worklist, 0)], t);
      case DoGrab(at) => GrabbedIsGone(s, at);
      case _ =>
    }
  }

  // ---------- runs ----------

  /** The item leaves the line at a step from i on and before j. */
  ghost predicate HasLeft(states: seq<State>, steps: seq<Step>, i: nat, j: nat, line: Line, t: nat)
    requires |states| == |steps| + 1 && j <= |steps|
  {
    exists k :: i <= k < j && Leaves(states[k], steps[k], line, t)
  }

  lemma Later(states: seq<State>, steps: seq<Step>, i: nat, j: nat, i': nat, j': nat, line: Line, t: nat)
    requires |states| == |steps| + 1 && i' <= i && j <= j' <= |steps| && HasLeft(states, steps, i, j, line, t)
    ensures HasLeft(states, steps, i', j', line, t)
  {
    var k :| i <= k < j && Leaves(states[k], steps[k], line, t);
  }

  lemma {:induction false} RunAhead(states: seq<State>, steps: seq<Step>, i: nat, j: nat, line: Line, t: nat, u: nat)
    requires IsRun(states, steps) && i <= j < |states| && Ahead(LineOf(states[i], line), t, u)
    ensures Ahead(LineOf(states[j], line), t, u) || HasLeft(states, steps, i, j, line, t) || Total(states[j], OfTicket(u)) == 0
    ensures u < states[j].nextTicket
  {
    hide Inv, Unique, Total, Apply, On, Ahead, LineOf, Leaves, Enabled, Init, HasLeft;
    if i == j {
      RunUnique(states, steps, j);
      AheadOn(LineOf(states[j], line), t, u);
      OnIsOut(states[j], line, u);
    } else {
      RunAhead(states, steps, i, j - 1, line, t, u);
      AheadStep(states, steps, i, j - 1, line, t, u);
    }
  }

  lemma OnIsOut(s: State, line: Line, t: nat)
    requires Unique(s) && On(LineOf(s, line), t)
    ensures t < s.nextTicket
  {
    hide Total, LineOf, On;
    OnCounts(s, line, t);
    assert Total(s, OfTicket(t)) <= if t < s.nextTicket then 1 else 0;
  }

  lemma AheadStep(states: seq<State>, steps: seq<Step>, i: nat, j: nat, line: Line, t: nat, u: nat)
    requires IsRun(states, steps) && i <= j < |steps| && u < states[j].nextTicket
    requires Ahead(LineOf(states[j], line), t, u) || HasLeft(states, steps, i, j, line, t) || Total(states[j], OfTicket(u)) == 0
    ensures Ahead(LineOf(states[j + 1], line), t, u) || HasLeft(states, steps, i, j + 1, line, t) || Total(states[j + 1], OfTicket(u)) == 0
    ensures u < states[j + 1].nextTicket
  {
    hide Inv, Unique, Total, Apply, On, Ahead, LineOf, Leaves, Enabled, Init;
    RunInv(states, steps, j);
    RunUnique(states, steps, j);
    NextTicketGrows(states[j], steps[j]);
    if HasLeft(states, steps, i, j, line, t) {
      Later(states, steps, i, j, i, j + 1, line, t);
    } else if Total(states[j], OfTicket(u)) == 0 {
      Conserved(states[j], steps[j], OfTicket(u));
      CountNone(Arriving(states[j], steps[j]), OfTicket(u));
    } else {
      StaysAhead(states[j], steps[j], line, t, u);
    }
  }

  /**
   An item that stands in front of another leaves the line no later than the other one, unless that is
   taken back; and if the other one starts, the first has left before.
   */
  lemma FrontLeavesFirst(states: seq<State>, steps: seq<Step>, i: nat, j: nat, line: Line, t: nat, u: nat)
    requires IsRun(states, steps) && i <= j < |steps| && Ahead(LineOf(states[i], line), t, u)
    requires Leaves(states[j], steps[j], line, u) && !steps[j].DoGrab?
    ensures HasLeft(states, steps, i, j + 1, line, t)
    ensures steps[j].DoStart? ==> HasLeft(states, steps, i, j, line, t)
  {
    hide Inv, Unique, Apply, On, Ahead, LineOf, Init, Enabled, HasLeft, Total;
    RunInv(states, steps, j);
    RunUnique(states, steps, j);
    RunAhead(states, steps, i, j, line, t, u);
    OnCounts(states[j], line, u);
    if HasLeft(states, steps, i, j, line, t) {
      Later(states, steps, i, j, i, j + 1, line, t);
    } else {
      LeaveTogether(states[j], steps[j], line, t, u);
      OneLeaves(states, steps, i, j, line, t);
    }
  }

  lemma OneLeaves(states: seq<State>, steps: seq<Step>, i: nat, j: nat, line: Line, t: nat)
    requires |states| == |steps| + 1 && i <= j < |steps| && Leaves(states[j], steps[j], line, t)
    ensures HasLeft(states, steps, i, j + 1, line, t)
  {}

  /** The one behind leaves, not taken back: then it is in a run together with the one in front. */
  lemma LeaveTogether(s: State, step: Step, line: Line, t: nat, u: nat)
    requires Inv(s) && Unique(s) && Enabled(s, step) && Ahead(LineOf(s, line), t, u) && Leaves(s, step, line, u) && !step.DoGrab?
    ensures Leaves(s, step, line, t) && !step.DoStart?
  {
    hide Inv, Unique, Apply, On, Ahead, LineOf, Enabled, CutOut;
    var l := LineOf(s, line);
    if step.DoStart? { BehindDoesNotStart(s, step, line, t, u); }
    HowItLeaves(s, step, line, u);
    var i, j, m := LineMoves(s, step, line);
    AheadCut(l, i, j, m, t, u);
    AheadOn(l, t, u);
    if i == j { NothingBetween(l, i, t, u); AheadOn(l[..i] + l[j..] + m, t, u); }
    if Ahead(l[..i] + l[j..] + m, t, u) { AheadOn(l[..i] + l[j..] + m, t, u); }
    if i > 0 { OnlyGrabsWithin(s, step, line, i, j); }
    CutLeaves(s, step, line, i, j, m, t);
  }

  /**
   In every run: an item comes to the worklist, or to the list of a worker, while another is there.  It is
   queued, activated, taken along with its run or deferred, but not put there as a barrier.  When it leaves
   the front of that line, the other one has left, and when it starts, the other one has left before.
   */
  lemma FirstComeFirstServed(states: seq<State>, steps: seq<Step>, i: nat, j: nat, line: Line, t: nat, u: nat)
    requires IsRun(states, steps) && i < j < |steps| && !InsertsBarrier(steps[i])
    requires On(LineOf(states[i], line), t) && Comes(states[i], steps[i], line, u)
    requires Leaves(states[j], steps[j], line, u) && !steps[j].DoGrab?
    ensures HasLeft(states, steps, i, j + 1, line, t)
    ensures steps[j].DoStart? ==> HasLeft(states, steps, i, j, line, t)
  {
    hide Inv, Unique, Apply, On, Ahead, LineOf, Init, Enabled, HasLeft, Leaves;
    RunInv(states, steps, i);
    RunUnique(states, steps, i);
    ComesBehind(states[i], steps[i], line, t, u);
    if Leaves(states[i], steps[i], line, t) {
      OneLeaves(states, steps, i, i, line, t);
      Later(states, steps, i, i + 1, i, j, line, t);
      Later(states, steps, i, j, i, j + 1, line, t);
    } else {
      FrontLeavesFirst(states, steps, i + 1, j, line, t, u);
      Later(states, steps, i + 1, j + 1, i, j + 1, line, t);
      if steps[j].DoStart? { Later(states, steps, i + 1, j, i, j, line, t); }
    }
  }

  /**
   A barrier for the running item of worker w starts before all that was scheduled with w when it came:
   when any of that starts there, the barrier has left.
   */
  lemma BarrierGoesFirst(states: seq<State>, steps: seq<Step>, i: nat, j: nat, t: nat)
    requires IsRun(states, steps) && i < j < |steps| && steps[i].DoBarrierRunning?
    requires On(LineOf(states[i], AtWorker(steps[i].w)), t) && Leaves(states[j], steps[j], AtWorker(steps[i].w), t) && steps[j].DoStart?
    ensures HasLeft(states, steps, i, j, AtWorker(steps[i].w), states[i].nextTicket)
  {
    hide Inv, Unique, BarrierRunning, On, Ahead, LineOf, Init, HasLeft, Leaves;
    var line, b := AtWorker(steps[i].w), states[i].nextTicket;
    BarrierComesFirst(states[i], steps[i].w, steps[i].id, t);
    FrontLeavesFirst(states, steps, i + 1, j, line, b, t);
    Later(states, steps, i + 1, j, i, j, line, b);
  }

  /**
   From the insertion of a barrier for the running item of worker w, until the barrier leaves, w starts none
   of the items that come to it after the insertion, deferred items above all; later barriers are the exception.
   */
  lemma DeferredWaits(states: seq<State>, steps: seq<Step>, i: nat, d: nat, j: nat, u: nat)
    requires IsRun(states, steps) && i < d < j < |steps| && steps[i].DoBarrierRunning? && !InsertsBarrier(steps[d])
    requires Comes(states[d], steps[d], AtWorker(steps[i].w), u) && Leaves(states[j], steps[j], AtWorker(steps[i].w), u) && steps[j].DoStart?
    ensures HasLeft(states, steps, i, j, AtWorker(steps[i].w), states[i].nextTicket)
  {
    hide Inv, Unique, Init, HasLeft, Leaves, Comes, Apply, Enabled;
    var line, b := AtWorker(steps[i].w), states[i].nextTicket;
    BarrierIsThere(states[i], steps[i]);
    StillOn(states, steps, i + 1, d, line, b);
    if HasLeft(states, steps, i + 1, d, line, b) {
      Later(states, steps, i + 1, d, i, j, line, b);
    } else {
      FirstComeFirstServed(states, steps, d, j, line, b, u);
      Later(states, steps, d, j, i, j, line, b);
    }
  }

  lemma BarrierIsThere(s: State, step: Step)
    requires Enabled(s, step) && step.DoBarrierRunning?
    ensures On(LineOf(Apply(s, step), AtWorker(step.w)), s.nextTicket)
  {
    assert Apply(s, step).workers[step.w].scheduled[0].ticket == s.nextTicket;
  }

  lemma {:induction false} StillOn(states: seq<State>, steps: seq<Step>, i: nat, j: nat, line: Line, t: nat)
    requires IsRun(states, steps) && i <= j < |states| && On(LineOf(states[i], line), t)
    ensures On(LineOf(states[j], line), t) || HasLeft(states, steps, i, j, line, t)
  {
    hide On, Apply, Enabled, Init, HasLeft;
    if i < j {
      StillOn(states, steps, i, j - 1, line, t);
      if HasLeft(states, steps, i, j - 1, line, t) {
        Later(states, steps, i, j - 1, i, j, line, t);
      } else if !On(LineOf(states[j], line), t) {
        OneLeaves(states, steps, i, j - 1, line, t);
      }
    }
  }
}
