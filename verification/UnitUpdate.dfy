/** How alloc_unr and free_unr change single units of the element list (unr.c). */
module UnitUpdate {
  import opened UnitSpec

  /** The position in the space, counted from the end of first, of the first unit of element k. */
  function Start(es: seq<Elem>, k: nat): nat
    requires k <= |es|
  {
    |Flat(es[..k])|
  }

  lemma StartNext(es: seq<Elem>, k: nat)
    requires k < |es|
    ensures Start(es, k + 1) == Start(es, k) + Len(es[k])
  {
    assert es[..k + 1] == es[..k] + [es[k]];
    FlatAppend(es[..k], [es[k]]);
    FlatOne(es[k]);
  }

  lemma StartEnd(es: seq<Elem>)
    ensures Start(es, |es|) == |Flat(es)|
  {
    assert es[..|es|] == es;
  }

  lemma UnitAt(es: seq<Elem>, k: nat, off: nat)
    requires k < |es| && off < Len(es[k])
    ensures Start(es, k) + off < |Flat(es)|
    ensures Flat(es)[Start(es, k) + off] == Bits(es[k])[off]
  {
    hide Flat, Bits, Splice;
    SpliceFlat(es, k, k + 1, [es[k]]);
    assert es[k..k + 1] == [es[k]];
    FlatOne(es[k]);
    Within(Flat(es[..k]), Bits(es[k]), Flat(es[k + 1..]), off);
  }

  lemma Within(a: seq<bool>, b: seq<bool>, c: seq<bool>, off: nat)
    requires off < |b|
    ensures |a| + off < |a + b + c| && (a + b + c)[|a| + off] == b[off]
  {}

  /** Replacing elements lo to hi by others that differ in one unit changes that unit of the space. */
  lemma SpliceUpdates(es: seq<Elem>, lo: nat, hi: nat, mid: seq<Elem>, i: nat, b: bool)
    requires lo <= hi <= |es| && i < |Flat(es[lo..hi])| && Flat(mid) == Flat(es[lo..hi])[i := b]
    ensures Start(es, lo) + i < |Flat(es)|
    ensures Flat(Splice(es, lo, hi, mid)) == Flat(es)[Start(es, lo) + i := b]
    ensures CostSum(Splice(es, lo, hi, mid)) == CostSum(es) + CostSum(mid) - CostSum(es[lo..hi])
  {
    SpliceFlat(es, lo, hi, mid);
  }

  lemma UnitsUpdate(first: nat, es: seq<Elem>, es': seq<Elem>, last: nat, i: nat, b: bool)
    requires i < |Flat(es)| && Flat(es') == Flat(es)[i := b]
    ensures Units(first, es', last) == Units(first, es, last)[first + i := b]
  {}

  /** One element replaced by one that differs in one unit. */
  lemma ElementUpdates(es: seq<Elem>, k: nat, e: Elem, i: nat, b: bool)
    requires k < |es| && i < Len(es[k]) && Bits(e) == Bits(es[k])[i := b] && Cost(e) == Cost(es[k])
    ensures Start(es, k) + i < |Flat(es)|
    ensures Flat(es[k := e]) == Flat(es)[Start(es, k) + i := b] && CostSum(es[k := e]) == CostSum(es)
  {
    assert es[k..k + 1] == [es[k]] && es[k := e] == Splice(es, k, k + 1, [e]);
    FlatOne(e);
    FlatOne(es[k]);
    SpliceUpdates(es, k, k + 1, [e], i, b);
  }

  lemma AllHot(es: seq<Elem>, k: nat)
    requires AllGood(es) && NoEqualNeighbours(es) && k < |es|
    ensures HotOk(es, k)
  {
    assert Good(es[k]);
  }

  /** Changing a bit of a bitmap leaves only that element out of order. */
  lemma MapUpdates(es: seq<Elem>, k: nat, i: nat, b: bool)
    requires AllGood(es) && NoEqualNeighbours(es) && k < |es| && es[k].Map? && i < |es[k].bits|
    ensures var es' := es[k := Map(es[k].bits[i := b])];
      && HotOk(es', k) && CostSum(es') == CostSum(es)
      && Start(es, k) + i < |Flat(es)| && Flat(es') == Flat(es)[Start(es, k) + i := b]
  {
    AllHot(es, k);
    HotUpdate(es, k, Map(es[k].bits[i := b]));
    ElementUpdates(es, k, Map(es[k].bits[i := b]), i, b);
  }

  // ---------- alloc_unr ----------

  /** The list is empty: the boundary between first and last moves up. */
  lemma SplitMoves(first: nat, last: nat)
    requires last > 0
    ensures Units(first + 1, [], last - 1) == Units(first, [], last)[first := true]
  {}

  /** The first free run gives its first unit to first. */
  lemma RunShrinks(first: nat, es: seq<Elem>, last: nat)
    requires AllGood(es) && NoEqualNeighbours(es) && es != [] && IsRun(es[0], false)
    ensures es[0].length > 0
    ensures var es' := es[0 := Run(false, es[0].length - 1)];
      && HotOk(es', 0) && CostSum(es') == CostSum(es)
      && Units(first + 1, es', last) == Units(first, es, last)[first := true]
  {
    assert Good(es[0]);
    var e := Run(false, es[0].length - 1);
    AllHot(es, 0);
    HotUpdate(es, 0, e);
    RunShrinksUnits(first, es, last);
  }

  lemma RunShrinksUnits(first: nat, es: seq<Elem>, last: nat)
    requires es != [] && IsRun(es[0], false) && es[0].length > 0
    ensures var es' := es[0 := Run(false, es[0].length - 1)];
      && CostSum(es') == CostSum(es) && Units(first + 1, es', last) == Units(first, es, last)[first := true]
  {
    var e := Run(false, es[0].length - 1);
    var es' := es[0 := e];
    assert es'[1..] == es[1..];
    var rest := Flat(es[1..]);
    assert Flat(es) == Repeat(false, es[0].length) + rest && Flat(es') == Repeat(false, es[0].length - 1) + rest;
    BoundaryUp(first, es[0].length, rest, Repeat(false, last));
  }

  lemma BoundaryUp(first: nat, n: nat, rest: seq<bool>, tail: seq<bool>)
    requires n > 0
    ensures Repeat(true, first + 1) + (Repeat(false, n - 1) + rest) + tail
      == (Repeat(true, first) + (Repeat(false, n) + rest) + tail)[first := true]
  {}

  /** The first free unit: everything before it is used. */
  ghost predicate FirstFree(s: seq<bool>, i: int) {
    0 <= i < |s| && !s[i] && forall j | 0 <= j < i :: s[j]
  }

  lemma FirstOfRun(first: nat, es: seq<Elem>, last: nat)
    requires if es == [] then last > 0 else IsRun(es[0], false) && es[0].length > 0
    ensures FirstFree(Units(first, es, last), first)
  {
    if es != [] { assert Flat(es)[0] == Bits(es[0])[0]; }
  }

  lemma FirstOfMap(first: nat, es: seq<Elem>, last: nat, y: nat)
    requires es != [] && es[0].Map? && y < |es[0].bits| && FirstFree(es[0].bits, y)
    ensures FirstFree(Units(first, es, last), first + y)
    ensures Start(es, 0) == 0
  {
    var bits, rest := es[0].bits, Flat(es[1..]);
    assert Flat(es) == bits + rest;
    hide Flat;
    FirstWithin(first, bits, rest + Repeat(false, last), y);
    assert Units(first, es, last) == Repeat(true, first) + bits + (rest + Repeat(false, last));
  }

  lemma FirstWithin(first: nat, bits: seq<bool>, rest: seq<bool>, y: nat)
    requires FirstFree(bits, y)
    ensures FirstFree(Repeat(true, first) + bits + rest, first + y)
  {}

  lemma NoneFree(first: nat)
    ensures false !in Units(first, [], 0)
  {}

  // ---------- free_unr ----------

  /** The list is empty: the boundary between first and last moves down. */
  lemma SplitMovesBack(first: nat, last: nat)
    requires first > 0
    ensures Units(first - 1, [], last + 1) == Units(first, [], last)[first - 1 := false]
  {}

  /** The end of first becomes a run of its own. */
  lemma FirstBecomesRun(first: nat, es: seq<Elem>, last: nat, item: nat)
    requires AllGood(es) && NoEqualNeighbours(es) && EndsOk(es) && item < first
    ensures var es' := [Run(true, first - item)] + es;
      && AllGood(es') && NoEqualNeighbours(es') && CostSum(es') == CostSum(es) + 1
      && Units(item, es', last) == Units(first, es, last)
  {
    var es' := [Run(true, first - item)] + es;
    forall i | 0 <= i < |es'| - 1 ensures Apart(es', i) {
      if i > 0 { assert Apart(es, i - 1); }
    }
    assert es'[1..] == es;
    RepeatAppend(true, item, first - item);
  }

  /** A run of one unit becomes free. */
  lemma LoneFreed(es: seq<Elem>, k: nat)
    requires AllGood(es) && NoEqualNeighbours(es) && k < |es| && es[k] == Run(true, 1)
    ensures var es' := es[k := Run(false, 1)];
      && HotOk(es', k) && CostSum(es') == CostSum(es)
      && Start(es, k) < |Flat(es)| && Flat(es') == Flat(es)[Start(es, k) := false]
  {
    AllHot(es, k);
    HotUpdate(es, k, Run(false, 1));
    ElementUpdates(es, k, Run(false, 1), 0, false);
  }

  /** The list after the unit between a free run at k and a used run at k + 1, either side, changed hands. */
  function Shifted(es: seq<Elem>, k: nat, n: nat, m: nat): seq<Elem>
    requires k + 1 < |es| && es[k].Run? && es[k + 1].Run?
  {
    es[k := Run(es[k].used, n)][k + 1 := Run(es[k + 1].used, m)]
  }

  lemma ShiftedIsSplice(es: seq<Elem>, k: nat, n: nat, m: nat)
    requires k + 1 < |es| && es[k].Run? && es[k + 1].Run?
    ensures Shifted(es, k, n, m) == Splice(es, k, k + 2, [Run(es[k].used, n), Run(es[k + 1].used, m)])
  {}

  lemma ShiftedHot(es: seq<Elem>, k: nat, n: nat, m: nat, hot: nat)
    requires AllGood(es) && NoEqualNeighbours(es) && k + 1 < |es| && es[k].Run? && es[k + 1].Run?
    requires n > 0 && m > 0 && (hot == k || hot == k + 1)
    ensures HotOk(Shifted(es, k, n, m), hot)
  {
    var es' := Shifted(es, k, n, m);
    forall j | 0 <= j < |es'| - 1 ensures Apart(es', j) { assert Apart(es, j); }
  }

  /** The first unit of a used run moves to the free run before it. */
  lemma ShiftedLeft(es: seq<Elem>, k: nat)
    requires AllGood(es) && NoEqualNeighbours(es) && k + 1 < |es| && IsRun(es[k], false) && IsRun(es[k + 1], true)
    requires es[k + 1].length > 1
    ensures var es' := Shifted(es, k, es[k].length + 1, es[k + 1].length - 1);
      && HotOk(es', k + 1) && CostSum(es') == CostSum(es)
      && Start(es, k + 1) < |Flat(es)| && Flat(es') == Flat(es)[Start(es, k + 1) := false]
  {
    var n, m := es[k].length, es[k + 1].length;
    hide HotOk, AllGood, NoEqualNeighbours, Flat;
    ShiftedHot(es, k, n + 1, m - 1, k + 1);
    ShiftedUpdates(es, k, n + 1, m - 1, n);
    StartNext(es, k);
  }

  lemma ShiftedUpdates(es: seq<Elem>, k: nat, n: nat, m: nat, i: nat)
    requires k + 1 < |es| && es[k].Run? && es[k + 1].Run? && i < es[k].length + es[k + 1].length
    requires Repeat(es[k].used, n) + Repeat(es[k + 1].used, m)
          == (Repeat(es[k].used, es[k].length) + Repeat(es[k + 1].used, es[k + 1].length))[i := false]
    ensures var es' := Shifted(es, k, n, m);
      && CostSum(es') == CostSum(es)
      && Start(es, k) + i < |Flat(es)| && Flat(es') == Flat(es)[Start(es, k) + i := false]
  {
    hide Shifted, Splice, Flat, CostSum, Start;
    var mid := [Run(es[k].used, n), Run(es[k + 1].used, m)];
    ShiftedIsSplice(es, k, n, m);
    FlatTwo(es, k);
    FlatTwo(mid, 0);
    assert mid[0..2] == mid;
    SpliceUpdates(es, k, k + 2, mid, i, false);
  }

  /** The last unit of a used run moves to the free run after it. */
  lemma ShiftedRight(es: seq<Elem>, k: nat)
    requires AllGood(es) && NoEqualNeighbours(es) && k + 1 < |es| && IsRun(es[k], true) && IsRun(es[k + 1], false)
    requires es[k].length > 1
    ensures var es' := Shifted(es, k, es[k].length - 1, es[k + 1].length + 1);
      && HotOk(es', k) && CostSum(es') == CostSum(es)
      && Start(es, k) + es[k].length - 1 < |Flat(es)|
      && Flat(es') == Flat(es)[Start(es, k) + es[k].length - 1 := false]
  {
    var n, m := es[k].length, es[k + 1].length;
    hide HotOk, AllGood, NoEqualNeighbours, Flat;
    ShiftedHot(es, k, n - 1, m + 1, k);
    ShiftedUpdates(es, k, n - 1, m + 1, n - 1);
  }

  /** What a used run becomes when one of its units, which is not its only one, is freed in place. */
  function Pieces(length: nat, off: nat): seq<Elem>
    requires off < length
  {
    UsedRun(off) + [Run(false, 1)] + UsedRun(length - off - 1)
  }

  lemma PiecesFlat(length: nat, off: nat)
    requires off < length
    ensures Flat(Pieces(length, off)) == Repeat(true, length)[off := false]
    ensures CostSum(Pieces(length, off)) == 1 + (if off > 0 then 1 else 0) + (if off + 1 < length then 1 else 0)
  {
    var a, b, c := UsedRun(off), [Run(false, 1)], UsedRun(length - off - 1);
    assert Pieces(length, off) == a + b + c;
    UsedRunFlat(off);
    UsedRunFlat(length - off - 1);
    hide Flat, CostSum, UsedRun, Pieces;
    FlatAppend(a + b, c);
    FlatAppend(a, b);
    CostAppend(a + b, c);
    CostAppend(a, b);
    FlatOne(Run(false, 1));
    assert Repeat(true, length)[off := false] == Repeat(true, off) + Repeat(false, 1) + Repeat(true, length - off - 1);
  }

  function UsedRun(n: nat): seq<Elem> {
    if n > 0 then [Run(true, n)] else []
  }

  lemma UsedRunFlat(n: nat)
    ensures Flat(UsedRun(n)) == Repeat(true, n) && CostSum(UsedRun(n)) == if n > 0 then 1 else 0
  {
    FlatOne(Run(true, n));
  }

  lemma Divided(es: seq<Elem>, k: nat, off: nat)
    requires AllGood(es) && NoEqualNeighbours(es) && k < |es| && IsRun(es[k], true) && off < es[k].length
    ensures var es' := Splice(es, k, k + 1, Pieces(es[k].length, off));
      && HotOk(es', if off > 0 then k + 1 else k)
      && CostSum(es') == CostSum(es) + (if off > 0 then 1 else 0) + (if off + 1 < es[k].length then 1 else 0)
      && Start(es, k) + off < |Flat(es)| && Flat(es') == Flat(es)[Start(es, k) + off := false]
  {
    PiecesFlat(es[k].length, off);
    assert es[k..k + 1] == [es[k]];
    FlatOne(es[k]);
    SpliceUpdates(es, k, k + 1, Pieces(es[k].length, off), off, false);
    DividedHot(es, k, off);
  }

  lemma DividedHot(es: seq<Elem>, k: nat, off: nat)
    requires AllGood(es) && NoEqualNeighbours(es) && k < |es| && IsRun(es[k], true) && off < es[k].length
    ensures HotOk(Splice(es, k, k + 1, Pieces(es[k].length, off)), if off > 0 then k + 1 else k)
  {
    var mid := Pieces(es[k].length, off);
    var es' := Splice(es, k, k + 1, mid);
    var d := |mid|;
    assert forall j | 0 <= j < k :: es'[j] == es[j];
    assert forall j | k <= j < k + d :: es'[j] == mid[j - k];
    assert forall j | k + d <= j < |es'| :: es'[j] == es[j - d + 1];
    hide Pieces, Splice;
    PiecesAre(es[k].length, off);
    forall j | 0 <= j < |es'| && j != (if off > 0 then k + 1 else k) ensures Good(es'[j]) {
      if j >= k + d { assert Good(es[j - d + 1]); }
    }
    var hot := if off > 0 then k + 1 else k;
    forall j | 0 <= j < |es'| - 1 && j != hot && j != hot - 1 ensures Apart(es', j) {
      if j < k { assert Apart(es, j); } else { assert Apart(es, j - d + 1); }
    }
  }

  lemma PiecesAre(length: nat, off: nat)
    requires off < length
    ensures var mid := Pieces(length, off); var h := if off > 0 then 1 else 0;
      && |mid| == 1 + h + (if off + 1 < length then 1 else 0)
      && (off > 0 ==> mid[0] == Run(true, off)) && mid[h] == Run(false, 1)
      && (off + 1 < length ==> mid[h + 1] == Run(true, length - off - 1))
  {}
}
