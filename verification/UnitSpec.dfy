/**
 What the elements of a unit number space stand for (unr.c).  An element is a run of free or of
 allocated units, or a bitmap; the space is first allocated units, the elements, and last free units.
 */
module UnitSpec {

  /** sizeof(struct unr) is 32 bytes on LP64: four 64-bit words. */
  const NWORDS: nat := 4
  const NBITS: nat := 256

  datatype Elem = Run(used: bool, length: nat) | Map(bits: seq<bool>)

  function Repeat(b: bool, n: nat): (r: seq<bool>)
    ensures |r| == n && forall i | 0 <= i < n :: r[i] == b
  {
    seq(n, _ => b)
  }

  function Len(e: Elem): nat {
    match e
    case Run(_, length) => length
    case Map(bits) => |bits|
  }

  function Bits(e: Elem): (r: seq<bool>)
    ensures |r| == Len(e)
  {
    match e
    case Run(used, length) => Repeat(used, length)
    case Map(bits) => bits
  }

  /** How many blocks of memory an element takes: the list node, and the bitmap if it has one. */
  function Cost(e: Elem): nat {
    if e.Map? then 2 else 1
  }

  function Flat(es: seq<Elem>): seq<bool> {
    if es == [] then [] else Bits(es[0]) + Flat(es[1..])
  }

  function CostSum(es: seq<Elem>): nat {
    if es == [] then 0 else Cost(es[0]) + CostSum(es[1..])
  }

  /** The whole space, one boolean per unit, starting at low. */
  function Units(first: nat, es: seq<Elem>, last: nat): (r: seq<bool>)
    ensures |r| == first + |Flat(es)| + last
  {
    Repeat(true, first) + Flat(es) + Repeat(false, last)
  }

  function CountTrue(s: seq<bool>): (n: nat)
    ensures n <= |s|
  {
    if s == [] then 0 else (if s[0] then 1 else 0) + CountTrue(s[1..])
  }

  // ---------- sums over elements ----------

  lemma {:induction false} FlatAppend(a: seq<Elem>, b: seq<Elem>)
    ensures Flat(a + b) == Flat(a) + Flat(b)
  {
    if a == [] {
      assert a + b == b;
    } else {
      assert (a + b)[1..] == a[1..] + b;
      FlatAppend(a[1..], b);
    }
  }

  lemma {:induction false} CostAppend(a: seq<Elem>, b: seq<Elem>)
    ensures CostSum(a + b) == CostSum(a) + CostSum(b)
  {
    if a == [] {
      assert a + b == b;
    } else {
      assert (a + b)[1..] == a[1..] + b;
      CostAppend(a[1..], b);
    }
  }

  lemma {:induction false} CountAppend(a: seq<bool>, b: seq<bool>)
    ensures CountTrue(a + b) == CountTrue(a) + CountTrue(b)
  {
    if a == [] {
      assert a + b == b;
    } else {
      assert (a + b)[1..] == a[1..] + b;
      CountAppend(a[1..], b);
    }
  }

  lemma {:induction false} CountRepeat(b: bool, n: nat)
    ensures CountTrue(Repeat(b, n)) == if b then n else 0
  {
    if n > 0 {
      assert Repeat(b, n)[1..] == Repeat(b, n - 1);
      CountRepeat(b, n - 1);
    }
  }

  lemma CountUpdate(s: seq<bool>, i: nat, b: bool)
    requires i < |s| && s[i] != b
    ensures CountTrue(s[i := b]) == CountTrue(s) + (if b then 1 else -1)
  {
    assert s == s[..i] + ([s[i]] + s[i + 1..]);
    assert s[i := b] == s[..i] + ([b] + s[i + 1..]);
    CountAppend(s[..i], [s[i]] + s[i + 1..]);
    CountAppend(s[..i], [b] + s[i + 1..]);
  }

  lemma FlatOne(e: Elem)
    ensures Flat([e]) == Bits(e) && CostSum([e]) == Cost(e)
  {
    assert Flat([e]) == Bits(e) + [];
  }

  lemma RepeatAppend(b: bool, m: nat, n: nat)
    ensures Repeat(b, m) + Repeat(b, n) == Repeat(b, m + n)
  {}

  /** Replacing the elements between lo and hi. */
  function Splice(es: seq<Elem>, lo: nat, hi: nat, mid: seq<Elem>): seq<Elem>
    requires lo <= hi <= |es|
  {
    es[..lo] + mid + es[hi..]
  }

  lemma ThreeParts(a: seq<Elem>, b: seq<Elem>, c: seq<Elem>)
    ensures Flat(a + b + c) == Flat(a) + Flat(b) + Flat(c)
    ensures CostSum(a + b + c) == CostSum(a) + CostSum(b) + CostSum(c)
  {
    hide Flat, CostSum;
    FlatAppend(a + b, c);
    FlatAppend(a, b);
    CostAppend(a + b, c);
    CostAppend(a, b);
  }

  lemma SpliceFlat(es: seq<Elem>, lo: nat, hi: nat, mid: seq<Elem>)
    requires lo <= hi <= |es|
    ensures Flat(Splice(es, lo, hi, mid)) == Flat(es[..lo]) + Flat(mid) + Flat(es[hi..])
    ensures CostSum(Splice(es, lo, hi, mid)) == CostSum(es[..lo]) + CostSum(mid) + CostSum(es[hi..])
    ensures Flat(es) == Flat(es[..lo]) + Flat(es[lo..hi]) + Flat(es[hi..])
    ensures CostSum(es) == CostSum(es[..lo]) + CostSum(es[lo..hi]) + CostSum(es[hi..])
  {
    hide Flat, CostSum;
    ThreeParts(es[..lo], mid, es[hi..]);
    assert es == es[..lo] + es[lo..hi] + es[hi..];
    ThreeParts(es[..lo], es[lo..hi], es[hi..]);
  }

  /** Replacing a stretch of elements by others that stand for the same units changes no unit. */
  lemma SpliceSame(es: seq<Elem>, lo: nat, hi: nat, mid: seq<Elem>)
    requires lo <= hi <= |es| && Flat(mid) == Flat(es[lo..hi])
    ensures Flat(Splice(es, lo, hi, mid)) == Flat(es)
    ensures CostSum(Splice(es, lo, hi, mid)) == CostSum(es) + CostSum(mid) - CostSum(es[lo..hi])
  {
    SpliceFlat(es, lo, hi, mid);
  }

  // ---------- the invariant ----------

  predicate Mixed(bits: seq<bool>) {
    true in bits && false in bits
  }

  predicate Good(e: Elem) {
    Len(e) > 0 && (e.Map? ==> |e.bits| <= NBITS && Mixed(e.bits))
  }

  predicate SameRun(e: Elem, e': Elem) {
    e.Run? && e'.Run? && e.used == e'.used
  }

  predicate AllGood(es: seq<Elem>) {
    forall i | 0 <= i < |es| :: Good(es[i])
  }

  predicate Apart(es: seq<Elem>, i: int) {
    0 <= i && i + 1 < |es| ==> !SameRun(es[i], es[i + 1])
  }

  predicate NoEqualNeighbours(es: seq<Elem>) {
    forall i | 0 <= i < |es| - 1 :: Apart(es, i)
  }

  predicate IsRun(e: Elem, used: bool) {
    e.Run? && e.used == used
  }

  predicate EndsOk(es: seq<Elem>) {
    es != [] ==> !IsRun(es[0], true) && !IsRun(es[|es| - 1], false)
  }

  /** What optimize_unr adds up from one element onwards: memory of the elements that fit into NBITS. */
  function WindowRest(es: seq<Elem>, p: nat, l: nat): nat
    requires p <= |es|
    decreases |es| - p
  {
    if p == |es| || Len(es[p]) + l > NBITS then 0
    else Cost(es[p]) + WindowRest(es, p + 1, l + Len(es[p]))
  }

  function Window(es: seq<Elem>, f: nat): nat
    requires f < |es|
  {
    if Len(es[f]) >= NBITS then 0 else Cost(es[f]) + WindowRest(es, f + 1, Len(es[f]))
  }

  /** No stretch of elements is worth turning into one bitmap. */
  predicate NoGain(es: seq<Elem>) {
    forall f | 0 <= f < |es| :: Window(es, f) < 3
  }

  /** The invariant of a unit number space at every call of its interface. */
  predicate SpaceOk(first: nat, es: seq<Elem>, last: nat, span: int, busy: int, alloc: int) {
    && |Units(first, es, last)| == span
    && AllGood(es) && NoEqualNeighbours(es) && EndsOk(es) && NoGain(es)
    && busy == CountTrue(Units(first, es, last))
    && alloc == CostSum(es)
  }

  // ---------- merging neighbours ----------

  /** Two neighbours replaced by one bitmap that holds the units of both. */
  function Merged(es: seq<Elem>, k: nat): seq<Elem>
    requires k + 1 < |es|
  {
    Splice(es, k, k + 2, [Map(Bits(es[k]) + Bits(es[k + 1]))])
  }

  lemma MergedAt(es: seq<Elem>, k: nat)
    requires k + 1 < |es|
    ensures |Merged(es, k)| == |es| - 1
    ensures Merged(es, k)[k] == Map(Bits(es[k]) + Bits(es[k + 1]))
    ensures Len(Merged(es, k)[k]) == Len(es[k]) + Len(es[k + 1])
    ensures forall i | 0 <= i < |es| - 1 && i != k :: Merged(es, k)[i] == es[if i < k then i else i + 1]
  {}

  lemma FlatTwo(es: seq<Elem>, k: nat)
    requires k + 1 < |es|
    ensures Flat(es[k..k + 2]) == Bits(es[k]) + Bits(es[k + 1])
    ensures CostSum(es[k..k + 2]) == Cost(es[k]) + Cost(es[k + 1])
  {
    assert es[k..k + 2] == [es[k]] + [es[k + 1]];
    FlatAppend([es[k]], [es[k + 1]]);
    CostAppend([es[k]], [es[k + 1]]);
    FlatOne(es[k]);
    FlatOne(es[k + 1]);
  }

  lemma MergedSame(es: seq<Elem>, k: nat)
    requires k + 1 < |es|
    ensures Flat(Merged(es, k)) == Flat(es)
    ensures CostSum(Merged(es, k)) == CostSum(es) + 2 - Cost(es[k]) - Cost(es[k + 1])
  {
    FlatTwo(es, k);
    FlatOne(Map(Bits(es[k]) + Bits(es[k + 1])));
    SpliceSame(es, k, k + 2, [Map(Bits(es[k]) + Bits(es[k + 1]))]);
  }

  lemma MergedMixed(e: Elem, e': Elem)
    requires Good(e) && Good(e') && !SameRun(e, e')
    ensures Mixed(Bits(e) + Bits(e'))
  {
    var bits := Bits(e) + Bits(e');
    if e.Map? {
      assert forall x | x in e.bits :: x in bits;
    } else if e'.Map? {
      assert forall x | x in e'.bits :: x in bits;
    } else {
      assert bits[0] == e.used && bits[Len(e)] == e'.used;
    }
  }

  lemma MergedOk(es: seq<Elem>, k: nat)
    requires k + 1 < |es| && AllGood(es) && NoEqualNeighbours(es) && Len(es[k]) + Len(es[k + 1]) <= NBITS
    ensures AllGood(Merged(es, k)) && NoEqualNeighbours(Merged(es, k))
    ensures EndsOk(es) ==> EndsOk(Merged(es, k))
  {
    var es' := Merged(es, k);
    assert Apart(es, k);
    MergedMixed(es[k], es[k + 1]);
    MergedAt(es, k);
    hide Merged;
    forall i | 0 <= i < |es'| - 1 ensures Apart(es', i) {
      assert Apart(es, if i < k then i else i + 1);
    }
  }

  /** A stretch worth three blocks has a neighbour that fits, and either a bitmap or a second one. */
  lemma WindowCases(es: seq<Elem>, f: nat)
    requires AllGood(es) && f < |es| && Window(es, f) >= 3
    ensures f + 1 < |es| && Len(es[f]) + Len(es[f + 1]) <= NBITS
    ensures es[f].Map? || es[f + 1].Map? || (f + 2 < |es| && Len(es[f]) + Len(es[f + 1]) + Len(es[f + 2]) <= NBITS)
  {
    assert WindowRest(es, f + 1, Len(es[f])) > 0;
    assert WindowRest(es, f + 1, Len(es[f])) == Cost(es[f + 1]) + WindowRest(es, f + 2, Len(es[f]) + Len(es[f + 1]));
  }

  // ---------- one element out of order ----------

  /** Everything but element i is in order; i may be empty, unmixed, or equal to its neighbours. */
  predicate HotOk(es: seq<Elem>, i: nat) {
    && i < |es|
    && (forall j | 0 <= j < |es| && j != i :: Good(es[j]))
    && (es[i].Map? ==> 0 < |es[i].bits| <= NBITS)
    && (forall j | 0 <= j < |es| - 1 && j != i && j != i - 1 :: Apart(es, j))
  }

  /** An element replaced by another one for the same units. */
  lemma UpdateSame(es: seq<Elem>, i: nat, e: Elem)
    requires i < |es| && Bits(e) == Bits(es[i])
    ensures Flat(es[i := e]) == Flat(es) && CostSum(es[i := e]) == CostSum(es) - Cost(es[i]) + Cost(e)
  {
    assert es[i := e] == Splice(es, i, i + 1, [e]);
    assert es[i..i + 1] == [es[i]];
    FlatOne(e);
    FlatOne(es[i]);
    SpliceSame(es, i, i + 1, [e]);
  }

  lemma RemoveEmpty(es: seq<Elem>, i: nat)
    requires i < |es| && Len(es[i]) == 0
    ensures Flat(Splice(es, i, i + 1, [])) == Flat(es)
    ensures CostSum(Splice(es, i, i + 1, [])) == CostSum(es) - Cost(es[i])
  {
    assert es[i..i + 1] == [es[i]];
    FlatOne(es[i]);
    SpliceSame(es, i, i + 1, []);
  }

  lemma HotUpdate(es: seq<Elem>, i: nat, e: Elem)
    requires HotOk(es, i) && (e.Map? ==> 0 < |e.bits| <= NBITS)
    ensures HotOk(es[i := e], i)
  {
    var es' := es[i := e];
    forall j | 0 <= j < |es'| - 1 && j != i && j != i - 1 ensures Apart(es', j) { assert Apart(es, j); }
  }

  lemma GoodLength(es: seq<Elem>, k: nat)
    requires AllGood(es) && k < |es|
    ensures Good(es[k])
  {}

  lemma EmptyRemovedOk(es: seq<Elem>, i: nat, es': seq<Elem>)
    requires HotOk(es, i) && |es'| == |es| - 1
    requires forall j | 0 <= j < |es'| :: es'[j] == es[if j < i then j else j + 1]
    ensures AllGood(es') && (i > 0 ==> HotOk(es', i - 1)) && (i == 0 && |es| > 1 ==> HotOk(es', 0))
  {
    forall j | 0 <= j < |es'| - 1 && j != i - 1 ensures Apart(es', j) {
      assert Apart(es, if j < i then j else j + 1);
    }
  }

  /** Two equal runs become one. */
  function Joined(es: seq<Elem>, k: nat): seq<Elem>
    requires k + 1 < |es| && SameRun(es[k], es[k + 1])
  {
    Splice(es, k, k + 2, [Run(es[k].used, es[k].length + es[k + 1].length)])
  }

  lemma JoinedAt(es: seq<Elem>, k: nat)
    requires k + 1 < |es| && SameRun(es[k], es[k + 1])
    ensures |Joined(es, k)| == |es| - 1
    ensures Joined(es, k)[k] == Run(es[k].used, es[k].length + es[k + 1].length)
    ensures forall i | 0 <= i < |es| - 1 && i != k :: Joined(es, k)[i] == es[if i < k then i else i + 1]
  {}

  lemma JoinedSame(es: seq<Elem>, k: nat)
    requires k + 1 < |es| && SameRun(es[k], es[k + 1])
    ensures Flat(Joined(es, k)) == Flat(es) && CostSum(Joined(es, k)) == CostSum(es) - 1
  {
    FlatTwo(es, k);
    FlatOne(Run(es[k].used, es[k].length + es[k + 1].length));
    RepeatAppend(es[k].used, es[k].length, es[k + 1].length);
    SpliceSame(es, k, k + 2, [Run(es[k].used, es[k].length + es[k + 1].length)]);
  }

  /** A full or an empty bitmap stands for the same units as a run. */
  lemma UnmixedIsRun(bits: seq<bool>, b: bool)
    requires !b !in bits
    ensures bits == Repeat(b, |bits|)
  {
    forall i | 0 <= i < |bits| ensures bits[i] == b { assert bits[i] in bits; }
  }

  // ---------- first and last ----------

  lemma ShiftFirst(first: nat, es: seq<Elem>, last: nat)
    requires es != [] && IsRun(es[0], true) && AllGood(es) && NoEqualNeighbours(es)
    ensures Units(first + es[0].length, es[1..], last) == Units(first, es, last)
    ensures AllGood(es[1..]) && NoEqualNeighbours(es[1..]) && CostSum(es[1..]) == CostSum(es) - 1
    ensures |es| > 1 ==> !IsRun(es[1..][0], true)
  {
    hide NoEqualNeighbours, CostSum, AllGood, Repeat, Flat;
    ShiftedList(es);
    HeadFlat(es);
    RepeatAppend(true, first, es[0].length);
    ShiftUnits(Repeat(true, first), Repeat(true, es[0].length), Flat(es[1..]), Repeat(false, last));
  }

  lemma HeadFlat(es: seq<Elem>)
    requires es != [] && es[0].Run?
    ensures Flat(es) == Repeat(es[0].used, es[0].length) + Flat(es[1..])
  {
    assert es == [es[0]] + es[1..];
    FlatAppend([es[0]], es[1..]);
    FlatOne(es[0]);
  }

  lemma ShiftUnits(a: seq<bool>, b: seq<bool>, c: seq<bool>, d: seq<bool>)
    ensures (a + b) + c + d == a + (b + c) + d
  {}

  lemma ShiftedList(es: seq<Elem>)
    requires es != [] && IsRun(es[0], true) && AllGood(es) && NoEqualNeighbours(es)
    ensures AllGood(es[1..]) && NoEqualNeighbours(es[1..]) && CostSum(es[1..]) == CostSum(es) - 1
    ensures |es| > 1 ==> !IsRun(es[1..][0], true)
  {
    var rest := es[1..];
    forall i | 0 <= i < |rest| - 1 ensures Apart(rest, i) { assert Apart(es, i + 1); }
    if |es| > 1 { assert Apart(es, 0); }
  }

  lemma ShiftLast(first: nat, es: seq<Elem>, last: nat)
    requires es != [] && IsRun(es[|es| - 1], false) && AllGood(es) && NoEqualNeighbours(es)
    ensures var rest := es[..|es| - 1];
      && Units(first, rest, last + es[|es| - 1].length) == Units(first, es, last)
      && AllGood(rest) && NoEqualNeighbours(rest) && CostSum(rest) == CostSum(es) - 1
      && (rest != [] ==> !IsRun(rest[|rest| - 1], false) && rest[0] == es[0])
  {
    var n, rest := es[|es| - 1].length, es[..|es| - 1];
    assert es == rest + [es[|es| - 1]];
    FlatAppend(rest, [es[|es| - 1]]);
    CostAppend(rest, [es[|es| - 1]]);
    FlatOne(es[|es| - 1]);
    RepeatAppend(false, n, last);
    assert Units(first, es, last) == Repeat(true, first) + Flat(rest) + (Repeat(false, n) + Repeat(false, last));
    forall i | 0 <= i < |rest| - 1 ensures Apart(rest, i) { assert Apart(es, i); }
    if rest != [] { assert Apart(es, |es| - 2); }
  }

  // ---------- what the invariant is good for ----------

  /** Memory bound, locally: no three neighbours fit into one bitmap. */
  lemma NoThreeFit(es: seq<Elem>, i: nat)
    requires AllGood(es) && NoGain(es) && i + 2 < |es|
    ensures Len(es[i]) + Len(es[i + 1]) + Len(es[i + 2]) > NBITS
  {
    assert Good(es[i + 1]) && Good(es[i + 2]) && Window(es, i) < 3;
    WindowUnfold(es, i);
  }

  lemma WindowUnfold(es: seq<Elem>, i: nat)
    requires i + 1 < |es| && Len(es[i + 1]) > 0
    ensures Len(es[i]) + Len(es[i + 1]) <= NBITS ==> Window(es, i) >= Cost(es[i]) + Cost(es[i + 1])
    ensures i + 2 < |es| && Len(es[i]) + Len(es[i + 1]) + Len(es[i + 2]) <= NBITS ==>
      Window(es, i) >= Cost(es[i]) + Cost(es[i + 1]) + Cost(es[i + 2])
  {
    if Len(es[i]) + Len(es[i + 1]) <= NBITS {
      assert WindowRest(es, i + 1, Len(es[i])) == Cost(es[i + 1]) + WindowRest(es, i + 2, Len(es[i]) + Len(es[i + 1]));
    }
  }

  /** No bitmap fits into one bitmap together with a neighbour. */
  lemma NoBitmapFits(es: seq<Elem>, i: nat)
    requires AllGood(es) && NoGain(es) && i + 1 < |es| && (es[i].Map? || es[i + 1].Map?)
    ensures Len(es[i]) + Len(es[i + 1]) > NBITS
  {
    assert Good(es[i + 1]) && Window(es, i) < 3;
    WindowUnfold(es, i);
  }

  /**
   Memory bound, globally.  Two neighbours with a bitmap among them cost at most four blocks, and so do two runs
   and what follows them; either way they span more than NBITS units.
   */
  lemma {:induction false} MemoryBound(es: seq<Elem>)
    requires AllGood(es) && NoGain(es)
    ensures CostSum(es) <= 4 * (|Flat(es)| / (NBITS + 1)) + 2
    decreases |es|, 1
  {
    if |es| >= 2 && (es[0].Map? || es[1].Map?) {
      NoBitmapFits(es, 0);
      TwoCost(es);
      BoundStep(es, 2);
    } else if |es| >= 3 {
      NoThreeFit(es, 0);
      ThreeCost(es);
      BoundStep(es, 3);
    } else if |es| == 2 {
      TwoCost(es);
      assert es[..2] == es;
    }
  }

  /** A few elements at the front that cost at most four blocks and span more than NBITS units. */
  lemma BoundStep(es: seq<Elem>, k: nat)
    requires AllGood(es) && NoGain(es) && 0 < k <= |es| && CostSum(es[..k]) <= 4 && |Flat(es[..k])| > NBITS
    ensures CostSum(es) <= 4 * (|Flat(es)| / (NBITS + 1)) + 2
    decreases |es|, 0
  {
    var tail := es[k..];
    forall f | 0 <= f < |tail| ensures Window(tail, f) < 3 { WindowSuffix(es, k, f); }
    MemoryBound(tail);
    assert es == es[..k] + tail;
    FlatAppend(es[..k], tail);
    CostAppend(es[..k], tail);
    DivisionStep(|Flat(tail)|, |Flat(es)|);
  }

  lemma TwoCost(es: seq<Elem>)
    requires |es| >= 2
    ensures |Flat(es[..2])| == Len(es[0]) + Len(es[1]) && CostSum(es[..2]) == Cost(es[0]) + Cost(es[1])
  {
    FlatTwo(es, 0);
    assert es[0..2] == es[..2];
  }

  lemma ThreeCost(es: seq<Elem>)
    requires |es| >= 3
    ensures |Flat(es[..3])| == Len(es[0]) + Len(es[1]) + Len(es[2])
    ensures CostSum(es[..3]) == Cost(es[0]) + Cost(es[1]) + Cost(es[2])
  {
    assert es[..3] == es[..2] + [es[2]];
    TwoCost(es);
    FlatAppend(es[..2], [es[2]]);
    CostAppend(es[..2], [es[2]]);
    FlatOne(es[2]);
  }

  lemma DivisionStep(a: nat, b: nat)
    requires b >= a + NBITS + 1
    ensures b / (NBITS + 1) >= a / (NBITS + 1) + 1
  {
    var q := a / 257;
    assert a >= 257 * q;
    assert b >= 257 * (q + 1);
  }

  lemma WindowSuffix(es: seq<Elem>, k: nat, f: nat)
    requires k <= |es| && f < |es| - k
    ensures Window(es[k..], f) == Window(es, k + f)
  {
    WindowRestSuffix(es, k, f + 1, Len(es[k + f]));
  }

  lemma {:induction false} WindowRestSuffix(es: seq<Elem>, k: nat, p: nat, l: nat)
    requires k <= |es| && p <= |es| - k
    ensures WindowRest(es[k..], p, l) == WindowRest(es, k + p, l)
    decreases |es| - k - p
  {
    if p < |es| - k && Len(es[k + p]) + l <= NBITS {
      WindowRestSuffix(es, k, p + 1, l + Len(es[k + p]));
    }
  }

  lemma {:induction false} FlatHas(es: seq<Elem>, i: nat, b: bool)
    requires i < |es| && b in Bits(es[i])
    ensures b in Flat(es)
  {
    if i > 0 { FlatHas(es[1..], i - 1, b); }
  }

  lemma {:induction false} NoneTrue(s: seq<bool>)
    requires CountTrue(s) == 0
    ensures true !in s
  {
    if s != [] { NoneTrue(s[1..]); }
  }

  lemma UnitsHave(first: nat, es: seq<Elem>, last: nat, i: nat, b: bool)
    requires i < |es| && b in Bits(es[i])
    ensures b in Units(first, es, last)
  {
    FlatHas(es, i, b);
  }

  lemma FirstIsUsed(first: nat, es: seq<Elem>, last: nat)
    ensures first > 0 ==> true in Units(first, es, last)
  {
    if first > 0 { assert Units(first, es, last)[0]; }
  }

  lemma UnusedIsFreeRun(e: Elem)
    requires Good(e) && true !in Bits(e)
    ensures IsRun(e, false)
  {
    assert Bits(e)[0] in Bits(e);
  }

  /** An idle space keeps no memory at all: no block leaks. */
  lemma IdleIsEmpty(first: nat, es: seq<Elem>, last: nat, span: int, busy: int, alloc: int)
    requires SpaceOk(first, es, last, span, busy, alloc) && busy == 0
    ensures es == [] && alloc == 0 && first == 0 && last == span
  {
    NoneTrue(Units(first, es, last));
    FirstIsUsed(first, es, last);
    if es != [] {
      var i := |es| - 1;
      if true in Bits(es[i]) { UnitsHave(first, es, last, i, true); }
      UnusedIsFreeRun(es[i]);
    }
  }
}
