/**
 Which pending lists util_list_sort merges (list_sort.c).  The sizes of the pending lists are a
 function of count alone, and this module gives that function in closed form, one binary digit of
 count at a time.
 */
module MergeSchedule {
  import opened Powers

  /**
   The pending lists of size at least 2^k, newest first.  c is count shifted right by k, and carry is
   its binary digit k - 1 (taken to be 1 for k = 0).
   */
  function Sizes(c: nat, carry: bool, k: nat): seq<nat>
    decreases c
  {
    if c == 0 then [] else Copies(Number(c, carry), Pow2(k)) + Sizes(c / 2, c % 2 == 1, k + 1)
  }

  /** How many pending lists have size 2^k: the six states that the binary digits of count can be in. */
  function Number(c: nat, carry: bool): (n: nat)
    ensures n <= 2
  {
    if c / 2 == 0 then (if c == 1 && carry then 1 else 0)
    else (if c % 2 == 0 then 1 else 0) + (if carry then 1 else 0)
  }

  function Copies(n: nat, x: nat): (s: seq<nat>)
    ensures |s| == n && forall i | 0 <= i < n :: s[i] == x
  {
    seq(n, _ => x)
  }

  /** The sizes of the pending lists when they hold count elements. */
  function PendingSizes(count: nat): seq<nat> {
    Sizes(count, true, 0)
  }

  predicate Nondecreasing(s: seq<nat>) {
    forall i, j | 0 <= i < j < |s| :: s[i] <= s[j]
  }

  lemma {:induction false} CopiesCount(n: nat, x: nat, y: nat)
    ensures multiset(Copies(n, x))[y] == if x == y then n else 0
  {
    if n > 0 {
      assert Copies(n, x) == [x] + Copies(n - 1, x);
      CopiesCount(n - 1, x, y);
    }
  }

  /** Sizes of at least low, in order and at most two of each. */
  ghost predicate Scheduled(s: seq<nat>, low: nat) {
    && Nondecreasing(s) && (forall i | 0 <= i < |s| :: low <= s[i])
    && (forall x :: multiset(s)[x] <= 2)
  }

  lemma PutBefore(n: nat, p: nat, rest: seq<nat>)
    requires n <= 2 && p >= 1 && Scheduled(rest, 2 * p)
    ensures Scheduled(Copies(n, p) + rest, p)
  {
    var here := Copies(n, p);
    var s := here + rest;
    assert forall i | 0 <= i < |s| :: s[i] == if i < n then p else rest[i - n];
    forall x ensures multiset(s)[x] <= 2 {
      assert multiset(s) == multiset(here) + multiset(rest);
      CopiesCount(n, p, x);
      if x == p { assert p !in rest; }
    }
  }

  lemma {:induction false} SizesSorted(c: nat, carry: bool, k: nat)
    ensures Scheduled(Sizes(c, carry, k), Pow2(k))
    decreases c
  {
    if c > 0 {
      SizesSorted(c / 2, c % 2 == 1, k + 1);
      var rest := Sizes(c / 2, c % 2 == 1, k + 1);
      assert Pow2(k + 1) == 2 * Pow2(k);
      hide Scheduled;
      PutBefore(Number(c, carry), Pow2(k), rest);
    }
  }

  /** The pending lists are ordered by size, newest and smallest first, and there are at most two of each size. */
  lemma PendingSorted(count: nat)
    ensures Nondecreasing(PendingSizes(count)) && forall x :: multiset(PendingSizes(count))[x] <= 2
  {
    SizesSorted(count, true, 0);
  }

  lemma {:induction false} SizesArePowers(c: nat, carry: bool, k: nat, i: nat) returns (level: nat)
    requires i < |Sizes(c, carry, k)|
    ensures Sizes(c, carry, k)[i] == Pow2(level)
    decreases c
  {
    var n := Number(c, carry);
    if i < n { level := k; } else { level := SizesArePowers(c / 2, c % 2 == 1, k + 1, i - n); }
  }

  /** Every pending list has a power of two of elements. */
  lemma PendingPowers(count: nat, i: nat)
    requires i < |PendingSizes(count)|
    ensures exists k: nat :: PendingSizes(count)[i] == Pow2(k)
  {
    var k := SizesArePowers(count, true, 0, i);
  }

  /** With the digit below it set, level k has one list more. */
  lemma OneMore(c: nat, k: nat)
    requires c > 0
    ensures Sizes(c, true, k) == [Pow2(k)] + Sizes(c, false, k)
  {}

  /** Set digits at the bottom of count: the lists that the merge passes over, one of each size. */
  lemma OddDigit(c: nat, k: nat)
    requires c % 2 == 1
    ensures Sizes(c, true, k) == [Pow2(k)] + Sizes(c / 2, true, k + 1)
    ensures Sizes(c + 1, false, k) == [Pow2(k)] + Sizes(c / 2 + 1, false, k + 1)
  {
    assert (c + 1) / 2 == c / 2 + 1;
    assert Copies(1, Pow2(k)) == [Pow2(k)];
  }

  /** The lowest clear digit of count, with set digits above it: the two lists to merge have equal size. */
  lemma EvenDigit(c: nat, k: nat)
    requires c % 2 == 0 && c > 0
    ensures Sizes(c, true, k) == [Pow2(k), Pow2(k)] + Sizes(c / 2, false, k + 1)
    ensures Sizes(c + 1, false, k) == [Pow2(k) + Pow2(k)] + Sizes(c / 2, false, k + 1)
  {
    assert (c + 1) / 2 == c / 2 && (c + 1) % 2 == 1;
    assert Copies(2, Pow2(k)) == [Pow2(k), Pow2(k)];
    OneMore(c / 2, k + 1);
    assert Copies(0, Pow2(k)) == [];
    assert Sizes(c + 1, false, k) == Sizes(c / 2, true, k + 1);
  }

  /** No set digit above: nothing to merge. */
  lemma NoDigit(k: nat)
    ensures Sizes(0, true, k) == [] && Sizes(1, false, k) == []
  {
    assert Copies(0, Pow2(k)) == [];
  }

  /** The sizes after one round: the merge, and a new list of one element. */
  lemma NextSizes(count: nat)
    ensures PendingSizes(count + 1) == [1] + Sizes(count + 1, false, 0)
  {
    OneMore(count + 1, 0);
  }

  // ---------- finding the place to merge ----------

  /** The search has passed j lists, one of each size below 2^j; bits is what is left of count. */
  predicate PlaceAt(sizes: seq<nat>, count: nat, bits: nat, j: nat) {
    && j <= |sizes| && (forall i | 0 <= i < j :: sizes[i] == Pow2(i))
    && sizes[j..] == Sizes(bits, true, j)
    && Sizes(count + 1, false, 0) == sizes[..j] + Sizes(bits + 1, false, j)
  }

  /** The j lowest bits of count are set, and bits is what is above them. */
  predicate LowBits(count: nat, bits: nat, j: nat) {
    count == bits * Pow2(j) + Pow2(j) - 1
  }

  lemma LowBitsStart(count: nat)
    ensures LowBits(count, count, 0)
  {}

  lemma LowBitsOdd(count: nat, bits: nat, j: nat)
    requires LowBits(count, bits, j) && bits % 2 == 1
    ensures LowBits(count, bits / 2, j + 1)
  {
    var h, p := bits / 2, Pow2(j);
    assert bits == 2 * h + 1 && Pow2(j + 1) == 2 * p;
    assert (2 * h + 1) * p == h * (2 * p) + p;
  }

  lemma LowBitsEnd(count: nat, bits: nat, j: nat)
    requires LowBits(count, bits, j)
    ensures count == bits * Pow2(j) + Pow2(j) - 1
  {}

  lemma PlaceStart(sizes: seq<nat>, count: nat)
    requires sizes == PendingSizes(count)
    ensures PlaceAt(sizes, count, count, 0)
  {
    assert sizes[0..] == sizes;
  }

  lemma PlaceNext(sizes: seq<nat>, count: nat, bits: nat, j: nat)
    requires PlaceAt(sizes, count, bits, j)
    ensures j <= |sizes| && (bits != 0 ==> j < |sizes|)
  {
    if bits != 0 { OneMore(bits, j); }
  }

  lemma PlaceOdd(sizes: seq<nat>, count: nat, bits: nat, j: nat)
    requires PlaceAt(sizes, count, bits, j) && bits % 2 == 1
    ensures PlaceAt(sizes, count, bits / 2, j + 1)
  {
    OddDigit(bits, j);
    hide Sizes;
    assert sizes[j..][0] == sizes[j] && sizes[j..][1..] == sizes[j + 1..];
    assert sizes[..j + 1] == sizes[..j] + [sizes[j]];
    assert (bits + 1) / 2 == bits / 2 + 1;
  }

  lemma PlaceEnd(sizes: seq<nat>, count: nat, bits: nat, j: nat)
    requires PlaceAt(sizes, count, bits, j) && bits % 2 == 0
    ensures j <= |sizes| && forall i | 0 <= i < j :: sizes[i] == Pow2(i)
    ensures bits == 0 ==> j == |sizes| && Sizes(count + 1, false, 0) == sizes
    ensures bits != 0 ==> j + 1 < |sizes| && sizes[j] == sizes[j + 1] == Pow2(j)
    ensures bits != 0 ==> Sizes(count + 1, false, 0) == sizes[..j] + [2 * Pow2(j)] + sizes[j + 2..]
  {
    hide Sizes;
    if bits == 0 {
      NoDigit(j);
      assert sizes[..j] == sizes;
    } else {
      EvenDigit(bits, j);
      TwoAtPlace(sizes, j, Pow2(j), Sizes(bits / 2, false, j + 1));
      hide Pow2;
    }
  }

  lemma TwoAtPlace(sizes: seq<nat>, j: nat, p: nat, rest: seq<nat>)
    requires j <= |sizes| && sizes[j..] == [p, p] + rest
    ensures j + 1 < |sizes| && sizes[j] == sizes[j + 1] == p && sizes[j + 2..] == rest
    ensures sizes[..j] + ([p + p] + rest) == sizes[..j] + [2 * p] + rest
  {
    var tail := sizes[j..];
    assert tail[0] == sizes[j] && tail[1] == sizes[j + 1] && tail[2..] == sizes[j + 2..];
  }

  // ---------- what the schedule is good for ----------

  function Sum(s: seq<nat>): nat {
    if s == [] then 0 else s[0] + Sum(s[1..])
  }

  lemma {:induction false} SumAppend(a: seq<nat>, b: seq<nat>)
    ensures Sum(a + b) == Sum(a) + Sum(b)
  {
    if a == [] {
      assert a + b == b;
    } else {
      assert (a + b)[1..] == a[1..] + b;
      SumAppend(a[1..], b);
    }
  }

  lemma {:induction false} SumCopies(n: nat, x: nat)
    ensures Sum(Copies(n, x)) == n * x
  {
    if n > 0 {
      assert Copies(n, x)[1..] == Copies(n - 1, x);
      SumCopies(n - 1, x);
    }
  }

  lemma {:induction false} SizesSum(c: nat, carry: bool, k: nat)
    requires c > 0
    ensures Sum(Sizes(c, carry, k)) == Pow2(k) * (c - 1 + if carry then 1 else 0)
    decreases c
  {
    var rest := Sizes(c / 2, c % 2 == 1, k + 1);
    SumAppend(Copies(Number(c, carry), Pow2(k)), rest);
    SumCopies(Number(c, carry), Pow2(k));
    if c / 2 > 0 {
      SizesSum(c / 2, c % 2 == 1, k + 1);
      Regroup(Pow2(k), c, carry);
    } else {
      assert rest == [];
    }
  }

  lemma Regroup(p: nat, c: nat, carry: bool)
    requires c / 2 > 0
    ensures Number(c, carry) * p + (2 * p) * (c / 2 - 1 + if c % 2 == 1 then 1 else 0) == p * (c - 1 + if carry then 1 else 0)
  {
    var h := c / 2;
    if c % 2 == 1 { assert c == 2 * h + 1; } else { assert c == 2 * h; }
  }

  /** The pending lists hold exactly count elements. */
  lemma PendingSum(count: nat)
    ensures Sum(PendingSizes(count)) == count
  {
    if count > 0 { SizesSum(count, true, 0); }
  }

  /**
   The merges at the end of the input are balanced: what has been merged so far and the next list,
   of size 2^k, differ by a factor of at most two.
   */
  lemma FinalBalance(count: nat, i: nat)
    requires 0 < i < |PendingSizes(count)|
    ensures exists k: nat :: (
      && PendingSizes(count)[i] == Pow2(k)
      && Pow2(k) <= 2 * Sum(PendingSizes(count)[..i]) && Sum(PendingSizes(count)[..i]) <= 2 * Pow2(k) - 1)
  {
    var k := LevelBalance(count, true, 0, 0, 0, i);
  }

  /** Where the input is cut for the last merge: the size of the oldest pending list. */
  function Split(n: nat): nat {
    var sizes := PendingSizes(n);
    if sizes == [] then 0 else sizes[|sizes| - 1]
  }

  lemma TwoPending(n: nat)
    requires n >= 2
    ensures |PendingSizes(n)| >= 2
  {
    OneMore(n, 0);
    if n % 2 == 1 { OddDigit(n, 0); OneMore(n / 2, 1); } else { EvenDigit(n, 0); }
  }

  lemma SplitIs(n: nat) returns (k: nat)
    requires n >= 2
    ensures Split(n) == Pow2(k) && 0 < Split(n) < n && 3 * Split(n) <= 2 * n && n < 3 * Split(n)
  {
    TwoPending(n);
    var sizes := PendingSizes(n);
    var i := |sizes| - 1;
    PendingSum(n);
    SumAppend(sizes[..i], [sizes[i]]);
    assert sizes == sizes[..i] + [sizes[i]];
    assert Sum([sizes[i]]) == sizes[i];
    FinalBalance(n, i);
    k :| sizes[i] == Pow2(k) && Pow2(k) <= 2 * Sum(sizes[..i]) && Sum(sizes[..i]) <= 2 * Pow2(k) - 1;
  }

  lemma PowerGap(k: nat)
    ensures k <= 7 ==> Pow2(k) <= 128
    ensures k >= 8 ==> Pow2(k) >= 256
    decreases k
  {
    if k > 8 { PowerGap(k - 1); }
    assert Pow2(1) == 2 && Pow2(2) == 4 && Pow2(3) == 8 && Pow2(4) == 16;
    assert Pow2(5) == 32 && Pow2(6) == 64 && Pow2(7) == 128 && Pow2(8) == 256;
  }

  /** From 384 elements on the first part has at least 256; below, neither has as many. */
  lemma SplitAt384(n: nat)
    requires n >= 2
    ensures 0 < Split(n) < n
    ensures n >= 384 ==> Split(n) >= 256
    ensures n < 384 ==> Split(n) < 256 && n - Split(n) < 256
  {
    var k := SplitIs(n);
    PowerGap(k);
  }

  /** The same from level k on: r is what is below level k of count, low the elements in smaller lists. */
  lemma {:induction false} LevelBalance(c: nat, carry: bool, k: nat, r: nat, low: nat, i: nat) returns (level: nat)
    requires i < |Sizes(c, carry, k)| && low + i > 0
    requires r < Pow2(k) && low == r + (if carry then 0 else Pow2(k))
    requires carry && k > 0 ==> Pow2(k) <= 2 * r
    requires !carry ==> 2 * r < Pow2(k)
    ensures Sizes(c, carry, k)[i] == Pow2(level)
    ensures var before := low + Sum(Sizes(c, carry, k)[..i]);
      Pow2(level) <= 2 * before && before <= 2 * Pow2(level) - 1
    decreases c
  {
    var n := Number(c, carry);
    var here, rest := Copies(n, Pow2(k)), Sizes(c / 2, c % 2 == 1, k + 1);
    if i < n {
      level := k;
      assert Sizes(c, carry, k)[..i] == Copies(i, Pow2(k));
      SumCopies(i, Pow2(k));
      if i == 1 { assert 1 * Pow2(k) == Pow2(k); }
    } else {
      var low' := low + n * Pow2(k);
      assert Sizes(c, carry, k)[..i] == here + rest[..i - n];
      SumAppend(here, rest[..i - n]);
      SumCopies(n, Pow2(k));
      var r' := r + if c % 2 == 1 then Pow2(k) else 0;
      assert c / 2 > 0;
      NextLow(n, Pow2(k), carry, c);
      level := LevelBalance(c / 2, c % 2 == 1, k + 1, r', low', i - n);
    }
  }

  lemma NextLow(n: nat, p: nat, carry: bool, c: nat)
    requires n == Number(c, carry) && c / 2 > 0
    ensures (if carry then 0 else p) + n * p == (if c % 2 == 1 then p else 2 * p)
  {}
}
