/** The long-input path of XXH3 (xxhash.h): stripes, blocks and scrambles. */
module Xxh3Stripes {
  import opened XxhWords
  import opened Xxh3Mix

  /** The lanes, and how many stripes of the current block they have taken. */
  datatype Progress = Progress(acc: Lanes, soFar: nat)

  function Key(secret: Bytes, off: nat): (k: Bytes)
    requires off + STRIPE_LEN <= |secret|
    ensures |k| == STRIPE_LEN
  {
    secret[off..off + STRIPE_LEN]
  }

  predicate Long(secret: Bytes) {
    |secret| >= SECRET_SIZE_MIN
  }

  /** nbStripesPerBlock */
  function PerBlock(secret: Bytes): (k: nat)
    requires Long(secret)
    ensures k >= 9 && CONSUME_RATE * k + STRIPE_LEN <= |secret|
  {
    (|secret| - STRIPE_LEN) / CONSUME_RATE
  }

  function StripeAt(data: Bytes, n: nat): (s: Bytes)
    requires STRIPE_LEN * (n + 1) <= |data|
    ensures |s| == STRIPE_LEN
  {
    data[STRIPE_LEN * n..STRIPE_LEN * (n + 1)]
  }

  /** One stripe; the lanes are scrambled at the end of a block. */
  function Step(secret: Bytes, p: Progress, stripe: Bytes): (q: Progress)
    requires Long(secret) && p.soFar < PerBlock(secret)
    ensures q.soFar < PerBlock(secret)
  {
    var acc := Accumulated(p.acc, stripe, Key(secret, CONSUME_RATE * p.soFar));
    if p.soFar + 1 == PerBlock(secret) then Progress(Scrambled(acc, Key(secret, |secret| - STRIPE_LEN)), 0)
    else Progress(acc, p.soFar + 1)
  }

  function Steps(secret: Bytes, p: Progress, data: Bytes, n: nat): (q: Progress)
    requires Long(secret) && p.soFar < PerBlock(secret) && STRIPE_LEN * n <= |data|
    ensures q.soFar < PerBlock(secret)
  {
    if n == 0 then p else Step(secret, Steps(secret, p, data, n - 1), StripeAt(data, n - 1))
  }

  /** The last stripe ends with the input, and has a part of the secret of its own. */
  function LastStripe(secret: Bytes, acc: Lanes, stripe: Bytes): Lanes
    requires Long(secret)
  {
    Accumulated(acc, stripe, Key(secret, |secret| - STRIPE_LEN - 7))
  }

  /** The hash of a long input, stripe by stripe. */
  function LongHash(secret: Bytes, input: Bytes): bv64
    requires Long(secret) && |input| >= STRIPE_LEN
  {
    var p := Steps(secret, Progress(InitAcc(), 0), input, (|input| - 1) / STRIPE_LEN);
    Merged(LastStripe(secret, p.acc, input[|input| - STRIPE_LEN..]), secret, 11, LenStart(|input|))
  }

  // ---------- runs of stripes ----------

  lemma {:induction false} StepsPrefix(secret: Bytes, p: Progress, a: Bytes, b: Bytes, n: nat)
    requires Long(secret) && p.soFar < PerBlock(secret) && STRIPE_LEN * n <= |a|
    ensures Steps(secret, p, a + b, n) == Steps(secret, p, a, n)
  {
    hide Step;
    if n > 0 {
      StepsPrefix(secret, p, a, b, n - 1);
      StripePrefix(a, b, n - 1);
    }
  }

  lemma StripePrefix(a: Bytes, b: Bytes, n: nat)
    requires STRIPE_LEN * (n + 1) <= |a|
    ensures StripeAt(a + b, n) == StripeAt(a, n)
  {}

  lemma StripeTail(a: Bytes, b: Bytes, k: nat, n: nat)
    requires STRIPE_LEN * k == |a| && STRIPE_LEN * (n + 1) <= |b|
    ensures StripeAt(a + b, k + n) == StripeAt(b, n)
  {}

  lemma {:induction false} StepsOn(secret: Bytes, p: Progress, a: Bytes, b: Bytes, k: nat, n: nat)
    requires Long(secret) && p.soFar < PerBlock(secret) && STRIPE_LEN * k == |a| && STRIPE_LEN * n <= |b|
    ensures Steps(secret, p, a + b, k + n) == Steps(secret, Steps(secret, p, a, k), b, n)
    decreases n
  {
    hide Step;
    if n == 0 {
      StepsPrefix(secret, p, a, b, k);
    } else {
      StepsOn(secret, p, a, b, k, n - 1);
      StripeTail(a, b, k, n - 1);
    }
  }

  /** XXH3_accumulate: n stripes with keys from the given one on, and no scramble. */
  function Many(secret: Bytes, acc: Lanes, data: Bytes, first: nat, n: nat): Lanes
    requires STRIPE_LEN * n <= |data| && CONSUME_RATE * (first + n) + STRIPE_LEN <= |secret| + CONSUME_RATE
  {
    if n == 0 then acc
    else Accumulated(Many(secret, acc, data, first, n - 1), StripeAt(data, n - 1), Key(secret, CONSUME_RATE * (first + n - 1)))
  }

  /** Within a block, steps only accumulate. */
  lemma {:induction false} StepsAreMany(secret: Bytes, p: Progress, data: Bytes, n: nat)
    requires Long(secret) && p.soFar + n < PerBlock(secret) && STRIPE_LEN * n <= |data|
    ensures Steps(secret, p, data, n) == Progress(Many(secret, p.acc, data, p.soFar, n), p.soFar + n)
  {
    hide Accumulated, Scrambled;
    if n > 0 { StepsAreMany(secret, p, data, n - 1); }
  }

  /** At the end of a block they accumulate and then scramble. */
  lemma StepsToEnd(secret: Bytes, p: Progress, data: Bytes, n: nat)
    requires Long(secret) && n > 0 && p.soFar + n == PerBlock(secret) && STRIPE_LEN * n <= |data|
    ensures Steps(secret, p, data, n)
      == Progress(Scrambled(Many(secret, p.acc, data, p.soFar, n), Key(secret, |secret| - STRIPE_LEN)), 0)
  {
    hide Accumulated, Scrambled;
    StepsAreMany(secret, p, data, n - 1);
  }

  // ---------- in place ----------

  /** XXH3_accumulate_512_scalar: the words go to the neighbouring lanes. */
  method Accumulate512(acc: array<bv64>, stripe: Bytes, key: Bytes)
    requires acc.Length == 8
    modifies acc
    ensures acc[..] == Accumulated(old(acc[..]), stripe, key)
  {
    hide ReadLE64, Product, Plus64, AfterLane, Lane;
    ghost var was: Lanes := acc[..];
    LaneEnds(was, stripe, key);
    for i := 0 to 8
      invariant forall j | 0 <= j < 8 :: acc[j] == AfterLane(was[j], stripe, key, i, j)
    {
      LaneSteps(was, stripe, key, i);
      var dataVal := ReadLE64(stripe, 8 * i);
      acc[Swap(i)] := Plus64(acc[Swap(i)], dataVal);
      acc[i] := Plus64(acc[i], Product(stripe, key, i));
    }
  }

  lemma LaneEnds(was: Lanes, stripe: Bytes, key: Bytes)
    ensures forall j | 0 <= j < 8 :: AfterLane(was[j], stripe, key, 0, j) == was[j] && AfterLane(was[j], stripe, key, 8, j) == Lane(was[j], stripe, key, j)
  {
    hide ReadLE64, Product, Plus64, Lane;
  }

  /** What word i of the stripe does to lane j. */
  function WithWord(x: bv64, stripe: Bytes, key: Bytes, i: nat, j: nat): bv64 {
    if j == i then Plus64(x, Product(stripe, key, i)) else if j == Swap(i) then Plus64(x, ReadLE64(stripe, 8 * i)) else x
  }

  lemma LaneSteps(was: Lanes, stripe: Bytes, key: Bytes, i: nat)
    requires i < 8
    ensures forall j | 0 <= j < 8 :: AfterLane(was[j], stripe, key, i + 1, j) == WithWord(AfterLane(was[j], stripe, key, i, j), stripe, key, i, j)
  {
    hide ReadLE64, Product, Plus64;
  }

  /** Lane j after i words of the stripe. */
  function AfterLane(x: bv64, stripe: Bytes, key: Bytes, i: nat, j: nat): bv64
    requires j < 8
  {
    if j < i && Swap(j) < i then Lane(x, stripe, key, j)
    else if j < i then Plus64(x, Product(stripe, key, j))
    else if Swap(j) < i then Plus64(x, ReadLE64(stripe, 8 * Swap(j)))
    else x
  }

  /** XXH3_scrambleAcc_scalar */
  method ScrambleAcc(acc: array<bv64>, key: Bytes)
    requires acc.Length == 8
    modifies acc
    ensures acc[..] == Scrambled(old(acc[..]), key)
  {
    hide ReadLE64, ScrambledLane;
    for i := 0 to 8
      invariant forall j | 0 <= j < 8 :: acc[j] == if j < i then ScrambledLane(old(acc[..])[j], ReadLE64(key, 8 * j)) else old(acc[..])[j]
    {
      acc[i] := ScrambledLane(acc[i], ReadLE64(key, 8 * i));
    }
  }

  /** XXH3_accumulate */
  method Accumulate(acc: array<bv64>, data: Bytes, secret: Bytes, first: nat, nbStripes: nat)
    requires acc.Length == 8
    requires STRIPE_LEN * nbStripes <= |data| && CONSUME_RATE * (first + nbStripes) + STRIPE_LEN <= |secret| + CONSUME_RATE
    modifies acc
    ensures acc[..] == Many(secret, old(acc[..]), data, first, nbStripes)
  {
    hide Accumulated;
    for n := 0 to nbStripes
      invariant acc[..] == Many(secret, old(acc[..]), data, first, n)
    {
      Accumulate512(acc, StripeAt(data, n), Key(secret, CONSUME_RATE * (first + n)));
    }
  }

  /** XXH3_consumeStripes: at most one block, and at most one scramble. */
  method ConsumeStripes(acc: array<bv64>, soFar: nat, data: Bytes, nbStripes: nat, secret: Bytes) returns (now: nat)
    requires acc.Length == 8 && Long(secret) && soFar < PerBlock(secret)
    requires nbStripes <= PerBlock(secret) && STRIPE_LEN * nbStripes <= |data|
    modifies acc
    ensures Progress(acc[..], now) == Steps(secret, Progress(old(acc[..]), soFar), data, nbStripes)
  {
    hide Many, Scrambled, Steps;
    ghost var a: Lanes := acc[..];
    var perBlock := PerBlock(secret);
    if perBlock - soFar <= nbStripes {
      var toEnd := perBlock - soFar;
      var after := nbStripes - toEnd;
      var rest := data[STRIPE_LEN * toEnd..];
      StepsToEnd(secret, Progress(a, soFar), data, toEnd);
      Accumulate(acc, data, secret, soFar, toEnd);
      ScrambleAcc(acc, Key(secret, |secret| - STRIPE_LEN));
      ghost var b: Lanes := acc[..];
      StepsAreMany(secret, Progress(b, 0), rest, after);
      CutSteps(secret, Progress(a, soFar), data, toEnd, after);
      Accumulate(acc, rest, secret, 0, after);
      now := after;
    } else {
      StepsAreMany(secret, Progress(a, soFar), data, nbStripes);
      Accumulate(acc, data, secret, soFar, nbStripes);
      now := soFar + nbStripes;
    }
  }

  lemma CutSteps(secret: Bytes, p: Progress, data: Bytes, k: nat, n: nat)
    requires Long(secret) && p.soFar < PerBlock(secret) && STRIPE_LEN * (k + n) <= |data|
    ensures Steps(secret, p, data, k + n) == Steps(secret, Steps(secret, p, data, k), data[STRIPE_LEN * k..], n)
  {
    hide Steps;
    var a, b := data[..STRIPE_LEN * k], data[STRIPE_LEN * k..];
    assert data == a + b;
    StepsOn(secret, p, a, b, k, n);
    StepsPrefix(secret, p, a, b, k);
  }

  /** XXH3_mergeAccs */
  method MergeAccs(acc: array<bv64>, secret: Bytes, k: nat, start: bv64) returns (r: bv64)
    requires acc.Length == 8
    ensures r == Merged(acc[..], secret, k, start)
  {
    hide Mix2, Plus64, Avalanche;
    r := start;
    for i := 0 to 4
      invariant r == MergeSum(acc[..], secret, k, start, i)
    {
      r := Plus64(r, Mix2(acc[2 * i], acc[2 * i + 1], secret, k + 16 * i));
    }
    r := Avalanche(r);
  }
}
