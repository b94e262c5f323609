/**
 XXH3, 64 bits (xxhash.h): the hashes of a whole input, and the streaming state, which gives the same
 however the input is cut.
 */
module Xxh3 {
  import opened XxhWords
  import opened Xxh3Mix
  import opened Xxh3Stripes

  /** The secret that hashes of short inputs use: a seed then goes with the default secret. */
  function ShortSecret(secret: Bytes, seed: bv64): Bytes {
    if seed != 0 then DefaultSecret() else secret
  }

  function ShortHash(input: Bytes, secret: Bytes, seed: bv64): bv64
    requires |input| <= MIDSIZE_MAX
  {
    if |input| <= 16 then Len0to16(input, secret, seed)
    else if |input| <= 128 then Len17to128(input, secret, seed)
    else Len129to240(input, secret, seed)
  }

  /** The hash of an input, all at once. */
  function Hash(input: Bytes, secret: Bytes, seed: bv64): bv64
    requires Long(secret)
  {
    if |input| <= MIDSIZE_MAX then ShortHash(input, ShortSecret(secret, seed), seed) else LongHash(secret, input)
  }

  // ---------- all at once ----------

  /** XXH3_len_129to240_64b: two passes of rounds. */
  method MidHash(input: Bytes, secret: Bytes, seed: bv64) returns (acc: bv64)
    requires 128 < |input| <= MIDSIZE_MAX
    ensures acc == Len129to240(input, secret, seed)
  {
    hide LenStart, Mix16B, Avalanche, Plus64;
    acc := LenStart(|input|);
    var nbRounds := |input| / 16;
    for i := 0 to 8
      invariant acc == Rounds(LenStart(|input|), input, secret, seed, 0, 0, i)
    {
      acc := Plus64(acc, Mix16B(input, 16 * i, secret, 16 * i, seed));
    }
    acc := Avalanche(acc);
    ghost var a := acc;
    for i := 8 to nbRounds
      invariant acc == Rounds(a, input, secret, seed, MIDSIZE_STARTOFFSET - 128, 8, i)
    {
      acc := Plus64(acc, Mix16B(input, 16 * i, secret, 16 * (i - 8) + MIDSIZE_STARTOFFSET, seed));
    }
    acc := Plus64(acc, Mix16B(input, |input| - 16, secret, SECRET_SIZE_MIN - MIDSIZE_LASTOFFSET, seed));
    acc := Avalanche(acc);
  }

  method HashShort(input: Bytes, secret: Bytes, seed: bv64) returns (h: bv64)
    requires |input| <= MIDSIZE_MAX
    ensures h == ShortHash(input, secret, seed)
  {
    hide Len0to16, Len17to128, Len129to240;
    if |input| <= 16 {
      h := Len0to16(input, secret, seed);
    } else if |input| <= 128 {
      h := Len17to128(input, secret, seed);
    } else {
      h := MidHash(input, secret, seed);
    }
  }

  method NewAcc() returns (acc: array<bv64>)
    ensures fresh(acc) && acc.Length == 8 && acc[..] == InitAcc()
  {
    var init: seq<bv64> := InitAcc();
    acc := new bv64[8](i requires 0 <= i < 8 => init[i]);
  }

  /** The stripes of n whole blocks. */
  method Blocks(acc: array<bv64>, input: Bytes, secret: Bytes, nbBlocks: nat)
    requires acc.Length == 8 && acc[..] == InitAcc() && Long(secret) && STRIPE_LEN * PerBlock(secret) * nbBlocks <= |input|
    modifies acc
    ensures Progress(acc[..], 0) == Steps(secret, Progress(InitAcc(), 0), input, PerBlock(secret) * nbBlocks)
  {
    hide Steps, Many, Scrambled, InitAcc, PerBlock;
    var perBlock := PerBlock(secret);
    ghost var start := Progress(InitAcc(), 0);
    ghost var done := 0;
    NoSteps(secret, start, input);
    for n := 0 to nbBlocks
      invariant done == perBlock * n && STRIPE_LEN * done <= |input| && Progress(acc[..], 0) == Steps(secret, start, input, done)
    {
      Grow(perBlock, n, nbBlocks);
      CutSteps(secret, start, input, done, perBlock);
      var block := input[STRIPE_LEN * perBlock * n..];
      ghost var a: Lanes := acc[..];
      StepsToEnd(secret, Progress(a, 0), block, perBlock);
      Accumulate(acc, block, secret, 0, perBlock);
      ScrambleAcc(acc, Key(secret, |secret| - STRIPE_LEN));
      done := done + perBlock;
    }
  }

  lemma NoSteps(secret: Bytes, p: Progress, data: Bytes)
    requires Long(secret) && p.soFar < PerBlock(secret)
    ensures Steps(secret, p, data, 0) == p
  {}

  lemma Grow(k: nat, n: nat, m: nat)
    requires n < m
    ensures k * (n + 1) == k * n + k && STRIPE_LEN * (k * n + k) <= STRIPE_LEN * k * m && STRIPE_LEN * k * n == STRIPE_LEN * (k * n)
  {
    assert k * (n + 1) <= k * m;
    Associate(k, m);
    Associate(k, n);
  }

  lemma Associate(k: nat, n: nat)
    ensures STRIPE_LEN * k * n == STRIPE_LEN * (k * n)
  {}

  /** XXH3_hashLong_64b_internal with XXH3_hashLong_internal_loop */
  method HashLong(input: Bytes, secret: Bytes) returns (h: bv64)
    requires Long(secret) && |input| > MIDSIZE_MAX
    ensures h == LongHash(secret, input)
  {
    hide Steps, Many, Accumulated, InitAcc, Merged, LenStart, PerBlock, LongHash;
    var acc := NewAcc();
    var len := |input|;
    var blockLen := STRIPE_LEN * PerBlock(secret);
    var nbBlocks := (len - 1) / blockLen;
    var nbStripes := ((len - 1) - blockLen * nbBlocks) / STRIPE_LEN;
    Divided(secret, len, nbBlocks, nbStripes);
    Blocks(acc, input, secret, nbBlocks);
    LongIs(secret, input, PerBlock(secret) * nbBlocks, nbStripes, acc[..]);
    Accumulate(acc, input[blockLen * nbBlocks..], secret, 0, nbStripes);
    Accumulate512(acc, input[len - STRIPE_LEN..], Key(secret, |secret| - STRIPE_LEN - 7));
    h := MergeAccs(acc, secret, 11, LenStart(len));
  }

  /** Whole blocks, then the stripes of the last block, then the last stripe. */
  lemma LongIs(secret: Bytes, input: Bytes, done: nat, nbStripes: nat, acc: Lanes)
    requires Long(secret) && |input| > MIDSIZE_MAX && nbStripes < PerBlock(secret)
    requires done + nbStripes == (|input| - 1) / STRIPE_LEN && STRIPE_LEN * (done + nbStripes) <= |input|
    requires Progress(acc, 0) == Steps(secret, Progress(InitAcc(), 0), input, done)
    ensures var rest := input[STRIPE_LEN * done..];
      Merged(LastStripe(secret, Many(secret, acc, rest, 0, nbStripes), input[|input| - STRIPE_LEN..]), secret, 11, LenStart(|input|)) == LongHash(secret, input)
  {
    hide Steps, Many, Accumulated, InitAcc, Merged, LenStart, PerBlock;
    StepsAreMany(secret, Progress(acc, 0), input[STRIPE_LEN * done..], nbStripes);
    CutSteps(secret, Progress(InitAcc(), 0), input, done, nbStripes);
  }

  lemma Divided(secret: Bytes, len: nat, nbBlocks: nat, nbStripes: nat)
    requires Long(secret) && len > MIDSIZE_MAX
    requires var b := STRIPE_LEN * PerBlock(secret); nbBlocks == (len - 1) / b && nbStripes == ((len - 1) - b * nbBlocks) / STRIPE_LEN
    ensures var k := PerBlock(secret); var b := STRIPE_LEN * k;
      && b * nbBlocks == STRIPE_LEN * (k * nbBlocks) && b * nbBlocks + STRIPE_LEN * nbStripes < len
      && b * nbBlocks <= len && nbStripes < k && k * nbBlocks + nbStripes == (len - 1) / STRIPE_LEN
      && STRIPE_LEN * (k * nbBlocks + nbStripes) <= len
  {
    var k := PerBlock(secret);
    hide PerBlock;
    var b := STRIPE_LEN * k;
    var x := k * nbBlocks;
    assert b * nbBlocks == STRIPE_LEN * x;
    Quotient(len - 1, b, nbBlocks);
  }

  lemma Quotient(x: nat, b: nat, q: nat)
    requires b > 0 && q == x / b
    ensures b * q <= x < b * q + b
  {}

  /** XXH3_64bits_internal */
  method Internal(input: Bytes, seed: bv64, shortSecret: Bytes, secret: Bytes) returns (h: bv64)
    requires Long(secret)
    ensures h == if |input| <= MIDSIZE_MAX then ShortHash(input, shortSecret, seed) else LongHash(secret, input)
  {
    hide ShortHash, LongHash;
    if |input| <= MIDSIZE_MAX {
      h := HashShort(input, shortSecret, seed);
    } else {
      h := HashLong(input, secret);
    }
  }

  /** XXH3_64bits */
  method Bits64(input: Bytes) returns (h: bv64)
    ensures h == Hash(input, DefaultSecret(), 0)
  {
    hide ShortHash, LongHash, DefaultSecret;
    h := Internal(input, 0, DefaultSecret(), DefaultSecret());
  }

  /** XXH3_64bits_withSecret */
  method WithSecret(input: Bytes, secret: Bytes) returns (h: bv64)
    requires Long(secret)
    ensures h == Hash(input, secret, 0)
  {
    hide ShortHash, LongHash, DefaultSecret;
    h := Internal(input, 0, secret, secret);
  }

  /** The secret of a seed: the default one for seed 0. */
  function SeedSecret(seed: bv64): (s: Bytes)
    ensures |s| == SECRET_DEFAULT_SIZE
  {
    if seed == 0 then DefaultSecret() else CustomSecret(seed)
  }

  /** XXH3_initCustomSecret */
  method InitCustomSecret(a: array<bv8>, seed: bv64)
    requires a.Length == SECRET_DEFAULT_SIZE
    modifies a
    ensures a[..] == CustomSecret(seed)
  {
    hide SeedRound, DefaultSecret, BytesOf, ReadLE64, Plus64, Minus;
    var secret := DefaultSecret();
    for i := 0 to 12
      invariant a[..16 * i] == SeedRounds(secret, seed, i)
    {
      var lo := Plus64(ReadLE64(secret, 16 * i), seed);
      var hi := Minus(ReadLE64(secret, 16 * i + 8), seed);
      RoundIs(secret, seed, i);
      Fill(a, 16 * i, BytesOf(lo));
      Fill(a, 16 * i + 8, BytesOf(hi));
      assert a[..16 * (i + 1)] == a[..16 * i] + BytesOf(lo) + BytesOf(hi);
    }
    assert a[..192] == a[..];
  }

  lemma RoundIs(secret: Bytes, seed: bv64, i: nat)
    ensures SeedRound(secret, seed, i) == BytesOf(Plus64(ReadLE64(secret, 16 * i), seed)) + BytesOf(Minus(ReadLE64(secret, 16 * i + 8), seed))
  {}

  /** XXH3_64bits_withSeed */
  method WithSeed(input: Bytes, seed: bv64) returns (h: bv64)
    ensures h == Hash(input, SeedSecret(seed), seed)
  {
    hide ShortHash, LongHash, DefaultSecret, CustomSecret;
    if |input| <= MIDSIZE_MAX {
      h := HashShort(input, DefaultSecret(), seed);
    } else if seed == 0 {
      h := HashLong(input, DefaultSecret());
    } else {
      var a := new bv8[SECRET_DEFAULT_SIZE];
      InitCustomSecret(a, seed);
      h := HashLong(input, a[..]);
    }
  }
}
