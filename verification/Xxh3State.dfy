/** The streaming state of XXH3 (xxhash.h). */
module Xxh3State {
  import opened Options
  import opened XxhWords
  import opened Xxh3Mix
  import opened Xxh3Stripes
  import opened Xxh3

  const BUFFER_STRIPES: nat := 4

  function Start(): Progress {
    Progress(InitAcc(), 0)
  }

  /** How much of n bytes has gone into the lanes: whole buffers, and always less than everything. */
  function Consumed(n: nat): (c: nat)
    ensures c <= n && n - c <= BUFFER_SIZE && (n > 0 ==> c < n)
  {
    if n == 0 then 0 else n - 1 - (n - 1) % BUFFER_SIZE
  }

  lemma ConsumedWhole(n: nat)
    ensures Consumed(n) % BUFFER_SIZE == 0 && Consumed(n) % STRIPE_LEN == 0
  {
    WholeStripes(Consumed(n));
  }

  lemma WholeStripes(c: nat)
    ensures c % BUFFER_SIZE == 0 ==> c % STRIPE_LEN == 0
  {
    assert c == BUFFER_SIZE * (c / BUFFER_SIZE) + c % BUFFER_SIZE;
  }

  /**
   The lanes stand for what has been consumed, the buffer begins with the rest, and as long as it is
   not overwritten its end is the stripe before the rest.
   */
  ghost predicate Streamed(secret: Bytes, input: Bytes, p: Progress, buffer: Bytes, bufferedSize: nat)
    requires Long(secret)
  {
    var c := Consumed(|input|);
    && |buffer| == BUFFER_SIZE && bufferedSize == |input| - c && buffer[..bufferedSize] == input[c..]
    && p == Steps(secret, Start(), input, c / STRIPE_LEN)
    && (c > 0 && bufferedSize <= BUFFER_SIZE - STRIPE_LEN ==> buffer[BUFFER_SIZE - STRIPE_LEN..] == input[c - STRIPE_LEN..c])
  }

  /** In the middle of an update: the first k bytes of the input, whole buffers, have been consumed. */
  ghost predicate Consuming(secret: Bytes, input: Bytes, k: nat, p: Progress)
    requires Long(secret)
  {
    k <= |input| && k % BUFFER_SIZE == 0 && p == Steps(secret, Start(), input, k / STRIPE_LEN)
  }

  /** The stripe that ends at k is kept at the end of the buffer. */
  ghost predicate KeepsTail(input: Bytes, k: nat, buffer: Bytes) {
    STRIPE_LEN <= k <= |input| && |buffer| == BUFFER_SIZE && buffer[BUFFER_SIZE - STRIPE_LEN..] == input[k - STRIPE_LEN..k]
  }

  lemma Appended(secret: Bytes, was: Bytes, bytes: Bytes, p: Progress, buffer: Bytes, bs: nat, buffer': Bytes)
    requires Long(secret) && Streamed(secret, was, p, buffer, bs) && bs + |bytes| <= BUFFER_SIZE
    requires buffer' == buffer[..bs] + bytes + buffer[bs + |bytes|..]
    ensures Streamed(secret, was + bytes, p, buffer', bs + |bytes|)
  {
    hide Steps;
    var c := Consumed(|was|);
    ConsumedStays(|was|, |bytes|);
    assert (was + bytes)[c..] == was[c..] + bytes;
    AppendedSteps(secret, was, bytes, c / STRIPE_LEN);
    if c > 0 && bs + |bytes| <= BUFFER_SIZE - STRIPE_LEN {
      assert (was + bytes)[c - STRIPE_LEN..c] == was[c - STRIPE_LEN..c];
      assert buffer'[BUFFER_SIZE - STRIPE_LEN..] == buffer[BUFFER_SIZE - STRIPE_LEN..];
    }
  }

  lemma ConsumedStays(n: nat, k: nat)
    requires n - Consumed(n) + k <= BUFFER_SIZE
    ensures Consumed(n + k) == Consumed(n)
  {}

  lemma AppendedSteps(secret: Bytes, a: Bytes, b: Bytes, n: nat)
    requires Long(secret) && STRIPE_LEN * n <= |a|
    ensures Steps(secret, Start(), a + b, n) == Steps(secret, Start(), a, n)
  {
    StepsPrefix(secret, Start(), a, b, n);
  }

  /** One more buffer of stripes. */
  lemma FourMore(secret: Bytes, input: Bytes, k: nat, p: Progress, segment: Bytes)
    requires Long(secret) && Consuming(secret, input, k, p) && k + BUFFER_SIZE <= |input| && segment == input[k..k + BUFFER_SIZE]
    ensures p.soFar < PerBlock(secret) && Consuming(secret, input, k + BUFFER_SIZE, Steps(secret, p, segment, BUFFER_STRIPES))
  {
    hide Steps;
    var n := k / STRIPE_LEN;
    WholeStripes(k);
    CutSteps(secret, Start(), input, n, BUFFER_STRIPES);
    assert STRIPE_LEN * n == k;
    assert input[k..] == segment + input[k + BUFFER_SIZE..];
    StepsPrefix(secret, p, segment, input[k + BUFFER_SIZE..], BUFFER_STRIPES);
  }

  lemma ConsumedIs(n: nat, k: nat)
    requires k % BUFFER_SIZE == 0 && k < n <= k + BUFFER_SIZE
    ensures Consumed(n) == k
  {}

  /** What remains goes into the buffer. */
  lemma Remaining(secret: Bytes, input: Bytes, k: nat, p: Progress, buffer: Bytes, buffer': Bytes)
    requires Long(secret) && Consuming(secret, input, k, p) && KeepsTail(input, k, buffer) && k < |input| <= k + BUFFER_SIZE
    requires buffer' == input[k..] + buffer[|input| - k..]
    ensures Streamed(secret, input, p, buffer', |input| - k)
  {
    hide Steps, Consumed;
    ConsumedIs(|input|, k);
    if |input| - k <= BUFFER_SIZE - STRIPE_LEN {
      assert buffer'[BUFFER_SIZE - STRIPE_LEN..] == buffer[BUFFER_SIZE - STRIPE_LEN..];
    }
  }

  lemma Across(was: Bytes, bytes: Bytes, c: nat, n: nat)
    requires c <= |was| <= c + n <= |was| + |bytes|
    ensures (was + bytes)[c..c + n] == was[c..] + bytes[..c + n - |was|]
  {}

  /** The buffer is full of input. */
  lemma Full(secret: Bytes, was: Bytes, bytes: Bytes, p: Progress, buffer: Bytes, bs: nat, buffer': Bytes)
    requires Long(secret) && Streamed(secret, was, p, buffer, bs) && 0 < bs && bs + |bytes| > BUFFER_SIZE
    requires buffer' == buffer[..bs] + bytes[..BUFFER_SIZE - bs]
    ensures var c := |was| - bs; var all := was + bytes;
      && Consuming(secret, all, c, p) && buffer' == all[c..c + BUFFER_SIZE] && KeepsTail(all, c + BUFFER_SIZE, buffer')
  {
    hide Steps;
    var c, all := |was| - bs, was + bytes;
    assert c == Consumed(|was|);
    Across(was, bytes, c, BUFFER_SIZE);
    AppendedSteps(secret, was, bytes, c / STRIPE_LEN);
  }

  lemma Nothing(secret: Bytes, was: Bytes, bytes: Bytes, p: Progress, buffer: Bytes)
    requires Long(secret) && Streamed(secret, was, p, buffer, 0)
    ensures was == [] && Consuming(secret, was + bytes, 0, p)
  {}

  // ---------- the end ----------

  lemma DigestTail(secret: Bytes, input: Bytes, p: Progress, buffer: Bytes, bs: nat)
    requires Long(secret) && Streamed(secret, input, p, buffer, bs) && |input| > MIDSIZE_MAX && bs < STRIPE_LEN
    ensures bs > 0 && p == Steps(secret, Start(), input, (|input| - 1) / STRIPE_LEN)
    ensures buffer[BUFFER_SIZE - (STRIPE_LEN - bs)..] + buffer[..bs] == input[|input| - STRIPE_LEN..]
  {
    hide Steps;
    var c := Consumed(|input|);
    assert c / STRIPE_LEN == (|input| - 1) / STRIPE_LEN;
    LastStripeKept(input, c, buffer, bs);
  }

  lemma LastStripeKept(input: Bytes, c: nat, buffer: Bytes, bs: nat)
    requires STRIPE_LEN <= c && |input| == c + bs && bs < STRIPE_LEN && |buffer| == BUFFER_SIZE
    requires buffer[..bs] == input[c..] && buffer[BUFFER_SIZE - STRIPE_LEN..] == input[c - STRIPE_LEN..c]
    ensures buffer[BUFFER_SIZE - (STRIPE_LEN - bs)..] + buffer[..bs] == input[|input| - STRIPE_LEN..]
  {
    assert buffer[BUFFER_SIZE - (STRIPE_LEN - bs)..] == buffer[BUFFER_SIZE - STRIPE_LEN..][bs..];
    assert input[|input| - STRIPE_LEN..] == input[c - STRIPE_LEN..c][bs..] + input[c..];
  }

  lemma DigestBuffered(secret: Bytes, input: Bytes, p: Progress, buffer: Bytes, bs: nat)
    requires Long(secret) && Streamed(secret, input, p, buffer, bs) && |input| > MIDSIZE_MAX && bs >= STRIPE_LEN
    ensures p.soFar < PerBlock(secret) && bs <= BUFFER_SIZE
    ensures Steps(secret, p, buffer, (bs - 1) / STRIPE_LEN) == Steps(secret, Start(), input, (|input| - 1) / STRIPE_LEN)
    ensures buffer[bs - STRIPE_LEN..bs] == input[|input| - STRIPE_LEN..]
  {
    hide Steps, Consumed;
    var c := Consumed(|input|);
    var k, n := c / STRIPE_LEN, (bs - 1) / STRIPE_LEN;
    ConsumedWhole(|input|);
    StripesInAll(c, bs);
    BufferedIs(input, c, buffer, bs);
    CutSteps(secret, Start(), input, k, n);
    StepsPrefix(secret, p, buffer[..bs], buffer[bs..], n);
  }

  lemma StripesInAll(c: nat, bs: nat)
    requires c % STRIPE_LEN == 0 && bs > 0
    ensures STRIPE_LEN * (c / STRIPE_LEN) == c && c / STRIPE_LEN + (bs - 1) / STRIPE_LEN == (c + bs - 1) / STRIPE_LEN
    ensures STRIPE_LEN * ((bs - 1) / STRIPE_LEN) <= bs
  {}

  lemma BufferedIs(input: Bytes, c: nat, buffer: Bytes, bs: nat)
    requires c <= |input| && bs == |input| - c && bs <= |buffer| && buffer[..bs] == input[c..]
    ensures buffer == buffer[..bs] + buffer[bs..] && (bs >= STRIPE_LEN ==> buffer[bs - STRIPE_LEN..bs] == input[|input| - STRIPE_LEN..])
  {
    if bs >= STRIPE_LEN {
      assert buffer[bs - STRIPE_LEN..bs] == buffer[..bs][bs - STRIPE_LEN..];
    }
  }

  // ---------- the object ----------

  class State {
    const acc: array<bv64>
    const customSecret: array<bv8>
    const buffer: array<bv8>
    var bufferedSize: nat
    var nbStripesSoFar: nat
    var totalLen: nat
    var nbStripesPerBlock: int
    var secretLimit: int
    var seed: bv64
    var extSecret: Option<Bytes>
    ghost var input: Bytes

    /** The secret in use: an external one, or the one made from the seed. */
    ghost function Secret(): Bytes
      reads this`extSecret, customSecret
    {
      if extSecret.Some? then extSecret.value else customSecret[..]
    }

    /** What holds from creation on: a non-zero seed is the one that the custom secret was made from. */
    ghost predicate Created()
      reads this`seed, customSecret
    {
      Shape() && (seed != 0 ==> customSecret[..] == CustomSecret(seed))
    }

    predicate Shape() {
      acc.Length == 8 && customSecret.Length == SECRET_DEFAULT_SIZE && buffer.Length == BUFFER_SIZE && customSecret != buffer
    }

    ghost predicate Keyed()
      reads this`seed, this`extSecret, this`secretLimit, this`nbStripesPerBlock, customSecret
    {
      && Created() && Long(Secret()) && secretLimit == |Secret()| - STRIPE_LEN && nbStripesPerBlock == PerBlock(Secret())
      && (seed != 0 ==> extSecret == None)
    }

    ghost predicate Valid()
      reads this, acc, customSecret, buffer
    {
      && Keyed() && totalLen == |input| % WORD64
      && Streamed(Secret(), input, Progress(acc[..], nbStripesSoFar), buffer[..], bufferedSize)
    }

    /** XXH3_createState */
    constructor ()
      ensures Created() && fresh(acc) && fresh(customSecret) && fresh(buffer)
    {
      acc, customSecret, buffer := new bv64[8], new bv8[SECRET_DEFAULT_SIZE], new bv8[BUFFER_SIZE];
      bufferedSize, nbStripesSoFar, totalLen, nbStripesPerBlock, secretLimit := 0, 0, 0, 0, 0;
      seed, extSecret, input := 0, None, [];
    }

    /** XXH3_reset_internal; the limit wraps around when the secret is too short. */
    method ResetInternal(seed: bv64, secret: Option<Bytes>, secretSize: nat)
      requires Shape() && secretSize < WORD64 && (seed != 0 ==> secret == None && customSecret[..] == CustomSecret(seed))
      requires secret.Some? ==> |secret.value| == secretSize
      requires secret.None? ==> secretSize == SECRET_DEFAULT_SIZE
      modifies this, acc
      ensures Created() && this.seed == seed && extSecret == secret && input == []
      ensures secretSize >= SECRET_SIZE_MIN ==> Valid()
    {
      hide CustomSecret, InitAcc, Accumulated;
      bufferedSize, nbStripesSoFar, totalLen := 0, 0, 0;
      var init: seq<bv64> := InitAcc();
      forall i | 0 <= i < 8 { acc[i] := init[i]; }
      assert acc[..] == init;
      this.seed, extSecret := seed, secret;
      secretLimit := (secretSize - STRIPE_LEN) % WORD64;
      nbStripesPerBlock := secretLimit / CONSUME_RATE;
      input := [];
    }

    /** XXH3_64bits_reset */
    method Reset()
      requires Created()
      modifies this, acc
      ensures Valid() && input == [] && seed == 0 && Secret() == DefaultSecret()
    {
      hide DefaultSecret, CustomSecret;
      ResetInternal(0, Some(DefaultSecret()), SECRET_DEFAULT_SIZE);
    }

    /** XXH3_64bits_reset_withSecret: fails on a secret that is missing or too short. */
    method ResetWithSecret(secret: Option<Bytes>) returns (ok: bool)
      requires Created() && (secret.Some? ==> |secret.value| < WORD64)
      modifies this, acc
      ensures Created() && ok == (secret.Some? && |secret.value| >= SECRET_SIZE_MIN)
      ensures ok ==> Valid() && input == [] && seed == 0 && Secret() == secret.value
    {
      hide DefaultSecret, CustomSecret;
      if secret.None? {
        ResetInternal(0, None, SECRET_DEFAULT_SIZE);
        return false;
      }
      ResetInternal(0, secret, |secret.value|);
      return |secret.value| >= SECRET_SIZE_MIN;
    }

    /** XXH3_64bits_reset_withSeed: the secret is not made again for the seed it was made from. */
    method ResetWithSeed(seed: bv64)
      requires Created()
      modifies this, acc, customSecret
      ensures Valid() && input == [] && this.seed == seed && Secret() == SeedSecret(seed)
    {
      hide DefaultSecret, CustomSecret;
      if seed == 0 {
        Reset();
        return;
      }
      if seed != this.seed {
        InitCustomSecret(customSecret, seed);
      }
      ResetInternal(seed, None, SECRET_DEFAULT_SIZE);
    }

    /** XXH3_update, when the buffer cannot hold the bytes: the buffer is completed and consumed. */
    method ConsumeBuffer(bytes: Bytes, secret: Bytes, ghost was: Bytes) returns (p: nat)
      requires Shape() && Long(secret) && bufferedSize != 0 && bufferedSize + |bytes| > BUFFER_SIZE
      requires Streamed(secret, was, Progress(acc[..], nbStripesSoFar), buffer[..], bufferedSize)
      modifies this`bufferedSize, this`nbStripesSoFar, acc, buffer
      ensures p < |bytes| && Consuming(secret, was + bytes, |was| + p, Progress(acc[..], nbStripesSoFar))
      ensures KeepsTail(was + bytes, |was| + p, buffer[..]) && bufferedSize == 0
    {
      hide Steps;
      var loadSize := BUFFER_SIZE - bufferedSize;
      ghost var b: Bytes := buffer[..];
      ghost var pr := Progress(acc[..], nbStripesSoFar);
      Fill(buffer, bufferedSize, bytes[..loadSize]);
      ghost var c := |was| - bufferedSize;
      assert buffer[..] == b[..bufferedSize] + bytes[..loadSize];
      Full(secret, was, bytes, pr, b, bufferedSize, buffer[..]);
      FourMore(secret, was + bytes, c, pr, buffer[..]);
      nbStripesSoFar := ConsumeStripes(acc, nbStripesSoFar, buffer[..], BUFFER_STRIPES, secret);
      bufferedSize := 0;
      p := loadSize;
    }

    /** XXH3_update: consumes whole buffers straight from the input, then keeps the last stripe. */
    method ConsumeInput(bytes: Bytes, from: nat, secret: Bytes, ghost was: Bytes) returns (p: nat)
      requires Shape() && Long(secret) && from + BUFFER_SIZE < |bytes|
      requires Consuming(secret, was + bytes, |was| + from, Progress(acc[..], nbStripesSoFar))
      modifies this`nbStripesSoFar, acc, buffer
      ensures p < |bytes| <= p + BUFFER_SIZE && Consuming(secret, was + bytes, |was| + p, Progress(acc[..], nbStripesSoFar))
      ensures KeepsTail(was + bytes, |was| + p, buffer[..])
    {
      hide Steps, Consuming;
      var limit := |bytes| - BUFFER_SIZE;
      p := from;
      while true
        invariant from <= p < limit && Consuming(secret, was + bytes, |was| + p, Progress(acc[..], nbStripesSoFar))
        decreases |bytes| - p
      {
        ghost var pr := Progress(acc[..], nbStripesSoFar);
        SegmentOf(was, bytes, p, BUFFER_SIZE);
        FourMore(secret, was + bytes, |was| + p, pr, bytes[p..p + BUFFER_SIZE]);
        nbStripesSoFar := ConsumeStripes(acc, nbStripesSoFar, bytes[p..p + BUFFER_SIZE], BUFFER_STRIPES, secret);
        p := p + BUFFER_SIZE;
        if p >= limit { break; }
      }
      SegmentOf(was, bytes, p - STRIPE_LEN, STRIPE_LEN);
      Fill(buffer, BUFFER_SIZE - STRIPE_LEN, bytes[p - STRIPE_LEN..p]);
      assert buffer[BUFFER_SIZE - STRIPE_LEN..] == bytes[p - STRIPE_LEN..p];
    }

    /** XXH3_update, when the buffer cannot hold the bytes. */
    method Consume(bytes: Bytes, secret: Bytes, ghost was: Bytes)
      requires Shape() && Long(secret) && bufferedSize + |bytes| > BUFFER_SIZE
      requires Streamed(secret, was, Progress(acc[..], nbStripesSoFar), buffer[..], bufferedSize)
      modifies this`bufferedSize, this`nbStripesSoFar, acc, buffer
      ensures Streamed(secret, was + bytes, Progress(acc[..], nbStripesSoFar), buffer[..], bufferedSize)
    {
      hide Steps, Consuming, Streamed, KeepsTail;
      var p := 0;
      if bufferedSize != 0 {
        p := ConsumeBuffer(bytes, secret, was);
      } else {
        Nothing(secret, was, bytes, Progress(acc[..], nbStripesSoFar), buffer[..]);
      }
      assert p < |bytes|;
      if p + BUFFER_SIZE < |bytes| {
        p := ConsumeInput(bytes, p, secret, was);
      }
      assert p < |bytes|;
      ghost var b: Bytes := buffer[..];
      SegmentOf(was, bytes, p, |bytes| - p);
      Fill(buffer, 0, bytes[p..]);
      bufferedSize := |bytes| - p;
      Remaining(secret, was + bytes, |was| + p, Progress(acc[..], nbStripesSoFar), b, buffer[..]);
    }

    method Append(bytes: Bytes, ghost secret: Bytes, ghost was: Bytes)
      requires Shape() && Long(secret) && bufferedSize + |bytes| <= BUFFER_SIZE
      requires Streamed(secret, was, Progress(acc[..], nbStripesSoFar), buffer[..], bufferedSize)
      modifies this`bufferedSize, buffer
      ensures Streamed(secret, was + bytes, Progress(acc[..], nbStripesSoFar), buffer[..], bufferedSize)
    {
      hide Streamed;
      ghost var b: Bytes := buffer[..];
      Fill(buffer, bufferedSize, bytes);
      Appended(secret, was, bytes, Progress(acc[..], nbStripesSoFar), b, bufferedSize, buffer[..]);
      bufferedSize := bufferedSize + |bytes|;
    }

    /** XXH3_64bits_update: fails on a null pointer, and else takes the bytes in. */
    method Update(data: Option<Bytes>) returns (ok: bool)
      requires Valid()
      modifies this, acc, buffer
      ensures Valid() && seed == old(seed) && Secret() == old(Secret())
      ensures ok == data.Some? && input == old(input) + (if data.Some? then data.value else [])
    {
      hide Streamed, Long, CustomSecret;
      if data.None? {
        return false;
      }
      var bytes := data.value;
      var secret := if extSecret.Some? then extSecret.value else customSecret[..];
      totalLen := (totalLen + |bytes|) % WORD64;
      LengthWraps(|input|, |bytes|);
      if bufferedSize + |bytes| <= BUFFER_SIZE {
        Append(bytes, secret, input);
      } else {
        Consume(bytes, secret, input);
      }
      input := input + bytes;
      return true;
    }

    /** XXH3_digest_long on a copy of the lanes. */
    method DigestLong(copy: array<bv64>, secret: Bytes)
      requires Shape() && Long(secret) && |input| > MIDSIZE_MAX && copy.Length == 8 && copy[..] == acc[..] && copy != acc
      requires Streamed(secret, input, Progress(acc[..], nbStripesSoFar), buffer[..], bufferedSize)
      modifies copy
      ensures copy[..] == LastStripe(secret, Steps(secret, Start(), input, (|input| - 1) / STRIPE_LEN).acc, input[|input| - STRIPE_LEN..])
    {
      hide Steps, Streamed, Accumulated;
      var b := buffer[..];
      ghost var pr := Progress(acc[..], nbStripesSoFar);
      if bufferedSize >= STRIPE_LEN {
        DigestBuffered(secret, input, pr, b, bufferedSize);
        var nbStripes := (bufferedSize - 1) / STRIPE_LEN;
        var now := ConsumeStripes(copy, nbStripesSoFar, b, nbStripes, secret);
        Accumulate512(copy, b[bufferedSize - STRIPE_LEN..bufferedSize], Key(secret, |secret| - STRIPE_LEN - 7));
      } else {
        DigestTail(secret, input, pr, b, bufferedSize);
        var catchupSize := STRIPE_LEN - bufferedSize;
        var lastStripe := b[BUFFER_SIZE - catchupSize..] + b[..bufferedSize];
        Accumulate512(copy, lastStripe, Key(secret, |secret| - STRIPE_LEN - 7));
      }
    }

    /**
     XXH3_64bits_digest.  It tells long inputs from short ones by a length that wraps around after 2^64
     bytes, more than an input hashed at once can have.
     */
    method Digest() returns (h: bv64)
      requires Valid()
      ensures |input| <= MIDSIZE_MAX || |input| % WORD64 > MIDSIZE_MAX ==> h == Hash(input, Secret(), seed)
    {
      hide Streamed, Steps, DefaultSecret, CustomSecret, ShortHash, Merged, LastStripe, LenStart;
      var secret := if extSecret.Some? then extSecret.value else customSecret[..];
      if totalLen > MIDSIZE_MAX {
        LongEnough(|input|);
        var copy := new bv64[8](i requires 0 <= i < 8 reads this, acc => if acc.Length == 8 then acc[i] else 0);
        assert copy[..] == acc[..];
        DigestLong(copy, secret);
        h := MergeAccs(copy, secret, 11, LenStart(totalLen));
        StartWraps(|input|);
      } else {
        BufferIsInput(secret, input, Progress(acc[..], nbStripesSoFar), buffer[..], bufferedSize);
        if seed != 0 {
          h := WithSeed(buffer[..totalLen], seed);
        } else {
          h := WithSecret(buffer[..totalLen], secret);
        }
      }
    }
  }

  lemma SegmentOf(was: Bytes, bytes: Bytes, p: nat, n: nat)
    requires p + n <= |bytes|
    ensures (was + bytes)[|was| + p..|was| + p + n] == bytes[p..p + n]
    ensures p + n == |bytes| ==> (was + bytes)[|was| + p..] == bytes[p..]
  {}

  lemma LengthWraps(n: nat, k: nat)
    ensures (n % WORD64 + k) % WORD64 == (n + k) % WORD64
  {}

  lemma LongEnough(n: nat)
    requires n % WORD64 > MIDSIZE_MAX
    ensures n > MIDSIZE_MAX
  {}

  lemma StartWraps(n: nat)
    ensures LenStart(n % WORD64) == LenStart(n)
  {
    hide Len64, Times64;
    LenWraps(n);
  }

  /** A short input is all in the buffer. */
  lemma BufferIsInput(secret: Bytes, input: Bytes, p: Progress, buffer: Bytes, bs: nat)
    requires Long(secret) && Streamed(secret, input, p, buffer, bs)
    ensures |input| <= MIDSIZE_MAX ==> |input| % WORD64 == |input| && buffer[..|input|] == input
  {
    hide Steps;
  }

  // ---------- streaming against hashing at once ----------

  method Feed(state: State, pieces: seq<Bytes>)
    requires state.Valid() && state.input == []
    modifies state, state.acc, state.buffer
    ensures state.Valid() && state.input == Joined(pieces) && state.seed == old(state.seed) && state.Secret() == old(state.Secret())
  {
    hide State.Valid;
    for i := 0 to |pieces|
      invariant state.Valid() && state.input == Joined(pieces[..i]) && state.seed == old(state.seed) && state.Secret() == old(state.Secret())
    {
      var _ := state.Update(Some(pieces[i]));
      assert pieces[..i + 1][..i] == pieces[..i];
    }
    assert pieces[..|pieces|] == pieces;
  }

  lemma ShortEnough(n: nat)
    requires n < WORD64
    ensures n <= MIDSIZE_MAX || n % WORD64 > MIDSIZE_MAX
  {}

  /** However the input is cut, streaming gives what XXH3_64bits gives. */
  method Stream(pieces: seq<Bytes>) returns (streamed: bv64, atOnce: bv64)
    requires |Joined(pieces)| < WORD64
    ensures streamed == atOnce == Hash(Joined(pieces), DefaultSecret(), 0)
  {
    hide State.Valid, State.Created, Hash, DefaultSecret;
    var state := new State();
    state.Reset();
    Feed(state, pieces);
    ShortEnough(|state.input|);
    streamed := state.Digest();
    atOnce := Bits64(Joined(pieces));
  }

  /** However the input is cut, streaming gives what XXH3_64bits_withSecret gives. */
  method StreamWithSecret(pieces: seq<Bytes>, secret: Bytes) returns (streamed: bv64, atOnce: bv64)
    requires |Joined(pieces)| < WORD64 && SECRET_SIZE_MIN <= |secret| < WORD64
    ensures streamed == atOnce == Hash(Joined(pieces), secret, 0)
  {
    hide State.Valid, State.Created, Hash;
    var state := new State();
    var ok := state.ResetWithSecret(Some(secret));
    Feed(state, pieces);
    ShortEnough(|state.input|);
    streamed := state.Digest();
    atOnce := WithSecret(Joined(pieces), secret);
  }

  /** However the input is cut, streaming gives what XXH3_64bits_withSeed gives. */
  method StreamWithSeed(pieces: seq<Bytes>, seed: bv64) returns (streamed: bv64, atOnce: bv64)
    requires |Joined(pieces)| < WORD64
    ensures streamed == atOnce == Hash(Joined(pieces), SeedSecret(seed), seed)
  {
    hide State.Valid, State.Created, Hash, SeedSecret;
    var state := new State();
    state.ResetWithSeed(seed);
    Feed(state, pieces);
    ShortEnough(|state.input|);
    streamed := state.Digest();
    atOnce := WithSeed(Joined(pieces), seed);
  }
}
