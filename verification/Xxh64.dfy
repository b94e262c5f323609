/** XXH64 (xxhash.h): streaming gives the hash of the whole input, however the input is cut. */
module Xxh64 {
  import opened Options
  import opened XxhWords

  const PRIME64_1: bv64 := 0x9E3779B185EBCA87
  const PRIME64_2: bv64 := 0xC2B2AE3D27D4EB4F
  const PRIME64_3: bv64 := 0x165667B19E3779F9
  const PRIME64_4: bv64 := 0x85EBCA77C2B2AE63
  const PRIME64_5: bv64 := 0x27D4EB2F165667C5

  datatype Lanes = Lanes(v1: bv64, v2: bv64, v3: bv64, v4: bv64)

  function Round(acc: bv64, input: bv64): bv64 {
    Times64(Rotl64(Plus64(acc, Times64(input, PRIME64_2)), 31), PRIME64_1)
  }

  function MergeRound(acc: bv64, val: bv64): bv64 {
    Plus64(Times64(Xor64(acc, Round(0, val)), PRIME64_1), PRIME64_4)
  }

  function Avalanche(h: bv64): bv64 {
    var h1 := Times64(XorShift64(h, 33), PRIME64_2);
    var h2 := Times64(XorShift64(h1, 29), PRIME64_3);
    XorShift64(h2, 32)
  }

  function Start(seed: bv64): Lanes {
    Lanes(seed + PRIME64_1 + PRIME64_2, seed + PRIME64_2, seed, seed - PRIME64_1)
  }

  /** One stripe of 32 bytes. */
  function Stripe(v: Lanes, block: Bytes): Lanes {
    Lanes(Round(v.v1, ReadLE64(block, 0)), Round(v.v2, ReadLE64(block, 8)), Round(v.v3, ReadLE64(block, 16)), Round(v.v4, ReadLE64(block, 24)))
  }

  function Merge(v: Lanes): bv64 {
    var h := Plus64(Plus64(Plus64(Rotl64(v.v1, 1), Rotl64(v.v2, 7)), Rotl64(v.v3, 12)), Rotl64(v.v4, 18));
    MergeRound(MergeRound(MergeRound(MergeRound(h, v.v1), v.v2), v.v3), v.v4)
  }

  /** XXH_PROCESS1_64 */
  function Process1(h: bv64, rest: Bytes, i: nat): bv64
    requires i < |rest|
  {
    Times64(Rotl64(Xor64(h, Times64(rest[i] as bv64, PRIME64_5)), 11), PRIME64_1)
  }

  /** XXH_PROCESS4_64 */
  function Process4(h: bv64, rest: Bytes, i: nat): bv64 {
    Plus64(Times64(Rotl64(Xor64(h, Times64(ReadLE32(rest, i) as bv64, PRIME64_1)), 23), PRIME64_2), PRIME64_3)
  }

  /** XXH_PROCESS8_64 */
  function Process8(h: bv64, rest: Bytes, i: nat): bv64 {
    Plus64(Times64(Rotl64(Xor64(h, Round(0, ReadLE64(rest, i))), 27), PRIME64_1), PRIME64_4)
  }

  /** What the rerolled finalization makes of the bytes from i on. */
  function Finish(h: bv64, rest: Bytes, i: nat): bv64
    requires i <= |rest|
    decreases |rest| - i
  {
    if i + 8 <= |rest| then Finish(Process8(h, rest, i), rest, i + 8)
    else if i + 4 <= |rest| then Finish(Process4(h, rest, i), rest, i + 4)
    else if i < |rest| then Finish(Process1(h, rest, i), rest, i + 1)
    else Avalanche(h)
  }

  /** The hash value before the length and the rest are mixed in. */
  function Short(seed: bv64): bv64 {
    seed + PRIME64_5
  }

  function AddLen(h: bv64, n: nat): bv64 {
    Plus64(h, Len64(n))
  }

  /** The hash of an input, all at once. */
  function Hash(input: Bytes, seed: bv64): bv64 {
    var n := Whole(|input|, 32);
    var h := if |input| >= 32 then Merge(Absorb(Stripe, 32, Start(seed), input[..n])) else Short(seed);
    Finish(AddLen(h, |input|), input[n..], 0)
  }

  // ---------- finalization ----------

  /** XXH_PROCESS1_64 at ptr, which moves on */
  method Do1(h: bv64, rest: Bytes, p: nat) returns (r: bv64, q: nat)
    requires p < |rest| < p + 4
    ensures q == p + 1 && Finish(r, rest, q) == Finish(h, rest, p)
  {
    hide Process1, Process4, Process8, Avalanche;
    r, q := Process1(h, rest, p), p + 1;
  }

  /** XXH_PROCESS4_64 at ptr, which moves on */
  method Do4(h: bv64, rest: Bytes, p: nat) returns (r: bv64, q: nat)
    requires p + 4 <= |rest| < p + 8
    ensures q == p + 4 && Finish(r, rest, q) == Finish(h, rest, p)
  {
    hide Process1, Process4, Process8, Avalanche;
    r, q := Process4(h, rest, p), p + 4;
  }

  /** XXH_PROCESS8_64 at ptr, which moves on */
  method Do8(h: bv64, rest: Bytes, p: nat) returns (r: bv64, q: nat)
    requires p + 8 <= |rest|
    ensures q == p + 8 && Finish(r, rest, q) == Finish(h, rest, p)
  {
    hide Process1, Process4, Process8, Avalanche;
    r, q := Process8(h, rest, p), p + 8;
  }

  /** The switch of XXH64_finalize, whose cases fall through, equals the rerolled loops. */
  method Finalize(h: bv64, rest: Bytes) returns (r: bv64)
    requires |rest| < 32
    ensures r == Finish(h, rest, 0)
  {
    hide Process1, Process4, Process8, Avalanche, Finish;
    var p := 0;
    r := h;
    var len := |rest|;
    if len == 24 || len == 16 || len == 8 {
      if len == 24 { r, p := Do8(r, rest, p); }
      if len == 24 || len == 16 { r, p := Do8(r, rest, p); }
      r, p := Do8(r, rest, p);
      Finished(r, rest, p);
      return Avalanche(r);
    }
    if len == 28 || len == 20 || len == 12 || len == 4 {
      if len == 28 { r, p := Do8(r, rest, p); }
      if len == 28 || len == 20 { r, p := Do8(r, rest, p); }
      if len == 28 || len == 20 || len == 12 { r, p := Do8(r, rest, p); }
      r, p := Do4(r, rest, p);
      Finished(r, rest, p);
      return Avalanche(r);
    }
    if len == 25 || len == 17 || len == 9 {
      if len == 25 { r, p := Do8(r, rest, p); }
      if len == 25 || len == 17 { r, p := Do8(r, rest, p); }
      r, p := Do8(r, rest, p);
      r, p := Do1(r, rest, p);
      Finished(r, rest, p);
      return Avalanche(r);
    }
    if len == 29 || len == 21 || len == 13 || len == 5 {
      if len == 29 { r, p := Do8(r, rest, p); }
      if len == 29 || len == 21 { r, p := Do8(r, rest, p); }
      if len == 29 || len == 21 || len == 13 { r, p := Do8(r, rest, p); }
      r, p := Do4(r, rest, p);
      r, p := Do1(r, rest, p);
      Finished(r, rest, p);
      return Avalanche(r);
    }
    if len == 26 || len == 18 || len == 10 {
      if len == 26 { r, p := Do8(r, rest, p); }
      if len == 26 || len == 18 { r, p := Do8(r, rest, p); }
      r, p := Do8(r, rest, p);
      r, p := Do1(r, rest, p);
      r, p := Do1(r, rest, p);
      Finished(r, rest, p);
      return Avalanche(r);
    }
    if len == 30 || len == 22 || len == 14 || len == 6 {
      if len == 30 { r, p := Do8(r, rest, p); }
      if len == 30 || len == 22 { r, p := Do8(r, rest, p); }
      if len == 30 || len == 22 || len == 14 { r, p := Do8(r, rest, p); }
      r, p := Do4(r, rest, p);
      r, p := Do1(r, rest, p);
      r, p := Do1(r, rest, p);
      Finished(r, rest, p);
      return Avalanche(r);
    }
    if len == 27 || len == 19 || len == 11 {
      if len == 27 { r, p := Do8(r, rest, p); }
      if len == 27 || len == 19 { r, p := Do8(r, rest, p); }
      r, p := Do8(r, rest, p);
      r, p := Do1(r, rest, p);
      r, p := Do1(r, rest, p);
      r, p := Do1(r, rest, p);
      Finished(r, rest, p);
      return Avalanche(r);
    }
    if len == 31 { r, p := Do8(r, rest, p); }
    if len == 31 || len == 23 { r, p := Do8(r, rest, p); }
    if len == 31 || len == 23 || len == 15 { r, p := Do8(r, rest, p); }
    if len == 31 || len == 23 || len == 15 || len == 7 { r, p := Do4(r, rest, p); }
    if len != 0 && len != 1 && len != 2 { r, p := Do1(r, rest, p); }
    if len != 0 && len != 1 { r, p := Do1(r, rest, p); }
    if len != 0 { r, p := Do1(r, rest, p); }
    Finished(r, rest, p);
    return Avalanche(r);
  }

  lemma Finished(h: bv64, rest: Bytes, p: nat)
    requires p == |rest|
    ensures Finish(h, rest, p) == Avalanche(h)
  {}

  // ---------- all at once ----------

  /** The loops over whole stripes, from p on; at least one is there. */
  method RunStripes(data: Bytes, from: nat, v0: Lanes) returns (v: Lanes, p: nat)
    requires from + 32 <= |data|
    ensures p == from + Whole(|data| - from, 32) && v == Absorb(Stripe, 32, v0, data[from..p])
  {
    hide Stripe, Absorb;
    v, p := v0, from;
    var limit := |data| - 32;
    NoBlock(Stripe, 32, v0, data, from);
    while true
      invariant from <= p && (p - from) % 32 == 0 && p + 32 <= |data| && v == Absorb(Stripe, 32, v0, data[from..p])
      decreases |data| - p
    {
      NextBlock(Stripe, 32, v0, data, from, p);
      v := Stripe(v, data[p..p + 32]);
      p := p + 32;
      if p > limit { break; }
    }
  }

  /** XXH64_endian_align */
  method OneShot(input: Bytes, seed: bv64) returns (h: bv64)
    ensures h == Hash(input, seed)
  {
    hide Stripe, Start, Merge, Finish, AddLen, Short, Absorb;
    var p := 0;
    if |input| >= 32 {
      var v;
      v, p := RunStripes(input, 0, Start(seed));
      h := Merge(v);
    } else {
      h := Short(seed);
    }
    h := AddLen(h, |input|);
    h := Finalize(h, input[p..]);
  }

  // ---------- streaming ----------

  /** The streaming state; input is everything it has been given. */
  class State {
    var totalLen: nat
    var v: Lanes
    const mem: array<bv8>
    var memsize: nat
    ghost var seed: bv64
    ghost var input: Bytes

    /** The buffer holds what is left over from whole stripes, the lanes what came before. */
    ghost predicate Valid()
      reads this, mem
    {
      && mem.Length == 32 && memsize == |input| % 32 && totalLen == |input| % WORD64
      && mem[..memsize] == input[Whole(|input|, 32)..]
      && v == Absorb(Stripe, 32, Start(seed), input[..Whole(|input|, 32)])
    }

    /** XXH64_createState and XXH64_reset */
    constructor (seed: bv64)
      ensures Valid() && input == [] && this.seed == seed && fresh(mem)
    {
      hide Start, Stripe;
      totalLen, v, memsize := 0, Start(seed), 0;
      mem := new bv8[32];
      this.seed, input := seed, [];
    }

    method Reset(seed: bv64)
      requires mem.Length == 32
      modifies this
      ensures Valid() && input == [] && this.seed == seed
    {
      hide Start, Stripe;
      totalLen, v, memsize := 0, Start(seed), 0;
      this.seed, input := seed, [];
    }

    /** The buffer is filled up to a stripe, which goes into the lanes. */
    method CompleteStripe(bytes: Bytes, ghost was: Bytes) returns (p: nat)
      requires mem.Length == 32 && memsize == |was| % 32 && memsize != 0 && memsize + |bytes| >= 32
      requires mem[..memsize] == was[Whole(|was|, 32)..] && v == Absorb(Stripe, 32, Start(seed), was[..Whole(|was|, 32)])
      modifies this`v, this`memsize, mem
      ensures memsize == 0 && p <= |bytes| && p < 32 && (|was| + p) % 32 == 0 && v == Absorb(Stripe, 32, Start(seed), was + bytes[..p])
    {
      hide Stripe, Absorb, Start;
      Fill(mem, memsize, bytes[..32 - memsize]);
      assert mem[..] == was[Whole(|was|, 32)..] + bytes[..32 - memsize];
      Completed(Stripe, 32, Start(seed), was, bytes, memsize);
      Filled(32, was, bytes, memsize);
      v := Stripe(v, mem[..]);
      p := 32 - memsize;
      memsize := 0;
    }

    /** XXH64_update, when the buffer overflows: full stripes go into the lanes, the rest into the buffer. */
    method TakeStripes(bytes: Bytes, ghost was: Bytes)
      requires mem.Length == 32 && memsize == |was| % 32 && memsize + |bytes| >= 32
      requires mem[..memsize] == was[Whole(|was|, 32)..] && v == Absorb(Stripe, 32, Start(seed), was[..Whole(|was|, 32)])
      modifies this`v, this`memsize, mem
      ensures memsize == |was + bytes| % 32 && mem[..memsize] == (was + bytes)[Whole(|was + bytes|, 32)..]
      ensures v == Absorb(Stripe, 32, Start(seed), (was + bytes)[..Whole(|was + bytes|, 32)])
    {
      hide Stripe, Absorb, Start, Whole;
      var p := 0;
      WholeAlone(32, was, bytes);
      if memsize != 0 {
        p := CompleteStripe(bytes, was);
      }
      if p + 32 <= |bytes| {
        ghost var p0 := p;
        v, p := RunStripes(bytes, p, v);
        Taken(Stripe, 32, Start(seed), was, bytes, p0, p);
        Onward(32, |was|, p0, |bytes|);
      }
      Rest(32, was, bytes, p);
      if p < |bytes| {
        Fill(mem, 0, bytes[p..]);
        memsize := |bytes| - p;
      }
    }

    /** XXH64_update, when the buffer does not overflow. */
    method Append(bytes: Bytes, ghost was: Bytes)
      requires mem.Length == 32 && memsize == |was| % 32 && memsize + |bytes| < 32 && mem[..memsize] == was[Whole(|was|, 32)..]
      modifies this`memsize, mem
      ensures memsize == |was + bytes| % 32 && mem[..memsize] == (was + bytes)[Whole(|was + bytes|, 32)..]
      ensures (was + bytes)[..Whole(|was + bytes|, 32)] == was[..Whole(|was|, 32)]
    {
      Buffered(32, was, bytes, memsize);
      Fill(mem, memsize, bytes);
      memsize := memsize + |bytes|;
    }

    /** XXH64_update: fails on a null pointer, and else takes the bytes in. */
    method Update(data: Option<Bytes>) returns (ok: bool)
      requires Valid()
      modifies this, mem
      ensures Valid() && seed == old(seed)
      ensures ok == data.Some? && input == old(input) + (if data.Some? then data.value else [])
    {
      hide Stripe, Absorb;
      if data.None? {
        return false;
      }
      var bytes := data.value;
      totalLen := (totalLen + |bytes|) % WORD64;
      LengthWraps(|input|, |bytes|);
      if memsize + |bytes| < 32 {
        Append(bytes, input);
      } else {
        TakeStripes(bytes, input);
      }
      input := input + bytes;
      return true;
    }

    /**
     XXH64_digest.  It tells long inputs from short ones by a length that wraps around after 2^64
     bytes, more than an input hashed at once can have.
     */
    method Digest() returns (h: bv64)
      requires Valid()
      ensures |input| < 32 || |input| % WORD64 >= 32 ==> h == Hash(input, seed)
    {
      hide Stripe, Absorb, Start, Merge, Finish, AddLen, ShortOf, Hash;
      DigestIs(v, input, seed);
      LowBits(|input|);
      if totalLen >= 32 {
        h := Merge(v);
      } else {
        h := ShortOf(v);
      }
      h := AddLen(h, totalLen);
      h := Finalize(h, mem[..totalLen % 32]);
    }
  }

  /** XXH64_digest finds the seed in the third lane. */
  function ShortOf(v: Lanes): bv64 {
    Short(v.v3)
  }

  lemma DigestIs(v: Lanes, input: Bytes, seed: bv64)
    requires v == Absorb(Stripe, 32, Start(seed), input[..Whole(|input|, 32)])
    ensures Finish(AddLen(if |input| >= 32 then Merge(v) else ShortOf(v), |input| % WORD64), input[Whole(|input|, 32)..], 0) == Hash(input, seed)
  {
    hide Absorb, Merge, Finish, AddLen, Short, Start, Stripe;
    if |input| < 32 { Unabsorbed(Stripe, 32, Start(seed), input); }
    StartThird(seed);
    AddLenWraps(if |input| >= 32 then Merge(v) else ShortOf(v), |input|);
  }

  lemma LowBits(n: nat)
    ensures n % WORD64 % 32 == n % 32
    ensures n % WORD64 >= 32 ==> n >= 32
  {}

  lemma StartThird(seed: bv64)
    ensures Start(seed).v3 == seed
  {}

  lemma AddLenWraps(h: bv64, n: nat)
    ensures AddLen(h, n % WORD64) == AddLen(h, n)
  {
    hide Len64, Plus64;
    LenWraps(n);
  }

  /** Hashing piece by piece gives what hashing at once gives, however the input is cut. */
  method Stream(pieces: seq<Bytes>, seed: bv64) returns (h: bv64)
    requires |Joined(pieces)| < WORD64
    ensures h == Hash(Joined(pieces), seed)
  {
    hide Hash, State.Valid, Start, Stripe;
    var state := new State(seed);
    for i := 0 to |pieces|
      invariant state.Valid() && fresh(state) && fresh(state.mem) && state.input == Joined(pieces[..i]) && state.seed == seed
    {
      var _ := state.Update(Some(pieces[i]));
      assert pieces[..i + 1][..i] == pieces[..i];
    }
    assert pieces[..|pieces|] == pieces;
    ShortEnough(|state.input|);
    h := state.Digest();
  }

  lemma ShortEnough(n: nat)
    requires n < WORD64
    ensures n < 32 || n % WORD64 >= 32
  {}

  lemma LengthWraps(n: nat, k: nat)
    ensures (n % WORD64 + k) % WORD64 == (n + k) % WORD64
  {}
}
