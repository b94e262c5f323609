/** XXH32 (xxhash.h): streaming gives the hash of the whole input, however the input is cut. */
module Xxh32 {
  import opened Options
  import opened XxhWords

  const PRIME32_1: bv32 := 0x9E3779B1
  const PRIME32_2: bv32 := 0x85EBCA77
  const PRIME32_3: bv32 := 0xC2B2AE3D
  const PRIME32_4: bv32 := 0x27D4EB2F
  const PRIME32_5: bv32 := 0x165667B1

  datatype Lanes = Lanes(v1: bv32, v2: bv32, v3: bv32, v4: bv32)

  function Round(acc: bv32, input: bv32): bv32 {
    Times32(Rotl32(Plus32(acc, Times32(input, PRIME32_2)), 13), PRIME32_1)
  }

  function Avalanche(h: bv32): bv32 {
    var h1 := Times32(XorShift32(h, 15), PRIME32_2);
    var h2 := Times32(XorShift32(h1, 13), PRIME32_3);
    XorShift32(h2, 16)
  }

  function Start(seed: bv32): Lanes {
    Lanes(seed + PRIME32_1 + PRIME32_2, seed + PRIME32_2, seed, seed - PRIME32_1)
  }

  /** One stripe of 16 bytes. */
  function Stripe(v: Lanes, block: Bytes): Lanes {
    Lanes(Round(v.v1, ReadLE32(block, 0)), Round(v.v2, ReadLE32(block, 4)), Round(v.v3, ReadLE32(block, 8)), Round(v.v4, ReadLE32(block, 12)))
  }

  function Merge(v: Lanes): bv32 {
    Plus32(Plus32(Plus32(Rotl32(v.v1, 1), Rotl32(v.v2, 7)), Rotl32(v.v3, 12)), Rotl32(v.v4, 18))
  }

  /** XXH_PROCESS1 */
  function Process1(h: bv32, rest: Bytes, i: nat): bv32
    requires i < |rest|
  {
    Times32(Rotl32(Plus32(h, Times32(rest[i] as bv32, PRIME32_5)), 11), PRIME32_1)
  }

  /** XXH_PROCESS4 */
  function Process4(h: bv32, rest: Bytes, i: nat): bv32 {
    Times32(Rotl32(Plus32(h, Times32(ReadLE32(rest, i), PRIME32_3)), 17), PRIME32_4)
  }

  /** What the rerolled finalization makes of the bytes from i on. */
  function Finish(h: bv32, rest: Bytes, i: nat): bv32
    requires i <= |rest|
    decreases |rest| - i
  {
    if i + 4 <= |rest| then Finish(Process4(h, rest, i), rest, i + 4)
    else if i < |rest| then Finish(Process1(h, rest, i), rest, i + 1)
    else Avalanche(h)
  }

  /** The hash value before the length and the rest are mixed in. */
  function Short(seed: bv32): bv32 {
    seed + PRIME32_5
  }

  function AddLen(h: bv32, n: nat): bv32 {
    Plus32(h, Len32(n))
  }

  /** The hash of an input, all at once. */
  function Hash(input: Bytes, seed: bv32): bv32 {
    var n := Whole(|input|, 16);
    var h := if |input| >= 16 then Merge(Absorb(Stripe, 16, Start(seed), input[..n])) else Short(seed);
    Finish(AddLen(h, |input|), input[n..], 0)
  }

  // ---------- finalization ----------

  /** XXH_PROCESS1 at ptr, which moves on */
  method Do1(h: bv32, rest: Bytes, p: nat) returns (r: bv32, q: nat)
    requires p < |rest| < p + 4
    ensures q == p + 1 && Finish(r, rest, q) == Finish(h, rest, p)
  {
    hide Process1, Process4, Avalanche;
    r, q := Process1(h, rest, p), p + 1;
  }

  /** XXH_PROCESS4 at ptr, which moves on */
  method Do4(h: bv32, rest: Bytes, p: nat) returns (r: bv32, q: nat)
    requires p + 4 <= |rest|
    ensures q == p + 4 && Finish(r, rest, q) == Finish(h, rest, p)
  {
    hide Process1, Process4, Avalanche;
    r, q := Process4(h, rest, p), p + 4;
  }

  /** The switch of XXH32_finalize, whose cases fall through, equals the rerolled loops. */
  method Finalize(h: bv32, rest: Bytes) returns (r: bv32)
    requires |rest| < 16
    ensures r == Finish(h, rest, 0)
  {
    hide Process1, Process4, Avalanche;
    var len := |rest|;
    var p := 0;
    r := h;
    if len == 12 || len == 8 || len == 4 {
      if len == 12 { r, p := Do4(r, rest, p); }
      if len == 12 || len == 8 { r, p := Do4(r, rest, p); }
      r, p := Do4(r, rest, p);
      return Avalanche(r);
    }
    if len == 13 || len == 9 || len == 5 {
      if len == 13 { r, p := Do4(r, rest, p); }
      if len == 13 || len == 9 { r, p := Do4(r, rest, p); }
      r, p := Do4(r, rest, p);
      r, p := Do1(r, rest, p);
      return Avalanche(r);
    }
    if len == 14 || len == 10 || len == 6 {
      if len == 14 { r, p := Do4(r, rest, p); }
      if len == 14 || len == 10 { r, p := Do4(r, rest, p); }
      r, p := Do4(r, rest, p);
      r, p := Do1(r, rest, p);
      r, p := Do1(r, rest, p);
      return Avalanche(r);
    }
    if len == 15 { r, p := Do4(r, rest, p); }
    if len == 15 || len == 11 { r, p := Do4(r, rest, p); }
    if len == 15 || len == 11 || len == 7 { r, p := Do4(r, rest, p); }
    if len != 0 && len != 1 && len != 2 { r, p := Do1(r, rest, p); }
    if len != 0 && len != 1 { r, p := Do1(r, rest, p); }
    if len != 0 { r, p := Do1(r, rest, p); }
    return Avalanche(r);
  }

  // ---------- all at once ----------

  /** The loops over whole stripes, from p on; at least one is there. */
  method RunStripes(data: Bytes, from: nat, v0: Lanes) returns (v: Lanes, p: nat)
    requires from + 16 <= |data|
    ensures p == from + Whole(|data| - from, 16) && v == Absorb(Stripe, 16, v0, data[from..p])
  {
    hide Stripe, Absorb;
    v, p := v0, from;
    var limit := |data| - 16;
    NoBlock(Stripe, 16, v0, data, from);
    while true
      invariant from <= p && (p - from) % 16 == 0 && p + 16 <= |data| && v == Absorb(Stripe, 16, v0, data[from..p])
      decreases |data| - p
    {
      NextBlock(Stripe, 16, v0, data, from, p);
      v := Stripe(v, data[p..p + 16]);
      p := p + 16;
      if p > limit { break; }
    }
  }

  /** XXH32_endian_align */
  method OneShot(input: Bytes, seed: bv32) returns (h: bv32)
    ensures h == Hash(input, seed)
  {
    hide Stripe, Start, Merge, Finish, AddLen, Short, Absorb;
    var p := 0;
    if |input| >= 16 {
      var v;
      v, p := RunStripes(input, 0, Start(seed));
      h := Merge(v);
    } else {
      h := Short(seed);
    }
    h := AddLen(h, |input|);
    h := Finalize(h, input[p..]);
  }

  // ---------- streaming ----------

  /** The streaming state; input is everything it has been given. */
  class State {
    var totalLen32: nat
    var largeLen: bool
    var v: Lanes
    const mem: array<bv8>
    var memsize: nat
    ghost var seed: bv32
    ghost var input: Bytes

    /** The buffer holds what is left over from whole stripes, the lanes what came before. */
    ghost predicate Valid()
      reads this, mem
    {
      && mem.Length == 16 && memsize == |input| % 16 && totalLen32 == |input| % WORD32
      && largeLen == (|input| >= 16) && mem[..memsize] == input[Whole(|input|, 16)..]
      && v == Absorb(Stripe, 16, Start(seed), input[..Whole(|input|, 16)])
    }

    /** XXH32_createState and XXH32_reset */
    constructor (seed: bv32)
      ensures Valid() && input == [] && this.seed == seed && fresh(mem)
    {
      hide Start, Stripe;
      totalLen32, largeLen, v, memsize := 0, false, Start(seed), 0;
      mem := new bv8[16];
      this.seed, input := seed, [];
    }

    method Reset(seed: bv32)
      requires mem.Length == 16
      modifies this
      ensures Valid() && input == [] && this.seed == seed
    {
      hide Start, Stripe;
      totalLen32, largeLen, v, memsize := 0, false, Start(seed), 0;
      this.seed, input := seed, [];
    }

    /** The buffer is filled up to a stripe, which goes into the lanes. */
    method CompleteStripe(bytes: Bytes, ghost was: Bytes) returns (p: nat)
      requires mem.Length == 16 && memsize == |was| % 16 && memsize != 0 && memsize + |bytes| >= 16
      requires mem[..memsize] == was[Whole(|was|, 16)..] && v == Absorb(Stripe, 16, Start(seed), was[..Whole(|was|, 16)])
      modifies this`v, this`memsize, mem
      ensures memsize == 0 && p <= |bytes| && p < 16 && (|was| + p) % 16 == 0 && v == Absorb(Stripe, 16, Start(seed), was + bytes[..p])
    {
      hide Stripe, Absorb, Start;
      Fill(mem, memsize, bytes[..16 - memsize]);
      assert mem[..] == was[Whole(|was|, 16)..] + bytes[..16 - memsize];
      Completed(Stripe, 16, Start(seed), was, bytes, memsize);
      Filled(16, was, bytes, memsize);
      v := Stripe(v, mem[..]);
      p := 16 - memsize;
      memsize := 0;
    }

    /** XXH32_update, when the buffer overflows: full stripes go into the lanes, the rest into the buffer. */
    method TakeStripes(bytes: Bytes, ghost was: Bytes)
      requires mem.Length == 16 && memsize == |was| % 16 && memsize + |bytes| >= 16
      requires mem[..memsize] == was[Whole(|was|, 16)..] && v == Absorb(Stripe, 16, Start(seed), was[..Whole(|was|, 16)])
      modifies this`v, this`memsize, mem
      ensures memsize == |was + bytes| % 16 && mem[..memsize] == (was + bytes)[Whole(|was + bytes|, 16)..]
      ensures v == Absorb(Stripe, 16, Start(seed), (was + bytes)[..Whole(|was + bytes|, 16)])
    {
      hide Stripe, Absorb, Start, Whole;
      var p := 0;
      WholeAlone(16, was, bytes);
      if memsize != 0 {
        p := CompleteStripe(bytes, was);
      }
      if p + 16 <= |bytes| {
        ghost var p0 := p;
        v, p := RunStripes(bytes, p, v);
        Taken(Stripe, 16, Start(seed), was, bytes, p0, p);
        Onward(16, |was|, p0, |bytes|);
      }
      Rest(16, was, bytes, p);
      if p < |bytes| {
        Fill(mem, 0, bytes[p..]);
        memsize := |bytes| - p;
      }
    }

    /** XXH32_update, when the buffer does not overflow. */
    method Append(bytes: Bytes, ghost was: Bytes)
      requires mem.Length == 16 && memsize == |was| % 16 && memsize + |bytes| < 16 && mem[..memsize] == was[Whole(|was|, 16)..]
      modifies this`memsize, mem
      ensures memsize == |was + bytes| % 16 && mem[..memsize] == (was + bytes)[Whole(|was + bytes|, 16)..]
      ensures (was + bytes)[..Whole(|was + bytes|, 16)] == was[..Whole(|was|, 16)]
    {
      Buffered(16, was, bytes, memsize);
      Fill(mem, memsize, bytes);
      memsize := memsize + |bytes|;
    }

    /** XXH32_update: fails on a null pointer, and else takes the bytes in. */
    method Update(data: Option<Bytes>) returns (ok: bool)
      requires Valid()
      modifies this, mem
      ensures Valid() && seed == old(seed)
      ensures ok == data.Some? && input == old(input) + (if data.Some? then data.value else [])
    {
      hide Stripe, Absorb;
      if data.None? {
        return false;
      }
      var bytes := data.value;
      totalLen32 := (totalLen32 + |bytes|) % WORD32;
      largeLen := largeLen || |bytes| >= 16 || totalLen32 >= 16;
      LengthWraps(|input|, |bytes|);
      if memsize + |bytes| < 16 {
        Append(bytes, input);
      } else {
        TakeStripes(bytes, input);
      }
      input := input + bytes;
      return true;
    }

    /** XXH32_digest */
    method Digest() returns (h: bv32)
      requires Valid()
      ensures h == Hash(input, seed)
    {
      hide Stripe, Absorb, Start, Merge, Finish, AddLen, ShortOf, Hash;
      DigestIs(v, input, seed);
      if largeLen {
        h := Merge(v);
      } else {
        h := ShortOf(v);
      }
      h := AddLen(h, totalLen32);
      h := Finalize(h, mem[..memsize]);
    }
  }

  /** XXH32_digest finds the seed in the third lane. */
  function ShortOf(v: Lanes): bv32 {
    Short(v.v3)
  }

  lemma DigestIs(v: Lanes, input: Bytes, seed: bv32)
    requires v == Absorb(Stripe, 16, Start(seed), input[..Whole(|input|, 16)])
    ensures Finish(AddLen(if |input| >= 16 then Merge(v) else ShortOf(v), |input| % WORD32), input[Whole(|input|, 16)..], 0) == Hash(input, seed)
  {
    hide Absorb, Merge, Finish, AddLen, Short, Start, Stripe;
    if |input| < 16 { Unabsorbed(Stripe, 16, Start(seed), input); }
    StartThird(seed);
    AddLenWraps(if |input| >= 16 then Merge(v) else ShortOf(v), |input|);
  }

  lemma StartThird(seed: bv32)
    ensures Start(seed).v3 == seed
  {}

  lemma AddLenWraps(h: bv32, n: nat)
    ensures AddLen(h, n % WORD32) == AddLen(h, n)
  {
    hide Len32, Plus32;
    LenWraps(n);
  }

  /** Hashing piece by piece gives what hashing at once gives, however the input is cut. */
  method Stream(pieces: seq<Bytes>, seed: bv32) returns (h: bv32)
    ensures h == Hash(Joined(pieces), seed)
  {
    hide Hash, State.Valid, Start, Stripe;
    var state := new State(seed);
    for i := 0 to |pieces|
      invariant state.Valid() && fresh(state) && fresh(state.mem) && state.input == Joined(pieces[..i]) && state.seed == seed
    {
      var _ := state.Update(Some(pieces[i]));
      assert pieces[..i + 1][..i] == pieces[..i];
    }
    assert pieces[..|pieces|] == pieces;
    h := state.Digest();
  }

  /** totalLen32 wraps around, but largeLen stays right. */
  lemma LengthWraps(n: nat, k: nat)
    ensures (n % WORD32 + k) % WORD32 == (n + k) % WORD32
    ensures n >= 16 || k >= 16 || (n + k) % WORD32 >= 16 <==> n + k >= 16
  {}
}
