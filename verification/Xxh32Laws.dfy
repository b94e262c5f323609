/** What XXH32 (xxhash.h) makes of its input: every word that it reads counts, and known digests. */
module Xxh32Laws {
  import opened XxhWords
  import opened Xxh32

  // ---------- steps that can be undone ----------

  /** Inverses of the primes modulo 2^32. */
  const INVERSE32_1: bv32 := 0x0E8B2F51
  const INVERSE32_2: bv32 := 0xB6C92F47
  const INVERSE32_3: bv32 := 0xA89ED915
  const INVERSE32_4: bv32 := 0xA0FE3BCF
  const INVERSE32_5: bv32 := 0xAE398151

  lemma Over1(x: bv32)
    ensures Times32(Times32(x, 0x9E3779B1), 0x0E8B2F51) == x
  {
    assert Times32(x * 0x9E3779B1, 0x0E8B2F51) == x;
  }

  lemma Over2(x: bv32)
    ensures Times32(Times32(x, 0x85EBCA77), 0xB6C92F47) == x
  {
    assert Times32(x * 0x85EBCA77, 0xB6C92F47) == x;
  }

  lemma Over3(x: bv32)
    ensures Times32(Times32(x, 0xC2B2AE3D), 0xA89ED915) == x
  {
    assert Times32(x * 0xC2B2AE3D, 0xA89ED915) == x;
  }

  lemma Over4(x: bv32)
    ensures Times32(Times32(x, 0x27D4EB2F), 0xA0FE3BCF) == x
  {
    assert Times32(x * 0x27D4EB2F, 0xA0FE3BCF) == x;
  }

  lemma Over5(x: bv32)
    ensures Times32(Times32(x, 0x165667B1), 0xAE398151) == x
  {
    assert Times32(x * 0x165667B1, 0xAE398151) == x;
  }

  /** No product with a prime loses anything. */
  lemma TimesBack(x: bv32)
    ensures Times32(Times32(x, PRIME32_1), INVERSE32_1) == x && Times32(Times32(x, PRIME32_2), INVERSE32_2) == x
    ensures Times32(Times32(x, PRIME32_3), INVERSE32_3) == x && Times32(Times32(x, PRIME32_4), INVERSE32_4) == x
    ensures Times32(Times32(x, PRIME32_5), INVERSE32_5) == x
  {
    hide Times32;
    Over1(x);
    Over2(x);
    Over3(x);
    Over4(x);
    Over5(x);
  }

  function Less(x: bv32, y: bv32): bv32 { x - y }

  lemma SumBack(x: bv32, y: bv32)
    ensures Less(Plus32(x, y), x) == y && Less(Plus32(x, y), y) == x
  {}

  lemma Rotl11Back(x: bv32)
    ensures Rotl32(Rotl32(x, 11), 21) == x
  {}

  lemma Rotl13Back(x: bv32)
    ensures Rotl32(Rotl32(x, 13), 19) == x
  {}

  lemma Rotl17Back(x: bv32)
    ensures Rotl32(Rotl32(x, 17), 15) == x
  {}

  /** A round of a lane: one to one in the lane, and in the word read. */
  lemma RoundInjective(x: bv32, y: bv32, v: bv32, w: bv32)
    ensures Round(x, w) == Round(y, w) ==> x == y
    ensures Round(x, v) == Round(x, w) ==> v == w
  {
    hide Round, Times32, Rotl32, Less, Plus32;
    RoundBack(x, v);
    RoundBack(x, w);
    RoundBack(y, w);
    SumBack(x, Times32(v, PRIME32_2));
    SumBack(x, Times32(w, PRIME32_2));
    SumBack(y, Times32(w, PRIME32_2));
    TimesBack(v);
    TimesBack(w);
  }

  lemma RoundBack(acc: bv32, w: bv32)
    ensures Rotl32(Times32(Round(acc, w), INVERSE32_1), 19) == Plus32(acc, Times32(w, PRIME32_2))
  {
    hide Times32, Rotl32, Plus32;
    TimesBack(Rotl32(Plus32(acc, Times32(w, PRIME32_2)), 13));
    Rotl13Back(Plus32(acc, Times32(w, PRIME32_2)));
  }

  lemma Process1Back(h: bv32, rest: Bytes, i: nat)
    requires i < |rest|
    ensures Rotl32(Times32(Process1(h, rest, i), INVERSE32_1), 21) == Plus32(h, Times32(rest[i] as bv32, PRIME32_5))
  {
    hide Times32, Rotl32, Plus32;
    TimesBack(Rotl32(Plus32(h, Times32(rest[i] as bv32, PRIME32_5)), 11));
    Rotl11Back(Plus32(h, Times32(rest[i] as bv32, PRIME32_5)));
  }

  lemma Process4Back(h: bv32, rest: Bytes, i: nat)
    ensures Rotl32(Times32(Process4(h, rest, i), INVERSE32_4), 15) == Plus32(h, Times32(ReadLE32(rest, i), PRIME32_3))
  {
    hide Times32, Rotl32, ReadLE32, Plus32;
    TimesBack(Rotl32(Plus32(h, Times32(ReadLE32(rest, i), PRIME32_3)), 17));
    Rotl17Back(Plus32(h, Times32(ReadLE32(rest, i), PRIME32_3)));
  }

  lemma ByteAsWord(x: bv8, y: bv8)
    requires x as bv32 == y as bv32
    ensures x == y
  {}

  /** Different words make different sums, and so do different hash values. */
  lemma SumInjective(g: bv32, h: bv32, x: bv32, y: bv32)
    requires Plus32(g, x) == Plus32(h, y)
    ensures x == y <==> g == h
  {
    hide Less, Plus32;
    SumBack(g, x);
    SumBack(h, y);
  }

  /** The tail steps: one to one in the hash value, and in what they read. */
  lemma Process1Injective(g: bv32, h: bv32, a: Bytes, b: Bytes, i: nat)
    requires i < |a| && i < |b| && Process1(g, a, i) == Process1(h, b, i)
    ensures a[i] == b[i] <==> g == h
  {
    hide Process1, Times32, Rotl32, Plus32;
    Process1Back(g, a, i);
    Process1Back(h, b, i);
    var x, y := Times32(a[i] as bv32, PRIME32_5), Times32(b[i] as bv32, PRIME32_5);
    SumInjective(g, h, x, y);
    TimesBack(a[i] as bv32);
    TimesBack(b[i] as bv32);
    if a[i] as bv32 == b[i] as bv32 { ByteAsWord(a[i], b[i]); }
  }

  lemma Process4Injective(g: bv32, h: bv32, a: Bytes, b: Bytes, i: nat)
    requires Process4(g, a, i) == Process4(h, b, i)
    ensures ReadLE32(a, i) == ReadLE32(b, i) <==> g == h
  {
    hide Process4, Times32, Rotl32, ReadLE32, Plus32;
    Process4Back(g, a, i);
    Process4Back(h, b, i);
    SumInjective(g, h, Times32(ReadLE32(a, i), PRIME32_3), Times32(ReadLE32(b, i), PRIME32_3));
    TimesBack(ReadLE32(a, i));
    TimesBack(ReadLE32(b, i));
  }

  lemma Shift16Back(h: bv32)
    ensures XorShift32(XorShift32(h, 16), 16) == h
  {
    assert XorShift32(h ^ (h >> 16), 16) == h;
  }

  lemma Shift13Steps(h: bv32)
    ensures XorShift32(h, 13) == h ^ (h >> 13)
    ensures XorShift32(h ^ (h >> 13), 26) == h ^ (h >> 13) ^ (h >> 26)
    ensures XorShift32(h ^ (h >> 13) ^ (h >> 26), 13) == h
  {}

  lemma Shift13Back(h: bv32)
    ensures XorShift32(XorShift32(XorShift32(h, 13), 26), 13) == h
  {
    hide XorShift32;
    Shift13Steps(h);
  }

  lemma Shift15Steps(h: bv32)
    ensures XorShift32(h, 15) == h ^ (h >> 15)
    ensures XorShift32(h ^ (h >> 15), 30) == h ^ (h >> 15) ^ (h >> 30)
    ensures XorShift32(h ^ (h >> 15) ^ (h >> 30), 15) == h
  {}

  lemma Shift15Back(h: bv32)
    ensures XorShift32(XorShift32(XorShift32(h, 15), 30), 15) == h
  {
    hide XorShift32;
    Shift15Steps(h);
  }

  /** The last mixing undone. */
  function Unavalanche(h: bv32): bv32 {
    var h2 := Times32(XorShift32(h, 16), INVERSE32_3);
    var h1 := Times32(XorShift32(XorShift32(h2, 26), 13), INVERSE32_2);
    XorShift32(XorShift32(h1, 30), 15)
  }

  /** The last mixing is one to one. */
  lemma AvalancheBack(h: bv32)
    ensures Unavalanche(Avalanche(h)) == h
  {
    hide Times32, XorShift32;
    var h1 := Times32(XorShift32(h, 15), PRIME32_2);
    var h2 := Times32(XorShift32(h1, 13), PRIME32_3);
    Shift16Back(h2);
    TimesBack(XorShift32(h1, 13));
    Shift13Back(h1);
    TimesBack(XorShift32(h, 15));
    Shift15Back(h);
  }

  lemma Rotl1Back(x: bv32)
    ensures Rotl32(Rotl32(x, 1), 31) == x
  {}

  lemma Rotl7Back(x: bv32)
    ensures Rotl32(Rotl32(x, 7), 25) == x
  {}

  lemma Rotl12Back(x: bv32)
    ensures Rotl32(Rotl32(x, 12), 20) == x
  {}

  lemma Rotl18Back(x: bv32)
    ensures Rotl32(Rotl32(x, 18), 14) == x
  {}

  lemma RotlsBack(v: Lanes)
    ensures Rotl32(Rotl32(v.v1, 1), 31) == v.v1 && Rotl32(Rotl32(v.v2, 7), 25) == v.v2
    ensures Rotl32(Rotl32(v.v3, 12), 20) == v.v3 && Rotl32(Rotl32(v.v4, 18), 14) == v.v4
  {
    hide Rotl32;
    Rotl1Back(v.v1);
    Rotl7Back(v.v2);
    Rotl12Back(v.v3);
    Rotl18Back(v.v4);
  }

  /** Which lane is the only one that differs. */
  predicate OneLane(v: Lanes, w: Lanes, j: nat) {
    && (j != 0 ==> v.v1 == w.v1) && (j != 1 ==> v.v2 == w.v2) && (j != 2 ==> v.v3 == w.v3) && (j != 3 ==> v.v4 == w.v4)
    && v != w
  }

  /** Lanes that differ in one place only do not merge into the same hash value. */
  lemma MergeOneLane(v: Lanes, w: Lanes, j: nat)
    requires OneLane(v, w, j)
    ensures Merge(v) != Merge(w)
  {
    hide Rotl32, Plus32;
    RotlsBack(v);
    RotlsBack(w);
    var x2, y2 := Plus32(Rotl32(v.v1, 1), Rotl32(v.v2, 7)), Plus32(Rotl32(w.v1, 1), Rotl32(w.v2, 7));
    var x3, y3 := Plus32(x2, Rotl32(v.v3, 12)), Plus32(y2, Rotl32(w.v3, 12));
    if Merge(v) == Merge(w) {
      SumInjective(x3, y3, Rotl32(v.v4, 18), Rotl32(w.v4, 18));
      if x3 == y3 {
        SumInjective(x2, y2, Rotl32(v.v3, 12), Rotl32(w.v3, 12));
        if x2 == y2 { SumInjective(Rotl32(v.v1, 1), Rotl32(w.v1, 1), Rotl32(v.v2, 7), Rotl32(w.v2, 7)); }
      }
    }
  }

  lemma ReadSame(a: Bytes, b: Bytes, i: nat)
    requires i + 4 <= |a| && i + 4 <= |b|
    ensures ReadLE32(a, i) == ReadLE32(b, i) <==> a[i..i + 4] == b[i..i + 4]
  {}

  // ---------- the tail ----------

  /** Once the hash values differ they stay different. */
  lemma {:induction false} FinishInjective(g: bv32, h: bv32, a: Bytes, b: Bytes, i: nat)
    requires |a| == |b| && i <= |a| && a[i..] == b[i..] && g != h
    ensures Finish(g, a, i) != Finish(h, b, i)
    decreases |a| - i
  {
    hide Process1, Process4, Avalanche, ReadLE32;
    if i + 4 <= |a| {
      SameFrom(a, b, i, 4);
      ReadSame(a, b, i);
      if Process4(g, a, i) == Process4(h, b, i) { Process4Injective(g, h, a, b, i); }
      FinishInjective(Process4(g, a, i), Process4(h, b, i), a, b, i + 4);
    } else if i < |a| {
      SameFrom(a, b, i, 1);
      if Process1(g, a, i) == Process1(h, b, i) { Process1Injective(g, h, a, b, i); }
      FinishInjective(Process1(g, a, i), Process1(h, b, i), a, b, i + 1);
    } else {
      AvalancheBack(g);
      AvalancheBack(h);
    }
  }

  /** One read of the tail of len bytes: a word while there is one, else a byte. */
  predicate TailRead(len: nat, k: nat, n: nat) {
    k + n <= len && if n == 4 then k % 4 == 0 else n == 1 && k >= len - len % 4
  }

  /** A read that gives something else changes the result. */
  lemma {:induction false} FinishDiffers(h: bv32, a: Bytes, b: Bytes, i: nat, k: nat, n: nat)
    requires DifferAt(a, b, k, n) && TailRead(|a|, k, n) && i <= k && (i % 4 == 0 || i > |a| - 4)
    ensures Finish(h, a, i) != Finish(h, b, i)
    decreases k - i
  {
    hide Process1, Process4, Avalanche, ReadLE32, Finish;
    FinishSteps(h, a, i);
    FinishSteps(h, b, i);
    if i + 4 <= |a| {
      if i == k {
        ReadSame(a, b, i);
        if Process4(h, a, i) == Process4(h, b, i) { Process4Injective(h, h, a, b, i); }
        FinishInjective(Process4(h, a, i), Process4(h, b, i), a, b, i + 4);
      } else {
        DifferHead(a, b, k, n, i, 4);
        ReadSame(a, b, i);
        SameProcess4(h, a, b, i);
        FinishDiffers(Process4(h, a, i), a, b, i + 4, k, n);
      }
    } else {
      if i == k {
        assert a[k..k + 1] == [a[k]] && b[k..k + 1] == [b[k]];
        if Process1(h, a, i) == Process1(h, b, i) { Process1Injective(h, h, a, b, i); }
        FinishInjective(Process1(h, a, i), Process1(h, b, i), a, b, i + 1);
      } else {
        DifferHead(a, b, k, n, i, 1);
        SameProcess1(h, a, b, i);
        FinishDiffers(Process1(h, a, i), a, b, i + 1, k, n);
      }
    }
  }

  lemma FinishSteps(h: bv32, rest: Bytes, i: nat)
    requires i < |rest|
    ensures Finish(h, rest, i) == if i + 4 <= |rest| then Finish(Process4(h, rest, i), rest, i + 4) else Finish(Process1(h, rest, i), rest, i + 1)
  {}

  lemma SameProcess4(h: bv32, a: Bytes, b: Bytes, i: nat)
    requires ReadLE32(a, i) == ReadLE32(b, i)
    ensures Process4(h, a, i) == Process4(h, b, i)
  {
    hide ReadLE32, Rotl32, Plus32, Times32;
  }

  lemma SameProcess1(h: bv32, a: Bytes, b: Bytes, i: nat)
    requires i < |a| && i < |b| && a[i] == b[i]
    ensures Process1(h, a, i) == Process1(h, b, i)
  {
    hide Rotl32, Plus32, Times32;
  }

  // ---------- stripes ----------

  /** A stripe keeps apart lanes that differ in one place. */
  lemma StripeKeeps(v: Lanes, w: Lanes, block: Bytes, j: nat)
    requires OneLane(v, w, j)
    ensures OneLane(Stripe(v, block), Stripe(w, block), j)
  {
    hide Round, ReadLE32;
    RoundInjective(v.v1, w.v1, 0, ReadLE32(block, 0));
    RoundInjective(v.v2, w.v2, 0, ReadLE32(block, 4));
    RoundInjective(v.v3, w.v3, 0, ReadLE32(block, 8));
    RoundInjective(v.v4, w.v4, 0, ReadLE32(block, 12));
  }

  /** Stripes that differ in one word make lanes that differ in one place. */
  lemma StripeDiffers(v: Lanes, a: Bytes, b: Bytes, j: nat)
    requires |a| == 16 && j < 4 && DifferAt(a, b, 4 * j, 4)
    ensures OneLane(Stripe(v, a), Stripe(v, b), j)
  {
    hide Round, ReadLE32;
    WordsDiffer(a, b, j);
    RoundInjective(v.v1, v.v1, ReadLE32(a, 0), ReadLE32(b, 0));
    RoundInjective(v.v2, v.v2, ReadLE32(a, 4), ReadLE32(b, 4));
    RoundInjective(v.v3, v.v3, ReadLE32(a, 8), ReadLE32(b, 8));
    RoundInjective(v.v4, v.v4, ReadLE32(a, 12), ReadLE32(b, 12));
  }

  lemma WordsDiffer(a: Bytes, b: Bytes, j: nat)
    requires |a| == 16 && j < 4 && DifferAt(a, b, 4 * j, 4)
    ensures ReadLE32(a, 0) == ReadLE32(b, 0) <==> j != 0
    ensures ReadLE32(a, 4) == ReadLE32(b, 4) <==> j != 1
    ensures ReadLE32(a, 8) == ReadLE32(b, 8) <==> j != 2
    ensures ReadLE32(a, 12) == ReadLE32(b, 12) <==> j != 3
  {
    hide ReadLE32;
    forall i: nat | i < 4 ensures ReadLE32(a, 4 * i) == ReadLE32(b, 4 * i) <==> i != j {
      ReadSame(a, b, 4 * i);
      if i < j { DifferHead(a, b, 4 * j, 4, 4 * i, 4); }
      if i > j { SameWithin(a, b, 4 * j + 4, 4 * i, 4); }
    }
    assert ReadLE32(a, 4 * 0) == ReadLE32(b, 4 * 0) <==> j != 0;
    assert ReadLE32(a, 4 * 1) == ReadLE32(b, 4 * 1) <==> j != 1;
    assert ReadLE32(a, 4 * 2) == ReadLE32(b, 4 * 2) <==> j != 2;
    assert ReadLE32(a, 4 * 3) == ReadLE32(b, 4 * 3) <==> j != 3;
  }

  lemma {:induction false} AbsorbKeeps(v: Lanes, w: Lanes, data: Bytes, j: nat)
    requires OneLane(v, w, j)
    ensures OneLane(Absorb(Stripe, 16, v, data), Absorb(Stripe, 16, w, data), j)
    decreases |data|
  {
    hide Stripe, OneLane;
    if |data| >= 16 {
      StripeKeeps(v, w, data[..16], j);
      AbsorbKeeps(Stripe(v, data[..16]), Stripe(w, data[..16]), data[16..], j);
    }
  }

  lemma WordOf(k: nat, len: nat)
    requires k % 4 == 0 && len % 16 == 0 && k + 4 <= len
    ensures len >= 16 && (len - 16) % 16 == 0
    ensures k < 16 ==> k % 16 / 4 == k / 4 < 4 && 4 * (k / 4) == k && k + 4 <= 16
    ensures k >= 16 ==> (k - 16) % 16 == k % 16 && (k - 16) % 4 == 0
  {}

  lemma {:induction false} AbsorbDiffers(v: Lanes, a: Bytes, b: Bytes, k: nat)
    requires |a| % 16 == 0 && k % 4 == 0 && DifferAt(a, b, k, 4)
    ensures OneLane(Absorb(Stripe, 16, v, a), Absorb(Stripe, 16, v, b), k % 16 / 4)
    decreases |a|
  {
    hide Stripe, OneLane, DifferAt;
    DifferBounds(a, b, k, 4);
    WordOf(k, |a|);
    if k < 16 {
      DifferTo(a, b, k, 4, 16);
      StripeDiffers(v, a[..16], b[..16], k / 4);
      AbsorbKeeps(Stripe(v, a[..16]), Stripe(v, b[..16]), a[16..], k / 4);
    } else {
      DifferFrom(a, b, k, 4, 16);
      AbsorbDiffers(Stripe(v, a[..16]), a[16..], b[16..], k - 16);
    }
  }

  // ---------- inputs ----------

  /** One read of an input of len bytes: a word of a stripe, or a read of the tail. */
  predicate Read(len: nat, k: nat, n: nat) {
    var w := Whole(len, 16);
    if k < w then n == 4 && k % 4 == 0 else TailRead(len - w, k - w, n)
  }

  /** The hash value before the tail is mixed in. */
  function Lead(input: Bytes, seed: bv32): bv32 {
    AddLen(if |input| >= 16 then Merge(Absorb(Stripe, 16, Start(seed), input[..Whole(|input|, 16)])) else Short(seed), |input|)
  }

  lemma HashIs(input: Bytes, seed: bv32)
    ensures Hash(input, seed) == Finish(Lead(input, seed), input[Whole(|input|, 16)..], 0)
  {
    hide Finish, AddLen, Absorb, Merge, Start, Stripe, Short;
  }

  lemma AddLenInjective(g: bv32, h: bv32, n: nat)
    requires g != h
    ensures AddLen(g, n) != AddLen(h, n)
  {
    hide Plus32, Len32;
    if AddLen(g, n) == AddLen(h, n) { SumInjective(g, h, Len32(n), Len32(n)); }
  }

  lemma LeadDiffers(a: Bytes, b: Bytes, seed: bv32, k: nat)
    requires DifferAt(a, b, k, 4) && k % 4 == 0 && k + 4 <= Whole(|a|, 16)
    ensures Lead(a, seed) != Lead(b, seed)
  {
    hide Stripe, Merge, Start, AddLen, Short, Absorb, DifferAt, OneLane;
    DifferBounds(a, b, k, 4);
    var w := Whole(|a|, 16);
    DifferTo(a, b, k, 4, w);
    AbsorbDiffers(Start(seed), a[..w], b[..w], k);
    var v, v' := Absorb(Stripe, 16, Start(seed), a[..w]), Absorb(Stripe, 16, Start(seed), b[..w]);
    MergeOneLane(v, v', k % 16 / 4);
    AddLenInjective(Merge(v), Merge(v'), |a|);
  }

  lemma LeadSame(a: Bytes, b: Bytes, seed: bv32)
    requires |a| == |b| && a[..Whole(|a|, 16)] == b[..Whole(|a|, 16)]
    ensures Lead(a, seed) == Lead(b, seed)
  {
    hide Stripe, Merge, Start, AddLen, Short, Absorb;
  }

  lemma WordInside(k: nat, w: nat)
    requires k < w && k % 4 == 0 && w % 16 == 0
    ensures k + 4 <= w
  {}

  /** Two inputs of one length that differ in what a single read gives have different hashes. */
  lemma HashDiffers(a: Bytes, b: Bytes, seed: bv32, k: nat, n: nat)
    requires DifferAt(a, b, k, n) && Read(|a|, k, n)
    ensures Hash(a, seed) != Hash(b, seed)
  {
    hide Finish, Lead, Hash, DifferAt, TailRead, Whole;
    DifferBounds(a, b, k, n);
    HashIs(a, seed);
    HashIs(b, seed);
    var w := Whole(|a|, 16);
    if k < w {
      WordInside(k, w);
      DifferTo(a, b, k, n, w);
      LeadDiffers(a, b, seed, k);
      FinishInjective(Lead(a, seed), Lead(b, seed), a[w..], b[w..], 0);
    } else {
      DifferFrom(a, b, k, n, w);
      LeadSame(a, b, seed);
      FinishDiffers(Lead(a, seed), a[w..], b[w..], 0, k - w, n);
    }
  }

  /** Every byte is read once: which read it belongs to. */
  lemma ReadOf(len: nat, q: nat) returns (k: nat, n: nat)
    requires q < len
    ensures Read(len, k, n) && k <= q < k + n <= len
  {
    var w := Whole(len, 16);
    if q < w || q - w < len - w - (len - w) % 4 {
      return q - q % 4, 4;
    }
    return q, 1;
  }

  /** Two inputs that differ in exactly one byte have different hashes, whatever the seed. */
  lemma OneByteCounts(a: Bytes, b: Bytes, seed: bv32, q: nat)
    requires DifferAt(a, b, q, 1)
    ensures Hash(a, seed) != Hash(b, seed)
  {
    hide Hash, Read, DifferAt;
    DifferBounds(a, b, q, 1);
    var k, n := ReadOf(|a|, q);
    DifferWider(a, b, q, k, n);
    HashDiffers(a, b, seed, k, n);
  }
}
