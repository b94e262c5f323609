/** What XXH64 (xxhash.h) makes of its input: every word that it reads counts. */
module Xxh64Laws {
  import opened XxhWords
  import opened Xxh64

  // ---------- steps that can be undone ----------

  /** Inverses of the primes modulo 2^64. */
  const INVERSE64_1: bv64 := 0x0887493432BADB37
  const INVERSE64_2: bv64 := 0x0BA79078168D4BAF
  const INVERSE64_3: bv64 := 0xE9E9F4C41D6DF849
  const INVERSE64_5: bv64 := 0xC592C09FDFBA7F0D

  lemma Over1(x: bv64)
    ensures Times64(Times64(x, 0x9E3779B185EBCA87), 0x0887493432BADB37) == x
  {
    assert Times64(x * 0x9E3779B185EBCA87, 0x0887493432BADB37) == x;
  }

  lemma Over2(x: bv64)
    ensures Times64(Times64(x, 0xC2B2AE3D27D4EB4F), 0x0BA79078168D4BAF) == x
  {
    assert Times64(x * 0xC2B2AE3D27D4EB4F, 0x0BA79078168D4BAF) == x;
  }

  lemma Over3(x: bv64)
    ensures Times64(Times64(x, 0x165667B19E3779F9), 0xE9E9F4C41D6DF849) == x
  {
    assert Times64(x * 0x165667B19E3779F9, 0xE9E9F4C41D6DF849) == x;
  }

  lemma Over5(x: bv64)
    ensures Times64(Times64(x, 0x27D4EB2F165667C5), 0xC592C09FDFBA7F0D) == x
  {
    assert Times64(x * 0x27D4EB2F165667C5, 0xC592C09FDFBA7F0D) == x;
  }

  /** No product with a prime loses anything. */
  lemma TimesBack(x: bv64)
    ensures Times64(Times64(x, PRIME64_1), INVERSE64_1) == x && Times64(Times64(x, PRIME64_2), INVERSE64_2) == x
    ensures Times64(Times64(x, PRIME64_3), INVERSE64_3) == x && Times64(Times64(x, PRIME64_5), INVERSE64_5) == x
  {
    hide Times64;
    Over1(x);
    Over2(x);
    Over3(x);
    Over5(x);
  }

  function Less(x: bv64, y: bv64): bv64 { x - y }

  lemma SumBack(x: bv64, y: bv64)
    ensures Less(Plus64(x, y), x) == y && Less(Plus64(x, y), y) == x
  {}

  /** Different words make different sums, and so do different hash values. */
  lemma SumInjective(g: bv64, h: bv64, x: bv64, y: bv64)
    requires Plus64(g, x) == Plus64(h, y)
    ensures x == y <==> g == h
  {
    hide Less, Plus64;
    SumBack(g, x);
    SumBack(h, y);
  }

  lemma XorInjective(g: bv64, h: bv64, x: bv64, y: bv64)
    requires Xor64(g, x) == Xor64(h, y)
    ensures x == y <==> g == h
  {
    hide Xor64;
    XorBack(g, x);
    XorBack(h, y);
  }

  lemma XorBack(x: bv64, y: bv64)
    ensures Xor64(Xor64(x, y), x) == y && Xor64(Xor64(x, y), y) == x
  {
    assert Xor64(x ^ y, x) == y && Xor64(x ^ y, y) == x;
  }

  lemma Rotl11Back(x: bv64)
    ensures Rotl64(Rotl64(x, 11), 53) == x
  {}

  lemma Rotl23Back(x: bv64)
    ensures Rotl64(Rotl64(x, 23), 41) == x
  {}

  lemma Rotl27Back(x: bv64)
    ensures Rotl64(Rotl64(x, 27), 37) == x
  {}

  lemma Rotl31Back(x: bv64)
    ensures Rotl64(Rotl64(x, 31), 33) == x
  {}

  lemma RoundBack(acc: bv64, w: bv64)
    ensures Rotl64(Times64(Round(acc, w), INVERSE64_1), 33) == Plus64(acc, Times64(w, PRIME64_2))
  {
    hide Times64, Rotl64, Plus64;
    TimesBack(Rotl64(Plus64(acc, Times64(w, PRIME64_2)), 31));
    Rotl31Back(Plus64(acc, Times64(w, PRIME64_2)));
  }

  /** A round of a lane: one to one in the lane, and in the word read. */
  lemma RoundInjective(x: bv64, y: bv64, v: bv64, w: bv64)
    requires Round(x, v) == Round(y, w)
    ensures x == y <==> v == w
  {
    hide Round, Times64, Rotl64, Plus64;
    RoundBack(x, v);
    RoundBack(y, w);
    SumInjective(x, y, Times64(v, PRIME64_2), Times64(w, PRIME64_2));
    TimesBack(v);
    TimesBack(w);
  }

  /** A lane that is merged in keeps different hash values apart. */
  lemma MergeRoundBack(acc: bv64, val: bv64)
    ensures Times64(Less(MergeRound(acc, val), PRIME64_4), INVERSE64_1) == Xor64(acc, Round(0, val))
  {
    hide Times64, Plus64, Round, Less, Xor64;
    SumBack(Times64(Xor64(acc, Round(0, val)), PRIME64_1), PRIME64_4);
    TimesBack(Xor64(acc, Round(0, val)));
  }

  lemma Process1Back(h: bv64, rest: Bytes, i: nat)
    requires i < |rest|
    ensures Rotl64(Times64(Process1(h, rest, i), INVERSE64_1), 53) == Xor64(h, Times64(rest[i] as bv64, PRIME64_5))
  {
    hide Times64, Rotl64, Xor64;
    TimesBack(Rotl64(Xor64(h, Times64(rest[i] as bv64, PRIME64_5)), 11));
    Rotl11Back(Xor64(h, Times64(rest[i] as bv64, PRIME64_5)));
  }

  lemma Process4Back(h: bv64, rest: Bytes, i: nat)
    ensures Rotl64(Times64(Less(Process4(h, rest, i), PRIME64_3), INVERSE64_2), 41) == Xor64(h, Times64(ReadLE32(rest, i) as bv64, PRIME64_1))
  {
    hide Times64, Rotl64, ReadLE32, Plus64, Less, Xor64;
    var x := Xor64(h, Times64(ReadLE32(rest, i) as bv64, PRIME64_1));
    SumBack(Times64(Rotl64(x, 23), PRIME64_2), PRIME64_3);
    TimesBack(Rotl64(x, 23));
    Rotl23Back(x);
  }

  lemma Process8Back(h: bv64, rest: Bytes, i: nat)
    ensures Rotl64(Times64(Less(Process8(h, rest, i), PRIME64_4), INVERSE64_1), 37) == Xor64(h, Round(0, ReadLE64(rest, i)))
  {
    hide Times64, Rotl64, ReadLE64, Plus64, Round, Less, Xor64;
    var x := Xor64(h, Round(0, ReadLE64(rest, i)));
    SumBack(Times64(Rotl64(x, 27), PRIME64_1), PRIME64_4);
    TimesBack(Rotl64(x, 27));
    Rotl27Back(x);
  }

  lemma ByteAsWord(x: bv8, y: bv8)
    requires x as bv64 == y as bv64
    ensures x == y
  {}

  lemma WordAsLong(x: bv32, y: bv32)
    requires x as bv64 == y as bv64
    ensures x == y
  {}

  lemma WordTimes(x: bv32, y: bv32)
    ensures Times64(x as bv64, PRIME64_1) == Times64(y as bv64, PRIME64_1) <==> x == y
  {
    hide Times64;
    TimesBack(x as bv64);
    TimesBack(y as bv64);
    if x as bv64 == y as bv64 { WordAsLong(x, y); }
  }

  /** The tail steps: one to one in the hash value, and in what they read. */
  lemma Process1Injective(g: bv64, h: bv64, a: Bytes, b: Bytes, i: nat)
    requires i < |a| && i < |b| && Process1(g, a, i) == Process1(h, b, i)
    ensures a[i] == b[i] <==> g == h
  {
    hide Process1, Times64, Rotl64, Xor64;
    Process1Back(g, a, i);
    Process1Back(h, b, i);
    XorInjective(g, h, Times64(a[i] as bv64, PRIME64_5), Times64(b[i] as bv64, PRIME64_5));
    TimesBack(a[i] as bv64);
    TimesBack(b[i] as bv64);
    if a[i] as bv64 == b[i] as bv64 { ByteAsWord(a[i], b[i]); }
  }

  lemma Process4Injective(g: bv64, h: bv64, a: Bytes, b: Bytes, i: nat)
    requires Process4(g, a, i) == Process4(h, b, i)
    ensures ReadLE32(a, i) == ReadLE32(b, i) <==> g == h
  {
    hide Process4, Times64, Rotl64, ReadLE32, Less, Xor64;
    Process4Back(g, a, i);
    Process4Back(h, b, i);
    var x, y := ReadLE32(a, i), ReadLE32(b, i);
    XorInjective(g, h, Times64(x as bv64, PRIME64_1), Times64(y as bv64, PRIME64_1));
    WordTimes(x, y);
  }

  lemma Process8Injective(g: bv64, h: bv64, a: Bytes, b: Bytes, i: nat)
    requires Process8(g, a, i) == Process8(h, b, i)
    ensures ReadLE64(a, i) == ReadLE64(b, i) <==> g == h
  {
    hide Process8, Times64, Rotl64, ReadLE64, Less, Round, Xor64;
    Process8Back(g, a, i);
    Process8Back(h, b, i);
    var x, y := ReadLE64(a, i), ReadLE64(b, i);
    XorInjective(g, h, Round(0, x), Round(0, y));
    if Round(0, x) == Round(0, y) { RoundInjective(0, 0, x, y); }
  }

  lemma Shift32Back(h: bv64)
    ensures XorShift64(XorShift64(h, 32), 32) == h
  {
    assert XorShift64(h ^ (h >> 32), 32) == h;
  }

  lemma Shift33Back(h: bv64)
    ensures XorShift64(XorShift64(h, 33), 33) == h
  {
    assert XorShift64(h ^ (h >> 33), 33) == h;
  }

  lemma Shift29Steps(h: bv64)
    ensures XorShift64(h, 29) == h ^ (h >> 29)
    ensures XorShift64(h ^ (h >> 29), 58) == h ^ (h >> 29) ^ (h >> 58)
    ensures XorShift64(h ^ (h >> 29) ^ (h >> 58), 29) == h
  {}

  lemma Shift29Back(h: bv64)
    ensures XorShift64(XorShift64(XorShift64(h, 29), 58), 29) == h
  {
    hide XorShift64;
    Shift29Steps(h);
  }

  /** The last mixing undone. */
  function Unavalanche(h: bv64): bv64 {
    var h2 := Times64(XorShift64(h, 32), INVERSE64_3);
    var h1 := Times64(XorShift64(XorShift64(h2, 58), 29), INVERSE64_2);
    XorShift64(h1, 33)
  }

  /** The last mixing is one to one. */
  lemma AvalancheBack(h: bv64)
    ensures Unavalanche(Avalanche(h)) == h
  {
    hide Times64, XorShift64;
    var h1 := Times64(XorShift64(h, 33), PRIME64_2);
    var h2 := Times64(XorShift64(h1, 29), PRIME64_3);
    Shift32Back(h2);
    TimesBack(XorShift64(h1, 29));
    Shift29Back(h1);
    TimesBack(XorShift64(h, 33));
    Shift33Back(h);
  }

  lemma Read4Same(a: Bytes, b: Bytes, i: nat)
    requires i + 4 <= |a| && i + 4 <= |b|
    ensures ReadLE32(a, i) == ReadLE32(b, i) <==> a[i..i + 4] == b[i..i + 4]
  {}

  lemma JoinedInjective(x: bv32, y: bv32, v: bv32, w: bv32)
    ensures Joined64(x, y) == Joined64(v, w) <==> x == v && y == w
  {}

  lemma Read8Same(a: Bytes, b: Bytes, i: nat)
    requires i + 8 <= |a| && i + 8 <= |b|
    ensures ReadLE64(a, i) == ReadLE64(b, i) <==> a[i..i + 8] == b[i..i + 8]
  {
    hide ReadLE32, Joined64;
    Read4Same(a, b, i);
    Read4Same(a, b, i + 4);
    JoinedInjective(ReadLE32(a, i), ReadLE32(a, i + 4), ReadLE32(b, i), ReadLE32(b, i + 4));
    assert a[i..i + 8] == a[i..i + 4] + a[i + 4..i + 8] && b[i..i + 8] == b[i..i + 4] + b[i + 4..i + 8];
    assert a[i..i + 8][..4] == a[i..i + 4] && a[i..i + 8][4..] == a[i + 4..i + 8];
    assert b[i..i + 8][..4] == b[i..i + 4] && b[i..i + 8][4..] == b[i + 4..i + 8];
  }

  // ---------- the tail ----------

  /** Once the hash values differ they stay different. */
  lemma {:induction false} FinishInjective(g: bv64, h: bv64, a: Bytes, b: Bytes, i: nat)
    requires |a| == |b| && i <= |a| && a[i..] == b[i..] && g != h
    ensures Finish(g, a, i) != Finish(h, b, i)
    decreases |a| - i
  {
    hide Process1, Process4, Process8, Avalanche, ReadLE32, ReadLE64;
    if i + 8 <= |a| {
      SameFrom(a, b, i, 8);
      Read8Same(a, b, i);
      if Process8(g, a, i) == Process8(h, b, i) { Process8Injective(g, h, a, b, i); }
      FinishInjective(Process8(g, a, i), Process8(h, b, i), a, b, i + 8);
    } else if i + 4 <= |a| {
      SameFrom(a, b, i, 4);
      Read4Same(a, b, i);
      if Process4(g, a, i) == Process4(h, b, i) { Process4Injective(g, h, a, b, i); }
      FinishInjective(Process4(g, a, i), Process4(h, b, i), a, b, i + 4);
    } else if i < |a| {
      SameFrom(a, b, i, 1);
      if Process1(g, a, i) == Process1(h, b, i) { Process1Injective(g, h, a, b, i); }
      FinishInjective(Process1(g, a, i), Process1(h, b, i), a, b, i + 1);
    } else {
      AvalancheBack(g);
      AvalancheBack(h);
    }
  }

  /** One read of the tail of len bytes: eight bytes while there are eight, then at most once four, then single bytes. */
  predicate TailRead(len: nat, k: nat, n: nat) {
    && k + n <= len
    && if n == 8 then k % 8 == 0 else if n == 4 then k == len - len % 8 else n == 1 && k >= len - len % 4
  }

  function Process(h: bv64, rest: Bytes, i: nat, n: nat): bv64
    requires i < |rest|
  {
    if n == 8 then Process8(h, rest, i) else if n == 4 then Process4(h, rest, i) else Process1(h, rest, i)
  }

  /** What the read at i takes. */
  function Taken(len: nat, i: nat): nat {
    if i + 8 <= len then 8 else if i + 4 <= len then 4 else 1
  }

  lemma FinishSteps(h: bv64, rest: Bytes, i: nat)
    requires i < |rest|
    ensures i + Taken(|rest|, i) <= |rest|
    ensures Finish(h, rest, i) == Finish(Process(h, rest, i, Taken(|rest|, i)), rest, i + Taken(|rest|, i))
  {
    hide Process1, Process4, Process8, Avalanche;
  }

  lemma ProcessDiffers(h: bv64, a: Bytes, b: Bytes, i: nat, n: nat)
    requires DifferAt(a, b, i, n) && (n == 8 || n == 4 || n == 1)
    ensures Process(h, a, i, n) != Process(h, b, i, n)
  {
    hide Process1, Process4, Process8, ReadLE32, ReadLE64;
    if n == 8 {
      Read8Same(a, b, i);
      if Process8(h, a, i) == Process8(h, b, i) { Process8Injective(h, h, a, b, i); }
    } else if n == 4 {
      Read4Same(a, b, i);
      if Process4(h, a, i) == Process4(h, b, i) { Process4Injective(h, h, a, b, i); }
    } else {
      assert a[i..i + 1] == [a[i]] && b[i..i + 1] == [b[i]];
      if Process1(h, a, i) == Process1(h, b, i) { Process1Injective(h, h, a, b, i); }
    }
  }

  lemma ProcessSame(h: bv64, a: Bytes, b: Bytes, i: nat, n: nat)
    requires i + n <= |a| && i + n <= |b| && (n == 8 || n == 4 || n == 1) && a[i..i + n] == b[i..i + n] && a[i] == b[i]
    ensures Process(h, a, i, n) == Process(h, b, i, n)
  {
    hide ReadLE32, ReadLE64, Rotl64, Plus64, Times64, Xor64, Round;
    if n == 8 { Read8Same(a, b, i); }
    if n == 4 { Read4Same(a, b, i); }
  }

  /** How much is left for the word and the single bytes. */
  lemma TailShape(len: nat)
    ensures len % 4 == if len % 8 >= 4 then len % 8 - 4 else len % 8
  {
    var e, r := len / 8, len % 8;
    if r >= 4 { Remainder(2 * e + 1, r - 4); } else { Remainder(2 * e, r); }
  }

  lemma Remainder(q: nat, r: nat)
    requires r < 4
    ensures (4 * q + r) % 4 == r
  {}

  /** Eight at a time, a multiple of eight is reached from any other that is less. */
  lemma Eights(i: nat, k: nat)
    requires i % 8 == 0 && k % 8 == 0
    ensures (i + 8) % 8 == 0 && (i < k ==> i + 8 <= k)
  {}

  /** The reads before and at one that begins at k. */
  lemma TailReads(len: nat, i: nat, k: nat, n: nat)
    requires TailRead(len, k, n) && i <= k && (i % 8 == 0 || i >= len - len % 4)
    ensures i < len && (i == k ==> Taken(len, i) == n) && (i < k ==> i + Taken(len, i) <= k)
    ensures var j := i + Taken(len, i); j % 8 == 0 || j >= len - len % 4
  {
    TailShape(len);
    if i % 8 == 0 {
      Eights(i, len - len % 8);
      if n == 8 { Eights(i, k); }
    }
  }

  /** A read that gives something else changes the result. */
  lemma {:induction false} FinishDiffers(h: bv64, a: Bytes, b: Bytes, i: nat, k: nat, n: nat)
    requires DifferAt(a, b, k, n) && TailRead(|a|, k, n) && i <= k && (i % 8 == 0 || i >= |a| - |a| % 4)
    ensures Finish(h, a, i) != Finish(h, b, i)
    decreases k - i
  {
    hide Process, Finish, Taken;
    TailReads(|a|, i, k, n);
    FinishSteps(h, a, i);
    FinishSteps(h, b, i);
    var m := Taken(|a|, i);
    TakenIs(|a|, i);
    if i == k {
      ProcessDiffers(h, a, b, i, n);
      FinishInjective(Process(h, a, i, n), Process(h, b, i, n), a, b, i + n);
    } else {
      DifferHead(a, b, k, n, i, m);
      ProcessSame(h, a, b, i, m);
      FinishDiffers(Process(h, a, i, m), a, b, i + m, k, n);
    }
  }

  lemma TakenIs(len: nat, i: nat)
    ensures Taken(len, i) == 8 || Taken(len, i) == 4 || Taken(len, i) == 1
  {}

  // ---------- stripes ----------

  /** Which lane is the only one that differs. */
  predicate OneLane(v: Lanes, w: Lanes, j: nat) {
    && (j != 0 ==> v.v1 == w.v1) && (j != 1 ==> v.v2 == w.v2) && (j != 2 ==> v.v3 == w.v3) && (j != 3 ==> v.v4 == w.v4)
    && v != w
  }

  /** A stripe is one to one in the lanes, and in its 32 bytes. */
  lemma StripeInjective(v: Lanes, w: Lanes, a: Bytes, b: Bytes)
    requires |a| == 32 && |b| == 32 && Stripe(v, a) == Stripe(w, b)
    ensures v == w <==> a == b
  {
    hide Round, ReadLE64;
    RoundInjective(v.v1, w.v1, ReadLE64(a, 0), ReadLE64(b, 0));
    RoundInjective(v.v2, w.v2, ReadLE64(a, 8), ReadLE64(b, 8));
    RoundInjective(v.v3, w.v3, ReadLE64(a, 16), ReadLE64(b, 16));
    RoundInjective(v.v4, w.v4, ReadLE64(a, 24), ReadLE64(b, 24));
    FourWords(a, b);
  }

  lemma FourWords(a: Bytes, b: Bytes)
    requires |a| == 32 && |b| == 32
    ensures a == b <==> ReadLE64(a, 0) == ReadLE64(b, 0) && ReadLE64(a, 8) == ReadLE64(b, 8) && ReadLE64(a, 16) == ReadLE64(b, 16) && ReadLE64(a, 24) == ReadLE64(b, 24)
  {
    hide ReadLE64;
    Read8Same(a, b, 0);
    Read8Same(a, b, 8);
    Read8Same(a, b, 16);
    Read8Same(a, b, 24);
    assert a == a[0..8] + a[8..16] + a[16..24] + a[24..32];
    assert b == b[0..8] + b[8..16] + b[16..24] + b[24..32];
  }

  /** A stripe keeps apart lanes that differ in one place. */
  lemma StripeKeeps(v: Lanes, w: Lanes, block: Bytes, j: nat)
    requires OneLane(v, w, j)
    ensures OneLane(Stripe(v, block), Stripe(w, block), j)
  {
    hide Round, ReadLE64;
    LaneKeeps(v.v1, w.v1, ReadLE64(block, 0));
    LaneKeeps(v.v2, w.v2, ReadLE64(block, 8));
    LaneKeeps(v.v3, w.v3, ReadLE64(block, 16));
    LaneKeeps(v.v4, w.v4, ReadLE64(block, 24));
  }

  lemma LaneKeeps(x: bv64, y: bv64, w: bv64)
    ensures Round(x, w) == Round(y, w) <==> x == y
  {
    hide Round;
    if Round(x, w) == Round(y, w) { RoundInjective(x, y, w, w); }
  }

  lemma LaneReads(x: bv64, v: bv64, w: bv64)
    ensures Round(x, v) == Round(x, w) <==> v == w
  {
    hide Round;
    if Round(x, v) == Round(x, w) { RoundInjective(x, x, v, w); }
  }

  /** Stripes that differ in one word make lanes that differ in one place. */
  lemma StripeDiffers(v: Lanes, a: Bytes, b: Bytes, j: nat)
    requires |a| == 32 && j < 4 && DifferAt(a, b, 8 * j, 8)
    ensures OneLane(Stripe(v, a), Stripe(v, b), j)
  {
    hide Round, ReadLE64;
    WordsDiffer(a, b, j);
    LaneReads(v.v1, ReadLE64(a, 0), ReadLE64(b, 0));
    LaneReads(v.v2, ReadLE64(a, 8), ReadLE64(b, 8));
    LaneReads(v.v3, ReadLE64(a, 16), ReadLE64(b, 16));
    LaneReads(v.v4, ReadLE64(a, 24), ReadLE64(b, 24));
  }

  lemma WordsDiffer(a: Bytes, b: Bytes, j: nat)
    requires |a| == 32 && j < 4 && DifferAt(a, b, 8 * j, 8)
    ensures ReadLE64(a, 0) == ReadLE64(b, 0) <==> j != 0
    ensures ReadLE64(a, 8) == ReadLE64(b, 8) <==> j != 1
    ensures ReadLE64(a, 16) == ReadLE64(b, 16) <==> j != 2
    ensures ReadLE64(a, 24) == ReadLE64(b, 24) <==> j != 3
  {
    hide ReadLE64;
    forall i: nat | i < 4 ensures ReadLE64(a, 8 * i) == ReadLE64(b, 8 * i) <==> i != j {
      Read8Same(a, b, 8 * i);
      if i < j { DifferHead(a, b, 8 * j, 8, 8 * i, 8); }
      if i > j { SameWithin(a, b, 8 * j + 8, 8 * i, 8); }
    }
    assert ReadLE64(a, 8 * 0) == ReadLE64(b, 8 * 0) <==> j != 0;
    assert ReadLE64(a, 8 * 1) == ReadLE64(b, 8 * 1) <==> j != 1;
    assert ReadLE64(a, 8 * 2) == ReadLE64(b, 8 * 2) <==> j != 2;
    assert ReadLE64(a, 8 * 3) == ReadLE64(b, 8 * 3) <==> j != 3;
  }

  lemma {:induction false} AbsorbKeeps(v: Lanes, w: Lanes, data: Bytes, j: nat)
    requires OneLane(v, w, j)
    ensures OneLane(Absorb(Stripe, 32, v, data), Absorb(Stripe, 32, w, data), j)
    decreases |data|
  {
    hide Stripe, OneLane;
    if |data| >= 32 {
      StripeKeeps(v, w, data[..32], j);
      AbsorbKeeps(Stripe(v, data[..32]), Stripe(w, data[..32]), data[32..], j);
    }
  }

  lemma WordOf(k: nat, len: nat)
    requires k % 8 == 0 && len % 32 == 0 && k + 8 <= len
    ensures len >= 32 && (len - 32) % 32 == 0
    ensures k < 32 ==> k % 32 / 8 == k / 8 < 4 && 8 * (k / 8) == k && k + 8 <= 32
    ensures k >= 32 ==> (k - 32) % 32 == k % 32 && (k - 32) % 8 == 0
  {}

  /** Two inputs that differ in one word of their stripes give lanes that differ in one place. */
  lemma {:induction false} AbsorbDiffers(v: Lanes, a: Bytes, b: Bytes, k: nat)
    requires |a| % 32 == 0 && k % 8 == 0 && DifferAt(a, b, k, 8)
    ensures OneLane(Absorb(Stripe, 32, v, a), Absorb(Stripe, 32, v, b), k % 32 / 8)
    decreases |a|
  {
    hide Stripe, OneLane, DifferAt;
    DifferBounds(a, b, k, 8);
    WordOf(k, |a|);
    if k < 32 {
      DifferTo(a, b, k, 8, 32);
      StripeDiffers(v, a[..32], b[..32], k / 8);
      AbsorbKeeps(Stripe(v, a[..32]), Stripe(v, b[..32]), a[32..], k / 8);
    } else {
      DifferFrom(a, b, k, 8, 32);
      AbsorbDiffers(Stripe(v, a[..32]), a[32..], b[32..], k - 32);
    }
  }

  /** Different lanes stay different, whatever follows. */
  lemma {:induction false} AbsorbInjective(v: Lanes, w: Lanes, data: Bytes)
    requires v != w
    ensures Absorb(Stripe, 32, v, data) != Absorb(Stripe, 32, w, data)
    decreases |data|
  {
    hide Stripe;
    if |data| >= 32 {
      if Stripe(v, data[..32]) == Stripe(w, data[..32]) { StripeInjective(v, w, data[..32], data[..32]); }
      AbsorbInjective(Stripe(v, data[..32]), Stripe(w, data[..32]), data[32..]);
    }
  }

  /** Two inputs that differ in one stripe only give different lanes. */
  lemma {:induction false} OneStripeCounts(v: Lanes, a: Bytes, b: Bytes, k: nat)
    requires |a| % 32 == 0 && k % 32 == 0 && DifferAt(a, b, k, 32)
    ensures Absorb(Stripe, 32, v, a) != Absorb(Stripe, 32, v, b)
    decreases |a|
  {
    hide Stripe, DifferAt;
    DifferBounds(a, b, k, 32);
    if k == 0 {
      FirstDiffers(a, b);
      if Stripe(v, a[..32]) == Stripe(v, b[..32]) { StripeInjective(v, v, a[..32], b[..32]); }
      AbsorbInjective(Stripe(v, a[..32]), Stripe(v, b[..32]), a[32..]);
    } else {
      NextStripe(k, |a|);
      DifferFrom(a, b, k, 32, 32);
      OneStripeCounts(Stripe(v, a[..32]), a[32..], b[32..], k - 32);
    }
  }

  lemma FirstDiffers(a: Bytes, b: Bytes)
    requires DifferAt(a, b, 0, 32)
    ensures a[..32] != b[..32] && a[32..] == b[32..]
  {
    assert a[0..32] == a[..32] && b[0..32] == b[..32];
  }

  lemma NextStripe(k: nat, len: nat)
    requires k > 0 && k % 32 == 0 && len % 32 == 0
    ensures k >= 32 && (k - 32) % 32 == 0 && (len >= 32 ==> (len - 32) % 32 == 0)
  {}

  // ---------- inputs ----------

  /** The hash value before the tail is mixed in. */
  function Lead(input: Bytes, seed: bv64): bv64 {
    AddLen(if |input| >= 32 then Merge(Absorb(Stripe, 32, Start(seed), input[..Whole(|input|, 32)])) else Short(seed), |input|)
  }

  lemma HashIs(input: Bytes, seed: bv64)
    ensures Hash(input, seed) == Finish(Lead(input, seed), input[Whole(|input|, 32)..], 0)
  {
    hide Finish, AddLen, Absorb, Merge, Start, Stripe, Short;
  }

  lemma LeadSame(a: Bytes, b: Bytes, seed: bv64)
    requires |a| == |b| && a[..Whole(|a|, 32)] == b[..Whole(|a|, 32)]
    ensures Lead(a, seed) == Lead(b, seed)
  {
    hide Stripe, Merge, Start, AddLen, Short, Absorb;
  }

  /** Two inputs of one length that differ in a single read behind the last whole stripe have different hashes. */
  lemma TailDiffers(a: Bytes, b: Bytes, seed: bv64, k: nat, n: nat)
    requires DifferAt(a, b, k, n) && k >= Whole(|a|, 32) && TailRead(|a| - Whole(|a|, 32), k - Whole(|a|, 32), n)
    ensures Hash(a, seed) != Hash(b, seed)
  {
    hide Finish, Lead, Hash, DifferAt, TailRead, Whole;
    DifferBounds(a, b, k, n);
    HashIs(a, seed);
    HashIs(b, seed);
    var w := Whole(|a|, 32);
    DifferFrom(a, b, k, n, w);
    LeadSame(a, b, seed);
    FinishDiffers(Lead(a, seed), a[w..], b[w..], 0, k - w, n);
  }

  lemma TailReadOf(len: nat, q: nat) returns (k: nat, n: nat)
    requires q < len
    ensures TailRead(len, k, n) && k <= q < k + n <= len
  {
    TailShape(len);
    if q < len - len % 8 {
      Eights(q - q % 8, len - len % 8);
      return q - q % 8, 8;
    }
    if q < len - len % 4 {
      return len - len % 8, 4;
    }
    return q, 1;
  }

  /** Two inputs that differ in exactly one byte, behind the last whole stripe, have different hashes. */
  lemma OneByteCounts(a: Bytes, b: Bytes, seed: bv64, q: nat)
    requires DifferAt(a, b, q, 1) && q >= Whole(|a|, 32)
    ensures Hash(a, seed) != Hash(b, seed)
  {
    hide Hash, TailRead, DifferAt, Whole;
    DifferBounds(a, b, q, 1);
    var w := Whole(|a|, 32);
    var k, n := TailReadOf(|a| - w, q - w);
    DifferWider(a, b, q, w + k, n);
    TailDiffers(a, b, seed, w + k, n);
  }
}
