/** Known digests of XXH32 (xxhash.h), which fix its constants. */
module Xxh32Answers {
  import opened XxhWords
  import opened Xxh32
  import opened Xxh32Laws

  lemma OneStripe(b: Bytes, seed: bv32)
    requires 16 <= |b| < 32
    ensures Lead(b, seed) == AddLen(Merge(Stripe(Start(seed), b)), |b|)
  {
    hide Stripe, Start, Merge, AddLen;
    StripeOfSlice(Start(seed), b);
    assert b[..16][..16] == b[..16];
    assert Absorb(Stripe, 16, Start(seed), b[..16]) == Absorb(Stripe, 16, Stripe(Start(seed), b[..16]), b[..16][16..]);
  }

  lemma StripeOfSlice(v: Lanes, b: Bytes)
    requires 16 <= |b|
    ensures Stripe(v, b[..16]) == Stripe(v, b)
  {
    hide Round, ReadLE32;
    ReadPrefix(b, 16, 0);
    ReadPrefix(b, 16, 4);
    ReadPrefix(b, 16, 8);
    ReadPrefix(b, 16, 12);
  }

  lemma ReadPrefix(b: Bytes, p: nat, i: nat)
    requires i + 4 <= p <= |b|
    ensures ReadLE32(b[..p], i) == ReadLE32(b, i)
  {}

  lemma ReadRest(b: Bytes, w: nat, k: nat)
    requires w + k + 4 <= |b|
    ensures ReadLE32(b[w..], k) == ReadLE32(b, w + k)
  {}

  lemma FinishDone(h: bv32, rest: Bytes)
    ensures Finish(h, rest, |rest|) == Avalanche(h)
  {}

  lemma Lengths()
    ensures Len32(0) == 0 && Len32(1) == 1 && Len32(16) == 16 && Len32(23) == 23
  {}

  lemma EmptySteps()
    ensures Plus32(0, 0x165667B1) == 0x165667B1 && Plus32(0x165667B1, 0) == 0x165667B1 && XorShift32(0x165667B1, 15) == 0x16564B1D
    ensures Times32(0x16564B1D, 0x85EBCA77) == 0x7E00CC7B && XorShift32(0x7E00CC7B, 13) == 0x7E033C7D
    ensures Times32(0x7E033C7D, 0xC2B2AE3D) == 0x02CC5FC9 && XorShift32(0x02CC5FC9, 16) == 0x02CC5D05
  {}

  /** No input. */
  lemma Empty(b: Bytes)
    requires |b| == 0
    ensures Hash(b, 0) == 0x02CC5D05
  {
    hide Times32, Plus32, Rotl32, XorShift32, Len32, Finish, Absorb, ReadLE32, Hash;
    EmptySteps();
    Lengths();
    HashIs(b, 0);
    var rest: Bytes := b[0..];
    FinishDone(0x165667B1, rest);
  }

  lemma LetterASteps()
    ensures Plus32(0, 0x165667B1) == 0x165667B1 && Plus32(0x165667B1, 1) == 0x165667B2 && Times32(97, 0x165667B1) == 0x76BD4A11
    ensures Plus32(0x165667B2, 0x76BD4A11) == 0x8D13B1C3 && Rotl32(0x8D13B1C3, 11) == 0x9D8E1C68 && Times32(0x9D8E1C68, 0x9E3779B1) == 0x6506CBE8
    ensures XorShift32(0x6506CBE8, 15) == 0x650601E5 && Times32(0x650601E5, 0x85EBCA77) == 0x69809373 && XorShift32(0x69809373, 13) == 0x6983DF77
    ensures Times32(0x6983DF77, 0xC2B2AE3D) == 0x550D215B && XorShift32(0x550D215B, 16) == 0x550D7456
  {}

  /** The letter a. */
  lemma LetterA(b: Bytes)
    requires |b| == 1 && b[0] == 97
    ensures Hash(b, 0) == 0x550D7456
  {
    hide Times32, Plus32, Rotl32, XorShift32, Len32, Finish, Absorb, ReadLE32, Hash;
    LetterASteps();
    Lengths();
    HashIs(b, 0);
    var rest: Bytes := b[0..];
    FinishSteps(0x165667B2, rest, 0);
    assert Process1(0x165667B2, rest, 0) == 0x6506CBE8;
    FinishDone(0x6506CBE8, rest);
  }

  lemma ZerosSteps1()
    ensures Times32(0, 0x85EBCA77) == 0 && Plus32(0x24234428, 0) == 0x24234428 && Rotl32(0x24234428, 13) == 0x68850484
    ensures Times32(0x68850484, 0x9E3779B1) == 0x93768344 && Plus32(0x85EBCA77, 0) == 0x85EBCA77 && Rotl32(0x85EBCA77, 13) == 0x794EF0BD
    ensures Times32(0x794EF0BD, 0x9E3779B1) == 0x8DF8C7AD && Plus32(0, 0) == 0 && Rotl32(0, 13) == 0 && Times32(0, 0x9E3779B1) == 0
    ensures Plus32(0x61C8864F, 0) == 0x61C8864F && Rotl32(0x61C8864F, 13) == 0x10C9EC39 && Times32(0x10C9EC39, 0x9E3779B1) == 0xFA824469
    ensures Rotl32(0x93768344, 1) == 0x26ED0689 && Rotl32(0x8DF8C7AD, 7) == 0xFC63D6C6 && Rotl32(0, 12) == 0
    ensures Rotl32(0xFA824469, 18) == 0x11A7EA09 && Plus32(0x26ED0689, 0xFC63D6C6) == 0x2350DD4F && Plus32(0x2350DD4F, 0) == 0x2350DD4F
    ensures Plus32(0x2350DD4F, 0x11A7EA09) == 0x34F8C758
  {}

  lemma ZerosSteps2()
    ensures Plus32(0x34F8C758, 16) == 0x34F8C768 && XorShift32(0x34F8C768, 15) == 0x34F8AE99 && Times32(0x34F8AE99, 0x85EBCA77) == 0x9CD0E31F
    ensures XorShift32(0x9CD0E31F, 13) == 0x9CD40598 && Times32(0x9CD40598, 0xC2B2AE3D) == 0x8E02A538 && XorShift32(0x8E02A538, 16) == 0x8E022B3A
  {}

  lemma ZerosLead(b: Bytes)
    requires |b| == 16 && AllZero(b)
    ensures Lead(b, 0) == 0x34F8C768
  {
    hide Times32, Plus32, Rotl32, XorShift32, Len32, Finish, Absorb, ReadLE32, Lead, Hash, AllZero;
    ZerosSteps1();
    ZerosSteps2();
    ReadZero(b, 0);
    ReadZero(b, 4);
    ReadZero(b, 8);
    ReadZero(b, 12);
    Lengths();
    OneStripe(b, 0);
    assert Start(0) == Lanes(0x24234428, 0x85EBCA77, 0, 0x61C8864F);
    assert Stripe(Lanes(0x24234428, 0x85EBCA77, 0, 0x61C8864F), b) == Lanes(0x93768344, 0x8DF8C7AD, 0, 0xFA824469);
    assert Merge(Lanes(0x93768344, 0x8DF8C7AD, 0, 0xFA824469)) == 0x34F8C758;
  }

  /** Sixteen zero bytes. */
  lemma Zeros(b: Bytes)
    requires |b| == 16 && AllZero(b)
    ensures Hash(b, 0) == 0x8E022B3A
  {
    hide Times32, Plus32, Rotl32, XorShift32, Len32, Finish, Absorb, ReadLE32, Hash, Lead, Merge, Stripe, Start, AllZero;
    ZerosSteps1();
    ZerosSteps2();
    Lengths();
    HashIs(b, 0);
    ZerosLead(b);
    var rest: Bytes := b[16..];
    FinishDone(0x34F8C768, rest);
  }

  lemma SixteenSteps1()
    ensures Times32(0x03020100, 0x85EBCA77) == 0xE5B87700 && Plus32(0x24234428, 0xE5B87700) == 0x09DBBB28 && Rotl32(0x09DBBB28, 13) == 0x7765013B
    ensures Times32(0x7765013B, 0x9E3779B1) == 0xF817BCCB && Times32(0x07060504, 0x85EBCA77) == 0xB26D7CDC
    ensures Plus32(0x85EBCA77, 0xB26D7CDC) == 0x38594753 && Rotl32(0x38594753, 13) == 0x28EA670B && Times32(0x28EA670B, 0x9E3779B1) == 0x0222719B
    ensures Times32(0x0B0A0908, 0x85EBCA77) == 0x7F2282B8 && Plus32(0, 0x7F2282B8) == 0x7F2282B8 && Rotl32(0x7F2282B8, 13) == 0x50570FE4
    ensures Times32(0x50570FE4, 0x9E3779B1) == 0xD4B0C0A4 && Times32(0x0F0E0D0C, 0x85EBCA77) == 0x4BD78894
    ensures Plus32(0x61C8864F, 0x4BD78894) == 0xADA00EE3 && Rotl32(0xADA00EE3, 13) == 0x01DC75B4 && Times32(0x01DC75B4, 0x9E3779B1) == 0xDEBB7574
    ensures Rotl32(0xF817BCCB, 1) == 0xF02F7997 && Rotl32(0x0222719B, 7) == 0x1138CD81 && Rotl32(0xD4B0C0A4, 12) == 0x0C0A4D4B
    ensures Rotl32(0xDEBB7574, 18) == 0xD5D37AED
  {}

  lemma SixteenSteps2()
    ensures Plus32(0xF02F7997, 0x1138CD81) == 0x01684718 && Plus32(0x01684718, 0x0C0A4D4B) == 0x0D729463
    ensures Plus32(0x0D729463, 0xD5D37AED) == 0xE3460F50 && Plus32(0xE3460F50, 16) == 0xE3460F60 && XorShift32(0xE3460F60, 15) == 0xE347C9EC
    ensures Times32(0xE347C9EC, 0x85EBCA77) == 0x435714B4 && XorShift32(0x435714B4, 13) == 0x43550E0C
    ensures Times32(0x43550E0C, 0xC2B2AE3D) == 0xB72880DC && XorShift32(0xB72880DC, 16) == 0xB72837F4
  {}

  lemma SixteenReads(b: Bytes)
    requires |b| == 16 && CountsUp(b)
    ensures ReadLE32(b, 0) == 0x03020100 && ReadLE32(b, 4) == 0x07060504 && ReadLE32(b, 8) == 0x0B0A0908 && ReadLE32(b, 12) == 0x0F0E0D0C
  {}

  lemma SixteenLead(b: Bytes)
    requires |b| == 16 && CountsUp(b)
    ensures Lead(b, 0) == 0xE3460F60
  {
    hide Times32, Plus32, Rotl32, XorShift32, Len32, Finish, Absorb, ReadLE32, Lead, Hash, CountsUp;
    SixteenSteps1();
    SixteenSteps2();
    SixteenReads(b);
    Lengths();
    OneStripe(b, 0);
    assert Start(0) == Lanes(0x24234428, 0x85EBCA77, 0, 0x61C8864F);
    assert Stripe(Lanes(0x24234428, 0x85EBCA77, 0, 0x61C8864F), b) == Lanes(0xF817BCCB, 0x0222719B, 0xD4B0C0A4, 0xDEBB7574);
    assert Merge(Lanes(0xF817BCCB, 0x0222719B, 0xD4B0C0A4, 0xDEBB7574)) == 0xE3460F50;
  }

  /** The bytes 0 to 15. */
  lemma Sixteen(b: Bytes)
    requires |b| == 16 && CountsUp(b)
    ensures Hash(b, 0) == 0xB72837F4
  {
    hide Times32, Plus32, Rotl32, XorShift32, Len32, Finish, Absorb, ReadLE32, Hash, Lead, Merge, Stripe, Start, CountsUp;
    SixteenSteps1();
    SixteenSteps2();
    Lengths();
    HashIs(b, 0);
    SixteenLead(b);
    var rest: Bytes := b[16..];
    FinishDone(0xE3460F60, rest);
  }

  lemma SeededSteps1()
    ensures Times32(0x03020100, 0x85EBCA77) == 0xE5B87700 && Plus32(0xC25ABDD9, 0xE5B87700) == 0xA81334D9 && Rotl32(0xA81334D9, 13) == 0x669B3502
    ensures Times32(0x669B3502, 0x9E3779B1) == 0xECCB9862 && Times32(0x07060504, 0x85EBCA77) == 0xB26D7CDC
    ensures Plus32(0x24234428, 0xB26D7CDC) == 0xD690C104 && Rotl32(0xD690C104, 13) == 0x18209AD2 && Times32(0x18209AD2, 0x9E3779B1) == 0xF6D64D32
    ensures Times32(0x0B0A0908, 0x85EBCA77) == 0x7F2282B8 && Plus32(0x9E3779B1, 0x7F2282B8) == 0x1D59FC69 && Rotl32(0x1D59FC69, 13) == 0x3F8D23AB
    ensures Times32(0x3F8D23AB, 0x9E3779B1) == 0xDA2E7C3B && Times32(0x0F0E0D0C, 0x85EBCA77) == 0x4BD78894 && Plus32(0, 0x4BD78894) == 0x4BD78894
    ensures Rotl32(0x4BD78894, 13) == 0xF112897A && Times32(0xF112897A, 0x9E3779B1) == 0x4601B75A && Rotl32(0xECCB9862, 1) == 0xD99730C5
    ensures Rotl32(0xF6D64D32, 7) == 0x6B26997B && Rotl32(0xDA2E7C3B, 12) == 0xE7C3BDA2 && Rotl32(0x4601B75A, 18) == 0xDD691806
  {}

  lemma SeededSteps2()
    ensures Plus32(0xD99730C5, 0x6B26997B) == 0x44BDCA40 && Plus32(0x44BDCA40, 0xE7C3BDA2) == 0x2C8187E2
    ensures Plus32(0x2C8187E2, 0xDD691806) == 0x09EA9FE8 && Plus32(0x09EA9FE8, 23) == 0x09EA9FFF && Times32(0x13121110, 0xC2B2AE3D) == 0xD006F0D0
    ensures Plus32(0x09EA9FFF, 0xD006F0D0) == 0xD9F190CF && Rotl32(0xD9F190CF, 17) == 0x219FB3E3 && Times32(0x219FB3E3, 0x27D4EB2F) == 0x536F67AD
    ensures Times32(20, 0x165667B1) == 0xBEC019D4 && Plus32(0x536F67AD, 0xBEC019D4) == 0x122F8181 && Rotl32(0x122F8181, 11) == 0x7C0C0891
    ensures Times32(0x7C0C0891, 0x9E3779B1) == 0xC9857541 && Times32(21, 0x165667B1) == 0xD5168185 && Plus32(0xC9857541, 0xD5168185) == 0x9E9BF6C6
    ensures Rotl32(0x9E9BF6C6, 11) == 0xDFB634F4 && Times32(0xDFB634F4, 0x9E3779B1) == 0xC46DF0B4 && Times32(22, 0x165667B1) == 0xEB6CE936
    ensures Plus32(0xC46DF0B4, 0xEB6CE936) == 0xAFDAD9EA && Rotl32(0xAFDAD9EA, 11) == 0xD6CF557E && Times32(0xD6CF557E, 0x9E3779B1) == 0xA6D4AA1E
  {}

  lemma SeededSteps3()
    ensures XorShift32(0xA6D4AA1E, 15) == 0xA6D5E7B7 && Times32(0xA6D5E7B7, 0x85EBCA77) == 0x1E421C11 && XorShift32(0x1E421C11, 13) == 0x1E42EE01
    ensures Times32(0x1E42EE01, 0xC2B2AE3D) == 0xF269643D && XorShift32(0xF269643D, 16) == 0xF2699654
  {}

  lemma SeededReads1(b: Bytes)
    requires |b| == 23 && CountsUp(b)
    ensures ReadLE32(b, 0) == 0x03020100 && ReadLE32(b, 4) == 0x07060504 && ReadLE32(b, 8) == 0x0B0A0908 && ReadLE32(b, 12) == 0x0F0E0D0C
  {}

  lemma SeededReads2(b: Bytes)
    requires |b| == 23 && CountsUp(b)
    ensures ReadLE32(b, 16) == 0x13121110
  {}

  lemma SeededLead(b: Bytes)
    requires |b| == 23 && CountsUp(b)
    ensures Lead(b, 0x9E3779B1) == 0x09EA9FFF
  {
    hide Times32, Plus32, Rotl32, XorShift32, Len32, Finish, Absorb, ReadLE32, Lead, Hash, CountsUp;
    SeededSteps1();
    SeededSteps2();
    SeededSteps3();
    SeededReads1(b);
    SeededReads2(b);
    Lengths();
    OneStripe(b, 0x9E3779B1);
    assert Start(0x9E3779B1) == Lanes(0xC25ABDD9, 0x24234428, 0x9E3779B1, 0);
    assert Stripe(Lanes(0xC25ABDD9, 0x24234428, 0x9E3779B1, 0), b) == Lanes(0xECCB9862, 0xF6D64D32, 0xDA2E7C3B, 0x4601B75A);
    assert Merge(Lanes(0xECCB9862, 0xF6D64D32, 0xDA2E7C3B, 0x4601B75A)) == 0x09EA9FE8;
  }

  /** The bytes 0 to 22, a stripe, a word and three bytes, with a seed. */
  lemma Seeded(b: Bytes)
    requires |b| == 23 && CountsUp(b)
    ensures Hash(b, 0x9E3779B1) == 0xF2699654
  {
    hide Times32, Plus32, Rotl32, XorShift32, Len32, Finish, Absorb, ReadLE32, Hash, Lead, Merge, Stripe, Start, CountsUp;
    SeededSteps1();
    SeededSteps2();
    SeededSteps3();
    SeededReads1(b);
    SeededReads2(b);
    Lengths();
    HashIs(b, 0x9E3779B1);
    SeededLead(b);
    var rest: Bytes := b[16..];
    ReadRest(b, 16, 0);
    FinishSteps(0x09EA9FFF, rest, 0);
    assert Process4(0x09EA9FFF, rest, 0) == 0x536F67AD;
    ByteAt(b, 16, 4, 20);
    FinishSteps(0x536F67AD, rest, 4);
    assert Process1(0x536F67AD, rest, 4) == 0xC9857541;
    ByteAt(b, 16, 5, 21);
    FinishSteps(0xC9857541, rest, 5);
    assert Process1(0xC9857541, rest, 5) == 0xC46DF0B4;
    ByteAt(b, 16, 6, 22);
    FinishSteps(0xC46DF0B4, rest, 6);
    assert Process1(0xC46DF0B4, rest, 6) == 0xA6D4AA1E;
    FinishDone(0xA6D4AA1E, rest);
  }
}
