/** Known digests of XXH64 (xxhash.h), which fix its constants. */
module Xxh64Answers {
  import opened XxhWords
  import opened Xxh64
  import opened Xxh64Laws

  lemma OneStripe(b: Bytes, seed: bv64)
    requires 32 <= |b| < 64
    ensures Lead(b, seed) == AddLen(Merge(Stripe(Start(seed), b)), |b|)
  {
    hide Stripe, Start, Merge, AddLen;
    StripeOfSlice(Start(seed), b);
    assert b[..32][..32] == b[..32];
    assert Absorb(Stripe, 32, Start(seed), b[..32]) == Absorb(Stripe, 32, Stripe(Start(seed), b[..32]), b[..32][32..]);
  }

  lemma StripeOfSlice(v: Lanes, b: Bytes)
    requires 32 <= |b|
    ensures Stripe(v, b[..32]) == Stripe(v, b)
  {
    hide Round, ReadLE64;
    ReadPrefix(b, 32, 0);
    ReadPrefix(b, 32, 8);
    ReadPrefix(b, 32, 16);
    ReadPrefix(b, 32, 24);
  }

  lemma ReadPrefix(b: Bytes, p: nat, i: nat)
    requires i + 8 <= p <= |b|
    ensures ReadLE64(b[..p], i) == ReadLE64(b, i)
  {
    hide Joined64;
  }

  lemma ReadRest(b: Bytes, w: nat, k: nat)
    requires w + k + 4 <= |b|
    ensures ReadLE32(b[w..], k) == ReadLE32(b, w + k)
    ensures w + k + 8 <= |b| ==> ReadLE64(b[w..], k) == ReadLE64(b, w + k)
  {
    hide Joined64;
  }

  lemma FinishDone(h: bv64, rest: Bytes)
    ensures Finish(h, rest, |rest|) == Avalanche(h)
  {}

  lemma Lengths()
    ensures Len64(0) == 0 && Len64(1) == 1 && Len64(32) == 32 && Len64(45) == 45
  {}

  lemma EmptySteps()
    ensures Plus64(0, 0x27D4EB2F165667C5) == 0x27D4EB2F165667C5 && Plus64(0x27D4EB2F165667C5, 0) == 0x27D4EB2F165667C5
    ensures XorShift64(0x27D4EB2F165667C5, 33) == 0x27D4EB2F05BC1252 && Times64(0x27D4EB2F05BC1252, 0xC2B2AE3D27D4EB4F) == 0xBEB13DDA13C2ED4E
    ensures XorShift64(0xBEB13DDA13C2ED4E, 29) == 0xBEB13DDFE64B039E && Times64(0xBEB13DDFE64B039E, 0x165667B19E3779F9) == 0xEF46DB37BE9E32AE
    ensures XorShift64(0xEF46DB37BE9E32AE, 32) == 0xEF46DB3751D8E999
  {}

  /** No input. */
  lemma Empty(b: Bytes)
    requires |b| == 0
    ensures Hash(b, 0) == 0xEF46DB3751D8E999
  {
    hide Times64, Plus64, Rotl64, XorShift64, Len64, Xor64, Finish, Absorb, ReadLE32, Joined64, Hash;
    EmptySteps();
    Lengths();
    HashIs(b, 0);
    var rest: Bytes := b[0..];
    FinishDone(0x27D4EB2F165667C5, rest);
  }

  lemma LetterASteps()
    ensures Plus64(0, 0x27D4EB2F165667C5) == 0x27D4EB2F165667C5 && Plus64(0x27D4EB2F165667C5, 1) == 0x27D4EB2F165667C6
    ensures Times64(97, 0x27D4EB2F165667C5) == 0x17AD1CD776BD51A5 && Xor64(0x27D4EB2F165667C6, 0x17AD1CD776BD51A5) == 0x3079F7F860EB3663
    ensures Rotl64(0x3079F7F860EB3663, 11) == 0xCFBFC30759B31983 && Times64(0xCFBFC30759B31983, 0x9E3779B185EBCA87) == 0xB86597E419D4D215
    ensures XorShift64(0xB86597E419D4D215, 33) == 0xB86597E445E619E7 && Times64(0xB86597E445E619E7, 0xC2B2AE3D27D4EB4F) == 0xD7858A2670150B49
    ensures XorShift64(0xD7858A2670150B49, 29) == 0xD7858A20CC395A7A && Times64(0xD7858A20CC395A7A, 0x165667B19E3779F9) == 0xD24EC4F17BC2AAAA
    ensures XorShift64(0xD24EC4F17BC2AAAA, 32) == 0xD24EC4F1A98C6E5B
  {}

  /** The letter a. */
  lemma LetterA(b: Bytes)
    requires |b| == 1 && b[0] == 97
    ensures Hash(b, 0) == 0xD24EC4F1A98C6E5B
  {
    hide Times64, Plus64, Rotl64, XorShift64, Len64, Xor64, Finish, Absorb, ReadLE32, Joined64, Hash;
    LetterASteps();
    Lengths();
    HashIs(b, 0);
    var rest: Bytes := b[0..];
    FinishSteps(0x27D4EB2F165667C6, rest, 0);
    assert Process1(0x27D4EB2F165667C6, rest, 0) == 0xB86597E419D4D215;
    FinishDone(0xB86597E419D4D215, rest);
  }

  lemma ZerosSteps1()
    ensures Joined64(0, 0) == 0 && Times64(0, 0xC2B2AE3D27D4EB4F) == 0 && Plus64(0x60EA27EEADC0B5D6, 0) == 0x60EA27EEADC0B5D6
    ensures Rotl64(0x60EA27EEADC0B5D6, 31) == 0x56E05AEB307513F7 && Times64(0x56E05AEB307513F7, 0x9E3779B185EBCA87) == 0x119361E2963B6D41
    ensures Plus64(0xC2B2AE3D27D4EB4F, 0) == 0xC2B2AE3D27D4EB4F && Rotl64(0xC2B2AE3D27D4EB4F, 31) == 0x93EA75A7E159571E
    ensures Times64(0x93EA75A7E159571E, 0x9E3779B185EBCA87) == 0x7F0E345BE3649CD2 && Plus64(0, 0) == 0 && Rotl64(0, 31) == 0
    ensures Times64(0, 0x9E3779B185EBCA87) == 0 && Plus64(0x61C8864E7A143579, 0) == 0x61C8864E7A143579
    ensures Rotl64(0x61C8864E7A143579, 31) == 0x3D0A1ABCB0E44327 && Times64(0x3D0A1ABCB0E44327, 0x9E3779B185EBCA87) == 0x6D7AD2794D292F91
    ensures Rotl64(0x119361E2963B6D41, 1) == 0x2326C3C52C76DA82 && Rotl64(0x7F0E345BE3649CD2, 7) == 0x871A2DF1B24E693F && Rotl64(0, 12) == 0
    ensures Rotl64(0x6D7AD2794D292F91, 18) == 0x49E534A4BE45B5EB && Plus64(0x2326C3C52C76DA82, 0x871A2DF1B24E693F) == 0xAA40F1B6DEC543C1
    ensures Plus64(0xAA40F1B6DEC543C1, 0) == 0xAA40F1B6DEC543C1
  {}

  lemma ZerosSteps2()
    ensures Plus64(0xAA40F1B6DEC543C1, 0x49E534A4BE45B5EB) == 0xF426265B9D0AF9AC
    ensures Times64(0x119361E2963B6D41, 0xC2B2AE3D27D4EB4F) == 0xB57AE22D4A75620F && Plus64(0, 0xB57AE22D4A75620F) == 0xB57AE22D4A75620F
    ensures Rotl64(0xB57AE22D4A75620F, 31) == 0xA53AB107DABD7116 && Times64(0xA53AB107DABD7116, 0x9E3779B185EBCA87) == 0xAFA65B9B1253FE9A
    ensures Xor64(0xF426265B9D0AF9AC, 0xAFA65B9B1253FE9A) == 0x5B807DC08F590736
    ensures Times64(0x5B807DC08F590736, 0x9E3779B185EBCA87) == 0x2FC99B768435697A
    ensures Plus64(0x2FC99B768435697A, 0x85EBCA77C2B2AE63) == 0xB5B565EE46E817DD
    ensures Times64(0x7F0E345BE3649CD2, 0xC2B2AE3D27D4EB4F) == 0x5AC33F5863E92ACE && Plus64(0, 0x5AC33F5863E92ACE) == 0x5AC33F5863E92ACE
    ensures Rotl64(0x5AC33F5863E92ACE, 31) == 0x31F495672D619FAC && Times64(0x31F495672D619FAC, 0x9E3779B185EBCA87) == 0x111445B5E55CEBB4
    ensures Xor64(0xB5B565EE46E817DD, 0x111445B5E55CEBB4) == 0xA4A1205BA3B4FC69
    ensures Times64(0xA4A1205BA3B4FC69, 0x9E3779B185EBCA87) == 0x08ABD35F64FEF55F
    ensures Plus64(0x08ABD35F64FEF55F, 0x85EBCA77C2B2AE63) == 0x8E979DD727B1A3C2 && Xor64(0x8E979DD727B1A3C2, 0) == 0x8E979DD727B1A3C2
    ensures Times64(0x8E979DD727B1A3C2, 0x9E3779B185EBCA87) == 0xD387A70F36FA6F4E
    ensures Plus64(0xD387A70F36FA6F4E, 0x85EBCA77C2B2AE63) == 0x59737186F9AD1DB1
    ensures Times64(0x6D7AD2794D292F91, 0xC2B2AE3D27D4EB4F) == 0xA5485D2B1973C8BF && Plus64(0, 0xA5485D2B1973C8BF) == 0xA5485D2B1973C8BF
  {}

  lemma ZerosSteps3()
    ensures Rotl64(0xA5485D2B1973C8BF, 31) == 0x8CB9E45FD2A42E95 && Times64(0x8CB9E45FD2A42E95, 0x9E3779B185EBCA87) == 0x862C55ACCD1D2293
    ensures Xor64(0x59737186F9AD1DB1, 0x862C55ACCD1D2293) == 0xDF5F242A34B03F22
    ensures Times64(0xDF5F242A34B03F22, 0x9E3779B185EBCA87) == 0x45D406ED78F81EEE
    ensures Plus64(0x45D406ED78F81EEE, 0x85EBCA77C2B2AE63) == 0xCBBFD1653BAACD51 && Plus64(0xCBBFD1653BAACD51, 32) == 0xCBBFD1653BAACD71
    ensures XorShift64(0xCBBFD1653BAACD71, 33) == 0xCBBFD1655E7525C3 && Times64(0xCBBFD1655E7525C3, 0xC2B2AE3D27D4EB4F) == 0xF7EA4738AA4CA82D
    ensures XorShift64(0xF7EA4738AA4CA82D, 29) == 0xF7EA473F151E91E8 && Times64(0xF7EA473F151E91E8, 0x165667B19E3779F9) == 0xF6E9BE5D868A92A8
    ensures XorShift64(0xF6E9BE5D868A92A8, 32) == 0xF6E9BE5D70632CF5
  {}

  lemma ZerosLead(b: Bytes)
    requires |b| == 32 && AllZero(b)
    ensures Lead(b, 0) == 0xCBBFD1653BAACD71
  {
    hide Times64, Plus64, Rotl64, XorShift64, Len64, Xor64, Finish, Absorb, ReadLE32, Joined64, Lead, Hash, AllZero;
    ZerosSteps1();
    ZerosSteps2();
    ZerosSteps3();
    ReadZero(b, 0);
    ReadZero(b, 4);
    ReadZero(b, 8);
    ReadZero(b, 12);
    ReadZero(b, 16);
    ReadZero(b, 20);
    ReadZero(b, 24);
    ReadZero(b, 28);
    Lengths();
    OneStripe(b, 0);
    assert Start(0) == Lanes(0x60EA27EEADC0B5D6, 0xC2B2AE3D27D4EB4F, 0, 0x61C8864E7A143579);
    assert Stripe(Lanes(0x60EA27EEADC0B5D6, 0xC2B2AE3D27D4EB4F, 0, 0x61C8864E7A143579), b) == Lanes(0x119361E2963B6D41, 0x7F0E345BE3649CD2, 0, 0x6D7AD2794D292F91);
    assert Merge(Lanes(0x119361E2963B6D41, 0x7F0E345BE3649CD2, 0, 0x6D7AD2794D292F91)) == 0xCBBFD1653BAACD51;
  }

  /** Thirty-two zero bytes. */
  lemma Zeros(b: Bytes)
    requires |b| == 32 && AllZero(b)
    ensures Hash(b, 0) == 0xF6E9BE5D70632CF5
  {
    hide Times64, Plus64, Rotl64, XorShift64, Len64, Xor64, Finish, Absorb, ReadLE32, Joined64, Hash, Lead, Merge, Stripe, Start, AllZero;
    ZerosSteps1();
    ZerosSteps2();
    ZerosSteps3();
    Lengths();
    HashIs(b, 0);
    ZerosLead(b);
    var rest: Bytes := b[32..];
    FinishDone(0xCBBFD1653BAACD71, rest);
  }

  lemma ThirtyTwoSteps1()
    ensures Joined64(0x03020100, 0x07060504) == 0x0706050403020100 && Times64(0x0706050403020100, 0xC2B2AE3D27D4EB4F) == 0x3B6643CF98894F00
    ensures Plus64(0x60EA27EEADC0B5D6, 0x3B6643CF98894F00) == 0x9C506BBE464A04D6 && Rotl64(0x9C506BBE464A04D6, 31) == 0x2325026B4E2835DF
    ensures Times64(0x2325026B4E2835DF, 0x9E3779B185EBCA87) == 0xF4B53B57406B5E99 && Joined64(0x0B0A0908, 0x0F0E0D0C) == 0x0F0E0D0C0B0A0908
    ensures Times64(0x0F0E0D0C0B0A0908, 0xC2B2AE3D27D4EB4F) == 0xFA0F577151032178
    ensures Plus64(0xC2B2AE3D27D4EB4F, 0xFA0F577151032178) == 0xBCC205AE78D80CC7 && Rotl64(0xBCC205AE78D80CC7, 31) == 0x3C6C0663DE6102D7
    ensures Times64(0x3C6C0663DE6102D7, 0x9E3779B185EBCA87) == 0xC3D34B511FC32561 && Joined64(0x13121110, 0x17161514) == 0x1716151413121110
    ensures Times64(0x1716151413121110, 0xC2B2AE3D27D4EB4F) == 0xB8B86B13097CF3F0 && Plus64(0, 0xB8B86B13097CF3F0) == 0xB8B86B13097CF3F0
    ensures Rotl64(0xB8B86B13097CF3F0, 31) == 0x84BE79F85C5C3589 && Times64(0x84BE79F85C5C3589, 0x9E3779B185EBCA87) == 0xCB26C007C8A1553F
    ensures Joined64(0x1B1A1918, 0x1F1E1D1C) == 0x1F1E1D1C1B1A1918 && Times64(0x1F1E1D1C1B1A1918, 0xC2B2AE3D27D4EB4F) == 0x77617EB4C1F6C668
    ensures Plus64(0x61C8864E7A143579, 0x77617EB4C1F6C668) == 0xD92A05033C0AFBE1 && Rotl64(0xD92A05033C0AFBE1, 31) == 0x9E057DF0EC950281
    ensures Times64(0x9E057DF0EC950281, 0x9E3779B185EBCA87) == 0x9A44D001A7F91C07
  {}

  lemma ThirtyTwoSteps2()
    ensures Rotl64(0xF4B53B57406B5E99, 1) == 0xE96A76AE80D6BD33 && Rotl64(0xC3D34B511FC32561, 7) == 0xE9A5A88FE192B0E1
    ensures Rotl64(0xCB26C007C8A1553F, 12) == 0x6C007C8A1553FCB2 && Rotl64(0x9A44D001A7F91C07, 18) == 0x40069FE4701E6913
    ensures Plus64(0xE96A76AE80D6BD33, 0xE9A5A88FE192B0E1) == 0xD3101F3E62696E14
    ensures Plus64(0xD3101F3E62696E14, 0x6C007C8A1553FCB2) == 0x3F109BC877BD6AC6
    ensures Plus64(0x3F109BC877BD6AC6, 0x40069FE4701E6913) == 0x7F173BACE7DBD3D9
    ensures Times64(0xF4B53B57406B5E99, 0xC2B2AE3D27D4EB4F) == 0x5CBBA4D816ACA437 && Plus64(0, 0x5CBBA4D816ACA437) == 0x5CBBA4D816ACA437
    ensures Rotl64(0x5CBBA4D816ACA437, 31) == 0x0B56521BAE5DD26C && Times64(0x0B56521BAE5DD26C, 0x9E3779B185EBCA87) == 0x9CD67B4D40A72EF4
    ensures Xor64(0x7F173BACE7DBD3D9, 0x9CD67B4D40A72EF4) == 0xE3C140E1A77CFD2D
    ensures Times64(0xE3C140E1A77CFD2D, 0x9E3779B185EBCA87) == 0x6F044589BBFE04BB
    ensures Plus64(0x6F044589BBFE04BB, 0x85EBCA77C2B2AE63) == 0xF4F010017EB0B31E
    ensures Times64(0xC3D34B511FC32561, 0xC2B2AE3D27D4EB4F) == 0xD3B6949AABDC93EF && Plus64(0, 0xD3B6949AABDC93EF) == 0xD3B6949AABDC93EF
    ensures Rotl64(0xD3B6949AABDC93EF, 31) == 0x55EE49F7E9DB4A4D && Times64(0x55EE49F7E9DB4A4D, 0x9E3779B185EBCA87) == 0xDD60FE6790F3F09B
    ensures Xor64(0xF4F010017EB0B31E, 0xDD60FE6790F3F09B) == 0x2990EE66EE434385
    ensures Times64(0x2990EE66EE434385, 0x9E3779B185EBCA87) == 0xB8CF2610CCD68D23
  {}

  lemma ThirtyTwoSteps3()
    ensures Plus64(0xB8CF2610CCD68D23, 0x85EBCA77C2B2AE63) == 0x3EBAF0888F893B86
    ensures Times64(0xCB26C007C8A1553F, 0xC2B2AE3D27D4EB4F) == 0xF36F432D34362371 && Plus64(0, 0xF36F432D34362371) == 0xF36F432D34362371
    ensures Rotl64(0xF36F432D34362371, 31) == 0x9A1B11B8F9B7A196 && Times64(0x9A1B11B8F9B7A196, 0x9E3779B185EBCA87) == 0xBD5C8ED0D808921A
    ensures Xor64(0x3EBAF0888F893B86, 0xBD5C8ED0D808921A) == 0x83E67E585781A99C
    ensures Times64(0x83E67E585781A99C, 0x9E3779B185EBCA87) == 0xD12207A333698944
    ensures Plus64(0xD12207A333698944, 0x85EBCA77C2B2AE63) == 0x570DD21AF61C37A7
    ensures Times64(0x9A44D001A7F91C07, 0xC2B2AE3D27D4EB4F) == 0x6A6A32EFC9661329 && Plus64(0, 0x6A6A32EFC9661329) == 0x6A6A32EFC9661329
    ensures Rotl64(0x6A6A32EFC9661329, 31) == 0xE4B30994B5351977 && Times64(0xE4B30994B5351977, 0x9E3779B185EBCA87) == 0x3AF12CA7A85553C1
    ensures Xor64(0x570DD21AF61C37A7, 0x3AF12CA7A85553C1) == 0x6DFCFEBD5E496466
    ensures Times64(0x6DFCFEBD5E496466, 0x9E3779B185EBCA87) == 0x425A1150C98E6DCA
    ensures Plus64(0x425A1150C98E6DCA, 0x85EBCA77C2B2AE63) == 0xC845DBC88C411C2D && Plus64(0xC845DBC88C411C2D, 32) == 0xC845DBC88C411C4D
    ensures XorShift64(0xC845DBC88C411C4D, 33) == 0xC845DBC8E863F1A9 && Times64(0xC845DBC8E863F1A9, 0xC2B2AE3D27D4EB4F) == 0xF3AB602D54A1B627
    ensures XorShift64(0xF3AB602D54A1B627, 29) == 0xF3AB602AC9FAB74D && Times64(0xF3AB602AC9FAB74D, 0x165667B19E3779F9) == 0xCBF59C51DD0AAEE5
  {}

  lemma ThirtyTwoSteps4()
    ensures XorShift64(0xCBF59C51DD0AAEE5, 32) == 0xCBF59C5116FF32B4
  {}

  lemma ThirtyTwoReads1(b: Bytes)
    requires |b| == 32 && CountsUp(b)
    ensures ReadLE32(b, 0) == 0x03020100 && ReadLE32(b, 4) == 0x07060504 && ReadLE32(b, 8) == 0x0B0A0908 && ReadLE32(b, 12) == 0x0F0E0D0C
  {}

  lemma ThirtyTwoReads2(b: Bytes)
    requires |b| == 32 && CountsUp(b)
    ensures ReadLE32(b, 16) == 0x13121110 && ReadLE32(b, 20) == 0x17161514 && ReadLE32(b, 24) == 0x1B1A1918 && ReadLE32(b, 28) == 0x1F1E1D1C
  {}

  lemma ThirtyTwoLead(b: Bytes)
    requires |b| == 32 && CountsUp(b)
    ensures Lead(b, 0) == 0xC845DBC88C411C4D
  {
    hide Times64, Plus64, Rotl64, XorShift64, Len64, Xor64, Finish, Absorb, ReadLE32, Joined64, Lead, Hash, CountsUp;
    ThirtyTwoSteps1();
    ThirtyTwoSteps2();
    ThirtyTwoSteps3();
    ThirtyTwoSteps4();
    ThirtyTwoReads1(b);
    ThirtyTwoReads2(b);
    Lengths();
    OneStripe(b, 0);
    assert Start(0) == Lanes(0x60EA27EEADC0B5D6, 0xC2B2AE3D27D4EB4F, 0, 0x61C8864E7A143579);
    assert Stripe(Lanes(0x60EA27EEADC0B5D6, 0xC2B2AE3D27D4EB4F, 0, 0x61C8864E7A143579), b) == Lanes(0xF4B53B57406B5E99, 0xC3D34B511FC32561, 0xCB26C007C8A1553F, 0x9A44D001A7F91C07);
    assert Merge(Lanes(0xF4B53B57406B5E99, 0xC3D34B511FC32561, 0xCB26C007C8A1553F, 0x9A44D001A7F91C07)) == 0xC845DBC88C411C2D;
  }

  /** The bytes 0 to 31. */
  lemma ThirtyTwo(b: Bytes)
    requires |b| == 32 && CountsUp(b)
    ensures Hash(b, 0) == 0xCBF59C5116FF32B4
  {
    hide Times64, Plus64, Rotl64, XorShift64, Len64, Xor64, Finish, Absorb, ReadLE32, Joined64, Hash, Lead, Merge, Stripe, Start, CountsUp;
    ThirtyTwoSteps1();
    ThirtyTwoSteps2();
    ThirtyTwoSteps3();
    ThirtyTwoSteps4();
    Lengths();
    HashIs(b, 0);
    ThirtyTwoLead(b);
    var rest: Bytes := b[32..];
    FinishDone(0xC845DBC88C411C4D, rest);
  }

  lemma SeededSteps1()
    ensures Joined64(0x03020100, 0x07060504) == 0x0706050403020100 && Times64(0x0706050403020100, 0xC2B2AE3D27D4EB4F) == 0x3B6643CF98894F00
    ensures Plus64(0xFF21A1A033AC805D, 0x3B6643CF98894F00) == 0x3A87E56FCC35CF5D && Rotl64(0x3A87E56FCC35CF5D, 31) == 0xE61AE7AE9D43F2B7
    ensures Times64(0xE61AE7AE9D43F2B7, 0x9E3779B185EBCA87) == 0xE902EF2C6D566481 && Joined64(0x0B0A0908, 0x0F0E0D0C) == 0x0F0E0D0C0B0A0908
    ensures Times64(0x0F0E0D0C0B0A0908, 0xC2B2AE3D27D4EB4F) == 0xFA0F577151032178
    ensures Plus64(0x60EA27EEADC0B5D6, 0xFA0F577151032178) == 0x5AF97F5FFEC3D74E && Rotl64(0x5AF97F5FFEC3D74E, 31) == 0xFF61EBA72D7CBFAF
    ensures Times64(0xFF61EBA72D7CBFAF, 0x9E3779B185EBCA87) == 0xB820FF264CAE2B49 && Joined64(0x13121110, 0x17161514) == 0x1716151413121110
    ensures Times64(0x1716151413121110, 0xC2B2AE3D27D4EB4F) == 0xB8B86B13097CF3F0
    ensures Plus64(0x9E3779B185EBCA87, 0xB8B86B13097CF3F0) == 0x56EFE4C48F68BE77 && Rotl64(0x56EFE4C48F68BE77, 31) == 0x47B45F3BAB77F262
    ensures Times64(0x47B45F3BAB77F262, 0x9E3779B185EBCA87) == 0x5DABED8E7B7825AE && Joined64(0x1B1A1918, 0x1F1E1D1C) == 0x1F1E1D1C1B1A1918
    ensures Times64(0x1F1E1D1C1B1A1918, 0xC2B2AE3D27D4EB4F) == 0x77617EB4C1F6C668 && Plus64(0, 0x77617EB4C1F6C668) == 0x77617EB4C1F6C668
    ensures Rotl64(0x77617EB4C1F6C668, 31) == 0x60FB63343BB0BF5A && Times64(0x60FB63343BB0BF5A, 0x9E3779B185EBCA87) == 0x2CC9FD885ACFEC76
  {}

  lemma SeededSteps2()
    ensures Rotl64(0xE902EF2C6D566481, 1) == 0xD205DE58DAACC903 && Rotl64(0xB820FF264CAE2B49, 7) == 0x107F93265715A4DC
    ensures Rotl64(0x5DABED8E7B7825AE, 12) == 0xBED8E7B7825AE5DA && Rotl64(0x2CC9FD885ACFEC76, 18) == 0xF6216B3FB1D8B327
    ensures Plus64(0xD205DE58DAACC903, 0x107F93265715A4DC) == 0xE285717F31C26DDF
    ensures Plus64(0xE285717F31C26DDF, 0xBED8E7B7825AE5DA) == 0xA15E5936B41D53B9
    ensures Plus64(0xA15E5936B41D53B9, 0xF6216B3FB1D8B327) == 0x977FC47665F606E0
    ensures Times64(0xE902EF2C6D566481, 0xC2B2AE3D27D4EB4F) == 0xD87FECABEDBF6ECF && Plus64(0, 0xD87FECABEDBF6ECF) == 0xD87FECABEDBF6ECF
    ensures Rotl64(0xD87FECABEDBF6ECF, 31) == 0xF6DFB767EC3FF655 && Times64(0xF6DFB767EC3FF655, 0x9E3779B185EBCA87) == 0x06BF4FAE5720F8D3
    ensures Xor64(0x977FC47665F606E0, 0x06BF4FAE5720F8D3) == 0x91C08BD832D6FE33
    ensures Times64(0x91C08BD832D6FE33, 0x9E3779B185EBCA87) == 0x588390CF4BC54AE5
    ensures Plus64(0x588390CF4BC54AE5, 0x85EBCA77C2B2AE63) == 0xDE6F5B470E77F948
    ensures Times64(0xB820FF264CAE2B49, 0xC2B2AE3D27D4EB4F) == 0x4F7ADC6E82EF5E87 && Plus64(0, 0x4F7ADC6E82EF5E87) == 0x4F7ADC6E82EF5E87
    ensures Rotl64(0x4F7ADC6E82EF5E87, 31) == 0x4177AF43A7BD6E37 && Times64(0x4177AF43A7BD6E37, 0x9E3779B185EBCA87) == 0x228B6736AD598501
    ensures Xor64(0xDE6F5B470E77F948, 0x228B6736AD598501) == 0xFCE43C71A32E7C49
    ensures Times64(0xFCE43C71A32E7C49, 0x9E3779B185EBCA87) == 0x87B6EC66BF98247F
  {}

  lemma SeededSteps3()
    ensures Plus64(0x87B6EC66BF98247F, 0x85EBCA77C2B2AE63) == 0x0DA2B6DE824AD2E2
    ensures Times64(0x5DABED8E7B7825AE, 0xC2B2AE3D27D4EB4F) == 0x4E26E6021AC25AB2 && Plus64(0, 0x4E26E6021AC25AB2) == 0x4E26E6021AC25AB2
    ensures Rotl64(0x4E26E6021AC25AB2, 31) == 0x0D612D5927137301 && Times64(0x0D612D5927137301, 0x9E3779B185EBCA87) == 0x373039240AEB6F87
    ensures Xor64(0x0DA2B6DE824AD2E2, 0x373039240AEB6F87) == 0x3A928FFA88A1BD65
    ensures Times64(0x3A928FFA88A1BD65, 0x9E3779B185EBCA87) == 0xCDE8C0A101739243
    ensures Plus64(0xCDE8C0A101739243, 0x85EBCA77C2B2AE63) == 0x53D48B18C42640A6
    ensures Times64(0x2CC9FD885ACFEC76, 0xC2B2AE3D27D4EB4F) == 0xC521D5C4AFF24A6A && Plus64(0, 0xC521D5C4AFF24A6A) == 0xC521D5C4AFF24A6A
    ensures Rotl64(0xC521D5C4AFF24A6A, 31) == 0x57F925356290EAE2 && Times64(0x57F925356290EAE2, 0x9E3779B185EBCA87) == 0x77BABC3E5B38312E
    ensures Xor64(0x53D48B18C42640A6, 0x77BABC3E5B38312E) == 0x246E37269F1E7188
    ensures Times64(0x246E37269F1E7188, 0x9E3779B185EBCA87) == 0x9AB037E1CE7B2EB8
    ensures Plus64(0x9AB037E1CE7B2EB8, 0x85EBCA77C2B2AE63) == 0x209C0259912DDD1B && Plus64(0x209C0259912DDD1B, 45) == 0x209C0259912DDD48
    ensures Joined64(0x23222120, 0x27262524) == 0x2726252423222120 && Times64(0x2726252423222120, 0xC2B2AE3D27D4EB4F) == 0x360A92567A7098E0
    ensures Plus64(0, 0x360A92567A7098E0) == 0x360A92567A7098E0 && Rotl64(0x360A92567A7098E0, 31) == 0x3D384C701B05492B
  {}

  lemma SeededSteps4()
    ensures Times64(0x3D384C701B05492B, 0x9E3779B185EBCA87) == 0x8E6D3B08ECFE83AD
    ensures Xor64(0x209C0259912DDD48, 0x8E6D3B08ECFE83AD) == 0xAEF139517DD35EE5 && Rotl64(0xAEF139517DD35EE5, 27) == 0x8BEE9AF72D7789CA
    ensures Times64(0x8BEE9AF72D7789CA, 0x9E3779B185EBCA87) == 0xF2CD5834BB310D86
    ensures Plus64(0xF2CD5834BB310D86, 0x85EBCA77C2B2AE63) == 0x78B922AC7DE3BBE9
    ensures Times64(0x000000002B2A2928, 0x9E3779B185EBCA87) == 0x63C705E3976D4418
    ensures Xor64(0x78B922AC7DE3BBE9, 0x63C705E3976D4418) == 0x1B7E274FEA8EFFF1 && Rotl64(0x1B7E274FEA8EFFF1, 23) == 0xA7F5477FF88DBF13
    ensures Times64(0xA7F5477FF88DBF13, 0xC2B2AE3D27D4EB4F) == 0x850668ACF2E067DD
    ensures Plus64(0x850668ACF2E067DD, 0x165667B19E3779F9) == 0x9B5CD05E9117E1D6 && Times64(44, 0x27D4EB2F165667C5) == 0xD8986C17D6D9D5DC
    ensures Xor64(0x9B5CD05E9117E1D6, 0xD8986C17D6D9D5DC) == 0x43C4BC4947CE340A && Rotl64(0x43C4BC4947CE340A, 11) == 0x25E24A3E71A0521E
    ensures Times64(0x25E24A3E71A0521E, 0x9E3779B185EBCA87) == 0xA05FFA2963E0F9D2 && XorShift64(0xA05FFA2963E0F9D2, 33) == 0xA05FFA2933CF04C6
    ensures Times64(0xA05FFA2933CF04C6, 0xC2B2AE3D27D4EB4F) == 0x74842D9E243C3B1A && XorShift64(0x74842D9E243C3B1A, 29) == 0x74842D9D801D57EB
    ensures Times64(0x74842D9D801D57EB, 0x165667B19E3779F9) == 0xEDA3C8CB68959693 && XorShift64(0xEDA3C8CB68959693, 32) == 0xEDA3C8CB85365E58
  {}

  lemma SeededReads1(b: Bytes)
    requires |b| == 45 && CountsUp(b)
    ensures ReadLE32(b, 0) == 0x03020100 && ReadLE32(b, 4) == 0x07060504 && ReadLE32(b, 8) == 0x0B0A0908 && ReadLE32(b, 12) == 0x0F0E0D0C
  {}

  lemma SeededReads2(b: Bytes)
    requires |b| == 45 && CountsUp(b)
    ensures ReadLE32(b, 16) == 0x13121110 && ReadLE32(b, 20) == 0x17161514 && ReadLE32(b, 24) == 0x1B1A1918 && ReadLE32(b, 28) == 0x1F1E1D1C
  {}

  lemma SeededReads3(b: Bytes)
    requires |b| == 45 && CountsUp(b)
    ensures ReadLE32(b, 32) == 0x23222120 && ReadLE32(b, 36) == 0x27262524 && ReadLE32(b, 40) == 0x2B2A2928
  {}

  lemma SeededLead(b: Bytes)
    requires |b| == 45 && CountsUp(b)
    ensures Lead(b, 0x9E3779B185EBCA87) == 0x209C0259912DDD48
  {
    hide Times64, Plus64, Rotl64, XorShift64, Len64, Xor64, Finish, Absorb, ReadLE32, Joined64, Lead, Hash, CountsUp;
    SeededSteps1();
    SeededSteps2();
    SeededSteps3();
    SeededSteps4();
    SeededReads1(b);
    SeededReads2(b);
    SeededReads3(b);
    Lengths();
    OneStripe(b, 0x9E3779B185EBCA87);
    assert Start(0x9E3779B185EBCA87) == Lanes(0xFF21A1A033AC805D, 0x60EA27EEADC0B5D6, 0x9E3779B185EBCA87, 0);
    assert Stripe(Lanes(0xFF21A1A033AC805D, 0x60EA27EEADC0B5D6, 0x9E3779B185EBCA87, 0), b) == Lanes(0xE902EF2C6D566481, 0xB820FF264CAE2B49, 0x5DABED8E7B7825AE, 0x2CC9FD885ACFEC76);
    assert Merge(Lanes(0xE902EF2C6D566481, 0xB820FF264CAE2B49, 0x5DABED8E7B7825AE, 0x2CC9FD885ACFEC76)) == 0x209C0259912DDD1B;
  }

  /** The bytes 0 to 44, a stripe, eight bytes, four bytes and one, with a seed. */
  lemma Seeded(b: Bytes)
    requires |b| == 45 && CountsUp(b)
    ensures Hash(b, 0x9E3779B185EBCA87) == 0xEDA3C8CB85365E58
  {
    hide Times64, Plus64, Rotl64, XorShift64, Len64, Xor64, Finish, Absorb, ReadLE32, Joined64, Hash, Lead, Merge, Stripe, Start, CountsUp;
    SeededSteps1();
    SeededSteps2();
    SeededSteps3();
    SeededSteps4();
    SeededReads1(b);
    SeededReads2(b);
    SeededReads3(b);
    Lengths();
    HashIs(b, 0x9E3779B185EBCA87);
    SeededLead(b);
    var rest: Bytes := b[32..];
    ReadRest(b, 32, 0);
    FinishSteps(0x209C0259912DDD48, rest, 0);
    assert Process8(0x209C0259912DDD48, rest, 0) == 0x78B922AC7DE3BBE9;
    ReadRest(b, 32, 8);
    FinishSteps(0x78B922AC7DE3BBE9, rest, 8);
    assert Process4(0x78B922AC7DE3BBE9, rest, 8) == 0x9B5CD05E9117E1D6;
    ByteAt(b, 32, 12, 44);
    FinishSteps(0x9B5CD05E9117E1D6, rest, 12);
    assert Process1(0x9B5CD05E9117E1D6, rest, 12) == 0xA05FFA2963E0F9D2;
    FinishDone(0xA05FFA2963E0F9D2, rest);
  }
}
