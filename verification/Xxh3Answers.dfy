/** Known digests of XXH3 (xxhash.h) for up to 240 bytes, one for each class of lengths, which fix its constants. */
module Xxh3Answers {
  import opened XxhWords
  import opened Xxh3Mix
  import opened Xxh3
  import opened Xxh3SecretWords
  import Xxh64

  // ---------- short inputs ----------

  lemma EmptyMixedSteps()
    ensures XorShift64(0x8726F9105DC21DDC, 33) == 0x8726F9101E516154 && Times64(0x8726F9101E516154, 0xC2B2AE3D27D4EB4F) == 0x0F93720A750524EC
    ensures XorShift64(0x0F93720A750524EC, 29) == 0x0F93720A099EB4BF && Times64(0x0F93720A099EB4BF, 0x165667B19E3779F9) == 0x2D06800515D514C7
    ensures XorShift64(0x2D06800515D514C7, 32) == 0x2D06800538D394C2
  {}

  lemma EmptyMixed()
    ensures Xxh64.Avalanche(0x8726F9105DC21DDC) == 0x2D06800538D394C2
  {
    hide XorShift64, Times64;
    EmptyMixedSteps();
  }

  lemma EmptyWord()
    ensures Xor64(0x4C263A81E69035E0, 0xCB00C391BB52283C) == 0x8726F9105DC21DDC
  {}

  /** No input. */
  lemma Empty(b: Bytes)
    requires |b| == 0
    ensures Hash(b, DefaultSecret(), 0) == 0x2D06800538D394C2
  {
    hide Xxh64.Avalanche, DefaultSecret, ReadLE64, Xor64;
    Secret5();
    Secret6();
    EmptyWord();
    NoRest(0x8726F9105DC21DDC);
    EmptyMixed();
  }

  lemma FirstHalves()
    ensures ReadLE32(DefaultSecret(), 0) == 0x396CFEB8 && ReadLE32(DefaultSecret(), 4) == 0xBE4BA423
  {
    hide FourBytes, SecretAt, Joined64, ReadLE32, DefaultSecret;
    Halves1();
    SecretHalf(0);
    SecretHalf(4);
  }

  lemma LetterAMixedSteps()
    ensures XorShift64(0x00000000E6465BFA, 33) == 0x00000000E6465BFA && Times64(0x00000000E6465BFA, 0xC2B2AE3D27D4EB4F) == 0x3CF01482E72CE026
    ensures XorShift64(0x3CF01482E72CE026, 29) == 0x3CF0148300AC4431 && Times64(0x3CF0148300AC4431, 0x165667B19E3779F9) == 0xE6C632B6F8507CA9
    ensures XorShift64(0xE6C632B6F8507CA9, 32) == 0xE6C632B61E964E1F
  {}

  lemma LetterAMixed()
    ensures Xxh64.Avalanche(0x00000000E6465BFA) == 0xE6C632B61E964E1F
  {
    hide XorShift64, Times64;
    LetterAMixedSteps();
  }

  lemma LetterAWords()
    ensures Len32(1) == 1 && Combined(97, 97, 97, 1) == 0x61610161
    ensures FlipWord(0x396CFEB8, 0xBE4BA423) == 0x0000000087275A9B && Flipped(0x61610161, 0x0000000087275A9B, 0) == 0x00000000E6465BFA
  {}

  /** The letter a. */
  lemma LetterA(b: Bytes)
    requires |b| == 1 && b[0] == 97
    ensures Hash(b, DefaultSecret(), 0) == 0xE6C632B61E964E1F
  {
    hide Xxh64.Avalanche, DefaultSecret, ReadLE32, Combined, Flipped, FlipWord, Len32;
    FirstHalves();
    LetterAWords();
    LetterAMixed();
  }

  lemma LettersAbcMixedSteps()
    ensures XorShift64(0x9E3779B26F722641, 33) == 0x9E3779B220699A98 && Times64(0x9E3779B220699A98, 0xC2B2AE3D27D4EB4F) == 0xD83525F21F603CE8
    ensures XorShift64(0xD83525F21F603CE8, 29) == 0xD83525F4DEC91378 && Times64(0xD83525F4DEC91378, 0x165667B19E3779F9) == 0x7DEA5DA8FA8FA7B8
    ensures XorShift64(0x7DEA5DA8FA8FA7B8, 32) == 0x7DEA5DA88765FA10
  {}

  lemma LettersAbcMixed()
    ensures Xxh64.Avalanche(0x9E3779B26F722641) == 0x7DEA5DA88765FA10
  {
    hide XorShift64, Times64;
    LettersAbcMixedSteps();
  }

  lemma LettersAbcWords()
    ensures Len32(3) == 3 && Combined(97, 98, 99, 3) == 0x62610363
    ensures FlipWord(0x396CFEB8, 0xBE4BA423) == 0x0000000087275A9B && Flipped(0x62610363, 0x0000000087275A9B, 0x9E3779B185EBCA87) == 0x9E3779B26F722641
  {}

  /** The letters abc, with a seed. */
  lemma LettersAbc(b: Bytes)
    requires |b| == 3 && b[0] == 97 && b[1] == 98 && b[2] == 99
    ensures Hash(b, DefaultSecret(), 0x9E3779B185EBCA87) == 0x7DEA5DA88765FA10
  {
    hide Xxh64.Avalanche, DefaultSecret, ReadLE32, Combined, Flipped, FlipWord, Len32;
    FirstHalves();
    LettersAbcWords();
    LettersAbcMixed();
  }

  lemma SixSteps()
    ensures Spread(0x9E3779B185EBCA87) == 0x19FD923485EBCA87 && Xor64(0x1CAD21F72C81017C, 0xDB979083E96DD4DE) == 0xC73AB174C5ECD5A2
    ensures Minus(0xC73AB174C5ECD5A2, 0x19FD923485EBCA87) == 0xAD3D1F4040010B1B && Stacked(0x05040302, 0x03020100) == 0x0302010005040302 && Xor64(0x0302010005040302, 0xAD3D1F4040010B1B) == 0xAE3F1E4045050819
    ensures Rotated(0xAE3F1E4045050819) == 0xFE494736602BBD0D && Times64(0xFE494736602BBD0D, 0x9FB21C651E98DF25) == 0x7D26E4E2C5B8A5E1 && WithLen(0x7D26E4E2C5B8A5E1, 6) == 0x7D26E4E2CA1C7943
    ensures Times64(0x7D26E4E2CA1C7943, 0x9FB21C651E98DF25) == 0x3A6D2562DD86E3AF && XorShift64(0x3A6D2562DD86E3AF, 28) == 0x3A6D25617B54B582
  {}

  lemma SixReads(b: Bytes)
    requires |b| == 6 && CountsUp(b)
    ensures ReadLE32(b, 0) == 0x03020100 && ReadLE32(b, 2) == 0x05040302
  {}

  /** The bytes 0 to 5, with a seed. */
  lemma Six(b: Bytes)
    requires |b| == 6 && CountsUp(b)
    ensures Hash(b, DefaultSecret(), 0x9E3779B185EBCA87) == 0x3A6D25617B54B582
  {
    hide DefaultSecret, ReadLE32, ReadLE64, Spread, Xor64, Minus, Stacked, Rotated, Times64, WithLen, XorShift64, Len64, CountsUp;
    Lengths();
    SixReads(b);
    Secret1();
    Secret2();
    SixSteps();
  }

  lemma SixteenMixedSteps()
    ensures XorShift64(0x6465A49A35717B91, 37) == 0x6465A49A365256B5 && Times64(0x6465A49A365256B5, 0x165667919E3779F9) == 0xD0A66A6517F4E30D
    ensures XorShift64(0xD0A66A6517F4E30D, 32) == 0xD0A66A65C7528968
  {}

  lemma SixteenMixed()
    ensures Avalanche(0x6465A49A35717B91) == 0xD0A66A65C7528968
  {
    hide XorShift64, Times64;
    SixteenMixedSteps();
  }

  lemma SixteenSteps()
    ensures Xor64(0x1F67B3B7A4A44072, 0x78E5C0CC4EE679CB) == 0x6782737BEA4239B9 && Plus64(0x6782737BEA4239B9, 0) == 0x6782737BEA4239B9 && Xor64(0, 0x6782737BEA4239B9) == 0x6782737BEA4239B9
    ensures Xor64(0x2172FFCC7DD05A82, 0x8E2443F7744608B8) == 0xAF56BC3B0996523A && Minus(0xAF56BC3B0996523A, 0) == 0xAF56BC3B0996523A && Xor64(0, 0xAF56BC3B0996523A) == 0xAF56BC3B0996523A
    ensures Swap64(0x6782737BEA4239B9) == 0xB93942EA7B738267 && Plus64(16, 0xB93942EA7B738267) == 0xB93942EA7B738277 && Plus64(0xB93942EA7B738277, 0xAF56BC3B0996523A) == 0x688FFF258509D4B1 && Plus64(0x688FFF258509D4B1, 0xFBD5A574B067A6E0) == 0x6465A49A35717B91
  {}

  lemma SixteenProduct()
    ensures MulFold(0x6782737BEA4239B9, 0xAF56BC3B0996523A) == 0xFBD5A574B067A6E0
  {}

  lemma SixteenReads(b: Bytes)
    requires |b| == 16 && AllZero(b)
    ensures ReadLE64(b, 0) == 0 && ReadLE64(b, 8) == 0
  {}

  /** Sixteen zero bytes. */
  lemma Sixteen(b: Bytes)
    requires |b| == 16 && AllZero(b)
    ensures Hash(b, DefaultSecret(), 0) == 0xD0A66A65C7528968
  {
    hide DefaultSecret, ReadLE64, Xor64, Plus64, Minus, Swap64, MulFold, Avalanche, Len64, AllZero;
    Lengths();
    SixteenReads(b);
    Secret3();
    Secret4();
    Secret5();
    SixteenSteps();
    SixteenProduct();
    SixteenMixed();
  }

  lemma ElevenMixedSteps()
    ensures XorShift64(0x7F39260987990193, 37) == 0x7F3926098460C8A3 && Times64(0x7F3926098460C8A3, 0x165667919E3779F9) == 0x219CE4C635FD318B
    ensures XorShift64(0x219CE4C635FD318B, 32) == 0x219CE4C61461D54D
  {}

  lemma ElevenMixed()
    ensures Avalanche(0x7F39260987990193) == 0x219CE4C61461D54D
  {
    hide XorShift64, Times64;
    ElevenMixedSteps();
  }

  lemma ElevenSteps()
    ensures Xor64(0x1F67B3B7A4A44072, 0x78E5C0CC4EE679CB) == 0x6782737BEA4239B9 && Plus64(0x6782737BEA4239B9, 0x9E3779B185EBCA87) == 0x05B9ED2D702E0440 && Xor64(0x0706050403020100, 0x05B9ED2D702E0440) == 0x02BFE829732C0540
    ensures Xor64(0x2172FFCC7DD05A82, 0x8E2443F7744608B8) == 0xAF56BC3B0996523A && Minus(0xAF56BC3B0996523A, 0x9E3779B185EBCA87) == 0x111F428983AA87B3 && Xor64(0x0A09080706050403, 0x111F428983AA87B3) == 0x1B164A8E85AF83B0
    ensures Swap64(0x02BFE829732C0540) == 0x40052C7329E8BF02 && Plus64(11, 0x40052C7329E8BF02) == 0x40052C7329E8BF0D && Plus64(0x40052C7329E8BF0D, 0x1B164A8E85AF83B0) == 0x5B1B7701AF9842BD && Plus64(0x5B1B7701AF9842BD, 0x241DAF07D800BED6) == 0x7F39260987990193
  {}

  lemma ElevenProduct()
    ensures MulFold(0x02BFE829732C0540, 0x1B164A8E85AF83B0) == 0x241DAF07D800BED6
  {}

  lemma ElevenReads(b: Bytes)
    requires |b| == 11 && CountsUp(b)
    ensures ReadLE64(b, 0) == 0x0706050403020100 && ReadLE64(b, 3) == 0x0A09080706050403
  {}

  /** The bytes 0 to 10, with a seed. */
  lemma Eleven(b: Bytes)
    requires |b| == 11 && CountsUp(b)
    ensures Hash(b, DefaultSecret(), 0x9E3779B185EBCA87) == 0x219CE4C61461D54D
  {
    hide DefaultSecret, ReadLE64, Xor64, Plus64, Minus, Swap64, MulFold, Avalanche, Len64, CountsUp;
    Lengths();
    ElevenReads(b);
    Secret3();
    Secret4();
    Secret5();
    ElevenSteps();
    ElevenProduct();
    ElevenMixed();
  }

  // ---------- inputs of medium length ----------

  lemma SeventeenReads1(b: Bytes)
    requires |b| == 17 && AllZero(b)
    ensures ReadLE64(b, 0) == 0 && ReadLE64(b, 1) == 0 && ReadLE64(b, 8) == 0 && ReadLE64(b, 9) == 0
  {}

  lemma SeventeenWords1()
    ensures Xor64(0, 0xBE4BA423396CFEB8) == 0xBE4BA423396CFEB8 && Xor64(0, 0x1CAD21F72C81017C) == 0x1CAD21F72C81017C
    ensures Xor64(0, 0xDB979083E96DD4DE) == 0xDB979083E96DD4DE && Xor64(0, 0x1F67B3B7A4A44072) == 0x1F67B3B7A4A44072
  {}

  lemma SeventeenProducts1()
    ensures MulFold(0xBE4BA423396CFEB8, 0x1CAD21F72C81017C) == 0xE66D33D47ACC9175
    ensures MulFold(0xDB979083E96DD4DE, 0x1F67B3B7A4A44072) == 0xEEA7EE2660ADF5B3
  {}

  lemma SeventeenMixes1(b: Bytes, s: Bytes)
    requires |b| == 17 && AllZero(b) && s == DefaultSecret()
    ensures Mix16B(b, 0, s, 0, 0) == 0xE66D33D47ACC9175 && Mix16B(b, 1, s, 16, 0) == 0xEEA7EE2660ADF5B3
  {
    hide DefaultSecret, ReadLE64, Xor64, Plus64, Minus, MulFold, AllZero;
    SeventeenReads1(b);
    Secret1();
    Secret2();
    Secret3();
    NoRest(0xBE4BA423396CFEB8);
    NoRest(0x1CAD21F72C81017C);
    NoRest(0xDB979083E96DD4DE);
    NoRest(0x1F67B3B7A4A44072);
    SeventeenWords1();
    SeventeenProducts1();
  }

  lemma SeventeenMixedSteps()
    ensures XorShift64(0x56C436C4C022FA1F, 37) == 0x56C436C4C294DBA9 && Times64(0x56C436C4C294DBA9, 0x165667919E3779F9) == 0xC2915CA01DEB8861
    ensures XorShift64(0xC2915CA01DEB8861, 32) == 0xC2915CA0DF7AD4C1
  {}

  lemma SeventeenMixed()
    ensures Avalanche(0x56C436C4C022FA1F) == 0xC2915CA0DF7AD4C1
  {
    hide XorShift64, Times64;
    SeventeenMixedSteps();
  }

  lemma SeventeenSums()
    ensures Times64(17, 0x9E3779B185EBCA87) == 0x81AF14C9E4A872F7 && Plus64(0x81AF14C9E4A872F7, 0xE66D33D47ACC9175) == 0x681C489E5F75046C
    ensures Plus64(0x681C489E5F75046C, 0xEEA7EE2660ADF5B3) == 0x56C436C4C022FA1F
  {}

  /** Seventeen zero bytes. */
  lemma Seventeen(b: Bytes)
    requires |b| == 17 && AllZero(b)
    ensures Hash(b, DefaultSecret(), 0) == 0xC2915CA0DF7AD4C1
  {
    hide DefaultSecret, Mix16B, Plus64, Times64, Avalanche, Len64, AllZero;
    Lengths();
    SeventeenMixes1(b, DefaultSecret());
    SeventeenSums();
    SeventeenMixed();
  }

  lemma OneHundredReads1(b: Bytes)
    requires |b| == 113 && CountsUp(b)
    ensures ReadLE64(b, 0) == 0x0706050403020100 && ReadLE64(b, 8) == 0x0F0E0D0C0B0A0908 && ReadLE64(b, 16) == 0x1716151413121110
    ensures ReadLE64(b, 24) == 0x1F1E1D1C1B1A1918
  {}

  lemma OneHundredReads2(b: Bytes)
    requires |b| == 113 && CountsUp(b)
    ensures ReadLE64(b, 32) == 0x2726252423222120 && ReadLE64(b, 40) == 0x2F2E2D2C2B2A2928 && ReadLE64(b, 48) == 0x3736353433323130
    ensures ReadLE64(b, 49) == 0x3837363534333231
  {}

  lemma OneHundredReads3(b: Bytes)
    requires |b| == 113 && CountsUp(b)
    ensures ReadLE64(b, 56) == 0x3F3E3D3C3B3A3938 && ReadLE64(b, 57) == 0x403F3E3D3C3B3A39 && ReadLE64(b, 65) == 0x4847464544434241
    ensures ReadLE64(b, 73) == 0x504F4E4D4C4B4A49
  {}

  lemma OneHundredReads4(b: Bytes)
    requires |b| == 113 && CountsUp(b)
    ensures ReadLE64(b, 81) == 0x5857565554535251 && ReadLE64(b, 89) == 0x605F5E5D5C5B5A59 && ReadLE64(b, 97) == 0x6867666564636261
    ensures ReadLE64(b, 105) == 0x706F6E6D6C6B6A69
  {}

  lemma OneHundredWords1()
    ensures Xor64(0x3736353433323130, 0x3F349CE33F76FAA8) == 0x0802A9D70C44CB98
    ensures Xor64(0x3F3E3D3C3B3A3938, 0x1D4F0BC7C7BBDCF9) == 0x227136FBFC81E5C1
    ensures Xor64(0x3837363534333231, 0x3159B4CD4BE0518A) == 0x096E82F87FD363BB
    ensures Xor64(0x403F3E3D3C3B3A39, 0x647378D9C97E9FC8) == 0x244C46E4F545A5F1
    ensures Xor64(0x2726252423222120, 0xCB00C391BB52283C) == 0xEC26E6B59870091C
    ensures Xor64(0x2F2E2D2C2B2A2928, 0xA32E531B8B65D088) == 0x8C007E37A04FF9A0
  {}

  lemma OneHundredProducts1()
    ensures MulFold(0x0802A9D70C44CB98, 0x227136FBFC81E5C1) == 0x48CE1B45F8706A17
    ensures MulFold(0x096E82F87FD363BB, 0x244C46E4F545A5F1) == 0xC687749D16AAF340
    ensures MulFold(0xEC26E6B59870091C, 0x8C007E37A04FF9A0) == 0xD5B11A954BADA0FE
  {}

  lemma OneHundredMixes1(b: Bytes, s: Bytes)
    requires |b| == 113 && CountsUp(b) && s == DefaultSecret()
    ensures Mix16B(b, 48, s, 96, 0) == 0x48CE1B45F8706A17 && Mix16B(b, 49, s, 112, 0) == 0xC687749D16AAF340
    ensures Mix16B(b, 32, s, 64, 0) == 0xD5B11A954BADA0FE
  {
    hide DefaultSecret, ReadLE64, Xor64, Plus64, Minus, MulFold, CountsUp;
    OneHundredReads2(b);
    OneHundredReads3(b);
    Secret6();
    Secret7();
    Secret8();
    Secret9();
    NoRest(0xCB00C391BB52283C);
    NoRest(0xA32E531B8B65D088);
    NoRest(0x3F349CE33F76FAA8);
    NoRest(0x1D4F0BC7C7BBDCF9);
    NoRest(0x3159B4CD4BE0518A);
    NoRest(0x647378D9C97E9FC8);
    OneHundredWords1();
    OneHundredProducts1();
  }

  lemma OneHundredWords2()
    ensures Xor64(0x4847464544434241, 0x4EF90DA297486471) == 0x06BE4BE7D30B2630
    ensures Xor64(0x504F4E4D4C4B4A49, 0xD8ACDEA946EF1938) == 0x88E390E40AA45371
    ensures Xor64(0x1716151413121110, 0x78E5C0CC4EE679CB) == 0x6FF3D5D85DF468DB
    ensures Xor64(0x1F1E1D1C1B1A1918, 0x2172FFCC7DD05A82) == 0x3E6CE2D066CA439A
    ensures Xor64(0x5857565554535251, 0x8E2443F7744608B8) == 0xD67315A220155AE9
    ensures Xor64(0x605F5E5D5C5B5A59, 0x4C263A81E69035E0) == 0x2C7964DCBACB6FB9
  {}

  lemma OneHundredProducts2()
    ensures MulFold(0x06BE4BE7D30B2630, 0x88E390E40AA45371) == 0xF0CD46C29F2EB85C
    ensures MulFold(0x6FF3D5D85DF468DB, 0x3E6CE2D066CA439A) == 0x6616FA8878A556D4
    ensures MulFold(0xD67315A220155AE9, 0x2C7964DCBACB6FB9) == 0xE5287FD020647345
  {}

  lemma OneHundredMixes2(b: Bytes, s: Bytes)
    requires |b| == 113 && CountsUp(b) && s == DefaultSecret()
    ensures Mix16B(b, 65, s, 80, 0) == 0xF0CD46C29F2EB85C && Mix16B(b, 16, s, 32, 0) == 0x6616FA8878A556D4
    ensures Mix16B(b, 81, s, 48, 0) == 0xE5287FD020647345
  {
    hide DefaultSecret, ReadLE64, Xor64, Plus64, Minus, MulFold, CountsUp;
    OneHundredReads1(b);
    OneHundredReads3(b);
    OneHundredReads4(b);
    Secret3();
    Secret4();
    Secret5();
    Secret7();
    NoRest(0x78E5C0CC4EE679CB);
    NoRest(0x2172FFCC7DD05A82);
    NoRest(0x8E2443F7744608B8);
    NoRest(0x4C263A81E69035E0);
    NoRest(0x4EF90DA297486471);
    NoRest(0xD8ACDEA946EF1938);
    OneHundredWords2();
    OneHundredProducts2();
  }

  lemma OneHundredWords3()
    ensures Xor64(0x0706050403020100, 0xBE4BA423396CFEB8) == 0xB94DA1273A6EFFB8
    ensures Xor64(0x0F0E0D0C0B0A0908, 0x1CAD21F72C81017C) == 0x13A32CFB278B0874
    ensures Xor64(0x6867666564636261, 0xDB979083E96DD4DE) == 0xB3F0F6E68D0EB6BF
    ensures Xor64(0x706F6E6D6C6B6A69, 0x1F67B3B7A4A44072) == 0x6F08DDDAC8CF2A1B
  {}

  lemma OneHundredProducts3()
    ensures MulFold(0xB94DA1273A6EFFB8, 0x13A32CFB278B0874) == 0xB96CE3C97B8E389A
    ensures MulFold(0xB3F0F6E68D0EB6BF, 0x6F08DDDAC8CF2A1B) == 0xD0C65A403D236C05
  {}

  lemma OneHundredMixes3(b: Bytes, s: Bytes)
    requires |b| == 113 && CountsUp(b) && s == DefaultSecret()
    ensures Mix16B(b, 0, s, 0, 0) == 0xB96CE3C97B8E389A && Mix16B(b, 97, s, 16, 0) == 0xD0C65A403D236C05
  {
    hide DefaultSecret, ReadLE64, Xor64, Plus64, Minus, MulFold, CountsUp;
    OneHundredReads1(b);
    OneHundredReads4(b);
    Secret1();
    Secret2();
    Secret3();
    NoRest(0xBE4BA423396CFEB8);
    NoRest(0x1CAD21F72C81017C);
    NoRest(0xDB979083E96DD4DE);
    NoRest(0x1F67B3B7A4A44072);
    OneHundredWords3();
    OneHundredProducts3();
  }

  lemma OneHundredMixedSteps()
    ensures XorShift64(0x81C360F968C78B00, 37) == 0x81C360F96CC99007 && Times64(0x81C360F96CC99007, 0x165667919E3779F9) == 0x0A11622F58A165CF
    ensures XorShift64(0x0A11622F58A165CF, 32) == 0x0A11622F52B007E0
  {}

  lemma OneHundredMixed()
    ensures Avalanche(0x81C360F968C78B00) == 0x0A11622F52B007E0
  {
    hide XorShift64, Times64;
    OneHundredMixedSteps();
  }

  lemma OneHundredSums()
    ensures Times64(113, 0x9E3779B185EBCA87) == 0xD67CB75C1D146597 && Plus64(0xD67CB75C1D146597, 0x48CE1B45F8706A17) == 0x1F4AD2A21584CFAE
    ensures Plus64(0x1F4AD2A21584CFAE, 0xC687749D16AAF340) == 0xE5D2473F2C2FC2EE
    ensures Plus64(0xE5D2473F2C2FC2EE, 0xD5B11A954BADA0FE) == 0xBB8361D477DD63EC
    ensures Plus64(0xBB8361D477DD63EC, 0xF0CD46C29F2EB85C) == 0xAC50A897170C1C48
    ensures Plus64(0xAC50A897170C1C48, 0x6616FA8878A556D4) == 0x1267A31F8FB1731C
    ensures Plus64(0x1267A31F8FB1731C, 0xE5287FD020647345) == 0xF79022EFB015E661
    ensures Plus64(0xF79022EFB015E661, 0xB96CE3C97B8E389A) == 0xB0FD06B92BA41EFB
    ensures Plus64(0xB0FD06B92BA41EFB, 0xD0C65A403D236C05) == 0x81C360F968C78B00
  {}

  /** The bytes 0 to 112. */
  lemma OneHundred(b: Bytes)
    requires |b| == 113 && CountsUp(b)
    ensures Hash(b, DefaultSecret(), 0) == 0x0A11622F52B007E0
  {
    hide DefaultSecret, Mix16B, Plus64, Times64, Avalanche, Len64, CountsUp;
    Lengths();
    OneHundredMixes1(b, DefaultSecret());
    OneHundredMixes2(b, DefaultSecret());
    OneHundredMixes3(b, DefaultSecret());
    OneHundredSums();
    OneHundredMixed();
  }

  lemma MiddleReads1(b: Bytes)
    requires |b| == 145 && CountsUp(b)
    ensures ReadLE64(b, 0) == 0x0706050403020100 && ReadLE64(b, 8) == 0x0F0E0D0C0B0A0908 && ReadLE64(b, 16) == 0x1716151413121110
    ensures ReadLE64(b, 24) == 0x1F1E1D1C1B1A1918
  {}

  lemma MiddleReads2(b: Bytes)
    requires |b| == 145 && CountsUp(b)
    ensures ReadLE64(b, 32) == 0x2726252423222120 && ReadLE64(b, 40) == 0x2F2E2D2C2B2A2928 && ReadLE64(b, 48) == 0x3736353433323130
    ensures ReadLE64(b, 56) == 0x3F3E3D3C3B3A3938
  {}

  lemma MiddleReads3(b: Bytes)
    requires |b| == 145 && CountsUp(b)
    ensures ReadLE64(b, 64) == 0x4746454443424140 && ReadLE64(b, 72) == 0x4F4E4D4C4B4A4948 && ReadLE64(b, 80) == 0x5756555453525150
    ensures ReadLE64(b, 88) == 0x5F5E5D5C5B5A5958
  {}

  lemma MiddleReads4(b: Bytes)
    requires |b| == 145 && CountsUp(b)
    ensures ReadLE64(b, 96) == 0x6766656463626160 && ReadLE64(b, 104) == 0x6F6E6D6C6B6A6968 && ReadLE64(b, 112) == 0x7776757473727170
    ensures ReadLE64(b, 120) == 0x7F7E7D7C7B7A7978
  {}

  lemma MiddleReads5(b: Bytes)
    requires |b| == 145 && CountsUp(b)
    ensures ReadLE64(b, 128) == 0x8786858483828180 && ReadLE64(b, 129) == 0x8887868584838281 && ReadLE64(b, 136) == 0x8F8E8D8C8B8A8988
    ensures ReadLE64(b, 137) == 0x908F8E8D8C8B8A89
  {}

  lemma MiddleWords1()
    ensures Plus64(0xBE4BA423396CFEB8, 0x9E3779B185EBCA87) == 0x5C831DD4BF58C93F
    ensures Minus(0x1CAD21F72C81017C, 0x9E3779B185EBCA87) == 0x7E75A845A69536F5
    ensures Xor64(0x0706050403020100, 0x5C831DD4BF58C93F) == 0x5B8518D0BC5AC83F
    ensures Xor64(0x0F0E0D0C0B0A0908, 0x7E75A845A69536F5) == 0x717BA549AD9F3FFD
    ensures Plus64(0xDB979083E96DD4DE, 0x9E3779B185EBCA87) == 0x79CF0A356F599F65
    ensures Minus(0x1F67B3B7A4A44072, 0x9E3779B185EBCA87) == 0x81303A061EB875EB
    ensures Xor64(0x1716151413121110, 0x79CF0A356F599F65) == 0x6ED91F217C4B8E75
    ensures Xor64(0x1F1E1D1C1B1A1918, 0x81303A061EB875EB) == 0x9E2E271A05A26CF3
    ensures Plus64(0x78E5C0CC4EE679CB, 0x9E3779B185EBCA87) == 0x171D3A7DD4D24452
    ensures Minus(0x2172FFCC7DD05A82, 0x9E3779B185EBCA87) == 0x833B861AF7E48FFB
    ensures Xor64(0x2726252423222120, 0x171D3A7DD4D24452) == 0x303B1F59F7F06572
    ensures Xor64(0x2F2E2D2C2B2A2928, 0x833B861AF7E48FFB) == 0xAC15AB36DCCEA6D3
  {}

  lemma MiddleProducts1()
    ensures MulFold(0x5B8518D0BC5AC83F, 0x717BA549AD9F3FFD) == 0xC25A1CAE4053687E
    ensures MulFold(0x6ED91F217C4B8E75, 0x9E2E271A05A26CF3) == 0x5942E49BD02D580B
    ensures MulFold(0x303B1F59F7F06572, 0xAC15AB36DCCEA6D3) == 0x4D321AB30E5DC69D
  {}

  lemma MiddleMixes1(b: Bytes, s: Bytes)
    requires |b| == 145 && CountsUp(b) && s == DefaultSecret()
    ensures Mix16B(b, 0, s, 0, 0x9E3779B185EBCA87) == 0xC25A1CAE4053687E && Mix16B(b, 16, s, 16, 0x9E3779B185EBCA87) == 0x5942E49BD02D580B
    ensures Mix16B(b, 32, s, 32, 0x9E3779B185EBCA87) == 0x4D321AB30E5DC69D
  {
    hide DefaultSecret, ReadLE64, Xor64, Plus64, Minus, MulFold, CountsUp;
    MiddleReads1(b);
    MiddleReads2(b);
    Secret1();
    Secret2();
    Secret3();
    Secret4();
    MiddleWords1();
    MiddleProducts1();
  }

  lemma MiddleWords2()
    ensures Plus64(0x8E2443F7744608B8, 0x9E3779B185EBCA87) == 0x2C5BBDA8FA31D33F
    ensures Minus(0x4C263A81E69035E0, 0x9E3779B185EBCA87) == 0xADEEC0D060A46B59
    ensures Xor64(0x3736353433323130, 0x2C5BBDA8FA31D33F) == 0x1B6D889CC903E20F
    ensures Xor64(0x3F3E3D3C3B3A3938, 0xADEEC0D060A46B59) == 0x92D0FDEC5B9E5261
    ensures Plus64(0xCB00C391BB52283C, 0x9E3779B185EBCA87) == 0x69383D43413DF2C3
    ensures Minus(0xA32E531B8B65D088, 0x9E3779B185EBCA87) == 0x04F6D96A057A0601
    ensures Xor64(0x4746454443424140, 0x69383D43413DF2C3) == 0x2E7E7807027FB383
    ensures Xor64(0x4F4E4D4C4B4A4948, 0x04F6D96A057A0601) == 0x4BB894264E304F49
    ensures Plus64(0x4EF90DA297486471, 0x9E3779B185EBCA87) == 0xED3087541D342EF8
    ensures Minus(0xD8ACDEA946EF1938, 0x9E3779B185EBCA87) == 0x3A7564F7C1034EB1
    ensures Xor64(0x5756555453525150, 0xED3087541D342EF8) == 0xBA66D2004E667FA8
    ensures Xor64(0x5F5E5D5C5B5A5958, 0x3A7564F7C1034EB1) == 0x652B39AB9A5917E9
  {}

  lemma MiddleProducts2()
    ensures MulFold(0x1B6D889CC903E20F, 0x92D0FDEC5B9E5261) == 0xE9127A7CBFF626EC
    ensures MulFold(0x2E7E7807027FB383, 0x4BB894264E304F49) == 0x8AD2B722D47DFFD0
    ensures MulFold(0xBA66D2004E667FA8, 0x652B39AB9A5917E9) == 0xB679CAE53EE4EB51
  {}

  lemma MiddleMixes2(b: Bytes, s: Bytes)
    requires |b| == 145 && CountsUp(b) && s == DefaultSecret()
    ensures Mix16B(b, 48, s, 48, 0x9E3779B185EBCA87) == 0xE9127A7CBFF626EC && Mix16B(b, 64, s, 64, 0x9E3779B185EBCA87) == 0x8AD2B722D47DFFD0
    ensures Mix16B(b, 80, s, 80, 0x9E3779B185EBCA87) == 0xB679CAE53EE4EB51
  {
    hide DefaultSecret, ReadLE64, Xor64, Plus64, Minus, MulFold, CountsUp;
    MiddleReads2(b);
    MiddleReads3(b);
    Secret5();
    Secret6();
    Secret7();
    MiddleWords2();
    MiddleProducts2();
  }

  lemma MiddleWords3()
    ensures Plus64(0x3F349CE33F76FAA8, 0x9E3779B185EBCA87) == 0xDD6C1694C562C52F
    ensures Minus(0x1D4F0BC7C7BBDCF9, 0x9E3779B185EBCA87) == 0x7F17921641D01272
    ensures Xor64(0x6766656463626160, 0xDD6C1694C562C52F) == 0xBA0A73F0A600A44F
    ensures Xor64(0x6F6E6D6C6B6A6968, 0x7F17921641D01272) == 0x1079FF7A2ABA7B1A
    ensures Plus64(0x3159B4CD4BE0518A, 0x9E3779B185EBCA87) == 0xCF912E7ED1CC1C11
    ensures Minus(0x647378D9C97E9FC8, 0x9E3779B185EBCA87) == 0xC63BFF284392D541
    ensures Xor64(0x7776757473727170, 0xCF912E7ED1CC1C11) == 0xB8E75B0AA2BE6D61
    ensures Xor64(0x7F7E7D7C7B7A7978, 0xC63BFF284392D541) == 0xB945825438E8AC39
    ensures Plus64(0x81017CBE4BA42339, 0x9E3779B185EBCA87) == 0x1F38F66FD18FEDC0
    ensures Minus(0x6DD4DE1CAD21F72C, 0x9E3779B185EBCA87) == 0xCF9D646B27362CA5
    ensures Xor64(0x8786858483828180, 0x1F38F66FD18FEDC0) == 0x98BE73EB520D6C40
    ensures Xor64(0x8F8E8D8C8B8A8988, 0xCF9D646B27362CA5) == 0x4013E9E7ACBCA52D
  {}

  lemma MiddleProducts3()
    ensures MulFold(0xBA0A73F0A600A44F, 0x1079FF7A2ABA7B1A) == 0xF7D0539C8ACB17A9
    ensures MulFold(0xB8E75B0AA2BE6D61, 0xB945825438E8AC39) == 0xA5C6D0420F72ECE3
    ensures MulFold(0x98BE73EB520D6C40, 0x4013E9E7ACBCA52D) == 0x06BE3E3B9347FA21
  {}

  lemma MiddleMixes3(b: Bytes, s: Bytes)
    requires |b| == 145 && CountsUp(b) && s == DefaultSecret()
    ensures Mix16B(b, 96, s, 96, 0x9E3779B185EBCA87) == 0xF7D0539C8ACB17A9 && Mix16B(b, 112, s, 112, 0x9E3779B185EBCA87) == 0xA5C6D0420F72ECE3
    ensures Mix16B(b, 128, s, 3, 0x9E3779B185EBCA87) == 0x06BE3E3B9347FA21
  {
    hide DefaultSecret, ReadLE64, Xor64, Plus64, Minus, MulFold, CountsUp;
    MiddleReads4(b);
    MiddleReads5(b);
    Secret1();
    Secret2();
    Secret8();
    Secret9();
    MiddleWords3();
    MiddleProducts3();
  }

  lemma MiddleWords4()
    ensures Plus64(0x7378D9C97E9FC831, 0x9E3779B185EBCA87) == 0x11B0537B048B92B8
    ensures Minus(0xEBD33483ACC5EA64, 0x9E3779B185EBCA87) == 0x4D9BBAD226DA1FDD
    ensures Xor64(0x8887868584838281, 0x11B0537B048B92B8) == 0x9937D5FE80081039
    ensures Xor64(0x908F8E8D8C8B8A89, 0x4D9BBAD226DA1FDD) == 0xDD14345FAA519554
  {}

  lemma MiddleProducts4()
    ensures MulFold(0x9937D5FE80081039, 0xDD14345FAA519554) == 0x987985F2B597858F
  {}

  lemma MiddleMixes4(b: Bytes, s: Bytes)
    requires |b| == 145 && CountsUp(b) && s == DefaultSecret()
    ensures Mix16B(b, 129, s, 119, 0x9E3779B185EBCA87) == 0x987985F2B597858F
  {
    hide DefaultSecret, ReadLE64, Xor64, Plus64, Minus, MulFold, CountsUp;
    MiddleReads5(b);
    Secret9();
    Secret10();
    MiddleWords4();
    MiddleProducts4();
  }

  lemma MiddleFirstSteps()
    ensures XorShift64(0xCE3129ED67035436, 37) == 0xCE3129ED6172DD79 && Times64(0xCE3129ED6172DD79, 0x165667919E3779F9) == 0x8498EFDA56669BB1
    ensures XorShift64(0x8498EFDA56669BB1, 32) == 0x8498EFDAD2FE746B
  {}

  lemma MiddleFirst()
    ensures Avalanche(0xCE3129ED67035436) == 0x8498EFDAD2FE746B
  {
    hide XorShift64, Times64;
    MiddleFirstSteps();
  }

  lemma MiddleMixedSteps()
    ensures XorShift64(0x23D0B4091BDDF41B, 37) == 0x23D0B4091AC371BB && Times64(0x23D0B4091AC371BB, 0x165667919E3779F9) == 0xD9D8729B420801E3
    ensures XorShift64(0xD9D8729B420801E3, 32) == 0xD9D8729B9BD07378
  {}

  lemma MiddleMixed()
    ensures Avalanche(0x23D0B4091BDDF41B) == 0xD9D8729B9BD07378
  {
    hide XorShift64, Times64;
    MiddleMixedSteps();
  }

  lemma MiddleSums()
    ensures Times64(145, 0x9E3779B185EBCA87) == 0x9D6BED8CDA8DB677 && Plus64(0x9D6BED8CDA8DB677, 0xC25A1CAE4053687E) == 0x5FC60A3B1AE11EF5
    ensures Plus64(0x5FC60A3B1AE11EF5, 0x5942E49BD02D580B) == 0xB908EED6EB0E7700
    ensures Plus64(0xB908EED6EB0E7700, 0x4D321AB30E5DC69D) == 0x063B0989F96C3D9D
    ensures Plus64(0x063B0989F96C3D9D, 0xE9127A7CBFF626EC) == 0xEF4D8406B9626489
    ensures Plus64(0xEF4D8406B9626489, 0x8AD2B722D47DFFD0) == 0x7A203B298DE06459
    ensures Plus64(0x7A203B298DE06459, 0xB679CAE53EE4EB51) == 0x309A060ECCC54FAA
    ensures Plus64(0x309A060ECCC54FAA, 0xF7D0539C8ACB17A9) == 0x286A59AB57906753
    ensures Plus64(0x286A59AB57906753, 0xA5C6D0420F72ECE3) == 0xCE3129ED67035436
    ensures Plus64(0x8498EFDAD2FE746B, 0x06BE3E3B9347FA21) == 0x8B572E1666466E8C
    ensures Plus64(0x8B572E1666466E8C, 0x987985F2B597858F) == 0x23D0B4091BDDF41B
  {}

  lemma MiddleRounds(b: Bytes, s: Bytes)
    requires |b| == 145 && CountsUp(b) && s == DefaultSecret()
    ensures Rounds(0x9D6BED8CDA8DB677, b, s, 0x9E3779B185EBCA87, 0, 0, 8) == 0xCE3129ED67035436
    ensures Rounds(0x8498EFDAD2FE746B, b, s, 0x9E3779B185EBCA87, MIDSIZE_STARTOFFSET - 128, 8, 9) == 0x8B572E1666466E8C
  {
    hide DefaultSecret, Mix16B, Plus64, CountsUp;
    MiddleMixes1(b, s);
    MiddleMixes2(b, s);
    MiddleMixes3(b, s);
    MiddleMixes4(b, s);
    MiddleSums();
    assert Rounds(0x9D6BED8CDA8DB677, b, s, 0x9E3779B185EBCA87, 0, 0, 1) == 0x5FC60A3B1AE11EF5;
    assert Rounds(0x9D6BED8CDA8DB677, b, s, 0x9E3779B185EBCA87, 0, 0, 2) == 0xB908EED6EB0E7700;
    assert Rounds(0x9D6BED8CDA8DB677, b, s, 0x9E3779B185EBCA87, 0, 0, 3) == 0x063B0989F96C3D9D;
    assert Rounds(0x9D6BED8CDA8DB677, b, s, 0x9E3779B185EBCA87, 0, 0, 4) == 0xEF4D8406B9626489;
    assert Rounds(0x9D6BED8CDA8DB677, b, s, 0x9E3779B185EBCA87, 0, 0, 5) == 0x7A203B298DE06459;
    assert Rounds(0x9D6BED8CDA8DB677, b, s, 0x9E3779B185EBCA87, 0, 0, 6) == 0x309A060ECCC54FAA;
    assert Rounds(0x9D6BED8CDA8DB677, b, s, 0x9E3779B185EBCA87, 0, 0, 7) == 0x286A59AB57906753;
    assert Rounds(0x9D6BED8CDA8DB677, b, s, 0x9E3779B185EBCA87, 0, 0, 8) == 0xCE3129ED67035436;
  }

  /** The bytes 0 to 144, with a seed. */
  lemma Middle(b: Bytes)
    requires |b| == 145 && CountsUp(b)
    ensures Hash(b, DefaultSecret(), 0x9E3779B185EBCA87) == 0xD9D8729B9BD07378
  {
    hide DefaultSecret, Mix16B, Plus64, Times64, Avalanche, Len64, Rounds, CountsUp;
    Lengths();
    MiddleRounds(b, DefaultSecret());
    MiddleMixes4(b, DefaultSecret());
    MiddleSums();
    MiddleFirst();
    MiddleMixed();
  }
}
