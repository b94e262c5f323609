/**
 Known digests of XXH3 (xxhash.h) for more than 240 bytes, which fix its stripes, its scramble and the places
 of its keys.
 */
module Xxh3LongAnswers {
  import opened XxhWords
  import opened Xxh3Mix
  import opened Xxh3Stripes
  import opened Xxh3
  import opened Xxh3SecretWords
  import Xxh32

  // ---------- four stripes ----------

  lemma ReadSlice(s: Bytes, p: nat, q: nat, i: nat)
    requires p + i + 8 <= q <= |s|
    ensures ReadLE64(s[p..q], i) == ReadLE64(s, p + i)
  {
    hide FourBytes, Joined64;
  }

  lemma StartAcc()
    ensures InitAcc() == [0x00000000C2B2AE3D, 0x9E3779B185EBCA87, 0xC2B2AE3D27D4EB4F, 0x165667B19E3779F9, 0x85EBCA77C2B2AE63, 0x0000000085EBCA77, 0x27D4EB2F165667C5, 0x000000009E3779B1]
  {}

  lemma Stripe1Reads1(b: Bytes)
    requires |b| == 241 && CountsUp(b)
    ensures ReadLE64(b, 0) == 0x0706050403020100 && ReadLE64(b, 8) == 0x0F0E0D0C0B0A0908 && ReadLE64(b, 16) == 0x1716151413121110
    ensures ReadLE64(b, 24) == 0x1F1E1D1C1B1A1918
  {}

  lemma Stripe1Reads2(b: Bytes)
    requires |b| == 241 && CountsUp(b)
    ensures ReadLE64(b, 32) == 0x2726252423222120 && ReadLE64(b, 40) == 0x2F2E2D2C2B2A2928 && ReadLE64(b, 48) == 0x3736353433323130
    ensures ReadLE64(b, 56) == 0x3F3E3D3C3B3A3938
  {}

  lemma Stripe1Words()
    ensures Xor64(0x0706050403020100, 0xBE4BA423396CFEB8) == 0xB94DA1273A6EFFB8
    ensures Xor64(0x0F0E0D0C0B0A0908, 0x1CAD21F72C81017C) == 0x13A32CFB278B0874
    ensures Xor64(0x1716151413121110, 0xDB979083E96DD4DE) == 0xCC818597FA7FC5CE
    ensures Xor64(0x1F1E1D1C1B1A1918, 0x1F67B3B7A4A44072) == 0x0079AEABBFBE596A
    ensures Xor64(0x2726252423222120, 0x78E5C0CC4EE679CB) == 0x5FC3E5E86DC458EB
    ensures Xor64(0x2F2E2D2C2B2A2928, 0x2172FFCC7DD05A82) == 0x0E5CD2E056FA73AA
    ensures Xor64(0x3736353433323130, 0x8E2443F7744608B8) == 0xB91276C347743988
    ensures Xor64(0x3F3E3D3C3B3A3938, 0x4C263A81E69035E0) == 0x731807BDDDAA0CD8
  {}

  lemma Stripe1Products()
    ensures Times64(Low32(0xB94DA1273A6EFFB8), High32(0xB94DA1273A6EFFB8)) == 0x2A4BEEF79813AD08
    ensures Times64(Low32(0x13A32CFB278B0874), High32(0x13A32CFB278B0874)) == 0x03088619A8A139BC
    ensures Times64(Low32(0xCC818597FA7FC5CE), High32(0xCC818597FA7FC5CE)) == 0xC81C8EBAF7EFB282
    ensures Times64(Low32(0x0079AEABBFBE596A), High32(0x0079AEABBFBE596A)) == 0x005B23CBB805C5CE
    ensures Times64(Low32(0x5FC3E5E86DC458EB), High32(0x5FC3E5E86DC458EB)) == 0x290FDC230D7BCBF8
    ensures Times64(Low32(0x0E5CD2E056FA73AA), High32(0x0E5CD2E056FA73AA)) == 0x04E13BFA6B1EA8C0
    ensures Times64(Low32(0xB91276C347743988), High32(0xB91276C347743988)) == 0x33A824E5539C8298
    ensures Times64(Low32(0x731807BDDDAA0CD8), High32(0x731807BDDDAA0CD8)) == 0x63A8326989256378
  {}

  lemma Stripe1Sums()
    ensures Plus64(0x00000000C2B2AE3D, 0x2A4BEEF79813AD08) == 0x2A4BEEF85AC65B45
    ensures Plus64(0x2A4BEEF85AC65B45, 0x0F0E0D0C0B0A0908) == 0x3959FC0465D0644D
    ensures Plus64(0x9E3779B185EBCA87, 0x0706050403020100) == 0xA53D7EB588EDCB87
    ensures Plus64(0xA53D7EB588EDCB87, 0x03088619A8A139BC) == 0xA84604CF318F0543
    ensures Plus64(0xC2B2AE3D27D4EB4F, 0xC81C8EBAF7EFB282) == 0x8ACF3CF81FC49DD1
    ensures Plus64(0x8ACF3CF81FC49DD1, 0x1F1E1D1C1B1A1918) == 0xA9ED5A143ADEB6E9
    ensures Plus64(0x165667B19E3779F9, 0x1716151413121110) == 0x2D6C7CC5B1498B09
    ensures Plus64(0x2D6C7CC5B1498B09, 0x005B23CBB805C5CE) == 0x2DC7A091694F50D7
    ensures Plus64(0x85EBCA77C2B2AE63, 0x290FDC230D7BCBF8) == 0xAEFBA69AD02E7A5B
    ensures Plus64(0xAEFBA69AD02E7A5B, 0x2F2E2D2C2B2A2928) == 0xDE29D3C6FB58A383
    ensures Plus64(0x0000000085EBCA77, 0x2726252423222120) == 0x27262524A90DEB97
    ensures Plus64(0x27262524A90DEB97, 0x04E13BFA6B1EA8C0) == 0x2C07611F142C9457
    ensures Plus64(0x27D4EB2F165667C5, 0x33A824E5539C8298) == 0x5B7D101469F2EA5D
    ensures Plus64(0x5B7D101469F2EA5D, 0x3F3E3D3C3B3A3938) == 0x9ABB4D50A52D2395
    ensures Plus64(0x000000009E3779B1, 0x3736353433323130) == 0x37363534D169AAE1
    ensures Plus64(0x37363534D169AAE1, 0x63A8326989256378) == 0x9ADE679E5A8F0E59
  {}

  lemma Stripe1Lanes(b: Bytes, stripe: Bytes, key: Bytes)
    requires |b| == 241 && CountsUp(b) && stripe == b[0..64] && key == DefaultSecret()[0..64]
    ensures Lane(0x00000000C2B2AE3D, stripe, key, 0) == 0x3959FC0465D0644D && Lane(0x9E3779B185EBCA87, stripe, key, 1) == 0xA84604CF318F0543
    ensures Lane(0xC2B2AE3D27D4EB4F, stripe, key, 2) == 0xA9ED5A143ADEB6E9 && Lane(0x165667B19E3779F9, stripe, key, 3) == 0x2DC7A091694F50D7
    ensures Lane(0x85EBCA77C2B2AE63, stripe, key, 4) == 0xDE29D3C6FB58A383 && Lane(0x0000000085EBCA77, stripe, key, 5) == 0x2C07611F142C9457
    ensures Lane(0x27D4EB2F165667C5, stripe, key, 6) == 0x9ABB4D50A52D2395 && Lane(0x000000009E3779B1, stripe, key, 7) == 0x9ADE679E5A8F0E59
  {
    hide DefaultSecret, ReadLE64, Xor64, Times64, Plus64, Low32, High32, CountsUp;
    Stripe1Reads1(b);
    Stripe1Reads2(b);
    Secret1();
    Secret2();
    Secret3();
    Secret4();
    Secret5();
    ReadSlice(b, 0, 64, 0);
    ReadSlice(DefaultSecret(), 0, 64, 0);
    ReadSlice(b, 0, 64, 8);
    ReadSlice(DefaultSecret(), 0, 64, 8);
    ReadSlice(b, 0, 64, 16);
    ReadSlice(DefaultSecret(), 0, 64, 16);
    ReadSlice(b, 0, 64, 24);
    ReadSlice(DefaultSecret(), 0, 64, 24);
    ReadSlice(b, 0, 64, 32);
    ReadSlice(DefaultSecret(), 0, 64, 32);
    ReadSlice(b, 0, 64, 40);
    ReadSlice(DefaultSecret(), 0, 64, 40);
    ReadSlice(b, 0, 64, 48);
    ReadSlice(DefaultSecret(), 0, 64, 48);
    ReadSlice(b, 0, 64, 56);
    ReadSlice(DefaultSecret(), 0, 64, 56);
    Stripe1Words();
    Stripe1Products();
    Stripe1Sums();
  }

  lemma Stripe1(b: Bytes, stripe: Bytes, key: Bytes)
    requires |b| == 241 && CountsUp(b) && stripe == b[0..64] && key == DefaultSecret()[0..64]
    ensures Accumulated([0x00000000C2B2AE3D, 0x9E3779B185EBCA87, 0xC2B2AE3D27D4EB4F, 0x165667B19E3779F9, 0x85EBCA77C2B2AE63, 0x0000000085EBCA77, 0x27D4EB2F165667C5, 0x000000009E3779B1], stripe, key)
      == [0x3959FC0465D0644D, 0xA84604CF318F0543, 0xA9ED5A143ADEB6E9, 0x2DC7A091694F50D7, 0xDE29D3C6FB58A383, 0x2C07611F142C9457, 0x9ABB4D50A52D2395, 0x9ADE679E5A8F0E59]
  {
    hide Lane, DefaultSecret, CountsUp;
    Stripe1Lanes(b, stripe, key);
  }

  lemma Stripe2Reads1(b: Bytes)
    requires |b| == 241 && CountsUp(b)
    ensures ReadLE64(b, 64) == 0x4746454443424140 && ReadLE64(b, 72) == 0x4F4E4D4C4B4A4948 && ReadLE64(b, 80) == 0x5756555453525150
    ensures ReadLE64(b, 88) == 0x5F5E5D5C5B5A5958
  {}

  lemma Stripe2Reads2(b: Bytes)
    requires |b| == 241 && CountsUp(b)
    ensures ReadLE64(b, 96) == 0x6766656463626160 && ReadLE64(b, 104) == 0x6F6E6D6C6B6A6968 && ReadLE64(b, 112) == 0x7776757473727170
    ensures ReadLE64(b, 120) == 0x7F7E7D7C7B7A7978
  {}

  lemma Stripe2Words()
    ensures Xor64(0x4746454443424140, 0x1CAD21F72C81017C) == 0x5BEB64B36FC3403C
    ensures Xor64(0x4F4E4D4C4B4A4948, 0xDB979083E96DD4DE) == 0x94D9DDCFA2279D96
    ensures Xor64(0x5756555453525150, 0x1F67B3B7A4A44072) == 0x4831E6E3F7F61122
    ensures Xor64(0x5F5E5D5C5B5A5958, 0x78E5C0CC4EE679CB) == 0x27BB9D9015BC2093
    ensures Xor64(0x6766656463626160, 0x2172FFCC7DD05A82) == 0x46149AA81EB23BE2
    ensures Xor64(0x6F6E6D6C6B6A6968, 0x8E2443F7744608B8) == 0xE14A2E9B1F2C61D0
    ensures Xor64(0x7776757473727170, 0x4C263A81E69035E0) == 0x3B504FF595E24490
    ensures Xor64(0x7F7E7D7C7B7A7978, 0xCB00C391BB52283C) == 0xB47EBEEDC0285144
  {}

  lemma Stripe2Products()
    ensures Times64(Low32(0x5BEB64B36FC3403C), High32(0x5BEB64B36FC3403C)) == 0x28212C07B5B159F4
    ensures Times64(Low32(0x94D9DDCFA2279D96), High32(0x94D9DDCFA2279D96)) == 0x5E48E72E9D38EA4A
    ensures Times64(Low32(0x4831E6E3F7F61122), High32(0x4831E6E3F7F61122)) == 0x45ED8A8DCA17BD26
    ensures Times64(Low32(0x27BB9D9015BC2093), High32(0x27BB9D9015BC2093)) == 0x035F96C2CA2D79B0
    ensures Times64(Low32(0x46149AA81EB23BE2), High32(0x46149AA81EB23BE2)) == 0x086734D7D6A54050
    ensures Times64(Low32(0xE14A2E9B1F2C61D0), High32(0xE14A2E9B1F2C61D0)) == 0x1B6F0A78EF9298F0
    ensures Times64(Low32(0x3B504FF595E24490), High32(0x3B504FF595E24490)) == 0x22BA2B52E1B40DD0
    ensures Times64(Low32(0xB47EBEEDC0285144), High32(0xB47EBEEDC0285144)) == 0x877B7C4BA11BB3F4
  {}

  lemma Stripe2Sums()
    ensures Plus64(0x3959FC0465D0644D, 0x28212C07B5B159F4) == 0x617B280C1B81BE41
    ensures Plus64(0x617B280C1B81BE41, 0x4F4E4D4C4B4A4948) == 0xB0C9755866CC0789
    ensures Plus64(0xA84604CF318F0543, 0x4746454443424140) == 0xEF8C4A1374D14683
    ensures Plus64(0xEF8C4A1374D14683, 0x5E48E72E9D38EA4A) == 0x4DD53142120A30CD
    ensures Plus64(0xA9ED5A143ADEB6E9, 0x45ED8A8DCA17BD26) == 0xEFDAE4A204F6740F
    ensures Plus64(0xEFDAE4A204F6740F, 0x5F5E5D5C5B5A5958) == 0x4F3941FE6050CD67
    ensures Plus64(0x2DC7A091694F50D7, 0x5756555453525150) == 0x851DF5E5BCA1A227
    ensures Plus64(0x851DF5E5BCA1A227, 0x035F96C2CA2D79B0) == 0x887D8CA886CF1BD7
    ensures Plus64(0xDE29D3C6FB58A383, 0x086734D7D6A54050) == 0xE691089ED1FDE3D3
    ensures Plus64(0xE691089ED1FDE3D3, 0x6F6E6D6C6B6A6968) == 0x55FF760B3D684D3B
    ensures Plus64(0x2C07611F142C9457, 0x6766656463626160) == 0x936DC683778EF5B7
    ensures Plus64(0x936DC683778EF5B7, 0x1B6F0A78EF9298F0) == 0xAEDCD0FC67218EA7
    ensures Plus64(0x9ABB4D50A52D2395, 0x22BA2B52E1B40DD0) == 0xBD7578A386E13165
    ensures Plus64(0xBD7578A386E13165, 0x7F7E7D7C7B7A7978) == 0x3CF3F620025BAADD
    ensures Plus64(0x9ADE679E5A8F0E59, 0x7776757473727170) == 0x1254DD12CE017FC9
    ensures Plus64(0x1254DD12CE017FC9, 0x877B7C4BA11BB3F4) == 0x99D0595E6F1D33BD
  {}

  lemma Stripe2Lanes(b: Bytes, stripe: Bytes, key: Bytes)
    requires |b| == 241 && CountsUp(b) && stripe == b[64..128] && key == DefaultSecret()[8..72]
    ensures Lane(0x3959FC0465D0644D, stripe, key, 0) == 0xB0C9755866CC0789 && Lane(0xA84604CF318F0543, stripe, key, 1) == 0x4DD53142120A30CD
    ensures Lane(0xA9ED5A143ADEB6E9, stripe, key, 2) == 0x4F3941FE6050CD67 && Lane(0x2DC7A091694F50D7, stripe, key, 3) == 0x887D8CA886CF1BD7
    ensures Lane(0xDE29D3C6FB58A383, stripe, key, 4) == 0x55FF760B3D684D3B && Lane(0x2C07611F142C9457, stripe, key, 5) == 0xAEDCD0FC67218EA7
    ensures Lane(0x9ABB4D50A52D2395, stripe, key, 6) == 0x3CF3F620025BAADD && Lane(0x9ADE679E5A8F0E59, stripe, key, 7) == 0x99D0595E6F1D33BD
  {
    hide DefaultSecret, ReadLE64, Xor64, Times64, Plus64, Low32, High32, CountsUp;
    Stripe2Reads1(b);
    Stripe2Reads2(b);
    Secret1();
    Secret2();
    Secret3();
    Secret4();
    Secret5();
    Secret6();
    ReadSlice(b, 64, 128, 0);
    ReadSlice(DefaultSecret(), 8, 72, 0);
    ReadSlice(b, 64, 128, 8);
    ReadSlice(DefaultSecret(), 8, 72, 8);
    ReadSlice(b, 64, 128, 16);
    ReadSlice(DefaultSecret(), 8, 72, 16);
    ReadSlice(b, 64, 128, 24);
    ReadSlice(DefaultSecret(), 8, 72, 24);
    ReadSlice(b, 64, 128, 32);
    ReadSlice(DefaultSecret(), 8, 72, 32);
    ReadSlice(b, 64, 128, 40);
    ReadSlice(DefaultSecret(), 8, 72, 40);
    ReadSlice(b, 64, 128, 48);
    ReadSlice(DefaultSecret(), 8, 72, 48);
    ReadSlice(b, 64, 128, 56);
    ReadSlice(DefaultSecret(), 8, 72, 56);
    Stripe2Words();
    Stripe2Products();
    Stripe2Sums();
  }

  lemma Stripe2(b: Bytes, stripe: Bytes, key: Bytes)
    requires |b| == 241 && CountsUp(b) && stripe == b[64..128] && key == DefaultSecret()[8..72]
    ensures Accumulated([0x3959FC0465D0644D, 0xA84604CF318F0543, 0xA9ED5A143ADEB6E9, 0x2DC7A091694F50D7, 0xDE29D3C6FB58A383, 0x2C07611F142C9457, 0x9ABB4D50A52D2395, 0x9ADE679E5A8F0E59], stripe, key)
      == [0xB0C9755866CC0789, 0x4DD53142120A30CD, 0x4F3941FE6050CD67, 0x887D8CA886CF1BD7, 0x55FF760B3D684D3B, 0xAEDCD0FC67218EA7, 0x3CF3F620025BAADD, 0x99D0595E6F1D33BD]
  {
    hide Lane, DefaultSecret, CountsUp;
    Stripe2Lanes(b, stripe, key);
  }

  lemma Stripe3Reads1(b: Bytes)
    requires |b| == 241 && CountsUp(b)
    ensures ReadLE64(b, 128) == 0x8786858483828180 && ReadLE64(b, 136) == 0x8F8E8D8C8B8A8988 && ReadLE64(b, 144) == 0x9796959493929190
    ensures ReadLE64(b, 152) == 0x9F9E9D9C9B9A9998
  {}

  lemma Stripe3Reads2(b: Bytes)
    requires |b| == 241 && CountsUp(b)
    ensures ReadLE64(b, 160) == 0xA7A6A5A4A3A2A1A0 && ReadLE64(b, 168) == 0xAFAEADACABAAA9A8 && ReadLE64(b, 176) == 0xB7B6B5B4B3B2B1B0
    ensures ReadLE64(b, 184) == 0xBFBEBDBCBBBAB9B8
  {}

  lemma Stripe3Words()
    ensures Xor64(0x8786858483828180, 0xDB979083E96DD4DE) == 0x5C1115076AEF555E
    ensures Xor64(0x8F8E8D8C8B8A8988, 0x1F67B3B7A4A44072) == 0x90E93E3B2F2EC9FA
    ensures Xor64(0x9796959493929190, 0x78E5C0CC4EE679CB) == 0xEF735558DD74E85B
    ensures Xor64(0x9F9E9D9C9B9A9998, 0x2172FFCC7DD05A82) == 0xBEEC6250E64AC31A
    ensures Xor64(0xA7A6A5A4A3A2A1A0, 0x8E2443F7744608B8) == 0x2982E653D7E4A918
    ensures Xor64(0xAFAEADACABAAA9A8, 0x4C263A81E69035E0) == 0xE388972D4D3A9C48
    ensures Xor64(0xB7B6B5B4B3B2B1B0, 0xCB00C391BB52283C) == 0x7CB6762508E0998C
    ensures Xor64(0xBFBEBDBCBBBAB9B8, 0xA32E531B8B65D088) == 0x1C90EEA730DF6930
  {}

  lemma Stripe3Products()
    ensures Times64(Low32(0x5C1115076AEF555E), High32(0x5C1115076AEF555E)) == 0x2675255B01CA0B92
    ensures Times64(Low32(0x90E93E3B2F2EC9FA), High32(0x90E93E3B2F2EC9FA)) == 0x1AB54EAAA93D189E
    ensures Times64(Low32(0xEF735558DD74E85B), High32(0xEF735558DD74E85B)) == 0xCF23EA4547371648
    ensures Times64(Low32(0xBEEC6250E64AC31A), High32(0xBEEC6250E64AC31A)) == 0xABC02229BE04EC20
    ensures Times64(Low32(0x2982E653D7E4A918), High32(0x2982E653D7E4A918)) == 0x23020370253E62C8
    ensures Times64(Low32(0xE388972D4D3A9C48), High32(0xE388972D4D3A9C48)) == 0x44A42D5203BBF0A8
    ensures Times64(Low32(0x7CB6762508E0998C), High32(0x7CB6762508E0998C)) == 0x04531E25C8C4B93C
    ensures Times64(Low32(0x1C90EEA730DF6930), High32(0x1C90EEA730DF6930)) == 0x05741ABC00883E50
  {}

  lemma Stripe3Sums()
    ensures Plus64(0xB0C9755866CC0789, 0x2675255B01CA0B92) == 0xD73E9AB36896131B
    ensures Plus64(0xD73E9AB36896131B, 0x8F8E8D8C8B8A8988) == 0x66CD283FF4209CA3
    ensures Plus64(0x4DD53142120A30CD, 0x8786858483828180) == 0xD55BB6C6958CB24D
    ensures Plus64(0xD55BB6C6958CB24D, 0x1AB54EAAA93D189E) == 0xF01105713EC9CAEB
    ensures Plus64(0x4F3941FE6050CD67, 0xCF23EA4547371648) == 0x1E5D2C43A787E3AF
    ensures Plus64(0x1E5D2C43A787E3AF, 0x9F9E9D9C9B9A9998) == 0xBDFBC9E043227D47
    ensures Plus64(0x887D8CA886CF1BD7, 0x9796959493929190) == 0x2014223D1A61AD67
    ensures Plus64(0x2014223D1A61AD67, 0xABC02229BE04EC20) == 0xCBD44466D8669987
    ensures Plus64(0x55FF760B3D684D3B, 0x23020370253E62C8) == 0x7901797B62A6B003
    ensures Plus64(0x7901797B62A6B003, 0xAFAEADACABAAA9A8) == 0x28B027280E5159AB
    ensures Plus64(0xAEDCD0FC67218EA7, 0xA7A6A5A4A3A2A1A0) == 0x568376A10AC43047
    ensures Plus64(0x568376A10AC43047, 0x44A42D5203BBF0A8) == 0x9B27A3F30E8020EF
    ensures Plus64(0x3CF3F620025BAADD, 0x04531E25C8C4B93C) == 0x41471445CB206419
    ensures Plus64(0x41471445CB206419, 0xBFBEBDBCBBBAB9B8) == 0x0105D20286DB1DD1
    ensures Plus64(0x99D0595E6F1D33BD, 0xB7B6B5B4B3B2B1B0) == 0x51870F1322CFE56D
    ensures Plus64(0x51870F1322CFE56D, 0x05741ABC00883E50) == 0x56FB29CF235823BD
  {}

  lemma Stripe3Lanes(b: Bytes, stripe: Bytes, key: Bytes)
    requires |b| == 241 && CountsUp(b) && stripe == b[128..192] && key == DefaultSecret()[16..80]
    ensures Lane(0xB0C9755866CC0789, stripe, key, 0) == 0x66CD283FF4209CA3 && Lane(0x4DD53142120A30CD, stripe, key, 1) == 0xF01105713EC9CAEB
    ensures Lane(0x4F3941FE6050CD67, stripe, key, 2) == 0xBDFBC9E043227D47 && Lane(0x887D8CA886CF1BD7, stripe, key, 3) == 0xCBD44466D8669987
    ensures Lane(0x55FF760B3D684D3B, stripe, key, 4) == 0x28B027280E5159AB && Lane(0xAEDCD0FC67218EA7, stripe, key, 5) == 0x9B27A3F30E8020EF
    ensures Lane(0x3CF3F620025BAADD, stripe, key, 6) == 0x0105D20286DB1DD1 && Lane(0x99D0595E6F1D33BD, stripe, key, 7) == 0x56FB29CF235823BD
  {
    hide DefaultSecret, ReadLE64, Xor64, Times64, Plus64, Low32, High32, CountsUp;
    Stripe3Reads1(b);
    Stripe3Reads2(b);
    Secret2();
    Secret3();
    Secret4();
    Secret5();
    Secret6();
    Secret7();
    ReadSlice(b, 128, 192, 0);
    ReadSlice(DefaultSecret(), 16, 80, 0);
    ReadSlice(b, 128, 192, 8);
    ReadSlice(DefaultSecret(), 16, 80, 8);
    ReadSlice(b, 128, 192, 16);
    ReadSlice(DefaultSecret(), 16, 80, 16);
    ReadSlice(b, 128, 192, 24);
    ReadSlice(DefaultSecret(), 16, 80, 24);
    ReadSlice(b, 128, 192, 32);
    ReadSlice(DefaultSecret(), 16, 80, 32);
    ReadSlice(b, 128, 192, 40);
    ReadSlice(DefaultSecret(), 16, 80, 40);
    ReadSlice(b, 128, 192, 48);
    ReadSlice(DefaultSecret(), 16, 80, 48);
    ReadSlice(b, 128, 192, 56);
    ReadSlice(DefaultSecret(), 16, 80, 56);
    Stripe3Words();
    Stripe3Products();
    Stripe3Sums();
  }

  lemma Stripe3(b: Bytes, stripe: Bytes, key: Bytes)
    requires |b| == 241 && CountsUp(b) && stripe == b[128..192] && key == DefaultSecret()[16..80]
    ensures Accumulated([0xB0C9755866CC0789, 0x4DD53142120A30CD, 0x4F3941FE6050CD67, 0x887D8CA886CF1BD7, 0x55FF760B3D684D3B, 0xAEDCD0FC67218EA7, 0x3CF3F620025BAADD, 0x99D0595E6F1D33BD], stripe, key)
      == [0x66CD283FF4209CA3, 0xF01105713EC9CAEB, 0xBDFBC9E043227D47, 0xCBD44466D8669987, 0x28B027280E5159AB, 0x9B27A3F30E8020EF, 0x0105D20286DB1DD1, 0x56FB29CF235823BD]
  {
    hide Lane, DefaultSecret, CountsUp;
    Stripe3Lanes(b, stripe, key);
  }

  lemma StripeLastReads1(b: Bytes)
    requires |b| == 241 && CountsUp(b)
    ensures ReadLE64(b, 177) == 0xB8B7B6B5B4B3B2B1 && ReadLE64(b, 185) == 0xC0BFBEBDBCBBBAB9 && ReadLE64(b, 193) == 0xC8C7C6C5C4C3C2C1
    ensures ReadLE64(b, 201) == 0xD0CFCECDCCCBCAC9
  {}

  lemma StripeLastReads2(b: Bytes)
    requires |b| == 241 && CountsUp(b)
    ensures ReadLE64(b, 209) == 0xD8D7D6D5D4D3D2D1 && ReadLE64(b, 217) == 0xE0DFDEDDDCDBDAD9 && ReadLE64(b, 225) == 0xE8E7E6E5E4E3E2E1
    ensures ReadLE64(b, 233) == 0xF0EFEEEDECEBEAE9
  {}

  lemma StripeLastWords()
    ensures Xor64(0xB8B7B6B5B4B3B2B1, 0xEA647378D9C97E9F) == 0x52D3C5CD6D7ACC2E
    ensures Xor64(0xC0BFBEBDBCBBBAB9, 0xC5C3EBD33483ACC5) == 0x057C556E8838167C
    ensures Xor64(0xC8C7C6C5C4C3C2C1, 0x17EB6313FAFFA081) == 0xDF2CA5D63E3C6240
    ensures Xor64(0xD0CFCECDCCCBCAC9, 0xD349DAF0B751DD0D) == 0x0386143D7B9A17C4
    ensures Xor64(0xD8D7D6D5D4D3D2D1, 0x2B9E68D429265516) == 0xF349BE01FDF587C7
    ensures Xor64(0xE0DFDEDDDCDBDAD9, 0x8FFCA1477D58BE16) == 0x6F237F9AA18364CF
    ensures Xor64(0xE8E7E6E5E4E3E2E1, 0x45CE31D07AD1B8F8) == 0xAD29D7359E325A19
    ensures Xor64(0xF0EFEEEDECEBEAE9, 0xAF280416958F3ACB) == 0x5FC7EAFB7964D022
  {}

  lemma StripeLastProducts()
    ensures Times64(Low32(0x52D3C5CD6D7ACC2E), High32(0x52D3C5CD6D7ACC2E)) == 0x236BE634305EE6D6
    ensures Times64(Low32(0x057C556E8838167C), High32(0x057C556E8838167C)) == 0x02EB411077A0D548
    ensures Times64(Low32(0xDF2CA5D63E3C6240), High32(0xDF2CA5D63E3C6240)) == 0x3641744794CD6180
    ensures Times64(Low32(0x0386143D7B9A17C4), High32(0x0386143D7B9A17C4)) == 0x01B38AB53A2AF9B4
    ensures Times64(Low32(0xF349BE01FDF587C7), High32(0xF349BE01FDF587C7)) == 0xF1593762D57A39C7
    ensures Times64(Low32(0x6F237F9AA18364CF), High32(0x6F237F9AA18364CF)) == 0x461E5E2DE15A5586
    ensures Times64(Low32(0xAD29D7359E325A19), High32(0xAD29D7359E325A19)) == 0x6B01E1F05D18A62D
    ensures Times64(Low32(0x5FC7EAFB7964D022), High32(0x5FC7EAFB7964D022)) == 0x2D6B360794852556
  {}

  lemma StripeLastSums()
    ensures Plus64(0x66CD283FF4209CA3, 0x236BE634305EE6D6) == 0x8A390E74247F8379
    ensures Plus64(0x8A390E74247F8379, 0xC0BFBEBDBCBBBAB9) == 0x4AF8CD31E13B3E32
    ensures Plus64(0xF01105713EC9CAEB, 0xB8B7B6B5B4B3B2B1) == 0xA8C8BC26F37D7D9C
    ensures Plus64(0xA8C8BC26F37D7D9C, 0x02EB411077A0D548) == 0xABB3FD376B1E52E4
    ensures Plus64(0xBDFBC9E043227D47, 0x3641744794CD6180) == 0xF43D3E27D7EFDEC7
    ensures Plus64(0xF43D3E27D7EFDEC7, 0xD0CFCECDCCCBCAC9) == 0xC50D0CF5A4BBA990
    ensures Plus64(0xCBD44466D8669987, 0xC8C7C6C5C4C3C2C1) == 0x949C0B2C9D2A5C48
    ensures Plus64(0x949C0B2C9D2A5C48, 0x01B38AB53A2AF9B4) == 0x964F95E1D75555FC
    ensures Plus64(0x28B027280E5159AB, 0xF1593762D57A39C7) == 0x1A095E8AE3CB9372
    ensures Plus64(0x1A095E8AE3CB9372, 0xE0DFDEDDDCDBDAD9) == 0xFAE93D68C0A76E4B
    ensures Plus64(0x9B27A3F30E8020EF, 0xD8D7D6D5D4D3D2D1) == 0x73FF7AC8E353F3C0
    ensures Plus64(0x73FF7AC8E353F3C0, 0x461E5E2DE15A5586) == 0xBA1DD8F6C4AE4946
    ensures Plus64(0x0105D20286DB1DD1, 0x6B01E1F05D18A62D) == 0x6C07B3F2E3F3C3FE
    ensures Plus64(0x6C07B3F2E3F3C3FE, 0xF0EFEEEDECEBEAE9) == 0x5CF7A2E0D0DFAEE7
    ensures Plus64(0x56FB29CF235823BD, 0xE8E7E6E5E4E3E2E1) == 0x3FE310B5083C069E
    ensures Plus64(0x3FE310B5083C069E, 0x2D6B360794852556) == 0x6D4E46BC9CC12BF4
  {}

  lemma StripeLastLanes(b: Bytes, stripe: Bytes, key: Bytes)
    requires |b| == 241 && CountsUp(b) && stripe == b[177..241] && key == DefaultSecret()[121..185]
    ensures Lane(0x66CD283FF4209CA3, stripe, key, 0) == 0x4AF8CD31E13B3E32 && Lane(0xF01105713EC9CAEB, stripe, key, 1) == 0xABB3FD376B1E52E4
    ensures Lane(0xBDFBC9E043227D47, stripe, key, 2) == 0xC50D0CF5A4BBA990 && Lane(0xCBD44466D8669987, stripe, key, 3) == 0x964F95E1D75555FC
    ensures Lane(0x28B027280E5159AB, stripe, key, 4) == 0xFAE93D68C0A76E4B && Lane(0x9B27A3F30E8020EF, stripe, key, 5) == 0xBA1DD8F6C4AE4946
    ensures Lane(0x0105D20286DB1DD1, stripe, key, 6) == 0x5CF7A2E0D0DFAEE7 && Lane(0x56FB29CF235823BD, stripe, key, 7) == 0x6D4E46BC9CC12BF4
  {
    hide DefaultSecret, ReadLE64, Xor64, Times64, Plus64, Low32, High32, CountsUp;
    StripeLastReads1(b);
    StripeLastReads2(b);
    Secret9();
    Secret10();
    Secret11();
    Secret12();
    Secret13();
    Secret14();
    ReadSlice(b, 177, 241, 0);
    ReadSlice(DefaultSecret(), 121, 185, 0);
    ReadSlice(b, 177, 241, 8);
    ReadSlice(DefaultSecret(), 121, 185, 8);
    ReadSlice(b, 177, 241, 16);
    ReadSlice(DefaultSecret(), 121, 185, 16);
    ReadSlice(b, 177, 241, 24);
    ReadSlice(DefaultSecret(), 121, 185, 24);
    ReadSlice(b, 177, 241, 32);
    ReadSlice(DefaultSecret(), 121, 185, 32);
    ReadSlice(b, 177, 241, 40);
    ReadSlice(DefaultSecret(), 121, 185, 40);
    ReadSlice(b, 177, 241, 48);
    ReadSlice(DefaultSecret(), 121, 185, 48);
    ReadSlice(b, 177, 241, 56);
    ReadSlice(DefaultSecret(), 121, 185, 56);
    StripeLastWords();
    StripeLastProducts();
    StripeLastSums();
  }

  lemma StripeLast(b: Bytes, stripe: Bytes, key: Bytes)
    requires |b| == 241 && CountsUp(b) && stripe == b[177..241] && key == DefaultSecret()[121..185]
    ensures Accumulated([0x66CD283FF4209CA3, 0xF01105713EC9CAEB, 0xBDFBC9E043227D47, 0xCBD44466D8669987, 0x28B027280E5159AB, 0x9B27A3F30E8020EF, 0x0105D20286DB1DD1, 0x56FB29CF235823BD], stripe, key)
      == [0x4AF8CD31E13B3E32, 0xABB3FD376B1E52E4, 0xC50D0CF5A4BBA990, 0x964F95E1D75555FC, 0xFAE93D68C0A76E4B, 0xBA1DD8F6C4AE4946, 0x5CF7A2E0D0DFAEE7, 0x6D4E46BC9CC12BF4]
  {
    hide Lane, DefaultSecret, CountsUp;
    StripeLastLanes(b, stripe, key);
  }

  lemma LongWords()
    ensures Xor64(0x4AF8CD31E13B3E32, 0x6DD4DE1CAD21F72C) == 0x272C132D4C1AC91E
    ensures Xor64(0xABB3FD376B1E52E4, 0xA44072DB979083E9) == 0x0FF38FECFC8ED10D
    ensures Xor64(0xC50D0CF5A4BBA990, 0xE679CB1F67B3B7A4) == 0x2374C7EAC3081E34
    ensures Xor64(0x964F95E1D75555FC, 0xD05A8278E5C0CC4E) == 0x46151799329599B2
    ensures Xor64(0xFAE93D68C0A76E4B, 0x4608B82172FFCC7D) == 0xBCE18549B258A236
    ensures Xor64(0xBA1DD8F6C4AE4946, 0x9035E08E2443F774) == 0x2A283878E0EDBE32
    ensures Xor64(0x5CF7A2E0D0DFAEE7, 0x52283C4C263A81E6) == 0x0EDF9EACF6E52F01
    ensures Xor64(0x6D4E46BC9CC12BF4, 0x65D088CB00C391BB) == 0x089ECE779C02BA4F
  {}

  lemma LongProducts()
    ensures MulFold(0x272C132D4C1AC91E, 0x0FF38FECFC8ED10D) == 0xF9026B106F43B34C
    ensures MulFold(0x2374C7EAC3081E34, 0x46151799329599B2) == 0xAC8AF8FC7CAF4626
    ensures MulFold(0xBCE18549B258A236, 0x2A283878E0EDBE32) == 0x48A292D566287D4E
    ensures MulFold(0x0EDF9EACF6E52F01, 0x089ECE779C02BA4F) == 0xEF92D65095CBD20E
  {}

  lemma LongSums()
    ensures Times64(241, 0x9E3779B185EBCA87) == 0xF239901F12F9A917 && Plus64(0xF239901F12F9A917, 0xF9026B106F43B34C) == 0xEB3BFB2F823D5C63
    ensures Plus64(0xEB3BFB2F823D5C63, 0xAC8AF8FC7CAF4626) == 0x97C6F42BFEECA289
    ensures Plus64(0x97C6F42BFEECA289, 0x48A292D566287D4E) == 0xE069870165151FD7
    ensures Plus64(0xE069870165151FD7, 0xEF92D65095CBD20E) == 0xCFFC5D51FAE0F1E5
  {}

  lemma LongMixedSteps()
    ensures XorShift64(0xCFFC5D51FAE0F1E5, 37) == 0xCFFC5D51FC9F130F && Times64(0xCFFC5D51FC9F130F, 0x165667919E3779F9) == 0x02E8CD9540F4A097
    ensures XorShift64(0x02E8CD9540F4A097, 32) == 0x02E8CD95421C6D02
  {}

  lemma LongMixed()
    ensures Avalanche(0xCFFC5D51FAE0F1E5) == 0x02E8CD95421C6D02
  {
    hide XorShift64, Times64;
    LongMixedSteps();
  }

  lemma LongMerged(s: Bytes, acc: Lanes)
    requires s == DefaultSecret() && acc == [0x4AF8CD31E13B3E32, 0xABB3FD376B1E52E4, 0xC50D0CF5A4BBA990, 0x964F95E1D75555FC, 0xFAE93D68C0A76E4B, 0xBA1DD8F6C4AE4946, 0x5CF7A2E0D0DFAEE7, 0x6D4E46BC9CC12BF4]
    ensures MergeSum(acc, s, 11, 0xF239901F12F9A917, 4) == 0xCFFC5D51FAE0F1E5
  {
    hide DefaultSecret, ReadLE64, Xor64, MulFold, Plus64;
    Secret2();
    Secret3();
    Secret4();
    Secret5();
    Secret6();
    LongWords();
    LongProducts();
    LongSums();
    assert MergeSum(acc, s, 11, 0xF239901F12F9A917, 1) == 0xEB3BFB2F823D5C63;
    assert MergeSum(acc, s, 11, 0xF239901F12F9A917, 2) == 0x97C6F42BFEECA289;
    assert MergeSum(acc, s, 11, 0xF239901F12F9A917, 3) == 0xE069870165151FD7;
    assert MergeSum(acc, s, 11, 0xF239901F12F9A917, 4) == 0xCFFC5D51FAE0F1E5;
  }

  /** An input of three stripes and the last, which ends with the input. */
  lemma FourStripes(s: Bytes, b: Bytes, acc1: Lanes, acc2: Lanes, acc3: Lanes)
    requires Long(s) && |s| == SECRET_DEFAULT_SIZE && |b| == 241
    requires Accumulated(InitAcc(), StripeAt(b, 0), Key(s, 0)) == acc1
    requires Accumulated(acc1, StripeAt(b, 1), Key(s, 8)) == acc2
    requires Accumulated(acc2, StripeAt(b, 2), Key(s, 16)) == acc3
    ensures LongHash(s, b) == Avalanche(MergeSum(Accumulated(acc3, b[177..241], Key(s, 121)), s, 11, LenStart(241), 4))
  {
    hide Accumulated, InitAcc, StripeAt, Key, MergeSum, Avalanche, LenStart;
    assert Steps(s, Progress(InitAcc(), 0), b, 1) == Progress(acc1, 1);
    assert Steps(s, Progress(InitAcc(), 0), b, 2) == Progress(acc2, 2);
    assert Steps(s, Progress(InitAcc(), 0), b, 3) == Progress(acc3, 3);
    assert b[177..] == b[177..241];
  }

  /** The bytes 0 to 240. */
  lemma LongInput(b: Bytes)
    requires |b| == 241 && CountsUp(b)
    ensures Hash(b, DefaultSecret(), 0) == 0x02E8CD95421C6D02
  {
    hide DefaultSecret, Accumulated, InitAcc, LongHash, MergeSum, Avalanche, Times64, Len64, CountsUp;
    var s := DefaultSecret();
    Lengths();
    StartAcc();
    Stripe1(b, StripeAt(b, 0), Key(s, 0));
    Stripe2(b, StripeAt(b, 1), Key(s, 8));
    Stripe3(b, StripeAt(b, 2), Key(s, 16));
    StripeLast(b, b[177..241], Key(s, 121));
    FourStripes(s, b, [0x3959FC0465D0644D, 0xA84604CF318F0543, 0xA9ED5A143ADEB6E9, 0x2DC7A091694F50D7, 0xDE29D3C6FB58A383, 0x2C07611F142C9457, 0x9ABB4D50A52D2395, 0x9ADE679E5A8F0E59],
      [0xB0C9755866CC0789, 0x4DD53142120A30CD, 0x4F3941FE6050CD67, 0x887D8CA886CF1BD7, 0x55FF760B3D684D3B, 0xAEDCD0FC67218EA7, 0x3CF3F620025BAADD, 0x99D0595E6F1D33BD],
      [0x66CD283FF4209CA3, 0xF01105713EC9CAEB, 0xBDFBC9E043227D47, 0xCBD44466D8669987, 0x28B027280E5159AB, 0x9B27A3F30E8020EF, 0x0105D20286DB1DD1, 0x56FB29CF235823BD]);
    LongSums();
    LongMerged(s, Accumulated([0x66CD283FF4209CA3, 0xF01105713EC9CAEB, 0xBDFBC9E043227D47, 0xCBD44466D8669987, 0x28B027280E5159AB, 0x9B27A3F30E8020EF, 0x0105D20286DB1DD1, 0x56FB29CF235823BD], b[177..241], Key(s, 121)));
    LongMixed();
  }

  // ---------- a whole block, and its scramble ----------

  function KeyProduct(s: Bytes, k: nat): bv64 {
    var w := ReadLE64(s, 8 * k);
    Times64(Low32(w), High32(w))
  }

  /** A lane after n stripes of zeros: stripe k adds to lane i the product of word k + i of the secret. */
  function LaneAfter(s: Bytes, i: nat, n: nat): bv64
    requires i < 8
  {
    if n == 0 then InitAcc()[i] else Plus64(LaneAfter(s, i, n - 1), KeyProduct(s, n - 1 + i))
  }

  function LanesAfter(s: Bytes, n: nat): Lanes {
    seq(8, i requires 0 <= i < 8 => LaneAfter(s, i, n))
  }

  lemma ZeroWord(s: Bytes, i: nat)
    requires AllZero(s)
    ensures ReadLE64(s, i) == 0
  {
    hide ReadLE32, AllZero;
    ReadZero(s, i);
    ReadZero(s, i + 4);
  }

  lemma ZeroLane(x: bv64, stripe: Bytes, key: Bytes, i: nat)
    requires AllZero(stripe)
    ensures var w := ReadLE64(key, 8 * i); Lane(x, stripe, key, i) == Plus64(x, Times64(Low32(w), High32(w)))
  {
    hide ReadLE64, AllZero, Times64, Plus64, Xor64, Low32, High32;
    ZeroWord(stripe, 8 * i);
    ZeroWord(stripe, 8 * Swap(i));
    NoRest(ReadLE64(key, 8 * i));
    NoRest(x);
    NoRest(Plus64(x, Product(stripe, key, i)));
  }

  lemma ZeroStep(s: Bytes, stripe: Bytes, key: Bytes, n: nat)
    requires AllZero(stripe) && 8 * n + 64 <= |s| && key == Key(s, 8 * n)
    ensures Accumulated(LanesAfter(s, n), stripe, key) == LanesAfter(s, n + 1)
  {
    hide AllZero, Lane, ReadLE64, Plus64, Times64, Low32, High32, InitAcc;
    forall i: nat | i < 8 ensures Accumulated(LanesAfter(s, n), stripe, key)[i] == LanesAfter(s, n + 1)[i] {
      ZeroLane(LaneAfter(s, i, n), stripe, key, i);
      ReadSlice(s, 8 * n, 8 * n + 64, 8 * i);
      assert 8 * n + 8 * i == 8 * (n + i);
    }
  }

  lemma {:induction false} ZeroSteps(s: Bytes, b: Bytes, n: nat)
    requires AllZero(b) && n < 9 && |s| == 136 && STRIPE_LEN * n <= |b|
    ensures Steps(s, Progress(InitAcc(), 0), b, n) == Progress(LanesAfter(s, n), n)
  {
    hide Accumulated, InitAcc, Plus64, KeyProduct;
    if n == 0 {
      assert LanesAfter(s, 0) == InitAcc();
    } else {
      hide LanesAfter;
      ZeroSteps(s, b, n - 1);
      ZeroStep(s, StripeAt(b, n - 1), Key(s, 8 * (n - 1)), n - 1);
    }
  }

  lemma ZeroBlock(s: Bytes, b: Bytes)
    requires AllZero(b) && |s| == 136 && |b| == 577
    ensures LongHash(s, b) == Merged(LastStripe(s, Scrambled(LanesAfter(s, 9), Key(s, 72)), b[513..]), s, 11, LenStart(577))
  {
    hide Accumulated, InitAcc, Scrambled, Merged, LastStripe, LenStart, LanesAfter;
    ZeroSteps(s, b, 8);
    ZeroStep(s, StripeAt(b, 8), Key(s, 64), 8);
  }

  lemma KeyWords1(s: Bytes)
    requires |s| == 136 && CountsUp(s)
    ensures ReadLE64(s, 0) == 0x0706050403020100 && ReadLE64(s, 8) == 0x0F0E0D0C0B0A0908 && ReadLE64(s, 11) == 0x1211100F0E0D0C0B
    ensures ReadLE64(s, 16) == 0x1716151413121110
  {}

  lemma KeyWords2(s: Bytes)
    requires |s| == 136 && CountsUp(s)
    ensures ReadLE64(s, 19) == 0x1A19181716151413 && ReadLE64(s, 24) == 0x1F1E1D1C1B1A1918 && ReadLE64(s, 27) == 0x2221201F1E1D1C1B
    ensures ReadLE64(s, 32) == 0x2726252423222120
  {}

  lemma KeyWords3(s: Bytes)
    requires |s| == 136 && CountsUp(s)
    ensures ReadLE64(s, 35) == 0x2A29282726252423 && ReadLE64(s, 40) == 0x2F2E2D2C2B2A2928 && ReadLE64(s, 43) == 0x3231302F2E2D2C2B
    ensures ReadLE64(s, 48) == 0x3736353433323130
  {}

  lemma KeyWords4(s: Bytes)
    requires |s| == 136 && CountsUp(s)
    ensures ReadLE64(s, 51) == 0x3A39383736353433 && ReadLE64(s, 56) == 0x3F3E3D3C3B3A3938 && ReadLE64(s, 59) == 0x4241403F3E3D3C3B
    ensures ReadLE64(s, 64) == 0x4746454443424140
  {}

  lemma KeyWords5(s: Bytes)
    requires |s| == 136 && CountsUp(s)
    ensures ReadLE64(s, 65) == 0x4847464544434241 && ReadLE64(s, 67) == 0x4A49484746454443 && ReadLE64(s, 72) == 0x4F4E4D4C4B4A4948
    ensures ReadLE64(s, 73) == 0x504F4E4D4C4B4A49
  {}

  lemma KeyWords6(s: Bytes)
    requires |s| == 136 && CountsUp(s)
    ensures ReadLE64(s, 80) == 0x5756555453525150 && ReadLE64(s, 81) == 0x5857565554535251 && ReadLE64(s, 88) == 0x5F5E5D5C5B5A5958
    ensures ReadLE64(s, 89) == 0x605F5E5D5C5B5A59
  {}

  lemma KeyWords7(s: Bytes)
    requires |s| == 136 && CountsUp(s)
    ensures ReadLE64(s, 96) == 0x6766656463626160 && ReadLE64(s, 97) == 0x6867666564636261 && ReadLE64(s, 104) == 0x6F6E6D6C6B6A6968
    ensures ReadLE64(s, 105) == 0x706F6E6D6C6B6A69
  {}

  lemma KeyWords8(s: Bytes)
    requires |s| == 136 && CountsUp(s)
    ensures ReadLE64(s, 112) == 0x7776757473727170 && ReadLE64(s, 113) == 0x7877767574737271 && ReadLE64(s, 120) == 0x7F7E7D7C7B7A7978
    ensures ReadLE64(s, 121) == 0x807F7E7D7C7B7A79
  {}

  lemma KeyWords9(s: Bytes)
    requires |s| == 136 && CountsUp(s)
    ensures ReadLE64(s, 128) == 0x8786858483828180
  {}

  lemma KeyProducts1Steps()
    ensures Times64(Low32(0x0706050403020100), High32(0x0706050403020100)) == 0x001520221C0D0400
    ensures Times64(Low32(0x0F0E0D0C0B0A0908), High32(0x0F0E0D0C0B0A0908)) == 0x00A631A3FD5DD460
    ensures Times64(Low32(0x1716151413121110), High32(0x1716151413121110)) == 0x01B844A7E02FA540
    ensures Times64(Low32(0x1F1E1D1C1B1A1918), High32(0x1F1E1D1C1B1A1918)) == 0x034B592DC48276A0
    ensures Times64(Low32(0x2726252423222120), High32(0x2726252423222120)) == 0x055F6F35AA564880
    ensures Times64(Low32(0x2F2E2D2C2B2A2928), High32(0x2F2E2D2C2B2A2928)) == 0x07F486BF91AB1AE0
    ensures Times64(Low32(0x3736353433323130), High32(0x3736353433323130)) == 0x0B0A9FCB7A80EDC0
    ensures Times64(Low32(0x3F3E3D3C3B3A3938), High32(0x3F3E3D3C3B3A3938)) == 0x0EA1BA5964D7C120
  {}

  lemma KeyProducts1(s: Bytes)
    requires |s| == 136 && CountsUp(s)
    ensures KeyProduct(s, 0) == 0x001520221C0D0400 && KeyProduct(s, 1) == 0x00A631A3FD5DD460 && KeyProduct(s, 2) == 0x01B844A7E02FA540
    ensures KeyProduct(s, 3) == 0x034B592DC48276A0 && KeyProduct(s, 4) == 0x055F6F35AA564880 && KeyProduct(s, 5) == 0x07F486BF91AB1AE0
    ensures KeyProduct(s, 6) == 0x0B0A9FCB7A80EDC0 && KeyProduct(s, 7) == 0x0EA1BA5964D7C120
  {
    hide CountsUp, ReadLE64, Times64, Low32, High32;
    KeyWords1(s);
    KeyWords2(s);
    KeyWords3(s);
    KeyWords4(s);
    KeyProducts1Steps();
  }

  lemma KeyProducts2Steps()
    ensures Times64(Low32(0x4746454443424140), High32(0x4746454443424140)) == 0x12B9D66950AF9500
    ensures Times64(Low32(0x4F4E4D4C4B4A4948), High32(0x4F4E4D4C4B4A4948)) == 0x1752F3FB3E086960
    ensures Times64(Low32(0x5756555453525150), High32(0x5756555453525150)) == 0x1C6D130F2CE23E40
    ensures Times64(Low32(0x5F5E5D5C5B5A5958), High32(0x5F5E5D5C5B5A5958)) == 0x220833A51D3D13A0
    ensures Times64(Low32(0x6766656463626160), High32(0x6766656463626160)) == 0x282455BD0F18E980
    ensures Times64(Low32(0x6F6E6D6C6B6A6968), High32(0x6F6E6D6C6B6A6968)) == 0x2EC179570275BFE0
    ensures Times64(Low32(0x7776757473727170), High32(0x7776757473727170)) == 0x35DF9E72F75396C0
    ensures Times64(Low32(0x7F7E7D7C7B7A7978), High32(0x7F7E7D7C7B7A7978)) == 0x3D7EC510EDB26E20
  {}

  lemma KeyProducts2(s: Bytes)
    requires |s| == 136 && CountsUp(s)
    ensures KeyProduct(s, 8) == 0x12B9D66950AF9500 && KeyProduct(s, 9) == 0x1752F3FB3E086960 && KeyProduct(s, 10) == 0x1C6D130F2CE23E40
    ensures KeyProduct(s, 11) == 0x220833A51D3D13A0 && KeyProduct(s, 12) == 0x282455BD0F18E980 && KeyProduct(s, 13) == 0x2EC179570275BFE0
    ensures KeyProduct(s, 14) == 0x35DF9E72F75396C0 && KeyProduct(s, 15) == 0x3D7EC510EDB26E20
  {
    hide CountsUp, ReadLE64, Times64, Low32, High32;
    KeyWords4(s);
    KeyWords5(s);
    KeyWords6(s);
    KeyWords7(s);
    KeyWords8(s);
    KeyProducts2Steps();
  }

  lemma Lane0Sums()
    ensures Plus64(0x00000000C2B2AE3D, 0x001520221C0D0400) == 0x00152022DEBFB23D
    ensures Plus64(0x00152022DEBFB23D, 0x00A631A3FD5DD460) == 0x00BB51C6DC1D869D
    ensures Plus64(0x00BB51C6DC1D869D, 0x01B844A7E02FA540) == 0x0273966EBC4D2BDD
    ensures Plus64(0x0273966EBC4D2BDD, 0x034B592DC48276A0) == 0x05BEEF9C80CFA27D
    ensures Plus64(0x05BEEF9C80CFA27D, 0x055F6F35AA564880) == 0x0B1E5ED22B25EAFD
    ensures Plus64(0x0B1E5ED22B25EAFD, 0x07F486BF91AB1AE0) == 0x1312E591BCD105DD
    ensures Plus64(0x1312E591BCD105DD, 0x0B0A9FCB7A80EDC0) == 0x1E1D855D3751F39D
    ensures Plus64(0x1E1D855D3751F39D, 0x0EA1BA5964D7C120) == 0x2CBF3FB69C29B4BD
    ensures Plus64(0x2CBF3FB69C29B4BD, 0x12B9D66950AF9500) == 0x3F79161FECD949BD
  {}

  lemma Lane0After(s: Bytes)
    requires |s| == 136 && CountsUp(s)
    ensures LaneAfter(s, 0, 9) == 0x3F79161FECD949BD
  {
    hide CountsUp, KeyProduct, Plus64, InitAcc;
    StartAcc();
    KeyProducts1(s);
    KeyProducts2(s);
    Lane0Sums();
    assert LaneAfter(s, 0, 1) == 0x00152022DEBFB23D;
    assert LaneAfter(s, 0, 2) == 0x00BB51C6DC1D869D;
    assert LaneAfter(s, 0, 3) == 0x0273966EBC4D2BDD;
    assert LaneAfter(s, 0, 4) == 0x05BEEF9C80CFA27D;
    assert LaneAfter(s, 0, 5) == 0x0B1E5ED22B25EAFD;
    assert LaneAfter(s, 0, 6) == 0x1312E591BCD105DD;
    assert LaneAfter(s, 0, 7) == 0x1E1D855D3751F39D;
    assert LaneAfter(s, 0, 8) == 0x2CBF3FB69C29B4BD;
    assert LaneAfter(s, 0, 9) == 0x3F79161FECD949BD;
  }

  lemma Lane1Sums()
    ensures Plus64(0x9E3779B185EBCA87, 0x00A631A3FD5DD460) == 0x9EDDAB5583499EE7
    ensures Plus64(0x9EDDAB5583499EE7, 0x01B844A7E02FA540) == 0xA095EFFD63794427
    ensures Plus64(0xA095EFFD63794427, 0x034B592DC48276A0) == 0xA3E1492B27FBBAC7
    ensures Plus64(0xA3E1492B27FBBAC7, 0x055F6F35AA564880) == 0xA940B860D2520347
    ensures Plus64(0xA940B860D2520347, 0x07F486BF91AB1AE0) == 0xB1353F2063FD1E27
    ensures Plus64(0xB1353F2063FD1E27, 0x0B0A9FCB7A80EDC0) == 0xBC3FDEEBDE7E0BE7
    ensures Plus64(0xBC3FDEEBDE7E0BE7, 0x0EA1BA5964D7C120) == 0xCAE199454355CD07
    ensures Plus64(0xCAE199454355CD07, 0x12B9D66950AF9500) == 0xDD9B6FAE94056207
    ensures Plus64(0xDD9B6FAE94056207, 0x1752F3FB3E086960) == 0xF4EE63A9D20DCB67
  {}

  lemma Lane1After(s: Bytes)
    requires |s| == 136 && CountsUp(s)
    ensures LaneAfter(s, 1, 9) == 0xF4EE63A9D20DCB67
  {
    hide CountsUp, KeyProduct, Plus64, InitAcc;
    StartAcc();
    KeyProducts1(s);
    KeyProducts2(s);
    Lane1Sums();
    assert LaneAfter(s, 1, 1) == 0x9EDDAB5583499EE7;
    assert LaneAfter(s, 1, 2) == 0xA095EFFD63794427;
    assert LaneAfter(s, 1, 3) == 0xA3E1492B27FBBAC7;
    assert LaneAfter(s, 1, 4) == 0xA940B860D2520347;
    assert LaneAfter(s, 1, 5) == 0xB1353F2063FD1E27;
    assert LaneAfter(s, 1, 6) == 0xBC3FDEEBDE7E0BE7;
    assert LaneAfter(s, 1, 7) == 0xCAE199454355CD07;
    assert LaneAfter(s, 1, 8) == 0xDD9B6FAE94056207;
    assert LaneAfter(s, 1, 9) == 0xF4EE63A9D20DCB67;
  }

  lemma Lane2Sums()
    ensures Plus64(0xC2B2AE3D27D4EB4F, 0x01B844A7E02FA540) == 0xC46AF2E50804908F
    ensures Plus64(0xC46AF2E50804908F, 0x034B592DC48276A0) == 0xC7B64C12CC87072F
    ensures Plus64(0xC7B64C12CC87072F, 0x055F6F35AA564880) == 0xCD15BB4876DD4FAF
    ensures Plus64(0xCD15BB4876DD4FAF, 0x07F486BF91AB1AE0) == 0xD50A420808886A8F
    ensures Plus64(0xD50A420808886A8F, 0x0B0A9FCB7A80EDC0) == 0xE014E1D38309584F
    ensures Plus64(0xE014E1D38309584F, 0x0EA1BA5964D7C120) == 0xEEB69C2CE7E1196F
    ensures Plus64(0xEEB69C2CE7E1196F, 0x12B9D66950AF9500) == 0x017072963890AE6F
    ensures Plus64(0x017072963890AE6F, 0x1752F3FB3E086960) == 0x18C36691769917CF
    ensures Plus64(0x18C36691769917CF, 0x1C6D130F2CE23E40) == 0x353079A0A37B560F
  {}

  lemma Lane2After(s: Bytes)
    requires |s| == 136 && CountsUp(s)
    ensures LaneAfter(s, 2, 9) == 0x353079A0A37B560F
  {
    hide CountsUp, KeyProduct, Plus64, InitAcc;
    StartAcc();
    KeyProducts1(s);
    KeyProducts2(s);
    Lane2Sums();
    assert LaneAfter(s, 2, 1) == 0xC46AF2E50804908F;
    assert LaneAfter(s, 2, 2) == 0xC7B64C12CC87072F;
    assert LaneAfter(s, 2, 3) == 0xCD15BB4876DD4FAF;
    assert LaneAfter(s, 2, 4) == 0xD50A420808886A8F;
    assert LaneAfter(s, 2, 5) == 0xE014E1D38309584F;
    assert LaneAfter(s, 2, 6) == 0xEEB69C2CE7E1196F;
    assert LaneAfter(s, 2, 7) == 0x017072963890AE6F;
    assert LaneAfter(s, 2, 8) == 0x18C36691769917CF;
    assert LaneAfter(s, 2, 9) == 0x353079A0A37B560F;
  }

  lemma Lane3Sums()
    ensures Plus64(0x165667B19E3779F9, 0x034B592DC48276A0) == 0x19A1C0DF62B9F099
    ensures Plus64(0x19A1C0DF62B9F099, 0x055F6F35AA564880) == 0x1F0130150D103919
    ensures Plus64(0x1F0130150D103919, 0x07F486BF91AB1AE0) == 0x26F5B6D49EBB53F9
    ensures Plus64(0x26F5B6D49EBB53F9, 0x0B0A9FCB7A80EDC0) == 0x320056A0193C41B9
    ensures Plus64(0x320056A0193C41B9, 0x0EA1BA5964D7C120) == 0x40A210F97E1402D9
    ensures Plus64(0x40A210F97E1402D9, 0x12B9D66950AF9500) == 0x535BE762CEC397D9
    ensures Plus64(0x535BE762CEC397D9, 0x1752F3FB3E086960) == 0x6AAEDB5E0CCC0139
    ensures Plus64(0x6AAEDB5E0CCC0139, 0x1C6D130F2CE23E40) == 0x871BEE6D39AE3F79
    ensures Plus64(0x871BEE6D39AE3F79, 0x220833A51D3D13A0) == 0xA924221256EB5319
  {}

  lemma Lane3After(s: Bytes)
    requires |s| == 136 && CountsUp(s)
    ensures LaneAfter(s, 3, 9) == 0xA924221256EB5319
  {
    hide CountsUp, KeyProduct, Plus64, InitAcc;
    StartAcc();
    KeyProducts1(s);
    KeyProducts2(s);
    Lane3Sums();
    assert LaneAfter(s, 3, 1) == 0x19A1C0DF62B9F099;
    assert LaneAfter(s, 3, 2) == 0x1F0130150D103919;
    assert LaneAfter(s, 3, 3) == 0x26F5B6D49EBB53F9;
    assert LaneAfter(s, 3, 4) == 0x320056A0193C41B9;
    assert LaneAfter(s, 3, 5) == 0x40A210F97E1402D9;
    assert LaneAfter(s, 3, 6) == 0x535BE762CEC397D9;
    assert LaneAfter(s, 3, 7) == 0x6AAEDB5E0CCC0139;
    assert LaneAfter(s, 3, 8) == 0x871BEE6D39AE3F79;
    assert LaneAfter(s, 3, 9) == 0xA924221256EB5319;
  }

  lemma Lane4Sums()
    ensures Plus64(0x85EBCA77C2B2AE63, 0x055F6F35AA564880) == 0x8B4B39AD6D08F6E3
    ensures Plus64(0x8B4B39AD6D08F6E3, 0x07F486BF91AB1AE0) == 0x933FC06CFEB411C3
    ensures Plus64(0x933FC06CFEB411C3, 0x0B0A9FCB7A80EDC0) == 0x9E4A60387934FF83
    ensures Plus64(0x9E4A60387934FF83, 0x0EA1BA5964D7C120) == 0xACEC1A91DE0CC0A3
    ensures Plus64(0xACEC1A91DE0CC0A3, 0x12B9D66950AF9500) == 0xBFA5F0FB2EBC55A3
    ensures Plus64(0xBFA5F0FB2EBC55A3, 0x1752F3FB3E086960) == 0xD6F8E4F66CC4BF03
    ensures Plus64(0xD6F8E4F66CC4BF03, 0x1C6D130F2CE23E40) == 0xF365F80599A6FD43
    ensures Plus64(0xF365F80599A6FD43, 0x220833A51D3D13A0) == 0x156E2BAAB6E410E3
    ensures Plus64(0x156E2BAAB6E410E3, 0x282455BD0F18E980) == 0x3D928167C5FCFA63
  {}

  lemma Lane4After(s: Bytes)
    requires |s| == 136 && CountsUp(s)
    ensures LaneAfter(s, 4, 9) == 0x3D928167C5FCFA63
  {
    hide CountsUp, KeyProduct, Plus64, InitAcc;
    StartAcc();
    KeyProducts1(s);
    KeyProducts2(s);
    Lane4Sums();
    assert LaneAfter(s, 4, 1) == 0x8B4B39AD6D08F6E3;
    assert LaneAfter(s, 4, 2) == 0x933FC06CFEB411C3;
    assert LaneAfter(s, 4, 3) == 0x9E4A60387934FF83;
    assert LaneAfter(s, 4, 4) == 0xACEC1A91DE0CC0A3;
    assert LaneAfter(s, 4, 5) == 0xBFA5F0FB2EBC55A3;
    assert LaneAfter(s, 4, 6) == 0xD6F8E4F66CC4BF03;
    assert LaneAfter(s, 4, 7) == 0xF365F80599A6FD43;
    assert LaneAfter(s, 4, 8) == 0x156E2BAAB6E410E3;
    assert LaneAfter(s, 4, 9) == 0x3D928167C5FCFA63;
  }

  lemma Lane5Sums()
    ensures Plus64(0x0000000085EBCA77, 0x07F486BF91AB1AE0) == 0x07F486C01796E557
    ensures Plus64(0x07F486C01796E557, 0x0B0A9FCB7A80EDC0) == 0x12FF268B9217D317
    ensures Plus64(0x12FF268B9217D317, 0x0EA1BA5964D7C120) == 0x21A0E0E4F6EF9437
    ensures Plus64(0x21A0E0E4F6EF9437, 0x12B9D66950AF9500) == 0x345AB74E479F2937
    ensures Plus64(0x345AB74E479F2937, 0x1752F3FB3E086960) == 0x4BADAB4985A79297
    ensures Plus64(0x4BADAB4985A79297, 0x1C6D130F2CE23E40) == 0x681ABE58B289D0D7
    ensures Plus64(0x681ABE58B289D0D7, 0x220833A51D3D13A0) == 0x8A22F1FDCFC6E477
    ensures Plus64(0x8A22F1FDCFC6E477, 0x282455BD0F18E980) == 0xB24747BADEDFCDF7
    ensures Plus64(0xB24747BADEDFCDF7, 0x2EC179570275BFE0) == 0xE108C111E1558DD7
  {}

  lemma Lane5After(s: Bytes)
    requires |s| == 136 && CountsUp(s)
    ensures LaneAfter(s, 5, 9) == 0xE108C111E1558DD7
  {
    hide CountsUp, KeyProduct, Plus64, InitAcc;
    StartAcc();
    KeyProducts1(s);
    KeyProducts2(s);
    Lane5Sums();
    assert LaneAfter(s, 5, 1) == 0x07F486C01796E557;
    assert LaneAfter(s, 5, 2) == 0x12FF268B9217D317;
    assert LaneAfter(s, 5, 3) == 0x21A0E0E4F6EF9437;
    assert LaneAfter(s, 5, 4) == 0x345AB74E479F2937;
    assert LaneAfter(s, 5, 5) == 0x4BADAB4985A79297;
    assert LaneAfter(s, 5, 6) == 0x681ABE58B289D0D7;
    assert LaneAfter(s, 5, 7) == 0x8A22F1FDCFC6E477;
    assert LaneAfter(s, 5, 8) == 0xB24747BADEDFCDF7;
    assert LaneAfter(s, 5, 9) == 0xE108C111E1558DD7;
  }

  lemma Lane6Sums()
    ensures Plus64(0x27D4EB2F165667C5, 0x0B0A9FCB7A80EDC0) == 0x32DF8AFA90D75585
    ensures Plus64(0x32DF8AFA90D75585, 0x0EA1BA5964D7C120) == 0x41814553F5AF16A5
    ensures Plus64(0x41814553F5AF16A5, 0x12B9D66950AF9500) == 0x543B1BBD465EABA5
    ensures Plus64(0x543B1BBD465EABA5, 0x1752F3FB3E086960) == 0x6B8E0FB884671505
    ensures Plus64(0x6B8E0FB884671505, 0x1C6D130F2CE23E40) == 0x87FB22C7B1495345
    ensures Plus64(0x87FB22C7B1495345, 0x220833A51D3D13A0) == 0xAA03566CCE8666E5
    ensures Plus64(0xAA03566CCE8666E5, 0x282455BD0F18E980) == 0xD227AC29DD9F5065
    ensures Plus64(0xD227AC29DD9F5065, 0x2EC179570275BFE0) == 0x00E92580E0151045
    ensures Plus64(0x00E92580E0151045, 0x35DF9E72F75396C0) == 0x36C8C3F3D768A705
  {}

  lemma Lane6After(s: Bytes)
    requires |s| == 136 && CountsUp(s)
    ensures LaneAfter(s, 6, 9) == 0x36C8C3F3D768A705
  {
    hide CountsUp, KeyProduct, Plus64, InitAcc;
    StartAcc();
    KeyProducts1(s);
    KeyProducts2(s);
    Lane6Sums();
    assert LaneAfter(s, 6, 1) == 0x32DF8AFA90D75585;
    assert LaneAfter(s, 6, 2) == 0x41814553F5AF16A5;
    assert LaneAfter(s, 6, 3) == 0x543B1BBD465EABA5;
    assert LaneAfter(s, 6, 4) == 0x6B8E0FB884671505;
    assert LaneAfter(s, 6, 5) == 0x87FB22C7B1495345;
    assert LaneAfter(s, 6, 6) == 0xAA03566CCE8666E5;
    assert LaneAfter(s, 6, 7) == 0xD227AC29DD9F5065;
    assert LaneAfter(s, 6, 8) == 0x00E92580E0151045;
    assert LaneAfter(s, 6, 9) == 0x36C8C3F3D768A705;
  }

  lemma Lane7Sums()
    ensures Plus64(0x000000009E3779B1, 0x0EA1BA5964D7C120) == 0x0EA1BA5A030F3AD1
    ensures Plus64(0x0EA1BA5A030F3AD1, 0x12B9D66950AF9500) == 0x215B90C353BECFD1
    ensures Plus64(0x215B90C353BECFD1, 0x1752F3FB3E086960) == 0x38AE84BE91C73931
    ensures Plus64(0x38AE84BE91C73931, 0x1C6D130F2CE23E40) == 0x551B97CDBEA97771
    ensures Plus64(0x551B97CDBEA97771, 0x220833A51D3D13A0) == 0x7723CB72DBE68B11
    ensures Plus64(0x7723CB72DBE68B11, 0x282455BD0F18E980) == 0x9F48212FEAFF7491
    ensures Plus64(0x9F48212FEAFF7491, 0x2EC179570275BFE0) == 0xCE099A86ED753471
    ensures Plus64(0xCE099A86ED753471, 0x35DF9E72F75396C0) == 0x03E938F9E4C8CB31
    ensures Plus64(0x03E938F9E4C8CB31, 0x3D7EC510EDB26E20) == 0x4167FE0AD27B3951
  {}

  lemma Lane7After(s: Bytes)
    requires |s| == 136 && CountsUp(s)
    ensures LaneAfter(s, 7, 9) == 0x4167FE0AD27B3951
  {
    hide CountsUp, KeyProduct, Plus64, InitAcc;
    StartAcc();
    KeyProducts1(s);
    KeyProducts2(s);
    Lane7Sums();
    assert LaneAfter(s, 7, 1) == 0x0EA1BA5A030F3AD1;
    assert LaneAfter(s, 7, 2) == 0x215B90C353BECFD1;
    assert LaneAfter(s, 7, 3) == 0x38AE84BE91C73931;
    assert LaneAfter(s, 7, 4) == 0x551B97CDBEA97771;
    assert LaneAfter(s, 7, 5) == 0x7723CB72DBE68B11;
    assert LaneAfter(s, 7, 6) == 0x9F48212FEAFF7491;
    assert LaneAfter(s, 7, 7) == 0xCE099A86ED753471;
    assert LaneAfter(s, 7, 8) == 0x03E938F9E4C8CB31;
    assert LaneAfter(s, 7, 9) == 0x4167FE0AD27B3951;
  }

  lemma ScrambleSteps1()
    ensures XorShift64(0x3F79161FECD949BD, 47) == 0x3F79161FECD9374F && Xor64(0x3F79161FECD9374F, 0x4F4E4D4C4B4A4948) == 0x70375B53A7937E07
    ensures Times64(0x70375B53A7937E07, 0x000000009E3779B1) == 0x00D6B783F90C71D7 && XorShift64(0xF4EE63A9D20DCB67, 47) == 0xF4EE63A9D20C22BB
    ensures Xor64(0xF4EE63A9D20C22BB, 0x5756555453525150) == 0xA3B836FD815E73EB
    ensures Times64(0xA3B836FD815E73EB, 0x000000009E3779B1) == 0x8AAAEE420895387B && XorShift64(0x353079A0A37B560F, 47) == 0x353079A0A37B3C6F
    ensures Xor64(0x353079A0A37B3C6F, 0x5F5E5D5C5B5A5958) == 0x6A6E24FCF8216537
    ensures Times64(0x6A6E24FCF8216537, 0x000000009E3779B1) == 0xB9210FD408BEFA07 && XorShift64(0xA924221256EB5319, 47) == 0xA924221256EA0151
    ensures Xor64(0xA924221256EA0151, 0x6766656463626160) == 0xCE42477635886031
    ensures Times64(0xCE42477635886031, 0x000000009E3779B1) == 0x3F09F3B36148AAE1
  {}

  lemma ScrambleSteps2()
    ensures XorShift64(0x3D928167C5FCFA63, 47) == 0x3D928167C5FC8146 && Xor64(0x3D928167C5FC8146, 0x6F6E6D6C6B6A6968) == 0x52FCEC0BAE96E82E
    ensures Times64(0x52FCEC0BAE96E82E, 0x000000009E3779B1) == 0xD8B45F514FF645CE && XorShift64(0xE108C111E1558DD7, 47) == 0xE108C111E1544FC6
    ensures Xor64(0xE108C111E1544FC6, 0x7776757473727170) == 0x967EB46592263EB6
    ensures Times64(0x967EB46592263EB6, 0x000000009E3779B1) == 0x62E4BD39ED2F61D6 && XorShift64(0x36C8C3F3D768A705, 47) == 0x36C8C3F3D768CA94
    ensures Xor64(0x36C8C3F3D768CA94, 0x7F7E7D7C7B7A7978) == 0x49B6BE8FAC12B3EC
    ensures Times64(0x49B6BE8FAC12B3EC, 0x000000009E3779B1) == 0xF47D2CBB1FACF22C && XorShift64(0x4167FE0AD27B3951, 47) == 0x4167FE0AD27BBB9E
    ensures Xor64(0x4167FE0AD27BBB9E, 0x8786858483828180) == 0xC6E17B8E51F93A1E
    ensures Times64(0xC6E17B8E51F93A1E, 0x000000009E3779B1) == 0x7778208F7A3B5CBE
  {}

  lemma ScramblePrime()
    ensures Xxh32.PRIME32_1 as bv64 == 0x000000009E3779B1
  {}

  lemma Scrambled1(s: Bytes, key: Bytes)
    requires |s| == 136 && CountsUp(s) && key == Key(s, 72)
    ensures ScrambledLane(0x3F79161FECD949BD, ReadLE64(key, 0)) == 0x00D6B783F90C71D7
    ensures ScrambledLane(0xF4EE63A9D20DCB67, ReadLE64(key, 8)) == 0x8AAAEE420895387B
    ensures ScrambledLane(0x353079A0A37B560F, ReadLE64(key, 16)) == 0xB9210FD408BEFA07
    ensures ScrambledLane(0xA924221256EB5319, ReadLE64(key, 24)) == 0x3F09F3B36148AAE1
  {
    hide CountsUp, ReadLE64, XorShift64, Xor64, Times64;
    ScramblePrime();
    KeyWords5(s);
    KeyWords6(s);
    KeyWords7(s);
    ReadSlice(s, 72, 136, 0);
    ReadSlice(s, 72, 136, 8);
    ReadSlice(s, 72, 136, 16);
    ReadSlice(s, 72, 136, 24);
    ScrambleSteps1();
  }

  lemma Scrambled2(s: Bytes, key: Bytes)
    requires |s| == 136 && CountsUp(s) && key == Key(s, 72)
    ensures ScrambledLane(0x3D928167C5FCFA63, ReadLE64(key, 32)) == 0xD8B45F514FF645CE
    ensures ScrambledLane(0xE108C111E1558DD7, ReadLE64(key, 40)) == 0x62E4BD39ED2F61D6
    ensures ScrambledLane(0x36C8C3F3D768A705, ReadLE64(key, 48)) == 0xF47D2CBB1FACF22C
    ensures ScrambledLane(0x4167FE0AD27B3951, ReadLE64(key, 56)) == 0x7778208F7A3B5CBE
  {
    hide CountsUp, ReadLE64, XorShift64, Xor64, Times64;
    ScramblePrime();
    KeyWords7(s);
    KeyWords8(s);
    KeyWords9(s);
    ReadSlice(s, 72, 136, 32);
    ReadSlice(s, 72, 136, 40);
    ReadSlice(s, 72, 136, 48);
    ReadSlice(s, 72, 136, 56);
    ScrambleSteps2();
  }

  lemma ScrambledBlock(s: Bytes)
    requires |s| == 136 && CountsUp(s)
    ensures Scrambled(LanesAfter(s, 9), Key(s, 72))
      == [0x00D6B783F90C71D7, 0x8AAAEE420895387B, 0xB9210FD408BEFA07, 0x3F09F3B36148AAE1, 0xD8B45F514FF645CE, 0x62E4BD39ED2F61D6, 0xF47D2CBB1FACF22C, 0x7778208F7A3B5CBE]
  {
    hide CountsUp, ReadLE64, ScrambledLane, LaneAfter;
    Lane0After(s);
    Lane1After(s);
    Lane2After(s);
    Lane3After(s);
    Lane4After(s);
    Lane5After(s);
    Lane6After(s);
    Lane7After(s);
    Scrambled1(s, Key(s, 72));
    Scrambled2(s, Key(s, 72));
  }

  lemma EndProducts()
    ensures Times64(Low32(0x4847464544434241), High32(0x4847464544434241)) == 0x1345EC067245A185
    ensures Times64(Low32(0x504F4E4D4C4B4A49), High32(0x504F4E4D4C4B4A49)) == 0x17EF29C89FCE95F5
    ensures Times64(Low32(0x5857565554535251), High32(0x5857565554535251)) == 0x1D19690CCED88AE5
    ensures Times64(Low32(0x605F5E5D5C5B5A59), High32(0x605F5E5D5C5B5A59)) == 0x22C4A9D2FF638055
    ensures Times64(Low32(0x6867666564636261), High32(0x6867666564636261)) == 0x28F0EC1B316F7645
    ensures Times64(Low32(0x706F6E6D6C6B6A69), High32(0x706F6E6D6C6B6A69)) == 0x2F9E2FE564FC6CB5
    ensures Times64(Low32(0x7877767574737271), High32(0x7877767574737271)) == 0x36CC75319A0A63A5
    ensures Times64(Low32(0x807F7E7D7C7B7A79), High32(0x807F7E7D7C7B7A79)) == 0x3E7BBBFFD0995B15
  {}

  lemma EndSums()
    ensures Plus64(0x00D6B783F90C71D7, 0x1345EC067245A185) == 0x141CA38A6B52135C
    ensures Plus64(0x8AAAEE420895387B, 0x17EF29C89FCE95F5) == 0xA29A180AA863CE70
    ensures Plus64(0xB9210FD408BEFA07, 0x1D19690CCED88AE5) == 0xD63A78E0D79784EC
    ensures Plus64(0x3F09F3B36148AAE1, 0x22C4A9D2FF638055) == 0x61CE9D8660AC2B36
    ensures Plus64(0xD8B45F514FF645CE, 0x28F0EC1B316F7645) == 0x01A54B6C8165BC13
    ensures Plus64(0x62E4BD39ED2F61D6, 0x2F9E2FE564FC6CB5) == 0x9282ED1F522BCE8B
    ensures Plus64(0xF47D2CBB1FACF22C, 0x36CC75319A0A63A5) == 0x2B49A1ECB9B755D1
    ensures Plus64(0x7778208F7A3B5CBE, 0x3E7BBBFFD0995B15) == 0xB5F3DC8F4AD4B7D3
  {}

  lemma EndLanes1(s: Bytes, stripe: Bytes, key: Bytes)
    requires |s| == 136 && CountsUp(s) && AllZero(stripe) && key == Key(s, 65)
    ensures Lane(0x00D6B783F90C71D7, stripe, key, 0) == 0x141CA38A6B52135C && Lane(0x8AAAEE420895387B, stripe, key, 1) == 0xA29A180AA863CE70
    ensures Lane(0xB9210FD408BEFA07, stripe, key, 2) == 0xD63A78E0D79784EC && Lane(0x3F09F3B36148AAE1, stripe, key, 3) == 0x61CE9D8660AC2B36
  {
    hide CountsUp, ReadLE64, Times64, Plus64, Low32, High32, Lane, AllZero;
    KeyWords5(s);
    KeyWords6(s);
    ReadSlice(s, 65, 129, 0);
    ZeroLane(0x00D6B783F90C71D7, stripe, key, 0);
    ReadSlice(s, 65, 129, 8);
    ZeroLane(0x8AAAEE420895387B, stripe, key, 1);
    ReadSlice(s, 65, 129, 16);
    ZeroLane(0xB9210FD408BEFA07, stripe, key, 2);
    ReadSlice(s, 65, 129, 24);
    ZeroLane(0x3F09F3B36148AAE1, stripe, key, 3);
    EndProducts();
    EndSums();
  }

  lemma EndLanes2(s: Bytes, stripe: Bytes, key: Bytes)
    requires |s| == 136 && CountsUp(s) && AllZero(stripe) && key == Key(s, 65)
    ensures Lane(0xD8B45F514FF645CE, stripe, key, 4) == 0x01A54B6C8165BC13 && Lane(0x62E4BD39ED2F61D6, stripe, key, 5) == 0x9282ED1F522BCE8B
    ensures Lane(0xF47D2CBB1FACF22C, stripe, key, 6) == 0x2B49A1ECB9B755D1 && Lane(0x7778208F7A3B5CBE, stripe, key, 7) == 0xB5F3DC8F4AD4B7D3
  {
    hide CountsUp, ReadLE64, Times64, Plus64, Low32, High32, Lane, AllZero;
    KeyWords7(s);
    KeyWords8(s);
    ReadSlice(s, 65, 129, 32);
    ZeroLane(0xD8B45F514FF645CE, stripe, key, 4);
    ReadSlice(s, 65, 129, 40);
    ZeroLane(0x62E4BD39ED2F61D6, stripe, key, 5);
    ReadSlice(s, 65, 129, 48);
    ZeroLane(0xF47D2CBB1FACF22C, stripe, key, 6);
    ReadSlice(s, 65, 129, 56);
    ZeroLane(0x7778208F7A3B5CBE, stripe, key, 7);
    EndProducts();
    EndSums();
  }

  lemma EndStripe(s: Bytes, acc: Lanes, stripe: Bytes, key: Bytes)
    requires |s| == 136 && CountsUp(s) && AllZero(stripe) && key == Key(s, 65) && acc == [0x00D6B783F90C71D7, 0x8AAAEE420895387B, 0xB9210FD408BEFA07, 0x3F09F3B36148AAE1, 0xD8B45F514FF645CE, 0x62E4BD39ED2F61D6, 0xF47D2CBB1FACF22C, 0x7778208F7A3B5CBE]
    ensures Accumulated(acc, stripe, key)
      == [0x141CA38A6B52135C, 0xA29A180AA863CE70, 0xD63A78E0D79784EC, 0x61CE9D8660AC2B36, 0x01A54B6C8165BC13, 0x9282ED1F522BCE8B, 0x2B49A1ECB9B755D1, 0xB5F3DC8F4AD4B7D3]
  {
    hide Lane, AllZero, CountsUp;
    EndLanes1(s, stripe, key);
    EndLanes2(s, stripe, key);
  }

  lemma EndWords()
    ensures Xor64(0x141CA38A6B52135C, 0x1211100F0E0D0C0B) == 0x060DB385655F1F57
    ensures Xor64(0xA29A180AA863CE70, 0x1A19181716151413) == 0xB883001DBE76DA63
    ensures Xor64(0xD63A78E0D79784EC, 0x2221201F1E1D1C1B) == 0xF41B58FFC98A98F7
    ensures Xor64(0x61CE9D8660AC2B36, 0x2A29282726252423) == 0x4BE7B5A146890F15
    ensures Xor64(0x01A54B6C8165BC13, 0x3231302F2E2D2C2B) == 0x33947B43AF489038
    ensures Xor64(0x9282ED1F522BCE8B, 0x3A39383736353433) == 0xA8BBD528641EFAB8
    ensures Xor64(0x2B49A1ECB9B755D1, 0x4241403F3E3D3C3B) == 0x6908E1D3878A69EA
    ensures Xor64(0xB5F3DC8F4AD4B7D3, 0x4A49484746454443) == 0xFFBA94C80C91F390
  {}

  lemma EndFolds()
    ensures MulFold(0x060DB385655F1F57, 0xB883001DBE76DA63) == 0xD46C16D44ABEBBA2
    ensures MulFold(0xF41B58FFC98A98F7, 0x4BE7B5A146890F15) == 0x1CC515D050B871D4
    ensures MulFold(0x33947B43AF489038, 0xA8BBD528641EFAB8) == 0xF043FC24BCE92261
    ensures MulFold(0x6908E1D3878A69EA, 0xFFBA94C80C91F390) == 0x210B7FA16BB4EF9B
  {}

  lemma EndTotals()
    ensures Len64(577) == 577 && Times64(577, 0x9E3779B185EBCA87) == 0x9B09491ED8737A47
    ensures Plus64(0x9B09491ED8737A47, 0xD46C16D44ABEBBA2) == 0x6F755FF3233235E9
    ensures Plus64(0x6F755FF3233235E9, 0x1CC515D050B871D4) == 0x8C3A75C373EAA7BD
    ensures Plus64(0x8C3A75C373EAA7BD, 0xF043FC24BCE92261) == 0x7C7E71E830D3CA1E
    ensures Plus64(0x7C7E71E830D3CA1E, 0x210B7FA16BB4EF9B) == 0x9D89F1899C88B9B9
  {}

  lemma EndMixedSteps()
    ensures XorShift64(0x9D89F1899C88B9B9, 37) == 0x9D89F1899864F635 && Times64(0x9D89F1899864F635, 0x165667919E3779F9) == 0x7300CC878DF5868D
    ensures XorShift64(0x7300CC878DF5868D, 32) == 0x7300CC87FEF54A0A
  {}

  lemma EndMixed()
    ensures Avalanche(0x9D89F1899C88B9B9) == 0x7300CC87FEF54A0A
  {
    hide XorShift64, Times64;
    EndMixedSteps();
  }

  lemma EndMerged(s: Bytes, acc: Lanes)
    requires |s| == 136 && CountsUp(s) && acc == [0x141CA38A6B52135C, 0xA29A180AA863CE70, 0xD63A78E0D79784EC, 0x61CE9D8660AC2B36, 0x01A54B6C8165BC13, 0x9282ED1F522BCE8B, 0x2B49A1ECB9B755D1, 0xB5F3DC8F4AD4B7D3]
    ensures MergeSum(acc, s, 11, 0x9B09491ED8737A47, 4) == 0x9D89F1899C88B9B9
  {
    hide CountsUp, ReadLE64, Xor64, MulFold, Plus64;
    KeyWords1(s);
    KeyWords2(s);
    KeyWords3(s);
    KeyWords4(s);
    KeyWords5(s);
    EndWords();
    EndFolds();
    EndTotals();
    assert MergeSum(acc, s, 11, 0x9B09491ED8737A47, 1) == 0x6F755FF3233235E9;
    assert MergeSum(acc, s, 11, 0x9B09491ED8737A47, 2) == 0x8C3A75C373EAA7BD;
    assert MergeSum(acc, s, 11, 0x9B09491ED8737A47, 3) == 0x7C7E71E830D3CA1E;
    assert MergeSum(acc, s, 11, 0x9B09491ED8737A47, 4) == 0x9D89F1899C88B9B9;
  }

  /** 577 zero bytes, with the bytes 0 to 135 as the secret: a block with its scramble, and the last stripe. */
  lemma WholeBlock(s: Bytes, b: Bytes)
    requires |s| == 136 && CountsUp(s) && |b| == 577 && AllZero(b)
    ensures Hash(b, s, 0) == 0x7300CC87FEF54A0A
  {
    hide CountsUp, Accumulated, Scrambled, LanesAfter, LongHash, MergeSum, Avalanche, Times64, Len64;
    var acc := Scrambled(LanesAfter(s, 9), Key(s, 72));
    ZeroBlock(s, b);
    ScrambledBlock(s);
    EndStripe(s, acc, b[513..], Key(s, 65));
    EndMerged(s, Accumulated(acc, b[513..], Key(s, 65)));
    EndTotals();
    EndMixed();
  }
}
