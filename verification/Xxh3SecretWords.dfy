/** The words of the secret of XXH3 (xxhash.h). */
module Xxh3SecretWords {
  import opened XxhWords
  import opened Xxh3Mix

  function SecretAt(k: nat): bv8
    requires k < SECRET_DEFAULT_SIZE
  {
    SecretRow(k / 16)[k % 16]
  }

  lemma {:induction false} RowsAt(n: nat, k: nat)
    requires k < 16 * n <= SECRET_DEFAULT_SIZE
    ensures SecretRows(n)[k] == SecretAt(k)
  {
    hide SecretRow;
    if k < 16 * (n - 1) {
      RowsAt(n - 1, k);
    } else {
      assert SecretRows(n)[k] == SecretRow(n - 1)[k - 16 * (n - 1)];
    }
  }

  lemma SecretHalf(o: nat)
    requires o + 4 <= SECRET_DEFAULT_SIZE
    ensures ReadLE32(DefaultSecret(), o) == FourBytes(SecretAt(o), SecretAt(o + 1), SecretAt(o + 2), SecretAt(o + 3))
  {
    hide SecretRow, FourBytes, SecretRows, SecretAt;
    RowsAt(12, o);
    RowsAt(12, o + 1);
    RowsAt(12, o + 2);
    RowsAt(12, o + 3);
  }

  lemma Halves1()
    ensures FourBytes(SecretAt(0), SecretAt(1), SecretAt(2), SecretAt(3)) == 0x396CFEB8
    ensures FourBytes(SecretAt(3), SecretAt(4), SecretAt(5), SecretAt(6)) == 0x4BA42339
    ensures FourBytes(SecretAt(4), SecretAt(5), SecretAt(6), SecretAt(7)) == 0xBE4BA423
    ensures FourBytes(SecretAt(7), SecretAt(8), SecretAt(9), SecretAt(10)) == 0x81017CBE
    ensures FourBytes(SecretAt(8), SecretAt(9), SecretAt(10), SecretAt(11)) == 0x2C81017C
    ensures FourBytes(SecretAt(12), SecretAt(13), SecretAt(14), SecretAt(15)) == 0x1CAD21F7
    ensures Joined64(0x396CFEB8, 0xBE4BA423) == 0xBE4BA423396CFEB8 && Joined64(0x4BA42339, 0x81017CBE) == 0x81017CBE4BA42339
    ensures Joined64(0x2C81017C, 0x1CAD21F7) == 0x1CAD21F72C81017C
  {}

  lemma Secret1()
    ensures ReadLE64(DefaultSecret(), 0) == 0xBE4BA423396CFEB8 && ReadLE64(DefaultSecret(), 3) == 0x81017CBE4BA42339
    ensures ReadLE64(DefaultSecret(), 8) == 0x1CAD21F72C81017C
  {
    hide FourBytes, SecretAt, Joined64, ReadLE32, DefaultSecret;
    Halves1();
    SecretHalf(0);
    SecretHalf(3);
    SecretHalf(4);
    SecretHalf(7);
    SecretHalf(8);
    SecretHalf(12);
  }

  lemma Halves2()
    ensures FourBytes(SecretAt(11), SecretAt(12), SecretAt(13), SecretAt(14)) == 0xAD21F72C
    ensures FourBytes(SecretAt(15), SecretAt(16), SecretAt(17), SecretAt(18)) == 0x6DD4DE1C
    ensures FourBytes(SecretAt(16), SecretAt(17), SecretAt(18), SecretAt(19)) == 0xE96DD4DE
    ensures FourBytes(SecretAt(19), SecretAt(20), SecretAt(21), SecretAt(22)) == 0x979083E9
    ensures FourBytes(SecretAt(20), SecretAt(21), SecretAt(22), SecretAt(23)) == 0xDB979083
    ensures FourBytes(SecretAt(23), SecretAt(24), SecretAt(25), SecretAt(26)) == 0xA44072DB
    ensures Joined64(0xAD21F72C, 0x6DD4DE1C) == 0x6DD4DE1CAD21F72C && Joined64(0xE96DD4DE, 0xDB979083) == 0xDB979083E96DD4DE
    ensures Joined64(0x979083E9, 0xA44072DB) == 0xA44072DB979083E9
  {}

  lemma Secret2()
    ensures ReadLE64(DefaultSecret(), 11) == 0x6DD4DE1CAD21F72C && ReadLE64(DefaultSecret(), 16) == 0xDB979083E96DD4DE
    ensures ReadLE64(DefaultSecret(), 19) == 0xA44072DB979083E9
  {
    hide FourBytes, SecretAt, Joined64, ReadLE32, DefaultSecret;
    Halves2();
    SecretHalf(11);
    SecretHalf(15);
    SecretHalf(16);
    SecretHalf(19);
    SecretHalf(20);
    SecretHalf(23);
  }

  lemma Halves3()
    ensures FourBytes(SecretAt(24), SecretAt(25), SecretAt(26), SecretAt(27)) == 0xA4A44072
    ensures FourBytes(SecretAt(27), SecretAt(28), SecretAt(29), SecretAt(30)) == 0x67B3B7A4
    ensures FourBytes(SecretAt(28), SecretAt(29), SecretAt(30), SecretAt(31)) == 0x1F67B3B7
    ensures FourBytes(SecretAt(31), SecretAt(32), SecretAt(33), SecretAt(34)) == 0xE679CB1F
    ensures FourBytes(SecretAt(32), SecretAt(33), SecretAt(34), SecretAt(35)) == 0x4EE679CB
    ensures FourBytes(SecretAt(36), SecretAt(37), SecretAt(38), SecretAt(39)) == 0x78E5C0CC
    ensures Joined64(0xA4A44072, 0x1F67B3B7) == 0x1F67B3B7A4A44072 && Joined64(0x67B3B7A4, 0xE679CB1F) == 0xE679CB1F67B3B7A4
    ensures Joined64(0x4EE679CB, 0x78E5C0CC) == 0x78E5C0CC4EE679CB
  {}

  lemma Secret3()
    ensures ReadLE64(DefaultSecret(), 24) == 0x1F67B3B7A4A44072 && ReadLE64(DefaultSecret(), 27) == 0xE679CB1F67B3B7A4
    ensures ReadLE64(DefaultSecret(), 32) == 0x78E5C0CC4EE679CB
  {
    hide FourBytes, SecretAt, Joined64, ReadLE32, DefaultSecret;
    Halves3();
    SecretHalf(24);
    SecretHalf(27);
    SecretHalf(28);
    SecretHalf(31);
    SecretHalf(32);
    SecretHalf(36);
  }

  lemma Halves4()
    ensures FourBytes(SecretAt(35), SecretAt(36), SecretAt(37), SecretAt(38)) == 0xE5C0CC4E
    ensures FourBytes(SecretAt(39), SecretAt(40), SecretAt(41), SecretAt(42)) == 0xD05A8278
    ensures FourBytes(SecretAt(40), SecretAt(41), SecretAt(42), SecretAt(43)) == 0x7DD05A82
    ensures FourBytes(SecretAt(43), SecretAt(44), SecretAt(45), SecretAt(46)) == 0x72FFCC7D
    ensures FourBytes(SecretAt(44), SecretAt(45), SecretAt(46), SecretAt(47)) == 0x2172FFCC
    ensures FourBytes(SecretAt(47), SecretAt(48), SecretAt(49), SecretAt(50)) == 0x4608B821
    ensures Joined64(0xE5C0CC4E, 0xD05A8278) == 0xD05A8278E5C0CC4E && Joined64(0x7DD05A82, 0x2172FFCC) == 0x2172FFCC7DD05A82
    ensures Joined64(0x72FFCC7D, 0x4608B821) == 0x4608B82172FFCC7D
  {}

  lemma Secret4()
    ensures ReadLE64(DefaultSecret(), 35) == 0xD05A8278E5C0CC4E && ReadLE64(DefaultSecret(), 40) == 0x2172FFCC7DD05A82
    ensures ReadLE64(DefaultSecret(), 43) == 0x4608B82172FFCC7D
  {
    hide FourBytes, SecretAt, Joined64, ReadLE32, DefaultSecret;
    Halves4();
    SecretHalf(35);
    SecretHalf(39);
    SecretHalf(40);
    SecretHalf(43);
    SecretHalf(44);
    SecretHalf(47);
  }

  lemma Halves5()
    ensures FourBytes(SecretAt(48), SecretAt(49), SecretAt(50), SecretAt(51)) == 0x744608B8
    ensures FourBytes(SecretAt(51), SecretAt(52), SecretAt(53), SecretAt(54)) == 0x2443F774
    ensures FourBytes(SecretAt(52), SecretAt(53), SecretAt(54), SecretAt(55)) == 0x8E2443F7
    ensures FourBytes(SecretAt(55), SecretAt(56), SecretAt(57), SecretAt(58)) == 0x9035E08E
    ensures FourBytes(SecretAt(56), SecretAt(57), SecretAt(58), SecretAt(59)) == 0xE69035E0
    ensures FourBytes(SecretAt(60), SecretAt(61), SecretAt(62), SecretAt(63)) == 0x4C263A81
    ensures Joined64(0x744608B8, 0x8E2443F7) == 0x8E2443F7744608B8 && Joined64(0x2443F774, 0x9035E08E) == 0x9035E08E2443F774
    ensures Joined64(0xE69035E0, 0x4C263A81) == 0x4C263A81E69035E0
  {}

  lemma Secret5()
    ensures ReadLE64(DefaultSecret(), 48) == 0x8E2443F7744608B8 && ReadLE64(DefaultSecret(), 51) == 0x9035E08E2443F774
    ensures ReadLE64(DefaultSecret(), 56) == 0x4C263A81E69035E0
  {
    hide FourBytes, SecretAt, Joined64, ReadLE32, DefaultSecret;
    Halves5();
    SecretHalf(48);
    SecretHalf(51);
    SecretHalf(52);
    SecretHalf(55);
    SecretHalf(56);
    SecretHalf(60);
  }

  lemma Halves6()
    ensures FourBytes(SecretAt(59), SecretAt(60), SecretAt(61), SecretAt(62)) == 0x263A81E6
    ensures FourBytes(SecretAt(63), SecretAt(64), SecretAt(65), SecretAt(66)) == 0x52283C4C
    ensures FourBytes(SecretAt(64), SecretAt(65), SecretAt(66), SecretAt(67)) == 0xBB52283C
    ensures FourBytes(SecretAt(67), SecretAt(68), SecretAt(69), SecretAt(70)) == 0x00C391BB
    ensures FourBytes(SecretAt(68), SecretAt(69), SecretAt(70), SecretAt(71)) == 0xCB00C391
    ensures FourBytes(SecretAt(71), SecretAt(72), SecretAt(73), SecretAt(74)) == 0x65D088CB
    ensures Joined64(0x263A81E6, 0x52283C4C) == 0x52283C4C263A81E6 && Joined64(0xBB52283C, 0xCB00C391) == 0xCB00C391BB52283C
    ensures Joined64(0x00C391BB, 0x65D088CB) == 0x65D088CB00C391BB
  {}

  lemma Secret6()
    ensures ReadLE64(DefaultSecret(), 59) == 0x52283C4C263A81E6 && ReadLE64(DefaultSecret(), 64) == 0xCB00C391BB52283C
    ensures ReadLE64(DefaultSecret(), 67) == 0x65D088CB00C391BB
  {
    hide FourBytes, SecretAt, Joined64, ReadLE32, DefaultSecret;
    Halves6();
    SecretHalf(59);
    SecretHalf(63);
    SecretHalf(64);
    SecretHalf(67);
    SecretHalf(68);
    SecretHalf(71);
  }

  lemma Halves7()
    ensures FourBytes(SecretAt(72), SecretAt(73), SecretAt(74), SecretAt(75)) == 0x8B65D088
    ensures FourBytes(SecretAt(76), SecretAt(77), SecretAt(78), SecretAt(79)) == 0xA32E531B
    ensures FourBytes(SecretAt(80), SecretAt(81), SecretAt(82), SecretAt(83)) == 0x97486471
    ensures FourBytes(SecretAt(84), SecretAt(85), SecretAt(86), SecretAt(87)) == 0x4EF90DA2
    ensures FourBytes(SecretAt(88), SecretAt(89), SecretAt(90), SecretAt(91)) == 0x46EF1938
    ensures FourBytes(SecretAt(92), SecretAt(93), SecretAt(94), SecretAt(95)) == 0xD8ACDEA9
    ensures Joined64(0x8B65D088, 0xA32E531B) == 0xA32E531B8B65D088 && Joined64(0x97486471, 0x4EF90DA2) == 0x4EF90DA297486471
    ensures Joined64(0x46EF1938, 0xD8ACDEA9) == 0xD8ACDEA946EF1938
  {}

  lemma Secret7()
    ensures ReadLE64(DefaultSecret(), 72) == 0xA32E531B8B65D088 && ReadLE64(DefaultSecret(), 80) == 0x4EF90DA297486471
    ensures ReadLE64(DefaultSecret(), 88) == 0xD8ACDEA946EF1938
  {
    hide FourBytes, SecretAt, Joined64, ReadLE32, DefaultSecret;
    Halves7();
    SecretHalf(72);
    SecretHalf(76);
    SecretHalf(80);
    SecretHalf(84);
    SecretHalf(88);
    SecretHalf(92);
  }

  lemma Halves8()
    ensures FourBytes(SecretAt(96), SecretAt(97), SecretAt(98), SecretAt(99)) == 0x3F76FAA8
    ensures FourBytes(SecretAt(100), SecretAt(101), SecretAt(102), SecretAt(103)) == 0x3F349CE3
    ensures FourBytes(SecretAt(104), SecretAt(105), SecretAt(106), SecretAt(107)) == 0xC7BBDCF9
    ensures FourBytes(SecretAt(108), SecretAt(109), SecretAt(110), SecretAt(111)) == 0x1D4F0BC7
    ensures FourBytes(SecretAt(112), SecretAt(113), SecretAt(114), SecretAt(115)) == 0x4BE0518A
    ensures FourBytes(SecretAt(116), SecretAt(117), SecretAt(118), SecretAt(119)) == 0x3159B4CD
    ensures Joined64(0x3F76FAA8, 0x3F349CE3) == 0x3F349CE33F76FAA8 && Joined64(0xC7BBDCF9, 0x1D4F0BC7) == 0x1D4F0BC7C7BBDCF9
    ensures Joined64(0x4BE0518A, 0x3159B4CD) == 0x3159B4CD4BE0518A
  {}

  lemma Secret8()
    ensures ReadLE64(DefaultSecret(), 96) == 0x3F349CE33F76FAA8 && ReadLE64(DefaultSecret(), 104) == 0x1D4F0BC7C7BBDCF9
    ensures ReadLE64(DefaultSecret(), 112) == 0x3159B4CD4BE0518A
  {
    hide FourBytes, SecretAt, Joined64, ReadLE32, DefaultSecret;
    Halves8();
    SecretHalf(96);
    SecretHalf(100);
    SecretHalf(104);
    SecretHalf(108);
    SecretHalf(112);
    SecretHalf(116);
  }

  lemma Halves9()
    ensures FourBytes(SecretAt(119), SecretAt(120), SecretAt(121), SecretAt(122)) == 0x7E9FC831
    ensures FourBytes(SecretAt(120), SecretAt(121), SecretAt(122), SecretAt(123)) == 0xC97E9FC8
    ensures FourBytes(SecretAt(121), SecretAt(122), SecretAt(123), SecretAt(124)) == 0xD9C97E9F
    ensures FourBytes(SecretAt(123), SecretAt(124), SecretAt(125), SecretAt(126)) == 0x7378D9C9
    ensures FourBytes(SecretAt(124), SecretAt(125), SecretAt(126), SecretAt(127)) == 0x647378D9
    ensures FourBytes(SecretAt(125), SecretAt(126), SecretAt(127), SecretAt(128)) == 0xEA647378
    ensures Joined64(0x7E9FC831, 0x7378D9C9) == 0x7378D9C97E9FC831 && Joined64(0xC97E9FC8, 0x647378D9) == 0x647378D9C97E9FC8
    ensures Joined64(0xD9C97E9F, 0xEA647378) == 0xEA647378D9C97E9F
  {}

  lemma Secret9()
    ensures ReadLE64(DefaultSecret(), 119) == 0x7378D9C97E9FC831 && ReadLE64(DefaultSecret(), 120) == 0x647378D9C97E9FC8
    ensures ReadLE64(DefaultSecret(), 121) == 0xEA647378D9C97E9F
  {
    hide FourBytes, SecretAt, Joined64, ReadLE32, DefaultSecret;
    Halves9();
    SecretHalf(119);
    SecretHalf(120);
    SecretHalf(121);
    SecretHalf(123);
    SecretHalf(124);
    SecretHalf(125);
  }

  lemma Halves10()
    ensures FourBytes(SecretAt(127), SecretAt(128), SecretAt(129), SecretAt(130)) == 0xACC5EA64
    ensures FourBytes(SecretAt(128), SecretAt(129), SecretAt(130), SecretAt(131)) == 0x83ACC5EA
    ensures FourBytes(SecretAt(129), SecretAt(130), SecretAt(131), SecretAt(132)) == 0x3483ACC5
    ensures FourBytes(SecretAt(131), SecretAt(132), SecretAt(133), SecretAt(134)) == 0xEBD33483
    ensures FourBytes(SecretAt(132), SecretAt(133), SecretAt(134), SecretAt(135)) == 0xC3EBD334
    ensures FourBytes(SecretAt(133), SecretAt(134), SecretAt(135), SecretAt(136)) == 0xC5C3EBD3
    ensures Joined64(0xACC5EA64, 0xEBD33483) == 0xEBD33483ACC5EA64 && Joined64(0x83ACC5EA, 0xC3EBD334) == 0xC3EBD33483ACC5EA
    ensures Joined64(0x3483ACC5, 0xC5C3EBD3) == 0xC5C3EBD33483ACC5
  {}

  lemma Secret10()
    ensures ReadLE64(DefaultSecret(), 127) == 0xEBD33483ACC5EA64 && ReadLE64(DefaultSecret(), 128) == 0xC3EBD33483ACC5EA
    ensures ReadLE64(DefaultSecret(), 129) == 0xC5C3EBD33483ACC5
  {
    hide FourBytes, SecretAt, Joined64, ReadLE32, DefaultSecret;
    Halves10();
    SecretHalf(127);
    SecretHalf(128);
    SecretHalf(129);
    SecretHalf(131);
    SecretHalf(132);
    SecretHalf(133);
  }

  lemma Halves11()
    ensures FourBytes(SecretAt(136), SecretAt(137), SecretAt(138), SecretAt(139)) == 0xFFA081C5
    ensures FourBytes(SecretAt(137), SecretAt(138), SecretAt(139), SecretAt(140)) == 0xFAFFA081
    ensures FourBytes(SecretAt(140), SecretAt(141), SecretAt(142), SecretAt(143)) == 0xEB6313FA
    ensures FourBytes(SecretAt(141), SecretAt(142), SecretAt(143), SecretAt(144)) == 0x17EB6313
    ensures FourBytes(SecretAt(144), SecretAt(145), SecretAt(146), SecretAt(147)) == 0x51DD0D17
    ensures FourBytes(SecretAt(148), SecretAt(149), SecretAt(150), SecretAt(151)) == 0x49DAF0B7
    ensures Joined64(0xFFA081C5, 0xEB6313FA) == 0xEB6313FAFFA081C5 && Joined64(0xFAFFA081, 0x17EB6313) == 0x17EB6313FAFFA081
    ensures Joined64(0x51DD0D17, 0x49DAF0B7) == 0x49DAF0B751DD0D17
  {}

  lemma Secret11()
    ensures ReadLE64(DefaultSecret(), 136) == 0xEB6313FAFFA081C5 && ReadLE64(DefaultSecret(), 137) == 0x17EB6313FAFFA081
    ensures ReadLE64(DefaultSecret(), 144) == 0x49DAF0B751DD0D17
  {
    hide FourBytes, SecretAt, Joined64, ReadLE32, DefaultSecret;
    Halves11();
    SecretHalf(136);
    SecretHalf(137);
    SecretHalf(140);
    SecretHalf(141);
    SecretHalf(144);
    SecretHalf(148);
  }

  lemma Halves12()
    ensures FourBytes(SecretAt(145), SecretAt(146), SecretAt(147), SecretAt(148)) == 0xB751DD0D
    ensures FourBytes(SecretAt(149), SecretAt(150), SecretAt(151), SecretAt(152)) == 0xD349DAF0
    ensures FourBytes(SecretAt(152), SecretAt(153), SecretAt(154), SecretAt(155)) == 0x265516D3
    ensures FourBytes(SecretAt(153), SecretAt(154), SecretAt(155), SecretAt(156)) == 0x29265516
    ensures FourBytes(SecretAt(156), SecretAt(157), SecretAt(158), SecretAt(159)) == 0x9E68D429
    ensures FourBytes(SecretAt(157), SecretAt(158), SecretAt(159), SecretAt(160)) == 0x2B9E68D4
    ensures Joined64(0xB751DD0D, 0xD349DAF0) == 0xD349DAF0B751DD0D && Joined64(0x265516D3, 0x9E68D429) == 0x9E68D429265516D3
    ensures Joined64(0x29265516, 0x2B9E68D4) == 0x2B9E68D429265516
  {}

  lemma Secret12()
    ensures ReadLE64(DefaultSecret(), 145) == 0xD349DAF0B751DD0D && ReadLE64(DefaultSecret(), 152) == 0x9E68D429265516D3
    ensures ReadLE64(DefaultSecret(), 153) == 0x2B9E68D429265516
  {
    hide FourBytes, SecretAt, Joined64, ReadLE32, DefaultSecret;
    Halves12();
    SecretHalf(145);
    SecretHalf(149);
    SecretHalf(152);
    SecretHalf(153);
    SecretHalf(156);
    SecretHalf(157);
  }

  lemma Halves13()
    ensures FourBytes(SecretAt(160), SecretAt(161), SecretAt(162), SecretAt(163)) == 0x58BE162B
    ensures FourBytes(SecretAt(161), SecretAt(162), SecretAt(163), SecretAt(164)) == 0x7D58BE16
    ensures FourBytes(SecretAt(164), SecretAt(165), SecretAt(166), SecretAt(167)) == 0xFCA1477D
    ensures FourBytes(SecretAt(165), SecretAt(166), SecretAt(167), SecretAt(168)) == 0x8FFCA147
    ensures FourBytes(SecretAt(168), SecretAt(169), SecretAt(170), SecretAt(171)) == 0xD1B8F88F
    ensures FourBytes(SecretAt(172), SecretAt(173), SecretAt(174), SecretAt(175)) == 0xCE31D07A
    ensures Joined64(0x58BE162B, 0xFCA1477D) == 0xFCA1477D58BE162B && Joined64(0x7D58BE16, 0x8FFCA147) == 0x8FFCA1477D58BE16
    ensures Joined64(0xD1B8F88F, 0xCE31D07A) == 0xCE31D07AD1B8F88F
  {}

  lemma Secret13()
    ensures ReadLE64(DefaultSecret(), 160) == 0xFCA1477D58BE162B && ReadLE64(DefaultSecret(), 161) == 0x8FFCA1477D58BE16
    ensures ReadLE64(DefaultSecret(), 168) == 0xCE31D07AD1B8F88F
  {
    hide FourBytes, SecretAt, Joined64, ReadLE32, DefaultSecret;
    Halves13();
    SecretHalf(160);
    SecretHalf(161);
    SecretHalf(164);
    SecretHalf(165);
    SecretHalf(168);
    SecretHalf(172);
  }

  lemma Halves14()
    ensures FourBytes(SecretAt(169), SecretAt(170), SecretAt(171), SecretAt(172)) == 0x7AD1B8F8
    ensures FourBytes(SecretAt(173), SecretAt(174), SecretAt(175), SecretAt(176)) == 0x45CE31D0
    ensures FourBytes(SecretAt(176), SecretAt(177), SecretAt(178), SecretAt(179)) == 0x8F3ACB45
    ensures FourBytes(SecretAt(177), SecretAt(178), SecretAt(179), SecretAt(180)) == 0x958F3ACB
    ensures FourBytes(SecretAt(180), SecretAt(181), SecretAt(182), SecretAt(183)) == 0x28041695
    ensures FourBytes(SecretAt(181), SecretAt(182), SecretAt(183), SecretAt(184)) == 0xAF280416
    ensures Joined64(0x7AD1B8F8, 0x45CE31D0) == 0x45CE31D07AD1B8F8 && Joined64(0x8F3ACB45, 0x28041695) == 0x280416958F3ACB45
    ensures Joined64(0x958F3ACB, 0xAF280416) == 0xAF280416958F3ACB
  {}

  lemma Secret14()
    ensures ReadLE64(DefaultSecret(), 169) == 0x45CE31D07AD1B8F8 && ReadLE64(DefaultSecret(), 176) == 0x280416958F3ACB45
    ensures ReadLE64(DefaultSecret(), 177) == 0xAF280416958F3ACB
  {
    hide FourBytes, SecretAt, Joined64, ReadLE32, DefaultSecret;
    Halves14();
    SecretHalf(169);
    SecretHalf(173);
    SecretHalf(176);
    SecretHalf(177);
    SecretHalf(180);
    SecretHalf(181);
  }

  lemma Halves15()
    ensures FourBytes(SecretAt(184), SecretAt(185), SecretAt(186), SecretAt(187)) == 0xCAFBD7AF
    ensures FourBytes(SecretAt(188), SecretAt(189), SecretAt(190), SecretAt(191)) == 0x7E404BBB
    ensures Joined64(0xCAFBD7AF, 0x7E404BBB) == 0x7E404BBBCAFBD7AF
  {}

  lemma Secret15()
    ensures ReadLE64(DefaultSecret(), 184) == 0x7E404BBBCAFBD7AF
  {
    hide FourBytes, SecretAt, Joined64, ReadLE32, DefaultSecret;
    Halves15();
    SecretHalf(184);
    SecretHalf(188);
  }

  // ---------- lengths and zeros ----------

  lemma Lengths()
    ensures Len64(6) == 6 && Len64(11) == 11 && Len64(16) == 16 && Len64(17) == 17 && Len64(113) == 113
    ensures Len64(145) == 145 && Len64(241) == 241
  {}

  lemma NoRest(x: bv64)
    ensures Plus64(x, 0) == x && Minus(x, 0) == x && Xor64(0, x) == x
  {}
}
