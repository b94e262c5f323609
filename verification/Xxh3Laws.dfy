/** What the mixing functions of XXH3 (xxhash.h) compute: a true product, and nothing lost where nothing may be. */
module Xxh3Laws {
  import opened Powers
  import opened XxhWords
  import opened XxhNumbers
  import opened Xxh3Mix
  import opened Xxh3Stripes
  import L = Xxh64Laws
  import Xxh32
  import Xxh64

  // ---------- the long multiplication ----------

  /** Long multiplication in halves of words. */
  lemma LongMultiplication(w: nat, xl: nat, xh: nat, yl: nat, yh: nat, ll: nat, lh1: nat, hl0: nat, hl1: nat, c0: nat, c1: nat, upper: nat)
    requires xl * yl == ll + w * lh1 && xh * yl == hl0 + w * hl1
    requires lh1 + hl0 + xl * yh == c0 + w * c1 && upper == hl1 + c1 + xh * yh
    ensures (ll + w * c0) + (w * w) * upper == (xl + w * xh) * (yl + w * yh)
  {
    var cross := lh1 + hl0 + xl * yh;
    calc {
      (ll + w * c0) + (w * w) * upper;
      { SpreadOut(w, hl1, c1, xh * yh); }
      ll + w * c0 + w * (w * hl1) + w * (w * c1) + (w * w) * (xh * yh);
      { Regroup(w, c0, c1, cross); }
      ll + w * cross + w * (w * hl1) + (w * w) * (xh * yh);
      { Regroup3(w, lh1, hl0, xl * yh); }
      ll + w * lh1 + w * hl0 + w * (xl * yh) + w * (w * hl1) + (w * w) * (xh * yh);
      { Regroup(w, hl0, hl1, xh * yl); }
      xl * yl + w * (xh * yl) + w * (xl * yh) + (w * w) * (xh * yh);
      { Binomials(w, xl, xh, yl, yh); }
      (xl + w * xh) * (yl + w * yh);
    }
  }

  /** The same for the numbers that have these halves. */
  lemma LongMultiplied(w: nat, w2: nat, x: nat, xl: nat, xh: nat, y: nat, yl: nat, yh: nat,
                       ll: nat, ll0: nat, ll1: nat, hl: nat, hl0: nat, hl1: nat, lh: nat, hh: nat, cross: nat, c0: nat, c1: nat, lower: nat, upper: nat)
    requires w2 == w * w && x == xl + w * xh && y == yl + w * yh
    requires ll == xl * yl && hl == xh * yl && lh == xl * yh && hh == xh * yh
    requires ll == ll0 + w * ll1 && hl == hl0 + w * hl1 && cross == c0 + w * c1
    requires cross == ll1 + hl0 + lh && upper == hl1 + c1 + hh && lower == ll0 + w * c0
    ensures lower + w2 * upper == x * y
  {
    LongMultiplication(w, xl, xh, yl, yh, ll0, ll1, hl0, hl1, c0, c1, upper);
  }

  lemma SpreadOut(w: nat, a: nat, b: nat, c: nat)
    ensures (w * w) * (a + b + c) == w * (w * a) + w * (w * b) + (w * w) * c
  {}

  lemma Regroup(w: nat, a: nat, b: nat, c: nat)
    requires a + w * b == c
    ensures w * a + w * (w * b) == w * c
  {}

  lemma Regroup3(w: nat, a: nat, b: nat, c: nat)
    ensures w * (a + b + c) == w * a + w * b + w * c
  {}

  lemma Binomials(w: nat, a: nat, b: nat, c: nat, d: nat)
    ensures (a + w * b) * (c + w * d) == a * c + w * (b * c) + w * (a * d) + (w * w) * (b * d)
  {}

  /** A product of two halves of words fits into a word, with room for two more halves. */
  lemma HalvesFit(w: nat, a: nat, b: nat)
    requires a < w && b < w
    ensures a * b + 2 * (w - 1) < w * w
  {
    TimesMonotone(a, w - 1, b, w - 1);
  }

  lemma TimesMonotone(a: nat, c: nat, b: nat, d: nat)
    requires a <= c && b <= d
    ensures a * b <= c * d
  {
    assert a * b <= c * b;
    assert c * b <= c * d;
  }

  lemma Products(x: bv64, y: bv64)
    requires Number(x) < Pow2(32) && Number(y) < Pow2(32)
    ensures Number(Times64(x, y)) == Number(x) * Number(y)
    ensures Number(x) * Number(y) + 2 * (Pow2(32) - 1) < Pow2(64)
  {
    hide Number, Times64, Pow2;
    HalvesFit(Pow2(32), Number(x), Number(y));
    Pow2Sum(32, 32);
    NumberOfTimes(x, y);
  }

  /** The sum in the middle of the long multiplication does not overflow. */
  lemma CrossFits(ll: bv64, hl: bv64, lh: bv64)
    requires Number(lh) + 2 * (Pow2(32) - 1) < Pow2(64)
    ensures Number(Plus64(Plus64(High32(ll), Low32(hl)), lh)) == Number(High32(ll)) + Number(Low32(hl)) + Number(lh)
  {
    hide Number, Plus64, Low32, High32, Pow2;
    Halves(ll);
    Halves(hl);
    NumberOfPlus(High32(ll), Low32(hl));
    NumberOfPlus(Plus64(High32(ll), Low32(hl)), lh);
  }

  lemma Quotient(p: nat, w: nat, u: nat, l: nat)
    requires l + w * u == p && p < w * w
    ensures u < w
  {
    if u >= w { TimesMonotone(w, w, w, u); }
  }

  /** The upper word does not overflow. */
  lemma UpperFits(hl: bv64, cross: bv64, hh: bv64, upper: nat)
    requires upper == Number(High32(hl)) + Number(High32(cross)) + Number(hh) && upper < Pow2(64)
    ensures Number(Plus64(Plus64(High32(hl), High32(cross)), hh)) == upper
  {
    hide Number, Plus64, High32, Pow2;
    NumberOfPlus(High32(hl), High32(cross));
    NumberOfPlus(Plus64(High32(hl), High32(cross)), hh);
  }

  /** The four partial products, and the sum in the middle. */
  function LowLow(x: bv64, y: bv64): bv64 { Times64(Low32(x), Low32(y)) }
  function HighLow(x: bv64, y: bv64): bv64 { Times64(High32(x), Low32(y)) }
  function LowHigh(x: bv64, y: bv64): bv64 { Times64(Low32(x), High32(y)) }
  function HighHigh(x: bv64, y: bv64): bv64 { Times64(High32(x), High32(y)) }

  function Cross(x: bv64, y: bv64): bv64 {
    Plus64(Plus64(High32(LowLow(x, y)), Low32(HighLow(x, y))), LowHigh(x, y))
  }

  function Upper(x: bv64, y: bv64): bv64 {
    Plus64(Plus64(High32(HighLow(x, y)), High32(Cross(x, y))), HighHigh(x, y))
  }

  lemma MulFoldIs(x: bv64, y: bv64)
    ensures MulFold(x, y) == Xor64(Glued(Cross(x, y), LowLow(x, y)), Upper(x, y))
  {
    hide Plus64, Times64, Xor64, Low32, High32, Glued;
  }

  lemma Partials(x: bv64, y: bv64)
    ensures Number(LowLow(x, y)) == Number(Low32(x)) * Number(Low32(y)) && Number(HighLow(x, y)) == Number(High32(x)) * Number(Low32(y))
    ensures Number(LowHigh(x, y)) == Number(Low32(x)) * Number(High32(y)) && Number(HighHigh(x, y)) == Number(High32(x)) * Number(High32(y))
    ensures Number(LowHigh(x, y)) + 2 * (Pow2(32) - 1) < Pow2(64)
  {
    hide Number, Times64, Low32, High32, Pow2;
    Halves(x);
    Halves(y);
    Products(Low32(x), Low32(y));
    Products(High32(x), Low32(y));
    Products(Low32(x), High32(y));
    Products(High32(x), High32(y));
  }

  lemma CrossIs(x: bv64, y: bv64)
    ensures Number(High32(LowLow(x, y))) + Number(Low32(HighLow(x, y))) + Number(LowHigh(x, y)) == Number(Cross(x, y))
  {
    hide Number, Plus64, Low32, High32, LowLow, HighLow, LowHigh, Pow2;
    Partials(x, y);
    CrossFits(LowLow(x, y), HighLow(x, y), LowHigh(x, y));
  }

  /** What the upper word has to be. */
  ghost function UpperNumber(x: bv64, y: bv64): nat {
    Number(High32(HighLow(x, y))) + Number(High32(Cross(x, y))) + Number(HighHigh(x, y))
  }

  lemma LongNumbers(x: bv64, y: bv64)
    ensures Number(Glued(Cross(x, y), LowLow(x, y))) + Pow2(64) * UpperNumber(x, y) == Number(x) * Number(y)
  {
    hide Number, Glued, Low32, High32, LowLow, HighLow, LowHigh, HighHigh, Cross, Pow2;
    Partials(x, y);
    CrossIs(x, y);
    Halves(x);
    Halves(y);
    var ll, hl, cross := LowLow(x, y), HighLow(x, y), Cross(x, y);
    Halves(ll);
    Halves(hl);
    Halves(cross);
    NumberOfGlued(cross, ll);
    Pow2Sum(32, 32);
    LongMultiplied(Pow2(32), Pow2(64), Number(x), Number(Low32(x)), Number(High32(x)), Number(y), Number(Low32(y)), Number(High32(y)),
      Number(ll), Number(Low32(ll)), Number(High32(ll)), Number(hl), Number(Low32(hl)), Number(High32(hl)),
      Number(LowHigh(x, y)), Number(HighHigh(x, y)), Number(cross), Number(Low32(cross)), Number(High32(cross)),
      Number(Glued(cross, ll)), UpperNumber(x, y));
  }

  /** The words of the long multiplication. */
  lemma LongProduct(x: bv64, y: bv64) returns (lower: bv64, upper: bv64)
    ensures MulFold(x, y) == Xor64(lower, upper)
    ensures Number(lower) + Pow2(64) * Number(upper) == Number(x) * Number(y)
  {
    hide Number, Plus64, Xor64, High32, Glued, Pow2, HighLow, Cross, HighHigh, LowLow, MulFold;
    lower, upper := Glued(Cross(x, y), LowLow(x, y)), Upper(x, y);
    MulFoldIs(x, y);
    LongNumbers(x, y);
    WholeProduct(x, y);
    Quotient(Number(x) * Number(y), Pow2(64), UpperNumber(x, y), Number(lower));
    UpperFits(HighLow(x, y), Cross(x, y), HighHigh(x, y), UpperNumber(x, y));
  }

  lemma WholeProduct(x: bv64, y: bv64)
    ensures Number(x) * Number(y) < Pow2(64) * Pow2(64)
  {
    hide Number, Pow2;
    Bounded(x);
    Bounded(y);
    TimesMonotone(Number(x), Pow2(64) - 1, Number(y), Pow2(64) - 1);
    assert (Pow2(64) - 1) * (Pow2(64) - 1) < Pow2(64) * Pow2(64);
  }

  /** XXH3_mul128_fold64: the two words of the product of the numbers, one folded onto the other. */
  lemma MulFoldIsProduct(x: bv64, y: bv64)
    ensures MulFold(x, y) == Xor64(Word(Number(x) * Number(y) % WORD64), Word(Number(x) * Number(y) / WORD64))
  {
    hide Number, Word, MulFold, Xor64, Pow2;
    var lower, upper := LongProduct(x, y);
    Bounded(lower);
    Bounded(upper);
    Pow2Is();
    Divided(Number(x) * Number(y), WORD64, Number(lower), Number(upper));
    WordOfNumber(lower);
    WordOfNumber(upper);
  }

  lemma Divided(p: nat, w: nat, l: nat, u: nat)
    requires l + w * u == p && l < w
    ensures p % w == l && p / w == u
  {
    assert (p - l) == w * u;
    DivideOnce(w, u, l);
  }

  lemma DivideOnce(w: nat, u: nat, l: nat)
    requires l < w
    ensures (w * u + l) / w == u && (w * u + l) % w == l
  {
    var q, r := (w * u + l) / w, (w * u + l) % w;
    if q < u { TimesMonotone(w, w, q + 1, u); }
    if q > u { TimesMonotone(w, w, u + 1, q); }
  }

  lemma WordOfNumber(x: bv64)
    ensures Word(Number(x)) == x
  {
    hide Number, Word, Pow2;
    Bounded(x);
    NumberOfWord(Number(x));
    Injective(Word(Number(x)), x);
  }

  // ---------- mixing that can be undone ----------

  lemma OverAvalanche(x: bv64)
    ensures Times64(Times64(x, 0x165667919E3779F9), 0x08DA8EE41D6DF849) == x
  {
    assert Times64(x * 0x165667919E3779F9, 0x08DA8EE41D6DF849) == x;
  }

  lemma OverRrmxmx(x: bv64)
    ensures Times64(Times64(x, 0x9FB21C651E98DF25), 0x02AB9C720D1024AD) == x
  {
    assert Times64(x * 0x9FB21C651E98DF25, 0x02AB9C720D1024AD) == x;
  }

  lemma OverScramble(x: bv64)
    ensures Times64(Times64(x, 0x9E3779B1), 0xCFA4A56B0E8B2F51) == x
  {
    assert Times64(x * 0x9E3779B1, 0xCFA4A56B0E8B2F51) == x;
  }

  lemma Shift37Back(h: bv64)
    ensures XorShift64(XorShift64(h, 37), 37) == h
  {
    assert XorShift64(h ^ (h >> 37), 37) == h;
  }

  lemma Shift47Back(h: bv64)
    ensures XorShift64(XorShift64(h, 47), 47) == h
  {
    assert XorShift64(h ^ (h >> 47), 47) == h;
  }

  lemma Shift28Steps(h: bv64)
    ensures XorShift64(h, 28) == h ^ (h >> 28)
    ensures XorShift64(h ^ (h >> 28), 56) == h ^ (h >> 28) ^ (h >> 56)
    ensures XorShift64(h ^ (h >> 28) ^ (h >> 56), 28) == h
  {}

  lemma Shift28Back(h: bv64)
    ensures XorShift64(XorShift64(XorShift64(h, 28), 56), 28) == h
  {
    hide XorShift64;
    Shift28Steps(h);
  }

  function Unavalanche(h: bv64): bv64 {
    XorShift64(Times64(XorShift64(h, 32), 0x08DA8EE41D6DF849), 37)
  }

  /** The last mixing is one to one. */
  lemma AvalancheBack(h: bv64)
    ensures Unavalanche(Avalanche(h)) == h
  {
    hide Times64, XorShift64;
    L.Shift32Back(Times64(XorShift64(h, 37), 0x165667919E3779F9));
    OverAvalanche(XorShift64(h, 37));
    Shift37Back(h);
  }

  /** What Rotated is when it is done twice, four times and eight times. */
  function Rotated2(h: bv64): bv64 {
    h ^ (((h << 34) | (h >> 30)) ^ ((h << 48) | (h >> 16)))
  }

  function Rotated4(h: bv64): bv64 {
    h ^ (((h << 4) | (h >> 60)) ^ ((h << 32) | (h >> 32)))
  }

  function Rotl8(h: bv64): bv64 {
    (h << 8) | (h >> 56)
  }

  function Rotr8(h: bv64): bv64 {
    (h << 56) | (h >> 8)
  }

  lemma TwiceRotatedSteps(h: bv64)
    ensures Rotated(h) == h ^ (((h << 49) | (h >> 15)) ^ ((h << 24) | (h >> 40)))
    ensures Rotated(h ^ (((h << 49) | (h >> 15)) ^ ((h << 24) | (h >> 40)))) == Rotated2(h)
  {}

  lemma TwiceRotated(h: bv64)
    ensures Rotated(Rotated(h)) == Rotated2(h)
  {
    hide Rotated, Rotated2;
    TwiceRotatedSteps(h);
  }

  lemma TwiceRotated2Steps(h: bv64)
    ensures Rotated2(h) == h ^ (((h << 34) | (h >> 30)) ^ ((h << 48) | (h >> 16)))
    ensures Rotated2(h ^ (((h << 34) | (h >> 30)) ^ ((h << 48) | (h >> 16)))) == Rotated4(h)
  {}

  lemma TwiceRotated2(h: bv64)
    ensures Rotated2(Rotated2(h)) == Rotated4(h)
  {
    hide Rotated2, Rotated4;
    TwiceRotated2Steps(h);
  }

  lemma TwiceRotated4Steps(h: bv64)
    ensures Rotated4(h) == h ^ (((h << 4) | (h >> 60)) ^ ((h << 32) | (h >> 32)))
    ensures Rotated4(h ^ (((h << 4) | (h >> 60)) ^ ((h << 32) | (h >> 32)))) == Rotl8(h)
  {}

  lemma TwiceRotated4(h: bv64)
    ensures Rotated4(Rotated4(h)) == Rotl8(h)
  {
    hide Rotated4, Rotl8;
    TwiceRotated4Steps(h);
  }

  lemma Rotl8Back(h: bv64)
    ensures Rotr8(Rotl8(h)) == h
  {
    assert Rotr8((h << 8) | (h >> 56)) == h;
  }

  /** The exclusive or with two rotations undone: done eight times it is a rotation. */
  function Unrotated(h: bv64): bv64 {
    Rotr8(Rotated4(Rotated2(Rotated(h))))
  }

  lemma RotatedBack(h: bv64)
    ensures Unrotated(Rotated(h)) == h
  {
    hide Rotated, Rotated2, Rotated4, Rotl8, Rotr8;
    TwiceRotated(h);
    TwiceRotated2(h);
    TwiceRotated4(h);
    Rotl8Back(h);
  }

  lemma SmallSum(h: bv64, len: bv64)
    requires len <= 8
    ensures Plus64(h >> 35, len) < 0x8_0000_0000
  {}

  lemma KeepsTop(h: bv64, t: bv64)
    requires t < 0x8_0000_0000
    ensures Xor64(h, t) >> 35 == h >> 35
  {}

  lemma WithLenBack(h: bv64, len: bv64)
    requires len <= 8
    ensures WithLen(WithLen(h, len), len) == h
  {
    hide Xor64, Plus64;
    SmallSum(h, len);
    KeepsTop(h, Plus64(h >> 35, len));
    L.XorBack(h, Plus64(h >> 35, len));
  }

  function Unrrmxmx(h: bv64, len: bv64): bv64 {
    var h2 := XorShift64(XorShift64(h, 56), 28);
    var h1 := WithLen(Times64(h2, 0x02AB9C720D1024AD), len);
    Unrotated(Times64(h1, 0x02AB9C720D1024AD))
  }

  lemma RrmxmxBack(h: bv64, len: bv64)
    requires len <= 8
    ensures Unrrmxmx(Rrmxmx(h, len), len) == h
  {
    hide Times64, XorShift64, Rotated, Unrotated, WithLen;
    var h1 := Times64(Rotated(h), 0x9FB21C651E98DF25);
    Shift28Back(Times64(WithLen(h1, len), 0x9FB21C651E98DF25));
    OverRrmxmx(WithLen(h1, len));
    WithLenBack(h1, len);
    OverRrmxmx(Rotated(h));
    RotatedBack(h);
  }

  /** The scramble at the end of a block loses nothing of a lane, and depends on all of its key. */
  lemma ScrambleBack(x: bv64, key: bv64)
    ensures XorShift64(Xor64(Times64(ScrambledLane(x, key), 0xCFA4A56B0E8B2F51), key), 47) == x
    ensures Xor64(Times64(ScrambledLane(x, key), 0xCFA4A56B0E8B2F51), XorShift64(x, 47)) == key
  {
    hide Times64, XorShift64, Xor64;
    ScramblePrime();
    OverScramble(Xor64(XorShift64(x, 47), key));
    L.XorBack(XorShift64(x, 47), key);
    Shift47Back(x);
  }

  lemma ScramblePrime()
    ensures Xxh32.PRIME32_1 as bv64 == 0x9E3779B1
  {}

  // ---------- short inputs ----------

  lemma CombinedInjective(a1: bv8, a2: bv8, a3: bv8, b1: bv8, b2: bv8, b3: bv8, len: bv32)
    requires len <= 3 && Combined(a1, a2, a3, len) == Combined(b1, b2, b3, len)
    ensures a1 == b1 && a2 == b2 && a3 == b3
  {}

  lemma StackedInjective(a2: bv32, a1: bv32, b2: bv32, b1: bv32)
    requires Stacked(a2, a1) == Stacked(b2, b1)
    ensures a2 == b2 && a1 == b1
  {}

  lemma LengthWords()
    ensures Len64(4) == 4 && Len64(5) == 5 && Len64(6) == 6
    ensures Len64(7) == 7 && Len64(8) == 8
  {}

  lemma LengthHalves()
    ensures Len32(1) == 1 && Len32(2) == 2 && Len32(3) == 3
  {}

  lemma ShortLengths(n: nat)
    requires 1 <= n <= 8
    ensures if n <= 3 then Len32(n) <= 3 else Len64(n) <= 8
  {
    hide Len32, Len64;
    LengthWords();
    LengthHalves();
    if n == 1 || n == 2 || n == 3 || n == 4 || n == 5 || n == 6 || n == 7 {}
  }

  lemma Wider(x: bv32, y: bv32)
    requires x as bv64 == y as bv64
    ensures x == y
  {}

  lemma FlippedInjective(x: bv32, y: bv32, f: bv64, seed: bv64)
    requires Xxh64.Avalanche(Flipped(x, f, seed)) == Xxh64.Avalanche(Flipped(y, f, seed))
    ensures x == y
  {
    hide Xxh64.Avalanche, L.Unavalanche, Xor64, Plus64;
    L.AvalancheBack(Flipped(x, f, seed));
    L.AvalancheBack(Flipped(y, f, seed));
    L.XorInjective(x as bv64, y as bv64, Plus64(f, seed), Plus64(f, seed));
    Wider(x, y);
  }

  lemma UpToThreeDiffer(a: Bytes, b: Bytes, secret: Bytes, seed: bv64)
    requires |a| == |b| && 1 <= |a| <= 3 && a != b
    ensures Len1to3(a, secret, seed) != Len1to3(b, secret, seed)
  {
    hide Xxh64.Avalanche, Flipped, FlipWord, Combined, ReadLE32, Len32;
    var n := |a|;
    var x, y := Combined(a[0], a[n / 2], a[n - 1], Len32(n)), Combined(b[0], b[n / 2], b[n - 1], Len32(n));
    if Len1to3(a, secret, seed) == Len1to3(b, secret, seed) {
      FlippedInjective(x, y, FlipWord(ReadLE32(secret, 0), ReadLE32(secret, 4)), seed);
      ShortLengths(n);
      CombinedInjective(a[0], a[n / 2], a[n - 1], b[0], b[n / 2], b[n - 1], Len32(n));
      ThreeBytes(a, b);
    }
  }

  lemma ThreeBytes(a: Bytes, b: Bytes)
    requires |a| == |b| && 1 <= |a| <= 3 && a[0] == b[0] && a[|a| / 2] == b[|a| / 2] && a[|a| - 1] == b[|a| - 1]
    ensures a == b
  {}

  lemma FourToEightDiffer(a: Bytes, b: Bytes, secret: Bytes, seed: bv64)
    requires |a| == |b| && 4 <= |a| <= 8 && a != b
    ensures Len4to8(a, secret, seed) != Len4to8(b, secret, seed)
  {
    hide Rrmxmx, Unrrmxmx, Xor64, Minus, Stacked, ReadLE32, ReadLE64, Len64, Spread;
    var n := |a|;
    var x, y := Stacked(ReadLE32(a, n - 4), ReadLE32(a, 0)), Stacked(ReadLE32(b, n - 4), ReadLE32(b, 0));
    var f := Minus(Xor64(ReadLE64(secret, 8), ReadLE64(secret, 16)), Spread(seed));
    if Len4to8(a, secret, seed) == Len4to8(b, secret, seed) {
      ShortLengths(n);
      RrmxmxBack(Xor64(x, f), Len64(n));
      RrmxmxBack(Xor64(y, f), Len64(n));
      L.XorInjective(x, y, f, f);
      StackedInjective(ReadLE32(a, n - 4), ReadLE32(a, 0), ReadLE32(b, n - 4), ReadLE32(b, 0));
      L.Read4Same(a, b, 0);
      L.Read4Same(a, b, n - 4);
      EightBytes(a, b);
    }
  }

  lemma EightBytes(a: Bytes, b: Bytes)
    requires |a| == |b| && 4 <= |a| <= 8 && a[0..4] == b[0..4] && a[|a| - 4..|a|] == b[|a| - 4..|a|]
    ensures a == b
  {
    var n := |a|;
    forall i | 0 <= i < n ensures a[i] == b[i] {
      if i < 4 {
        assert a[i] == a[0..4][i] && b[i] == b[0..4][i];
      } else {
        assert a[i] == a[n - 4..n][i - (n - 4)] && b[i] == b[n - 4..n][i - (n - 4)];
      }
    }
  }

  /** Different inputs of one length of up to eight bytes have different hashes, whatever the secret and the seed. */
  lemma ShortInputsDiffer(a: Bytes, b: Bytes, secret: Bytes, seed: bv64)
    requires |a| == |b| <= 8 && a != b
    ensures Len0to16(a, secret, seed) != Len0to16(b, secret, seed)
  {
    hide Len1to3, Len4to8, Len9to16;
    if |a| >= 4 { FourToEightDiffer(a, b, secret, seed); } else { UpToThreeDiffer(a, b, secret, seed); }
  }

  // ---------- secrets ----------

  lemma LowBytes(x: bv64)
    ensures FourBytes((x & 0xFF) as bv8, ((x >> 8) & 0xFF) as bv8, ((x >> 16) & 0xFF) as bv8, ((x >> 24) & 0xFF) as bv8) == LowWord(x)
  {}

  lemma HighBytes(x: bv64)
    ensures FourBytes(((x >> 32) & 0xFF) as bv8, ((x >> 40) & 0xFF) as bv8, ((x >> 48) & 0xFF) as bv8, ((x >> 56) & 0xFF) as bv8) == HighWord(x)
  {}

  lemma BytesBack(x: bv64)
    ensures ReadLE32(BytesOf(x), 0) == LowWord(x) && ReadLE32(BytesOf(x), 4) == HighWord(x)
  {
    hide FourBytes, LowWord, HighWord;
    LowBytes(x);
    HighBytes(x);
  }

  lemma WordsJoined(x: bv64)
    ensures Joined64(LowWord(x), HighWord(x)) == x
  {
    assert Joined64((x & 0xFFFF_FFFF) as bv32, (x >> 32) as bv32) == x;
  }

  /** XXH_writeLE64 and XXH_readLE64 are inverse. */
  lemma ReadWritten(x: bv64)
    ensures ReadLE64(BytesOf(x), 0) == x
  {
    hide BytesOf, ReadLE32, Joined64, LowWord, HighWord;
    BytesBack(x);
    WordsJoined(x);
  }

  lemma ReadInside(s: Bytes, p: nat, t: Bytes)
    requires p + 8 <= |s| && |t| >= 8 && s[p..p + 8] == t[..8]
    ensures ReadLE64(s, p) == ReadLE64(t, 0)
  {
    hide ReadLE64;
    assert t[0..8] == t[..8];
    assert (s[p..])[0..8] == s[p..p + 8];
    L.Read8Same(s[p..], t, 0);
    ReadFrom(s, p);
  }

  lemma ReadFrom(s: Bytes, p: nat)
    requires p + 8 <= |s|
    ensures ReadLE64(s[p..], 0) == ReadLE64(s, p)
  {
    hide Joined64;
  }

  lemma {:induction false} RoundAt(secret: Bytes, seed: bv64, n: nat, i: nat)
    requires i < n
    ensures 16 * i + 16 <= 16 * n && SeedRounds(secret, seed, n)[16 * i..16 * i + 16] == SeedRound(secret, seed, i)
  {
    hide SeedRound;
    var s := SeedRounds(secret, seed, n - 1);
    if i < n - 1 {
      RoundAt(secret, seed, n - 1, i);
      assert SeedRounds(secret, seed, n)[16 * i..16 * i + 16] == s[16 * i..16 * i + 16];
    }
  }

  /** XXH3_initCustomSecret: the words of the default secret, plus and minus the seed in turn. */
  lemma CustomSecretWords(seed: bv64, i: nat)
    requires i < 12
    ensures ReadLE64(CustomSecret(seed), 16 * i) == Plus64(ReadLE64(DefaultSecret(), 16 * i), seed)
    ensures ReadLE64(CustomSecret(seed), 16 * i + 8) == Minus(ReadLE64(DefaultSecret(), 16 * i + 8), seed)
  {
    hide ReadLE64, DefaultSecret, SeedRounds, BytesOf, Plus64, Minus;
    var lo, hi := Plus64(ReadLE64(DefaultSecret(), 16 * i), seed), Minus(ReadLE64(DefaultSecret(), 16 * i + 8), seed);
    var s, r := CustomSecret(seed), SeedRound(DefaultSecret(), seed, i);
    RoundAt(DefaultSecret(), seed, 12, i);
    assert r[..8] == BytesOf(lo) && r[8..16] == BytesOf(hi);
    assert s[16 * i..16 * i + 8] == s[16 * i..16 * i + 16][..8] == BytesOf(lo)[..8];
    assert s[16 * i + 8..16 * i + 16] == s[16 * i..16 * i + 16][8..16] == BytesOf(hi)[..8];
    ReadInside(s, 16 * i, BytesOf(lo));
    ReadInside(s, 16 * i + 8, BytesOf(hi));
    ReadWritten(lo);
    ReadWritten(hi);
  }

  lemma NoSeed(x: bv64)
    ensures Plus64(x, 0) == x && Minus(x, 0) == x
  {}

  lemma SeedInSecret(input: Bytes, i: nat, j: nat, seed: bv64)
    requires j < 12
    ensures Mix16B(input, i, DefaultSecret(), 16 * j, seed) == Mix16B(input, i, CustomSecret(seed), 16 * j, 0)
  {
    hide ReadLE64, DefaultSecret, CustomSecret, Plus64, Minus, MulFold;
    CustomSecretWords(seed, j);
    NoSeed(ReadLE64(CustomSecret(seed), 16 * j));
    NoSeed(ReadLE64(CustomSecret(seed), 16 * j + 8));
  }

  /** For inputs of 17 to 128 bytes, a seed does what the secret made from it does. */
  lemma SeedIsSecret(input: Bytes, seed: bv64)
    requires 16 < |input| <= 128
    ensures Len17to128(input, DefaultSecret(), seed) == Len17to128(input, CustomSecret(seed), 0)
  {
    hide Mix16B, DefaultSecret, CustomSecret, Plus64, Avalanche, LenStart;
    var n := |input|;
    if n > 96 {
      SeedInSecret(input, 48, 6, seed);
      SeedInSecret(input, n - 48 - 16, 7, seed);
    }
    if n > 64 {
      SeedInSecret(input, 32, 4, seed);
      SeedInSecret(input, n - 32 - 16, 5, seed);
    }
    if n > 32 {
      SeedInSecret(input, 16, 2, seed);
      SeedInSecret(input, n - 16 - 16, 3, seed);
    }
    SeedInSecret(input, 0, 0, seed);
    SeedInSecret(input, n - 0 - 16, 1, seed);
  }

  // ---------- byte order ----------

  lemma SwappedBytes(b0: bv8, b1: bv8, b2: bv8, b3: bv8)
    ensures Swap32(FourBytes(b0, b1, b2, b3)) == FourBytes(b3, b2, b1, b0)
  {}

  lemma JoinedParts(lo: bv32, hi: bv32)
    ensures LowWord(Joined64(lo, hi)) == lo && HighWord(Joined64(lo, hi)) == hi
  {}

  /** XXH_swap64 reads the bytes of a word backwards. */
  lemma SwapReads(b: Bytes)
    requires |b| == 8
    ensures Swap64(ReadLE64(b, 0)) == ReadLE64([b[7], b[6], b[5], b[4], b[3], b[2], b[1], b[0]], 0)
  {
    hide Joined64, Swap32, LowWord, HighWord, FourBytes;
    JoinedParts(ReadLE32(b, 0), ReadLE32(b, 4));
    SwappedBytes(b[0], b[1], b[2], b[3]);
    SwappedBytes(b[4], b[5], b[6], b[7]);
  }

  // ---------- stripes ----------

  /** The sum of a lane, the word of its neighbour and the product is one to one in the lane. */
  lemma LaneInjective(x: bv64, y: bv64, stripe: Bytes, key: Bytes, i: nat)
    requires Lane(x, stripe, key, i) == Lane(y, stripe, key, i)
    ensures x == y
  {
    hide Plus64, Product, ReadLE64;
    var p, d := Product(stripe, key, i), ReadLE64(stripe, 8 * Swap(i));
    if i % 2 == 0 { TwoSums(x, y, p, p, d, d); } else { TwoSums(x, y, d, d, p, p); }
  }

  lemma TwoSums(x: bv64, y: bv64, p: bv64, p': bv64, d: bv64, d': bv64)
    requires Plus64(Plus64(x, p), d) == Plus64(Plus64(y, p'), d')
    ensures p == p' && d == d' ==> x == y
    ensures x == y && p == p' ==> d == d'
    ensures x == y && d == d' ==> p == p'
  {
    hide Plus64;
    L.SumInjective(Plus64(x, p), Plus64(y, p'), d, d');
    if Plus64(x, p) == Plus64(y, p') { L.SumInjective(x, y, p, p'); }
  }

  /** A word of a stripe counts in the neighbouring lane. */
  lemma LaneReads(x: bv64, a: Bytes, b: Bytes, key: Bytes, i: nat)
    requires ReadLE64(a, 8 * i) == ReadLE64(b, 8 * i) && ReadLE64(a, 8 * Swap(i)) != ReadLE64(b, 8 * Swap(i))
    ensures Lane(x, a, key, i) != Lane(x, b, key, i)
  {
    hide Plus64, ReadLE64, Times64, Low32, High32, Xor64;
    var p, q := Product(a, key, i), Product(b, key, i);
    assert p == q;
    var d, e := ReadLE64(a, 8 * Swap(i)), ReadLE64(b, 8 * Swap(i));
    if Lane(x, a, key, i) == Lane(x, b, key, i) {
      if i % 2 == 0 { TwoSums(x, x, p, q, d, e); } else { TwoSums(x, x, d, e, p, q); }
    }
  }

  lemma AccumulatedInjective(acc: Lanes, acc': Lanes, stripe: Bytes, key: Bytes)
    requires acc != acc'
    ensures Accumulated(acc, stripe, key) != Accumulated(acc', stripe, key)
  {
    hide Lane;
    var i := SomeDiffer(acc, acc');
    if Accumulated(acc, stripe, key) == Accumulated(acc', stripe, key) {
      assert Accumulated(acc, stripe, key)[i] == Accumulated(acc', stripe, key)[i];
      LaneInjective(acc[i], acc'[i], stripe, key, i);
    }
  }

  lemma SomeDiffer(acc: Lanes, acc': Lanes) returns (i: nat)
    requires acc != acc'
    ensures i < 8 && acc[i] != acc'[i]
  {
    i :| i < 8 && acc[i] != acc'[i];
  }

  /** Stripes that differ in one word make different lanes. */
  lemma AccumulatedDiffers(acc: Lanes, a: Bytes, b: Bytes, key: Bytes, i: nat)
    requires |a| == STRIPE_LEN && i < 8 && DifferAt(a, b, 8 * i, 8)
    ensures Accumulated(acc, a, key) != Accumulated(acc, b, key)
  {
    hide Lane, ReadLE64;
    var j := Swap(i);
    L.Read8Same(a, b, 8 * i);
    L.Read8Same(a, b, 8 * j);
    if j < i { DifferHead(a, b, 8 * i, 8, 8 * j, 8); } else { SameWithin(a, b, 8 * i + 8, 8 * j, 8); }
    LaneReads(acc[j], a, b, key, j);
    assert Accumulated(acc, a, key)[j] != Accumulated(acc, b, key)[j];
  }

  lemma ScrambledInjective(acc: Lanes, acc': Lanes, key: Bytes)
    requires acc != acc'
    ensures Scrambled(acc, key) != Scrambled(acc', key)
  {
    hide ScrambledLane, ReadLE64, Times64, XorShift64, Xor64;
    var i := SomeDiffer(acc, acc');
    var w := ReadLE64(key, 8 * i);
    if Scrambled(acc, key) == Scrambled(acc', key) {
      assert Scrambled(acc, key)[i] == Scrambled(acc', key)[i];
      ScrambleBack(acc[i], w);
      ScrambleBack(acc'[i], w);
    }
  }

  lemma StepInjective(secret: Bytes, p: Progress, q: Progress, stripe: Bytes)
    requires Long(secret) && p.soFar == q.soFar < PerBlock(secret) && p.acc != q.acc
    ensures Step(secret, p, stripe).soFar == Step(secret, q, stripe).soFar && Step(secret, p, stripe).acc != Step(secret, q, stripe).acc
  {
    hide Accumulated, Scrambled;
    var key := Key(secret, CONSUME_RATE * p.soFar);
    AccumulatedInjective(p.acc, q.acc, stripe, key);
    ScrambledInjective(Accumulated(p.acc, stripe, key), Accumulated(q.acc, stripe, key), Key(secret, |secret| - STRIPE_LEN));
  }

  lemma StepDiffers(secret: Bytes, p: Progress, a: Bytes, b: Bytes, i: nat)
    requires Long(secret) && p.soFar < PerBlock(secret) && |a| == STRIPE_LEN && i < 8 && DifferAt(a, b, 8 * i, 8)
    ensures Step(secret, p, a).soFar == Step(secret, p, b).soFar && Step(secret, p, a).acc != Step(secret, p, b).acc
  {
    hide Accumulated, Scrambled, DifferAt;
    var key := Key(secret, CONSUME_RATE * p.soFar);
    AccumulatedDiffers(p.acc, a, b, key, i);
    ScrambledInjective(Accumulated(p.acc, a, key), Accumulated(p.acc, b, key), Key(secret, |secret| - STRIPE_LEN));
  }

  /** Inputs that differ in one word of their first n stripes make different lanes, through all blocks and scrambles. */
  lemma {:induction false} StepsDiffer(secret: Bytes, p: Progress, a: Bytes, b: Bytes, n: nat, k: nat)
    requires Long(secret) && p.soFar < PerBlock(secret) && STRIPE_LEN * n <= |a| && |a| == |b|
    requires k % 8 == 0 && k + 8 <= STRIPE_LEN * n && DifferAt(a, b, k, 8)
    ensures Steps(secret, p, a, n).soFar == Steps(secret, p, b, n).soFar && Steps(secret, p, a, n).acc != Steps(secret, p, b, n).acc
  {
    hide Step, DifferAt;
    var m := STRIPE_LEN * (n - 1);
    if k < m {
      WordBefore(k, n);
      StepsDiffer(secret, p, a, b, n - 1, k);
      DifferTo(a, b, k, 8, m);
      SameWithin(a, b, m, m, STRIPE_LEN);
      StepInjective(secret, Steps(secret, p, a, n - 1), Steps(secret, p, b, n - 1), StripeAt(a, n - 1));
    } else {
      DifferFrom(a, b, k, 8, m);
      StepsSame(secret, p, a, b, n - 1);
      StripeDiffers(a, b, n, k);
      StepDiffers(secret, Steps(secret, p, a, n - 1), StripeAt(a, n - 1), StripeAt(b, n - 1), (k - m) / 8);
    }
  }

  lemma WordBefore(k: nat, n: nat)
    requires n > 0 && k % 8 == 0 && k < STRIPE_LEN * (n - 1)
    ensures k + 8 <= STRIPE_LEN * (n - 1)
  {}

  lemma StepsSame(secret: Bytes, p: Progress, a: Bytes, b: Bytes, n: nat)
    requires Long(secret) && p.soFar < PerBlock(secret) && STRIPE_LEN * n <= |a| && |a| == |b| && a[..STRIPE_LEN * n] == b[..STRIPE_LEN * n]
    ensures Steps(secret, p, a, n) == Steps(secret, p, b, n)
  {
    hide Steps;
    var s := a[..STRIPE_LEN * n];
    assert a == s + a[STRIPE_LEN * n..] && b == s + b[STRIPE_LEN * n..];
    StepsPrefix(secret, p, s, a[STRIPE_LEN * n..], n);
    StepsPrefix(secret, p, s, b[STRIPE_LEN * n..], n);
  }

  lemma WordInStripe(n: nat, k: nat)
    requires n > 0 && k % 8 == 0 && STRIPE_LEN * (n - 1) <= k && k + 8 <= STRIPE_LEN * n
    ensures var m := STRIPE_LEN * (n - 1); 8 * ((k - m) / 8) == k - m && (k - m) / 8 < 8
  {
    var q := k / 8;
    assert k - STRIPE_LEN * (n - 1) == 8 * (q - 8 * (n - 1));
  }

  lemma StripeDiffers(a: Bytes, b: Bytes, n: nat, k: nat)
    requires n > 0 && STRIPE_LEN * n <= |a| && |a| == |b| && STRIPE_LEN * (n - 1) <= k && k + 8 <= STRIPE_LEN * n && k % 8 == 0
    requires DifferAt(a, b, k, 8)
    ensures var m := STRIPE_LEN * (n - 1);
      8 * ((k - m) / 8) == k - m && (k - m) / 8 < 8 && DifferAt(StripeAt(a, n - 1), StripeAt(b, n - 1), k - m, 8)
  {
    hide DifferAt;
    var m := STRIPE_LEN * (n - 1);
    WordInStripe(n, k);
    DifferTo(a, b, k, 8, m + STRIPE_LEN);
    DifferFrom(a[..m + STRIPE_LEN], b[..m + STRIPE_LEN], k, 8, m);
    StripeIs(a, n);
    StripeIs(b, n);
  }

  lemma StripeIs(a: Bytes, n: nat)
    requires n > 0 && STRIPE_LEN * n <= |a|
    ensures a[..STRIPE_LEN * (n - 1) + STRIPE_LEN][STRIPE_LEN * (n - 1)..] == StripeAt(a, n - 1)
  {}
}
