/** The numbers that 64-bit words stand for: sums, products and halves of words. */
module XxhNumbers {
  import opened Powers
  import opened XxhWords

  function Bit(x: bv64): nat {
    if x & 1 == 1 then 1 else 0
  }

  function Half(x: bv64): bv64 {
    x >> 1
  }

  /** The number with the bits of x. */
  function Number(x: bv64): nat
    decreases x
  {
    if x == 0 then 0 else Bit(x) + 2 * Number(Half(x))
  }

  lemma NumberStep(x: bv64)
    ensures Number(x) == Bit(x) + 2 * Number(Half(x))
  {}

  /** One bit more: twice the number, and a bit. */
  function Twice(y: bv64, t: bv64): bv64 {
    2 * y + t
  }

  lemma Split(x: bv64)
    ensures x == Twice(Half(x), x & 1) && x & 1 <= 1 && Half(x) < 0x8000_0000_0000_0000 && Bit(x & 1) == Bit(x) && (x != 0 ==> Half(x) < x)
  {}

  lemma TwiceBits(y: bv64, t: bv64)
    requires y < 0x8000_0000_0000_0000 && t <= 1
    ensures Half(Twice(y, t)) == y && Bit(Twice(y, t)) == Bit(t)
  {}

  lemma NumberTwice(y: bv64, t: bv64)
    requires y < 0x8000_0000_0000_0000 && t <= 1
    ensures Number(Twice(y, t)) == 2 * Number(y) + Bit(t)
  {
    hide Number, Twice, Bit, Half;
    TwiceBits(y, t);
    NumberStep(Twice(y, t));
  }

  lemma BitIs(x: bv64)
    ensures Bit(x) <= 1
  {}

  lemma {:induction false} NumberOfZero(x: bv64)
    ensures Number(0) == 0 && (x != 0 ==> Number(x) > 0)
    decreases x
  {
    hide Half;
    NumberStep(x);
    Split(x);
    if x != 0 {
      NumberOfZero(Half(x));
      NotZero(x);
    }
  }

  lemma NotZero(x: bv64)
    ensures x != 0 ==> Bit(x) > 0 || Half(x) != 0
  {}

  /** A word is determined by its number. */
  lemma {:induction false} Injective(x: bv64, y: bv64)
    requires Number(x) == Number(y)
    ensures x == y
    decreases Number(x)
  {
    hide Bit, Number, Half, Twice;
    NumberOfZero(x);
    NumberStep(x);
    NumberStep(y);
    BitIs(x);
    BitIs(y);
    Split(x);
    Split(y);
    if x != 0 {
      SameBit(x, y);
      Injective(Half(x), Half(y));
    } else {
      NumberOfZero(y);
    }
  }

  lemma SameBit(x: bv64, y: bv64)
    requires Bit(x) == Bit(y)
    ensures x & 1 == y & 1
  {}

  // ---------- shifts ----------

  function Halved(x: bv64, n: nat): bv64
    decreases n
  {
    if n == 0 then x else Halved(Half(x), n - 1)
  }

  /** The number of the last n bits. */
  function LastBits(x: bv64, n: nat): (v: nat)
    ensures v < Pow2(n)
    decreases n
  {
    if n == 0 then 0 else Bit(x) + 2 * LastBits(Half(x), n - 1)
  }

  lemma {:induction false} Parts(x: bv64, n: nat)
    ensures Number(x) == LastBits(x, n) + Pow2(n) * Number(Halved(x, n))
    decreases n
  {
    hide Bit, Half, Number;
    if n > 0 {
      NumberStep(x);
      Parts(Half(x), n - 1);
      Distribute(Pow2(n - 1), Number(Halved(x, n)), LastBits(Half(x), n - 1));
    }
  }

  lemma Distribute(p: nat, q: nat, r: nat)
    ensures 2 * (r + p * q) == 2 * r + (2 * p) * q
  {}

  lemma {:induction false} HalvedSum(x: bv64, m: nat, n: nat)
    ensures Halved(x, m + n) == Halved(Halved(x, m), n)
    decreases m
  {
    hide Half;
    if m > 0 { HalvedSum(Half(x), m - 1, n); }
  }

  function Nibble(x: bv64): bv64 {
    x >> 4
  }

  lemma Halved4(x: bv64)
    ensures Halved(x, 4) == Nibble(x)
  {
    assert Half(x) == x >> 1;
    assert Half(x >> 1) == x >> 2;
    assert Half(x >> 2) == x >> 3;
    assert Half(x >> 3) == x >> 4;
    assert Halved(x, 4) == Halved(x >> 1, 3) == Halved(x >> 2, 2) == Halved(x >> 3, 1) == Halved(x >> 4, 0);
  }

  lemma NextNibble(x: bv64, n: nat)
    ensures Halved(x, n + 4) == Nibble(Halved(x, n))
  {
    hide Halved, Nibble;
    HalvedSum(x, n, 4);
    Halved4(Halved(x, n));
  }

  lemma NibblesLow(x: bv64)
    ensures Nibble(x) == x >> 4 && Nibble(x >> 4) == x >> 8 && Nibble(x >> 8) == x >> 12 && Nibble(x >> 12) == x >> 16
    ensures Nibble(x >> 16) == x >> 20 && Nibble(x >> 20) == x >> 24 && Nibble(x >> 24) == x >> 28 && Nibble(x >> 28) == High32(x)
  {}

  lemma Halved32(x: bv64)
    ensures Halved(x, 32) == High32(x)
  {
    hide Nibble, High32, Halved;
    NibblesLow(x);
    Halved4(x);
    NextNibble(x, 4);
    NextNibble(x, 8);
    NextNibble(x, 12);
    NextNibble(x, 16);
    NextNibble(x, 20);
    NextNibble(x, 24);
    NextNibble(x, 28);
  }

  lemma HighHigh(x: bv64)
    ensures High32(High32(x)) == 0
  {}

  lemma Halved64(x: bv64)
    ensures Halved(x, 64) == 0
  {
    hide High32, Halved;
    HalvedSum(x, 32, 32);
    Halved32(x);
    Halved32(High32(x));
    HighHigh(x);
  }

  /** Words are below 2^64. */
  lemma Bounded(x: bv64)
    ensures Number(x) < Pow2(64)
  {
    hide Number, LastBits, Halved, Pow2;
    Parts(x, 64);
    Halved64(x);
    NumberOfZero(0);
  }

  lemma {:induction false} NoneLeft(x: bv64, n: nat)
    requires Halved(x, n) == 0
    ensures Number(x) < Pow2(n)
  {
    hide Number, LastBits, Halved, Pow2;
    Parts(x, n);
    NumberOfZero(0);
  }

  function Top(x: bv64): bv64 {
    x >> 63
  }

  lemma NibblesHigh(x: bv64)
    ensures Nibble(High32(x)) == x >> 36 && Nibble(x >> 36) == x >> 40 && Nibble(x >> 40) == x >> 44 && Nibble(x >> 44) == x >> 48
    ensures Nibble(x >> 48) == x >> 52 && Nibble(x >> 52) == x >> 56 && Nibble(x >> 56) == x >> 60
    ensures Half(x >> 60) == x >> 61 && Half(x >> 61) == x >> 62 && Half(x >> 62) == Top(x)
  {
    assert Nibble(x >> 32) == x >> 36;
  }

  lemma NextHalf(x: bv64, n: nat)
    ensures Halved(x, n + 1) == Half(Halved(x, n))
  {
    hide Half;
    HalvedSum(x, n, 1);
    assert Halved(Halved(x, n), 1) == Halved(Half(Halved(x, n)), 0);
  }

  lemma Halved63(x: bv64)
    ensures Halved(x, 63) == Top(x)
  {
    hide Nibble, High32, Halved, Half, Top;
    Halved32(x);
    NibblesHigh(x);
    NextNibble(x, 32);
    NextNibble(x, 36);
    NextNibble(x, 40);
    NextNibble(x, 44);
    NextNibble(x, 48);
    NextNibble(x, 52);
    NextNibble(x, 56);
    NextHalf(x, 60);
    NextHalf(x, 61);
    NextHalf(x, 62);
  }

  /** What is below 2^63 has its first bit clear. */
  lemma TopClear(x: bv64)
    requires 2 * Number(x) < Pow2(64)
    ensures x < 0x8000_0000_0000_0000
  {
    hide Number, LastBits, Halved, Top;
    Parts(x, 63);
    Halved63(x);
    NumberOfZero(Top(x));
    if Top(x) == 0 {
      TopIsFirst(x);
    } else {
      AtLeast(Pow2(63), Number(Top(x)));
    }
  }

  lemma AtLeast(p: nat, n: nat)
    requires n > 0
    ensures p * n >= p
  {}

  lemma TopIsFirst(x: bv64)
    requires Top(x) == 0
    ensures x < 0x8000_0000_0000_0000
  {}

  // ---------- sums ----------

  function Sum(a: bv64, b: bv64, c: bv64): bv64 {
    a + b + c
  }

  /** Adding the last bits, with the carry that comes in and the one that goes out. */
  lemma SumTwice(p: bv64, s: bv64, q: bv64, t: bv64, c: bv64) returns (k: bv64, l: bv64)
    requires s <= 1 && t <= 1 && c <= 1
    ensures k <= 1 && l <= 1 && Sum(Twice(p, s), Twice(q, t), c) == Twice(Sum(p, q, k), l)
    ensures Bit(l) + 2 * Bit(k) == Bit(s) + Bit(t) + Bit(c)
  {
    hide Sum, Twice;
    SumsTwice(p, q);
    OneBit(s);
    OneBit(t);
    OneBit(c);
    if s == 0 && t == 0 && c == 0 {
      return 0, 0;
    }
    if s == 1 && t == 1 && c == 1 {
      return 1, 1;
    }
    if (s == 0 && t == 0) || (s == 0 && c == 0) || (t == 0 && c == 0) {
      return 0, 1;
    }
    return 1, 0;
  }

  lemma OneBit(t: bv64)
    requires t <= 1
    ensures t == 0 || t == 1
  {}

  lemma TwiceSpelled(p: bv64)
    ensures Twice(p, 0) == 2 * p && Twice(p, 1) == 2 * p + 1
  {}

  lemma SumSpelled(p: bv64, q: bv64)
    ensures Sum(p, q, 0) == p + q
  {}

  lemma SumOneSpelled(p: bv64, q: bv64)
    ensures Sum(p, q, 1) == p + q + 1
  {}

  lemma EvenEven(p: bv64, q: bv64)
    ensures Sum(2 * p, 2 * q, 0) == Twice(p + q, 0)
  {}

  lemma EvenEvenOne(p: bv64, q: bv64)
    ensures Sum(2 * p, 2 * q, 1) == Twice(p + q, 1)
  {}

  lemma EvenOdd(p: bv64, q: bv64)
    ensures Sum(2 * p, 2 * q + 1, 0) == Twice(p + q, 1)
  {}

  lemma OddEven(p: bv64, q: bv64)
    ensures Sum(2 * p + 1, 2 * q, 0) == Twice(p + q, 1)
  {}

  lemma EvenOddOne(p: bv64, q: bv64)
    ensures Sum(2 * p, 2 * q + 1, 1) == Twice(p + q + 1, 0)
  {}

  lemma OddEvenOne(p: bv64, q: bv64)
    ensures Sum(2 * p + 1, 2 * q, 1) == Twice(p + q + 1, 0)
  {}

  lemma OddOdd(p: bv64, q: bv64)
    ensures Sum(2 * p + 1, 2 * q + 1, 0) == Twice(p + q + 1, 0)
  {}

  lemma OddOddOne(p: bv64, q: bv64)
    ensures Sum(2 * p + 1, 2 * q + 1, 1) == Twice(p + q + 1, 1)
  {}

  lemma SumsTwice(p: bv64, q: bv64)
    ensures Sum(Twice(p, 0), Twice(q, 0), 0) == Twice(Sum(p, q, 0), 0)
    ensures Sum(Twice(p, 0), Twice(q, 0), 1) == Twice(Sum(p, q, 0), 1)
    ensures Sum(Twice(p, 0), Twice(q, 1), 0) == Twice(Sum(p, q, 0), 1)
    ensures Sum(Twice(p, 1), Twice(q, 0), 0) == Twice(Sum(p, q, 0), 1)
    ensures Sum(Twice(p, 0), Twice(q, 1), 1) == Twice(Sum(p, q, 1), 0)
    ensures Sum(Twice(p, 1), Twice(q, 0), 1) == Twice(Sum(p, q, 1), 0)
    ensures Sum(Twice(p, 1), Twice(q, 1), 0) == Twice(Sum(p, q, 1), 0)
    ensures Sum(Twice(p, 1), Twice(q, 1), 1) == Twice(Sum(p, q, 1), 1)
  {
    hide Sum, Twice;
    TwiceSpelled(p);
    TwiceSpelled(q);
    SumSpelled(p, q);
    SumOneSpelled(p, q);
    EvenEven(p, q);
    EvenEvenOne(p, q);
    EvenOdd(p, q);
    OddEven(p, q);
    EvenOddOne(p, q);
    OddEvenOne(p, q);
    OddOdd(p, q);
    OddOddOne(p, q);
  }

  /** A sum that is below 2^64 is the sum of the numbers. */
  lemma {:induction false} NumberOfSum(a: bv64, b: bv64, c: bv64)
    requires c <= 1 && Number(a) + Number(b) + Bit(c) < Pow2(64)
    ensures Number(Sum(a, b, c)) == Number(a) + Number(b) + Bit(c)
    decreases Number(a) + Number(b)
  {
    hide Number, Bit, Half, Sum, Twice;
    if a == 0 && b == 0 {
      NumberOfBit(c);
    } else {
      NumberOfZero(a);
      NumberOfZero(b);
      NumberStep(a);
      NumberStep(b);
      Split(a);
      Split(b);
      var k, l := SumTwice(Half(a), a & 1, Half(b), b & 1, c);
      var y := Sum(Half(a), Half(b), k);
      NumberOfSum(Half(a), Half(b), k);
      TopClear(y);
      NumberTwice(y, l);
    }
  }

  lemma NumberOfBit(c: bv64)
    requires c <= 1
    ensures Number(0) == 0 && Sum(0, 0, c) == c && Number(c) == Bit(c)
  {
    OneBit(c);
    assert Half(1) == 0;
  }

  lemma PlusIsSum(a: bv64, b: bv64)
    ensures Plus64(a, b) == Sum(a, b, 0) && Bit(0) == 0
  {}

  lemma NumberOfPlus(a: bv64, b: bv64)
    requires Number(a) + Number(b) < Pow2(64)
    ensures Number(Plus64(a, b)) == Number(a) + Number(b)
  {
    hide Number, Bit, Plus64, Sum;
    PlusIsSum(a, b);
    NumberOfSum(a, b, 0);
  }

  // ---------- products ----------

  lemma TimesSpelled(a: bv64, b: bv64)
    ensures Times64(a, 0) == 0 && Twice(b, 0) == 2 * b && Twice(b, 1) == 2 * b + 1 && Times64(a, b) == a * b
    ensures Times64(a, 2 * b) == Twice(a * b, 0) && Twice(a * b, 0) == 2 * (a * b)
    ensures Times64(a, 2 * b + 1) == Sum(2 * (a * b), a, 0)
  {}

  lemma TimesTwice(a: bv64, b: bv64)
    ensures Times64(a, 0) == 0 && Times64(a, Twice(b, 0)) == Twice(Times64(a, b), 0)
    ensures Times64(a, Twice(b, 1)) == Sum(Twice(Times64(a, b), 0), a, 0)
  {
    hide Times64, Twice, Sum;
    TimesSpelled(a, b);
  }

  lemma ProductStep(x: nat, y: nat, t: nat)
    requires t <= 1
    ensures x * (2 * y + t) == 2 * (x * y) + (if t == 1 then x else 0)
  {}

  /** One bit of the second factor. */
  lemma NumberOfTimesTwice(a: bv64, b: bv64, t: bv64)
    requires t <= 1 && Number(Times64(a, b)) == Number(a) * Number(b)
    requires 2 * (Number(a) * Number(b)) + (if t == 1 then Number(a) else 0) < Pow2(64)
    ensures Number(Times64(a, Twice(b, t))) == 2 * (Number(a) * Number(b)) + if t == 1 then Number(a) else 0
  {
    hide Number, Bit, Sum, Twice, Times64;
    var y := Times64(a, b);
    TimesTwice(a, b);
    TopClear(y);
    NumberTwice(y, 0);
    BitOf(0);
    OneBit(t);
    if t == 1 { NumberOfSum(Twice(y, 0), a, 0); }
  }

  /** A product that is below 2^64 is the product of the numbers. */
  lemma {:induction false} NumberOfTimes(a: bv64, b: bv64)
    requires Number(a) * Number(b) < Pow2(64)
    ensures Number(Times64(a, b)) == Number(a) * Number(b)
    decreases Number(b)
  {
    hide Number, Bit, Half, Sum, Twice, Times64;
    TimesTwice(a, Half(b));
    NumberOfZero(b);
    if b != 0 {
      NumberStep(b);
      Split(b);
      BitIs(b);
      BitOf(b);
      OneBit(b & 1);
      ProductStep(Number(a), Number(Half(b)), Bit(b));
      NumberOfTimes(a, Half(b));
      NumberOfTimesTwice(a, Half(b), b & 1);
    }
  }

  lemma BitOf(x: bv64)
    ensures Bit(x) == if x & 1 == 1 then 1 else 0
    ensures Bit(0) == 0
  {}

  // ---------- halves ----------

  function And(x: bv64, m: bv64): bv64 {
    x & m
  }

  /** The last n bits of m are set, and no other. */
  predicate Ones(m: bv64, n: nat)
    decreases n
  {
    if n == 0 then m == 0 else m & 1 == 1 && Ones(Half(m), n - 1)
  }

  lemma AndBits(x: bv64, m: bv64)
    ensures Half(And(x, m)) == And(Half(x), Half(m)) && (m & 1 == 1 ==> Bit(And(x, m)) == Bit(x))
  {}

  lemma {:induction false} LastBitsMasked(x: bv64, m: bv64, n: nat)
    requires Ones(m, n)
    ensures LastBits(And(x, m), n) == LastBits(x, n)
    decreases n
  {
    hide And, Half, Bit;
    if n > 0 {
      AndBits(x, m);
      LastBitsMasked(Half(x), Half(m), n - 1);
    }
  }

  lemma OnesFour(m: bv64, n: nat)
    requires Ones(m >> 4, n) && m & 0xF == 0xF
    ensures Ones(m, n + 4)
  {
    assert Half(m) == m >> 1;
    assert Half(m >> 1) == m >> 2;
    assert Half(m >> 2) == m >> 3;
    assert Half(m >> 3) == m >> 4;
    assert Ones(m >> 3, n + 1);
    assert Ones(m >> 2, n + 2);
    assert Ones(m >> 1, n + 3);
  }

  lemma Ones32()
    ensures Ones(0xFFFF_FFFF, 32)
  {
    hide Ones;
    OnesNone();
    OnesFour(0xF, 0);
    OnesFour(0xFF, 4);
    OnesFour(0xFFF, 8);
    OnesFour(0xFFFF, 12);
    OnesFour(0xF_FFFF, 16);
    OnesFour(0xFF_FFFF, 20);
    OnesFour(0xFFF_FFFF, 24);
    OnesFour(0xFFFF_FFFF, 28);
  }

  lemma OnesNone()
    ensures Ones(0, 0)
  {}

  lemma LowParts(x: bv64)
    ensures Low32(x) == And(x, 0xFFFF_FFFF) && High32(Low32(x)) == 0
  {}

  /** A word by its two halves. */
  lemma Halves(x: bv64)
    ensures Number(x) == Number(Low32(x)) + Pow2(32) * Number(High32(x))
    ensures Number(Low32(x)) < Pow2(32) && Number(High32(x)) < Pow2(32)
  {
    hide Number, LastBits, Halved, Pow2, Low32, High32, And, Ones;
    Parts(x, 32);
    Halved32(x);
    LowParts(x);
    Parts(Low32(x), 32);
    Halved32(Low32(x));
    NumberOfZero(0);
    Ones32();
    LastBitsMasked(x, 0xFFFF_FFFF, 32);
    HighHigh(x);
    Halved32(High32(x));
    NoneLeft(High32(x), 32);
  }

  lemma GluedParts(hi: bv64, lo: bv64)
    ensures High32(Glued(hi, lo)) == Low32(hi) && Low32(Glued(hi, lo)) == Low32(lo)
  {}

  lemma NumberOfGlued(hi: bv64, lo: bv64)
    ensures Number(Glued(hi, lo)) == Number(Low32(lo)) + Pow2(32) * Number(Low32(hi))
  {
    hide Number, Low32, High32, Glued;
    Halves(Glued(hi, lo));
    GluedParts(hi, lo);
  }

  // ---------- numbers as words ----------

  /** The word with the last 64 binary digits of n. */
  function Word(n: nat): bv64 {
    if n == 0 then 0 else Twice(Word(n / 2), if n % 2 == 1 then 1 else 0)
  }

  lemma {:induction false} NumberOfWord(n: nat)
    requires n < Pow2(64)
    ensures Number(Word(n)) == n
  {
    hide Number, Bit, Twice;
    NumberOfZero(0);
    if n > 0 {
      NumberOfWord(n / 2);
      TopClear(Word(n / 2));
      BitsAre();
      NumberTwice(Word(n / 2), if n % 2 == 1 then 1 else 0);
    }
  }

  lemma BitsAre()
    ensures Bit(0) == 0 && Bit(1) == 1
  {}

  lemma Pow2Is()
    ensures Pow2(32) == WORD32 && Pow2(64) == WORD64
  {
    hide Pow2;
    Pow2Small();
    Pow2Sum(8, 8);
    Pow2Sum(16, 16);
    Pow2Sum(32, 32);
  }

  lemma Pow2Small()
    ensures Pow2(8) == 256
  {
    assert Pow2(4) == 16;
    Pow2Sum(4, 4);
  }
}
