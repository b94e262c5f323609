/** __bitcount64 and bit_count: the shift-and-add population count is the number of set bits. */
module BitCount {
  import opened Bitstring

  // ---------- the six steps of __bitcount64 ----------

  function Pairs(x: bv64): bv64 { (x & 0x5555555555555555) + ((x & 0xaaaaaaaaaaaaaaaa) >> 1) }
  function Nibbles(x: bv64): bv64 { (x & 0x3333333333333333) + ((x & 0xcccccccccccccccc) >> 2) }
  function Bytes(x: bv64): bv64 { (x + (x >> 4)) & 0x0f0f0f0f0f0f0f0f }
  function Halves(x: bv64): bv64 { x + (x >> 8) }
  function Quarters(x: bv64): bv64 { x + (x >> 16) }
  function Total(x: bv64): bv64 { (x + (x >> 32)) & 0x000000ff }

  /** __bitcount64 */
  function BitCount64(x: bv64): bv64 {
    Total(Quarters(Halves(Bytes(Nibbles(Pairs(x))))))
  }

  /** A field of a word: the bits of mask m at position i. */
  function Field(x: bv64, i: bv6, m: bv64): bv64 { (x >> i) & m }
  function Plus(x: bv64, y: bv64): bv64 { x + y }
  function Succ(x: bv64): bv64 { x + 1 }

  lemma PairsField(x: bv64, i: bv6)
    requires i & 1 == 0
    ensures Field(Pairs(x), i, 3) == Plus(Field(x, i, 1), Field(x, i + 1, 1))
  {}

  lemma NibblesField(x: bv64, i: bv6)
    requires i & 3 == 0
    ensures Field(Nibbles(x), i, 15) == Plus(Field(x, i, 3), Field(x, i + 2, 3))
  {}

  /** No pair holds 3, so no nibble holds more than 4. */
  predicate PairsBounded(x: bv64) { x & ((x >> 1) & 0x5555555555555555) == 0 }

  predicate NibblesBounded(x: bv64) {
    && x & 0x8888888888888888 == 0
    && (x & 0x4444444444444444) & ((x & 0x3333333333333333) << 1) == 0
    && (x & 0x4444444444444444) & ((x & 0x3333333333333333) << 2) == 0
  }

  lemma PairsAreBounded(x: bv64)
    ensures PairsBounded(Pairs(x))
  {}

  lemma NibblesAreBounded(x: bv64)
    requires PairsBounded(x)
    ensures NibblesBounded(Nibbles(x))
  {}

  lemma BytesField(x: bv64, i: bv6)
    requires i & 7 == 0 && NibblesBounded(x)
    ensures Field(Bytes(x), i, 255) == Plus(Field(x, i, 15), Field(x, i + 4, 15))
  {}

  /** The last three steps add up the eight bytes without overflowing any of them. */
  lemma BytesAreBounded(x: bv64)
    ensures Bytes(x) & 0xf0f0f0f0f0f0f0f0 == 0
  {}

  lemma HalvesField(x: bv64, i: bv6)
    requires i & 15 == 0 && x & 0xf0f0f0f0f0f0f0f0 == 0
    ensures Field(Halves(x), i, 255) == Plus(Field(x, i, 255), Field(x, i + 8, 255))
  {}

  lemma HalvesAreBounded(x: bv64)
    requires x & 0xf0f0f0f0f0f0f0f0 == 0
    ensures Halves(x) & 0xe0e0e0e0e0e0e0e0 == 0
  {}

  lemma QuartersField(x: bv64, i: bv6)
    requires i & 31 == 0 && x & 0xe0e0e0e0e0e0e0e0 == 0
    ensures Field(Quarters(x), i, 255) == Plus(Field(x, i, 255), Field(x, i + 16, 255))
  {}

  lemma QuartersAreBounded(x: bv64)
    requires x & 0xe0e0e0e0e0e0e0e0 == 0
    ensures Quarters(x) & 0xc0c0c0c0c0c0c0c0 == 0
  {}

  lemma TotalField(x: bv64)
    requires x & 0xc0c0c0c0c0c0c0c0 == 0
    ensures Total(x) == Plus(Field(x, 0, 255), Field(x, 32, 255))
  {}

  // ---------- small numbers as words ----------

  /** The word that represents n. */
  function Word(n: nat): bv64 {
    if n == 0 then 0 else Succ(Word(n - 1))
  }

  lemma PlusOne(x: bv64, y: bv64)
    ensures Plus(Succ(x), y) == Succ(Plus(x, y)) && Plus(0, y) == y
  {}

  lemma {:induction false} WordAdd(a: nat, b: nat)
    ensures Plus(Word(a), Word(b)) == Word(a + b)
  {
    hide Plus, Succ;
    if a > 0 {
      WordAdd(a - 1, b);
      PlusOne(Word(a - 1), Word(b));
    } else {
      PlusOne(0, Word(b));
    }
  }

  lemma Increment(x: bv64)
    requires (x as int) < 100
    ensures Succ(x) as int == (x as int) + 1
  {}

  lemma {:induction false} WordValue(n: nat)
    requires n <= 100
    ensures Word(n) as int == n
  {
    if n > 0 {
      WordValue(n - 1);
      Increment(Word(n - 1));
    }
  }

  // ---------- counting the bits of one word ----------

  function B(w: bv64, i: bv6): nat { if WordBit(w, i) then 1 else 0 }

  function ByteCount(w: bv64, i: bv6): nat {
    B(w, i) + B(w, i + 1) + B(w, i + 2) + B(w, i + 3) + B(w, i + 4) + B(w, i + 5) + B(w, i + 6) + B(w, i + 7)
  }

  function WordCount(w: bv64): nat {
    ByteCount(w, 0) + ByteCount(w, 8) + ByteCount(w, 16) + ByteCount(w, 24)
    + ByteCount(w, 32) + ByteCount(w, 40) + ByteCount(w, 48) + ByteCount(w, 56)
  }

  lemma BitField(w: bv64, i: bv6)
    ensures (w >> i) & 1 == if WordBit(w, i) then 1 else 0
  {}

  lemma BitWord(w: bv64, i: bv6)
    ensures Field(w, i, 1) == Word(B(w, i))
  {
    BitField(w, i);
    assert Word(1) == 1;
  }

  lemma PairWord(w: bv64, i: bv6)
    requires i & 1 == 0
    ensures Field(Pairs(w), i, 3) == Word(B(w, i) + B(w, i + 1))
  {
    hide Field, Plus, Pairs, B;
    PairsField(w, i);
    BitWord(w, i);
    BitWord(w, i + 1);
    WordAdd(B(w, i), B(w, i + 1));
  }

  lemma NibbleWord(w: bv64, i: bv6)
    requires i & 3 == 0
    ensures Field(Nibbles(Pairs(w)), i, 15) == Word(B(w, i) + B(w, i + 1) + B(w, i + 2) + B(w, i + 3))
  {
    hide Field, Plus, Pairs, Nibbles, B;
    var p := Pairs(w);
    NibblesField(p, i);
    NibbleIndices(i);
    PairWord(w, i);
    PairWord(w, i + 2);
    WordAdd(B(w, i) + B(w, i + 1), B(w, i + 2) + B(w, i + 3));
  }

  lemma NibbleIndices(i: bv6)
    requires i & 3 == 0
    ensures i & 1 == 0 && (i + 2) & 1 == 0 && i + 2 + 1 == i + 3
  {}

  lemma ByteIndices(i: bv6)
    requires i & 7 == 0
    ensures i & 3 == 0 && (i + 4) & 3 == 0 && i + 4 + 1 == i + 5 && i + 4 + 2 == i + 6 && i + 4 + 3 == i + 7
  {}

  lemma ByteWord(w: bv64, i: bv6)
    requires i & 7 == 0
    ensures Field(Bytes(Nibbles(Pairs(w))), i, 255) == Word(ByteCount(w, i))
  {
    hide Field, Plus, Pairs, Nibbles, Bytes, B, PairsBounded, NibblesBounded;
    var n := Nibbles(Pairs(w));
    PairsAreBounded(w);
    NibblesAreBounded(Pairs(w));
    BytesField(n, i);
    ByteIndices(i);
    NibbleWord(w, i);
    NibbleWord(w, i + 4);
    WordAdd(B(w, i) + B(w, i + 1) + B(w, i + 2) + B(w, i + 3), B(w, i + 4) + B(w, i + 5) + B(w, i + 6) + B(w, i + 7));
  }

  lemma HalfWord(w: bv64, i: bv6)
    requires i & 15 == 0
    ensures Field(Halves(Bytes(Nibbles(Pairs(w)))), i, 255) == Word(ByteCount(w, i) + ByteCount(w, i + 8))
  {
    hide Field, Plus, Pairs, Nibbles, Bytes, Halves, ByteCount;
    var b := Bytes(Nibbles(Pairs(w)));
    BytesAreBounded(Nibbles(Pairs(w)));
    HalvesField(b, i);
    assert i & 7 == 0 && (i + 8) & 7 == 0;
    ByteWord(w, i);
    ByteWord(w, i + 8);
    WordAdd(ByteCount(w, i), ByteCount(w, i + 8));
  }

  lemma QuarterWord(w: bv64, i: bv6)
    requires i & 31 == 0
    ensures Field(Quarters(Halves(Bytes(Nibbles(Pairs(w))))), i, 255)
         == Word(ByteCount(w, i) + ByteCount(w, i + 8) + (ByteCount(w, i + 16) + ByteCount(w, i + 24)))
  {
    hide Field, Plus, Pairs, Nibbles, Bytes, Halves, Quarters, ByteCount;
    var h := Halves(Bytes(Nibbles(Pairs(w))));
    BytesAreBounded(Nibbles(Pairs(w)));
    HalvesAreBounded(Bytes(Nibbles(Pairs(w))));
    QuartersField(h, i);
    assert i & 15 == 0 && (i + 16) & 15 == 0 && i + 16 + 8 == i + 24;
    HalfWord(w, i);
    HalfWord(w, i + 16);
    WordAdd(ByteCount(w, i) + ByteCount(w, i + 8), ByteCount(w, i + 16) + ByteCount(w, i + 24));
  }

  lemma TotalWord(w: bv64)
    ensures BitCount64(w) == Word(WordCount(w))
  {
    hide Field, Plus, Pairs, Nibbles, Bytes, Halves, Quarters, Total, ByteCount, Word;
    TotalOfQuarters(Bytes(Nibbles(Pairs(w)))) by { BytesAreBounded(Nibbles(Pairs(w))); }
    QuarterWord(w, 0);
    QuarterWord(w, 32);
    WordAdd(ByteCount(w, 0) + ByteCount(w, 8) + (ByteCount(w, 16) + ByteCount(w, 24)),
            ByteCount(w, 32) + ByteCount(w, 40) + (ByteCount(w, 48) + ByteCount(w, 56)));
  }

  lemma TotalOfQuarters(b: bv64)
    requires b & 0xf0f0f0f0f0f0f0f0 == 0
    ensures var q := Quarters(Halves(b)); Total(q) == Plus(Field(q, 0, 255), Field(q, 32, 255))
  {
    hide Field, Plus, Halves, Quarters, Total;
    HalvesAreBounded(b);
    QuartersAreBounded(Halves(b));
    TotalField(Quarters(Halves(b)));
  }

  /** __bitcount64 counts the set bits. */
  lemma BitCount64Counts(w: bv64)
    ensures BitCount64(w) as int == WordCount(w)
  {
    hide BitCount64, Word, WordCount;
    TotalWord(w);
    WordCountBound(w);
    WordValue(WordCount(w));
  }

  lemma WordCountBound(w: bv64)
    ensures WordCount(w) <= 64
  {}

  // ---------- counting in a bit string ----------

  /** The number of set bits from start up to, but not including, end. */
  function CountIn(bits: seq<bool>, start: nat, end: nat): nat
    requires end <= |bits|
  {
    if end <= start then 0 else CountIn(bits, start, end - 1) + (if bits[end - 1] then 1 else 0)
  }

  lemma {:induction false} CountSplit(bits: seq<bool>, a: nat, b: nat, c: nat)
    requires a <= b <= c <= |bits|
    ensures CountIn(bits, a, c) == CountIn(bits, a, b) + CountIn(bits, b, c)
  {
    if b < c { CountSplit(bits, a, b, c - 1); }
  }

  /** Counting ignores bits that are clear, and depends only on the bits in range. */
  lemma {:induction false} CountWindow(bits: seq<bool>, bits': seq<bool>, a: nat, c: nat, lo: nat, hi: nat)
    requires a <= lo <= hi <= c <= |bits| && c <= |bits'|
    requires forall i | a <= i < c :: bits'[i] == (lo <= i < hi && bits[i])
    ensures CountIn(bits', a, c) == CountIn(bits, lo, hi)
  {
    if a < c {
      if c == hi {
        if lo < hi { CountWindow(bits, bits', a, c - 1, lo, hi - 1); } else { CountNone(bits', a, c); }
      } else {
        CountWindow(bits, bits', a, c - 1, lo, hi);
      }
    }
  }

  lemma {:induction false} CountNone(bits: seq<bool>, a: nat, c: nat)
    requires c <= |bits| && forall i | a <= i < c :: !bits[i]
    ensures CountIn(bits, a, c) == 0
  {
    if a < c { CountNone(bits, a, c - 1); }
  }

  lemma NextOffset(o: nat)
    requires o < 63
    ensures BitOffset(o + 1) == BitOffset(o) + 1
  {
    hide BitOffset;
    OffsetIs(o, o);
    OffsetIs(o + 1, o + 1);
    OneAbove(BitOffset(o), BitOffset(o + 1));
  }

  lemma OneAbove(o: bv6, p: bv6)
    requires (o as int) < 63 && (p as int) == (o as int) + 1
    ensures p == o + 1
  {
    PlusOneOffset(o);
    SameOffset(p, o + 1);
  }

  lemma PlusOneOffset(o: bv6)
    requires (o as int) < 63
    ensures (o + 1) as int == (o as int) + 1
  {}

  function Bn(b: bool): nat { if b then 1 else 0 }

  lemma CountFour(bits: seq<bool>, at: nat)
    requires at + 4 <= |bits|
    ensures CountIn(bits, at, at + 4) == Bn(bits[at]) + Bn(bits[at + 1]) + Bn(bits[at + 2]) + Bn(bits[at + 3])
  {
    CountNext(bits, at, at);
    CountNext(bits, at, at + 1);
    CountNext(bits, at, at + 2);
    CountNext(bits, at, at + 3);
  }

  lemma CountNext(bits: seq<bool>, at: nat, i: nat)
    requires at <= i < |bits|
    ensures CountIn(bits, at, i + 1) == CountIn(bits, at, i) + Bn(bits[i]) && CountIn(bits, at, at) == 0
  {}

  lemma CountSixtyFour(bits: seq<bool>, at: nat)
    requires at + 64 <= |bits|
    ensures CountIn(bits, at, at + 64) ==
      CountIn(bits, at, at + 8) + CountIn(bits, at + 8, at + 16) + CountIn(bits, at + 16, at + 24)
      + CountIn(bits, at + 24, at + 32) + CountIn(bits, at + 32, at + 40) + CountIn(bits, at + 40, at + 48)
      + CountIn(bits, at + 48, at + 56) + CountIn(bits, at + 56, at + 64)
  {
    hide CountIn;
    CountSplit(bits, at, at + 8, at + 16);
    CountSplit(bits, at, at + 16, at + 24);
    CountSplit(bits, at, at + 24, at + 32);
    CountSplit(bits, at, at + 32, at + 40);
    CountSplit(bits, at, at + 40, at + 48);
    CountSplit(bits, at, at + 48, at + 56);
    CountSplit(bits, at, at + 56, at + 64);
  }

  /** Half a byte of one word. */
  lemma CountHalf(words: seq<bv64>, k: nat, o: nat)
    requires k < |words| && o + 3 < 64
    ensures CountIn(BitsOf(words), 64 * k + o, 64 * k + o + 4)
      == B(words[k], BitOffset(o)) + B(words[k], BitOffset(o + 1)) + B(words[k], BitOffset(o + 2)) + B(words[k], BitOffset(o + 3))
  {
    hide BitOffset, WordBit, CountIn, B, Bn, BitsOf;
    var at := 64 * k + o;
    CountFour(BitsOf(words), at);
    CountBit(words, k, o, at);
    CountBit(words, k, o + 1, at + 1);
    CountBit(words, k, o + 2, at + 2);
    CountBit(words, k, o + 3, at + 3);
  }

  /** One byte of one word. */
  lemma CountByte(words: seq<bv64>, k: nat, o: nat)
    requires k < |words| && o + 7 < 64
    ensures CountIn(BitsOf(words), 64 * k + o, 64 * k + o + 8) == ByteCount(words[k], BitOffset(o))
  {
    hide BitOffset, WordBit, CountIn, B, Bn, BitsOf, ByteCount;
    CountHalf(words, k, o);
    CountHalf(words, k, o + 4);
    CountSplit(BitsOf(words), 64 * k + o, 64 * k + o + 4, 64 * k + o + 8);
    ByteCountOffsets(words[k], o);
  }

  lemma ByteCountOffsets(w: bv64, o: nat)
    requires o + 7 < 64
    ensures ByteCount(w, BitOffset(o)) ==
      B(w, BitOffset(o)) + B(w, BitOffset(o + 1)) + B(w, BitOffset(o + 2)) + B(w, BitOffset(o + 3))
      + B(w, BitOffset(o + 4)) + B(w, BitOffset(o + 5)) + B(w, BitOffset(o + 6)) + B(w, BitOffset(o + 7))
  {
    hide BitOffset, B;
    ByteOffsets(o);
  }

  lemma CountBit(words: seq<bv64>, k: nat, o: nat, at: nat)
    requires k < |words| && o < 64 && at == 64 * k + o
    ensures Bn(BitsOf(words)[at]) == B(words[k], BitOffset(o))
  {
    hide BitOffset, WordBit;
    OffsetShift(k, o);
  }

  lemma ByteOffsets(o: nat)
    requires o + 7 < 64
    ensures BitOffset(o + 1) == BitOffset(o) + 1 && BitOffset(o + 2) == BitOffset(o) + 2
    ensures BitOffset(o + 3) == BitOffset(o) + 3 && BitOffset(o + 4) == BitOffset(o) + 4
    ensures BitOffset(o + 5) == BitOffset(o) + 5 && BitOffset(o + 6) == BitOffset(o) + 6
    ensures BitOffset(o + 7) == BitOffset(o) + 7
  {
    hide BitOffset;
    NextOffset(o);
    NextOffset(o + 1);
    NextOffset(o + 2);
    NextOffset(o + 3);
    NextOffset(o + 4);
    NextOffset(o + 5);
    NextOffset(o + 6);
  }

  lemma CountWordBits(words: seq<bv64>, k: nat)
    requires k < |words|
    ensures CountIn(BitsOf(words), 64 * k, 64 * k + 64) == BitCount64(words[k]) as int
  {
    BitCount64Counts(words[k]);
    ByteStarts();
    hide BitOffset, ByteCount, BitCount64, BitsOf, CountIn;
    CountSixtyFour(BitsOf(words), 64 * k);
    CountByte(words, k, 0);
    CountByte(words, k, 8);
    CountByte(words, k, 16);
    CountByte(words, k, 24);
    CountByte(words, k, 32);
    CountByte(words, k, 40);
    CountByte(words, k, 48);
    CountByte(words, k, 56);
  }

  lemma ByteStarts()
    ensures BitOffset(0) == 0 && BitOffset(8) == 8 && BitOffset(16) == 16 && BitOffset(24) == 24
    ensures BitOffset(32) == 32 && BitOffset(40) == 40 && BitOffset(48) == 48 && BitOffset(56) == 56
  {}

  /** A masked word counts only the bits under the mask. */
  lemma CountMasked(words: seq<bv64>, k: nat, s: nat, e: nat)
    requires k < |words| && s <= e < 64
    ensures CountIn(BitsOf(words), 64 * k + s, 64 * k + e + 1) == BitCount64(And64(words[k], MakeMask(s, e))) as int
  {
    hide BitOffset, WordBit, And64, RangeMask, BitCount64, CountIn;
    var masked := words[k := And64(words[k], MakeMask(s, e))];
    CountWordBits(masked, k);
    forall i | 64 * k <= i < 64 * k + 64 ensures
      BitsOf(masked)[i] == (64 * k + s <= i < 64 * k + e + 1 && BitsOf(words)[i])
    {
      MaskedBit(words, k, s, e, i - 64 * k);
    }
    CountWindow(BitsOf(words), BitsOf(masked), 64 * k, 64 * k + 64, 64 * k + s, 64 * k + e + 1);
  }

  lemma MaskedBit(words: seq<bv64>, k: nat, s: nat, e: nat, o: nat)
    requires k < |words| && s <= e < 64 && o < 64
    ensures BitsOf(words[k := And64(words[k], MakeMask(s, e))])[64 * k + o] == (s <= o <= e && BitsOf(words)[64 * k + o])
  {
    hide BitOffset, WordBit, And64, RangeMask;
    OffsetShift(k, o);
    AndBit(words[k], MakeMask(s, e), BitOffset(o));
    RangeMaskBit(BitOffset(s), BitOffset(e), BitOffset(o));
    OffsetsCompare(s, o);
    OffsetsCompare(o, e);
  }

  /** bit_count */
  method BitCount(a: array<bv64>, start: nat, nbits: int) returns (r: int)
    requires nbits <= 64 * a.Length
    ensures r == if start < nbits then CountIn(BitsOf(a[..]), start, nbits) else 0
  {
    hide BitOffset, WordBit, And64, RangeMask, BitCount64, BitsOf, CountIn;
    r := 0;
    if start >= nbits {
      return;
    }
    ghost var bits := BitsOf(a[..]);
    var cur := BitIdx(start);
    var left, first := nbits - 64 * cur, start - 64 * cur;
    CountEmpty(bits, start);
    if first > 0 {
      var len := if 64 < left then 64 else left;
      CountMasked(a[..], cur, first, len - 1);
      r := r + BitCount64(And64(a[cur], MakeMask(first, len - 1))) as int;
      cur := cur + 1;
      left := left - 64;
    }
    while left >= 64
      invariant BitIdx(start) <= cur && left == nbits - 64 * cur && start <= 64 * cur
      invariant r == CountIn(bits, start, if left < 0 then nbits else 64 * cur)
      decreases left
    {
      CountWordBits(a[..], cur);
      CountSplit(bits, start, 64 * cur, 64 * cur + 64);
      r := r + BitCount64(a[cur]) as int;
      cur := cur + 1;
      left := left - 64;
    }
    if left > 0 {
      CountMasked(a[..], cur, 0, left - 1);
      CountSplit(bits, start, 64 * cur, nbits);
      r := r + BitCount64(And64(a[cur], MakeMask(0, left - 1))) as int;
    }
  }

  lemma CountEmpty(bits: seq<bool>, i: nat)
    requires i <= |bits|
    ensures CountIn(bits, i, i) == 0
  {}
}
