/**
 Bit strings stored in an array of 64-bit words (bitstring.h).  The word-level operations work with
 shifts and masks; BitsOf is the sequence of booleans that the words stand for, and every operation
 is specified on that sequence.
 */
module Bitstring {
  const BITSTR_MASK: bv64 := 0xffff_ffff_ffff_ffff

  // ---------- one word ----------

  /** The word whose only set bit is i. */
  function Bit64(i: bv6): bv64 { (1 as bv64) << i }

  predicate WordBit(w: bv64, i: bv6) {
    And64(w, Bit64(i)) != 0
  }

  /** _bit_idx */
  function BitIdx(bit: nat): nat { bit / 64 }

  /** _bit_offset */
  function BitOffset(bit: nat): bv6 { (bit % 64) as bv6 }

  // The word operators, named so that proofs can treat them abstractly.
  function Or64(x: bv64, y: bv64): bv64 { x | y }
  function And64(x: bv64, y: bv64): bv64 { x & y }
  function Not64(x: bv64): bv64 { !x }
  function FromBit(s: bv6): bv64 { BITSTR_MASK << s }
  function UpToBit(e: bv6): bv64 { BITSTR_MASK >> (63 - e) }

  /** _bit_mask */
  function BitMask(bit: nat): bv64 { Bit64(BitOffset(bit)) }

  /** _bit_make_mask, on the offsets of its arguments */
  function RangeMask(s: bv6, e: bv6): bv64 { And64(FromBit(s), UpToBit(e)) }

  function MakeMask(start: nat, stop: nat): bv64 { RangeMask(BitOffset(start), BitOffset(stop)) }

  /** The word with bits s to e set or cleared, as the callers of _bit_make_mask do it. */
  function PutMask(x: bv64, s: bv6, e: bv6, b: bool): bv64 {
    if b then Or64(x, RangeMask(s, e)) else And64(x, Not64(RangeMask(s, e)))
  }

  lemma OneHot(x: bv64, i: bv6)
    ensures And64(x, Bit64(i)) == 0 || And64(x, Bit64(i)) == Bit64(i)
    ensures Bit64(i) != 0
  {}

  lemma DeMorgan(x: bv64, y: bv64)
    ensures Or64(x, y) == Not64(And64(Not64(x), Not64(y)))
  {}

  lemma AndDistributes(x: bv64, y: bv64, m: bv64)
    ensures And64(And64(x, y), m) == And64(And64(x, m), And64(y, m))
  {}

  lemma AndConstants(x: bv64)
    ensures And64(x, x) == x && And64(0, x) == 0 && And64(x, 0) == 0
  {}

  lemma NotUnderMask(x: bv64, m: bv64)
    ensures And64(x, m) == m ==> And64(Not64(x), m) == 0
    ensures And64(x, m) == 0 ==> And64(Not64(x), m) == m
  {}

  lemma AndBit(x: bv64, y: bv64, i: bv6)
    ensures WordBit(And64(x, y), i) <==> WordBit(x, i) && WordBit(y, i)
  {
    hide And64, Bit64;
    OneHot(x, i);
    OneHot(y, i);
    AndDistributes(x, y, Bit64(i));
    AndConstants(And64(x, Bit64(i)));
    AndConstants(And64(y, Bit64(i)));
  }

  lemma NotBit(x: bv64, i: bv6)
    ensures WordBit(Not64(x), i) == !WordBit(x, i)
  {
    hide And64, Not64, Bit64;
    OneHot(x, i);
    NotUnderMask(x, Bit64(i));
  }

  lemma OrBit(x: bv64, y: bv64, i: bv6)
    ensures WordBit(Or64(x, y), i) <==> WordBit(x, i) || WordBit(y, i)
  {
    hide Or64, And64, Not64, WordBit;
    DeMorgan(x, y);
    NotBit(x, i);
    NotBit(y, i);
    AndBit(Not64(x), Not64(y), i);
    NotBit(And64(Not64(x), Not64(y)), i);
  }

  lemma FromBitBit(s: bv6, i: bv6)
    ensures WordBit(FromBit(s), i) <==> s <= i
  {}

  lemma UpToBitBit(e: bv6, i: bv6)
    ensures WordBit(UpToBit(e), i) <==> i <= e
  {}

  lemma RangeMaskBit(s: bv6, e: bv6, i: bv6)
    ensures WordBit(RangeMask(s, e), i) <==> s <= i <= e
  {
    hide WordBit, And64, FromBit, UpToBit;
    FromBitBit(s, i);
    UpToBitBit(e, i);
    AndBit(FromBit(s), UpToBit(e), i);
  }

  lemma PutMaskBit(x: bv64, s: bv6, e: bv6, b: bool, i: bv6)
    ensures WordBit(PutMask(x, s, e, b), i) == if s <= i <= e then b else WordBit(x, i)
  {
    hide WordBit, And64, Or64, Not64, RangeMask;
    RangeMaskBit(s, e, i);
    OrBit(x, RangeMask(s, e), i);
    NotBit(RangeMask(s, e), i);
    AndBit(x, Not64(RangeMask(s, e)), i);
  }

  lemma OneBitMask(k: bv6)
    ensures Bit64(k) == RangeMask(k, k)
  {}

  lemma ConstantBits(i: bv6)
    ensures WordBit(BITSTR_MASK, i) && !WordBit(0, i)
  {}

  /** A word that is not zero has a set bit; found by bisection. */
  lemma NonZeroHasBit(x: bv64) returns (i: bv6)
    requires x != 0
    ensures WordBit(x, i)
  {
    var y := x;
    i := 0;
    if y & 0xffff_ffff == 0 { i, y := 32, y >> 32; }
    if y & 0xffff == 0 { i, y := i + 16, y >> 16; }
    if y & 0xff == 0 { i, y := i + 8, y >> 8; }
    if y & 0xf == 0 { i, y := i + 4, y >> 4; }
    if y & 3 == 0 { i, y := i + 2, y >> 2; }
    if y & 1 == 0 { i := i + 1; }
  }

  lemma OffsetOrder(x: bv6, y: bv6)
    ensures x <= y <==> (x as int) <= (y as int)
    ensures x == y <==> (x as int) == (y as int)
  {}

  lemma OffsetValue(bit: nat)
    ensures BitOffset(bit) as int == bit % 64
  {}

  /** Word index and offset determine the position, and offsets order positions inside a word. */
  lemma SamePlace(i: nat, j: nat)
    ensures BitIdx(i) == BitIdx(j) && BitOffset(i) == BitOffset(j) <==> i == j
    ensures BitIdx(i) < BitIdx(j) ==> i < j
    ensures BitIdx(i) == BitIdx(j) ==> (BitOffset(i) <= BitOffset(j) <==> i <= j)
  {
    OffsetValue(i);
    OffsetValue(j);
    OffsetOrder(BitOffset(i), BitOffset(j));
  }

  // ---------- the sequence of bits ----------

  predicate BitAt(words: seq<bv64>, i: nat)
    requires i < 64 * |words|
  {
    WordBit(words[BitIdx(i)], BitOffset(i))
  }

  ghost function BitsOf(words: seq<bv64>): (bits: seq<bool>)
    ensures |bits| == 64 * |words|
    ensures forall i | 0 <= i < |bits| :: bits[i] == BitAt(words, i)
  {
    seq(64 * |words|, i requires 0 <= i < 64 * |words| => BitAt(words, i))
  }

  /** Bits start to stop, both included, replaced by b. */
  function Filled(bits: seq<bool>, start: nat, stop: nat, b: bool): (r: seq<bool>)
    requires start <= stop < |bits|
    ensures |r| == |bits|
    ensures forall i | 0 <= i < |bits| :: r[i] == if start <= i <= stop then b else bits[i]
  {
    seq(|bits|, i requires 0 <= i < |bits| => if start <= i <= stop then b else bits[i])
  }

  /** Setting or clearing bits lo to hi inside one word. */
  lemma StoreBits(words: seq<bv64>, lo: nat, hi: nat, b: bool)
    requires lo <= hi < 64 * |words| && BitIdx(lo) == BitIdx(hi)
    ensures BitsOf(words[BitIdx(lo) := PutMask(words[BitIdx(lo)], BitOffset(lo), BitOffset(hi), b)])
         == Filled(BitsOf(words), lo, hi, b)
  {
    hide BitOffset, WordBit, PutMask;
    var k := BitIdx(lo);
    var words' := words[k := PutMask(words[k], BitOffset(lo), BitOffset(hi), b)];
    forall i | 0 <= i < 64 * |words| ensures BitAt(words', i) == if lo <= i <= hi then b else BitAt(words, i) {
      SamePlace(lo, i);
      SamePlace(i, hi);
      SamePlace(i, lo);
      PutMaskBit(words[k], BitOffset(lo), BitOffset(hi), b, BitOffset(i));
    }
  }

  /** A whole word stored at once. */
  lemma StoreConstant(words: seq<bv64>, k: nat, b: bool)
    requires k < |words|
    ensures BitsOf(words[k := if b then BITSTR_MASK else 0]) == Filled(BitsOf(words), 64 * k, 64 * k + 63, b)
  {
    WholeWord(k);
    FullMask(words[k], b);
    hide BitOffset, WordBit, PutMask;
    StoreBits(words, 64 * k, 64 * k + 63, b);
  }

  lemma FullMask(x: bv64, b: bool)
    ensures PutMask(x, 0, 63, b) == if b then BITSTR_MASK else 0
  {}

  lemma WholeWord(k: nat)
    ensures BitIdx(64 * k) == BitIdx(64 * k + 63) == k && BitOffset(64 * k) == 0 && BitOffset(64 * k + 63) == 63
  {}

  lemma FilledTwice(bits: seq<bool>, start: nat, mid: nat, stop: nat, b: bool)
    requires start <= mid < stop < |bits|
    ensures Filled(Filled(bits, start, mid, b), mid + 1, stop, b) == Filled(bits, start, stop, b)
  {}

  // ---------- single bits ----------

  method BitTest(a: array<bv64>, bit: nat) returns (r: bool)
    requires bit < 64 * a.Length
    ensures r == BitsOf(a[..])[bit]
  {
    r := a[BitIdx(bit)] & BitMask(bit) != 0;
  }

  method BitSet(a: array<bv64>, bit: nat)
    requires bit < 64 * a.Length
    modifies a
    ensures BitsOf(a[..]) == old(BitsOf(a[..]))[bit := true]
  {
    StoreBits(a[..], bit, bit, true);
    OneBitMask(BitOffset(bit));
    hide BitOffset, RangeMask, BitAt, Or64, And64, Not64, WordBit, BitMask;
    a[BitIdx(bit)] := Or64(a[BitIdx(bit)], BitMask(bit));
    assert a[..] == old(a[..])[BitIdx(bit) := a[BitIdx(bit)]];
  }

  method BitClear(a: array<bv64>, bit: nat)
    requires bit < 64 * a.Length
    modifies a
    ensures BitsOf(a[..]) == old(BitsOf(a[..]))[bit := false]
  {
    StoreBits(a[..], bit, bit, false);
    OneBitMask(BitOffset(bit));
    hide BitOffset, RangeMask, BitAt, Or64, And64, Not64, WordBit, BitMask;
    a[BitIdx(bit)] := And64(a[BitIdx(bit)], Not64(BitMask(bit)));
    assert a[..] == old(a[..])[BitIdx(bit) := a[BitIdx(bit)]];
  }

  // ---------- ranges ----------

  /** bit_nset */
  method BitNset(a: array<bv64>, start: nat, stop: nat)
    requires start <= stop < 64 * a.Length
    modifies a
    ensures BitsOf(a[..]) == Filled(old(BitsOf(a[..])), start, stop, true)
  {
    hide BitOffset, RangeMask, WordBit, BitAt;
    ghost var bits, words := BitsOf(a[..]), a[..];
    var cur, last := BitIdx(start), BitIdx(stop);
    if cur == last {
      StoreBits(words, start, stop, true);
      a[cur] := Or64(a[cur], MakeMask(start, stop));
      assert a[..] == words[cur := a[cur]];
    } else {
      StoreBits(words, start, 64 * cur + 63, true);
      WordEnd(cur);
      a[cur] := Or64(a[cur], MakeMask(start, 63));
      assert a[..] == words[cur := a[cur]];
      cur := cur + 1;
      while cur < last
        invariant BitIdx(start) < cur <= last
        invariant BitsOf(a[..]) == Filled(bits, start, 64 * cur - 1, true)
      {
        words := a[..];
        a[cur] := BITSTR_MASK;
        assert a[..] == words[cur := BITSTR_MASK];
        StoreConstant(words, cur, true);
        FilledTwice(bits, start, 64 * cur - 1, 64 * cur + 63, true);
        cur := cur + 1;
      }
      words := a[..];
      StoreBits(words, 64 * last, stop, true);
      WordEnd(last);
      a[last] := Or64(a[last], MakeMask(0, stop));
      assert a[..] == words[last := a[last]];
      FilledTwice(bits, start, 64 * last - 1, stop, true);
    }
  }

  /** bit_nclear */
  method BitNclear(a: array<bv64>, start: nat, stop: nat)
    requires start <= stop < 64 * a.Length
    modifies a
    ensures BitsOf(a[..]) == Filled(old(BitsOf(a[..])), start, stop, false)
  {
    hide BitOffset, RangeMask, WordBit, BitAt;
    ghost var bits, words := BitsOf(a[..]), a[..];
    var cur, last := BitIdx(start), BitIdx(stop);
    if cur == last {
      StoreBits(words, start, stop, false);
      a[cur] := And64(a[cur], Not64(MakeMask(start, stop)));
      assert a[..] == words[cur := a[cur]];
    } else {
      StoreBits(words, start, 64 * cur + 63, false);
      WordEnd(cur);
      a[cur] := And64(a[cur], Not64(MakeMask(start, 63)));
      assert a[..] == words[cur := a[cur]];
      cur := cur + 1;
      while cur < last
        invariant BitIdx(start) < cur <= last
        invariant BitsOf(a[..]) == Filled(bits, start, 64 * cur - 1, false)
      {
        words := a[..];
        a[cur] := 0;
        assert a[..] == words[cur := 0];
        StoreConstant(words, cur, false);
        FilledTwice(bits, start, 64 * cur - 1, 64 * cur + 63, false);
        cur := cur + 1;
      }
      words := a[..];
      StoreBits(words, 64 * last, stop, false);
      WordEnd(last);
      a[last] := And64(a[last], Not64(MakeMask(0, stop)));
      assert a[..] == words[last := a[last]];
      FilledTwice(bits, start, 64 * last - 1, stop, false);
    }
  }

  /** Masks look only at offsets. */
  lemma WordEnd(k: nat)
    ensures forall s :: MakeMask(s, 64 * k + 63) == MakeMask(s, 63)
    ensures forall e :: MakeMask(64 * k, e) == MakeMask(0, e)
    ensures BitIdx(64 * k + 63) == k == BitIdx(64 * k)
  {
    WholeWord(k);
    WholeWord(0);
  }

  // ---------- searching ----------

  /** The least index from start up to, but not including, nbits whose bit is b; -1 if there is none. */
  function FirstIn(bits: seq<bool>, start: nat, nbits: int, b: bool): (r: int)
    requires nbits <= |bits|
    ensures r == -1 || start <= r < nbits
    ensures r >= 0 ==> bits[r] == b && forall i | start <= i < r :: bits[i] != b
    ensures r == -1 ==> forall i | start <= i < nbits :: bits[i] != b
    decreases nbits - start
  {
    if start >= nbits then -1 else if bits[start] == b then start else FirstIn(bits, start + 1, nbits, b)
  }

  lemma FirstInIs(bits: seq<bool>, start: nat, nbits: int, b: bool, r: int)
    requires nbits <= |bits|
    requires start <= r < nbits && bits[r] == b && forall i | start <= i < r :: bits[i] != b
    ensures FirstIn(bits, start, nbits, b) == r
  {}

  /** ffsl of the C library: one plus the index of the least set bit, 0 for a zero word. */
  function FfslFrom(w: bv64, n: nat): (r: nat)
    requires n <= 64
    ensures r == 0 || n < r <= 64
    ensures r == 0 ==> forall k | n <= k < 64 :: !WordBit(w, BitOffset(k))
    ensures r > 0 ==> WordBit(w, BitOffset(r - 1)) && forall k | n <= k < r - 1 :: !WordBit(w, BitOffset(k))
    decreases 64 - n
  {
    if n == 64 then 0 else if WordBit(w, BitOffset(n)) then n + 1 else FfslFrom(w, n + 1)
  }

  function Ffsl(w: bv64): nat { FfslFrom(w, 0) }

  /** ffsl returns 0 for the zero word only. */
  lemma FfslZero(w: bv64)
    ensures Ffsl(w) == 0 <==> w == 0
  {
    hide BitOffset, WordBit;
    if w == 0 {
      forall k: nat | k < 64 ensures !WordBit(w, BitOffset(k)) { ConstantBits(BitOffset(k)); }
    } else {
      var i := NonZeroHasBit(w);
      OffsetOfInt(i);
      assert WordBit(w, BitOffset(i as int));
    }
  }

  lemma OffsetOfInt(i: bv6)
    ensures 0 <= (i as int) < 64 && BitOffset(i as int) == i
  {
    OffsetRange(i);
    assert (i as int) % 64 == i as int;
    OffsetBack(i);
  }

  lemma OffsetRange(i: bv6)
    ensures 0 <= (i as int) < 64
  {}

  lemma OffsetBack(i: bv6)
    requires 0 <= (i as int) < 64
    ensures (i as int) as bv6 == i
  {}

  lemma OffsetShift(k: nat, o: nat)
    requires o < 64
    ensures BitIdx(64 * k + o) == k && BitOffset(64 * k + o) == BitOffset(o)
  {}

  /** The bits of one word that lie at or after start. */
  predicate TailWord(words: seq<bv64>, cur: nat, start: nat, test: bv64)
    requires cur < |words|
  {
    forall o: nat | o < 64 :: WordBit(test, BitOffset(o)) <==> BitAt(words, 64 * cur + o) && start <= 64 * cur + o
  }

  lemma TailWordStart(words: seq<bv64>, start: nat)
    requires start < 64 * |words|
    ensures var w := words[BitIdx(start)];
      TailWord(words, BitIdx(start), start, if BitOffset(start) != 0 then And64(w, MakeMask(start, 63)) else w)
  {
    hide WordBit, And64, RangeMask, MakeMask, BitOffset, BitAt;
    var cur := BitIdx(start);
    assert cur < |words|;
    var test := if BitOffset(start) != 0 then And64(words[cur], MakeMask(start, 63)) else words[cur];
    hide BitIdx;
    forall o: nat | o < 64 ensures WordBit(test, BitOffset(o)) <==> BitAt(words, 64 * cur + o) && start <= 64 * cur + o {
      TailWordBit(words, start, o);
    }
  }

  lemma TailWordBit(words: seq<bv64>, start: nat, o: nat)
    requires start < 64 * |words| && o < 64
    ensures var w := words[BitIdx(start)];
      WordBit(if BitOffset(start) != 0 then And64(w, MakeMask(start, 63)) else w, BitOffset(o))
      <==> BitAt(words, 64 * BitIdx(start) + o) && start <= 64 * BitIdx(start) + o
  {
    hide BitOffset, WordBit, And64, RangeMask;
    var cur := BitIdx(start);
    OffsetShift(cur, o);
    OffsetsCompare(start, o);
    OffsetsCompare(o, 63);
    OffsetsCompare(start, 0);
    WholeWord(0);
    AndBit(words[cur], MakeMask(start, 63), BitOffset(o));
    RangeMaskBit(BitOffset(start), BitOffset(63), BitOffset(o));
  }

  lemma OffsetsCompare(i: nat, j: nat)
    ensures BitOffset(i) <= BitOffset(j) <==> i % 64 <= j % 64
    ensures BitOffset(i) == BitOffset(j) <==> i % 64 == j % 64
  {
    OffsetValue(i);
    OffsetValue(j);
    OffsetOrder(BitOffset(i), BitOffset(j));
  }

  lemma TailWordNext(words: seq<bv64>, cur: nat, start: nat)
    requires cur < |words| && start <= 64 * cur
    ensures TailWord(words, cur, start, words[cur])
  {
    hide BitOffset, WordBit;
    forall o: nat | o < 64 ensures WordBit(words[cur], BitOffset(o)) <==> BitAt(words, 64 * cur + o) {
      OffsetShift(cur, o);
    }
  }

  /** Nothing is set from start up to the given word. */
  ghost predicate ClearUpTo(bits: seq<bool>, start: nat, end: nat) {
    end <= |bits| && forall i | start <= i < end :: !bits[i]
  }

  lemma TailWordZero(words: seq<bv64>, cur: nat, start: nat)
    requires cur < |words| && TailWord(words, cur, start, 0) && ClearUpTo(BitsOf(words), start, 64 * cur)
    ensures ClearUpTo(BitsOf(words), start, 64 * cur + 64)
  {
    hide BitOffset, WordBit;
    forall i | start <= i < 64 * cur + 64 ensures !BitsOf(words)[i] {
      if 64 * cur <= i {
        ConstantBits(BitOffset(i - 64 * cur));
        assert WordBit(0, BitOffset(i - 64 * cur)) <==> BitAt(words, 64 * cur + (i - 64 * cur)) && start <= i;
      }
    }
  }

  lemma TailWordFirst(words: seq<bv64>, cur: nat, start: nat, test: bv64, nbits: int)
    requires cur < |words| && TailWord(words, cur, start, test) && ClearUpTo(BitsOf(words), start, 64 * cur)
    requires test != 0 || nbits <= 64 * cur + 64
    requires nbits <= 64 * |words|
    ensures var offset := Ffsl(test);
      FirstIn(BitsOf(words), start, nbits, true) ==
        if offset == 0 || 64 * cur + offset - 1 >= nbits then -1 else 64 * cur + offset - 1
  {
    hide BitOffset, WordBit;
    var bits, offset := BitsOf(words), Ffsl(test);
    FfslZero(test);
    if offset == 0 {
      TailWordZero(words, cur, start);
    } else {
      var v := 64 * cur + (offset - 1);
      assert BitAt(words, v) && start <= v;
      forall i | start <= i < v ensures !bits[i] {
        if 64 * cur <= i {
          assert WordBit(test, BitOffset(i - 64 * cur)) <==> BitAt(words, 64 * cur + (i - 64 * cur)) && start <= i;
        }
      }
      if v < nbits { FirstInIs(bits, start, nbits, true, v); }
    }
  }

  /** bit_ffs_at */
  method BitFfsAt(a: array<bv64>, start: nat, nbits: int) returns (r: int)
    requires nbits <= 64 * a.Length && (nbits > 0 ==> start < 64 * a.Length)
    ensures r == FirstIn(BitsOf(a[..]), start, nbits, true)
  {
    hide BitOffset, WordBit, And64, RangeMask, TailWord;
    if nbits <= 0 {
      return -1;
    }
    var cur, stop := BitIdx(start), BitIdx(nbits - 1);
    var test := a[cur];
    TailWordStart(a[..], start);
    if BitOffset(start) != 0 {
      test := And64(test, MakeMask(start, 63));
    }
    while test == 0 && cur < stop
      invariant BitIdx(start) <= cur < a.Length
      invariant TailWord(a[..], cur, start, test) && ClearUpTo(BitsOf(a[..]), start, 64 * cur)
      decreases stop - cur
    {
      TailWordZero(a[..], cur, start);
      cur := cur + 1;
      test := a[cur];
      TailWordNext(a[..], cur, start);
    }
    TailWordFirst(a[..], cur, start, test, nbits);
    var offset := Ffsl(test);
    r := 64 * cur + offset - 1;
    if offset == 0 || r >= nbits {
      r := -1;
    }
  }

  // ---------- searching for a clear bit ----------

  /** The same words with every bit flipped. */
  ghost function Flipped(words: seq<bv64>): (r: seq<bv64>)
    ensures |r| == |words|
  {
    seq(|words|, k requires 0 <= k < |words| => Not64(words[k]))
  }

  lemma FlippedBits(words: seq<bv64>, i: nat)
    requires i < 64 * |words|
    ensures BitAt(Flipped(words), i) == !BitAt(words, i)
  {
    hide WordBit, Not64, BitOffset;
    NotBit(words[BitIdx(i)], BitOffset(i));
  }

  lemma {:induction false} FirstClearIsFirstSetOfFlipped(words: seq<bv64>, start: nat, nbits: int)
    requires nbits <= 64 * |words|
    ensures FirstIn(BitsOf(Flipped(words)), start, nbits, true) == FirstIn(BitsOf(words), start, nbits, false)
    decreases nbits - start
  {
    if start < nbits {
      hide WordBit, Not64, BitOffset, Flipped;
      FlippedBits(words, start);
      FirstClearIsFirstSetOfFlipped(words, start + 1, nbits);
    }
  }

  /** Setting the bits before start is, up to a flip, the same as masking them away. */
  lemma FlipMask(w: bv64, start: nat)
    requires BitOffset(start) != 0
    ensures start > 0 && Not64(Or64(w, MakeMask(0, start - 1))) == And64(Not64(w), MakeMask(start, 63))
  {
    PreviousOffset(start);
    WholeWord(0);
    hide BitOffset;
    FlipMaskWord(w, BitOffset(start));
  }

  lemma PreviousOffset(start: nat)
    requires BitOffset(start) != 0
    ensures start > 0 && BitOffset(start - 1) == BitOffset(start) - 1
  {
    hide BitOffset;
    NonZeroOffset(start);
    OffsetIs(start, start % 64);
    OffsetIs(start - 1, start % 64 - 1);
    OneBelow(BitOffset(start), BitOffset(start - 1));
  }

  lemma NonZeroOffset(bit: nat)
    requires BitOffset(bit) != 0
    ensures bit > 0 && (bit - 1) % 64 == bit % 64 - 1
  {
    hide BitOffset;
    if bit % 64 == 0 { ZeroOffset(bit); }
  }

  lemma ZeroOffset(bit: nat)
    requires bit % 64 == 0
    ensures BitOffset(bit) == 0
  {}

  lemma OffsetIs(bit: nat, o: int)
    requires bit % 64 == o
    ensures BitOffset(bit) as int == o
  {
    OffsetValue(bit);
  }

  lemma OneBelow(o: bv6, p: bv6)
    requires o != 0 && (p as int) == (o as int) - 1
    ensures p == o - 1
  {
    OffsetMinusOne(o);
    SameOffset(p, o - 1);
  }

  lemma SameOffset(x: bv6, y: bv6)
    requires (x as int) == (y as int)
    ensures x == y
  {}

  lemma OffsetMinusOne(o: bv6)
    requires o != 0
    ensures (o - 1) as int == (o as int) - 1
  {}

  lemma FlipMaskWord(w: bv64, s: bv6)
    requires s != 0
    ensures Not64(Or64(w, RangeMask(0, s - 1))) == And64(Not64(w), RangeMask(s, 63))
  {}

  /** bit_ffc_at */
  method BitFfcAt(a: array<bv64>, start: nat, nbits: int) returns (r: int)
    requires nbits <= 64 * a.Length && (nbits > 0 ==> start < 64 * a.Length)
    ensures r == FirstIn(BitsOf(a[..]), start, nbits, false)
  {
    hide BitOffset, WordBit, And64, Or64, Not64, RangeMask, TailWord;
    FirstClearIsFirstSetOfFlipped(a[..], start, nbits);
    if nbits <= 0 {
      return -1;
    }
    ghost var flipped := Flipped(a[..]);
    var cur, stop := BitIdx(start), BitIdx(nbits - 1);
    var test := a[cur];
    TailWordStart(flipped, start);
    if BitOffset(start) != 0 {
      FlipMask(test, start);
      test := Or64(test, MakeMask(0, start - 1));
    }
    FlipZero(test);
    while test == BITSTR_MASK && cur < stop
      invariant BitIdx(start) <= cur < a.Length
      invariant TailWord(flipped, cur, start, Not64(test)) && ClearUpTo(BitsOf(flipped), start, 64 * cur)
      decreases stop - cur
    {
      FlipZero(test);
      TailWordZero(flipped, cur, start);
      cur := cur + 1;
      test := a[cur];
      TailWordNext(flipped, cur, start);
    }
    FlipZero(test);
    TailWordFirst(flipped, cur, start, Not64(test), nbits);
    var offset := Ffsl(Not64(test));
    r := 64 * cur + offset - 1;
    if offset == 0 || r >= nbits {
      r := -1;
    }
  }

  lemma FlipZero(w: bv64)
    ensures Not64(w) == 0 <==> w == BITSTR_MASK
  {}

  /** bit_ffs and bit_ffc */
  method BitFfs(a: array<bv64>, nbits: int) returns (r: int)
    requires nbits <= 64 * a.Length
    ensures r == FirstIn(BitsOf(a[..]), 0, nbits, true)
  {
    r := BitFfsAt(a, 0, nbits);
  }

  method BitFfc(a: array<bv64>, nbits: int) returns (r: int)
    requires nbits <= 64 * a.Length
    ensures r == FirstIn(BitsOf(a[..]), 0, nbits, false)
  {
    r := BitFfcAt(a, 0, nbits);
  }
}
