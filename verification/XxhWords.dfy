/** Little-endian reads, rotations, and the consumption of input in blocks (xxhash.h). */
module XxhWords {
  type Bytes = seq<bv8>

  function FourBytes(b0: bv8, b1: bv8, b2: bv8, b3: bv8): bv32 {
    b0 as bv32 | (b1 as bv32 << 8) | (b2 as bv32 << 16) | (b3 as bv32 << 24)
  }

  /** XXH_readLE32; 0 when the read would leave the input */
  function ReadLE32(s: Bytes, i: nat): bv32 {
    if i + 4 > |s| then 0 else FourBytes(s[i], s[i + 1], s[i + 2], s[i + 3])
  }

  function Joined64(lo: bv32, hi: bv32): bv64 {
    lo as bv64 | (hi as bv64 << 32)
  }

  /** XXH_readLE64 */
  function ReadLE64(s: Bytes, i: nat): bv64 {
    Joined64(ReadLE32(s, i), ReadLE32(s, i + 4))
  }

  function Rotl32(x: bv32, r: nat): bv32
    requires 0 < r < 32
  {
    (x << r) | (x >> (32 - r))
  }

  function Rotl64(x: bv64, r: nat): bv64
    requires 0 < r < 64
  {
    (x << r) | (x >> (64 - r))
  }

  function Low32(x: bv64): bv64 {
    x & 0xFFFF_FFFF
  }

  function High32(x: bv64): bv64 {
    x >> 32
  }

  /** The last 32 bits of two words in one. */
  function Glued(hi: bv64, lo: bv64): bv64 {
    (hi << 32) | Low32(lo)
  }

  function XorShift32(x: bv32, r: nat): bv32
    requires r < 32
  {
    x ^ (x >> r)
  }

  function XorShift64(x: bv64, r: nat): bv64
    requires r < 64
  {
    x ^ (x >> r)
  }

  function Plus32(x: bv32, y: bv32): bv32 {
    x + y
  }

  function Plus64(x: bv64, y: bv64): bv64 {
    x + y
  }

  function Xor64(x: bv64, y: bv64): bv64 {
    x ^ y
  }

  function Times32(x: bv32, y: bv32): bv32 {
    x * y
  }

  function Times64(x: bv64, y: bv64): bv64 {
    x * y
  }

  const WORD32: nat := 0x1_0000_0000

  const WORD64: nat := 0x1_0000_0000_0000_0000

  function Word32(n: nat): bv32
    requires n < WORD32
  {
    n as bv32
  }

  function Word64(n: nat): bv64
    requires n < WORD64
  {
    n as bv64
  }

  /** A length as a word; lengths wrap around. */
  function Len32(n: nat): bv32 {
    Word32(n % WORD32)
  }

  function Len64(n: nat): bv64 {
    Word64(n % WORD64)
  }

  lemma LenWraps(n: nat)
    ensures Len32(n % WORD32) == Len32(n) && Len64(n % WORD64) == Len64(n)
  {
    hide Word32, Word64;
    assert (n % WORD32) % WORD32 == n % WORD32;
    assert (n % WORD64) % WORD64 == n % WORD64;
  }

  // ---------- whole blocks ----------

  /** The lengths of the stripes of XXH32 and XXH64. */
  predicate BlockLength(n: nat) {
    n == 16 || n == 32
  }

  /** How much of an input is in whole blocks. */
  function Whole(len: nat, n: nat): (w: nat)
    requires BlockLength(n)
    ensures w <= len && w % n == 0 && len - w == len % n < n
  {
    len - len % n
  }

  /** The state after all whole blocks of n bytes. */
  function Absorb<S>(step: (S, Bytes) -> S, n: nat, s: S, data: Bytes): S
    requires n > 0
    decreases |data|
  {
    if |data| < n then s else Absorb(step, n, step(s, data[..n]), data[n..])
  }

  lemma {:induction false} AbsorbAppend<S>(step: (S, Bytes) -> S, n: nat, s: S, a: Bytes, b: Bytes)
    requires BlockLength(n) && |a| % n == 0
    ensures Absorb(step, n, s, a + b) == Absorb(step, n, Absorb(step, n, s, a), b)
    decreases |a|
  {
    if |a| < n {
      assert a == [] && a + b == b;
    } else {
      assert (a + b)[..n] == a[..n] && (a + b)[n..] == a[n..] + b;
      AbsorbAppend(step, n, step(s, a[..n]), a[n..], b);
    }
  }

  /** One more block. */
  lemma AbsorbOne<S>(step: (S, Bytes) -> S, n: nat, s: S, a: Bytes, block: Bytes)
    requires BlockLength(n) && |a| % n == 0 && |block| == n
    ensures Absorb(step, n, s, a + block) == step(Absorb(step, n, s, a), block)
  {
    AbsorbAppend(step, n, s, a, block);
    assert block[..n] == block;
    assert Absorb(step, n, step(Absorb(step, n, s, a), block), block[n..]) == step(Absorb(step, n, s, a), block);
  }

  lemma Recut(s: Bytes, w: nat, t: Bytes)
    requires w <= |s|
    ensures s + t == s[..w] + (s[w..] + t)
  {}

  lemma NoBlock<S>(step: (S, Bytes) -> S, n: nat, s: S, data: Bytes, p: nat)
    requires BlockLength(n) && p <= |data|
    ensures Absorb(step, n, s, data[p..p]) == s
  {}

  lemma NextBlock<S>(step: (S, Bytes) -> S, n: nat, s: S, data: Bytes, from: nat, p: nat)
    requires BlockLength(n) && from <= p && (p - from) % n == 0 && p + n <= |data|
    ensures Absorb(step, n, s, data[from..p + n]) == step(Absorb(step, n, s, data[from..p]), data[p..p + n])
  {
    assert data[from..p + n] == data[from..p] + data[p..p + n];
    AbsorbOne(step, n, s, data[from..p], data[p..p + n]);
  }

  // ---------- a buffer between updates ----------

  /** The buffer filled up to a block. */
  lemma Completed<S>(step: (S, Bytes) -> S, n: nat, s: S, was: Bytes, bytes: Bytes, m: nat)
    requires BlockLength(n) && m == |was| % n && m > 0 && m + |bytes| >= n
    ensures Absorb(step, n, s, was + bytes[..n - m])
      == step(Absorb(step, n, s, was[..Whole(|was|, n)]), was[Whole(|was|, n)..] + bytes[..n - m])
  {
    var w := Whole(|was|, n);
    Recut(was, w, bytes[..n - m]);
    AbsorbOne(step, n, s, was[..w], was[w..] + bytes[..n - m]);
  }

  lemma Filled(n: nat, was: Bytes, bytes: Bytes, m: nat)
    requires BlockLength(n) && m == |was| % n && m + |bytes| >= n
    ensures (|was| + (n - m)) % n == 0 && (was + bytes)[..|was| + n - m] == was + bytes[..n - m]
  {
    if n == 16 {} else {}
  }

  lemma Taken<S>(step: (S, Bytes) -> S, n: nat, s: S, was: Bytes, bytes: Bytes, p: nat, q: nat)
    requires BlockLength(n) && p <= q <= |bytes| && (|was| + p) % n == 0
    ensures Absorb(step, n, Absorb(step, n, s, was + bytes[..p]), bytes[p..q]) == Absorb(step, n, s, was + bytes[..q])
  {
    hide Absorb, BlockLength;
    assert was + bytes[..q] == (was + bytes[..p]) + bytes[p..q];
    AbsorbAppend(step, n, s, was + bytes[..p], bytes[p..q]);
  }

  lemma WholeAlone(n: nat, was: Bytes, bytes: Bytes)
    requires BlockLength(n)
    ensures |was| % n == 0 ==> was[..Whole(|was|, n)] == was + bytes[..0]
  {}

  lemma Onward(n: nat, len: nat, p: nat, end: nat)
    requires BlockLength(n) && p <= end && (len + p) % n == 0
    ensures (len + p + Whole(end - p, n)) % n == 0 && p + Whole(end - p, n) <= end < p + Whole(end - p, n) + n
  {
    hide Whole;
    Multiples(n, len + p, Whole(end - p, n));
  }

  lemma Multiples(n: nat, a: nat, b: nat)
    requires BlockLength(n) && a % n == 0 && b % n == 0
    ensures (a + b) % n == 0
  {
    if n == 16 {
      assert (a + b) % 16 == 0;
    } else {
      assert (a + b) % 32 == 0;
    }
  }

  lemma PastMultiple(n: nat, m: nat, r: nat)
    requires BlockLength(n) && m % n == 0 && r < n
    ensures (m + r) % n == r && Whole(m + r, n) == m
  {
    if n == 16 {
      assert (m + r) % 16 == r;
    } else {
      assert (m + r) % 32 == r;
    }
  }

  lemma Rest(n: nat, was: Bytes, bytes: Bytes, p: nat)
    requires BlockLength(n) && p <= |bytes| < p + n && (|was| + p) % n == 0
    ensures |was + bytes| % n == |bytes| - p && Whole(|was + bytes|, n) == |was| + p
    ensures (was + bytes)[..|was| + p] == was + bytes[..p] && (was + bytes)[|was| + p..] == bytes[p..]
  {
    hide BlockLength, Whole;
    PastMultiple(n, |was| + p, |bytes| - p);
  }

  lemma Buffered(n: nat, was: Bytes, bytes: Bytes, m: nat)
    requires BlockLength(n) && m == |was| % n && m + |bytes| < n
    ensures Whole(|was + bytes|, n) == Whole(|was|, n) && (|was| + |bytes|) % n == m + |bytes|
    ensures (was + bytes)[..Whole(|was|, n)] == was[..Whole(|was|, n)]
    ensures (was + bytes)[Whole(|was|, n)..] == was[Whole(|was|, n)..] + bytes
  {
    hide BlockLength, Whole;
    var w := Whole(|was|, n);
    PastMultiple(n, w, m + |bytes|);
    assert |was + bytes| == w + (m + |bytes|);
  }

  lemma Unabsorbed<S>(step: (S, Bytes) -> S, n: nat, s: S, input: Bytes)
    requires BlockLength(n) && |input| < n
    ensures Absorb(step, n, s, input[..Whole(|input|, n)]) == s && input[Whole(|input|, n)..] == input
  {
    if n == 16 {} else {}
  }

  // ---------- inputs that differ in one place ----------

  /** The inputs are of one length and differ, but only in the n bytes from k on. */
  predicate DifferAt(a: Bytes, b: Bytes, k: nat, n: nat) {
    |a| == |b| && k + n <= |a| && a[..k] == b[..k] && a[k..k + n] != b[k..k + n] && a[k + n..] == b[k + n..]
  }

  lemma DifferFrom(a: Bytes, b: Bytes, k: nat, n: nat, p: nat)
    requires DifferAt(a, b, k, n) && p <= k
    ensures a[..p] == b[..p] && DifferAt(a[p..], b[p..], k - p, n)
  {
    assert a[..p] == a[..k][..p] && b[..p] == b[..k][..p];
    assert a[p..][..k - p] == a[..k][p..] && b[p..][..k - p] == b[..k][p..];
    assert a[p..][k - p..k - p + n] == a[k..k + n] && b[p..][k - p..k - p + n] == b[k..k + n];
    assert a[p..][k - p + n..] == a[k + n..] && b[p..][k - p + n..] == b[k + n..];
  }

  lemma DifferTo(a: Bytes, b: Bytes, k: nat, n: nat, p: nat)
    requires DifferAt(a, b, k, n) && k + n <= p <= |a|
    ensures a[p..] == b[p..] && DifferAt(a[..p], b[..p], k, n)
  {
    assert a[p..] == a[k + n..][p - k - n..] && b[p..] == b[k + n..][p - k - n..];
    assert a[..p][..k] == a[..k] && b[..p][..k] == b[..k];
    assert a[..p][k..k + n] == a[k..k + n] && b[..p][k..k + n] == b[k..k + n];
    assert a[..p][k + n..] == a[k + n..][..p - k - n] && b[..p][k + n..] == b[k + n..][..p - k - n];
  }

  /** What differs in one byte differs in any stretch that holds the byte. */
  lemma DifferWider(a: Bytes, b: Bytes, q: nat, k: nat, n: nat)
    requires DifferAt(a, b, q, 1) && k <= q < k + n && k + n <= |a|
    ensures DifferAt(a, b, k, n)
  {
    assert a[..k] == a[..q][..k] && b[..k] == b[..q][..k];
    assert a[k..k + n][q - k] == a[q..q + 1][0] && b[k..k + n][q - k] == b[q..q + 1][0];
    assert a[k + n..] == a[q + 1..][k + n - q - 1..] && b[k + n..] == b[q + 1..][k + n - q - 1..];
  }

  lemma SameFrom(a: Bytes, b: Bytes, i: nat, n: nat)
    requires |a| == |b| && i + n <= |a| && a[i..] == b[i..]
    ensures a[i..i + n] == b[i..i + n] && a[i + n..] == b[i + n..] && (n > 0 ==> a[i] == b[i])
  {
    assert a[i..i + n] == a[i..][..n] && b[i..i + n] == b[i..][..n];
    assert a[i + n..] == a[i..][n..] && b[i + n..] == b[i..][n..];
    if n > 0 { assert a[i] == a[i..][0] && b[i] == b[i..][0]; }
  }

  lemma DifferHead(a: Bytes, b: Bytes, k: nat, n: nat, i: nat, m: nat)
    requires DifferAt(a, b, k, n) && i + m <= k
    ensures a[i..i + m] == b[i..i + m] && (m > 0 ==> a[i] == b[i])
  {
    assert a[i..i + m] == a[..k][i..i + m] && b[i..i + m] == b[..k][i..i + m];
    if m > 0 { assert a[i] == a[..k][i] && b[i] == b[..k][i]; }
  }

  lemma SameWithin(a: Bytes, b: Bytes, p: nat, i: nat, n: nat)
    requires |a| == |b| && p <= i && i + n <= |a| && a[p..] == b[p..]
    ensures a[i..i + n] == b[i..i + n]
  {
    assert a[i..i + n] == a[p..][i - p..i - p + n] && b[i..i + n] == b[p..][i - p..i - p + n];
  }

  lemma DifferBounds(a: Bytes, b: Bytes, k: nat, n: nat)
    requires DifferAt(a, b, k, n)
    ensures k + n <= |a| == |b|
  {}

  /** memcpy into a buffer */
  method Fill(mem: array<bv8>, at: nat, data: Bytes)
    requires at + |data| <= mem.Length
    modifies mem
    ensures mem[..] == old(mem[..at]) + data + old(mem[at + |data|..])
  {
    for i := 0 to |data|
      invariant mem[..] == old(mem[..at]) + data[..i] + old(mem[at + i..])
    {
      mem[at + i] := data[i];
    }
  }

  /** The input is what the pieces give in turn. */
  function Joined(pieces: seq<Bytes>): Bytes {
    if pieces == [] then [] else Joined(pieces[..|pieces| - 1]) + pieces[|pieces| - 1]
  }

  // ---------- inputs with known digests ----------

  predicate AllZero(b: Bytes) {
    forall i | 0 <= i < |b| :: b[i] == 0
  }

  /** The bytes 0, 1, 2 and so on. */
  predicate CountsUp(b: Bytes) {
    forall i | 0 <= i < |b| :: b[i] as nat == i
  }

  lemma ReadZero(b: Bytes, i: nat)
    requires AllZero(b)
    ensures ReadLE32(b, i) == 0
  {}

  lemma ByteAt(b: Bytes, w: nat, k: nat, x: bv8)
    requires CountsUp(b) && w + k < |b| && x as nat == w + k
    ensures b[w..][k] == x
  {}
}
