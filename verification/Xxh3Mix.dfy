/** The mixing functions of XXH3 (xxhash.h), in their scalar little-endian form. */
module Xxh3Mix {
  import opened XxhWords
  import Xxh32
  import Xxh64

  const SECRET_SIZE_MIN: nat := 136

  const SECRET_DEFAULT_SIZE: nat := 192

  const STRIPE_LEN: nat := 64

  const CONSUME_RATE: nat := 8

  const BUFFER_SIZE: nat := 256

  const MIDSIZE_MAX: nat := 240

  /** Sixteen bytes of XXH3_kSecret. */
  function SecretRow(i: nat): (r: Bytes)
    ensures |r| == 16
  {
    match i
    case 0 => [0xb8, 0xfe, 0x6c, 0x39, 0x23, 0xa4, 0x4b, 0xbe, 0x7c, 0x01, 0x81, 0x2c, 0xf7, 0x21, 0xad, 0x1c]
    case 1 => [0xde, 0xd4, 0x6d, 0xe9, 0x83, 0x90, 0x97, 0xdb, 0x72, 0x40, 0xa4, 0xa4, 0xb7, 0xb3, 0x67, 0x1f]
    case 2 => [0xcb, 0x79, 0xe6, 0x4e, 0xcc, 0xc0, 0xe5, 0x78, 0x82, 0x5a, 0xd0, 0x7d, 0xcc, 0xff, 0x72, 0x21]
    case 3 => [0xb8, 0x08, 0x46, 0x74, 0xf7, 0x43, 0x24, 0x8e, 0xe0, 0x35, 0x90, 0xe6, 0x81, 0x3a, 0x26, 0x4c]
    case 4 => [0x3c, 0x28, 0x52, 0xbb, 0x91, 0xc3, 0x00, 0xcb, 0x88, 0xd0, 0x65, 0x8b, 0x1b, 0x53, 0x2e, 0xa3]
    case 5 => [0x71, 0x64, 0x48, 0x97, 0xa2, 0x0d, 0xf9, 0x4e, 0x38, 0x19, 0xef, 0x46, 0xa9, 0xde, 0xac, 0xd8]
    case 6 => [0xa8, 0xfa, 0x76, 0x3f, 0xe3, 0x9c, 0x34, 0x3f, 0xf9, 0xdc, 0xbb, 0xc7, 0xc7, 0x0b, 0x4f, 0x1d]
    case 7 => [0x8a, 0x51, 0xe0, 0x4b, 0xcd, 0xb4, 0x59, 0x31, 0xc8, 0x9f, 0x7e, 0xc9, 0xd9, 0x78, 0x73, 0x64]
    case 8 => [0xea, 0xc5, 0xac, 0x83, 0x34, 0xd3, 0xeb, 0xc3, 0xc5, 0x81, 0xa0, 0xff, 0xfa, 0x13, 0x63, 0xeb]
    case 9 => [0x17, 0x0d, 0xdd, 0x51, 0xb7, 0xf0, 0xda, 0x49, 0xd3, 0x16, 0x55, 0x26, 0x29, 0xd4, 0x68, 0x9e]
    case 10 => [0x2b, 0x16, 0xbe, 0x58, 0x7d, 0x47, 0xa1, 0xfc, 0x8f, 0xf8, 0xb8, 0xd1, 0x7a, 0xd0, 0x31, 0xce]
    case _ => [0x45, 0xcb, 0x3a, 0x8f, 0x95, 0x16, 0x04, 0x28, 0xaf, 0xd7, 0xfb, 0xca, 0xbb, 0x4b, 0x40, 0x7e]
  }

  function SecretRows(n: nat): (r: Bytes)
    ensures |r| == 16 * n
  {
    if n == 0 then [] else SecretRows(n - 1) + SecretRow(n - 1)
  }

  /** XXH3_kSecret */
  function DefaultSecret(): (s: Bytes)
    ensures |s| == SECRET_DEFAULT_SIZE
  {
    SecretRows(12)
  }

  // ---------- arithmetic ----------

  function Swap32(x: bv32): bv32 {
    ((x << 24) & 0xFF00_0000) | ((x << 8) & 0x00FF_0000) | ((x >> 8) & 0x0000_FF00) | ((x >> 24) & 0x0000_00FF)
  }

  function LowWord(x: bv64): bv32 {
    (x & 0xFFFF_FFFF) as bv32
  }

  function HighWord(x: bv64): bv32 {
    (x >> 32) as bv32
  }

  function Swap64(x: bv64): bv64 {
    Joined64(Swap32(HighWord(x)), Swap32(LowWord(x)))
  }

  /** XXH3_mul128_fold64 by the portable long multiplication */
  function MulFold(lhs: bv64, rhs: bv64): bv64 {
    var ll, hl := Times64(Low32(lhs), Low32(rhs)), Times64(High32(lhs), Low32(rhs));
    var lh, hh := Times64(Low32(lhs), High32(rhs)), Times64(High32(lhs), High32(rhs));
    var cross := Plus64(Plus64(High32(ll), Low32(hl)), lh);
    var upper := Plus64(Plus64(High32(hl), High32(cross)), hh);
    var lower := Glued(cross, ll);
    Xor64(lower, upper)
  }

  function Avalanche(h: bv64): bv64 {
    var h1 := Times64(XorShift64(h, 37), 0x165667919E3779F9);
    XorShift64(h1, 32)
  }

  /** h64 ^ (XXH_rotl64(h64, 49) ^ XXH_rotl64(h64, 24)) */
  function Rotated(h: bv64): bv64 {
    h ^ (((h << 49) | (h >> 15)) ^ ((h << 24) | (h >> 40)))
  }

  function WithLen(h: bv64, len: bv64): bv64 {
    Xor64(h, Plus64(h >> 35, len))
  }

  /** XXH3_rrmxmx */
  function Rrmxmx(h: bv64, len: bv64): bv64 {
    var h1 := Times64(Rotated(h), 0x9FB21C651E98DF25);
    var h2 := Times64(WithLen(h1, len), 0x9FB21C651E98DF25);
    XorShift64(h2, 28)
  }

  // ---------- short inputs ----------

  function Minus(x: bv64, y: bv64): bv64 {
    x - y
  }

  /** The three bytes that an input of up to three bytes is read by, and its length. */
  function Combined(c1: bv8, c2: bv8, c3: bv8, len: bv32): bv32 {
    (c1 as bv32 << 16) | (c2 as bv32 << 24) | c3 as bv32 | (len << 8)
  }

  function FlipWord(x: bv32, y: bv32): bv64 {
    (x ^ y) as bv64
  }

  function Flipped(x: bv32, secret: bv64, seed: bv64): bv64 {
    Xor64(x as bv64, Plus64(secret, seed))
  }

  function Len1to3(input: Bytes, secret: Bytes, seed: bv64): bv64
    requires 1 <= |input| <= 3
  {
    var n := |input|;
    var combined := Combined(input[0], input[n / 2], input[n - 1], Len32(n));
    Xxh64.Avalanche(Flipped(combined, FlipWord(ReadLE32(secret, 0), ReadLE32(secret, 4)), seed))
  }

  /** The last and the first four bytes of an input of four to eight bytes. */
  function Stacked(input2: bv32, input1: bv32): bv64 {
    input2 as bv64 + (input1 as bv64 << 32)
  }

  function Spread(seed: bv64): bv64 {
    seed ^ (Swap32(LowWord(seed)) as bv64 << 32)
  }

  function Len4to8(input: Bytes, secret: Bytes, seed: bv64): bv64
    requires 4 <= |input| <= 8
  {
    var n := |input|;
    var bitflip := Minus(Xor64(ReadLE64(secret, 8), ReadLE64(secret, 16)), Spread(seed));
    var input64 := Stacked(ReadLE32(input, n - 4), ReadLE32(input, 0));
    Rrmxmx(Xor64(input64, bitflip), Len64(n))
  }

  function Len9to16(input: Bytes, secret: Bytes, seed: bv64): bv64
    requires 9 <= |input| <= 16
  {
    var n := |input|;
    var lo := Xor64(ReadLE64(input, 0), Plus64(Xor64(ReadLE64(secret, 24), ReadLE64(secret, 32)), seed));
    var hi := Xor64(ReadLE64(input, n - 8), Minus(Xor64(ReadLE64(secret, 40), ReadLE64(secret, 48)), seed));
    Avalanche(Plus64(Plus64(Plus64(Len64(n), Swap64(lo)), hi), MulFold(lo, hi)))
  }

  function Len0to16(input: Bytes, secret: Bytes, seed: bv64): bv64
    requires |input| <= 16
  {
    if |input| > 8 then Len9to16(input, secret, seed)
    else if |input| >= 4 then Len4to8(input, secret, seed)
    else if |input| > 0 then Len1to3(input, secret, seed)
    else Xxh64.Avalanche(Xor64(seed, Xor64(ReadLE64(secret, 56), ReadLE64(secret, 64))))
  }

  function Mix16B(input: Bytes, i: nat, secret: Bytes, k: nat, seed: bv64): bv64 {
    MulFold(Xor64(ReadLE64(input, i), Plus64(ReadLE64(secret, k), seed)), Xor64(ReadLE64(input, i + 8), Minus(ReadLE64(secret, k + 8), seed)))
  }

  /** A pair of 16 bytes from either end. */
  function MixPair(acc: bv64, input: Bytes, i: nat, secret: Bytes, k: nat, seed: bv64): bv64
    requires i + 16 <= |input|
  {
    Plus64(Plus64(acc, Mix16B(input, i, secret, k, seed)), Mix16B(input, |input| - i - 16, secret, k + 16, seed))
  }

  function Len17to128(input: Bytes, secret: Bytes, seed: bv64): bv64
    requires 16 < |input| <= 128
  {
    var a0 := LenStart(|input|);
    var a1 := if |input| > 96 then MixPair(a0, input, 48, secret, 96, seed) else a0;
    var a2 := if |input| > 64 then MixPair(a1, input, 32, secret, 64, seed) else a1;
    var a3 := if |input| > 32 then MixPair(a2, input, 16, secret, 32, seed) else a2;
    Avalanche(MixPair(a3, input, 0, secret, 0, seed))
  }

  /** The sum over rounds from to n of one pass over an input of medium length. */
  function Rounds(acc: bv64, input: Bytes, secret: Bytes, seed: bv64, shift: int, from: nat, n: nat): bv64
    requires from <= n && 0 <= 16 * from + shift
    decreases n
  {
    if n == from then acc
    else Plus64(Rounds(acc, input, secret, seed, shift, from, n - 1), Mix16B(input, 16 * (n - 1), secret, 16 * (n - 1) + shift, seed))
  }

  const MIDSIZE_STARTOFFSET: nat := 3

  const MIDSIZE_LASTOFFSET: nat := 17

  function Len129to240(input: Bytes, secret: Bytes, seed: bv64): bv64
    requires 128 < |input| <= MIDSIZE_MAX
  {
    var a := Avalanche(Rounds(LenStart(|input|), input, secret, seed, 0, 0, 8));
    var b := Rounds(a, input, secret, seed, MIDSIZE_STARTOFFSET - 128, 8, |input| / 16);
    Avalanche(Plus64(b, Mix16B(input, |input| - 16, secret, SECRET_SIZE_MIN - MIDSIZE_LASTOFFSET, seed)))
  }

  // ---------- lanes ----------

  type Lanes = s: seq<bv64> | |s| == 8 witness [0, 0, 0, 0, 0, 0, 0, 0]

  /** XXH3_INIT_ACC */
  function InitAcc(): Lanes {
    [Xxh32.PRIME32_3 as bv64, Xxh64.PRIME64_1, Xxh64.PRIME64_2, Xxh64.PRIME64_3, Xxh64.PRIME64_4, Xxh32.PRIME32_2 as bv64, Xxh64.PRIME64_5, Xxh32.PRIME32_1 as bv64]
  }

  /** The neighbour of a lane: i ^ 1. */
  function Swap(i: nat): nat {
    if i % 2 == 0 then i + 1 else i - 1
  }

  function Product(stripe: Bytes, key: Bytes, i: nat): bv64 {
    var k := Xor64(ReadLE64(stripe, 8 * i), ReadLE64(key, 8 * i));
    Times64(Low32(k), High32(k))
  }

  /**
   A lane after a stripe: it gets its product and the word of its neighbour, an even lane the product
   first.
   */
  function Lane(x: bv64, stripe: Bytes, key: Bytes, i: nat): bv64 {
    if i % 2 == 0 then Plus64(Plus64(x, Product(stripe, key, i)), ReadLE64(stripe, 8 * Swap(i)))
    else Plus64(Plus64(x, ReadLE64(stripe, 8 * Swap(i))), Product(stripe, key, i))
  }

  function Accumulated(acc: Lanes, stripe: Bytes, key: Bytes): Lanes {
    seq(8, i requires 0 <= i < 8 => Lane(acc[i], stripe, key, i))
  }

  function ScrambledLane(x: bv64, key: bv64): bv64 {
    Times64(Xor64(XorShift64(x, 47), key), Xxh32.PRIME32_1 as bv64)
  }

  function Scrambled(acc: Lanes, key: Bytes): Lanes {
    seq(8, i requires 0 <= i < 8 => ScrambledLane(acc[i], ReadLE64(key, 8 * i)))
  }

  /** XXH3_mix2Accs */
  function Mix2(x: bv64, y: bv64, secret: Bytes, k: nat): bv64 {
    MulFold(Xor64(x, ReadLE64(secret, k)), Xor64(y, ReadLE64(secret, k + 8)))
  }

  /** XXH3_mergeAccs after n pairs of lanes. */
  function MergeSum(acc: Lanes, secret: Bytes, k: nat, start: bv64, n: nat): bv64
    requires n <= 4
  {
    if n == 0 then start
    else
      var i := n - 1;
      Plus64(MergeSum(acc, secret, k, start, i), Mix2(acc[2 * i], acc[2 * i + 1], secret, k + 16 * i))
  }

  function Merged(acc: Lanes, secret: Bytes, k: nat, start: bv64): bv64 {
    Avalanche(MergeSum(acc, secret, k, start, 4))
  }

  function LenStart(n: nat): bv64 {
    Times64(Len64(n), Xxh64.PRIME64_1)
  }

  // ---------- seeded secrets ----------

  /** XXH_writeLE64 */
  function BytesOf(x: bv64): (b: Bytes)
    ensures |b| == 8
  {
    [(x & 0xFF) as bv8, ((x >> 8) & 0xFF) as bv8, ((x >> 16) & 0xFF) as bv8, ((x >> 24) & 0xFF) as bv8,
     ((x >> 32) & 0xFF) as bv8, ((x >> 40) & 0xFF) as bv8, ((x >> 48) & 0xFF) as bv8, ((x >> 56) & 0xFF) as bv8]
  }

  /** Sixteen bytes of the secret that a seed stands for. */
  function SeedRound(secret: Bytes, seed: bv64, i: nat): (b: Bytes)
    ensures |b| == 16
  {
    BytesOf(Plus64(ReadLE64(secret, 16 * i), seed)) + BytesOf(Minus(ReadLE64(secret, 16 * i + 8), seed))
  }

  function SeedRounds(secret: Bytes, seed: bv64, n: nat): (b: Bytes)
    ensures |b| == 16 * n
  {
    if n == 0 then [] else SeedRounds(secret, seed, n - 1) + SeedRound(secret, seed, n - 1)
  }

  /** What XXH3_initCustomSecret makes of a seed. */
  function CustomSecret(seed: bv64): (s: Bytes)
    ensures |s| == SECRET_DEFAULT_SIZE
  {
    SeedRounds(DefaultSecret(), seed, 12)
  }
}
