/** The SHA-1 hash of FIPS 180-4, on 32-bit words: sections 4.1.1, 4.2.1, 5.1.1, 5.2.1, 5.3.1 and 6.1.2. */
module Sha1Spec {

  type Word = bv32
  type Octet = bv8

  /** The five working variables, and the five words of a hash value. */
  datatype Vars = Vars(a: Word, b: Word, c: Word, d: Word, e: Word)

  const INITIAL: Vars := Vars(0x67452301, 0xefcdab89, 0x98badcfe, 0x10325476, 0xc3d2e1f0)

  /** Addition of words is modulo 2^32 (section 3.2). */
  function Add(x: Word, y: Word): Word { x + y }

  /** Circular left shifts (section 3.2). */
  function Rotl1(x: Word): Word { (x << 1) | (x >> 31) }
  function Rotl5(x: Word): Word { (x << 5) | (x >> 27) }
  function Rotl30(x: Word): Word { (x << 30) | (x >> 2) }

  /** Section 4.1.1: Ch, Parity, Maj and Parity again, twenty rounds each. */
  function F(t: nat, x: Word, y: Word, z: Word): Word {
    if t < 20 then (x & y) ^ (!x & z)
    else if 40 <= t < 60 then (x & y) ^ (x & z) ^ (y & z)
    else x ^ y ^ z
  }

  /** Section 4.2.1. */
  function K(t: nat): Word {
    if t < 20 then 0x5a827999 else if t < 40 then 0x6ed9eba1 else if t < 60 then 0x8f1bbcdc else 0xca62c1d6
  }

  function Xor4(p: Word, q: Word, r: Word, s: Word): Word { p ^ q ^ r ^ s }

  /** Section 6.1.2, step 1: the schedule of 80 words grown from the 16 words of a block. */
  function Schedule(m: seq<Word>, t: nat): Word
    requires |m| == 16
  {
    if t < 16 then m[t]
    else Rotl1(Xor4(Schedule(m, t - 3), Schedule(m, t - 8), Schedule(m, t - 14), Schedule(m, t - 16)))
  }

  /** Section 6.1.2, step 3: one round. */
  function Round(t: nat, w: Word, v: Vars): Vars {
    Vars(Add(Add(Add(Add(Rotl5(v.a), F(t, v.b, v.c, v.d)), v.e), K(t)), w), v.a, Rotl30(v.b), v.c, v.d)
  }

  /** The working variables after the first `t` rounds on block `m` from hash value `h`. */
  function Rounds(m: seq<Word>, h: Vars, t: nat): Vars
    requires |m| == 16
  {
    if t == 0 then h else Round(t - 1, Schedule(m, t - 1), Rounds(m, h, t - 1))
  }

  /** Section 6.1.2, step 4. */
  function Compress(h: Vars, m: seq<Word>): Vars
    requires |m| == 16
  {
    var v := Rounds(m, h, 80);
    Vars(Add(h.a, v.a), Add(h.b, v.b), Add(h.c, v.c), Add(h.d, v.d), Add(h.e, v.e))
  }

  function BigEndian(s: seq<Octet>): Word
    requires |s| == 4
  {
    (s[0] as Word << 24) | (s[1] as Word << 16) | (s[2] as Word << 8) | s[3] as Word
  }

  /** Section 5.2.1: 64 bytes as 16 words. */
  function BlockWords(s: seq<Octet>): (m: seq<Word>)
    requires |s| == 64
    ensures |m| == 16
  {
    seq(16, k requires 0 <= k < 16 => BigEndian(s[4 * k..4 * k + 4]))
  }

  /** The hash value after every block of `s`. */
  function HashBlocks(s: seq<Octet>): Vars
    requires |s| % 64 == 0
    decreases |s|
  {
    if s == [] then INITIAL else Compress(HashBlocks(s[..|s| - 64]), BlockWords(s[|s| - 64..]))
  }

  /** `n` modulo 2^64 as a 64-bit word. */
  function Wrap64(n: nat): bv64 {
    if n == 0 then 0 else Next64(Wrap64(n - 1))
  }

  function Next64(x: bv64): bv64 { x + 1 }

  function Zeros(n: nat): (s: seq<Octet>)
    ensures |s| == n
  {
    seq(n, _ => 0)
  }

  /** A 64-bit number as eight bytes, most significant first. */
  function Bytes64(x: bv64): (s: seq<Octet>)
    ensures |s| == 8
  {
    [((x >> 56) & 0xff) as Octet, ((x >> 48) & 0xff) as Octet, ((x >> 40) & 0xff) as Octet, ((x >> 32) & 0xff) as Octet,
     ((x >> 24) & 0xff) as Octet, ((x >> 16) & 0xff) as Octet, ((x >> 8) & 0xff) as Octet, (x & 0xff) as Octet]
  }

  /** The length of `n` bytes in bits, modulo 2^64. */
  function BitLength(n: nat): bv64 {
    if n == 0 then 0 else BitLength(n - 1) + 8
  }

  /** Section 5.1.1: one bit, the fewest zero bits that leave room for the length at the end of a
      block, and the length in bits as a 64-bit number. */
  function Pad(s: seq<Octet>): (p: seq<Octet>)
    ensures |p| % 64 == 0
  {
    var zeros := (119 - |s| % 64) % 64;
    assert (|s| + 9 + zeros) % 64 == 0;
    s + [0x80] + Zeros(zeros) + Bytes64(BitLength(|s|))
  }

  function Bytes32(w: Word): (s: seq<Octet>)
    ensures |s| == 4
  {
    [((w >> 24) & 0xff) as Octet, ((w >> 16) & 0xff) as Octet, ((w >> 8) & 0xff) as Octet, (w & 0xff) as Octet]
  }

  function Word5(h: Vars, i: nat): Word
    requires i < 5
  {
    if i == 0 then h.a else if i == 1 then h.b else if i == 2 then h.c else if i == 3 then h.d else h.e
  }

  /** The first `n` words of a hash value as bytes. */
  function Serialized(h: Vars, n: nat): (d: seq<Octet>)
    requires n <= 5
    ensures |d| == 4 * n
  {
    if n == 0 then [] else Serialized(h, n - 1) + Bytes32(Word5(h, n - 1))
  }

  /** The 160-bit message digest. */
  function Hash(s: seq<Octet>): (d: seq<Octet>)
    ensures |d| == 20
  {
    Serialized(HashBlocks(Pad(s)), 5)
  }
}
