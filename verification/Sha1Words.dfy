/** 64-bit words read modulo 2^32: the arithmetic of src/utils/Sha1.cpp.

    The source declares its 32-bit words as `uint64_t` and never masks them: the upper halves of
    `m_digest`, of the block and of the working variables hold whatever carries and sign
    extensions leave there. `Low` reads the half that counts, and the lemmas say that every
    operation of the source acts on the low halves as the operation of the standard does.

    Each fact is proved on plain bit-vectors first and then carried to the named functions one
    name at a time, which keeps the solver from comparing adders bit by bit. */
module Sha1Words {
  import opened Sha1Spec

  /** The low 32 bits of a 64-bit word. */
  function Low(x: bv64): Word { (x & 0xffff_ffff) as Word }

  function Lows(a: bv64, b: bv64, c: bv64, d: bv64, e: bv64): Vars {
    Vars(Low(a), Low(b), Low(c), Low(d), Low(e))
  }

  /** Addition of two `uint64_t`. */
  function Plus(x: bv64, y: bv64): bv64 { x + y }

  /** `SHA1_ROL` at the three distances the source uses. */
  function Rol1(x: bv64): bv64 { (x << 1) | ((x & 0xffff_ffff) >> 31) }
  function Rol5(x: bv64): bv64 { (x << 5) | ((x & 0xffff_ffff) >> 27) }
  function Rol30(x: bv64): bv64 { (x << 30) | ((x & 0xffff_ffff) >> 2) }

  /** A 32-bit `int` widened to 64 bits. */
  function SignExtend(w: Word): bv64 {
    if w & 0x8000_0000 == 0 then w as bv64 else w as bv64 | 0xffff_ffff_0000_0000
  }

  lemma LowWide(w: Word)
    ensures Low(w as bv64) == w
  {
  }

  lemma LowSigned(w: Word)
    ensures Low(w as bv64 | 0xffff_ffff_0000_0000) == w
  {
  }

  lemma LowSignExtend(w: Word)
    ensures Low(SignExtend(w)) == w
  {
    hide Low;
    LowWide(w);
    LowSigned(w);
  }

  // ---------------------------------------------------------------- sums

  lemma RawSum(x: bv64, y: bv64, s: bv64)
    ensures s == x + y ==> (x & 0xffff_ffff) as Word + (y & 0xffff_ffff) as Word == (s & 0xffff_ffff) as Word
  {
  }

  lemma RawAdd(x: bv64, y: bv64, s: bv64)
    requires s == x + y
    ensures Add((x & 0xffff_ffff) as Word, (y & 0xffff_ffff) as Word) == (s & 0xffff_ffff) as Word
  {
    RawSum(x, y, s);
  }

  lemma RawPlus(x: bv64, y: bv64)
    ensures Add((x & 0xffff_ffff) as Word, (y & 0xffff_ffff) as Word) == (Plus(x, y) & 0xffff_ffff) as Word
  {
    RawAdd(x, y, Plus(x, y));
  }

  lemma NamedPlus(x: bv64, y: bv64, a: Word, b: Word)
    requires a == (x & 0xffff_ffff) as Word && b == (y & 0xffff_ffff) as Word
    ensures Add(a, b) == (Plus(x, y) & 0xffff_ffff) as Word
  {
    RawPlus(x, y);
  }

  lemma LowPlus(x: bv64, y: bv64)
    ensures Low(Plus(x, y)) == Add(Low(x), Low(y))
  {
    NamedPlus(x, y, Low(x), Low(y));
  }

  ghost predicate IsSum(s: Word, x: Word, y: Word) { s == x + y }

  lemma AddIsSum(x: Word, y: Word)
    ensures IsSum(Add(x, y), x, y)
  {
  }

  lemma IsSumIsAdd(s: Word, x: Word, y: Word)
    requires IsSum(s, x, y)
    ensures s == Add(x, y)
  {
  }

  lemma IsSumAssoc(x: Word, y: Word, z: Word, xy: Word, yz: Word, s: Word)
    requires IsSum(xy, x, y) && IsSum(yz, y, z) && IsSum(s, xy, z)
    ensures IsSum(s, x, yz)
  {
  }

  lemma AddComm(x: Word, y: Word)
    ensures Add(x, y) == Add(y, x)
  {
  }

  lemma AddAssoc(x: Word, y: Word, z: Word)
    ensures Add(Add(x, y), z) == Add(x, Add(y, z))
  {
    var xy, yz := Add(x, y), Add(y, z);
    var s := Add(xy, z);
    AddIsSum(x, y);
    AddIsSum(y, z);
    AddIsSum(xy, z);
    IsSumAssoc(x, y, z, xy, yz, s);
    IsSumIsAdd(s, x, yz);
  }

  // ---------------------------------------------------------------- rotations and logic

  lemma NamedRol1(x: bv64, a: Word)
    requires a == (x & 0xffff_ffff) as Word
    ensures (((x << 1) | ((x & 0xffff_ffff) >> 31)) & 0xffff_ffff) as Word == (a << 1) | (a >> 31)
  {
  }

  lemma RawRol1(x: bv64, a: Word)
    requires a == (x & 0xffff_ffff) as Word
    ensures (Rol1(x) & 0xffff_ffff) as Word == Rotl1(a)
  {
    NamedRol1(x, a);
  }

  lemma LowRol1(x: bv64)
    ensures Low(Rol1(x)) == Rotl1(Low(x))
  {
    RawRol1(x, Low(x));
  }

  lemma NamedRol5(x: bv64, a: Word)
    requires a == (x & 0xffff_ffff) as Word
    ensures (((x << 5) | ((x & 0xffff_ffff) >> 27)) & 0xffff_ffff) as Word == (a << 5) | (a >> 27)
  {
  }

  lemma RawRol5(x: bv64, a: Word)
    requires a == (x & 0xffff_ffff) as Word
    ensures (Rol5(x) & 0xffff_ffff) as Word == Rotl5(a)
  {
    NamedRol5(x, a);
  }

  lemma LowRol5(x: bv64)
    ensures Low(Rol5(x)) == Rotl5(Low(x))
  {
    RawRol5(x, Low(x));
  }

  lemma NamedRol30(x: bv64, a: Word)
    requires a == (x & 0xffff_ffff) as Word
    ensures (((x << 30) | ((x & 0xffff_ffff) >> 2)) & 0xffff_ffff) as Word == (a << 30) | (a >> 2)
  {
  }

  lemma RawRol30(x: bv64, a: Word)
    requires a == (x & 0xffff_ffff) as Word
    ensures (Rol30(x) & 0xffff_ffff) as Word == Rotl30(a)
  {
    NamedRol30(x, a);
  }

  lemma LowRol30(x: bv64)
    ensures Low(Rol30(x)) == Rotl30(Low(x))
  {
    RawRol30(x, Low(x));
  }

  lemma LowXorOfFour(p: bv64, q: bv64, r: bv64, s: bv64)
    ensures Low(p ^ q ^ r ^ s) == Xor4(Low(p), Low(q), Low(r), Low(s))
  {
  }

  lemma LowCh(w: bv64, x: bv64, y: bv64)
    ensures Low((w & (x ^ y)) ^ y) == (Low(w) & Low(x)) ^ (!Low(w) & Low(y))
  {
  }

  lemma LowMaj(w: bv64, x: bv64, y: bv64)
    ensures Low(((w | x) & y) | (w & x)) == (Low(w) & Low(x)) ^ (Low(w) & Low(y)) ^ (Low(x) & Low(y))
  {
  }

  lemma LowParity(w: bv64, x: bv64, y: bv64)
    ensures Low(w ^ x ^ y) == Low(w) ^ Low(x) ^ Low(y)
  {
  }

  /** The source's shorter form of Ch. */
  lemma ChIsF(i: nat, f: bv64, w: bv64, x: bv64, y: bv64)
    requires i < 20 && f == (w & (x ^ y)) ^ y
    ensures Low(f) == F(i, Low(w), Low(x), Low(y)) && Low(0x5a827999) == K(i)
  {
    LowCh(w, x, y);
  }

  /** The source's form of Maj. */
  lemma MajIsF(i: nat, f: bv64, w: bv64, x: bv64, y: bv64)
    requires 40 <= i < 60 && f == ((w | x) & y) | (w & x)
    ensures Low(f) == F(i, Low(w), Low(x), Low(y)) && Low(0x8f1bbcdc) == K(i)
  {
    LowMaj(w, x, y);
  }

  lemma ParityIsF(i: nat, f: bv64, w: bv64, x: bv64, y: bv64, k: bv64)
    requires f == w ^ x ^ y
    requires (20 <= i < 40 && k == 0x6ed9eba1) || (60 <= i < 80 && k == 0xca62c1d6)
    ensures Low(f) == F(i, Low(w), Low(x), Low(y)) && Low(k) == K(i)
  {
    LowParity(w, x, y);
  }

  // ---------------------------------------------------------------- one line of `transform`

  /** The sum a macro line adds to `z`, in the source's order. */
  function Line(z: bv64, f: bv64, word: bv64, k: bv64, v: bv64): bv64 {
    Plus(z, Plus(Plus(Plus(f, word), k), Rol5(v)))
  }

  lemma LowLine(z: bv64, f: bv64, word: bv64, k: bv64, v: bv64)
    ensures Low(Line(z, f, word, k, v)) == Add(Add(Add(Add(Rotl5(Low(v)), Low(f)), Low(z)), Low(k)), Low(word))
  {
    LowPlus(f, word);
    LowPlus(Plus(f, word), k);
    LowRol5(v);
    LowPlus(Plus(Plus(f, word), k), Rol5(v));
    LowPlus(z, Plus(Plus(Plus(f, word), k), Rol5(v)));
    Reorder(Low(z), Low(f), Low(word), Low(k), Rotl5(Low(v)));
  }

  /** The order of the source's sum against the order of the standard's. */
  lemma Reorder(z: Word, f: Word, w: Word, k: Word, r: Word)
    ensures Add(z, Add(Add(Add(f, w), k), r)) == Add(Add(Add(Add(r, f), z), k), w)
  {
    calc {
      Add(z, Add(Add(Add(f, w), k), r));
      { AddComm(Add(Add(f, w), k), r); AddAssoc(f, w, k); AddComm(w, k); }
      Add(z, Add(r, Add(f, Add(k, w))));
      { AddAssoc(r, f, Add(k, w)); AddAssoc(z, Add(r, f), Add(k, w)); AddComm(z, Add(r, f)); }
      Add(Add(Add(r, f), z), Add(k, w));
      { AddAssoc(Add(Add(r, f), z), k, w); }
      Add(Add(Add(Add(r, f), z), k), w);
    }
  }

  /** A macro line is a round of the standard: the register named last becomes the first. */
  lemma LineIsRound(i: nat, v: bv64, w: bv64, x: bv64, y: bv64, z: bv64, f: bv64, word: bv64, k: bv64)
    requires Low(f) == F(i, Low(w), Low(x), Low(y)) && Low(k) == K(i)
    ensures Lows(Line(z, f, word, k, v), v, Rol30(w), x, y) == Round(i, Low(word), Lows(v, w, x, y, z))
  {
    LowLine(z, f, word, k, v);
    LowRol30(w);
    RoundFromParts(i, v, w, x, y, z, f, word, k, Rol30(w), Line(z, f, word, k, v));
  }

  lemma RoundFromParts(
      i: nat, v: bv64, w: bv64, x: bv64, y: bv64, z: bv64, f: bv64, word: bv64, k: bv64, w': bv64, z': bv64)
    requires Low(f) == F(i, Low(w), Low(x), Low(y)) && Low(k) == K(i)
    requires Low(w') == Rotl30(Low(w))
    requires Low(z') == Add(Add(Add(Add(Rotl5(Low(v)), Low(f)), Low(z)), Low(k)), Low(word))
    ensures Lows(z', v, w', x, y) == Round(i, Low(word), Lows(v, w, x, y, z))
  {
  }

  // ---------------------------------------------------------------- the bit counter

  /** `(m_transforms * BLOCK_BYTES + m_buffer.size()) * 8`. */
  function TotalBits(transforms: bv64, size: bv64): bv64 {
    Times8(Plus(Times64(transforms), size))
  }

  function Times64(x: bv64): bv64 { x * 64 }

  function Times8(x: bv64): bv64 { x * 8 }

  ghost predicate IsSum64(s: bv64, x: bv64, y: bv64) { s == x + y }

  lemma SumOneMore(x: bv64, y: bv64, s: bv64, y': bv64, s': bv64)
    requires IsSum64(s, x, y) && IsSum64(y', y, 1) && IsSum64(s', s, 1)
    ensures IsSum64(s', x, y')
  {
  }

  lemma PlusIsSum(x: bv64, y: bv64)
    ensures IsSum64(Plus(x, y), x, y) && IsSum64(Next64(x), x, 1)
  {
  }

  lemma SumIsPlus(s: bv64, x: bv64, y: bv64)
    requires IsSum64(s, x, y)
    ensures s == Plus(x, y)
  {
  }

  lemma PlusNext(x: bv64, y: bv64)
    ensures Next64(Plus(x, y)) == Plus(x, Next64(y))
  {
    var s, y' := Plus(x, y), Next64(y);
    PlusIsSum(x, y);
    PlusIsSum(y, y);
    PlusIsSum(s, y);
    SumOneMore(x, y, s, y', Next64(s));
    SumIsPlus(Next64(s), x, y');
  }

  lemma PlusZero(x: bv64)
    ensures Plus(x, 0) == x
  {
  }

  lemma {:induction false} Wrap64Sum(m: nat, n: nat)
    ensures Wrap64(m + n) == Plus(Wrap64(m), Wrap64(n))
  {
    hide Plus, Next64;
    if n == 0 {
      PlusZero(Wrap64(m));
    } else {
      Wrap64Sum(m, n - 1);
      PlusNext(Wrap64(m), Wrap64(n - 1));
    }
  }

  lemma Wrap64Of64()
    ensures Wrap64(64) == 64
  {
    Wrap64Sum(1, 1);
    Wrap64Sum(2, 2);
    Wrap64Sum(4, 4);
    Wrap64Sum(8, 8);
    Wrap64Sum(16, 16);
    Wrap64Sum(32, 32);
    assert Wrap64(1) == 1;
    assert Plus(1, 1) == 2 && Plus(2, 2) == 4 && Plus(4, 4) == 8;
    assert Plus(8, 8) == 16 && Plus(16, 16) == 32 && Plus(32, 32) == 64;
  }

  lemma TimesNext(x: bv64)
    ensures Plus(Times64(x), 64) == Times64(Next64(x))
  {
  }

  lemma {:induction false} Wrap64Blocks(n: nat)
    ensures Wrap64(64 * n) == Times64(Wrap64(n))
  {
    hide Plus;
    if n > 0 {
      Wrap64Blocks(n - 1);
      Wrap64Sum(64 * (n - 1), 64);
      Wrap64Of64();
      TimesNext(Wrap64(n - 1));
    }
  }

  lemma EightMore(x: bv64)
    ensures Times8(Next64(x)) == Times8(x) + 8
  {
  }

  lemma {:induction false} BitLengthIs(n: nat)
    ensures BitLength(n) == Times8(Wrap64(n))
  {
    hide Times8, Next64;
    if n == 0 {
      assert Times8(0) == 0 by { NothingTimes8(); }
    } else {
      BitLengthIs(n - 1);
      EightMore(Wrap64(n - 1));
    }
  }

  lemma NothingTimes8()
    ensures Times8(0) == 0
  {
  }

  lemma BitLengthOfSum(m: nat, n: nat)
    ensures BitLength(m + n) == Times8(Plus(Wrap64(m), Wrap64(n)))
  {
    hide Wrap64, Plus, Times8, BitLength;
    Wrap64Sum(m, n);
    BitLengthIs(m + n);
  }

  /** Counting blocks and carried bytes gives the length of the message, modulo 2^64 as well. */
  lemma TotalBitsIsBitLength(blocks: nat, size: nat)
    ensures TotalBits(Wrap64(blocks), Wrap64(size)) == BitLength(64 * blocks + size)
  {
    hide Wrap64, Plus, Times8, Times64, BitLength;
    Wrap64Blocks(blocks);
    BitLengthOfSum(64 * blocks, size);
  }

  lemma LowOfLength(x: bv64)
    ensures BigEndian(Bytes64(x)[0..4]) == Low(x >> 32)
    ensures BigEndian(Bytes64(x)[4..8]) == Low(x)
  {
    RawHigh(x);
    RawLow(x);
    var b := Bytes64(x);
    assert b[4..8] == [b[4], b[5], b[6], b[7]];
  }

  lemma RawHigh(x: bv64)
    ensures (((x >> 56) & 0xff) as Octet as Word << 24) | (((x >> 48) & 0xff) as Octet as Word << 16)
            | (((x >> 40) & 0xff) as Octet as Word << 8) | ((x >> 32) & 0xff) as Octet as Word
              == ((x >> 32) & 0xffff_ffff) as Word
  {
  }

  lemma RawLow(x: bv64)
    ensures (((x >> 24) & 0xff) as Octet as Word << 24) | (((x >> 16) & 0xff) as Octet as Word << 16)
            | (((x >> 8) & 0xff) as Octet as Word << 8) | (x & 0xff) as Octet as Word == (x & 0xffff_ffff) as Word
  {
  }
}
