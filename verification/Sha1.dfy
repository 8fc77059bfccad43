/** The hash of the opening handshake: `class SHA1` (include/utils/Sha1.h, src/utils/Sha1.cpp). */
module Sha1 {
  import opened Sha1Spec
  import opened Sha1Words

  // ---------------------------------------------------------------- the rolling schedule

  /** Before line `i` the 16 cells hold the 16 newest words of the schedule, word `t` in cell
      `t % 16`. */
  ghost predicate Window(block: seq<bv64>, m: seq<Word>, i: nat) {
    && |block| == 16 && |m| == 16
    && forall t: nat :: Newest(t, i) ==> Low(block[t % 16]) == Schedule(m, t)
  }

  ghost predicate Newest(t: nat, i: nat) {
    if i < 16 then t < 16 else i - 16 <= t < i
  }

  lemma FirstWords(block: seq<bv64>, m: seq<Word>, i: nat)
    requires i < 16 && Window(block, m, i)
    ensures Low(block[i]) == Schedule(m, i) && Window(block, m, i + 1)
  {
    assert Newest(i, i) && i % 16 == i;
    forall t: nat | Newest(t, i + 1) ensures Low(block[t % 16]) == Schedule(m, t) { assert Newest(t, i); }
  }

  /** `SHA1_BLK(i)` reads the cells 3, 8, 14 and 16 words back. */
  lemma CellsBack(i: nat)
    requires i >= 16
    ensures (i + 13) % 16 == (i - 3) % 16 && (i + 8) % 16 == (i - 8) % 16
    ensures (i + 2) % 16 == (i - 14) % 16 && i % 16 == (i - 16) % 16
    ensures Newest(i - 3, i) && Newest(i - 8, i) && Newest(i - 14, i) && Newest(i - 16, i)
  {
  }

  lemma CellHolds(block: seq<bv64>, m: seq<Word>, i: nat, t: nat, cell: bv64)
    requires Window(block, m, i) && Newest(t, i) && cell == block[t % 16]
    ensures Low(cell) == Schedule(m, t)
  {
  }

  /** `SHA1_BLK` on the cells of word `i` is the recurrence of the schedule. */
  lemma NextWordIsScheduled(block: seq<bv64>, m: seq<Word>, i: nat, p: bv64, q: bv64, r: bv64, s: bv64)
    requires i >= 16 && Window(block, m, i)
    requires p == block[(i + 13) % 16] && q == block[(i + 8) % 16] && r == block[(i + 2) % 16] && s == block[i % 16]
    ensures Low(Rol1(p ^ q ^ r ^ s)) == Schedule(m, i)
  {
    CellsBack(i);
    CellHolds(block, m, i, i - 3, p);
    CellHolds(block, m, i, i - 8, q);
    CellHolds(block, m, i, i - 14, r);
    CellHolds(block, m, i, i - 16, s);
    Recurrence(m, i, p, q, r, s);
  }

  lemma Recurrence(m: seq<Word>, i: nat, p: bv64, q: bv64, r: bv64, s: bv64)
    requires |m| == 16 && i >= 16
    requires Low(p) == Schedule(m, i - 3) && Low(q) == Schedule(m, i - 8)
    requires Low(r) == Schedule(m, i - 14) && Low(s) == Schedule(m, i - 16)
    ensures Low(Rol1(p ^ q ^ r ^ s)) == Schedule(m, i)
  {
    hide Low, Rol1, Rotl1, Xor4;
    LowXorOfFour(p, q, r, s);
    LowRol1(p ^ q ^ r ^ s);
  }

  lemma WindowSlides(block: seq<bv64>, m: seq<Word>, i: nat, word: bv64)
    requires i >= 16 && Window(block, m, i) && Low(word) == Schedule(m, i)
    ensures Window(block[i % 16 := word], m, i + 1)
  {
    hide Low, Schedule;
    forall t: nat | Newest(t, i + 1) ensures Low(block[i % 16 := word][t % 16]) == Schedule(m, t) {
      if t < i {
        assert Newest(t, i);
        OtherCell(t, i);
      }
    }
  }

  lemma OtherCell(t: nat, i: nat)
    requires t < i < t + 16
    ensures t % 16 != i % 16
  {
  }

  lemma NoRounds(m: seq<Word>, h: Vars)
    requires |m| == 16
    ensures Rounds(m, h, 0) == h
  {
  }

  /** Adding the working variables back completes the compression function. */
  lemma AddBack(p: bv64, q: bv64, r: bv64, s: bv64, t: bv64, a: bv64, b: bv64, c: bv64, d: bv64, e: bv64, m: seq<Word>)
    requires |m| == 16 && Lows(a, b, c, d, e) == Rounds(m, Lows(p, q, r, s, t), 80)
    ensures Lows(Plus(p, a), Plus(q, b), Plus(r, c), Plus(s, d), Plus(t, e)) == Compress(Lows(p, q, r, s, t), m)
  {
    LowPlus(p, a);
    LowPlus(q, b);
    LowPlus(r, c);
    LowPlus(s, d);
    LowPlus(t, e);
  }

  // ---------------------------------------------------------------- the class

  class Sha1 {
    const digest: array<bv64>
    var buffer: seq<Octet>
    var transforms: bv64
    /** The bytes of the blocks hashed since the last reset. */
    ghost var seen: seq<Octet>

    /** Every byte since the last reset. */
    ghost function Message(): seq<Octet>
      reads this
    {
      seen + buffer
    }

    ghost function HashValue(): Vars
      requires digest.Length == 5
      reads digest
    {
      Lows(digest[0], digest[1], digest[2], digest[3], digest[4])
    }

    /** `digest` is the hash value after the blocks seen, and `transforms` counts them. */
    ghost predicate Hashed()
      reads this, digest
    {
      && digest.Length == 5 && |seen| % 64 == 0
      && HashValue() == HashBlocks(seen)
      && transforms == Wrap64(|seen| / 64)
    }

    /** The complete blocks of the message are hashed; the carried bytes stay under a block. */
    ghost predicate Valid()
      reads this, digest
    {
      |buffer| < 64 && Hashed()
    }

    constructor ()
      ensures Valid() && Message() == [] && fresh(digest)
    {
      digest := new bv64[5];
      new;
      Reset();
    }

    method Reset()
      requires digest.Length == 5
      modifies this, digest
      ensures Valid() && Message() == []
    {
      digest[0] := 0x67452301;
      digest[1] := 0xefcdab89;
      digest[2] := 0x98badcfe;
      digest[3] := 0x10325476;
      digest[4] := 0xc3d2e1f0;
      transforms, buffer, seen := 0, [], [];
    }

    // -------------------------------------------------------------- transform

    /** `SHA1_BLK(i)`. */
    static method Blk(block: array<bv64>, i: nat, ghost m: seq<Word>) returns (word: bv64)
      requires block.Length == 16 && i >= 16 && Window(block[..], m, i)
      modifies block
      ensures Window(block[..], m, i + 1)
      ensures Low(word) == Schedule(m, i)
    {
      var p, q, r, s := block[(i + 13) % 16], block[(i + 8) % 16], block[(i + 2) % 16], block[i % 16];
      word := Rol1(p ^ q ^ r ^ s);
      NextWordIsScheduled(block[..], m, i, p, q, r, s);
      WindowSlides(block[..], m, i, word);
      ghost var was := block[..];
      block[i % 16] := word;
      assert block[..] == was[i % 16 := word];
    }

    /** `SHA1_R0(v, w, x, y, z, i)`: the new values of the registers it names second and last. */
    static method R0(
        v: bv64, w: bv64, x: bv64, y: bv64, z: bv64, block: array<bv64>, i: nat, ghost m: seq<Word>, ghost h: Vars)
        returns (w': bv64, z': bv64)
      requires block.Length == 16 && i < 16 && Window(block[..], m, i)
      requires Lows(v, w, x, y, z) == Rounds(m, h, i)
      ensures Window(block[..], m, i + 1)
      ensures Lows(z', v, w', x, y) == Rounds(m, h, i + 1)
    {
      FirstWords(block[..], m, i);
      var f := (w & (x ^ y)) ^ y;
      z', w' := Line(z, f, block[i], 0x5a827999, v), Rol30(w);
      ChIsF(i, f, w, x, y);
      LineIsRound(i, v, w, x, y, z, f, block[i], 0x5a827999);
    }

    /** `SHA1_R1(v, w, x, y, z, i)`: the new values of the registers it names second and last. */
    static method R1(
        v: bv64, w: bv64, x: bv64, y: bv64, z: bv64, block: array<bv64>, i: nat, ghost m: seq<Word>, ghost h: Vars)
        returns (w': bv64, z': bv64)
      requires block.Length == 16 && 16 <= i < 20 && Window(block[..], m, i)
      requires Lows(v, w, x, y, z) == Rounds(m, h, i)
      modifies block
      ensures Window(block[..], m, i + 1)
      ensures Lows(z', v, w', x, y) == Rounds(m, h, i + 1)
    {
      var word := Blk(block, i, m);
      var f := (w & (x ^ y)) ^ y;
      z', w' := Line(z, f, word, 0x5a827999, v), Rol30(w);
      ChIsF(i, f, w, x, y);
      LineIsRound(i, v, w, x, y, z, f, word, 0x5a827999);
    }

    /** `SHA1_R2(v, w, x, y, z, i)`: the new values of the registers it names second and last. */
    static method R2(
        v: bv64, w: bv64, x: bv64, y: bv64, z: bv64, block: array<bv64>, i: nat, ghost m: seq<Word>, ghost h: Vars)
        returns (w': bv64, z': bv64)
      requires block.Length == 16 && 20 <= i < 40 && Window(block[..], m, i)
      requires Lows(v, w, x, y, z) == Rounds(m, h, i)
      modifies block
      ensures Window(block[..], m, i + 1)
      ensures Lows(z', v, w', x, y) == Rounds(m, h, i + 1)
    {
      var word := Blk(block, i, m);
      var f := w ^ x ^ y;
      z', w' := Line(z, f, word, 0x6ed9eba1, v), Rol30(w);
      ParityIsF(i, f, w, x, y, 0x6ed9eba1);
      LineIsRound(i, v, w, x, y, z, f, word, 0x6ed9eba1);
    }

    /** `SHA1_R3(v, w, x, y, z, i)`: the new values of the registers it names second and last. */
    static method R3(
        v: bv64, w: bv64, x: bv64, y: bv64, z: bv64, block: array<bv64>, i: nat, ghost m: seq<Word>, ghost h: Vars)
        returns (w': bv64, z': bv64)
      requires block.Length == 16 && 40 <= i < 60 && Window(block[..], m, i)
      requires Lows(v, w, x, y, z) == Rounds(m, h, i)
      modifies block
      ensures Window(block[..], m, i + 1)
      ensures Lows(z', v, w', x, y) == Rounds(m, h, i + 1)
    {
      var word := Blk(block, i, m);
      var f := ((w | x) & y) | (w & x);
      z', w' := Line(z, f, word, 0x8f1bbcdc, v), Rol30(w);
      MajIsF(i, f, w, x, y);
      LineIsRound(i, v, w, x, y, z, f, word, 0x8f1bbcdc);
    }

    /** `SHA1_R4(v, w, x, y, z, i)`: the new values of the registers it names second and last. */
    static method R4(
        v: bv64, w: bv64, x: bv64, y: bv64, z: bv64, block: array<bv64>, i: nat, ghost m: seq<Word>, ghost h: Vars)
        returns (w': bv64, z': bv64)
      requires block.Length == 16 && 60 <= i < 80 && Window(block[..], m, i)
      requires Lows(v, w, x, y, z) == Rounds(m, h, i)
      modifies block
      ensures Window(block[..], m, i + 1)
      ensures Lows(z', v, w', x, y) == Rounds(m, h, i + 1)
    {
      var word := Blk(block, i, m);
      var f := w ^ x ^ y;
      z', w' := Line(z, f, word, 0xca62c1d6, v), Rol30(w);
      ParityIsF(i, f, w, x, y, 0xca62c1d6);
      LineIsRound(i, v, w, x, y, z, f, word, 0xca62c1d6);
    }

    /** Five `SHA1_R0` lines; the register names are back in place after every fifth line. */
    static method FiveR0(
        a0: bv64, b0: bv64, c0: bv64, d0: bv64, e0: bv64, block: array<bv64>, i: nat, ghost m: seq<Word>, ghost h: Vars)
        returns (a: bv64, b: bv64, c: bv64, d: bv64, e: bv64)
      requires block.Length == 16 && i + 5 <= 15 && Window(block[..], m, i)
      requires Lows(a0, b0, c0, d0, e0) == Rounds(m, h, i)
      ensures Window(block[..], m, i + 5)
      ensures Lows(a, b, c, d, e) == Rounds(m, h, i + 5)
    {
      hide *;
      a, b, c, d, e := a0, b0, c0, d0, e0;
      b, e := R0(a, b, c, d, e, block, i, m, h);
      a, d := R0(e, a, b, c, d, block, i + 1, m, h);
      e, c := R0(d, e, a, b, c, block, i + 2, m, h);
      d, b := R0(c, d, e, a, b, block, i + 3, m, h);
      c, a := R0(b, c, d, e, a, block, i + 4, m, h);
    }

    /** Lines 15 to 19: the last `SHA1_R0` and the four `SHA1_R1`. */
    static method FiveR0R1(
        a0: bv64, b0: bv64, c0: bv64, d0: bv64, e0: bv64, block: array<bv64>, i: nat, ghost m: seq<Word>, ghost h: Vars)
        returns (a: bv64, b: bv64, c: bv64, d: bv64, e: bv64)
      requires block.Length == 16 && i == 15 && Window(block[..], m, i)
      requires Lows(a0, b0, c0, d0, e0) == Rounds(m, h, i)
      modifies block
      ensures Window(block[..], m, i + 5)
      ensures Lows(a, b, c, d, e) == Rounds(m, h, i + 5)
    {
      hide *;
      a, b, c, d, e := a0, b0, c0, d0, e0;
      b, e := R0(a, b, c, d, e, block, i, m, h);
      a, d := R1(e, a, b, c, d, block, i + 1, m, h);
      e, c := R1(d, e, a, b, c, block, i + 2, m, h);
      d, b := R1(c, d, e, a, b, block, i + 3, m, h);
      c, a := R1(b, c, d, e, a, block, i + 4, m, h);
    }

    /** Five `SHA1_R2` lines. */
    static method FiveR2(
        a0: bv64, b0: bv64, c0: bv64, d0: bv64, e0: bv64, block: array<bv64>, i: nat, ghost m: seq<Word>, ghost h: Vars)
        returns (a: bv64, b: bv64, c: bv64, d: bv64, e: bv64)
      requires block.Length == 16 && 20 <= i && i + 5 <= 40 && Window(block[..], m, i)
      requires Lows(a0, b0, c0, d0, e0) == Rounds(m, h, i)
      modifies block
      ensures Window(block[..], m, i + 5)
      ensures Lows(a, b, c, d, e) == Rounds(m, h, i + 5)
    {
      hide *;
      a, b, c, d, e := a0, b0, c0, d0, e0;
      b, e := R2(a, b, c, d, e, block, i, m, h);
      a, d := R2(e, a, b, c, d, block, i + 1, m, h);
      e, c := R2(d, e, a, b, c, block, i + 2, m, h);
      d, b := R2(c, d, e, a, b, block, i + 3, m, h);
      c, a := R2(b, c, d, e, a, block, i + 4, m, h);
    }

    /** Five `SHA1_R3` lines. */
    static method FiveR3(
        a0: bv64, b0: bv64, c0: bv64, d0: bv64, e0: bv64, block: array<bv64>, i: nat, ghost m: seq<Word>, ghost h: Vars)
        returns (a: bv64, b: bv64, c: bv64, d: bv64, e: bv64)
      requires block.Length == 16 && 40 <= i && i + 5 <= 60 && Window(block[..], m, i)
      requires Lows(a0, b0, c0, d0, e0) == Rounds(m, h, i)
      modifies block
      ensures Window(block[..], m, i + 5)
      ensures Lows(a, b, c, d, e) == Rounds(m, h, i + 5)
    {
      hide *;
      a, b, c, d, e := a0, b0, c0, d0, e0;
      b, e := R3(a, b, c, d, e, block, i, m, h);
      a, d := R3(e, a, b, c, d, block, i + 1, m, h);
      e, c := R3(d, e, a, b, c, block, i + 2, m, h);
      d, b := R3(c, d, e, a, b, block, i + 3, m, h);
      c, a := R3(b, c, d, e, a, block, i + 4, m, h);
    }

    /** Five `SHA1_R4` lines. */
    static method FiveR4(
        a0: bv64, b0: bv64, c0: bv64, d0: bv64, e0: bv64, block: array<bv64>, i: nat, ghost m: seq<Word>, ghost h: Vars)
        returns (a: bv64, b: bv64, c: bv64, d: bv64, e: bv64)
      requires block.Length == 16 && 60 <= i && i + 5 <= 80 && Window(block[..], m, i)
      requires Lows(a0, b0, c0, d0, e0) == Rounds(m, h, i)
      modifies block
      ensures Window(block[..], m, i + 5)
      ensures Lows(a, b, c, d, e) == Rounds(m, h, i + 5)
    {
      hide *;
      a, b, c, d, e := a0, b0, c0, d0, e0;
      b, e := R4(a, b, c, d, e, block, i, m, h);
      a, d := R4(e, a, b, c, d, block, i + 1, m, h);
      e, c := R4(d, e, a, b, c, block, i + 2, m, h);
      d, b := R4(c, d, e, a, b, block, i + 3, m, h);
      c, a := R4(b, c, d, e, a, block, i + 4, m, h);
    }

    // The four rounds of 20 operations each.

    static method Lines0To19(
        a0: bv64, b0: bv64, c0: bv64, d0: bv64, e0: bv64, block: array<bv64>, ghost m: seq<Word>, ghost h: Vars)
        returns (a: bv64, b: bv64, c: bv64, d: bv64, e: bv64)
      requires block.Length == 16 && Window(block[..], m, 0)
      requires Lows(a0, b0, c0, d0, e0) == Rounds(m, h, 0)
      modifies block
      ensures Window(block[..], m, 20)
      ensures Lows(a, b, c, d, e) == Rounds(m, h, 20)
    {
      hide *;
      a, b, c, d, e := a0, b0, c0, d0, e0;
      a, b, c, d, e := FiveR0(a, b, c, d, e, block, 0, m, h);
      a, b, c, d, e := FiveR0(a, b, c, d, e, block, 5, m, h);
      a, b, c, d, e := FiveR0(a, b, c, d, e, block, 10, m, h);
      a, b, c, d, e := FiveR0R1(a, b, c, d, e, block, 15, m, h);
    }

    static method Lines20To39(
        a0: bv64, b0: bv64, c0: bv64, d0: bv64, e0: bv64, block: array<bv64>, ghost m: seq<Word>, ghost h: Vars)
        returns (a: bv64, b: bv64, c: bv64, d: bv64, e: bv64)
      requires block.Length == 16 && Window(block[..], m, 20)
      requires Lows(a0, b0, c0, d0, e0) == Rounds(m, h, 20)
      modifies block
      ensures Window(block[..], m, 40)
      ensures Lows(a, b, c, d, e) == Rounds(m, h, 40)
    {
      hide *;
      a, b, c, d, e := a0, b0, c0, d0, e0;
      a, b, c, d, e := FiveR2(a, b, c, d, e, block, 20, m, h);
      a, b, c, d, e := FiveR2(a, b, c, d, e, block, 25, m, h);
      a, b, c, d, e := FiveR2(a, b, c, d, e, block, 30, m, h);
      a, b, c, d, e := FiveR2(a, b, c, d, e, block, 35, m, h);
    }

    static method Lines40To59(
        a0: bv64, b0: bv64, c0: bv64, d0: bv64, e0: bv64, block: array<bv64>, ghost m: seq<Word>, ghost h: Vars)
        returns (a: bv64, b: bv64, c: bv64, d: bv64, e: bv64)
      requires block.Length == 16 && Window(block[..], m, 40)
      requires Lows(a0, b0, c0, d0, e0) == Rounds(m, h, 40)
      modifies block
      ensures Window(block[..], m, 60)
      ensures Lows(a, b, c, d, e) == Rounds(m, h, 60)
    {
      hide *;
      a, b, c, d, e := a0, b0, c0, d0, e0;
      a, b, c, d, e := FiveR3(a, b, c, d, e, block, 40, m, h);
      a, b, c, d, e := FiveR3(a, b, c, d, e, block, 45, m, h);
      a, b, c, d, e := FiveR3(a, b, c, d, e, block, 50, m, h);
      a, b, c, d, e := FiveR3(a, b, c, d, e, block, 55, m, h);
    }

    static method Lines60To79(
        a0: bv64, b0: bv64, c0: bv64, d0: bv64, e0: bv64, block: array<bv64>, ghost m: seq<Word>, ghost h: Vars)
        returns (a: bv64, b: bv64, c: bv64, d: bv64, e: bv64)
      requires block.Length == 16 && Window(block[..], m, 60)
      requires Lows(a0, b0, c0, d0, e0) == Rounds(m, h, 60)
      modifies block
      ensures Window(block[..], m, 80)
      ensures Lows(a, b, c, d, e) == Rounds(m, h, 80)
    {
      hide *;
      a, b, c, d, e := a0, b0, c0, d0, e0;
      a, b, c, d, e := FiveR4(a, b, c, d, e, block, 60, m, h);
      a, b, c, d, e := FiveR4(a, b, c, d, e, block, 65, m, h);
      a, b, c, d, e := FiveR4(a, b, c, d, e, block, 70, m, h);
      a, b, c, d, e := FiveR4(a, b, c, d, e, block, 75, m, h);
    }

    /** Hashes one block; `block` is scratch space for the schedule. */
    method Transform(block: array<bv64>, ghost m: seq<Word>)
      requires |m| == 16 && digest.Length == 5 && block.Length == 16 && block != digest && Window(block[..], m, 0)
      modifies this`transforms, digest, block
      ensures HashValue() == Compress(old(HashValue()), m)
      ensures transforms == Next64(old(transforms))
    {
      hide Compress, Window, Rounds, Plus, Low, Next64;
      ghost var h := HashValue();
      NoRounds(m, h);
      var a, b, c, d, e := digest[0], digest[1], digest[2], digest[3], digest[4];
      a, b, c, d, e := Lines0To19(a, b, c, d, e, block, m, h);
      a, b, c, d, e := Lines20To39(a, b, c, d, e, block, m, h);
      a, b, c, d, e := Lines40To59(a, b, c, d, e, block, m, h);
      a, b, c, d, e := Lines60To79(a, b, c, d, e, block, m, h);
      AddBack(digest[0], digest[1], digest[2], digest[3], digest[4], a, b, c, d, e, m);
      digest[0] := Plus(digest[0], a);
      digest[1] := Plus(digest[1], b);
      digest[2] := Plus(digest[2], c);
      digest[3] := Plus(digest[3], d);
      digest[4] := Plus(digest[4], e);
      transforms := Next64(transforms);
    }

    // -------------------------------------------------------------- update

    /** The word at position `i`: an `int` built from four bytes, so widening it copies the sign bit. */
    static function WordAt(buffer: seq<Octet>, i: nat): bv64
      requires |buffer| == 64 && i < 16
    {
      SignExtend(BigEndian(buffer[4 * i..4 * i + 4]))
    }

    static method BufferToBlock(buffer: seq<Octet>, block: array<bv64>)
      requires |buffer| == 64 && block.Length == 16
      modifies block
      ensures forall k :: 0 <= k < 16 ==> Low(block[k]) == BlockWords(buffer)[k]
    {
      for i := 0 to 16
        invariant forall k :: 0 <= k < i ==> Low(block[k]) == BlockWords(buffer)[k]
      {
        block[i] := WordAt(buffer, i);
        LowSignExtend(BigEndian(buffer[4 * i..4 * i + 4]));
      }
    }

    /** `is.read(sbuf, max)`: at most `max` bytes; the stream stays good only when all came. */
    static method Read(s: seq<Octet>, pos: nat, max: nat) returns (chunk: seq<Octet>, next: nat, good: bool)
      requires pos <= |s|
      ensures pos <= next <= |s| && chunk == s[pos..next] && |chunk| <= max
      ensures good <==> |chunk| == max
      ensures !good ==> next == |s|
    {
      next := if |s| - pos < max then |s| else pos + max;
      chunk, good := s[pos..next], next - pos == max;
    }

    /** `update`: any number of bytes, hashed block by block as they come. */
    method Update(s: seq<Octet>)
      requires Valid()
      modifies this, digest
      ensures Valid() && Message() == old(Message()) + s
    {
      hide HashBlocks, Lows, Low, Wrap64, Hashed;
      var pos, good := FillUp(s);
      while good
        invariant 0 <= pos <= |s| && Message() == old(Message()) + s[..pos]
        invariant Hashed() && |buffer| <= 64
        invariant good <==> |buffer| == 64
        invariant !good ==> pos == |s|
        decreases |s| - pos, if good then 1 else 0
      {
        ghost var before := pos;
        pos, good := HashAndRead(s, pos);
        assert s[..before] + s[before..pos] == s[..pos];
      }
      assert s[..|s|] == s;
    }

    /** The first read tops up what is carried. */
    method FillUp(s: seq<Octet>) returns (pos: nat, good: bool)
      requires Valid()
      modifies this`buffer
      ensures Hashed() && pos <= |s| && |buffer| <= 64 && (good <==> |buffer| == 64) && (!good ==> pos == |s|)
      ensures Message() == old(Message()) + s[..pos]
    {
      var rest;
      rest, pos, good := Read(s, 0, 64 - |buffer|);
      buffer := buffer + rest;
    }

    /** One turn of the loop: a full buffer is hashed, and the next one read. */
    method HashAndRead(s: seq<Octet>, pos: nat) returns (next: nat, good: bool)
      requires Hashed() && |buffer| == 64 && pos <= |s|
      modifies this, digest
      ensures Hashed() && pos <= next <= |s| && |buffer| <= 64 && (good <==> |buffer| == 64)
      ensures (good ==> pos < next) && (!good ==> next == |s|)
      ensures Message() == old(Message()) + s[pos..next]
    {
      hide HashBlocks, Lows, Low, Wrap64;
      HashBuffer();
      buffer, next, good := Read(s, pos, 64);
    }

    /** `buffer_to_block` and `transform` on a full buffer. */
    method HashBuffer()
      requires Hashed() && |buffer| == 64
      modifies this`transforms, this`seen, digest
      ensures Hashed() && seen == old(seen) + buffer
    {
      var block := new bv64[16];
      BufferToBlock(buffer, block);
      HashBlock(block);
    }

    /** Hashes the block the buffer was turned into. */
    method HashBlock(block: array<bv64>)
      requires Hashed() && |buffer| == 64 && block.Length == 16 && block != digest
      requires forall k :: 0 <= k < 16 ==> Low(block[k]) == BlockWords(buffer)[k]
      modifies this`transforms, this`seen, digest, block
      ensures Hashed() && seen == old(seen) + buffer
    {
      hide HashBlocks, Lows, Low, BlockWords, Wrap64, Next64;
      StartsWindow(block[..], BlockWords(buffer));
      Transform(block, BlockWords(buffer));
      OneMoreBlock(seen, buffer);
      seen := seen + buffer;
    }

    // -------------------------------------------------------------- digest

    /** `prepare`: pads the message and hashes the one or two blocks that are left. */
    method Prepare()
      requires Valid()
      modifies this, digest
      ensures digest.Length == 5 && HashValue() == HashBlocks(Pad(old(Message())))
    {
      hide HashBlocks, Lows, Low, BigEndian, Bytes64, Zeros, Wrap64, Pad;
      ghost var msg, carried := Message(), buffer;
      var totalBits := TotalBits(transforms, Wrap64(|buffer|));
      TotalBitsIsBitLength(|seen| / 64, |buffer|);
      var origSize := PadBuffer();
      var block := new bv64[16];
      BufferToBlock(buffer, block);
      if origSize > 56 {
        HashBlock(block);
        ClearWords(block);
        FinishBlock(block, Zeros(56), totalBits);
        PadTwoBlocks(old(seen), carried);
      } else {
        FrontWords(block[..], buffer);
        FinishBlock(block, buffer[..56], totalBits);
        PadOneBlock(seen, carried);
      }
    }

    /** One bit and zeros up to the end of the block; the answer is the size after the bit. */
    method PadBuffer() returns (origSize: nat)
      requires |buffer| < 64
      modifies this`buffer
      ensures origSize == |old(buffer)| + 1
      ensures |buffer| == 64 && buffer == old(buffer) + [0x80] + Zeros(64 - origSize)
    {
      buffer := buffer + [0x80];
      origSize := |buffer|;
      while |buffer| < 64
        invariant origSize <= |buffer| <= 64
        invariant buffer == old(buffer) + [0x80] + Zeros(|buffer| - origSize)
      {
        buffer := buffer + [0];
      }
    }

    static method ClearWords(block: array<bv64>)
      requires block.Length == 16
      modifies block
      ensures forall k :: 0 <= k < 14 ==> Low(block[k]) == BigEndian(Zeros(56)[4 * k..4 * k + 4])
    {
      for i := 0 to 14
        invariant forall k :: 0 <= k < i ==> block[k] == 0
      {
        block[i] := 0;
      }
      ZeroWords();
    }

    /** Puts the length at the end of the block and hashes it. */
    method FinishBlock(block: array<bv64>, ghost front: seq<Octet>, totalBits: bv64)
      requires Hashed() && block.Length == 16 && block != digest && |front| == 56
      requires forall k :: 0 <= k < 14 ==> Low(block[k]) == BigEndian(front[4 * k..4 * k + 4])
      modifies this`transforms, digest, block
      ensures |seen + (front + Bytes64(totalBits))| % 64 == 0
      ensures HashValue() == HashBlocks(seen + (front + Bytes64(totalBits)))
    {
      hide HashBlocks, Lows, Low, BigEndian, Bytes64;
      block[15] := totalBits;
      block[14] := totalBits >> 32;
      FinalBlock(block[..], front, totalBits);
      Transform(block, BlockWords(front + Bytes64(totalBits)));
      OneMoreBlock(seen, front + Bytes64(totalBits));
    }

    /** The digest of everything since the last reset; the object starts over. */
    method Digest() returns (d: array<Octet>)
      requires Valid()
      modifies this, digest
      ensures fresh(d) && d[..] == Hash(old(Message()))
      ensures Valid() && Message() == []
    {
      hide HashBlocks, Pad, Serialized;
      Prepare();
      d := new Octet[20];
      WriteDigest(d);
      Reset();
    }

    method WriteDigest(d: array<Octet>)
      requires digest.Length == 5 && d.Length == 20
      modifies d
      ensures d[..] == Serialized(HashValue(), 5)
    {
      hide Bytes32, Low, Serialized, HashValue, Word5;
      ghost var h := HashValue();
      SerializedStep(h, 0);
      SameHash();
      for i := 0 to 5
        invariant d[..4 * i] == Serialized(h, i)
        invariant forall k :: 0 <= k < 5 ==> Low(digest[k]) == Word5(h, k)
      {
        SerializedStep(h, i);
        StoreWord(d, i, Low(digest[i]));
      }
    }

    lemma SameHash()
      requires digest.Length == 5
      ensures forall k :: 0 <= k < 5 ==> Low(digest[k]) == Word5(HashValue(), k)
    {
    }

    static lemma SerializedStep(h: Vars, i: nat)
      requires i < 5
      ensures Serialized(h, 0) == [] && Serialized(h, i + 1) == Serialized(h, i) + Bytes32(Word5(h, i))
    {
    }

    static method StoreWord(d: array<Octet>, i: nat, w: Word)
      requires d.Length == 20 && i < 5
      modifies d
      ensures d[..4 * i + 4] == old(d[..4 * i]) + Bytes32(w)
    {
      d[4 * i] := ((w >> 24) & 0xff) as Octet;
      d[4 * i + 1] := ((w >> 16) & 0xff) as Octet;
      d[4 * i + 2] := ((w >> 8) & 0xff) as Octet;
      d[4 * i + 3] := (w & 0xff) as Octet;
    }
  }

  lemma ZeroWords()
    ensures Low(0) == 0
    ensures forall k :: 0 <= k < 14 ==> BigEndian(Zeros(56)[4 * k..4 * k + 4]) == 0
  {
  }

  lemma FrontWords(block: seq<bv64>, buffer: seq<Octet>)
    requires |block| == 16 && |buffer| == 64
    requires forall k :: 0 <= k < 16 ==> Low(block[k]) == BlockWords(buffer)[k]
    ensures forall k :: 0 <= k < 14 ==> Low(block[k]) == BigEndian(buffer[..56][4 * k..4 * k + 4])
  {
    hide Low, BigEndian;
    forall k | 0 <= k < 14 ensures Low(block[k]) == BigEndian(buffer[..56][4 * k..4 * k + 4]) {
      assert buffer[..56][4 * k..4 * k + 4] == buffer[4 * k..4 * k + 4];
    }
  }

  /** The last block: 56 bytes of text and padding, and the length in bits. */
  lemma FinalBlock(block: seq<bv64>, front: seq<Octet>, totalBits: bv64)
    requires |block| == 16 && |front| == 56
    requires forall k :: 0 <= k < 14 ==> Low(block[k]) == BigEndian(front[4 * k..4 * k + 4])
    requires block[14] == totalBits >> 32 && block[15] == totalBits
    ensures Window(block, BlockWords(front + Bytes64(totalBits)), 0)
  {
    hide Low, BigEndian;
    var last := front + Bytes64(totalBits);
    var m := BlockWords(last);
    forall k | 0 <= k < 16 ensures Low(block[k]) == m[k] {
      if k < 14 {
        assert last[4 * k..4 * k + 4] == front[4 * k..4 * k + 4];
      } else {
        LowOfLength(totalBits);
        assert last[56..60] == Bytes64(totalBits)[0..4] && last[60..64] == Bytes64(totalBits)[4..8];
      }
    }
    StartsWindow(block, m);
  }

  lemma PadIs(s: seq<Octet>, zeros: nat)
    requires zeros == (119 - |s| % 64) % 64
    ensures Pad(s) == s + [0x80] + Zeros(zeros) + Bytes64(BitLength(|s|))
  {
    hide Bytes64, BitLength, Zeros;
  }

  lemma ZerosOf(carried: nat)
    requires carried < 64
    ensures (119 - carried) % 64 == if carried <= 55 then 55 - carried else 119 - carried
  {
  }

  lemma CarriedIsLeft(seen: seq<Octet>, carried: seq<Octet>)
    requires |seen| % 64 == 0 && |carried| < 64
    ensures |seen + carried| % 64 == |carried|
  {
  }

  lemma PadOneBlock(seen: seq<Octet>, carried: seq<Octet>)
    requires |seen| % 64 == 0 && |carried| <= 55
    ensures var front := (carried + [0x80] + Zeros(63 - |carried|))[..56];
            Pad(seen + carried) == seen + (front + Bytes64(BitLength(|seen + carried|)))
  {
    hide Bytes64, BitLength, Pad;
    CarriedIsLeft(seen, carried);
    ZerosOf(|carried|);
    PadIs(seen + carried, 55 - |carried|);
    FrontOfBlock(carried);
    JoinedFront(seen, carried, Zeros(55 - |carried|), Bytes64(BitLength(|seen + carried|)));
  }

  lemma FrontOfBlock(carried: seq<Octet>)
    requires |carried| <= 55
    ensures (carried + [0x80] + Zeros(63 - |carried|))[..56] == carried + [0x80] + Zeros(55 - |carried|)
  {
  }

  lemma JoinedFront(seen: seq<Octet>, carried: seq<Octet>, zeros: seq<Octet>, length: seq<Octet>)
    ensures seen + carried + [0x80] + zeros + length == seen + (carried + [0x80] + zeros + length)
  {
  }

  lemma PadTwoBlocks(seen: seq<Octet>, carried: seq<Octet>)
    requires |seen| % 64 == 0 && 56 <= |carried| < 64
    ensures Pad(seen + carried)
         == (seen + (carried + [0x80] + Zeros(63 - |carried|))) + (Zeros(56) + Bytes64(BitLength(|seen + carried|)))
  {
    hide Bytes64, BitLength, Pad;
    CarriedIsLeft(seen, carried);
    ZerosOf(|carried|);
    PadIs(seen + carried, 119 - |carried|);
    ZerosSplit(63 - |carried|, 56);
    JoinedBlocks(seen, carried, Zeros(63 - |carried|), Zeros(56), Bytes64(BitLength(|seen + carried|)));
  }

  lemma ZerosSplit(m: nat, n: nat)
    ensures Zeros(m + n) == Zeros(m) + Zeros(n)
  {
  }

  lemma JoinedBlocks(seen: seq<Octet>, carried: seq<Octet>, z: seq<Octet>, zeros: seq<Octet>, length: seq<Octet>)
    ensures seen + carried + [0x80] + (z + zeros) + length == (seen + (carried + [0x80] + z)) + (zeros + length)
  {
  }

  lemma StartsWindow(block: seq<bv64>, m: seq<Word>)
    requires |block| == 16 && |m| == 16 && forall k :: 0 <= k < 16 ==> Low(block[k]) == m[k]
    ensures Window(block, m, 0)
  {
    hide Low;
    forall t: nat | Newest(t, 0) ensures Low(block[t % 16]) == Schedule(m, t) {
      assert t % 16 == t;
    }
  }

  lemma OneMoreBlock(seen: seq<Octet>, block: seq<Octet>)
    requires |block| == 64 && |seen| % 64 == 0
    ensures |seen + block| % 64 == 0
    ensures HashBlocks(seen + block) == Compress(HashBlocks(seen), BlockWords(block))
    ensures Wrap64(|seen + block| / 64) == Next64(Wrap64(|seen| / 64))
  {
    hide Compress, BlockWords, Next64;
    var s := seen + block;
    assert |s| / 64 == |seen| / 64 + 1;
    assert s[..|s| - 64] == seen && s[|s| - 64..] == block;
  }

  // ---------------------------------------------------------------- callers

  function Concat(parts: seq<seq<Octet>>): seq<Octet> {
    if parts == [] then [] else Concat(parts[..|parts| - 1]) + parts[|parts| - 1]
  }

  /** A message in any number of pieces has the digest of the whole message. */
  method DigestOfParts(parts: seq<seq<Octet>>) returns (d: array<Octet>)
    ensures d[..] == Hash(Concat(parts))
  {
    hide Hash;
    var checksum := new Sha1();
    for i := 0 to |parts|
      invariant fresh(checksum) && fresh(checksum.digest) && checksum.Valid()
      invariant checksum.Message() == Concat(parts[..i])
    {
      assert parts[..i + 1][..i] == parts[..i];
      checksum.Update(parts[i]);
    }
    assert parts[..|parts|] == parts;
    d := checksum.Digest();
  }

  /** `Data::Sha1Digest`: the digest of one string. */
  method Sha1Digest(s: seq<Octet>) returns (d: array<Octet>)
    ensures d[..] == Hash(s)
  {
    hide Hash;
    var checksum := new Sha1();
    assert [] + s == s;
    checksum.Update(s);
    d := checksum.Digest();
  }
}
