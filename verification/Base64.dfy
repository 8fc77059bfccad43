/** Base64 (src/utils/Data.cpp): section 4 of RFC 4648. */
module Base64 {
  import opened Bytes

  const PAD: byte := 61

  // ---------------------------------------------------------------- the alphabet

  /** `base64_chars[x]`: A-Z, a-z, 0-9, + and /. */
  function CharOf(x: byte): (c: byte)
    requires x < 64
    ensures IsBase64(c) && c != PAD
  {
    if x < 26 then 65 + x else if x < 52 then 97 + (x - 26) else if x < 62 then 48 + (x - 52) else if x == 62 then 43
      else 47
  }

  predicate IsBase64(c: byte) {
    65 <= c <= 90 || 97 <= c <= 122 || 48 <= c <= 57 || c == 43 || c == 47
  }

  /** `base64_chars.find(c)` cut to a byte: a character outside the alphabet gives 255. */
  function Find(c: byte): byte {
    if 65 <= c <= 90 then c - 65 else if 97 <= c <= 122 then c - 97 + 26 else if 48 <= c <= 57 then c - 48 + 52
    else if c == 43 then 62 else if c == 47 then 63 else 255
  }

  lemma FindUndoesCharOf(x: byte)
    requires x < 64
    ensures Find(CharOf(x)) == x
  {
  }

  // the alphabet of section 4 of RFC 4648, in three parts

  lemma CapitalsAreSpelled()
    ensures Text([CharOf(0), CharOf(1), CharOf(2), CharOf(3), CharOf(4), CharOf(5), CharOf(6), CharOf(7),
                CharOf(8), CharOf(9), CharOf(10), CharOf(11), CharOf(12), CharOf(13), CharOf(14), CharOf(15),
                CharOf(16), CharOf(17), CharOf(18), CharOf(19), CharOf(20), CharOf(21), CharOf(22), CharOf(23),
                CharOf(24), CharOf(25)])
         == "ABCDEFGHIJKLMNOPQRSTUVWXYZ"
  {
    hide CharFor;
    Ascii();
  }

  lemma SmallAreSpelled()
    ensures Text([CharOf(26), CharOf(27), CharOf(28), CharOf(29), CharOf(30), CharOf(31), CharOf(32), CharOf(33),
                CharOf(34), CharOf(35), CharOf(36), CharOf(37), CharOf(38), CharOf(39), CharOf(40), CharOf(41),
                CharOf(42), CharOf(43), CharOf(44), CharOf(45), CharOf(46), CharOf(47), CharOf(48), CharOf(49),
                CharOf(50), CharOf(51)])
         == "abcdefghijklmnopqrstuvwxyz"
  {
    hide CharFor;
    Ascii();
  }

  lemma RestIsSpelled()
    ensures Text([CharOf(52), CharOf(53), CharOf(54), CharOf(55), CharOf(56), CharOf(57), CharOf(58), CharOf(59),
                CharOf(60), CharOf(61), CharOf(62), CharOf(63)])
         == "0123456789+/"
  {
    hide CharFor;
    Ascii();
  }

  /** A character is one of the alphabet exactly when some sextet is written with it, and the decoder takes
      anything else for 255. */
  lemma FindIsExact(c: byte)
    ensures IsBase64(c) <==> Find(c) < 64
    ensures IsBase64(c) ==> CharOf(Find(c)) == c
    ensures !IsBase64(c) ==> Find(c) == 255
  {
  }

  lemma PaddingIsSpelled()
    ensures Text([PAD]) == "=" && !IsBase64(PAD)
  {
    Ascii();
  }

  // ---------------------------------------------------------------- the encoding, from the standard

  /** Up to three bytes as a 24-bit number, missing bytes zero. */
  function Group24(g: ByteArray): bv24
    requires 1 <= |g| <= 3
  {
    Join24(g[0], ByteAt(g, 1), ByteAt(g, 2))
  }

  function ByteAt(g: ByteArray, k: nat): byte {
    if k < |g| then g[k] else 0
  }

  function Join24(b0: byte, b1: byte, b2: byte): bv24 {
    (b0 as bv24 << 16) | (b1 as bv24 << 8) | b2 as bv24
  }

  /** The `k`-th of the four 6-bit digits of a 24-bit number. */
  function Sextet(n: bv24, k: nat): (x: byte)
    requires k < 4
    ensures x < 64
  {
    (if k == 0 then n >> 18 else if k == 1 then (n >> 12) & 63 else if k == 2 then (n >> 6) & 63 else n & 63) as byte
  }

  /** One more character than the group has bytes. */
  function GroupChars(g: ByteArray): (s: ByteArray)
    requires 1 <= |g| <= 3
    ensures |s| == |g| + 1
  {
    seq(|g| + 1, k requires 0 <= k <= |g| => CharOf(Sextet(Group24(g), k)))
  }

  /** How many of `n` bytes stand before the last group of up to three. */
  function Front3(n: nat): (m: nat)
    requires n > 0
    ensures m < n <= m + 3 && m % 3 == 0
  {
    (n - 1) / 3 * 3
  }

  /** How many of `n` characters stand before the last group of up to four. */
  function Front4(n: nat): (m: nat)
    requires n > 0
    ensures m < n <= m + 4 && m % 4 == 0
  {
    (n - 1) / 4 * 4
  }

  /** The characters of the encoding before any padding. */
  function EncodeChars(b: ByteArray): ByteArray {
    if b == [] then [] else EncodeChars(b[..Front3(|b|)]) + GroupChars(b[Front3(|b|)..])
  }

  /** Section 4: whole groups of four characters, the last one filled up with padding. */
  function Encode(b: ByteArray): ByteArray {
    EncodeChars(b) + seq((3 - |b| % 3) % 3, _ => PAD)
  }

  // ---------------------------------------------------------------- the decoder as a function

  /** The three bytes made of four sextets, each sum cut to a byte. */
  function ThreeBytes(x: ByteArray): ByteArray
    requires |x| == 4
  {
    [Byte0(x[0], x[1]), Byte1(x[1], x[2]), Byte2(x[2], x[3])]
  }

  function Byte0(p: byte, q: byte): byte { (p << 2) + ((q & 0x30) >> 4) }
  function Byte1(p: byte, q: byte): byte { ((p & 0xf) << 4) + ((q & 0x3c) >> 2) }
  function Byte2(p: byte, q: byte): byte { ((p & 0x3) << 6) + q }

  /** The bytes of one group of characters; sextets that are missing read as 255. */
  function DecodeGroup(g: ByteArray): (b: ByteArray)
    requires 1 <= |g| <= 4
    ensures |b| == |g| - 1
  {
    ThreeBytes(seq(4, k requires 0 <= k < 4 => if k < |g| then Find(g[k]) else 255))[..|g| - 1]
  }

  function DecodeChars(s: ByteArray): ByteArray {
    if s == [] then [] else DecodeChars(s[..Front4(|s|)]) + DecodeGroup(s[Front4(|s|)..])
  }

  /** How many characters the decoder reads: up to the first one outside the alphabet. */
  function Readable(s: ByteArray, i: nat): (n: nat)
    requires i <= |s|
    ensures i <= n <= |s|
    decreases |s| - i
  {
    if i < |s| && IsBase64(s[i]) then Readable(s, i + 1) else i
  }

  function Decode(s: ByteArray): ByteArray {
    DecodeChars(s[..Readable(s, 0)])
  }

  // ---------------------------------------------------------------- round trip

  /** The characters of a group read back as its sextets, missing ones as 255. */
  lemma GroupSextets(g: ByteArray, x: ByteArray)
    requires 1 <= |g| <= 3 && |x| == 4
    requires forall k :: 0 <= k < 4 ==> x[k] == if k <= |g| then Sextet(Group24(g), k) else 255
    ensures DecodeGroup(GroupChars(g)) == ThreeBytes(x)[..|g|]
  {
    hide Sextet, Group24, CharOf, Find, ThreeBytes;
    var s := GroupChars(g);
    var y := seq(4, k requires 0 <= k < 4 => if k < |s| then Find(s[k]) else 255);
    forall k | 0 <= k < 4 ensures y[k] == x[k] {
      if k <= |g| { FindUndoesCharOf(Sextet(Group24(g), k)); }
    }
    assert x == y;
  }

  lemma GroupRoundTrip(g: ByteArray)
    requires 1 <= |g| <= 3
    ensures DecodeGroup(GroupChars(g)) == g
  {
    hide Sextet, CharOf, DecodeGroup, GroupChars;
    var n := Group24(g);
    var x := seq(4, k requires 0 <= k < 4 => if k <= |g| then Sextet(n, k) else 255);
    GroupSextets(g, x);
    GroupBytes(g, x);
  }

  /** The bytes put together from the sextets are the bytes they were taken from. */
  lemma GroupBytes(g: ByteArray, x: ByteArray)
    requires 1 <= |g| <= 3 && |x| == 4
    requires forall k :: 0 <= k <= |g| ==> x[k] == Sextet(Group24(g), k)
    ensures ThreeBytes(x)[..|g|] == g
  {
    hide Sextet, Byte0, Byte1, Byte2, Group24;
    BytesOfGroup(g, Group24(g));
    assert x[0] == Sextet(Group24(g), 0) && x[1] == Sextet(Group24(g), 1);
    var t := ThreeBytes(x);
    assert t[0] == g[0];
    if |g| > 1 { assert t[1] == g[1]; }
    if |g| > 2 { assert t[2] == g[2]; }
  }

  lemma BytesOfGroup(g: ByteArray, n: bv24)
    requires 1 <= |g| <= 3 && n == Group24(g)
    ensures Byte0(Sextet(n, 0), Sextet(n, 1)) == g[0]
    ensures |g| > 1 ==> Byte1(Sextet(n, 1), Sextet(n, 2)) == g[1]
    ensures |g| > 2 ==> Byte2(Sextet(n, 2), Sextet(n, 3)) == g[2]
  {
    hide Sextet, Byte0, Byte1, Byte2, Join24;
    BytesOfSextets(n, g[0], ByteAt(g, 1), ByteAt(g, 2));
  }

  lemma BytesOfSextets(n: bv24, b0: byte, b1: byte, b2: byte)
    requires n == Join24(b0, b1, b2)
    ensures Byte0(Sextet(n, 0), Sextet(n, 1)) == b0
    ensures Byte1(Sextet(n, 1), Sextet(n, 2)) == b1
    ensures Byte2(Sextet(n, 2), Sextet(n, 3)) == b2
  {
  }

  /** One step of the encoder, the parts given. */
  lemma EncodeStep(b: ByteArray, init: ByteArray, last: ByteArray)
    requires |last| > 0 && |last| <= 3 && |init| % 3 == 0 && b == init + last
    ensures EncodeChars(b) == EncodeChars(init) + GroupChars(last)
  {
    hide GroupChars, EncodeChars;
    assert Front3(|b|) == |init|;
    assert b[..|init|] == init && b[|init|..] == last;
    EncodeParts(b, init, last);
  }

  lemma EncodeParts(b: ByteArray, init: ByteArray, last: ByteArray)
    requires b != [] && init == b[..Front3(|b|)] && last == b[Front3(|b|)..]
    ensures EncodeChars(b) == EncodeChars(init) + GroupChars(last)
  {
    hide GroupChars, Front3;
  }

  /** The same for the decoder. */
  lemma DecodeStep(t: ByteArray, init: ByteArray, last: ByteArray)
    requires |last| > 0 && |last| <= 4 && |init| % 4 == 0 && t == init + last
    ensures DecodeChars(t) == DecodeChars(init) + DecodeGroup(last)
  {
    hide DecodeGroup, DecodeChars;
    assert Front4(|t|) == |init|;
    assert t[..|init|] == init && t[|init|..] == last;
    DecodeParts(t, init, last);
  }

  lemma DecodeParts(t: ByteArray, init: ByteArray, last: ByteArray)
    requires t != [] && init == t[..Front4(|t|)] && last == t[Front4(|t|)..]
    ensures DecodeChars(t) == DecodeChars(init) + DecodeGroup(last)
  {
    hide DecodeGroup, Front4;
  }

  lemma {:induction false} CharsRoundTrip(b: ByteArray)
    ensures DecodeChars(EncodeChars(b)) == b
  {
    hide EncodeChars, DecodeChars, GroupChars, DecodeGroup, Front3;
    if b == [] {
      NothingEncoded();
      NothingDecoded();
    } else {
      var init, last := b[..Front3(|b|)], b[Front3(|b|)..];
      CharsRoundTrip(init);
      EncodeStep(b, init, last);
      EncodeSize(init);
      GroupRoundTrip(last);
      DecodeStep(EncodeChars(b), EncodeChars(init), GroupChars(last));
      assert init + last == b;
    }
  }

  /** Every three bytes give four characters, and what is left one more than its bytes. */
  lemma {:induction false} EncodeSize(b: ByteArray)
    ensures |EncodeChars(b)| == 4 * (|b| / 3) + (if |b| % 3 == 0 then 0 else |b| % 3 + 1)
  {
    hide EncodeChars, Front3;
    if b == [] {
      NothingEncoded();
    } else {
      var init, last := b[..Front3(|b|)], b[Front3(|b|)..];
      EncodeStep(b, init, last);
      EncodeSize(init);
    }
  }

  lemma {:induction false} EncodeAlphabet(b: ByteArray)
    ensures forall k :: 0 <= k < |EncodeChars(b)| ==> IsBase64(EncodeChars(b)[k]) && EncodeChars(b)[k] != PAD
  {
    hide EncodeChars, Front3;
    if b == [] {
      NothingEncoded();
    } else {
      var init, last := b[..Front3(|b|)], b[Front3(|b|)..];
      EncodeStep(b, init, last);
      EncodeAlphabet(init);
    }
  }

  lemma {:induction false} ReadableAll(s: ByteArray, t: ByteArray, i: nat)
    requires i <= |s| && forall k :: 0 <= k < |s| ==> IsBase64(s[k])
    requires t != [] ==> !IsBase64(t[0])
    ensures Readable(s + t, i) == |s|
    decreases |s| - i
  {
    if i < |s| { ReadableAll(s, t, i + 1); }
  }

  /** Decoding an encoding gives back the bytes, whatever their number. */
  lemma RoundTrip(b: ByteArray)
    ensures Decode(Encode(b)) == b
  {
    var s, t := EncodeChars(b), seq((3 - |b| % 3) % 3, _ => PAD);
    EncodeAlphabet(b);
    ReadableAll(s, t, 0);
    assert (s + t)[..|s|] == s;
    CharsRoundTrip(b);
  }

  /** The length is 4 * ceil(n / 3); padding stands only at the end and fills the last group. */
  lemma PaddingAtEnd(b: ByteArray)
    ensures |Encode(b)| == 4 * ((|b| + 2) / 3)
    ensures forall k :: 0 <= k < |Encode(b)| ==> (Encode(b)[k] == PAD <==> k >= |Encode(b)| - (3 - |b| % 3) % 3)
  {
    EncodeSize(b);
    EncodeAlphabet(b);
  }

  lemma EncodeText(b: ByteArray)
    ensures forall k :: 0 <= k < |Encode(b)| ==> IsBase64(Encode(b)[k]) || Encode(b)[k] == PAD
  {
    EncodeAlphabet(b);
  }

  // ---------------------------------------------------------------- the two loops

  lemma SextetsOfBytes(b0: byte, b1: byte, b2: byte, n: bv24)
    requires n == Join24(b0, b1, b2)
    ensures (b0 & 0xfc) >> 2 == Sextet(n, 0)
    ensures ((b0 & 0x03) << 4) + ((b1 & 0xf0) >> 4) == Sextet(n, 1)
    ensures ((b1 & 0x0f) << 2) + ((b2 & 0xc0) >> 6) == Sextet(n, 2)
    ensures b2 & 0x3f == Sextet(n, 3)
  {
  }

  /** Fills `char_array_4` with the four sextets of `char_array_3`. */
  method SplitGroup(three: array<byte>, four: array<byte>)
    requires three.Length == 3 && four.Length == 4 && three != four
    modifies four
    ensures forall k :: 0 <= k < 4 ==> four[k] == Sextet(Join24(three[0], three[1], three[2]), k)
  {
    hide Join24, Sextet;
    SextetsOfBytes(three[0], three[1], three[2], Join24(three[0], three[1], three[2]));
    four[0] := (three[0] & 0xfc) >> 2;
    four[1] := ((three[0] & 0x03) << 4) + ((three[1] & 0xf0) >> 4);
    four[2] := ((three[1] & 0x0f) << 2) + ((three[2] & 0xc0) >> 6);
    four[3] := three[2] & 0x3f;
  }

  /** Appends the characters of the first `count` sextets. */
  method AppendChars(ret: ByteArray, four: array<byte>, count: nat, ghost g: ByteArray) returns (r: ByteArray)
    requires four.Length == 4 && 1 <= |g| <= 3 && count == |g| + 1
    requires forall k :: 0 <= k < 4 ==> four[k] == Sextet(Group24(g), k)
    ensures r == ret + GroupChars(g)
  {
    hide Sextet, CharOf, Group24;
    r := ret;
    for j := 0 to count
      invariant r == ret + GroupChars(g)[..j]
    {
      r := r + [CharOf(four[j])];
    }
  }

  lemma EncodeMore(b: ByteArray, pos: nat, i: nat)
    requires pos <= |b| && 1 <= i <= 3 && i <= pos && (pos - i) % 3 == 0
    ensures EncodeChars(b[..pos]) == EncodeChars(b[..pos - i]) + GroupChars(b[pos - i..pos])
  {
    hide GroupChars, EncodeChars;
    assert b[..pos] == b[..pos - i] + b[pos - i..pos];
    EncodeStep(b[..pos], b[..pos - i], b[pos - i..pos]);
  }

  /** `char_array[i++] = s[pos]`: the array holds the last characters that were read. */
  method Store(a: array<byte>, i: nat, s: ByteArray, pos: nat)
    requires i < a.Length && i <= pos < |s| && a[..i] == s[pos - i..pos]
    modifies a
    ensures a[..i + 1] == s[pos - i..pos + 1]
  {
    ghost var held := a[..i];
    a[i] := s[pos];
    assert a[..i + 1] == held + [s[pos]] == s[pos - i..pos + 1];
  }

  method Base64Encode(bytes: ByteArray) returns (ret: ByteArray)
    ensures ret == Encode(bytes)
  {
    hide EncodeChars, GroupChars, Join24;
    var three, four := new byte[3], new byte[4];
    var i, pos, inLen := 0, 0, |bytes|;
    ret := [];
    NothingEncoded();
    while inLen > 0
      invariant inLen >= 0 && pos + inLen == |bytes| && 0 <= i < 3 && i <= pos && (pos - i) % 3 == 0
      invariant three[..i] == bytes[pos - i..pos]
      invariant ret == EncodeChars(bytes[..pos - i])
    {
      inLen := inLen - 1;
      Store(three, i, bytes, pos);
      i, pos := i + 1, pos + 1;
      if i == 3 {
        ghost var g := bytes[pos - 3..pos];
        SplitGroup(three, four);
        assert g == three[..3];
        ret := AppendChars(ret, four, 4, g);
        EncodeMore(bytes, pos, 3);
        i := 0;
      }
    }
    assert bytes[..pos] == bytes;
    if i != 0 {
      ret := EncodeRest(ret, three, four, bytes, i);
    }
  }

  /** What is left behind the last whole group, filled up with zeros. */
  method EncodeRest(
      start: ByteArray, three: array<byte>, four: array<byte>, bytes: ByteArray, i: nat) returns (ret: ByteArray)
    requires three.Length == 3 && four.Length == 4 && three != four && 0 < i < 3 && i <= |bytes|
             && (|bytes| - i) % 3 == 0
    requires three[..i] == bytes[|bytes| - i..] && start == EncodeChars(bytes[..|bytes| - i])
    modifies three, four
    ensures ret == Encode(bytes)
  {
    hide EncodeChars, GroupChars, Join24;
    ghost var g := bytes[|bytes| - i..];
    for j := i to 3
      invariant three[..i] == g && forall k :: i <= k < j ==> three[k] == 0
    {
      three[j] := 0;
    }
    SplitGroup(three, four);
    assert three[0] == g[0] && three[1] == ByteAt(g, 1) && three[2] == ByteAt(g, 2);
    ret := AppendChars(start, four, i + 1, g);
    assert bytes[|bytes| - i..|bytes|] == g && bytes[..|bytes|] == bytes;
    EncodeMore(bytes, |bytes|, i);
    ret := AppendPadding(ret, i);
  }

  lemma NothingEncoded()
    ensures EncodeChars([]) == []
  {
  }

  method AppendPadding(ret: ByteArray, count: nat) returns (r: ByteArray)
    requires count <= 3
    ensures r == ret + seq(3 - count, _ => PAD)
  {
    r := ret;
    var i := count;
    while i < 3
      invariant count <= i <= 3 && r == ret + seq(i - count, _ => PAD)
    {
      i, r := i + 1, r + [PAD];
    }
  }

  /** Turns the characters in `char_array_4` into sextets and those into `char_array_3`. */
  method JoinGroup(four: array<byte>, three: array<byte>)
    requires three.Length == 3 && four.Length == 4 && three != four
    modifies four, three
    ensures three[..] == ThreeBytes(seq(4, k requires 0 <= k < 4 => Find(old(four[..])[k])))
  {
    hide Find;
    for i := 0 to 4
      invariant forall k :: 0 <= k < i ==> four[k] == Find(old(four[..])[k])
      invariant forall k :: i <= k < 4 ==> four[k] == old(four[..])[k]
    {
      four[i] := Find(four[i]);
    }
    three[0] := Byte0(four[0], four[1]);
    three[1] := Byte1(four[1], four[2]);
    three[2] := Byte2(four[2], four[3]);
  }

  lemma DecodeMore(s: ByteArray, pos: nat, i: nat)
    requires pos <= |s| && 1 <= i <= 4 && i <= pos && (pos - i) % 4 == 0
    ensures DecodeChars(s[..pos]) == DecodeChars(s[..pos - i]) + DecodeGroup(s[pos - i..pos])
  {
    hide DecodeGroup, DecodeChars;
    assert s[..pos] == s[..pos - i] + s[pos - i..pos];
    DecodeStep(s[..pos], s[..pos - i], s[pos - i..pos]);
  }

  /** The bytes of a group that was filled up with zeros, whose `find` is 255. */
  lemma FilledGroup(g: ByteArray, full: ByteArray)
    requires 1 <= |g| <= 4 && |full| == 4
    requires forall k :: 0 <= k < 4 ==> full[k] == if k < |g| then g[k] else 0
    ensures ThreeBytes(seq(4, k requires 0 <= k < 4 => Find(full[k])))[..|g| - 1] == DecodeGroup(g)
  {
    hide ThreeBytes;
    assert Find(0) == 255;
    assert seq(4, k requires 0 <= k < 4 => Find(full[k]))
           == seq(4, k requires 0 <= k < 4 => if k < |g| then Find(g[k]) else 255);
  }

  /** The size is an `int` in the source. */
  method Base64Decode(s: ByteArray) returns (ret: ByteArray)
    requires |s| < 0x8000_0000
    ensures ret == Decode(s)
  {
    hide DecodeChars, DecodeGroup, ThreeBytes, IsBase64, Readable;
    var three, four := new byte[3], new byte[4];
    var i, pos, inLen := 0, 0, |s|;
    ret := [];
    NothingDecoded();
    assert s[..0] == [];
    while inLen > 0 && s[pos] != PAD && IsBase64(s[pos])
      invariant inLen >= 0 && pos + inLen == |s| && 0 <= i < 4 && i <= pos && (pos - i) % 4 == 0
      invariant four[..i] == s[pos - i..pos]
      invariant ret == DecodeChars(s[..pos - i])
      invariant Readable(s, 0) == Readable(s, pos)
    {
      ReadableStep(s, pos);
      inLen := inLen - 1;
      Store(four, i, s, pos);
      i, pos := i + 1, pos + 1;
      if i == 4 {
        ret := DecodeFull(ret, four, three, s, pos);
        i := 0;
      }
    }
    ReadableStep(s, pos);
    if i != 0 {
      ret := DecodeRest(ret, four, three, s, pos, i);
    }
  }

  /** Where the decoder stops: at the padding as well, which is outside the alphabet. */
  lemma ReadableStep(s: ByteArray, pos: nat)
    requires pos <= |s|
    ensures Readable(s, pos) == if pos < |s| && s[pos] != PAD && IsBase64(s[pos]) then Readable(s, pos + 1) else pos
  {
  }

  /** A whole group. */
  method DecodeFull(
      start: ByteArray, four: array<byte>, three: array<byte>, s: ByteArray, pos: nat) returns (ret: ByteArray)
    requires three.Length == 3 && four.Length == 4 && three != four && 4 <= pos <= |s| && (pos - 4) % 4 == 0
    requires four[..4] == s[pos - 4..pos] && start == DecodeChars(s[..pos - 4])
    modifies three, four
    ensures ret == DecodeChars(s[..pos])
  {
    hide DecodeChars, DecodeGroup, ThreeBytes;
    ghost var g := s[pos - 4..pos];
    assert four[..] == four[..4] == g;
    FilledGroup(g, four[..]);
    JoinGroup(four, three);
    ret := start + three[..];
    assert three[..3] == three[..];
    DecodeMore(s, pos, 4);
  }

  /** What is left behind the last whole group; `find` takes the zeros it is filled up with for 255. */
  method DecodeRest(start: ByteArray, four: array<byte>, three: array<byte>, s: ByteArray, pos: nat, i: nat)
    returns (ret: ByteArray)
    requires three.Length == 3 && four.Length == 4 && three != four && 0 < i < 4 && i <= pos <= |s|
             && (pos - i) % 4 == 0
    requires four[..i] == s[pos - i..pos] && start == DecodeChars(s[..pos - i])
    modifies three, four
    ensures ret == DecodeChars(s[..pos])
  {
    hide DecodeChars, DecodeGroup, ThreeBytes;
    ghost var g := s[pos - i..pos];
    for j := i to 4
      invariant four[..i] == g && forall k :: i <= k < j ==> four[k] == 0
    {
      four[j] := 0;
    }
    FilledGroup(g, four[..]);
    JoinGroup(four, three);
    ret := start + three[..i - 1];
    DecodeMore(s, pos, i);
  }

  lemma NothingDecoded()
    ensures DecodeChars([]) == []
  {
  }
}
