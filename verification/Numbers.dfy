/** Numbers in text: `String2int` and the calls of `std::stoi` (src/utils/StringUtil.cpp, src/Response.cpp). */
module Numbers {
  import opened Bytes
  import opened HttpHeader
  import opened Wrappers

  /** The value of a digit in any base up to 16, and 99 for anything else. */
  function DigitOf(c: byte): nat {
    if 48 <= c <= 57 then (c - 48) as nat
    else if 65 <= c <= 70 then (c - 55) as nat
    else if 97 <= c <= 102 then (c - 87) as nat
    else 99
  }

  predicate AllOfBase(s: ByteArray, base: nat) {
    forall k :: 0 <= k < |s| ==> DigitOf(s[k]) < base
  }

  /** How many digits `s` starts with. */
  function DigitRun(s: ByteArray, base: nat): (n: nat)
    ensures n <= |s|
  {
    if s == [] || DigitOf(s[0]) >= base then 0 else 1 + DigitRun(s[1..], base)
  }

  function Value(s: ByteArray, base: nat): nat {
    if s == [] then 0 else Value(s[..|s| - 1], base) * base + DigitOf(s[|s| - 1])
  }

  predicate HexPrefix(s: ByteArray) {
    |s| >= 3 && s[0] == 48 && (s[1] == 120 || s[1] == 88) && DigitOf(s[2]) < 16
  }

  /** `std::stoi`: blanks, a sign, perhaps `0x`, digits, and whatever follows; `None` where it throws. */
  function Stoi(str: ByteArray, base: nat): Option<int> {
    var s := SkipSpace(str);
    var signed := s != [] && (s[0] == 43 || s[0] == 45);
    var t := if signed then s[1..] else s;
    var u := if base == 16 && HexPrefix(t) then t[2..] else t;
    var digits := u[..DigitRun(u, base)];
    var v: int := Value(digits, base);
    var n := if signed && s[0] == 45 then -v else v;
    if digits == [] || n < -0x8000_0000 || n > 0x7fff_ffff then None else Some(n)
  }

  lemma {:induction false} DigitRunAll(s: ByteArray, base: nat)
    requires AllOfBase(s, base)
    ensures DigitRun(s, base) == |s|
    decreases |s|
  {
    if s != [] { DigitRunAll(s[1..], base); }
  }

  lemma DigitsAreNoSigns(c: byte)
    requires DigitOf(c) < 16
    ensures !IsSpace(c) && c != 43 && c != 45 && c != 120 && c != 88 && c != CR && c != LF && c != SPACE
  {
  }

  /** Plain digits are read as the number they write. */
  lemma StoiReads(s: ByteArray, base: nat)
    requires (base == 10 || base == 16) && s != [] && AllOfBase(s, base) && Value(s, base) <= 0x7fff_ffff
    ensures Stoi(s, base) == Some(Value(s, base))
  {
    hide DigitOf, Value, IsSpace;
    DigitsAreNoSigns(s[0]);
    if |s| > 1 { DigitsAreNoSigns(s[1]); }
    DigitRunAll(s, base);
    assert s[..|s|] == s;
  }

  // ---------------------------------------------------------------- blanks, sign, digits, and what follows

  /** The digits of bases up to 16. */
  lemma DigitsMean(c: byte)
    ensures 48 <= c <= 57 ==> DigitOf(c) == c as nat - 48
    ensures 65 <= c <= 70 ==> DigitOf(c) == c as nat - 55
    ensures 97 <= c <= 102 ==> DigitOf(c) == c as nat - 87
    ensures DigitOf(c) >= 16 <==> c < 48 || 57 < c < 65 || 70 < c < 97 || 102 < c
    ensures DigitOf(c) < 10 <==> 48 <= c <= 57
  {
  }

  predicate AllSpace(s: ByteArray) {
    forall k :: 0 <= k < |s| ==> 9 <= s[k] <= 13 || s[k] == 32
  }

  predicate Sign(s: ByteArray) {
    s == [] || s == [43] || s == [45]  // + or -
  }

  lemma {:induction false} SkipSpaceSkips(blanks: ByteArray, s: ByteArray)
    requires AllSpace(blanks) && s != [] && !IsSpace(s[0])
    ensures SkipSpace(blanks + s) == s
    decreases |blanks|
  {
    if blanks == [] {
      assert blanks + s == s;
    } else {
      assert (blanks + s)[1..] == blanks[1..] + s;
      SkipSpaceSkips(blanks[1..], s);
    }
  }

  lemma {:induction false} DigitRunStops(digits: ByteArray, junk: ByteArray, base: nat)
    requires AllOfBase(digits, base) && (junk == [] || DigitOf(junk[0]) >= base)
    ensures DigitRun(digits + junk, base) == |digits|
    decreases |digits|
  {
    hide DigitOf;
    if digits == [] {
      assert digits + junk == junk;
    } else {
      assert (digits + junk)[1..] == digits[1..] + junk;
      DigitRunStops(digits[1..], junk, base);
    }
  }

  /** What `std::stoi` reads of a number that stands between blanks and anything else: the digits up to the
      first character that is none, with their sign, if an `int` can hold it. */
  lemma StoiReadsFirst(blanks: ByteArray, sign: ByteArray, digits: ByteArray, junk: ByteArray, base: nat)
    requires AllSpace(blanks) && Sign(sign) && digits != [] && (base == 10 || base == 16) && AllOfBase(digits, base)
    requires junk == [] || (DigitOf(junk[0]) >= base && junk[0] != 120 && junk[0] != 88)  // no 0x
    ensures var v: int := Value(digits, base);
            var n := if sign == [45] then -v else v;
            Stoi(blanks + (sign + (digits + junk)), base) == if -0x8000_0000 <= n <= 0x7fff_ffff then Some(n) else None
  {
    hide Value, SkipSpace, HexPrefix, DigitOf, IsSpace;
    var t := digits + junk;
    DigitStarts(t, digits, junk, base);
    SignSplits(sign, t);
    SkipSpaceSkips(blanks, sign + t);
    DigitRunStops(digits, junk, base);
    assert t[..|digits|] == digits;
  }

  /** In base 16 the digits may stand behind `0x` or `0X`. */
  lemma StoiReadsPrefixed(
    blanks: ByteArray, sign: ByteArray, x: byte, digits: ByteArray, junk: ByteArray)
    requires AllSpace(blanks) && Sign(sign) && (x == 120 || x == 88) && digits != [] && AllOfBase(digits, 16)
    requires junk == [] || DigitOf(junk[0]) >= 16
    ensures var v: int := Value(digits, 16);
            var n := if sign == [45] then -v else v;
            Stoi(blanks + (sign + ([48, x] + (digits + junk))), 16)
            == if -0x8000_0000 <= n <= 0x7fff_ffff then Some(n) else None
  {
    hide Value, SkipSpace, IsSpace;
    var u := digits + junk;
    var t := [48, x] + u;
    assert u[0] == digits[0] && t[2..] == u;
    hide DigitOf;
    SignSplits(sign, t);
    SkipSpaceSkips(blanks, sign + t);
    DigitRunStops(digits, junk, 16);
    assert u[..|digits|] == digits;
  }

  lemma DigitStarts(t: ByteArray, digits: ByteArray, junk: ByteArray, base: nat)
    requires t == digits + junk && digits != [] && base <= 16 && AllOfBase(digits, base)
    requires junk == [] || (junk[0] != 120 && junk[0] != 88)
    ensures t != [] && DigitOf(t[0]) < 16 && !HexPrefix(t)
  {
    hide DigitOf, IsSpace;
    if |digits| > 1 { DigitsAreNoSigns(t[1]); }
  }

  lemma SignSplits(sign: ByteArray, t: ByteArray)
    requires Sign(sign) && t != [] && DigitOf(t[0]) < 16
    ensures var s := sign + t;
            && !IsSpace(s[0]) && (s[0] == 43 || s[0] == 45 <==> sign != []) && (s[0] == 45 <==> sign == [45])
            && (if sign == [] then s else s[1..]) == t
  {
    DigitsAreNoSigns(t[0]);
    assert sign != [] ==> (sign + t)[1..] == t;
    assert sign == [] ==> sign + t == t;
  }

  lemma {:induction false} DecimalIsValue(s: ByteArray)
    requires AllDigits(s)
    ensures Decimal(s) == Value(s, 10) && AllOfBase(s, 10)
  {
    if s != [] {
      DecimalIsValue(s[..|s| - 1]);
      DigitsMean(s[|s| - 1]);
    }
  }

  /** What `std::stoull` makes of a length: digits with a sign, the whole text, modulo 2^64 where the sign is
      a minus. */
  lemma UintReads(blanks: ByteArray, sign: ByteArray, digits: ByteArray)
    requires AllSpace(blanks) && Sign(sign) && digits != [] && AllDigits(digits)
    ensures var v := Value(digits, 10);
            ParseUint64(blanks + (sign + digits))
            == if v >= TWO_64 then None else Some(if sign == [45] then (TWO_64 - v) % TWO_64 else v)
  {
    hide Value, Decimal, SkipSpace;
    var s := sign + digits;
    SkipSpaceSkips(blanks, s);
    assert sign != [] ==> s[1..] == digits;
    assert sign == [] ==> s == digits;
    DecimalIsValue(digits);
  }

  /** Anything behind the digits makes the length unreadable. */
  lemma UintRefuses(blanks: ByteArray, sign: ByteArray, digits: ByteArray, junk: ByteArray)
    requires AllSpace(blanks) && Sign(sign) && digits != [] && AllDigits(digits)
    requires junk != [] && !(48 <= junk[0] <= 57)
    ensures ParseUint64(blanks + (sign + (digits + junk))) == None
  {
    hide Decimal, SkipSpace;
    var t := digits + junk;
    var s := sign + t;
    SkipSpaceSkips(blanks, s);
    assert sign != [] ==> s[1..] == t;
    assert sign == [] ==> s == t;
    assert t[|digits|] == junk[0];
  }

  // ---------------------------------------------------------------- decimal text

  function DigitText(d: nat): byte
    requires d < 10
  {
    48 + CountTo(d)
  }

  /** `std::to_string` of a non-negative number. */
  function ToText(n: nat): (s: ByteArray)
    ensures s != []
  {
    if n < 10 then [DigitText(n)] else ToText(n / 10) + [DigitText(n % 10)]
  }

  lemma DigitTextReads(d: nat)
    requires d < 10
    ensures DigitOf(DigitText(d)) == d
  {
    CountToIs(d);
    var c := CountTo(d);
    assert c <= 9 by { assert c as nat <= 9; }
    assert 48 + c - 48 == c;
  }

  lemma {:induction false} ToTextReads(n: nat)
    ensures AllOfBase(ToText(n), 10) && Value(ToText(n), 10) == n
  {
    hide DigitOf, DigitText;
    if n < 10 {
      DigitTextReads(n);
      assert [DigitText(n)][..0] == [];
      assert Value([DigitText(n)][..0], 10) == 0;
    } else {
      ToTextReads(n / 10);
      DigitTextReads(n % 10);
      var s := ToText(n);
      assert s[..|s| - 1] == ToText(n / 10);
    }
  }

  /** A printed length is read back. */
  lemma LengthReads(n: nat)
    requires n < TWO_64
    ensures ParseUint64(ToText(n)) == Some(n)
  {
    hide ToText, ParseUint64;
    ToTextReads(n);
    var s := ToText(n);
    forall k | 0 <= k < |s| ensures 48 <= s[k] <= 57 { DigitsMean(s[k]); }
    UintReads([], [], s);
    assert [] + ([] + s) == s;
  }
}
