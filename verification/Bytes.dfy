/** Bytes, and the few character codes the library looks for. */
module Bytes {

  type byte = bv8
  type ByteArray = seq<byte>

  const CR: byte := 13
  const LF: byte := 10
  const TAB: byte := 9
  const SPACE: byte := 32
  const COLON: byte := 58

  // ---------------------------------------------------------------- bytes as numbers

  /** The byte reached by counting up from zero. */
  function CountTo(n: nat): byte {
    if n == 0 then 0 else CountTo(n - 1) + 1
  }

  lemma Successor(b: byte)
    requires b < 255
    ensures (b + 1) as nat == b as nat + 1
  {
  }

  lemma ByteRoundTrip(b: byte)
    ensures (b as nat) as byte == b && b as nat < 256
  {
  }

  lemma {:induction false} CountToIs(n: nat)
    requires n < 256
    ensures CountTo(n) as nat == n
  {
    if n > 0 {
      CountToIs(n - 1);
      assert CountTo(n - 1) as nat < 255;
      assert CountTo(n - 1) < 255;
      Successor(CountTo(n - 1));
    }
  }

  lemma ByteOfInt(n: nat)
    requires n < 256
    ensures (n as byte) as nat == n
  {
    CountToIs(n);
    ByteRoundTrip(CountTo(n));
  }

  // ---------------------------------------------------------------- bytes as text

  function CharFor(b: byte): char {
    b as int as char
  }

  /** A byte string, read as ASCII. */
  function Text(s: ByteArray): (t: string)
    ensures |t| == |s|
  {
    seq(|s|, i requires 0 <= i < |s| => CharFor(s[i]))
  }

  lemma TextConcat(a: ByteArray, b: ByteArray)
    ensures Text(a + b) == Text(a) + Text(b)
  {
  }

  /** The codes the library's own texts are written in. */
  lemma Ascii()
    ensures CharFor(13) == '\r' && CharFor(10) == '\n' && CharFor(9) == '\t'
    ensures CharFor(32) == ' ' && CharFor(35) == '#' && CharFor(42) == '*' && CharFor(43) == '+'
    ensures CharFor(45) == '-' && CharFor(46) == '.' && CharFor(47) == '/' && CharFor(48) == '0'
    ensures CharFor(49) == '1' && CharFor(50) == '2' && CharFor(51) == '3' && CharFor(52) == '4'
    ensures CharFor(53) == '5' && CharFor(54) == '6' && CharFor(55) == '7' && CharFor(56) == '8'
    ensures CharFor(57) == '9' && CharFor(58) == ':' && CharFor(61) == '=' && CharFor(63) == '?'
    ensures CharFor(65) == 'A' && CharFor(66) == 'B' && CharFor(67) == 'C' && CharFor(68) == 'D'
    ensures CharFor(69) == 'E' && CharFor(70) == 'F' && CharFor(71) == 'G' && CharFor(72) == 'H'
    ensures CharFor(73) == 'I' && CharFor(74) == 'J' && CharFor(75) == 'K' && CharFor(76) == 'L'
    ensures CharFor(77) == 'M' && CharFor(78) == 'N' && CharFor(79) == 'O' && CharFor(80) == 'P'
    ensures CharFor(81) == 'Q' && CharFor(82) == 'R' && CharFor(83) == 'S' && CharFor(84) == 'T'
    ensures CharFor(85) == 'U' && CharFor(86) == 'V' && CharFor(87) == 'W' && CharFor(88) == 'X'
    ensures CharFor(89) == 'Y' && CharFor(90) == 'Z' && CharFor(97) == 'a' && CharFor(98) == 'b'
    ensures CharFor(99) == 'c' && CharFor(100) == 'd' && CharFor(101) == 'e' && CharFor(102) == 'f'
    ensures CharFor(103) == 'g' && CharFor(104) == 'h' && CharFor(105) == 'i' && CharFor(106) == 'j'
    ensures CharFor(107) == 'k' && CharFor(108) == 'l' && CharFor(109) == 'm' && CharFor(110) == 'n'
    ensures CharFor(111) == 'o' && CharFor(112) == 'p' && CharFor(113) == 'q' && CharFor(114) == 'r'
    ensures CharFor(115) == 's' && CharFor(116) == 't' && CharFor(117) == 'u' && CharFor(118) == 'v'
    ensures CharFor(119) == 'w' && CharFor(120) == 'x' && CharFor(121) == 'y' && CharFor(122) == 'z'
  {
  }
}
