/** Searching, splitting and trimming of byte strings: src/utils/StringUtil.cpp. */
module StringUtil {
  import opened Bytes
  import opened Wrappers

  // ---------------------------------------------------------------- searching

  predicate MatchesAt(str: ByteArray, sub: ByteArray, i: nat) {
    i + |sub| <= |str| && str[i..i + |sub|] == sub
  }

  /** The first place in `[from, stop)` where all of `sub` lies inside that interval. */
  function Search(str: ByteArray, sub: ByteArray, from: nat, stop: int): (r: Option<nat>)
    requires |sub| > 0
    ensures r.Some? ==> from <= r.value && r.value + |sub| <= stop
    decreases stop - from
  {
    if from + |sub| > stop then None
    else if MatchesAt(str, sub, from) then Some(from)
    else Search(str, sub, from + 1, stop)
  }

  ghost predicate NoMatch(str: ByteArray, sub: ByteArray, from: nat, stop: int) {
    forall i: nat :: from <= i < stop ==> !MatchesAt(str, sub, i)
  }

  ghost predicate IsFirst(str: ByteArray, sub: ByteArray, from: nat, stop: nat, r: Option<nat>) {
    match r
    case Some(p) => from <= p && p + |sub| <= stop && MatchesAt(str, sub, p) && NoMatch(str, sub, from, p)
    case None => NoMatch(str, sub, from, stop - |sub| + 1)
  }

  lemma {:induction false} SearchFindsFirst(str: ByteArray, sub: ByteArray, from: nat, stop: nat)
    requires |sub| > 0 && stop <= |str|
    ensures IsFirst(str, sub, from, stop, Search(str, sub, from, stop))
    decreases stop - from
  {
    if from + |sub| <= stop && !MatchesAt(str, sub, from) {
      SearchFindsFirst(str, sub, from + 1, stop);
    }
  }

  /** The converse: only one result can be the first match. */
  lemma SearchIs(str: ByteArray, sub: ByteArray, from: nat, stop: nat, r: Option<nat>)
    requires |sub| > 0 && stop <= |str| && IsFirst(str, sub, from, stop, r)
    ensures Search(str, sub, from, stop) == r
  {
    SearchFindsFirst(str, sub, from, stop);
  }

  lemma MatchesLonger(str: ByteArray, all: ByteArray, sub: ByteArray, i: nat)
    requires str <= all && i + |sub| <= |str|
    ensures MatchesAt(all, sub, i) == MatchesAt(str, sub, i)
  {
    assert all[i..i + |sub|] == str[i..i + |sub|];
  }

  /** Looking in the same interval of a longer string gives the same answer. */
  lemma {:induction false} SearchLonger(str: ByteArray, all: ByteArray, sub: ByteArray, from: nat, stop: nat)
    requires |sub| > 0 && str <= all && stop <= |str|
    ensures Search(all, sub, from, stop) == Search(str, sub, from, stop)
    decreases stop - from
  {
    if from + |sub| <= stop {
      MatchesLonger(str, all, sub, from);
      SearchLonger(str, all, sub, from + 1, stop);
    }
  }

  /** A match that was found stays the first one when more bytes are searched. */
  lemma {:induction false} SearchWider(str: ByteArray, all: ByteArray, sub: ByteArray, from: nat, stop: nat, wider: nat)
    requires |sub| > 0 && str <= all && stop <= |str| && stop <= wider <= |all|
    requires Search(str, sub, from, stop).Some?
    ensures Search(all, sub, from, wider) == Search(str, sub, from, stop)
    decreases stop - from
  {
    MatchesLonger(str, all, sub, from);
    if !MatchesAt(str, sub, from) { SearchWider(str, all, sub, from + 1, stop, wider); }
  }

  // ---------------------------------------------------------------- splitting

  /** Both ends count, as in the source; `end` is -1 where the source's `pos - 1` wraps around. */
  datatype Range = Range(start: nat, end: int)

  predicate InRange(r: Range, str: ByteArray) {
    r.start <= r.end + 1 <= |str|
  }

  function Piece(str: ByteArray, r: Range): ByteArray
    requires InRange(r, str)
  {
    str[r.start..r.end + 1]
  }

  /** The pieces of `[from, stop)` between delimiters; nothing follows a delimiter at the very end. */
  function Pieces(str: ByteArray, delimiter: ByteArray, from: nat, stop: nat): (r: seq<Range>)
    requires |delimiter| > 0 && stop <= |str| && from <= stop
    ensures forall k :: 0 <= k < |r| ==> InRange(r[k], str) && from <= r[k].start && r[k].end < stop
    decreases stop - from
  {
    match Search(str, delimiter, from, stop)
    case Some(p) => [Range(from, p - 1)] + Pieces(str, delimiter, p + |delimiter|, stop)
    case None => if from < stop then [Range(from, stop - 1)] else []
  }

  /** What `Split` returns for the inclusive interval `start..end`. */
  function SplitRanges(str: ByteArray, delimiter: ByteArray, start: nat, end: nat): (r: seq<Range>)
    requires |delimiter| > 0 && end < |str| && start <= end + 1
    ensures forall k :: 0 <= k < |r| ==> InRange(r[k], str) && start <= r[k].start && r[k].end <= end
  {
    if end < |delimiter| then [] else Pieces(str, delimiter, start, end + 1)
  }

  lemma {:induction false} PiecesLonger(str: ByteArray, all: ByteArray, delimiter: ByteArray, from: nat, stop: nat)
    requires |delimiter| > 0 && str <= all && from <= stop <= |str|
    ensures Pieces(all, delimiter, from, stop) == Pieces(str, delimiter, from, stop)
    decreases stop - from
  {
    hide Search, MatchesAt;
    SearchLonger(str, all, delimiter, from, stop);
    match Search(str, delimiter, from, stop)
    case Some(p) => PiecesLonger(str, all, delimiter, p + |delimiter|, stop);
    case None =>
  }

  // ---------------------------------------------------------------- trimming and comparing

  /** `" \r\n\t"`. */
  predicate Blank(c: byte) {
    c == SPACE || c == CR || c == LF || c == TAB
  }

  function TrimLeft(s: ByteArray): ByteArray {
    if s != [] && Blank(s[0]) then TrimLeft(s[1..]) else s
  }

  function TrimRight(s: ByteArray): ByteArray {
    if s != [] && Blank(s[|s| - 1]) then TrimRight(s[..|s| - 1]) else s
  }

  function Trim(s: ByteArray): ByteArray {
    TrimLeft(TrimRight(s))
  }

  predicate Trimmed(s: ByteArray) {
    s == [] || (s[0] !in [32, 13, 10, 9] && s[|s| - 1] !in [32, 13, 10, 9])
  }

  predicate AllBlank(s: ByteArray) {
    forall k :: 0 <= k < |s| ==> s[k] == 32 || s[k] == 13 || s[k] == 10 || s[k] == 9
  }

  /** `Trim` takes the blanks off both ends, and nothing else. */
  lemma {:induction false} TrimTakesBlanks(left: ByteArray, s: ByteArray, right: ByteArray)
    requires AllBlank(left) && AllBlank(right) && Trimmed(s)
    ensures Trim(left + s + right) == s
  {
    if s == [] {
      assert AllBlank(left + s + right);
      TrimRightBlank(left + s + right);
    } else {
      TrimRightSuffix(left + s, right);
      assert left + s == left + s;
      TrimLeftPrefix(left, s);
    }
  }

  lemma {:induction false} TrimRightBlank(s: ByteArray)
    requires AllBlank(s)
    ensures TrimRight(s) == []
  {
    if s != [] { TrimRightBlank(s[..|s| - 1]); }
  }

  lemma {:induction false} TrimRightSuffix(s: ByteArray, right: ByteArray)
    requires AllBlank(right) && s != [] && !Blank(s[|s| - 1])
    ensures TrimRight(s + right) == s
  {
    if right == [] {
      assert s + right == s;
    } else {
      assert (s + right)[..|s + right| - 1] == s + right[..|right| - 1];
      TrimRightSuffix(s, right[..|right| - 1]);
    }
  }

  lemma {:induction false} TrimLeftPrefix(left: ByteArray, s: ByteArray)
    requires AllBlank(left) && s != [] && !Blank(s[0])
    ensures TrimLeft(left + s) == s
  {
    if left == [] {
      assert left + s == s;
    } else {
      assert (left + s)[1..] == left[1..] + s;
      TrimLeftPrefix(left[1..], s);
    }
  }

  function ToLower(c: byte): byte {
    if 65 <= c <= 90 then c + 32 else c
  }

  function ToUpper(c: byte): byte {
    if 97 <= c <= 122 then c - 32 else c
  }

  function Lower(s: ByteArray): (r: ByteArray)
    ensures |r| == |s|
  {
    seq(|s|, i requires 0 <= i < |s| => ToLower(s[i]))
  }

  function Upper(s: ByteArray): (r: ByteArray)
    ensures |r| == |s|
  {
    seq(|s|, i requires 0 <= i < |s| => ToUpper(s[i]))
  }

  /** Equality that ignores case. */
  predicate SameName(a: ByteArray, b: ByteArray) {
    Lower(a) == Lower(b)
  }

  /** The same byte, or the same letter in the other case. */
  predicate SameLetter(x: byte, y: byte) {
    x == y || (65 <= x <= 90 && y == x + 32) || (65 <= y <= 90 && x == y + 32)
  }

  predicate SameSpelling(a: ByteArray, b: ByteArray) {
    |a| == |b| && forall k :: 0 <= k < |a| ==> SameLetter(a[k], b[k])
  }

  lemma LowerMeans(x: byte, y: byte)
    ensures ToLower(x) == ToLower(y) <==> SameLetter(x, y)
  {
  }

  /** Texts are the same name exactly when they differ in the case of letters at most. */
  lemma SameNameMeans(a: ByteArray, b: ByteArray)
    ensures SameName(a, b) <==> SameSpelling(a, b)
  {
    hide ToLower, SameLetter;
    if |a| == |b| {
      forall k | 0 <= k < |a| ensures Lower(a)[k] == Lower(b)[k] <==> SameLetter(a[k], b[k]) { LowerMeans(a[k], b[k]); }
    }
  }

  lemma UpperMeans(x: byte, y: byte)
    requires SameLetter(x, y) && 65 <= y <= 90
    ensures ToUpper(x) == y
  {
  }

  /** Capitals are what a spelling of them is turned into. */
  lemma UpperOfSpelling(a: ByteArray, b: ByteArray)
    requires SameSpelling(a, b) && forall k :: 0 <= k < |b| ==> 65 <= b[k] <= 90
    ensures Upper(a) == b
  {
    hide ToUpper, SameLetter;
    forall k | 0 <= k < |a| ensures Upper(a)[k] == b[k] { UpperMeans(a[k], b[k]); }
  }

  // ---------------------------------------------------------------- the loops

  /** Where a search with this `end` argument stops; `None` is the default, `SIZE_MAX`. */
  function Stop(str: ByteArray, end: Option<nat>): nat {
    if end.Some? then end.value + 1 else |str|
  }

  /** The C++ bound `end - |substring| + 1` is unsigned, so the interval has to have room for the
      pattern. */
  method SearchPosition(str: ByteArray, substring: ByteArray, start: nat, end: Option<nat>) returns (r: Option<nat>)
    requires |str| > 0 && |substring| > 0 ==> |substring| <= Stop(str, end) <= |str|
    ensures |str| == 0 || |substring| == 0 ==> r == None
    ensures |str| > 0 && |substring| > 0 ==> r == Search(str, substring, start, Stop(str, end))
  {
    if |str| <= 0 || |substring| <= 0 {
      return None;
    }
    hide MatchesAt;
    var last := if end.Some? then end.value else |str| - 1;
    var pos1 := start;
    while pos1 <= last - |substring| + 1
      invariant start <= pos1
      invariant Search(str, substring, start, last + 1) == Search(str, substring, pos1, last + 1)
    {
      var found := SameAt(str, substring, pos1);
      if found {
        return Some(pos1);
      }
      pos1 := pos1 + 1;
    }
    r := None;
  }

  /** The inner loop of the search. */
  method SameAt(str: ByteArray, substring: ByteArray, pos1: nat) returns (same: bool)
    requires pos1 + |substring| <= |str|
    ensures same == MatchesAt(str, substring, pos1)
  {
    var pos2 := 0;
    while pos2 < |substring|
      invariant pos2 <= |substring| && forall k :: 0 <= k < pos2 ==> str[pos1 + k] == substring[k]
    {
      if str[pos1 + pos2] != substring[pos2] {
        assert str[pos1..pos1 + |substring|][pos2] != substring[pos2];
        return false;
      }
      pos2 := pos2 + 1;
    }
    same := true;
  }

  method Split(str: ByteArray, delimiter: ByteArray, start: nat, end: nat) returns (retval: seq<Range>)
    requires |str| > 0 && |delimiter| > 0 ==> end < |str| && start <= end + 1
    ensures |str| == 0 || |delimiter| == 0 ==> retval == []
    ensures |str| > 0 && |delimiter| > 0 ==> retval == SplitRanges(str, delimiter, start, end)
  {
    retval := [];
    if |str| == 0 || |delimiter| == 0 {
      return;
    }
    if end < |delimiter| {
      return;
    }
    retval := SplitLoop(str, delimiter, start, end);
  }

  method SplitLoop(str: ByteArray, delimiter: ByteArray, start: nat, end: nat) returns (retval: seq<Range>)
    requires |delimiter| > 0 && |delimiter| <= end < |str| && start <= end + 1
    ensures retval == Pieces(str, delimiter, start, end + 1)
  {
    hide Search, MatchesAt, LeftToSplit, Pieces;
    retval := [];
    var from := start;
    ghost var whole := Pieces(str, delimiter, start, end + 1);
    SplitStarts(str, delimiter, start, end + 1);
    while true
      invariant start <= from <= end + 1
      invariant LeftToSplit(str, delimiter, from, end + 1, retval, whole)
      decreases end + 1 - from
    {
      SplitStep(str, delimiter, from, end + 1, retval, whole);
      var pos := SearchPosition(str, delimiter, from, Some(end));
      if pos.None? {
        break;
      }
      var next := pos.value + |delimiter|;
      retval := retval + [Range(from, pos.value - 1)];
      if pos.value >= end - |delimiter| + 1 {
        assert next == end + 1;  // so the source's test for a last piece fails
        SplitStep(str, delimiter, next, end + 1, retval, whole);
        return;
      }
      from := next;
    }
    if from <= end {
      retval := retval + [Range(from, end)];
    }
  }

  /** The loop of `Split`: `done` is out, `[from, stop)` is still to be split. */
  ghost predicate LeftToSplit(
      str: ByteArray, delimiter: ByteArray, from: nat, stop: nat, done: seq<Range>, whole: seq<Range>)
    requires |delimiter| > 0 && from <= stop <= |str|
  {
    whole == done + Pieces(str, delimiter, from, stop)
  }

  lemma SplitStarts(str: ByteArray, delimiter: ByteArray, from: nat, stop: nat)
    requires |delimiter| > 0 && from <= stop <= |str|
    ensures LeftToSplit(str, delimiter, from, stop, [], Pieces(str, delimiter, from, stop))
  {
    hide Pieces;
  }

  lemma SplitStep(str: ByteArray, delimiter: ByteArray, from: nat, stop: nat, done: seq<Range>, whole: seq<Range>)
    requires |delimiter| > 0 && from <= stop <= |str| && LeftToSplit(str, delimiter, from, stop, done, whole)
    ensures match Search(str, delimiter, from, stop) {
              case Some(p) => LeftToSplit(str, delimiter, p + |delimiter|, stop, done + [Range(from, p - 1)], whole)
              case None => whole == if from < stop then done + [Range(from, stop - 1)] else done
            }
  {
    hide Search, MatchesAt;
    match Search(str, delimiter, from, stop)
    case Some(p) =>
      var rest := Pieces(str, delimiter, p + |delimiter|, stop);
      assert done + ([Range(from, p - 1)] + rest) == done + [Range(from, p - 1)] + rest;
    case None =>
  }

  method Compare(a: ByteArray, b: ByteArray) returns (same: bool)
    ensures same == SameName(a, b) == SameSpelling(a, b)
  {
    hide ToLower, SameLetter;
    SameNameMeans(a, b);
    if |a| != |b| {
      return false;
    }
    for i := 0 to |a|
      invariant forall k :: 0 <= k < i ==> ToLower(a[k]) == ToLower(b[k])
    {
      if ToLower(a[i]) != ToLower(b[i]) {
        assert Lower(a)[i] != Lower(b)[i];
        return false;
      }
    }
    same := true;
  }

  method TrimString(str: ByteArray) returns (s: ByteArray)
    ensures s == Trim(str)
  {
    s := str;
    while s != [] && Blank(s[|s| - 1])
      invariant TrimRight(str) == TrimRight(s)
      decreases |s|
    {
      s := s[..|s| - 1];
    }
    while s != [] && Blank(s[0])
      invariant Trim(str) == TrimLeft(s)
      decreases |s|
    {
      s := s[1..];
    }
  }
}
