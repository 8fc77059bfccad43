/** Printing a request and parsing it again: `Request::Send` against `Request::Parse`
    (src/Request.cpp). */
module RequestText {
  import opened Bytes
  import opened HttpHeaderText
  import opened Numbers
  import opened Request
  import opened StringUtil
  import opened Wrappers
  import HttpHeader

  /** A target without a query or a fragment, and nothing that would break the line. */
  predicate PlainPath(path: ByteArray) {
    OneLine(path) && Free(path, SPACE) && Free(path, QUESTION) && Free(path, HASH)
  }

  predicate PlainVersion(version: ByteArray) {
    OneLine(version) && Free(version, SPACE) && Trimmed(version)
  }

  predicate PlainLine(r: State) {
    Named(r.verb) && PlainPath(r.path) && PlainVersion(r.version)
  }

  predicate PlainHeader(h: HttpHeader.State) {
    AllPrintable(h.fields) && h.chunkedSize == 0
  }

  // ---------------------------------------------------------------- the three parts of the line

  lemma NameIsPlain(m: Method)
    requires Named(m)
    ensures Upper(MethodName(m)) == MethodName(m) && MethodOf(MethodName(m)) == m
    ensures OneLine(MethodName(m)) && Free(MethodName(m), SPACE)
  {
    var n := MethodName(m);
    assert forall k :: 0 <= k < |n| ==> 65 <= n[k] <= 90;
    assert forall k :: 0 <= k < |n| ==> ToUpper(n[k]) == n[k];
    assert Upper(n) == n;
  }

  lemma NotFound(s: ByteArray, c: byte)
    requires Free(s, c)
    ensures Search(s, [c], 0, |s|) == None
  {
    forall i: nat | i < |s| ensures !MatchesAt(s, [c], i) { MatchOne(s, c, i); }
    SearchIs(s, [c], 0, |s|, None);
  }

  lemma PathIsWhole(path: ByteArray)
    requires PlainPath(path)
    ensures PathOf(Normalized(path)) == Normalized(path) && PlainPath(Normalized(path))
  {
    var url := Normalized(path);
    assert forall k :: 0 <= k < |url| ==> url[k] == SLASH || url[k] in path;
    NotFound(url, QUESTION);
    NotFound(url, HASH);
  }

  lemma FoundFirst(s: ByteArray, before: ByteArray, c: byte, behind: ByteArray)
    requires s == before + [c] + behind && Free(before, c)
    ensures Search(s, [c], 0, |s|) == Some(|before|)
  {
    MatchOne(s, c, |before|);
    forall i: nat | i < |before| ensures !MatchesAt(s, [c], i) {
      MatchOne(s, c, i);
      assert s[i] == before[i];
    }
    SearchIs(s, [c], 0, |s|, Some(|before|));
  }

  /** What precedes the first question mark of a target is its path, whatever follows. */
  lemma PathEndsAtQuery(path: ByteArray, query: ByteArray)
    requires Free(path, 63)
    ensures PathOf(path + [63] + query) == path
  {
    hide Search, MatchesAt;
    FoundFirst(path + [63] + query, path, 63, query);
  }

  /** Without a question mark, what precedes the first number sign is. */
  lemma PathEndsAtFragment(path: ByteArray, fragment: ByteArray)
    requires Free(path, 63) && Free(path, 35) && Free(fragment, 63)
    ensures PathOf(path + [35] + fragment) == path
  {
    hide Search, MatchesAt;
    var url := path + [35] + fragment;
    NotFound(url, 63);
    FoundFirst(url, path, 35, fragment);
  }

  /** Splitting off the piece before the next space. */
  lemma SpaceAt(data: ByteArray, at: nat, part: ByteArray, stop: nat)
    requires at + |part| < stop <= |data| && data[at..at + |part|] == part && data[at + |part|] == SPACE
             && Free(part, SPACE)
    ensures var end := at + |part|;
            Pieces(data, [SPACE], at, stop) == [Range(at, end - 1)] + Pieces(data, [SPACE], end + 1, stop)
    ensures Piece(data, Range(at, at + |part| - 1)) == part
  {
    hide MatchesAt, Search;
    var end := at + |part|;
    MatchOne(data, SPACE, end);
    forall i: nat | at <= i < end ensures !MatchesAt(data, [SPACE], i) {
      MatchOne(data, SPACE, i);
      assert data[i] == part[i - at];
    }
    SearchIs(data, [SPACE], at, stop, Some(end));
  }

  lemma NoSpace(data: ByteArray, at: nat, stop: nat)
    requires at < stop <= |data| && Free(data[at..stop], SPACE)
    ensures Pieces(data, [SPACE], at, stop) == [Range(at, stop - 1)]
  {
    hide MatchesAt, Search;
    forall i: nat | at <= i < stop ensures !MatchesAt(data, [SPACE], i) {
      MatchOne(data, SPACE, i);
      assert data[i] == data[at..stop][i - at];
    }
    SearchIs(data, [SPACE], at, stop, None);
  }

  lemma FirstBreak(line: ByteArray, rest: ByteArray)
    requires OneLine(line)
    ensures Search(line + HttpHeader.CRLF + rest, HttpHeader.CRLF, 0, |line + HttpHeader.CRLF + rest|) == Some(|line|)
  {
    hide MatchesAt;
    var data := line + HttpHeader.CRLF + rest;
    MatchTwo(data, |line|);
    forall i: nat | i < |line| ensures !MatchesAt(data, HttpHeader.CRLF, i) { MatchTwo(data, i); }
    SearchIs(data, HttpHeader.CRLF, 0, |data|, Some(|line|));
  }

  function ThreeParts(m: ByteArray, p: ByteArray, v: ByteArray): ByteArray {
    m + [SPACE] + p + [SPACE] + v
  }

  lemma SlicesOfLine(m: ByteArray, p: ByteArray, v: ByteArray)
    ensures var line, at1, at2 := ThreeParts(m, p, v), |m| + 1, |m| + |p| + 2;
            && |line| == at2 + |v|
            && line[0..|m|] == m && line[|m|] == SPACE && line[at1..at1 + |p|] == p && line[at1 + |p|] == SPACE
            && line[at2..] == v
  {
  }

  lemma SliceOfPrefix(data: ByteArray, line: ByteArray, i: nat, j: nat)
    requires line <= data && i <= j <= |line|
    ensures data[i..j] == line[i..j]
  {
  }

  lemma PartsOfLine(data: ByteArray, m: ByteArray, p: ByteArray, v: ByteArray)
    requires Free(m, SPACE) && Free(p, SPACE) && Free(v, SPACE) && |m| > 0
    requires ThreeParts(m, p, v) + [CR] <= data
    ensures var ranges := SplitRanges(data, [SPACE], 0, |ThreeParts(m, p, v)|);
            |ranges| == 3 && Piece(data, ranges[0]) == m && Piece(data, ranges[1]) == p
              && Piece(data, ranges[2]) == v + [CR]
  {
    hide MatchesAt, Search, Pieces, ThreeParts;
    var line := ThreeParts(m, p, v);
    var pos, at1, at2 := |line|, |m| + 1, |m| + |p| + 2;
    SlicesOfLine(m, p, v);
    assert line <= data && data[pos] == CR by { assert (line + [CR])[pos] == CR; }
    SliceOfPrefix(data, line, 0, |m|);
    SliceOfPrefix(data, line, at1, at1 + |p|);
    SliceOfPrefix(data, line, at2, pos);
    assert data[at2..pos + 1] == v + [CR];
    SpaceAt(data, 0, m, pos + 1);
    SpaceAt(data, at1, p, pos + 1);
    NoSpace(data, at2, pos + 1);
  }

  // ---------------------------------------------------------------- lines that are refused

  /** Words with a space between any two. */
  function Spaced(words: seq<ByteArray>): ByteArray
    requires words != []
  {
    if |words| == 1 then words[0] else words[0] + [SPACE] + Spaced(words[1..])
  }

  predicate Words(words: seq<ByteArray>) {
    forall k :: 0 <= k < |words| ==> OneLine(words[k]) && Free(words[k], SPACE)
  }

  lemma {:induction false} SpacedIsOneLine(words: seq<ByteArray>)
    requires words != [] && Words(words)
    ensures OneLine(Spaced(words))
    decreases |words|
  {
    if |words| > 1 { SpacedIsOneLine(words[1..]); }
  }

  /** The carriage return behind the line belongs to the last word. */
  lemma {:induction false} WordsAreSplit(data: ByteArray, at: nat, words: seq<ByteArray>)
    requires words != [] && Words(words) && at <= |data| && Spaced(words) + [CR] <= data[at..]
    ensures at + |Spaced(words)| + 1 <= |data|
    ensures |Pieces(data, [SPACE], at, at + |Spaced(words)| + 1)| == |words|
    ensures |words| > 1 ==> Piece(data, Pieces(data, [SPACE], at, at + |Spaced(words)| + 1)[0]) == words[0]
    decreases |words|
  {
    hide Pieces, MatchesAt, Search, Piece;
    var stop, line := at + |Spaced(words)| + 1, Spaced(words) + [CR];
    forall k: nat | k < |line| ensures data[at + k] == line[k] { assert data[at..][k] == line[k]; }
    if |words| == 1 {
      assert data[at..stop] == line;
      NoSpace(data, at, stop);
    } else {
      var n, tail := |words[0]|, Spaced(words[1..]);
      assert line == words[0] + ([SPACE] + (tail + [CR]));
      assert data[at..at + n] == words[0];
      assert data[at + n] == SPACE;
      SpaceAt(data, at, words[0], stop);
      assert data[at + n + 1..][..|tail| + 1] == tail + [CR];
      WordsAreSplit(data, at + n + 1, words[1..]);
    }
  }

  /** A line of another number of words than three is no request line, and a word that spells no method
      makes it a bad one. With `LineParses`, these are all lines of words. */
  lemma LineNeedsThreeWords(words: seq<ByteArray>, rest: ByteArray)
    requires words != [] && Words(words) && Spaced(words) != []
    ensures |words| != 3 ==> ParsedLine(Spaced(words) + HttpHeader.CRLF + rest) == NoLine
    ensures |words| == 3 && (forall verb | Named(verb) :: !SameSpelling(words[0], MethodName(verb))) ==>
              ParsedLine(Spaced(words) + HttpHeader.CRLF + rest) == BadMethod
  {
    hide MatchesAt, Search, Pieces, Spaced, MethodOf, Upper, PathOf, Trim, MethodName, SameSpelling;
    var line := Spaced(words);
    var data := line + HttpHeader.CRLF + rest;
    SpacedIsOneLine(words);
    FirstBreak(line, rest);
    assert line + [CR] <= data[0..];
    WordsAreSplit(data, 0, words);
    if forall verb | Named(verb) :: !SameSpelling(words[0], MethodName(verb)) { SpellsNoMethod(words[0]); }
  }

  lemma SpelledAsMethod(m: ByteArray)
    requires MethodOf(Upper(m)) != Undefined
    ensures Named(MethodOf(Upper(m))) && SameSpelling(m, MethodName(MethodOf(Upper(m))))
  {
    hide MethodName, ToUpper;
    var n := Upper(m);
    forall k | 0 <= k < |m| ensures SameLetter(m[k], n[k]) { UpperIsSameLetter(m[k]); }
  }

  lemma SpellsNoMethod(m: ByteArray)
    requires forall verb | Named(verb) :: !SameSpelling(m, MethodName(verb))
    ensures MethodOf(Upper(m)) == Undefined
  {
    hide MethodName, MethodOf, Upper, SameSpelling;
    if MethodOf(Upper(m)) != Undefined { SpelledAsMethod(m); }
  }

  lemma UpperIsSameLetter(c: byte)
    ensures SameLetter(c, ToUpper(c))
  {
  }

  // ---------------------------------------------------------------- round trip

  /** A method in any spelling. */
  lemma SpelledMethod(m: ByteArray, verb: Method)
    requires Named(verb) && SameSpelling(m, MethodName(verb))
    ensures MethodOf(Upper(m)) == verb && OneLine(m) && Free(m, SPACE) && |m| > 0
  {
    hide MethodOf, Upper;
    var n := MethodName(verb);
    NameIsPlain(verb);
    assert forall k :: 0 <= k < |n| ==> 65 <= n[k] <= 90;
    UpperOfSpelling(m, n);
    forall k | 0 <= k < |m| ensures m[k] != CR && m[k] != LF && m[k] != SPACE { LettersAreVisible(m[k], n[k]); }
  }

  lemma LettersAreVisible(x: byte, y: byte)
    requires SameLetter(x, y) && 65 <= y <= 90
    ensures x != CR && x != LF && x != SPACE
  {
  }

  /** A request line with its method in any spelling and any target: the path is what `Url` takes out of
      the target. */
  lemma LineParses(m: ByteArray, verb: Method, target: ByteArray, version: ByteArray, rest: ByteArray)
    requires Named(verb) && SameSpelling(m, MethodName(verb)) && PlainVersion(version)
    requires OneLine(target) && Free(target, SPACE)
    ensures ParsedLine(ThreeParts(m, target, version) + HttpHeader.CRLF + rest)
         == Line(verb, PathOf(target), version, |ThreeParts(m, target, version)|)
  {
    hide MatchesAt, Search, Pieces, PathOf, Trim, MethodOf, MethodName, Upper, SplitRanges, SameSpelling;
    SpelledMethod(m, verb);
    var line := ThreeParts(m, target, version);
    var data := line + HttpHeader.CRLF + rest;
    assert OneLine(line);
    FirstBreak(line, rest);
    assert line + [CR] <= data;
    PartsOfLine(data, m, target, version);
    assert Trim(version + [CR]) == version by {
      TrimTakesBlanks([], version, [CR]);
      assert [] + version + [CR] == version + [CR];
    }
  }

  lemma LineRoundTrip(verb: Method, path: ByteArray, version: ByteArray, rest: ByteArray)
    requires Named(verb) && PlainPath(path) && PlainVersion(version)
    ensures ParsedLine(PrintLine(verb, path, version) + rest)
         == Line(verb, Normalized(path), version, |PrintLine(verb, path, version)| - 2)
  {
    hide PathOf, MethodName, Normalized, ParsedLine;
    PathIsWhole(path);
    var m, p := MethodName(verb), Normalized(path);
    assert SameSpelling(m, m);
    LineParses(m, verb, p, version, rest);
    assert PrintLine(verb, path, version) + rest == ThreeParts(m, p, version) + HttpHeader.CRLF + rest;
  }

  lemma NameNotEmpty(m: Method)
    requires Named(m)
    ensures |MethodName(m)| > 0
  {
  }

  /** What is parsed of a printed request, whatever follows. */
  lemma RequestParses(r: State, rest: ByteArray)
    requires PlainLine(r) && PlainHeader(r.header) && r.header.fields != []
    ensures var q := Parsed(FRESH, Print(r) + rest);
            && Complete(q) && q.verb == r.verb && q.path == Normalized(r.path) && q.version == r.version
            && q.header.fields == SetAll([], r.header.fields) && q.header.chunkedSize == 0
            && q.lineLength + 2 + q.header.headerSize + 4 == |Print(r)|
  {
    hide HttpHeader.Parsed, HttpHeader.Print, ParsedLine, PrintLine, SetAll;
    var line := PrintLine(r.verb, r.path, r.version);
    var tail := HttpHeader.Print(r.header.fields) + HttpHeader.CRLF + rest;
    var data := Print(r) + rest;
    assert data == line + tail;
    LineRoundTrip(r.verb, r.path, r.version, tail);
    assert |line| >= 4 by { LineLength(r.verb, r.path, r.version); }
    HeaderParses(HttpHeader.FRESH, line, r.header.fields, rest);
    assert data == line + HttpHeader.Print(r.header.fields) + HttpHeader.CRLF + rest;
    assert |HttpHeader.Print(r.header.fields)| >= 2 by { PrintFirst(r.header.fields); }
  }

  /** What `Send` prints is what `Parse` reads, whatever follows: the same method, path, version and
      headers, in order, and a size that is the number of bytes printed (and of the body, where a
      Content-Length announces one). */
  lemma RequestRoundTrip(r: State, rest: ByteArray)
    requires PlainLine(r) && PlainHeader(r.header) && r.header.fields != [] && HttpHeader.DistinctNames(r.header.fields)
    ensures var q := Parsed(FRESH, Print(r) + rest);
            && Complete(q) && q.verb == r.verb && q.path == Normalized(r.path) && q.version == r.version
            && q.header.fields == r.header.fields
            && Size(q) == (|Print(r)| + HttpHeader.BodySize(q.header)) % HttpHeader.TWO_64
  {
    hide Parsed, Print, HttpHeader.BodySize, HttpHeader.DistinctNames, SetAll;
    RequestParses(r, rest);
    assert [] + r.header.fields == r.header.fields;
    SetAllDistinct([], r.header.fields);
  }

  /** A body that the first Content-Length announces is waited for, and belongs to the request. */
  lemma BodyIsCounted(r: State, n: nat, body: ByteArray)
    requires PlainLine(r) && PlainHeader(r.header) && r.header.fields != []
    requires HttpHeader.First(r.header.fields, HttpHeader.CONTENT_LENGTH) == Some(ToText(n))
    requires |Print(r)| + n < HttpHeader.TWO_64
    ensures var opening := Opening(Print(r) + body);
            if |body| < n then opening == None else opening.Some? && opening.value.1 == |Print(r)| + n
  {
    hide Parsed, Print, SetAll, HttpHeader.First, HttpHeader.Get, HttpHeader.ParseUint64, ToText;
    RequestParses(r, body);
    SetAllIsFirst([], r.header.fields, HttpHeader.CONTENT_LENGTH);
    assert [] + r.header.fields == r.header.fields;
    HttpHeader.GetIsFirst(SetAll([], r.header.fields), HttpHeader.CONTENT_LENGTH);
    LengthReads(n);
  }

  lemma LineLength(verb: Method, path: ByteArray, version: ByteArray)
    requires Named(verb)
    ensures |PrintLine(verb, path, version)| >= 4
  {
    NameNotEmpty(verb);
  }

  /** Without a header there is nothing to end the request: it is never complete. */
  lemma NoFieldsNoRequest(r: State)
    requires PlainLine(r) && r.header.fields == []
    ensures !Complete(Parsed(FRESH, Print(r)))
  {
    hide HttpHeader.Parsed, ParsedLine, PrintLine;
    var line := PrintLine(r.verb, r.path, r.version);
    var tail := HttpHeader.Print([]) + HttpHeader.CRLF;
    assert Print(r) == line + tail;
    LineRoundTrip(r.verb, r.path, r.version, tail);
    NoFieldsNoHeader(line);
    assert line + HttpHeader.Print([]) + HttpHeader.CRLF == line + tail;
  }
}
