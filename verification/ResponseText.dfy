/** Printed responses and coded bodies against `Response::Parse` (src/Response.cpp). */
module ResponseText {
  import opened Bytes
  import opened HttpHeaderText
  import opened Numbers
  import opened Response
  import opened StringUtil
  import opened Wrappers
  import HttpHeader
  import RequestText

  // ---------------------------------------------------------------- chunked bodies

  /** A chunk, with its size written in hexadecimal as `text`. */
  datatype Chunk = Chunk(text: ByteArray, data: ByteArray)

  predicate Coded(c: Chunk) {
    c.text != [] && AllOfBase(c.text, 16) && Value(c.text, 16) == |c.data| < 0x8000_0000
  }

  predicate AllCoded(chunks: seq<Chunk>) {
    forall k :: 0 <= k < |chunks| ==> Coded(chunks[k])
  }

  /** Section 7.1 of RFC 9112, without extensions and trailers. */
  function CodeChunk(c: Chunk): ByteArray {
    c.text + HttpHeader.CRLF + c.data + HttpHeader.CRLF
  }

  function CodeChunks(chunks: seq<Chunk>): ByteArray {
    if chunks == [] then [] else CodeChunk(chunks[0]) + CodeChunks(chunks[1..])
  }

  function ChunkData(chunks: seq<Chunk>): ByteArray {
    if chunks == [] then [] else chunks[0].data + ChunkData(chunks[1..])
  }

  lemma SizeHasNoBreak(text: ByteArray)
    requires AllOfBase(text, 16)
    ensures Free(text, CR) && Free(text, LF)
  {
    forall k | 0 <= k < |text| ensures text[k] != CR && text[k] != LF { DigitsAreNoSigns(text[k]); }
  }

  /** The pieces of one chunk in the buffer. */
  lemma ChunkAt(data: ByteArray, start: nat, c: Chunk, tail: ByteArray)
    requires start <= |data| && data[start..] == CodeChunk(c) + tail
    ensures var pos := start + |c.text|; var end := pos + 2 + |c.data|;
            && end + 2 <= |data| && data[start..pos] == c.text && data[pos] == CR && data[pos + 1] == LF
            && data[pos + 2..end] == c.data && data[end + 2..] == tail
  {
    var s, n, m := data[start..], |c.text|, |c.data|;
    assert s == c.text + HttpHeader.CRLF + c.data + HttpHeader.CRLF + tail;
    assert s[..n] == c.text && s[n] == CR && s[n + 1] == LF && s[n + 2..n + 2 + m] == c.data && s[n + m + 4..] == tail;
    assert data[start..start + n] == s[..n] && data[start + n] == s[n] && data[start + n + 1] == s[n + 1];
    assert data[start + n + 2..start + n + 2 + m] == s[n + 2..n + 2 + m] && data[start + n + m + 4..] == s[n + m + 4..];
  }

  lemma SizeLineEnds(data: ByteArray, start: nat, text: ByteArray)
    requires AllOfBase(text, 16) && start + |text| + 2 <= |data|
    requires data[start..start + |text|] == text && data[start + |text|] == CR && data[start + |text| + 1] == LF
    ensures Search(data, HttpHeader.CRLF, start, |data|) == Some(start + |text|)
  {
    hide MatchesAt, Search, DigitOf;
    var pos := start + |text|;
    SizeHasNoBreak(text);
    MatchTwo(data, pos);
    forall i: nat | start <= i < pos ensures !MatchesAt(data, HttpHeader.CRLF, i) {
      MatchTwo(data, i);
      assert data[i] == text[i - start];
    }
    SearchIs(data, HttpHeader.CRLF, start, |data|, Some(pos));
  }

  lemma OneChunk(data: ByteArray, start: nat, c: Chunk, tail: ByteArray, limit: nat, done: ByteArray)
    requires Coded(c) && start <= |data| && data[start..] == CodeChunk(c) + tail
    requires start + |CodeChunk(c)| <= limit <= |data|
    ensures Dechunked(data, start, limit, done) == Dechunked(data, start + |CodeChunk(c)|, limit, done + c.data)
  {
    hide MatchesAt, Search, Stoi, AllOfBase, Value;
    ChunkAt(data, start, c, tail);
    SizeLineEnds(data, start, c.text);
    StoiReads(c.text, 16);
  }

  lemma NothingLeft(data: ByteArray, start: nat, done: ByteArray)
    requires start <= |data|
    ensures Dechunked(data, start, start, done) == Decoded(done)
  {
  }

  /** Whole chunks are decoded, whatever comes behind them. */
  lemma {:induction false} ChunksFrom(
    data: ByteArray, start: nat, chunks: seq<Chunk>, tail: ByteArray, limit: nat, done: ByteArray)
    requires AllCoded(chunks) && start <= |data| && data[start..] == CodeChunks(chunks) + tail
    requires start + |CodeChunks(chunks)| <= limit <= |data|
    ensures Dechunked(data, start, limit, done)
         == Dechunked(data, start + |CodeChunks(chunks)|, limit, done + ChunkData(chunks))
    decreases |chunks|
  {
    hide CodeChunk, Coded, Dechunked;
    if chunks == [] {
      assert done + [] == done;
    } else {
      var c, rest := chunks[0], chunks[1..];
      var more := CodeChunks(rest) + tail;
      assert data[start..] == CodeChunk(c) + more;
      var next := start + |CodeChunk(c)|;
      assert data[next..] == data[start..][|CodeChunk(c)|..] == more;
      OneChunk(data, start, c, more, limit, done);
      ChunksFrom(data, next, rest, tail, limit, done + c.data);
      assert done + c.data + ChunkData(rest) == done + (c.data + ChunkData(rest));
    }
  }

  /** Decoding what was coded gives back the data, whatever line breaks it holds. */
  lemma ChunksRoundTrip(before: ByteArray, chunks: seq<Chunk>)
    requires AllCoded(chunks)
    ensures var data := before + CodeChunks(chunks) + LAST_CHUNK;
            Dechunked(data, |before|, |data| - 5, []) == Decoded(ChunkData(chunks))
  {
    hide Dechunked, CodeChunks, ChunkData;
    var data := before + CodeChunks(chunks) + LAST_CHUNK;
    assert data[|before|..] == CodeChunks(chunks) + LAST_CHUNK;
    ChunksFrom(data, |before|, chunks, LAST_CHUNK, |data| - 5, []);
    assert [] + ChunkData(chunks) == ChunkData(chunks);
    NothingLeft(data, |data| - 5, ChunkData(chunks));
  }

  /** A chunk of which the sender wrote `short`, with or without its line break, before the last chunk. */
  function Misstated(text: ByteArray, short: ByteArray): ByteArray {
    text + HttpHeader.CRLF + short + LAST_CHUNK
  }

  /** What is announced, and at most the line break behind it. */
  predicate Announces(text: ByteArray, short: ByteArray) {
    text != [] && AllOfBase(text, 16) && Value(text, 16) <= 0x7fff_ffff && |short| <= Value(text, 16) + 2
  }

  /** The decoding ends at a chunk that announces more than there is, and only at such a one. */
  lemma OverlongChunk(before: ByteArray, chunks: seq<Chunk>, text: ByteArray, short: ByteArray)
    requires AllCoded(chunks) && Announces(text, short)
    ensures var data := before + CodeChunks(chunks) + Misstated(text, short);
            var body := Dechunked(data, |before|, |data| - 5, []);
            && (body == Overrun(ChunkData(chunks)) <==> |short| < Value(text, 16))
            && (body != Overrun(ChunkData(chunks)) ==>
                  |short| >= Value(text, 16) && body == Decoded(ChunkData(chunks) + short[..Value(text, 16)]))
  {
    hide Dechunked, CodeChunks, ChunkData, AllOfBase, Value;
    var tail := Misstated(text, short);
    var data := before + CodeChunks(chunks) + tail;
    assert data[|before|..] == CodeChunks(chunks) + tail;
    ChunksFrom(data, |before|, chunks, tail, |data| - 5, []);
    assert [] + ChunkData(chunks) == ChunkData(chunks);
    OverlongStep(data, |before| + |CodeChunks(chunks)|, text, short, ChunkData(chunks));
  }

  lemma OverlongStep(data: ByteArray, start: nat, text: ByteArray, short: ByteArray, done: ByteArray)
    requires Announces(text, short) && start <= |data| && data[start..] == Misstated(text, short)
    ensures Dechunked(data, start, |data| - 5, done)
         == if |short| < Value(text, 16) then Overrun(done) else Decoded(done + short[..Value(text, 16)])
  {
    hide MatchesAt, Search, Stoi, AllOfBase, Value, Misstated;
    MisstatedAt(data, start, text, short);
    SizeLineEnds(data, start, text);
    StoiReads(text, 16);
  }

  /** The pieces of such a chunk in the buffer. */
  lemma MisstatedAt(data: ByteArray, start: nat, text: ByteArray, short: ByteArray)
    requires start <= |data| && data[start..] == Misstated(text, short)
    ensures var pos := start + |text|; var end := pos + 2 + |short|;
            && |data| == end + 5 && data[start..pos] == text && data[pos] == CR && data[pos + 1] == LF
            && forall n :: 0 <= n <= |short| ==> data[pos + 2..pos + 2 + n] == short[..n]
  {
    var s, k, m := data[start..], |text|, |short|;
    assert |data| == start + k + 2 + m + 5 by { assert |s| == k + 2 + m + 5; }
    assert s[..k] == text && s[k] == CR && s[k + 1] == LF && s[k + 2..k + 2 + m] == short;
    assert data[start..start + k] == s[..k] && data[start + k] == s[k] && data[start + k + 1] == s[k + 1];
    assert data[start + k + 2..start + k + 2 + m] == s[k + 2..k + 2 + m];
    forall n | 0 <= n <= m ensures data[start + k + 2..start + k + 2 + n] == short[..n] {
      assert data[start + k + 2..start + k + 2 + m][..n] == data[start + k + 2..start + k + 2 + n];
    }
  }

  // ---------------------------------------------------------------- the status line

  /** `BuildStatusLine`. */
  function StatusLine(version: ByteArray, code: nat, phrase: ByteArray): ByteArray {
    version + [SPACE] + ToText(code) + [SPACE] + phrase + HttpHeader.CRLF
  }

  predicate PlainStatus(version: ByteArray, code: nat, phrase: ByteArray) {
    && version != [] && RequestText.PlainVersion(version) && code <= 0x7fff_ffff
    && OneLine(phrase) && Trimmed(phrase)
  }

  lemma JoinedStep(phrase: ByteArray, data: ByteArray, r: Range, ranges: seq<Range>)
    requires InRange(r, data) && HttpHeader.AllInRange(ranges, data)
    ensures HttpHeader.AllInRange([r] + ranges, data)
    ensures Joined(phrase, data, [r] + ranges)
         == Joined(phrase + (if phrase == [] then [] else [SPACE]) + Piece(data, r), data, ranges)
  {
    assert ([r] + ranges)[1..] == ranges;
  }

  lemma JoinedNone(phrase: ByteArray, data: ByteArray)
    ensures Joined(phrase, data, []) == phrase
  {
  }

  /** The next part of a phrase, and what is left behind it. */
  lemma NextPart(data: ByteArray, from: nat, stop: nat) returns (p: nat)
    requires from < stop <= |data| && data[stop - 1] != SPACE
    ensures from <= p <= stop
    ensures p == stop ==> Pieces(data, [SPACE], from, stop) == [Range(from, stop - 1)] + []
    ensures p < stop ==> p + 1 < stop
    ensures p < stop ==>
              Pieces(data, [SPACE], from, stop) == [Range(from, p - 1)] + Pieces(data, [SPACE], p + 1, stop)
    ensures p < stop ==> data[p] == SPACE && data[from..stop] == data[from..p] + [SPACE] + data[p + 1..stop]
  {
    hide MatchesAt, Search;
    SearchFindsFirst(data, [SPACE], from, stop);
    match Search(data, [SPACE], from, stop)
    case None => p := stop;
    case Some(q) =>
      MatchOne(data, SPACE, q);
      p := q;
  }

  /** The parts behind the first one are put together as they stood. */
  lemma {:induction false} JoinedAgain(data: ByteArray, from: nat, stop: nat, phrase: ByteArray)
    requires from < stop <= |data| && data[stop - 1] != SPACE && phrase != []
    ensures Joined(phrase, data, Pieces(data, [SPACE], from, stop)) == phrase + [SPACE] + data[from..stop]
    decreases stop - from
  {
    hide Pieces, Joined;
    var p := NextPart(data, from, stop);
    if p == stop {
      JoinedStep(phrase, data, Range(from, stop - 1), []);
      JoinedNone(phrase + [SPACE] + data[from..stop], data);
    } else {
      var more := phrase + [SPACE] + data[from..p];
      JoinedStep(phrase, data, Range(from, p as int - 1), Pieces(data, [SPACE], p + 1, stop));
      JoinedAgain(data, p + 1, stop, more);
      assert more + [SPACE] + data[p + 1..stop] == phrase + [SPACE] + data[from..stop];
    }
  }

  lemma JoinedFirst(data: ByteArray, from: nat, stop: nat)
    requires from < stop <= |data| && data[stop - 1] != SPACE && data[from] != SPACE
    ensures |Pieces(data, [SPACE], from, stop)| > 0
    ensures Joined([], data, Pieces(data, [SPACE], from, stop)) == data[from..stop]
  {
    hide Pieces, Joined;
    var p := NextPart(data, from, stop);
    if p == stop {
      JoinedStep([], data, Range(from, stop - 1), []);
      assert [] + [] + data[from..stop] == data[from..stop];
      JoinedNone(data[from..stop], data);
    } else {
      assert p > from;
      JoinedStep([], data, Range(from, p as int - 1), Pieces(data, [SPACE], p + 1, stop));
      assert [] + [] + data[from..p] == data[from..p];
      JoinedAgain(data, p + 1, stop, data[from..p]);
    }
  }

  lemma CodeHasNoBreak(code: nat)
    ensures Free(ToText(code), SPACE) && OneLine(ToText(code))
  {
    ToTextReads(code);
    var t := ToText(code);
    forall k | 0 <= k < |t| ensures t[k] != SPACE && t[k] != CR && t[k] != LF { DigitsAreNoSigns(t[k]); }
  }

  /** The three parts of a printed status line. */
  lemma StatusRanges(data: ByteArray, v: ByteArray, c: ByteArray, p: ByteArray)
    requires Free(v, SPACE) && Free(c, SPACE) && v != [] && OneLine(p) && Trimmed(p)
    requires RequestText.ThreeParts(v, c, p) + [CR] <= data
    ensures var pos := |RequestText.ThreeParts(v, c, p)|; var ranges := SplitRanges(data, [SPACE], 0, pos);
            && |ranges| >= 3 && Piece(data, ranges[0]) == v && Piece(data, ranges[1]) == c
            && Joined([], data, ranges[2..]) == p + [CR]
  {
    hide MatchesAt, Search, Pieces, RequestText.ThreeParts, Joined;
    var line := RequestText.ThreeParts(v, c, p);
    var pos, at1, at2 := |line|, |v| + 1, |v| + |c| + 2;
    RequestText.SlicesOfLine(v, c, p);
    assert line <= data && data[pos] == CR by { assert (line + [CR])[pos] == CR; }
    RequestText.SliceOfPrefix(data, line, 0, |v|);
    RequestText.SliceOfPrefix(data, line, at1, at1 + |c|);
    RequestText.SliceOfPrefix(data, line, at2, pos);
    assert data[at2..pos + 1] == p + [CR];
    RequestText.SpaceAt(data, 0, v, pos + 1);
    RequestText.SpaceAt(data, at1, c, pos + 1);
    assert data[at2] != SPACE by { if p != [] { assert data[at2] == p[0]; } }
    JoinedFirst(data, at2, pos + 1);
    TwoInFront(v, at1, |c|, data, at2, pos + 1);
  }

  lemma TwoInFront(v: ByteArray, at1: nat, n: nat, data: ByteArray, at2: nat, stop: nat)
    requires at2 <= stop <= |data|
    ensures ([Range(0, |v| - 1)] + ([Range(at1, at1 + n - 1)] + Pieces(data, [SPACE], at2, stop)))[2..]
         == Pieces(data, [SPACE], at2, stop)
  {
    hide Pieces;
  }

  lemma StatusIsOneLine(version: ByteArray, code: nat, phrase: ByteArray)
    requires PlainStatus(version, code, phrase)
    ensures var line := RequestText.ThreeParts(version, ToText(code), phrase);
            OneLine(line) && StatusLine(version, code, phrase) == line + HttpHeader.CRLF
  {
    hide ToText;
    CodeHasNoBreak(code);
  }

  lemma LineOfStatus(version: ByteArray, code: nat, phrase: ByteArray, rest: ByteArray)
    requires PlainStatus(version, code, phrase)
    ensures var line := RequestText.ThreeParts(version, ToText(code), phrase);
            var data := StatusLine(version, code, phrase) + rest;
            && |line| == |StatusLine(version, code, phrase)| - 2 && line + [CR] <= data
            && Search(data, HttpHeader.CRLF, 0, |data|) == Some(|line|)
  {
    hide MatchesAt, Search, ToText;
    var line := RequestText.ThreeParts(version, ToText(code), phrase);
    assert StatusLine(version, code, phrase) + rest == line + HttpHeader.CRLF + rest;
    CodeHasNoBreak(code);
    RequestText.FirstBreak(line, rest);
  }

  lemma StatusTexts(version: ByteArray, code: nat, phrase: ByteArray)
    requires PlainStatus(version, code, phrase)
    ensures Trim(version) == version && Trim(phrase + [CR]) == phrase && Stoi(ToText(code), 10) == Some(code)
  {
    hide Stoi, Value, AllOfBase, Trim, ToText;
    ToTextReads(code);
    StoiReads(ToText(code), 10);
    TrimTakesBlanks([], version, []);
    assert [] + version + [] == version;
    TrimTakesBlanks([], phrase, [CR]);
    assert [] + phrase + [CR] == phrase + [CR];
  }

  /** A printed status line is parsed back, whatever follows. Of a code only sixteen bits are kept. */
  lemma StatusRoundTrip(st: State, version: ByteArray, code: nat, phrase: ByteArray, rest: ByteArray)
    requires PlainStatus(version, code, phrase) && st.phrase == []
    ensures var line := StatusLine(version, code, phrase);
            var data := line + rest;
            && Search(data, HttpHeader.CRLF, 0, |data|) == Some(|line| - 2)
            && StatusParts(st, data, |line| - 2) == Some(Status(version, Some(code % 0x1_0000), phrase))
  {
    hide MatchesAt, Search, Pieces, Trim, ToText, SplitRanges, Stoi, Joined, RequestText.ThreeParts, StatusLine;
    LineOfStatus(version, code, phrase, rest);
    CodeHasNoBreak(code);
    StatusRanges(StatusLine(version, code, phrase) + rest, version, ToText(code), phrase);
    StatusTexts(version, code, phrase);
  }

  // ---------------------------------------------------------------- the head of a response

  /** The blank line behind the header is the first in the whole buffer. */
  lemma FirstBlankLine(line: ByteArray, fields: seq<HttpHeader.Field>, rest: ByteArray)
    requires OneLine(line) && fields != [] && AllPrintable(fields)
    ensures var head := line + HttpHeader.CRLF + HttpHeader.Print(fields) + HttpHeader.CRLF;
            Search(head + rest, HttpHeader.CRLFCRLF, 0, |head + rest|) == Some(|head| - 4)
  {
    hide MatchesAt, Search, HttpHeader.Print, LinesAt, HttpHeader.Line, AllPrintable;
    var at := |line| + 2;
    var head := line + HttpHeader.CRLF + HttpHeader.Print(fields) + HttpHeader.CRLF;
    var data := head + rest;
    assert data[at..] == HttpHeader.Print(fields) + (HttpHeader.CRLF + rest);
    PrintedLines(data, fields, at, rest);
    LinesFit(data, fields, at);
    BlankLineIsFirst(data, fields, at);
    FirstLine(data, fields, at);
    NotBlank(data, fields, at);
    MatchFour(data, |line|);
    MatchFour(data, |line| + 1);
    MatchTwo(data, |line| + 1);
    assert data[|line| + 1] == LF;
    forall i: nat | i < |line| ensures !MatchesAt(data, HttpHeader.CRLFCRLF, i) {
      MatchFour(data, i);
      MatchTwo(data, i);
      assert data[i] == line[i];
    }
    SearchIs(data, HttpHeader.CRLFCRLF, 0, |data|, Some(End(fields, at) - 2));
  }

  /** The head of a response with that status line and header. */
  function Head(version: ByteArray, code: nat, phrase: ByteArray, fields: seq<HttpHeader.Field>): ByteArray {
    StatusLine(version, code, phrase) + HttpHeader.Print(fields) + HttpHeader.CRLF
  }

  /** What the client holds once it has parsed the head. */
  function HeadState(st: State, version: ByteArray, code: nat, phrase: ByteArray, fields: seq<HttpHeader.Field>): State
    requires |HttpHeader.Print(fields)| >= 2
  {
    var h := HttpHeader.State(SetAll(st.header.fields, fields), true, |HttpHeader.Print(fields)| - 2, 0);
    State(version, code % 0x1_0000, phrase, h, [], |Head(version, code, phrase, fields)|)
  }

  predicate Unused(st: State) {
    st.phrase == [] && st.body == [] && !st.header.complete && st.header.chunkedSize == 0
  }

  lemma HeadParses(
      st: State, version: ByteArray, code: nat, phrase: ByteArray, fields: seq<HttpHeader.Field>, rest: ByteArray)
    requires PlainStatus(version, code, phrase) && fields != [] && AllPrintable(fields) && Unused(st)
    ensures |HttpHeader.Print(fields)| >= 2 && |StatusLine(version, code, phrase)| >= 2
    ensures var line := StatusLine(version, code, phrase);
            var s := HeadState(st, version, code, phrase, fields);
            var data := Head(version, code, phrase, fields) + rest;
            && |line| - 2 + 2 + s.header.headerSize + 4 == s.size <= |data|
            && ParsedResponse(st, data) == WithBody(s, data, |line| - 2)
  {
    hide MatchesAt, Search, HttpHeader.Print, HttpHeader.Parsed, StatusParts, SetAll, AllPrintable, WithBody, ToText,
      HttpHeader.BodySize;
    assert |HttpHeader.Print(fields)| >= 2 by { PrintFirst(fields); }
    var line := StatusLine(version, code, phrase);
    var head := Head(version, code, phrase, fields);
    var data := head + rest;
    StatusRoundTrip(st.(size := |head|), version, code, phrase, HttpHeader.Print(fields) + HttpHeader.CRLF + rest);
    assert data == line + (HttpHeader.Print(fields) + HttpHeader.CRLF + rest);
    LineOfStatus(version, code, phrase, []);
    CodeHasNoBreak(code);
    var text := RequestText.ThreeParts(version, ToText(code), phrase);
    assert line == text + HttpHeader.CRLF;
    FirstBlankLine(text, fields, rest);
    HeaderParses(st.header, line, fields, rest);
    assert data == line + HttpHeader.Print(fields) + HttpHeader.CRLF + rest;
  }

  /** The chunked branch of the body. */
  lemma ChunkedBody(s: State, head: ByteArray, chunks: seq<Chunk>, pos: nat)
    requires AllCoded(chunks) && pos + 2 + s.header.headerSize + 4 == |head| < HttpHeader.TWO_64
    requires HttpHeader.BodySize(s.header) == 0
    requires HttpHeader.Get(s.header.fields, HttpHeader.TRANSFER_ENCODING) == CHUNKED
    ensures var data := head + CodeChunks(chunks) + LAST_CHUNK; var body := ChunkData(chunks);
            WithBody(s, data, pos) == Some(Parsed(true, s.(body := body, header := s.header.(chunkedSize := |body|))))
  {
    hide HttpHeader.Get, Dechunked, CodeChunks, ChunkData, HttpHeader.BodySize;
    var data := head + CodeChunks(chunks) + LAST_CHUNK;
    assert data[|data| - 5..] == LAST_CHUNK;
    ChunksRoundTrip(head, chunks);
  }

  lemma NoLength(h: HttpHeader.State)
    requires HttpHeader.Get(h.fields, HttpHeader.CONTENT_LENGTH) == [] && h.chunkedSize == 0
    ensures HttpHeader.BodySize(h) == 0
  {
  }

  /** A chunked response is decoded to the data of its chunks. */
  lemma ChunkedResponseParses(
      st: State, version: ByteArray, code: nat, phrase: ByteArray, fields: seq<HttpHeader.Field>, chunks: seq<Chunk>)
    requires PlainStatus(version, code, phrase) && fields != [] && AllPrintable(fields) && Unused(st)
             && AllCoded(chunks)
    requires HttpHeader.Get(SetAll(st.header.fields, fields), HttpHeader.CONTENT_LENGTH) == []
    requires HttpHeader.Get(SetAll(st.header.fields, fields), HttpHeader.TRANSFER_ENCODING) == CHUNKED
    requires |Head(version, code, phrase, fields)| < HttpHeader.TWO_64
    ensures var r := ParsedResponse(st, Head(version, code, phrase, fields) + (CodeChunks(chunks) + LAST_CHUNK));
            r.Some? && r.value.ok && r.value.state.body == ChunkData(chunks)
            && r.value.state.version == version && r.value.state.code == code % 0x1_0000
            && r.value.state.phrase == phrase
  {
    hide HttpHeader.Get, SetAll, AllPrintable, Head, CodeChunks, ChunkData, PlainStatus, WithBody, ParsedResponse,
      HttpHeader.BodySize, StatusLine, AllCoded;
    var head := Head(version, code, phrase, fields);
    HeadParses(st, version, code, phrase, fields, CodeChunks(chunks) + LAST_CHUNK);
    assert head + (CodeChunks(chunks) + LAST_CHUNK) == head + CodeChunks(chunks) + LAST_CHUNK;
    var s := HeadState(st, version, code, phrase, fields);
    NoLength(s.header);
    ChunkedBody(s, head, chunks, |StatusLine(version, code, phrase)| - 2);
  }

  /** `Parse` does not look at what the decoder returned: it reports success in either case, and a chunk that
      announces more than there is is left out of the body without a word. */
  lemma OverlongChunkIsSilent(
      s: State, head: ByteArray, chunks: seq<Chunk>, text: ByteArray, short: ByteArray, pos: nat)
    requires AllCoded(chunks) && Announces(text, short)
    requires pos + 2 + s.header.headerSize + 4 == |head| < HttpHeader.TWO_64
    requires HttpHeader.BodySize(s.header) == 0
    requires HttpHeader.Get(s.header.fields, HttpHeader.TRANSFER_ENCODING) == CHUNKED
    ensures var r := WithBody(s, head + CodeChunks(chunks) + Misstated(text, short), pos);
            && r.Some? && r.value.ok
            && r.value.state.body
               == ChunkData(chunks) + (if |short| < Value(text, 16) then [] else short[..Value(text, 16)])
            && (r.value.state.body == ChunkData(chunks) <==> |short| < Value(text, 16) || Value(text, 16) == 0)
  {
    hide HttpHeader.Get, Dechunked, CodeChunks, ChunkData, HttpHeader.BodySize, AllOfBase, Value;
    var data := head + CodeChunks(chunks) + Misstated(text, short);
    assert data[|data| - 5..] == LAST_CHUNK;
    OverlongChunk(head, chunks, text, short);
    assert ChunkData(chunks) + [] == ChunkData(chunks);
  }

  // ---------------------------------------------------------------- bodies of announced length

  /** The length of the body that parsed fields announce. */
  function Announced(value: Option<ByteArray>): (n: nat)
    ensures n < HttpHeader.TWO_64
  {
    match value
    case Some(v) => (match HttpHeader.ParseUint64(v) case Some(n) => n case None => 0)
    case None => 0
  }

  lemma HeadAnnounces(
      st: State, version: ByteArray, code: nat, phrase: ByteArray, fields: seq<HttpHeader.Field>)
    requires fields != [] && Unused(st) && |HttpHeader.Print(fields)| >= 2
    ensures var s, all := HeadState(st, version, code, phrase, fields), st.header.fields + fields;
            && HttpHeader.BodySize(s.header) == Announced(HttpHeader.First(all, HttpHeader.CONTENT_LENGTH))
            && HttpHeader.Get(s.header.fields, HttpHeader.TRANSFER_ENCODING)
               == HttpHeader.OrEmpty(HttpHeader.First(all, HttpHeader.TRANSFER_ENCODING))
  {
    hide HttpHeader.First, HttpHeader.Get, HttpHeader.ParseUint64, SetAll, HttpHeader.Print, StatusLine;
    SetAllIsFirst(st.header.fields, fields, HttpHeader.CONTENT_LENGTH);
    SetAllIsFirst(st.header.fields, fields, HttpHeader.TRANSFER_ENCODING);
    HttpHeader.GetIsFirst(SetAll(st.header.fields, fields), HttpHeader.CONTENT_LENGTH);
    HttpHeader.GetIsFirst(SetAll(st.header.fields, fields), HttpHeader.TRANSFER_ENCODING);
    NothingIsNoLength();
  }

  lemma NothingIsNoLength()
    ensures HttpHeader.ParseUint64([]) == None
  {
  }

  /** A response whose first Content-Length announces `n` bytes is complete with exactly that many behind its
      head, and then they are its body. */
  lemma LengthResponseParses(
      st: State, version: ByteArray, code: nat, phrase: ByteArray, fields: seq<HttpHeader.Field>, n: nat,
    body: ByteArray)
    requires PlainStatus(version, code, phrase) && fields != [] && AllPrintable(fields) && Unused(st)
    requires HttpHeader.First(st.header.fields + fields, HttpHeader.CONTENT_LENGTH) == Some(ToText(n))
    requires HttpHeader.First(st.header.fields + fields, HttpHeader.TRANSFER_ENCODING) != Some(CHUNKED)
    requires |Head(version, code, phrase, fields)| + n < HttpHeader.TWO_64
    ensures var r := ParsedResponse(st, Head(version, code, phrase, fields) + body);
            r.Some? && (r.value.ok <==> |body| == n) && (r.value.ok ==> r.value.state.body == body)
  {
    hide HttpHeader.First, AllPrintable, Head, PlainStatus, WithBody, ParsedResponse, HttpHeader.BodySize, StatusLine,
      HttpHeader.Print, ToText, HttpHeader.ParseUint64, HttpHeader.Get;
    HeadParses(st, version, code, phrase, fields, body);
    HeadAnnounces(st, version, code, phrase, fields);
    LengthReads(n);
    var s := HeadState(st, version, code, phrase, fields);
    var head := Head(version, code, phrase, fields);
    BodyOfLength(s, head, body, |StatusLine(version, code, phrase)| - 2, n);
  }

  lemma BodyOfLength(s: State, head: ByteArray, body: ByteArray, pos: nat, n: nat)
    requires pos + 2 + s.header.headerSize + 4 == |head| && |head| + n < HttpHeader.TWO_64 && s.body == []
    requires HttpHeader.BodySize(s.header) == n
    requires HttpHeader.Get(s.header.fields, HttpHeader.TRANSFER_ENCODING) != CHUNKED
    ensures var r := WithBody(s, head + body, pos);
            r.Some? && (r.value.ok <==> |body| == n) && (r.value.ok ==> r.value.state.body == body)
  {
    hide HttpHeader.BodySize, HttpHeader.Get, Dechunked;
    assert (head + body)[|head|..] == body && [] + body == body;
  }
}
