/** The opening request: `class Request` (src/Request.cpp), with the part of `Url::ParsePath`
    (src/Url.cpp) that finds the path. */
module Request {
  import opened Bytes
  import opened StringUtil
  import opened Wrappers
  import HttpHeader

  datatype Method = Undefined | OPTIONS | GET | HEAD | POST | PUT | DELETE | TRACE | CONNECT | WEBSOCKET

  /** `Method2String`; `WEBSOCKET` has no name. */
  function MethodName(m: Method): ByteArray {
    match m
    case OPTIONS => [79, 80, 84, 73, 79, 78, 83]
    case GET => [71, 69, 84]
    case HEAD => [72, 69, 65, 68]
    case POST => [80, 79, 83, 84]
    case PUT => [80, 85, 84]
    case DELETE => [68, 69, 76, 69, 84, 69]
    case TRACE => [84, 82, 65, 67, 69]
    case CONNECT => [67, 79, 78, 78, 69, 67, 84]
    case Undefined => []
    case WEBSOCKET => []
  }

  predicate Named(m: Method) {
    m != Undefined && m != WEBSOCKET
  }

  /** `String2Method`, the argument already in capitals. */
  function MethodOf(name: ByteArray): (m: Method)
    ensures m != Undefined ==> Named(m) && name == MethodName(m)
  {
    if name == MethodName(OPTIONS) then OPTIONS
    else if name == MethodName(GET) then GET
    else if name == MethodName(HEAD) then HEAD
    else if name == MethodName(POST) then POST
    else if name == MethodName(PUT) then PUT
    else if name == MethodName(DELETE) then DELETE
    else if name == MethodName(TRACE) then TRACE
    else if name == MethodName(CONNECT) then CONNECT
    else Undefined
  }

  const QUESTION: byte := 63
  const HASH: byte := 35
  const SLASH: byte := 47

  /** The path part of a request target: what precedes the query, or else the fragment. */
  function PathOf(url: ByteArray): ByteArray {
    match Search(url, [QUESTION], 0, |url|)
    case Some(p) => url[..p]
    case None => match Search(url, [HASH], 0, |url|) case Some(p) => url[..p] case None => url
  }

  /** `GetNormalizedPath`. */
  function Normalized(path: ByteArray): ByteArray {
    if path != [] && path[0] == SLASH then path else [SLASH] + path
  }

  // ---------------------------------------------------------------- the parser as a function

  datatype State = State(verb: Method, path: ByteArray, version: ByteArray, lineLength: nat, header: HttpHeader.State)

  /** `"HTTP/1.1"`. */
  const HTTP_1_1: ByteArray := [72, 84, 84, 80, 47, 49, 46, 49]

  const FRESH := State(Undefined, [], HTTP_1_1, 0, HttpHeader.FRESH)

  datatype FirstLine = NoLine | BadMethod | Line(verb: Method, path: ByteArray, version: ByteArray, length: nat)

  function LineParts(data: ByteArray, pos: nat): FirstLine
    requires pos < |data|
  {
    var ranges := SplitRanges(data, [SPACE], 0, pos);
    if |ranges| != 3 then NoLine
    else
      var m := MethodOf(Upper(Piece(data, ranges[0])));
      if m == Undefined then BadMethod
      else Line(m, PathOf(Piece(data, ranges[1])), Trim(Piece(data, ranges[2])), pos)
  }

  function ParsedLine(data: ByteArray): FirstLine {
    match Search(data, HttpHeader.CRLF, 0, |data|)
    case None => NoLine
    case Some(pos) => LineParts(data, pos)
  }

  function AfterLine(r: State, data: ByteArray): State {
    match ParsedLine(data)
    case NoLine => r
    case BadMethod => r.(verb := Undefined)
    case Line(m, p, v, n) => State(m, p, v, n, r.header)
  }

  function AfterHeader(r: State, data: ByteArray): State {
    if r.lineLength == 0 || r.header.complete then r
    else r.(header := HttpHeader.Parsed(r.header, data, r.lineLength + 2))
  }

  /** The state `Parse` leaves. */
  function Parsed(r: State, data: ByteArray): State {
    AfterHeader(if r.lineLength == 0 then AfterLine(r, data) else r, data)
  }

  /** What `Parse` returns. */
  predicate Complete(r: State) {
    r.lineLength != 0 && r.header.complete
  }

  /** `GetRequestSize`: a `size_t`, so a huge Content-Length wraps it around. */
  function Size(r: State): nat {
    (r.lineLength + 2 + r.header.headerSize + 4 + HttpHeader.BodySize(r.header)) % HttpHeader.TWO_64
  }

  // ---------------------------------------------------------------- printing

  // WebSocketCpp 0.3
  const PRODUCT: ByteArray := [87, 101, 98, 83, 111, 99, 107, 101, 116, 67, 112, 112, 32, 48, 46, 51]
  const ANY: ByteArray := [42, 47, 42]  // */*

  /** `BuildRequestLine` for a target without a query. */
  function PrintLine(verb: Method, path: ByteArray, version: ByteArray): ByteArray {
    MethodName(verb) + [SPACE] + Normalized(path) + [SPACE] + version + HttpHeader.CRLF
  }

  function Print(r: State): ByteArray {
    PrintLine(r.verb, r.path, r.version) + HttpHeader.Print(r.header.fields) + HttpHeader.CRLF
  }

  /** The headers `Send` adds where the caller left them out. */
  function WithDefaults(fields: seq<HttpHeader.Field>, host: ByteArray): seq<HttpHeader.Field> {
    HttpHeader.Set(HttpHeader.Set(HttpHeader.Set(fields,
      HttpHeader.Field(HttpHeader.USER_AGENT, PRODUCT)),
      HttpHeader.Field(HttpHeader.HOST, host)),
      HttpHeader.Field(HttpHeader.ACCEPT, ANY))
  }

  // ---------------------------------------------------------------- growing prefixes

  lemma LineIsNotEmpty(data: ByteArray)
    requires ParsedLine(data).Line?
    ensures ParsedLine(data).length > 0
  {
    hide Search, MatchesAt, Pieces, Trim, PathOf, MethodOf;
  }

  lemma LinePartsLonger(data: ByteArray, all: ByteArray, pos: nat)
    requires data <= all && pos < |data|
    ensures LineParts(all, pos) == LineParts(data, pos)
  {
    hide Search, MatchesAt, Pieces, Trim, PathOf, MethodOf, Upper;
    PiecesLonger(data, all, [SPACE], 0, pos + 1);
    var ranges := SplitRanges(data, [SPACE], 0, pos);
    assert SplitRanges(all, [SPACE], 0, pos) == ranges;
    forall k | 0 <= k < |ranges| ensures Piece(all, ranges[k]) == Piece(data, ranges[k]) {
      assert all[ranges[k].start..ranges[k].end + 1] == data[ranges[k].start..ranges[k].end + 1];
    }
  }

  /** Once the first line break is there, the line reads the same in any longer buffer. */
  lemma LineLonger(data: ByteArray, all: ByteArray)
    requires data <= all && Search(data, HttpHeader.CRLF, 0, |data|).Some?
    ensures ParsedLine(all) == ParsedLine(data)
  {
    hide Search, MatchesAt, LineParts;
    SearchWider(data, all, HttpHeader.CRLF, 0, |data|, |all|);
    LinePartsLonger(data, all, Search(data, HttpHeader.CRLF, 0, |data|).value);
  }

  /** `Parse` on the object may be called with that buffer: the search for a line break passes the end of a
      buffer of a single byte. */
  predicate Bounded(data: ByteArray) {
    |data| != 1
  }

  /** Parsing a prefix first changes nothing about parsing the whole. */
  lemma Resumable(data: ByteArray, all: ByteArray)
    requires data <= all && Bounded(data) && Bounded(all)
    ensures Parsed(Parsed(FRESH, data), all) == Parsed(FRESH, all)
  {
    hide Parsed;
    ParsedTwice(data, all);
  }

  /** The same of the functions, which are total. */
  lemma ParsedTwice(data: ByteArray, all: ByteArray)
    requires data <= all
    ensures Parsed(Parsed(FRESH, data), all) == Parsed(FRESH, all)
  {
    hide Search, MatchesAt, LineParts, HttpHeader.Parsed;
    var r := Parsed(FRESH, data);
    if ParsedLine(data).Line? {
      LineLonger(data, all);
      LineIsNotEmpty(data);
      var l := ParsedLine(data);
      var start := State(l.verb, l.path, l.version, l.length, HttpHeader.FRESH);
      HeaderResumable(start, data, all);
    } else {
      assert r == FRESH;
    }
  }

  lemma HeaderResumable(r: State, data: ByteArray, all: ByteArray)
    requires data <= all && r.lineLength != 0 && !r.header.complete
    ensures AfterHeader(AfterHeader(r, data), all) == AfterHeader(r, all)
  {
    var h := HttpHeader.Parsed(r.header, data, r.lineLength + 2);
    if h.complete { HttpHeader.ParsedLonger(r.header, data, all, r.lineLength + 2); }
    else { assert h == r.header.(complete := false) by { NotYet(r.header, data, r.lineLength + 2); } }
  }

  lemma NotYet(h: HttpHeader.State, data: ByteArray, start: nat)
    requires !HttpHeader.Parsed(h, data, start).complete
    ensures HttpHeader.Parsed(h, data, start) == h.(complete := false)
  {
    hide Search, MatchesAt, HttpHeader.AddRanges, Pieces;
  }

  /** Any number of earlier calls on growing prefixes. */
  ghost predicate Growing(prefixes: seq<ByteArray>, data: ByteArray) {
    prefixes == [] ||
    var last := prefixes[|prefixes| - 1];
    Growing(prefixes[..|prefixes| - 1], last) && last <= data && Bounded(last)
  }

  function ParsedAll(r: State, prefixes: seq<ByteArray>): State {
    if prefixes == [] then r else Parsed(ParsedAll(r, prefixes[..|prefixes| - 1]), prefixes[|prefixes| - 1])
  }

  lemma {:induction false} ResumableOverManyCalls(prefixes: seq<ByteArray>, data: ByteArray)
    requires Growing(prefixes, data) && Bounded(data)
    ensures Parsed(ParsedAll(FRESH, prefixes), data) == Parsed(FRESH, data)
  {
    hide Parsed;
    if prefixes != [] {
      var n := |prefixes| - 1;
      var before, last := prefixes[..n], prefixes[n];
      ResumableOverManyCalls(before, last);
      Resumable(last, data);
    }
  }

  /** A complete request stays the same request, and fits, when more bytes follow. */
  lemma CompleteStays(data: ByteArray, all: ByteArray)
    requires data <= all && Complete(Parsed(FRESH, data))
    ensures Parsed(FRESH, all) == Parsed(FRESH, data)
    ensures var r := Parsed(FRESH, data); r.lineLength + 2 + r.header.headerSize + 4 <= |data|
  {
    hide ParsedLine, HttpHeader.Parsed;
    ParsedTwice(data, all);
    HeaderFits(data);
  }

  lemma HeaderFits(data: ByteArray)
    requires Complete(Parsed(FRESH, data))
    ensures var r := Parsed(FRESH, data); r.lineLength + 2 + r.header.headerSize + 4 <= |data|
  {
    hide ParsedLine, HttpHeader.Parsed;
    HttpHeader.ParsedLonger(HttpHeader.FRESH, data, data, Parsed(FRESH, data).lineLength + 2);
  }

  /** What a buffer that starts with a whole request starts with: the request, and how many bytes of
      the buffer belong to it, body included. */
  function Opening(data: ByteArray): Option<(State, nat)> {
    var r := Parsed(FRESH, data);
    if Complete(r) && |data| >= Size(r) then Some((r, Size(r))) else None
  }

  lemma OpeningLonger(data: ByteArray, all: ByteArray)
    requires data <= all && Opening(data).Some?
    ensures Opening(all) == Opening(data)
  {
    hide Parsed;
    CompleteStays(data, all);
  }

  // ---------------------------------------------------------------- the object

  class Request {
    var verb: Method
    var path: ByteArray
    var httpVersion: ByteArray
    var requestLineLength: nat
    const header: HttpHeader.HttpHeader

    constructor ()
      ensures Value() == FRESH && fresh(header)
    {
      verb, path, httpVersion, requestLineLength := Undefined, [], HTTP_1_1, 0;
      header := new HttpHeader.HttpHeader();
    }

    function Value(): State
      reads this, header
    {
      State(verb, path, httpVersion, requestLineLength, header.Value())
    }

    /** A buffer of a single byte is excluded: the unsigned bound of the search would pass its end. */
    method Parse(data: ByteArray) returns (ok: bool)
      requires |data| != 1
      requires requestLineLength != 0 ==> |data| == 0 || |data| >= 4
      modifies this, header
      ensures Value() == Parsed(old(Value()), data) && ok == Complete(Value())
    {
      hide ParsedLine, HttpHeader.Parsed;
      if requestLineLength == 0 {
        var parsed := ParseRequestLine(data);
        if !parsed {
          requestLineLength := 0;
          return false;
        }
      }
      if !header.complete {
        var parsed := header.Parse(data, requestLineLength + 2);
        if !parsed {
          return false;
        }
      }
      ok := true;
    }

    /** A line that parses has at least a method and two spaces before its line break. */
    method ParseRequestLine(data: ByteArray) returns (ok: bool)
      requires |data| != 1 && requestLineLength == 0
      modifies this
      ensures ok == ParsedLine(data).Line?
      ensures ok ==> Value() == AfterLine(old(Value()), data) && |data| >= 4 && requestLineLength > 0
      ensures !ok ==> Value().(lineLength := 0) == AfterLine(old(Value()), data)
    {
      hide Search, MatchesAt, Pieces, Trim, PathOf, Upper;
      ok := false;
      var pos := SearchPosition(data, HttpHeader.CRLF, 0, None);
      requestLineLength := if pos.Some? then pos.value else HttpHeader.TWO_64 - 1;
      if pos.Some? {
        var ranges := Split(data, [SPACE], 0, pos.value);
        if |ranges| == 3 {
          verb := MethodOf(Upper(Piece(data, ranges[0])));
          if verb == Undefined {
            return false;
          }
          assert |Piece(data, ranges[0])| >= 3;
          path := PathOf(Piece(data, ranges[1]));
          httpVersion := TrimString(Piece(data, ranges[2]));
          ok := true;
        }
      }
    }

    method GetRequestSize() returns (size: nat)
      ensures size == Size(Value())
    {
      var body := header.GetBodySize();
      size := (requestLineLength + 2 + header.headerSize + 4 + body) % HttpHeader.TWO_64;
    }

    method BuildRequestLine() returns (line: ByteArray)
      ensures line == PrintLine(verb, path, httpVersion)
    {
      line := MethodName(verb) + [SPACE] + Normalized(path) + [SPACE] + httpVersion + HttpHeader.CRLF;
    }

    /** The bytes `Send` hands to the connection. */
    method Send(host: ByteArray) returns (bytes: ByteArray)
      modifies header
      ensures Value() == old(Value()).(header := old(Value()).header.(fields := WithDefaults(old(header.fields), host)))
      ensures bytes == Print(Value())
    {
      hide HttpHeader.Set, HttpHeader.Print, Normalized;
      bytes := BuildRequestLine();
      header.SetHeader(HttpHeader.USER_AGENT, PRODUCT);
      header.SetHeader(HttpHeader.HOST, host);
      header.SetHeader(HttpHeader.ACCEPT, ANY);
      var h := header.ToByteArray();
      bytes := bytes + h;
      bytes := bytes + [CR];
      bytes := bytes + [LF];
    }
  }
}
