/** The answer to the opening request: `class Response` (src/Response.cpp), without content encodings. */
module Response {
  import opened Bytes
  import opened Numbers
  import opened StringUtil
  import opened Wrappers
  import HttpHeader

  const CHUNKED: ByteArray := [99, 104, 117, 110, 107, 101, 100]  // chunked

  /** The last chunk, `0 CRLF CRLF`. */
  const LAST_CHUNK: ByteArray := [48, CR, LF, CR, LF]

  datatype State = State(
    version: ByteArray,
    code: nat,
    phrase: ByteArray,
    header: HttpHeader.State,
    body: ByteArray,
    size: nat)

  /** `InitDefault`: a new response already carries this side's own `Server` header. */
  function Fresh(serverName: ByteArray): State {
    var own := [HttpHeader.Field(HttpHeader.SERVER, serverName)];
    State([72, 84, 84, 80, 47, 49, 46, 49], 200, [], HttpHeader.FRESH.(fields := own), [], 0)  // HTTP/1.1
  }

  // ---------------------------------------------------------------- the status line

  /** The phrase, put together again from the parts behind the code. */
  function Joined(phrase: ByteArray, data: ByteArray, ranges: seq<Range>): ByteArray
    requires forall k :: 0 <= k < |ranges| ==> InRange(ranges[k], data)
    decreases |ranges|
  {
    if ranges == [] then phrase
    else Joined(phrase + (if phrase == [] then [] else [SPACE]) + Piece(data, ranges[0]), data, ranges[1..])
  }

  /** A `uint16_t` takes the code. */
  function Truncated(code: int): nat {
    code % 0x1_0000
  }

  /** The fields a status line sets; `None` where it is refused. */
  datatype Status = Status(version: ByteArray, code: Option<nat>, phrase: ByteArray)

  function StatusParts(st: State, data: ByteArray, pos: nat): Option<Status>
    requires pos < |data|
  {
    var ranges := SplitRanges(data, [SPACE], 0, pos);
    if |ranges| < 3 then None
    else
      var version := Trim(Piece(data, ranges[0]));
      match Stoi(Piece(data, ranges[1]), 10)
      case None => Some(Status(version, None, st.phrase))
      case Some(i) => Some(Status(version, Some(Truncated(i)), Trim(Joined(st.phrase, data, ranges[2..]))))
  }

  function WithStatus(st: State, s: Status): State {
    if s.code.None? then st.(version := s.version)
      else st.(version := s.version, code := s.code.value, phrase := s.phrase)
  }

  // ---------------------------------------------------------------- chunks

  /** `Overrun`: a size reaches past the data. `BadSize`: `std::stoi` throws. `Undefined`: a negative
      size, which sends the source out of bounds. */
  datatype Body = Decoded(bytes: ByteArray) | Overrun(bytes: ByteArray) | BadSize(bytes: ByteArray) | Undefined

  function Dechunked(data: ByteArray, start: nat, limit: nat, done: ByteArray): Body
    requires limit <= |data|
    decreases if start < limit then limit - start else 0
  {
    if start >= limit then Decoded(done)
    else
      match Search(data, HttpHeader.CRLF, start, |data|)
      case None => Undefined
      case Some(pos) =>
        match Stoi(data[start..pos], 16)
        case None => BadSize(done)
        case Some(n) =>
          if n < 0 then Undefined
          else if pos + 2 + n > limit then Overrun(done)
          else Dechunked(data, pos + 2 + n + 2, limit, done + data[pos + 2..pos + 2 + n])
  }

  // ---------------------------------------------------------------- the whole response

  datatype Parsed = Parsed(ok: bool, state: State)

  function AllSize(h: HttpHeader.State, pos: nat): nat {
    (pos + 2 + h.headerSize + 4 + HttpHeader.BodySize(h)) % HttpHeader.TWO_64
  }

  /** The body, once the header is there; its start is `start`. */
  function WithBody(st: State, data: ByteArray, pos: nat): (r: Option<Parsed>)
    requires pos + 2 + st.header.headerSize + 4 <= |data|
    ensures r.Some? ==> r.value.state.size == st.size
  {
    var start := pos + 2 + st.header.headerSize + 4;
    if |data| < AllSize(st.header, pos) then Some(Parsed(false, st))
    else if HttpHeader.Get(st.header.fields, HttpHeader.TRANSFER_ENCODING) == CHUNKED then
      if data[|data| - 5..] != LAST_CHUNK then Some(Parsed(false, st))
      else
        match Dechunked(data, start, |data| - 5, [])
        case Undefined => None
        case BadSize(b) => Some(Parsed(false, st.(body := b)))
        case Decoded(b) => Some(Parsed(true, st.(body := b, header := st.header.(chunkedSize := |b|))))
        case Overrun(b) => Some(Parsed(true, st.(body := b, header := st.header.(chunkedSize := |b|))))
    else if AllSize(st.header, pos) == |data| then Some(Parsed(true, st.(body := st.body + data[start..])))
    else Some(Parsed(false, st))
  }

  /** What `Parse` returns and leaves; `None` where the source leaves its buffer, as it does right away when
      it looks for the four bytes of a blank line in one to three. */
  function ParsedResponse(st: State, data: ByteArray): (r: Option<Parsed>)
    ensures r.Some? && r.value.ok ==> r.value.state.size <= |data|
  {
    if 1 <= |data| <= 3 then None
    else match Search(data, HttpHeader.CRLFCRLF, 0, |data|)
    case None => Some(Parsed(false, st))
    case Some(end) =>
      var st := st.(size := end + 4);
      match Search(data, HttpHeader.CRLF, 0, |data|)
      case None => Some(Parsed(false, st))
      case Some(pos) => AfterStatus(st, data, pos)
  }

  function AfterStatus(st: State, data: ByteArray, pos: nat): (r: Option<Parsed>)
    requires pos < |data|
    ensures r.Some? ==> r.value.state.size == st.size
  {
    match StatusParts(st, data, pos)
    case None => Some(Parsed(false, st))
    case Some(s) =>
      var st := WithStatus(st, s);
      if s.code.None? || st.header.complete then Some(Parsed(false, st))
      else
        var h := HttpHeader.Parsed(st.header, data, pos + 2);
        if !h.complete then Some(Parsed(false, st.(header := h)))
        else
          HttpHeader.ParsedLonger(st.header, data, data, pos + 2);
          WithBody(st.(header := h), data, pos)
  }

  // ---------------------------------------------------------------- the object

  class Response {
    var version: ByteArray
    var code: nat
    var phrase: ByteArray
    var body: ByteArray
    var size: nat
    const header: HttpHeader.HttpHeader

    constructor (serverName: ByteArray)
      ensures Value() == Fresh(serverName) && fresh(header)
    {
      version, code, phrase, body, size := Fresh(serverName).version, 200, [], [], 0;
      header := new HttpHeader.HttpHeader();
      new;
      header.SetHeader(HttpHeader.SERVER, serverName);
    }

    function Value(): State
      reads this, header
    {
      State(version, code, phrase, header.Value(), body, size)
    }

    method ParseStatusLine(data: ByteArray, pos: nat) returns (ok: bool)
      requires pos < |data|
      modifies this
      ensures match StatusParts(old(Value()), data, pos) {
                case None => !ok && Value() == old(Value())
                case Some(s) => ok == s.code.Some? && Value() == WithStatus(old(Value()), s)
              }
    {
      hide Pieces, Trim, Stoi;
      var ranges := Split(data, [SPACE], 0, pos);
      if |ranges| < 3 {
        return false;
      }
      version := TrimString(Piece(data, ranges[0]));
      var i := Stoi(Piece(data, ranges[1]), 10);
      if i.None? {
        return false;
      }
      code := Truncated(i.value);
      var joined := JoinPhrase(data, ranges[2..]);
      phrase := TrimString(joined);
      ok := true;
    }

    method JoinPhrase(data: ByteArray, ranges: seq<Range>) returns (joined: ByteArray)
      requires forall k :: 0 <= k < |ranges| ==> InRange(ranges[k], data)
      ensures joined == Joined(phrase, data, ranges)
    {
      joined := phrase;
      for i := 0 to |ranges|
        invariant Joined(joined, data, ranges[i..]) == Joined(phrase, data, ranges)
      {
        assert ranges[i..][1..] == ranges[i + 1..];
        joined := joined + (if joined == [] then [] else [SPACE]) + Piece(data, ranges[i]);
      }
    }

    /** The chunked branch of `DecodeBody`. `None` is the exception of `std::stoi`. */
    method DecodeChunks(data: ByteArray, start: nat) returns (ok: Option<bool>)
      requires |data| >= 5 && start <= |data| && !Dechunked(data, start, |data| - 5, []).Undefined?
      modifies this`body
      ensures match Dechunked(data, start, |data| - 5, []) {
                case Decoded(b) => ok == Some(true) && body == b
                case Overrun(b) => ok == Some(false) && body == b
                case BadSize(b) => ok == None && body == b
                case Undefined => true
              }
    {
      hide Search, MatchesAt, Stoi;
      body := [];
      var dataStart, dataLength := start, |data| - 5;
      while dataStart < dataLength
        invariant Dechunked(data, dataStart, dataLength, body) == Dechunked(data, start, dataLength, [])
        decreases dataLength - dataStart
      {
        var pos := SearchPosition(data, HttpHeader.CRLF, dataStart, None);
        var n := Stoi(data[dataStart..pos.value], 16);
        if n.None? {
          return None;
        }
        var chunkEnd := pos.value + 2 + n.value;
        if chunkEnd <= dataLength {
          body := body + data[pos.value + 2..chunkEnd];
          dataStart := chunkEnd + 2;
        } else {
          return Some(false);
        }
      }
      ok := Some(true);
    }

    /** `Parse`, for bodies without a content encoding; the chunked branch ignores what `DecodeBody`
        returns. */
    method Parse(data: ByteArray) returns (ok: bool)
      requires ParsedResponse(Value(), data).Some?
      modifies this, header
      ensures Parsed(ok, Value()) == ParsedResponse(old(Value()), data).value
    {
      hide Search, MatchesAt, StatusParts, HttpHeader.Parsed, WithBody;
      var end := SearchPosition(data, HttpHeader.CRLFCRLF, 0, None);
      if end.None? {
        return false;
      }
      size := end.value + 4;
      var pos := SearchPosition(data, HttpHeader.CRLF, 0, None);
      if pos.None? {
        return false;
      }
      var status := ParseStatusLine(data, pos.value);
      if !status {
        return false;
      }
      if header.complete {
        return false;
      }
      ghost var before := header.Value();
      var headers := header.Parse(data, pos.value + 2);
      if !headers {
        return false;
      }
      HttpHeader.ParsedLonger(before, data, data, pos.value + 2);
      ok := ParseBody(data, pos.value);
    }

    method ParseBody(data: ByteArray, pos: nat) returns (ok: bool)
      requires pos + 2 + header.headerSize + 4 <= |data| && WithBody(Value(), data, pos).Some?
      modifies this, header
      ensures Parsed(ok, Value()) == WithBody(old(Value()), data, pos).value
    {
      hide Dechunked, HttpHeader.BodySize, HttpHeader.Find;
      var bodySize := header.GetBodySize();
      var start := pos + 2 + header.headerSize + 4;
      var allSize := (start + bodySize) % HttpHeader.TWO_64;
      if |data| < allSize {
        return false;
      }
      var transferEncoding := header.GetHeader(HttpHeader.TRANSFER_ENCODING);
      if transferEncoding == CHUNKED {
        if data[|data| - 5..] != LAST_CHUNK {
          return false;
        }
        var decoded := DecodeChunks(data, start);
        if decoded.None? {
          return false;
        }
        header.chunkedSize := |body|;
        return true;
      }
      if allSize != |data| {
        return false;
      }
      body := body + data[start..];
      ok := true;
    }
  }
}
