/** The texts of the protocol as they go over the wire, written out: names, methods, the client's request and
    the server's answers. */
module WireText {
  import opened Bytes
  import opened Handshake
  import opened HttpHeader
  import opened Numbers
  import opened StringUtil
  import Base64
  import HttpHeaderText
  import Request
  import Response
  import ResponseText

  // ---------------------------------------------------------------- names

  /** The header names, as include/Header.h spells them. */
  lemma NamesAreSpelled()
    ensures Text(CONTENT_LENGTH) == "Content-Length" && Text(HOST) == "Host" && Text(UPGRADE) == "Upgrade"
    ensures Text(CONNECTION) == "Connection" && Text(USER_AGENT) == "User-Agent" && Text(ACCEPT) == "Accept"
    ensures Text(DATE) == "Date" && Text(SERVER) == "Server"
  {
    hide CharFor;
    Ascii();
  }

  lemma LongNamesAreSpelled()
    ensures Text(TRANSFER_ENCODING) == "Transfer-Encoding" && Text(SEC_WEBSOCKET_KEY) == "Sec-WebSocket-Key"
  {
    hide CharFor;
    Ascii();
  }

  lemma AnswerNamesAreSpelled()
    ensures Text(SEC_WEBSOCKET_ACCEPT) == "Sec-WebSocket-Accept"
    ensures Text(SEC_WEBSOCKET_VERSION) == "Sec-WebSocket-Version"
  {
    hide CharFor;
    Ascii();
  }

  lemma ValuesAreSpelled()
    ensures Text(WEBSOCKET) == "websocket" && Text(CLIENT_UPGRADE) == "Upgrade" && Text(SERVER_UPGRADE) == "upgrade"
    ensures Text(WS_VERSION) == "13" && Text(Request.HTTP_1_1) == "HTTP/1.1" && Text(Response.CHUNKED) == "chunked"
    ensures Text(Response.LAST_CHUNK) == "0\r\n\r\n" && Text(CRLF) == "\r\n" && Text(CRLFCRLF) == "\r\n\r\n"
  {
    hide CharFor;
    Ascii();
  }

  lemma ProductIsSpelled()
    ensures Text(Request.PRODUCT) == "WebSocketCpp 0.3" && Text(Request.ANY) == "*/*"
  {
    hide CharFor;
    Ascii();
  }

  lemma PhrasesAreSpelled()
    ensures Text(SWITCHING) == "Switching Protocols" && Text(NOT_FOUND) == "Not Found" && Text(ZERO) == "0"
  {
    hide CharFor;
    Ascii();
  }

  lemma MethodsAreSpelled()
    ensures Text(Request.MethodName(Request.OPTIONS)) == "OPTIONS" && Text(Request.MethodName(Request.GET)) == "GET"
    ensures Text(Request.MethodName(Request.HEAD)) == "HEAD" && Text(Request.MethodName(Request.POST)) == "POST"
    ensures Text(Request.MethodName(Request.PUT)) == "PUT" && Text(Request.MethodName(Request.DELETE)) == "DELETE"
    ensures Text(Request.MethodName(Request.TRACE)) == "TRACE" && Text(Request.MethodName(Request.CONNECT)) == "CONNECT"
  {
    hide CharFor;
    Ascii();
  }

  // ---------------------------------------------------------------- lines

  lemma Text3(a: ByteArray, b: ByteArray, c: ByteArray)
    ensures Text(a + b + c) == Text(a) + Text(b) + Text(c)
  {
    TextConcat(a + b, c);
    TextConcat(a, b);
  }

  lemma SeparatorsAreSpelled()
    ensures Text([COLON, SPACE]) == ": " && Text([SPACE]) == " " && Text(CRLF) == "\r\n"
  {
    Ascii();
  }

  /** A header line. */
  function LineText(name: string, value: string): string {
    name + ": " + value + "\r\n"
  }

  lemma LineOnTheWire(f: Field)
    ensures Text(Line(f) + CRLF) == LineText(Text(f.name), Text(f.value))
  {
    hide Text;
    SeparatorsAreSpelled();
    TextConcat(Line(f), CRLF);
    Text3(f.name, [COLON, SPACE], f.value);
  }

  function HeaderText(fields: seq<Field>): string {
    if fields == [] then "" else LineText(Text(fields[0].name), Text(fields[0].value)) + HeaderText(fields[1..])
  }

  lemma {:induction false} HeaderOnTheWire(fields: seq<Field>)
    ensures Text(Print(fields)) == HeaderText(fields)
    decreases |fields|
  {
    hide Line, LineText;
    if fields == [] {
      assert Print([]) == [] by { NothingPrinted(); }
    } else {
      PrintedFirst(fields);
      HeaderOnTheWire(fields[1..]);
      TextConcat(Line(fields[0]) + CRLF, Print(fields[1..]));
      LineOnTheWire(fields[0]);
    }
  }

  lemma NothingPrinted()
    ensures Print([]) == []
  {
  }

  lemma PrintedFirst(fields: seq<Field>)
    requires fields != []
    ensures Print(fields) == Line(fields[0]) + CRLF + Print(fields[1..])
  {
    HttpHeaderText.PrintFirst(fields);
  }

  lemma HeaderTextNext(f: Field, fields: seq<Field>)
    ensures HeaderText([f] + fields) == LineText(Text(f.name), Text(f.value)) + HeaderText(fields)
  {
    assert ([f] + fields)[1..] == fields;
  }

  lemma HeaderTextOne(f: Field)
    ensures HeaderText([f]) == LineText(Text(f.name), Text(f.value))
  {
    assert [f][1..] == [];
    assert HeaderText([]) == "";
  }

  // ---------------------------------------------------------------- the client's request

  /** The header of the client's request. */
  function OpeningText(host: string, key: string): string {
    LineText("Host", host)
    + (LineText("Upgrade", "websocket")
       + (LineText("Connection", "Upgrade")
          + (LineText("Sec-WebSocket-Key", key)
             + (LineText("Sec-WebSocket-Version", "13")
                + (LineText("User-Agent", "WebSocketCpp 0.3") + LineText("Accept", "*/*"))))))
  }

  lemma OpeningOnTheWire(host: ByteArray, key: ByteArray)
    ensures Text(Print(RequestFields(host, key))) == OpeningText(Text(host), Text(key))
  {
    hide Text, LineText, HeaderText, Print;
    var f := RequestFields(host, key);
    NamesAreSpelled();
    LongNamesAreSpelled();
    AnswerNamesAreSpelled();
    ValuesAreSpelled();
    ProductIsSpelled();
    HeaderOnTheWire(f);
    assert f == [f[0]] + ([f[1]] + ([f[2]] + ([f[3]] + ([f[4]] + ([f[5]] + [f[6]])))));
    HeaderTextNext(f[0], [f[1]] + ([f[2]] + ([f[3]] + ([f[4]] + ([f[5]] + [f[6]])))));
    HeaderTextNext(f[1], [f[2]] + ([f[3]] + ([f[4]] + ([f[5]] + [f[6]]))));
    HeaderTextNext(f[2], [f[3]] + ([f[4]] + ([f[5]] + [f[6]])));
    HeaderTextNext(f[3], [f[4]] + ([f[5]] + [f[6]]));
    HeaderTextNext(f[4], [f[5]] + [f[6]]);
    HeaderTextNext(f[5], [f[6]]);
    HeaderTextOne(f[6]);
  }

  /** A path that does not begin with a slash is given one. */
  function PathText(path: string): string {
    if path != "" && path[0] == '/' then path else "/" + path
  }

  lemma PathOnTheWire(path: ByteArray)
    ensures Text(Request.Normalized(path)) == PathText(Text(path))
  {
    Slash(path);
    TextConcat([Request.SLASH], path);
  }

  lemma Slash(path: ByteArray)
    ensures Text([Request.SLASH]) == "/"
    ensures path != [] ==> (path[0] == 47 <==> CharFor(path[0]) == '/')
  {
  }

  /** What `Open` sends. */
  lemma RequestOnTheWire(path: ByteArray, host: ByteArray, key: ByteArray)
    ensures Text(Request.Print(ClientRequest(path, host, key)))
         == "GET " + PathText(Text(path)) + " HTTP/1.1\r\n" + OpeningText(Text(host), Text(key)) + "\r\n"
  {
    hide Text, OpeningText, PathText, Print, RequestFields, Request.Normalized, Request.MethodName;
    var line := Request.PrintLine(Request.GET, path, Request.HTTP_1_1);
    var fields := Print(RequestFields(host, key));
    Text3(line, fields, CRLF);
    OpeningOnTheWire(host, key);
    SeparatorsAreSpelled();
    RequestLineOnTheWire(path);
  }

  lemma RequestLineOnTheWire(path: ByteArray)
    ensures Text(Request.PrintLine(Request.GET, path, Request.HTTP_1_1))
         == "GET " + PathText(Text(path)) + " HTTP/1.1\r\n"
  {
    hide Text, PathText, Request.Normalized, Request.MethodName;
    var m, p, v := Request.MethodName(Request.GET), Request.Normalized(path), Request.HTTP_1_1;
    MethodsAreSpelled();
    ValuesAreSpelled();
    SeparatorsAreSpelled();
    PathOnTheWire(path);
    Text3(m + [SPACE] + p, [SPACE], v);
    Text3(m, [SPACE], p);
    TextConcat(m + [SPACE] + p + [SPACE] + v, CRLF);
    assert "GET" + " " == "GET " && " HTTP/1.1\r\n" == " " + "HTTP/1.1" + "\r\n";
  }

  // ---------------------------------------------------------------- the server's answers

  lemma CodesAreSpelled()
    ensures Text(ToText(101)) == "101" && Text(ToText(200)) == "200" && Text(ToText(404)) == "404"
  {
    Digits();
    assert ToText(10) == ToText(1) + [DigitText(0)] && ToText(20) == ToText(2) + [DigitText(0)];
    assert ToText(40) == ToText(4) + [DigitText(0)];
    assert ToText(101) == [49, 48, 49] && ToText(200) == [50, 48, 48] && ToText(404) == [52, 48, 52];
    Ascii();
  }

  lemma Digits()
    ensures DigitText(0) == 48 && DigitText(1) == 49 && DigitText(2) == 50 && DigitText(4) == 52
  {
    assert CountTo(0) == 0 && CountTo(1) == 1 && CountTo(2) == 2 && CountTo(3) == 3;
  }

  lemma StatusOnTheWire(code: nat, phrase: ByteArray)
    ensures Text(ResponseText.StatusLine(Request.HTTP_1_1, code, phrase))
         == "HTTP/1.1 " + Text(ToText(code)) + " " + Text(phrase) + "\r\n"
  {
    hide Text, ToText;
    var v, c := Request.HTTP_1_1, ToText(code);
    ValuesAreSpelled();
    SeparatorsAreSpelled();
    TextConcat(v + [SPACE] + c + [SPACE] + phrase, CRLF);
    Text3(v + [SPACE] + c, [SPACE], phrase);
    Text3(v, [SPACE], c);
    assert "HTTP/1.1" + " " == "HTTP/1.1 ";
  }

  /** The header of the 101 answer. */
  function SwitchingText(server: string, date: string, accept: string): string {
    LineText("Server", server)
    + (LineText("Date", date)
       + (LineText("Upgrade", "websocket")
          + (LineText("Connection", "upgrade")
             + (LineText("Sec-WebSocket-Accept", accept) + LineText("Sec-WebSocket-Version", "13")))))
  }

  lemma SwitchingOnTheWire(server: ByteArray, date: ByteArray, accept: ByteArray)
    ensures Text(Print(AnswerFields(server, date, accept))) == SwitchingText(Text(server), Text(date), Text(accept))
  {
    hide Text, LineText, HeaderText, Print;
    var f := AnswerFields(server, date, accept);
    NamesAreSpelled();
    AnswerNamesAreSpelled();
    ValuesAreSpelled();
    HeaderOnTheWire(f);
    assert f == [f[0]] + ([f[1]] + ([f[2]] + ([f[3]] + ([f[4]] + [f[5]]))));
    HeaderTextNext(f[0], [f[1]] + ([f[2]] + ([f[3]] + ([f[4]] + [f[5]]))));
    HeaderTextNext(f[1], [f[2]] + ([f[3]] + ([f[4]] + [f[5]])));
    HeaderTextNext(f[2], [f[3]] + ([f[4]] + [f[5]]));
    HeaderTextNext(f[3], [f[4]] + [f[5]]);
    HeaderTextNext(f[4], [f[5]]);
    HeaderTextOne(f[5]);
  }

  /** What the server answers by default to a request that a route takes. */
  lemma AnswerOnTheWire(q: Request.State, server: ByteArray, date: ByteArray)
    ensures var accept := Text(AcceptKey(OrEmpty(First(q.header.fields, SEC_WEBSOCKET_KEY))));
            Text(Answer(q, server, date))
            == "HTTP/1.1 101 Switching Protocols\r\n" + SwitchingText(Text(server), Text(date), accept) + "\r\n"
  {
    hide Text, SwitchingText, Print, AnswerFields, Get, First, AcceptKey, ResponseText.StatusLine, ToText;
    var key := Get(q.header.fields, SEC_WEBSOCKET_KEY);
    GetIsFirst(q.header.fields, SEC_WEBSOCKET_KEY);
    Text3(AnswerHead(), Print(AnswerFields(server, date, AcceptKey(key))), CRLF);
    StatusOnTheWire(101, SWITCHING);
    CodesAreSpelled();
    PhrasesAreSpelled();
    SeparatorsAreSpelled();
    SwitchingOnTheWire(server, date, AcceptKey(key));
    assert "HTTP/1.1 " + "101" + " " + "Switching Protocols" + "\r\n" == "HTTP/1.1 101 Switching Protocols\r\n";
  }

  /** What it answers where no route does, and where default processing is off. */
  lemma RefusalsOnTheWire(server: ByteArray)
    ensures Text(ResponseText.Head(Request.HTTP_1_1, 200, [], [Field(SERVER, server)]))
         == "HTTP/1.1 200 \r\n" + LineText("Server", Text(server)) + "\r\n"
    ensures Text(ResponseText.Head(Request.HTTP_1_1, 404, NOT_FOUND, [Field(SERVER, server),
              Field(CONTENT_LENGTH, ZERO)]))
         == "HTTP/1.1 404 Not Found\r\n" + (LineText("Server", Text(server)) + LineText("Content-Length", "0")) + "\r\n"
  {
    hide Text, LineText, HeaderText, Print, ResponseText.StatusLine, ToText;
    var f := Field(SERVER, server);
    var g := Field(CONTENT_LENGTH, ZERO);
    NamesAreSpelled();
    PhrasesAreSpelled();
    CodesAreSpelled();
    SeparatorsAreSpelled();
    NoText();
    StatusOnTheWire(200, []);
    StatusOnTheWire(404, NOT_FOUND);
    HeaderOnTheWire([f]);
    HeaderOnTheWire([f, g]);
    HeaderTextOne(f);
    HeaderTextOne(g);
    HeaderTextNext(f, [g]);
    assert [f] + [g] == [f, g];
    Text3(ResponseText.StatusLine(Request.HTTP_1_1, 200, []), Print([f]), CRLF);
    Text3(ResponseText.StatusLine(Request.HTTP_1_1, 404, NOT_FOUND), Print([f, g]), CRLF);
    assert "HTTP/1.1 " + "200" + " " + "" + "\r\n" == "HTTP/1.1 200 \r\n";
    assert "HTTP/1.1 " + "404" + " " + "Not Found" + "\r\n" == "HTTP/1.1 404 Not Found\r\n";
  }

  lemma NoText()
    ensures Text([]) == ""
  {
  }
}
