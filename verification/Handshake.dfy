/** The opening handshake between the library's client and its server: `Open` and the handshake branch of
    `OnDataReady` (src/WebSocketClient.cpp), the default branch of `ProcessRequest`
    (src/WebSocketServer.cpp); section 4 of RFC 6455. */
module Handshake {
  import opened Bytes
  import opened HttpHeader
  import opened HttpHeaderText
  import opened StringUtil
  import opened Wrappers
  import Base64
  import Numbers
  import Request
  import RequestText
  import Response
  import ResponseText
  import Route
  import Sha1Spec

  // 258EAFA5-E914-47DA-95CA-C5AB0DC85B11
  const KEY_TOKEN: ByteArray := [50, 53, 56, 69, 65, 70, 65, 53, 45, 69, 57, 49, 52, 45, 52, 55, 68, 65, 45, 57, 53, 67,
    65, 45, 67, 53, 65, 66, 48, 68, 67, 56, 53, 66, 49, 49]
  const WS_VERSION: ByteArray := [49, 51]  // 13
  const WEBSOCKET: ByteArray := [119, 101, 98, 115, 111, 99, 107, 101, 116]  // websocket
  const CLIENT_UPGRADE: ByteArray := [85, 112, 103, 114, 97, 100, 101]  // Upgrade
  const SERVER_UPGRADE: ByteArray := [117, 112, 103, 114, 97, 100, 101]  // upgrade
  // Switching Protocols
  const SWITCHING: ByteArray := [83, 119, 105, 116, 99, 104, 105, 110, 103, 32, 80, 114, 111, 116, 111, 99, 111, 108,
    115]

  /** Section 4.2.2 of RFC 6455, item 5.4: the hash of the key and the GUID, in Base64. */
  function AcceptKey(key: ByteArray): ByteArray {
    Base64.Encode(Sha1Spec.Hash(key + KEY_TOKEN))
  }

  // ---------------------------------------------------------------- what the client sends

  /** The header of a fresh request after `Open`. */
  function OpeningFields(host: ByteArray, key: ByteArray): seq<Field> {
    [Field(HOST, host), Field(UPGRADE, WEBSOCKET), Field(CONNECTION, CLIENT_UPGRADE),
     Field(SEC_WEBSOCKET_KEY, key), Field(SEC_WEBSOCKET_VERSION, WS_VERSION)]
  }

  function RequestFields(host: ByteArray, key: ByteArray): seq<Field> {
    OpeningFields(host, key) + [Field(USER_AGENT, Request.PRODUCT), Field(ACCEPT, Request.ANY)]
  }

  function ClientRequest(path: ByteArray, host: ByteArray, key: ByteArray): Request.State {
    Request.State(Request.GET, path, Request.HTTP_1_1, 0, FRESH.(fields := RequestFields(host, key)))
  }

  // ---------------------------------------------------------------- what the server answers

  function AnswerFields(serverName: ByteArray, date: ByteArray, accept: ByteArray): seq<Field> {
    [Field(SERVER, serverName), Field(DATE, date), Field(UPGRADE, WEBSOCKET), Field(CONNECTION, SERVER_UPGRADE),
     Field(SEC_WEBSOCKET_ACCEPT, accept), Field(SEC_WEBSOCKET_VERSION, WS_VERSION)]
  }

  function AnswerHead(): ByteArray {
    ResponseText.StatusLine(Request.HTTP_1_1, 101, SWITCHING)
  }

  /** The bytes of the answer to a request, when a route matches and no callback handles it. */
  function Answer(q: Request.State, serverName: ByteArray, date: ByteArray): ByteArray {
    AnswerHead() + Print(AnswerFields(serverName, date, AcceptKey(Get(q.header.fields, SEC_WEBSOCKET_KEY)))) + CRLF
  }

  /** Building it: the response starts with this side's own `Server` header. */
  method BuildAnswer(q: Request.State, serverName: ByteArray, date: ByteArray) returns (bytes: ByteArray)
    ensures bytes == Answer(q, serverName, date)
  {
    hide Set, Print, Find, AcceptKey, AnswerHead;
    var key := Get(q.header.fields, SEC_WEBSOCKET_KEY);
    var accept := AcceptKey(key);
    var header := new HttpHeader();
    header.SetHeader(SERVER, serverName);
    header.SetHeader(DATE, date);
    header.SetHeader(UPGRADE, WEBSOCKET);
    header.SetHeader(CONNECTION, SERVER_UPGRADE);
    header.SetHeader(SEC_WEBSOCKET_ACCEPT, accept);
    header.SetHeader(SEC_WEBSOCKET_VERSION, WS_VERSION);
    SetInTurn(serverName, date, accept);
    var headers := header.ToByteArray();
    bytes := AnswerHead() + headers + CRLF;
  }

  // ---------------------------------------------------------------- what the client makes of it

  datatype ClientState = Shaking | BinaryMessage | Closed

  /** The answer the client accepts: code, upgrade, connection and key, checked in this order. */
  predicate Accepted(r: Response.State, key: ByteArray) {
    && r.code == 101
    && Lower(Get(r.header.fields, UPGRADE)) == WEBSOCKET
    && Lower(Get(r.header.fields, CONNECTION)) == SERVER_UPGRADE
    && Get(r.header.fields, SEC_WEBSOCKET_ACCEPT) == AcceptKey(key)
  }

  class WebSocketClient {
    var data: ByteArray
    var state: ClientState
    const key: ByteArray
    const serverName: ByteArray

    constructor (key: ByteArray, serverName: ByteArray)
      ensures data == [] && state == Shaking && this.key == key && this.serverName == serverName
    {
      data, state := [], Shaking;
      this.key, this.serverName := key, serverName;
    }

    /** `Open` with a fresh GET request, once the connection is there: what it hands to the connection. */
    method Open(path: ByteArray, host: ByteArray) returns (bytes: ByteArray)
      ensures bytes == Request.Print(ClientRequest(path, host, key))
    {
      hide Set, Print, Find;
      var request := new Request.Request();
      request.verb, request.path := Request.GET, path;
      request.header.SetHeader(HOST, host);
      request.header.SetHeader(UPGRADE, WEBSOCKET);
      request.header.SetHeader(CONNECTION, CLIENT_UPGRADE);
      request.header.SetHeader(SEC_WEBSOCKET_KEY, key);
      request.header.SetHeader(SEC_WEBSOCKET_VERSION, WS_VERSION);
      OpenInTurn(host, key);
      OpenSets(host, key);
      bytes := request.Send(host);
    }

    /** The handshake branch of `OnDataReady`: one reading decides. */
    method OnDataReady(chunk: ByteArray)
      requires state == Shaking
      requires Response.ParsedResponse(Response.Fresh(serverName), data + chunk).Some?
      modifies this
      ensures var p := Response.ParsedResponse(Response.Fresh(serverName), old(data) + chunk).value;
              if p.ok && Accepted(p.state, key)
              then state == BinaryMessage && data == (old(data) + chunk)[p.state.size..]
              else state == Closed && data == old(data) + chunk
    {
      hide Response.ParsedResponse, Find, AcceptKey;
      data := data + chunk;
      var response := new Response.Response(serverName);
      var parsed := response.Parse(data);
      if parsed && response.code == 101 {
        var h := response.header.GetHeader(UPGRADE);
        if Lower(h) == WEBSOCKET {
          h := response.header.GetHeader(CONNECTION);
          if Lower(h) == SERVER_UPGRADE {
            h := response.header.GetHeader(SEC_WEBSOCKET_ACCEPT);
            if h == AcceptKey(key) {
              state := BinaryMessage;
              data := data[response.size..];
              return;
            }
          }
        }
      }
      state := Closed;
    }
  }

  /** The branch as a function of the buffer: the client's state, and the bytes it keeps. `None` where the
      source leaves its buffer. */
  function AfterRead(data: ByteArray, key: ByteArray, serverName: ByteArray): Option<(ClientState, ByteArray)> {
    match Response.ParsedResponse(Response.Fresh(serverName), data)
    case None => None
    case Some(p) =>
      Some(if p.ok && Accepted(p.state, key) then (BinaryMessage, data[p.state.size..]) else (Closed, data))
  }

  // ---------------------------------------------------------------- names and values

  lemma OtherLength(a: ByteArray, b: ByteArray)
    requires |a| != |b|
    ensures !SameName(a, b)
  {
  }

  lemma AgentIsNotConnection()
    ensures !SameName(USER_AGENT, CONNECTION) && !SameName(CONNECTION, USER_AGENT)
  {
    assert Lower(USER_AGENT)[0] != Lower(CONNECTION)[0];
  }

  lemma AnswerNamesDiffer(serverName: ByteArray, date: ByteArray, accept: ByteArray)
    ensures DistinctNames(AnswerFields(serverName, date, accept))
  {
    var f := AnswerFields(serverName, date, accept);
    forall i, j | 0 <= i < j < |f| ensures !SameName(f[i].name, f[j].name) { OtherLength(f[i].name, f[j].name); }
  }

  lemma RequestNamesDiffer(host: ByteArray, key: ByteArray)
    ensures DistinctNames(RequestFields(host, key))
  {
    var f := RequestFields(host, key);
    forall i, j | 0 <= i < j < |f| ensures !SameName(f[i].name, f[j].name) {
      if i == 2 && j == 5 { AgentIsNotConnection(); } else { OtherLength(f[i].name, f[j].name); }
    }
  }

  lemma GetAt(fields: seq<Field>, i: nat)
    requires DistinctNames(fields) && i < |fields|
    ensures Get(fields, fields[i].name) == fields[i].value
  {
    FindIs(fields, fields[i].name, i);
  }

  predicate PlainValue(v: ByteArray) {
    OneLine(v) && Trimmed(v)
  }

  lemma EncodedIsPlain(b: ByteArray)
    ensures PlainValue(Base64.Encode(b))
  {
    hide Base64.Encode;
    Base64.EncodeText(b);
  }

  predicate PlainFieldName(name: ByteArray) {
    name != [] && Trimmed(name) && OneLine(name) && Free(name, COLON)
  }

  /** Letters and hyphens. */
  predicate Lettered(name: ByteArray) {
    name != [] && forall k :: 0 <= k < |name| ==> name[k] == 45 || 65 <= name[k] <= 90 || 97 <= name[k] <= 122
  }

  lemma LetteredIsPlain(name: ByteArray)
    requires Lettered(name)
    ensures PlainFieldName(name)
  {
  }

  lemma RequestNamesArePlain()
    ensures PlainFieldName(HOST) && PlainFieldName(UPGRADE) && PlainFieldName(CONNECTION)
            && PlainFieldName(SEC_WEBSOCKET_KEY)
    ensures PlainFieldName(SEC_WEBSOCKET_VERSION) && PlainFieldName(USER_AGENT) && PlainFieldName(ACCEPT)
  {
    hide PlainFieldName;
    LetteredIsPlain(HOST);
    LetteredIsPlain(UPGRADE);
    LetteredIsPlain(CONNECTION);
    LetteredIsPlain(SEC_WEBSOCKET_KEY);
    LetteredIsPlain(SEC_WEBSOCKET_VERSION);
    LetteredIsPlain(USER_AGENT);
    LetteredIsPlain(ACCEPT);
  }

  lemma AnswerNamesArePlain()
    ensures PlainFieldName(SERVER) && PlainFieldName(DATE) && PlainFieldName(UPGRADE) && PlainFieldName(CONNECTION)
    ensures PlainFieldName(SEC_WEBSOCKET_ACCEPT) && PlainFieldName(SEC_WEBSOCKET_VERSION)
  {
    hide PlainFieldName;
    LetteredIsPlain(SERVER);
    LetteredIsPlain(DATE);
    LetteredIsPlain(UPGRADE);
    LetteredIsPlain(CONNECTION);
    LetteredIsPlain(SEC_WEBSOCKET_ACCEPT);
    LetteredIsPlain(SEC_WEBSOCKET_VERSION);
  }

  lemma ValuesArePlain()
    ensures PlainValue(WEBSOCKET) && PlainValue(CLIENT_UPGRADE) && PlainValue(SERVER_UPGRADE) && PlainValue(WS_VERSION)
    ensures PlainValue(Request.PRODUCT) && PlainValue(Request.ANY)
  {
  }

  lemma RequestIsPrintable(host: ByteArray, key: ByteArray)
    requires PlainValue(host) && PlainValue(key)
    ensures AllPrintable(RequestFields(host, key))
  {
    hide PlainFieldName, PlainValue;
    RequestNamesArePlain();
    ValuesArePlain();
    var f := RequestFields(host, key);
    forall k | 0 <= k < |f| ensures Printable(f[k]) { PlainIsPrintable(f[k]); }
  }

  lemma PlainIsPrintable(f: Field)
    requires PlainFieldName(f.name) && PlainValue(f.value)
    ensures Printable(f)
  {
  }

  lemma AnswerIsPrintable(serverName: ByteArray, date: ByteArray, accept: ByteArray)
    requires PlainValue(serverName) && PlainValue(date) && PlainValue(accept)
    ensures AllPrintable(AnswerFields(serverName, date, accept))
  {
    hide PlainFieldName, PlainValue;
    AnswerNamesArePlain();
    ValuesArePlain();
    var f := AnswerFields(serverName, date, accept);
    forall k | 0 <= k < |f| ensures Printable(f[k]) { PlainIsPrintable(f[k]); }
  }

  lemma SetInTurn(serverName: ByteArray, date: ByteArray, accept: ByteArray)
    ensures var f := AnswerFields(serverName, date, accept);
            Set(Set(Set(Set(Set(Set([], f[0]), f[1]), f[2]), f[3]), f[4]), f[5]) == f
  {
    hide Set, DistinctNames;
    var f := AnswerFields(serverName, date, accept);
    AnswerNamesDiffer(serverName, date, accept);
    assert [] + f == f;
    SetAllDistinct([], f);
    UnfoldSix(f);
  }

  lemma OpenInTurn(host: ByteArray, key: ByteArray)
    ensures var f := OpeningFields(host, key); Set(Set(Set(Set(Set([], f[0]), f[1]), f[2]), f[3]), f[4]) == f
  {
    hide Set, DistinctNames;
    var f := OpeningFields(host, key);
    OpeningNamesDiffer(host, key);
    assert [] + f == f;
    SetAllDistinct([], f);
    UnfoldFive(f);
  }

  lemma OpeningNamesDiffer(host: ByteArray, key: ByteArray)
    ensures DistinctNames(OpeningFields(host, key))
  {
    hide SameName;
    RequestNamesDiffer(host, key);
    var f, all := OpeningFields(host, key), RequestFields(host, key);
    assert forall k :: 0 <= k < |f| ==> f[k] == all[k];
  }

  lemma UnfoldFive(f: seq<Field>)
    requires |f| == 5
    ensures SetAll([], f) == Set(Set(Set(Set(Set([], f[0]), f[1]), f[2]), f[3]), f[4])
  {
    hide Set;
    var s1 := Set([], f[0]);
    var s2 := Set(s1, f[1]);
    var s3 := Set(s2, f[2]);
    var s4 := Set(s3, f[3]);
    assert f[1..][1..] == f[2..] && f[2..][1..] == f[3..] && f[3..][1..] == f[4..] && f[4..][1..] == [];
    assert SetAll([], f) == SetAll(s1, f[1..]);
    assert SetAll(s1, f[1..]) == SetAll(s2, f[2..]);
    assert SetAll(s2, f[2..]) == SetAll(s3, f[3..]);
    assert SetAll(s3, f[3..]) == SetAll(s4, f[4..]);
    assert SetAll(s4, f[4..]) == SetAll(Set(s4, f[4]), []);
  }

  lemma UnfoldSix(f: seq<Field>)
    requires |f| == 6
    ensures SetAll([], f) == Set(Set(Set(Set(Set(Set([], f[0]), f[1]), f[2]), f[3]), f[4]), f[5])
  {
    hide Set;
    var s1 := Set([], f[0]);
    var s2 := Set(s1, f[1]);
    var s3 := Set(s2, f[2]);
    var s4 := Set(s3, f[3]);
    var s5 := Set(s4, f[4]);
    assert f[1..][1..] == f[2..] && f[2..][1..] == f[3..] && f[3..][1..] == f[4..] && f[4..][1..] == f[5..]
           && f[5..][1..] == [];
    assert SetAll([], f) == SetAll(s1, f[1..]);
    assert SetAll(s1, f[1..]) == SetAll(s2, f[2..]);
    assert SetAll(s2, f[2..]) == SetAll(s3, f[3..]);
    assert SetAll(s3, f[3..]) == SetAll(s4, f[4..]);
    assert SetAll(s4, f[4..]) == SetAll(s5, f[5..]);
    assert SetAll(s5, f[5..]) == SetAll(Set(s5, f[5]), []);
  }

  // ---------------------------------------------------------------- agreement

  /** `Open` and `Send` on a fresh request set exactly these fields. */
  lemma OpenSets(host: ByteArray, key: ByteArray)
    ensures Request.WithDefaults(OpeningFields(host, key), host) == RequestFields(host, key)
  {
    hide Set;
    var f := OpeningFields(host, key);
    RequestNamesDiffer(host, key);
    var agent, accept := Field(USER_AGENT, Request.PRODUCT), Field(ACCEPT, Request.ANY);
    assert f + [agent] + [accept] == RequestFields(host, key);
    AddOneField(f, agent, [accept]);
    HostIsThere(f + [agent], host);
    AddOneField(f + [agent], accept, []);
    assert f + [agent] + [accept] + [] == f + [agent] + [accept];
  }

  lemma HostIsThere(fields: seq<Field>, host: ByteArray)
    requires fields != [] && fields[0].name == HOST
    ensures Set(fields, Field(HOST, host)) == fields
  {
    FindIs(fields, HOST, 0);
  }

  /** What the server reads out of the client's request. */
  lemma RequestArrives(path: ByteArray, host: ByteArray, key: ByteArray)
    requires RequestText.PlainPath(path) && PlainValue(host) && PlainValue(key)
    ensures var q := Request.Parsed(Request.FRESH, Request.Print(ClientRequest(path, host, key)));
            && Request.Complete(q) && q.verb == Request.GET && q.path == Request.Normalized(path)
            && Get(q.header.fields, SEC_WEBSOCKET_KEY) == key
  {
    hide Request.Parsed, Request.Print, AllPrintable, DistinctNames, Find, RequestText.PlainPath;
    var r := ClientRequest(path, host, key);
    RequestIsPrintable(host, key);
    RequestNamesDiffer(host, key);
    VersionIsPlain();
    RequestText.RequestRoundTrip(r, []);
    assert Request.Print(r) + [] == Request.Print(r);
    GetAt(RequestFields(host, key), 3);
  }

  lemma VersionIsPlain()
    ensures RequestText.PlainVersion(Request.HTTP_1_1) && Request.HTTP_1_1 != []
  {
  }

  lemma SwitchingIsPlain()
    ensures ResponseText.PlainStatus(Request.HTTP_1_1, 101, SWITCHING)
  {
    VersionIsPlain();
  }

  /** The client's own `Server` header stays in front; the rest of the answer follows it. */
  lemma ClientHolds(clientName: ByteArray, serverName: ByteArray, date: ByteArray, accept: ByteArray)
    ensures SetAll([Field(SERVER, clientName)], AnswerFields(serverName, date, accept))
            == AnswerFields(clientName, date, accept)
  {
    hide Set, DistinctNames;
    var f, g := AnswerFields(serverName, date, accept), AnswerFields(clientName, date, accept);
    var own := [Field(SERVER, clientName)];
    AnswerNamesDiffer(clientName, date, accept);
    ServerIsThere(own, serverName);
    assert own + f[1..] == g;
    SetAllDistinct(own, f[1..]);
  }

  lemma ServerIsThere(fields: seq<Field>, name: ByteArray)
    requires fields != [] && fields[0].name == SERVER
    ensures Set(fields, Field(SERVER, name)) == fields
  {
    FindIs(fields, SERVER, 0);
  }

  lemma AnswerIsAccepted(clientName: ByteArray, date: ByteArray, key: ByteArray, r: Response.State)
    requires r.code == 101 && r.header.fields == AnswerFields(clientName, date, AcceptKey(key))
    ensures Accepted(r, key)
    ensures Get(r.header.fields, TRANSFER_ENCODING) == [] && Get(r.header.fields, CONTENT_LENGTH) == []
  {
    hide Find, AcceptKey, DistinctNames, SameName;
    var f := AnswerFields(clientName, date, AcceptKey(key));
    AnswerNamesDiffer(clientName, date, AcceptKey(key));
    GetAt(f, 2);
    GetAt(f, 3);
    GetAt(f, 4);
    LowerStays();
    forall k | 0 <= k < |f| ensures !SameName(f[k].name, TRANSFER_ENCODING) && !SameName(f[k].name, CONTENT_LENGTH) {
      OtherLength(f[k].name, TRANSFER_ENCODING);
      OtherLength(f[k].name, CONTENT_LENGTH);
    }
    FindNone(f, TRANSFER_ENCODING);
    FindNone(f, CONTENT_LENGTH);
  }

  lemma LowerStays()
    ensures Lower(WEBSOCKET) == WEBSOCKET && Lower(SERVER_UPGRADE) == SERVER_UPGRADE
  {
  }

  /** The answer as the client parses it, with `rest` behind it. */
  lemma AnswerParses(serverName: ByteArray, clientName: ByteArray, date: ByteArray, key: ByteArray, rest: ByteArray)
    requires PlainValue(serverName) && PlainValue(date)
    requires |AnswerHead() + Print(AnswerFields(serverName, date, AcceptKey(key))) + CRLF + rest| < TWO_64
    ensures var answer := AnswerHead() + Print(AnswerFields(serverName, date, AcceptKey(key))) + CRLF;
            AfterRead(answer + rest, key, clientName)
              == Some(if rest == [] then (BinaryMessage, []) else (Closed, answer + rest))
  {
    hide AcceptKey, Print, AllPrintable, SetAll, Get, Find, PlainValue, Response.ParsedResponse, Response.WithBody,
      ResponseText.StatusLine, ResponseText.PlainStatus, Accepted;
    var f := AnswerFields(serverName, date, AcceptKey(key));
    var answer := AnswerHead() + Print(f) + CRLF;
    var st := Response.Fresh(clientName);
    EncodedIsPlain(Sha1Spec.Hash(key + KEY_TOKEN));
    assert PlainValue(AcceptKey(key)) by { AcceptIsPlain(key); }
    AnswerIsPrintable(serverName, date, AcceptKey(key));
    SwitchingIsPlain();
    ResponseText.HeadParses(st, Request.HTTP_1_1, 101, SWITCHING, f, rest);
    ClientHolds(clientName, serverName, date, AcceptKey(key));
    var s := ResponseText.HeadState(st, Request.HTTP_1_1, 101, SWITCHING, f);
    AnswerIsAccepted(clientName, date, key, s);
    assert |AnswerHead()| >= 2;
    WholeBody(s, answer + rest, |AnswerHead()| - 2, |answer|);
    if rest == [] {
      assert answer + rest == answer && answer[|answer|..] == [];
      BodyDoesNotMatter(s, key);
    }
  }

  lemma AcceptIsPlain(key: ByteArray)
    ensures PlainValue(AcceptKey(key))
  {
    EncodedIsPlain(Sha1Spec.Hash(key + KEY_TOKEN));
  }

  lemma BodyDoesNotMatter(s: Response.State, key: ByteArray)
    requires Accepted(s, key) && s.body == []
    ensures Accepted(s.(body := [] + []), key)
  {
  }

  /** Without a body, the head has to be all there is. */
  lemma WholeBody(s: Response.State, data: ByteArray, pos: nat, size: nat)
    requires pos + 2 + s.header.headerSize + 4 == size <= |data| < TWO_64 && s.body == [] && s.header.chunkedSize == 0
    requires Get(s.header.fields, TRANSFER_ENCODING) == [] && Get(s.header.fields, CONTENT_LENGTH) == []
    ensures Response.WithBody(s, data, pos) == Some(Response.Parsed(size == |data|, s))
  {
    hide Get;
    ResponseText.NoLength(s.header);
    assert data[|data|..] == [] && [] + [] == s.body;
  }

  /** A part of the answer has no blank line in it yet. */
  lemma PartDoesNotParse(serverName: ByteArray, clientName: ByteArray, date: ByteArray, key: ByteArray, k: nat)
    requires PlainValue(serverName) && PlainValue(date)
    requires k < |AnswerHead() + Print(AnswerFields(serverName, date, AcceptKey(key))) + CRLF| && (k == 0 || k >= 4)
    ensures var answer := AnswerHead() + Print(AnswerFields(serverName, date, AcceptKey(key))) + CRLF;
            AfterRead(answer[..k], key, clientName) == Some((Closed, answer[..k]))
  {
    hide AcceptKey, Print, AllPrintable, Find, PlainValue, ResponseText.StatusLine, Accepted, Search, MatchesAt;
    var f := AnswerFields(serverName, date, AcceptKey(key));
    var answer := AnswerHead() + Print(f) + CRLF;
    AcceptIsPlain(key);
    AnswerIsPrintable(serverName, date, AcceptKey(key));
    var text := RequestText.ThreeParts(Request.HTTP_1_1, Numbers.ToText(101), SWITCHING);
    SwitchingIsPlain();
    ResponseText.LineOfStatus(Request.HTTP_1_1, 101, SWITCHING, []);
    ResponseText.StatusIsOneLine(Request.HTTP_1_1, 101, SWITCHING);
    ResponseText.FirstBlankLine(text, f, []);
    assert text + CRLF == AnswerHead() by { ResponseText.StatusIsOneLine(Request.HTTP_1_1, 101, SWITCHING); }
    assert text + CRLF + Print(f) + CRLF + [] == answer;
    NoBlankLineYet(answer, k);
  }

  lemma NoBlankLineYet(answer: ByteArray, k: nat)
    requires k < |answer| && Search(answer, CRLFCRLF, 0, |answer|) == Some(|answer| - 4)
    ensures Search(answer[..k], CRLFCRLF, 0, k) == None
  {
    hide MatchesAt;
    if Search(answer[..k], CRLFCRLF, 0, k).Some? {
      SearchWider(answer[..k], answer, CRLFCRLF, 0, k, |answer|);
    }
  }

  /** The handshake between client and server: for every key, query-free path and host, the request
      arrives with its key, and the answer, delivered in one read, takes the client to `BinaryMessage`
      with nothing left in its buffer. */
  lemma HandshakeAgrees(
    random: ByteArray, path: ByteArray, host: ByteArray, serverName: ByteArray, clientName: ByteArray, date: ByteArray)
    requires RequestText.PlainPath(path) && PlainValue(host) && PlainValue(serverName) && PlainValue(date)
    requires |AnswerHead() + Print(AnswerFields(serverName, date, AcceptKey(Base64.Encode(random)))) + CRLF| < TWO_64
    ensures var key := Base64.Encode(random);
            var q := Request.Parsed(Request.FRESH, Request.Print(ClientRequest(path, host, key)));
            && Request.Complete(q) && q.path == Request.Normalized(path)
            && AfterRead(Answer(q, serverName, date), key, clientName) == Some((BinaryMessage, []))
  {
    hide AcceptKey, Print, Request.Parsed, Request.Print, PlainValue, AfterRead, AnswerHead, Base64.Encode,
      RequestText.PlainPath, Get;
    var key := Base64.Encode(random);
    EncodedIsPlain(random);
    RequestArrives(path, host, key);
    var answer := AnswerHead() + Print(AnswerFields(serverName, date, AcceptKey(key))) + CRLF;
    assert answer + [] == answer;
    AnswerParses(serverName, clientName, date, key, []);
  }

  lemma TooFewLeave(data: ByteArray, key: ByteArray, clientName: ByteArray)
    requires 1 <= |data| <= 3
    ensures AfterRead(data, key, clientName) == None
  {
  }

  /** It takes exactly one read of exactly the answer: on any part of it, and on any bytes behind it,
      the client gives up. On one to three bytes it does worse: it searches past the end of its buffer. */
  lemma OneReadDecides(
    serverName: ByteArray, clientName: ByteArray, date: ByteArray, key: ByteArray, q: Request.State, data: ByteArray)
    requires PlainValue(serverName) && PlainValue(date) && Get(q.header.fields, SEC_WEBSOCKET_KEY) == key
             && |data| < TWO_64
    requires data <= Answer(q, serverName, date) || Answer(q, serverName, date) <= data
    ensures var after := AfterRead(data, key, clientName);
            && (after.None? <==> 1 <= |data| <= 3)
            && (after.Some? ==> (after.value.0 == BinaryMessage <==> data == Answer(q, serverName, date)))
  {
    hide AcceptKey, Print, PlainValue, AfterRead, AnswerHead, Get;
    var answer := Answer(q, serverName, date);
    if 1 <= |data| <= 3 {
      TooFewLeave(data, key, clientName);
    } else if answer <= data {
      assert answer + data[|answer|..] == data;
      AnswerParses(serverName, clientName, date, key, data[|answer|..]);
    } else {
      assert answer[..|data|] == data;
      PartDoesNotParse(serverName, clientName, date, key, |data|);
    }
  }

  /** Any other code closes the client, though the server takes every answer it could write for a
      completed handshake. */
  lemma RefusalCloses(
    code: nat, phrase: ByteArray, fields: seq<Field>, rest: ByteArray, key: ByteArray, clientName: ByteArray)
    requires code % 0x1_0000 != 101 && ResponseText.PlainStatus(Request.HTTP_1_1, code, phrase) && fields != []
             && AllPrintable(fields)
    ensures var after := AfterRead(ResponseText.Head(Request.HTTP_1_1, code, phrase, fields) + rest, key, clientName);
            && (after.Some? ==> after.value.0 == Closed)
            && (Get(SetAll([Field(SERVER, clientName)], fields), TRANSFER_ENCODING) != Response.CHUNKED ==> after.Some?)
  {
    hide Response.ParsedResponse, Response.WithBody, Print, AllPrintable, SetAll, Get, Accepted,
      ResponseText.StatusLine,
      ResponseText.PlainStatus, ResponseText.Head;
    var st := Response.Fresh(clientName);
    ResponseText.HeadParses(st, Request.HTTP_1_1, code, phrase, fields, rest);
    var s := ResponseText.HeadState(st, Request.HTTP_1_1, code, phrase, fields);
    var data := ResponseText.Head(Request.HTTP_1_1, code, phrase, fields) + rest;
    BodyKeepsCode(s, data, |ResponseText.StatusLine(Request.HTTP_1_1, code, phrase)| - 2);
    forall r: Response.State | r.code == code % 0x1_0000 ensures !Accepted(r, key) { OtherCode(r, key); }
  }

  lemma OtherCode(r: Response.State, key: ByteArray)
    requires r.code != 101
    ensures !Accepted(r, key)
  {
  }

  lemma BodyKeepsCode(s: Response.State, data: ByteArray, pos: nat)
    requires pos + 2 + s.header.headerSize + 4 <= |data|
    ensures Response.WithBody(s, data, pos).Some? ==> Response.WithBody(s, data, pos).value.state.code == s.code
    ensures Get(s.header.fields, TRANSFER_ENCODING) != Response.CHUNKED ==> Response.WithBody(s, data, pos).Some?
  {
    hide Response.Dechunked, Get, BodySize;
  }

  // ---------------------------------------------------------------- the server's choice

  /** `"Not Found"` and `"0"`. */
  const NOT_FOUND: ByteArray := [78, 111, 116, 32, 70, 111, 117, 110, 100]
  const ZERO: ByteArray := [48]

  /** Some route of the server takes the request. */
  predicate Routed(routes: seq<Route.Pattern>, q: Request.State) {
    Route.AnyAccepts(routes, q.verb, Text(q.path))
  }

  /** What `ProcessRequest` writes when no route callback handled the request: an untouched response if no
      route matched, and otherwise the handshake, or 404 where default processing is off. */
  function DefaultAnswer(
    q: Request.State, routes: seq<Route.Pattern>, wsProcessDefault: bool, serverName: ByteArray,
      date: ByteArray): ByteArray {
    if !Routed(routes, q) then ResponseText.Head(Request.HTTP_1_1, 200, [], [Field(SERVER, serverName)])
    else if wsProcessDefault then Answer(q, serverName, date)
    else ResponseText.Head(Request.HTTP_1_1, 404, NOT_FOUND, [Field(SERVER, serverName), Field(CONTENT_LENGTH, ZERO)])
  }

  lemma RefusalsArePlain(serverName: ByteArray)
    requires PlainValue(serverName)
    ensures ResponseText.PlainStatus(Request.HTTP_1_1, 200, [])
            && ResponseText.PlainStatus(Request.HTTP_1_1, 404, NOT_FOUND)
    ensures AllPrintable([Field(SERVER, serverName)])
    ensures AllPrintable([Field(SERVER, serverName), Field(CONTENT_LENGTH, ZERO)])
  {
    hide PlainFieldName, PlainValue;
    VersionIsPlain();
    LetteredIsPlain(SERVER);
    LetteredIsPlain(CONTENT_LENGTH);
    ZeroIsPlain();
    PlainIsPrintable(Field(SERVER, serverName));
    PlainIsPrintable(Field(CONTENT_LENGTH, ZERO));
  }

  lemma ZeroIsPlain()
    ensures PlainValue(ZERO)
  {
  }

  lemma RefusalsAreNotChunked(serverName: ByteArray, clientName: ByteArray)
    ensures Get(SetAll([Field(SERVER, clientName)], [Field(SERVER, serverName)]), TRANSFER_ENCODING) != Response.CHUNKED
    ensures Get(SetAll([Field(SERVER, clientName)], [Field(SERVER, serverName), Field(CONTENT_LENGTH, ZERO)]),
            TRANSFER_ENCODING)
         != Response.CHUNKED
  {
    hide Set, Find;
    var own, length := [Field(SERVER, clientName)], Field(CONTENT_LENGTH, ZERO);
    ServerIsThere(own, serverName);
    OtherLength(SERVER, CONTENT_LENGTH);
    OtherLength(SERVER, TRANSFER_ENCODING);
    OtherLength(CONTENT_LENGTH, TRANSFER_ENCODING);
    SetOne(own, Field(SERVER, serverName));
    SetTwo(own, Field(SERVER, serverName), length);
    AddLength(own[0]);
    FindNone(own, TRANSFER_ENCODING);
    FindNone(own + [length], TRANSFER_ENCODING);
    GetNone(own, TRANSFER_ENCODING);
    GetNone(own + [length], TRANSFER_ENCODING);
  }

  lemma GetNone(fields: seq<Field>, name: ByteArray)
    requires Find(fields, name) == None
    ensures Get(fields, name) != Response.CHUNKED
  {
  }

  lemma SetOne(own: seq<Field>, f: Field)
    ensures SetAll(own, [f]) == Set(own, f)
  {
    hide Set;
    assert [f][1..] == [];
    assert SetAll(Set(own, f), []) == Set(own, f);
  }

  lemma SetTwo(own: seq<Field>, f: Field, g: Field)
    ensures SetAll(own, [f, g]) == Set(Set(own, f), g)
  {
    hide Set;
    assert [f, g][1..] == [g];
    assert SetAll(own, [f, g]) == SetAll(Set(own, f), [g]);
    SetOne(Set(own, f), g);
  }

  lemma AddLength(f: Field)
    requires !SameName(f.name, CONTENT_LENGTH)
    ensures Set([f], Field(CONTENT_LENGTH, ZERO)) == [f] + [Field(CONTENT_LENGTH, ZERO)]
  {
    hide SameName;
    FindNone([f], CONTENT_LENGTH);
  }

  /** The answer, read at once, completes the client's handshake exactly when some route takes the request
      and default processing is on. */
  lemma DefaultDecides(
    q: Request.State, routes: seq<Route.Pattern>, wsProcessDefault: bool, serverName: ByteArray, clientName: ByteArray,
    date: ByteArray)
    requires PlainValue(serverName) && PlainValue(date)
    requires |DefaultAnswer(q, routes, wsProcessDefault, serverName, date)| < TWO_64
    ensures var key := Get(q.header.fields, SEC_WEBSOCKET_KEY);
            var after := AfterRead(DefaultAnswer(q, routes, wsProcessDefault, serverName, date), key, clientName);
            after.Some? && (after.value.0 == BinaryMessage <==> Routed(routes, q) && wsProcessDefault)
  {
    hide AcceptKey, Print, PlainValue, AfterRead, AnswerHead, Get, AllPrintable, ResponseText.PlainStatus,
      ResponseText.Head,
      Routed, SetAll;
    var key := Get(q.header.fields, SEC_WEBSOCKET_KEY);
    var bytes := DefaultAnswer(q, routes, wsProcessDefault, serverName, date);
    if Routed(routes, q) && wsProcessDefault {
      assert bytes + [] == bytes;
      AnswerParses(serverName, clientName, date, key, []);
    } else {
      RefusalsArePlain(serverName);
      RefusalsAreNotChunked(serverName, clientName);
      assert bytes + [] == bytes;
      if Routed(routes, q) {
        RefusalCloses(404, NOT_FOUND, [Field(SERVER, serverName), Field(CONTENT_LENGTH, ZERO)], [], key, clientName);
      } else {
        RefusalCloses(200, [], [Field(SERVER, serverName)], [], key, clientName);
      }
    }
  }
}
