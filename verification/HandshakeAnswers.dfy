/** Which answers the client takes: any head, not only its own server's (src/WebSocketClient.cpp; section 4.1 of
    RFC 6455). */
module HandshakeAnswers {
  import opened Bytes
  import opened Handshake
  import opened HttpHeader
  import opened HttpHeaderText
  import opened ResponseText
  import opened StringUtil
  import opened Wrappers
  import Base64
  import Response
  import Sha1Spec

  /** Nothing but the head is announced: no length, or, chunked, a head that looks like its own last chunk. */
  predicate HeadIsAll(fields: seq<Field>, head: ByteArray)
    requires |head| >= 5
  {
    var length := Announced(First(fields, CONTENT_LENGTH));
    if First(fields, TRANSFER_ENCODING) == Some(Response.CHUNKED)
    then (|head| + length) % TWO_64 <= |head| && head[|head| - 5..] == Response.LAST_CHUNK
    else length == 0
  }

  lemma HeadIsLong(version: ByteArray, code: nat, phrase: ByteArray, fields: seq<Field>)
    requires fields != [] && AllPrintable(fields)
    ensures |Head(version, code, phrase, fields)| >= 5
  {
    hide AllPrintable;
    PrintFirst(fields);
  }

  /** The client's own `Server` field does not hide one of another name. */
  lemma OwnServerHidesNothing(clientName: ByteArray, fields: seq<Field>, name: ByteArray)
    requires |name| != |SERVER|
    ensures First([Field(SERVER, clientName)] + fields, name) == First(fields, name)
  {
    hide SameSpelling;
    var own := Field(SERVER, clientName);
    assert ([own] + fields)[1..] == fields;
    assert !SameSpelling(SERVER, name) by { OtherLengthOtherName(SERVER, name); }
  }

  lemma OtherLengthOtherName(a: ByteArray, b: ByteArray)
    requires |a| != |b|
    ensures !SameSpelling(a, b)
  {
  }

  /** What the client looks at, read off the fields as they were printed. */
  predicate Welcome(fields: seq<Field>, code: nat, key: ByteArray) {
    && code % 0x1_0000 == 101
    && SameSpelling(OrEmpty(First(fields, UPGRADE)), WEBSOCKET)
    && SameSpelling(OrEmpty(First(fields, CONNECTION)), SERVER_UPGRADE)
    && Proves(OrEmpty(First(fields, SEC_WEBSOCKET_ACCEPT)), key)
  }

  /** The value decodes to the hash of the key and the GUID, and is what that hash is encoded as. */
  predicate Proves(value: ByteArray, key: ByteArray) {
    Base64.Decode(value) == Sha1Spec.Hash(key + KEY_TOKEN) && Base64.Encode(Base64.Decode(value)) == value
  }

  lemma AcceptKeyProves(value: ByteArray, key: ByteArray)
    ensures Proves(value, key) <==> value == AcceptKey(key)
  {
    hide Base64.Encode, Base64.Decode, Sha1Spec.Hash;
    Base64.RoundTrip(Sha1Spec.Hash(key + KEY_TOKEN));
  }

  /** Decoding alone is not enough: without its padding the accept key decodes to the same hash. */
  lemma UnpaddedKeyDecodes(key: ByteArray)
    ensures var v := AcceptKey(key);
            |v| == 28 && Base64.Decode(v[..27]) == Sha1Spec.Hash(key + KEY_TOKEN) && !Proves(v[..27], key)
  {
    hide Sha1Spec.Serialized, Sha1Spec.HashBlocks, Sha1Spec.Pad, Base64.EncodeChars, Base64.DecodeChars, Base64.IsBase64,
      Base64.Readable;
    var h := Sha1Spec.Hash(key + KEY_TOKEN);
    var s := Base64.EncodeChars(h);
    Base64.EncodeSize(h);
    Base64.EncodeAlphabet(h);
    Base64.CharsRoundTrip(h);
    Base64.ReadableAll(s, [], 0);
    assert AcceptKey(key)[..27] == s == s + [] == s[..27];
    AcceptKeyProves(s, key);
  }

  lemma AcceptedMeans(r: Response.State, fields: seq<Field>, own: Field, code: nat, key: ByteArray)
    requires r.code == code % 0x1_0000 && r.header.fields == SetAll([own], fields) && own.name == SERVER
    ensures Accepted(r, key) <==> Welcome(fields, code, key)
  {
    hide Proves, First, Get, SetAll, AcceptKey, SameSpelling, Lower;
    FieldMeans(own, fields, UPGRADE);
    FieldMeans(own, fields, CONNECTION);
    FieldMeans(own, fields, SEC_WEBSOCKET_ACCEPT);
    LowerStays();
    SameNameMeans(Get(r.header.fields, UPGRADE), WEBSOCKET);
    SameNameMeans(Get(r.header.fields, CONNECTION), SERVER_UPGRADE);
    AcceptKeyProves(Get(r.header.fields, SEC_WEBSOCKET_ACCEPT), key);
  }

  lemma FieldMeans(own: Field, fields: seq<Field>, name: ByteArray)
    requires own.name == SERVER && |name| != |SERVER|
    ensures Get(SetAll([own], fields), name) == OrEmpty(First(fields, name))
  {
    hide First, Get, SetAll;
    SetAllIsFirst([own], fields, name);
    GetIsFirst(SetAll([own], fields), name);
    OwnServerHidesNothing(own.value, fields, name);
  }

  lemma BodyOfHead(s: Response.State, head: ByteArray, pos: nat, fields: seq<Field>)
    requires pos + 2 + s.header.headerSize + 4 == |head| < TWO_64 && |head| >= 5
    requires BodySize(s.header) == Announced(First(fields, CONTENT_LENGTH))
    requires Get(s.header.fields, TRANSFER_ENCODING) == OrEmpty(First(fields, TRANSFER_ENCODING))
    ensures var r := Response.WithBody(s, head, pos);
            && r.Some? && (r.value.ok <==> HeadIsAll(fields, head))
            && r.value.state.code == s.code && r.value.state.header.fields == s.header.fields
  {
    hide BodySize, Get, First, Announced;
    assert head[|head|..] == [];
  }

  /** A head with any status line and any printable fields, read at once: the client's handshake is complete
      exactly when the code is 101, the first `Upgrade` and `Connection` values are the expected words in
      whatever case, the first `Sec-WebSocket-Accept` value encodes the hash of the client's key and the GUID,
      and no body is announced. */
  lemma AnswerIsJudged(
    version: ByteArray, code: nat, phrase: ByteArray, fields: seq<Field>, key: ByteArray, clientName: ByteArray,
    head: ByteArray)
    requires PlainStatus(version, code, phrase) && fields != [] && AllPrintable(fields)
    requires head == Head(version, code, phrase, fields) && 5 <= |head| < TWO_64
    ensures AfterRead(head, key, clientName)
         == Some(if Welcome(fields, code, key) && HeadIsAll(fields, head) then (BinaryMessage, []) else (Closed, head))
  {
    hide PlainStatus, AllPrintable, Head, StatusLine, Response.ParsedResponse, Response.WithBody, Print, SetAll, First,
      Get, BodySize, AcceptKey, Accepted, Welcome, HeadIsAll, Announced;
    var st := Response.Fresh(clientName);
    var own := Field(SERVER, clientName);
    HeadParses(st, version, code, phrase, fields, []);
    assert head + [] == head;
    var s := HeadState(st, version, code, phrase, fields);
    HeadAnnounces(st, version, code, phrase, fields);
    OwnServerHidesNothing(clientName, fields, CONTENT_LENGTH);
    OwnServerHidesNothing(clientName, fields, TRANSFER_ENCODING);
    BodyOfHead(s, head, |StatusLine(version, code, phrase)| - 2, fields);
    var r := Response.WithBody(s, head, |StatusLine(version, code, phrase)| - 2).value;
    AcceptedMeans(r.state, fields, own, code, key);
    assert head[|head|..] == [];
  }

  /** The GUID of section 1.3 of RFC 6455. */
  lemma GuidIsSpelled()
    ensures Text(KEY_TOKEN) == "258EAFA5-E914-47DA-95CA-C5AB0DC85B11"
  {
    hide CharFor;
    Ascii();
  }
}
