/** The frame codec of a client request: `RequestWebSocket` (src/RequestWebSocket.cpp), sections 5.2
    and 5.3 of RFC 6455. Bit fields are taken from the byte they share, low bits first, as the
    packed structs of include/common/common_ws.h lay them out. */
module Frame {
  import opened Bytes

  const SIZE_MAX := 0xffff_ffff_ffff_ffff

  /** The two limits `Parse` looks up, and the room the source's size arithmetic needs. */
  datatype Config = Config(maxFrameSize: nat, maxMessageSize: nat) {
    predicate Sane() {
      maxFrameSize <= SIZE_MAX - 14 && maxMessageSize <= SIZE_MAX - maxFrameSize
    }
  }

  // ---------------------------------------------------------------- numbers in bytes

  function BigEndian(b: ByteArray): nat {
    if b == [] then 0 else 256 * BigEndian(b[..|b| - 1]) + b[|b| - 1] as nat
  }

  function Power256(k: nat): (p: nat)
    ensures p > 0
  {
    if k == 0 then 1 else 256 * Power256(k - 1)
  }

  /** `n` as `k` bytes, most significant first. */
  function ToBigEndian(n: nat, k: nat): (b: ByteArray)
    ensures |b| == k
  {
    if k == 0 then [] else ToBigEndian(n / 256, k - 1) + [(n % 256) as byte]
  }

  lemma {:induction false} BigEndianRoundTrip(n: nat, k: nat)
    requires n < Power256(k)
    ensures BigEndian(ToBigEndian(n, k)) == n
  {
    if k > 0 {
      BigEndianRoundTrip(n / 256, k - 1);
      ByteOfInt(n % 256);
      var b := ToBigEndian(n, k);
      assert b[..k - 1] == ToBigEndian(n / 256, k - 1);
    }
  }

  lemma Powers()
    ensures Power256(2) == 0x1_0000 && Power256(8) == 0x1_0000_0000_0000_0000
  {
    assert Power256(1) == 256;
    assert Power256(3) == 256 * Power256(2);
    assert Power256(4) == 256 * Power256(3);
    assert Power256(5) == 256 * Power256(4);
    assert Power256(6) == 256 * Power256(5);
    assert Power256(7) == 256 * Power256(6);
  }

  // ---------------------------------------------------------------- masking

  /** Section 5.3: byte `i` is combined with byte `i % 4` of the key. */
  function Masked(p: ByteArray, mask: ByteArray): (m: ByteArray)
    requires |mask| == 4
    ensures |m| == |p|
  {
    seq(|p|, i requires 0 <= i < |p| => p[i] ^ mask[i % 4])
  }

  lemma MaskTwice(p: ByteArray, mask: ByteArray)
    requires |mask| == 4
    ensures Masked(Masked(p, mask), mask) == p
  {
  }

  // ---------------------------------------------------------------- the encoder as a function

  /** How many bytes of extended length follow the two header bytes. */
  function LengthSize(len7: byte): (k: nat)
    ensures k <= 8
  {
    if len7 == 126 then 2 else if len7 == 127 then 8 else 0
  }

  function Len7(size: nat): (l: byte)
    ensures l <= 127
  {
    if size < 126 then size as byte else if size <= 0xffff then 126 else 127
  }

  function LengthField(size: nat): ByteArray {
    ToBigEndian(size, LengthSize(Len7(size)))
  }

  function Head(opcode: byte, size: nat, mask: ByteArray): ByteArray {
    [0x80 | (opcode & 0x0f), 0x80 | Len7(size)] + LengthField(size) + mask
  }

  /** The bytes `Send` writes for one message. */
  function Encode(opcode: byte, payload: ByteArray, mask: ByteArray): ByteArray
    requires |mask| == 4
  {
    Head(opcode, |payload|, mask) + Masked(payload, mask)
  }

  // ---------------------------------------------------------------- the decoder as a function

  /** What a buffer starts with. `TooShort`: not even a header. `NoFrame`: an opcode, but no frame
      that is complete and within the limits. */
  datatype Outcome =
    | TooShort
    | NoFrame(opcode: byte)
    | Found(opcode: byte, final: bool, payload: ByteArray, size: nat)

  predicate IsMasked(data: ByteArray)
    requires |data| >= 2
  {
    data[1] >> 7 == 1
  }

  function ExtraSize(data: ByteArray): nat
    requires |data| >= 2
  {
    LengthSize(data[1] & 0x7f)
  }

  function PayloadSize(data: ByteArray): nat
    requires |data| >= 2 && |data| >= 2 + ExtraSize(data)
  {
    if ExtraSize(data) == 0 then (data[1] & 0x7f) as nat else BigEndian(data[2..2 + ExtraSize(data)])
  }

  function HeadSize(data: ByteArray): nat
    requires |data| >= 2
  {
    2 + ExtraSize(data) + if IsMasked(data) then 4 else 0
  }

  function Payload(data: ByteArray, size: nat): ByteArray
    requires |data| >= 2 && |data| >= HeadSize(data) + size
  {
    var start := HeadSize(data);
    var raw := data[start..start + size];
    if IsMasked(data) then Masked(raw, data[start - 4..start]) else raw
  }

  /** The first frame of `data`, for a request that already holds `held` bytes. */
  function Decode(data: ByteArray, held: nat, config: Config): Outcome {
    if |data| < 2 then TooShort
    else
      var opcode := data[0] & 0x0f;
      if |data| < 2 + ExtraSize(data) then NoFrame(opcode)
      else
        var size := PayloadSize(data);
        if size == 0 || size > config.maxFrameSize || held + size > config.maxMessageSize
           || |data| < HeadSize(data) + size
        then NoFrame(opcode)
        else Found(opcode, data[0] >> 7 == 1, Payload(data, size), HeadSize(data) + size)
  }

  /** A fresh request takes a frame off the front of `data` exactly when this is `Found` and final. */
  function Parsed(data: ByteArray, config: Config): Outcome {
    match Decode(data, 0, config)
    case Found(o, f, p, s) => if f then Found(o, f, p, s) else NoFrame(o)
    case other => other
  }

  // ---------------------------------------------------------------- decoding a growing buffer

  /** The head of a frame reads the same in a longer buffer. */
  lemma SameHead(data: ByteArray, all: ByteArray)
    requires |data| >= 2 && data <= all
    ensures ExtraSize(all) == ExtraSize(data) && HeadSize(all) == HeadSize(data)
    ensures |data| >= 2 + ExtraSize(data) ==> PayloadSize(all) == PayloadSize(data)
  {
    hide BigEndian, LengthSize;
    if |data| >= 2 + ExtraSize(data) {
      assert all[2..2 + ExtraSize(data)] == data[2..2 + ExtraSize(data)];
    }
  }

  lemma SamePayload(data: ByteArray, all: ByteArray, size: nat)
    requires 2 <= |data| && HeadSize(data) + size <= |data| && data <= all
    ensures |all| >= HeadSize(all) + size && Payload(all, size) == Payload(data, size)
  {
    hide LengthSize, Masked;
    var start := HeadSize(data);
    assert all[start..start + size] == data[start..start + size];
    if IsMasked(data) { assert all[start - 4..start] == data[start - 4..start]; }
  }

  /** A frame that is there stays the same frame when more bytes follow it. */
  lemma MoreBytesSameFrame(data: ByteArray, all: ByteArray, held: nat, config: Config)
    requires Decode(data, held, config).Found? && data <= all
    ensures Decode(all, held, config) == Decode(data, held, config)
    ensures 2 <= Decode(data, held, config).size <= |data|
  {
    hide PayloadSize, Payload, ExtraSize;
    SameHead(data, all);
    SamePayload(data, all, PayloadSize(data));
  }

  lemma FrameFits(data: ByteArray, config: Config)
    requires Parsed(data, config).Found?
    ensures 2 <= Parsed(data, config).size <= |data|
    ensures forall all :: data <= all ==> Parsed(all, config) == Parsed(data, config)
  {
    hide Decode;
    MoreBytesSameFrame(data, data, 0, config);
    forall all | data <= all ensures Parsed(all, config) == Parsed(data, config) {
      MoreBytesSameFrame(data, all, 0, config);
    }
  }

  lemma NothingParses(config: Config)
    ensures Parsed([], config) == TooShort
  {
  }

  lemma FrameIsBounded(data: ByteArray, config: Config)
    ensures Parsed(data, config).Found? ==> 2 <= Parsed(data, config).size <= |data|
  {
    hide Decode;
    if Parsed(data, config).Found? { FrameFits(data, config); }
  }

  // ---------------------------------------------------------------- frames that are refused for good

  /** The header of the first frame is there, with its extended length. */
  predicate HeaderThere(data: ByteArray) {
    |data| >= 2 && |data| >= 2 + ExtraSize(data)
  }

  /** No FIN bit, no payload, or more payload than a limit allows: the header tells. */
  predicate Refused(data: ByteArray, config: Config)
    requires HeaderThere(data)
  {
    data[0] >> 7 != 1 || PayloadSize(data)
      == 0 || PayloadSize(data) > config.maxFrameSize || PayloadSize(data) > config.maxMessageSize
  }

  /** The length of the first frame, by its header. */
  function FrameSize(data: ByteArray): nat
    requires HeaderThere(data)
  {
    HeadSize(data) + PayloadSize(data)
  }

  /** A frame with that header parses exactly when it is complete and not refused, whatever follows. */
  lemma HeaderDecides(data: ByteArray, more: ByteArray, config: Config)
    requires HeaderThere(data)
    ensures Parsed(data + more, config).Found? <==> !Refused(data, config) && |data + more| >= FrameSize(data)
  {
    hide PayloadSize, Payload, ExtraSize;
    SameHead(data, data + more);
    assert (data + more)[0] == data[0];
  }

  // ---------------------------------------------------------------- round trip

  lemma HeaderBits(opcode: byte, len7: byte)
    requires len7 <= 127
    ensures (0x80 | (opcode & 0x0f)) & 0x0f == opcode & 0x0f
    ensures (0x80 | (opcode & 0x0f)) >> 7 == 1
    ensures (0x80 | len7) & 0x7f == len7
    ensures (0x80 | len7) >> 7 == 1
  {
  }

  lemma HeadSlices(opcode: byte, size: nat, mask: ByteArray, tail: ByteArray)
    requires |mask| == 4
    ensures var data, k := Head(opcode, size, mask) + tail, LengthSize(Len7(size));
            && |Head(opcode, size, mask)| == 6 + k
            && data[0] == 0x80 | (opcode & 0x0f) && data[1] == 0x80 | Len7(size)
            && data[2..2 + k] == LengthField(size) && data[2 + k..6 + k] == mask
  {
    hide ToBigEndian, Len7;
  }

  /** What the decoder reads from the head of an encoded frame. */
  lemma HeadFields(opcode: byte, size: nat, mask: ByteArray, tail: ByteArray)
    requires |mask| == 4 && size <= SIZE_MAX
    ensures var data := Head(opcode, size, mask) + tail;
            && |data| >= 2 + ExtraSize(data)
            && data[0] & 0x0f == opcode & 0x0f && data[0] >> 7 == 1
            && IsMasked(data) && HeadSize(data) == |Head(opcode, size, mask)|
            && PayloadSize(data) == size
            && data[HeadSize(data) - 4..HeadSize(data)] == mask
  {
    hide BigEndian, LengthField, Len7, Head;
    HeadSlices(opcode, size, mask, tail);
    HeaderBits(opcode, Len7(size));
    LengthFieldReads(size);
  }

  lemma LengthFieldReads(size: nat)
    requires size <= SIZE_MAX
    ensures LengthSize(Len7(size)) == 0 ==> Len7(size) as nat == size
    ensures LengthSize(Len7(size)) > 0 ==> BigEndian(LengthField(size)) == size
  {
    if size < 126 {
      ByteOfInt(size);
    } else {
      Powers();
      BigEndianRoundTrip(size, LengthSize(Len7(size)));
    }
  }

  /** The same frame with its FIN bit cleared: the first part of a fragmented message. */
  function Fragment(opcode: byte, payload: ByteArray, mask: ByteArray): ByteArray
    requires |mask| == 4
  {
    Encode(opcode, payload, mask)[0 := opcode & 0x0f]
  }

  lemma NoFin(opcode: byte)
    ensures (opcode & 0x0f) >> 7 == 0
  {
  }

  /** Of the frames a peer may send, these are refused: fragments, empty frames such as a ping without a
      payload, and those over a limit. */
  lemma RefusedFrames(opcode: byte, payload: ByteArray, mask: ByteArray, config: Config)
    requires |mask| == 4 && |payload| <= SIZE_MAX
    ensures var (frame, part) := (Encode(opcode, payload, mask), Fragment(opcode, payload, mask));
            && HeaderThere(frame) && HeaderThere(part) && Refused(part, config)
            && FrameSize(frame) == |frame| && FrameSize(part) == |part|
            && (Refused(frame, config) <==>
                  payload == [] || |payload| > config.maxFrameSize || |payload| > config.maxMessageSize)
  {
    hide Head, Masked, BigEndian, LengthSize;
    HeadFields(opcode, |payload|, mask, Masked(payload, mask));
    NoFin(opcode);
    var frame, part := Encode(opcode, payload, mask), Fragment(opcode, payload, mask);
    assert ExtraSize(part) == ExtraSize(frame) && part[2..2 + ExtraSize(part)] == frame[2..2 + ExtraSize(frame)];
  }

  /** Parsing what was sent, with anything behind it: the message comes back exactly when it is
      not empty and within the limits. In particular an empty ping never parses. */
  lemma FrameRoundTrip(opcode: byte, payload: ByteArray, mask: ByteArray, rest: ByteArray, config: Config)
    requires |mask| == 4 && opcode <= 15 && |payload| <= SIZE_MAX
    ensures Parsed(Encode(opcode, payload, mask) + rest, config)
         == if 1 <= |payload| <= config.maxFrameSize && |payload| <= config.maxMessageSize
            then Found(opcode, true, payload, |Encode(opcode, payload, mask)|) else NoFrame(opcode)
  {
    hide Head, PayloadSize, HeadSize, ExtraSize, Masked;
    var head, body := Head(opcode, |payload|, mask), Masked(payload, mask);
    var data := head + (body + rest);
    HeadFields(opcode, |payload|, mask, body + rest);
    assert Encode(opcode, payload, mask) + rest == data;
    assert data[|head|..|head| + |payload|] == body;
    MaskTwice(payload, mask);
    assert opcode & 0x0f == opcode;
  }

  /** A frame without a mask, as section 5.2 of RFC 6455 lays it out. */
  function Plain(opcode: byte, payload: ByteArray): ByteArray {
    [0x80 | (opcode & 0x0f), Len7(|payload|)] + LengthField(|payload|) + payload
  }

  lemma PlainBits(opcode: byte, len7: byte)
    requires len7 <= 127 && opcode <= 15
    ensures len7 & 0x7f == len7 && len7 >> 7 == 0
    ensures (0x80 | (opcode & 0x0f)) & 0x0f == opcode && (0x80 | (opcode & 0x0f)) >> 7 == 1
  {
  }

  lemma PlainFields(opcode: byte, payload: ByteArray, rest: ByteArray)
    requires opcode <= 15 && |payload| <= SIZE_MAX
    ensures var data := Plain(opcode, payload) + rest;
            && |data| >= 2 + ExtraSize(data) && !IsMasked(data)
            && HeadSize(data) + |payload| == |Plain(opcode, payload)|
            && PayloadSize(data) == |payload| && data[HeadSize(data)..HeadSize(data) + |payload|] == payload
            && data[0] & 0x0f == opcode && data[0] >> 7 == 1
  {
    hide BigEndian, ToBigEndian, Len7, LengthSize;
    var size := |payload|;
    PlainBits(opcode, Len7(size));
    LengthFieldReads(size);
    var data, k := Plain(opcode, payload) + rest, LengthSize(Len7(size));
    assert data[0] == 0x80 | (opcode & 0x0f) && data[1] == Len7(size);
    assert data[2..2 + k] == LengthField(size);
    assert data[2 + k..2 + k + size] == payload;
  }

  /** A frame without a mask is taken as well, exactly when it is not empty and within the limits. */
  lemma UnmaskedRoundTrip(opcode: byte, payload: ByteArray, rest: ByteArray, config: Config)
    requires opcode <= 15 && |payload| <= SIZE_MAX
    ensures Parsed(Plain(opcode, payload) + rest, config)
         == if 1 <= |payload| <= config.maxFrameSize && |payload| <= config.maxMessageSize
            then Found(opcode, true, payload, |Plain(opcode, payload)|) else NoFrame(opcode)
  {
    hide Plain, PayloadSize, HeadSize, ExtraSize, IsMasked;
    PlainFields(opcode, payload, rest);
  }

  // ---------------------------------------------------------------- the examples of the standard

  /** The bytes of `Hello`. */
  const HELLO: ByteArray := [0x48, 0x65, 0x6c, 0x6c, 0x6f]

  lemma OneByteEach(n: nat)
    requires n < 256
    ensures ToBigEndian(n, 1) == [n as byte]
  {
    assert ToBigEndian(n / 256, 0) == [];
  }

  lemma TwoBytes(high: nat, low: nat)
    requires high < 256 && low < 256
    ensures ToBigEndian(256 * high + low, 2) == [high as byte, low as byte]
  {
    OneByteEach(high);
    assert (256 * high + low) / 256 == high && (256 * high + low) % 256 == low;
  }

  lemma FirstByteOfText()
    ensures 0x80 | (1 as byte & 0x0f) == 0x81 && 0x80 | (5 as byte) == 0x85
    ensures 0x80 | (2 as byte & 0x0f) == 0x82
  {
  }

  /** Section 5.7 of RFC 6455: `Hello` in one frame, with and without a mask. */
  lemma HelloIsSpelled()
    ensures Encode(1, HELLO, [0x37, 0xfa, 0x21, 0x3d])
         == [0x81, 0x85, 0x37, 0xfa, 0x21, 0x3d, 0x7f, 0x9f, 0x4d, 0x51, 0x58]
    ensures Plain(1, HELLO) == [0x81, 0x05, 0x48, 0x65, 0x6c, 0x6c, 0x6f]
  {
    hide ToBigEndian;
    FirstByteOfText();
    assert LengthField(5) == [];
    MaskedHello();
  }

  lemma MaskedHello()
    ensures Masked(HELLO, [0x37, 0xfa, 0x21, 0x3d]) == [0x7f, 0x9f, 0x4d, 0x51, 0x58]
  {
  }

  /** The heads of 256 and of 65536 bytes in one frame, in the same section. */
  lemma LongHeadsAreSpelled(small: ByteArray, large: ByteArray)
    requires |small| == 256 && |large| == 0x1_0000
    ensures Plain(2, small) == [0x82, 0x7e, 0x01, 0x00] + small
    ensures Plain(2, large) == [0x82, 0x7f, 0, 0, 0, 0, 0, 1, 0, 0] + large
  {
    hide ToBigEndian;
    FirstByteOfText();
    TwoBytes(1, 0);
    EightBytes();
  }

  lemma EightBytes()
    ensures ToBigEndian(0x1_0000, 8) == [0, 0, 0, 0, 0, 1, 0, 0]
  {
    OneByteEach(0);
    assert ToBigEndian(0, 5) == [0, 0, 0, 0, 0];
    assert ToBigEndian(1, 6) == [0, 0, 0, 0, 0, 1];
    assert ToBigEndian(256, 7) == [0, 0, 0, 0, 0, 1, 0];
  }

  /** No proper prefix of a sent frame parses; from its second byte on it shows the opcode. */
  lemma PrefixDoesNotParse(opcode: byte, payload: ByteArray, mask: ByteArray, k: nat, config: Config)
    requires |mask| == 4 && opcode <= 15 && |payload| <= SIZE_MAX && k < |Encode(opcode, payload, mask)|
    ensures Parsed(Encode(opcode, payload, mask)[..k], config) == if k < 2 then TooShort else NoFrame(opcode)
  {
    var frame := Encode(opcode, payload, mask);
    var data := frame[..k];
    FrameRoundTrip(opcode, payload, mask, [], config);
    assert frame + [] == frame;
    if k >= 2 {
      if Decode(data, 0, config).Found? { MoreBytesSameFrame(data, frame, 0, config); }
      assert data[0] == frame[0];
      HeaderBits(opcode, Len7(|payload|));
    }
  }
}
