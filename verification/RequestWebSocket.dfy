/** The message object of both ends: `class RequestWebSocket` (src/RequestWebSocket.cpp). */
module RequestWebSocket {
  import opened Bytes
  import opened Frame

  // The unions of the length headers are read in memory order, least significant byte first.

  function LittleEndian(b: ByteArray): nat {
    if b == [] then 0 else b[0] as nat + 256 * LittleEndian(b[1..])
  }

  function ToLittleEndian(n: nat, k: nat): (b: ByteArray)
    ensures |b| == k
  {
    if k == 0 then [] else [(n % 256) as byte] + ToLittleEndian(n / 256, k - 1)
  }

  ghost predicate Mirrored(a: ByteArray, b: ByteArray) {
    |a| == |b| && forall k :: 0 <= k < |a| ==> a[k] == b[|b| - 1 - k]
  }

  lemma {:induction false} MirrorReads(a: ByteArray, b: ByteArray)
    requires Mirrored(a, b)
    ensures LittleEndian(a) == Frame.BigEndian(b)
  {
    if a != [] {
      var n := |b| - 1;
      assert Mirrored(a[1..], b[..n]);
      MirrorReads(a[1..], b[..n]);
    }
  }

  lemma {:induction false} MirrorWrites(n: nat, k: nat)
    ensures Mirrored(ToBigEndian(n, k), ToLittleEndian(n, k))
  {
    if k > 0 {
      MirrorWrites(n / 256, k - 1);
      var b, l := ToBigEndian(n / 256, k - 1), ToLittleEndian(n / 256, k - 1);
      var last := (n % 256) as byte;
      forall j | 0 <= j < k ensures (b + [last])[j] == ([last] + l)[k - 1 - j] {
        if j < k - 1 { assert b[j] == l[k - 2 - j]; }
      }
    }
  }

  class RequestWebSocket {
    var data: ByteArray
    var final: bool
    var size: nat
    var messageType: byte

    constructor ()
      ensures data == [] && !final && size == 0 && messageType == 0
    {
      data, final, size, messageType := [], false, 0, 0;
    }

    /** `Parse` takes in the first frame of a buffer: everything it changes, in every outcome. */
    method Parse(input: ByteArray, config: Config) returns (retval: bool)
      requires config.Sane()
      modifies this
      ensures match Decode(input, |old(data)|, config)
              case TooShort => !retval && unchanged(this)
              case NoFrame(o) => !retval && messageType == o && unchanged(`data, `final, `size)
              case Found(o, f, p, n) =>
                retval == f && messageType == o && data == old(data) + p && size == n && final == (old(final) || f)
    {
      hide PayloadSize, Payload, LengthSize;
      retval := false;
      if |input| < 2 {
        return;
      }
      messageType := input[0] & 0x0f;
      var sizeHeaderSize := LengthSize(input[1] & 0x7f);
      if |input| < 2 + sizeHeaderSize {
        return;
      }
      var payloadSize := ReadLength(input);
      if payloadSize == 0 || payloadSize > config.maxFrameSize || |data| + payloadSize > config.maxMessageSize {
        return;
      }
      var headersSize := 2 + sizeHeaderSize;
      assert headersSize <= SIZE_MAX - payloadSize;  // the source's overflow test never fires
      if input[1] >> 7 == 1 {
        headersSize := headersSize + 4;
        if |input| < headersSize {
          return;
        }
      }
      var messageFullSize := headersSize + payloadSize;
      if |input| >= messageFullSize {
        var payload := Unwrap(input, headersSize, messageFullSize);
        data := data + payload;
        if input[0] >> 7 == 1 {
          final, retval := true, true;
        }
        size := messageFullSize;
      }
    }

    /** The payload length: seven bits, or two or eight bytes copied backwards into a union. */
    static method ReadLength(input: ByteArray) returns (payloadSize: nat)
      requires |input| >= 2 && |input| >= 2 + ExtraSize(input)
      ensures payloadSize == PayloadSize(input)
    {
      hide Frame.BigEndian, LittleEndian;
      var k := LengthSize(input[1] & 0x7f);
      if k == 0 {
        return (input[1] & 0x7f) as nat;
      }
      var bytes := new byte[k];
      for i := 0 to k
        invariant forall j :: 0 <= j < i ==> bytes[j] == input[2 + k - 1 - j]
      {
        bytes[i] := input[2 + k - 1 - i];
      }
      MirrorReads(bytes[..], input[2..2 + k]);
      payloadSize := LittleEndian(bytes[..]);
    }

    /** The payload: copied as it is, or with its mask taken off. */
    static method Unwrap(input: ByteArray, headersSize: nat, messageFullSize: nat) returns (payload: ByteArray)
      requires |input| >= 2 && headersSize == HeadSize(input) <= messageFullSize <= |input|
      ensures payload == Payload(input, messageFullSize - headersSize)
    {
      hide Masked, LengthSize;
      payload := input[headersSize..messageFullSize];
      if input[1] >> 7 == 1 {
        payload := ApplyMask(payload, input[headersSize - 4..headersSize]);
      }
    }

    static method ApplyMask(raw: ByteArray, mask: ByteArray) returns (encoded: ByteArray)
      requires |mask| == 4
      ensures encoded == Masked(raw, mask)
    {
      var buffer := new byte[|raw|];
      for i := 0 to |raw|
        invariant forall j :: 0 <= j < i ==> buffer[j] == raw[j] ^ mask[j % 4]
      {
        buffer[i] := raw[i] ^ mask[i % 4];
      }
      encoded := buffer[..];
    }

    /** `Send`: the bytes handed to the connection. The key is random in the source; its loop
        counter is an `int`. */
    method Send(mask: ByteArray) returns (response: ByteArray)
      requires |mask| == 4 && |data| < 0x8000_0000
      ensures response == Encode(messageType, data, mask)
    {
      hide ToBigEndian, Masked, Len7;
      var dataSize := |data|;
      response := [0x80 | (messageType & 0x0f), 0x80 | Len7(dataSize)];
      var length := WriteLength(dataSize);
      response := response + length;
      response := response + mask;
      var encoded := ApplyMask(data, mask);
      response := response + encoded;
    }

    /** The extended length: the bytes of a union copied backwards. */
    static method WriteLength(dataSize: nat) returns (buffer: ByteArray)
      ensures buffer == LengthField(dataSize)
    {
      hide ToBigEndian, ToLittleEndian;
      var k := LengthSize(Len7(dataSize));
      var bytes := ToLittleEndian(dataSize, k);
      var reversed := new byte[k];
      for i := 0 to k
        invariant forall j :: 0 <= j < i ==> reversed[j] == bytes[k - 1 - j]
      {
        reversed[i] := bytes[k - 1 - i];
      }
      MirrorWrites(dataSize, k);
      buffer := reversed[..];
    }
  }
}
