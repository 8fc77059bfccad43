/** One connection's stream of bytes and the messages in it, against its entry in the queue. */
module ClientStream {
  import opened Bytes
  import opened RequestQueue
  import opened Wrappers
  import Frame
  import Request

  // ---------------------------------------------------------------- what a stream holds

  /** The frames a buffer starts with, one after the other. */
  function Frames(data: ByteArray, config: Frame.Config): seq<Message>
    decreases |data|
  {
    match Frame.Parsed(data, config)
    case Found(opcode, final, payload, size) =>
      Frame.FrameFits(data, config);
      [Message(opcode, payload, final)] + Frames(data[size..], config)
    case _ => []
  }

  /** The bytes behind them. */
  function Left(data: ByteArray, config: Frame.Config): ByteArray
    decreases |data|
  {
    match Frame.Parsed(data, config)
    case Found(_, _, _, size) =>
      Frame.FrameFits(data, config);
      Left(data[size..], config)
    case _ => data
  }

  /** A stream read all at once: the opening request, then frames. */
  function Messages(stream: ByteArray, config: Frame.Config): seq<Message> {
    match Request.Opening(stream) case Some(q) => Frames(stream[q.1..], config) case None => []
  }

  lemma {:induction false} FramesExtend(data: ByteArray, more: ByteArray, config: Frame.Config)
    ensures Frames(data + more, config) == Frames(data, config) + Frames(Left(data, config) + more, config)
    ensures Left(data + more, config) == Left(Left(data, config) + more, config)
    decreases |data|
  {
    hide Frame.Parsed;
    match Frame.Parsed(data, config)
    case Found(_, _, _, size) =>
      Frame.FrameFits(data, config);
      assert data <= data + more;
      assert (data + more)[size..] == data[size..] + more;
      FramesExtend(data[size..], more, config);
    case _ =>
  }

  /** More bytes only ever add messages at the end. */
  lemma MessagesExtend(stream: ByteArray, more: ByteArray, config: Frame.Config)
    ensures Messages(stream, config) <= Messages(stream + more, config)
  {
    hide Request.Opening, Frames, Left;
    if Request.Opening(stream).Some? {
      assert stream <= stream + more;
      Request.OpeningLonger(stream, stream + more);
      OpeningFits(stream);
      var n := Request.Opening(stream).value.1;
      assert (stream + more)[n..] == stream[n..] + more;
      FramesExtend(stream[n..], more, config);
    }
  }

  lemma OpeningFits(stream: ByteArray)
    requires Request.Opening(stream).Some?
    ensures Request.Opening(stream).value.1 <= |stream|
  {
    hide Request.Parsed;
  }

  // ---------------------------------------------------------------- messages are final

  predicate AllFinal(list: seq<Message>) {
    forall k :: 0 <= k < |list| ==> list[k].final
  }

  lemma {:induction false} FinalsOfFinal(list: seq<Message>)
    requires AllFinal(list)
    ensures Finals(list) == list && Others(list) == []
  {
    if list != [] {
      var n := |list| - 1;
      FinalsOfFinal(list[..n]);
      assert list[..n] + [list[n]] == list;
    }
  }

  // ---------------------------------------------------------------- the entry follows the stream

  /** The request object has seen some prefix of the stream. */
  ghost predicate HasSeen(r: Request.State, stream: ByteArray) {
    exists seen :: seen <= stream && r == Request.Parsed(Request.FRESH, seen)
  }

  /** Where a connection stands when its client has sent `stream` and `out` has been dispatched. */
  ghost predicate Tracks(e: Entry, stream: ByteArray, out: seq<Message>, config: Frame.Config) {
    && AllFinal(e.requestList)
    && if e.handshake then Streaming(e, stream, out, config)
       else out == [] && e.requestList == [] && if e.ready then Answering(e, stream) else Waiting(e, stream)
  }

  ghost predicate Waiting(e: Entry, stream: ByteArray) {
    e.data == stream && HasSeen(e.request, stream)
  }

  ghost predicate Answering(e: Entry, stream: ByteArray) {
    var opening := Request.Opening(stream);
    && opening.Some? && opening.value.1 <= |stream| && e.data == stream[opening.value.1..]
    && e.request == opening.value.0.(verb := Request.WEBSOCKET)
  }

  ghost predicate Streaming(e: Entry, stream: ByteArray, out: seq<Message>, config: Frame.Config) {
    var opening := Request.Opening(stream);
    && opening.Some? && opening.value.1 <= |stream|
    && (e.ready <==> e.requestList != [])
    && Follows(stream[opening.value.1..], out + e.requestList, e.data, config)
  }

  /** `done` are the messages of `stream` before those of `data`. */
  ghost predicate Follows(stream: ByteArray, done: seq<Message>, data: ByteArray, config: Frame.Config) {
    Frames(stream, config) == done + Frames(data, config) && Left(stream, config) == Left(data, config)
  }

  lemma FollowsMore(stream: ByteArray, done: seq<Message>, data: ByteArray, more: ByteArray, config: Frame.Config)
    requires Follows(stream, done, data, config)
    ensures Follows(stream + more, done, data + more, config)
  {
    hide Frames, Left;
    FramesExtend(stream, more, config);
    FramesExtend(data, more, config);
  }

  lemma FollowsFrame(stream: ByteArray, done: seq<Message>, data: ByteArray, config: Frame.Config)
    requires Follows(stream, done, data, config) && Frame.Parsed(data, config).Found?
    ensures var f := Frame.Parsed(data, config);
            f.size <= |data| && Follows(stream, done + [Message(f.opcode, f.payload, f.final)], data[f.size..], config)
  {
    hide Frame.Parsed;
    Frame.FrameFits(data, config);
    var f := Frame.Parsed(data, config);
    var m := Message(f.opcode, f.payload, f.final);
    assert done + ([m] + Frames(data[f.size..], config)) == done + [m] + Frames(data[f.size..], config);
  }

  // ---------------------------------------------------------------- every section keeps it

  lemma TracksNew(connID: int, config: Frame.Config)
    ensures Tracks(NewEntry(connID), [], [], config)
  {
    NothingParsed();
    assert HasSeen(Request.FRESH, []);
  }

  lemma NothingParsed()
    ensures Request.Parsed(Request.FRESH, []) == Request.FRESH
  {
  }

  lemma HasSeenMore(r: Request.State, stream: ByteArray, more: ByteArray)
    requires HasSeen(r, stream)
    ensures HasSeen(r, stream + more)
  {
    hide Request.Parsed;
    var seen :| seen <= stream && r == Request.Parsed(Request.FRESH, seen);
    assert seen <= stream + more;
  }

  lemma TracksPut(e: Entry, stream: ByteArray, out: seq<Message>, more: ByteArray, config: Frame.Config)
    requires Tracks(e, stream, out, config)
    ensures Tracks(e.(data := e.data + more), stream + more, out, config)
  {
    hide Request.Opening, HasSeen, Follows;
    if !e.handshake && !e.ready {
      HasSeenMore(e.request, stream, more);
    } else {
      assert stream <= stream + more;
      Request.OpeningLonger(stream, stream + more);
      var n := Request.Opening(stream).value.1;
      assert (stream + more)[n..] == stream[n..] + more;
      if e.handshake { FollowsMore(stream[n..], out + e.requestList, e.data, more, config); }
    }
  }

  lemma SeenThenParsed(r: Request.State, stream: ByteArray)
    requires HasSeen(r, stream)
    ensures Request.Parsed(r, stream) == Request.Parsed(Request.FRESH, stream)
  {
    hide Request.Parsed;
    var seen :| seen <= stream && r == Request.Parsed(Request.FRESH, seen);
    Request.ParsedTwice(seen, stream);
  }

  lemma TracksHeader(e: Entry, stream: ByteArray, config: Frame.Config)
    requires Tracks(e, stream, [], config) && !e.handshake && !e.ready
    ensures Tracks(CheckedHeader(e), stream, [], config)
    ensures CheckedHeader(e).ready <==> Request.Opening(stream).Some?
  {
    hide Request.Parsed, Request.Complete, Request.Size;
    SeenThenParsed(e.request, stream);
    assert HasSeen(Request.Parsed(e.request, stream), stream);
  }

  lemma {:induction false} TracksFrames(e: Entry, stream: ByteArray, out: seq<Message>, config: Frame.Config)
    requires AllFinal(e.requestList) && e.handshake && Streaming(e, stream, out, config)
    ensures var c := CheckedFrames(e, config);
            AllFinal(c.requestList) && c.handshake && Streaming(c, stream, out, config) && Frames(c.data, config) == []
    ensures CheckedFrames(e, config).ready <==> e.ready || Frames(e.data, config) != []
    decreases |e.data|
  {
    hide Frame.Decode, Request.Opening, Follows;
    if Frame.Parsed(e.data, config).Found? {
      Frame.FrameFits(e.data, config);
      var n := Request.Opening(stream).value.1;
      FollowsFrame(stream[n..], out + e.requestList, e.data, config);
      var next := CheckedFrame(e, config);
      assert out + next.requestList == out + e.requestList + [next.requestList[|e.requestList|]];
      TracksFrames(next, stream, out, config);
    }
  }

  lemma TracksCheck(e: Entry, stream: ByteArray, out: seq<Message>, config: Frame.Config)
    requires Tracks(e, stream, out, config)
    ensures Tracks(Checked(e, config), stream, out, config)
  {
    hide Streaming, Waiting, Answering, CheckedHeader, CheckedFrames;
    if !e.ready {
      if e.handshake { TracksFrames(e, stream, out, config); }
      else { TracksHeader(e, stream, config); }
    }
  }

  lemma TracksProcess(e: Entry, stream: ByteArray, out: seq<Message>, sent: bool, config: Frame.Config)
    requires Tracks(e, stream, out, config)
    ensures Tracks(Processed(e, sent), stream, out + Dispatched(e), config)
  {
    hide Request.Opening, Frames, Left;
    if e.ready && e.handshake {
      FinalsOfFinal(e.requestList);
      assert out + e.requestList + [] == out + e.requestList;
    } else {
      assert out + [] == out;
      if e.ready && sent {
        var n := Request.Opening(stream).value.1;
        assert [] + Frames(stream[n..], config) == Frames(stream[n..], config);
        assert out + e.requestList == [];
      }
    }
  }

  /** What has been dispatched is a prefix of what the stream holds. */
  lemma TracksPrefix(e: Entry, stream: ByteArray, out: seq<Message>, config: Frame.Config)
    requires Tracks(e, stream, out, config)
    ensures out <= Messages(stream, config)
  {
    hide Request.Opening, Frames, Left;
  }

  /** A request object that waits for more has read a whole line only out of enough bytes, so the
      next call of `Parse` stays within its buffer. */
  lemma WaitingIsParsable(e: Entry, stream: ByteArray)
    requires Waiting(e, stream) && e.request.lineLength != 0
    ensures |e.data| >= 4
  {
    hide Request.ParsedLine;
    var seen :| seen <= stream && e.request == Request.Parsed(Request.FRESH, seen);
    LineNeedsBytes(seen);
  }

  lemma LineNeedsBytes(data: ByteArray)
    requires Request.ParsedLine(data).Line?
    ensures |data| >= 4
  {
    hide Request.MethodOf, Request.PathOf;
  }
}
