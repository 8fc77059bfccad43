/** Whole runs of the server: the critical sections of src/WebSocketServer.cpp in any order, for any
    number of connections. */
module ServerRuns {
  import opened Bytes
  import opened ClientStream
  import opened RequestQueue
  import opened Wrappers
  import Frame
  import HttpHeader
  import HttpHeaderText
  import Request
  import RequestText
  import WebSocketServer

  /** One critical section: of a socket worker (`Connect`, `Bytes`, `Disconnect`) or of the request
      thread. `sent` holds the connections whose handshake answer can be written. */
  datatype Action =
    | Connect(id: int)
    | Bytes(id: int, chunk: ByteArray)
    | Disconnect(id: int)
    | Check
    | Process(sent: set<int>)

  type Run = seq<Action>

  function NextQueue(q: Queue, a: Action, config: Frame.Config): Queue {
    match a
    case Connect(id) => Init(q, id)
    case Bytes(id, chunk) => Put(q, id, chunk)
    case Disconnect(id) => Remove(q, id)
    case Check => CheckAll(q, config)
    case Process(sent) => ProcessAll(q, sent)
  }

  function NextSent(sent: Option<ByteArray>, a: Action, id: int): Option<ByteArray> {
    match a
    case Connect(x) => if x == id && sent.None? then Some([]) else sent
    case Bytes(x, chunk) => if x == id && sent.Some? then Some(sent.value + chunk) else sent
    case Disconnect(x) => if x == id then None else sent
    case Check => sent
    case Process(_) => sent
  }

  function NextOut(out: seq<Message>, q: Queue, a: Action, id: int, sent: Option<ByteArray>): seq<Message> {
    if NextSent(sent, a, id).None? then []
    else if a.Process? then out + OfConnection(DispatchAll(q), id)
    else out
  }

  function QueueAfter(run: Run, config: Frame.Config): Queue {
    if run == [] then [] else NextQueue(QueueAfter(run[..|run| - 1], config), run[|run| - 1], config)
  }

  /** What the client of the current session of `id` has sent; `None` while there is no session. */
  function Sent(run: Run, id: int): Option<ByteArray> {
    if run == [] then None else NextSent(Sent(run[..|run| - 1], id), run[|run| - 1], id)
  }

  /** The messages dispatched for `id` in its current session. */
  function Out(run: Run, id: int, config: Frame.Config): seq<Message> {
    if run == [] then []
    else
      var before, a := run[..|run| - 1], run[|run| - 1];
      NextOut(Out(before, id, config), QueueAfter(before, config), a, id, Sent(before, id))
  }

  // ---------------------------------------------------------------- safe runs

  /** Every `CheckData` of the run stays within the buffers it parses. */
  ghost predicate Safe(run: Run, config: Frame.Config) {
    forall k :: 0 <= k < |run| && run[k].Check? ==> WebSocketServer.AllParsable(QueueAfter(run[..k], config))
  }

  lemma SafePrefix(a: Run, b: Run, config: Frame.Config)
    requires Safe(a + b, config)
    ensures Safe(a, config)
  {
    hide QueueAfter;
    forall k | 0 <= k < |a| && a[k].Check? ensures WebSocketServer.AllParsable(QueueAfter(a[..k], config)) {
      assert (a + b)[..k] == a[..k] && (a + b)[k] == a[k];
    }
  }

  lemma SafeMore(run: Run, a: Action, config: Frame.Config)
    ensures Safe(run + [a], config)
            <==> Safe(run, config) && (a.Check? ==> WebSocketServer.AllParsable(QueueAfter(run, config)))
  {
    hide QueueAfter;
    var all := run + [a];
    assert all[..|run|] == run && all[|run|] == a;
    if Safe(all, config) { SafePrefix(run, [a], config); }
    if Safe(run, config) {
      forall k | 0 <= k < |run| ensures all[..k] == run[..k] && all[k] == run[k] {}
    }
  }

  // ---------------------------------------------------------------- safety

  ghost predicate Agrees(e: Option<Entry>, sent: Option<ByteArray>, out: seq<Message>, config: Frame.Config) {
    match sent
    case None => e.None? && out == []
    case Some(stream) => e.Some? && Tracks(e.value, stream, out, config)
  }

  /** At every point of every run, each connection's entry is where its own client's bytes put it. */
  lemma {:induction false} EntriesTrackStreams(run: Run, id: int, config: Frame.Config)
    ensures Distinct(QueueAfter(run, config))
    ensures Agrees(View(QueueAfter(run, config), id), Sent(run, id), Out(run, id, config), config)
  {
    if run != [] {
      var before, a := run[..|run| - 1], run[|run| - 1];
      EntriesTrackStreams(before, id, config);
      var q, out := QueueAfter(before, config), Out(before, id, config);
      AgreesAfter(q, a, id, Sent(before, id), out, config);
    }
  }

  lemma AgreesAfter(q: Queue, a: Action, id: int, sent: Option<ByteArray>, out: seq<Message>, config: Frame.Config)
    requires Distinct(q) && Agrees(View(q, id), sent, out, config)
    ensures Distinct(NextQueue(q, a, config))
    ensures Agrees(View(NextQueue(q, a, config), id), NextSent(sent, a, id), NextOut(out, q, a, id, sent), config)
  {
    hide Init, Put, Remove, CheckAll, ProcessAll, View, Distinct, Tracks, DispatchAll, OfConnection, Checked,
      Processed, Dispatched;
    match a
    case Connect(b) =>
      ViewInit(q, b, id);
      TracksNew(id, config);
    case Bytes(b, chunk) =>
      ViewPut(q, b, chunk, id);
      if sent.Some? { TracksPut(View(q, id).value, sent.value, out, chunk, config); }
    case Disconnect(b) =>
      ViewRemove(q, b, id);
    case Check =>
      ViewCheck(q, config, id);
      if sent.Some? { TracksCheck(View(q, id).value, sent.value, out, config); }
    case Process(s) =>
      ViewProcess(q, s, id);
      ViewDispatch(q, id);
      if sent.Some? { TracksProcess(View(q, id).value, sent.value, out, id in s, config); }
  }

  /** However the bytes are cut and whatever runs in between: what has been dispatched is an in-order,
      exactly-once prefix of the messages in the bytes sent so far. */
  lemma DispatchedIsPrefix(run: Run, id: int, config: Frame.Config)
    requires Safe(run, config) && Sent(run, id).Some?
    ensures Out(run, id, config) <= Messages(Sent(run, id).value, config)
  {
    hide Messages, Tracks, Distinct, QueueAfter, View, Sent, Out;
    EntriesTrackStreams(run, id, config);
    TracksPrefix(View(QueueAfter(run, config), id).value, Sent(run, id).value, Out(run, id, config), config);
  }

  /** No client has sent exactly one byte in its session. */
  ghost predicate NoSingleByte(run: Run) {
    forall id, s :: Sent(run, id) == Some(s) ==> |s| != 1
  }

  /** `CheckData` stays within its buffers exactly when no client has sent exactly one byte. */
  lemma CheckIsSafe(run: Run, config: Frame.Config)
    ensures WebSocketServer.AllParsable(QueueAfter(run, config)) <==> NoSingleByte(run)
  {
    hide QueueAfter, Sent, Out;
    var q := QueueAfter(run, config);
    if NoSingleByte(run) {
      forall k | 0 <= k < |q| ensures WebSocketServer.Parsable(q[k]) {
        var e := q[k];
        EntriesTrackStreams(run, e.connID, config);
        ViewIs(q, e.connID, k);
        if !e.ready && !e.handshake {
          var s := Sent(run, e.connID).value;
          assert Sent(run, e.connID) == Some(s);
          if e.request.lineLength != 0 { WaitingIsParsable(e, s); }
        }
      }
    }
    forall id, s | Sent(run, id) == Some(s) && |s| == 1 ensures !WebSocketServer.AllParsable(q) {
      SingleByteIsUnsafe(run, id, config);
    }
  }

  /** The source then searches a two-byte pattern in a one-byte buffer. */
  lemma SingleByteIsUnsafe(run: Run, id: int, config: Frame.Config)
    requires Sent(run, id).Some? && |Sent(run, id).value| == 1
    ensures !WebSocketServer.AllParsable(QueueAfter(run, config))
  {
    hide QueueAfter, Sent, Out, Waiting;
    EntriesTrackStreams(run, id, config);
    var q := QueueAfter(run, config);
    var k := IndexOf(q, id).value;
    var s := Sent(run, id).value;
    if Request.Opening(s).Some? { OpeningIsLong(s); }
    assert Waiting(q[k], s);
    WaitingHolds(q[k], s);
    assert !WebSocketServer.Parsable(q[k]);
  }

  lemma OpeningIsLong(stream: ByteArray)
    requires Request.Opening(stream).Some?
    ensures |stream| >= 4
  {
    hide Request.ParsedLine, HttpHeader.Parsed;
    LineNeedsBytes(stream);
  }

  lemma WaitingHolds(e: Entry, stream: ByteArray)
    requires Waiting(e, stream)
    ensures e.data == stream
  {
  }

  /** So a run is safe exactly when no check meets a client that has sent one byte. */
  lemma SafeExactly(run: Run, config: Frame.Config)
    ensures Safe(run, config) <==> forall k :: 0 <= k < |run| && run[k].Check? ==> NoSingleByte(run[..k])
  {
    hide QueueAfter, NoSingleByte, WebSocketServer.AllParsable;
    forall k | 0 <= k < |run|
      ensures WebSocketServer.AllParsable(QueueAfter(run[..k], config)) <==> NoSingleByte(run[..k])
    {
      CheckIsSafe(run[..k], config);
    }
  }

  /** The smallest run that is not safe: one byte, then a check. */
  lemma OneByteLeavesTheBuffer(id: int, b: byte, config: Frame.Config)
    ensures Sent([Connect(id), Action.Bytes(id, [b])], id) == Some([b])
    ensures !Safe([Connect(id), Action.Bytes(id, [b]), Check], config)
  {
    hide QueueAfter;
    var run := [Connect(id), Action.Bytes(id, [b])];
    assert run[..1] == [Connect(id)] && [Connect(id)][..0] == [] && [] + [b] == [b];
    assert Sent([Connect(id)], id) == Some([]);
    SingleByteIsUnsafe(run, id, config);
    var all := run + [Check];
    assert all == [Connect(id), Action.Bytes(id, [b]), Check];
    SafeMore(run, Check, config);
  }

  // ---------------------------------------------------------------- a client's bytes

  datatype ClientFrame = ClientFrame(opcode: byte, payload: ByteArray, mask: ByteArray)

  predicate Sendable(f: ClientFrame, config: Frame.Config) {
    |f.mask| == 4 && f.opcode <= 15 && 1 <= |f.payload| <= config.maxFrameSize && |f.payload| <= config.maxMessageSize
  }

  predicate AllSendable(frames: seq<ClientFrame>, config: Frame.Config) {
    forall k :: 0 <= k < |frames| ==> Sendable(frames[k], config)
  }

  function EncodeAll(frames: seq<ClientFrame>, config: Frame.Config): ByteArray
    requires AllSendable(frames, config)
  {
    if frames == [] then []
    else Frame.Encode(frames[0].opcode, frames[0].payload, frames[0].mask) + EncodeAll(frames[1..], config)
  }

  function MessagesOf(frames: seq<ClientFrame>): seq<Message> {
    seq(|frames|, i requires 0 <= i < |frames| => Message(frames[i].opcode, frames[i].payload, true))
  }

  lemma {:induction false} EncodedThenRest(frames: seq<ClientFrame>, rest: ByteArray, config: Frame.Config)
    requires AllSendable(frames, config) && config.maxFrameSize <= Frame.SIZE_MAX
    ensures Frames(EncodeAll(frames, config) + rest, config) == MessagesOf(frames) + Frames(rest, config)
  {
    hide Frame.Encode, Frame.Parsed;
    var data := EncodeAll(frames, config) + rest;
    if frames == [] {
      assert data == rest && MessagesOf(frames) + Frames(rest, config) == Frames(rest, config);
    } else {
      var f, tail := frames[0], EncodeAll(frames[1..], config) + rest;
      assert Sendable(f, config);
      var head := Frame.Encode(f.opcode, f.payload, f.mask);
      assert data == head + tail;
      Frame.FrameRoundTrip(f.opcode, f.payload, f.mask, tail, config);
      Frame.FrameIsBounded(data, config);
      assert data[|head|..] == tail;
      EncodedThenRest(frames[1..], rest, config);
      assert MessagesOf(frames) == [Message(f.opcode, f.payload, true)] + MessagesOf(frames[1..]);
    }
  }

  lemma NothingInNothing(config: Frame.Config)
    ensures Frames([], config) == []
  {
    Frame.NothingParses(config);
  }

  /** A request the library's own client could print, with no body announced. */
  ghost predicate Opens(r: Request.State) {
    && RequestText.PlainLine(r) && RequestText.PlainHeader(r.header)
    && r.header.fields != [] && HttpHeader.DistinctNames(r.header.fields)
    && HttpHeader.Get(r.header.fields, HttpHeader.CONTENT_LENGTH) == []
    && |Request.Print(r)| < HttpHeader.TWO_64
  }

  function ClientBytes(r: Request.State, frames: seq<ClientFrame>, config: Frame.Config): ByteArray
    requires AllSendable(frames, config)
  {
    Request.Print(r) + EncodeAll(frames, config)
  }

  lemma OpeningOfPrinted(r: Request.State, rest: ByteArray)
    requires Opens(r)
    ensures var o := Request.Opening(Request.Print(r) + rest); o.Some? && o.value.1 == |Request.Print(r)|
  {
    hide Request.Parsed, Request.Print, RequestText.PlainLine, RequestText.PlainHeader, HttpHeader.DistinctNames,
      HttpHeader.Get;
    RequestText.RequestRoundTrip(r, rest);
    var q := Request.Parsed(Request.FRESH, Request.Print(r) + rest);
    assert q.header.chunkedSize == 0 by { NoChunks(Request.Print(r) + rest); }
  }

  lemma NoChunks(data: ByteArray)
    ensures Request.Parsed(Request.FRESH, data).header.chunkedSize == 0
  {
    hide Request.ParsedLine;
  }

  /** A client that opens with such a request and then sends frames has sent exactly their payloads. */
  lemma MessagesOfClient(r: Request.State, frames: seq<ClientFrame>, config: Frame.Config)
    requires Opens(r) && AllSendable(frames, config) && config.Sane()
    ensures Messages(ClientBytes(r, frames, config), config) == MessagesOf(frames)
  {
    hide Request.Opening, Request.Print, EncodeAll, Frames, MessagesOf, Opens, AllSendable;
    var head, tail := Request.Print(r), EncodeAll(frames, config);
    OpeningOfPrinted(r, tail);
    EncodedThenRest(frames, [], config);
    assert tail + [] == tail && (head + tail)[|head|..] == tail;
    NothingInNothing(config);
    assert MessagesOf(frames) + [] == MessagesOf(frames);
  }

  /** Any cutting, any interleaving: the server never dispatches anything but the client's messages, in
      order, each at most once. */
  lemma ChunkingDoesNotMatter(run: Run, id: int, r: Request.State, frames: seq<ClientFrame>, config: Frame.Config)
    requires Opens(r) && AllSendable(frames, config) && config.Sane() && Safe(run, config)
    requires Sent(run, id).Some? && Sent(run, id).value <= ClientBytes(r, frames, config)
    ensures Out(run, id, config) <= MessagesOf(frames)
  {
    hide Messages, Out, Sent, ClientBytes, MessagesOf, Opens, AllSendable;
    var s, all := Sent(run, id).value, ClientBytes(r, frames, config);
    DispatchedIsPrefix(run, id, config);
    MessagesOfClient(r, frames, config);
    assert s + all[|s|..] == all;
    MessagesExtend(s, all[|s|..], config);
  }

  // ---------------------------------------------------------------- the request thread

  /** The last `CheckData` returned true and its `ProcessRequests` has not run yet. */
  ghost predicate Due(run: Run, config: Frame.Config) {
    run != [] &&
    var before, a := run[..|run| - 1], run[|run| - 1];
    if a.Check? then AnyNews(QueueAfter(before, config), config)
    else !a.Process? && Due(before, config)
  }

  /** The order of `RequestThread`: a pass checks, and processes exactly when the check says so. */
  ghost predicate InOrder(run: Run, config: Frame.Config) {
    run == [] ||
    var before, a := run[..|run| - 1], run[|run| - 1];
    InOrder(before, config) && (a.Check? ==> !Due(before, config)) && (a.Process? ==> Due(before, config))
  }

  /** The answer to `id` can always be written. */
  predicate Answered(run: Run, id: int) {
    forall k :: 0 <= k < |run| && run[k].Process? ==> id in run[k].sent
  }

  ghost predicate Served(run: Run, id: int, config: Frame.Config) {
    InOrder(run, config) && Answered(run, id)
  }

  /** Between two passes nothing is left to dispatch. */
  lemma {:induction false} NotDueNotReady(run: Run, id: int, config: Frame.Config)
    requires Served(run, id, config) && !Due(run, config)
    ensures View(QueueAfter(run, config), id).Some? ==> !View(QueueAfter(run, config), id).value.ready
  {
    hide Init, Put, Remove, CheckAll, ProcessAll, View, Checked, AnyNews, Tracks, Distinct;
    if run != [] {
      var before, a := run[..|run| - 1], run[|run| - 1];
      var q := QueueAfter(before, config);
      EntriesTrackStreams(before, id, config);
      match a
      case Connect(b) => ViewInit(q, b, id); NotDueNotReady(before, id, config);
      case Bytes(b, chunk) => ViewPut(q, b, chunk, id); NotDueNotReady(before, id, config);
      case Disconnect(b) => ViewRemove(q, b, id); NotDueNotReady(before, id, config);
      case Check =>
        ViewCheck(q, config, id);
        NotDueNotReady(before, id, config);
        if View(q, id).Some? { NewsOfOne(q, config, id); }
      case Process(sent) =>
        ViewProcess(q, sent, id);
        if View(q, id).Some? { ProcessedIsIdle(View(q, id).value, Sent(before, id).value, Out(before, id, config),
          config); }
    } else {
      ViewNone([], id);
    }
  }

  lemma ProcessedIsIdle(e: Entry, stream: ByteArray, out: seq<Message>, config: Frame.Config)
    requires Tracks(e, stream, out, config)
    ensures !Processed(e, true).ready
  {
    hide Frames, Left, Request.Opening;
  }

  lemma NewsOfOne(q: Queue, config: Frame.Config, id: int)
    requires !AnyNews(q, config) && View(q, id).Some? && !View(q, id).value.ready
    ensures !Checked(View(q, id).value, config).ready
  {
    hide Checked;
  }

  function Checks(run: Run): nat {
    if run == [] then 0 else Checks(run[..|run| - 1]) + if run[|run| - 1].Check? then 1 else 0
  }

  lemma {:induction false} ChecksAdd(a: Run, b: Run)
    ensures Checks(a + b) == Checks(a) + Checks(b)
  {
    if b == [] {
      assert a + b == a;
    } else {
      assert (a + b)[..|a + b| - 1] == a + b[..|b| - 1];
      ChecksAdd(a, b[..|b| - 1]);
    }
  }

  /** Nothing more arrives for `id`. */
  predicate Quiet(run: Run, id: int) {
    forall k :: 0 <= k < |run| ==> !(run[k].Bytes? && run[k].id == id) && !(run[k].Disconnect? && run[k].id == id)
  }

  ghost predicate Begun(e: Entry, stream: ByteArray) {
    Request.Opening(stream).None? || e.handshake || e.ready
  }

  ghost predicate Drained(e: Entry, stream: ByteArray, config: Frame.Config) {
    Request.Opening(stream).None? || (e.handshake && Frames(e.data, config) == [])
  }

  ghost predicate Advanced(e: Entry, stream: ByteArray, checks: nat, config: Frame.Config) {
    (checks >= 1 ==> Begun(e, stream)) && (checks >= 2 ==> Drained(e, stream, config))
  }

  lemma CheckAdvances(e: Entry, stream: ByteArray, out: seq<Message>, checks: nat, config: Frame.Config)
    requires Tracks(e, stream, out, config) && !e.ready && Advanced(e, stream, checks, config)
    ensures Advanced(Checked(e, config), stream, checks + 1, config)
  {
    hide Request.Opening, Frames, CheckedFrames, CheckedHeader, Streaming, Waiting;
    if e.handshake { TracksFrames(e, stream, out, config); }
    else { TracksHeader(e, stream, config); }
  }

  lemma ProcessKeepsAdvance(e: Entry, stream: ByteArray, out: seq<Message>, checks: nat, config: Frame.Config)
    requires Tracks(e, stream, out, config) && Advanced(e, stream, checks, config)
    ensures Advanced(Processed(e, true), stream, checks, config)
  {
    hide Request.Opening, Frames, Others, Streaming, Waiting;
  }

  lemma {:induction false} PassesAdvance(a: Run, b: Run, id: int, config: Frame.Config)
    requires Served(a + b, id, config) && Quiet(b, id) && Sent(a, id).Some?
    ensures Sent(a + b, id) == Sent(a, id)
    ensures View(QueueAfter(a + b, config), id).Some?
    ensures Advanced(View(QueueAfter(a + b, config), id).value, Sent(a, id).value, Checks(b), config)
  {
    hide Init, Put, Remove, CheckAll, ProcessAll, View, Checked, Processed, AnyNews, Tracks, Distinct, Advanced, Out,
      Due;
    EntriesTrackStreams(a + b, id, config);
    if b == [] {
      assert a + b == a;
      NothingAdvanced(View(QueueAfter(a, config), id).value, Sent(a, id).value, config);
    } else {
      var n := |b| - 1;
      var before, c := a + b[..n], b[n];
      assert (a + b)[..|a + b| - 1] == before && (a + b)[|a + b| - 1] == c;
      PassesAdvance(a, b[..n], id, config);
      EntriesTrackStreams(before, id, config);
      var q := QueueAfter(before, config);
      var e, s, out := View(q, id).value, Sent(a, id).value, Out(before, id, config);
      match c
      case Connect(x) => ViewInit(q, x, id);
      case Bytes(x, chunk) => ViewPut(q, x, chunk, id);
      case Disconnect(x) => ViewRemove(q, x, id);
      case Check =>
        ViewCheck(q, config, id);
        NotDueNotReady(before, id, config);
        CheckAdvances(e, s, out, Checks(b[..n]), config);
      case Process(sent) =>
        ViewProcess(q, sent, id);
        ProcessKeepsAdvance(e, s, out, Checks(b[..n]), config);
    }
  }

  lemma NothingAdvanced(e: Entry, stream: ByteArray, config: Frame.Config)
    ensures Advanced(e, stream, 0, config)
  {
  }

  /** Once a client has stopped sending, two checks of the request thread, with the processing they ask
      for, are enough: everything it has sent has been dispatched. */
  lemma TwoPassesDeliver(a: Run, b: Run, id: int, config: Frame.Config)
    requires Safe(a + b, config) && Served(a + b, id, config) && !Due(a + b, config)
    requires Sent(a, id).Some? && Quiet(b, id) && Checks(b) >= 2
    ensures Sent(a + b, id) == Sent(a, id)
    ensures Out(a + b, id, config) == Messages(Sent(a, id).value, config)
  {
    hide QueueAfter, Sent, Out, Due, Served, View, Distinct, Checks, Quiet;
    PassesAdvance(a, b, id, config);
    NotDueNotReady(a + b, id, config);
    EntriesTrackStreams(a + b, id, config);
    DrainedIsOut(View(QueueAfter(a + b, config), id).value, Sent(a, id).value, Out(a + b, id, config), config);
  }

  lemma DrainedIsOut(e: Entry, stream: ByteArray, out: seq<Message>, config: Frame.Config)
    requires Tracks(e, stream, out, config) && Drained(e, stream, config) && !e.ready
    ensures out == Messages(stream, config)
  {
    hide Request.Opening, Frames, Left;
    if Request.Opening(stream).Some? {
      assert out + e.requestList == out;
    } else {
      assert !e.handshake;
    }
  }

  /** All of a client's messages, once every byte is in. */
  lemma AllDelivered(a: Run, b: Run, id: int, r: Request.State, frames: seq<ClientFrame>, config: Frame.Config)
    requires Opens(r) && AllSendable(frames, config) && config.Sane()
    requires Sent(a, id) == Some(ClientBytes(r, frames, config)) && Quiet(b, id) && Checks(b) >= 2
    requires Safe(a + b, config) && Served(a + b, id, config) && !Due(a + b, config)
    ensures Out(a + b, id, config) == MessagesOf(frames)
  {
    hide *;
    TwoPassesDeliver(a, b, id, config);
    MessagesOfClient(r, frames, config);
  }

  // ---------------------------------------------------------------- a frame that is refused

  /** The messages of a client that goes on with those bytes behind its frames. */
  lemma MessagesGoOn(r: Request.State, frames: seq<ClientFrame>, more: ByteArray, config: Frame.Config)
    requires Opens(r) && AllSendable(frames, config) && config.Sane()
    ensures Messages(ClientBytes(r, frames, config) + more, config) == MessagesOf(frames) + Frames(more, config)
  {
    hide Request.Opening, Request.Print, EncodeAll, Frames, MessagesOf, Opens, AllSendable;
    var head, tail := Request.Print(r), EncodeAll(frames, config) + more;
    OpeningOfPrinted(r, tail);
    EncodedThenRest(frames, more, config);
    assert ClientBytes(r, frames, config) + more == head + tail && (head + tail)[|head|..] == tail;
  }

  /** No frame comes out of bytes that start with that header. */
  lemma FramesByHeader(data: ByteArray, more: ByteArray, config: Frame.Config)
    requires Frame.HeaderThere(data)
    ensures Frames(data + more, config) == [] <==> Frame.Refused(data, config) || |data + more| < Frame.FrameSize(data)
  {
    hide Frame.Parsed, Frame.Refused, Frame.FrameSize;
    Frame.HeaderDecides(data, more, config);
  }

  /** A frame stalls the stream for good, whatever is sent behind it, exactly when it has no FIN bit, is
      empty or is over a limit. */
  lemma StreamStalls(r: Request.State, frames: seq<ClientFrame>, data: ByteArray, config: Frame.Config)
    requires Opens(r) && AllSendable(frames, config) && config.Sane() && Frame.HeaderThere(data)
    ensures (forall more :: Messages(ClientBytes(r, frames, config) + (data + more), config) == MessagesOf(frames))
       <==> Frame.Refused(data, config)
  {
    hide Messages, Frames, MessagesOf, Opens, AllSendable, ClientBytes, Frame.HeaderThere, Frame.Refused,
      Frame.FrameSize;
    forall more
      ensures Messages(ClientBytes(r, frames, config) + (data + more), config) == MessagesOf(frames)
         <==> Frame.Refused(data, config) || |data + more| < Frame.FrameSize(data)
    {
      MessagesGoOn(r, frames, data + more, config);
      FramesByHeader(data, more, config);
    }
    var filler: ByteArray := seq(Frame.FrameSize(data), _ => 0);
    assert |data + filler| >= Frame.FrameSize(data);
  }

  /** What the client had sent before such a frame is all that is ever dispatched. */
  lemma NothingBehindRefused(
    run: Run, id: int, r: Request.State, frames: seq<ClientFrame>, data: ByteArray, more: ByteArray,
      config: Frame.Config)
    requires Safe(run, config) && Opens(r) && AllSendable(frames, config) && config.Sane()
    requires Frame.HeaderThere(data) && Frame.Refused(data, config)
    requires Sent(run, id).Some? && Sent(run, id).value <= ClientBytes(r, frames, config) + (data + more)
    ensures Out(run, id, config) <= MessagesOf(frames)
  {
    hide Messages, Out, Sent, ClientBytes, MessagesOf, Opens, AllSendable, Frame.HeaderThere, Frame.Refused, Safe;
    var s, all := Sent(run, id).value, ClientBytes(r, frames, config) + (data + more);
    DispatchedIsPrefix(run, id, config);
    StreamStalls(r, frames, data, config);
    assert s + all[|s|..] == all;
    MessagesExtend(s, all[|s|..], config);
  }

  /** Once a complete frame is in, and two passes have run, it is missing exactly when it is refused. */
  lemma UnacceptableFrameStalls(
    a: Run, b: Run, id: int, r: Request.State, frames: seq<ClientFrame>, data: ByteArray, more: ByteArray,
    config: Frame.Config)
    requires Opens(r) && AllSendable(frames, config) && config.Sane()
    requires Frame.HeaderThere(data) && |data + more| >= Frame.FrameSize(data)
    requires Sent(a, id) == Some(ClientBytes(r, frames, config) + (data + more)) && Quiet(b, id) && Checks(b) >= 2
    requires Safe(a + b, config) && Served(a + b, id, config) && !Due(a + b, config)
    ensures Out(a + b, id, config) == MessagesOf(frames) <==> Frame.Refused(data, config)
  {
    hide *;
    TwoPassesDeliver(a, b, id, config);
    MessagesGoOn(r, frames, data + more, config);
    FramesByHeader(data, more, config);
    assert MessagesOf(frames) + Frames(data + more, config) == MessagesOf(frames)
           <==> Frames(data + more, config) == [];
  }

  // ---------------------------------------------------------------- a handshake that could not be answered

  /** An entry whose answer could not be written. */
  predicate Unanswered(e: Option<Entry>) {
    e.Some? && e.value.ready && !e.value.handshake
  }

  /** Some other connection's parsing gets somewhere. */
  ghost predicate OtherNews(q: Queue, id: int, config: Frame.Config) {
    exists i :: 0 <= i < |q| && q[i].connID != id && !q[i].ready && Checked(q[i], config).ready
  }

  /** What the server answers: the opening request of the client's own bytes, as a `WEBSOCKET` request. */
  lemma RequestIsTheClients(run: Run, id: int, config: Frame.Config)
    requires Unanswered(View(QueueAfter(run, config), id))
    ensures Sent(run, id).Some? && Request.Opening(Sent(run, id).value).Some?
    ensures var opening := Request.Opening(Sent(run, id).value).value;
            View(QueueAfter(run, config), id).value.request == opening.0.(verb := Request.WEBSOCKET)
  {
    hide QueueAfter, View, Request.Opening, AllFinal;
    EntriesTrackStreams(run, id, config);
  }

  /** Processing answers it exactly if the answer can be written, and changes nothing otherwise. */
  lemma AnsweredIfWritten(q: Queue, sent: set<int>, id: int)
    requires Distinct(q) && Unanswered(View(q, id))
    ensures View(ProcessAll(q, sent), id)
         == Some(if id in sent then View(q, id).value.(handshake := true, ready := false) else View(q, id).value)
  {
    hide View, ProcessAll, Distinct;
    ViewProcess(q, sent, id);
  }

  lemma OnlyAnswersShake(e: Entry, config: Frame.Config)
    requires !e.handshake
    ensures !Checked(e, config).handshake && !Processed(e, false).handshake && Dispatched(e) == []
  {
    hide Request.Parsed;
  }

  /** Not yet answered, if there at all. */
  predicate Unshaken(e: Option<Entry>) {
    e.Some? ==> !e.value.handshake
  }

  lemma StaysUnshaken(q: Queue, a: Action, id: int, config: Frame.Config)
    requires Distinct(q) && Unshaken(View(q, id)) && (a.Process? ==> id !in a.sent)
    ensures Unshaken(View(NextQueue(q, a, config), id)) && OfConnection(DispatchAll(q), id) == []
  {
    hide Init, Put, Remove, CheckAll, ProcessAll, View, Distinct, DispatchAll, OfConnection, Checked, Processed,
      Dispatched;
    if View(q, id).Some? { OnlyAnswersShake(View(q, id).value, config); }
    ViewDispatch(q, id);
    match a
    case Connect(b) => ViewInit(q, b, id);
    case Bytes(b, chunk) => ViewPut(q, b, chunk, id);
    case Disconnect(b) => ViewRemove(q, b, id);
    case Check => ViewCheck(q, config, id);
    case Process(s) => ViewProcess(q, s, id);
  }

  /** As long as no answer of a connection could be written, nothing is dispatched for it. */
  lemma {:induction false} NothingBeforeTheAnswer(run: Run, id: int, config: Frame.Config)
    requires forall k :: 0 <= k < |run| && run[k].Process? ==> id !in run[k].sent
    ensures Out(run, id, config) == [] && Unshaken(View(QueueAfter(run, config), id))
  {
    hide NextQueue, View, Distinct, DispatchAll, OfConnection;
    if run == [] {
      assert View([], id) == None by { ViewNone([], id); }
    } else {
      var before, a := run[..|run| - 1], run[|run| - 1];
      NothingBeforeTheAnswer(before, id, config);
      AlwaysDistinct(before, config);
      StaysUnshaken(QueueAfter(before, config), a, id, config);
    }
  }

  /** `CheckData` passes over it, so a pass becomes due exactly when another connection has news. Meanwhile
      `HasData` is true, and the thread does not even wait. */
  lemma UnansweredIsNoNews(q: Queue, id: int, config: Frame.Config)
    requires Distinct(q) && Unanswered(View(q, id))
    ensures Checked(View(q, id).value, config) == View(q, id).value && HasData(q)
    ensures AnyNews(q, config) <==> OtherNews(q, id, config)
  {
    hide CheckedHeader, CheckedFrames;
    var i := IndexOf(q, id).value;
    assert q[i].ready;
  }

  lemma UnansweredStays(q: Queue, c: Action, id: int, config: Frame.Config)
    requires Distinct(q) && Unanswered(View(q, id)) && c != Disconnect(id) && !c.Process?
    ensures Unanswered(View(NextQueue(q, c, config), id))
  {
    hide Init, Put, Remove, CheckAll, View, Distinct, Checked, AnyNews, HasData, OtherNews;
    match c
    case Connect(x) => ViewInit(q, x, id);
    case Bytes(x, chunk) => ViewPut(q, x, chunk, id);
    case Disconnect(x) => ViewRemove(q, x, id);
    case Check =>
      ViewCheck(q, config, id);
      UnansweredIsNoNews(q, id, config);
    case Process(sent) =>
  }

  /** No check of `b` finds news of another connection, and `id` does not hang up. */
  ghost predicate NothingElse(a: Run, b: Run, id: int, config: Frame.Config) {
    && (forall k :: 0 <= k < |b| ==> b[k] != Disconnect(id))
    && (forall k :: 0 <= k < |b| && b[k].Check? ==> !OtherNews(QueueAfter(a + b[..k], config), id, config))
  }

  lemma NothingElseBefore(a: Run, b: Run, id: int, config: Frame.Config)
    requires NothingElse(a, b, id, config) && b != []
    ensures NothingElse(a, b[..|b| - 1], id, config)
  {
    hide QueueAfter, OtherNews;
    var before := b[..|b| - 1];
    forall k | 0 <= k < |before| ensures before[..k] == b[..k] {}
  }

  lemma LastIsQuiet(a: Run, b: Run, id: int, config: Frame.Config)
    requires NothingElse(a, b, id, config) && b != []
    ensures var n := |b| - 1;
            b[n] != Disconnect(id) && (b[n].Check? ==> !OtherNews(QueueAfter(a + b[..n], config), id, config))
  {
    hide QueueAfter, OtherNews;
  }

  lemma AlwaysDistinct(run: Run, config: Frame.Config)
    ensures Distinct(QueueAfter(run, config))
  {
    hide *;
    EntriesTrackStreams(run, 0, config);
  }

  /** A run that is one action longer. */
  lemma OneMore(before: Run, c: Action, run: Run, config: Frame.Config)
    requires run == before + [c]
    ensures QueueAfter(run, config) == NextQueue(QueueAfter(before, config), c, config)
    ensures Due(run, config) <==>
              if c.Check? then AnyNews(QueueAfter(before, config), config) else !c.Process? && Due(before, config)
    ensures InOrder(run, config) <==>
              InOrder(before, config) && (c.Check? ==> !Due(before, config)) && (c.Process? ==> Due(before, config))
  {
    hide NextQueue, AnyNews;
    assert run[..|run| - 1] == before && run[|run| - 1] == c;
  }

  lemma OneMoreSeen(before: Run, c: Action, run: Run, id: int, config: Frame.Config)
    requires run == before + [c]
    ensures Sent(run, id) == NextSent(Sent(before, id), c, id)
    ensures Out(run, id, config)
            == NextOut(Out(before, id, config), QueueAfter(before, config), c, id, Sent(before, id))
  {
    hide NextSent, NextOut, QueueAfter;
    assert run[..|run| - 1] == before && run[|run| - 1] == c;
  }

  /** As long as no check finds news of another connection, an answer that could not be written is never
      tried again, however long the request thread goes on. */
  lemma {:induction false} FailedAnswerIsNotRetried(a: Run, b: Run, id: int, config: Frame.Config)
    requires InOrder(a + b, config) && !Due(a, config) && Unanswered(View(QueueAfter(a, config), id))
    requires NothingElse(a, b, id, config)
    ensures forall k :: 0 <= k < |b| ==> !b[k].Process?
    ensures !Due(a + b, config) && Unanswered(View(QueueAfter(a + b, config), id)) && HasData(QueueAfter(a + b, config))
  {
    hide NextQueue, QueueAfter, View, AnyNews, OtherNews, HasData, Distinct, Unanswered, NothingElse, Due, InOrder;
    if b == [] {
      assert a + b == a;
    } else {
      var n := |b| - 1;
      var before, c := a + b[..n], b[n];
      assert a + b == before + [c];
      OneMore(before, c, a + b, config);
      NothingElseBefore(a, b, id, config);
      FailedAnswerIsNotRetried(a, b[..n], id, config);
      AlwaysDistinct(before, config);
      UnansweredIsNoNews(QueueAfter(before, config), id, config);
      LastIsQuiet(a, b, id, config);
      UnansweredStays(QueueAfter(before, config), c, id, config);
    }
    AlwaysDistinct(a + b, config);
    UnansweredIsNoNews(QueueAfter(a + b, config), id, config);
  }
}
