/** The request queue of src/WebSocketServer.cpp: what each critical section makes of it. */
module RequestQueue {
  import opened Bytes
  import opened Wrappers
  import Frame
  import Request

  datatype Message = Message(opcode: byte, payload: ByteArray, final: bool)

  /** `RequestData`. */
  datatype Entry = Entry(
    connID: int,
    request: Request.State,
    data: ByteArray,
    requestList: seq<Message>,
    handshake: bool,
    ready: bool)

  type Queue = seq<Entry>

  function NewEntry(connID: int): Entry {
    Entry(connID, Request.FRESH, [], [], false, false)
  }

  // ---------------------------------------------------------------- finding a connection

  /** `getRequest`, and the loops that stop at the first entry of a connection. */
  function IndexOf(queue: Queue, connID: int): (r: Option<nat>)
    ensures r.Some? ==> r.value < |queue| && queue[r.value].connID == connID
    ensures r.Some? ==> forall k :: 0 <= k < r.value ==> queue[k].connID != connID
    ensures r.None? ==> forall k :: 0 <= k < |queue| ==> queue[k].connID != connID
  {
    if queue == [] then None
    else if queue[0].connID == connID then Some(0)
    else match IndexOf(queue[1..], connID) case Some(k) => Some(k + 1) case None => None
  }

  function View(queue: Queue, connID: int): Option<Entry> {
    match IndexOf(queue, connID) case Some(i) => Some(queue[i]) case None => None
  }

  ghost predicate Distinct(queue: Queue) {
    forall i, j :: 0 <= i < j < |queue| ==> queue[i].connID != queue[j].connID
  }

  // ---------------------------------------------------------------- the producers' sections

  function Put(queue: Queue, connID: int, data: ByteArray): Queue {
    match IndexOf(queue, connID)
    case Some(i) => queue[i := queue[i].(data := queue[i].data + data)]
    case None => queue
  }

  function Init(queue: Queue, connID: int): Queue {
    if IndexOf(queue, connID).Some? then queue else queue + [NewEntry(connID)]
  }

  function Remove(queue: Queue, connID: int): Queue {
    match IndexOf(queue, connID)
    case Some(i) => queue[..i] + queue[i + 1..]
    case None => queue
  }

  // ---------------------------------------------------------------- CheckData

  function CheckedHeader(e: Entry): Entry {
    var r := Request.Parsed(e.request, e.data);
    if Request.Complete(r) && |e.data| >= Request.Size(r)
    then e.(request := r.(verb := Request.WEBSOCKET), data := e.data[Request.Size(r)..], ready := true,
      handshake := false)
    else e.(request := r)
  }

  function CheckedFrame(e: Entry, config: Frame.Config): Entry {
    match Frame.Parsed(e.data, config)
    case Found(opcode, final, payload, size) =>
      Frame.FrameFits(e.data, config);
      e.(data := e.data[size..], requestList := e.requestList + [Message(opcode, payload, final)],
         ready := true, handshake := true)
    case _ => e
  }

  function CheckedFrames(e: Entry, config: Frame.Config): Entry
    decreases |e.data|
  {
    if Frame.Parsed(e.data, config).Found? then
      Frame.FrameFits(e.data, config);
      CheckedFrames(CheckedFrame(e, config), config)
    else e
  }

  function Checked(e: Entry, config: Frame.Config): Entry {
    if e.ready then e else if !e.handshake then CheckedHeader(e) else CheckedFrames(e, config)
  }

  function CheckAll(queue: Queue, config: Frame.Config): (r: Queue)
    ensures |r| == |queue|
  {
    seq(|queue|, i requires 0 <= i < |queue| => Checked(queue[i], config))
  }

  /** What `CheckData` returns. */
  ghost predicate AnyNews(queue: Queue, config: Frame.Config) {
    exists i :: 0 <= i < |queue| && !queue[i].ready && Checked(queue[i], config).ready
  }

  // ---------------------------------------------------------------- ProcessRequests

  function Finals(list: seq<Message>): seq<Message> {
    if list == [] then []
    else Finals(list[..|list| - 1]) + if list[|list| - 1].final then [list[|list| - 1]] else []
  }

  function Others(list: seq<Message>): seq<Message> {
    if list == [] then []
    else Others(list[..|list| - 1]) + if list[|list| - 1].final then [] else [list[|list| - 1]]
  }

  /** `sent` says whether the answer to the handshake could be written. */
  function Processed(e: Entry, sent: bool): Entry {
    if !e.ready then e
    else if !e.handshake then if sent then e.(handshake := true, ready := false) else e
    else if e.requestList == [] then e
    else e.(requestList := Others(e.requestList), ready := false)
  }

  function Dispatched(e: Entry): seq<Message> {
    if e.ready && e.handshake then Finals(e.requestList) else []
  }

  /** `sent` holds the connections whose answer is written. */
  function ProcessAll(queue: Queue, sent: set<int>): (r: Queue)
    ensures |r| == |queue|
  {
    seq(|queue|, i requires 0 <= i < |queue| => Processed(queue[i], queue[i].connID in sent))
  }

  datatype Dispatch = Dispatch(connID: int, message: Message)

  function Labelled(connID: int, messages: seq<Message>): seq<Dispatch> {
    seq(|messages|, i requires 0 <= i < |messages| => Dispatch(connID, messages[i]))
  }

  /** The calls of `ProcessWsRequest`, in order. */
  function DispatchAll(queue: Queue): seq<Dispatch> {
    if queue == [] then []
    else
      var last := queue[|queue| - 1];
      DispatchAll(queue[..|queue| - 1]) + Labelled(last.connID, Dispatched(last))
  }

  function OfConnection(log: seq<Dispatch>, connID: int): seq<Message> {
    if log == [] then []
    else
      var last := log[|log| - 1];
      OfConnection(log[..|log| - 1], connID) + if last.connID == connID then [last.message] else []
  }

  predicate HasData(queue: Queue) {
    exists i :: 0 <= i < |queue| && (queue[i].data != [] || queue[i].ready)
  }

  /** What a pass of the request thread makes of the queue, and the calls it makes. */
  ghost function AfterPass(queue: Queue, sent: set<int>, config: Frame.Config): Queue {
    if AnyNews(queue, config) then ProcessAll(CheckAll(queue, config), sent) else CheckAll(queue, config)
  }

  ghost function LogOfPass(queue: Queue, config: Frame.Config): seq<Dispatch> {
    if AnyNews(queue, config) then DispatchAll(CheckAll(queue, config)) else []
  }

  // ---------------------------------------------------------------- one connection's view

  lemma ViewIs(queue: Queue, connID: int, i: nat)
    requires i < |queue| && queue[i].connID == connID && forall k :: 0 <= k < i ==> queue[k].connID != connID
    ensures View(queue, connID) == Some(queue[i])
  {
  }

  lemma ViewNone(queue: Queue, connID: int)
    requires forall k :: 0 <= k < |queue| ==> queue[k].connID != connID
    ensures View(queue, connID) == None
  {
  }

  lemma ViewPut(queue: Queue, a: int, data: ByteArray, id: int)
    ensures View(Put(queue, a, data), id) == match View(queue, id) {
              case Some(e) => Some(if id == a then e.(data := e.data + data) else e)
              case None => None
            }
    ensures Distinct(queue) ==> Distinct(Put(queue, a, data))
  {
    match IndexOf(queue, a)
    case Some(j) =>
      match IndexOf(queue, id) {
        case Some(i) => ViewIs(Put(queue, a, data), id, i);
        case None => ViewNone(Put(queue, a, data), id);
      }
    case None =>
  }

  lemma ViewInit(queue: Queue, a: int, id: int)
    ensures View(Init(queue, a), id) == if id == a && View(queue, id).None? then Some(NewEntry(id)) else View(queue, id)
    ensures Distinct(queue) ==> Distinct(Init(queue, a))
  {
    match IndexOf(queue, id)
    case Some(i) => ViewIs(Init(queue, a), id, i);
    case None =>
      if id == a { ViewIs(Init(queue, a), id, |queue|); }
      else { ViewNone(Init(queue, a), id); }
  }

  lemma ViewRemove(queue: Queue, a: int, id: int)
    requires Distinct(queue)
    ensures View(Remove(queue, a), id) == if id == a then None else View(queue, id)
    ensures Distinct(Remove(queue, a))
  {
    match IndexOf(queue, a)
    case Some(j) =>
      var r := queue[..j] + queue[j + 1..];
      RemovedAt(queue, j);
      if id == a { ViewNone(r, id); }
      else {
        match IndexOf(queue, id)
        case Some(i) => ViewIs(r, id, if i < j then i else i - 1);
        case None => ViewNone(r, id);
      }
    case None =>
  }

  lemma RemovedAt(queue: Queue, j: nat)
    requires Distinct(queue) && j < |queue|
    ensures var r := queue[..j] + queue[j + 1..];
            Distinct(r) && forall k :: 0 <= k < |r| ==> r[k] == queue[if k < j then k else k + 1]
  {
  }

  lemma CheckedKeepsID(e: Entry, config: Frame.Config)
    ensures Checked(e, config).connID == e.connID
  {
    if !e.ready && e.handshake { FramesKeepID(e, config); }
  }

  lemma {:induction false} FramesKeepID(e: Entry, config: Frame.Config)
    ensures CheckedFrames(e, config).connID == e.connID
    decreases |e.data|
  {
    hide Frame.Parsed;
    if Frame.Parsed(e.data, config).Found? {
      Frame.FrameFits(e.data, config);
      FramesKeepID(CheckedFrame(e, config), config);
    }
  }

  lemma ViewCheck(queue: Queue, config: Frame.Config, id: int)
    ensures View(CheckAll(queue, config), id) == match View(queue, id) {
              case Some(e) => Some(Checked(e, config))
              case None => None
            }
    ensures Distinct(queue) ==> Distinct(CheckAll(queue, config))
  {
    hide Checked;
    var r := CheckAll(queue, config);
    forall k | 0 <= k < |queue| ensures r[k] == Checked(queue[k], config) && r[k].connID == queue[k].connID {
      CheckedKeepsID(queue[k], config);
    }
    match IndexOf(queue, id)
    case Some(i) => ViewIs(r, id, i);
    case None => ViewNone(r, id);
  }

  lemma ViewProcess(queue: Queue, sent: set<int>, id: int)
    ensures View(ProcessAll(queue, sent), id) == match View(queue, id) {
              case Some(e) => Some(Processed(e, id in sent))
              case None => None
            }
    ensures Distinct(queue) ==> Distinct(ProcessAll(queue, sent))
  {
    var r := ProcessAll(queue, sent);
    match IndexOf(queue, id)
    case Some(i) => ViewIs(r, id, i);
    case None => ViewNone(r, id);
  }

  lemma {:induction false} OfLabelled(messages: seq<Message>, a: int, id: int)
    ensures OfConnection(Labelled(a, messages), id) == if a == id then messages else []
  {
    if messages != [] {
      var n := |messages| - 1;
      OfLabelled(messages[..n], a, id);
      assert Labelled(a, messages)[..n] == Labelled(a, messages[..n]);
    }
  }

  lemma {:induction false} OfAppended(a: seq<Dispatch>, b: seq<Dispatch>, id: int)
    ensures OfConnection(a + b, id) == OfConnection(a, id) + OfConnection(b, id)
  {
    if b == [] {
      assert a + b == a;
    } else {
      var n := |b| - 1;
      OfAppended(a, b[..n], id);
      assert (a + b)[..|a + b| - 1] == a + b[..n];
    }
  }

  /** The calls for one connection are its own messages. */
  lemma {:induction false} ViewDispatch(queue: Queue, id: int)
    requires Distinct(queue)
    ensures OfConnection(DispatchAll(queue), id) == match View(queue, id) {
              case Some(e) => Dispatched(e)
              case None => []
            }
  {
    hide OfConnection, Labelled, Dispatched;
    if queue == [] {
      assert OfConnection([], id) == [] by { OfNothing(id); }
    } else {
      var n := |queue| - 1;
      var before, last := queue[..n], queue[n];
      ViewDispatch(before, id);
      OfAppended(DispatchAll(before), Labelled(last.connID, Dispatched(last)), id);
      OfLabelled(Dispatched(last), last.connID, id);
      match IndexOf(before, id)
      case Some(i) => ViewIs(queue, id, i);
      case None =>
        if last.connID == id { ViewIs(queue, id, n); } else { ViewNone(queue, id); }
    }
  }

  lemma OfNothing(id: int)
    ensures OfConnection([], id) == []
  {
  }
}
