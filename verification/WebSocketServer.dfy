/** The server's shared state and its critical sections: `class WebSocketServer`
    (src/WebSocketServer.cpp). Each method is one section under `m_queueMutex` or `m_signalMutex`. */
module WebSocketServer {
  import opened Bytes
  import opened RequestQueue
  import opened Wrappers
  import Frame
  import Request
  import RequestWebSocket

  class WebSocketServer {
    var queue: Queue
    var pendingSignal: bool

    constructor ()
      ensures queue == [] && !pendingSignal
    {
      queue, pendingSignal := [], false;
    }

    method SendSignal()
      modifies this`pendingSignal
      ensures pendingSignal
    {
      pendingSignal := true;
    }

    /** Returns only once the flag is up. */
    method WaitForSignal()
      requires pendingSignal
      modifies this`pendingSignal
      ensures !pendingSignal
    {
      pendingSignal := false;
    }

    /** The loop of `getRequest`. */
    method Locate(connID: int) returns (r: Option<nat>)
      ensures r == IndexOf(queue, connID)
    {
      for i := 0 to |queue|
        invariant forall k :: 0 <= k < i ==> queue[k].connID != connID
      {
        if queue[i].connID == connID {
          return Some(i);
        }
      }
      r := None;
    }

    method PutToQueue(connID: int, data: ByteArray)
      modifies this`queue
      ensures queue == Put(old(queue), connID, data)
    {
      var i := Locate(connID);
      if i.Some? {
        var req := queue[i.value];
        queue := queue[i.value := req.(data := req.data + data)];
      }
    }

    method InitConnection(connID: int)
      modifies this`queue
      ensures queue == Init(old(queue), connID)
    {
      var i := Locate(connID);
      if i.None? {
        queue := queue + [NewEntry(connID)];
      }
    }

    method RemoveFromQueue(connID: int)
      modifies this`queue
      ensures queue == Remove(old(queue), connID)
    {
      var i := Locate(connID);
      if i.Some? {
        queue := queue[..i.value] + queue[i.value + 1..];
      }
    }

    method HasData() returns (any: bool)
      ensures any == RequestQueue.HasData(queue)
    {
      for i := 0 to |queue|
        invariant forall k :: 0 <= k < i ==> queue[k].data == [] && !queue[k].ready
      {
        if queue[i].data != [] || queue[i].ready {
          return true;
        }
      }
      any := false;
    }

    method CheckData(config: Frame.Config) returns (retval: bool)
      requires config.Sane() && AllParsable(queue)
      modifies this`queue
      ensures queue == CheckAll(old(queue), config) && retval == AnyNews(old(queue), config)
    {
      hide Checked;
      retval := false;
      ghost var was := queue;
      for i := 0 to |queue|
        invariant |queue| == |was| && queue[i..] == was[i..]
        invariant forall k :: 0 <= k < i ==> queue[k] == Checked(was[k], config)
        invariant retval == exists k :: 0 <= k < i && !was[k].ready && Checked(was[k], config).ready
      {
        assert queue[i] == queue[i..][0] == was[i..][0] == was[i];
        var news := CheckOne(i, config);
        retval := retval || news;
      }
    }

    /** The body of the loop. */
    method CheckOne(i: nat, config: Frame.Config) returns (news: bool)
      requires i < |queue| && config.Sane() && Parsable(queue[i])
      modifies this`queue
      ensures queue == old(queue)[i := Checked(old(queue[i]), config)]
      ensures news == (!old(queue[i]).ready && queue[i].ready)
    {
      hide CheckedHeader, CheckedFrames;
      news := false;
      if !queue[i].ready {
        if !queue[i].handshake {
          news := CheckWsHeader(i);
        } else {
          news := CheckWsFrames(i, config);
        }
      }
    }

    /** The inner loop, over the frames that are there. */
    method CheckWsFrames(i: nat, config: Frame.Config) returns (news: bool)
      requires i < |queue| && config.Sane() && queue[i].handshake && !queue[i].ready
      modifies this`queue
      ensures queue == old(queue)[i := CheckedFrames(old(queue[i]), config)] && news == queue[i].ready
    {
      hide CheckedFrames, Frame.Parsed;
      news := false;
      var frameParsed := true;
      while frameParsed
        invariant |queue| == |old(queue)| && news == queue[i].ready
        invariant queue == old(queue)[i := queue[i]]
        invariant CheckedFrames(queue[i], config) == CheckedFrames(old(queue[i]), config)
        invariant !frameParsed ==> CheckedFrames(queue[i], config) == queue[i]
        decreases |queue[i].data|, frameParsed
      {
        FramesStep(queue[i], config);
        frameParsed := CheckWsFrame(i, config);
        news := news || frameParsed;
      }
    }

    lemma FramesStep(e: Entry, config: Frame.Config)
      ensures CheckedFrames(e, config)
           == if Frame.Parsed(e.data, config).Found? then CheckedFrames(CheckedFrame(e, config), config) else e
      ensures CheckedFrame(e, config).ready == (e.ready || Frame.Parsed(e.data, config).Found?)
    {
      hide Frame.Parsed;
    }

    method CheckWsHeader(i: nat) returns (retval: bool)
      requires i < |queue| && Parsable(queue[i]) && !queue[i].ready && !queue[i].handshake
      modifies this`queue
      ensures queue == old(queue)[i := CheckedHeader(old(queue[i]))] && retval == queue[i].ready
    {
      hide Request.Parsed, Request.Complete, Request.Size;
      retval := false;
      var e := queue[i];
      var request := Request.Parsed(e.request, e.data);
      e := e.(request := request);
      if Request.Complete(request) {
        var size := Request.Size(request);
        if |e.data| >= size {
          e := e.(request := request.(verb := Request.WEBSOCKET));
          e := e.(data := e.data[size..], ready := true, handshake := false);
          retval := true;
        }
      }
      queue := queue[i := e];
    }

    method CheckWsFrame(i: nat, config: Frame.Config) returns (retval: bool)
      requires i < |queue| && config.Sane()
      modifies this`queue
      ensures retval == Frame.Parsed(old(queue[i]).data, config).Found?
      ensures queue == old(queue)[i := CheckedFrame(old(queue[i]), config)]
      ensures retval ==> |queue[i].data| < |old(queue[i]).data|
    {
      hide Frame.PayloadSize, Frame.Payload, Frame.HeadSize, Frame.ExtraSize;
      retval := false;
      var e := queue[i];
      assert queue[i := e] == queue;
      Frame.FrameIsBounded(e.data, config);
      var request := new RequestWebSocket.RequestWebSocket();
      var parsed := request.Parse(e.data, config);
      if parsed {
        ghost var payload := Frame.Decode(e.data, 0, config).payload;
        assert [] + payload == payload;
        var size := request.size;
        var message := Message(request.messageType, request.data, request.final);
        queue := queue[i := e.(data := e.data[size..], requestList := e.requestList + [message],
                               ready := true, handshake := true)];
        retval := true;
      }
    }

    /** `sent`: the connections whose answer can be written. */
    method ProcessRequests(sent: set<int>) returns (log: seq<Dispatch>)
      modifies this`queue
      ensures queue == ProcessAll(old(queue), sent) && log == DispatchAll(old(queue))
    {
      hide Processed, Dispatched, Labelled;
      log := [];
      ghost var was := queue;
      for i := 0 to |queue|
        invariant |queue| == |was| && queue[i..] == was[i..]
        invariant forall k :: 0 <= k < i ==> queue[k] == Processed(was[k], was[k].connID in sent)
        invariant log == DispatchAll(was[..i])
      {
        assert queue[i] == queue[i..][0] == was[i..][0] == was[i];
        assert was[..i + 1][..i] == was[..i];
        var calls := ProcessOne(i, sent);
        log := log + calls;
      }
      assert was[..|was|] == was;
    }

    method ProcessOne(i: nat, sent: set<int>) returns (calls: seq<Dispatch>)
      requires i < |queue|
      modifies this`queue
      ensures |queue| == |old(queue)|
      ensures queue == old(queue)[i := Processed(old(queue[i]), old(queue[i]).connID in sent)]
      ensures calls == Labelled(old(queue[i]).connID, Dispatched(old(queue[i])))
    {
      hide Finals, Others;
      calls := [];
      var entry := queue[i];
      if entry.ready {
        if !entry.handshake {
          if entry.connID in sent {
            entry := entry.(handshake := true, ready := false);
          }
        } else if |entry.requestList| > 0 {
          var kept;
          calls, kept := DispatchFinal(entry);
          entry := entry.(requestList := kept, ready := false);
        } else {
          assert Finals([]) == [] by { NothingFinal(); }
        }
        queue := queue[i := entry];
      }
    }

    /** One pass of `RequestThread`, which waits only where nothing is there. */
    method Pass(config: Frame.Config, sent: set<int>) returns (log: seq<Dispatch>)
      requires config.Sane() && AllParsable(queue) && (RequestQueue.HasData(queue) || pendingSignal)
      modifies this
      ensures queue == AfterPass(old(queue), sent, config) && log == LogOfPass(old(queue), config)
      ensures pendingSignal == (old(pendingSignal) && RequestQueue.HasData(old(queue)))
    {
      log := [];
      var any := HasData();
      if !any {
        WaitForSignal();
      }
      var news := CheckData(config);
      if news {
        log := ProcessRequests(sent);
      }
    }

    lemma NothingFinal()
      ensures Finals([]) == []
    {
    }

    /** The loop that erases from `requestList` while it goes through it. */
    method DispatchFinal(entry: Entry) returns (calls: seq<Dispatch>, list: seq<Message>)
      ensures calls == Labelled(entry.connID, Finals(entry.requestList)) && list == Others(entry.requestList)
    {
      hide Finals, Others, Labelled;
      calls, list := [], entry.requestList;
      NothingDispatched(entry);
      var it := 0;
      ghost var gone := 0;  // how many elements have been looked at
      while it < |list|
        invariant it <= |list| && gone <= |entry.requestList|
        invariant list[it..] == entry.requestList[gone..]
        invariant list[..it] == Others(entry.requestList[..gone])
        invariant calls == Labelled(entry.connID, Finals(entry.requestList[..gone]))
        decreases |list| - it
      {
        var m := list[it];
        assert m == list[it..][0] == entry.requestList[gone];
        DispatchStep(entry, gone);
        assert list[it..][1..] == list[it + 1..] && entry.requestList[gone..][1..] == entry.requestList[gone + 1..];
        if m.final {
          calls := calls + [Dispatch(entry.connID, m)];
          list := list[..it] + list[it + 1..];
        } else {
          assert list[..it + 1] == list[..it] + [m];
          it := it + 1;
        }
        gone := gone + 1;
      }
      assert entry.requestList[..gone] == entry.requestList;
      assert list[..it] == list;
    }

    lemma NothingDispatched(entry: Entry)
      ensures Others(entry.requestList[..0]) == [] && Labelled(entry.connID, Finals(entry.requestList[..0])) == []
    {
    }

    /** What one more message adds to the calls and to the messages that stay. */
    lemma DispatchStep(entry: Entry, n: nat)
      requires n < |entry.requestList|
      ensures var (list, m, id) := (entry.requestList, entry.requestList[n], entry.connID);
              && Others(list[..n + 1]) == Others(list[..n]) + (if m.final then [] else [m])
              && Labelled(id, Finals(list[..n + 1]))
                 == Labelled(id, Finals(list[..n])) + if m.final then [Dispatch(id, m)] else []
    {
      assert entry.requestList[..n + 1][..n] == entry.requestList[..n];
    }
  }

  /** `Parse` may be called: not on a single byte, and not on a buffer that lost its first line. */
  predicate Parsable(e: Entry) {
    !e.ready && !e.handshake ==> |e.data| != 1 && (e.request.lineLength != 0 ==> |e.data| == 0 || |e.data| >= 4)
  }

  predicate AllParsable(queue: Queue) {
    forall k :: 0 <= k < |queue| ==> Parsable(queue[k])
  }
}
