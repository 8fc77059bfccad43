/** A run of the threads, seen by the request queue, is a run of `ServerRuns`: what is proved there about
    delivery holds with all threads running. */
module SlotDelivery {
  import opened Bytes
  import opened ClientStream
  import opened RequestQueue
  import opened SlotBuffers
  import opened SlotBytes
  import opened SlotControl
  import opened SlotProtocol
  import opened SlotSockets
  import opened SlotTheorems
  import opened Wrappers
  import Frame
  import MemoryPool
  import Request
  import ServerRuns
  import WebSocketServer

  // ---------------------------------------------------------------- the queue's part of a run

  /** The critical sections in a step: one or none. */
  function SectionsOf(st: State, a: Action): ServerRuns.Run
    requires Enabled(st, a)
  {
    match a
    case Work(i, k) =>
      (match ActionOf(st.slots[i].threads[k]) case Some(section) => [section] case None => [])
    case Serve(sent) =>
      if st.dispatcher.Checking? then [ServerRuns.Check]
      else if st.dispatcher.Processing? then [ServerRuns.Process(sent)]
      else []
    case _ => []
  }

  ghost function Sections(clients: nat, run: seq<Action>, config: Frame.Config): ServerRuns.Run {
    if run == [] then []
    else
      var before, a := run[..|run| - 1], run[|run| - 1];
      match StateAfter(clients, before, config)
      case None => []
      case Some(st) => Sections(clients, before, config) + if Enabled(st, a) then SectionsOf(st, a) else []
  }

  /** The server's part of a state is where those sections lead. */
  ghost predicate Follows(st: State, p: ServerRuns.Run, config: Frame.Config) {
    && ServerRuns.QueueAfter(p, config) == st.queue
    && ServerRuns.Safe(p, config) && ServerRuns.InOrder(p, config)
    && (ServerRuns.Due(p, config) <==> st.dispatcher.Processing?)
    && |st.outs| == |st.slots|
    && forall i :: 0 <= i < |st.slots| ==>
                     ServerRuns.Sent(p, i) == HandedOn(st.slots[i].trace) && ServerRuns.Out(p, i, config) == st.outs[i]
  }

  lemma FollowsInitially(clients: nat, config: Frame.Config)
    ensures Follows(Initial(clients), [], config)
  {
  }

  /** A step without a critical section. */
  lemma FollowsSame(st: State, next: State, p: ServerRuns.Run, config: Frame.Config)
    requires Follows(st, p, config) && next.queue == st.queue && next.outs == st.outs && |next.slots| == |st.slots|
    requires st.dispatcher.Processing? <==> next.dispatcher.Processing?
    requires forall i :: 0 <= i < |st.slots| ==> next.slots[i].trace == st.slots[i].trace
    ensures Follows(next, p, config)
  {
    hide ServerRuns.QueueAfter, ServerRuns.Safe, ServerRuns.InOrder, ServerRuns.Due, ServerRuns.Sent, ServerRuns.Out,
      HandedOn;
  }

  /** What one section changes for connection `i`. */
  ghost predicate Changes(st: State, next: State, c: ServerRuns.Action, i: nat) {
    && i < |st.slots| == |next.slots| == |st.outs| == |next.outs|
    && HandedOn(next.slots[i].trace) == ServerRuns.NextSent(HandedOn(st.slots[i].trace), c, i)
    && next.outs[i] == ServerRuns.NextOut(st.outs[i], st.queue, c, i, HandedOn(st.slots[i].trace))
  }

  lemma FollowsSection(st: State, next: State, p: ServerRuns.Run, c: ServerRuns.Action, config: Frame.Config)
    requires Follows(st, p, config) && next.queue == ServerRuns.NextQueue(st.queue, c, config)
    requires c.Check? ==> !st.dispatcher.Processing? && WebSocketServer.AllParsable(st.queue)
    requires c.Process? ==> st.dispatcher.Processing?
    requires next.dispatcher.Processing? <==>
               if c.Check? then AnyNews(st.queue, config) else !c.Process? && st.dispatcher.Processing?
    requires |next.outs| == |next.slots| == |st.slots| && forall i :: 0 <= i < |st.slots| ==> Changes(st, next, c, i)
    ensures Follows(next, p + [c], config)
  {
    hide ServerRuns.QueueAfter, ServerRuns.Safe, ServerRuns.InOrder, ServerRuns.Due, ServerRuns.Sent, ServerRuns.Out,
      HandedOn,
      ServerRuns.NextQueue, AnyNews, ServerRuns.NextSent, ServerRuns.NextOut, WebSocketServer.AllParsable;
    ServerRuns.OneMore(p, c, p + [c], config);
    ServerRuns.SafeMore(p, c, config);
    forall i | 0 <= i < |st.slots|
      ensures ServerRuns.Sent(p + [c], i) == HandedOn(next.slots[i].trace)
      ensures ServerRuns.Out(p + [c], i, config) == next.outs[i]
    {
      assert Changes(st, next, c, i);
      ServerRuns.OneMoreSeen(p, c, p + [c], i, config);
    }
  }

  // ---------------------------------------------------------------- every step follows

  /** What a callback of slot `i` changes for connection `j`. */
  lemma CallbackChanges(
      q: Queue, pc: PC, i: nat, j: nat, trace: seq<Callback>, outs: seq<seq<Message>>, c: ServerRuns.Action,
      config: Frame.Config)
    requires ActionOf(pc) == Some(c) && RightIndex(pc, i) && i < |outs| && j < |outs|
    requires i == j ==> (InSession(trace) <==> !pc.Connecting?)
    requires ServerRuns.Agrees(View(q, j), HandedOn(trace), outs[j], config)
    ensures var after := HandedOn(if i == j then TraceAfter(trace, pc) else trace);
            && after == ServerRuns.NextSent(HandedOn(trace), c, j)
            && OutsAfterWork(outs, pc)[j] == ServerRuns.NextOut(outs[j], q, c, j, HandedOn(trace))
  {
    hide Tracks, View, InSession, Delivered, DispatchAll, OfConnection;
    if i == j {
      if pc.Connecting? { DeliveredAppend(trace, OnConnect(pc.id)); }
      if pc.Putting? { DeliveredAppend(trace, OnData(pc.id, pc.bytes)); }
      if pc.Disconnecting? { DeliveredAppend(trace, OnDisconnect(pc.id)); }
    }
  }

  lemma WorkChanges(st: State, i: nat, k: nat, c: ServerRuns.Action, j: nat, config: Frame.Config)
    requires Control(st) && QueueOk(st, config) && Live(st, i, k) && j < |st.slots|
    requires ActionOf(st.slots[i].threads[k]) == Some(c)
    ensures Changes(st, Work1(st, i, k), c, j)
  {
    hide SlotOk, Distinct, View, WorkedSlot, QueueAfterWork, OutsAfterWork, MemoryPool.Release, ServerRuns.Agrees, HandedOn,
      ServerRuns.NextSent, ServerRuns.NextOut, TraceAfter, RightIndex, InSession;
    var s := st.slots[i];
    WorkedTrace(s, k, st.memory);
    HandIsRight(i, s, Mine(st.reactor, i), k);
    OutsSize(st.outs, s.threads[k]);
    CallbackChanges(st.queue, s.threads[k], i, j, st.slots[j].trace, st.outs, c, config);
  }

  lemma FollowsWork(st: State, i: nat, k: nat, p: ServerRuns.Run, config: Frame.Config)
    requires Control(st) && QueueOk(st, config) && Follows(st, p, config) && Live(st, i, k)
    ensures Follows(Work1(st, i, k), p + SectionsOf(st, Work(i, k)), config)
  {
    hide Control, QueueOk, Follows, WorkedSlot, MemoryPool.Release, Changes, Init, Put, Remove;
    var s, next := st.slots[i], Work1(st, i, k);
    WorkedTrace(s, k, st.memory);
    OutsSize(st.outs, s.threads[k]);
    match ActionOf(s.threads[k])
    case Some(c) =>
      forall j | 0 <= j < |st.slots| ensures Changes(st, next, c, j) { WorkChanges(st, i, k, c, j, config); }
      assert |st.outs| == |st.slots| by { FollowsShape(st, p, config); }
      FollowsSection(st, next, p, c, config);
    case None =>
      assert p + [] == p;
      FollowsSame(st, next, p, config);
  }

  lemma FollowsShape(st: State, p: ServerRuns.Run, config: Frame.Config)
    requires Follows(st, p, config)
    ensures |st.outs| == |st.slots|
  {
  }

  lemma ServeChanges(st: State, sent: set<int>, c: ServerRuns.Action, j: nat, config: Frame.Config)
    requires QueueOk(st, config) && j < |st.slots|
    requires (st.dispatcher.Checking? && c.Check?) || (st.dispatcher.Processing? && c == ServerRuns.Process(sent))
    ensures Changes(st, Served(st, sent, config), c, j)
  {
    hide Distinct, View, CheckAll, ProcessAll, DispatchAll, OfConnection, Tracks, InSession, Delivered;
    var handed := HandedOn(st.slots[j].trace);
    assert ServerRuns.Agrees(View(st.queue, j), handed, st.outs[j], config);
    if handed.None? { NothingDispatched(st.queue, j, handed, st.outs[j], config); }
  }

  lemma FollowsServe(st: State, sent: set<int>, p: ServerRuns.Run, config: Frame.Config)
    requires QueueOk(st, config) && Follows(st, p, config) && Enabled(st, Serve(sent))
    ensures Follows(Served(st, sent, config), p + SectionsOf(st, Serve(sent)), config)
  {
    hide QueueOk, Follows, Changes, CheckAll, ProcessAll, AnyNews, WebSocketServer.AllParsable, HasData, DispatchAll;
    var next := Served(st, sent, config);
    FollowsShape(st, p, config);
    if st.dispatcher.Checking? || st.dispatcher.Processing? {
      var c := if st.dispatcher.Checking? then ServerRuns.Check else ServerRuns.Process(sent);
      forall j | 0 <= j < |st.slots| ensures Changes(st, next, c, j) { ServeChanges(st, sent, c, j, config); }
      FollowsSection(st, next, p, c, config);
    } else {
      assert p + [] == p;
      FollowsSame(st, next, p, config);
    }
  }

  lemma FollowsStep(st: State, a: Action, p: ServerRuns.Run, config: Frame.Config)
    requires Control(st) && QueueOk(st, config) && Follows(st, p, config) && Enabled(st, a)
    ensures Follows(Next(st, a, config), p + SectionsOf(st, a), config)
  {
    hide SlotOk, QueueOk, Follows, Work1, Served, MemoryPool.Allocation, MemoryPool.Release, Written, AddReceived;
    match a
    case Work(i, k) => FollowsWork(st, i, k, p, config);
    case Serve(sent) => FollowsServe(st, sent, p, config);
    case _ =>
      assert p + [] == p;
      FollowsSame(st, Next(st, a, config), p, config);
  }

  /** The slot protocol refines the runs of the server: the queue, what each client has sent, what has been
      dispatched for it, and where the request thread stands are those after the run's critical sections. */
  lemma {:induction false} Refines(clients: nat, run: seq<Action>, config: Frame.Config)
    requires StateAfter(clients, run, config).Some?
    ensures Follows(StateAfter(clients, run, config).value, Sections(clients, run, config), config)
  {
    hide Follows, Control, Buffers, Sockets, Integrity, QueueOk, Wakeup, Next, Initial, SectionsOf, Enabled;
    if run == [] {
      FollowsInitially(clients, config);
    } else {
      var before := run[..|run| - 1];
      Refines(clients, before, config);
      EveryStateIsGood(clients, before, config);
      FollowsStep(StateAfter(clients, before, config).value, run[|run| - 1], Sections(clients, before, config), config);
    }
  }

  // ---------------------------------------------------------------- a pass of the request thread

  /** `n` steps of the request thread. */
  ghost function ServeSteps(st: State, sent: set<int>, config: Frame.Config, n: nat): State {
    if n == 0 then st else Served(ServeSteps(st, sent, config, n - 1), sent, config)
  }

  /** How many steps a pass has. */
  ghost function PassLength(st: State, config: Frame.Config): nat {
    2 + (if HasData(st.queue) then 0 else 1) + if AnyNews(st.queue, config) then 1 else 0
  }

  lemma PassSteps(st: State, sent: set<int>, config: Frame.Config, n: nat, next: State)
    requires ServeSteps(st, sent, config, n) == next
    ensures ServeSteps(st, sent, config, n + 1) == Served(next, sent, config)
  {
    hide Served;
  }

  /** Run without interruption, the request thread's steps are those of one pass of `RequestThread`: look,
      wait only if nothing is there, check, and process exactly when the check says so. */
  lemma PassIsServed(st: State, sent: set<int>, config: Frame.Config)
    requires st.dispatcher.Looking?
    ensures ServeSteps(st, sent, config, PassLength(st, config))
         == st.(queue := AfterPass(st.queue, sent, config), outs := AddOuts(st.outs, LogOfPass(st.queue, config)),
                pendingSignal := st.pendingSignal && HasData(st.queue))
  {
    hide ServeSteps, CheckAll, ProcessAll, AnyNews, HasData, DispatchAll, AddOuts;
    NoSteps(st, sent, config);
    NothingAdded(st.outs);
    var checking :=
      if HasData(st.queue) then st.(dispatcher := Checking) else st.(pendingSignal := false, dispatcher := Checking);
    var n := if HasData(st.queue) then 1 else 2;
    PassSteps(st, sent, config, 0, st);
    if !HasData(st.queue) { PassSteps(st, sent, config, 1, st.(dispatcher := SlotProtocol.Waiting)); }
    PassSteps(st, sent, config, n, checking);
    if AnyNews(st.queue, config) {
      PassSteps(st, sent, config, n + 1, checking.(queue := CheckAll(st.queue, config), dispatcher := Processing));
    }
  }

  lemma NoSteps(st: State, sent: set<int>, config: Frame.Config)
    ensures ServeSteps(st, sent, config, 0) == st
  {
  }

  lemma NothingAdded(outs: seq<seq<Message>>)
    ensures AddOuts(outs, []) == outs
  {
    forall i | 0 <= i < |outs| ensures AddOuts(outs, [])[i] == outs[i] { OfNothing(i); assert outs[i] + [] == outs[i]; }
  }

  // ---------------------------------------------------------------- delivery

  lemma ReactTrace(st: State, i: nat)
    requires Shape(st) && ReactorCanMove(st) && i < |st.slots|
    ensures |Reaction(st).slots| == |st.slots| && Reaction(st).slots[i].trace == st.slots[i].trace
  {
    hide MemoryPool.Allocation, MemoryPool.Release, Worker;
  }

  lemma WorkTrace(st: State, j: nat, k: nat, i: nat)
    requires Live(st, j, k) && i < |st.slots|
    ensures |Work1(st, j, k).slots| == |st.slots| && st.slots[i].trace <= Work1(st, j, k).slots[i].trace
  {
    hide WorkedSlot, QueueAfterWork, OutsAfterWork, MemoryPool.Release;
    WorkedTrace(st.slots[j], k, st.memory);
  }

  lemma TraceStays(st: State, a: Action, i: nat, config: Frame.Config)
    requires Shape(st) && Enabled(st, a) && i < |st.slots|
    ensures |Next(st, a, config).slots| == |st.slots| && st.slots[i].trace <= Next(st, a, config).slots[i].trace
  {
    hide Work1, Reaction, CheckAll, ProcessAll, AddOuts, Written, AddReceived, AnyNews, HasData;
    match a
    case Work(j, k) => WorkTrace(st, j, k, i);
    case React => ReactTrace(st, i);
    case _ =>
  }

  lemma {:induction false} TraceGrows(clients: nat, a: seq<Action>, b: seq<Action>, i: nat, config: Frame.Config)
    requires StateAfter(clients, a + b, config).Some? && i < clients
    ensures StateAfter(clients, a, config).Some?
    ensures var st, later := StateAfter(clients, a, config).value, StateAfter(clients, a + b, config).value;
            |st.slots| == |later.slots| == clients && st.slots[i].trace <= later.slots[i].trace
    decreases |b|
  {
    hide Next, Enabled, Control, Buffers, Sockets, Integrity, QueueOk, Wakeup;
    if b == [] {
      assert a + b == a;
      EveryStateIsGood(clients, a, config);
    } else {
      var n := |b| - 1;
      assert (a + b)[..|a + b| - 1] == a + b[..n];
      TraceGrows(clients, a, b[..n], i, config);
      EveryStateIsGood(clients, a + b[..n], config);
      ControlHasShape(StateAfter(clients, a + b[..n], config).value);
      TraceStays(StateAfter(clients, a + b[..n], config).value, b[n], i, config);
    }
  }

  /** A step that makes no callback of slot `i` brings nothing for connection `i`. */
  lemma NoCallbackNoBytes(st: State, a: Action, i: nat, config: Frame.Config)
    requires Control(st) && Enabled(st, a) && i < |st.slots|
    requires |Next(st, a, config).slots| == |st.slots| && Next(st, a, config).slots[i].trace == st.slots[i].trace
    ensures ServerRuns.Quiet(SectionsOf(st, a), i)
  {
    hide SlotOk, CheckAll, ProcessAll, AddOuts, MemoryPool.Allocation, MemoryPool.Release, Written, AddReceived,
      WorkedSlot,
      QueueAfterWork, OutsAfterWork, AnyNews, HasData;
    match a
    case Work(j, k) =>
      WorkedTrace(st.slots[j], k, st.memory);
      HandIsRight(j, st.slots[j], Mine(st.reactor, j), k);
    case _ =>
  }

  lemma QuietConcat(a: ServerRuns.Run, b: ServerRuns.Run, i: int)
    requires ServerRuns.Quiet(a, i) && ServerRuns.Quiet(b, i)
    ensures ServerRuns.Quiet(a + b, i)
  {
  }

  /** While slot `i` makes no callback, its connection's part of the run is quiet. */
  lemma {:induction false} SectionsGoOn(clients: nat, a: seq<Action>, b: seq<Action>, i: nat, config: Frame.Config)
    returns (more: ServerRuns.Run)
    requires StateAfter(clients, a, config).Some? && StateAfter(clients, a + b, config).Some? && i < clients
    requires var st, later := StateAfter(clients, a, config).value, StateAfter(clients, a + b, config).value;
             |st.slots| == |later.slots| == clients && st.slots[i].trace == later.slots[i].trace
    ensures Sections(clients, a + b, config) == Sections(clients, a, config) + more && ServerRuns.Quiet(more, i)
    decreases |b|
  {
    hide Next, Enabled, SectionsOf, Control, Buffers, Sockets, Integrity, QueueOk, Wakeup, ServerRuns.Quiet;
    if b == [] {
      more := [];
      assert a + b == a;
      assert ServerRuns.Quiet([], i) by { NothingIsQuiet(i); }
    } else {
      var n := |b| - 1;
      var before := a + b[..n];
      assert (a + b)[..|a + b| - 1] == before && before + [b[n]] == a + b;
      TraceGrows(clients, a, b[..n], i, config);
      TraceGrows(clients, before, [b[n]], i, config);
      EveryStateIsGood(clients, before, config);
      var st := StateAfter(clients, before, config).value;
      more := SectionsGoOn(clients, a, b[..n], i, config);
      NoCallbackNoBytes(st, b[n], i, config);
      QuietConcat(more, SectionsOf(st, b[n]), i);
      assert Sections(clients, a, config) + more + SectionsOf(st, b[n])
             == Sections(clients, a, config) + (more + SectionsOf(st, b[n]));
      more := more + SectionsOf(st, b[n]);
    }
  }

  lemma NothingIsQuiet(i: int)
    ensures ServerRuns.Quiet([], i)
  {
  }

  /** The answer to `i` can always be written. */
  predicate Answering(run: seq<Action>, i: int) {
    forall k :: 0 <= k < |run| && run[k].Serve? ==> i in run[k].sent
  }

  lemma SectionIsAnswered(st: State, a: Action, i: int)
    requires Enabled(st, a) && (a.Serve? ==> i in a.sent)
    ensures ServerRuns.Answered(SectionsOf(st, a), i)
  {
  }

  lemma AnsweredConcat(a: ServerRuns.Run, b: ServerRuns.Run, i: int)
    requires ServerRuns.Answered(a, i) && ServerRuns.Answered(b, i)
    ensures ServerRuns.Answered(a + b, i)
  {
  }

  lemma {:induction false} SectionsAnswered(clients: nat, run: seq<Action>, i: int, config: Frame.Config)
    requires StateAfter(clients, run, config).Some? && Answering(run, i)
    ensures ServerRuns.Answered(Sections(clients, run, config), i)
  {
    hide Next, Enabled, SectionsOf, ServerRuns.Answered;
    if run == [] {
      assert ServerRuns.Answered([], i) by { NothingToAnswer(i); }
    } else {
      var before, a := run[..|run| - 1], run[|run| - 1];
      SectionsAnswered(clients, before, i, config);
      SectionIsAnswered(StateAfter(clients, before, config).value, a, i);
      AnsweredConcat(Sections(clients, before, config), SectionsOf(StateAfter(clients, before, config).value, a), i);
    }
  }

  lemma NothingToAnswer(i: int)
    ensures ServerRuns.Answered([], i)
  {
  }

  /** How often the request thread has checked. */
  ghost function ChecksMade(clients: nat, run: seq<Action>, config: Frame.Config): nat {
    ServerRuns.Checks(Sections(clients, run, config))
  }

  /** Delivery with all threads running: once everything a client has sent has been handed to `OnData`, two
      checks of the request thread, with the processing they ask for, dispatch all of its messages. */
  lemma HandedOnIsDelivered(clients: nat, a: seq<Action>, b: seq<Action>, i: nat, config: Frame.Config)
    requires StateAfter(clients, a, config).Some? && StateAfter(clients, a + b, config).Some? && i < clients
    requires var st, later := StateAfter(clients, a, config).value, StateAfter(clients, a + b, config).value;
             && |st.slots| == |later.slots| == clients && InSession(st.slots[i].trace)
             && later.slots[i].trace == st.slots[i].trace && !later.dispatcher.Processing?
    requires Answering(a + b, i) && ChecksMade(clients, a + b, config) >= ChecksMade(clients, a, config) + 2
    ensures var st, later := StateAfter(clients, a, config).value, StateAfter(clients, a + b, config).value;
            |later.outs| == clients && later.outs[i] == Messages(Delivered(st.slots[i].trace), config)
  {
    hide StateAfter, Sections, ServerRuns.QueueAfter, ServerRuns.Safe, ServerRuns.InOrder, ServerRuns.Due,
      ServerRuns.Sent,
      ServerRuns.Out, ServerRuns.Checks, ServerRuns.Quiet, ServerRuns.Answered, Messages, Delivered, InSession,
        Answering;
    Refines(clients, a, config);
    Refines(clients, a + b, config);
    SectionsAnswered(clients, a + b, i, config);
    var p := Sections(clients, a, config);
    var more := SectionsGoOn(clients, a, b, i, config);
    ServerRuns.ChecksAdd(p, more);
    ServerRuns.TwoPassesDeliver(p, more, i, config);
  }

  // ---------------------------------------------------------------- from the socket to the messages

  /** Nothing of the slot's bytes is on its way. */
  predicate Settled(st: State, i: nat) {
    && i < |st.slots| && InSession(st.slots[i].trace) && st.slots[i].tasks == [] && Mine(st.reactor, i) == None
    && (Worker(st.slots[i]).AtCheck? || Worker(st.slots[i]).AtWait?)
  }

  lemma SettledIsAllRead(st: State, i: nat)
    requires Control(st) && Integrity(st) && Settled(st, i)
    ensures st.slots[i].fd >= 0 && st.slots[i].client < |st.received|
    ensures Delivered(st.slots[i].trace) == st.received[st.slots[i].client]
  {
    hide Delivered, InSession, Occupied, OneWorker, Grammar, Sized;
    assert SlotOk(i, st.slots[i], Mine(st.reactor, i));
    assert Conserved(st.slots[i], Mine(st.reactor, i), st.memory, st.received);
  }

  /** From the socket to the dispatched messages, past every thread: if what was read from the socket of slot
      `i` is a client's opening request and frames, and the slot has settled, then two checks later exactly
      that client's messages have been dispatched for the connection. */
  lemma ClientsGetAllTheirMessages(
    clients: nat, a: seq<Action>, b: seq<Action>, i: nat, config: Frame.Config, r: Request.State,
    frames: seq<ServerRuns.ClientFrame>)
    requires StateAfter(clients, a, config).Some? && StateAfter(clients, a + b, config).Some? && i < clients
    requires ServerRuns.Opens(r) && ServerRuns.AllSendable(frames, config) && config.Sane()
    requires var st, later := StateAfter(clients, a, config).value, StateAfter(clients, a + b, config).value;
             && |st.slots| == |later.slots| == clients && Settled(st, i) && st.slots[i].client < |st.received|
             && st.received[st.slots[i].client] == ServerRuns.ClientBytes(r, frames, config)
             && later.slots[i].trace == st.slots[i].trace && !later.dispatcher.Processing?
    requires Answering(a + b, i) && ChecksMade(clients, a + b, config) >= ChecksMade(clients, a, config) + 2
    ensures var later := StateAfter(clients, a + b, config).value;
            |later.outs| == clients && later.outs[i] == ServerRuns.MessagesOf(frames)
  {
    hide StateAfter, Control, Buffers, Sockets, Integrity, QueueOk, Wakeup, ChecksMade, Messages, Delivered, InSession,
      Answering,
      ServerRuns.Opens, ServerRuns.AllSendable, ServerRuns.ClientBytes, ServerRuns.MessagesOf;
    EveryStateIsGood(clients, a, config);
    SettledIsAllRead(StateAfter(clients, a, config).value, i);
    HandedOnIsDelivered(clients, a, b, i, config);
    ServerRuns.MessagesOfClient(r, frames, config);
  }
}
