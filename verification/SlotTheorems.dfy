/** What holds in every reachable state of `SlotProtocol`: isolation of clients across slot reuse, buffer
    ownership, the order of callbacks, and no lost wakeup. */
module SlotTheorems {
  import opened Bytes
  import opened ClientStream
  import opened RequestQueue
  import opened SlotBuffers
  import opened SlotBytes
  import opened SlotControl
  import opened SlotProtocol
  import opened SlotSockets
  import opened Wrappers
  import Frame
  import MemoryPool
  import Request
  import ServerRuns

  // ---------------------------------------------------------------- the queue follows the callbacks

  /** The bytes the server has been handed for the slot's current session. */
  function HandedOn(trace: seq<Callback>): Option<ByteArray> {
    if InSession(trace) then Some(Delivered(trace)) else None
  }

  ghost predicate QueueOk(st: State, config: Frame.Config) {
    && Distinct(st.queue) && |st.outs| == |st.slots|
    && forall i :: 0 <= i < |st.slots| ==>
                     ServerRuns.Agrees(View(st.queue, i), HandedOn(st.slots[i].trace), st.outs[i], config)
  }

  lemma QueueInitially(clients: nat, config: Frame.Config)
    ensures QueueOk(Initial(clients), config)
  {
  }

  /** The critical section a callback runs, as an action on the queue. */
  function ActionOf(pc: PC): Option<ServerRuns.Action> {
    match pc
    case Connecting(id) => Some(ServerRuns.Connect(id))
    case Putting(id, _, data) => Some(ServerRuns.Action.Bytes(id, data))
    case Disconnecting(id) => Some(ServerRuns.Disconnect(id))
    case _ => None
  }

  function TraceAfter(trace: seq<Callback>, pc: PC): seq<Callback> {
    match pc
    case Connecting(id) => trace + [OnConnect(id)]
    case Putting(id, _, data) => trace + [OnData(id, data)]
    case Disconnecting(id) => trace + [OnDisconnect(id)]
    case _ => trace
  }

  lemma WorkedTrace(s: Slot, k: nat, memory: ByteArray)
    requires k < |s.threads|
    ensures WorkedSlot(s, k, memory).trace == TraceAfter(s.trace, s.threads[k])
  {
  }

  /** One connection's part of a callback of slot `i`. */
  lemma AgreesAfterWork(
      q: Queue, pc: PC, i: nat, j: nat, trace: seq<Callback>, outs: seq<seq<Message>>, config: Frame.Config)
    requires Distinct(q) && j < |outs| && i < |outs| && RightIndex(pc, i)
    requires InHand(pc) != [] ==> (InSession(trace) <==> !pc.Connecting?) || i != j
    requires ServerRuns.Agrees(View(q, j), HandedOn(trace), outs[j], config)
    ensures Distinct(QueueAfterWork(q, pc))
    ensures var after := HandedOn(if i == j then TraceAfter(trace, pc) else trace);
            ServerRuns.Agrees(View(QueueAfterWork(q, pc), j), after, OutsAfterWork(outs, pc)[j], config)
  {
    hide Distinct, View, ServerRuns.Agrees, InSession, Delivered, Init, Put, Remove;
    if ActionOf(pc).Some? {
      ServerRuns.AgreesAfter(q, ActionOf(pc).value, j, HandedOn(trace), outs[j], config);
      NothingOut(View(q, j), HandedOn(trace), outs[j], config);
      if pc.Connecting? { DeliveredAppend(trace, OnConnect(pc.id)); }
      if pc.Putting? { DeliveredAppend(trace, OnData(pc.id, pc.bytes)); }
      if pc.Disconnecting? { DeliveredAppend(trace, OnDisconnect(pc.id)); }
    }
  }

  lemma NothingOut(e: Option<Entry>, sent: Option<ByteArray>, out: seq<Message>, config: Frame.Config)
    requires ServerRuns.Agrees(e, sent, out, config)
    ensures sent.None? ==> out == []
  {
  }

  lemma QueueWork(st: State, i: nat, k: nat, config: Frame.Config)
    requires Control(st) && QueueOk(st, config) && Live(st, i, k)
    ensures QueueOk(Work1(st, i, k), config)
  {
    hide SlotOk, Distinct, View, ServerRuns.Agrees, WorkedSlot, QueueAfterWork, OutsAfterWork, HandedOn, TraceAfter,
      MemoryPool.Release;
    var s, next := st.slots[i], Work1(st, i, k);
    var pc := s.threads[k];
    WorkedTrace(s, k, st.memory);
    HandIsRight(i, s, Mine(st.reactor, i), k);
    OutsSize(st.outs, pc);
    AgreesAfterWork(st.queue, pc, i, i, s.trace, st.outs, config);
    forall j | 0 <= j < |st.slots|
      ensures ServerRuns.Agrees(View(next.queue, j), HandedOn(next.slots[j].trace), next.outs[j], config)
    {
      AgreesAfterWork(st.queue, pc, i, j, st.slots[j].trace, st.outs, config);
    }
  }

  lemma OutsSize(outs: seq<seq<Message>>, pc: PC)
    ensures |OutsAfterWork(outs, pc)| == |outs|
  {
  }

  lemma HandIsRight(i: nat, s: Slot, mine: Option<Step>, k: nat)
    requires SlotOk(i, s, mine) && k < |s.threads| && s.threads[k] != Finished
    ensures RightIndex(s.threads[k], i)
    ensures InHand(s.threads[k]) != [] ==> s.fd >= 0 && (InSession(s.trace) <==> !s.threads[k].Connecting?)
  {
    hide Grammar, Rest, InSession;
    MovingWorker(s, k);
    if InHand(s.threads[k]) != [] { HandMatchesSession(i, s, mine); }
  }

  lemma QueueServe(st: State, sent: set<int>, config: Frame.Config)
    requires QueueOk(st, config)
    ensures QueueOk(Served(st, sent, config), config)
  {
    hide Distinct, View, ServerRuns.Agrees, CheckAll, ProcessAll, DispatchAll, OfConnection, HandedOn;
    var next := Served(st, sent, config);
    if st.dispatcher.Checking? || st.dispatcher.Processing? {
      var a := if st.dispatcher.Checking? then ServerRuns.Check else ServerRuns.Process(sent);
      DistinctAfter(st.queue, a, config);
      forall j | 0 <= j < |st.slots|
        ensures ServerRuns.Agrees(View(next.queue, j), HandedOn(next.slots[j].trace), next.outs[j], config)
      {
        var sent := HandedOn(st.slots[j].trace);
        ServerRuns.AgreesAfter(st.queue, a, j, sent, st.outs[j], config);
        if sent.None? { NothingDispatched(st.queue, j, sent, st.outs[j], config); }
      }
    }
  }

  lemma DistinctAfter(q: Queue, a: ServerRuns.Action, config: Frame.Config)
    requires Distinct(q)
    ensures a.Check? ==> Distinct(CheckAll(q, config))
    ensures a.Process? ==> Distinct(ProcessAll(q, a.sent))
  {
    hide CheckAll, ProcessAll;
    ViewCheck(q, config, 0);
    if a.Process? { ViewProcess(q, a.sent, 0); }
  }

  lemma NothingDispatched(q: Queue, id: int, sent: Option<ByteArray>, out: seq<Message>, config: Frame.Config)
    requires Distinct(q) && ServerRuns.Agrees(View(q, id), sent, out, config) && sent.None?
    ensures out == [] && out + OfConnection(DispatchAll(q), id) == []
  {
    hide View, DispatchAll, OfConnection;
    ViewDispatch(q, id);
  }

  lemma QueueSame(st: State, next: State, config: Frame.Config)
    requires QueueOk(st, config) && next.queue == st.queue && next.outs == st.outs && |next.slots| == |st.slots|
    requires forall i :: 0 <= i < |st.slots| ==> next.slots[i].trace == st.slots[i].trace
    ensures QueueOk(next, config)
  {
    hide Distinct, View, ServerRuns.Agrees;
  }

  lemma QueueStep(st: State, a: Action, config: Frame.Config)
    requires Control(st) && QueueOk(st, config) && Enabled(st, a)
    ensures QueueOk(Next(st, a, config), config)
  {
    hide SlotOk, QueueOk, Work1, Served, MemoryPool.Allocation, MemoryPool.Release;
    match a
    case Work(i, k) => QueueWork(st, i, k, config);
    case Serve(sent) => QueueServe(st, sent, config);
    case _ => QueueSame(st, Next(st, a, config), config);
  }

  // ---------------------------------------------------------------- no lost wakeup

  /** Some worker is between `PutToQueue` and `SendSignal`. */
  ghost predicate SomeoneSignals(slots: seq<Slot>) {
    exists i, k :: 0 <= i < |slots| && 0 <= k < |slots[i].threads| && slots[i].threads[k].Signalling?
  }

  ghost predicate Wakeup(st: State) {
    st.dispatcher.Waiting? && HasData(st.queue) ==> st.pendingSignal || SomeoneSignals(st.slots)
  }

  lemma OnlyPutAddsData(q: Queue, pc: PC)
    requires !pc.Putting? && HasData(QueueAfterWork(q, pc))
    ensures HasData(q)
  {
    var r := QueueAfterWork(q, pc);
    var i :| 0 <= i < |r| && (r[i].data != [] || r[i].ready);
    assert r[i] in q;
  }

  lemma SignalStays(st: State, i: nat, k: nat)
    requires Live(st, i, k) && SomeoneSignals(st.slots) && !st.slots[i].threads[k].Signalling?
    ensures SomeoneSignals(Work1(st, i, k).slots)
  {
    hide NextPC, Worked;
    var j, l :| 0 <= j < |st.slots| && 0 <= l < |st.slots[j].threads| && st.slots[j].threads[l].Signalling?;
    assert Work1(st, i, k).slots[j].threads[l].Signalling?;
  }

  lemma WakeupWork(st: State, i: nat, k: nat)
    requires Wakeup(st) && Live(st, i, k)
    ensures Wakeup(Work1(st, i, k))
  {
    hide HasData, SomeoneSignals, QueueAfterWork, OutsAfterWork, MemoryPool.Release;
    var pc, next := st.slots[i].threads[k], Work1(st, i, k);
    if pc.Putting? {
      assert next.slots[i].threads[k].Signalling?;
      assert SomeoneSignals(next.slots) by { Signals(next.slots, i, k); }
    } else if !pc.Signalling? && HasData(next.queue) {
      OnlyPutAddsData(st.queue, pc);
      if SomeoneSignals(st.slots) { SignalStays(st, i, k); }
    }
  }

  lemma Signals(slots: seq<Slot>, i: nat, k: nat)
    requires i < |slots| && k < |slots[i].threads| && slots[i].threads[k].Signalling?
    ensures SomeoneSignals(slots)
  {
  }

  lemma SignalStaysOnGrowth(slots: seq<Slot>, next: seq<Slot>)
    requires SomeoneSignals(slots) && |next| == |slots|
    requires forall i :: 0 <= i < |slots| ==> slots[i].threads <= next[i].threads
    ensures SomeoneSignals(next)
  {
    var j, l :| 0 <= j < |slots| && 0 <= l < |slots[j].threads| && slots[j].threads[l].Signalling?;
    assert slots[j].threads <= next[j].threads;
    assert next[j].threads[l].Signalling?;
  }

  lemma ReactStarts(st: State)
    requires Shape(st) && ReactorCanMove(st)
    ensures var next := Reaction(st);
            && |next.slots| == |st.slots| && next.queue == st.queue && next.pendingSignal == st.pendingSignal
            && next.dispatcher == st.dispatcher
            && forall i :: 0 <= i < |st.slots| ==> st.slots[i].threads <= next.slots[i].threads
  {
    hide MemoryPool.Allocation, MemoryPool.Release, Worker;
  }

  lemma WakeupStep(st: State, a: Action, config: Frame.Config)
    requires Shape(st) && Wakeup(st) && Enabled(st, a)
    ensures Wakeup(Next(st, a, config))
  {
    hide HasData, SomeoneSignals, Work1, Reaction, ReactorCanMove, CheckAll, ProcessAll, AddOuts, Written, AddReceived;
    var next := Next(st, a, config);
    if a.Work? {
      WakeupWork(st, a.slot, a.thread);
    } else {
      if a.React? { ReactStarts(st); }
      if SomeoneSignals(st.slots) { SignalStaysOnGrowth(st.slots, next.slots); }
    }
  }

  // ---------------------------------------------------------------- every reachable state

  ghost predicate Good(st: State, config: Frame.Config) {
    Control(st) && Buffers(st) && Sockets(st) && Integrity(st) && QueueOk(st, config) && Wakeup(st)
  }

  lemma {:induction false} EveryStateIsGood(clients: nat, run: seq<Action>, config: Frame.Config)
    requires StateAfter(clients, run, config).Some?
    ensures Good(StateAfter(clients, run, config).value, config)
    ensures |StateAfter(clients, run, config).value.slots| == clients
  {
    hide Control, Buffers, Sockets, Integrity, QueueOk, Wakeup, Next, Initial;
    if run == [] {
      ControlInitially(clients);
      BuffersInitially(clients);
      SocketsInitially(clients);
      IntegrityInitially(clients);
      QueueInitially(clients, config);
      WakeupInitially(clients);
    } else {
      var before := run[..|run| - 1];
      EveryStateIsGood(clients, before, config);
      var st, a := StateAfter(clients, before, config).value, run[|run| - 1];
      assert Shape(st) by { ControlHasShape(st); }
      ControlStep(st, a, config);
      BuffersStep(st, a, config);
      SocketsStep(st, a, config);
      IntegrityStep(st, a, config);
      QueueStep(st, a, config);
      WakeupStep(st, a, config);
      SlotsStay(st, a, config);
    }
  }

  lemma ControlHasShape(st: State)
    requires Control(st)
    ensures Shape(st)
  {
    hide SlotOk;
  }

  lemma WakeupInitially(clients: nat)
    ensures Wakeup(Initial(clients)) && |Initial(clients).slots| == clients
  {
  }

  lemma SlotsStay(st: State, a: Action, config: Frame.Config)
    requires Shape(st) && Enabled(st, a)
    ensures |Next(st, a, config).slots| == |st.slots|
  {
    hide CheckAll, ProcessAll, AddOuts, MemoryPool.Allocation, MemoryPool.Release, WorkedSlot, Reacted;
  }

  /** A run that goes on. */
  lemma Goes(clients: nat, run: seq<Action>, a: Action, config: Frame.Config)
    requires StateAfter(clients, run, config).Some? && Enabled(StateAfter(clients, run, config).value, a)
    ensures StateAfter(clients, run + [a], config) == Some(Next(StateAfter(clients, run, config).value, a, config))
  {
    hide Next, Enabled;
    assert (run + [a])[..|run|] == run;
  }

  // ---------------------------------------------------------------- the theorems

  /** Isolation: while connection `i` has an entry, its slot is connected, the entry is where a prefix of
      the bytes read from that slot's own socket puts it, and the messages dispatched for it are a prefix
      of the messages in those bytes. */
  lemma Isolation(clients: nat, run: seq<Action>, i: nat, config: Frame.Config)
    requires StateAfter(clients, run, config).Some? && i < clients
    requires View(StateAfter(clients, run, config).value.queue, i).Some?
    ensures var st := StateAfter(clients, run, config).value;
            && |st.slots| == |st.outs| == clients
            && st.slots[i].fd >= 0 && st.slots[i].client < |st.received|
            && (var all := st.received[st.slots[i].client];
                exists stream :: stream <= all && Tracks(View(st.queue, i).value, stream, st.outs[i], config))
            && st.outs[i] <= Messages(st.received[st.slots[i].client], config)
  {
    hide StateAfter, Control, Buffers, Descriptors, Wakeup, Integrity, QueueOk, Tracks, Messages, View;
    EveryStateIsGood(clients, run, config);
    var st := StateAfter(clients, run, config).value;
    IsolatedNow(st, i, config);
  }

  lemma IsolatedNow(st: State, i: nat, config: Frame.Config)
    requires Control(st) && Integrity(st) && QueueOk(st, config) && i < |st.slots| && View(st.queue, i).Some?
    ensures |st.outs| == |st.slots| && st.slots[i].fd >= 0 && st.slots[i].client < |st.received|
    ensures var all := st.received[st.slots[i].client];
            && (exists stream :: stream <= all && Tracks(View(st.queue, i).value, stream, st.outs[i], config))
            && st.outs[i] <= Messages(all, config)
  {
    hide SlotOk, Tracks, Messages, View, Distinct, Integrity, Delivered, InSession;
    var s := st.slots[i];
    var stream := Delivered(s.trace);
    assert ServerRuns.Agrees(View(st.queue, i), HandedOn(s.trace), st.outs[i], config);
    DeliveredIsRead(st, i);
    TracksPrefix(View(st.queue, i).value, stream, st.outs[i], config);
    PrefixExtends(stream, st.received[s.client], config);
  }

  lemma PrefixExtends(stream: ByteArray, all: ByteArray, config: Frame.Config)
    requires stream <= all
    ensures Messages(stream, config) <= Messages(all, config)
  {
    hide Messages;
    assert stream + all[|stream|..] == all;
    MessagesExtend(stream, all[|stream|..], config);
  }

  /** From end to end: whatever the threads do and whoever had the slot before, if the bytes read from
      the slot's socket are a client's opening request and frames, or any part of them, then what is
      dispatched for the connection is a prefix of that client's messages. */
  lemma ClientsGetTheirOwnMessages(
    clients: nat, run: seq<Action>, i: nat, config: Frame.Config, r: Request.State, frames: seq<ServerRuns.ClientFrame>)
    requires StateAfter(clients, run, config).Some? && i < clients && config.Sane()
    requires ServerRuns.Opens(r) && ServerRuns.AllSendable(frames, config)
    requires var st := StateAfter(clients, run, config).value;
             && |st.slots| == clients && st.slots[i].fd >= 0 && st.slots[i].client < |st.received|
             && st.received[st.slots[i].client] <= ServerRuns.ClientBytes(r, frames, config)
    ensures var st := StateAfter(clients, run, config).value;
            |st.outs| == clients && st.outs[i] <= ServerRuns.MessagesOf(frames)
  {
    hide StateAfter, Control, Buffers, Descriptors, Wakeup, Integrity, Messages, View, ServerRuns.Opens,
      ServerRuns.AllSendable,
      ServerRuns.ClientBytes, ServerRuns.MessagesOf, Distinct;
    EveryStateIsGood(clients, run, config);
    var st := StateAfter(clients, run, config).value;
    if View(st.queue, i).Some? {
      IsolatedNow(st, i, config);
      PrefixExtends(st.received[st.slots[i].client], ServerRuns.ClientBytes(r, frames, config), config);
      ServerRuns.MessagesOfClient(r, frames, config);
    } else {
      NoEntryNothingOut(st, i, config);
    }
  }

  lemma NoEntryNothingOut(st: State, i: nat, config: Frame.Config)
    requires QueueOk(st, config) && i < |st.slots| && View(st.queue, i).None?
    ensures st.outs[i] == []
  {
    hide View, Distinct, Tracks;
    assert ServerRuns.Agrees(View(st.queue, i), HandedOn(st.slots[i].trace), st.outs[i], config);
  }

  lemma DeliveredIsRead(st: State, i: nat)
    requires Control(st) && Integrity(st) && i < |st.slots| && InSession(st.slots[i].trace)
    ensures st.slots[i].fd >= 0 && st.slots[i].client < |st.received|
    ensures Delivered(st.slots[i].trace) <= st.received[st.slots[i].client]
  {
    hide Delivered, InSession, Occupied, OneWorker, Grammar, Sockets, Sized, BytesInHand, Queued, BytesAnnounced;
    assert SlotOk(i, st.slots[i], Mine(st.reactor, i));
    assert Conserved(st.slots[i], Mine(st.reactor, i), st.memory, st.received);
  }

  /** Byte integrity: what `OnData` has handed on in the current session is a prefix of what was read
      from the slot's socket. */
  lemma CallbacksGetWhatWasRead(clients: nat, run: seq<Action>, i: nat, config: Frame.Config)
    requires StateAfter(clients, run, config).Some? && i < clients
    ensures var st := StateAfter(clients, run, config).value;
            |st.slots| == clients &&
            (InSession(st.slots[i].trace) ==>
               && st.slots[i].fd >= 0 && st.slots[i].client < |st.received|
               && Delivered(st.slots[i].trace) <= st.received[st.slots[i].client])
  {
    hide StateAfter, Control, Buffers, Descriptors, Wakeup, QueueOk, Integrity, InSession, Delivered;
    EveryStateIsGood(clients, run, config);
    var st := StateAfter(clients, run, config).value;
    if InSession(st.slots[i].trace) { DeliveredIsRead(st, i); }
  }

  /** Callback grammar: connect, data, disconnect, in that order, always with the slot's own index. */
  lemma CallbacksInOrder(clients: nat, run: seq<Action>, i: nat, config: Frame.Config)
    requires StateAfter(clients, run, config).Some? && i < clients
    ensures var st := StateAfter(clients, run, config).value;
            |st.slots| == clients && Grammar(st.slots[i].trace, i)
  {
    hide StateAfter, Buffers, Descriptors, Wakeup, QueueOk, Integrity, Vacant, Occupied, OneWorker, Grammar;
    EveryStateIsGood(clients, run, config);
    var st := StateAfter(clients, run, config).value;
    assert SlotOk(i, st.slots[i], Mine(st.reactor, i));
  }

  /** At most one worker of a slot runs, and it is the one the slot can join. */
  lemma OneWorkerAtATime(clients: nat, run: seq<Action>, i: nat, j: nat, k: nat, config: Frame.Config)
    requires StateAfter(clients, run, config).Some?
    requires Live(StateAfter(clients, run, config).value, i, j) && Live(StateAfter(clients, run, config).value, i, k)
    ensures j == k && StateAfter(clients, run, config).value.slots[i].joinable
  {
    hide StateAfter, Buffers, Descriptors, Wakeup, QueueOk, Integrity, Vacant, Occupied, Grammar;
    EveryStateIsGood(clients, run, config);
    var st := StateAfter(clients, run, config).value;
    assert SlotOk(i, st.slots[i], Mine(st.reactor, i));
    MovingWorker(st.slots[i], j);
    MovingWorker(st.slots[i], k);
  }

  /** A worker that is about to clear `m_running` does so before the slot is reassigned: the reactor
      can be no further than the `join`. */
  lemma OldWorkerStopsFirst(clients: nat, run: seq<Action>, i: nat, k: nat, config: Frame.Config)
    requires StateAfter(clients, run, config).Some? && Live(StateAfter(clients, run, config).value, i, k)
    requires StateAfter(clients, run, config).value.slots[i].threads[k].Stopping?
    ensures var st := StateAfter(clients, run, config).value;
            && st.slots[i].fd == -1 && st.slots[i].tasks == []
            && (st.reactor.At? && st.reactor.slot == i ==> st.reactor.step.Joining?)
  {
    hide StateAfter, Buffers, Descriptors, Wakeup, QueueOk, Integrity, Grammar, Outstanding;
    EveryStateIsGood(clients, run, config);
    var st := StateAfter(clients, run, config).value;
    var s := st.slots[i];
    assert SlotOk(i, s, Mine(st.reactor, i));
    MovingWorker(s, k);
  }

  /** The `join` in `Assign` is short: the worker it waits for has cleared `m_fd`, and nothing but storing
      two fields is left for it to do, so the reactor is never stuck behind a callback. */
  lemma JoinIsShort(clients: nat, run: seq<Action>, config: Frame.Config)
    requires StateAfter(clients, run, config).Some?
    requires var r := StateAfter(clients, run, config).value.reactor; r.At? && r.step.Joining?
    ensures var st := StateAfter(clients, run, config).value;
            && st.reactor.slot < |st.slots|
            && var (s, i) := (st.slots[st.reactor.slot], st.reactor.slot);
            ReactorCanMove(st) || ((Worker(s).ClearingIdx? || Worker(s).Stopping?) && Live(st, i, |s.threads| - 1))
  {
    hide StateAfter, Buffers, Descriptors, Wakeup, Grammar, Outstanding, Integrity, QueueOk;
    EveryStateIsGood(clients, run, config);
    var st := StateAfter(clients, run, config).value;
    var i := st.reactor.slot;
    assert SlotOk(i, st.slots[i], Mine(st.reactor, i));
  }

  /** A slot that is being reassigned carries nothing over: no task, no worker, no entry, no byte. */
  lemma ReassignedSlotIsClean(clients: nat, run: seq<Action>, config: Frame.Config)
    requires StateAfter(clients, run, config).Some?
    requires var r := StateAfter(clients, run, config).value.reactor; r.At? && r.step.StoringFd?
    ensures var st := StateAfter(clients, run, config).value;
            && |st.slots| == |st.outs| == clients && st.reactor.slot < clients
            && var (i, socket) := (st.reactor.slot, st.reactor.step.socket);
            && st.slots[i].tasks == []
               && (forall k :: 0 <= k < |st.slots[i].threads| ==> st.slots[i].threads[k] == Finished)
            && View(st.queue, i) == None && st.outs[i] == []
            && socket.client < |st.received| && st.received[socket.client] == []
  {
    hide StateAfter, Buffers, Descriptors, Wakeup, Grammar, Occupied, Conserved, Sized, View, InSession, Distinct;
    EveryStateIsGood(clients, run, config);
    var st := StateAfter(clients, run, config).value;
    var i := st.reactor.slot;
    assert SlotOk(i, st.slots[i], Mine(st.reactor, i));
    assert st.slots[i].fd == -1 by { StoringMeansVacant(i, st.slots[i], st.reactor.step); }
    assert ServerRuns.Agrees(View(st.queue, i), HandedOn(st.slots[i].trace), st.outs[i], config);
  }

  lemma StoringMeansVacant(i: nat, s: Slot, step: Step)
    requires SlotOk(i, s, Some(step)) && step.StoringFd?
    ensures s.fd == -1
  {
    hide Grammar, OneWorker, Outstanding;
  }

  /** Buffer ownership: a live region has exactly one holder, regions do not overlap, and what is held is
      live; in particular nothing is freed while it is queued or in use. */
  lemma BuffersAreOwned(clients: nat, run: seq<Action>, o: nat, config: Frame.Config)
    requires StateAfter(clients, run, config).Some?
    ensures var st := StateAfter(clients, run, config).value;
            && MemoryPool.WellFormed(st.regions, |st.memory|)
            && (IsLive(st.regions, o) <==> exists h :: Holds(st, h, o))
            && forall h, g :: Holds(st, h, o) && Holds(st, g, o) ==> h == g
  {
    hide StateAfter, Control, Wakeup, QueueOk, Integrity, Holds, IsLive, Held, Starts;
    EveryStateIsGood(clients, run, config);
    ExactlyOneHolder(StateAfter(clients, run, config).value, o);
  }

  lemma LeakStays(st: State, a: Action, config: Frame.Config)
    requires Enabled(st, a)
    ensures st.leaked <= Next(st, a, config).leaked
  {
    hide CheckAll, ProcessAll, AddOuts, MemoryPool.Allocation, MemoryPool.Release, WorkedSlot, Reacted, Written,
      AddReceived,
      AnyNews, HasData, QueueAfterWork, OutsAfterWork, ClientOf;
  }

  lemma {:induction false} LeakGrows(clients: nat, run: seq<Action>, more: seq<Action>, config: Frame.Config)
    requires StateAfter(clients, run + more, config).Some?
    ensures StateAfter(clients, run, config).Some?
    ensures StateAfter(clients, run, config).value.leaked <= StateAfter(clients, run + more, config).value.leaked
  {
    hide Next;
    if more == [] {
      assert run + more == run;
    } else {
      var n := |more| - 1;
      assert (run + more)[..|run + more| - 1] == run + more[..n];
      LeakGrows(clients, run, more[..n], config);
      LeakStays(StateAfter(clients, run + more[..n], config).value, more[n], config);
    }
  }

  /** A read that would block loses its buffer for good: however the run goes on, the region stays live, and
      nobody but the leak ever holds it again. */
  lemma BlockedReadLeaks(clients: nat, run: seq<Action>, more: seq<Action>, k: nat, config: Frame.Config)
    requires StateAfter(clients, run + more, config).Some? && StateAfter(clients, run, config).Some?
    requires k < |StateAfter(clients, run, config).value.leaked|
    ensures var o, later := StateAfter(clients, run, config).value.leaked[k],
            StateAfter(clients, run + more, config).value;
            IsLive(later.regions, o) && forall h :: Holds(later, h, o) ==> h == Leaked(k)
  {
    hide StateAfter, IsLive;
    var o, later := StateAfter(clients, run, config).value.leaked[k], StateAfter(clients, run + more, config).value;
    LeakGrows(clients, run, more, config);
    BuffersAreOwned(clients, run + more, o, config);
    assert Holds(later, Leaked(k), o);
  }

  /** No lost wakeup: while the request thread waits and some entry holds data, the signal is pending or
      some worker is still about to send it. */
  lemma NoLostWakeup(clients: nat, run: seq<Action>, config: Frame.Config)
    requires StateAfter(clients, run, config).Some?
    requires var st := StateAfter(clients, run, config).value; st.dispatcher.Waiting? && HasData(st.queue)
    ensures var st := StateAfter(clients, run, config).value; st.pendingSignal || SomeoneSignals(st.slots)
  {
    hide StateAfter, Control, Buffers, QueueOk, Integrity, HasData, SomeoneSignals;
    EveryStateIsGood(clients, run, config);
  }

  predicate Asleep(st: State) {
    st.dispatcher.Waiting? && !st.pendingSignal
  }

  /** A worker's `SendSignal`. */
  predicate Sends(st: State, a: Action) {
    a.Work? && Live(st, a.slot, a.thread) && st.slots[a.slot].threads[a.thread].Signalling?
  }

  ghost predicate NobodySends(clients: nat, run: seq<Action>, more: seq<Action>, config: Frame.Config) {
    forall k :: 0 <= k < |more| ==>
                  match StateAfter(clients, run + more[..k], config) {
                    case Some(st) => !Sends(st, more[k])
                    case None => true
                  }
  }

  lemma NobodySendsBefore(clients: nat, run: seq<Action>, more: seq<Action>, config: Frame.Config)
    requires NobodySends(clients, run, more, config) && more != []
    ensures NobodySends(clients, run, more[..|more| - 1], config)
  {
    hide StateAfter, Sends;
    var before := more[..|more| - 1];
    forall k | 0 <= k < |before| ensures before[..k] == more[..k] && before[k] == more[k] {}
  }

  lemma SleepsOn(st: State, a: Action, config: Frame.Config)
    requires Asleep(st) && Enabled(st, a) && !Sends(st, a)
    ensures Asleep(Next(st, a, config))
  {
    hide WorkedSlot, QueueAfterWork, OutsAfterWork, MemoryPool.Release, MemoryPool.Allocation, CheckAll, ProcessAll,
      AddOuts, Written, AddReceived, Reacted;
  }

  /** The other way round: the request thread goes on only if some worker has sent the signal since. */
  lemma {:induction false} WakesOnSignal(clients: nat, run: seq<Action>, more: seq<Action>, config: Frame.Config)
    requires StateAfter(clients, run, config).Some? && Asleep(StateAfter(clients, run, config).value)
    requires StateAfter(clients, run + more, config).Some? && NobodySends(clients, run, more, config)
    ensures Asleep(StateAfter(clients, run + more, config).value)
    decreases |more|
  {
    hide Next, Enabled, Asleep, Sends;
    if more == [] {
      assert run + more == run;
    } else {
      var n := |more| - 1;
      assert (run + more)[..|run + more| - 1] == run + more[..n];
      NobodySendsBefore(clients, run, more, config);
      WakesOnSignal(clients, run, more[..n], config);
      var st := StateAfter(clients, run + more[..n], config).value;
      SleepsOn(st, more[n], config);
    }
  }
}
