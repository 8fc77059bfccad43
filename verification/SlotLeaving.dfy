/** How a closed slot becomes free: its worker calls back what is left, calls `OnDisconnect` and stores
    `m_fd = -1` (src/utils/ServerSocket.cpp). */
module SlotLeaving {
  import opened Bytes
  import opened RequestQueue
  import opened SlotBuffers
  import opened SlotBytes
  import opened SlotControl
  import opened SlotEvents
  import opened SlotProtocol
  import opened SlotSockets
  import opened SlotTheorems
  import opened Wrappers
  import Frame
  import MemoryPool

  /** The reactor is done with slot `i`; its worker is not. */
  predicate Leaving(st: State, i: nat) {
    i < |st.slots| && st.slots[i].fd >= 0 && st.slots[i].watched == {} && Mine(st.reactor, i) == None
  }

  // ---------------------------------------------------------------- how much is left

  function PCLeft(pc: PC): nat {
    match pc
    case Copying(_, _, _) => 6
    case Putting(_, _, _) => 5
    case Signalling(_) => 4
    case Freeing(_) => 3
    case Connecting(_) => 3
    case AtCheck => 2
    case AtWait => 1
    case Disconnecting(_) => 2
    case ClearingFd => 1
    case _ => 0
  }

  /** How many steps the worker has left before it stores `m_fd = -1`, at most. */
  function WorkLeft(s: Slot): nat {
    7 * |s.tasks| + PCLeft(Worker(s))
  }

  /** The worker of such a slot can move, and every step of it leaves less to do, up to the one that frees the
      slot. */
  lemma WorkerLeaves(i: nat, s: Slot, k: nat, memory: ByteArray)
    requires SlotOk(i, s, None) && s.fd >= 0 && s.watched == {} && k < |s.threads| && s.threads[k] != Finished
    ensures var t := WorkedSlot(s, k, memory);
            && t.watched == {} && t.client == s.client && s.trace <= t.trace
            && if Worker(s).ClearingFd? then t.fd == -1 && t.trace == s.trace
               else t.fd == s.fd && WorkLeft(t) < WorkLeft(s)
  {
    hide Grammar, OneWorker, Rest, WorkedSlot;
    MovingWorker(s, k);
    MovedWorker(s, k, memory);
    KeepsClient(s, k, memory);
    NotWaitingForNothing(i, s);
  }

  lemma KeepsClient(s: Slot, k: nat, memory: ByteArray)
    requires k < |s.threads|
    ensures WorkedSlot(s, k, memory).client == s.client
  {
  }

  /** A disconnection is still to be taken, called back, or was just called back. */
  lemma NotWaitingForNothing(i: nat, s: Slot)
    requires SlotOk(i, s, None) && s.fd >= 0 && s.watched == {}
    ensures s.running && s.joinable
    ensures var pc := Worker(s);
            && !pc.Finished? && !pc.ClearingIdx? && !pc.Stopping? && (pc.AtWait? ==> s.tasks != [])
  {
    hide Grammar, OneWorker, Rest;
    assert Worker(s).AtWait? && s.tasks == [] ==> Outstanding(s, None) == [];
  }

  lemma ReactElsewhere(st: State, i: nat)
    requires ReactorCanMove(st) && i < |st.slots| && st.slots[i].fd >= 0 && Mine(st.reactor, i) == None
    ensures |Reaction(st).slots| == |st.slots| && Reaction(st).slots[i] == st.slots[i]
    ensures Mine(Reaction(st).reactor, i) == None
  {
    hide MemoryPool.Allocation, MemoryPool.Release, Reacted, Worker;
  }

  /** No other thread has anything to do with it. */
  lemma OthersLeaveIt(st: State, a: Action, i: nat, config: Frame.Config)
    requires Enabled(st, a) && Leaving(st, i) && !(a.Work? && a.slot == i)
    ensures var next := Next(st, a, config); Leaving(next, i) && next.slots[i] == st.slots[i]
  {
    hide Reaction, ReactorCanMove, WorkedSlot, CheckAll, ProcessAll, AddOuts, Written, AddReceived, QueueAfterWork,
      OutsAfterWork, MemoryPool.Release, AnyNews, HasData;
    if a.React? { ReactElsewhere(st, i); }
  }

  lemma StepLeaves(st: State, a: Action, i: nat, config: Frame.Config)
    requires Control(st) && Enabled(st, a) && Leaving(st, i)
    ensures var next := Next(st, a, config);
            && |next.slots| == |st.slots| && st.slots[i].trace <= next.slots[i].trace
            && (next.slots[i].fd == -1
                || (Leaving(next, i)
                    && WorkLeft(next.slots[i]) + (if a.Work? && a.slot == i then 1 else 0) <= WorkLeft(st.slots[i])))
  {
    hide SlotOk, WorkedSlot, QueueAfterWork, OutsAfterWork, MemoryPool.Release, WorkLeft, CheckAll, ProcessAll, AddOuts,
      Written, AddReceived, Reaction, ReactorCanMove;
    if a.Work? && a.slot == i {
      WorkerLeaves(i, st.slots[i], a.thread, st.memory);
    } else {
      SlotsStay(st, a, config);
      OthersLeaveIt(st, a, i, config);
    }
  }

  // ---------------------------------------------------------------- over runs

  /** The slot has not been freed yet. */
  ghost predicate StillLeaving(clients: nat, run: seq<Action>, more: seq<Action>, i: nat, config: Frame.Config) {
    forall k :: 0 <= k <= |more| ==>
                  var st := StateAfter(clients, run + more[..k], config);
                  st.Some? && Leaving(st.value, i)
  }

  function StepsOf(more: seq<Action>, i: nat): nat {
    if more == [] then 0
    else StepsOf(more[..|more| - 1], i) + if more[|more| - 1].Work? && more[|more| - 1].slot == i then 1 else 0
  }

  lemma StillBefore(clients: nat, run: seq<Action>, more: seq<Action>, i: nat, config: Frame.Config)
    requires StillLeaving(clients, run, more, i, config) && more != []
    ensures StillLeaving(clients, run, more[..|more| - 1], i, config)
    ensures StateAfter(clients, run + more, config).Some? && Leaving(StateAfter(clients, run + more, config).value, i)
  {
    var before := more[..|more| - 1];
    forall k | 0 <= k <= |before| ensures before[..k] == more[..k] {}
    assert more[..|more|] == more;
  }

  /** Whatever the other threads do: a closed slot is free after so many steps of its own worker. */
  lemma {:induction false} SlotIsFreedInTime(
    clients: nat, run: seq<Action>, more: seq<Action>, i: nat, config: Frame.Config)
    requires StillLeaving(clients, run, more, i, config)
    ensures StateAfter(clients, run, config).Some? && StateAfter(clients, run + more, config).Some?
    ensures var st, later := StateAfter(clients, run, config).value, StateAfter(clients, run + more, config).value;
            && Leaving(st, i) && Leaving(later, i)
            && StepsOf(more, i) + WorkLeft(later.slots[i]) <= WorkLeft(st.slots[i]) <= 7 * |st.slots[i].tasks| + 6
    decreases |more|
  {
    hide Leaving, WorkLeft, Control, Buffers, Sockets, Integrity, QueueOk, Wakeup, Next, Enabled;
    assert more[..0] == [] && run + [] == run;
    assert StateAfter(clients, run + more[..0], config).Some?;
    if more == [] {
      assert run + more == run;
      LeftAtMost(StateAfter(clients, run, config).value, i);
    } else {
      var n := |more| - 1;
      StillBefore(clients, run, more, i, config);
      SlotIsFreedInTime(clients, run, more[..n], i, config);
      assert (run + more)[..|run + more| - 1] == run + more[..n];
      var st := StateAfter(clients, run + more[..n], config).value;
      EveryStateIsGood(clients, run + more[..n], config);
      StepLeaves(st, more[n], i, config);
      StillTaken(StateAfter(clients, run + more, config).value, i);
    }
  }

  lemma LeftAtMost(st: State, i: nat)
    requires Leaving(st, i)
    ensures WorkLeft(st.slots[i]) <= 7 * |st.slots[i].tasks| + 6
  {
  }

  lemma StillTaken(st: State, i: nat)
    requires Leaving(st, i)
    ensures i < |st.slots| && st.slots[i].fd >= 0
  {
  }

  /** The end of a session: `OnDisconnect` was the last callback, and everything read had been handed on. */
  ghost predicate FreedFrom(st: State, later: State, i: nat) {
    && i < |st.slots| == |later.slots| && st.slots[i].client < |st.received|
    && later.slots[i].fd == -1 && later.slots[i].tasks == []
    && st.slots[i].trace <= later.slots[i].trace && later.slots[i].trace != []
    && later.slots[i].trace[|later.slots[i].trace| - 1] == OnDisconnect(i)
    && Delivered(later.slots[i].trace) == st.received[st.slots[i].client]
  }

  lemma LastStep(st: State, i: nat, k: nat)
    requires Control(st) && Integrity(st) && Leaving(st, i) && Live(st, i, k) && Worker(st.slots[i]).ClearingFd?
    ensures FreedFrom(st, Work1(st, i, k), i)
  {
    hide WorkedSlot, QueueAfterWork, OutsAfterWork, MemoryPool.Release;
    var s, t := st.slots[i], WorkedSlot(st.slots[i], k, st.memory);
    assert SlotOk(i, s, None);
    WorkerLeaves(i, s, k, st.memory);
    NothingIsLeft(i, s);
    assert Conserved(s, None, st.memory, st.received) by {
      assert Conserved(s, Mine(st.reactor, i), st.memory, st.received);
    }
    MovedWorker(s, k, st.memory);
    LastIsOurs(s.trace, i);
    assert Delivered(s.trace) + [] == Delivered(s.trace);
  }

  lemma LastIsOurs(trace: seq<Callback>, i: nat)
    requires Grammar(trace, i) && trace != [] && !InSession(trace)
    ensures trace[|trace| - 1] == OnDisconnect(i)
  {
  }

  lemma NothingIsLeft(i: nat, s: Slot)
    requires SlotOk(i, s, None) && s.fd >= 0 && Worker(s).ClearingFd?
    ensures s.tasks == [] && s.trace != [] && !InSession(s.trace)
  {
    hide Grammar, OneWorker, Rest;
    assert |Outstanding(s, None)| >= |s.tasks|;
  }

  lemma FreedLater(st: State, next: State, later: State, i: nat)
    requires FreedFrom(next, later, i) && i < |st.slots| == |next.slots| && st.slots[i].trace <= next.slots[i].trace
    requires next.slots[i].client == st.slots[i].client && next.received == st.received
    ensures FreedFrom(st, later, i)
  {
    hide Delivered;
  }

  /** A closed slot is freed by its own worker, running on: it hands on every byte that was read and not handed
      on yet, calls `OnDisconnect`, and stores `m_fd = -1`. */
  lemma {:induction false} WorkerFreesSlot(clients: nat, run: seq<Action>, st: State, i: nat, config: Frame.Config)
    returns (more: seq<Action>, later: State)
    requires StateAfter(clients, run, config) == Some(st) && Leaving(st, i)
    ensures |more| <= WorkLeft(st.slots[i]) && forall k :: 0 <= k < |more| ==> more[k].Work? && more[k].slot == i
    ensures StateAfter(clients, run + more, config) == Some(later) && FreedFrom(st, later, i)
    decreases WorkLeft(st.slots[i])
  {
    hide StateAfter, Control, Buffers, Sockets, Integrity, QueueOk, Wakeup, FreedFrom, WorkLeft, Next, Leaving,
      Live, Work1;
    EveryStateIsGood(clients, run, config);
    var k := LeavingWorker(st, i);
    Goes(clients, run, Work(i, k), config);
    var next := Next(st, Work(i, k), config);
    WorkIsNext(st, i, k, config);
    if Worker(st.slots[i]).ClearingFd? {
      LastStep(st, i, k);
      more, later := [Work(i, k)], next;
      SomethingLeft(st, i);
    } else {
      NextLeaves(st, i, k, config);
      var rest;
      rest, later := WorkerFreesSlot(clients, run + [Work(i, k)], next, i, config);
      more := [Work(i, k)] + rest;
      assert run + [Work(i, k)] + rest == run + more;
      FreedLater(st, next, later, i);
    }
  }

  lemma WorkIsNext(st: State, i: nat, k: nat, config: Frame.Config)
    requires Enabled(st, Work(i, k))
    ensures Next(st, Work(i, k), config) == Work1(st, i, k)
  {
    hide Work1, Live;
  }

  lemma LeavingWorker(st: State, i: nat) returns (k: nat)
    requires Control(st) && Leaving(st, i)
    ensures i < |st.slots| && Live(st, i, k) && Enabled(st, Work(i, k))
  {
    hide SlotOk;
    NotWaitingForNothing(i, st.slots[i]);
    assert SlotOk(i, st.slots[i], None);
    k := |st.slots[i].threads| - 1;
  }

  lemma SomethingLeft(st: State, i: nat)
    requires Leaving(st, i) && Worker(st.slots[i]).ClearingFd?
    ensures WorkLeft(st.slots[i]) >= 1
  {
  }

  lemma NextLeaves(st: State, i: nat, k: nat, config: Frame.Config)
    requires Control(st) && Leaving(st, i) && Live(st, i, k) && !Worker(st.slots[i]).ClearingFd?
    ensures var next := Work1(st, i, k);
            && Leaving(next, i) && |next.slots| == |st.slots| && WorkLeft(next.slots[i]) < WorkLeft(st.slots[i])
            && next.slots[i].client == st.slots[i].client && next.received == st.received
            && st.slots[i].trace <= next.slots[i].trace
  {
    hide SlotOk, WorkedSlot, QueueAfterWork, OutsAfterWork, MemoryPool.Release, WorkLeft;
    WorkerLeaves(i, st.slots[i], k, st.memory);
  }

  /** From the end of a client's stream to its `OnDisconnect`: however much is still queued, there is a way on
      which all of it is handed on first and the slot is free in the end. */
  lemma ClosedClientIsDisconnected(
    clients: nat, run: seq<Action>, st: State, i: nat, o: nat, outcome: Outcome, config: Frame.Config)
    returns (more: seq<Action>, later: State)
    requires StateAfter(clients, run, config) == Some(st) && st.reactor == At(i, Reading(o))
    requires outcome == EndOfStream || outcome == Failed
    ensures more != [] && more[0] == Read(outcome)
    ensures StateAfter(clients, run + more, config) == Some(later) && FreedFrom(st, later, i)
  {
    hide StateAfter, Delivered, WorkLeft, IsLive;
    var closed := EndCloses(clients, run, st, i, o, outcome, config);
    var first := [Read(outcome), React, React, React];
    ClosedIsLeaving(clients, run, st, closed, i, config);
    var rest;
    rest, later := WorkerFreesSlot(clients, run + first, closed, i, config);
    more := first + rest;
    assert run + first + rest == run + more;
  }

  lemma ClosedIsLeaving(clients: nat, run: seq<Action>, st: State, closed: State, i: nat, config: Frame.Config)
    requires StateAfter(clients, run, config) == Some(st) && st.reactor.At?
    requires st.reactor.slot == i && st.reactor.step.Reading?
    requires ClosedAt(st, closed, i)
    ensures Leaving(closed, i) && closed.slots[i].client == st.slots[i].client && closed.received == st.received
    ensures closed.slots[i].trace == st.slots[i].trace
  {
    hide StateAfter, Control, Buffers, Sockets, Integrity, QueueOk, Wakeup;
    EveryStateIsGood(clients, run, config);
    Closing1(st, i);
  }
}
