/** What a descriptor number can be trusted for: which slots may share one, who keeps an open one, and whom
    the bytes reach that `ServerSocket::Write` (src/utils/ServerSocket.cpp) sends to one. */
module SlotDescriptors {
  import opened RequestQueue
  import opened SlotBuffers
  import opened SlotBytes
  import opened SlotControl
  import opened SlotProtocol
  import opened SlotSockets
  import opened SlotTheorems
  import opened Wrappers
  import Frame
  import MemoryPool
  import opened ServerSocket

  // ---------------------------------------------------------------- in every reachable state

  /** Slots in use have sockets of different accepts. Their descriptors differ as long as the reactor has not
      closed them. */
  lemma SocketsAreDistinct(clients: nat, run: seq<Action>, i: nat, j: nat, config: Frame.Config)
    requires StateAfter(clients, run, config).Some? && i < clients && j < clients && i != j
    ensures var st := StateAfter(clients, run, config).value;
            && |st.slots| == clients
            && (st.slots[i].fd >= 0 && st.slots[j].fd >= 0 ==> st.slots[i].client != st.slots[j].client)
            && (Open(st.slots[i]) && Open(st.slots[j]) ==> st.slots[i].fd != st.slots[j].fd)
  {
    hide StateAfter, Control, Buffers, Descriptors, Wakeup, QueueOk, Integrity;
    EveryStateIsGood(clients, run, config);
    var st := StateAfter(clients, run, config).value;
    if Open(st.slots[i]) { OpenIsItsOwn(st, i); }
  }

  /** No descriptor is lost: one that is open is kept by the slot that is watched for it, or is the one
      the reactor has just accepted. */
  lemma NoDescriptorLeaks(clients: nat, run: seq<Action>, fd: int, config: Frame.Config)
    requires StateAfter(clients, run, config).Some?
    ensures var st := StateAfter(clients, run, config).value;
            && (fd in st.files <==> exists client: nat :: Owned(st, fd, client))
            && forall client: nat :: Owned(st, fd, client) ==> ClientOf(st.files, fd) == Some(client)
  {
    hide StateAfter, Control, Buffers, Wakeup, QueueOk, Integrity, Clients;
    EveryStateIsGood(clients, run, config);
  }

  // ---------------------------------------------------------------- whom an answer reaches

  /** Slot `i` is the only place where the socket of accept `client` can be, under that descriptor. */
  ghost predicate OnlyAt(st: State, i: nat, fd: int, client: nat) {
    && client < |st.received|
    && (NewSocket(st.reactor).Some? ==> NewSocket(st.reactor).value.client != client)
    && forall j :: 0 <= j < |st.slots| && st.slots[j].fd >= 0 && st.slots[j].client == client ==>
       j == i && st.slots[j].fd == fd
  }

  /** How a step may change the sockets of the slots. */
  ghost predicate NothingMoved(st: State, next: State) {
    && |next.slots| == |st.slots| && |st.received| <= |next.received|
    && (NewSocket(next.reactor).Some? ==>
          NewSocket(next.reactor) == NewSocket(st.reactor) || NewSocket(next.reactor).value.client == |st.received|)
    && forall j :: 0 <= j < |st.slots| && next.slots[j].fd >= 0 ==>
                     || (next.slots[j].fd == st.slots[j].fd && next.slots[j].client == st.slots[j].client)
                     || (NewSocket(st.reactor).Some? && next.slots[j].client == NewSocket(st.reactor).value.client)
  }

  lemma OnlyAtStays(st: State, next: State, i: nat, fd: int, client: nat)
    requires OnlyAt(st, i, fd, client) && NothingMoved(st, next)
    ensures OnlyAt(next, i, fd, client)
  {
  }

  lemma WorkMovesNothing(st: State, i: nat, k: nat)
    requires Live(st, i, k)
    ensures NothingMoved(st, Work1(st, i, k))
  {
    hide QueueAfterWork, OutsAfterWork, MemoryPool.Release, NextPC;
  }

  lemma ReactMovesNothing(st: State)
    requires ReactorCanMove(st)
    ensures NothingMoved(st, Reaction(st))
  {
    hide MemoryPool.Release, MemoryPool.Allocation;
  }

  lemma StepMovesNothing(st: State, a: Action, config: Frame.Config)
    requires Enabled(st, a)
    ensures NothingMoved(st, Next(st, a, config))
  {
    hide Work1, Reaction, CheckAll, ProcessAll, AddOuts, Written;
    match a
    case Work(i, k) => WorkMovesNothing(st, i, k);
    case React => ReactMovesNothing(st);
    case _ =>
  }

  lemma {:induction false} OnlyAtLater(
    clients: nat, run: seq<Action>, more: seq<Action>, i: nat, fd: int, client: nat, config: Frame.Config)
    requires StateAfter(clients, run, config).Some? && StateAfter(clients, run + more, config).Some?
    requires OnlyAt(StateAfter(clients, run, config).value, i, fd, client)
    ensures OnlyAt(StateAfter(clients, run + more, config).value, i, fd, client)
  {
    hide Next, OnlyAt, Enabled;
    if more == [] {
      assert run + more == run;
    } else {
      var n := |more| - 1;
      assert (run + more)[..|run + more| - 1] == run + more[..n];
      OnlyAtLater(clients, run, more[..n], i, fd, client, config);
      var st := StateAfter(clients, run + more[..n], config).value;
      StepMovesNothing(st, more[n], config);
      OnlyAtStays(st, Next(st, more[n], config), i, fd, client);
    }
  }

  lemma OnlyAtNow(st: State, i: nat)
    requires Sockets(st) && i < |st.slots| && st.slots[i].fd >= 0
    ensures OnlyAt(st, i, st.slots[i].fd, st.slots[i].client)
  {
    hide Descriptors;
  }

  /** Whom the descriptor of such a slot stands for. */
  lemma ReachesNow(st: State, i: nat, fd: int, client: nat)
    requires Sockets(st) && OnlyAt(st, i, fd, client) && i < |st.slots|
    ensures ClientOf(st.files, fd) == Some(client) <==> Open(st.slots[i]) && st.slots[i].client == client
  {
    hide Clients, Open;
    if ClientOf(st.files, fd) == Some(client) {
      assert Owned(st, fd, client);
      var j :| 0 <= j < |st.slots| && Keeps(st.slots[j], fd, client);
      assert st.slots[j].fd >= 0 by { OpenIsStored(st.slots[j]); }
    }
    if Open(st.slots[i]) { OpenIsStored(st.slots[i]); }
  }

  lemma OpenIsStored(s: Slot)
    requires Open(s)
    ensures s.fd >= 0
  {
  }

  /** `Write` looks up the descriptor of slot `i` after `run` and sends after `more`. What it sends reaches the
      client the slot had then exactly when the slot still has that client and the reactor has not closed its
      descriptor. */
  lemma AnswerReaches(clients: nat, run: seq<Action>, more: seq<Action>, i: nat, config: Frame.Config)
    requires StateAfter(clients, run, config).Some? && StateAfter(clients, run + more, config).Some? && i < clients
    requires var before := StateAfter(clients, run, config).value; |before.slots| == clients && before.slots[i].fd >= 0
    ensures var before, later := StateAfter(clients, run, config).value, StateAfter(clients, run + more, config).value;
            var (fd, client) := (before.slots[i].fd, before.slots[i].client);
            && |later.slots| == clients
            && (ClientOf(later.files, fd) == Some(client) <==> Open(later.slots[i]) && later.slots[i].client == client)
  {
    hide StateAfter, Control, Buffers, Sockets, Wakeup, QueueOk, Integrity, OnlyAt, Open;
    EveryStateIsGood(clients, run, config);
    EveryStateIsGood(clients, run + more, config);
    var before := StateAfter(clients, run, config).value;
    var (fd, client) := (before.slots[i].fd, before.slots[i].client);
    OnlyAtNow(before, i);
    OnlyAtLater(clients, run, more, i, fd, client, config);
    ReachesNow(StateAfter(clients, run + more, config).value, i, fd, client);
  }

  // ---------------------------------------------------------------- a number in two slots

  lemma Reacts(clients: nat, run: seq<Action>, config: Frame.Config)
    requires StateAfter(clients, run, config).Some? && ReactorCanMove(StateAfter(clients, run, config).value)
    ensures StateAfter(clients, run + [React], config) == Some(Reaction(StateAfter(clients, run, config).value))
  {
    hide ReactorCanMove, Reaction;
    Goes(clients, run, React, config);
  }

  /** The scan gets past slots that are in use. */
  lemma {:induction false} Scans(
      clients: nat, run: seq<Action>, socket: Socket, n: nat, config: Frame.Config) returns (longer: seq<Action>)
    requires StateAfter(clients, run, config).Some?
    requires var st := StateAfter(clients, run, config).value;
             st.reactor == Scanning(socket, 0) && n <= |st.slots| && forall k :: 0 <= k < n ==> st.slots[k].fd != -1
    ensures StateAfter(clients, longer, config)
         == Some(StateAfter(clients, run, config).value.(reactor := Scanning(socket, n)))
    ensures run <= longer
  {
    hide StateAfter;
    if n == 0 {
      longer := run;
    } else {
      longer := Scans(clients, run, socket, n - 1, config);
      Reacts(clients, longer, config);
      longer := longer + [React];
    }
  }

  lemma StepReacts(st: State, i: nat, step: Step)
    requires st.reactor == At(i, step) && i < |st.slots| && (step.Joining? ==> Worker(st.slots[i]) == Finished)
    requires !step.Allocating? && !step.Reading? && !step.Releasing? && !step.Closing?
    ensures ReactorCanMove(st)
    ensures Reaction(st) == st.(slots := st.slots[i := Reacted(st.slots[i], i, step)], reactor := NextStep(i, step))
  {
  }

  /** One step of the reactor at slot `i`, which so far has become `s`. */
  lemma OneStep(
      clients: nat, run: seq<Action>, st: State, i: nat, s: Slot, step: Step, config: Frame.Config)
      returns (longer: seq<Action>, t: Slot)
    requires i < |st.slots| && (step.Joining? ==> Worker(s) == Finished)
    requires !step.Allocating? && !step.Reading? && !step.Releasing? && !step.Closing?
    requires StateAfter(clients, run, config) == Some(st.(slots := st.slots[i := s], reactor := At(i, step)))
    ensures t == Reacted(s, i, step) && run <= longer
    ensures StateAfter(clients, longer, config) == Some(st.(slots := st.slots[i := t], reactor := NextStep(i, step)))
  {
    hide StateAfter, Reaction, ReactorCanMove, Reacted;
    var now := st.(slots := st.slots[i := s], reactor := At(i, step));
    StepReacts(now, i, step);
    Reacts(clients, run, config);
    longer, t := run + [React], Reacted(s, i, step);
    assert st.slots[i := s][i := t] == st.slots[i := t];
  }

  /** `Assign`, without interruption. */
  lemma Assigns(clients: nat, run: seq<Action>, st: State, i: nat, s: Slot, socket: Socket, config: Frame.Config)
    returns (longer: seq<Action>)
    requires i < |st.slots| && Worker(s) == Finished
    requires StateAfter(clients, run, config) == Some(st.(slots := st.slots[i := s], reactor := At(i, Joining(socket))))
    ensures run <= longer
    ensures StateAfter(clients, longer, config)
            == Some(st.(slots := st.slots[i := Assigned(s, i, socket)], reactor := Idle))
  {
    hide StateAfter, Reacted;
    var t;
    longer, t := OneStep(clients, run, st, i, s, Joining(socket), config);
    longer, t := OneStep(clients, longer, st, i, t, StoringFd(socket), config);
    longer, t := OneStep(clients, longer, st, i, t, StoringIdx, config);
    longer, t := OneStep(clients, longer, st, i, t, StoringRunning, config);
    longer, t := OneStep(clients, longer, st, i, t, Spawning, config);
    longer, t := OneStep(clients, longer, st, i, t, PushingConnection, config);
  }

  /** The free slot `i`, the first one, is given a socket. */
  lemma Connects(clients: nat, run: seq<Action>, st: State, i: nat, fd: nat, config: Frame.Config)
    returns (longer: seq<Action>, s: Slot)
    requires StateAfter(clients, run, config) == Some(st)
    requires st.reactor.Idle? && fd !in st.files && i < |st.slots| && st.slots[i] == FREE_SLOT
    requires forall k :: 0 <= k < i ==> st.slots[k].fd != -1
    ensures run <= longer && s.fd == fd && s.client == |st.received| && s.watched == {fd as int}
    ensures StateAfter(clients, longer, config)
         == Some(st.(slots := st.slots[i := s], files := st.files[fd := |st.received|], received := st.received + [[]]))
  {
    hide StateAfter, Reaction, Reacted, Assigned;
    var socket := Socket(fd, |st.received|);
    var next := st.(files := st.files[fd := |st.received|], received := st.received + [[]],
      reactor := Scanning(socket, 0));
    Goes(clients, run, Accept(fd), config);
    assert StateAfter(clients, run + [Accept(fd)], config) == Some(next);
    longer := Scans(clients, run + [Accept(fd)], socket, i, config);
    var found := FREE_SLOT.(watched := {fd as int});
    FoundFree(next.(reactor := Scanning(socket, i)), i, found);
    Reacts(clients, longer, config);
    longer := Assigns(clients, longer + [React], next, i, found, socket, config);
    s := Assigned(found, i, socket);
    AssignedHolds(found, i, socket);
    assert next.(slots := next.slots[i := s], reactor := Idle)
        == st.(slots := st.slots[i := s], files := st.files[fd := |st.received|], received := st.received + [[]]);
  }

  lemma FoundFree(st: State, i: nat, found: Slot)
    requires i < |st.slots| && st.slots[i] == FREE_SLOT && st.reactor.Scanning? && st.reactor.next == i
    requires found == FREE_SLOT.(watched := {st.reactor.socket.fd as int})
    ensures ReactorCanMove(st) && Worker(found) == Finished
    ensures Reaction(st) == st.(slots := st.slots[i := found], reactor := At(i, Joining(st.reactor.socket)))
  {
    assert FREE_SLOT.watched + {st.reactor.socket.fd as int} == {st.reactor.socket.fd as int};
  }

  lemma AssignedHolds(s: Slot, i: nat, socket: Socket)
    ensures var t := Assigned(s, i, socket); t.fd == socket.fd && t.client == socket.client && t.watched == s.watched
  {
  }

  /** The reactor closes the descriptor of slot `i` when the client hangs up; `m_fd` still holds it. */
  lemma HangsUp(
      clients: nat, run: seq<Action>, st: State, i: nat, config: Frame.Config) returns (longer: seq<Action>, s: Slot)
    requires StateAfter(clients, run, config) == Some(st)
    requires st.reactor.Idle? && i < |st.slots| && st.slots[i].fd in st.slots[i].watched
    ensures run <= longer && s.fd == st.slots[i].fd && s.client == st.slots[i].client
    ensures StateAfter(clients, longer, config)
            == Some(st.(slots := st.slots[i := s], files := st.files - {st.slots[i].fd}))
  {
    hide StateAfter;
    var fd := st.slots[i].fd;
    Goes(clients, run, HangUp(i, fd), config);
    var one := run + [HangUp(i, fd)];
    Reacts(clients, one, config);
    var t := Reacted(st.slots[i], i, Closing);
    var closed := st.(files := st.files - {fd});
    assert StateAfter(clients, one + [React], config)
        == Some(closed.(slots := closed.slots[i := t], reactor := At(i, PushingDisconnection)));
    longer, s := OneStep(clients, one + [React], closed, i, t, PushingDisconnection, config);
    assert st.(slots := st.slots[i := s], files := st.files - {fd})
           == closed.(slots := closed.slots[i := s], reactor := Idle);
  }

  /** Two slots can hold one descriptor number: the first client has hung up and its descriptor is closed, but
      the worker has not stored `m_fd = -1` when the next client is accepted under the same number. What is
      written for the first slot, whether its descriptor was looked up before or is looked up now, goes to the
      second slot's client. */
  lemma TwoSlotsOneDescriptor(clients: nat, fd: nat, config: Frame.Config) returns (run: seq<Action>, more: seq<Action>)
    requires clients >= 2
    ensures StateAfter(clients, run, config).Some? && StateAfter(clients, run + more, config).Some?
    ensures var before, later := StateAfter(clients, run, config).value, StateAfter(clients, run + more, config).value;
            && |before.slots| == |later.slots| == clients
            && before.slots[0].fd == fd && Open(before.slots[0])
            && later.slots[0].fd == later.slots[1].fd == fd
            && later.slots[0].client == before.slots[0].client != later.slots[1].client
            && ClientOf(later.files, fd) == Some(later.slots[1].client)
  {
    hide StateAfter;
    var st0 := Initial(clients);
    StartsIdle(clients, config);
    var s, t, u, all;
    run, s := Connects(clients, [], st0, 0, fd, config);
    var st1 := st0.(slots := st0.slots[0 := s], files := st0.files[fd := |st0.received|],
      received := st0.received + [[]]);
    all, t := HangsUp(clients, run, st1, 0, config);
    var st2 := st1.(slots := st1.slots[0 := t], files := st1.files - {fd});
    all, u := Connects(clients, all, st2, 1, fd, config);
    more := all[|run|..];
    assert run + more == all;
  }

  lemma StartsIdle(clients: nat, config: Frame.Config)
    ensures StateAfter(clients, [], config) == Some(Initial(clients))
  {
  }
}
