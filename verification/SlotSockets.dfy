/** Descriptors and the sockets they stand for. A descriptor number is free again once the reactor has
    closed it, which is before the slot's worker stores `m_fd = -1`: two slots can hold one number. What
    stays apart are the sockets, told apart here by the accept they came from. */
module SlotSockets {
  import opened Bytes
  import opened RequestQueue
  import opened SlotControl
  import opened SlotProtocol
  import opened Wrappers
  import Frame
  import MemoryPool

  /** The slot's descriptor has not been closed: epoll still watches it. */
  predicate Open(s: Slot) {
    s.fd >= 0 && s.fd in s.watched
  }

  /** The socket the reactor has accepted and not yet stored. */
  function NewSocket(r: Reactor): Option<Socket> {
    match r
    case Scanning(socket, _) => Some(socket)
    case At(_, Joining(socket)) => Some(socket)
    case At(_, StoringFd(socket)) => Some(socket)
    case _ => None
  }

  /** Slots that are in use have sockets of different accepts, and a new one is nobody's yet. */
  ghost predicate Clients(st: State) {
    && (forall i :: 0 <= i < |st.slots| && st.slots[i].fd >= 0 ==> st.slots[i].client < |st.received|)
    && (forall i, j :: 0 <= i < j < |st.slots| && st.slots[i].fd >= 0 && st.slots[j].fd >= 0 ==>
                         st.slots[i].client != st.slots[j].client)
    && (NewSocket(st.reactor).Some? ==>
          var n := NewSocket(st.reactor).value.client;
          && n < |st.received| && st.received[n] == []
          && forall i :: 0 <= i < |st.slots| && st.slots[i].fd >= 0 ==> st.slots[i].client != n)
  }

  /** A slot is where a descriptor is kept. */
  predicate Keeps(s: Slot, fd: int, client: nat) {
    Open(s) && s.fd == fd && s.client == client
  }

  ghost predicate Owned(st: State, fd: int, client: nat) {
    || (NewSocket(st.reactor).Some? && NewSocket(st.reactor).value.fd == fd
       && NewSocket(st.reactor).value.client == client)
    || exists i :: 0 <= i < |st.slots| && Keeps(st.slots[i], fd, client)
  }

  /** A descriptor of an open slot stands for that slot's socket, and every open descriptor is kept. */
  ghost predicate Descriptors(st: State) {
    && (forall i :: 0 <= i < |st.slots| && Open(st.slots[i]) ==>
       ClientOf(st.files, st.slots[i].fd) == Some(st.slots[i].client))
    && (NewSocket(st.reactor).Some? ==>
          ClientOf(st.files, NewSocket(st.reactor).value.fd) == Some(NewSocket(st.reactor).value.client))
    && (forall fd :: fd in st.files ==> Owned(st, fd, st.files[fd]))
  }

  ghost predicate Sockets(st: State) {
    Clients(st) && Descriptors(st)
  }

  lemma SocketsInitially(clients: nat)
    ensures Sockets(Initial(clients))
  {
  }

  // ---------------------------------------------------------------- steps that close nothing

  /** What a step may do to a slot without touching its socket. */
  predicate SameSocket(s: Slot, t: Slot) {
    t.client == s.client && (t.fd == s.fd || t.fd == -1) && (Open(t) <==> Open(s))
  }

  ghost predicate Same(st: State, next: State) {
    && |next.slots| == |st.slots| && NewSocket(next.reactor) == NewSocket(st.reactor)
    && next.files == st.files && |next.received| == |st.received|
    && (NewSocket(st.reactor).Some? ==> next.received == st.received)
    && forall i :: 0 <= i < |st.slots| ==> SameSocket(st.slots[i], next.slots[i])
  }

  lemma ClientsStay(st: State, next: State)
    requires Clients(st) && Same(st, next)
    ensures Clients(next)
  {
    hide Open;
  }

  lemma DescriptorsStay(st: State, next: State)
    requires Descriptors(st) && Same(st, next)
    ensures Descriptors(next)
  {
    forall fd | fd in next.files ensures Owned(next, fd, next.files[fd]) {
      assert Owned(st, fd, st.files[fd]);
      if i :| 0 <= i < |st.slots| && Keeps(st.slots[i], fd, st.files[fd]) {
        assert Keeps(next.slots[i], fd, st.files[fd]);
      }
    }
  }

  lemma SocketsStay(st: State, next: State)
    requires Sockets(st) && Same(st, next)
    ensures Sockets(next)
  {
    hide Clients, Descriptors, Same;
    ClientsStay(st, next);
    DescriptorsStay(st, next);
  }

  lemma WorkKeepsSocket(i: nat, s: Slot, mine: Option<Step>, k: nat, memory: ByteArray)
    requires SlotOk(i, s, mine) && k < |s.threads| && s.threads[k] != Finished
    ensures SameSocket(s, WorkedSlot(s, k, memory))
  {
    hide Grammar, Vacant;
    MovedWorker(s, k, memory);
  }

  lemma SocketsWork(st: State, i: nat, k: nat)
    requires Control(st) && Sockets(st) && Live(st, i, k)
    ensures Sockets(Work1(st, i, k))
  {
    hide SlotOk, Sockets, WorkedSlot, QueueAfterWork, OutsAfterWork, MemoryPool.Release;
    WorkKeepsSocket(i, st.slots[i], Mine(st.reactor, i), k, st.memory);
    SocketsStay(st, Work1(st, i, k));
  }

  // ---------------------------------------------------------------- closing

  /** What closing a descriptor does to a slot. */
  predicate Closes(s: Slot, t: Slot, fd: int) {
    t.client == s.client && t.fd == s.fd && (Open(t) <==> Open(s) && s.fd != fd)
  }

  /** One descriptor is closed: an open slot's, or that of a new socket that found no slot. */
  ghost predicate Closed(st: State, next: State, fd: int) {
    && |next.slots| == |st.slots| && NewSocket(next.reactor) == None && next.received == st.received
    && next.files == st.files - {fd}
    && (forall i :: 0 <= i < |st.slots| ==> Closes(st.slots[i], next.slots[i], fd))
    && (NewSocket(st.reactor).Some? ==> NewSocket(st.reactor).value.fd == fd)
  }

  lemma ClientsClose(st: State, next: State, fd: int)
    requires Clients(st) && Closed(st, next, fd)
    ensures Clients(next)
  {
    hide Open;
  }

  lemma DescriptorsClose(st: State, next: State, fd: int)
    requires Descriptors(st) && Closed(st, next, fd)
    ensures Descriptors(next)
  {
    hide Open;
    forall d | d in next.files ensures Owned(next, d, next.files[d]) {
      assert Owned(st, d, st.files[d]);
      var i :| 0 <= i < |st.slots| && Keeps(st.slots[i], d, st.files[d]);
      assert Keeps(next.slots[i], d, st.files[d]);
    }
  }

  lemma SocketsClose(st: State, next: State, fd: int)
    requires Sockets(st) && Closed(st, next, fd)
    ensures Sockets(next)
  {
    hide Clients, Descriptors, Closed;
    ClientsClose(st, next, fd);
    DescriptorsClose(st, next, fd);
  }

  // ---------------------------------------------------------------- the reactor

  /** What `accept` adds. */
  ghost predicate Accepted(st: State, next: State, fd: int, client: nat) {
    && st.reactor.Idle? && fd !in st.files && client == |st.received|
    && next.slots == st.slots && next.received == st.received + [[]] && next.files == st.files[fd := client]
    && NewSocket(next.reactor).Some? && NewSocket(next.reactor).value.fd == fd
       && NewSocket(next.reactor).value.client == client
  }

  lemma ClientsAccept(st: State, next: State, fd: int, client: nat)
    requires Clients(st) && Accepted(st, next, fd, client)
    ensures Clients(next)
  {
  }

  lemma DescriptorsAccept(st: State, next: State, fd: int, client: nat)
    requires Descriptors(st) && Accepted(st, next, fd, client)
    ensures Descriptors(next)
  {
    hide Open;
    forall d | d in next.files ensures Owned(next, d, next.files[d]) {
      if d != fd {
        assert Owned(st, d, st.files[d]);
        var i :| 0 <= i < |st.slots| && Keeps(st.slots[i], d, st.files[d]);
        assert Keeps(next.slots[i], d, next.files[d]);
      }
    }
  }

  lemma SocketsAccept(st: State, fd: nat)
    requires Sockets(st) && st.reactor.Idle? && fd !in st.files
    ensures var client := |st.received|;
            Sockets(st.(received := st.received + [[]], files := st.files[fd := client],
                        reactor := Scanning(Socket(fd, client), 0)))
  {
    hide Clients, Descriptors;
    var client := |st.received|;
    var next := st.(received := st.received + [[]], files := st.files[fd := client],
      reactor := Scanning(Socket(fd, client), 0));
    ClientsAccept(st, next, fd, client);
    DescriptorsAccept(st, next, fd, client);
  }

  lemma SocketsScan(st: State)
    requires Control(st) && Sockets(st) && st.reactor.Scanning?
    ensures Sockets(Scanned(st))
  {
    hide SlotOk, Sockets;
    var i := st.reactor.next;
    if i >= |st.slots| {
      NewIsNobodys(st);
      SocketsClose(st, Scanned(st), st.reactor.socket.fd);
    } else {
      SocketsStay(st, Scanned(st));
    }
  }

  lemma NewIsNobodys(st: State)
    requires Sockets(st) && NewSocket(st.reactor).Some?
    ensures NewSocket(st.reactor).value.fd in st.files
    ensures forall i :: 0 <= i < |st.slots| && Open(st.slots[i]) ==> st.slots[i].fd != NewSocket(st.reactor).value.fd
  {
  }

  /** The new socket becomes the slot's. */
  lemma SocketsStore(st: State)
    requires Control(st) && Sockets(st) && ReactorCanMove(st) && st.reactor.At? && st.reactor.step.StoringFd?
    ensures Sockets(Reaction(st))
  {
    hide SlotOk;
    StoringIsVacant(st.reactor.slot, st.slots[st.reactor.slot], st.reactor.step.socket);
    ClientsStore(st);
    DescriptorsStore(st);
  }

  lemma ClientsStore(st: State)
    requires Clients(st) && ReactorCanMove(st) && st.reactor.At? && st.reactor.step.StoringFd?
    ensures Clients(Reaction(st))
  {
    hide Open;
  }

  lemma DescriptorsStore(st: State)
    requires Descriptors(st) && ReactorCanMove(st) && st.reactor.At? && st.reactor.step.StoringFd?
    requires var s := st.slots[st.reactor.slot]; s.fd == -1 && s.watched == {st.reactor.step.socket.fd as int}
    ensures Descriptors(Reaction(st))
  {
    var i, socket, next := st.reactor.slot, st.reactor.step.socket, Reaction(st);
    assert Keeps(next.slots[i], socket.fd, socket.client);
    forall d | d in next.files ensures Owned(next, d, next.files[d]) {
      assert Owned(st, d, st.files[d]);
      if j :| 0 <= j < |st.slots| && Keeps(st.slots[j], d, st.files[d]) {
        assert Keeps(next.slots[j], d, st.files[d]);
      }
    }
  }

  lemma StoringIsVacant(i: nat, s: Slot, socket: Socket)
    requires SlotOk(i, s, Some(StoringFd(socket)))
    ensures s.fd == -1 && s.watched == {socket.fd as int}
  {
    hide Grammar, OneWorker, Outstanding;
  }

  lemma SocketsCloseSlot(st: State)
    requires Control(st) && Sockets(st) && ReactorCanMove(st) && st.reactor.At? && st.reactor.step.Closing?
    ensures Sockets(Reaction(st))
  {
    hide SlotOk, Sockets;
    var i := st.reactor.slot;
    ClosingIsOpen(i, st.slots[i]);
    OpenIsItsOwn(st, i);
    SocketsClose(st, Reaction(st), st.slots[i].fd);
  }

  lemma ClosingIsOpen(i: nat, s: Slot)
    requires SlotOk(i, s, Some(Closing))
    ensures Open(s) && s.watched == {s.fd}
  {
    hide Grammar, OneWorker, Rest, Outstanding;
  }

  /** No other open slot has the descriptor of an open slot. */
  lemma OpenIsItsOwn(st: State, i: nat)
    requires Sockets(st) && i < |st.slots| && Open(st.slots[i])
    ensures ClientOf(st.files, st.slots[i].fd) == Some(st.slots[i].client)
    ensures forall j :: 0 <= j < |st.slots| && j != i && Open(st.slots[j]) ==> st.slots[j].fd != st.slots[i].fd
  {
    forall j | 0 <= j < |st.slots| && j != i && Open(st.slots[j]) ensures st.slots[j].fd != st.slots[i].fd {
      assert st.slots[j].client != st.slots[i].client;
    }
  }

  lemma ReactKeepsSocket(s: Slot, i: nat, step: Step)
    requires !step.StoringFd? && !step.Closing?
    ensures SameSocket(s, Reacted(s, i, step))
  {
  }

  lemma SocketsReact(st: State)
    requires Control(st) && Sockets(st) && ReactorCanMove(st) && st.reactor.At?
    ensures Sockets(Reaction(st))
  {
    hide Control, Sockets, Reacted, MemoryPool.Release, MemoryPool.Allocation;
    var i, step := st.reactor.slot, st.reactor.step;
    if step.StoringFd? { SocketsStore(st); }
    else if step.Closing? { SocketsCloseSlot(st); }
    else {
      ReactKeepsSocket(st.slots[i], i, step);
      SocketsStay(st, Reaction(st));
    }
  }

  lemma ReceivedSize(received: seq<ByteArray>, client: Option<nat>, chunk: ByteArray)
    ensures |AddReceived(received, client, chunk)| == |received|
  {
  }

  lemma SocketsRead(st: State, outcome: Outcome)
    requires Sockets(st) && Enabled(st, Read(outcome))
    ensures Sockets(ReadDone(st, outcome))
  {
    hide Sockets, Written, AddReceived;
    if outcome.Got? { ReceivedSize(st.received, ClientOf(st.files, st.slots[st.reactor.slot].fd), outcome.chunk); }
    SocketsStay(st, ReadDone(st, outcome));
  }

  lemma SocketsStep(st: State, a: Action, config: Frame.Config)
    requires Control(st) && Sockets(st) && Enabled(st, a)
    ensures Sockets(Next(st, a, config))
  {
    hide Control, Sockets, Work1, Reaction, ReadDone, CheckAll, ProcessAll, AddOuts;
    match a
    case Work(i, k) => SocketsWork(st, i, k);
    case Accept(fd) => SocketsAccept(st, fd);
    case React => if st.reactor.Scanning? { SocketsScan(st); ScanReacts(st); } else { SocketsReact(st); }
    case Read(outcome) => SocketsRead(st, outcome);
    case _ => SocketsStay(st, Next(st, a, config));
  }

  lemma ScanReacts(st: State)
    requires ReactorCanMove(st) && st.reactor.Scanning?
    ensures Reaction(st) == Scanned(st)
  {
  }
}
