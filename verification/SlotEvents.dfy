/** What becomes of an event: `HandleRead` and the closing branches of `ProcessTask`, from the event to the
    task that is pushed (src/utils/ServerSocket.cpp). */
module SlotEvents {
  import opened Bytes
  import opened RequestQueue
  import opened SlotBuffers
  import opened SlotBytes
  import opened SlotControl
  import opened SlotDescriptors
  import opened SlotProtocol
  import opened SlotSockets
  import opened SlotTheorems
  import opened Wrappers
  import Frame
  import MemoryPool

  // ---------------------------------------------------------------- closing

  /** Slot `i` is closed: its descriptor is no longer open, epoll no longer watches it, a disconnection stands
      at the end of its queue. Nothing else has changed but the pool. */
  ghost predicate ClosedAt(st: State, later: State, i: nat) {
    && i < |st.slots|
    && var s := st.slots[i];
    && later == st.(slots := st.slots[i := s.(watched := {}, tasks := s.tasks + [Disconnection])],
                    files := st.files - {s.fd}, regions := later.regions, reactor := Idle)
  }

  lemma CloseSteps(clients: nat, run: seq<Action>, st: State, i: nat, config: Frame.Config) returns (later: State)
    requires StateAfter(clients, run, config) == Some(st) && st.reactor == At(i, Closing) && i < |st.slots|
    requires st.slots[i].watched == {st.slots[i].fd}
    ensures StateAfter(clients, run + [React, React], config) == Some(later)
    ensures ClosedAt(st, later, i) && later.regions == st.regions
  {
    hide StateAfter;
    var s := st.slots[i];
    var closed := st.(slots := st.slots[i := s.(watched := {})], files := st.files - {s.fd},
      reactor := At(i, PushingDisconnection));
    Reacts(clients, run, config);
    assert {s.fd} - {s.fd} == {};
    assert Reaction(st) == closed;
    Reacts(clients, run + [React], config);
    later := Reaction(closed);
    assert run + [React, React] == run + [React] + [React];
    assert st.slots[i := s.(watched := {})][i := later.slots[i]] == st.slots[i := later.slots[i]];
  }

  lemma Closing1(st: State, i: nat)
    requires Control(st) && st.reactor.At? && st.reactor.slot == i && Handling(st.reactor.step)
    ensures i < |st.slots| && st.slots[i].fd >= 0 && st.slots[i].watched == {st.slots[i].fd}
  {
    hide SlotOk;
    HandlingIsOpen(i, st.slots[i], st.reactor.step);
    HandlingIsWatched(i, st.slots[i], st.reactor.step);
  }

  lemma HandlingIsWatched(i: nat, s: Slot, step: Step)
    requires SlotOk(i, s, Some(step)) && Handling(step) && s.fd >= 0
    ensures s.watched == {s.fd}
  {
    hide Grammar, OneWorker, Rest, Outstanding;
  }

  /** The reactor gives a buffer back. */
  lemma ReleasedIsFree(st: State, o: nat, p: nat)
    requires Buffers(st) && Held(st, o) > 0
    ensures IsLive(MemoryPool.Release(st.regions, o), p) <==> IsLive(st.regions, p) && p != o
  {
    hide Starts, Held, MemoryPool.Release;
    LiveIsStarts(st.regions, p);
    ReleaseGives(st.regions, |st.memory|, o, p);
    LiveIsStarts(MemoryPool.Release(st.regions, o), p);
    StartsOnce(st.regions, |st.memory|, p);
  }

  lemma LiveIsStarts(regions: seq<MemoryPool.Region>, o: nat)
    ensures IsLive(regions, o) <==> Starts(regions, o) > 0
  {
    hide Starts;
    if Starts(regions, o) > 0 { var k := StartsSome(regions, o); }
    if IsLive(regions, o) {
      var k :| 0 <= k < |regions| && regions[k].offset == o;
      StartsAt(regions, k);
    }
  }

  lemma ReaderHolds(st: State, o: nat)
    requires st.reactor.At? && st.reactor.step == Reading(o)
    ensures Held(st, o) > 0
  {
  }

  /** The end of the stream, or an error, while the reactor reads for slot `i`: three steps later the slot is
      closed, and the buffer is free again. */
  lemma EndCloses(clients: nat, run: seq<Action>, st: State, i: nat, o: nat, outcome: Outcome, config: Frame.Config)
    returns (later: State)
    requires StateAfter(clients, run, config) == Some(st) && st.reactor == At(i, Reading(o))
    requires outcome == EndOfStream || outcome == Failed
    ensures StateAfter(clients, run + [Read(outcome), React, React, React], config) == Some(later)
    ensures ClosedAt(st, later, i) && st.slots[i].fd in st.files && st.slots[i].fd !in later.files
    ensures forall p: nat :: IsLive(later.regions, p) <==> IsLive(st.regions, p) && p != o
  {
    hide StateAfter, Control, Buffers, Sockets, Integrity, QueueOk, Wakeup, MemoryPool.Release, IsLive, Held;
    EveryStateIsGood(clients, run, config);
    Closing1(st, i);
    OpenIsItsOwn(st, i);
    Goes(clients, run, Read(outcome), config);
    var r0, r1 := run + [Read(outcome)], run + [Read(outcome)] + [React];
    Reacts(clients, r0, config);
    var released := st.(regions := MemoryPool.Release(st.regions, o), reactor := At(i, Closing));
    assert st.slots[i := st.slots[i]] == st.slots;
    assert StateAfter(clients, r1, config) == Some(released);
    later := CloseSteps(clients, r1, released, i, config);
    assert run + [Read(outcome), React, React, React] == r1 + [React, React];
    ReaderHolds(st, o);
    forall p: nat ensures IsLive(later.regions, p) <==> IsLive(st.regions, p) && p != o { ReleasedIsFree(st, o, p); }
  }

  /** A hang-up that epoll reports for slot `i`: three steps later the slot is closed. */
  lemma HangUpCloses(clients: nat, run: seq<Action>, st: State, i: nat, socket: int, config: Frame.Config)
    returns (later: State)
    requires StateAfter(clients, run, config) == Some(st) && Enabled(st, HangUp(i, socket))
    ensures StateAfter(clients, run + [HangUp(i, socket), React, React], config) == Some(later)
    ensures ClosedAt(st, later, i) && later.regions == st.regions
    ensures st.slots[i].fd == socket && socket in st.files && socket !in later.files
  {
    hide StateAfter, Control, Buffers, Sockets, Integrity, QueueOk, Wakeup;
    EveryStateIsGood(clients, run, config);
    EventIsWatched(st, i, socket);
    OpenIsItsOwn(st, i);
    Goes(clients, run, HangUp(i, socket), config);
    later := CloseSteps(clients, run + [HangUp(i, socket)], st.(reactor := At(i, Closing)), i, config);
    assert run + [HangUp(i, socket), React, React] == run + [HangUp(i, socket)] + [React, React];
  }

  lemma EventIsWatched(st: State, i: nat, socket: int)
    requires Control(st) && st.reactor.Idle? && i < |st.slots| && socket in st.slots[i].watched
    ensures st.slots[i].fd == socket >= 0 && st.slots[i].watched == {socket} && Open(st.slots[i])
  {
    hide SlotOk;
    EventIsOpen(i, st.slots[i], socket, Closing);
    HandlingIsWatched(i, st.slots[i], Closing);
  }

  // ---------------------------------------------------------------- reading

  /** Data that epoll reports for slot `i`: a buffer is taken from the pool, the least that is free; if there
      is none, the slot is closed. */
  lemma ReadableReads(clients: nat, run: seq<Action>, st: State, i: nat, socket: int, config: Frame.Config)
    requires StateAfter(clients, run, config) == Some(st) && Enabled(st, Readable(i, socket))
    ensures var (regions, offset) := MemoryPool.Allocation(st.regions, |st.memory|, BUFFER_SIZE);
            match offset {
              case Some(o) => StateAfter(clients, run + [Readable(i, socket), React], config)
                           == Some(st.(regions := regions, reactor := At(i, Reading(o))))
              case None => exists later :: ClosedAt(st, later, i) && later.regions == st.regions &&
                             StateAfter(clients, run + [Readable(i, socket), React, React, React], config) == Some(later)
            }
  {
    hide StateAfter, Control, Buffers, Sockets, Integrity, QueueOk, Wakeup, MemoryPool.Allocation;
    EveryStateIsGood(clients, run, config);
    EventIsWatched(st, i, socket);
    Goes(clients, run, Readable(i, socket), config);
    var r0 := run + [Readable(i, socket)];
    Reacts(clients, r0, config);
    assert r0 + [React] == run + [Readable(i, socket), React];
    var (regions, offset) := MemoryPool.Allocation(st.regions, |st.memory|, BUFFER_SIZE);
    if offset.None? {
      var later := CloseSteps(clients, r0 + [React], st.(reactor := At(i, Closing)), i, config);
      assert r0 + [React] + [React, React] == run + [Readable(i, socket), React, React, React];
      assert ClosedAt(st, later, i);
    }
  }

  /** Bytes that were read go to the queue of the slot in the buffer they were read into, and count as read
      from its own client. */
  lemma BytesAreSubmitted(
    clients: nat, run: seq<Action>, st: State, i: nat, o: nat, chunk: ByteArray, config: Frame.Config)
    requires StateAfter(clients, run, config) == Some(st) && st.reactor == At(i, Reading(o))
    requires Enabled(st, Read(Got(chunk)))
    ensures st.slots[i].client < |st.received|
    ensures var s, memory := st.slots[i], Written(st.memory, o, chunk);
            && Content(memory, o, |chunk|) == chunk
            && StateAfter(clients, run + [Read(Got(chunk)), React], config)
            == Some(st.(slots := st.slots[i := s.(tasks := s.tasks + [Data(o, |chunk|)])], memory := memory,
                        received := st.received[s.client := st.received[s.client] + chunk], reactor := Idle))
  {
    hide StateAfter, Control, Buffers, Descriptors, Integrity, QueueOk, Wakeup, Content, Written;
    EveryStateIsGood(clients, run, config);
    Closing1(st, i);
    OpenIsItsOwn(st, i);
    ReadingFits(st);
    WrittenContent(st.memory, o, chunk);
    Goes(clients, run, Read(Got(chunk)), config);
    Reacts(clients, run + [Read(Got(chunk))], config);
    assert run + [Read(Got(chunk)), React] == run + [Read(Got(chunk))] + [React];
  }

  /** A read that would block leaves everything as it is, but for the buffer that is lost. */
  lemma BlockedReadLosesBuffer(clients: nat, run: seq<Action>, st: State, i: nat, o: nat, config: Frame.Config)
    requires StateAfter(clients, run, config) == Some(st) && st.reactor == At(i, Reading(o)) && i < |st.slots|
    ensures StateAfter(clients, run + [Read(WouldBlock)], config)
         == Some(st.(leaked := st.leaked + [o], reactor := Idle))
  {
    hide StateAfter;
    Goes(clients, run, Read(WouldBlock), config);
  }
}
