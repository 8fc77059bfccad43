/** Conservation of bytes: what was read from a slot's socket is what its callbacks have delivered and
    what is still on the way to them, whatever else shares the pool. */
module SlotBytes {
  import opened Bytes
  import opened RequestQueue
  import opened SlotBuffers
  import opened SlotControl
  import opened SlotProtocol
  import opened SlotSockets
  import opened Wrappers
  import Frame
  import MemoryPool

  // ---------------------------------------------------------------- bytes on the way

  function InTask(t: Task, memory: ByteArray): ByteArray {
    match t case Data(offset, size) => Content(memory, offset, size) case _ => []
  }

  function Queued(tasks: seq<Task>, memory: ByteArray): ByteArray {
    if tasks == [] then [] else InTask(tasks[0], memory) + Queued(tasks[1..], memory)
  }

  function BytesInHand(pc: PC, memory: ByteArray): ByteArray {
    match pc
    case Copying(_, offset, size) => Content(memory, offset, size)
    case Putting(_, _, bytes) => bytes
    case _ => []
  }

  function BytesAnnounced(mine: Option<Step>, memory: ByteArray): ByteArray {
    match mine case Some(Submitting(offset, size)) => Content(memory, offset, size) case _ => []
  }

  /** What the current session's callbacks have seen. */
  function Seen(s: Slot): ByteArray {
    if InSession(s.trace) || Worker(s).ClearingFd? then Delivered(s.trace) else []
  }

  function Total(s: Slot, mine: Option<Step>, memory: ByteArray): ByteArray {
    Seen(s) + BytesInHand(Worker(s), memory) + Queued(s.tasks, memory) + BytesAnnounced(mine, memory)
  }

  predicate Conserved(s: Slot, mine: Option<Step>, memory: ByteArray, received: seq<ByteArray>) {
    s.fd >= 0 ==> s.client < |received| && received[s.client] == Total(s, mine, memory)
  }

  /** No buffer is taken to hold more than its region. */
  predicate Sized(s: Slot, mine: Option<Step>) {
    && (forall k :: 0 <= k < |s.tasks| && s.tasks[k].Data? ==> s.tasks[k].size <= BUFFER_SIZE)
    && (forall k :: 0 <= k < |s.threads| && s.threads[k].Copying? ==> s.threads[k].size <= BUFFER_SIZE)
    && (mine.Some? && mine.value.Submitting? ==> mine.value.size <= BUFFER_SIZE)
  }

  ghost predicate Integrity(st: State) {
    forall i :: 0 <= i < |st.slots| ==>
                  Conserved(st.slots[i], Mine(st.reactor, i), st.memory, st.received)
                    && Sized(st.slots[i], Mine(st.reactor, i))
  }

  lemma IntegrityInitially(clients: nat)
    ensures Integrity(Initial(clients))
  {
  }

  // ---------------------------------------------------------------- queued bytes

  lemma {:induction false} QueuedAppend(tasks: seq<Task>, t: Task, memory: ByteArray)
    ensures Queued(tasks + [t], memory) == Queued(tasks, memory) + InTask(t, memory)
  {
    hide InTask;
    if tasks == [] {
      assert (tasks + [t])[1..] == [];
    } else {
      assert (tasks + [t])[1..] == tasks[1..] + [t];
      QueuedAppend(tasks[1..], t, memory);
      assert InTask(tasks[0], memory) + (Queued(tasks[1..], memory) + InTask(t, memory))
          == InTask(tasks[0], memory) + Queued(tasks[1..], memory) + InTask(t, memory);
    }
  }

  lemma Join4(a: ByteArray, b: ByteArray, c: ByteArray, d: ByteArray, e: ByteArray)
    ensures a + b + (c + d) + e == a + b + c + (d + e)
    ensures a + [] + (b + c) + d == a + b + c + d
    ensures a + b + [] == a + b && a + [] == a && [] + a == a
  {
  }

  // ---------------------------------------------------------------- a worker's step

  lemma TakeKeepsTotal(s: Slot, mine: Option<Step>, memory: ByteArray, t: Slot)
    requires Worker(s).AtWait? && s.tasks != [] && Worker(t) == Taken(s)
             && t == s.(tasks := s.tasks[1..], threads := t.threads)
    ensures Total(t, mine, memory) == Total(s, mine, memory)
  {
    hide Content, InSession, Delivered;
    assert Queued(s.tasks, memory) == InTask(s.tasks[0], memory) + Queued(s.tasks[1..], memory);
    assert BytesInHand(Taken(s), memory) == InTask(s.tasks[0], memory);
    Join4(Seen(s), InTask(s.tasks[0], memory), Queued(s.tasks[1..], memory), BytesAnnounced(mine, memory), []);
  }

  lemma DeliveredAppend(trace: seq<Callback>, c: Callback)
    ensures c.OnConnect? ==> Delivered(trace + [c]) == []
    ensures c.OnData? ==> Delivered(trace + [c]) == Delivered(trace) + c.bytes
    ensures c.OnDisconnect? ==> Delivered(trace + [c]) == Delivered(trace)
    ensures InSession(trace + [c]) <==> !c.OnDisconnect?
  {
    assert (trace + [c])[..|trace|] == trace;
  }

  lemma CallKeepsTotal(i: nat, s: Slot, mine: Option<Step>, memory: ByteArray, t: Slot)
    requires SlotOk(i, s, mine) && s.fd >= 0
             && (Worker(s).Connecting? || Worker(s).Putting? || Worker(s).Disconnecting?)
    requires t == Worked(s, Worker(s)).(threads := t.threads) && Worker(t) == NextPC(s, Worker(s), memory)
    ensures Total(t, mine, memory) == Total(s, mine, memory)
  {
    hide Content, Queued, Delivered, Grammar, OneWorker, InSession, BytesAnnounced;
    HandMatchesSession(i, s, mine);
    var pc := Worker(s);
    if pc.Connecting? {
      DeliveredAppend(s.trace, OnConnect(pc.id));
    } else if pc.Putting? {
      DeliveredAppend(s.trace, OnData(pc.id, pc.bytes));
      assert Seen(s) + pc.bytes + [] == Seen(s) + pc.bytes;
    } else {
      DeliveredAppend(s.trace, OnDisconnect(pc.id));
    }
  }

  /** A connection callback is made outside a session, the others inside one. */
  lemma HandMatchesSession(i: nat, s: Slot, mine: Option<Step>)
    requires SlotOk(i, s, mine) && s.fd >= 0 && InHand(Worker(s)) != []
    ensures InSession(s.trace) <==> !Worker(s).Connecting?
  {
    hide Grammar, OneWorker, InSession, Tail;
    var items := Outstanding(s, mine);
    if InSession(s.trace) { TailStarts(items); }
  }

  lemma WorkKeepsTotal(i: nat, s: Slot, mine: Option<Step>, k: nat, memory: ByteArray)
    requires SlotOk(i, s, mine) && s.fd >= 0 && k < |s.threads| && s.threads[k] != Finished && !Worker(s).ClearingFd?
    ensures WorkedSlot(s, k, memory).fd == s.fd
    ensures Total(WorkedSlot(s, k, memory), mine, memory) == Total(s, mine, memory)
  {
    hide Content, Queued, Delivered, Grammar, Occupied;
    MovedWorker(s, k, memory);
    var t := WorkedSlot(s, k, memory);
    hide WorkedSlot, OneWorker;
    match Worker(s) {
      case AtWait => if s.tasks != [] { TakeKeepsTotal(s, mine, memory, t); }
      case Connecting(_) => CallKeepsTotal(i, s, mine, memory, t);
      case Putting(_, _, _) => CallKeepsTotal(i, s, mine, memory, t);
      case Disconnecting(_) => CallKeepsTotal(i, s, mine, memory, t);
      case ClearingIdx => NotOnItsWayOut(i, s, mine);
      case Stopping => NotOnItsWayOut(i, s, mine);
      case _ =>
    }
  }

  lemma NotOnItsWayOut(i: nat, s: Slot, mine: Option<Step>)
    requires SlotOk(i, s, mine) && s.fd >= 0
    ensures !Worker(s).ClearingIdx? && !Worker(s).Stopping?
  {
    hide Grammar, OneWorker, Outstanding;
  }

  lemma WorkKeepsSized(s: Slot, mine: Option<Step>, k: nat, memory: ByteArray)
    requires Sized(s, mine) && k < |s.threads|
    ensures Sized(WorkedSlot(s, k, memory), mine)
  {
  }

  lemma IntegrityWork(st: State, i: nat, k: nat)
    requires Control(st) && Integrity(st) && Live(st, i, k)
    ensures Integrity(Work1(st, i, k))
  {
    hide SlotOk, Total, Sized, WorkedSlot, QueueAfterWork, OutsAfterWork, MemoryPool.Release;
    var s, mine, next := st.slots[i], Mine(st.reactor, i), Work1(st, i, k);
    WorkKeepsSized(s, mine, k, st.memory);
    WorkMovesFd(i, s, mine, k, st.memory);
    if s.fd >= 0 && next.slots[i].fd >= 0 {
      WorkKeepsTotal(i, s, mine, k, st.memory);
      WorkKeepsSocket(i, s, mine, k, st.memory);
    }
  }

  lemma WorkMovesFd(i: nat, s: Slot, mine: Option<Step>, k: nat, memory: ByteArray)
    requires SlotOk(i, s, mine) && k < |s.threads| && s.threads[k] != Finished
    ensures var t := WorkedSlot(s, k, memory); t.fd == if Worker(s).ClearingFd? then -1 else s.fd
  {
    hide Grammar, Occupied, Vacant;
    MovedWorker(s, k, memory);
  }

  // ---------------------------------------------------------------- a reactor's step

  lemma PushKeepsTotal(s: Slot, mine: Option<Step>, t: Task, memory: ByteArray)
    requires BytesAnnounced(mine, memory) == InTask(t, memory)
    ensures Total(s.(tasks := s.tasks + [t]), None, memory) == Total(s, mine, memory)
  {
    hide InTask, Queued, Delivered, InSession, BytesInHand;
    QueuedAppend(s.tasks, t, memory);
    Join4(Seen(s), BytesInHand(Worker(s), memory), Queued(s.tasks, memory), InTask(t, memory), []);
  }

  lemma ReactKeepsTotal(i: nat, s: Slot, step: Step, memory: ByteArray)
    requires SlotOk(i, s, Some(step)) && s.fd >= 0 && !step.Allocating? && !step.Reading?
    ensures Reacted(s, i, step).fd == s.fd && Reacted(s, i, step).client == s.client
    ensures Total(Reacted(s, i, step), Mine(NextStep(i, step), i), memory) == Total(s, Some(step), memory)
  {
    hide Content, Queued, Seen, SlotOk;
    NeverThere(i, s, step);
    match step
    case PushingConnection => PushKeepsTotal(s, Some(step), Connection, memory);
    case Submitting(o, n) => PushKeepsTotal(s, Some(step), Data(o, n), memory);
    case PushingDisconnection => PushKeepsTotal(s, Some(step), Disconnection, memory);
    case _ => ReactKeepsSeen(i, s, step);
  }

  lemma ReactKeepsSeen(i: nat, s: Slot, step: Step)
    requires SlotOk(i, s, Some(step)) && s.fd >= 0
    ensures Seen(Reacted(s, i, step)) == Seen(s)
    ensures forall memory :: BytesInHand(Worker(Reacted(s, i, step)), memory) == BytesInHand(Worker(s), memory)
  {
    hide Delivered, Grammar, InSession, Outstanding;
  }

  /** A slot starts its session with nothing read. */
  lemma StartsEmpty(i: nat, s: Slot, socket: Socket, memory: ByteArray)
    requires SlotOk(i, s, Some(StoringFd(socket))) && s.fd == -1
    ensures Total(s.(fd := socket.fd, client := socket.client), Some(StoringIdx), memory) == []
  {
    hide Grammar;
  }

  lemma ReactKeepsSized(s: Slot, i: nat, step: Step)
    requires Sized(s, Some(step))
    ensures Sized(Reacted(s, i, step), Mine(NextStep(i, step), i))
  {
  }

  lemma VacantStays(i: nat, s: Slot, step: Step)
    requires SlotOk(i, s, Some(step)) && s.fd == -1
    ensures step.Joining? || step.StoringFd?
  {
    hide Grammar, OneWorker;
  }

  lemma IntegrityReact(st: State)
    requires Control(st) && Clients(st) && Integrity(st) && ReactorCanMove(st) && st.reactor.At?
             && !st.reactor.step.Allocating?
    ensures Integrity(Reaction(st))
  {
    hide SlotOk, Total, Sized, MemoryPool.Release;
    var i, step, next := st.reactor.slot, st.reactor.step, Reaction(st);
    var s := st.slots[i];
    ReactKeepsSized(s, i, step);
    FdIsSocket(i, s, Some(step));
    if s.fd == -1 {
      VacantStays(i, s, step);
      if step.StoringFd? { StartsEmpty(i, s, step.socket, st.memory); }
    } else {
      ReactKeepsTotal(i, s, step, st.memory);
      NeverThere(i, s, step);
    }
  }

  lemma WatchKeepsTotal(s: Slot, w: set<int>, memory: ByteArray, mine: Option<Step>)
    requires mine.None? || mine.value.Joining? || mine.value.Reading? || mine.value.Closing? || mine.value.Allocating?
    ensures Total(s.(watched := w), mine, memory) == Total(s, None, memory)
    ensures Sized(s, None) ==> Sized(s.(watched := w), mine)
  {
  }

  lemma IntegrityScan(st: State)
    requires Control(st) && Integrity(st) && st.reactor.Scanning?
    ensures Integrity(Scanned(st))
  {
    hide SlotOk, Total, Sized;
    var i := st.reactor.next;
    if i < |st.slots| && st.slots[i].fd == -1 {
      WatchKeepsTotal(st.slots[i], st.slots[i].watched + {st.reactor.socket.fd as int}, st.memory,
        Some(Joining(st.reactor.socket)));
    }
  }

  /** Turning to a step that announces nothing. */
  lemma IntegrityTurns(st: State, next: State)
    requires Control(st) && Integrity(st) && next.slots == st.slots && next.memory == st.memory
             && next.received == st.received
    requires st.reactor == Idle || (st.reactor.At? && (st.reactor.step.Allocating? || st.reactor.step.Reading?))
    requires match next.reactor {
               case At(i, step) => step.Reading? || step.Closing? || step.Allocating? || step.Releasing?
               case Idle => true
               case Scanning(_, _) => false
             }
    ensures Integrity(next)
  {
    hide SlotOk;
    forall i | 0 <= i < |st.slots|
      ensures Conserved(st.slots[i], Mine(next.reactor, i), st.memory, st.received)
              && Sized(st.slots[i], Mine(next.reactor, i))
    {
      assert Conserved(st.slots[i], Mine(st.reactor, i), st.memory, st.received);
      QuietTotal(st.slots[i], Mine(st.reactor, i), Mine(next.reactor, i), st.memory);
    }
  }

  predicate Quiet(mine: Option<Step>) {
    mine.None? || !mine.value.Submitting?
  }

  lemma QuietTotal(s: Slot, mine: Option<Step>, other: Option<Step>, memory: ByteArray)
    requires Quiet(mine) && Quiet(other)
    ensures Total(s, mine, memory) == Total(s, other, memory) && Sized(s, mine) == Sized(s, other)
  {
    hide Queued, Seen;
  }

  // ---------------------------------------------------------------- a read

  lemma WrittenContent(memory: ByteArray, p: nat, chunk: ByteArray)
    requires p + |chunk| <= |memory|
    ensures Content(Written(memory, p, chunk), p, |chunk|) == chunk
  {
  }

  lemma OtherContent(memory: ByteArray, p: nat, chunk: ByteArray, o: nat, n: nat)
    requires |chunk| <= BUFFER_SIZE && n <= BUFFER_SIZE && (p + BUFFER_SIZE <= o || o + BUFFER_SIZE <= p)
    ensures Content(Written(memory, p, chunk), o, n) == Content(memory, o, n)
  {
  }

  /** The region the reactor reads into is nobody else's. */
  lemma NotOurs(st: State, h: Holder, o: nat)
    requires Buffers(st) && st.reactor.At? && st.reactor.step.Reading? && h != TheReactor && Holds(st, h, o)
    ensures var p := st.reactor.step.offset;
            p + BUFFER_SIZE <= |st.memory| && (p + BUFFER_SIZE <= o || o + BUFFER_SIZE <= p)
  {
    hide Starts, Held;
    var p := st.reactor.step.offset;
    assert Holds(st, TheReactor, p);
    HolderCounts(st, TheReactor, p);
    HolderCounts(st, h, o);
    StartsOnce(st.regions, |st.memory|, p);
    if o == p { TwoHoldersCountTwice(st, h, TheReactor, o); }
    RegionsApart(st.regions, |st.memory|, p, o);
    RegionFits(st.regions, |st.memory|, p);
  }

  lemma ReadingFits(st: State)
    requires Buffers(st) && st.reactor.At? && st.reactor.step.Reading?
    ensures st.reactor.step.offset + BUFFER_SIZE <= |st.memory|
  {
    hide Starts, Held;
    HolderCounts(st, TheReactor, st.reactor.step.offset);
    RegionFits(st.regions, |st.memory|, st.reactor.step.offset);
  }

  lemma {:induction false} QueuedElsewhere(st: State, i: nat, chunk: ByteArray, k: nat)
    requires Buffers(st) && st.reactor.At? && st.reactor.step.Reading? && |chunk| <= BUFFER_SIZE
    requires i < |st.slots| && Sized(st.slots[i], Mine(st.reactor, i)) && k <= |st.slots[i].tasks|
    ensures Queued(st.slots[i].tasks[k..], Written(st.memory, st.reactor.step.offset, chunk))
         == Queued(st.slots[i].tasks[k..], st.memory)
    decreases |st.slots[i].tasks| - k
  {
    hide Buffers, Content, Written, Holds;
    var tasks := st.slots[i].tasks;
    if k < |tasks| {
      QueuedElsewhere(st, i, chunk, k + 1);
      assert tasks[k..][1..] == tasks[k + 1..];
      if tasks[k].Data? {
        assert Holds(st, InQueue(i, k), tasks[k].offset) by { TaskHolds(st, i, k); }
        NotOurs(st, InQueue(i, k), tasks[k].offset);
        OtherContent(st.memory, st.reactor.step.offset, chunk, tasks[k].offset, tasks[k].size);
      }
    }
  }

  lemma TaskHolds(st: State, i: nat, k: nat)
    requires i < |st.slots| && k < |st.slots[i].tasks| && st.slots[i].tasks[k].Data?
    ensures Holds(st, InQueue(i, k), st.slots[i].tasks[k].offset)
  {
  }

  lemma HandElsewhere(st: State, i: nat, chunk: ByteArray)
    requires Buffers(st) && st.reactor.At? && st.reactor.step.Reading? && |chunk| <= BUFFER_SIZE
    requires i < |st.slots| && Sized(st.slots[i], Mine(st.reactor, i))
    ensures BytesInHand(Worker(st.slots[i]), Written(st.memory, st.reactor.step.offset, chunk))
         == BytesInHand(Worker(st.slots[i]), st.memory)
  {
    hide Buffers, Content, Written;
    var s := st.slots[i];
    if Worker(s).Copying? {
      var k, o := |s.threads| - 1, Worker(s).offset;
      assert Holds(st, InWorker(i, k), o);
      NotOurs(st, InWorker(i, k), o);
      OtherContent(st.memory, st.reactor.step.offset, chunk, o, Worker(s).size);
    }
  }

  lemma TotalElsewhere(st: State, i: nat, chunk: ByteArray)
    requires Buffers(st) && st.reactor.At? && st.reactor.step.Reading? && |chunk| <= BUFFER_SIZE
    requires i < |st.slots| && Sized(st.slots[i], Mine(st.reactor, i))
    ensures Total(st.slots[i], None, Written(st.memory, st.reactor.step.offset, chunk))
            == Total(st.slots[i], None, st.memory)
  {
    hide Buffers, Content, Written, Sized, Queued, Seen;
    QueuedElsewhere(st, i, chunk, 0);
    assert st.slots[i].tasks[0..] == st.slots[i].tasks;
    HandElsewhere(st, i, chunk);
  }

  lemma TotalReads(s: Slot, memory: ByteArray, p: nat, chunk: ByteArray, before: ByteArray)
    requires p + |chunk| <= |memory| && Total(s, None, Written(memory, p, chunk)) == before
    ensures Total(s, Some(Submitting(p, |chunk|)), Written(memory, p, chunk)) == before + chunk
  {
    hide Content, Written, Queued, Seen;
    WrittenContent(memory, p, chunk);
    var m := Written(memory, p, chunk);
    var seen := Seen(s) + BytesInHand(Worker(s), m) + Queued(s.tasks, m);
    assert seen + [] == seen;
  }

  lemma IntegrityRead(st: State, outcome: Outcome)
    requires Control(st) && Sockets(st) && Integrity(st) && Buffers(st) && Enabled(st, Read(outcome)) && outcome.Got?
    ensures Integrity(ReadDone(st, outcome))
  {
    hide SlotOk, Total, Sized, Written, Buffers, Open, Descriptors, ClientOf;
    var j, p, chunk, next := st.reactor.slot, st.reactor.step.offset, outcome.chunk, ReadDone(st, outcome);
    ReadingIsOpen(j, st.slots[j], st.reactor.step);
    OpenIsItsOwn(st, j);
    ReadingFits(st);
    forall i | 0 <= i < |st.slots|
      ensures Conserved(st.slots[i], Mine(next.reactor, i), next.memory, next.received)
              && Sized(st.slots[i], Mine(next.reactor, i))
    {
      assert Conserved(st.slots[i], Mine(st.reactor, i), st.memory, st.received)
             && Sized(st.slots[i], Mine(st.reactor, i));
      TotalElsewhere(st, i, chunk);
      QuietTotal(st.slots[i], Mine(st.reactor, i), None, st.memory);
      if i == j {
        TotalReads(st.slots[i], st.memory, p, chunk, Total(st.slots[i], None, st.memory));
        SubmittingSized(st.slots[i], Some(st.reactor.step), p, |chunk|);
      }
    }
  }

  /** The reactor reads from a descriptor it has not closed. */
  lemma ReadingIsOpen(i: nat, s: Slot, step: Step)
    requires SlotOk(i, s, Some(step)) && step.Reading?
    ensures s.fd >= 0 && Open(s)
  {
    hide Grammar, OneWorker, Rest, Outstanding;
  }

  lemma SubmittingSized(s: Slot, mine: Option<Step>, p: nat, n: nat)
    requires Sized(s, mine) && n <= BUFFER_SIZE
    ensures Sized(s, Some(Submitting(p, n)))
  {
  }

  // ---------------------------------------------------------------- every step

  lemma IntegrityAccept(st: State, next: State, fd: nat, config: Frame.Config)
    requires Control(st) && Integrity(st) && Enabled(st, Accept(fd)) && next == Next(st, Accept(fd), config)
    ensures Integrity(next)
  {
    hide SlotOk, Total, Sized;
    forall i | 0 <= i < |st.slots|
      ensures Conserved(st.slots[i], None, st.memory, next.received) && Sized(st.slots[i], None)
    {
      assert Conserved(st.slots[i], Mine(st.reactor, i), st.memory, st.received);
    }
  }

  lemma IntegrityStep(st: State, a: Action, config: Frame.Config)
    requires Control(st) && Buffers(st) && Sockets(st) && Integrity(st) && Enabled(st, a)
    ensures Integrity(Next(st, a, config))
  {
    hide Control, Buffers, Clients, Descriptors, Integrity, Work1, Scanned, CheckAll, ProcessAll, AddOuts,
      MemoryPool.Allocation;
    match a
    case Work(i, k) => IntegrityWork(st, i, k);
    case Accept(fd) => IntegrityAccept(st, Next(st, a, config), fd, config);
    case Readable(_, _) => IntegrityTurns(st, Next(st, a, config));
    case HangUp(_, _) => IntegrityTurns(st, Next(st, a, config));
    case Read(outcome) => if outcome.Got? { IntegrityRead(st, outcome); }
      else { IntegrityTurns(st, ReadDone(st, outcome)); }
    case React =>
      if st.reactor.Scanning? { IntegrityScan(st); }
      else if st.reactor.step.Allocating? { IntegrityTurns(st, Reaction(st)); }
      else { IntegrityReact(st); }
    case Serve(sent) => IntegritySame(st, Next(st, a, config));
  }

  lemma IntegritySame(st: State, next: State)
    requires Integrity(st) && next.slots == st.slots && next.memory == st.memory
    requires next.received == st.received && next.reactor == st.reactor
    ensures Integrity(next)
  {
  }
}
