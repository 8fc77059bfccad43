/** The threads behind a listening socket as one transition system: the reactor and the per-slot
    workers of src/utils/ServerSocket.cpp, and the request thread of src/WebSocketServer.cpp that the
    workers feed. A step is one atomic action of one thread; any thread may move next.

    Runs are those before shutdown. A timed wait may wake at any time. What `accept`, `epoll_wait` and
    `read` report is arbitrary, except that `accept` returns a descriptor that is not open and that only
    registered descriptors are reported. */
module SlotProtocol {
  import opened Bytes
  import opened RequestQueue
  import opened Wrappers
  import Frame
  import MemoryPool
  import WebSocketServer

  const BUFFER_SIZE := 1024

  // ---------------------------------------------------------------- one slot

  /** An element of `m_args_queue`; a buffer is the offset of its region in the pool. */
  datatype Task = Connection | Data(offset: nat, size: nat) | Disconnection

  datatype Callback = OnConnect(id: int) | OnData(id: int, bytes: ByteArray) | OnDisconnect(id: int)

  /** Where a worker is in `processTask`. `id` is the index it read when it took its task. */
  datatype PC =
    | AtCheck
    | AtWait
    | Connecting(id: int)
    | Copying(id: int, offset: nat, size: nat)
    | Putting(id: int, offset: nat, bytes: ByteArray)
    | Signalling(offset: nat)
    | Freeing(offset: nat)
    | Disconnecting(id: int)
    | ClearingFd
    | ClearingIdx
    | Stopping
    | Finished

  /** `class Connection`. `threads` are all the workers it ever started; `m_process_thread` is the last
      one while `joinable`. The other fields are not the object's: `client` is the accept its descriptor came
      from, `watched` are the descriptors epoll reports under its index, `trace` the callbacks its workers
      have made. */
  datatype Slot = Slot(
    fd: int,
    client: nat,
    idx: int,
    running: bool,
    joinable: bool,
    tasks: seq<Task>,
    threads: seq<PC>,
    watched: set<int>,
    trace: seq<Callback>)

  const FREE_SLOT := Slot(-1, 0, -1, false, false, [], [], {}, [])

  // ---------------------------------------------------------------- the reactor and the request thread

  /** An accepted socket: the descriptor `accept` returned, and how many accepts there had been before. A
      descriptor that is closed may be returned again. */
  datatype Socket = Socket(fd: nat, client: nat)

  /** What the reactor is about to do for one slot: the rest of `AcceptClient` and `Assign`, of
      `HandleRead`, of closing. */
  datatype Step =
    | Joining(socket: Socket)
    | StoringFd(socket: Socket)
    | StoringIdx
    | StoringRunning
    | Spawning
    | PushingConnection
    | Allocating
    | Reading(offset: nat)
    | Submitting(offset: nat, size: nat)
    | Releasing(offset: nat)
    | Closing
    | PushingDisconnection

  datatype Reactor = Idle | Scanning(socket: Socket, next: nat) | At(slot: nat, step: Step)

  datatype Dispatcher = Looking | Waiting | Checking | Processing

  /** `files` are the descriptors that are open, each with the accept it came from; `received` is what was
      read from the socket of each accept. */
  datatype State = State(
    slots: seq<Slot>,
    reactor: Reactor,
    files: map<int, nat>,
    regions: seq<MemoryPool.Region>,
    memory: ByteArray,
    leaked: seq<nat>,
    received: seq<ByteArray>,
    queue: Queue,
    pendingSignal: bool,
    dispatcher: Dispatcher,
    outs: seq<seq<Message>>)

  function Initial(clients: nat): State {
    State(
      seq(clients, _ => FREE_SLOT), Idle, map[], [], seq(clients * BUFFER_SIZE * 2, _ => 0), [], [], [], false, Looking,
      seq(clients, _ => []))
  }

  // ---------------------------------------------------------------- actions

  /** What `read` reports. */
  datatype Outcome = Got(chunk: ByteArray) | EndOfStream | WouldBlock | Failed

  datatype Action =
    | Accept(fd: nat)
    | Readable(slot: nat, socket: int)
    | HangUp(slot: nat, socket: int)
    | Read(outcome: Outcome)
    | React
    | Work(slot: nat, thread: nat)
    | Serve(sent: set<int>)

  predicate Live(st: State, slot: nat, thread: nat) {
    slot < |st.slots| && thread < |st.slots[slot].threads| && st.slots[slot].threads[thread] != Finished
  }

  /** The worker `m_process_thread` stands for. */
  function Worker(s: Slot): PC {
    if s.joinable && |s.threads| > 0 then s.threads[|s.threads| - 1] else Finished
  }

  predicate ReactorCanMove(st: State) {
    match st.reactor
    case Idle => false
    case Scanning(_, _) => true
    case At(i, step) => i < |st.slots| && !step.Reading? && (step.Joining? ==> Worker(st.slots[i]) == Finished)
  }

  predicate Enabled(st: State, a: Action) {
    match a
    case Accept(fd) => st.reactor.Idle? && fd !in st.files
    case Readable(i, socket) => st.reactor.Idle? && i < |st.slots| && socket in st.slots[i].watched
    case HangUp(i, socket) => st.reactor.Idle? && i < |st.slots| && socket in st.slots[i].watched
    case Read(outcome) =>
      && st.reactor.At? && st.reactor.step.Reading? && st.reactor.slot < |st.slots|
      && (outcome.Got? ==> 1 <= |outcome.chunk| <= BUFFER_SIZE)
    case React => ReactorCanMove(st)
    case Work(i, k) => Live(st, i, k)
    case Serve(_) =>
      && (st.dispatcher.Waiting? ==> st.pendingSignal)
      && (st.dispatcher.Checking? ==> WebSocketServer.AllParsable(st.queue))
  }

  // ---------------------------------------------------------------- the reactor's effects

  /** What a reactor step does to its slot. */
  function Reacted(s: Slot, i: nat, step: Step): Slot {
    match step
    case Joining(_) => s.(joinable := false)
    case StoringFd(socket) => s.(fd := socket.fd, client := socket.client)
    case StoringIdx => s.(idx := i)
    case StoringRunning => s.(running := true)
    case Spawning => s.(threads := s.threads + [AtCheck], joinable := true)
    case PushingConnection => s.(tasks := s.tasks + [Connection])
    case Submitting(offset, size) => s.(tasks := s.tasks + [Data(offset, size)])
    case Closing => s.(watched := s.watched - {s.fd})
    case PushingDisconnection => s.(tasks := s.tasks + [Disconnection])
    case Allocating => s
    case Reading(_) => s
    case Releasing(_) => s
  }

  function NextStep(i: nat, step: Step): Reactor {
    match step
    case Joining(socket) => At(i, StoringFd(socket))
    case StoringFd(_) => At(i, StoringIdx)
    case StoringIdx => At(i, StoringRunning)
    case StoringRunning => At(i, Spawning)
    case Spawning => At(i, PushingConnection)
    case Releasing(_) => At(i, Closing)
    case Closing => At(i, PushingDisconnection)
    case PushingConnection => Idle
    case Submitting(_, _) => Idle
    case PushingDisconnection => Idle
    case Allocating => At(i, Closing)
    case Reading(_) => At(i, Closing)
  }

  /** One turn of the loop of `FindFreeConnection`, and the registration that follows it. */
  function Scanned(st: State): State
    requires st.reactor.Scanning?
  {
    var (socket, i) := (st.reactor.socket, st.reactor.next);
    if i >= |st.slots| then st.(reactor := Idle, files := st.files - {socket.fd})
    else if st.slots[i].fd == -1 then
      st.(slots := st.slots[i := st.slots[i].(watched := st.slots[i].watched + {socket.fd})],
        reactor := At(i, Joining(socket)))
    else st.(reactor := Scanning(socket, i + 1))
  }

  /** An exhausted pool closes the slot. The source then also stops the reactor after its current batch
      of events; here it may go on, which only adds runs. */
  function Allocated(st: State): State
    requires st.reactor.At?
  {
    var (regions, offset) := MemoryPool.Allocation(st.regions, |st.memory|, BUFFER_SIZE);
    match offset
    case Some(o) => st.(regions := regions, reactor := At(st.reactor.slot, Reading(o)))
    case None => st.(reactor := At(st.reactor.slot, Closing))
  }

  function Written(memory: ByteArray, offset: nat, chunk: ByteArray): ByteArray {
    if offset + |chunk| <= |memory| then memory[..offset] + chunk + memory[offset + |chunk|..] else memory
  }

  /** The accept whose socket a descriptor stands for. */
  function ClientOf(files: map<int, nat>, fd: int): Option<nat> {
    if fd in files then Some(files[fd]) else None
  }

  function AddReceived(received: seq<ByteArray>, client: Option<nat>, chunk: ByteArray): seq<ByteArray> {
    if client.Some? && client.value < |received| then received[client.value := received[client.value] + chunk]
      else received
  }

  function ReadDone(st: State, outcome: Outcome): State
    requires st.reactor.At? && st.reactor.step.Reading? && st.reactor.slot < |st.slots|
  {
    var (i, o) := (st.reactor.slot, st.reactor.step.offset);
    match outcome
    case Got(chunk) =>
      st.(memory := Written(st.memory, o, chunk),
          received := AddReceived(st.received, ClientOf(st.files, st.slots[i].fd), chunk),
          reactor := At(i, Submitting(o, |chunk|)))
    case EndOfStream => st.(reactor := At(i, Releasing(o)))
    case Failed => st.(reactor := At(i, Releasing(o)))
    case WouldBlock => st.(leaked := st.leaked + [o], reactor := Idle)
  }

  function Reaction(st: State): State
    requires ReactorCanMove(st)
  {
    match st.reactor
    case Idle => st
    case Scanning(_, _) => Scanned(st)
    case At(i, step) =>
      if step.Allocating? then Allocated(st)
      else
        var regions := if step.Releasing? then MemoryPool.Release(st.regions, step.offset) else st.regions;
        var files := if step.Closing? then st.files - {st.slots[i].fd} else st.files;
        st.(slots := st.slots[i := Reacted(st.slots[i], i, step)], reactor := NextStep(i, step), regions := regions,
          files := files)
  }

  // ---------------------------------------------------------------- the workers' effects

  function Content(memory: ByteArray, offset: nat, size: nat): ByteArray {
    if offset + size <= |memory| then memory[offset..offset + size] else []
  }

  function Taken(s: Slot): PC
    requires |s.tasks| > 0
  {
    match s.tasks[0]
    case Connection => Connecting(s.idx)
    case Data(offset, size) => Copying(s.idx, offset, size)
    case Disconnection => Disconnecting(s.idx)
  }

  function NextPC(s: Slot, pc: PC, memory: ByteArray): PC {
    match pc
    case AtCheck => if s.running then AtWait else Finished
    case AtWait => if s.tasks == [] then AtCheck else Taken(s)
    case Connecting(_) => AtCheck
    case Copying(id, offset, size) => Putting(id, offset, Content(memory, offset, size))
    case Putting(_, offset, _) => Signalling(offset)
    case Signalling(offset) => Freeing(offset)
    case Freeing(_) => AtCheck
    case Disconnecting(_) => ClearingFd
    case ClearingFd => ClearingIdx
    case ClearingIdx => Stopping
    case Stopping => Finished
    case Finished => Finished
  }

  /** What a worker's step does to its slot, its own position apart. */
  function Worked(s: Slot, pc: PC): Slot {
    match pc
    case AtWait => if s.tasks == [] then s else s.(tasks := s.tasks[1..])
    case Connecting(id) => s.(trace := s.trace + [OnConnect(id)])
    case Putting(id, _, bytes) => s.(trace := s.trace + [OnData(id, bytes)])
    case Disconnecting(id) => s.(trace := s.trace + [OnDisconnect(id)])
    case ClearingFd => s.(fd := -1)
    case ClearingIdx => s.(idx := -1)
    case Stopping => s.(running := false)
    case AtCheck => s
    case Copying(_, _, _) => s
    case Signalling(_) => s
    case Freeing(_) => s
    case Finished => s
  }

  function WorkedSlot(s: Slot, k: nat, memory: ByteArray): Slot
    requires k < |s.threads|
  {
    var pc := s.threads[k];
    Worked(s, pc).(threads := s.threads[k := NextPC(s, pc, memory)])
  }

  /** The callbacks run against the request queue: `ClientConnected`, `DataReady`, `ClientDisconnected`. */
  function QueueAfterWork(q: Queue, pc: PC): Queue {
    match pc
    case Connecting(id) => Init(q, id)
    case Putting(id, _, bytes) => Put(q, id, bytes)
    case Disconnecting(id) => Remove(q, id)
    case _ => q
  }

  function OutsAfterWork(outs: seq<seq<Message>>, pc: PC): seq<seq<Message>> {
    if pc.Disconnecting? && 0 <= pc.id < |outs| then outs[pc.id := []] else outs
  }

  function Work1(st: State, i: nat, k: nat): State
    requires Live(st, i, k)
  {
    var s := st.slots[i];
    var pc := s.threads[k];
    st.(slots := st.slots[i := WorkedSlot(s, k, st.memory)],
        queue := QueueAfterWork(st.queue, pc),
        outs := OutsAfterWork(st.outs, pc),
        pendingSignal := st.pendingSignal || pc.Signalling?,
        regions := if pc.Freeing? then MemoryPool.Release(st.regions, pc.offset) else st.regions)
  }

  // ---------------------------------------------------------------- the request thread's effects

  function AddOuts(outs: seq<seq<Message>>, log: seq<Dispatch>): (r: seq<seq<Message>>)
    ensures |r| == |outs|
  {
    seq(|outs|, i requires 0 <= i < |outs| => outs[i] + OfConnection(log, i))
  }

  ghost function Served(st: State, sent: set<int>, config: Frame.Config): State {
    match st.dispatcher
    case Looking => st.(dispatcher := if HasData(st.queue) then Checking else Waiting)
    case Waiting => st.(pendingSignal := false, dispatcher := Checking)
    case Checking =>
      var next := if AnyNews(st.queue, config) then Processing else Looking;
      st.(queue := CheckAll(st.queue, config), dispatcher := next)
    case Processing =>
      st.(queue := ProcessAll(st.queue, sent), outs := AddOuts(st.outs, DispatchAll(st.queue)), dispatcher := Looking)
  }

  // ---------------------------------------------------------------- steps and runs

  ghost function Next(st: State, a: Action, config: Frame.Config): State
    requires Enabled(st, a)
  {
    match a
    case Accept(fd) =>
      var client := |st.received|;
      st.(received := st.received + [[]], files := st.files[fd := client], reactor := Scanning(Socket(fd, client), 0))
    case Readable(i, _) => st.(reactor := At(i, Allocating))
    case HangUp(i, _) => st.(reactor := At(i, Closing))
    case Read(outcome) => ReadDone(st, outcome)
    case React => Reaction(st)
    case Work(i, k) => Work1(st, i, k)
    case Serve(sent) => Served(st, sent, config)
  }

  /** The state a run leads to from an idle server with that many slots; `None` if it is not a run. */
  ghost function StateAfter(clients: nat, run: seq<Action>, config: Frame.Config): Option<State> {
    if run == [] then Some(Initial(clients))
    else
      match StateAfter(clients, run[..|run| - 1], config)
      case None => None
      case Some(before) =>
        var a := run[|run| - 1];
        if Enabled(before, a) then Some(Next(before, a, config)) else None
  }
}
