/** Who may touch a slot when: the invariant of one slot of `SlotProtocol`, kept by every step. */
module SlotControl {
  import opened Bytes
  import opened SlotProtocol
  import opened Wrappers
  import Frame
  import MemoryPool
  import opened RequestQueue

  // ---------------------------------------------------------------- callbacks, in order

  predicate InSession(trace: seq<Callback>) {
    trace != [] && !trace[|trace| - 1].OnDisconnect?
  }

  /** The trace is a prefix of (connect data* disconnect)*, and every callback carries the index `i`. */
  predicate Grammar(trace: seq<Callback>, i: int) {
    trace == [] ||
    var before, last := trace[..|trace| - 1], trace[|trace| - 1];
    Grammar(before, i) && last.id == i && (last.OnConnect? <==> !InSession(before))
  }

  /** The bytes handed to `OnData` since the last `OnConnect`. */
  function Delivered(trace: seq<Callback>): ByteArray {
    if trace == [] then []
    else
      var before, last := trace[..|trace| - 1], trace[|trace| - 1];
      match last
      case OnConnect(_) => []
      case OnData(_, bytes) => Delivered(before) + bytes
      case OnDisconnect(_) => Delivered(before)
  }

  // ---------------------------------------------------------------- callbacks still to come

  datatype Kind = KConnect | KData | KDisconnect

  function KindOf(t: Task): Kind {
    match t case Connection => KConnect case Data(_, _) => KData case Disconnection => KDisconnect
  }

  function Kinds(tasks: seq<Task>): (r: seq<Kind>)
    ensures |r| == |tasks|
  {
    seq(|tasks|, k requires 0 <= k < |tasks| => KindOf(tasks[k]))
  }

  /** What the worker has taken but not called back yet. */
  function InHand(pc: PC): seq<Kind> {
    match pc
    case Connecting(_) => [KConnect]
    case Copying(_, _, _) => [KData]
    case Putting(_, _, _) => [KData]
    case Disconnecting(_) => [KDisconnect]
    case _ => []
  }

  /** What the reactor is going to push. */
  function Announced(mine: Option<Step>): seq<Kind> {
    match mine
    case None => []
    case Some(StoringIdx) => [KConnect]
    case Some(StoringRunning) => [KConnect]
    case Some(Spawning) => [KConnect]
    case Some(PushingConnection) => [KConnect]
    case Some(Submitting(_, _)) => [KData]
    case Some(PushingDisconnection) => [KDisconnect]
    case _ => []
  }

  function Outstanding(s: Slot, mine: Option<Step>): seq<Kind> {
    InHand(Worker(s)) + Kinds(s.tasks) + Announced(mine)
  }

  /** Data, and nothing behind a disconnection. */
  predicate Tail(items: seq<Kind>) {
    items == [] || (items[0] == KData && Tail(items[1..])) || items == [KDisconnect]
  }

  /** What is still to come of a session. */
  predicate Rest(items: seq<Kind>, connected: bool) {
    if connected then Tail(items) else items != [] && items[0] == KConnect && Tail(items[1..])
  }

  predicate Ending(items: seq<Kind>) {
    items != [] && items[|items| - 1] == KDisconnect
  }

  // ---------------------------------------------------------------- the invariant of a slot

  /** The step the reactor is in, if it is at this slot. */
  function Mine(r: Reactor, i: nat): Option<Step> {
    if r.At? && r.slot == i then Some(r.step) else None
  }

  predicate Assigning(step: Step) {
    step.StoringIdx? || step.StoringRunning? || step.Spawning? || step.PushingConnection?
  }

  predicate Handling(step: Step) {
    step.Allocating? || step.Reading? || step.Submitting? || step.Releasing? || step.Closing?
  }

  /** Only the last worker can be running, and only while the slot can still join it. */
  predicate OneWorker(s: Slot) {
    && (s.joinable ==> |s.threads| > 0)
    && forall k :: 0 <= k < |s.threads| && !(s.joinable && k == |s.threads| - 1) ==> s.threads[k] == Finished
  }

  predicate RightIndex(pc: PC, i: int) {
    match pc
    case Connecting(id) => id == i
    case Copying(id, _, _) => id == i
    case Putting(id, _, _) => id == i
    case Disconnecting(id) => id == i
    case _ => true
  }

  /** Nobody is connected; the last worker may still be on its way out. */
  predicate Vacant(s: Slot, mine: Option<Step>) {
    && s.tasks == [] && !InSession(s.trace)
    && (var pc := Worker(s); pc.ClearingIdx? || pc.Stopping? || pc.Finished?)
    && match mine
       case None => s.watched == {}
       case Some(Joining(socket)) => s.watched == {socket.fd as int}
       case Some(StoringFd(socket)) => s.watched == {socket.fd as int} && !s.joinable
       case _ => false
  }

  /** A session before, while and after its callbacks run. */
  predicate Occupied(i: nat, s: Slot, mine: Option<Step>) {
    var pc, items := Worker(s), Outstanding(s, mine);
    && (mine.Some? ==> Assigning(mine.value) || Handling(mine.value) || mine.value.PushingDisconnection?)
    && (mine.Some? && Assigning(mine.value) ==> s.tasks == [] && (pc.AtCheck? || pc.AtWait? || pc.Finished?))
    && (mine.Some? && Handling(mine.value) ==> !Ending(items))
    && (s.idx == i || mine == Some(StoringIdx))
    && (s.running || mine == Some(StoringIdx) || mine == Some(StoringRunning))
    && (s.joinable <==> mine != Some(StoringIdx) && mine != Some(StoringRunning) && mine != Some(Spawning))
    && RightIndex(pc, i)
    && !pc.ClearingIdx? && !pc.Stopping? && (s.joinable ==> !pc.Finished?)
    && if pc.ClearingFd? then mine == None && items == [] && s.watched == {} && s.trace != [] && !InSession(s.trace)
       else Rest(items, InSession(s.trace)) && s.watched == if Ending(items) then {} else {s.fd}
  }

  predicate SlotOk(i: nat, s: Slot, mine: Option<Step>) {
    && s.fd >= -1 && OneWorker(s) && Grammar(s.trace, i)
    && if s.fd == -1 then Vacant(s, mine) else Occupied(i, s, mine)
  }

  // ---------------------------------------------------------------- sequences of kinds

  lemma KindsAppend(tasks: seq<Task>, t: Task)
    ensures Kinds(tasks + [t]) == Kinds(tasks) + [KindOf(t)]
  {
  }

  lemma KindsTake(tasks: seq<Task>)
    requires tasks != []
    ensures Kinds(tasks) == [KindOf(tasks[0])] + Kinds(tasks[1..])
  {
  }

  lemma {:induction false} TailAppend(items: seq<Kind>, k: Kind)
    requires Tail(items) && !Ending(items) && k != KConnect
    ensures Tail(items + [k]) && (Ending(items + [k]) <==> k == KDisconnect)
  {
    if items == [] {
    } else {
      assert (items + [k])[1..] == items[1..] + [k];
      TailAppend(items[1..], k);
    }
  }

  lemma RestAppend(items: seq<Kind>, connected: bool, k: Kind)
    requires Rest(items, connected) && !Ending(items) && k != KConnect
    ensures Rest(items + [k], connected) && (Ending(items + [k]) <==> k == KDisconnect)
  {
    if connected { TailAppend(items, k); }
    else {
      assert (items + [k])[1..] == items[1..] + [k];
      TailAppend(items[1..], k);
    }
  }

  lemma TailStarts(items: seq<Kind>)
    requires Tail(items) && items != []
    ensures items[0] != KConnect && Tail(items[1..])
    ensures items[0] == KDisconnect ==> items == [KDisconnect]
    ensures |items| > 1 ==> (Ending(items) <==> Ending(items[1..]))
  {
  }

  // ---------------------------------------------------------------- the reactor's steps

  /** A pushed task stands where it was announced. */
  lemma PushKeepsOutstanding(s: Slot, mine: Option<Step>, t: Task)
    requires Announced(mine) == [KindOf(t)]
    ensures Outstanding(s.(tasks := s.tasks + [t]), None) == Outstanding(s, mine)
  {
    KindsAppend(s.tasks, t);
  }

  lemma VacantReacts(i: nat, s: Slot, step: Step)
    requires SlotOk(i, s, Some(step)) && s.fd == -1
    requires step.Joining? ==> Worker(s) == Finished
    ensures SlotOk(i, Reacted(s, i, step), Mine(NextStep(i, step), i))
  {
    if step.StoringFd? {
      var t := Reacted(s, i, step);
      assert Outstanding(t, Some(StoringIdx)) == [KConnect];
    }
  }

  lemma OccupiedAssigns(i: nat, s: Slot, step: Step)
    requires SlotOk(i, s, Some(step)) && s.fd >= 0 && (step.StoringIdx? || step.StoringRunning? || step.Spawning?)
    ensures SlotOk(i, Reacted(s, i, step), Mine(NextStep(i, step), i))
  {
    hide Rest, Grammar, InSession, Outstanding, Ending;
    AssigningAnnounces(i, s, step);
  }

  lemma AssigningAnnounces(i: nat, s: Slot, step: Step)
    requires OneWorker(s) && !s.joinable && (step.StoringIdx? || step.StoringRunning? || step.Spawning?)
    ensures Outstanding(Reacted(s, i, step), Mine(NextStep(i, step), i)) == Outstanding(s, Some(step))
  {
  }

  lemma OccupiedPushes(i: nat, s: Slot, step: Step, t: Task)
    requires SlotOk(i, s, Some(step)) && s.fd >= 0 && Announced(Some(step)) == [KindOf(t)]
    requires step.PushingConnection? || step.Submitting? || step.PushingDisconnection?
    ensures SlotOk(i, s.(tasks := s.tasks + [t]), None)
  {
    hide Rest, Grammar, InSession, Outstanding, Ending;
    PushKeepsOutstanding(s, Some(step), t);
  }

  /** The session is over once the socket is closed: from then on a disconnection is outstanding. */
  lemma OccupiedCloses(i: nat, s: Slot)
    requires SlotOk(i, s, Some(Closing)) && s.fd >= 0
    ensures SlotOk(i, s.(watched := s.watched - {s.fd}), Some(PushingDisconnection))
  {
    hide Rest, Grammar, InSession, Outstanding, Ending;
    var t := s.(watched := s.watched - {s.fd});
    RestAppend(Outstanding(s, Some(Closing)), InSession(s.trace), KDisconnect);
    ClosingAnnounces(s, t);
    assert t.watched == {};
  }

  lemma ClosingAnnounces(s: Slot, t: Slot)
    requires t == s.(watched := t.watched)
    ensures Outstanding(t, Some(PushingDisconnection)) == Outstanding(s, Some(Closing)) + [KDisconnect]
  {
  }

  lemma OccupiedReacts(i: nat, s: Slot, step: Step)
    requires SlotOk(i, s, Some(step)) && s.fd >= 0 && !step.Allocating? && !step.Reading?
    ensures SlotOk(i, Reacted(s, i, step), Mine(NextStep(i, step), i))
  {
    hide SlotOk;
    match step
    case StoringIdx => OccupiedAssigns(i, s, step);
    case StoringRunning => OccupiedAssigns(i, s, step);
    case Spawning => OccupiedAssigns(i, s, step);
    case PushingConnection => OccupiedPushes(i, s, step, Connection);
    case Submitting(offset, size) => OccupiedPushes(i, s, step, Data(offset, size));
    case PushingDisconnection => OccupiedPushes(i, s, step, Disconnection);
    case Releasing(_) => OccupiedTurns(i, s, step, Some(Closing));
    case Closing => OccupiedCloses(i, s);
    case _ => NeverThere(i, s, step);
  }

  lemma NeverThere(i: nat, s: Slot, step: Step)
    requires SlotOk(i, s, Some(step)) && s.fd >= 0
    ensures !step.Joining? && !step.StoringFd?
  {
    hide Rest, Grammar, InSession, OneWorker, Outstanding;
  }

  /** While it is handling an event the reactor turns to its next step without touching the slot. */
  lemma OccupiedTurns(i: nat, s: Slot, step: Step, next: Option<Step>)
    requires SlotOk(i, s, Some(step)) && s.fd >= 0 && (step.Allocating? || step.Reading? || step.Releasing?)
    requires next.Some? ==> Handling(next.value)
    ensures SlotOk(i, s, next)
  {
    hide Rest, Grammar;
    if next.Some? && next.value.Submitting? {
      RestAppend(Outstanding(s, Some(step)), InSession(s.trace), KData);
      assert Outstanding(s, next) == Outstanding(s, Some(step)) + [KData];
    } else {
      assert Outstanding(s, next) == Outstanding(s, Some(step));
    }
  }

  /** Only an open session is reported by epoll. */
  lemma EventIsOpen(i: nat, s: Slot, socket: int, next: Step)
    requires SlotOk(i, s, None) && socket in s.watched && (next.Allocating? || next.Closing?)
    ensures s.fd == socket && s.fd >= 0 && SlotOk(i, s, Some(next))
  {
    hide Rest, Grammar;
    assert Outstanding(s, Some(next)) == Outstanding(s, None);
  }

  lemma VacantIsTaken(i: nat, s: Slot, socket: Socket)
    requires SlotOk(i, s, None) && s.fd == -1
    ensures SlotOk(i, s.(watched := s.watched + {socket.fd as int}), Some(Joining(socket)))
  {
    hide Grammar;
    assert s.watched + {socket.fd as int} == {socket.fd as int};
  }

  // ---------------------------------------------------------------- the workers' steps

  /** A worker that can move is the one the slot would join. */
  lemma MovingWorker(s: Slot, k: nat)
    requires OneWorker(s) && k < |s.threads| && s.threads[k] != Finished
    ensures s.joinable && k == |s.threads| - 1 && Worker(s) == s.threads[k]
  {
  }

  lemma MovedWorker(s: Slot, k: nat, memory: ByteArray)
    requires OneWorker(s) && k < |s.threads| && s.threads[k] != Finished
    ensures var t := WorkedSlot(s, k, memory);
            && OneWorker(t) && t.joinable && Worker(t) == NextPC(s, Worker(s), memory)
            && t == Worked(s, Worker(s)).(threads := t.threads)
  {
    MovingWorker(s, k);
  }

  lemma GrammarAppend(trace: seq<Callback>, c: Callback, i: int)
    requires Grammar(trace, i) && c.id == i && (c.OnConnect? <==> !InSession(trace))
    ensures Grammar(trace + [c], i) && (InSession(trace + [c]) <==> !c.OnDisconnect?)
  {
    assert (trace + [c])[..|trace|] == trace;
  }

  lemma VacantWorks(i: nat, s: Slot, mine: Option<Step>, k: nat, memory: ByteArray)
    requires SlotOk(i, s, mine) && s.fd == -1 && k < |s.threads| && s.threads[k] != Finished
    ensures SlotOk(i, WorkedSlot(s, k, memory), mine)
  {
    hide OneWorker, WorkedSlot, Grammar;
    MovingWorker(s, k);
    MovedWorker(s, k, memory);
  }

  /** Taking a task moves it into the worker's hand. */
  lemma WorkerTakes(i: nat, s: Slot, mine: Option<Step>, t: Slot)
    requires SlotOk(i, s, mine) && s.fd >= 0 && Worker(s).AtWait? && s.tasks != [] && OneWorker(t)
    requires t == s.(tasks := s.tasks[1..], threads := t.threads) && Worker(t) == Taken(s)
    ensures SlotOk(i, t, mine)
  {
    hide Rest, Grammar, OneWorker;
    KindsTake(s.tasks);
    assert Outstanding(t, mine) == Outstanding(s, mine);
  }

  /** Steps that neither take a task nor call back. */
  lemma WorkerTurns(i: nat, s: Slot, mine: Option<Step>, t: Slot)
    requires SlotOk(i, s, mine) && s.fd >= 0 && s.joinable && OneWorker(t) && t == s.(threads := t.threads)
    requires var pc, next := Worker(s), Worker(t);
             || ((pc.AtCheck? || (pc.AtWait? && s.tasks == [])) && (next.AtCheck? || next.AtWait?))
             || (pc.Signalling? && next.Freeing?) || (pc.Freeing? && next.AtCheck?)
             || (pc.Copying? && next.Putting? && next.id == pc.id)
    ensures SlotOk(i, t, mine)
  {
    hide Rest, Grammar, OneWorker;
    assert Outstanding(t, mine) == Outstanding(s, mine);
  }

  /** A callback uses up what was in hand. */
  lemma WorkerCalls(i: nat, s: Slot, mine: Option<Step>, t: Slot)
    requires SlotOk(i, s, mine) && s.fd >= 0 && s.joinable && OneWorker(t)
    requires Worker(s).Connecting? || Worker(s).Putting?
    requires t == Worked(s, Worker(s)).(threads := t.threads)
    requires Worker(t) == if Worker(s).Connecting? then AtCheck else Signalling(Worker(s).offset)
    ensures SlotOk(i, t, mine)
  {
    hide Grammar, OneWorker, Tail, InSession;
    var items := Outstanding(s, mine);
    assert Outstanding(t, mine) == items[1..];
    if Worker(s).Connecting? {
      if InSession(s.trace) { TailStarts(items); }
      GrammarAppend(s.trace, OnConnect(i), i);
    } else {
      TailStarts(items);
      GrammarAppend(s.trace, OnData(i, Worker(s).bytes), i);
    }
    assert Ending(items) <==> Ending(items[1..]);
  }

  /** After `OnDisconnect` nothing is left, and the reactor is elsewhere. */
  lemma WorkerHangsUp(i: nat, s: Slot, mine: Option<Step>, t: Slot)
    requires SlotOk(i, s, mine) && s.fd >= 0 && s.joinable && Worker(s).Disconnecting? && OneWorker(t)
    requires t == s.(trace := s.trace + [OnDisconnect(Worker(s).id)], threads := t.threads) && Worker(t) == ClearingFd
    ensures SlotOk(i, t, mine) && mine == None && t.tasks == []
  {
    hide Grammar, OneWorker, InSession, Tail;
    var items := Outstanding(s, mine);
    if !InSession(s.trace) { assert false; }
    TailStarts(items);
    assert |items| == 1;
    GrammarAppend(s.trace, OnDisconnect(i), i);
  }

  lemma OccupiedWorks(i: nat, s: Slot, mine: Option<Step>, k: nat, memory: ByteArray)
    requires SlotOk(i, s, mine) && s.fd >= 0 && k < |s.threads| && s.threads[k] != Finished
    ensures SlotOk(i, WorkedSlot(s, k, memory), mine)
  {
    MovingWorker(s, k);
    MovedWorker(s, k, memory);
    var t := WorkedSlot(s, k, memory);
    match Worker(s) {
      case AtCheck => WorkerTurns(i, s, mine, t);
      case AtWait => if s.tasks == [] { WorkerTurns(i, s, mine, t); } else { WorkerTakes(i, s, mine, t); }
      case Connecting(_) => WorkerCalls(i, s, mine, t);
      case Copying(_, _, _) => WorkerTurns(i, s, mine, t);
      case Putting(_, _, _) => WorkerCalls(i, s, mine, t);
      case Signalling(_) => WorkerTurns(i, s, mine, t);
      case Freeing(_) => WorkerTurns(i, s, mine, t);
      case Disconnecting(_) => WorkerHangsUp(i, s, mine, t);
      case ClearingFd => WorkerLetsGo(i, s, mine, t);
      case _ =>
    }
  }

  /** `m_fd = -1` is the step that gives the slot away. */
  lemma WorkerLetsGo(i: nat, s: Slot, mine: Option<Step>, t: Slot)
    requires SlotOk(i, s, mine) && s.fd >= 0 && Worker(s).ClearingFd? && OneWorker(t)
    requires t == s.(fd := -1, threads := t.threads) && Worker(t) == ClearingIdx
    ensures SlotOk(i, t, mine)
  {
    hide Grammar, OneWorker;
  }

  // ---------------------------------------------------------------- all slots

  predicate Shape(st: State) {
    |st.outs| == |st.slots| && (st.reactor.At? ==> st.reactor.slot < |st.slots|)
  }

  ghost predicate Control(st: State) {
    Shape(st) && forall i :: 0 <= i < |st.slots| ==> SlotOk(i, st.slots[i], Mine(st.reactor, i))
  }

  /** A step at slot `j` leaves the other slots alone. */
  ghost predicate OnlySlot(st: State, next: State, j: nat) {
    && Shape(next) && |next.slots| == |st.slots| && j < |st.slots|
    && forall i :: 0 <= i < |st.slots| && i != j ==>
       next.slots[i] == st.slots[i] && Mine(next.reactor, i) == Mine(st.reactor, i)
  }

  lemma ControlAt(st: State, next: State, j: nat)
    requires Control(st) && OnlySlot(st, next, j) && SlotOk(j, next.slots[j], Mine(next.reactor, j))
    ensures Control(next)
  {
    hide SlotOk, Mine;
  }

  lemma ControlInitially(clients: nat)
    ensures Control(Initial(clients))
  {
    assert OneWorker(FREE_SLOT) && Grammar([], 0) && Vacant(FREE_SLOT, None);
  }

  lemma ControlWork(st: State, i: nat, k: nat)
    requires Control(st) && Live(st, i, k)
    ensures Control(Work1(st, i, k))
  {
    hide SlotOk, WorkedSlot, QueueAfterWork;
    var s, mine := st.slots[i], Mine(st.reactor, i);
    if s.fd == -1 { VacantWorks(i, s, mine, k, st.memory); }
    else { assert s.fd >= 0 by { FdIsSocket(i, s, mine); } OccupiedWorks(i, s, mine, k, st.memory); }
    ControlAt(st, Work1(st, i, k), i);
  }

  lemma FdIsSocket(i: nat, s: Slot, mine: Option<Step>)
    requires SlotOk(i, s, mine)
    ensures s.fd >= -1
  {
  }

  lemma ControlReact(st: State)
    requires Control(st) && ReactorCanMove(st)
    ensures Control(Reaction(st))
  {
    hide SlotOk, MemoryPool.Allocation, MemoryPool.Release, Reacted;
    match st.reactor
    case Scanning(socket, i) =>
      if i < |st.slots| && st.slots[i].fd == -1 {
        VacantIsTaken(i, st.slots[i], socket);
        ControlAt(st, Reaction(st), i);
      }
    case At(i, step) =>
      FdIsSocket(i, st.slots[i], Some(step));
      if step.Allocating? {
        HandlingIsOpen(i, st.slots[i], step);
        OccupiedTurns(i, st.slots[i], step, Mine(Allocated(st).reactor, i));
      } else if st.slots[i].fd == -1 {
        VacantReacts(i, st.slots[i], step);
      } else {
        OccupiedReacts(i, st.slots[i], step);
      }
      ControlAt(st, Reaction(st), i);
  }

  /** While the reactor handles an event its slot is connected. */
  lemma HandlingIsOpen(i: nat, s: Slot, step: Step)
    requires SlotOk(i, s, Some(step)) && Handling(step)
    ensures s.fd >= 0
  {
    hide Occupied, OneWorker, Grammar;
  }

  lemma ControlRead(st: State, outcome: Outcome)
    requires Control(st) && Enabled(st, Read(outcome))
    ensures Control(ReadDone(st, outcome))
  {
    hide SlotOk, Written, AddReceived;
    var i := st.reactor.slot;
    var next := ReadDone(st, outcome);
    HandlingIsOpen(i, st.slots[i], st.reactor.step);
    OccupiedTurns(i, st.slots[i], st.reactor.step, Mine(next.reactor, i));
    ControlAt(st, next, i);
  }

  lemma ControlStep(st: State, a: Action, config: Frame.Config)
    requires Control(st) && Enabled(st, a)
    ensures Control(Next(st, a, config))
  {
    hide SlotOk, Work1, Reaction, ReadDone, CheckAll, ProcessAll, AddOuts;
    match a
    case Work(i, k) => ControlWork(st, i, k);
    case React => ControlReact(st);
    case Read(outcome) => ControlRead(st, outcome);
    case Readable(i, socket) =>
      EventIsOpen(i, st.slots[i], socket, Allocating);
      ControlAt(st, Next(st, a, config), i);
    case HangUp(i, socket) =>
      EventIsOpen(i, st.slots[i], socket, Closing);
      ControlAt(st, Next(st, a, config), i);
    case Accept(_) =>
    case Serve(_) =>
  }
}
