/** The reactor always gets back to its events: a bound on its steps, whatever the other threads do. */
module SlotProgress {
  import opened Bytes
  import opened RequestQueue
  import opened SlotBuffers
  import opened SlotBytes
  import opened SlotControl
  import opened SlotProtocol
  import opened SlotSockets
  import opened SlotTheorems
  import opened Wrappers
  import Frame
  import MemoryPool

  // ---------------------------------------------------------------- a distance

  /** What the worker waited for in `join` still has to do. */
  function Leaving(pc: PC): nat {
    match pc case ClearingIdx => 2 case Stopping => 1 case _ => 0
  }

  function StepsLeft(step: Step): nat {
    match step
    case Joining(_) => 6
    case StoringFd(_) => 5
    case StoringIdx => 4
    case StoringRunning => 3
    case Spawning => 2
    case PushingConnection => 1
    case Allocating => 5
    case Reading(_) => 4
    case Releasing(_) => 3
    case Closing => 2
    case Submitting(_, _) => 1
    case PushingDisconnection => 1
  }

  /** How many steps the reactor is away from its next `epoll_wait`, at most. */
  function Distance(st: State): nat {
    match st.reactor
    case Idle => 0
    case Scanning(_, next) => 9 + if next < |st.slots| then |st.slots| - next else 0
    case At(i, step) => StepsLeft(step) + if step.Joining? && i < |st.slots| then Leaving(Worker(st.slots[i])) else 0
  }

  /** A step of the reactor, or of the worker it waits for. */
  predicate Brings(st: State, a: Action) {
    || a.React? || a.Read?
    || (a.Work? && st.reactor.At? && st.reactor.step.Joining? && a.slot == st.reactor.slot)
  }

  lemma ReactBrings(st: State)
    requires Shape(st) && ReactorCanMove(st)
    ensures Distance(Reaction(st)) < Distance(st)
  {
    hide MemoryPool.Allocation, MemoryPool.Release, Worker, Reacted;
  }

  /** A worker that is joined has only its last stores to make. */
  lemma JoinedLeaves(i: nat, s: Slot, step: Step, k: nat, memory: ByteArray)
    requires SlotOk(i, s, Some(step)) && step.Joining? && k < |s.threads| && s.threads[k] != Finished
    ensures Leaving(Worker(WorkedSlot(s, k, memory))) < Leaving(Worker(s))
  {
    hide Grammar;
    MovingWorker(s, k);
    MovedWorker(s, k, memory);
  }

  lemma WorkBrings(st: State, i: nat, k: nat)
    requires Control(st) && Live(st, i, k)
    ensures Distance(Work1(st, i, k)) <= Distance(st)
    ensures Brings(st, Work(i, k)) ==> Distance(Work1(st, i, k)) < Distance(st)
  {
    hide SlotOk, WorkedSlot, QueueAfterWork, OutsAfterWork, MemoryPool.Release, Leaving, Worker;
    if Brings(st, Work(i, k)) { JoinedLeaves(i, st.slots[i], st.reactor.step, k, st.memory); }
  }

  /** Once the reactor is busy, its own steps and those of a worker it waits for bring it nearer to its next
      event, and no other step takes it further away. */
  lemma StepBrings(st: State, a: Action, config: Frame.Config)
    requires Control(st) && Enabled(st, a) && !st.reactor.Idle?
    ensures Distance(Next(st, a, config)) <= Distance(st)
    ensures Brings(st, a) ==> Distance(Next(st, a, config)) < Distance(st)
  {
    hide SlotOk, Work1, Reaction, Written, AddReceived, CheckAll, ProcessAll, AddOuts;
    match a
    case Work(i, k) => WorkBrings(st, i, k);
    case React => ReactBrings(st);
    case Read(outcome) =>
    case Serve(sent) =>
    case Accept(fd) =>
    case Readable(i, socket) =>
    case HangUp(i, socket) =>
  }

  lemma DistanceIsBounded(st: State)
    ensures Distance(st) <= |st.slots| + 9
  {
  }

  // ---------------------------------------------------------------- over runs

  /** The reactor is busy all along. */
  ghost predicate Busy(clients: nat, run: seq<Action>, more: seq<Action>, config: Frame.Config) {
    forall k :: 0 <= k < |more| ==>
                  var st := StateAfter(clients, run + more[..k], config);
                  st.Some? && !st.value.reactor.Idle?
  }

  /** How many steps of `more` are the reactor's or those of a worker it waits for. */
  ghost function Bringing(clients: nat, run: seq<Action>, more: seq<Action>, config: Frame.Config): nat {
    if more == [] then 0
    else
      var n := |more| - 1;
      var st := StateAfter(clients, run + more[..n], config);
      Bringing(clients, run, more[..n], config) + if st.Some? && Brings(st.value, more[n]) then 1 else 0
  }

  lemma BusyBefore(clients: nat, run: seq<Action>, more: seq<Action>, config: Frame.Config)
    requires Busy(clients, run, more, config) && more != []
    ensures Busy(clients, run, more[..|more| - 1], config)
  {
    var before := more[..|more| - 1];
    forall k | 0 <= k < |before| ensures before[..k] == more[..k] {}
  }

  /** Whatever the other threads do meanwhile: the reactor is back at its events after no more than as many
      steps, its own and those of the worker it joins, as there are slots, and nine. */
  lemma {:induction false} ReactorComesBack(clients: nat, run: seq<Action>, more: seq<Action>, config: Frame.Config)
    requires StateAfter(clients, run + more, config).Some? && StateAfter(clients, run, config).Some?
    requires Busy(clients, run, more, config)
    ensures Bringing(clients, run, more, config) + Distance(StateAfter(clients, run + more, config).value)
         <= Distance(StateAfter(clients, run, config).value) <= clients + 9
  {
    hide StateAfter, Distance, Brings, Control, Buffers, Sockets, Integrity, QueueOk, Wakeup;
    EveryStateIsGood(clients, run, config);
    DistanceIsBounded(StateAfter(clients, run, config).value);
    if more == [] {
      assert run + more == run;
    } else {
      var n := |more| - 1;
      BusyAtLast(clients, run, more, config);
      BusyBefore(clients, run, more, config);
      ReactorComesBack(clients, run, more[..n], config);
      EveryStateIsGood(clients, run + more[..n], config);
      StepBrings(StateAfter(clients, run + more[..n], config).value, more[n], config);
    }
  }

  lemma BusyAtLast(clients: nat, run: seq<Action>, more: seq<Action>, config: Frame.Config)
    requires Busy(clients, run, more, config) && more != [] && StateAfter(clients, run + more, config).Some?
    ensures var n := |more| - 1; var st := StateAfter(clients, run + more[..n], config);
            && st.Some? && !st.value.reactor.Idle? && Enabled(st.value, more[n])
            && StateAfter(clients, run + more, config).value == Next(st.value, more[n], config)
  {
    hide Enabled, Next;
    assert (run + more)[..|run + more| - 1] == run + more[..|more| - 1];
  }

  /** While it is busy, the reactor can always move or waits for a worker that can. */
  lemma SomethingBrings(st: State) returns (a: Action)
    requires Control(st) && !st.reactor.Idle?
    ensures Enabled(st, a) && Brings(st, a)
  {
    hide SlotOk;
    match st.reactor
    case Scanning(_, _) => a := React;
    case At(i, step) =>
      if step.Reading? { a := Read(EndOfStream); }
      else if step.Joining? && Worker(st.slots[i]) != Finished {
        a := Work(i, |st.slots[i].threads| - 1);
      } else { a := React; }
  }

  /** So from every state the reactor can be brought back to its events, and in that many steps. */
  lemma ReactorIsNeverStuck(clients: nat, run: seq<Action>, config: Frame.Config) returns (more: seq<Action>)
    requires StateAfter(clients, run, config).Some?
    ensures StateAfter(clients, run + more, config).Some? && StateAfter(clients, run + more, config).value.reactor.Idle?
    ensures |more| <= Distance(StateAfter(clients, run, config).value) <= clients + 9
    decreases if StateAfter(clients, run, config).Some? then Distance(StateAfter(clients, run, config).value) else 0
  {
    hide StateAfter, Distance, Brings, Control, Buffers, Sockets, Integrity, QueueOk, Wakeup, Enabled, Next;
    EveryStateIsGood(clients, run, config);
    var st := StateAfter(clients, run, config).value;
    DistanceIsBounded(st);
    if st.reactor.Idle? {
      more := [];
      assert run + more == run;
    } else {
      var a := SomethingBrings(st);
      StepBrings(st, a, config);
      Goes(clients, run, a, config);
      var rest := ReactorIsNeverStuck(clients, run + [a], config);
      more := [a] + rest;
      assert run + more == run + [a] + rest;
    }
  }
}
