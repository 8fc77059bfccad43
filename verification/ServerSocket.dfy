/** The slot object in the source's own shape: `ServerSocket::Connection` and `FindFreeConnection`
    (src/utils/ServerSocket.cpp). A method that no other thread interrupts does what its steps in
    `SlotProtocol` do one after the other. */
module ServerSocket {
  import opened Bytes
  import opened SlotProtocol
  import opened Wrappers

  // ---------------------------------------------------------------- steps in a row

  /** `Assign`, from the join to the pushed task. */
  function Assigned(s: Slot, i: nat, socket: Socket): Slot {
    var joined := Reacted(s, i, Joining(socket));
    var stored := Reacted(Reacted(joined, i, StoringFd(socket)), i, StoringIdx);
    Reacted(Reacted(Reacted(stored, i, StoringRunning), i, Spawning), i, PushingConnection)
  }

  /** `n` steps of worker `k`. */
  function AfterSteps(s: Slot, k: nat, memory: ByteArray, n: nat): (t: Slot)
    requires k < |s.threads|
    ensures |t.threads| == |s.threads|
  {
    if n == 0 then s else WorkedSlot(AfterSteps(s, k, memory, n - 1), k, memory)
  }

  /** How many steps a turn of the loop of `processTask` has, by what it finds queued. */
  function TurnLength(s: Slot): nat {
    if !s.running then 1
    else if s.tasks == [] then 2
    else match s.tasks[0] case Connection => 3 case Data(_, _) => 6 case Disconnection => 6
  }

  class Connection {
    var fd: int
    var idx: int
    var running: bool
    var joinable: bool
    var tasks: seq<Task>
    var threads: seq<PC>
    var trace: seq<Callback>

    constructor ()
      ensures Value(0, {}) == FREE_SLOT
    {
      fd, idx, running, joinable, tasks, threads, trace := -1, -1, false, false, [], [], [];
    }

    /** The slot; the accept its descriptor came from and what epoll watches are not the object's. */
    function Value(client: nat, watched: set<int>): Slot
      reads this
    {
      Slot(fd, client, idx, running, joinable, tasks, threads, watched, trace)
    }

    /** The join has been waited for. */
    method Assign(socket: Socket, i: nat, ghost client: nat, ghost watched: set<int>)
      requires Worker(Value(client, watched)) == Finished
      modifies this
      ensures Value(socket.client, watched) == Assigned(old(Value(client, watched)), i, socket)
    {
      if joinable {
        joinable := false;
      }
      fd := socket.fd;
      idx := i;
      running := true;
      threads, joinable := threads + [AtCheck], true;
      tasks := tasks + [Task.Connection];
    }

    method Submit(offset: nat, size: nat, i: nat, ghost client: nat, ghost watched: set<int>)
      modifies this`tasks
      ensures Value(client, watched) == Reacted(old(Value(client, watched)), i, Submitting(offset, size))
    {
      tasks := tasks + [Data(offset, size)];
    }

    method Disconnect(i: nat, ghost client: nat, ghost watched: set<int>)
      modifies this`tasks
      ensures Value(client, watched) == Reacted(old(Value(client, watched)), i, PushingDisconnection)
    {
      tasks := tasks + [Disconnection];
    }

    /** One turn of the loop of `processTask`, with the buffer it frees, if any. */
    method Turn(memory: ByteArray, ghost client: nat, ghost watched: set<int>) returns (freed: Option<nat>)
      requires |threads| > 0 && threads[|threads| - 1] == AtCheck
      modifies this
      ensures Value(client, watched)
              == AfterSteps(old(Value(client, watched)), |old(threads)| - 1, memory,
                TurnLength(old(Value(client, watched))))
      ensures threads[|threads| - 1] == AtCheck || threads[|threads| - 1] == Finished
      ensures match freed {
                case Some(o) => old(running) && old(tasks) != [] && old(tasks)[0].Data? && old(tasks)[0].offset == o
                case None => !old(running) || old(tasks) == [] || !old(tasks)[0].Data?
              }
    {
      freed := None;
      ghost var s, k := Value(client, watched), |threads| - 1;
      if !running {
        Leave();
        OneStep(s, k, memory);
        return;
      }
      if tasks == [] {
        TwoSteps(s, k, memory);
        return;
      }
      var task := tasks[0];
      tasks := tasks[1..];
      match task
      case Connection =>
        trace := trace + [OnConnect(idx)];
        ConnectSteps(s, k, memory);
      case Data(offset, size) =>
        trace := trace + [OnData(idx, Content(memory, offset, size))];
        freed := Some(offset);
        DataSteps(s, k, memory);
      case Disconnection =>
        trace := trace + [OnDisconnect(idx)];
        fd := -1;
        idx := -1;
        running := false;
        Leave();
        DisconnectSteps(s, k, memory);
    }

    method Leave()
      requires |threads| > 0
      modifies this`threads
      ensures threads == old(threads)[|old(threads)| - 1 := Finished]
    {
      threads := threads[|threads| - 1 := Finished];
    }
  }

  lemma OneStep(s: Slot, k: nat, memory: ByteArray)
    requires k < |s.threads| && s.threads[k] == AtCheck && !s.running
    ensures AfterSteps(s, k, memory, 1) == s.(threads := s.threads[k := Finished])
  {
    assert AfterSteps(s, k, memory, 0) == s;
  }

  lemma TwoSteps(s: Slot, k: nat, memory: ByteArray)
    requires k < |s.threads| && s.threads[k] == AtCheck && s.running && s.tasks == []
    ensures AfterSteps(s, k, memory, 2) == s
  {
    Waiting(s, k, memory);
    assert s.threads[k := AtWait][k := AtCheck] == s.threads;
  }

  lemma Waiting(s: Slot, k: nat, memory: ByteArray)
    requires k < |s.threads| && s.threads[k] == AtCheck && s.running
    ensures AfterSteps(s, k, memory, 1) == s.(threads := s.threads[k := AtWait])
  {
    assert AfterSteps(s, k, memory, 0) == s;
  }

  lemma Taking(s: Slot, k: nat, memory: ByteArray)
    requires k < |s.threads| && s.threads[k] == AtCheck && s.running && s.tasks != []
    ensures AfterSteps(s, k, memory, 2) == s.(tasks := s.tasks[1..], threads := s.threads[k := Taken(s)])
  {
    hide Taken;
    Waiting(s, k, memory);
    TakenSame(s, s.(threads := s.threads[k := AtWait]));
    assert s.threads[k := AtWait][k := Taken(s)] == s.threads[k := Taken(s)];
  }

  lemma TakenSame(s: Slot, t: Slot)
    requires s.tasks != [] && t.tasks == s.tasks && t.idx == s.idx
    ensures Taken(t) == Taken(s)
  {
  }

  lemma ConnectSteps(s: Slot, k: nat, memory: ByteArray)
    requires k < |s.threads| && s.threads[k] == AtCheck && s.running && s.tasks != [] && s.tasks[0].Connection?
    ensures AfterSteps(s, k, memory, 3) == s.(tasks := s.tasks[1..], trace := s.trace + [OnConnect(s.idx)])
  {
    Taking(s, k, memory);
    assert s.threads[k := Taken(s)][k := AtCheck] == s.threads;
  }

  /** A step of the worker, by the position it was at. */
  lemma Stepped(s: Slot, k: nat, memory: ByteArray, n: nat, t: Slot)
    requires k < |s.threads| && AfterSteps(s, k, memory, n) == t
    ensures |t.threads| == |s.threads| && AfterSteps(s, k, memory, n + 1) == WorkedSlot(t, k, memory)
  {
  }

  lemma DataSteps(s: Slot, k: nat, memory: ByteArray)
    requires k < |s.threads| && s.threads[k] == AtCheck && s.running && s.tasks != [] && s.tasks[0].Data?
    ensures var bytes := Content(memory, s.tasks[0].offset, s.tasks[0].size);
            AfterSteps(s, k, memory, 6) == s.(tasks := s.tasks[1..], trace := s.trace + [OnData(s.idx, bytes)])
  {
    hide Content, AfterSteps;
    var o, n := s.tasks[0].offset, s.tasks[0].size;
    var bytes := Content(memory, o, n);
    var s2 := s.(tasks := s.tasks[1..], threads := s.threads[k := Copying(s.idx, o, n)]);
    var s3 := s2.(threads := s2.threads[k := Putting(s.idx, o, bytes)]);
    var s4 := s3.(trace := s.trace + [OnData(s.idx, bytes)], threads := s3.threads[k := Signalling(o)]);
    var s5 := s4.(threads := s4.threads[k := Freeing(o)]);
    Taking(s, k, memory);
    Stepped(s, k, memory, 2, s2);
    Stepped(s, k, memory, 3, s3);
    Stepped(s, k, memory, 4, s4);
    Stepped(s, k, memory, 5, s5);
    assert s5.threads[k := AtCheck] == s.threads;
  }

  lemma DisconnectSteps(s: Slot, k: nat, memory: ByteArray)
    requires k < |s.threads| && s.threads[k] == AtCheck && s.running && s.tasks != [] && s.tasks[0].Disconnection?
    ensures AfterSteps(s, k, memory, 6)
         == s.(fd := -1, idx := -1, running := false, tasks := s.tasks[1..], trace := s.trace + [OnDisconnect(s.idx)],
               threads := s.threads[k := Finished])
  {
    hide AfterSteps;
    var s2 := s.(tasks := s.tasks[1..], threads := s.threads[k := Disconnecting(s.idx)]);
    var s3 := s2.(trace := s.trace + [OnDisconnect(s.idx)], threads := s2.threads[k := ClearingFd]);
    var s4 := s3.(fd := -1, threads := s3.threads[k := ClearingIdx]);
    var s5 := s4.(idx := -1, threads := s4.threads[k := Stopping]);
    Taking(s, k, memory);
    Stepped(s, k, memory, 2, s2);
    Stepped(s, k, memory, 3, s3);
    Stepped(s, k, memory, 4, s4);
    Stepped(s, k, memory, 5, s5);
    assert s5.threads[k := Finished] == s.threads[k := Finished];
  }

  // ---------------------------------------------------------------- finding a free slot

  /** The first free slot, or -1. */
  method FindFreeConnection(slots: seq<Slot>) returns (r: int)
    ensures -1 <= r < |slots|
    ensures r == -1 ==> forall k :: 0 <= k < |slots| ==> slots[k].fd != -1
    ensures r >= 0 ==> slots[r].fd == -1 && forall k :: 0 <= k < r ==> slots[k].fd != -1
  {
    for i := 0 to |slots|
      invariant forall k :: 0 <= k < i ==> slots[k].fd != -1
    {
      if slots[i].fd == -1 {
        return i;
      }
    }
    r := -1;
  }

  /** `n` steps of the scan. */
  function ScanSteps(st: State, n: nat): State {
    if n == 0 then st
    else
      var before := ScanSteps(st, n - 1);
      if before.reactor.Scanning? then Scanned(before) else before
  }

  /** The scan, step by step, ends at the first free slot, which epoll then watches for the socket, or
      with the socket closed. */
  lemma {:induction false} ScanFindsFirst(st: State, socket: Socket, n: nat)
    requires st.reactor == Scanning(socket, 0) && n <= |st.slots|
    requires forall k :: 0 <= k < n ==> st.slots[k].fd != -1
    ensures ScanSteps(st, n) == st.(reactor := Scanning(socket, n))
    ensures n == |st.slots| ==> ScanSteps(st, n + 1) == st.(reactor := Idle, files := st.files - {socket.fd})
    ensures n < |st.slots| && st.slots[n].fd == -1 ==>
              ScanSteps(st, n + 1).reactor == At(n, Joining(socket))
                && socket.fd in ScanSteps(st, n + 1).slots[n].watched
  {
    if n > 0 { ScanFindsFirst(st, socket, n - 1); }
  }
}
