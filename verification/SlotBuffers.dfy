/** Who holds which pool region: conservation of buffers over every step of `SlotProtocol`. */
module SlotBuffers {
  import opened Bytes
  import opened RequestQueue
  import opened SlotControl
  import opened SlotProtocol
  import opened Wrappers
  import Frame
  import MemoryPool

  // ---------------------------------------------------------------- sums

  function Sum(parts: seq<nat>): nat {
    if parts == [] then 0 else Sum(parts[..|parts| - 1]) + parts[|parts| - 1]
  }

  lemma {:induction false} SumConcat(a: seq<nat>, b: seq<nat>)
    ensures Sum(a + b) == Sum(a) + Sum(b)
  {
    if b == [] {
      assert a + b == a;
    } else {
      var n := |b| - 1;
      assert (a + b)[..|a + b| - 1] == a + b[..n];
      SumConcat(a, b[..n]);
    }
  }

  lemma SumOne(m: nat)
    ensures Sum([m]) == m
  {
    assert [m][..0] == [];
    assert Sum([m][..0]) == 0;
  }

  lemma SumAppend(a: seq<nat>, m: nat)
    ensures Sum(a + [m]) == Sum(a) + m
  {
    assert (a + [m])[..|a|] == a;
  }

  lemma SumFirst(a: seq<nat>)
    requires a != []
    ensures Sum(a) == a[0] + Sum(a[1..])
  {
    assert a == [a[0]] + a[1..];
    SumConcat([a[0]], a[1..]);
    SumOne(a[0]);
  }

  lemma SumUpdate(a: seq<nat>, i: nat, m: nat)
    requires i < |a|
    ensures Sum(a[i := m]) + a[i] == Sum(a) + m
  {
    SumSplit(a, i);
    SumSplit(a[i := m], i);
    assert a[i := m][..i] == a[..i] && a[i := m][i + 1..] == a[i + 1..];
  }

  lemma SumSplit(a: seq<nat>, i: nat)
    requires i < |a|
    ensures Sum(a) == Sum(a[..i]) + a[i] + Sum(a[i + 1..])
  {
    hide Sum;
    assert a == a[..i] + [a[i]] + a[i + 1..];
    SumConcat(a[..i] + [a[i]], a[i + 1..]);
    SumAppend(a[..i], a[i]);
  }

  lemma SumHasTwo(parts: seq<nat>, i: nat, j: nat)
    requires i < |parts| && j < |parts| && i != j
    ensures Sum(parts) >= parts[i] + parts[j]
  {
    SumUpdate(parts, i, 0);
    SumSplit(parts[i := 0], j);
  }

  lemma {:induction false} SumHas(parts: seq<nat>) returns (k: nat)
    requires Sum(parts) > 0
    ensures k < |parts| && parts[k] > 0
  {
    var n := |parts| - 1;
    if parts[n] > 0 { k := n; } else { k := SumHas(parts[..n]); }
  }

  lemma {:induction false} SumOfNothing(parts: seq<nat>)
    requires forall k :: 0 <= k < |parts| ==> parts[k] == 0
    ensures Sum(parts) == 0
  {
    if parts != [] { SumOfNothing(parts[..|parts| - 1]); }
  }

  // ---------------------------------------------------------------- how often an offset is held

  function Once(held: bool): nat {
    if held then 1 else 0
  }

  function OfTask(t: Task, o: nat): nat {
    Once(t.Data? && t.offset == o)
  }

  function OfPC(pc: PC, o: nat): nat {
    match pc
    case Copying(_, p, _) => Once(p == o)
    case Putting(_, p, _) => Once(p == o)
    case Signalling(p) => Once(p == o)
    case Freeing(p) => Once(p == o)
    case _ => 0
  }

  function OfReactor(r: Reactor, o: nat): nat {
    match r
    case At(_, Reading(p)) => Once(p == o)
    case At(_, Submitting(p, _)) => Once(p == o)
    case At(_, Releasing(p)) => Once(p == o)
    case _ => 0
  }

  function TaskParts(tasks: seq<Task>, o: nat): seq<nat> {
    seq(|tasks|, k requires 0 <= k < |tasks| => OfTask(tasks[k], o))
  }

  function ThreadParts(threads: seq<PC>, o: nat): seq<nat> {
    seq(|threads|, k requires 0 <= k < |threads| => OfPC(threads[k], o))
  }

  /** In the queue of a slot, or in use by one of its workers. */
  function OfSlot(s: Slot, o: nat): nat {
    Sum(TaskParts(s.tasks, o)) + Sum(ThreadParts(s.threads, o))
  }

  function SlotParts(slots: seq<Slot>, o: nat): seq<nat> {
    seq(|slots|, i requires 0 <= i < |slots| => OfSlot(slots[i], o))
  }

  function LeakParts(leaked: seq<nat>, o: nat): seq<nat> {
    seq(|leaked|, k requires 0 <= k < |leaked| => Once(leaked[k] == o))
  }

  /** A read that would block keeps its buffer for good: `leaked`. */
  function Held(st: State, o: nat): nat {
    OfReactor(st.reactor, o) + Sum(SlotParts(st.slots, o)) + Sum(LeakParts(st.leaked, o))
  }

  function RegionParts(regions: seq<MemoryPool.Region>, o: nat): seq<nat> {
    seq(|regions|, k requires 0 <= k < |regions| => Once(regions[k].offset == o))
  }

  /** How many live regions start at `o`. */
  function Starts(regions: seq<MemoryPool.Region>, o: nat): nat {
    Sum(RegionParts(regions, o))
  }

  // ---------------------------------------------------------------- the pool

  ghost predicate PoolOk(regions: seq<MemoryPool.Region>, total: nat) {
    MemoryPool.WellFormed(regions, total) && forall k :: 0 <= k < |regions| ==> regions[k].size == BUFFER_SIZE
  }

  lemma StartsSome(regions: seq<MemoryPool.Region>, o: nat) returns (k: nat)
    requires Starts(regions, o) > 0
    ensures k < |regions| && regions[k].offset == o
  {
    k := SumHas(RegionParts(regions, o));
  }

  lemma StartsAt(regions: seq<MemoryPool.Region>, k: nat)
    requires k < |regions|
    ensures Starts(regions, regions[k].offset) > 0
  {
    SumSplit(RegionParts(regions, regions[k].offset), k);
  }

  lemma StartsLast(regions: seq<MemoryPool.Region>, o: nat)
    requires regions != []
    ensures Starts(regions, o) == Starts(regions[..|regions| - 1], o) + Once(regions[|regions| - 1].offset == o)
  {
    assert RegionParts(regions, o)[..|regions| - 1] == RegionParts(regions[..|regions| - 1], o);
  }

  lemma StartsBefore(regions: seq<MemoryPool.Region>, total: nat, j: nat, k: nat)
    requires MemoryPool.WellFormed(regions, total) && j < k < |regions|
    ensures regions[j].offset < regions[k].offset
  {
    assert regions[j].End() <= regions[k].offset;
  }

  lemma {:induction false} StartsOnce(regions: seq<MemoryPool.Region>, total: nat, o: nat)
    requires MemoryPool.WellFormed(regions, total)
    ensures Starts(regions, o) <= 1
  {
    hide Starts;
    if regions != [] {
      var n := |regions| - 1;
      StartsOnce(regions[..n], total, o);
      StartsLast(regions, o);
      if o == regions[n].offset && Starts(regions[..n], o) > 0 {
        var k := StartsSome(regions[..n], o);
        StartsBefore(regions, total, k, n);
        assert false;
      }
    } else {
      assert Starts([], o) == 0 by { NothingStarts(o); }
    }
  }

  lemma NothingStarts(o: nat)
    ensures Starts([], o) == 0
  {
  }

  lemma StartsInsert(regions: seq<MemoryPool.Region>, k: nat, r: MemoryPool.Region, o: nat)
    requires k <= |regions|
    ensures Starts(MemoryPool.Insert(regions, k, r), o) == Starts(regions, o) + Once(r.offset == o)
  {
    var parts := RegionParts(MemoryPool.Insert(regions, k, r), o);
    var all := RegionParts(regions, o);
    SumSplit(parts, k);
    assert parts[..k] == all[..k] && parts[k + 1..] == all[k..] && all == all[..k] + all[k..];
    SumConcat(all[..k], all[k..]);
  }

  lemma AllocationHolds(regions: seq<MemoryPool.Region>, total: nat, o: nat)
    requires PoolOk(regions, total) && MemoryPool.Allocation(regions, total, BUFFER_SIZE).1.Some?
    ensures var (rs, p) := MemoryPool.Allocation(regions, total, BUFFER_SIZE);
            PoolOk(rs, total) && Starts(rs, o) == Starts(regions, o) + Once(p.value == o)
  {
    hide MemoryPool.Allocation, MemoryPool.FirstGap, MemoryPool.Insert, Starts;
    var k := MemoryPool.AllocationInserts(regions, total, BUFFER_SIZE);
    var r := MemoryPool.Region(MemoryPool.GapStart(regions, k), BUFFER_SIZE);
    MemoryPool.InsertKeepsWellFormed(regions, total, k, BUFFER_SIZE);
    StartsInsert(regions, k, r, o);
    InsertedSizes(regions, k, r);
  }

  lemma InsertedSizes(regions: seq<MemoryPool.Region>, k: nat, r: MemoryPool.Region)
    requires k <= |regions| && r.size == BUFFER_SIZE && forall j :: 0 <= j < |regions| ==>
             regions[j].size == BUFFER_SIZE
    ensures var rs := MemoryPool.Insert(regions, k, r); forall j :: 0 <= j < |rs| ==> rs[j].size == BUFFER_SIZE
  {
  }

  lemma ReleaseGives(regions: seq<MemoryPool.Region>, total: nat, p: nat, o: nat)
    requires PoolOk(regions, total) && Starts(regions, p) > 0
    ensures var rs := MemoryPool.Release(regions, p);
            PoolOk(rs, total) && Starts(rs, o) + Once(p == o) == Starts(regions, o)
  {
    hide Starts, MemoryPool.Release, MemoryPool.Insert;
    var k := StartsSome(regions, p);
    MemoryPool.ReleaseRemovesOne(regions, total, k);
    MemoryPool.RemoveKeepsWellFormed(regions, total, k);
    MemoryPool.RemoveThenInsert(regions, k);
    StartsInsert(MemoryPool.RemoveAt(regions, k), k, regions[k], o);
  }

  lemma RegionsApart(regions: seq<MemoryPool.Region>, total: nat, a: nat, b: nat)
    requires PoolOk(regions, total) && Starts(regions, a) > 0 && Starts(regions, b) > 0 && a != b
    ensures a + BUFFER_SIZE <= b || b + BUFFER_SIZE <= a
  {
    hide Starts;
    var j := StartsSome(regions, a);
    var k := StartsSome(regions, b);
    assert regions[j].End() <= regions[k].offset || regions[k].End() <= regions[j].offset;
  }

  lemma RegionFits(regions: seq<MemoryPool.Region>, total: nat, o: nat)
    requires PoolOk(regions, total) && Starts(regions, o) > 0
    ensures o + BUFFER_SIZE <= total
  {
    hide Starts;
    var k := StartsSome(regions, o);
    assert regions[k].End() <= total;
  }

  // ---------------------------------------------------------------- the invariant

  /** Every live region has exactly one holder, and nothing else is held. */
  ghost predicate Buffers(st: State) {
    PoolOk(st.regions, |st.memory|) && forall o: nat :: Held(st, o) == Starts(st.regions, o)
  }

  lemma BuffersInitially(clients: nat)
    ensures Buffers(Initial(clients))
  {
    forall o: nat ensures Held(Initial(clients), o) == Starts([], o) {
      var slots := Initial(clients).slots;
      forall i | 0 <= i < |slots| ensures SlotParts(slots, o)[i] == 0 {
        SumOfNothing(TaskParts([], o));
        SumOfNothing(ThreadParts([], o));
      }
      SumOfNothing(SlotParts(slots, o));
      SumOfNothing(LeakParts([], o));
      NothingStarts(o);
    }
  }

  // ---------------------------------------------------------------- one slot's share

  lemma PushTask(s: Slot, t: Task, o: nat)
    ensures OfSlot(s.(tasks := s.tasks + [t]), o) == OfSlot(s, o) + OfTask(t, o)
  {
    hide OfTask;
    assert TaskParts(s.tasks + [t], o) == TaskParts(s.tasks, o) + [OfTask(t, o)];
    SumAppend(TaskParts(s.tasks, o), OfTask(t, o));
  }

  lemma StartThread(s: Slot, t: Slot, o: nat)
    requires t.tasks == s.tasks && t.threads == s.threads + [AtCheck]
    ensures OfSlot(t, o) == OfSlot(s, o)
  {
    assert ThreadParts(t.threads, o) == ThreadParts(s.threads, o) + [0];
    SumAppend(ThreadParts(s.threads, o), 0);
  }

  lemma MoveThread(threads: seq<PC>, k: nat, next: PC, o: nat)
    requires k < |threads|
    ensures Sum(ThreadParts(threads[k := next], o)) + OfPC(threads[k], o)
            == Sum(ThreadParts(threads, o)) + OfPC(next, o)
  {
    hide OfPC;
    assert ThreadParts(threads[k := next], o) == ThreadParts(threads, o)[k := OfPC(next, o)];
    SumUpdate(ThreadParts(threads, o), k, OfPC(next, o));
  }

  lemma TakeTask(tasks: seq<Task>, o: nat)
    requires tasks != []
    ensures Sum(TaskParts(tasks, o)) == OfTask(tasks[0], o) + Sum(TaskParts(tasks[1..], o))
  {
    hide OfTask;
    assert TaskParts(tasks, o)[1..] == TaskParts(tasks[1..], o);
    SumFirst(TaskParts(tasks, o));
  }

  lemma TakenHolds(s: Slot, o: nat)
    requires s.tasks != []
    ensures OfPC(Taken(s), o) == OfTask(s.tasks[0], o)
  {
  }

  /** Only `Freeing` lets go of a buffer. */
  function LetGo(pc: PC, o: nat): nat {
    Once(pc.Freeing? && pc.offset == o)
  }

  lemma StepHolds(s: Slot, pc: PC, memory: ByteArray, o: nat)
    requires !(pc.AtWait? && s.tasks != [])
    ensures OfPC(NextPC(s, pc, memory), o) + LetGo(pc, o) == OfPC(pc, o)
  {
  }

  lemma WorkShare(s: Slot, k: nat, memory: ByteArray, o: nat)
    requires k < |s.threads|
    ensures OfSlot(WorkedSlot(s, k, memory), o) + LetGo(s.threads[k], o) == OfSlot(s, o)
  {
    hide OfPC, OfTask, Sum, TaskParts, ThreadParts;
    var pc := s.threads[k];
    MoveThread(s.threads, k, NextPC(s, pc, memory), o);
    if pc.AtWait? && s.tasks != [] {
      TakeTask(s.tasks, o);
      TakenHolds(s, o);
      assert OfPC(pc, o) == 0 by { WaitingHoldsNothing(o); }
    } else {
      hide NextPC;
      StepHolds(s, pc, memory, o);
    }
  }

  lemma WaitingHoldsNothing(o: nat)
    ensures OfPC(AtWait, o) == 0
  {
  }

  /** What a reactor step hands over to its slot. */
  function HandedOver(step: Step, o: nat): nat {
    Once(step.Submitting? && step.offset == o)
  }

  lemma ReactShare(s: Slot, i: nat, step: Step, o: nat)
    ensures OfSlot(Reacted(s, i, step), o) == OfSlot(s, o) + HandedOver(step, o)
  {
    hide Sum, TaskParts, ThreadParts;
    match step
    case PushingConnection => PushTask(s, Connection, o);
    case Submitting(p, n) => PushTask(s, Data(p, n), o);
    case PushingDisconnection => PushTask(s, Disconnection, o);
    case Spawning => StartThread(s, Reacted(s, i, step), o);
    case _ =>
  }

  lemma SlotShare(slots: seq<Slot>, i: nat, t: Slot, o: nat)
    requires i < |slots|
    ensures Sum(SlotParts(slots[i := t], o)) + OfSlot(slots[i], o) == Sum(SlotParts(slots, o)) + OfSlot(t, o)
    ensures OfSlot(slots[i], o) <= Sum(SlotParts(slots, o))
  {
    hide OfSlot;
    assert SlotParts(slots[i := t], o) == SlotParts(slots, o)[i := OfSlot(t, o)];
    SumUpdate(SlotParts(slots, o), i, OfSlot(t, o));
    SumSplit(SlotParts(slots, o), i);
  }

  // ---------------------------------------------------------------- every step

  lemma HeldWork(st: State, i: nat, k: nat, o: nat)
    requires Live(st, i, k)
    ensures Held(Work1(st, i, k), o) + LetGo(st.slots[i].threads[k], o) == Held(st, o)
  {
    hide OfSlot, SlotParts, Sum, LeakParts, WorkedSlot, QueueAfterWork, OutsAfterWork, MemoryPool.Release, OfReactor;
    var s := st.slots[i];
    WorkShare(s, k, st.memory, o);
    SlotShare(st.slots, i, WorkedSlot(s, k, st.memory), o);
  }

  /** A worker frees a buffer it holds. */
  lemma FreeingHolds(st: State, i: nat, k: nat)
    requires Live(st, i, k) && st.slots[i].threads[k].Freeing?
    ensures Held(st, st.slots[i].threads[k].offset) > 0
  {
    HeldWork(st, i, k, st.slots[i].threads[k].offset);
  }

  lemma BuffersWork(st: State, i: nat, k: nat)
    requires Buffers(st) && Live(st, i, k)
    ensures Buffers(Work1(st, i, k))
  {
    hide Starts, Held, WorkedSlot, QueueAfterWork, OutsAfterWork, MemoryPool.Release, PoolOk;
    var pc, next := st.slots[i].threads[k], Work1(st, i, k);
    if pc.Freeing? {
      FreeingHolds(st, i, k);
      ReleaseGives(st.regions, |st.memory|, pc.offset, 0);
    }
    forall o: nat ensures Held(next, o) == Starts(next.regions, o) {
      HeldWork(st, i, k, o);
      if pc.Freeing? { ReleaseGives(st.regions, |st.memory|, pc.offset, o); }
    }
  }

  /** What a reactor step takes from the pool, and what it gives back. */
  function Taking(st: State, o: nat): nat
    requires st.reactor.At?
  {
    var p := MemoryPool.Allocation(st.regions, |st.memory|, BUFFER_SIZE).1;
    Once(st.reactor.step.Allocating? && p == Some(o))
  }

  function Giving(st: State, o: nat): nat
    requires st.reactor.At?
  {
    Once(st.reactor.step.Releasing? && st.reactor.step.offset == o)
  }

  lemma HeldReact(st: State, o: nat)
    requires ReactorCanMove(st) && st.reactor.At?
    ensures Held(Reaction(st), o) + Giving(st, o) == Held(st, o) + Taking(st, o)
  {
    hide OfSlot, SlotParts, Sum, LeakParts, MemoryPool.Release, MemoryPool.Allocation, Reacted;
    var i, step := st.reactor.slot, st.reactor.step;
    if !step.Allocating? {
      ReactShare(st.slots[i], i, step, o);
      SlotShare(st.slots, i, Reacted(st.slots[i], i, step), o);
    }
  }

  lemma HeldScan(st: State, o: nat)
    requires st.reactor.Scanning?
    ensures Held(Scanned(st), o) == Held(st, o)
  {
    hide SlotParts, Sum, LeakParts, TaskParts, ThreadParts;
    var i, socket := st.reactor.next, st.reactor.socket;
    if i < |st.slots| && st.slots[i].fd == -1 {
      SlotShare(st.slots, i, st.slots[i].(watched := st.slots[i].watched + {socket.fd as int}), o);
    }
  }

  lemma ReleasingHolds(st: State)
    requires st.reactor.At? && st.reactor.step.Releasing?
    ensures Held(st, st.reactor.step.offset) > 0
  {
  }

  lemma BuffersReact(st: State)
    requires Buffers(st) && ReactorCanMove(st)
    ensures Buffers(Reaction(st))
  {
    hide Starts, Held, Reacted, MemoryPool.Release, MemoryPool.Allocation, PoolOk;
    var next := Reaction(st);
    match st.reactor
    case Scanning(socket, i) =>
      forall o: nat ensures Held(next, o) == Starts(next.regions, o) { HeldScan(st, o); }
    case At(i, step) =>
      if step.Releasing? {
        ReleasingHolds(st);
        ReleaseGives(st.regions, |st.memory|, step.offset, 0);
      }
      if step.Allocating? && Allocates(st) { AllocationHolds(st.regions, |st.memory|, 0); }
      forall o: nat ensures Held(next, o) == Starts(next.regions, o) {
        HeldReact(st, o);
        if step.Releasing? { ReleaseGives(st.regions, |st.memory|, step.offset, o); }
        if step.Allocating? && Allocates(st) { AllocationHolds(st.regions, |st.memory|, o); }
      }
  }

  predicate Allocates(st: State) {
    MemoryPool.Allocation(st.regions, |st.memory|, BUFFER_SIZE).1.Some?
  }

  lemma WrittenSize(memory: ByteArray, offset: nat, chunk: ByteArray)
    ensures |Written(memory, offset, chunk)| == |memory|
  {
  }

  lemma HeldRead(st: State, outcome: Outcome, o: nat)
    requires Enabled(st, Read(outcome))
    ensures Held(ReadDone(st, outcome), o) == Held(st, o)
  {
    hide SlotParts, Sum, Written, AddReceived;
    var p := st.reactor.step.offset;
    assert LeakParts(st.leaked + [p], o) == LeakParts(st.leaked, o) + [Once(p == o)];
    SumAppend(LeakParts(st.leaked, o), Once(p == o));
  }

  lemma BuffersRead(st: State, outcome: Outcome)
    requires Buffers(st) && Enabled(st, Read(outcome))
    ensures Buffers(ReadDone(st, outcome))
  {
    hide Starts, Held, Written, AddReceived, PoolOk;
    var next := ReadDone(st, outcome);
    if outcome.Got? { WrittenSize(st.memory, st.reactor.step.offset, outcome.chunk); }
    forall o: nat ensures Held(next, o) == Starts(next.regions, o) { HeldRead(st, outcome, o); }
  }

  lemma BuffersElsewhere(st: State, next: State)
    requires Buffers(st) && next.slots == st.slots && next.regions == st.regions && next.memory == st.memory
    requires next.leaked == st.leaked && forall o: nat :: OfReactor(next.reactor, o) == OfReactor(st.reactor, o)
    ensures Buffers(next)
  {
    hide Starts, SlotParts, LeakParts, Sum, PoolOk, OfReactor;
    forall o: nat ensures Held(next, o) == Starts(next.regions, o) { assert Held(st, o) == Starts(st.regions, o); }
  }

  lemma BuffersStep(st: State, a: Action, config: Frame.Config)
    requires Buffers(st) && Enabled(st, a)
    ensures Buffers(Next(st, a, config))
  {
    hide Buffers, Work1, Reaction, ReadDone, CheckAll, ProcessAll, AddOuts;
    match a
    case Work(i, k) => BuffersWork(st, i, k);
    case React => BuffersReact(st);
    case Read(outcome) => BuffersRead(st, outcome);
    case _ => BuffersElsewhere(st, Next(st, a, config));
  }

  // ---------------------------------------------------------------- what it means

  /** The places a buffer can be. */
  datatype Holder =
    | TheReactor
    | InQueue(slot: nat, place: nat)
    | InWorker(slot: nat, thread: nat)
    | Leaked(place: nat)

  predicate Holds(st: State, h: Holder, o: nat) {
    match h
    case TheReactor => OfReactor(st.reactor, o) > 0
    case InQueue(i, k) => i < |st.slots| && k < |st.slots[i].tasks| && OfTask(st.slots[i].tasks[k], o) > 0
    case InWorker(i, k) => i < |st.slots| && k < |st.slots[i].threads| && OfPC(st.slots[i].threads[k], o) > 0
    case Leaked(k) => k < |st.leaked| && st.leaked[k] == o
  }

  predicate InSlot(h: Holder) {
    h.InQueue? || h.InWorker?
  }

  lemma HolderCounts(st: State, h: Holder, o: nat)
    requires Holds(st, h, o)
    ensures h.TheReactor? ==> OfReactor(st.reactor, o) > 0
    ensures InSlot(h) ==> h.slot < |st.slots| && OfSlot(st.slots[h.slot], o) > 0 && Sum(SlotParts(st.slots, o)) > 0
    ensures h.Leaked? ==> Sum(LeakParts(st.leaked, o)) > 0
    ensures Held(st, o) > 0
  {
    hide OfTask, OfPC, OfReactor;
    match h
    case InQueue(i, k) =>
      SumSplit(TaskParts(st.slots[i].tasks, o), k);
      SumSplit(SlotParts(st.slots, o), i);
    case InWorker(i, k) =>
      SumSplit(ThreadParts(st.slots[i].threads, o), k);
      SumSplit(SlotParts(st.slots, o), i);
    case Leaked(k) => SumSplit(LeakParts(st.leaked, o), k);
    case TheReactor =>
  }

  lemma TwoInOneSlot(st: State, h: Holder, g: Holder, o: nat)
    requires Holds(st, h, o) && Holds(st, g, o) && h != g && InSlot(h) && InSlot(g) && h.slot == g.slot
    ensures OfSlot(st.slots[h.slot], o) >= 2
  {
    hide OfTask, OfPC;
    var s := st.slots[h.slot];
    match h {
      case InQueue(i, k) => SumSplit(TaskParts(s.tasks, o), k);
      case InWorker(i, k) => SumSplit(ThreadParts(s.threads, o), k);
    }
    match g {
      case InQueue(i, k) => SumSplit(TaskParts(s.tasks, o), k);
      case InWorker(i, k) => SumSplit(ThreadParts(s.threads, o), k);
    }
    if h.InQueue? && g.InQueue? { SumHasTwo(TaskParts(s.tasks, o), h.place, g.place); }
    if h.InWorker? && g.InWorker? { SumHasTwo(ThreadParts(s.threads, o), h.thread, g.thread); }
  }

  lemma TwoHoldersCountTwice(st: State, h: Holder, g: Holder, o: nat)
    requires Holds(st, h, o) && Holds(st, g, o) && h != g
    ensures Held(st, o) >= 2
  {
    hide Holds, OfReactor, OfSlot, Sum;
    HolderCounts(st, h, o);
    HolderCounts(st, g, o);
    if InSlot(h) && InSlot(g) {
      if h.slot == g.slot {
        TwoInOneSlot(st, h, g, o);
        SumSplit(SlotParts(st.slots, o), h.slot);
      } else {
        SumHasTwo(SlotParts(st.slots, o), h.slot, g.slot);
      }
    } else if h.Leaked? && g.Leaked? {
      TwoLeaks(st, h.place, g.place, o);
    }
  }

  lemma TwoLeaks(st: State, j: nat, k: nat, o: nat)
    requires Holds(st, Leaked(j), o) && Holds(st, Leaked(k), o) && j != k
    ensures Sum(LeakParts(st.leaked, o)) >= 2
  {
    SumHasTwo(LeakParts(st.leaked, o), j, k);
  }

  lemma HolderOf(st: State, o: nat) returns (h: Holder)
    requires Held(st, o) > 0
    ensures Holds(st, h, o)
  {
    hide OfTask, OfPC, OfReactor, Sum;
    if OfReactor(st.reactor, o) > 0 {
      h := TheReactor;
    } else if Sum(LeakParts(st.leaked, o)) > 0 {
      var k := SumHas(LeakParts(st.leaked, o));
      h := Leaked(k);
    } else {
      var i := SumHas(SlotParts(st.slots, o));
      var s := st.slots[i];
      if Sum(TaskParts(s.tasks, o)) > 0 {
        var k := SumHas(TaskParts(s.tasks, o));
        h := InQueue(i, k);
      } else {
        var k := SumHas(ThreadParts(s.threads, o));
        h := InWorker(i, k);
      }
    }
  }

  predicate IsLive(regions: seq<MemoryPool.Region>, o: nat) {
    exists k :: 0 <= k < |regions| && regions[k].offset == o
  }

  lemma LiveIsHeld(st: State, o: nat)
    requires Buffers(st)
    ensures IsLive(st.regions, o) <==> Held(st, o) > 0
    ensures Held(st, o) <= 1
  {
    hide Starts, Held;
    StartsOnce(st.regions, |st.memory|, o);
    if Starts(st.regions, o) > 0 { var k := StartsSome(st.regions, o); }
    if IsLive(st.regions, o) {
      var k :| 0 <= k < |st.regions| && st.regions[k].offset == o;
      StartsAt(st.regions, k);
    }
  }

  /** A live region has a holder, and only one; what is held is a live region. */
  lemma ExactlyOneHolder(st: State, o: nat)
    requires Buffers(st)
    ensures IsLive(st.regions, o) <==> exists h :: Holds(st, h, o)
    ensures forall h, g :: Holds(st, h, o) && Holds(st, g, o) ==> h == g
  {
    hide Buffers, Holds, IsLive, Held;
    LiveIsHeld(st, o);
    if Held(st, o) > 0 { var h := HolderOf(st, o); }
    forall h | Holds(st, h, o) ensures Held(st, o) > 0 { HolderCounts(st, h, o); }
    forall h, g | Holds(st, h, o) && Holds(st, g, o) ensures h == g {
      if h != g { TwoHoldersCountTwice(st, h, g, o); }
    }
  }
}
