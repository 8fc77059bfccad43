/** The first-fit buffer pool: a vector of live regions over one byte buffer
    (src/wrappers/posix/MemoryPool.cpp, include/wrappers/posix/MemoryPool.h).

    A pointer into the buffer is modelled by its offset; the null pointer is `None`.
    Sizes are unbounded; the class below shows that no subtraction of the source can wrap. */
module MemoryPool {
  import opened Wrappers

  datatype Region = Region(offset: nat, size: nat) {
    function End(): nat { offset + size }
  }

  // ---------------------------------------------------------------- byte intervals

  /** The `size` bytes from `offset` on. */
  ghost function Span(offset: nat, size: nat): (s: set<int>)
    ensures forall b :: b in s <==> offset <= b < offset + size
    ensures |s| == size
  {
    if size == 0 then {} else Span(offset, size - 1) + {offset + size - 1}
  }

  ghost function Extent(r: Region): set<int> {
    Span(r.offset, r.size)
  }

  /** The bytes a vector of regions occupies. */
  ghost function Occupied(regions: seq<Region>): set<int> {
    if regions == [] then {} else Occupied(regions[..|regions| - 1]) + Extent(regions[|regions| - 1])
  }

  ghost function UsedSize(regions: seq<Region>): nat {
    if regions == [] then 0 else UsedSize(regions[..|regions| - 1]) + regions[|regions| - 1].size
  }

  ghost predicate Apart(a: Region, b: Region) {
    a.End() <= b.offset || b.End() <= a.offset
  }

  /** `size` bytes at `offset` lie in the buffer and overlap no live region. */
  ghost predicate Fits(regions: seq<Region>, total: nat, offset: nat, size: nat) {
    && offset + size <= total
    && forall i :: 0 <= i < |regions| ==> Apart(Region(offset, size), regions[i])
  }

  /** Regions are non-empty, in bounds, sorted by offset and pairwise disjoint. */
  ghost predicate WellFormed(regions: seq<Region>, total: nat) {
    && (forall i :: 0 <= i < |regions| ==> regions[i].size > 0 && regions[i].End() <= total)
    && (forall i, j :: 0 <= i < j < |regions| ==> regions[i].End() <= regions[j].offset)
  }

  // ---------------------------------------------------------------- the scans as functions

  /** End of the region before position `i`: where the gap at `i` starts. */
  function GapStart(regions: seq<Region>, i: nat): nat
    requires i <= |regions|
  {
    if i == 0 then 0 else regions[i - 1].End()
  }

  function GapEnd(regions: seq<Region>, total: nat, i: nat): nat
    requires i <= |regions|
  {
    if i < |regions| then regions[i].offset else total
  }

  /** First position from `i` on whose gap holds `size` bytes. */
  function FirstGap(regions: seq<Region>, total: nat, size: nat, i: nat): Option<nat>
    requires i <= |regions|
    decreases |regions| - i
  {
    if GapEnd(regions, total, i) - GapStart(regions, i) >= size then Some(i)
    else if i == |regions| then None
    else FirstGap(regions, total, size, i + 1)
  }

  function Insert(regions: seq<Region>, i: nat, r: Region): seq<Region>
    requires i <= |regions|
  {
    regions[..i] + [r] + regions[i..]
  }

  function RemoveAt(regions: seq<Region>, i: nat): seq<Region>
    requires i < |regions|
  {
    regions[..i] + regions[i + 1..]
  }

  lemma {:induction false} FirstGapIsFirst(regions: seq<Region>, total: nat, size: nat, i: nat)
    requires i <= |regions|
    ensures match FirstGap(regions, total, size, i)
            case Some(k) =>
              && i <= k <= |regions|
              && GapStart(regions, k) + size <= GapEnd(regions, total, k)
              && forall j :: i <= j < k ==> GapEnd(regions, total, j) - GapStart(regions, j) < size
            case None =>
              forall j :: i <= j <= |regions| ==> GapEnd(regions, total, j) - GapStart(regions, j) < size
    decreases |regions| - i
  {
    if GapEnd(regions, total, i) - GapStart(regions, i) < size && i < |regions| {
      FirstGapIsFirst(regions, total, size, i + 1);
    }
  }

  /** What `allocate` does to the region vector, and the offset it hands out. */
  function Allocation(regions: seq<Region>, total: nat, size: nat): (seq<Region>, Option<nat>) {
    var gap := FirstGap(regions, total, size, 0);
    if size == 0 || gap.None? then (regions, None)
    else
      FirstGapIsFirst(regions, total, size, 0);
      var o := GapStart(regions, gap.value);
      (Insert(regions, gap.value, Region(o, size)), Some(o))
  }

  /** What `free` does: every region that starts at `offset` goes away. */
  function Release(regions: seq<Region>, offset: nat): seq<Region> {
    if regions == [] then []
    else
      var rest := Release(regions[..|regions| - 1], offset);
      if regions[|regions| - 1].offset == offset then rest else rest + [regions[|regions| - 1]]
  }

  // ---------------------------------------------------------------- allocate

  /** An interval that overlaps no region lies inside one gap. */
  lemma {:induction false} GapOf(regions: seq<Region>, total: nat, offset: nat, size: nat, n: nat) returns (k: nat)
    requires WellFormed(regions, total) && size > 0 && Fits(regions, total, offset, size)
    requires n <= |regions| && offset + size <= GapEnd(regions, total, n)
    ensures k <= |regions| && GapStart(regions, k) <= offset && offset + size <= GapEnd(regions, total, k)
  {
    if n == 0 || regions[n - 1].End() <= offset {
      k := n;
    } else {
      assert Apart(Region(offset, size), regions[n - 1]);
      k := GapOf(regions, total, offset, size, n - 1);
    }
  }

  lemma GapStartsGrow(regions: seq<Region>, total: nat, i: nat, j: nat)
    requires WellFormed(regions, total) && i <= j <= |regions|
    ensures GapStart(regions, i) <= GapStart(regions, j)
    ensures GapStart(regions, i) <= GapEnd(regions, total, i)
  {
    if 0 < i < j { assert regions[i - 1].End() <= regions[j - 1].offset; }
  }

  lemma GapFits(regions: seq<Region>, total: nat, k: nat, size: nat)
    requires WellFormed(regions, total) && k <= |regions|
    requires GapStart(regions, k) + size <= GapEnd(regions, total, k)
    ensures Fits(regions, total, GapStart(regions, k), size)
  {
    var r := Region(GapStart(regions, k), size);
    forall i | 0 <= i < |regions| ensures Apart(r, regions[i]) {
      if i < k - 1 { assert regions[i].End() <= regions[k - 1].offset; }
      if k < i { assert regions[k].End() <= regions[i].offset; }
    }
  }

  /** First fit is exact: `allocate` answers the least offset at which the bytes fit, and
      fails only for size zero or when they fit nowhere. */
  lemma AllocationIsLeastFit(regions: seq<Region>, total: nat, size: nat)
    requires WellFormed(regions, total)
    ensures match Allocation(regions, total, size).1
            case Some(o) => size > 0 && Fits(regions, total, o, size) && forall p: nat :: p < o ==>
              !Fits(regions, total, p, size)
            case None => size == 0 || forall p: nat :: !Fits(regions, total, p, size)
  {
    if size > 0 {
      FirstGapIsFirst(regions, total, size, 0);
      var g := FirstGap(regions, total, size, 0);
      if g.Some? { GapFits(regions, total, g.value, size); }
      forall p: nat | Fits(regions, total, p, size)
        ensures g.Some? && GapStart(regions, g.value) <= p
      {
        var k := GapOf(regions, total, p, size, |regions|);
        if g.Some? { GapStartsGrow(regions, total, if g.value <= k then g.value else k, k); }
      }
    }
  }

  lemma {:induction false} ConcatAdds(a: seq<Region>, b: seq<Region>)
    ensures Occupied(a + b) == Occupied(a) + Occupied(b)
    ensures UsedSize(a + b) == UsedSize(a) + UsedSize(b)
  {
    if b == [] {
      assert a + b == a;
    } else {
      var n := |b| - 1;
      ConcatAdds(a, b[..n]);
      assert (a + b)[..|a + b| - 1] == a + b[..n];
    }
  }

  lemma InsertAdds(regions: seq<Region>, i: nat, r: Region)
    requires i <= |regions|
    ensures Occupied(Insert(regions, i, r)) == Occupied(regions) + Extent(r)
    ensures UsedSize(Insert(regions, i, r)) == UsedSize(regions) + r.size
  {
    SplitAt(regions, i);
    Singleton(r);
    ConcatAdds(regions[..i], [r]);
    ConcatAdds(regions[..i] + [r], regions[i..]);
  }

  lemma SplitAt(regions: seq<Region>, i: nat)
    requires i <= |regions|
    ensures Occupied(regions) == Occupied(regions[..i]) + Occupied(regions[i..])
    ensures UsedSize(regions) == UsedSize(regions[..i]) + UsedSize(regions[i..])
  {
    hide Occupied, UsedSize;
    JoinAdds(regions[..i], regions[i..], regions);
  }

  lemma JoinAdds(a: seq<Region>, b: seq<Region>, c: seq<Region>)
    requires a + b == c
    ensures Occupied(c) == Occupied(a) + Occupied(b) && UsedSize(c) == UsedSize(a) + UsedSize(b)
  {
    hide Occupied, UsedSize;
    ConcatAdds(a, b);
  }

  lemma Singleton(r: Region)
    ensures Occupied([r]) == Extent(r) && UsedSize([r]) == r.size
  {
    assert [r][..0] == [];
  }

  lemma InsertThenRemove(regions: seq<Region>, i: nat, r: Region)
    requires i <= |regions|
    ensures Insert(regions, i, r)[i] == r
    ensures RemoveAt(Insert(regions, i, r), i) == regions
  {
  }

  lemma RemoveThenInsert(regions: seq<Region>, i: nat)
    requires i < |regions|
    ensures Insert(RemoveAt(regions, i), i, regions[i]) == regions
    ensures forall k :: 0 <= k < |regions| - 1 ==> RemoveAt(regions, i)[k] == regions[if k < i then k else k + 1]
  {
  }

  lemma InsertAt(regions: seq<Region>, k: nat, r: Region)
    requires k <= |regions|
    ensures var rs := Insert(regions, k, r);
            && |rs| == |regions| + 1 && rs[k] == r
            && (forall i :: 0 <= i < k ==> rs[i] == regions[i])
            && (forall i :: k < i < |rs| ==> rs[i] == regions[i - 1])
  {
  }

  lemma InsertKeepsWellFormed(regions: seq<Region>, total: nat, k: nat, size: nat)
    requires WellFormed(regions, total) && k <= |regions| && size > 0
    requires GapStart(regions, k) + size <= GapEnd(regions, total, k)
    ensures WellFormed(Insert(regions, k, Region(GapStart(regions, k), size)), total)
  {
    hide Insert;
    var r := Region(GapStart(regions, k), size);
    InsertAt(regions, k, r);
    forall i | 0 <= i < k ensures regions[i].End() <= r.offset {
      if i < k - 1 { assert regions[i].End() <= regions[k - 1].offset; }
    }
    forall i | k <= i < |regions| ensures r.End() <= regions[i].offset {
      if k < i { assert regions[k].End() <= regions[i].offset; }
    }
    var rs := Insert(regions, k, r);
    forall i, j | 0 <= i < j < |rs| ensures rs[i].End() <= rs[j].offset {
      assert i != k && j != k ==>
             rs[i] == regions[if i < k then i else i - 1] && rs[j] == regions[if j < k then j else j - 1];
    }
  }

  /** What an allocated offset is: a gap of the old vector. */
  lemma AllocationInserts(regions: seq<Region>, total: nat, size: nat) returns (k: nat)
    requires Allocation(regions, total, size).1.Some?
    ensures size > 0 && k <= |regions| && FirstGap(regions, total, size, 0) == Some(k)
    ensures GapStart(regions, k) + size <= GapEnd(regions, total, k)
    ensures Allocation(regions, total, size)
         == (Insert(regions, k, Region(GapStart(regions, k), size)), Some(GapStart(regions, k)))
  {
    FirstGapIsFirst(regions, total, size, 0);
    k := FirstGap(regions, total, size, 0).value;
  }

  lemma ApartExtents(a: Region, b: Region)
    requires Apart(a, b)
    ensures Extent(a) !! Extent(b)
  {
  }

  lemma {:induction false} FitsIsFree(regions: seq<Region>, total: nat, offset: nat, size: nat)
    requires Fits(regions, total, offset, size)
    ensures Occupied(regions) !! Extent(Region(offset, size))
  {
    if regions != [] {
      FitsIsFree(regions[..|regions| - 1], total, offset, size);
      ApartExtents(Region(offset, size), regions[|regions| - 1]);
    }
  }

  /** A successful `allocate` adds exactly the bytes it hands out, all of them free before. */
  lemma AllocationAddsItsBytes(regions: seq<Region>, total: nat, size: nat)
    requires WellFormed(regions, total)
    ensures var (rs, o) := Allocation(regions, total, size);
            && WellFormed(rs, total)
            && (o.None? ==> rs == regions)
            && (o.Some? ==>
                  && Occupied(rs) == Occupied(regions) + Extent(Region(o.value, size))
                  && Occupied(regions) !! Extent(Region(o.value, size))
                  && UsedSize(rs) == UsedSize(regions) + size)
  {
    if Allocation(regions, total, size).1.Some? {
      var k := AllocationInserts(regions, total, size);
      var r := Region(GapStart(regions, k), size);
      InsertAdds(regions, k, r);
      InsertKeepsWellFormed(regions, total, k, size);
      GapFits(regions, total, k, size);
      FitsIsFree(regions, total, r.offset, size);
    }
  }

  // ---------------------------------------------------------------- free

  lemma {:induction false} ReleaseAbsent(regions: seq<Region>, offset: nat)
    requires forall i :: 0 <= i < |regions| ==> regions[i].offset != offset
    ensures Release(regions, offset) == regions
  {
    if regions != [] { ReleaseAbsent(regions[..|regions| - 1], offset); }
  }

  lemma ReleaseLast(regions: seq<Region>, offset: nat)
    requires regions != []
    ensures var rest := Release(regions[..|regions| - 1], offset); var last := regions[|regions| - 1];
            Release(regions, offset) == if last.offset == offset then rest else rest + [last]
  {
  }

  lemma RemoveBeforeLast(regions: seq<Region>, i: nat)
    requires i < |regions| - 1
    ensures RemoveAt(regions, i) == RemoveAt(regions[..|regions| - 1], i) + [regions[|regions| - 1]]
  {
  }

  lemma OffsetsGrow(regions: seq<Region>, total: nat, i: nat, j: nat)
    requires WellFormed(regions, total) && i < j < |regions|
    ensures regions[i].offset < regions[j].offset
  {
    assert regions[i].End() <= regions[j].offset;
  }

  /** In a well-formed vector `free` takes out the one region that starts at the offset. */
  lemma {:induction false} ReleaseRemovesOne(regions: seq<Region>, total: nat, i: nat)
    requires WellFormed(regions, total) && i < |regions|
    ensures Release(regions, regions[i].offset) == RemoveAt(regions, i)
  {
    hide Release;
    var n := |regions| - 1;
    var init, offset := regions[..n], regions[i].offset;
    ReleaseLast(regions, offset);
    if i == n {
      forall k | 0 <= k < n ensures init[k].offset != offset { OffsetsGrow(regions, total, k, n); }
      ReleaseAbsent(init, offset);
    } else {
      hide RemoveAt;
      assert WellFormed(init, total);
      OffsetsGrow(regions, total, i, n);
      ReleaseRemovesOne(init, total, i);
      RemoveBeforeLast(regions, i);
    }
  }

  lemma RemoveKeepsWellFormed(regions: seq<Region>, total: nat, i: nat)
    requires WellFormed(regions, total) && i < |regions|
    ensures WellFormed(RemoveAt(regions, i), total)
    ensures forall k :: 0 <= k < |regions| - 1 ==> RemoveAt(regions, i)[k].offset != regions[i].offset
    ensures forall k :: 0 <= k < |regions| - 1 ==> Apart(regions[i], RemoveAt(regions, i)[k])
  {
    RemoveThenInsert(regions, i);
  }

  lemma {:induction false} OccupiedApart(regions: seq<Region>, r: Region)
    requires forall i :: 0 <= i < |regions| ==> Apart(r, regions[i])
    ensures Occupied(regions) !! Extent(r)
  {
    if regions != [] {
      OccupiedApart(regions[..|regions| - 1], r);
      ApartExtents(r, regions[|regions| - 1]);
    }
  }

  lemma UndoInsert(rs: seq<Region>, i: nat, r: Region, regions: seq<Region>)
    requires i <= |rs| && regions == Insert(rs, i, r)
    requires forall k :: 0 <= k < |rs| ==> Apart(r, rs[k])
    ensures Occupied(rs) == Occupied(regions) - Extent(r)
    ensures UsedSize(regions) == UsedSize(rs) + r.size
  {
    InsertAdds(rs, i, r);
    OccupiedApart(rs, r);
  }

  /** `free` of a live offset gives back exactly that region's bytes. */
  lemma ReleaseReturnsItsBytes(regions: seq<Region>, total: nat, i: nat)
    requires WellFormed(regions, total) && i < |regions|
    ensures var rs := Release(regions, regions[i].offset);
            && WellFormed(rs, total)
            && Occupied(rs) == Occupied(regions) - Extent(regions[i])
            && UsedSize(regions) == UsedSize(rs) + regions[i].size
  {
    ReleaseRemovesOne(regions, total, i);
    RemoveKeepsWellFormed(regions, total, i);
    RemoveThenInsert(regions, i);
    UndoInsert(RemoveAt(regions, i), i, regions[i], regions);
  }

  /** `free` right after `allocate` restores the region vector exactly. */
  lemma FreeUndoesAllocate(regions: seq<Region>, total: nat, size: nat)
    requires WellFormed(regions, total) && Allocation(regions, total, size).1.Some?
    ensures Release(Allocation(regions, total, size).0, Allocation(regions, total, size).1.value) == regions
  {
    var k := AllocationInserts(regions, total, size);
    var r := Region(GapStart(regions, k), size);
    InsertKeepsWellFormed(regions, total, k, size);
    InsertThenRemove(regions, k, r);
    ReleaseRemovesOne(Insert(regions, k, r), total, k);
  }

  // ---------------------------------------------------------------- whole runs

  datatype Op = Alloc(size: nat) | Free(offset: nat)

  function Apply(regions: seq<Region>, total: nat, op: Op): seq<Region> {
    match op
    case Alloc(size) => Allocation(regions, total, size).0
    case Free(offset) => Release(regions, offset)
  }

  function Run(total: nat, ops: seq<Op>): seq<Region> {
    if ops == [] then [] else Apply(Run(total, ops[..|ops| - 1]), total, ops[|ops| - 1])
  }

  /** The live buffers seen from outside: a set of intervals, in no order. */
  ghost function Live(regions: seq<Region>): set<Region> {
    set r | r in regions
  }

  ghost predicate FreeFor(live: set<Region>, total: nat, r: Region) {
    r.End() <= total && forall q :: q in live ==> Apart(r, q)
  }

  ghost predicate LeastFree(live: set<Region>, total: nat, r: Region) {
    && FreeFor(live, total, r)
    && forall p: nat :: p < r.offset ==> !FreeFor(live, total, Region(p, r.size))
  }

  /** One call described without any scan: it takes the least interval whose bytes are all free,
      leaves the buffers alone when there is none, or gives one buffer up. */
  ghost predicate IntervalStep(live: set<Region>, total: nat, op: Op, live': set<Region>) {
    match op
    case Free(offset) => live' == set r | r in live && r.offset != offset
    case Alloc(size) =>
      || (exists r: Region :: r.size == size && size > 0 && LeastFree(live, total, r) && live' == live + {r})
      || (live' == live && (size > 0 ==> forall p: nat :: !FreeFor(live, total, Region(p, size))))
  }

  lemma FreeForIsFits(regions: seq<Region>, total: nat, offset: nat, size: nat)
    ensures FreeFor(Live(regions), total, Region(offset, size)) <==> Fits(regions, total, offset, size)
  {
    if FreeFor(Live(regions), total, Region(offset, size)) {
      forall i | 0 <= i < |regions| ensures Apart(Region(offset, size), regions[i]) {
        assert regions[i] in Live(regions);
      }
    }
  }

  lemma AllocRefinesIntervals(regions: seq<Region>, total: nat, size: nat)
    requires WellFormed(regions, total)
    ensures IntervalStep(Live(regions), total, Alloc(size), Live(Allocation(regions, total, size).0))
  {
    AllocationIsLeastFit(regions, total, size);
    forall p: nat ensures FreeFor(Live(regions), total, Region(p, size)) <==> Fits(regions, total, p, size) {
      FreeForIsFits(regions, total, p, size);
    }
    if Allocation(regions, total, size).1.Some? {
      var k := AllocationInserts(regions, total, size);
      var r := Region(GapStart(regions, k), size);
      LiveInsert(regions, k, r);
      assert LeastFree(Live(regions), total, r);
    }
  }

  lemma LiveInsert(regions: seq<Region>, k: nat, r: Region)
    requires k <= |regions|
    ensures Live(Insert(regions, k, r)) == Live(regions) + {r}
  {
    assert regions == regions[..k] + regions[k..];
  }

  lemma {:induction false} LiveRelease(regions: seq<Region>, offset: nat)
    ensures forall r :: r in Release(regions, offset) <==> r in regions && r.offset != offset
  {
    if regions != [] {
      var n := |regions| - 1;
      var init, last := regions[..n], regions[n];
      LiveRelease(init, offset);
      assert forall r :: r in regions <==> r in init || r == last;
    }
  }

  lemma ReleaseKeepsWellFormed(regions: seq<Region>, total: nat, offset: nat)
    requires WellFormed(regions, total)
    ensures WellFormed(Release(regions, offset), total)
  {
    if i :| 0 <= i < |regions| && regions[i].offset == offset {
      ReleaseReturnsItsBytes(regions, total, i);
    } else {
      ReleaseAbsent(regions, offset);
    }
  }

  lemma StepRefinesInterval(regions: seq<Region>, total: nat, op: Op)
    requires WellFormed(regions, total)
    ensures WellFormed(Apply(regions, total, op), total)
    ensures IntervalStep(Live(regions), total, op, Live(Apply(regions, total, op)))
  {
    hide WellFormed, Release, Allocation, Occupied, UsedSize;
    match op {
      case Alloc(size) => AllocRefinesIntervals(regions, total, size); AllocationAddsItsBytes(regions, total, size);
      case Free(offset) => LiveRelease(regions, offset); ReleaseKeepsWellFormed(regions, total, offset);
    }
  }

  lemma RunLast(total: nat, before: seq<Op>, op: Op, ops: seq<Op>)
    requires ops == before + [op]
    ensures Run(total, ops) == Apply(Run(total, before), total, op)
  {
    hide Apply;
    assert ops[..|ops| - 1] == before;
  }

  lemma {:induction false} RunsStayWellFormed(total: nat, ops: seq<Op>)
    ensures WellFormed(Run(total, ops), total)
  {
    hide Apply, IntervalStep;
    if ops != [] {
      var n := |ops| - 1;
      RunsStayWellFormed(total, ops[..n]);
      StepRefinesInterval(Run(total, ops[..n]), total, ops[n]);
    }
  }

  /** Over every run of calls the regions stay sorted, disjoint and in bounds, and every call of
      the run acts on the buffers as an interval step. */
  lemma RunsRefineIntervals(total: nat, ops: seq<Op>, k: nat)
    requires k < |ops|
    ensures WellFormed(Run(total, ops), total)
    ensures IntervalStep(Live(Run(total, ops[..k])), total, ops[k], Live(Run(total, ops[..k + 1])))
  {
    hide Run, IntervalStep, Apply, WellFormed, Live;
    RunsStayWellFormed(total, ops);
    RunsStayWellFormed(total, ops[..k]);
    StepRefinesInterval(Run(total, ops[..k]), total, ops[k]);
    assert ops[..k + 1] == ops[..k] + [ops[k]];
    RunLast(total, ops[..k], ops[k], ops[..k + 1]);
  }

  /** `m_used_size` counts the occupied bytes, so the pool reads as empty or full exactly when
      no byte or every byte of the buffer is taken. */
  lemma {:induction false} UsedSizeCountsBytes(regions: seq<Region>, total: nat)
    requires WellFormed(regions, total)
    ensures UsedSize(regions) == |Occupied(regions)| <= total
    ensures UsedSize(regions) == 0 <==> regions == []
    ensures UsedSize(regions) == total <==> Occupied(regions) == Span(0, total)
  {
    UsedSizeIsCount(regions, total);
    SubsetSize(Occupied(regions), Span(0, total));
  }

  lemma {:induction false} UsedSizeIsCount(regions: seq<Region>, total: nat)
    requires WellFormed(regions, total)
    ensures UsedSize(regions) == |Occupied(regions)| && Occupied(regions) <= Span(0, total)
    ensures UsedSize(regions) == 0 ==> regions == []
  {
    if regions != [] {
      var n := |regions| - 1;
      var init, last := regions[..n], regions[n];
      assert WellFormed(init, total) && last.size > 0 && last.End() <= total;
      UsedSizeIsCount(init, total);
      LastIsApart(regions, total);
      LastAdds(regions);
      hide WellFormed, Occupied, UsedSize;
      DisjointUnion(Occupied(init), Extent(last));
    }
  }

  lemma LastAdds(regions: seq<Region>)
    requires regions != []
    ensures Occupied(regions) == Occupied(regions[..|regions| - 1]) + Extent(regions[|regions| - 1])
    ensures UsedSize(regions) == UsedSize(regions[..|regions| - 1]) + regions[|regions| - 1].size
  {
  }

  lemma LastIsApart(regions: seq<Region>, total: nat)
    requires WellFormed(regions, total) && regions != []
    ensures Occupied(regions[..|regions| - 1]) !! Extent(regions[|regions| - 1])
  {
    OccupiedApart(regions[..|regions| - 1], regions[|regions| - 1]);
  }

  lemma DisjointUnion(a: set<int>, b: set<int>)
    requires a !! b
    ensures |a + b| == |a| + |b|
  {
  }

  lemma SubsetSize(a: set<int>, b: set<int>)
    requires a <= b
    ensures |a| <= |b| && (|a| == |b| <==> a == b)
  {
    assert b == a + (b - a);
  }

  // ---------------------------------------------------------------- the class

  /** The scan of `allocate` may stop at the first gap it finds. */
  lemma GapTaken(regions: seq<Region>, total: nat, size: nat, i: nat)
    requires WellFormed(regions, total) && size > 0 && i <= |regions|
    requires FirstGap(regions, total, size, 0) == FirstGap(regions, total, size, i)
    requires GapEnd(regions, total, i) - GapStart(regions, i) >= size
    ensures var r := Region(GapStart(regions, i), size);
            && Allocation(regions, total, size) == (Insert(regions, i, r), Some(r.offset))
            && WellFormed(Insert(regions, i, r), total)
            && UsedSize(Insert(regions, i, r)) == UsedSize(regions) + size
            && (i == |regions| ==> Insert(regions, i, r) == regions + [r])
  {
    hide Occupied, UsedSize, WellFormed, FirstGap;
    AllocationAddsItsBytes(regions, total, size);
    GapIsTheOne(regions, total, size, i);
  }

  lemma GapIsTheOne(regions: seq<Region>, total: nat, size: nat, i: nat)
    requires size > 0 && i <= |regions| && FirstGap(regions, total, size, 0) == FirstGap(regions, total, size, i)
    requires GapEnd(regions, total, i) - GapStart(regions, i) >= size
    ensures Allocation(regions, total, size)
            == (Insert(regions, i, Region(GapStart(regions, i), size)), Some(GapStart(regions, i)))
  {
    hide Insert;
  }

  lemma AllocationFails(regions: seq<Region>, total: nat, size: nat)
    ensures FirstGap(regions, total, size, 0).None? ==> Allocation(regions, total, size) == (regions, None)
  {
  }

  class Pool {
    const totalSize: nat
    var regions: seq<Region>
    var usedSize: nat

    ghost predicate Valid()
      reads this
    {
      WellFormed(regions, totalSize) && usedSize == UsedSize(regions)
    }

    constructor (totalSize: nat)
      ensures Valid() && regions == [] && this.totalSize == totalSize
    {
      this.totalSize := totalSize;
      regions, usedSize := [], 0;
    }

    /** Puts a region into the vector and counts its bytes. */
    method Place(i: nat, cursor: nat, size: nat)
      requires Valid() && size > 0 && i <= |regions| && cursor == GapStart(regions, i)
      requires FirstGap(regions, totalSize, size, 0) == FirstGap(regions, totalSize, size, i)
      requires GapEnd(regions, totalSize, i) - cursor >= size
      modifies this
      ensures Valid()
      ensures (regions, Some(cursor)) == Allocation(old(regions), totalSize, size)
    {
      GapTaken(regions, totalSize, size, i);
      regions := regions[..i] + [Region(cursor, size)] + regions[i..];
      usedSize := usedSize + size;
    }

    method Allocate(size: nat) returns (ptr: Option<nat>)
      requires Valid()
      modifies this
      ensures Valid()
      ensures (regions, ptr) == Allocation(old(regions), totalSize, size)
    {
      if size == 0 {
        return None;
      }
      hide WellFormed, UsedSize, Allocation;
      AllocationFails(regions, totalSize, size);
      var cursor := 0;
      var i := 0;
      while i < |regions|
        invariant 0 <= i <= |regions| && cursor == GapStart(regions, i)
        invariant FirstGap(regions, totalSize, size, 0) == FirstGap(regions, totalSize, size, i)
        invariant regions == old(regions) && Valid()
      {
        GapStartsGrow(regions, totalSize, i, i);  // the source's unsigned subtraction cannot wrap
        if regions[i].offset - cursor >= size {
          Place(i, cursor, size);
          return Some(cursor);
        }
        cursor := regions[i].End();
        i := i + 1;
      }
      GapStartsGrow(regions, totalSize, i, i);
      if totalSize - cursor >= size {
        Place(i, cursor, size);
        return Some(cursor);
      }
      return None;
    }

    /** Takes one region out of the vector and its bytes off the count. */
    method Erase(i: nat)
      requires Valid() && i < |regions|
      modifies this
      ensures Valid()
      ensures regions == Release(old(regions), old(regions[i].offset)) && |regions| == |old(regions)| - 1
      ensures forall k :: 0 <= k < |regions| ==> regions[k].offset != old(regions[i].offset)
    {
      ReleaseReturnsItsBytes(regions, totalSize, i);
      ReleaseRemovesOne(regions, totalSize, i);
      RemoveKeepsWellFormed(regions, totalSize, i);
      usedSize := usedSize - regions[i].size;
      regions := regions[..i] + regions[i + 1..];
    }

    /** The scan runs on after an erase and then steps over one entry, as the source does. */
    method Free(ptr: Option<nat>)
      requires Valid()
      modifies this
      ensures Valid()
      ensures regions == if ptr.None? then old(regions) else Release(old(regions), ptr.value)
    {
      if ptr.None? {
        return;
      }
      var offset := ptr.value;
      ghost var found := false;
      var i := 0;
      while i < |regions|
        invariant 0 <= i && Valid()
        invariant !found ==> regions == old(regions) && i <= |regions|
        invariant !found ==> forall k :: 0 <= k < i ==> regions[k].offset != offset
        invariant found ==> regions == Release(old(regions), offset)
        invariant found ==> forall k :: 0 <= k < |regions| ==> regions[k].offset != offset
        decreases |regions| - i
      {
        if regions[i].offset == offset {
          Erase(i);
          found := true;
        }
        i := i + 1;
      }
      if !found { ReleaseAbsent(regions, offset); }
    }

    method Reset()
      modifies this
      ensures Valid() && regions == []
    {
      regions, usedSize := [], 0;
    }

    /** The accessors agree with the buffer: used and free bytes fill it, `empty` means that no
        byte is taken and `full` that every byte is. */
    method Usage() returns (used: nat, free: nat, count: nat, empty: bool, full: bool)
      requires Valid()
      ensures used == |Occupied(regions)| && used + free == totalSize && count == |regions|
      ensures empty <==> regions == []
      ensures full <==> Occupied(regions) == Span(0, totalSize)
    {
      UsedSizeCountsBytes(regions, totalSize);
      used, free, count := usedSize, totalSize - usedSize, |regions|;
      empty, full := usedSize == 0, usedSize == totalSize;
    }
  }
}
