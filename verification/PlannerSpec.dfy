/**
  What one call on the planner does to its state, as functions of that state, and the invariant
  every call keeps.

  One description serves both modes. In plain mode no allocation carries a schedule and any two
  live blocks conflict; in counter mode two blocks conflict when their schedules meet.
*/
module PlannerSpec {
  import opened Wrappers
  import opened Schedules
  import opened MemPattern

  /** `OrtValueAllocationBlock`; `reuse_` is `counter.Some?`. */
  datatype Allocation = Allocation(index: int, block: MemoryBlock, counter: Option<Schedule>)

  datatype State = State(allocs: seq<Allocation>, blocks: seq<nat>, bufferSize: nat, usingCounters: bool) {
    predicate InRange() {
      forall k :: 0 <= k < |blocks| ==> blocks[k] < |allocs|
    }

    /** The `k`-th entry of the list of live blocks. */
    function Live(k: nat): Allocation
      requires InRange() && k < |blocks|
    {
      allocs[blocks[k]]
    }
  }

  ghost predicate ValidCounter(c: Option<Schedule>) {
    c.Some? ==> c.value.Valid()
  }

  /** Two values that may not share a byte. */
  ghost predicate Conflict(a: Option<Schedule>, b: Option<Schedule>) {
    a.None? || b.None? || Meet(a.value, b.value)
  }

  // ----- The invariant

  function MaxEnd(allocs: seq<Allocation>): nat {
    if allocs == [] then 0
    else
      var rest := MaxEnd(allocs[..|allocs| - 1]);
      var end := allocs[|allocs| - 1].block.End();
      if end > rest then end else rest
  }

  ghost predicate GoodAllocation(a: Allocation, usingCounters: bool) {
    && ValidCounter(a.counter)
    && (a.block.size == 0 ==> a.block.offset == 0)
    && (a.counter.Some? <==> usingCounters && a.block.size > 0)
  }

  /** Order of the live list: by offset, then by size. */
  predicate Precedes(a: MemoryBlock, b: MemoryBlock) {
    a.offset < b.offset || (a.offset == b.offset && a.size < b.size)
  }

  ghost predicate Sorted(st: State)
    requires st.InRange()
  {
    forall i, j :: 0 <= i < j < |st.blocks| ==> !Precedes(st.Live(j).block, st.Live(i).block)
  }

  /** Conflicting live blocks have no byte in common. */
  ghost predicate Separated(st: State)
    requires st.InRange()
  {
    forall i, j :: 0 <= i < j < |st.blocks| && Conflict(st.Live(i).counter, st.Live(j).counter)
      ==> Disjoint(st.Live(i).block, st.Live(j).block)
  }

  ghost predicate DistinctBlocks(st: State) {
    forall i, j :: 0 <= i < j < |st.blocks| ==> st.blocks[i] != st.blocks[j]
  }

  ghost predicate NonEmptyBlocks(st: State)
    requires st.InRange()
  {
    forall k :: 0 <= k < |st.blocks| ==> st.Live(k).block.size > 0
  }

  ghost predicate GoodAllocations(st: State) {
    forall i :: 0 <= i < |st.allocs| ==> GoodAllocation(st.allocs[i], st.usingCounters)
  }

  ghost predicate Valid(st: State) {
    && st.InRange()
    && GoodAllocations(st)
    && NonEmptyBlocks(st)
    && DistinctBlocks(st)
    && Sorted(st)
    && Separated(st)
    && st.bufferSize == MaxEnd(st.allocs)
    && st.bufferSize <= SIZE_MAX
  }

  // ----- Gaps between the blocks that conflict with a new value

  ghost predicate Obstacle(st: State, c: Option<Schedule>, k: nat)
    requires st.InRange() && k < |st.blocks|
  {
    Conflict(c, st.Live(k).counter)
  }

  /** The first byte that no obstacle among the first `k` live blocks reaches. */
  ghost function Reach(st: State, c: Option<Schedule>, k: nat): nat
    requires st.InRange() && k <= |st.blocks|
  {
    if k == 0 then 0
    else
      var rest := Reach(st, c, k - 1);
      var end := st.Live(k - 1).block.End();
      if Obstacle(st, c, k - 1) && end > rest then end else rest
  }

  /** Gap `k` ends where live block `k` starts; the tail gap ends with the buffer. */
  function GapEnd(st: State, k: nat): nat
    requires st.InRange() && k <= |st.blocks|
  {
    if k < |st.blocks| then st.Live(k).block.offset else st.bufferSize
  }

  ghost function Waste(st: State, c: Option<Schedule>, size: nat, k: nat): int
    requires st.InRange() && k <= |st.blocks|
  {
    GapEnd(st, k) - Reach(st, c, k) - size
  }

  ghost predicate Fits(st: State, c: Option<Schedule>, size: nat, k: nat)
    requires st.InRange() && k <= |st.blocks|
  {
    (k < |st.blocks| ==> Obstacle(st, c, k)) && Waste(st, c, size, k) >= 0
  }

  /** `g` is the gap of least waste among the first `k`, the earliest of them on ties. */
  ghost predicate IsBestGap(st: State, c: Option<Schedule>, size: nat, k: nat, g: Option<nat>)
    requires st.InRange() && k <= |st.blocks| + 1
  {
    match g
    case None => forall j :: 0 <= j < k ==> !Fits(st, c, size, j)
    case Some(b) =>
      && b < k
      && Fits(st, c, size, b)
      && (forall j :: 0 <= j < k && Fits(st, c, size, j) ==> Waste(st, c, size, b) <= Waste(st, c, size, j))
      && (forall j :: 0 <= j < b && Fits(st, c, size, j) ==> Waste(st, c, size, b) < Waste(st, c, size, j))
  }

  ghost function BestGap(st: State, c: Option<Schedule>, size: nat, k: nat): (g: Option<nat>)
    requires st.InRange() && k <= |st.blocks| + 1
    ensures g.Some? ==> g.value < k
  {
    if k == 0 then None
    else
      var g := BestGap(st, c, size, k - 1);
      if Fits(st, c, size, k - 1) && (g.None? || Waste(st, c, size, k - 1) < Waste(st, c, size, g.value))
      then Some(k - 1) else g
  }

  ghost function Placement(st: State, c: Option<Schedule>, size: nat): nat
    requires st.InRange()
  {
    match BestGap(st, c, size, |st.blocks| + 1)
    case Some(k) => Reach(st, c, k)
    case None => Reach(st, c, |st.blocks|)
  }

  // ----- One call

  /** Where a new block goes in the live list: before the first block that does not precede it. */
  function InsertPosition(st: State, b: MemoryBlock, k: nat): (p: nat)
    requires st.InRange() && k <= |st.blocks|
    ensures k <= p <= |st.blocks|
    ensures forall i :: k <= i < p ==> Precedes(st.Live(i).block, b)
    ensures p < |st.blocks| ==> !Precedes(st.Live(p).block, b)
    decreases |st.blocks| - k
  {
    if k < |st.blocks| && Precedes(st.Live(k).block, b) then InsertPosition(st, b, k + 1) else k
  }

  /** The call is refused: wrong overload for the mode, or the buffer would outgrow `size_t`. */
  ghost predicate Refused(st: State, c: Option<Schedule>, size: nat)
    requires st.InRange()
  {
    c.Some? != st.usingCounters || (size > 0 && Placement(st, c, size) + size > SIZE_MAX)
  }

  function Placed(st: State, a: Allocation): State
    requires st.InRange()
  {
    var p := InsertPosition(st, a.block, 0);
    st.(allocs := st.allocs + [a],
        blocks := st.blocks[..p] + [|st.allocs|] + st.blocks[p..],
        bufferSize := if a.block.End() > st.bufferSize then a.block.End() else st.bufferSize)
  }

  ghost function AfterAllocation(st: State, index: int, c: Option<Schedule>, size: nat): State
    requires st.InRange()
  {
    if Refused(st, c, size) then st
    else if size == 0 then st.(allocs := st.allocs + [Allocation(index, MemoryBlock(0, 0), None)])
    else Placed(st, Allocation(index, MemoryBlock(Placement(st, c, size), size), c))
  }

  /** Position of the first live block with this index, or the length of the list. */
  function FindLive(st: State, index: int, k: nat): (p: nat)
    requires st.InRange() && k <= |st.blocks|
    ensures k <= p <= |st.blocks|
    ensures forall i :: k <= i < p ==> st.Live(i).index != index
    ensures p < |st.blocks| ==> st.Live(p).index == index
    decreases |st.blocks| - k
  {
    if k < |st.blocks| && st.Live(k).index != index then FindLive(st, index, k + 1) else k
  }

  function Removed(st: State, p: nat): State
    requires p < |st.blocks|
  {
    st.(blocks := st.blocks[..p] + st.blocks[p + 1..])
  }

  function AfterFree(st: State, index: int): State
    requires st.InRange()
  {
    var p := FindLive(st, index, 0);
    if p < |st.blocks| then Removed(st, p) else st
  }

  // ----- Facts about one call

  lemma {:induction false} MaxEndBounds(allocs: seq<Allocation>)
    ensures forall i :: 0 <= i < |allocs| ==> allocs[i].block.End() <= MaxEnd(allocs)
  {
    if allocs != [] {
      var init := allocs[..|allocs| - 1];
      MaxEndBounds(init);
      assert forall i :: 0 <= i < |init| ==> allocs[i] == init[i];
    }
  }

  lemma {:induction false} MaxEndIsReached(allocs: seq<Allocation>)
    ensures MaxEnd(allocs) == 0 || exists i :: 0 <= i < |allocs| && allocs[i].block.End() == MaxEnd(allocs)
  {
    if allocs != [] {
      var init, last := allocs[..|allocs| - 1], |allocs| - 1;
      if allocs[last].block.End() <= MaxEnd(init) && MaxEnd(init) > 0 {
        MaxEndIsReached(init);
        var i :| 0 <= i < |init| && init[i].block.End() == MaxEnd(init);
        assert allocs[i].block.End() == MaxEnd(allocs);
      } else {
        assert allocs[last].block.End() >= MaxEnd(allocs);
      }
    }
  }

  lemma {:induction false} ReachBounds(st: State, c: Option<Schedule>, k: nat)
    requires st.InRange() && k <= |st.blocks|
    ensures forall i :: 0 <= i < k && Obstacle(st, c, i) ==> st.Live(i).block.End() <= Reach(st, c, k)
    ensures Reach(st, c, k) == 0
         || exists i :: 0 <= i < k && Obstacle(st, c, i) && st.Live(i).block.End() == Reach(st, c, k)
  {
    if k > 0 {
      ReachBounds(st, c, k - 1);
    }
  }

  lemma {:induction false} BestGapIsBest(st: State, c: Option<Schedule>, size: nat, k: nat)
    requires st.InRange() && k <= |st.blocks| + 1
    ensures IsBestGap(st, c, size, k, BestGap(st, c, size, k))
  {
    if k > 0 {
      BestGapIsBest(st, c, size, k - 1);
    }
  }

  lemma LiveWithinBuffer(st: State, k: nat)
    requires Valid(st) && k < |st.blocks|
    ensures st.Live(k).block.End() <= st.bufferSize
  {
    MaxEndBounds(st.allocs);
  }

  lemma ReachWithinBuffer(st: State, c: Option<Schedule>, k: nat)
    requires Valid(st) && k <= |st.blocks|
    ensures Reach(st, c, k) <= st.bufferSize
  {
    ReachBounds(st, c, k);
    MaxEndBounds(st.allocs);
  }

  /** The planner never hands out a byte of a live block it conflicts with. */
  lemma PlacementAvoidsConflicts(st: State, c: Option<Schedule>, size: nat, i: nat)
    requires Valid(st) && size > 0 && i < |st.blocks| && Conflict(c, st.Live(i).counter)
    ensures Disjoint(MemoryBlock(Placement(st, c, size), size), st.Live(i).block)
  {
    assert Obstacle(st, c, i);
    var g := BestGap(st, c, size, |st.blocks| + 1);
    BestGapIsBest(st, c, size, |st.blocks| + 1);
    ReachBounds(st, c, if g.Some? then g.value else |st.blocks|);
    if g.Some? && g.value <= i {
      assert g.value < i ==> !Precedes(st.Live(i).block, st.Live(g.value).block);
    }
  }

  /** Position in the old list of entry `i` of a list with a new entry at `p`. */
  function Shifted(i: nat, p: nat): nat
    requires i != p
  {
    if i < p then i else i - 1
  }

  lemma PlacedLive(st: State, a: Allocation)
    requires st.InRange()
    ensures var st', p := Placed(st, a), InsertPosition(st, a.block, 0);
      && st'.InRange() && |st'.blocks| == |st.blocks| + 1
      && st'.Live(p) == a && st'.blocks[p] == |st.allocs|
      && forall i :: 0 <= i < |st'.blocks| && i != p ==>
           st'.Live(i) == st.Live(Shifted(i, p)) && st'.blocks[i] == st.blocks[Shifted(i, p)]
  {}

  lemma AllocationKeepsValid(st: State, index: int, c: Option<Schedule>, size: nat)
    requires Valid(st) && ValidCounter(c)
    ensures Valid(AfterAllocation(st, index, c, size))
  {
    if !Refused(st, c, size) {
      if size == 0 {
        EmptyBlockKeepsValid(st, index);
      } else {
        PlacedKeepsValid(st, Allocation(index, MemoryBlock(Placement(st, c, size), size), c));
      }
    }
  }

  lemma EmptyBlockKeepsValid(st: State, index: int)
    requires Valid(st)
    ensures Valid(st.(allocs := st.allocs + [Allocation(index, MemoryBlock(0, 0), None)]))
  {
    var st' := st.(allocs := st.allocs + [Allocation(index, MemoryBlock(0, 0), None)]);
    assert st'.allocs[..|st.allocs|] == st.allocs;
    assert forall k :: 0 <= k < |st.blocks| ==> st'.Live(k) == st.Live(k);
    assert Sorted(st') && Separated(st');
  }

  lemma PlacedKeepsValid(st: State, a: Allocation)
    requires Valid(st) && GoodAllocation(a, st.usingCounters)
    requires a.block.size > 0 && a.block.offset == Placement(st, a.counter, a.block.size) && a.block.End() <= SIZE_MAX
    ensures Valid(Placed(st, a))
  {
    assert Placed(st, a).allocs[..|st.allocs|] == st.allocs;
    InsertKeepsBlocks(st, a);
    InsertKeepsSorted(st, a);
    InsertKeepsSeparated(st, a);
  }

  lemma InsertKeepsBlocks(st: State, a: Allocation)
    requires st.InRange() && DistinctBlocks(st) && NonEmptyBlocks(st) && a.block.size > 0
    ensures Placed(st, a).InRange() && DistinctBlocks(Placed(st, a)) && NonEmptyBlocks(Placed(st, a))
  {
    PlacedLive(st, a);
  }

  lemma InsertKeepsSorted(st: State, a: Allocation)
    requires st.InRange() && Sorted(st)
    ensures Placed(st, a).InRange() && Sorted(Placed(st, a))
  {
    PlacedLive(st, a);
  }

  lemma InsertKeepsSeparated(st: State, a: Allocation)
    requires Valid(st) && a.block.size > 0 && a.block.offset == Placement(st, a.counter, a.block.size)
    ensures Placed(st, a).InRange() && Separated(Placed(st, a))
  {
    PlacedLive(st, a);
    forall i | 0 <= i < |st.blocks| && Conflict(a.counter, st.Live(i).counter)
      ensures Disjoint(a.block, st.Live(i).block)
    {
      PlacementAvoidsConflicts(st, a.counter, a.block.size, i);
    }
  }

  predicate IsFirstLive(st: State, index: int, k: nat)
    requires st.InRange()
  {
    k < |st.blocks| && st.Live(k).index == index && forall j :: 0 <= j < k ==> st.Live(j).index != index
  }

  /** A free takes the first live block of the index out of the list, and does nothing without one. */
  lemma FreeDropsFirst(st: State, index: int)
    requires st.InRange()
    ensures AfterFree(st, index).allocs == st.allocs && AfterFree(st, index).bufferSize == st.bufferSize
    ensures forall k: nat :: IsFirstLive(st, index, k) ==>
      AfterFree(st, index).blocks == st.blocks[..k] + st.blocks[k + 1..]
    ensures (forall k: nat :: !IsFirstLive(st, index, k)) ==> AfterFree(st, index) == st
  {
    var p := FindLive(st, index, 0);
    assert p < |st.blocks| ==> IsFirstLive(st, index, p);
  }

  /** In the right mode a call is refused only if the buffer and the value are more than a `size_t`. */
  lemma RefusedMeansFull(st: State, c: Option<Schedule>, size: nat)
    requires Valid(st) && c.Some? == st.usingCounters && Refused(st, c, size)
    ensures size > 0 && st.bufferSize + size > SIZE_MAX
  {
    var g := BestGap(st, c, size, |st.blocks| + 1);
    ReachWithinBuffer(st, c, if g.Some? then g.value else |st.blocks|);
  }

  lemma FreeKeepsValid(st: State, index: int)
    requires Valid(st)
    ensures Valid(AfterFree(st, index))
  {
    var p := FindLive(st, index, 0);
    if p < |st.blocks| {
      RemoveKeepsBlocks(st, p);
      RemoveKeepsOrder(st, p);
    }
  }

  lemma RemovedLive(st: State, p: nat)
    requires st.InRange() && p < |st.blocks|
    ensures var st' := Removed(st, p);
      && st'.InRange() && |st'.blocks| == |st.blocks| - 1
      && forall i :: 0 <= i < |st'.blocks| ==>
           var i' := if i < p then i else i + 1;
           st'.blocks[i] == st.blocks[i'] && st'.Live(i) == st.Live(i')
  {}

  lemma RemoveKeepsBlocks(st: State, p: nat)
    requires st.InRange() && DistinctBlocks(st) && NonEmptyBlocks(st) && p < |st.blocks|
    ensures Removed(st, p).InRange() && DistinctBlocks(Removed(st, p)) && NonEmptyBlocks(Removed(st, p))
  {
    RemovedLive(st, p);
  }

  lemma RemoveKeepsOrder(st: State, p: nat)
    requires st.InRange() && Sorted(st) && Separated(st) && p < |st.blocks|
    ensures Removed(st, p).InRange() && Sorted(Removed(st, p)) && Separated(Removed(st, p))
  {
    RemovedLive(st, p);
  }
}
