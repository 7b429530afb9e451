/** The planner object: the loops of the original, each proved against `PlannerSpec`. */
module Planner {
  import opened Wrappers
  import opened Schedules
  import opened MemPattern
  import opened PlannerSpec

  /** Two allocations with schedules that meet share a byte. */
  ghost predicate Clash(a: Allocation, b: Allocation) {
    a.counter.Some? && b.counter.Some? && Meet(a.counter.value, b.counter.value) && !Disjoint(a.block, b.block)
  }

  ghost predicate ClashFree(allocs: seq<Allocation>) {
    forall i, j :: 0 <= i < j < |allocs| ==> !Clash(allocs[i], allocs[j])
  }

  /** The block planned for each index; a later allocation with the same index replaces an earlier one. */
  function PatternOf(allocs: seq<Allocation>): map<int, MemoryBlock> {
    if allocs == [] then map[]
    else
      var last := allocs[|allocs| - 1];
      PatternOf(allocs[..|allocs| - 1])[last.index := last.block]
  }

  /** The loop variables of the scan hold the best gap found so far. */
  ghost predicate Remembers(st: State, g: Option<nat>, c: Option<Schedule>, size: nat,
                            wasteBytes: nat, bestOffset: nat, bestOffsetFound: bool)
    requires st.InRange() && (g.Some? ==> g.value <= |st.blocks|)
  {
    && bestOffsetFound == g.Some?
    && match g
       case Some(b) => bestOffset == Reach(st, c, b) && wasteBytes == Waste(st, c, size, b)
       case None => wasteBytes == SIZE_MAX
  }

  class MemPatternPlanner {
    var allocs: seq<Allocation>
    var blocks: seq<nat>
    var bufferSize: nat
    const usingCounters: bool

    function State(): State
      reads this
    {
      PlannerSpec.State.State(allocs, blocks, bufferSize, usingCounters)
    }

    ghost predicate Valid()
      reads this
    {
      PlannerSpec.Valid(State())
    }

    constructor (usingCounters: bool)
      ensures Valid()
      ensures State() == PlannerSpec.State.State([], [], 0, usingCounters)
    {
      allocs, blocks, bufferSize := [], [], 0;
      this.usingCounters := usingCounters;
    }

    /** Whether two time schedules intersect, by walking both interval lists once. */
    method OverlappingTimeSchedules(c1: Schedule, c2: Schedule) returns (overlap: bool)
      requires c1.Valid() && c2.Valid()
      ensures overlap <==> Meet(c1, c2)
    {
      MeetIffTouch(c1, c2);
      var i1, i2 := 0, 0;
      while i1 < |c1.starts| && i2 < |c2.starts|
        invariant 0 <= i1 <= |c1.starts| && 0 <= i2 <= |c2.starts|
        invariant forall i: nat, j: nat ::
          i < |c1.starts| && j < |c2.starts| && (i < i1 || j < i2) ==> !Touch(c1, i, c2, j)
        decreases |c1.starts| + |c2.starts| - i1 - i2
      {
        if c1.starts[i1] <= c2.starts[i2] {
          if c1.ends[i1] >= c2.starts[i2] {
            assert Touch(c1, i1, c2, i2);
            return true;
          }
          i1 := i1 + 1;
        } else {
          if c2.ends[i2] >= c1.starts[i1] {
            assert Touch(c1, i1, c2, i2);
            return true;
          }
          i2 := i2 + 1;
        }
      }
      return false;
    }

    /** Whether a live allocation stands in the way of a new value with schedule `c`. */
    method IsObstacle(c: Option<Schedule>, k: nat) returns (blocked: bool)
      requires Valid() && ValidCounter(c) && k < |blocks|
      ensures blocked <==> Obstacle(State(), c, k)
    {
      var a := allocs[blocks[k]];
      assert a == State().Live(k);
      if c.Some? && a.counter.Some? {
        blocked := OverlappingTimeSchedules(c.value, a.counter.value);
      } else {
        blocked := true;
      }
    }

    /** The best-fit scan over the gaps in front of live blocks. */
    method ScanGaps(c: Option<Schedule>, size: Size)
      returns (current: nat, wasteBytes: nat, bestOffset: nat, bestOffsetFound: bool)
      requires Valid() && ValidCounter(c) && size > 0
      ensures current == Reach(State(), c, |blocks|)
      ensures Remembers(State(), BestGap(State(), c, size, |blocks|), c, size, wasteBytes, bestOffset, bestOffsetFound)
    {
      hide Sorted, Separated, DistinctBlocks, NonEmptyBlocks, GoodAllocations, MaxEnd, Conflict;
      ghost var st := State();
      current, wasteBytes, bestOffset, bestOffsetFound := 0, SIZE_MAX, 0, false;
      for k := 0 to |blocks|
        invariant current == Reach(st, c, k)
        invariant Remembers(st, BestGap(st, c, size, k), c, size, wasteBytes, bestOffset, bestOffsetFound)
      {
        var block := allocs[blocks[k]].block;
        assert block == st.Live(k).block;
        LiveWithinBuffer(st, k);
        var blocked := IsObstacle(c, k);
        if blocked {
          if block.offset >= current {
            var gap := block.offset - current;
            if gap >= size && gap - size < wasteBytes {
              wasteBytes := gap - size;
              bestOffset := current;
              bestOffsetFound := true;
            }
          }
          current := if block.End() > current then block.End() else current;
        }
      }
    }

    /** The scan, then the gap at the end of the buffer. */
    method FindOffset(c: Option<Schedule>, size: Size) returns (bestOffset: nat)
      requires Valid() && ValidCounter(c) && size > 0
      ensures bestOffset == Placement(State(), c, size)
    {
      var current, wasteBytes, offset, bestOffsetFound := ScanGaps(c, size);
      bestOffset := offset;
      ReachWithinBuffer(State(), c, |blocks|);
      assert current <= bufferSize;
      if current < bufferSize {
        var gap := bufferSize - current;
        if gap >= size && gap - size < wasteBytes {
          bestOffset := current;
          bestOffsetFound := true;
        }
      }
      if !bestOffsetFound {
        bestOffset := current;
      }
    }

    /** Append a block and enter it in the live list. */
    method Enter(a: Allocation)
      requires State().InRange()
      modifies this
      ensures State() == Placed(old(State()), a)
    {
      ghost var st := State();
      var p := 0;
      while p < |blocks| && !(allocs[blocks[p]].block.offset > a.block.offset
                              || (allocs[blocks[p]].block.offset == a.block.offset
                                  && allocs[blocks[p]].block.size >= a.block.size))
        invariant p <= |blocks| && State() == st
        invariant InsertPosition(st, a.block, 0) == InsertPosition(st, a.block, p)
      {
        assert allocs[blocks[p]] == st.Live(p);
        p := p + 1;
      }
      assert p < |blocks| ==> allocs[blocks[p]] == st.Live(p);
      bufferSize := if a.block.End() > bufferSize then a.block.End() else bufferSize;
      blocks := blocks[..p] + [|allocs|] + blocks[p..];
      allocs := allocs + [a];
    }

    /** The part the two overloads of `TraceAllocation` share. */
    method Allocate(index: int, c: Option<Schedule>, size: Size) returns (ok: bool)
      requires Valid() && ValidCounter(c) && c.Some? == usingCounters
      modifies this
      ensures Valid()
      ensures State() == AfterAllocation(old(State()), index, c, size)
      ensures ok <==> !Refused(old(State()), c, size)
    {
      ghost var before := State();
      ghost var after := AfterAllocation(before, index, c, size);
      assert PlannerSpec.Valid(after) by {
        AllocationKeepsValid(before, index, c, size);
      }
      if size == 0 {
        allocs := allocs + [Allocation(index, MemoryBlock(0, 0), None)];
        assert State() == after;
        return true;
      }
      var offset := FindOffset(c, size);
      if offset + size > SIZE_MAX {
        assert State() == after;
        return false;
      }
      Enter(Allocation(index, MemoryBlock(offset, size), c));
      assert State() == after;
      ok := true;
    }

    method TraceAllocation(index: int, size: Size) returns (ok: bool)
      requires Valid()
      modifies this
      ensures Valid()
      ensures State() == AfterAllocation(old(State()), index, None, size)
      ensures ok <==> !Refused(old(State()), None, size)
    {
      if usingCounters { return false; }
      ok := Allocate(index, None, size);
    }

    method TraceAllocationWithCounter(index: int, counter: ProgramCounter, size: Size) returns (ok: bool)
      requires Valid() && counter.Value().Valid()
      modifies this
      ensures Valid()
      ensures State() == AfterAllocation(old(State()), index, Some(old(counter.Value())), size)
      ensures ok <==> !Refused(old(State()), Some(old(counter.Value())), size)
    {
      if !usingCounters { return false; }
      ok := Allocate(index, Some(counter.Value()), size);
    }

    method TraceFree(index: int)
      requires Valid()
      modifies this
      ensures Valid()
      ensures State() == AfterFree(old(State()), index)
    {
      ghost var st := State();
      FreeKeepsValid(st, index);
      var k := 0;
      while k < |blocks|
        invariant k <= |blocks| && State() == st
        invariant FindLive(st, index, 0) == FindLive(st, index, k)
      {
        assert allocs[blocks[k]] == st.Live(k);
        if allocs[blocks[k]].index == index {
          blocks := blocks[..k] + blocks[k + 1..];
          return;
        }
        k := k + 1;
      }
    }

    /** `None` when one of the enforces on pairs of schedules fails. */
    method GenerateMemPattern() returns (pattern: Option<MemoryPattern>)
      requires Valid()
      ensures pattern.Some? <==> ClashFree(allocs)
      ensures pattern.Some? ==> pattern.value == MemoryPattern(PatternOf(allocs), bufferSize)
    {
      if usingCounters {
        for i1 := 0 to |allocs|
          invariant forall i, j :: 0 <= i < i1 && i < j < |allocs| ==> !Clash(allocs[i], allocs[j])
        {
          var a1 := allocs[i1];
          if a1.counter.None? { continue; }
          for i2 := i1 + 1 to |allocs|
            invariant forall j :: i1 < j < i2 ==> !Clash(a1, allocs[j])
          {
            var a2 := allocs[i2];
            if a2.counter.None? { continue; }
            assert a1.block.size > 0 && a2.block.size > 0;
            var start1, end1 := a1.block.offset, a1.block.offset + a1.block.size - 1;
            var start2, end2 := a2.block.offset, a2.block.offset + a2.block.size - 1;
            assert start1 <= end1 && start2 <= end2;
            if (start1 >= start2 && start1 <= end2) || (start2 >= start1 && start2 <= end1) {
              var overlap := OverlappingTimeSchedules(a1.counter.value, a2.counter.value);
              if overlap {
                assert Clash(allocs[i1], allocs[i2]);
                return None;
              }
            }
          }
        }
      }
      var blockOf: map<int, MemoryBlock> := map[];
      for k := 0 to |allocs|
        invariant blockOf == PatternOf(allocs[..k])
      {
        assert allocs[..k + 1][..k] == allocs[..k];
        blockOf := blockOf[allocs[k].index := allocs[k].block];
      }
      assert allocs[..|allocs|] == allocs;
      return Some(MemoryPattern(blockOf, bufferSize));
    }
  }
}
