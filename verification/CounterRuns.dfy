/** Counter mode: which traces keep values with meeting schedules apart. */
module CounterRuns {
  import opened Wrappers
  import opened Schedules
  import opened MemPattern
  import opened PlannerSpec
  import opened Planner
  import opened PlannerRuns
  import opened ResizedRuns

  /** Call `k` traces a value although call `j` freed the value of call `i`, and their schedules meet. */
  ghost predicate ReusedAt(es: seq<Event>, i: nat, j: nat, k: nat) {
    && i < j < k < |es|
    && es[i].Allocate? && es[j] == Free(es[i].index) && es[k].Allocate?
    && es[i].counter.Some? && es[k].counter.Some? && Meet(es[i].counter.value, es[k].counter.value)
  }

  /** Some value is traced after a free of a value whose schedule meets its own. */
  ghost predicate ReusesFreed(es: seq<Event>) {
    exists i: nat, j: nat, k: nat :: ReusedAt(es, i, j, k)
  }

  /** The same, for values that take memory. */
  ghost predicate ReusesFreedBytes(es: seq<Event>) {
    exists i: nat, j: nat, k: nat :: ReusedAt(es, i, j, k) && es[i].size > 0 && es[k].size > 0
  }

  /**
    If no value that takes memory is traced after a free of one that its schedule meets, allocations
    whose schedules meet share no byte, so the pairwise enforces of pattern generation hold.
  */
  lemma CounterRunIsClashFree(es: seq<Event>)
    requires ValidEvents(es) && !ReusesFreedBytes(es)
    ensures ClashFree(Run(true, es).allocs)
  {
    RunIsValid(true, es);
    var allocs := Run(true, es).allocs;
    forall x, y | 0 <= x < y < |allocs|
      ensures !Clash(allocs[x], allocs[y])
    {
      assert GoodAllocation(allocs[x], true) && GoodAllocation(allocs[y], true);
      if allocs[x].counter.Some? && allocs[y].counter.Some? && Meet(allocs[x].counter.value, allocs[y].counter.value) {
        MeetingAreDisjoint(es, x, y);
      }
    }
  }

  lemma MeetingAreDisjoint(es: seq<Event>, x: nat, y: nat)
    requires ValidEvents(es) && !ReusesFreedBytes(es) && x < y < |Run(true, es).allocs|
    requires var a, b := Run(true, es).allocs[x], Run(true, es).allocs[y];
      && a.block.size > 0 && b.block.size > 0
      && a.counter.Some? && b.counter.Some? && Meet(a.counter.value, b.counter.value)
    ensures Disjoint(Run(true, es).allocs[x].block, Run(true, es).allocs[y].block)
  {
    var a, b := Run(true, es).allocs[x], Run(true, es).allocs[y];
    var k := Origin(true, es, y);
    AllocationsPersist(true, es, k);
    var before, st := es[..k], Run(true, es[..k]);
    assert st.allocs[x] == a;
    var i := Origin(true, before, x);
    hide Run, IsOrigin;
    assert x in st.blocks by {
      if FreedWithin(before, i, k, a.index) {
        var j :| i < j < k && before[j] == Free(a.index);
        CounterOfOrigin(before, x, i);
        CounterOfOrigin(es, y, k);
        assert ReusedAt(es, i, j, k);
      }
      CounterOfOrigin(before, x, i);
    }
    RunIsValid(true, before);
    var p :| 0 <= p < |st.blocks| && st.blocks[p] == x;
    CounterOfOrigin(es, y, k);
    assert st.Live(p) == a && Conflict(b.counter, a.counter);
    PlacementAvoidsConflicts(st, b.counter, b.block.size, p);
  }

  lemma CounterOfOrigin(es: seq<Event>, x: nat, i: nat)
    requires x < |Run(true, es).allocs| && IsOrigin(true, es, x, i)
    ensures var a := Run(true, es).allocs[x];
      && i < |es| && es[i].Allocate? && es[i].index == a.index && es[i].size == a.block.size
      && (a.block.size > 0 ==> es[i].counter == a.counter)
      && (a.block.size > 0 ==> a.block.offset == Placement(Run(true, es[..i]), a.counter, a.block.size))
  {}

  /** A reuse clashes as soon as the two values take a byte each and the others take none. */
  lemma ReuseCanClash(es: seq<Event>, i: nat, j: nat, k: nat)
    requires ValidEvents(es) && ReusedAt(es, i, j, k)
    ensures !ClashFree(Run(true, WithSizes(es, OnlyAt(|es|, i, k))).allocs)
  {
    var resized := WithSizes(es, OnlyAt(|es|, i, k));
    assert resized[j] == Free(resized[i].index);
    FreedByteIsReused(true, resized, i, k);
    var allocs := Run(true, resized).allocs;
    var x, y := |Run(true, resized[..i]).allocs|, |Run(true, resized[..k]).allocs|;
    assert Clash(allocs[x], allocs[y]);
  }

  /**
    Counter mode: pattern generation succeeds whatever the sizes are exactly if no value is traced
    after a free of a value whose schedule meets its own.
  */
  lemma CounterModeIsSafeIff(es: seq<Event>)
    requires ValidEvents(es)
    ensures (forall sizes: seq<Size> :: |sizes| == |es| ==> ClashFree(Run(true, WithSizes(es, sizes)).allocs))
       <==> !ReusesFreed(es)
  {
    if i: nat, j: nat, k: nat :| ReusedAt(es, i, j, k) {
      ReuseCanClash(es, i, j, k);
    }
    if !ReusesFreed(es) {
      forall sizes: seq<Size> | |sizes| == |es|
        ensures ClashFree(Run(true, WithSizes(es, sizes)).allocs)
      {
        var resized := WithSizes(es, sizes);
        if i: nat, j: nat, k: nat :| ReusedAt(resized, i, j, k) {
          assert ReusedAt(es, i, j, k);
        }
        CounterRunIsClashFree(resized);
      }
    }
  }

  /** The pattern then keeps apart any two indices whose last values have schedules that meet. */
  lemma CounterPatternSeparates(es: seq<Event>, x: nat, y: nat)
    requires ValidEvents(es) && !ReusesFreedBytes(es) && x != y
    requires var allocs := Run(true, es).allocs;
      && LastAlloc(allocs, x) && LastAlloc(allocs, y)
      && allocs[x].counter.Some? && allocs[y].counter.Some?
      && Meet(allocs[x].counter.value, allocs[y].counter.value)
    ensures var allocs := Run(true, es).allocs; var pattern := PatternOf(allocs);
      && allocs[x].index in pattern && allocs[y].index in pattern
      && Disjoint(pattern[allocs[x].index], pattern[allocs[y].index])
  {
    var allocs := Run(true, es).allocs;
    CounterRunIsClashFree(es);
    PatternHolds(allocs, x);
    PatternHolds(allocs, y);
    assert !Clash(allocs[if x < y then x else y], allocs[if x < y then y else x]);
  }

  /** The shortest such trace: the second value takes the bytes of the first. */
  lemma CounterFreeCanClash(s: Schedule, size: Size)
    requires s.Valid() && s.starts != [] && size > 0
    ensures var es := [Allocate(0, Some(s), size), Free(0), Allocate(1, Some(s), size)];
      ValidEvents(es) && !ClashFree(Run(true, es).allocs)
  {
    var a, f, b := Allocate(0, Some(s), size), Free(0), Allocate(1, Some(s), size);
    RunOfThree(true, a, f, b);
    EmptyListPlacesAtStart(EMPTY_COUNTERS, 0, Some(s), size);
    var st1 := State([Allocation(0, MemoryBlock(0, size), Some(s))], [0], size, true);
    assert Step(EMPTY_COUNTERS, a) == st1;
    assert st1.Live(0).index == 0;
    EmptyListPlacesAtStart(AfterFree(st1, 0), 1, Some(s), size);
    assert s.ActiveAt(s.starts[0]);
    var allocs := Run(true, [a, f, b]).allocs;
    assert Clash(allocs[0], allocs[1]);
  }
}
