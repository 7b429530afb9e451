/**
  Whole runs of the planner: any interleaving of allocations and frees, in either mode, including
  calls the planner refuses.
*/
module PlannerRuns {
  import opened Wrappers
  import opened Schedules
  import opened MemPattern
  import opened PlannerSpec
  import opened Planner

  datatype Event =
    | Allocate(index: int, counter: Option<Schedule>, size: Size)
    | Free(index: int)

  ghost predicate ValidEvents(es: seq<Event>) {
    forall i :: 0 <= i < |es| && es[i].Allocate? ==> ValidCounter(es[i].counter)
  }

  const EMPTY_PLAIN := State([], [], 0, false)
  const EMPTY_COUNTERS := State([], [], 0, true)

  ghost function Step(st: State, e: Event): State
    requires st.InRange()
  {
    match e
    case Allocate(index, c, size) => AfterAllocation(st, index, c, size)
    case Free(index) => AfterFree(st, index)
  }

  lemma StepInRange(st: State, e: Event)
    requires st.InRange()
    ensures Step(st, e).InRange()
  {
    match e
    case Allocate(index, c, size) =>
      if !Refused(st, c, size) && size > 0 {
        PlacedLive(st, Allocation(index, MemoryBlock(Placement(st, c, size), size), c));
      }
    case Free(index) =>
  }

  /** The state after the events, from an empty planner in the given mode. */
  ghost function Run(usingCounters: bool, es: seq<Event>): (st: State)
    ensures st.InRange()
  {
    if es == [] then State([], [], 0, usingCounters)
    else
      var st := Run(usingCounters, es[..|es| - 1]);
      StepInRange(st, es[|es| - 1]);
      Step(st, es[|es| - 1])
  }

  // ----- Safety of every run

  /** Every reachable state is valid: the live list is sorted and conflicting live blocks are apart. */
  lemma {:induction false} RunIsValid(usingCounters: bool, es: seq<Event>)
    requires ValidEvents(es)
    ensures Valid(Run(usingCounters, es))
    ensures Run(usingCounters, es).usingCounters == usingCounters
  {
    if es != [] {
      RunIsValid(usingCounters, es[..|es| - 1]);
      var st := Run(usingCounters, es[..|es| - 1]);
      match es[|es| - 1]
      case Allocate(index, c, size) => AllocationKeepsValid(st, index, c, size);
      case Free(index) => FreeKeepsValid(st, index);
    }
  }

  /** Plain mode: the live blocks lie one after the other, without overlap, inside the buffer. */
  lemma PlainRunIsPacked(es: seq<Event>)
    requires ValidEvents(es)
    ensures var st := Run(false, es);
      && (forall i, j :: 0 <= i < j < |st.blocks| ==>
            st.Live(i).block.offset < st.Live(i).block.End() <= st.Live(j).block.offset)
      && (forall i :: 0 <= i < |st.blocks| ==> st.Live(i).block.End() <= st.bufferSize)
  {
    RunIsValid(false, es);
    var st := Run(false, es);
    forall i, j | 0 <= i < j < |st.blocks|
      ensures st.Live(i).block.offset < st.Live(i).block.End() <= st.Live(j).block.offset
    {
      assert !Precedes(st.Live(j).block, st.Live(i).block);
      assert Disjoint(st.Live(i).block, st.Live(j).block);
    }
    forall i | 0 <= i < |st.blocks|
      ensures st.Live(i).block.End() <= st.bufferSize
    {
      LiveWithinBuffer(st, i);
    }
  }

  // ----- Steps

  lemma RunAppend(usingCounters: bool, es: seq<Event>, e: Event)
    ensures Run(usingCounters, es + [e]) == Step(Run(usingCounters, es), e)
  {
    assert (es + [e])[..|es|] == es;
  }

  lemma RunOfThree(usingCounters: bool, a: Event, b: Event, c: Event)
    ensures var empty := State([], [], 0, usingCounters);
      Step(empty, a).InRange() && Step(Step(empty, a), b).InRange()
      && Run(usingCounters, [a, b, c]) == Step(Step(Step(empty, a), b), c)
  {
    var es3, es2 := [a, b, c], [a, b];
    assert es3[..2] == es2 && es2[..1] == [a] && [a][..0] == [];
    assert Run(usingCounters, []) == State([], [], 0, usingCounters);
    assert Run(usingCounters, [a]) == Step(Run(usingCounters, []), a);
    assert Run(usingCounters, es2) == Step(Run(usingCounters, [a]), b);
  }

  /** With no live block the next one goes to the start of the buffer. */
  lemma EmptyListPlacesAtStart(st: State, index: int, c: Option<Schedule>, size: Size)
    requires st.blocks == [] && c.Some? == st.usingCounters && size > 0
    ensures AfterAllocation(st, index, c, size) ==
            State(st.allocs + [Allocation(index, MemoryBlock(0, size), c)], [|st.allocs|],
                  if size > st.bufferSize then size else st.bufferSize, st.usingCounters)
  {
    assert Reach(st, c, 0) == 0;
  }

  lemma {:induction false} AllocationsPersist(usingCounters: bool, es: seq<Event>, k: nat)
    requires k <= |es|
    ensures Run(usingCounters, es[..k]).allocs <= Run(usingCounters, es).allocs
    decreases |es|
  {
    if k < |es| {
      AllocationsPersist(usingCounters, es[..|es| - 1], k);
      assert es[..|es| - 1][..k] == es[..k];
    } else {
      assert es[..k] == es;
    }
  }

  // ----- Peak size

  ghost function TracedBytes(es: seq<Event>): nat {
    if es == [] then 0
    else TracedBytes(es[..|es| - 1]) + if es[|es| - 1].Allocate? then es[|es| - 1].size else 0
  }

  /** The buffer never outgrows the sum of everything traced. */
  lemma {:induction false} PeakAtMostTraced(usingCounters: bool, es: seq<Event>)
    requires ValidEvents(es)
    ensures Run(usingCounters, es).bufferSize <= TracedBytes(es)
  {
    if es != [] {
      PeakAtMostTraced(usingCounters, es[..|es| - 1]);
      RunIsValid(usingCounters, es[..|es| - 1]);
      var st, e := Run(usingCounters, es[..|es| - 1]), es[|es| - 1];
      if e.Allocate? {
        PlacementWithinBuffer(st, e.counter, e.size);
      }
    }
  }

  lemma PlacementWithinBuffer(st: State, c: Option<Schedule>, size: nat)
    requires Valid(st)
    ensures Placement(st, c, size) <= st.bufferSize
  {
    var g := BestGap(st, c, size, |st.blocks| + 1);
    ReachWithinBuffer(st, c, if g.Some? then g.value else |st.blocks|);
  }

  /** The value is needed at step `t`; without a schedule it is needed while it is live. */
  ghost predicate Needs(a: Allocation, t: int) {
    a.counter.Some? ==> a.counter.value.ActiveAt(t)
  }

  /** Bytes needed at step `t` by the first `k` live blocks. */
  ghost function NeededBytes(st: State, t: int, k: nat): nat
    requires st.InRange() && k <= |st.blocks|
  {
    if k == 0 then 0
    else NeededBytes(st, t, k - 1) + if Needs(st.Live(k - 1), t) then st.Live(k - 1).block.size else 0
  }

  /** The needed bytes of the first blocks fit below the end of one of those blocks. */
  lemma {:induction false} NeededBytesFit(st: State, t: int, k: nat)
    requires Valid(st) && k <= |st.blocks|
    ensures NeededBytes(st, t, k) == 0
         || exists i :: 0 <= i < k && Needs(st.Live(i), t) && NeededBytes(st, t, k) <= st.Live(i).block.End()
  {
    if k > 0 {
      NeededBytesFit(st, t, k - 1);
      var last := st.Live(k - 1);
      if Needs(last, t) && NeededBytes(st, t, k - 1) > 0 {
        var i :| 0 <= i < k - 1 && Needs(st.Live(i), t) && NeededBytes(st, t, k - 1) <= st.Live(i).block.End();
        assert Conflict(st.Live(i).counter, last.counter);
        assert Disjoint(st.Live(i).block, last.block);
        assert !Precedes(last.block, st.Live(i).block);
      }
    }
  }

  lemma {:induction false} BufferGrows(usingCounters: bool, es: seq<Event>, k: nat)
    requires k <= |es|
    ensures Run(usingCounters, es[..k]).bufferSize <= Run(usingCounters, es).bufferSize
    decreases |es|
  {
    if k < |es| {
      BufferGrows(usingCounters, es[..|es| - 1], k);
      assert es[..|es| - 1][..k] == es[..k];
    } else {
      assert es[..k] == es;
    }
  }

  /**
    The final peak covers, at every moment of the run and at every step `t`, all bytes the live
    values need at once. In plain mode this is every live byte.
  */
  lemma PeakCoversNeeds(usingCounters: bool, es: seq<Event>, k: nat, t: int)
    requires ValidEvents(es) && k <= |es|
    ensures var st := Run(usingCounters, es[..k]);
      NeededBytes(st, t, |st.blocks|) <= Run(usingCounters, es).bufferSize
  {
    var st := Run(usingCounters, es[..k]);
    RunIsValid(usingCounters, es[..k]);
    BufferGrows(usingCounters, es, k);
    NeededBytesFit(st, t, |st.blocks|);
    if NeededBytes(st, t, |st.blocks|) > 0 {
      var i :| 0 <= i < |st.blocks| && NeededBytes(st, t, |st.blocks|) <= st.Live(i).block.End();
      LiveWithinBuffer(st, i);
    }
  }

  /** The peak is the largest end of any block the run traced. */
  lemma PeakIsMaxEnd(usingCounters: bool, es: seq<Event>)
    requires ValidEvents(es)
    ensures var st := Run(usingCounters, es);
      && (forall i :: 0 <= i < |st.allocs| ==> st.allocs[i].block.End() <= st.bufferSize)
      && (st.bufferSize == 0 || exists i :: 0 <= i < |st.allocs| && st.allocs[i].block.End() == st.bufferSize)
  {
    RunIsValid(usingCounters, es);
    MaxEndBounds(Run(usingCounters, es).allocs);
    MaxEndIsReached(Run(usingCounters, es).allocs);
  }

  // ----- Best fit

  /** `size` bytes at `offset` lie in the buffer and avoid every live block that conflicts. */
  ghost predicate Vacant(st: State, c: Option<Schedule>, size: nat, offset: nat)
    requires st.InRange()
  {
    && offset + size <= st.bufferSize
    && forall i :: 0 <= i < |st.blocks| && Obstacle(st, c, i) ==> Disjoint(MemoryBlock(offset, size), st.Live(i).block)
  }

  /** The range lies in gap `k`. */
  ghost predicate InGap(st: State, c: Option<Schedule>, size: nat, offset: nat, k: nat)
    requires st.InRange() && k <= |st.blocks|
  {
    && (k < |st.blocks| ==> Obstacle(st, c, k))
    && Reach(st, c, k) <= offset && offset + size <= GapEnd(st, k)
  }

  /** Every vacant range lies in one of the gaps the scan looks at. */
  lemma VacantLiesInGap(st: State, c: Option<Schedule>, size: nat, offset: nat) returns (k: nat)
    requires Valid(st) && size > 0 && Vacant(st, c, size, offset)
    ensures k <= |st.blocks| && InGap(st, c, size, offset, k)
  {
    var r := MemoryBlock(offset, size);
    k := 0;
    while k < |st.blocks| && !(Obstacle(st, c, k) && offset + size <= st.Live(k).block.offset)
      invariant k <= |st.blocks|
      invariant forall i :: 0 <= i < k && Obstacle(st, c, i) ==> st.Live(i).block.End() <= offset
    {
      k := k + 1;
    }
    ReachBounds(st, c, k);
  }

  /**
    Best fit. If some vacant range exists the buffer keeps its size and the new block starts a gap
    of least waste, compared with the gap of any vacant range, at a vacant range itself. If none
    exists the buffer grows by exactly what the tail gap lacks.
  */
  lemma BestFit(st: State, c: Option<Schedule>, size: nat)
    requires Valid(st) && size > 0
    ensures var o := Placement(st, c, size);
      && ((exists r :: Vacant(st, c, size, r)) <==> o + size <= st.bufferSize)
      && (o + size <= st.bufferSize ==> Vacant(st, c, size, o))
      && (o + size > st.bufferSize ==> o == Reach(st, c, |st.blocks|) <= st.bufferSize)
    ensures forall r | Vacant(st, c, size, r) ::
      exists b: nat, k: nat :: b <= |st.blocks| && k <= |st.blocks| && InGap(st, c, size, r, k)
        && Fits(st, c, size, b) && Reach(st, c, b) == Placement(st, c, size)
        && Waste(st, c, size, b) <= Waste(st, c, size, k)
  {
    var o := Placement(st, c, size);
    var g := BestGap(st, c, size, |st.blocks| + 1);
    BestGapIsBest(st, c, size, |st.blocks| + 1);
    ReachWithinBuffer(st, c, |st.blocks|);
    forall r | Vacant(st, c, size, r)
      ensures g.Some?
      ensures exists k: nat ::
        k <= |st.blocks| && InGap(st, c, size, r, k) && Waste(st, c, size, g.value) <= Waste(st, c, size, k)
    {
      var k := VacantLiesInGap(st, c, size, r);
      assert Fits(st, c, size, k);
    }
    if g.Some? {
      if g.value < |st.blocks| {
        LiveWithinBuffer(st, g.value);
      }
      forall i | 0 <= i < |st.blocks| && Obstacle(st, c, i)
        ensures Disjoint(MemoryBlock(o, size), st.Live(i).block)
      {
        PlacementAvoidsConflicts(st, c, size, i);
      }
      assert Vacant(st, c, size, o);
    } else {
      assert !Fits(st, c, size, |st.blocks|);
    }
  }

  // ----- The pattern

  /** No later allocation has the same index. */
  ghost predicate LastAlloc(allocs: seq<Allocation>, x: nat) {
    x < |allocs| && forall y :: x < y < |allocs| ==> allocs[y].index != allocs[x].index
  }

  lemma {:induction false} PatternHolds(allocs: seq<Allocation>, x: nat)
    requires LastAlloc(allocs, x)
    ensures allocs[x].index in PatternOf(allocs) && PatternOf(allocs)[allocs[x].index] == allocs[x].block
  {
    if x < |allocs| - 1 {
      PatternHolds(allocs[..|allocs| - 1], x);
    }
  }
}
