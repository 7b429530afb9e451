/** Plain mode: replaying a run through the generated pattern. */
module ReplayRuns {
  import opened Wrappers
  import opened Schedules
  import opened MemPattern
  import opened PlannerSpec
  import opened Planner
  import opened PlannerRuns
  import opened ResizedRuns

  /** Indices allocated and not freed since, as the caller sees them. */
  ghost function LiveIndices(usingCounters: bool, es: seq<Event>): set<int> {
    if es == [] then {}
    else
      var init, e := es[..|es| - 1], es[|es| - 1];
      var live := LiveIndices(usingCounters, init);
      match e
      case Free(index) => live - {index}
      case Allocate(index, c, size) =>
        if Refused(Run(usingCounters, init), c, size) then live else live + {index}
  }

  ghost predicate NotTracedFrom(es: seq<Event>, k: nat, index: int) {
    forall j :: k <= j < |es| && es[j].Allocate? ==> es[j].index != index
  }

  /** A live index is held by its last allocation, which is in the live list unless it is empty. */
  ghost predicate Holds(st: State, index: int, x: nat) {
    && LastAlloc(st.allocs, x) && st.allocs[x].index == index
    && (st.allocs[x].block.size > 0 ==> x in st.blocks)
  }

  lemma HeldThroughPlaced(st: State, a: Allocation, index: int, x: nat)
    requires st.InRange() && Holds(st, index, x) && a.index != index
    ensures Placed(st, a).InRange() && Holds(Placed(st, a), index, x)
  {
    PlacedLive(st, a);
    if st.allocs[x].block.size > 0 {
      LiveThroughPlaced(st, a, x);
    }
  }

  lemma NewIsHeld(st: State, a: Allocation)
    requires st.InRange()
    ensures Holds(Placed(st, a), a.index, |st.allocs|)
  {
    NewIsLive(st, a);
  }

  lemma {:induction false} LiveIndexIsHeld(usingCounters: bool, es: seq<Event>, index: int) returns (x: nat)
    requires index in LiveIndices(usingCounters, es)
    ensures Holds(Run(usingCounters, es), index, x)
  {
    var init, e := es[..|es| - 1], es[|es| - 1];
    var st := Run(usingCounters, init);
    match e
    case Free(freed) =>
      x := LiveIndexIsHeld(usingCounters, init, index);
      if st.allocs[x].block.size > 0 {
        LiveThroughFree(st, freed, x);
      }
    case Allocate(i, c, size) =>
      if Refused(st, c, size) {
        x := LiveIndexIsHeld(usingCounters, init, index);
      } else {
        var a := Allocation(i, MemoryBlock(Placement(st, c, size), size), c);
        if i == index {
          x := |st.allocs|;
          NewIsHeld(st, a);
        } else {
          x := LiveIndexIsHeld(usingCounters, init, index);
          HeldThroughPlaced(st, a, index, x);
        }
      }
  }

  lemma HeldAreDisjoint(st: State, a: int, x: nat, b: int, y: nat)
    requires Valid(st) && !st.usingCounters && a != b && Holds(st, a, x) && Holds(st, b, y)
    ensures Disjoint(st.allocs[x].block, st.allocs[y].block)
  {
    if st.allocs[x].block.size > 0 && st.allocs[y].block.size > 0 {
      var i :| 0 <= i < |st.blocks| && st.blocks[i] == x;
      var j :| 0 <= j < |st.blocks| && st.blocks[j] == y;
      assert GoodAllocation(st.allocs[x], false) && GoodAllocation(st.allocs[y], false);
      if i < j {
        assert Disjoint(st.Live(i).block, st.Live(j).block);
      } else {
        assert Disjoint(st.Live(j).block, st.Live(i).block);
      }
    }
  }

  /** Allocations after a moment come from calls after it. */
  lemma LaterAllocation(usingCounters: bool, es: seq<Event>, k: nat, y: nat)
    requires k <= |es| && |Run(usingCounters, es[..k]).allocs| <= y < |Run(usingCounters, es).allocs|
    ensures !NotTracedFrom(es, k, Run(usingCounters, es).allocs[y].index)
  {
    var j := Origin(usingCounters, es, y);
    if j < k {
      assert es[..k][..j + 1] == es[..j + 1];
      AllocationsPersist(usingCounters, es[..k], j + 1);
    }
    assert es[j].Allocate? && es[j].index == Run(usingCounters, es).allocs[y].index;
  }

  /** The pattern keeps the block of an index that is not traced again. */
  lemma PatternKeeps(usingCounters: bool, es: seq<Event>, k: nat, index: int, x: nat)
    requires k <= |es| && Holds(Run(usingCounters, es[..k]), index, x) && NotTracedFrom(es, k, index)
    ensures var allocs := Run(usingCounters, es).allocs;
      && x < |allocs| && allocs[x] == Run(usingCounters, es[..k]).allocs[x]
      && index in PatternOf(allocs) && PatternOf(allocs)[index] == allocs[x].block
  {
    AllocationsPersist(usingCounters, es, k);
    var allocs := Run(usingCounters, es).allocs;
    hide Run;
    forall y | x < y < |allocs|
      ensures allocs[y].index != index
    {
      if |Run(usingCounters, es[..k]).allocs| <= y {
        LaterAllocation(usingCounters, es, k, y);
      }
    }
    PatternHolds(allocs, x);
  }

  /**
    Replay. Two indices that are live at a common moment and not traced again after it have disjoint
    blocks in the pattern, inside the peak.
  */
  lemma ReplayIsOverlapFree(es: seq<Event>, k: nat, a: int, b: int)
    requires ValidEvents(es) && k <= |es| && a != b
    requires a in LiveIndices(false, es[..k]) && b in LiveIndices(false, es[..k])
    requires NotTracedFrom(es, k, a) && NotTracedFrom(es, k, b)
    ensures var pattern := PatternOf(Run(false, es).allocs);
      && a in pattern && b in pattern && Disjoint(pattern[a], pattern[b])
      && pattern[a].End() <= Run(false, es).bufferSize
  {
    var x := LiveIndexIsHeld(false, es[..k], a);
    var y := LiveIndexIsHeld(false, es[..k], b);
    hide Run, LiveIndices, Holds;
    RunIsValid(false, es[..k]);
    HeldAreDisjoint(Run(false, es[..k]), a, x, b, y);
    PatternKeeps(false, es, k, a, x);
    PatternKeeps(false, es, k, b, y);
    PeakIsMaxEnd(false, es);
  }

  // ----- Exactly when a replay is safe

  ghost predicate PlainEvents(es: seq<Event>) {
    forall i :: 0 <= i < |es| && es[i].Allocate? ==> es[i].counter.None?
  }

  /** Indices traced and not freed since, whether or not the planner accepted the traces. */
  function Named(es: seq<Event>): set<int> {
    if es == [] then {}
    else
      var live := Named(es[..|es| - 1]);
      match es[|es| - 1]
      case Free(index) => live - {index}
      case Allocate(index, c, size) => live + {index}
  }

  /** The last trace of the index is live at moment `m`. */
  ghost predicate SettledAt(es: seq<Event>, index: int, m: nat) {
    m <= |es| && index in Named(es[..m]) && NotTracedFrom(es, m, index)
  }

  ghost predicate SettleTogether(es: seq<Event>, a: int, b: int) {
    exists m: nat :: SettledAt(es, a, m) && SettledAt(es, b, m)
  }

  ghost predicate LiveTogether(es: seq<Event>, k: nat, a: int, b: int) {
    k <= |es| && a != b && a in Named(es[..k]) && b in Named(es[..k])
  }

  /** Indices that are ever live together are live together for their last traces. */
  ghost predicate AllSettleTogether(es: seq<Event>) {
    forall k: nat, a, b :: LiveTogether(es, k, a, b) ==> SettleTogether(es, a, b)
  }

  /** Giving every index its block of the pattern keeps apart what is live together. */
  ghost predicate ReplayIsSafe(es: seq<Event>) {
    var pattern := PatternOf(Run(false, es).allocs);
    forall k: nat, a, b :: LiveTogether(es, k, a, b) ==>
      a in pattern && b in pattern && Disjoint(pattern[a], pattern[b])
  }

  /** While the sizes sum up to a `size_t`, nothing is refused and the two notions of live agree. */
  lemma {:induction false} NothingRefused(es: seq<Event>)
    requires PlainEvents(es) && TracedBytes(es) <= SIZE_MAX
    ensures LiveIndices(false, es) == Named(es)
  {
    if es != [] {
      var init, e := es[..|es| - 1], es[|es| - 1];
      NothingRefused(init);
      RunIsValid(false, init);
      PeakAtMostTraced(false, init);
      if e.Allocate? {
        PlacementWithinBuffer(Run(false, init), e.counter, e.size);
      }
    }
  }

  lemma {:induction false} TracedBytesGrow(es: seq<Event>, k: nat)
    requires k <= |es|
    ensures TracedBytes(es[..k]) <= TracedBytes(es)
    decreases |es|
  {
    if k < |es| {
      TracedBytesGrow(es[..|es| - 1], k);
      assert es[..|es| - 1][..k] == es[..k];
    } else {
      assert es[..k] == es;
    }
  }

  lemma SettledIsSafe(es: seq<Event>)
    requires PlainEvents(es) && TracedBytes(es) <= SIZE_MAX && AllSettleTogether(es)
    ensures ReplayIsSafe(es)
  {
    var pattern := PatternOf(Run(false, es).allocs);
    forall k: nat, a, b | LiveTogether(es, k, a, b)
      ensures a in pattern && b in pattern && Disjoint(pattern[a], pattern[b])
    {
      hide Run, Named, PatternOf;
      var m: nat :| SettledAt(es, a, m) && SettledAt(es, b, m);
      TracedBytesGrow(es, m);
      NothingRefused(es[..m]);
      ReplayIsOverlapFree(es, m, a, b);
    }
  }

  lemma {:induction false} NamedIgnoresSizes(es: seq<Event>, sizes: seq<Size>, k: nat)
    requires |sizes| == |es| && k <= |es|
    ensures Named(WithSizes(es, sizes)[..k]) == Named(es[..k])
  {
    if k > 0 {
      NamedIgnoresSizes(es, sizes, k - 1);
      var resized := WithSizes(es, sizes);
      assert resized[..k][..k - 1] == resized[..k - 1] && es[..k][..k - 1] == es[..k - 1];
    }
  }

  lemma SameTraces(es: seq<Event>, sizes: seq<Size>, m: nat, a: int)
    requires |sizes| == |es|
    ensures |WithSizes(es, sizes)| == |es|
    ensures NotTracedFrom(WithSizes(es, sizes), m, a) <==> NotTracedFrom(es, m, a)
  {
    var resized := WithSizes(es, sizes);
    assert forall j :: 0 <= j < |es| ==> (resized[j].Allocate? <==> es[j].Allocate?) && resized[j].index == es[j].index;
  }

  lemma SettlingIgnoresSizes(es: seq<Event>, sizes: seq<Size>)
    requires |sizes| == |es|
    ensures forall k: nat, a, b :: LiveTogether(WithSizes(es, sizes), k, a, b) <==> LiveTogether(es, k, a, b)
    ensures AllSettleTogether(WithSizes(es, sizes)) <==> AllSettleTogether(es)
  {
    var resized := WithSizes(es, sizes);
    forall k: nat | k <= |es|
      ensures Named(resized[..k]) == Named(es[..k])
    {
      NamedIgnoresSizes(es, sizes, k);
    }
    hide Named, WithSizes;
    forall m: nat, a
      ensures NotTracedFrom(resized, m, a) <==> NotTracedFrom(es, m, a)
    {
      SameTraces(es, sizes, m, a);
    }
    assert forall m: nat, a :: SettledAt(resized, a, m) <==> SettledAt(es, a, m);
    assert forall a, b :: SettleTogether(resized, a, b) <==> SettleTogether(es, a, b);
  }

  // ----- A pair that does not settle together

  ghost predicate IsLastTrace(es: seq<Event>, index: int, p: nat) {
    p < |es| && es[p].Allocate? && es[p].index == index && NotTracedFrom(es, p + 1, index)
  }

  lemma {:induction false} LastTrace(es: seq<Event>, index: int) returns (p: nat)
    requires !NotTracedFrom(es, 0, index)
    ensures IsLastTrace(es, index, p)
  {
    var n := |es| - 1;
    if es[n].Allocate? && es[n].index == index {
      p := n;
    } else {
      var init := es[..n];
      assert !NotTracedFrom(init, 0, index) by {
        var j :| 0 <= j < |es| && es[j].Allocate? && es[j].index == index;
        assert init[j] == es[j];
      }
      p := LastTrace(init, index);
      assert es[p] == init[p];
    }
  }

  lemma {:induction false} NamedIsTraced(es: seq<Event>, k: nat, index: int)
    requires k <= |es| && index in Named(es[..k])
    ensures !NotTracedFrom(es, 0, index)
  {
    assert es[..k][..k - 1] == es[..k - 1];
    if es[k - 1].Free? || es[k - 1].index != index {
      NamedIsTraced(es, k - 1, index);
    }
  }

  lemma {:induction false} NotNamedIsFreed(es: seq<Event>, p: nat, q: nat, index: int)
    requires p < q <= |es| && es[p].Allocate? && es[p].index == index && index !in Named(es[..q])
    ensures FreedWithin(es, p, q, index)
  {
    assert es[..q][..q - 1] == es[..q - 1];
    if es[q - 1] == Free(index) {
    } else {
      NotNamedIsFreed(es, p, q - 1, index);
    }
  }

  lemma {:induction false} TwoBytesTraced(es: seq<Event>, p: nat, q: nat, n: nat)
    requires n <= |es|
    ensures TracedBytes(WithSizes(es, OnlyAt(|es|, p, q))[..n]) <= (if p < n then 1 else 0) + (if q < n then 1 else 0)
  {
    if n > 0 {
      TwoBytesTraced(es, p, q, n - 1);
      var resized := WithSizes(es, OnlyAt(|es|, p, q));
      assert resized[..n][..n - 1] == resized[..n - 1];
    }
  }

  lemma SettledAtLastTrace(es: seq<Event>, a: int, b: int, p: nat, q: nat)
    requires IsLastTrace(es, a, p) && IsLastTrace(es, b, q) && p < q && a != b
    ensures a in Named(es[..q]) ==> SettleTogether(es, a, b)
  {
    assert es[..q + 1][..q] == es[..q];
    assert SettledAt(es, b, q + 1);
    assert a in Named(es[..q]) ==> SettledAt(es, a, q + 1);
  }

  /** The last trace of `b` comes after the last trace of `a` is freed, and takes its byte. */
  lemma UnsettledOverlap(es: seq<Event>, k: nat, a: int, b: int, p: nat, q: nat)
    requires PlainEvents(es) && LiveTogether(es, k, a, b) && !SettleTogether(es, a, b)
    requires IsLastTrace(es, a, p) && IsLastTrace(es, b, q) && p < q
    ensures var pattern := PatternOf(Run(false, WithSizes(es, OnlyAt(|es|, p, q))).allocs);
      a in pattern && b in pattern && !Disjoint(pattern[a], pattern[b])
  {
    SettledAtLastTrace(es, a, b, p, q);
    NotNamedIsFreed(es, p, q, a);
    LastBytesOverlap(es, p, q);
  }

  lemma LastBytesOverlap(es: seq<Event>, p: nat, q: nat)
    requires PlainEvents(es) && p < q < |es| && es[p].Allocate? && es[q].Allocate?
    requires NotTracedFrom(es, p + 1, es[p].index) && NotTracedFrom(es, q + 1, es[q].index)
    requires FreedWithin(es, p, q, es[p].index)
    ensures var pattern := PatternOf(Run(false, WithSizes(es, OnlyAt(|es|, p, q))).allocs);
      && es[p].index in pattern && es[q].index in pattern
      && !Disjoint(pattern[es[p].index], pattern[es[q].index])
  {
    hide Run, PatternOf;
    var resized := WithSizes(es, OnlyAt(|es|, p, q));
    assert FreedWithin(resized, p, q, es[p].index) by {
      var j :| p < j < q && es[j] == Free(es[p].index);
      assert resized[j] == Free(es[p].index);
    }
    FreedByteIsReused(false, resized, p, q);
    OneByteUntil(false, resized, p, p + 1);
    FirstByteTraced(resized, p);
    LastTraceIsPlanned(resized, p);
    LastTraceIsPlanned(resized, q);
  }

  lemma FirstByteTraced(es: seq<Event>, p: nat)
    requires p < |es| && NoBytes(es, p, p) && es[p].Allocate? && es[p].size == 1 && es[p].counter.None?
    ensures Run(false, es[..p + 1]).allocs == Run(false, es[..p]).allocs + [OneByte(es[p])]
  {
    hide Run;
    NothingLive(false, es, p);
    OneByteAtStart(false, es, p);
  }

  lemma LastTraceIsPlanned(es: seq<Event>, p: nat)
    requires p < |es| && es[p].Allocate? && NotTracedFrom(es, p + 1, es[p].index)
    requires var st := Run(false, es[..p]); Run(false, es[..p + 1]).allocs == st.allocs + [OneByte(es[p])]
    ensures var pattern := PatternOf(Run(false, es).allocs);
      es[p].index in pattern && pattern[es[p].index] == MemoryBlock(0, 1)
  {
    var x := |Run(false, es[..p]).allocs|;
    hide Run, PatternOf;
    AllocationsPersist(false, es, p + 1);
    var allocs := Run(false, es).allocs;
    forall y | x < y < |allocs|
      ensures allocs[y].index != es[p].index
    {
      LaterAllocation(false, es, p + 1, y);
    }
    PatternHolds(allocs, x);
  }

  lemma UnsettledIsUnsafe(es: seq<Event>, k: nat, a: int, b: int) returns (sizes: seq<Size>)
    requires PlainEvents(es) && LiveTogether(es, k, a, b) && !SettleTogether(es, a, b)
    ensures |sizes| == |es| && TracedBytes(WithSizes(es, sizes)) <= SIZE_MAX && !ReplayIsSafe(WithSizes(es, sizes))
  {
    NamedIsTraced(es, k, a);
    NamedIsTraced(es, k, b);
    var p := LastTrace(es, a);
    var q := LastTrace(es, b);
    sizes := OnlyAt(|es|, if p < q then p else q, if p < q then q else p);
    if p < q {
      UnsettledOverlap(es, k, a, b, p, q);
    } else {
      UnsettledOverlap(es, k, b, a, q, p);
    }
    var resized := WithSizes(es, sizes);
    TwoBytesTraced(es, if p < q then p else q, if p < q then q else p, |es|);
    assert resized[..|es|] == resized;
    SettlingIgnoresSizes(es, sizes);
    assert LiveTogether(resized, k, a, b);
  }

  /**
    Plain mode: giving every index its block of the pattern keeps apart whatever is live together, for
    all sizes that sum up to a `size_t`, exactly if any two indices that are live together at some
    moment are live together for their last traces.
  */
  lemma ReplayIsSafeIff(es: seq<Event>)
    requires PlainEvents(es)
    ensures (forall sizes: seq<Size> :: |sizes| == |es| && TracedBytes(WithSizes(es, sizes)) <= SIZE_MAX ==>
               ReplayIsSafe(WithSizes(es, sizes)))
       <==> AllSettleTogether(es)
  {
    hide ReplayIsSafe;
    if AllSettleTogether(es) {
      forall sizes: seq<Size> | |sizes| == |es| && TracedBytes(WithSizes(es, sizes)) <= SIZE_MAX
        ensures ReplayIsSafe(WithSizes(es, sizes))
      {
        SettlingIgnoresSizes(es, sizes);
        SettledIsSafe(WithSizes(es, sizes));
      }
    } else {
      var k: nat, a, b :| LiveTogether(es, k, a, b) && !SettleTogether(es, a, b);
      var sizes := UnsettledIsUnsafe(es, k, a, b);
    }
  }

  /** The shortest unsafe trace: after the free of 2, index 1 is traced again and takes its byte. */
  lemma RepeatedIndexCanOverlap()
    ensures var es := [Allocate(1, None, 0), Allocate(2, None, 1), Free(2), Allocate(1, None, 1)];
      var pattern := PatternOf(Run(false, es).allocs);
      && LiveTogether(es, 2, 1, 2) && 1 in pattern && 2 in pattern && !Disjoint(pattern[1], pattern[2])
  {
    var es := [Allocate(1, None, 0), Allocate(2, None, 1), Free(2), Allocate(1, None, 1)];
    assert Named(es[..2]) == {1, 2} by {
      assert es[..2] == [es[0], es[1]] && [es[0], es[1]][..1] == [es[0]] && [es[0]][..0] == [];
      assert Named([es[0]]) == {1};
    }
    hide Run, PatternOf, Named;
    assert WithSizes(es, OnlyAt(4, 1, 3)) == es;
    assert es[2] == Free(es[1].index);
    LastBytesOverlap(es, 1, 3);
  }
}
