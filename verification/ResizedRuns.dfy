/** Traces with their sizes changed, and where each traced block of a run comes from. */
module ResizedRuns {
  import opened Wrappers
  import opened Schedules
  import opened MemPattern
  import opened PlannerSpec
  import opened PlannerRuns

  function WithSizes(es: seq<Event>, sizes: seq<Size>): seq<Event>
    requires |sizes| == |es|
  {
    seq(|es|, i requires 0 <= i < |es| => if es[i].Allocate? then es[i].(size := sizes[i]) else es[i])
  }

  /** One byte for calls `i` and `k`, nothing for the others. */
  function OnlyAt(n: nat, i: nat, k: nat): (sizes: seq<Size>)
    ensures |sizes| == n
  {
    seq(n, x => if x == i || x == k then 1 else 0)
  }

  lemma RunStep(usingCounters: bool, es: seq<Event>, n: nat)
    requires n < |es|
    ensures Run(usingCounters, es[..n + 1]) == Step(Run(usingCounters, es[..n]), es[n])
  {
    assert es[..n + 1] == es[..n] + [es[n]];
    RunAppend(usingCounters, es[..n], es[n]);
  }

  // ----- Origins

  ghost predicate FreedWithin(es: seq<Event>, i: nat, n: nat, index: int) {
    exists j :: i < j < n && j < |es| && es[j] == Free(index)
  }

  lemma LiveThroughFree(st: State, index: int, x: nat)
    requires st.InRange() && x < |st.allocs| && x in st.blocks && index != st.allocs[x].index
    ensures x in AfterFree(st, index).blocks
  {
    var i :| 0 <= i < |st.blocks| && st.blocks[i] == x;
    var p := FindLive(st, index, 0);
    if p < |st.blocks| {
      assert st.Live(p).index == index && st.Live(i).index != index;
      assert AfterFree(st, index).blocks[if i < p then i else i - 1] == x;
    }
  }

  lemma LiveThroughPlaced(st: State, a: Allocation, x: nat)
    requires st.InRange() && x in st.blocks
    ensures x in Placed(st, a).blocks
  {
    var i :| 0 <= i < |st.blocks| && st.blocks[i] == x;
    var p := InsertPosition(st, a.block, 0);
    assert Placed(st, a).blocks[if i < p then i else i + 1] == x;
  }

  lemma NewIsLive(st: State, a: Allocation)
    requires st.InRange()
    ensures |st.allocs| in Placed(st, a).blocks
  {
    assert Placed(st, a).blocks[InsertPosition(st, a.block, 0)] == |st.allocs|;
  }

  /** A block stays live until a call frees its index. */
  lemma LiveThroughStep(st: State, e: Event, x: nat)
    requires st.InRange() && x < |st.allocs| && x in st.blocks && e != Free(st.allocs[x].index)
    ensures x in Step(st, e).blocks
  {
    match e
    case Allocate(index, c, size) =>
      if !Refused(st, c, size) && size > 0 {
        LiveThroughPlaced(st, Allocation(index, MemoryBlock(Placement(st, c, size), size), c), x);
      }
    case Free(index) =>
      LiveThroughFree(st, index, x);
  }

  /** The call that traced an allocation. */
  ghost predicate IsOrigin(usingCounters: bool, es: seq<Event>, x: nat, i: nat)
    requires x < |Run(usingCounters, es).allocs|
  {
    var a := Run(usingCounters, es).allocs[x];
    && i < |es| && es[i].Allocate? && es[i].index == a.index && es[i].size == a.block.size
    && var st := Run(usingCounters, es[..i]);
    && Run(usingCounters, es[..i + 1]).allocs == st.allocs + [a] && |st.allocs| == x
    && (a.block.size > 0 ==> a.counter == es[i].counter && a.block.offset == Placement(st, es[i].counter, es[i].size))
  }

  lemma {:induction false} Origin(usingCounters: bool, es: seq<Event>, x: nat) returns (i: nat)
    requires x < |Run(usingCounters, es).allocs|
    ensures IsOrigin(usingCounters, es, x, i)
    ensures Run(usingCounters, es).allocs[x].block.size > 0 ==>
      x in Run(usingCounters, es).blocks || FreedWithin(es, i, |es|, es[i].index)
  {
    var n := |es| - 1;
    var init, e := es[..n], es[n];
    var st := Run(usingCounters, init);
    assert es[..n + 1] == es;
    if x < |st.allocs| {
      i := Origin(usingCounters, init, x);
      assert es[..i] == init[..i] && es[..i + 1] == init[..i + 1];
      AllocationsPersist(usingCounters, es, n);
      assert st.allocs[x] == Run(usingCounters, es).allocs[x];
      if st.allocs[x].block.size > 0 {
        if x in st.blocks && e != Free(es[i].index) {
          LiveThroughStep(st, e, x);
        } else if x in st.blocks {
          assert es[n] == Free(es[i].index);
        } else {
          var j :| i < j < n && init[j] == Free(es[i].index);
          assert es[j] == Free(es[i].index);
        }
      }
    } else {
      i := n;
      if es[n].size > 0 {
        var a := Allocation(e.index, MemoryBlock(Placement(st, e.counter, e.size), e.size), e.counter);
        NewIsLive(st, a);
      }
    }
  }

  // ----- Traces with one block at a time

  ghost predicate OneBlock(st: State, x: nat, a: Allocation) {
    && st.InRange() && x < |st.allocs| && st.allocs[x] == a
    && (st.blocks == [] || st.blocks == [x])
  }

  ghost predicate NoBytes(es: seq<Event>, n: int, except: int) {
    forall j :: 0 <= j < n && j < |es| && j != except && es[j].Allocate? ==> es[j].size == 0
  }

  lemma OneBlockStep(st: State, e: Event, x: nat, a: Allocation)
    requires OneBlock(st, x, a) && (e.Allocate? ==> e.size == 0)
    ensures OneBlock(Step(st, e), x, a)
    ensures st.blocks == [] || e == Free(a.index) ==> Step(st, e).blocks == []
  {
    if e.Free? && st.blocks == [x] {
      assert st.Live(0) == a;
    }
  }

  lemma {:induction false} NothingLive(usingCounters: bool, es: seq<Event>, n: nat)
    requires n <= |es| && NoBytes(es, n, -1)
    ensures Run(usingCounters, es[..n]).blocks == []
  {
    if n > 0 {
      NothingLive(usingCounters, es, n - 1);
      RunStep(usingCounters, es, n - 1);
    }
  }

  function OneByte(e: Event): Allocation
    requires e.Allocate?
  {
    Allocation(e.index, MemoryBlock(0, 1), e.counter)
  }

  /** With nothing live, a call for one byte places it at the start of the buffer. */
  lemma OneByteAtStart(usingCounters: bool, es: seq<Event>, i: nat)
    requires i < |es| && es[i].Allocate? && es[i].size == 1 && es[i].counter.Some? == usingCounters
    requires Run(usingCounters, es[..i]).blocks == []
    ensures var st := Run(usingCounters, es[..i]);
      && Run(usingCounters, es[..i + 1]).allocs == st.allocs + [OneByte(es[i])]
      && Run(usingCounters, es[..i + 1]).blocks == [|st.allocs|]
  {
    var st := Run(usingCounters, es[..i]);
    KeepsMode(usingCounters, es, i);
    EmptyListPlacesAtStart(st, es[i].index, es[i].counter, 1);
    RunStep(usingCounters, es, i);
  }

  lemma {:induction false} KeepsMode(usingCounters: bool, es: seq<Event>, n: nat)
    requires n <= |es|
    ensures Run(usingCounters, es[..n]).usingCounters == usingCounters
  {
    if n > 0 {
      KeepsMode(usingCounters, es, n - 1);
      RunStep(usingCounters, es, n - 1);
    }
  }

  lemma {:induction false} OneByteUntil(usingCounters: bool, es: seq<Event>, i: nat, n: nat)
    requires i < n <= |es| && NoBytes(es, n, i)
    requires es[i].Allocate? && es[i].size == 1 && es[i].counter.Some? == usingCounters
    ensures OneBlock(Run(usingCounters, es[..n]), |Run(usingCounters, es[..i]).allocs|, OneByte(es[i]))
    ensures FreedWithin(es, i, n, es[i].index) ==> Run(usingCounters, es[..n]).blocks == []
  {
    hide Step, Run;
    if n == i + 1 {
      NothingLive(usingCounters, es, i);
      OneByteAtStart(usingCounters, es, i);
    } else {
      OneByteUntil(usingCounters, es, i, n - 1);
      RunStep(usingCounters, es, n - 1);
      var x := |Run(usingCounters, es[..i]).allocs|;
      OneBlockStep(Run(usingCounters, es[..n - 1]), es[n - 1], x, OneByte(es[i]));
      if FreedWithin(es, i, n, es[i].index) && es[n - 1] != Free(es[i].index) {
        assert FreedWithin(es, i, n - 1, es[i].index);
      }
    }
  }

  /** A byte traced after a free of the only other byte takes its place. */
  lemma FreedByteIsReused(usingCounters: bool, es: seq<Event>, i: nat, k: nat)
    requires i < k < |es| && FreedWithin(es, i, k, es[i].index) && es[i].Allocate? && es[k].Allocate?
    requires es[i].counter.Some? == es[k].counter.Some? == usingCounters
    requires es[i].size == es[k].size == 1 && NoBytes(es, k, i)
    ensures var allocs := Run(usingCounters, es).allocs;
      var x, y := |Run(usingCounters, es[..i]).allocs|, |Run(usingCounters, es[..k]).allocs|;
      && x < y < |allocs| && allocs[x] == OneByte(es[i]) && allocs[y] == OneByte(es[k])
      && Run(usingCounters, es[..k + 1]).allocs == Run(usingCounters, es[..k]).allocs + [allocs[y]]
  {
    hide Step, Run;
    OneByteUntil(usingCounters, es, i, k);
    OneByteAtStart(usingCounters, es, k);
    AllocationsPersist(usingCounters, es, k + 1);
  }
}
