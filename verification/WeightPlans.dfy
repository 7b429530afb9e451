/**
  Plans for weights: what goes to the planner of each location, the patterns that come out, and why
  no two weights share a byte.
*/
module WeightPlans {
  import opened Wrappers
  import opened MemPattern
  import opened PlannerSpec
  import opened Planner
  import opened PlannerRuns
  import opened ResizedRuns
  import opened ReplayRuns

  /** `OrtMemoryInfo` */
  datatype Location = Location(name: string, id: int, memType: int, arena: bool)

  /** A device allocator: the address it returns for the one request made of it (0 is null). */
  datatype Allocator = Allocator(address: nat)

  /** Memory taken from an allocator, from an arena by `Reserve` and otherwise by `Alloc`. */
  datatype Buffer = Buffer(location: Location, address: nat, size: nat, reserved: bool)

  /** How reserving the buffers ends. A duplicated buffer has been freed although it is still owned. */
  datatype Outcome = Done | NoAllocator(location: Location) | Duplicated(freed: Buffer)

  datatype MemBuffer = MemBuffer(address: nat, size: nat, location: Location)

  type Plan = map<int, Location>

  /** Ids and sizes, in the order they are traced. */
  type Traces = seq<(int, Size)>

  // ----- The planner of one location

  ghost predicate NoFree(es: seq<Event>) {
    forall i :: 0 <= i < |es| ==> es[i].Allocate?
  }

  /** The traces that went to the planner of `loc`. */
  function EventsAt(plan: Plan, traced: Traces, loc: Location): (es: seq<Event>)
    ensures ValidEvents(es) && NoFree(es)
  {
    if traced == [] then []
    else
      var rest, last := EventsAt(plan, traced[..|traced| - 1], loc), traced[|traced| - 1];
      if last.0 in plan && plan[last.0] == loc then rest + [Allocate(last.0, None, last.1)] else rest
  }

  ghost function PlannerAt(plan: Plan, traced: Traces, loc: Location): (st: State)
    ensures st.InRange()
  {
    Run(false, EventsAt(plan, traced, loc))
  }

  ghost function PatternAt(plan: Plan, traced: Traces, loc: Location): MemoryPattern {
    var st := PlannerAt(plan, traced, loc);
    MemoryPattern(PatternOf(st.allocs), st.bufferSize)
  }

  /** No trace was refused by its planner. */
  ghost predicate AllAccepted(plan: Plan, traced: Traces) {
    forall k {:trigger traced[k]} :: 0 <= k < |traced| ==>
      traced[k].0 in plan && !Refused(PlannerAt(plan, traced[..k], plan[traced[k].0]), None, traced[k].1)
  }

  lemma {:induction false} PatternHasLast(allocs: seq<Allocation>, id: int) returns (x: nat)
    requires id in PatternOf(allocs)
    ensures LastAlloc(allocs, x) && allocs[x].index == id && PatternOf(allocs)[id] == allocs[x].block
  {
    x := |allocs| - 1;
    if allocs[x].index != id {
      x := PatternHasLast(allocs[..x], id);
    }
  }

  /** Without frees a planned id is held for good. */
  lemma PlannedIsHeld(es: seq<Event>, id: int) returns (x: nat)
    requires NoFree(es) && id in PatternOf(Run(false, es).allocs)
    ensures Holds(Run(false, es), id, x) && PatternOf(Run(false, es).allocs)[id] == Run(false, es).allocs[x].block
  {
    hide Run, PatternOf;
    x := PatternHasLast(Run(false, es).allocs, id);
    var i := Origin(false, es, x);
  }

  lemma PatternIsDisjoint(es: seq<Event>, a: int, b: int)
    requires ValidEvents(es) && NoFree(es) && a != b
    requires a in PatternOf(Run(false, es).allocs) && b in PatternOf(Run(false, es).allocs)
    ensures var st := Run(false, es); var pattern := PatternOf(st.allocs);
      Disjoint(pattern[a], pattern[b]) && pattern[a].End() <= st.bufferSize && pattern[b].End() <= st.bufferSize
  {
    hide Run, PatternOf, Holds;
    var x := PlannedIsHeld(es, a);
    var y := PlannedIsHeld(es, b);
    RunIsValid(false, es);
    HeldAreDisjoint(Run(false, es), a, x, b, y);
    HeldWithinBuffer(es, a, x);
    HeldWithinBuffer(es, b, y);
  }

  lemma HeldWithinBuffer(es: seq<Event>, id: int, x: nat)
    requires ValidEvents(es) && Holds(Run(false, es), id, x)
    ensures Run(false, es).allocs[x].block.End() <= Run(false, es).bufferSize
  {
    hide Run;
    PeakIsMaxEnd(false, es);
  }

  lemma {:induction false} IndexIsPlanned(allocs: seq<Allocation>, x: nat)
    requires x < |allocs|
    ensures allocs[x].index in PatternOf(allocs)
  {
    if x < |allocs| - 1 {
      IndexIsPlanned(allocs[..|allocs| - 1], x);
    }
  }

  /** Later traces keep earlier allocations. */
  lemma {:induction false} PlannerGrows(plan: Plan, traced: Traces, n: nat, loc: Location)
    requires n <= |traced|
    ensures PlannerAt(plan, traced[..n], loc).allocs <= PlannerAt(plan, traced, loc).allocs
    decreases |traced|
  {
    hide AfterAllocation;
    if n == |traced| {
      assert traced[..n] == traced;
    } else {
      var init := traced[..|traced| - 1];
      PlannerGrows(plan, init, n, loc);
      assert init[..n] == traced[..n];
      var es := EventsAt(plan, traced, loc);
      AllocationsPersist(false, es, |EventsAt(plan, init, loc)|);
      assert es[..|EventsAt(plan, init, loc)|] == EventsAt(plan, init, loc);
    }
  }

  lemma AcceptedIsEntered(plan: Plan, traced: Traces, k: nat)
    requires k < |traced| && traced[k].0 in plan
    requires !Refused(PlannerAt(plan, traced[..k], plan[traced[k].0]), None, traced[k].1)
    ensures var st := PlannerAt(plan, traced[..k + 1], plan[traced[k].0]);
      && st.allocs != [] && st.allocs[|st.allocs| - 1].index == traced[k].0
      && st.allocs[|st.allocs| - 1].block.size == traced[k].1
  {
    hide Refused, AfterAllocation, EventsAt, Run;
    var id, loc, size := traced[k].0, plan[traced[k].0], traced[k].1;
    EventsStep(plan, traced, k);
    RunAppend(false, EventsAt(plan, traced[..k], loc), Allocate(id, None, size));
    AllocationEnters(PlannerAt(plan, traced[..k], loc), id, size);
  }

  lemma EventsStep(plan: Plan, traced: Traces, k: nat)
    requires k < |traced| && traced[k].0 in plan
    ensures var loc := plan[traced[k].0];
      EventsAt(plan, traced[..k + 1], loc)
      == EventsAt(plan, traced[..k], loc) + [Allocate(traced[k].0, None, traced[k].1)]
  {
    assert traced[..k + 1][..k] == traced[..k];
  }

  lemma AllocationEnters(st: State, id: int, size: Size)
    requires st.InRange() && !Refused(st, None, size)
    ensures var allocs := AfterAllocation(st, id, None, size).allocs;
      allocs != [] && allocs[|allocs| - 1].index == id && allocs[|allocs| - 1].block.size == size
  {
    hide Refused;
  }

  /** Every accepted trace has a block in the pattern of its location. */
  lemma TracedIsPlanned(plan: Plan, traced: Traces, k: nat)
    requires AllAccepted(plan, traced) && k < |traced|
    ensures traced[k].0 in PatternAt(plan, traced, plan[traced[k].0]).blocks
  {
    hide PlannerAt, Refused, PatternOf;
    var loc := plan[traced[k].0];
    AcceptedIsEntered(plan, traced, k);
    PlannerGrows(plan, traced, k + 1, loc);
    IndexIsPlanned(PlannerAt(plan, traced, loc).allocs, |PlannerAt(plan, traced[..k + 1], loc).allocs| - 1);
  }

  lemma AcceptedPrefix(plan: Plan, traced: Traces)
    requires AllAccepted(plan, traced) && traced != []
    ensures AllAccepted(plan, traced[..|traced| - 1])
  {
    var init := traced[..|traced| - 1];
    forall k | 0 <= k < |init|
      ensures init[k].0 in plan && !Refused(PlannerAt(plan, init[..k], plan[init[k].0]), None, init[k].1)
    {
      assert init[..k] == traced[..k] && init[k] == traced[k];
    }
  }

  /** A block that is entered changes the pattern at its own index only. */
  lemma EnteredBlock(st: State, id: int, size: Size, other: int)
    requires st.InRange() && !Refused(st, None, size)
    ensures var p, p' := PatternOf(st.allocs), PatternOf(AfterAllocation(st, id, None, size).allocs);
      && id in p' && p'[id].size == size
      && (other != id ==> (other in p' <==> other in p) && (other in p ==> p'[other] == p[other]))
  {
    var allocs := AfterAllocation(st, id, None, size).allocs;
    assert allocs[..|allocs| - 1] == st.allocs;
    hide Refused;
  }

  /** The block of an id has the size of its last trace. */
  lemma {:induction false} LastTraceGivesSize(plan: Plan, traced: Traces, k: nat)
    requires AllAccepted(plan, traced) && k < |traced|
    requires forall j :: k < j < |traced| ==> traced[j].0 != traced[k].0
    ensures var blocks := PatternAt(plan, traced, plan[traced[k].0]).blocks;
      traced[k].0 in blocks && blocks[traced[k].0].size == traced[k].1
  {
    hide PlannerAt, Refused, PatternOf, AfterAllocation;
    var init, last := traced[..|traced| - 1], traced[|traced| - 1];
    var loc := plan[traced[k].0];
    AcceptedPrefix(plan, traced);
    assert traced == init + [last];
    TraceExtends(plan, init, last);
    EnteredBlock(PlannerAt(plan, init, plan[last.0]), last.0, last.1, traced[k].0);
    if k < |init| {
      assert forall j :: k <= j < |init| ==> init[j] == traced[j];
      LastTraceGivesSize(plan, init, k);
    }
  }

  ghost predicate TracedAt(plan: Plan, traced: Traces, loc: Location, id: int) {
    id in plan && plan[id] == loc && exists k :: 0 <= k < |traced| && traced[k].0 == id
  }

  lemma {:induction false} EventIsTraced(plan: Plan, traced: Traces, loc: Location, i: nat)
    requires i < |EventsAt(plan, traced, loc)|
    ensures TracedAt(plan, traced, loc, EventsAt(plan, traced, loc)[i].index)
  {
    var rest := EventsAt(plan, traced[..|traced| - 1], loc);
    if i < |rest| {
      EventIsTraced(plan, traced[..|traced| - 1], loc, i);
      var k :| 0 <= k < |traced| - 1 && traced[..|traced| - 1][k].0 == rest[i].index;
      assert traced[k].0 == rest[i].index;
    } else {
      assert traced[|traced| - 1].0 == EventsAt(plan, traced, loc)[i].index;
    }
  }

  /** The pattern of a location has blocks for the ids traced there, and for no others. */
  lemma PlannedIffTraced(plan: Plan, traced: Traces, loc: Location, id: int)
    requires AllAccepted(plan, traced)
    ensures id in PatternAt(plan, traced, loc).blocks <==> TracedAt(plan, traced, loc, id)
  {
    hide Run, EventsAt, PatternOf, Refused;
    if id in PatternAt(plan, traced, loc).blocks {
      var es := EventsAt(plan, traced, loc);
      var x := PatternHasLast(Run(false, es).allocs, id);
      var i := Origin(false, es, x);
      EventIsTraced(plan, traced, loc, i);
    }
    if TracedAt(plan, traced, loc, id) {
      var k :| 0 <= k < |traced| && traced[k].0 == id;
      TracedIsPlanned(plan, traced, k);
    }
  }

  /** A weight that takes memory is traced at `loc`. */
  ghost predicate TakesBytes(plan: Plan, traced: Traces, loc: Location) {
    exists k :: 0 <= k < |traced| && traced[k].0 in plan && plan[traced[k].0] == loc && traced[k].1 > 0
  }

  /** A weight that takes memory is traced. */
  ghost predicate TakesMemory(traced: Traces) {
    exists k :: 0 <= k < |traced| && traced[k].1 > 0
  }

  lemma {:induction false} EmptyWeightsTakeNothing(plan: Plan, traced: Traces, loc: Location)
    ensures !TakesBytes(plan, traced, loc) ==> TracedBytes(EventsAt(plan, traced, loc)) == 0
  {
    if traced != [] && !TakesBytes(plan, traced, loc) {
      var init := traced[..|traced| - 1];
      assert forall k :: 0 <= k < |init| ==> init[k] == traced[k];
      EmptyWeightsTakeNothing(plan, init, loc);
      var es := EventsAt(plan, traced, loc);
      assert es == EventsAt(plan, init, loc) || es[..|es| - 1] == EventsAt(plan, init, loc);
    }
  }

  /** The peak of a location is positive exactly if some weight traced there takes memory. */
  lemma PeakIffTakesBytes(plan: Plan, traced: Traces, loc: Location)
    requires AllAccepted(plan, traced)
    ensures PatternAt(plan, traced, loc).peakSize > 0 <==> TakesBytes(plan, traced, loc)
  {
    hide Run, EventsAt, PatternOf, Refused;
    EmptyWeightsTakeNothing(plan, traced, loc);
    PeakAtMostTraced(false, EventsAt(plan, traced, loc));
    if TakesBytes(plan, traced, loc) {
      var k :| 0 <= k < |traced| && traced[k].0 in plan && plan[traced[k].0] == loc && traced[k].1 > 0;
      AcceptedIsEntered(plan, traced, k);
      PlannerGrows(plan, traced, k + 1, loc);
      PeakIsMaxEnd(false, EventsAt(plan, traced, loc));
    }
  }

  /** A single weight is accepted, and its location needs as many bytes. */
  lemma OneWeightPattern(plan: Plan, loc: Location, size: Size)
    requires plan == map[0 := loc] && size > 0
    ensures !Refused(PlannerAt(plan, [], loc), None, size)
    ensures PatternAt(plan, [(0, size)], loc).peakSize == size
  {
    EmptyListPlacesAtStart(EMPTY_PLAIN, 0, None, size);
    RefusedKeepsState(plan, [], loc, 0, size);
    EventsStep(plan, [(0, size)], 0);
    RunAppend(false, [], Allocate(0, None, size));
    hide Refused, AfterAllocation;
    assert [(0, size)][..1] == [(0, size)] && [(0, size)][..0] == [];
  }

  /**
    Planned weights: two different ids traced at one location have disjoint blocks in the pattern of
    that location, within its peak size.
  */
  lemma PlannedWeightsAreDisjoint(plan: Plan, traced: Traces, j: nat, k: nat)
    requires AllAccepted(plan, traced) && j < |traced| && k < |traced| && traced[j].0 != traced[k].0
    requires plan[traced[j].0] == plan[traced[k].0]
    ensures var p := PatternAt(plan, traced, plan[traced[j].0]);
      var a, b := p.GetBlock(traced[j].0), p.GetBlock(traced[k].0);
      && a.Some? && b.Some? && Disjoint(a.value, b.value)
      && a.value.End() <= p.peakSize && b.value.End() <= p.peakSize
  {
    hide Run, EventsAt, PatternOf, Refused;
    TracedIsPlanned(plan, traced, j);
    TracedIsPlanned(plan, traced, k);
    PatternIsDisjoint(EventsAt(plan, traced, plan[traced[j].0]), traced[j].0, traced[k].0);
  }

  /** A location whose peak is zero holds only empty blocks. */
  lemma ZeroPeakHoldsNothing(plan: Plan, traced: Traces, loc: Location, id: int)
    requires PatternAt(plan, traced, loc).peakSize == 0
    ensures var b := PatternAt(plan, traced, loc).GetBlock(id); b.Some? ==> b.value.size == 0
  {
    var st := PlannerAt(plan, traced, loc);
    PeakIsMaxEnd(false, EventsAt(plan, traced, loc));
    PatternBlocksAreTraced(st.allocs, id);
  }

  lemma {:induction false} PatternBlocksAreTraced(allocs: seq<Allocation>, id: int)
    ensures id in PatternOf(allocs) ==> exists i :: 0 <= i < |allocs| && allocs[i].block == PatternOf(allocs)[id]
  {
    if allocs != [] {
      var last := |allocs| - 1;
      if allocs[last].index != id && id in PatternOf(allocs) {
        PatternBlocksAreTraced(allocs[..last], id);
        var i :| 0 <= i < last && allocs[..last][i].block == PatternOf(allocs[..last])[id];
        assert allocs[i].block == PatternOf(allocs)[id];
      } else {
        assert id in PatternOf(allocs) ==> allocs[last].block == PatternOf(allocs)[id];
      }
    }
  }

  lemma TraceExtends(plan: Plan, traced: Traces, t: (int, Size))
    requires AllAccepted(plan, traced) && t.0 in plan && !Refused(PlannerAt(plan, traced, plan[t.0]), None, t.1)
    ensures AllAccepted(plan, traced + [t])
    ensures PlannerAt(plan, traced + [t], plan[t.0])
      == AfterAllocation(PlannerAt(plan, traced, plan[t.0]), t.0, None, t.1)
    ensures forall loc :: loc != plan[t.0] ==> PlannerAt(plan, traced + [t], loc) == PlannerAt(plan, traced, loc)
  {
    var all := traced + [t];
    assert all[..|traced|] == traced;
    forall k | 0 <= k < |all|
      ensures all[k].0 in plan && !Refused(PlannerAt(plan, all[..k], plan[all[k].0]), None, all[k].1)
    {
      if k < |traced| {
        assert all[k] == traced[k] && all[..k] == traced[..k];
      }
    }
    var es, e := EventsAt(plan, traced, plan[t.0]), Allocate(t.0, None, t.1);
    assert EventsAt(plan, all, plan[t.0]) == es + [e];
    RunAppend(false, es, e);
  }

  // ----- The pattern group

  type Entry = (Location, MemoryPattern)

  /** `MemoryPatternGroup::GetPatterns`: the first entry for a location. */
  function GetPatterns(patterns: seq<Entry>, loc: Location): Option<MemoryPattern> {
    if patterns == [] then None
    else if patterns[0].0 == loc then Some(patterns[0].1)
    else GetPatterns(patterns[1..], loc)
  }

  lemma {:induction false} GetPatternsFinds(patterns: seq<Entry>, i: nat)
    requires i < |patterns| && forall j :: 0 <= j < i ==> patterns[j].0 != patterns[i].0
    ensures GetPatterns(patterns, patterns[i].0) == Some(patterns[i].1)
  {
    if i > 0 {
      GetPatternsFinds(patterns[1..], i - 1);
    }
  }

  /** Bytes of the buffers whose location has this name. */
  function BytesNamed(buffers: seq<Buffer>, name: string): nat {
    if buffers == [] then 0
    else
      var last := buffers[|buffers| - 1];
      BytesNamed(buffers[..|buffers| - 1], name) + if last.location.name == name then last.size else 0
  }

  function Reported(sizes: map<string, nat>, name: string): nat {
    if name in sizes then sizes[name] else 0
  }

  /** Every planned location once, with the pattern of its planner. */
  ghost predicate IsPatternGroup(plan: Plan, traced: Traces, ps: seq<Entry>) {
    && (forall i :: 0 <= i < |ps| ==> ps[i].0 in plan.Values && ps[i].1 == PatternAt(plan, traced, ps[i].0))
    && DistinctLocations(ps)
    && (forall loc :: loc in plan.Values ==> Listed(ps, loc))
  }

  ghost predicate Listed(ps: seq<Entry>, loc: Location) {
    exists i :: 0 <= i < |ps| && ps[i].0 == loc
  }

  lemma NothingListed()
    ensures forall loc :: !Listed([], loc)
  {}

  lemma IsListed(ps: seq<Entry>)
    ensures forall i :: 0 <= i < |ps| ==> Listed(ps, ps[i].0)
  {}

  lemma ListedAppend(ps: seq<Entry>, p: (Location, MemoryPattern))
    ensures forall loc :: Listed(ps + [p], loc) <==> Listed(ps, loc) || loc == p.0
  {
    forall loc
      ensures Listed(ps + [p], loc) <==> Listed(ps, loc) || loc == p.0
    {
      var all := ps + [p];
      assert all[|ps|] == p;
      if i :| 0 <= i < |ps| && ps[i].0 == loc {
        assert all[i] == ps[i];
      }
    }
  }

  ghost predicate DistinctLocations(ps: seq<Entry>) {
    forall i, j :: 0 <= i < j < |ps| ==> ps[i].0 != ps[j].0
  }

  lemma GroupGivesPattern(plan: Plan, traced: Traces, ps: seq<Entry>, loc: Location)
    requires IsPatternGroup(plan, traced, ps) && loc in plan.Values
    ensures GetPatterns(ps, loc) == Some(PatternAt(plan, traced, loc))
  {
    var i :| 0 <= i < |ps| && ps[i].0 == loc;
    GetPatternsFinds(ps, i);
  }

  /** Groups appended later do not change what is found. */
  lemma {:induction false} FirstGroupIsFound(first: seq<Entry>, rest: seq<Entry>,
                                             loc: Location)
    requires GetPatterns(first, loc).Some?
    ensures GetPatterns(first + rest, loc) == GetPatterns(first, loc)
  {
    if first[0].0 != loc {
      FirstGroupIsFound(first[1..], rest, loc);
      assert (first + rest)[1..] == first[1..] + rest;
    }
  }

  // ----- Buffers

  /** What has been added to the reported sizes is what has been taken. */
  ghost predicate Balanced(sizes: map<string, nat>, before: seq<Buffer>, sizes': map<string, nat>, after: seq<Buffer>) {
    forall name :: Reported(sizes', name) + BytesNamed(before, name) == Reported(sizes, name) + BytesNamed(after, name)
  }

  lemma BalancedAtStart(sizes: map<string, nat>, buffers: seq<Buffer>)
    ensures Balanced(sizes, buffers, sizes, buffers)
  {}

  lemma BalancedStep(sizes: map<string, nat>, before: seq<Buffer>, sizes': map<string, nat>, after: seq<Buffer>,
                     b: Buffer)
    requires Balanced(sizes, before, sizes', after)
    ensures Balanced(sizes, before, sizes'[b.location.name := Reported(sizes', b.location.name) + b.size], after + [b])
  {
    BytesOfAppend(after, b);
  }

  lemma {:induction false} BytesOfAppend(buffers: seq<Buffer>, b: Buffer)
    ensures forall name ::
      BytesNamed(buffers + [b], name) == BytesNamed(buffers, name) + if b.location.name == name then b.size else 0
  {
    assert (buffers + [b])[..|buffers|] == buffers;
  }

  lemma PlainIsClashFree(st: State)
    requires PlannerSpec.Valid(st) && !st.usingCounters
    ensures ClashFree(st.allocs)
  {
    forall i, j | 0 <= i < j < |st.allocs|
      ensures !Clash(st.allocs[i], st.allocs[j])
    {
      assert GoodAllocation(st.allocs[i], false);
    }
  }

  lemma RefusedKeepsState(plan: Plan, traced: Traces, loc: Location, id: int, size: Size)
    ensures var st := PlannerAt(plan, traced, loc);
      Refused(st, None, size) ==> AfterAllocation(st, id, None, size) == st
  {}

  /** An entry that needs memory. */
  predicate NeedsMemory(p: Entry) {
    p.1.peakSize > 0
  }

  /** One of the first `n` entries needs memory at this location. */
  ghost predicate Needed(ps: seq<Entry>, n: nat, loc: Location) {
    exists i :: 0 <= i < n && i < |ps| && ps[i].0 == loc && NeedsMemory(ps[i])
  }

  /** Each of the first `n` entries has an allocator, and no location gets a second buffer. */
  ghost predicate Servable(ps: seq<Entry>, n: nat, allocators: map<Location, Allocator>, buffers: map<Location, nat>) {
    forall i :: 0 <= i < n && i < |ps| ==>
      && ps[i].0 in allocators
      && (NeedsMemory(ps[i]) ==> ps[i].0 !in buffers && !Needed(ps, i, ps[i].0))
  }

  /** What the first `n` entries have added to the buffers. */
  ghost predicate Taken(ps: seq<Entry>, n: nat, allocators: map<Location, Allocator>, before: map<Location, nat>,
                        buffers: map<Location, nat>, owned: seq<Buffer>)
  {
    && (forall loc :: loc in buffers <==> loc in before || Needed(ps, n, loc))
    && (forall loc :: loc in before && loc in buffers ==> buffers[loc] == before[loc])
    && (forall i :: 0 <= i < n && i < |ps| && NeedsMemory(ps[i]) ==>
          && ps[i].0 in allocators && ps[i].0 in buffers && buffers[ps[i].0] == allocators[ps[i].0].address
          && BufferOf(ps[i], allocators[ps[i].0]) in owned)
  }

  /** Taken from an arena by `Reserve`, from another allocator by `Alloc`. */
  function BufferOf(p: Entry, a: Allocator): Buffer {
    Buffer(p.0, a.address, p.1.peakSize, p.0.arena)
  }

  lemma NothingTaken(ps: seq<Entry>, allocators: map<Location, Allocator>, buffers: map<Location, nat>,
                     owned: seq<Buffer>)
    ensures Servable(ps, 0, allocators, buffers) && Taken(ps, 0, allocators, buffers, buffers, owned)
  {}

  lemma EntrySkipped(ps: seq<Entry>, n: nat, allocators: map<Location, Allocator>, before: map<Location, nat>,
                     buffers: map<Location, nat>, owned: seq<Buffer>)
    requires n < |ps| && Servable(ps, n, allocators, before) && Taken(ps, n, allocators, before, buffers, owned)
    requires ps[n].0 in allocators && !NeedsMemory(ps[n])
    ensures Servable(ps, n + 1, allocators, before) && Taken(ps, n + 1, allocators, before, buffers, owned)
  {
    forall loc
      ensures Needed(ps, n + 1, loc) <==> Needed(ps, n, loc)
    {}
  }

  lemma EntryServed(ps: seq<Entry>, n: nat, allocators: map<Location, Allocator>, before: map<Location, nat>,
                    buffers: map<Location, nat>, owned: seq<Buffer>)
    requires n < |ps| && Servable(ps, n, allocators, before) && Taken(ps, n, allocators, before, buffers, owned)
    requires ps[n].0 in allocators && NeedsMemory(ps[n]) && ps[n].0 !in buffers
    ensures Servable(ps, n + 1, allocators, before)
    ensures Taken(ps, n + 1, allocators, before, buffers[ps[n].0 := allocators[ps[n].0].address],
                  owned + [BufferOf(ps[n], allocators[ps[n].0])])
  {
    forall loc
      ensures Needed(ps, n + 1, loc) <==> Needed(ps, n, loc) || loc == ps[n].0
    {
      if i :| 0 <= i < n && ps[i].0 == loc && NeedsMemory(ps[i]) {
        assert Needed(ps, n + 1, loc);
      }
    }
    assert forall i :: 0 <= i < n && NeedsMemory(ps[i]) ==> ps[i].0 != ps[n].0;
  }

  /** The buffers for those of the first `n` entries that need memory, in the order of the entries. */
  function BuffersFor(ps: seq<Entry>, n: nat, allocators: map<Location, Allocator>): seq<Buffer>
    requires n <= |ps|
  {
    if n == 0 then []
    else
      var p := ps[n - 1];
      BuffersFor(ps, n - 1, allocators)
      + if p.0 in allocators && NeedsMemory(p) then [BufferOf(p, allocators[p.0])] else []
  }

  lemma NoBuffers(ps: seq<Entry>, allocators: map<Location, Allocator>)
    ensures BuffersFor(ps, 0, allocators) == []
  {}

  lemma BuffersForStep(ps: seq<Entry>, n: nat, allocators: map<Location, Allocator>)
    requires n < |ps| && ps[n].0 in allocators
    ensures !NeedsMemory(ps[n]) ==> BuffersFor(ps, n + 1, allocators) == BuffersFor(ps, n, allocators)
    ensures NeedsMemory(ps[n]) ==>
      BuffersFor(ps, n + 1, allocators) == BuffersFor(ps, n, allocators) + [BufferOf(ps[n], allocators[ps[n].0])]
  {}

  /** Reserving ends at entry `n`: the first one without an allocator, or with a location that has a buffer. */
  ghost predicate EndsAt(ps: seq<Entry>, n: nat, allocators: map<Location, Allocator>, buffers: map<Location, nat>,
                         outcome: Outcome)
  {
    && n <= |ps| && Servable(ps, n, allocators, buffers)
    && match outcome
       case Done => n == |ps|
       case NoAllocator(location) => n < |ps| && ps[n].0 == location && location !in allocators
       case Duplicated(freed) =>
         && n < |ps| && ps[n].0 in allocators && freed == BufferOf(ps[n], allocators[ps[n].0])
         && NeedsMemory(ps[n]) && (ps[n].0 in buffers || Needed(ps, n, ps[n].0))
  }

  lemma EndsWithSuccessIff(ps: seq<Entry>, n: nat, allocators: map<Location, Allocator>, buffers: map<Location, nat>,
                           outcome: Outcome)
    requires EndsAt(ps, n, allocators, buffers, outcome)
    ensures outcome.Done? <==> Servable(ps, |ps|, allocators, buffers)
    ensures outcome.Done? ==> n == |ps|
  {}

  /** A location has a buffer from before or for an entry that was served. */
  lemma BufferIsAccounted(ps: seq<Entry>, n: nat, allocators: map<Location, Allocator>, before: map<Location, nat>,
                          buffers: map<Location, nat>, owned: seq<Buffer>)
    requires n < |ps| && Taken(ps, n, allocators, before, buffers, owned)
    ensures ps[n].0 in buffers <==> ps[n].0 in before || Needed(ps, n, ps[n].0)
  {}

  lemma TakenGrows(ps: seq<Entry>, n: nat, allocators: map<Location, Allocator>, before: map<Location, nat>,
                   buffers: map<Location, nat>, owned: seq<Buffer>, b: Buffer)
    requires Taken(ps, n, allocators, before, buffers, owned)
    ensures Taken(ps, n, allocators, before, buffers, owned + [b])
  {}

  // ----- What calls of FinalizePlan leave behind

  /** Memory is needed at the locations of the weights tried so far, and taken at such locations only. */
  ghost predicate Accounted(plan: Plan, tried: Traces, ps: seq<Entry>, buffers: map<Location, nat>) {
    && (forall i :: 0 <= i < |ps| ==> ps[i].0 in plan.Values)
    && (forall loc :: Needed(ps, |ps|, loc) <==> TakesBytes(plan, tried, loc))
    && (forall loc :: loc in buffers ==> Needed(ps, |ps|, loc))
  }

  /** The entries of the first call come first. */
  ghost predicate StartsWith(plan: Plan, planned: Traces, first: seq<Entry>, ps: seq<Entry>) {
    IsPatternGroup(plan, planned, first) && AllAccepted(plan, planned) && first <= ps
  }

  /** The entries that need memory have the buffers that were taken for them. */
  ghost predicate Backed(ps: seq<Entry>, buffers: map<Location, nat>, owned: seq<Buffer>) {
    forall i :: 0 <= i < |ps| && NeedsMemory(ps[i]) ==>
      && ps[i].0 in buffers
      && Buffer(ps[i].0, buffers[ps[i].0], ps[i].1.peakSize, ps[i].0.arena) in owned
  }

  /** After a success: memory wherever an entry needs it. */
  ghost predicate SealedPlan(first: seq<Entry>, ps: seq<Entry>, buffers: map<Location, nat>, owned: seq<Buffer>) {
    && (forall loc :: Needed(ps, |ps|, loc) ==> loc in buffers)
    && Backed(first, buffers, owned)
  }

  lemma {:induction false} GroupNeeds(plan: Plan, traced: Traces, group: seq<Entry>, loc: Location)
    requires IsPatternGroup(plan, traced, group) && AllAccepted(plan, traced)
    ensures Needed(group, |group|, loc) <==> TakesBytes(plan, traced, loc)
  {
    hide PatternAt, AllAccepted;
    PeakIffTakesBytes(plan, traced, loc);
    if TakesBytes(plan, traced, loc) {
      var k :| 0 <= k < |traced| && traced[k].0 in plan && plan[traced[k].0] == loc && traced[k].1 > 0;
      assert Listed(group, loc);
      var i :| 0 <= i < |group| && group[i].0 == loc;
      assert NeedsMemory(group[i]);
    }
  }

  lemma NeededSplits(ps: seq<Entry>, group: seq<Entry>, loc: Location)
    ensures Needed(ps + group, |ps + group|, loc) <==> Needed(ps, |ps|, loc) || Needed(group, |group|, loc)
  {
    var all := ps + group;
    if i :| 0 <= i < |ps| && ps[i].0 == loc && NeedsMemory(ps[i]) {
      assert all[i] == ps[i];
    }
    if i :| 0 <= i < |group| && group[i].0 == loc && NeedsMemory(group[i]) {
      assert all[|ps| + i] == group[i];
    }
  }

  lemma BytesStay(plan: Plan, tried: Traces, traced: Traces, loc: Location)
    requires tried <= traced
    ensures TakesBytes(plan, tried, loc) ==> TakesBytes(plan, traced, loc)
  {
    if k :| 0 <= k < |tried| && tried[k].0 in plan && plan[tried[k].0] == loc && tried[k].1 > 0 {
      assert traced[k] == tried[k];
    }
  }

  lemma NeededStays(ps: seq<Entry>, n: nat, loc: Location)
    requires n <= |ps|
    ensures Needed(ps, n, loc) ==> Needed(ps, |ps|, loc)
  {}

  /** A call leaves everything accounted for, however it ends. */
  lemma StillAccounted(plan: Plan, tried: Traces, ps: seq<Entry>, before: map<Location, nat>, traced: Traces,
                       group: seq<Entry>, n: nat, allocators: map<Location, Allocator>,
                       buffers: map<Location, nat>, owned: seq<Buffer>)
    requires Accounted(plan, tried, ps, before) && tried <= traced
    requires IsPatternGroup(plan, traced, group) && AllAccepted(plan, traced)
    requires n <= |ps + group| && Taken(ps + group, n, allocators, before, buffers, owned)
    ensures Accounted(plan, traced, ps + group, buffers)
  {
    hide PatternAt, AllAccepted, Needed, TakesBytes;
    var all := ps + group;
    forall loc
      ensures Needed(all, |all|, loc) <==> TakesBytes(plan, traced, loc)
    {
      NeededSplits(ps, group, loc);
      GroupNeeds(plan, traced, group, loc);
      BytesStay(plan, tried, traced, loc);
    }
    forall loc | loc in buffers
      ensures Needed(all, |all|, loc)
    {
      NeededStays(all, n, loc);
      NeededSplits(ps, group, loc);
    }
  }

  /** Only a weight that takes memory makes its location need some. */
  lemma NothingNeeded(plan: Plan, tried: Traces, ps: seq<Entry>, buffers: map<Location, nat>)
    requires Accounted(plan, tried, ps, buffers) && !TakesMemory(tried)
    ensures buffers == map[] && forall i :: 0 <= i < |ps| ==> !NeedsMemory(ps[i])
  {
    assert forall loc :: !TakesBytes(plan, tried, loc);
    forall i | 0 <= i < |ps|
      ensures !NeedsMemory(ps[i])
    {
      assert !Needed(ps, |ps|, ps[i].0);
    }
    assert forall loc :: loc !in buffers;
  }

  /** Nothing tried before takes memory: no location can come up twice. */
  lemma FreshGroupIsNotDuplicated(plan: Plan, tried: Traces, ps: seq<Entry>, buffers: map<Location, nat>,
                                  group: seq<Entry>, n: nat)
    requires Accounted(plan, tried, ps, buffers) && !TakesMemory(tried)
    requires DistinctLocations(group) && n < |ps + group| && NeedsMemory((ps + group)[n])
    ensures (ps + group)[n].0 !in buffers && !Needed(ps + group, n, (ps + group)[n].0)
  {
    var all := ps + group;
    NothingNeeded(plan, tried, ps, buffers);
    assert all == ps + group && forall i :: |ps| <= i < |all| ==> all[i] == group[i - |ps|];
  }

  /** A location that a weight tried before takes memory at comes up twice. */
  lemma TriedIsDuplicated(plan: Plan, tried: Traces, ps: seq<Entry>, traced: Traces, group: seq<Entry>,
                          allocators: map<Location, Allocator>, buffers: map<Location, nat>)
    requires Accounted(plan, tried, ps, buffers) && tried <= traced && TakesMemory(tried)
    requires IsPatternGroup(plan, traced, group) && AllAccepted(plan, traced)
    ensures !Servable(ps + group, |ps + group|, allocators, buffers)
  {
    hide PatternAt;
    var all := ps + group;
    var k :| 0 <= k < |tried| && tried[k].1 > 0;
    assert traced[k] == tried[k];
    var loc := plan[tried[k].0];
    assert TakesBytes(plan, tried, loc);
    BytesStay(plan, tried, traced, loc);
    GroupNeeds(plan, traced, group, loc);
    var i :| 0 <= i < |ps| && ps[i].0 == loc && NeedsMemory(ps[i]);
    var j :| 0 <= j < |group| && group[j].0 == loc && NeedsMemory(group[j]);
    assert all[i] == ps[i] && all[|ps| + j] == group[j];
    assert Needed(all, |ps| + j, loc);
  }

  /**
    A call succeeds exactly if every planned location has an allocator and no weight that was traced
    before an earlier call takes memory.
  */
  lemma CallSucceedsIff(plan: Plan, tried: Traces, ps: seq<Entry>, traced: Traces, group: seq<Entry>,
                        allocators: map<Location, Allocator>, buffers: map<Location, nat>)
    requires Accounted(plan, tried, ps, buffers) && tried <= traced
    requires IsPatternGroup(plan, traced, group) && AllAccepted(plan, traced)
    ensures Servable(ps + group, |ps + group|, allocators, buffers) <==>
      plan.Values <= allocators.Keys && !TakesMemory(tried)
  {
    hide PatternAt, AllAccepted, TakesMemory;
    var all := ps + group;
    if Servable(all, |all|, allocators, buffers) {
      forall loc | loc in plan.Values
        ensures loc in allocators.Keys
      {
        var i :| 0 <= i < |group| && group[i].0 == loc;
        assert all[|ps| + i] == group[i];
      }
    }
    if TakesMemory(tried) {
      TriedIsDuplicated(plan, tried, ps, traced, group, allocators, buffers);
    } else {
      forall i | 0 <= i < |all| && NeedsMemory(all[i])
        ensures all[i].0 !in buffers && !Needed(all, i, all[i].0)
      {
        FreshGroupIsNotDuplicated(plan, tried, ps, buffers, group, i);
      }
    }
  }

  /** How a failed call ends: only weights tried before make it free a buffer that it keeps. */
  lemma CallEnds(plan: Plan, tried: Traces, ps: seq<Entry>, traced: Traces, group: seq<Entry>, n: nat,
                 allocators: map<Location, Allocator>, buffers: map<Location, nat>, outcome: Outcome)
    requires Accounted(plan, tried, ps, buffers) && IsPatternGroup(plan, traced, group)
    requires EndsAt(ps + group, n, allocators, buffers, outcome)
    ensures outcome.Duplicated? ==> TakesMemory(tried)
    ensures plan.Values <= allocators.Keys ==> !outcome.NoAllocator?
  {
    hide PatternAt, TakesMemory;
    if outcome.Duplicated? && !TakesMemory(tried) {
      FreshGroupIsNotDuplicated(plan, tried, ps, buffers, group, n);
    }
  }

  /** What every call of `FinalizePlan` keeps, and when it succeeds. */
  lemma CallSettles(plan: Plan, tried: Traces, ps: seq<Entry>, before: map<Location, nat>, traced: Traces,
                    group: seq<Entry>, n: nat, allocators: map<Location, Allocator>,
                    buffers: map<Location, nat>, owned: seq<Buffer>, outcome: Outcome)
    requires Accounted(plan, tried, ps, before) && tried <= traced
    requires IsPatternGroup(plan, traced, group) && AllAccepted(plan, traced)
    requires n <= |ps + group| && EndsAt(ps + group, n, allocators, before, outcome)
    requires Taken(ps + group, n, allocators, before, buffers, owned)
    ensures Accounted(plan, traced, ps + group, buffers)
    ensures outcome.Done? <==> plan.Values <= allocators.Keys && !TakesMemory(tried)
    ensures outcome.Done? ==> n == |ps + group|
    ensures outcome.Duplicated? ==> TakesMemory(tried)
    ensures plan.Values <= allocators.Keys ==> (outcome.Duplicated? <==> TakesMemory(tried))
    ensures tried == [] ==> !TakesMemory(tried)
  {
    hide Accounted, IsPatternGroup, AllAccepted, EndsAt, Taken;
    EndsWithSuccessIff(ps + group, n, allocators, before, outcome);
    CallSucceedsIff(plan, tried, ps, traced, group, allocators, before);
    CallEnds(plan, tried, ps, traced, group, n, allocators, before, outcome);
    StillAccounted(plan, tried, ps, before, traced, group, n, allocators, buffers, owned);
  }

  lemma FirstStarts(plan: Plan, traced: Traces, group: seq<Entry>)
    requires IsPatternGroup(plan, traced, group) && AllAccepted(plan, traced)
    ensures StartsWith(plan, traced, group, [] + group)
  {
    assert [] + group == group;
  }

  lemma StillStarts(plan: Plan, planned: Traces, first: seq<Entry>, ps: seq<Entry>, group: seq<Entry>)
    requires StartsWith(plan, planned, first, ps)
    ensures StartsWith(plan, planned, first, ps + group)
  {}

  lemma ServedIsSealed(plan: Plan, planned: Traces, first: seq<Entry>, ps: seq<Entry>,
                       allocators: map<Location, Allocator>, before: map<Location, nat>,
                       buffers: map<Location, nat>, owned: seq<Buffer>)
    requires StartsWith(plan, planned, first, ps) && Taken(ps, |ps|, allocators, before, buffers, owned)
    ensures SealedPlan(first, ps, buffers, owned)
  {
    assert forall i :: 0 <= i < |first| ==> first[i] == ps[i];
  }

  /** Once sealed nothing more is traced, so a further call needs memory where there is some. */
  lemma StaysSealed(plan: Plan, traced: Traces, first: seq<Entry>, ps: seq<Entry>, group: seq<Entry>,
                    n: nat, allocators: map<Location, Allocator>, before: map<Location, nat>,
                    buffers: map<Location, nat>, owned: seq<Buffer>, owned': seq<Buffer>)
    requires SealedPlan(first, ps, before, owned) && Accounted(plan, traced, ps, before)
    requires IsPatternGroup(plan, traced, group) && AllAccepted(plan, traced)
    requires Taken(ps + group, n, allocators, before, buffers, owned') && owned <= owned'
    ensures SealedPlan(first, ps + group, buffers, owned')
  {
    hide PatternAt, AllAccepted, Needed;
    forall loc | Needed(ps + group, |ps + group|, loc)
      ensures loc in buffers
    {
      NeededSplits(ps, group, loc);
      GroupNeeds(plan, traced, group, loc);
    }
  }

  // ----- What is handed out

  lemma PatternIsFound(plan: Plan, planned: Traces, first: seq<Entry>, ps: seq<Entry>, loc: Location)
    requires StartsWith(plan, planned, first, ps) && loc in plan.Values
    ensures GetPatterns(ps, loc) == Some(PatternAt(plan, planned, loc))
  {
    GroupGivesPattern(plan, planned, first, loc);
    FirstGroupIsFound(first, ps[|first|..], loc);
    assert first + ps[|first|..] == ps;
  }

  lemma UnbufferedIsEmpty(plan: Plan, planned: Traces, first: seq<Entry>, ps: seq<Entry>,
                          buffers: map<Location, nat>, owned: seq<Buffer>, loc: Location, id: int)
    requires StartsWith(plan, planned, first, ps) && SealedPlan(first, ps, buffers, owned)
    requires loc in plan.Values && loc !in buffers
    ensures var b := PatternAt(plan, planned, loc).GetBlock(id); b.Some? ==> b.value.size == 0
  {
    hide PatternAt;
    var i :| 0 <= i < |first| && first[i].0 == loc;
    assert !Needed(ps, |ps|, loc) && ps[i] == first[i];
    ZeroPeakHoldsNothing(plan, planned, loc, id);
  }

  lemma BufferIsOwned(plan: Plan, planned: Traces, first: seq<Entry>, ps: seq<Entry>,
                      buffers: map<Location, nat>, owned: seq<Buffer>, loc: Location)
    requires StartsWith(plan, planned, first, ps) && SealedPlan(first, ps, buffers, owned)
    requires loc in plan.Values && loc in buffers && PatternAt(plan, planned, loc).peakSize > 0
    ensures Buffer(loc, buffers[loc], PatternAt(plan, planned, loc).peakSize, loc.arena) in owned
  {
    hide PatternAt;
    var i :| 0 <= i < |first| && first[i].0 == loc;
    assert NeedsMemory(first[i]);
  }
}
