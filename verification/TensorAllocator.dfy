/**
  The allocator of planned weights: sizes are traced, then one buffer per location is reserved, then
  every weight is handed its part of the buffer of its location.
*/
module TensorAllocator {
  import opened Wrappers
  import opened MemPattern
  import opened PlannerSpec
  import opened Planner
  import opened PlannerRuns
  import opened WeightPlans

  class TensorAllocatorWithMemPattern {
    const plan: Plan
    const planners: map<Location, MemPatternPlanner>
    var patterns: seq<Entry>
    var buffers: map<Location, nat>
    var weightsBuffers: seq<Buffer>
    var isSealed: bool
    /** The accepted traces; those before the last `FinalizePlan`; those before the first, and the entries it made. */
    ghost var traced: Traces
    ghost var tried: Traces
    ghost var planned: Traces
    ghost var firstGroup: seq<Entry>
    ghost var attempts: nat

    ghost predicate PlannersMatch()
      reads this`traced, planners.Values
    {
      && planners.Keys == plan.Values
      && (forall l, l' :: l in planners && l' in planners && l != l' ==> planners[l] != planners[l'])
      && (forall l :: l in planners ==> planners[l].Valid() && planners[l].State() == PlannerAt(plan, traced, l))
    }

    /** What calls of `FinalizePlan` have left behind. */
    ghost predicate PatternsMatch()
      reads this
    {
      && tried <= traced
      && Accounted(plan, tried, patterns, buffers)
      && if attempts == 0 then patterns == [] && tried == [] && weightsBuffers == [] && !isSealed
         else
           && StartsWith(plan, planned, firstGroup, patterns)
           && (isSealed ==> tried == traced && SealedPlan(firstGroup, patterns, buffers, weightsBuffers))
    }

    ghost predicate Valid()
      reads this, planners.Values
    {
      && PlannersMatch()
      && AllAccepted(plan, traced)
      && PatternsMatch()
    }

    constructor (plan: Plan)
      ensures Valid() && fresh(planners.Values) && this.plan == plan
      ensures !isSealed && traced == tried == [] && attempts == 0
      ensures patterns == [] && buffers == map[] && weightsBuffers == []
    {
      this.plan := plan;
      patterns, buffers, weightsBuffers, isSealed := [], map[], [], false;
      traced, tried, planned, firstGroup, attempts := [], [], [], [], 0;
      var rest := plan.Values;
      var made: map<Location, MemPatternPlanner> := map[];
      while rest != {}
        invariant rest <= plan.Values && made.Keys == plan.Values - rest
        invariant forall l :: l in made ==> fresh(made[l]) && made[l].Valid() && made[l].State() == EMPTY_PLAIN
        invariant forall l, l' :: l in made && l' in made && l != l' ==> made[l] != made[l']
        decreases rest
      {
        var l :| l in rest;
        var planner := new MemPatternPlanner(false);
        made := made[l := planner];
        rest := rest - {l};
      }
      planners := made;
    }

    /** Record the size of a weight; `len` is `None` when the size cannot be computed. */
    method Trace(id: int, len: Option<Size>) returns (ok: bool)
      requires Valid() && id in plan
      modifies this`traced, planners.Values
      ensures Valid()
      ensures ok <==> old(!isSealed && len.Some? && !Refused(PlannerAt(plan, traced, plan[id]), None, len.value))
      ensures traced == if ok then old(traced) + [(id, len.value)] else old(traced)
    {
      hide PlannerSpec.Valid, AllAccepted, PlannerAt, AfterAllocation, Refused, Accounted, StartsWith, SealedPlan;
      if isSealed { return false; }
      if len.None? { return false; }
      assert plan[id] in plan.Values;
      var planner := planners[plan[id]];
      assert planner.State() == PlannerAt(plan, traced, plan[id]);
      ok := planner.TraceAllocation(id, len.value);
      RefusedKeepsState(plan, traced, plan[id], id, len.value);
      if ok {
        traced := traced + [(id, len.value)];
        TraceExtends(plan, old(traced), (id, len.value));
      }
    }

    /** In plain mode pattern generation cannot fail. */
    method PatternOfPlanner(l: Location) returns (pattern: MemoryPattern)
      requires Valid() && l in planners
      ensures pattern == PatternAt(plan, traced, l)
    {
      hide AllAccepted, PatternsMatch;
      RunIsValid(false, EventsAt(plan, traced, l));
      PlainIsClashFree(planners[l].State());
      var generated := planners[l].GenerateMemPattern();
      pattern := generated.value;
      assert planners[l].State() == PlannerAt(plan, traced, l);
    }

    /** One pattern per planner, in the order the map yields them. */
    method GeneratePatterns() returns (generated: seq<Entry>)
      requires Valid()
      ensures IsPatternGroup(plan, traced, generated)
    {
      hide AllAccepted, PlannerAt, PatternAt, PlannerSpec.Valid, PatternOf, PatternsMatch, Listed;
      generated := [];
      var rest := planners.Keys;
      assert forall l :: !Listed(generated, l) by { NothingListed(); }
      while rest != {}
        invariant rest <= planners.Keys
        invariant forall l :: Listed(generated, l) <==> l in planners && l !in rest
        invariant forall i :: 0 <= i < |generated| ==> generated[i].1 == PatternAt(plan, traced, generated[i].0)
        invariant DistinctLocations(generated)
        decreases rest
      {
        var l :| l in rest;
        var pattern := PatternOfPlanner(l);
        ListedAppend(generated, (l, pattern));
        IsListed(generated);
        generated := generated + [(l, pattern)];
        rest := rest - {l};
      }
      IsListed(generated);
    }

    /**
      Take one buffer per entry that needs memory, in the order of the entries, and report the bytes by
      location name. This ends at the first entry without an allocator or with a location that has a
      buffer already; in the latter case the buffer taken in vain is freed but stays in the list of owned
      buffers, and is not reported.
    */
    method AllocatePlannedBuffersAndReportTotalSize(allocators: map<Location, Allocator>, sizes: map<string, nat>)
      returns (outcome: Outcome, reported: map<string, nat>, ghost served: nat)
      modifies this`buffers, this`weightsBuffers
      ensures served <= |patterns| && EndsAt(patterns, served, allocators, old(buffers), outcome)
      ensures Taken(patterns, served, allocators, old(buffers), buffers, weightsBuffers)
      ensures weightsBuffers == old(weightsBuffers) + BuffersFor(patterns, served, allocators)
        + if outcome.Duplicated? then [outcome.freed] else []
      ensures Balanced(sizes, [], reported, BuffersFor(patterns, served, allocators))
    {
      hide Balanced, Reported, Taken, Needed, BuffersFor;
      BalancedAtStart(sizes, []);
      NoBuffers(patterns, allocators);
      NothingTaken(patterns, allocators, buffers, weightsBuffers);
      reported, served := sizes, 0;
      for i := 0 to |patterns|
        invariant served == i
        invariant weightsBuffers == old(weightsBuffers) + BuffersFor(patterns, i, allocators)
        invariant Balanced(sizes, [], reported, BuffersFor(patterns, i, allocators))
        invariant Servable(patterns, i, allocators, old(buffers))
        invariant Taken(patterns, i, allocators, old(buffers), buffers, weightsBuffers)
      {
        var location, peakSize := patterns[i].0, patterns[i].1.peakSize;
        if location !in allocators {
          return NoAllocator(location), reported, i;
        }
        if peakSize <= 0 {
          EntrySkipped(patterns, i, allocators, old(buffers), buffers, weightsBuffers);
          BuffersForStep(patterns, i, allocators);
          served := i + 1;
          continue;
        }
        var buffer := BufferOf(patterns[i], allocators[location]);
        ghost var owned := weightsBuffers;
        weightsBuffers := weightsBuffers + [buffer];
        if location in buffers {
          TakenGrows(patterns, i, allocators, old(buffers), buffers, owned, buffer);
          BufferIsAccounted(patterns, i, allocators, old(buffers), buffers, owned);
          return Duplicated(buffer), reported, i;
        }
        EntryServed(patterns, i, allocators, old(buffers), buffers, owned);
        BuffersForStep(patterns, i, allocators);
        assert weightsBuffers == old(weightsBuffers) + (BuffersFor(patterns, i, allocators) + [buffer]);
        BalancedStep(sizes, [], reported, BuffersFor(patterns, i, allocators), buffer);
        buffers := buffers[location := buffer.address];
        reported := reported[location.name := Reported(reported, location.name) + peakSize];
        served := i + 1;
      }
      return Done, reported, |patterns|;
    }

    /**
      Fix the plan. A call succeeds exactly if every planned location has an allocator and no weight that
      was traced before an earlier call takes memory. So the first call needs allocators only, and a retry
      fails whenever the call before had something to reserve, whether or not it got that far. With all
      allocators it then ends with a buffer that is freed but still owned; without an earlier call such a
      buffer never arises.
    */
    method FinalizePlan(allocators: map<Location, Allocator>, sizes: map<string, nat>)
      returns (outcome: Outcome, reported: map<string, nat>, ghost served: nat)
      requires Valid()
      modifies this`patterns, this`buffers, this`weightsBuffers, this`isSealed
      modifies this`attempts, this`tried, this`planned, this`firstGroup
      ensures Valid() && attempts == old(attempts) + 1 && tried == traced
      ensures planned == if old(attempts) == 0 then traced else old(planned)
      ensures isSealed <==> old(isSealed) || outcome.Done?
      ensures outcome.Done? <==> plan.Values <= allocators.Keys && !TakesMemory(old(tried))
      ensures outcome.Duplicated? ==> TakesMemory(old(tried))
      ensures plan.Values <= allocators.Keys ==> (outcome.Duplicated? <==> TakesMemory(old(tried)))
      ensures old(attempts) == 0 ==> !outcome.Duplicated? && (outcome.Done? <==> plan.Values <= allocators.Keys)
      ensures old(patterns) <= patterns && IsPatternGroup(plan, traced, patterns[|old(patterns)|..])
      ensures served <= |patterns| && EndsAt(patterns, served, allocators, old(buffers), outcome)
      ensures Taken(patterns, served, allocators, old(buffers), buffers, weightsBuffers)
      ensures weightsBuffers == old(weightsBuffers) + BuffersFor(patterns, served, allocators)
        + if outcome.Duplicated? then [outcome.freed] else []
      ensures Balanced(sizes, [], reported, BuffersFor(patterns, served, allocators))
    {
      hide AllAccepted, PlannersMatch, Balanced, IsPatternGroup, Accounted, SealedPlan, Taken, EndsAt, BuffersFor;
      hide TakesMemory, StartsWith;
      var generated := GeneratePatterns();
      ghost var ps, before, owned := patterns, buffers, weightsBuffers;
      assert Accounted(plan, tried, ps, before);
      assert isSealed ==> tried == traced && SealedPlan(firstGroup, ps, before, owned);
      patterns := patterns + generated;
      assert patterns[|ps|..] == generated;
      outcome, reported, served := AllocatePlannedBuffersAndReportTotalSize(allocators, sizes);
      CallSettles(plan, tried, ps, before, traced, generated, served, allocators, buffers, weightsBuffers, outcome);
      if attempts == 0 {
        FirstStarts(plan, traced, generated);
        planned, firstGroup := traced, generated;
      } else {
        StillStarts(plan, planned, firstGroup, ps, generated);
        if isSealed {
          StaysSealed(plan, traced, firstGroup, ps, generated, served, allocators, before, buffers, owned,
                      weightsBuffers);
        }
      }
      attempts, tried := attempts + 1, traced;
      if outcome.Done? {
        ServedIsSealed(plan, planned, firstGroup, patterns, allocators, before, buffers, weightsBuffers);
        isSealed := true;
      }
    }

    /** What a value is handed: nothing before the plan is fixed, then its part of the buffer of its location. */
    ghost function HandedOut(id: int): Option<MemBuffer>
      requires id in plan
      reads this
    {
      var loc := plan[id];
      if !isSealed then None
      else
        match PatternAt(plan, planned, loc).GetBlock(id)
        case None => None
        case Some(block) =>
          if loc !in buffers then Some(MemBuffer(0, 0, loc))
          else if buffers[loc] == 0 then None
          else Some(MemBuffer(buffers[loc] + block.offset, block.size, loc))
    }

    /**
      The part of a buffer that belongs to a value. It fails before the plan is fixed, for an id that was
      not traced before the first `FinalizePlan`, and for a null buffer. Without a buffer there are only
      empty values at the location.
    */
    method GetPreallocatedBuffer(id: int) returns (out: Option<MemBuffer>)
      requires Valid() && id in plan
      ensures out == HandedOut(id)
    {
      hide AllAccepted, PlannersMatch, PatternAt, IsPatternGroup, GetPatterns, SealedPlan, StartsWith;
      if !isSealed { return None; }
      var location := plan[id];
      assert location in plan.Values;
      PatternIsFound(plan, planned, firstGroup, patterns, location);
      var pattern := GetPatterns(patterns, location);
      if pattern.None? { return None; }
      var block := pattern.value.GetBlock(id);
      if location !in buffers {
        UnbufferedIsEmpty(plan, planned, firstGroup, patterns, buffers, weightsBuffers, location, id);
        if block.Some? && block.value.size == 0 {
          return Some(MemBuffer(0, 0, location));
        }
        return None;
      }
      if block.None? || buffers[location] == 0 { return None; }
      return Some(MemBuffer(buffers[location] + block.value.offset, block.value.size, location));
    }
  }

  /** One range of bytes ends before the other starts, or one is empty. */
  predicate Apart(a: MemBuffer, b: MemBuffer) {
    a.size == 0 || b.size == 0 || a.address + a.size <= b.address || b.address + b.size <= a.address
  }

  predicate Within(a: MemBuffer, b: Buffer) {
    b.address <= a.address && a.address + a.size <= b.address + b.size
  }

  /**
    End to end: two different ids of one location are handed byte ranges that do not overlap, and as
    soon as one of them takes memory both lie in one and the same buffer that was taken for the location.
  */
  lemma HandedOutAreDisjoint(t: TensorAllocatorWithMemPattern, a: int, b: int)
    requires t.Valid() && a in t.plan && b in t.plan && a != b && t.plan[a] == t.plan[b]
    requires t.HandedOut(a).Some? && t.HandedOut(b).Some?
    ensures Apart(t.HandedOut(a).value, t.HandedOut(b).value)
    ensures t.HandedOut(a).value.size > 0 ==> exists owned ::
      && owned in t.weightsBuffers && owned.location == t.plan[a]
      && Within(t.HandedOut(a).value, owned) && Within(t.HandedOut(b).value, owned)
  {
    hide IsPatternGroup, SealedPlan, StartsWith, PatternOf, Run, EventsAt, AllAccepted;
    var loc := t.plan[a];
    PatternIsDisjoint(EventsAt(t.plan, t.planned, loc), a, b);
    if t.HandedOut(a).value.size > 0 {
      BufferIsOwned(t.plan, t.planned, t.firstGroup, t.patterns, t.buffers, t.weightsBuffers, loc);
      var owned := Buffer(loc, t.buffers[loc], PatternAt(t.plan, t.planned, loc).peakSize, loc.arena);
      assert Within(t.HandedOut(a).value, owned) && Within(t.HandedOut(b).value, owned);
    }
  }

  /**
    Something is handed out exactly for the ids traced before the first `FinalizePlan`, once the plan is
    fixed, unless the buffer of their location is null.
  */
  lemma HandedOutIff(t: TensorAllocatorWithMemPattern, id: int)
    requires t.Valid() && id in t.plan
    ensures t.HandedOut(id).Some? <==>
      && t.isSealed
      && (exists k :: 0 <= k < |t.planned| && t.planned[k].0 == id)
      && (t.plan[id] in t.buffers ==> t.buffers[t.plan[id]] != 0)
  {
    hide IsPatternGroup, SealedPlan, Accounted, PatternAt, AllAccepted;
    if t.isSealed {
      PlannedIffTraced(t.plan, t.planned, t.plan[id], id);
    }
  }

  /**
    What is handed out for an id has the size it was last traced with before the first `FinalizePlan`, and
    the location of the plan. At a location without a buffer it is empty and has no address.
  */
  lemma HandedOutHasTracedSize(t: TensorAllocatorWithMemPattern, k: nat)
    requires t.Valid() && k < |t.planned| && forall j :: k < j < |t.planned| ==> t.planned[j].0 != t.planned[k].0
    requires t.planned[k].0 in t.plan && t.HandedOut(t.planned[k].0).Some?
    ensures var id, size := t.planned[k].0, t.planned[k].1;
      var part := t.HandedOut(id).value;
      && part.size == size && part.location == t.plan[id]
      && (t.plan[id] !in t.buffers ==> part.size == 0 && part.address == 0)
      && (t.plan[id] in t.buffers ==>
            part.address - t.buffers[t.plan[id]] == PatternAt(t.plan, t.planned, t.plan[id]).blocks[id].offset)
  {
    hide IsPatternGroup, SealedPlan, Accounted, PatternAt, AllAccepted;
    var loc := t.plan[t.planned[k].0];
    LastTraceGivesSize(t.plan, t.planned, k);
    if loc !in t.buffers {
      assert loc in t.plan.Values;
      UnbufferedIsEmpty(t.plan, t.planned, t.firstGroup, t.patterns, t.buffers, t.weightsBuffers, loc, t.planned[k].0);
    }
  }

  const CPU := Location("Cpu", 0, 0, false)

  /** The plan of one weight needs one buffer of its size. */
  lemma OneWeightGroup(size: Size, a: Allocator, ps: seq<Entry>)
    requires size > 0 && IsPatternGroup(map[0 := CPU], [(0, size)], ps)
    ensures |ps| == 1 && ps[0].0 == CPU && Needed(ps, 1, CPU)
    ensures BuffersFor(ps, 1, map[CPU := a]) == [Buffer(CPU, a.address, size, false)]
  {
    hide PatternAt;
    OneWeightPattern(map[0 := CPU], CPU, size);
    assert map[0 := CPU][0] in map[0 := CPU].Values;
    assert Listed(ps, CPU);
    var i :| 0 <= i < |ps| && ps[i].0 == CPU;
    assert ps[i].1.peakSize == size;
    assert forall j :: 0 <= j < |ps| ==> ps[j].0 == CPU;
    assert ps[0].0 == ps[|ps| - 1].0;
    BuffersForStep(ps, 0, map[CPU := a]);
  }

  lemma SecondIsDuplicated(size: Size, a: Allocator, ps: seq<Entry>, n: nat, buffers: map<Location, nat>,
                           outcome: Outcome)
    requires |ps| > 0 && ps[0].0 == CPU && NeedsMemory(ps[0]) && CPU in buffers
    requires EndsAt(ps, n, map[CPU := a], buffers, outcome)
    ensures n == 0 && outcome == Duplicated(BufferOf(ps[0], a)) && BuffersFor(ps, n, map[CPU := a]) == []
  {}

  /** The shortest way to a buffer that is freed but still owned: one weight, and the plan fixed twice. */
  method FixTwice(size: Size, a: Allocator) returns (first: Outcome, second: Outcome, owned: seq<Buffer>)
    requires size > 0
    ensures var b := Buffer(CPU, a.address, size, false);
      first == Done && second == Duplicated(b) && owned == [b, b]
  {
    hide TensorAllocatorWithMemPattern.Valid, PatternAt, PlannerAt, IsPatternGroup, EndsAt, BuffersFor, Balanced;
    hide Refused;
    var t := new TensorAllocatorWithMemPattern(map[0 := CPU]);
    OneWeightPattern(map[0 := CPU], CPU, size);
    var _ := t.Trace(0, Some(size));
    assert t.traced == [(0, size)];
    var sizes;
    ghost var served;
    first, sizes, served := t.FinalizePlan(map[CPU := a], map[]);
    assert t.patterns[0..] == t.patterns;
    OneWeightGroup(size, a, t.patterns);
    EndsWithSuccessIff(t.patterns, served, map[CPU := a], map[], first);
    ghost var buffers := t.buffers;
    second, sizes, served := t.FinalizePlan(map[CPU := a], map[]);
    SecondIsDuplicated(size, a, t.patterns, served, buffers, second);
    owned := t.weightsBuffers;
  }
}
