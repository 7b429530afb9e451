/**
  Time schedules of values (`AllocPlanPerValue::ProgramCounter`).

  A schedule is a list of closed intervals of program steps during which a value is needed.
  The planner lets two values share addresses when their schedules have no step in common.
  */
module Schedules {
  datatype Schedule = Schedule(starts: seq<nat>, ends: seq<nat>) {
    /** Every opened interval has been closed. */
    predicate Closed() {
      |starts| == |ends|
    }

    /** Intervals are non-empty and strictly ordered; at most the last one is still open. */
    ghost predicate Ordered() {
      && |ends| <= |starts| <= |ends| + 1
      && (forall i :: 0 <= i < |ends| ==> starts[i] <= ends[i])
      && (forall i, j :: 0 <= i < j < |starts| ==> ends[i] < starts[j])
    }

    ghost predicate Valid() {
      Closed() && Ordered()
    }

    /** The value is needed at step `t`. */
    ghost predicate ActiveAt(t: int) {
      exists i :: 0 <= i < |starts| && i < |ends| && starts[i] <= t <= ends[i]
    }
  }

  /** The meaning of "the schedules intersect": some step needs both values. */
  ghost predicate Meet(a: Schedule, b: Schedule) {
    exists t :: a.ActiveAt(t) && b.ActiveAt(t)
  }

  /** Interval `i` of `a` has a step in common with interval `j` of `b`. */
  predicate Touch(a: Schedule, i: nat, b: Schedule, j: nat)
    requires a.Closed() && b.Closed() && i < |a.starts| && j < |b.starts|
  {
    a.starts[i] <= b.ends[j] && b.starts[j] <= a.ends[i]
  }

  lemma MeetIffTouch(a: Schedule, b: Schedule)
    requires a.Valid() && b.Valid()
    ensures Meet(a, b) <==> exists i: nat, j: nat :: i < |a.starts| && j < |b.starts| && Touch(a, i, b, j)
  {
    if i: nat, j: nat :| i < |a.starts| && j < |b.starts| && Touch(a, i, b, j) {
      var t := if a.starts[i] <= b.starts[j] then b.starts[j] else a.starts[i];
      assert a.ActiveAt(t) && b.ActiveAt(t);
    }
    if Meet(a, b) {
      var t :| a.ActiveAt(t) && b.ActiveAt(t);
      var i :| 0 <= i < |a.starts| && a.starts[i] <= t <= a.ends[i];
      var j :| 0 <= j < |b.starts| && b.starts[j] <= t <= b.ends[j];
      assert Touch(a, i, b, j);
    }
  }

  /** The recorder the execution planner fills. A failed enforce leaves the recorder unchanged. */
  class ProgramCounter {
    var starts: seq<nat>
    var ends: seq<nat>

    constructor ()
      ensures Value() == Schedule([], [])
    {
      starts, ends := [], [];
    }

    function Value(): Schedule
      reads this
    {
      Schedule(starts, ends)
    }

    method AddStart(start: nat) returns (ok: bool)
      requires Value().Ordered()
      modifies this
      ensures Value().Ordered()
      ensures ok <==> old(Value().Closed()) && (old(ends) == [] || start > old(ends)[|old(ends)| - 1])
      ensures Value() == if ok then Schedule(old(starts) + [start], old(ends)) else old(Value())
    {
      if |starts| != |ends| { return false; }
      if !(|starts| == 0 || start > ends[|ends| - 1]) { return false; }
      starts := starts + [start];
      ok := true;
    }

    method AddEnd(end: nat) returns (ok: bool)
      requires Value().Ordered()
      modifies this
      ensures Value().Ordered()
      ensures ok <==> old(!Value().Closed()) && end >= old(starts)[|old(starts)| - 1]
      ensures Value() == if ok then Schedule(old(starts), old(ends) + [end]) else old(Value())
    {
      if |starts| != |ends| + 1 { return false; }
      if !(end >= starts[|starts| - 1]) { return false; }
      ends := ends + [end];
      ok := true;
    }
  }
}
