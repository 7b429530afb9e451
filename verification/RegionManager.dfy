/**
  From addresses to chunk handles: regions of 256-byte slots, kept sorted and found by their end
  address.
*/
module RegionManager {
  import opened RegionMap
  import opened Wrappers

  /** One contiguous region. */
  class AllocationRegion {
    const ptr: nat
    const memorySize: nat
    const endPtr: nat
    const handles: array<nat>

    ghost predicate Valid() {
      && endPtr == ptr + memorySize
      && memorySize == MIN_ALLOCATION_SIZE * handles.Length
    }

    ghost function Value(): Region
      reads handles
    {
      Region(ptr, handles[..])
    }

    constructor (ptr: nat, memorySize: nat)
      requires memorySize % MIN_ALLOCATION_SIZE == 0
      ensures Valid() && fresh(handles)
      ensures this.ptr == ptr && this.memorySize == memorySize
      ensures forall i :: 0 <= i < handles.Length ==> handles[i] == INVALID_HANDLE
    {
      this.ptr := ptr;
      this.memorySize := memorySize;
      endPtr := ptr + memorySize;
      var nHandles := (memorySize + MIN_ALLOCATION_SIZE - 1) / MIN_ALLOCATION_SIZE;
      handles := new nat[nHandles];
      new;
      for i := 0 to nHandles
        invariant forall j :: 0 <= j < i ==> handles[j] == INVALID_HANDLE
      {
        handles[i] := INVALID_HANDLE;
      }
    }

    /** The slot of an address; `None` when an enforce fails. */
    function IndexFor(p: nat): (index: Option<nat>)
      requires Valid()
      ensures index.Some? ==> index.value < handles.Length
    {
      if !(p >= ptr) then None
      else if !(p < ptr + memorySize) then None
      else Some((p - ptr) / MIN_ALLOCATION_SIZE)
    }

    lemma IndexIsSlot(p: nat)
      requires Valid()
      ensures Value().End() == endPtr
      ensures IndexFor(p).Some? <==> Value().Contains(p)
      ensures Value().Contains(p) ==> IndexFor(p) == Some(Value().Slot(p))
    {}
  }

  ghost predicate InOrder(regions: seq<AllocationRegion>) {
    && (forall i :: 0 <= i < |regions| ==> regions[i].Valid())
    && (forall i, j :: 0 <= i < j < |regions| ==>
          regions[i].endPtr <= regions[j].ptr && regions[i].handles != regions[j].handles)
  }

  lemma InsertedInOrder(regions: seq<AllocationRegion>, entry: nat, region: AllocationRegion)
    requires InOrder(regions) && region.Valid() && entry <= |regions|
    requires forall j :: 0 <= j < |regions| ==> regions[j].handles != region.handles
    requires forall j :: 0 <= j < entry ==> regions[j].endPtr <= region.ptr
    requires forall j :: entry <= j < |regions| ==> region.endPtr <= regions[j].ptr
    ensures InOrder(regions[..entry] + [region] + regions[entry..])
  {}

  class RegionManager {
    var regions: seq<AllocationRegion>

    ghost predicate Valid()
      reads this
    {
      InOrder(regions)
    }

    ghost function Repr(): set<object>
      reads this
    {
      set i | 0 <= i < |regions| :: regions[i].handles as object
    }

    /** The list of regions as a value. */
    ghost function Contents(): seq<Region>
      reads this, Repr()
    {
      seq(|regions|, i requires 0 <= i < |regions| reads this, Repr() => regions[i].Value())
    }

    lemma ContentsAreOrdered()
      requires Valid()
      ensures Ordered(Contents())
      ensures forall i :: 0 <= i < |regions| ==> Contents()[i].End() == regions[i].endPtr
    {
      forall i | 0 <= i < |regions|
        ensures Contents()[i].End() == regions[i].endPtr
      {
        regions[i].IndexIsSlot(0);
      }
    }

    constructor ()
      ensures Valid() && Contents() == []
    {
      regions := [];
    }

    /** The first region whose end lies behind `p`, by bisection (`std::upper_bound`). */
    method UpperBound(p: nat) returns (k: nat)
      requires Valid()
      ensures k <= |regions|
      ensures forall j :: 0 <= j < k ==> regions[j].endPtr <= p
      ensures forall j :: k <= j < |regions| ==> p < regions[j].endPtr
    {
      var first, len := 0, |regions|;
      while len > 0
        invariant 0 <= first && 0 <= len && first + len <= |regions|
        invariant forall j :: 0 <= j < first ==> regions[j].endPtr <= p
        invariant forall j :: first + len <= j < |regions| ==> p < regions[j].endPtr
        decreases len
      {
        var half := len / 2;
        var middle := first + half;
        assert forall j :: 0 <= j < |regions| ==> regions[j].Valid();
        if p < regions[middle].endPtr {
          len := half;
        } else {
          first := middle + 1;
          len := len - half - 1;
        }
      }
      k := first;
    }

    /** The region found for an address: the one that holds it, whenever one does. */
    method RegionFor(p: nat) returns (index: Option<nat>)
      requires Valid()
      ensures index.Some? ==> index.value < |regions|
      ensures forall i :: Holds(Contents(), i, p) ==> index == Some(i)
    {
      var k := UpperBound(p);
      ContentsAreOrdered();
      forall i | Holds(Contents(), i, p)
        ensures i == k
      {
        assert k < |regions| && p < regions[k].endPtr;
        assert forall j :: 0 <= j < i ==> regions[j].endPtr <= regions[i].ptr;
      }
      if k != |regions| {
        return Some(k);
      }
      return None;
    }

    /** The region and slot of an address, if some region holds it. */
    method Find(p: nat) returns (found: Option<(nat, nat)>)
      requires Valid()
      ensures found.None? ==> Lookup(Contents(), p).None?
      ensures found.Some? ==> Holds(Contents(), found.value.0, p)
      ensures found.Some? ==> found.value.1 == Contents()[found.value.0].Slot(p)
    {
      var k := RegionFor(p);
      ContentsAreOrdered();
      LookupMeansHeld(Contents(), p);
      if k.None? { return None; }
      assert Contents()[k.value] == regions[k.value].Value();
      regions[k.value].IndexIsSlot(p);
      var index := regions[k.value].IndexFor(p);
      if index.None? { return None; }
      return Some((k.value, index.value));
    }

    /** The handle of the slot of an address; `None` for an address outside every region. */
    method GetHandle(p: nat) returns (handle: Option<nat>)
      requires Valid()
      ensures handle == Lookup(Contents(), p)
    {
      var found := Find(p);
      if found.None? { return None; }
      ContentsAreOrdered();
      LookupMeansHeld(Contents(), p);
      return Some(regions[found.value.0].handles[found.value.1]);
    }

    /** Changes exactly one slot, and fails for an address outside every region. */
    method SetHandle(p: nat, h: nat) returns (ok: bool)
      requires Valid()
      modifies Repr()
      ensures Valid() && regions == old(regions)
      ensures ok <==> Lookup(old(Contents()), p).Some?
      ensures forall q: nat ::
        Lookup(Contents(), q) == if ok && SameSlot(old(Contents()), p, q) then Some(h) else Lookup(old(Contents()), q)
    {
      ghost var before := Contents();
      ContentsAreOrdered();
      LookupMeansHeld(before, p);
      var found := Find(p);
      if found.None? { return false; }
      var (k, x) := found.value;
      assert regions[k].handles as object in Repr();
      regions[k].handles[x] := h;
      assert Contents() == Store(before, k, x, h);
      hide Lookup, SameSlot, Ordered;
      forall q: nat {
        StoreChangesOneSlot(before, k, p, h, q);
      }
      return true;
    }

    method Erase(p: nat) returns (ok: bool)
      requires Valid()
      modifies Repr()
      ensures Valid() && regions == old(regions)
      ensures ok <==> Lookup(old(Contents()), p).Some?
      ensures forall q: nat ::
        Lookup(Contents(), q) ==
          if ok && SameSlot(old(Contents()), p, q) then Some(INVALID_HANDLE) else Lookup(old(Contents()), q)
    {
      ok := SetHandle(p, INVALID_HANDLE);
    }

    /** The vector insertion: nothing but the new entry moves. */
    method InsertRegion(entry: nat, region: AllocationRegion)
      requires Valid() && region.Valid() && region.handles !in Repr() && entry <= |regions|
      requires forall j :: 0 <= j < entry ==> regions[j].endPtr <= region.ptr
      requires forall j :: entry <= j < |regions| ==> region.endPtr <= regions[j].ptr
      modifies this
      ensures Valid() && Repr() <= old(Repr()) + {region.handles}
      ensures Contents() == Insert(old(Contents()), entry, region.Value())
    {
      assert forall j :: 0 <= j < |regions| ==> regions[j].handles as object in Repr();
      ghost var before, contents := regions, Contents();
      InsertedInOrder(regions, entry, region);
      regions := regions[..entry] + [region] + regions[entry..];
      hide InOrder;
      forall j | 0 <= j < |regions|
        ensures Contents()[j] == Insert(contents, entry, region.Value())[j]
      {
        assert regions[j] == if j < entry then before[j] else if j == entry then region else before[j - 1];
      }
    }

    /**
      Add a region apart from the others. Its slots start out invalid and every existing slot keeps
      its handle. Fails for a size that is not a multiple of the slot size.
    */
    method AddAllocationRegion(ptr: nat, memorySize: nat) returns (ok: bool)
      requires Valid()
      requires Apart(Contents(), ptr, memorySize)
      modifies this
      ensures Valid()
      ensures ok <==> memorySize % MIN_ALLOCATION_SIZE == 0
      ensures !ok ==> regions == old(regions)
      ensures fresh(Repr() - old(Repr()))
      ensures forall q: nat ::
        Lookup(Contents(), q) ==
          if ok && ptr <= q < ptr + memorySize then Some(INVALID_HANDLE) else Lookup(old(Contents()), q)
    {
      ghost var before := Contents();
      ContentsAreOrdered();
      var entry := UpperBound(ptr);
      if memorySize % MIN_ALLOCATION_SIZE != 0 { return false; }
      var region := new AllocationRegion(ptr, memorySize);
      region.IndexIsSlot(0);
      ghost var added := region.Value();
      assert forall j :: 0 <= j < |regions| ==>
        before[j].End() == regions[j].endPtr && before[j].start == regions[j].ptr;
      InsertKeepsOrder(before, entry, added);
      forall q: nat
        ensures Lookup(Insert(before, entry, added), q)
             == if ptr <= q < ptr + memorySize then Some(INVALID_HANDLE) else Lookup(before, q)
      {
        InsertAddsItsSlots(before, entry, added, q);
      }
      InsertRegion(entry, region);
      return true;
    }
  }
}
