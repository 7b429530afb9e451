/**
  What a region manager stands for: a list of regions, each a run of 256-byte slots with a handle,
  kept in address order. Together they act as one map from slots to handles.
*/
module RegionMap {
  import opened Wrappers

  const MIN_ALLOCATION_SIZE: nat := 256
  const INVALID_HANDLE: nat := SIZE_MAX

  datatype Region = Region(start: nat, handles: seq<nat>) {
    function End(): nat {
      start + MIN_ALLOCATION_SIZE * |handles|
    }

    predicate Contains(p: nat) {
      start <= p < End()
    }

    /** The slot an address of the region lies in. */
    function Slot(p: nat): (slot: nat)
      requires Contains(p)
      ensures slot < |handles|
      ensures start + MIN_ALLOCATION_SIZE * slot <= p < start + MIN_ALLOCATION_SIZE * (slot + 1)
    {
      (p - start) / MIN_ALLOCATION_SIZE
    }
  }

  /** Sorted, and no two regions share an address. */
  ghost predicate Ordered(regions: seq<Region>) {
    forall i, j :: 0 <= i < j < |regions| ==> regions[i].End() <= regions[j].start
  }

  ghost predicate Apart(regions: seq<Region>, start: nat, size: nat) {
    forall i :: 0 <= i < |regions| ==> regions[i].End() <= start || start + size <= regions[i].start
  }

  ghost predicate Holds(regions: seq<Region>, i: int, p: nat) {
    0 <= i < |regions| && regions[i].Contains(p)
  }

  /** The handle of the slot of an address, in the first region that holds the address. */
  ghost function Lookup(regions: seq<Region>, p: nat): Option<nat> {
    if regions == [] then None
    else if regions[0].Contains(p) then Some(regions[0].handles[regions[0].Slot(p)])
    else Lookup(regions[1..], p)
  }

  /** Two addresses of one slot. */
  ghost predicate SameSlot(regions: seq<Region>, p: nat, q: nat) {
    exists i :: Holds(regions, i, p) && Holds(regions, i, q) && regions[i].Slot(p) == regions[i].Slot(q)
  }

  /** An address is mapped exactly if some region holds it, and then any such region gives its handle. */
  lemma {:induction false} LookupMeansHeld(regions: seq<Region>, p: nat)
    requires Ordered(regions)
    ensures Lookup(regions, p).Some? <==> exists i :: Holds(regions, i, p)
    ensures forall i :: Holds(regions, i, p) ==> Lookup(regions, p) == Some(regions[i].handles[regions[i].Slot(p)])
    ensures forall i, j :: Holds(regions, i, p) && Holds(regions, j, p) ==> i == j
  {
    if regions != [] {
      var rest := regions[1..];
      assert forall i :: 0 <= i < |rest| ==> rest[i] == regions[i + 1];
      LookupMeansHeld(rest, p);
      if regions[0].Contains(p) {
        assert Holds(regions, 0, p);
      } else {
        forall i | Holds(regions, i, p)
          ensures Holds(rest, i - 1, p)
        {}
        forall i | Holds(rest, i, p)
          ensures Holds(regions, i + 1, p)
        {}
      }
    }
  }

  ghost function Store(regions: seq<Region>, k: nat, slot: nat, h: nat): seq<Region>
    requires k < |regions| && slot < |regions[k].handles|
  {
    regions[k := regions[k].(handles := regions[k].handles[slot := h])]
  }

  lemma StoreKeepsLayout(regions: seq<Region>, k: nat, slot: nat, h: nat)
    requires k < |regions| && slot < |regions[k].handles| && Ordered(regions)
    ensures var stored := Store(regions, k, slot, h);
      Ordered(stored) && forall i, x: nat :: Holds(stored, i, x) <==> Holds(regions, i, x)
  {
    var stored := Store(regions, k, slot, h);
    assert forall i :: 0 <= i < |regions| ==>
      stored[i].start == regions[i].start && stored[i].End() == regions[i].End();
  }

  /** Writing one slot of the region of `p` changes the handles of that slot's addresses and of no others. */
  lemma StoreChangesOneSlot(regions: seq<Region>, k: nat, p: nat, h: nat, q: nat)
    requires Ordered(regions) && Holds(regions, k, p)
    ensures Lookup(Store(regions, k, regions[k].Slot(p), h), q)
         == if SameSlot(regions, p, q) then Some(h) else Lookup(regions, q)
  {
    var stored := Store(regions, k, regions[k].Slot(p), h);
    StoreKeepsLayout(regions, k, regions[k].Slot(p), h);
    LookupMeansHeld(regions, p);
    LookupMeansHeld(regions, q);
    LookupMeansHeld(stored, q);
    hide Ordered, Lookup;
    if i :| Holds(regions, i, q) {
      assert Holds(stored, i, q);
      assert stored[i].Slot(q) == regions[i].Slot(q);
    }
  }

  ghost function Insert(regions: seq<Region>, entry: nat, added: Region): seq<Region>
    requires entry <= |regions|
  {
    regions[..entry] + [added] + regions[entry..]
  }

  lemma InsertKeepsOrder(regions: seq<Region>, entry: nat, added: Region)
    requires Ordered(regions) && entry <= |regions|
    requires forall j :: 0 <= j < entry ==> regions[j].End() <= added.start
    requires forall j :: entry <= j < |regions| ==> added.End() <= regions[j].start
    ensures Ordered(Insert(regions, entry, added))
  {
    var grown := Insert(regions, entry, added);
    assert forall j :: entry < j < |grown| ==> grown[j] == regions[j - 1];
  }

  /** Adding a region apart from the others keeps the order and every mapping, and adds the new slots. */
  lemma InsertAddsItsSlots(regions: seq<Region>, entry: nat, added: Region, q: nat)
    requires Ordered(regions) && entry <= |regions|
    requires Ordered(Insert(regions, entry, added))
    ensures Lookup(Insert(regions, entry, added), q)
         == if added.Contains(q) then Some(added.handles[added.Slot(q)]) else Lookup(regions, q)
  {
    var grown := Insert(regions, entry, added);
    LookupMeansHeld(grown, q);
    LookupMeansHeld(regions, q);
    hide Ordered, Lookup;
    forall i | Holds(regions, i, q)
      ensures Holds(grown, if i < entry then i else i + 1, q)
    {}
    forall i | Holds(grown, i, q) && i != entry
      ensures Holds(regions, if i < entry then i else i - 1, q)
    {}
    assert added.Contains(q) ==> Holds(grown, entry, q);
  }
}
