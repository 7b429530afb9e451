/** Planned byte ranges (`MemoryBlock`, `MemoryPattern`). */
module MemPattern {
  import opened Wrappers

  /** The bytes `offset .. offset + size`. */
  datatype MemoryBlock = MemoryBlock(offset: nat, size: nat) {
    function End(): nat {
      offset + size
    }

    predicate Covers(byte: int) {
      offset <= byte < End()
    }
  }

  /** One block ends before the other starts, or one is empty. */
  predicate Disjoint(a: MemoryBlock, b: MemoryBlock) {
    a.size == 0 || b.size == 0 || a.End() <= b.offset || b.End() <= a.offset
  }

  /** The meaning of `Disjoint`: no byte belongs to both blocks. */
  lemma DisjointIffNoSharedByte(a: MemoryBlock, b: MemoryBlock)
    ensures Disjoint(a, b) <==> forall byte :: !(a.Covers(byte) && b.Covers(byte))
  {
    if !Disjoint(a, b) {
      var byte := if a.offset <= b.offset then b.offset else a.offset;
      assert a.Covers(byte) && b.Covers(byte);
    }
  }

  datatype MemoryPattern = MemoryPattern(blocks: map<int, MemoryBlock>, peakSize: nat) {
    function GetBlock(index: int): Option<MemoryBlock> {
      if index in blocks then Some(blocks[index]) else None
    }
  }
}
