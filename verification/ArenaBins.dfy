/** The size classes of the arena: bin `b` collects the free chunks of at least `256 << b` bytes. */
module ArenaBins {
  const MIN_ALLOCATION_BITS: nat := 8
  const NUM_BINS: nat := 21

  function Shl(n: nat, bits: nat): nat {
    if bits == 0 then n else 2 * Shl(n, bits - 1)
  }

  function Shr(n: nat, bits: nat): nat {
    if bits == 0 then n else Shr(n, bits - 1) / 2
  }

  function Log2Floor(n: nat): (r: nat)
    requires n > 0
    ensures Shl(1, r) <= n < Shl(1, r + 1)
  {
    if n == 1 then 0 else 1 + Log2Floor(n / 2)
  }

  /** The portable bit count: -1 for zero. */
  method Log2FloorNonZeroSlow(n: nat) returns (log: int)
    ensures log == if n == 0 then -1 else Log2Floor(n)
  {
    var r := 0;
    var rest := n;
    while rest > 0
      invariant if rest > 0 then Log2Floor(n) == r + Log2Floor(rest) else n > 0 ==> Log2Floor(n) == r - 1
      invariant n > 0 || r == 0
      decreases rest
    {
      r := r + 1;
      rest := rest / 2;
    }
    log := r - 1;
  }

  function BinNumToSize(index: nat): nat {
    Shl(256, index)
  }

  function BinNumForSize(bytes: nat): (bin: nat)
    ensures bin < NUM_BINS
  {
    var v := Shr(if bytes < 256 then 256 else bytes, MIN_ALLOCATION_BITS);
    ShrDivides(if bytes < 256 then 256 else bytes);
    var log := Log2Floor(v);
    if NUM_BINS - 1 < log then NUM_BINS - 1 else log
  }

  lemma ShrDivides(n: nat)
    ensures Shr(n, MIN_ALLOCATION_BITS) == n / 256
  {
    assert Shr(n, 1) == n / 2;
    assert Shr(n, 2) == n / 4;
    assert Shr(n, 3) == n / 8;
    assert Shr(n, 4) == n / 16;
    assert Shr(n, 5) == n / 32;
    assert Shr(n, 6) == n / 64;
    assert Shr(n, 7) == n / 128;
  }

  lemma {:induction false} ShlScales(bits: nat)
    ensures Shl(256, bits) == 256 * Shl(1, bits) > 0
  {
    if bits > 0 { ShlScales(bits - 1); }
  }

  lemma {:induction false} ShlGrows(low: nat, high: nat)
    requires low <= high
    ensures Shl(1, low) <= Shl(1, high)
    decreases high - low
  {
    if low < high {
      ShlGrows(low, high - 1);
    }
  }

  /**
    A request lands in bin `i` or above exactly if it is at least as large as the smallest chunk of
    bin `i`, requests below 256 bytes counting as 256. So a bin's requests lie between its size and
    the next bin's, larger requests never go to lower bins, and every bin size maps back to its bin.
  */
  lemma BinBracketsSize(bytes: nat, i: nat)
    requires i < NUM_BINS
    ensures i <= BinNumForSize(bytes) <==> BinNumToSize(i) <= (if bytes < 256 then 256 else bytes)
  {
    var n := if bytes < 256 then 256 else bytes;
    ShrDivides(n);
    ShlScales(i);
    var log := Log2Floor(n / 256);
    if i <= log {
      ShlGrows(i, log);
    } else {
      ShlGrows(log + 1, i);
    }
  }

  /** No two bins serve one size, and the size of a bin belongs to it. */
  lemma BinSizeRoundTrip(i: nat)
    requires i < NUM_BINS
    ensures BinNumForSize(BinNumToSize(i)) == i
  {
    ShlScales(i);
    ShlGrows(0, i);
    BinBracketsSize(BinNumToSize(i), i);
    if i + 1 < NUM_BINS {
      ShlScales(i + 1);
      BinBracketsSize(BinNumToSize(i), i + 1);
    }
  }
}
