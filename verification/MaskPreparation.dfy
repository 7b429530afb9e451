/** How the kernel fills the buffer that is added to the scores, batch by batch. */
module MaskPreparation {
  import opened Wrappers
  import opened Grid
  import opened CausalMask
  import opened AttentionKernel

  /** The buffer holds one row of `total` numbers for each row of each batch. */
  datatype Buffer = Buffer(batch: nat, length: nat, past: nat) {
    function Total(): nat {
      past + length
    }

    function Size(): nat {
      batch * length * Total()
    }

    ghost predicate Has(p: Point) {
      InGrid(p, batch, length, Total())
    }

    function Index(p: Point): int {
      Flat(p, length, Total())
    }
  }

  ghost function View(data: seq<real>, d: Buffer, p: Point): real
    requires |data| == d.Size() && d.Has(p)
  {
    FlatInBounds(p, d.batch, d.length, d.Total());
    data[d.Index(p)]
  }

  /** A write reaches one cell. */
  lemma WriteView(data: seq<real>, d: Buffer, p: Point, v: real)
    requires |data| == d.Size() && d.Has(p)
    ensures 0 <= d.Index(p) < |data|
    ensures data[d.Index(p)] == View(data, d, p)
    ensures forall q :: d.Has(q) ==> View(data[d.Index(p) := v], d, q) == if q == p then v else View(data, d, q)
  {
    FlatInBounds(p, d.batch, d.length, d.Total());
    forall q | d.Has(q)
      ensures View(data[d.Index(p) := v], d, q) == if q == p then v else View(data, d, q)
    {
      FlatInBounds(q, d.batch, d.length, d.Total());
      if Before(p, q) {
        FlatFollowsOrder(p, q, d.batch, d.length, d.Total());
      } else if q != p {
        FlatFollowsOrder(q, p, d.batch, d.length, d.Total());
      }
    }
  }

  /** What the mask says about each kind of mask index asks of its size. */
  ghost predicate MaskFits(m: MaskIndex, d: Buffer) {
    if |m.dims| == 3 then |m.data| == d.Size()
    else if |m.dims| == 2 then |m.data| == d.batch * d.Total()
    else
      && |m.data| >= (if HasStarts(m, d.batch) then 2 * d.batch else d.batch)
      && forall b :: 0 <= b < d.batch ==> m.data[b] >= 0
  }

  predicate Later(d: Buffer, p: Point) {
    p.k > d.past + p.j
  }

  /** The loop for keys ahead of a row; it leaves out the last row, which has none. */
  method AddCausal(a: array<real>, b: nat, d: Buffer)
    requires a.Length == d.Size() && b < d.batch
    modifies a
    ensures forall q :: d.Has(q) ==>
      View(a[..], d, q) == View(old(a[..]), d, q) + if q.i == b && Later(d, q) then HIDDEN else 0.0
  {
    hide View, Buffer.Index, Buffer.Size;
    ghost var was := a[..];
    var s := 0;
    while s < d.length - 1
      invariant 0 <= s && (s <= d.length - 1 || d.length == 0)
      invariant forall q :: d.Has(q) ==>
        View(a[..], d, q) == View(was, d, q) + if q.i == b && q.j < s && Later(d, q) then HIDDEN else 0.0
    {
      var t := d.past + s + 1;
      while t < d.Total()
        invariant d.past + s + 1 <= t <= d.Total()
        invariant forall q :: d.Has(q) ==>
          View(a[..], d, q) == View(was, d, q)
            + if q.i == b && (q.j < s || (q.j == s && q.k < t)) && Later(d, q) then HIDDEN else 0.0
      {
        var p := Point(b, s, t);
        ghost var before := a[..];
        WriteView(before, d, p, View(before, d, p) + HIDDEN);
        a[d.Index(p)] := a[d.Index(p)] + HIDDEN;
        assert a[..] == before[d.Index(p) := View(before, d, p) + HIDDEN];
        t := t + 1;
      }
      s := s + 1;
    }
  }

  function Hides(m: MaskIndex, d: Buffer, b: nat, s: nat, t: nat): real {
    if HiddenByMask(m, d.batch, d.length, d.Total(), b, s, t) then HIDDEN else 0.0
  }

  /** The first row of a batch, from a row of the mask or from an end and perhaps a start. */
  method MaskFirstRow(m: MaskIndex, a: array<real>, b: nat, d: Buffer)
    requires a.Length == d.Size() && b < d.batch && d.length > 0 && MaskFits(m, d) && |m.dims| != 3
    requires forall q :: d.Has(q) && q.i == b ==> View(a[..], d, q) == 0.0
    modifies a
    ensures forall q :: d.Has(q) ==>
      View(a[..], d, q) == if q.i == b && q.j == 0 then Hides(m, d, b, 0, q.k) else View(old(a[..]), d, q)
  {
    hide View, Buffer.Index, Buffer.Size;
    ghost var was := a[..];
    if |m.dims| == 2 {
      var t := 0;
      while t < d.Total()
        invariant 0 <= t <= d.Total()
        invariant forall q :: d.Has(q) ==>
          View(a[..], d, q) == if q.i == b && q.j == 0 && q.k < t then Hides(m, d, b, 0, q.k) else View(was, d, q)
      {
        var p := Point(b, 0, t);
        RowMajorInBounds(b, t, d.batch, d.Total());
        ghost var before := a[..];
        var v := if m.data[b * d.Total() + t] > 0 then 0.0 else HIDDEN;
        WriteView(before, d, p, v);
        a[d.Index(p)] := v;
        assert a[..] == before[d.Index(p) := v];
        t := t + 1;
      }
    } else {
      var end := m.data[b];
      var t := end;
      while t < d.Total()
        invariant end <= t && (t <= d.Total() || t == end)
        invariant forall q :: d.Has(q) ==>
          View(a[..], d, q) == if q.i == b && q.j == 0 && end <= q.k < t then HIDDEN else View(was, d, q)
      {
        HideCell(a, Point(b, 0, t), d);
        t := t + 1;
      }
      if HasStarts(m, d.batch) {
        var start := if m.data[b + d.batch] < d.Total() then m.data[b + d.batch] else d.Total();
        t := 0;
        while t < start
          invariant 0 <= t && (t <= start || t == 0)
          invariant forall q :: d.Has(q) ==>
            View(a[..], d, q) == if q.i == b && q.j == 0 && (end <= q.k || q.k < t) then HIDDEN else View(was, d, q)
        {
          HideCell(a, Point(b, 0, t), d);
          t := t + 1;
        }
      }
    }
  }

  method HideCell(a: array<real>, p: Point, d: Buffer)
    requires a.Length == d.Size() && d.Has(p)
    modifies a
    ensures forall q :: d.Has(q) ==> View(a[..], d, q) == if q == p then HIDDEN else View(old(a[..]), d, q)
  {
    ghost var before := a[..];
    WriteView(before, d, p, HIDDEN);
    a[d.Index(p)] := HIDDEN;
    assert a[..] == before[d.Index(p) := HIDDEN];
  }

  /** The other rows of a batch are copies of the first. */
  method CopyFirstRow(a: array<real>, b: nat, d: Buffer)
    requires a.Length == d.Size() && b < d.batch
    modifies a
    ensures forall q :: d.Has(q) ==>
      View(a[..], d, q) == if q.i == b then View(old(a[..]), d, Point(b, 0, q.k)) else View(old(a[..]), d, q)
  {
    hide View, Buffer.Index, Buffer.Size;
    ghost var was := a[..];
    var s := 1;
    while s < d.length
      invariant 1 <= s && (s <= d.length || s == 1)
      invariant forall q :: d.Has(q) ==>
        View(a[..], d, q) == if q.i == b && q.j < s then View(was, d, Point(b, 0, q.k)) else View(was, d, q)
    {
      var t := 0;
      while t < d.Total()
        invariant 0 <= t <= d.Total()
        invariant forall q :: d.Has(q) ==>
          View(a[..], d, q) == if q.i == b && (q.j < s || (q.j == s && q.k < t)) then View(was, d, Point(b, 0, q.k))
                               else View(was, d, q)
      {
        var p, first := Point(b, s, t), Point(b, 0, t);
        ghost var before := a[..];
        WriteView(before, d, first, 0.0);
        WriteView(before, d, p, View(before, d, first));
        a[d.Index(p)] := a[d.Index(first)];
        assert a[..] == before[d.Index(p) := View(before, d, first)];
        t := t + 1;
      }
      s := s + 1;
    }
  }

  /** What is added to the score of a cell. */
  function ValueAt(m: Option<MaskIndex>, unidirectional: bool, d: Buffer, p: Point): real
    requires p.i >= 0 && p.j >= 0 && p.k >= 0
  {
    MaskValue(m, unidirectional, d.batch, d.length, d.past, p.i, p.j, p.k)
  }

  lemma ZerosEverywhere(data: seq<real>, d: Buffer)
    requires |data| == d.Size() && forall k :: 0 <= k < |data| ==> data[k] == 0.0
    ensures forall q :: d.Has(q) ==> View(data, d, q) == 0.0
  {
    hide Buffer.Index, Buffer.Size;
    forall q | d.Has(q)
      ensures View(data, d, q) == 0.0
    {
      WriteView(data, d, q, 0.0);
    }
  }

  /** A mask of three dimensions has an entry for each cell. */
  method MaskAllCells(m: MaskIndex, a: array<real>, d: Buffer)
    requires a.Length == d.Size() && MaskFits(m, d) && |m.dims| == 3
    modifies a
    ensures forall q :: d.Has(q) ==> View(a[..], d, q) == ValueAt(Some(m), false, d, q)
  {
    var i := 0;
    while i < a.Length
      invariant 0 <= i <= a.Length
      invariant forall k :: 0 <= k < i ==> a[k] == if m.data[k] > 0 then 0.0 else HIDDEN
    {
      a[i] := if m.data[i] > 0 then 0.0 else HIDDEN;
      i := i + 1;
    }
    forall q | d.Has(q)
      ensures View(a[..], d, q) == ValueAt(Some(m), false, d, q)
    {
      EntryOfCell(m, d, q);
    }
  }

  lemma EntryOfCell(m: MaskIndex, d: Buffer, q: Point)
    requires MaskFits(m, d) && |m.dims| == 3 && d.Has(q)
    ensures 0 <= d.Index(q) < |m.data|
    ensures Hides(m, d, q.i, q.j, q.k) == if m.data[d.Index(q)] > 0 then 0.0 else HIDDEN
  {
    FlatInBounds(q, d.batch, d.length, d.Total());
    FlatIsNested(q, d.length, d.Total());
  }

  /**
    The buffer of the kernel, zeroed before: every cell gets -10000 if the mask hides its key, and -10000
    more if the key comes after the row and the kernel looks back only.
  */
  method PrepareMask(m: Option<MaskIndex>, a: array<real>, unidirectional: bool, d: Buffer)
    requires a.Length == d.Size() && d.length > 0 && (m.Some? ==> MaskFits(m.value, d))
    requires forall k :: 0 <= k < a.Length ==> a[k] == 0.0
    modifies a
    ensures forall q :: d.Has(q) ==> View(a[..], d, q) == ValueAt(m, unidirectional, d, q)
  {
    hide View, Buffer.Index, Buffer.Size, MaskFits, ValueAt;
    ZerosEverywhere(a[..], d);
    if m.Some? && |m.value.dims| == 3 {
      MaskAllCells(m.value, a, d);
      if unidirectional {
        CausalForAll(m, a, d);
      }
      return;
    }
    var b := 0;
    while b < d.batch
      invariant 0 <= b <= d.batch
      invariant forall q :: d.Has(q) ==>
        View(a[..], d, q) == if q.i < b then ValueAt(m, unidirectional, d, q) else 0.0
    {
      PrepareBatch(m, a, unidirectional, b, d);
      b := b + 1;
    }
  }

  /** Without three dimensions a mask says the same for all rows. */
  lemma RowsAreAlike(m: MaskIndex, d: Buffer, b: nat, s: nat, t: nat)
    requires |m.dims| != 3
    ensures Hides(m, d, b, s, t) == Hides(m, d, b, 0, t)
  {}

  /** One batch of a mask without three dimensions, or of none. */
  method PrepareBatch(m: Option<MaskIndex>, a: array<real>, unidirectional: bool, b: nat, d: Buffer)
    requires a.Length == d.Size() && b < d.batch && d.length > 0
    requires m.Some? ==> MaskFits(m.value, d) && |m.value.dims| != 3
    requires forall q :: d.Has(q) && q.i == b ==> View(a[..], d, q) == 0.0
    modifies a
    ensures forall q :: d.Has(q) ==>
      View(a[..], d, q) == if q.i == b then ValueAt(m, unidirectional, d, q) else View(old(a[..]), d, q)
  {
    hide View, Buffer.Index, Buffer.Size, MaskFits, HiddenByMask;
    ghost var was := a[..];
    if m.Some? {
      MaskFirstRow(m.value, a, b, d);
    }
    ghost var first := a[..];
    CopyFirstRow(a, b, d);
    forall q | d.Has(q) && q.i == b
      ensures View(a[..], d, q) == if m.Some? then Hides(m.value, d, b, q.j, q.k) else 0.0
    {
      assert d.Has(Point(b, 0, q.k));
      assert View(a[..], d, q) == View(first, d, Point(b, 0, q.k));
      if m.Some? {
        RowsAreAlike(m.value, d, b, q.j, q.k);
      }
    }
    if unidirectional {
      AddCausal(a, b, d);
    }
  }

  /** Batch by batch, after a mask with an entry for each cell. */
  method CausalForAll(m: Option<MaskIndex>, a: array<real>, d: Buffer)
    requires a.Length == d.Size()
    requires forall q :: d.Has(q) ==> View(a[..], d, q) == ValueAt(m, false, d, q)
    modifies a
    ensures forall q :: d.Has(q) ==> View(a[..], d, q) == ValueAt(m, true, d, q)
  {
    hide View, Buffer.Index, Buffer.Size;
    var b := 0;
    while b < d.batch
      invariant 0 <= b <= d.batch
      invariant forall q :: d.Has(q) ==> View(a[..], d, q) == ValueAt(m, q.i < b, d, q)
    {
      AddCausal(a, b, d);
      b := b + 1;
    }
  }
}
