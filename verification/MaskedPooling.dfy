/**
  What masked max pooling computes. All three ranks are one statement over three axes: pooling in
  one or two dimensions has unit axes in front.
*/
module MaskedPooling {
  import opened Grid

  /** The smallest finite single-precision number. */
  const LOWEST: real := -340282346638528859811704183484516925440.0

  /** One pooled dimension. */
  datatype Axis = Axis(extent: nat, pooled: nat, stride: int, kernel: int, pad: int) {
    /** First input coordinate of a window, cut off at the front. */
    function Start(p: int): nat {
      var start := p * stride - pad;
      if start < 0 then 0 else start
    }

    /** End of a window; the cut at the front does not move it. */
    function End(p: int): int {
      var end := p * stride - pad + kernel;
      if end < extent then end else extent
    }
  }

  const UNIT: Axis := Axis(1, 1, 1, 1, 0)

  datatype Pooling = Pooling(rank: nat, outer: Axis, middle: Axis, inner: Axis, maskChannels: nat) {
    ghost predicate Valid() {
      && 1 <= rank <= 3
      && maskChannels >= 1
      && (rank < 3 ==> outer == UNIT)
      && (rank < 2 ==> middle == UNIT)
    }

    function XStep(): nat {
      outer.extent * middle.extent * inner.extent
    }

    function YStep(): nat {
      outer.pooled * middle.pooled * inner.pooled
    }

    /** In one dimension the mask is read for every element, in two and three for all but the first. */
    predicate Consulted(index: nat) {
      rank == 1 || index > 0
    }

    /** Elements behind the end of the mask count as open; no channel that is run has any in a window. */
    predicate Masked(m: seq<int>, index: nat) {
      Consulted(index) && index < |m| && m[index] == 0
    }
  }

  ghost predicate Element(t: Pooling, e: Point) {
    InGrid(e, t.outer.extent, t.middle.extent, t.inner.extent)
  }

  ghost predicate Cell(t: Pooling, p: Point) {
    InGrid(p, t.outer.pooled, t.middle.pooled, t.inner.pooled)
  }

  function Index(t: Pooling, e: Point): (index: nat)
    requires InGrid(e, t.outer.extent, t.middle.extent, t.inner.extent)
    ensures index < t.XStep()
  {
    FlatInBounds(e, t.outer.extent, t.middle.extent, t.inner.extent);
    Flat(e, t.middle.extent, t.inner.extent)
  }

  /** An element of the window of an output cell. */
  ghost predicate InWindow(t: Pooling, p: Point, e: Point) {
    && t.outer.Start(p.i) <= e.i < t.outer.End(p.i)
    && t.middle.Start(p.j) <= e.j < t.middle.End(p.j)
    && t.inner.Start(p.k) <= e.k < t.inner.End(p.k)
  }

  /** No element of the row of the window from its start to column `k` is masked. */
  ghost predicate RowOpen(t: Pooling, m: seq<int>, p: Point, i: int, j: int, k: int)
  {
    forall l :: t.inner.Start(p.k) <= l <= k && Element(t, Point(i, j, l)) ==> !t.Masked(m, Index(t, Point(i, j, l)))
  }

  /** The elements a cell is the maximum of: those before the first masked element of their row. */
  ghost predicate Seen(t: Pooling, m: seq<int>, p: Point, e: Point)
  {
    InWindow(t, p, e) && RowOpen(t, m, p, e.i, e.j, e.k)
  }

  /** A coordinate of the input that the window of output coordinate `p` covers. */
  predicate Spans(a: Axis, p: int, e: int) {
    0 <= e < a.extent && p * a.stride - a.pad <= e < p * a.stride - a.pad + a.kernel
  }

  /** Windows start `pad` before a multiple of the stride, are as long as the kernel, and are cut off at the input. */
  lemma InWindowIff(t: Pooling, p: Point, e: Point)
    ensures InWindow(t, p, e) <==>
      Spans(t.outer, p.i, e.i) && Spans(t.middle, p.j, e.j) && Spans(t.inner, p.k, e.k)
  {}

  /** A zero at this position of the mask of a channel; in two and three dimensions the first position is not read. */
  predicate Closed(t: Pooling, m: seq<int>, index: int) {
    0 <= index < |m| && m[index] == 0 && (index == 0 ==> t.rank == 1)
  }

  /** A cell sees the covered elements that no zero precedes in the covered part of their row, nor masks itself. */
  lemma SeenIff(t: Pooling, m: seq<int>, p: Point, e: Point)
    ensures Seen(t, m, p, e) <==>
      && Spans(t.outer, p.i, e.i) && Spans(t.middle, p.j, e.j) && Spans(t.inner, p.k, e.k)
      && forall l :: l <= e.k && Spans(t.inner, p.k, l) ==>
           !Closed(t, m, (e.i * t.middle.extent + e.j) * t.inner.extent + l)
  {
    InWindowIff(t, p, e);
    hide InWindow, Pooling.XStep;
    if InWindow(t, p, e) {
      forall l | l <= e.k && Spans(t.inner, p.k, l)
        ensures Element(t, Point(e.i, e.j, l)) && t.inner.Start(p.k) <= l
        ensures Index(t, Point(e.i, e.j, l)) == (e.i * t.middle.extent + e.j) * t.inner.extent + l
      {
        FlatIsNested(Point(e.i, e.j, l), t.middle.extent, t.inner.extent);
      }
      forall l | t.inner.Start(p.k) <= l <= e.k && Element(t, Point(e.i, e.j, l))
        ensures Spans(t.inner, p.k, l)
        ensures Index(t, Point(e.i, e.j, l)) == (e.i * t.middle.extent + e.j) * t.inner.extent + l
      {
        FlatIsNested(Point(e.i, e.j, l), t.middle.extent, t.inner.extent);
      }
      forall l {:trigger Spans(t.inner, p.k, l)} | l <= e.k && Spans(t.inner, p.k, l)
        ensures t.Masked(m, Index(t, Point(e.i, e.j, l)))
           <==> Closed(t, m, (e.i * t.middle.extent + e.j) * t.inner.extent + l)
      {}
    }
  }

  /** The lowest number is minus the largest 24-bit significand at the largest exponent. */
  lemma LowestIsFinite()
    ensures LOWEST == -((0xFF_FFFF * 0x100_0000_0000_0000_0000_0000_0000) as real)
  {}

  /** `y` is the largest of the lowest number and the seen elements that come before `end`. */
  ghost predicate IsMaxBefore(t: Pooling, x: seq<real>, m: seq<int>, p: Point, end: Point, y: real)
    requires |x| >= t.XStep()
  {
    && LOWEST <= y
    && (forall e :: Seen(t, m, p, e) && Before(e, end) ==> x[Index(t, e)] <= y)
    && (y == LOWEST || exists e :: Seen(t, m, p, e) && Before(e, end) && x[Index(t, e)] == y)
  }

  /** `y` is the pooled value of a cell. */
  ghost predicate IsPooled(t: Pooling, x: seq<real>, m: seq<int>, p: Point, y: real)
    requires |x| >= t.XStep()
  {
    && LOWEST <= y
    && (forall e :: Seen(t, m, p, e) ==> x[Index(t, e)] <= y)
    && (y == LOWEST || exists e :: Seen(t, m, p, e) && x[Index(t, e)] == y)
  }

  /** A channel of the output, all of its cells pooled. */
  ghost predicate ChannelPooled(t: Pooling, x: seq<real>, m: seq<int>, y: seq<real>)
    requires |x| >= t.XStep() && |y| == t.YStep()
  {
    forall p :: Cell(t, p) ==> IsPooled(t, x, m, p, CellOf(t, y, p))
  }

  ghost function CellOf(t: Pooling, y: seq<real>, p: Point): real
    requires Cell(t, p) && |y| == t.YStep()
  {
    FlatInBounds(p, t.outer.pooled, t.middle.pooled, t.inner.pooled);
    y[Flat(p, t.middle.pooled, t.inner.pooled)]
  }

  /** The statement settles every cell of a channel: two channels that meet it are equal. */
  lemma PooledChannelIsUnique(t: Pooling, x: seq<real>, m: seq<int>, y: seq<real>, z: seq<real>)
    requires |x| >= t.XStep() && |y| == |z| == t.YStep()
    requires ChannelPooled(t, x, m, y) && ChannelPooled(t, x, m, z)
    ensures y == z
  {
    forall n | 0 <= n < |y|
      ensures y[n] == z[n]
    {
      var p := FlatIsOnto(n, t.outer.pooled, t.middle.pooled, t.inner.pooled);
      assert CellOf(t, y, p) == y[n] && CellOf(t, z, p) == z[n];
    }
  }
}
