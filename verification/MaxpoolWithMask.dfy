/**
  Masked max pooling over flat buffers: the loops for one, two and three dimensions, the loop over
  channels, and the channels split into ranges that are run in any order.
*/
module MaxpoolWithMask {
  import opened Grid
  import opened MaskedPooling

  /** Where the mask of a channel starts. */
  function MaskOffset(t: Pooling, c: nat): (offset: nat)
    requires t.maskChannels >= 1
    ensures offset < t.maskChannels
  {
    (c * t.XStep()) % t.maskChannels
  }

  /** The mask from the start of a channel on; nothing of it if the mask ends before. */
  function MaskOf(t: Pooling, m: seq<int>, c: nat): seq<int>
    requires t.maskChannels >= 1
  {
    if MaskOffset(t, c) <= |m| then m[MaskOffset(t, c)..] else []
  }

  // ----- The length of the mask

  /** Channel `c` pools cell `p` over an element whose mask is consulted. */
  ghost predicate MayRead(t: Pooling, channels: nat, c: nat, p: Point, e: Point) {
    && t.maskChannels >= 1 && c < channels && Cell(t, p) && InWindow(t, p, e)
    && t.Consulted(Index(t, e))
  }

  /** The mask is long enough for whatever channels may read of it. */
  ghost predicate MaskReaches(t: Pooling, length: nat, channels: nat) {
    forall c: nat, p, e :: MayRead(t, channels, c, p, e) ==> MaskOffset(t, c) + Index(t, e) < length
  }

  /** With the mask `m`, no element before `e` in its row stops the loop. */
  ghost predicate Reads(t: Pooling, m: seq<int>, channels: nat, c: nat, p: Point, e: Point) {
    && MayRead(t, channels, c, p, e)
    && RowOpen(t, MaskOf(t, m, c), p, e.i, e.j, e.k - 1)
  }

  /** Every element of the mask that is read is an element of the mask. */
  ghost predicate ReadsInside(t: Pooling, m: seq<int>, channels: nat) {
    forall c: nat, p, e :: Reads(t, m, channels, c, p, e) ==> MaskOffset(t, c) + Index(t, e) < |m|
  }

  /** A mask of ones. */
  function OpenMask(n: nat): (m: seq<int>)
    ensures |m| == n && forall i :: 0 <= i < n ==> m[i] == 1
  {
    seq(n, _ => 1)
  }

  /**
    The original compares no shapes. All masks of a length are read inside exactly if that length reaches
    every element that a window of some channel holds, counted from where the mask of the channel starts.
  */
  lemma MaskReachIsExact(t: Pooling, length: nat, channels: nat)
    ensures MaskReaches(t, length, channels) <==> forall m: seq<int> :: |m| == length ==> ReadsInside(t, m, channels)
  {
    if forall m: seq<int> :: |m| == length ==> ReadsInside(t, m, channels) {
      var m := OpenMask(length);
      assert ReadsInside(t, m, channels);
      forall c: nat, p, e | MayRead(t, channels, c, p, e)
        ensures MaskOffset(t, c) + Index(t, e) < length
      {
        OpenMaskIsRead(t, length, channels, c, p, e);
      }
    }
  }

  /** One channel of two elements, pooled by one window over both. */
  const PAIR := Pooling(1, UNIT, UNIT, Axis(2, 1, 1, 2, 0), 1)

  lemma PairHasSecondElement()
    ensures PAIR.Valid() && MaskOffset(PAIR, 0) == 0 && Cell(PAIR, Point(0, 0, 0))
    ensures InWindow(PAIR, Point(0, 0, 0), Point(0, 0, 1)) && Index(PAIR, Point(0, 0, 1)) == 1
  {
    assert PAIR.XStep() == 2;
  }

  lemma InputMayBeRead(t: Pooling, p: Point, e: Point)
    requires t.rank == 1 && t.maskChannels >= 1 && Cell(t, p) && InWindow(t, p, e)
    ensures MayRead(t, 1, 0, p, e)
  {
    hide InWindow, Index;
  }

  lemma OpenMaskIsRead(t: Pooling, n: nat, channels: nat, c: nat, p: Point, e: Point)
    requires MayRead(t, channels, c, p, e)
    ensures Reads(t, OpenMask(n), channels, c, p, e)
  {
    assert forall i: nat :: !t.Masked(MaskOf(t, OpenMask(n), c), i);
    hide MayRead, Element, Index;
  }

  /** A mask of one element is left there: the second element is read behind its end. */
  lemma ShortMaskIsLeft()
    ensures PAIR.Valid() && !ReadsInside(PAIR, OpenMask(1), 1)
  {
    hide InWindow, Index, Pooling.XStep, MaskOffset, Element, MayRead, MaskOf, OpenMask;
    PairHasSecondElement();
    InputMayBeRead(PAIR, Point(0, 0, 0), Point(0, 0, 1));
    OpenMaskIsRead(PAIR, 1, 1, 0, Point(0, 0, 0), Point(0, 0, 1));
  }

  lemma ProductExceedsSum(n: nat, step: nat)
    requires n >= 1 && step >= 1
    ensures n * step >= n - 1 + step
    decreases n
  {
    if n > 1 {
      ProductExceedsSum(n - 1, step);
      assert n * step == (n - 1) * step + step;
    }
  }

  /** A mask with as many elements a channel as the input is long enough. */
  lemma WholeMaskReaches(t: Pooling, channels: nat)
    requires t.maskChannels >= 1
    ensures MaskReaches(t, t.maskChannels * t.XStep(), channels)
  {
    hide Pooling.XStep, MaskOffset;
    forall c: nat, p, e | MayRead(t, channels, c, p, e)
      ensures MaskOffset(t, c) + Index(t, e) < t.maskChannels * t.XStep()
    {
      ProductExceedsSum(t.maskChannels, t.XStep());
    }
  }

  ghost predicate OwnStart(c: nat, step: nat, n: nat)
    requires n >= 1
  {
    (c * step) % n == (c % n) * step
  }

  lemma StartIsOwn(c: nat, channels: nat, step: nat, n: nat)
    requires c < channels && n >= 1 && (n == 1 || step <= 1 || (channels - 1) * step < n)
    ensures OwnStart(c, step, n)
  {
    if n == 1 {
      assert c % 1 == 0 && (c * step) % 1 == 0;
    } else if step == 0 {
      assert c * step == 0 && (c % n) * step == 0;
    } else if step == 1 {
      assert c * step == c && (c % n) * step == c % n;
    } else {
      RowsGrow(c, channels - 1, step);
      SmallIsOwn(c, step, n);
    }
  }

  lemma RowsGrow(c: nat, d: nat, step: nat)
    requires c <= d
    ensures c * step <= d * step
  {
    assert (d - c) * step >= 0;
  }

  lemma SmallIsOwn(c: nat, step: nat, n: nat)
    requires step >= 1 && c * step < n
    ensures OwnStart(c, step, n)
  {
    var start := c * step;
    assert c <= start by { assert c * (step - 1) >= 0; }
    SmallModulus(c, n);
    SmallModulus(start, n);
  }

  lemma SmallModulus(a: nat, n: nat)
    requires a < n
    ensures a % n == a
  {}

  /** The first channel whose mask would start behind `n`. */
  lemma StartIsNotOwn(channels: nat, step: nat, n: nat) returns (c: nat)
    requires n >= 2 && step >= 2 && (channels - 1) * step >= n
    ensures c < channels && !OwnStart(c, step, n)
  {
    var start := step;
    c := 1;
    while start < n
      invariant 1 <= c < channels && start == c * step
      invariant start - step < n && 2 * (c - 1) <= start - step
      decreases n - start
    {
      NextStart(c, channels - 1, step);
      c, start := c + 1, start + step;
    }
    SmallModulus(c, n);
  }

  lemma NextStart(c: nat, d: nat, step: nat)
    ensures (c + 1) * step == c * step + step
    ensures c * step < d * step ==> c < d
  {
    if d <= c {
      RowsGrow(d, c, step);
    }
  }

  /**
    A channel need not be masked by a channel of the mask: the start is reduced by the number of mask
    channels, not by their size. The starts are those of mask channel `c % maskChannels` exactly if there
    is one mask channel, or channels have at most one element, or the last start stays below that number.
  */
  lemma MaskStartsAtChannel(t: Pooling, channels: nat)
    requires t.maskChannels >= 1
    ensures (forall c :: 0 <= c < channels ==> MaskOffset(t, c) == (c % t.maskChannels) * t.XStep())
       <==> (t.maskChannels == 1 || t.XStep() <= 1 || (channels - 1) * t.XStep() < t.maskChannels)
  {
    hide Pooling.XStep;
    var n, step := t.maskChannels, t.XStep();
    if n == 1 || step <= 1 || (channels - 1) * step < n {
      forall c | 0 <= c < channels
        ensures MaskOffset(t, c) == (c % n) * step
      {
        StartIsOwn(c, channels, step, n);
      }
    } else {
      var c := StartIsNotOwn(channels, step, n);
      assert MaskOffset(t, c) != (c % n) * step;
    }
  }

  /** Two channels of two elements and two mask channels. */
  const TWO_BY_TWO := Pooling(1, UNIT, UNIT, Axis(2, 1, 1, 2, 0), 2)

  /** The second channel there is masked from the first mask channel on. */
  lemma MaskOfWrongChannel()
    ensures TWO_BY_TWO.Valid() && MaskOffset(TWO_BY_TWO, 1) == 0 && (1 % 2) * TWO_BY_TWO.XStep() == 2
  {
    assert TWO_BY_TWO.XStep() == 2;
  }

  // ----- Channels

  /** Buffers a task can run on: whole channels, and a mask that is read inside its bounds. */
  ghost predicate Fits(t: Pooling, x: seq<real>, m: seq<int>, yLength: nat, channels: nat) {
    && t.Valid()
    && |x| == channels * t.XStep()
    && yLength == channels * t.YStep()
    && ReadsInside(t, m, channels)
  }

  lemma ChannelInBounds(c: nat, channels: nat, step: nat)
    requires c < channels
    ensures 0 <= c * step && c * step + step <= channels * step
  {
    assert (c + 1) * step <= channels * step;
  }

  ghost function InputOf(t: Pooling, x: seq<real>, c: nat, channels: nat): (s: seq<real>)
    requires |x| == channels * t.XStep() && c < channels
    ensures |s| == t.XStep()
  {
    ChannelInBounds(c, channels, t.XStep());
    x[c * t.XStep()..c * t.XStep() + t.XStep()]
  }

  ghost function OutputOf(t: Pooling, y: seq<real>, c: nat, channels: nat): (s: seq<real>)
    requires |y| == channels * t.YStep() && c < channels
    ensures |s| == t.YStep()
  {
    ChannelInBounds(c, channels, t.YStep());
    y[c * t.YStep()..c * t.YStep() + t.YStep()]
  }

  /** A channel of the output holds the pooled values of that channel of the input. */
  ghost predicate ChannelDone(t: Pooling, x: seq<real>, m: seq<int>, y: seq<real>, c: nat, channels: nat)
    requires Fits(t, x, m, |y|, channels) && c < channels
  {
    ChannelPooled(t, InputOf(t, x, c, channels), MaskOf(t, m, c), OutputOf(t, y, c, channels))
  }

  lemma SkipUnseen(t: Pooling, x: seq<real>, m: seq<int>, p: Point, a: Point, b: Point, y: real)
    requires |x| >= t.XStep() && IsMaxBefore(t, x, m, p, a, y)
    requires forall e :: Seen(t, m, p, e) ==> (Before(e, a) <==> Before(e, b))
    ensures IsMaxBefore(t, x, m, p, b, y)
  {
    hide Seen, Before;
  }

  lemma TakeElement(t: Pooling, x: seq<real>, m: seq<int>, p: Point, e: Point, y: real)
    requires |x| >= t.XStep() && IsMaxBefore(t, x, m, p, e, y)
    requires Seen(t, m, p, e)
    ensures IsMaxBefore(t, x, m, p, Point(e.i, e.j, e.k + 1), if x[Index(t, e)] > y then x[Index(t, e)] else y)
  {
    hide Seen;
    var next := Point(e.i, e.j, e.k + 1);
    assert forall f :: Before(f, next) <==> Before(f, e) || f == e;
  }

  lemma OpenRowGrows(t: Pooling, m: seq<int>, p: Point, e: Point)
    requires InWindow(t, p, e) && RowOpen(t, m, p, e.i, e.j, e.k - 1)
    requires Element(t, e) && !t.Masked(m, Index(t, e))
    ensures Seen(t, m, p, e)
  {
    hide InWindow, Element, Index, Pooling.Masked;
  }

  lemma WindowHasElements(t: Pooling, p: Point, e: Point)
    requires InWindow(t, p, e)
    ensures Element(t, e)
    ensures Index(t, e) == Flat(Point(e.i, e.j, 0), t.middle.extent, t.inner.extent) + e.k
  {}

  /** Past the end of the window or at a masked element, nothing more of the row is seen. */
  lemma RowIsOver(t: Pooling, x: seq<real>, m: seq<int>, p: Point, e: Point, y: real)
    requires |x| >= t.XStep() && IsMaxBefore(t, x, m, p, e, y)
    requires t.inner.Start(p.k) <= e.k
    requires e.k >= t.inner.End(p.k) || (Element(t, e) && t.Masked(m, Index(t, e)))
    ensures IsMaxBefore(t, x, m, p, Point(e.i, e.j + 1, t.inner.Start(p.k)), y)
  {
    forall f | Seen(t, m, p, f)
      ensures Before(f, e) <==> Before(f, Point(e.i, e.j + 1, t.inner.Start(p.k)))
    {
      hide Axis.Start, Axis.End, Element, Index, Pooling.Masked;
      assert f.i == e.i && f.j == e.j ==> f.k < t.inner.End(p.k) && RowOpen(t, m, p, e.i, e.j, f.k);
      assert e.k < t.inner.End(p.k) ==> e == Point(e.i, e.j, e.k);
    }
    SkipUnseen(t, x, m, p, e, Point(e.i, e.j + 1, t.inner.Start(p.k)), y);
  }

  /** What one cell reads of the mask of the channel is inside; a masked element ends the reads of its row. */
  ghost predicate CellReached(t: Pooling, m: seq<int>, p: Point) {
    forall e :: InWindow(t, p, e) && t.Consulted(Index(t, e)) && RowOpen(t, m, p, e.i, e.j, e.k - 1) ==>
      Index(t, e) < |m|
  }

  lemma CellsReached(t: Pooling, m: seq<int>, c: nat, channels: nat)
    requires t.maskChannels >= 1 && c < channels && ReadsInside(t, m, channels)
    ensures forall p :: Cell(t, p) ==> CellReached(t, MaskOf(t, m, c), p)
  {
    var own := MaskOf(t, m, c);
    forall p, e | Cell(t, p) && InWindow(t, p, e) && t.Consulted(Index(t, e)) && RowOpen(t, own, p, e.i, e.j, e.k - 1)
      ensures Index(t, e) < |own|
    {
      hide RowOpen, InWindow, Index;
      assert Reads(t, m, channels, c, p, e);
    }
  }

  lemma ElementReached(t: Pooling, m: seq<int>, p: Point, e: Point)
    requires CellReached(t, m, p) && InWindow(t, p, e) && RowOpen(t, m, p, e.i, e.j, e.k - 1)
    ensures Element(t, e) && (t.Consulted(Index(t, e)) ==> Index(t, e) < |m|)
  {}

  /** The innermost loop: the rest of a row is skipped at its first masked element. */
  method PoolRow(t: Pooling, x: seq<real>, m: seq<int>, ghost p: Point, ghost i: int, ghost j: int,
                 base: nat, start: nat, end: int, best: real) returns (y: real)
    requires |x| >= t.XStep()
    requires start == t.inner.Start(p.k) && end == t.inner.End(p.k)
    requires t.outer.Start(p.i) <= i < t.outer.End(p.i) && t.middle.Start(p.j) <= j < t.middle.End(p.j)
    requires base == Flat(Point(i, j, 0), t.middle.extent, t.inner.extent)
    requires CellReached(t, m, p)
    requires IsMaxBefore(t, x, m, p, Point(i, j, start), best)
    ensures IsMaxBefore(t, x, m, p, Point(i, j + 1, start), y)
  {
    hide Flat, IsMaxBefore, CellReached, Axis.Start, Axis.End;
    y := best;
    var k := start;
    while k < end
      invariant start <= k
      invariant RowOpen(t, m, p, i, j, k - 1)
      invariant IsMaxBefore(t, x, m, p, Point(i, j, k), y)
    {
      ghost var e := Point(i, j, k);
      var index := base + k;
      WindowHasElements(t, p, e);
      ElementReached(t, m, p, e);
      if t.Consulted(index) && m[index] == 0 {
        break;
      }
      OpenRowGrows(t, m, p, e);
      TakeElement(t, x, m, p, e, y);
      if x[index] > y {
        y := x[index];
      }
      k := k + 1;
    }
    RowIsOver(t, x, m, p, Point(i, j, k), y);
  }

  /** Past the last column of a plane, nothing more of the plane is seen. */
  lemma PlaneIsOver(t: Pooling, x: seq<real>, m: seq<int>, p: Point, e: Point, y: real)
    requires |x| >= t.XStep() && IsMaxBefore(t, x, m, p, e, y)
    requires e.j >= t.middle.End(p.j) && e.k == t.inner.Start(p.k)
    ensures IsMaxBefore(t, x, m, p, Point(e.i + 1, t.middle.Start(p.j), t.inner.Start(p.k)), y)
  {
    hide Axis.Start, Axis.End, IsMaxBefore, RowOpen;
    SkipUnseen(t, x, m, p, e, Point(e.i + 1, t.middle.Start(p.j), t.inner.Start(p.k)), y);
  }

  lemma NothingSeenYet(t: Pooling, x: seq<real>, m: seq<int>, p: Point)
    requires |x| >= t.XStep()
    ensures IsMaxBefore(t, x, m, p, Point(t.outer.Start(p.i), t.middle.Start(p.j), t.inner.Start(p.k)), LOWEST)
  {
    hide Axis.Start, Axis.End, RowOpen;
  }

  /** Once no seen element is left, the running maximum is the pooled value. */
  lemma AllSeen(t: Pooling, x: seq<real>, m: seq<int>, p: Point, e: Point, y: real)
    requires |x| >= t.XStep() && IsMaxBefore(t, x, m, p, e, y)
    requires e.i >= t.outer.End(p.i) || (e.i + 1 >= t.outer.End(p.i) && e.j >= t.middle.End(p.j))
    ensures IsPooled(t, x, m, p, y)
  {
    forall f | Seen(t, m, p, f)
      ensures Before(f, e)
    {
      hide Axis.Start, Axis.End, RowOpen;
    }
  }

  lemma UnitWindow(a: Axis)
    requires a == UNIT
    ensures a.Start(0) == 0 && a.End(0) == 1
  {}

  lemma RowStart(i: nat, j: nat, d1: nat, d2: nat)
    ensures i * d1 * d2 + j * d2 >= 0 && j * d2 >= 0
    ensures Flat(Point(i, j, 0), d1, d2) == i * d1 * d2 + j * d2
    ensures Flat(Point(0, j, 0), d1, d2) == j * d2
    ensures Flat(Point(0, 0, 0), d1, d2) == 0
  {}

  lemma FlatAt(p: Point, d1: nat, d2: nat)
    requires p.i == 0
    ensures Flat(p, d1, d2) == p.j * d2 + p.k
    ensures p.j == 0 ==> Flat(p, d1, d2) == p.k
  {}

  method PoolCell3D(t: Pooling, x: seq<real>, m: seq<int>, ghost p: Point,
                    hstart: nat, hend: int, wstart: nat, wend: int, dstart: nat, dend: int) returns (y: real)
    requires |x| >= t.XStep()
    requires hstart == t.outer.Start(p.i) && hend == t.outer.End(p.i)
    requires wstart == t.middle.Start(p.j) && wend == t.middle.End(p.j)
    requires dstart == t.inner.Start(p.k) && dend == t.inner.End(p.k)
    requires CellReached(t, m, p)
    ensures IsPooled(t, x, m, p, y)
  {
    hide IsMaxBefore, IsPooled, CellReached, Axis.Start, Axis.End, Flat;
    y := LOWEST;
    NothingSeenYet(t, x, m, p);
    var h := hstart;
    while h < hend
      invariant hstart <= h
      invariant IsMaxBefore(t, x, m, p, Point(h, wstart, dstart), y)
    {
      var w := wstart;
      while w < wend
        invariant wstart <= w
        invariant IsMaxBefore(t, x, m, p, Point(h, w, dstart), y)
      {
        RowStart(h, w, t.middle.extent, t.inner.extent);
        y := PoolRow(t, x, m, p, h, w, h * t.middle.extent * t.inner.extent + w * t.inner.extent, dstart, dend, y);
        w := w + 1;
      }
      PlaneIsOver(t, x, m, p, Point(h, w, dstart), y);
      h := h + 1;
    }
    AllSeen(t, x, m, p, Point(h, wstart, dstart), y);
  }

  method PoolCell2D(t: Pooling, x: seq<real>, m: seq<int>, ghost p: Point,
                    hstart: nat, hend: int, wstart: nat, wend: int) returns (y: real)
    requires t.outer == UNIT && p.i == 0
    requires |x| >= t.XStep()
    requires hstart == t.middle.Start(p.j) && hend == t.middle.End(p.j)
    requires wstart == t.inner.Start(p.k) && wend == t.inner.End(p.k)
    requires CellReached(t, m, p)
    ensures IsPooled(t, x, m, p, y)
  {
    hide IsMaxBefore, IsPooled, CellReached, Axis.Start, Axis.End, Flat, Pooling.XStep;
    UnitWindow(t.outer);
    y := LOWEST;
    NothingSeenYet(t, x, m, p);
    var h := hstart;
    while h < hend
      invariant hstart <= h
      invariant IsMaxBefore(t, x, m, p, Point(0, h, wstart), y)
    {
      RowStart(0, h, t.middle.extent, t.inner.extent);
      y := PoolRow(t, x, m, p, 0, h, h * t.inner.extent, wstart, wend, y);
      h := h + 1;
    }
    AllSeen(t, x, m, p, Point(0, h, wstart), y);
  }

  method PoolCell1D(t: Pooling, x: seq<real>, m: seq<int>, ghost p: Point, hstart: nat, hend: int) returns (y: real)
    requires t.outer == UNIT && t.middle == UNIT && p.i == 0 && p.j == 0
    requires |x| >= t.XStep()
    requires hstart == t.inner.Start(p.k) && hend == t.inner.End(p.k)
    requires CellReached(t, m, p)
    ensures IsPooled(t, x, m, p, y)
  {
    hide IsMaxBefore, IsPooled, CellReached, Axis.Start, Axis.End, Flat, Pooling.XStep;
    UnitWindow(t.outer);
    UnitWindow(t.middle);
    NothingSeenYet(t, x, m, p);
    RowStart(0, 0, t.middle.extent, t.inner.extent);
    y := PoolRow(t, x, m, p, 0, 0, 0, hstart, hend, LOWEST);
    AllSeen(t, x, m, p, Point(0, 1, hstart), y);
  }

  /** The cells before `p` of one channel are pooled, and nothing outside the channel has changed. */
  ghost predicate CellsDone(t: Pooling, x: seq<real>, m: seq<int>, y: seq<real>, was: seq<real>, base: nat, p: Point) {
    && |x| >= t.XStep()
    && |y| == |was| && base + t.YStep() <= |y|
    && (forall n :: 0 <= n < |y| && !(base <= n < base + t.YStep()) ==> y[n] == was[n])
    && (forall q :: Cell(t, q) && Before(q, p) ==> IsPooled(t, x, m, q, CellOf(t, y[base..base + t.YStep()], q)))
  }

  lemma CellOffset(t: Pooling, p: Point)
    requires Cell(t, p)
    ensures 0 <= Flat(p, t.middle.pooled, t.inner.pooled) < t.YStep()
    ensures forall q :: Cell(t, q) && Before(q, p) ==>
      Flat(q, t.middle.pooled, t.inner.pooled) < Flat(p, t.middle.pooled, t.inner.pooled)
  {
    FlatInBounds(p, t.outer.pooled, t.middle.pooled, t.inner.pooled);
    forall q | Cell(t, q) && Before(q, p) {
      FlatFollowsOrder(q, p, t.outer.pooled, t.middle.pooled, t.inner.pooled);
    }
  }

  lemma CellWritten(t: Pooling, x: seq<real>, m: seq<int>, y: seq<real>, was: seq<real>, base: nat, p: Point,
                    value: real)
    requires CellsDone(t, x, m, y, was, base, p) && Cell(t, p) && IsPooled(t, x, m, p, value)
    ensures 0 <= Flat(p, t.middle.pooled, t.inner.pooled) < t.YStep() <= |y| - base
    ensures CellsDone(t, x, m, y[base + Flat(p, t.middle.pooled, t.inner.pooled) := value], was, base,
      Point(p.i, p.j, p.k + 1))
  {
    hide IsPooled, Pooling.YStep, Pooling.XStep, Flat, Cell;
    CellOffset(t, p);
    var n := Flat(p, t.middle.pooled, t.inner.pooled);
    var z := y[base + n := value];
    forall q | Cell(t, q) && Before(q, Point(p.i, p.j, p.k + 1))
      ensures IsPooled(t, x, m, q, CellOf(t, z[base..base + t.YStep()], q))
    {
      if q != p {
        assert Before(q, p);
        CellOffset(t, q);
        assert CellOf(t, z[base..base + t.YStep()], q) == CellOf(t, y[base..base + t.YStep()], q);
      }
    }
  }

  /** Nothing outside the cells of one channel differs. */
  ghost predicate OnlyChannel(t: Pooling, y: seq<real>, was: seq<real>, c: nat) {
    && |y| == |was|
    && forall n :: 0 <= n < |y| && !(c * t.YStep() <= n < c * t.YStep() + t.YStep()) ==> y[n] == was[n]
  }

  /** The end of a row or plane of cells is the start of the next. */
  lemma NextRow(t: Pooling, x: seq<real>, m: seq<int>, y: seq<real>, was: seq<real>, base: nat, a: Point, b: Point)
    requires CellsDone(t, x, m, y, was, base, a)
    requires || (a.k >= t.inner.pooled && b == Point(a.i, a.j + 1, 0))
             || (a.j >= t.middle.pooled && a.k == 0 && b == Point(a.i + 1, 0, 0))
    ensures CellsDone(t, x, m, y, was, base, b)
  {
    hide IsPooled, Pooling.YStep, Pooling.XStep, Flat, CellOf;
    assert forall q :: Cell(t, q) && Before(q, b) ==> Before(q, a);
  }

  /** All cells of a channel done: the channel is pooled and the rest of the buffer is as before. */
  lemma LastRow(t: Pooling, x: seq<real>, m: seq<int>, y: seq<real>, was: seq<real>, c: nat, channels: nat, p: Point)
    requires Fits(t, x, m, |y|, channels) && c < channels && c * t.YStep() >= 0
    requires CellsDone(t, InputOf(t, x, c, channels), MaskOf(t, m, c), y, was, c * t.YStep(), p)
    requires p.i >= t.outer.pooled || (p.i + 1 >= t.outer.pooled && p.j >= t.middle.pooled)
    ensures ChannelDone(t, x, m, y, c, channels) && OnlyChannel(t, y, was, c)
  {
    hide IsPooled, Pooling.YStep, Pooling.XStep, Flat, CellOf, Fits;
    assert forall q :: Cell(t, q) ==> Before(q, p);
  }

  lemma NoCellsDone(t: Pooling, x: seq<real>, m: seq<int>, y: seq<real>, c: nat, channels: nat)
    requires Fits(t, x, m, |y|, channels) && c < channels
    ensures 0 <= c * t.XStep() <= |x| - t.XStep()
    ensures 0 <= c * t.YStep() <= |y| - t.YStep()
    ensures x[c * t.XStep()..c * t.XStep() + t.XStep()] == InputOf(t, x, c, channels)
    ensures CellsDone(t, InputOf(t, x, c, channels), MaskOf(t, m, c), y, y, c * t.YStep(), Point(0, 0, 0))
    ensures t.maskChannels >= 1
    ensures forall p :: Cell(t, p) ==> CellReached(t, MaskOf(t, m, c), p)
    ensures t.rank < 3 ==> t.outer == UNIT
    ensures t.rank < 2 ==> t.middle == UNIT
  {
    CellsReached(t, m, c, channels);
    ChannelInBounds(c, channels, t.XStep());
    ChannelInBounds(c, channels, t.YStep());
  }

  method Channel3D(t: Pooling, X: seq<real>, M: seq<int>, Y: array<real>, c: nat, ghost channels: nat)
    requires t.rank == 3 && Fits(t, X, M, Y.Length, channels) && c < channels
    modifies Y
    ensures ChannelDone(t, X, M, Y[..], c, channels)
    ensures OnlyChannel(t, Y[..], old(Y[..]), c)
  {
    hide IsPooled, Pooling.XStep, Pooling.YStep, Flat, CellsDone, Fits, MaskOf, CellReached, Axis.Start, Axis.End,
      ChannelDone;
    NoCellsDone(t, X, M, Y[..], c, channels);
    var x := X[c * t.XStep()..c * t.XStep() + t.XStep()];
    var m := MaskOf(t, M, c);
    var base := c * t.YStep();
    ghost var was := Y[..];
    var ph := 0;
    while ph < t.outer.pooled
      invariant ph <= t.outer.pooled
      invariant CellsDone(t, x, m, Y[..], was, base, Point(ph, 0, 0))
    {
      var hstart, hend := t.outer.Start(ph), t.outer.End(ph);
      var pw := 0;
      while pw < t.middle.pooled
        invariant pw <= t.middle.pooled
        invariant CellsDone(t, x, m, Y[..], was, base, Point(ph, pw, 0))
      {
        var wstart, wend := t.middle.Start(pw), t.middle.End(pw);
        var pd := 0;
        while pd < t.inner.pooled
          invariant pd <= t.inner.pooled
          invariant CellsDone(t, x, m, Y[..], was, base, Point(ph, pw, pd))
        {
          var dstart, dend := t.inner.Start(pd), t.inner.End(pd);
          ghost var p := Point(ph, pw, pd);
          var y := PoolCell3D(t, x, m, p, hstart, hend, wstart, wend, dstart, dend);
          CellWritten(t, x, m, Y[..], was, base, p, y);
          var poolIndex := Flat(Point(ph, pw, pd), t.middle.pooled, t.inner.pooled);
          ghost var before := Y[..];
          Y[base + poolIndex] := y;
          assert Y[..] == before[base + poolIndex := y];
          pd := pd + 1;
        }
        NextRow(t, x, m, Y[..], was, base, Point(ph, pw, pd), Point(ph, pw + 1, 0));
        pw := pw + 1;
      }
      NextRow(t, x, m, Y[..], was, base, Point(ph, pw, 0), Point(ph + 1, 0, 0));
      ph := ph + 1;
    }
    LastRow(t, X, M, Y[..], was, c, channels, Point(ph, 0, 0));
  }

  method Channel2D(t: Pooling, X: seq<real>, M: seq<int>, Y: array<real>, c: nat, ghost channels: nat)
    requires t.rank == 2 && Fits(t, X, M, Y.Length, channels) && c < channels
    modifies Y
    ensures ChannelDone(t, X, M, Y[..], c, channels)
    ensures OnlyChannel(t, Y[..], old(Y[..]), c)
  {
    hide IsPooled, Pooling.XStep, Pooling.YStep, Flat, CellsDone, Fits, MaskOf, CellReached, Axis.Start, Axis.End,
      ChannelDone;
    NoCellsDone(t, X, M, Y[..], c, channels);
    var x := X[c * t.XStep()..c * t.XStep() + t.XStep()];
    var m := MaskOf(t, M, c);
    var base := c * t.YStep();
    ghost var was := Y[..];
    var ph := 0;
    while ph < t.middle.pooled
      invariant ph <= t.middle.pooled
      invariant CellsDone(t, x, m, Y[..], was, base, Point(0, ph, 0))
    {
      var hstart, hend := t.middle.Start(ph), t.middle.End(ph);
      var pw := 0;
      while pw < t.inner.pooled
        invariant pw <= t.inner.pooled
        invariant CellsDone(t, x, m, Y[..], was, base, Point(0, ph, pw))
      {
        var wstart, wend := t.inner.Start(pw), t.inner.End(pw);
        ghost var p := Point(0, ph, pw);
        var y := PoolCell2D(t, x, m, p, hstart, hend, wstart, wend);
        CellWritten(t, x, m, Y[..], was, base, p, y);
        FlatAt(p, t.middle.pooled, t.inner.pooled);
        var poolIndex := ph * t.inner.pooled + pw;
        ghost var before := Y[..];
        Y[base + poolIndex] := y;
        assert Y[..] == before[base + poolIndex := y];
        pw := pw + 1;
      }
      NextRow(t, x, m, Y[..], was, base, Point(0, ph, pw), Point(0, ph + 1, 0));
      ph := ph + 1;
    }
    LastRow(t, X, M, Y[..], was, c, channels, Point(0, ph, 0));
  }

  method Channel1D(t: Pooling, X: seq<real>, M: seq<int>, Y: array<real>, c: nat, ghost channels: nat)
    requires t.rank == 1 && Fits(t, X, M, Y.Length, channels) && c < channels
    modifies Y
    ensures ChannelDone(t, X, M, Y[..], c, channels)
    ensures OnlyChannel(t, Y[..], old(Y[..]), c)
  {
    hide IsPooled, Pooling.XStep, Pooling.YStep, Flat, CellsDone, Fits, MaskOf, CellReached, Axis.Start, Axis.End,
      ChannelDone;
    NoCellsDone(t, X, M, Y[..], c, channels);
    var x := X[c * t.XStep()..c * t.XStep() + t.XStep()];
    var m := MaskOf(t, M, c);
    var base := c * t.YStep();
    ghost var was := Y[..];
    var ph := 0;
    while ph < t.inner.pooled
      invariant ph <= t.inner.pooled
      invariant CellsDone(t, x, m, Y[..], was, base, Point(0, 0, ph))
    {
      var hstart, hend := t.inner.Start(ph), t.inner.End(ph);
      ghost var p := Point(0, 0, ph);
      var y := PoolCell1D(t, x, m, p, hstart, hend);
      CellWritten(t, x, m, Y[..], was, base, p, y);
      FlatAt(p, t.middle.pooled, t.inner.pooled);
      ghost var before := Y[..];
      Y[base + ph] := y;
      assert Y[..] == before[base + ph := y];
      ph := ph + 1;
    }
    NextRow(t, x, m, Y[..], was, base, Point(0, 0, ph), Point(0, 1, 0));
    LastRow(t, X, M, Y[..], was, c, channels, Point(0, 1, 0));
  }

  method Channel(t: Pooling, X: seq<real>, M: seq<int>, Y: array<real>, c: nat, ghost channels: nat)
    requires Fits(t, X, M, Y.Length, channels) && c < channels
    modifies Y
    ensures ChannelDone(t, X, M, Y[..], c, channels)
    ensures OnlyChannel(t, Y[..], old(Y[..]), c)
  {
    if t.rank == 1 {
      Channel1D(t, X, M, Y, c, channels);
    } else if t.rank == 2 {
      Channel2D(t, X, M, Y, c, channels);
    } else {
      Channel3D(t, X, M, Y, c, channels);
    }
  }

  lemma BufferLength(t: Pooling, x: seq<real>, m: seq<int>, yLength: nat, channels: nat)
    requires Fits(t, x, m, yLength, channels)
    ensures yLength == channels * t.YStep()
  {}

  lemma ChannelsApart(c: nat, d: nat, step: nat)
    requires c != d
    ensures c * step + step <= d * step || d * step + step <= c * step
  {
    if c < d {
      assert (c + 1) * step <= d * step;
    } else {
      assert (d + 1) * step <= c * step;
    }
  }

  /** Writing one channel leaves the others as they were. */
  lemma OtherChannelsStay(t: Pooling, x: seq<real>, m: seq<int>, y: seq<real>, was: seq<real>, c: nat, d: nat,
                          channels: nat)
    requires Fits(t, x, m, |y|, channels) && c < channels && d < channels && c != d
    requires OnlyChannel(t, y, was, c)
    ensures OutputOf(t, y, d, channels) == OutputOf(t, was, d, channels)
  {
    hide Pooling.YStep, Pooling.XStep, Fits;
    assert |y| == channels * t.YStep() by { BufferLength(t, x, m, |y|, channels); }
    ChannelInBounds(d, channels, t.YStep());
    ChannelsApart(c, d, t.YStep());
  }

  lemma DoneStays(t: Pooling, x: seq<real>, m: seq<int>, y: seq<real>, was: seq<real>, c: nat, d: nat, channels: nat)
    requires Fits(t, x, m, |y|, channels) && c < channels && d < channels && c != d
    requires OnlyChannel(t, y, was, c)
    ensures ChannelDone(t, x, m, was, d, channels) ==> ChannelDone(t, x, m, y, d, channels)
  {
    OtherChannelsStay(t, x, m, y, was, c, d, channels);
  }

  /** The channels of one range. */
  method ChannelRange(t: Pooling, X: seq<real>, M: seq<int>, Y: array<real>, begin: nat, end: nat, ghost channels: nat)
    requires Fits(t, X, M, Y.Length, channels) && begin <= end <= channels
    modifies Y
    ensures forall c :: begin <= c < end ==> ChannelDone(t, X, M, Y[..], c, channels)
    ensures forall c :: 0 <= c < channels && !(begin <= c < end) ==>
      OutputOf(t, Y[..], c, channels) == OutputOf(t, old(Y[..]), c, channels)
  {
    ghost var was := Y[..];
    assert |was| == channels * t.YStep();
    hide ChannelDone, OutputOf, Fits, OnlyChannel, Pooling.YStep;
    var c := begin;
    while c < end
      invariant begin <= c <= end
      invariant forall d :: begin <= d < c ==> ChannelDone(t, X, M, Y[..], d, channels)
      invariant forall d :: 0 <= d < channels && !(begin <= d < c) ==>
        OutputOf(t, Y[..], d, channels) == OutputOf(t, was, d, channels)
    {
      ghost var before := Y[..];
      Channel(t, X, M, Y, c, channels);
      forall d | 0 <= d < channels && d != c
        ensures OutputOf(t, Y[..], d, channels) == OutputOf(t, before, d, channels)
        ensures ChannelDone(t, X, M, before, d, channels) ==> ChannelDone(t, X, M, Y[..], d, channels)
      {
        OtherChannelsStay(t, X, M, Y[..], before, c, d, channels);
        DoneStays(t, X, M, Y[..], before, c, d, channels);
      }
      c := c + 1;
    }
  }

  predicate InRange(range: (nat, nat), c: int) {
    range.0 <= c < range.1
  }

  ghost predicate Covered(ranges: seq<(nat, nat)>, c: int) {
    exists i :: 0 <= i < |ranges| && InRange(ranges[i], c)
  }

  /** Ranges of channels, each within bounds and together all of them. */
  ghost predicate Covers(ranges: seq<(nat, nat)>, channels: nat) {
    && (forall i :: 0 <= i < |ranges| ==> ranges[i].0 <= ranges[i].1 <= channels)
    && (forall c :: 0 <= c < channels ==> Covered(ranges, c))
  }

  /** Whatever the ranges and their order, every channel ends up pooled. */
  method RunMaxpoolLoop(t: Pooling, X: seq<real>, M: seq<int>, Y: array<real>, ranges: seq<(nat, nat)>,
                        ghost channels: nat)
    requires Fits(t, X, M, Y.Length, channels) && Covers(ranges, channels)
    modifies Y
    ensures forall c :: 0 <= c < channels ==> ChannelDone(t, X, M, Y[..], c, channels)
  {
    hide ChannelDone, OutputOf, Pooling.YStep, Pooling.XStep;
    var i := 0;
    while i < |ranges|
      invariant 0 <= i <= |ranges|
      invariant forall j, c: nat :: 0 <= j < i && c < channels && InRange(ranges[j], c) ==>
        ChannelDone(t, X, M, Y[..], c, channels)
    {
      ghost var before := Y[..];
      ChannelRange(t, X, M, Y, ranges[i].0, ranges[i].1, channels);
      forall c: nat | c < channels && ChannelDone(t, X, M, before, c, channels)
        ensures ChannelDone(t, X, M, Y[..], c, channels)
      {
        if !InRange(ranges[i], c) {
          SameOutputSameDone(t, X, M, Y[..], before, c, channels);
        }
      }
      i := i + 1;
    }
    forall c: nat | c < channels
      ensures ChannelDone(t, X, M, Y[..], c, channels)
    {
      assert Covered(ranges, c);
    }
  }

  lemma SameOutputSameDone(t: Pooling, x: seq<real>, m: seq<int>, y: seq<real>, was: seq<real>, c: nat, channels: nat)
    requires Fits(t, x, m, |y|, channels) && |was| == |y| && c < channels
    requires OutputOf(t, y, c, channels) == OutputOf(t, was, c, channels)
    ensures ChannelDone(t, x, m, was, c, channels) <==> ChannelDone(t, x, m, y, c, channels)
  {
    hide OutputOf, InputOf;
  }

  lemma OutputAt(t: Pooling, y: seq<real>, c: nat, k: nat, channels: nat)
    requires |y| == channels * t.YStep() && c < channels && k < t.YStep()
    ensures 0 <= RowMajor(c, k, t.YStep()) < |y|
    ensures OutputOf(t, y, c, channels)[k] == y[RowMajor(c, k, t.YStep())]
  {
    hide Pooling.YStep;
    RowMajorInBounds(c, k, channels, t.YStep());
    ChannelInBounds(c, channels, t.YStep());
  }

  /** So the result does not depend on how the channels are split or in which order they run. */
  lemma OutputIsDetermined(t: Pooling, x: seq<real>, m: seq<int>, y: seq<real>, z: seq<real>, channels: nat)
    requires Fits(t, x, m, |y|, channels) && |z| == |y|
    requires forall c :: 0 <= c < channels ==>
      ChannelDone(t, x, m, y, c, channels) && ChannelDone(t, x, m, z, c, channels)
    ensures y == z
  {
    forall n | 0 <= n < |y|
      ensures y[n] == z[n]
    {
      var c, k := RowMajorIsOnto(n, channels, t.YStep());
      SameChannel(t, x, m, y, z, c, channels);
      hide OutputOf, ChannelDone, RowMajor, Pooling.YStep;
      OutputAt(t, y, c, k, channels);
      OutputAt(t, z, c, k, channels);
    }
  }

  lemma SameChannel(t: Pooling, x: seq<real>, m: seq<int>, y: seq<real>, z: seq<real>, c: nat, channels: nat)
    requires Fits(t, x, m, |y|, channels) && |z| == |y| && c < channels
    requires ChannelDone(t, x, m, y, c, channels) && ChannelDone(t, x, m, z, c, channels)
    ensures OutputOf(t, y, c, channels) == OutputOf(t, z, c, channels)
  {
    PooledChannelIsUnique(t, InputOf(t, x, c, channels), MaskOf(t, m, c),
      OutputOf(t, y, c, channels), OutputOf(t, z, c, channels));
  }

  // ----- The result in terms of the buffers

  /** Position of an element or cell in a buffer of whole channels of `d0 * d1 * d2` values. */
  function At(c: int, p: Point, d0: int, d1: int, d2: int): int {
    c * (d0 * d1 * d2) + (p.i * d1 + p.j) * d2 + p.k
  }

  /** The mask of channel `c`, which starts at `c` times the channel size modulo the number of mask channels. */
  predicate ZeroAt(t: Pooling, m: seq<int>, c: int, index: int)
    requires t.maskChannels >= 1
  {
    var start := c * (t.outer.extent * t.middle.extent * t.inner.extent) % t.maskChannels;
    0 <= index && start + index < |m| && m[start + index] == 0 && (index == 0 ==> t.rank == 1)
  }

  /** Element `e` counts for cell `p` of channel `c`: covered, with no zero of the mask up to it in its row. */
  ghost predicate Counts(t: Pooling, m: seq<int>, c: int, p: Point, e: Point)
    requires t.maskChannels >= 1
  {
    && Spans(t.outer, p.i, e.i) && Spans(t.middle, p.j, e.j) && Spans(t.inner, p.k, e.k)
    && forall l :: l <= e.k && Spans(t.inner, p.k, l) ==>
         !ZeroAt(t, m, c, (e.i * t.middle.extent + e.j) * t.inner.extent + l)
  }

  lemma CountsIff(t: Pooling, m: seq<int>, c: nat, p: Point, e: Point)
    requires t.maskChannels >= 1
    ensures Counts(t, m, c, p, e) <==> Seen(t, MaskOf(t, m, c), p, e)
  {
    SeenIff(t, MaskOf(t, m, c), p, e);
    hide Seen, Spans;
    var own := MaskOf(t, m, c);
    forall index: int
      ensures Closed(t, own, index) <==> ZeroAt(t, m, c, index)
    {
      assert MaskOffset(t, c) <= |m| && 0 <= index < |own| ==> own[index] == m[MaskOffset(t, c) + index];
    }
  }

  lemma ElementAt(t: Pooling, c: int, e: Point)
    requires Element(t, e)
    ensures At(c, e, t.outer.extent, t.middle.extent, t.inner.extent) == c * t.XStep() + Index(t, e)
  {
    FlatIsNested(e, t.middle.extent, t.inner.extent);
    hide InGrid;
  }

  lemma CellAt(t: Pooling, c: int, p: Point)
    ensures At(c, p, t.outer.pooled, t.middle.pooled, t.inner.pooled)
         == c * t.YStep() + Flat(p, t.middle.pooled, t.inner.pooled)
  {
    FlatIsNested(p, t.middle.pooled, t.inner.pooled);
  }

  lemma ElementPosition(t: Pooling, x: seq<real>, c: nat, channels: nat, e: Point)
    requires |x| == channels * t.XStep() && c < channels && Element(t, e)
    ensures 0 <= At(c, e, t.outer.extent, t.middle.extent, t.inner.extent) < |x|
    ensures InputOf(t, x, c, channels)[Index(t, e)] == x[At(c, e, t.outer.extent, t.middle.extent, t.inner.extent)]
  {
    hide At, Pooling.XStep, Flat;
    ElementAt(t, c, e);
    ChannelInBounds(c, channels, t.XStep());
  }

  lemma CellPosition(t: Pooling, y: seq<real>, c: nat, channels: nat, p: Point)
    requires |y| == channels * t.YStep() && c < channels && Cell(t, p)
    ensures 0 <= At(c, p, t.outer.pooled, t.middle.pooled, t.inner.pooled) < |y|
    ensures CellOf(t, OutputOf(t, y, c, channels), p) == y[At(c, p, t.outer.pooled, t.middle.pooled, t.inner.pooled)]
  {
    hide At, Pooling.YStep, Flat;
    CellAt(t, c, p);
    ChannelInBounds(c, channels, t.YStep());
    CellInStep(t, p);
  }

  lemma CellInStep(t: Pooling, p: Point)
    requires Cell(t, p)
    ensures 0 <= Flat(p, t.middle.pooled, t.inner.pooled) < t.YStep()
  {
    FlatInBounds(p, t.outer.pooled, t.middle.pooled, t.inner.pooled);
  }

  lemma CountedIsElement(t: Pooling, m: seq<int>, c: int, p: Point, e: Point)
    requires t.maskChannels >= 1 && Counts(t, m, c, p, e)
    ensures Element(t, e)
  {}

  /**
    What a pooled channel holds, in terms of the buffers alone: each cell is the largest of the elements
    that count for it, or the lowest number when that is larger or nothing counts.
  */
  lemma PooledCellMeans(t: Pooling, x: seq<real>, m: seq<int>, y: seq<real>, c: nat, channels: nat, p: Point)
    requires Fits(t, x, m, |y|, channels) && c < channels && ChannelDone(t, x, m, y, c, channels) && Cell(t, p)
    ensures 0 <= At(c, p, t.outer.pooled, t.middle.pooled, t.inner.pooled) < |y|
    ensures forall e :: Counts(t, m, c, p, e) ==>
      0 <= At(c, e, t.outer.extent, t.middle.extent, t.inner.extent) < |x|
    ensures var v := y[At(c, p, t.outer.pooled, t.middle.pooled, t.inner.pooled)];
      && LOWEST <= v
      && (forall e :: Counts(t, m, c, p, e) ==> x[At(c, e, t.outer.extent, t.middle.extent, t.inner.extent)] <= v)
      && (v == LOWEST || exists e :: Counts(t, m, c, p, e)
                           && x[At(c, e, t.outer.extent, t.middle.extent, t.inner.extent)] == v)
  {
    hide Counts, Seen, At, Pooling.XStep, Pooling.YStep, Index, CellOf, InputOf, OutputOf, MaskOf, ReadsInside,
      MaskOffset;
    var own := MaskOf(t, m, c);
    CellPosition(t, y, c, channels, p);
    forall e
      ensures Counts(t, m, c, p, e) <==> Seen(t, own, p, e)
      ensures Counts(t, m, c, p, e) ==>
        (Element(t, e)
         && 0 <= At(c, e, t.outer.extent, t.middle.extent, t.inner.extent) < |x|
         && InputOf(t, x, c, channels)[Index(t, e)] == x[At(c, e, t.outer.extent, t.middle.extent, t.inner.extent)])
    {
      CountsIff(t, m, c, p, e);
      if Counts(t, m, c, p, e) {
        CountedIsElement(t, m, c, p, e);
        ElementPosition(t, x, c, channels, e);
      }
    }
    assert IsPooled(t, InputOf(t, x, c, channels), own, p, CellOf(t, OutputOf(t, y, c, channels), p));
  }
}
