/** Cropping the two last dimensions of a four-dimensional tensor. */
module Crop {
  import opened Grid
  import opened Wrappers

  /** A tensor shape, the two outer dimensions taken together as planes. */
  datatype Shape = Shape(planes: nat, height: nat, width: nat) {
    function Size(): nat {
      planes * height * width
    }
  }

  /** A border of any length (left, top, right, bottom when it is four) and an optional height and width. */
  datatype Attributes = Attributes(border: seq<int>, scale: Option<(int, int)>) {
    /** First row and column behind the cropped region. */
    function Limits(s: Shape): (int, int)
      requires |border| == 4
    {
      match scale
      case Some((h, w)) => (border[1] + h, border[0] + w)
      case None => (s.height - border[3], s.width - border[2])
    }

    /** No negative number among the attributes that are used. */
    predicate NonNegative()
      requires |border| == 4
    {
      && border[0] >= 0 && border[1] >= 0
      && match scale
         case Some((h, w)) => h >= 0 && w >= 0
         case None => border[2] >= 0 && border[3] >= 0
    }
  }

  /** The checks of the kernel, for an input of `rank` dimensions. */
  predicate ValidateInput(a: Attributes, rank: nat, s: Shape) {
    && |a.border| == 4
    && rank == 4
    && s.height >= a.border[1] + a.border[3]
    && s.width >= a.border[0] + a.border[2]
    && (a.scale.Some? ==> s.height >= a.border[1] + a.scale.value.0)
    && (a.scale.Some? ==> s.width >= a.border[0] + a.scale.value.1)
  }

  /** The output has no negative dimension. */
  predicate HasShape(a: Attributes, s: Shape) {
    |a.border| == 4 && a.border[1] <= a.Limits(s).0 && a.border[0] <= a.Limits(s).1
  }

  /** The checks let a negative scale pass, which gives the output a negative dimension; nothing else does. */
  lemma AcceptedCropHasShapeIff(a: Attributes, s: Shape)
    requires ValidateInput(a, 4, s)
    ensures HasShape(a, s) <==> (a.scale.Some? ==> a.scale.value.0 >= 0 && a.scale.value.1 >= 0)
  {}

  lemma NegativeScaleHasNoShape()
    ensures var a, s := Attributes([0, 0, 0, 0], Some((-1, 1))), Shape(1, 2, 2);
      ValidateInput(a, 4, s) && !HasShape(a, s)
  {}

  /** The shape of the output. */
  function OutputShape(a: Attributes, s: Shape): (out: Shape)
    requires HasShape(a, s)
    ensures out.planes == s.planes
  {
    Shape(s.planes, a.Limits(s).0 - a.border[1], a.Limits(s).1 - a.border[0])
  }

  /** A scale is the size that is kept; without one the borders are what is lost. */
  lemma OutputShapeMeans(a: Attributes, s: Shape)
    requires ValidateInput(a, 4, s) && HasShape(a, s)
    ensures OutputShape(a, s).planes == s.planes
    ensures a.scale.Some? ==>
      OutputShape(a, s).height == a.scale.value.0 && OutputShape(a, s).width == a.scale.value.1
    ensures a.scale.None? ==>
      && OutputShape(a, s).height + a.border[1] + a.border[3] == s.height
      && OutputShape(a, s).width + a.border[0] + a.border[2] == s.width
  {}

  ghost predicate InShape(p: Point, s: Shape) {
    InGrid(p, s.planes, s.height, s.width)
  }

  ghost function At<T>(data: seq<T>, s: Shape, p: Point): T
    requires |data| == s.Size() && InShape(p, s)
  {
    FlatInBounds(p, s.planes, s.height, s.width);
    data[Flat(p, s.height, s.width)]
  }

  function Shift(p: Point, top: int, left: int): Point {
    Point(p.i, p.j + top, p.k + left)
  }

  /** `y` is `x` cut down to the shape `out` from row `top` and column `left` on. */
  ghost predicate IsCrop<T>(x: seq<T>, s: Shape, top: int, left: int, y: seq<T>, out: Shape) {
    && |x| == s.Size() && |y| == out.Size()
    && (forall p :: InShape(p, out) ==> InShape(Shift(p, top, left), s))
    && (forall p :: InShape(p, out) ==> At(y, out, p) == At(x, s, Shift(p, top, left)))
  }

  lemma CropIsUnique<T>(x: seq<T>, s: Shape, top: int, left: int, y: seq<T>, z: seq<T>, out: Shape)
    requires IsCrop(x, s, top, left, y, out) && IsCrop(x, s, top, left, z, out)
    ensures y == z
  {
    forall n | 0 <= n < |y|
      ensures y[n] == z[n]
    {
      var p := FlatIsOnto(n, out.planes, out.height, out.width);
      assert At(y, out, p) == y[n] && At(z, out, p) == z[n];
    }
  }

  /** Two crops in a row are one crop. */
  lemma CropsAdd<T>(x: seq<T>, s: Shape, top: int, left: int, y: seq<T>, t: Shape,
                    top': int, left': int, z: seq<T>, u: Shape)
    requires IsCrop(x, s, top, left, y, t) && IsCrop(y, t, top', left', z, u)
    ensures IsCrop(x, s, top + top', left + left', z, u)
  {
    hide At, InShape, Shape.Size;
    forall p | InShape(p, u)
      ensures InShape(Shift(p, top + top', left + left'), s)
      ensures At(z, u, p) == At(x, s, Shift(p, top + top', left + left'))
    {
      var q := Shift(p, top', left');
      assert At(z, u, p) == At(y, t, q) == At(x, s, Shift(q, top, left));
      assert Shift(q, top, left) == Shift(p, top + top', left + left');
    }
  }

  /** Cropping by one border and then another is cropping by their sum, output shape included. */
  lemma BorderCropsAdd<T>(x: seq<T>, s: Shape, a: Attributes, y: seq<T>, b: Attributes, z: seq<T>, ab: Attributes)
    requires a.scale == b.scale == ab.scale == None
    requires ValidateInput(a, 4, s) && a.NonNegative()
    requires IsCrop(x, s, a.border[1], a.border[0], y, OutputShape(a, s))
    requires ValidateInput(b, 4, OutputShape(a, s)) && b.NonNegative()
    requires IsCrop(y, OutputShape(a, s), b.border[1], b.border[0], z, OutputShape(b, OutputShape(a, s)))
    requires |ab.border| == 4 && forall k :: 0 <= k < 4 ==> ab.border[k] == a.border[k] + b.border[k]
    ensures ValidateInput(ab, 4, s) && ab.NonNegative()
    ensures OutputShape(ab, s) == OutputShape(b, OutputShape(a, s))
    ensures IsCrop(x, s, ab.border[1], ab.border[0], z, OutputShape(ab, s))
  {
    CropsAdd(x, s, a.border[1], a.border[0], y, OutputShape(a, s), b.border[1], b.border[0], z,
      OutputShape(b, OutputShape(a, s)));
    hide IsCrop;
  }

  /** The rows and columns the loops visit. */
  predicate Visited(a: Attributes, s: Shape, h: int, w: int)
    requires |a.border| == 4
  {
    a.border[1] <= h < a.Limits(s).0 && a.border[0] <= w < a.Limits(s).1
  }

  /** The loops read cells of the input only. */
  ghost predicate StaysInside(a: Attributes, s: Shape)
    requires |a.border| == 4
  {
    forall h, w :: Visited(a, s, h, w) ==> 0 <= h < s.height && 0 <= w < s.width
  }

  /** The checks let negative attributes pass: here the loops start in front of the first row. */
  lemma NegativeBorderLeavesInput()
    ensures var a, s := Attributes([0, -1, 0, 1], None), Shape(1, 2, 2);
      ValidateInput(a, 4, s) && HasShape(a, s) && !StaysInside(a, s)
  {
    assert Visited(Attributes([0, -1, 0, 1], None), Shape(1, 2, 2), -1, 0);
  }

  /** An accepted crop stays inside the input exactly if it keeps nothing or no attribute in use is negative. */
  lemma AcceptedCropStaysInside(a: Attributes, s: Shape)
    requires ValidateInput(a, 4, s)
    ensures StaysInside(a, s)
       <==> (a.Limits(s).0 <= a.border[1] || a.Limits(s).1 <= a.border[0] || a.NonNegative())
  {
    if a.border[1] < a.Limits(s).0 && a.border[0] < a.Limits(s).1 {
      assert Visited(a, s, a.border[1], a.border[0]);
      assert Visited(a, s, a.Limits(s).0 - 1, a.Limits(s).1 - 1);
    }
  }

  /** Cells before `p` are copied. */
  ghost predicate Copied<T>(x: seq<T>, s: Shape, top: int, left: int, y: seq<T>, out: Shape, p: Point) {
    && |x| == s.Size() && |y| == out.Size()
    && (forall q :: InShape(q, out) ==> InShape(Shift(q, top, left), s))
    && (forall q :: InShape(q, out) && Before(q, p) ==> At(y, out, q) == At(x, s, Shift(q, top, left)))
  }

  lemma CellCopied<T>(x: seq<T>, s: Shape, top: int, left: int, y: seq<T>, out: Shape, p: Point)
    requires Copied(x, s, top, left, y, out, p) && InShape(p, out)
    ensures 0 <= Flat(Shift(p, top, left), s.height, s.width) < |x|
    ensures 0 <= Flat(p, out.height, out.width) < |y|
    ensures var y' := y[Flat(p, out.height, out.width) := x[Flat(Shift(p, top, left), s.height, s.width)]];
      Copied(x, s, top, left, y', out, Point(p.i, p.j, p.k + 1))
  {
    hide Flat, Shape.Size;
    Offset(p, out);
    Offset(Shift(p, top, left), s);
    var n := Flat(p, out.height, out.width);
    var z := y[n := x[Flat(Shift(p, top, left), s.height, s.width)]];
    forall q | InShape(q, out) && Before(q, Point(p.i, p.j, p.k + 1))
      ensures At(z, out, q) == At(x, s, Shift(q, top, left))
    {
      if q != p {
        assert Before(q, p);
        Offset(q, out);
        assert At(z, out, q) == At(y, out, q);
      }
    }
  }

  lemma Offset(p: Point, s: Shape)
    requires InShape(p, s)
    ensures 0 <= Flat(p, s.height, s.width) < s.Size()
    ensures forall q :: InShape(q, s) && Before(q, p) ==> Flat(q, s.height, s.width) < Flat(p, s.height, s.width)
  {
    FlatInBounds(p, s.planes, s.height, s.width);
    forall q | InShape(q, s) && Before(q, p) {
      FlatFollowsOrder(q, p, s.planes, s.height, s.width);
    }
  }

  lemma FlatCounts(p: Point, d1: nat, d2: nat)
    ensures Flat(Point(p.i, p.j, p.k + 1), d1, d2) == Flat(p, d1, d2) + 1
    ensures p.k == d2 ==> Flat(p, d1, d2) == Flat(Point(p.i, p.j + 1, 0), d1, d2)
    ensures p.j == d1 && p.k == 0 ==> Flat(p, d1, d2) == Flat(Point(p.i + 1, 0, 0), d1, d2)
  {
    var rows := p.i * d1;
    assert (p.i + 1) * d1 == rows + d1;
    assert (rows + d1) * d2 == rows * d2 + d1 * d2;
    assert (p.j + 1) * d2 == p.j * d2 + d2;
  }

  lemma NextRow<T>(x: seq<T>, s: Shape, top: int, left: int, y: seq<T>, out: Shape, p: Point, q: Point)
    requires Copied(x, s, top, left, y, out, p)
    requires || (p.k == out.width && q == Point(p.i, p.j + 1, 0))
             || (p.j == out.height && p.k == 0 && q == Point(p.i + 1, 0, 0))
    ensures Copied(x, s, top, left, y, out, q)
    ensures Flat(p, out.height, out.width) == Flat(q, out.height, out.width)
  {
    FlatCounts(p, out.height, out.width);
    hide At, Flat, Shape.Size;
    assert forall r :: InShape(r, out) && Before(r, q) ==> Before(r, p);
  }

  /** The offset of a source row, as the loops add it up. */
  lemma SourceOffset(n: int, c: int, h: int, w: int, channels: nat, height: nat, width: nat)
    ensures n * (channels * (height * width)) + c * (height * width) + h * width + w
         == Flat(Point(n * channels + c, h, w), height, width)
  {
    var plane := height * width;
    assert (n * channels + c) * height * width == (n * channels + c) * plane;
    assert (n * channels + c) * plane == n * channels * plane + c * plane;
    assert n * channels * plane == n * (channels * plane);
  }

  lemma PlaneInShape(n: nat, c: nat, batch: nat, channels: nat)
    requires n < batch && c < channels
    ensures n * channels + c < batch * channels
  {
    RowMajorInBounds(n, c, batch, channels);
  }

  lemma AllCopied<T>(x: seq<T>, s: Shape, top: int, left: int, y: seq<T>, out: Shape, p: Point)
    requires Copied(x, s, top, left, y, out, p) && p.i >= out.planes
    ensures IsCrop(x, s, top, left, y, out)
  {
    hide At, Shape.Size;
    assert forall q :: InShape(q, out) ==> Before(q, p);
  }

  /** The two inner loops: one plane, read from `source` on and written from `dest` on. */
  method CopyPlane<T>(X: seq<T>, s: Shape, a: Attributes, Y: array<T>, dest: int, source: int,
                      ghost n: nat, ghost c: nat, ghost channels: nat) returns (destIdx: int)
    requires HasShape(a, s)
    requires n * channels + c < s.planes
    requires Copied(X, s, a.border[1], a.border[0], Y[..], OutputShape(a, s), Point(n * channels + c, 0, 0))
    requires dest == Flat(Point(n * channels + c, 0, 0), OutputShape(a, s).height, OutputShape(a, s).width)
    requires source == n * (channels * (s.height * s.width)) + c * (s.height * s.width)
    modifies Y
    ensures Copied(X, s, a.border[1], a.border[0], Y[..], OutputShape(a, s), Point(n * channels + c + 1, 0, 0))
    ensures destIdx == Flat(Point(n * channels + c + 1, 0, 0), OutputShape(a, s).height, OutputShape(a, s).width)
  {
    hide Flat, Copied, Shape.Size;
    var top, left, bottomLimit, rightLimit := a.border[1], a.border[0], a.Limits(s).0, a.Limits(s).1;
    ghost var i, out := n * channels + c, OutputShape(a, s);
    destIdx := dest;
    var h := top;
    while h < bottomLimit
      invariant top <= h <= bottomLimit
      invariant Copied(X, s, top, left, Y[..], out, Point(i, h - top, 0))
      invariant destIdx == Flat(Point(i, h - top, 0), out.height, out.width)
    {
      var row := source + h * s.width;
      var w := left;
      while w < rightLimit
        invariant left <= w <= rightLimit
        invariant Copied(X, s, top, left, Y[..], out, Point(i, h - top, w - left))
        invariant destIdx == Flat(Point(i, h - top, w - left), out.height, out.width)
      {
        ghost var p, before := Point(i, h - top, w - left), Y[..];
        SourceOffset(n, c, h, w, channels, s.height, s.width);
        CellCopied(X, s, top, left, Y[..], out, p);
        FlatCounts(p, out.height, out.width);
        var sourceIdx := row + w;
        Y[destIdx] := X[sourceIdx];
        assert Y[..] == before[destIdx := X[sourceIdx]];
        destIdx := destIdx + 1;
        w := w + 1;
      }
      NextRow(X, s, top, left, Y[..], out, Point(i, h - top, w - left), Point(i, h - top + 1, 0));
      h := h + 1;
    }
    NextRow(X, s, top, left, Y[..], out, Point(i, h - top, 0), Point(i + 1, 0, 0));
  }

  lemma NothingCopied<T>(x: seq<T>, s: Shape, a: Attributes, y: seq<T>)
    requires HasShape(a, s) && StaysInside(a, s)
    requires |x| == s.Size() && |y| == OutputShape(a, s).Size()
    ensures Copied(x, s, a.border[1], a.border[0], y, OutputShape(a, s), Point(0, 0, 0))
    ensures Flat(Point(0, 0, 0), OutputShape(a, s).height, OutputShape(a, s).width) == 0
  {
    hide Shape.Size;
    forall q | InShape(q, OutputShape(a, s))
      ensures InShape(Shift(q, a.border[1], a.border[0]), s)
    {
      assert Visited(a, s, q.j + a.border[1], q.k + a.border[0]);
    }
  }

  /** The kernel: for an input that passes the checks, the output array is filled from its first cell to its last. */
  method Compute<T(0)>(X: seq<T>, rank: nat, batch: nat, channels: nat, s: Shape, a: Attributes)
    returns (result: Option<array<T>>)
    requires s.planes == batch * channels && |X| == s.Size()
    requires ValidateInput(a, rank, s) ==> HasShape(a, s) && StaysInside(a, s)
    ensures result.Some? <==> ValidateInput(a, rank, s)
    ensures result.Some? ==> fresh(result.value)
    ensures result.Some? ==> IsCrop(X, s, a.border[1], a.border[0], result.value[..], OutputShape(a, s))
  {
    hide Flat, Copied, IsCrop, Shape.Size, StaysInside;
    if !ValidateInput(a, rank, s) { return None; }
    ghost var out := OutputShape(a, s);
    var Y := new T[OutputShape(a, s).Size()];
    var destIdx := 0;
    var HW := s.height * s.width;
    var CHW := channels * HW;
    NothingCopied(X, s, a, Y[..]);
    var n := 0;
    while n < batch
      invariant n <= batch
      invariant Copied(X, s, a.border[1], a.border[0], Y[..], out, Point(n * channels, 0, 0))
      invariant destIdx == Flat(Point(n * channels, 0, 0), out.height, out.width)
    {
      var nCHW := n * CHW;
      var c := 0;
      while c < channels
        invariant c <= channels
        invariant Copied(X, s, a.border[1], a.border[0], Y[..], out, Point(n * channels + c, 0, 0))
        invariant destIdx == Flat(Point(n * channels + c, 0, 0), out.height, out.width)
      {
        PlaneInShape(n, c, batch, channels);
        destIdx := CopyPlane(X, s, a, Y, destIdx, nCHW + c * HW, n, c, channels);
        c := c + 1;
      }
      NextPlane(n, channels);
      n := n + 1;
    }
    AllCopied(X, s, a.border[1], a.border[0], Y[..], out, Point(n * channels, 0, 0));
    return Some(Y);
  }

  lemma NextPlane(n: nat, channels: nat)
    ensures n * channels + channels == (n + 1) * channels
  {}
}
