/** Tensors of reals and what the operators of an attention layer do to them. */
module Tensors {
  import opened Initializers

  datatype RealTensor = RealTensor(dims: seq<nat>, data: seq<real>) {
    ghost predicate Valid() {
      |data| == Product(dims)
    }
  }

  /** The element at an index vector. */
  function Get(t: RealTensor, index: seq<nat>): real {
    if |index| == |t.dims| && Offset(index, t.dims) < |t.data| then t.data[Offset(index, t.dims)] else 0.0
  }

  lemma Nested(p: int, d: int, b: int, e: int, c: int)
    ensures (p * d + b) * e + c == p * (d * e) + (b * e + c)
    ensures p * (d * e) == p * d * e
  {
    assert (p * d + b) * e == p * d * e + b * e;
  }

  lemma Offset2(index: seq<nat>, dims: seq<nat>)
    requires |index| == |dims| == 2
    ensures Offset(index, dims) == index[0] * dims[1] + index[1] && Product(dims) == dims[0] * dims[1]
  {
    assert dims[1..][1..] == [] && index[1..][1..] == [];
    assert Product(dims[1..][1..]) == 1 && Offset(index[1..][1..], dims[1..][1..]) == 0;
    assert Product(dims[1..]) == dims[1] && Offset(index[1..], dims[1..]) == index[1];
  }

  lemma Offset3(index: seq<nat>, dims: seq<nat>)
    requires |index| == |dims| == 3
    ensures Offset(index, dims) == (index[0] * dims[1] + index[1]) * dims[2] + index[2]
    ensures Product(dims) == dims[0] * dims[1] * dims[2]
  {
    Offset2(index[1..], dims[1..]);
    Nested(index[0], dims[1], index[1], dims[2], index[2]);
    Nested(dims[0], dims[1], 0, dims[2], 0);
  }

  lemma Offset4(index: seq<nat>, dims: seq<nat>)
    requires |index| == |dims| == 4
    ensures Offset(index, dims) == ((index[0] * dims[1] + index[1]) * dims[2] + index[2]) * dims[3] + index[3]
    ensures Product(dims) == dims[0] * dims[1] * dims[2] * dims[3]
  {
    Offset3(index[1..], dims[1..]);
    var p, d, e, f := index[0], dims[1], dims[2], dims[3];
    Nested4(p, d, index[1], e, index[2], f, index[3]);
    Nested4(dims[0], d, 0, e, 0, f, 0);
  }

  lemma Nested4(p: int, d: int, b: int, e: int, c: int, f: int, g: int)
    ensures ((p * d + b) * e + c) * f + g == p * (d * e * f) + ((b * e + c) * f + g)
    ensures p * (d * e * f) == p * d * e * f
  {
    Nested(p, d, b, e, c);
    Nested(p, d * e, b * e + c, f, g);
    Nested(p, d, 0, e, 0);
  }

  // ----- Sums

  function Sum(n: nat, f: nat -> real): real {
    if n == 0 then 0.0 else Sum(n - 1, f) + f(n - 1)
  }

  lemma {:induction false} SameSum(n: nat, f: nat -> real, g: nat -> real)
    requires forall k :: 0 <= k < n ==> f(k) == g(k)
    ensures Sum(n, f) == Sum(n, g)
  {
    if n > 0 {
      SameSum(n - 1, f, g);
    }
  }

  // ----- Operators

  /** `y` is `x` with its axes in the order of `perm`. */
  ghost predicate IsTranspose(x: RealTensor, y: RealTensor, perm: seq<int>) {
    && |x.dims| == |y.dims| == |perm|
    && (forall k :: 0 <= k < |perm| ==> 0 <= perm[k] < |perm|)
    && (forall k :: 0 <= k < |perm| ==> y.dims[k] == x.dims[perm[k]])
    && (forall index :: InDims(index, x.dims) ==> Get(y, Picked(index, perm)) == Get(x, index))
  }

  function Picked(index: seq<nat>, perm: seq<int>): seq<nat>
    requires |index| == |perm| && forall k :: 0 <= k < |perm| ==> 0 <= perm[k] < |perm|
  {
    seq(|perm|, k requires 0 <= k < |perm| => index[perm[k]])
  }

  /** `y` is `x` read in another shape: zero keeps a dimension, and one of them may be left open by -1. */
  ghost predicate IsReshape(x: RealTensor, y: RealTensor, target: seq<int>) {
    && y.data == x.data && Product(y.dims) == Product(x.dims)
    && |y.dims| == |target|
    && (forall k :: 0 <= k < |target| ==> target[k] >= -1)
    && (forall k :: 0 <= k < |target| && target[k] == 0 ==> k < |x.dims| && y.dims[k] == x.dims[k])
    && (forall k :: 0 <= k < |target| && target[k] > 0 ==> y.dims[k] == target[k])
    && (forall j, k :: 0 <= j < k < |target| ==> target[j] != -1 || target[k] != -1)
  }

  /** A bound of a slice: counted from the end if negative, and kept inside the axis. */
  function Clamped(bound: int, n: nat): (c: nat)
    ensures c <= n
  {
    var b := if bound < 0 then bound + n else bound;
    if b < 0 then 0 else if b > n then n else b
  }

  function SliceOf<T>(xs: seq<T>, start: int, end: int): seq<T> {
    var s, e := Clamped(start, |xs|), Clamped(end, |xs|);
    if s <= e then xs[s..e] else []
  }

  /** `y` is `x` cut down along one axis. */
  ghost predicate IsSlice(x: RealTensor, y: RealTensor, start: int, end: int, axis: nat) {
    && axis < |x.dims| == |y.dims|
    && (forall k :: 0 <= k < |x.dims| && k != axis ==> y.dims[k] == x.dims[k])
    && var s, e := Clamped(start, x.dims[axis]), Clamped(end, x.dims[axis]);
    && y.dims[axis] == (if s <= e then e - s else 0)
    && (forall index :: InDims(index, y.dims) ==> Get(y, index) == Get(x, index[axis := index[axis] + s]))
  }

  /** `x` holds scores of four dimensions, and `c` applies to the two last of them. */
  ghost predicate CoversScores(c: RealTensor, x: RealTensor) {
    |x.dims| == 4 && |c.dims| == 4 && c.dims[..2] == [1, 1] && c.dims[2..] == x.dims[2..]
  }

  /** `y` is `x` where `c` is not zero, and `other` elsewhere. */
  ghost predicate IsWhere(c: RealTensor, x: RealTensor, other: real, y: RealTensor)
    requires CoversScores(c, x)
  {
    && y.dims == x.dims
    && (forall index :: InDims(index, x.dims) ==>
          Get(y, index) == if Get(c, [0, 0, index[2], index[3]]) != 0.0 then Get(x, index) else other)
  }

  /** `z` is the product of `x` and `y` in each of their matrices. */
  ghost predicate IsMatMul(x: RealTensor, y: RealTensor, z: RealTensor)
    requires |x.dims| == |y.dims| == 4
  {
    && x.dims[..2] == y.dims[..2] && x.dims[3] == y.dims[2]
    && z.dims == [x.dims[0], x.dims[1], x.dims[2], y.dims[3]]
    && (forall index :: InDims(index, z.dims) ==>
          Get(z, index) == Sum(x.dims[3], (k: nat) =>
            Get(x, [index[0], index[1], index[2], k]) * Get(y, [index[0], index[1], k, index[3]])))
  }

  /** `y` is `x` with its elements changed one by one. */
  ghost predicate IsMap(x: RealTensor, y: RealTensor, f: real -> real) {
    y.dims == x.dims && forall index :: InDims(index, x.dims) ==> Get(y, index) == f(Get(x, index))
  }

  /** `z` is `x` plus `y`, where `y` has one matrix of one row for each of the outermost parts of `x`. */
  ghost predicate IsRowAdd(x: RealTensor, y: RealTensor, z: RealTensor)
    requires |x.dims| == 4
  {
    && y.dims == [x.dims[0], 1, 1, x.dims[3]] && z.dims == x.dims
    && (forall index :: InDims(index, x.dims) ==> Get(z, index) == Get(x, index) + Get(y, [index[0], 0, 0, index[3]]))
  }

  /** The last axis through `index`. */
  function RowAt(t: RealTensor, a: nat, b: nat, c: nat): seq<real>
    requires |t.dims| == 4
  {
    seq(t.dims[3], (k: nat) => Get(t, [a, b, c, k]))
  }

  /** `z` is `x` and `y` put together along one axis. */
  ghost predicate IsConcat(x: RealTensor, y: RealTensor, z: RealTensor, axis: nat) {
    && axis < |x.dims| == |y.dims| == |z.dims|
    && (forall k :: 0 <= k < |x.dims| && k != axis ==> x.dims[k] == y.dims[k] == z.dims[k])
    && z.dims[axis] == x.dims[axis] + y.dims[axis]
    && (forall index :: InDims(index, z.dims) ==>
          Get(z, index) == if index[axis] < x.dims[axis] then Get(x, index)
                           else Get(y, index[axis := index[axis] - x.dims[axis]]))
  }

  /** `y` is part `k` of `x` along the first axis. */
  ghost predicate IsGather(x: RealTensor, y: RealTensor, k: nat) {
    && |x.dims| > 0 && k < x.dims[0] && y.dims == x.dims[1..]
    && forall index :: InDims(index, y.dims) ==> Get(y, index) == Get(x, [k] + index)
  }

  /** `y` is `x` with a new axis of length one. */
  ghost predicate IsUnsqueeze(x: RealTensor, y: RealTensor, axis: nat) {
    && axis <= |x.dims| && y.dims == x.dims[..axis] + [1] + x.dims[axis..]
    && forall index :: InDims(index, x.dims) ==> Get(y, index[..axis] + [0] + index[axis..]) == Get(x, index)
  }

  /** `y` is `x` times `w` plus `bias`, row by row. */
  ghost predicate IsLinear(x: RealTensor, w: RealTensor, bias: RealTensor, y: RealTensor)
    requires |x.dims| == |w.dims| == 2 && |bias.dims| == 1
  {
    && x.dims[1] == w.dims[0] && w.dims[1] == bias.dims[0] && y.dims == [x.dims[0], w.dims[1]]
    && forall index :: InDims(index, y.dims) ==>
         Get(y, index) == Sum(x.dims[1], (k: nat) => Get(x, [index[0], k]) * Get(w, [k, index[1]]))
                          + Get(bias, [index[1]])
  }

  /** `y` is part `k` of three equal parts of the last of three dimensions. */
  ghost predicate IsThird(x: RealTensor, y: RealTensor, k: nat)
    requires |x.dims| == 3
  {
    && |y.dims| == 3 && y.dims[..2] == x.dims[..2] && x.dims[2] == 3 * y.dims[2]
    && forall index :: InDims(index, y.dims) ==>
         Get(y, index) == Get(x, [index[0], index[1], k * y.dims[2] + index[2]])
  }

  // ----- Ranks

  lemma SliceRank(x: RealTensor, y: RealTensor, start: int, end: int, axis: nat)
    requires IsSlice(x, y, start, end, axis)
    ensures |y.dims| == |x.dims|
  {}

  lemma UnsqueezeRank(x: RealTensor, y: RealTensor, axis: nat)
    requires IsUnsqueeze(x, y, axis)
    ensures |y.dims| == |x.dims| + 1
  {}

  lemma TransposeRank(x: RealTensor, y: RealTensor, perm: seq<int>)
    requires IsTranspose(x, y, perm)
    ensures |x.dims| == |y.dims| == |perm|
  {}

  lemma GatherRank(x: RealTensor, y: RealTensor, k: nat)
    requires IsGather(x, y, k)
    ensures |x.dims| == |y.dims| + 1
  {}
}
