/** Scaling a constant tensor along its leading dimensions. */
module Initializers {
  import opened Grid

  function Product(dims: seq<nat>): nat {
    if dims == [] then 1 else dims[0] * Product(dims[1..])
  }

  /** An index vector into a tensor. */
  predicate InDims(index: seq<nat>, dims: seq<nat>) {
    |index| == |dims| && forall k :: 0 <= k < |dims| ==> index[k] < dims[k]
  }

  /** The row-major offset of an index vector. */
  function Offset(index: seq<nat>, dims: seq<nat>): nat
    requires |index| == |dims|
  {
    if dims == [] then 0 else index[0] * Product(dims[1..]) + Offset(index[1..], dims[1..])
  }

  lemma {:induction false} OffsetInBounds(index: seq<nat>, dims: seq<nat>)
    requires InDims(index, dims)
    ensures Offset(index, dims) < Product(dims)
  {
    if dims != [] {
      OffsetInBounds(index[1..], dims[1..]);
      RowMajorInBounds(index[0], Offset(index[1..], dims[1..]), dims[0], Product(dims[1..]));
    }
  }

  lemma ProductsRegroup(a: int, b: int, c: int, d: int)
    ensures a * (b * c) == (a * b) * c
    ensures a * (b * c) + d * c == (a * b + d) * c
  {
    assert (a * b + d) * c == (a * b) * c + d * c;
  }

  lemma {:induction false} ProductSplits(dims: seq<nat>, axis: nat)
    requires axis <= |dims|
    ensures Product(dims) == Product(dims[..axis]) * Product(dims[axis..])
  {
    if axis == 0 {
      assert dims[0..] == dims && dims[..0] == [];
    } else {
      ProductSplits(dims[1..], axis - 1);
      assert dims[..axis][1..] == dims[1..][..axis - 1] && dims[axis..] == dims[1..][axis - 1..];
      var lead, trail := Product(dims[1..][..axis - 1]), Product(dims[axis..]);
      ProductsRegroup(dims[0], lead, trail, 0);
    }
  }

  /** One step of the split: the first index and the leading part behind it, scaled together. */
  lemma LeadingOffset(index: seq<nat>, dims: seq<nat>, axis: nat)
    requires |index| == |dims| && 0 < axis <= |dims|
    ensures Offset(index[..axis], dims[..axis]) * Product(dims[axis..])
         == index[0] * Product(dims[1..])
           + Offset(index[1..][..axis - 1], dims[1..][..axis - 1]) * Product(dims[axis..])
  {
    assert dims[..axis][1..] == dims[1..][..axis - 1] && index[..axis][1..] == index[1..][..axis - 1];
    assert dims[1..][axis - 1..] == dims[axis..];
    ProductSplits(dims[1..], axis - 1);
    ProductsRegroup(index[0], Product(dims[1..][..axis - 1]), Product(dims[axis..]),
                    Offset(index[1..][..axis - 1], dims[1..][..axis - 1]));
  }

  /** The offset of an index is the offset of its leading part, scaled, plus that of its trailing part. */
  lemma {:induction false} OffsetSplits(index: seq<nat>, dims: seq<nat>, axis: nat)
    requires |index| == |dims| && axis <= |dims|
    ensures Offset(index, dims)
         == Offset(index[..axis], dims[..axis]) * Product(dims[axis..]) + Offset(index[axis..], dims[axis..])
  {
    hide Product;
    if axis == 0 {
      assert dims[0..] == dims && index[0..] == index;
    } else {
      OffsetSplits(index[1..], dims[1..], axis - 1);
      LeadingOffset(index, dims, axis);
      assert dims[1..][axis - 1..] == dims[axis..] && index[1..][axis - 1..] == index[axis..];
    }
  }

  class Initializer {
    const dims: seq<nat>
    const data: array<int>

    ghost predicate Valid() {
      data.Length == Product(dims)
    }

    /** A tensor of zeros. */
    constructor (dims: seq<nat>)
      ensures Valid() && this.dims == dims && fresh(data)
      ensures forall k :: 0 <= k < data.Length ==> data[k] == 0
    {
      this.dims := dims;
      data := new int[Product(dims)](_ => 0);
    }

    /** How many elements share one factor: those that differ from the axis on only. */
    function Block(axis: int): nat {
      if 0 <= axis <= |dims| then Product(dims[axis..]) else 1
    }

    ghost predicate CanScale(other: Initializer, axis: int) {
      && other.data != data
      && Block(axis) > 0
      && (other.data.Length == 1 || other.data.Length >= data.Length / Block(axis))
    }

    /** The number of elements from an axis on; an axis outside the tensor leaves one. */
    method BlockSize(axis: int) returns (num: nat)
      ensures num == Block(axis)
    {
      num := 1;
      if axis < 0 { return; } // wraps around to a huge unsigned start
      var k := axis;
      while k < |dims|
        invariant axis <= k && (axis <= |dims| ==> k <= |dims| && num * Product(dims[k..]) == Block(axis))
        invariant axis > |dims| ==> num == 1
      {
        assert dims[k..][1..] == dims[k + 1..];
        ProductsRegroup(num, dims[k], Product(dims[k + 1..]), 0);
        num := num * dims[k];
        k := k + 1;
      }
      assert axis <= |dims| ==> dims[k..] == [];
    }

    /** In place: each block of elements is multiplied by its own factor, every element once. */
    method ScaleByAxis(other: Initializer, axis: int)
      requires Valid() && CanScale(other, axis)
      modifies data
      ensures IsScaled(data[..], old(data[..]), other.data[..], Block(axis), data.Length)
    {
      hide RowMajor, Block;
      ghost var was, factors := data[..], other.data[..];
      var num := BlockSize(axis);
      BlocksFill(axis);
      var n := data.Length / num;
      FirstBlock(num);
      var i := 0;
      while i < n
        invariant 0 <= i <= n
        invariant IsScaled(data[..], was, factors, num, RowMajor(i, 0, num))
      {
        var index := if other.data.Length == 1 then 0 else i;
        NextBlock(i, n, num);
        var j := 0;
        while j < num
          invariant 0 <= j <= num
          invariant IsScaled(data[..], was, factors, num, RowMajor(i, 0, num) + j)
        {
          QuotientOf(i, j, num);
          var k := i * num + j;
          data[k] := data[k] * other.data[index];
          j := j + 1;
        }
        i := i + 1;
      }
      NextBlock(n, n + 1, num);
    }

    lemma BlocksFill(axis: int)
      requires Valid() && Block(axis) > 0
      ensures data.Length / Block(axis) * Block(axis) == data.Length
    {
      if 0 <= axis <= |dims| {
        ProductSplits(dims, axis);
        QuotientOf(Product(dims[..axis]), 0, Block(axis));
      }
    }
  }

  predicate HasFactor(factors: seq<int>, block: nat, k: nat) {
    block > 0 && (|factors| == 1 || k / block < |factors|)
  }

  /** The factor of the element at offset `k`. */
  function Factor(factors: seq<int>, block: nat, k: nat): int
    requires HasFactor(factors, block, k)
  {
    if |factors| == 1 then factors[0] else factors[k / block]
  }

  /** The elements before `end` are scaled, the others are as they were. */
  ghost predicate IsScaled(y: seq<int>, x: seq<int>, factors: seq<int>, block: nat, end: int) {
    && |y| == |x|
    && (forall k :: 0 <= k < end && k < |x| ==>
      HasFactor(factors, block, k) && y[k] == x[k] * Factor(factors, block, k))
    && (forall k :: 0 <= k < |x| && end <= k ==> y[k] == x[k])
  }

  lemma FirstBlock(num: nat)
    ensures RowMajor(0, 0, num) == 0
  {}

  lemma QuotientOf(i: nat, j: nat, num: nat)
    requires j < num
    ensures RowMajor(i, j, num) == RowMajor(i, 0, num) + j == i * num + j >= 0
    ensures (i * num + j) / num == i
  {
    var k := i * num + j;
    assert k >= 0;
    var r, s := k / num, k % num;
    if r < i {
      RowMajorFollowsOrder(r, s, i, j, num);
    } else if i < r {
      RowMajorFollowsOrder(i, j, r, s, num);
    }
  }

  lemma NextBlock(i: nat, n: nat, num: nat)
    requires i < n
    ensures RowMajor(i, 0, num) == i * num
    ensures RowMajor(i, 0, num) + num == RowMajor(i + 1, 0, num) <= n * num
  {
    assert (i + 1) * num <= n * num;
  }

  /**
    As broadcasting has it: the factor of an element is the one at the leading part of its index
    vector, whatever the trailing part.
  */
  lemma FactorIsBroadcast(dims: seq<nat>, axis: nat, index: seq<nat>, factors: seq<int>)
    requires InDims(index, dims) && axis <= |dims|
    requires Product(dims[axis..]) > 0 && (|factors| == 1 || |factors| == Product(dims[..axis]))
    ensures Offset(index, dims) < Product(dims) && Offset(index[..axis], dims[..axis]) < Product(dims[..axis])
    ensures HasFactor(factors, Product(dims[axis..]), Offset(index, dims))
    ensures Factor(factors, Product(dims[axis..]), Offset(index, dims))
         == factors[if |factors| == 1 then 0 else Offset(index[..axis], dims[..axis])]
  {
    OffsetInBounds(index, dims);
    OffsetInBounds(index[..axis], dims[..axis]);
    OffsetInBounds(index[axis..], dims[axis..]);
    OffsetSplits(index, dims, axis);
    QuotientOf(Offset(index[..axis], dims[..axis]), Offset(index[axis..], dims[axis..]), Product(dims[axis..]));
  }

  /**
    What scaling leaves behind, element by element: along any axis of the tensor, the element at an index
    vector is multiplied by the only factor or by the one at the leading part of the vector.
  */
  lemma ScaledMeans(t: Initializer, was: seq<int>, factors: seq<int>, axis: nat, index: seq<nat>)
    requires t.Valid() && axis <= |t.dims| && InDims(index, t.dims)
    requires |factors| == 1 || |factors| == Product(t.dims[..axis])
    requires t.Block(axis) > 0 && IsScaled(t.data[..], was, factors, t.Block(axis), t.data.Length)
    ensures 0 <= Offset(index, t.dims) < |was| == t.data.Length
    ensures |factors| != 1 ==> Offset(index[..axis], t.dims[..axis]) < |factors|
    ensures t.data[Offset(index, t.dims)] == was[Offset(index, t.dims)]
      * factors[if |factors| == 1 then 0 else Offset(index[..axis], t.dims[..axis])]
  {
    FactorIsBroadcast(t.dims, axis, index, factors);
    assert t.data[..][Offset(index, t.dims)] == t.data[Offset(index, t.dims)];
  }

  /** Outside the axes of the tensor every element has its own factor, or all have the only one. */
  lemma ScaledOutsideMeans(t: Initializer, was: seq<int>, factors: seq<int>, axis: int, k: nat)
    requires t.Valid() && (axis < 0 || axis > |t.dims|) && k < t.data.Length
    requires |factors| == 1 || |factors| >= t.data.Length
    requires IsScaled(t.data[..], was, factors, t.Block(axis), t.data.Length)
    ensures |was| == t.data.Length && t.data[k] == was[k] * factors[if |factors| == 1 then 0 else k]
  {
    assert t.data[..][k] == t.data[k];
  }
}
