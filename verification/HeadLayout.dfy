/**
  How heads are laid out: the constants and permutations the fusion checks make every head own a run of
  columns of the projected query, key and value, and put the heads side by side again at the end.
*/
module HeadLayout {
  import opened Wrappers
  import opened GraphModel
  import opened GraphFacts
  import opened GemmMatch
  import opened GemmClosure
  import opened UnidirMatch
  import opened UnidirClosure
  import opened MaskMatch
  import opened PathChecks
  import opened FusionMatch
  import opened FusionFacts
  import opened Initializers
  import opened Tensors
  import opened GraphValues
  import opened CausalMask

  /** Batch, sequence and head dimensions. */
  datatype Sizes = Sizes(batch: nat, length: nat, heads: nat, headSize: nat) {
    predicate Positive() {
      batch > 0 && length > 0 && heads > 0
    }
  }

  /** Column `h` of head `n`. */
  function Column(n: int, h: int, headSize: int): int {
    n * headSize + h
  }

  predicate InSizes(z: Sizes, b: nat, n: nat, s: nat, h: nat) {
    b < z.batch && n < z.heads && s < z.length && h < z.headSize
  }

  /** Element `h` of head `n` in row `s` of `x`. */
  function HeadOf(x: RealTensor, z: Sizes, b: nat, n: nat, s: nat, h: nat): real {
    var c := Column(n, h, z.headSize);
    if c >= 0 then Get(x, [b, s, c]) else 0.0
  }

  /** `v` holds the heads of `x`, one matrix of rows per head. */
  ghost predicate HoldsHeads(v: Value, x: RealTensor, z: Sizes) {
    && v.Reals? && v.t.dims == [z.batch, z.heads, z.length, z.headSize]
    && forall b: nat, n: nat, s: nat, h: nat {:trigger HeadOf(x, z, b, n, s, h)} :: InSizes(z, b, n, s, h) ==>
         Get(v.t, [b, n, s, h]) == HeadOf(x, z, b, n, s, h)
  }

  /** The same with each matrix transposed. */
  ghost predicate HoldsKeys(v: Value, x: RealTensor, z: Sizes) {
    && v.Reals? && v.t.dims == [z.batch, z.heads, z.headSize, z.length]
    && forall b: nat, n: nat, s: nat, h: nat {:trigger HeadOf(x, z, b, n, s, h)} :: InSizes(z, b, n, s, h) ==>
         Get(v.t, [b, n, h, s]) == HeadOf(x, z, b, n, s, h)
  }

  /** The same with rows outside heads. */
  ghost predicate HoldsRows(v: Value, x: RealTensor, z: Sizes) {
    && v.Reals? && v.t.dims == [z.batch, z.length, z.heads, z.headSize]
    && forall b: nat, n: nat, s: nat, h: nat {:trigger HeadOf(x, z, b, n, s, h)} :: InSizes(z, b, n, s, h) ==>
         Get(v.t, [b, s, n, h]) == HeadOf(x, z, b, n, s, h)
  }

  // ----- Reshape

  lemma EqualAreas(rows: nat, a: nat, b: nat)
    requires rows > 0 && rows * a == rows * b
    ensures a == b
  {
    assert rows * (a - b) == 0;
  }

  lemma SameOffset(row: int, n: int, heads: int, h: int, headSize: int)
    ensures (row * heads + n) * headSize + h == row * (heads * headSize) + Column(n, h, headSize)
  {
    assert (row * heads + n) * headSize == row * heads * headSize + n * headSize;
  }

  /** Reading rows as heads: the last dimension falls into `heads` runs of equal length. */
  lemma ReshapeSplitsHeads(x: RealTensor, y: RealTensor, target: seq<int>, z: Sizes)
    requires z.Positive() && x.dims == [z.batch, z.length, z.heads * z.headSize] && IsReshape(x, y, target)
    requires |target| == 4 && target[0] == 0 && (target[1] == 0 || target[1] == -1)
    requires target[2] == z.heads && target[3] == -1
    ensures HoldsRows(Reals(y), x, z)
  {
    hide Product, Get;
    ReshapedDims(x, y, target, z);
    forall b: nat, n: nat, s: nat, h: nat {:trigger HeadOf(x, z, b, n, s, h)} | InSizes(z, b, n, s, h)
      ensures Get(y, [b, s, n, h]) == HeadOf(x, z, b, n, s, h)
    {
      HeadElement(x, y, z, b, s, n, h);
    }
  }

  lemma ReshapedDims(x: RealTensor, y: RealTensor, target: seq<int>, z: Sizes)
    requires z.Positive() && x.dims == [z.batch, z.length, z.heads * z.headSize] && IsReshape(x, y, target)
    requires |target| == 4 && target[0] == 0 && (target[1] == 0 || target[1] == -1)
    requires target[2] == z.heads && target[3] == -1
    ensures y.dims == [z.batch, z.length, z.heads, z.headSize]
  {
    hide Product;
    var last := y.dims[3];
    assert y.dims == [z.batch, z.length, z.heads, last];
    ThreeAndFour(z, last);
  }

  /** With as many elements, the open dimension is the head size. */
  lemma ThreeAndFour(z: Sizes, last: nat)
    requires z.Positive()
    requires Product([z.batch, z.length, z.heads * z.headSize]) == Product([z.batch, z.length, z.heads, last])
    ensures last == z.headSize
  {
    Offset3([0, 0, 0], [z.batch, z.length, z.heads * z.headSize]);
    Offset4([0, 0, 0, 0], [z.batch, z.length, z.heads, last]);
    hide Product;
    SameAreas(z.batch * z.length, z.heads, z.headSize, last);
  }

  lemma SameAreas(rows: nat, heads: nat, a: nat, b: nat)
    requires rows > 0 && heads > 0 && rows * (heads * a) == rows * heads * b
    ensures a == b
  {
    Regroup(rows, heads, b);
    EqualAreas(rows, heads * a, heads * b);
    EqualAreas(heads, a, b);
  }

  lemma Regroup(a: int, b: int, c: int)
    ensures a * (b * c) == a * b * c
  {}

  lemma HeadElement(x: RealTensor, y: RealTensor, z: Sizes, b: nat, s: nat, n: nat, h: nat)
    requires x.dims == [z.batch, z.length, z.heads * z.headSize] && y.data == x.data
    requires y.dims == [z.batch, z.length, z.heads, z.headSize]
    ensures Get(y, [b, s, n, h]) == HeadOf(x, z, b, n, s, h)
  {
    assert Column(n, h, z.headSize) >= 0;
    Offset3([b, s, Column(n, h, z.headSize)], x.dims);
    Offset4([b, s, n, h], y.dims);
    SameOffset(b * z.length + s, n, z.heads, h, z.headSize);
  }

  // ----- Transpose

  const SWAP_INNER := [0, 2, 1, 3]
  const KEYS_LAST := [0, 2, 3, 1]

  lemma SwappedAt(x: RealTensor, y: RealTensor, a: nat, b: nat, c: nat, d: nat)
    requires IsTranspose(x, y, SWAP_INNER) && InDims([a, b, c, d], x.dims)
    ensures y.dims == [x.dims[0], x.dims[2], x.dims[1], x.dims[3]] && Get(y, [a, c, b, d]) == Get(x, [a, b, c, d])
  {
    assert Picked([a, b, c, d], SWAP_INNER) == [a, c, b, d];
  }

  lemma KeysLastAt(x: RealTensor, y: RealTensor, a: nat, b: nat, c: nat, d: nat)
    requires IsTranspose(x, y, KEYS_LAST) && InDims([a, b, c, d], x.dims)
    ensures y.dims == [x.dims[0], x.dims[2], x.dims[3], x.dims[1]] && Get(y, [a, c, d, b]) == Get(x, [a, b, c, d])
  {
    assert Picked([a, b, c, d], KEYS_LAST) == [a, c, d, b];
  }

  lemma RowsToHeads(x: RealTensor, rows: RealTensor, y: RealTensor, z: Sizes)
    requires HoldsRows(Reals(rows), x, z) && IsTranspose(rows, y, SWAP_INNER)
    ensures HoldsHeads(Reals(y), x, z)
  {
    hide Get, HeadOf, IsTranspose;
    assert y.dims == [z.batch, z.heads, z.length, z.headSize] by { SwappedDims(rows, y); }
    forall b: nat, n: nat, s: nat, h: nat {:trigger HeadOf(x, z, b, n, s, h)} | InSizes(z, b, n, s, h)
      ensures Get(y, [b, n, s, h]) == HeadOf(x, z, b, n, s, h)
    {
      SwappedAt(rows, y, b, s, n, h);
    }
  }

  lemma RowsToKeys(x: RealTensor, rows: RealTensor, y: RealTensor, z: Sizes)
    requires HoldsRows(Reals(rows), x, z) && IsTranspose(rows, y, KEYS_LAST)
    ensures HoldsKeys(Reals(y), x, z)
  {
    hide Get, HeadOf, IsTranspose;
    assert y.dims == [z.batch, z.heads, z.headSize, z.length] by { KeysLastDims(rows, y); }
    forall b: nat, n: nat, s: nat, h: nat {:trigger HeadOf(x, z, b, n, s, h)} | InSizes(z, b, n, s, h)
      ensures Get(y, [b, n, h, s]) == HeadOf(x, z, b, n, s, h)
    {
      KeysLastAt(rows, y, b, s, n, h);
    }
  }

  lemma SwappedDims(x: RealTensor, y: RealTensor)
    requires IsTranspose(x, y, SWAP_INNER)
    ensures y.dims == [x.dims[0], x.dims[2], x.dims[1], x.dims[3]]
  {}

  lemma KeysLastDims(x: RealTensor, y: RealTensor)
    requires IsTranspose(x, y, KEYS_LAST)
    ensures y.dims == [x.dims[0], x.dims[2], x.dims[3], x.dims[1]]
  {}

  // ----- The nodes of a match

  /** A Reshape by a checked constant and a Transpose make heads out of rows. */
  lemma NodesSplitHeads(g: Graph, env: Env, softmax: Softmaxing, reshape: NodeIndex, transpose: NodeIndex,
                        x: RealTensor, z: Sizes, perm: seq<int>)
    requires Executed(g, env, softmax) && HasOp(g, reshape, Reshape) && HasOp(g, transpose, Transpose)
    requires In(g, env, transpose, 0) == Out(g, env, reshape)
    requires In(g, env, reshape, 0) == Reals(x) && x.dims == [z.batch, z.length, z.heads * z.headSize] && z.Positive()
    requires IsHeadShape(g, reshape, z.heads, -1) && g.At(transpose).HasAttribute("perm", perm)
    ensures perm == SWAP_INNER ==> HoldsHeads(Out(g, env, transpose), x, z)
    ensures perm == KEYS_LAST ==> HoldsKeys(Out(g, env, transpose), x, z)
  {
    hide IsReshape, IsTranspose, HoldsRows, HoldsHeads, HoldsKeys, NamedEdges;
    var target := g.Ints(g.At(reshape).Input(1)).value;
    assert In(g, env, reshape, 1) == Ints(target);
    assert NodeRuns(g, env, softmax, reshape) && NodeRuns(g, env, softmax, transpose);
    var rows := Out(g, env, reshape).t;
    ReshapeSplitsHeads(x, rows, target, z);
    if perm == SWAP_INNER {
      RowsToHeads(x, rows, Out(g, env, transpose).t, z);
    }
    if perm == KEYS_LAST {
      RowsToKeys(x, rows, Out(g, env, transpose).t, z);
    }
  }

  /** The three parts of the projection. */
  ghost predicate HoldsProjection(g: Graph, env: Env, split: NodeIndex, q: RealTensor, k: RealTensor, v: RealTensor,
                                  z: Sizes)
  {
    && Out(g, env, split, 0) == Reals(q) && Out(g, env, split, 1) == Reals(k) && Out(g, env, split, 2) == Reals(v)
    && q.dims == k.dims == v.dims == [z.batch, z.length, z.heads * z.headSize]
  }

  lemma HeadShapes(g: Graph, layerNorm: NodeIndex, hiddenSize: int, shared: bool, nanMatches: bool, m: Fusion)
    requires IsFusion(g, layerNorm, hiddenSize, shared, nanMatches, m)
    ensures var n, q, v := m.projection.numHeads, m.queryKey, m.value;
      && IsHeadShape(g, q.qReshape, n, -1) && IsHeadShape(g, q.kReshape, n, -1) && IsHeadShape(g, v.vReshape, n, -1)
      && g.At(q.qTranspose).HasAttribute("perm", SWAP_INNER) && g.At(q.kTranspose).HasAttribute("perm", KEYS_LAST)
      && g.At(v.vTranspose).HasAttribute("perm", SWAP_INNER) && g.At(v.transpose).HasAttribute("perm", SWAP_INNER)
      && n > 0
  {
    hide IsFrame, IsValuePath, IsGemmMatch, IsMasked, IsPastMatch, IsInputPath, IsOutputShape, IsScale,
      ValidateGemmInitializer, Graph.CheckOutputEdges;
  }

  /**
    Query, key and value of a match: head `n` owns the columns from `n * headSize` on of its part of the
    projection, and the keys are transposed for the product with the queries.
  */
  lemma HeadsAreColumns(g: Graph, env: Env, softmax: Softmaxing, layerNorm: NodeIndex, hiddenSize: int, shared: bool,
                        nanMatches: bool, m: Fusion, q: RealTensor, k: RealTensor, v: RealTensor, z: Sizes)
    requires g.WellFormed() && IsFusion(g, layerNorm, hiddenSize, shared, nanMatches, m)
    requires Executed(g, env, softmax) && HoldsProjection(g, env, m.value.split, q, k, v, z)
    requires z.Positive() && z.heads == m.projection.numHeads
    ensures HoldsHeads(Out(g, env, m.queryKey.qTranspose), q, z)
    ensures HoldsKeys(Out(g, env, m.queryKey.kTranspose), k, z)
    ensures HoldsHeads(Out(g, env, m.value.vTranspose), v, z)
  {
    hide IsFusion, Executed, IsHeadShape, HoldsHeads, HoldsKeys, Graph.WellFormed;
    FusionGivesFacts(g, layerNorm, hiddenSize, shared, nanMatches, m);
    HeadShapes(g, layerNorm, hiddenSize, shared, nanMatches, m);
    ProjectionEdges(g, env, softmax, shared, m);
    NodesSplitHeads(g, env, softmax, m.queryKey.qReshape, m.queryKey.qTranspose, q, z, SWAP_INNER);
    NodesSplitHeads(g, env, softmax, m.queryKey.kReshape, m.queryKey.kTranspose, k, z, KEYS_LAST);
    NodesSplitHeads(g, env, softmax, m.value.vReshape, m.value.vTranspose, v, z, SWAP_INNER);
  }

  lemma ProjectionEdges(g: Graph, env: Env, softmax: Softmaxing, shared: bool, m: Fusion)
    requires Facts(g, shared, m) && Executed(g, env, softmax)
    ensures var v, q := m.value, m.queryKey;
      && In(g, env, q.qReshape, 0) == Out(g, env, v.split, 0) && In(g, env, q.qTranspose, 0) == Out(g, env, q.qReshape)
      && In(g, env, q.kReshape, 0) == Out(g, env, v.split, 1) && In(g, env, q.kTranspose, 0) == Out(g, env, q.kReshape)
      && In(g, env, v.vReshape, 0) == Out(g, env, v.split, 2) && In(g, env, v.vTranspose, 0) == Out(g, env, v.vReshape)
      && HasOp(g, q.qReshape, Reshape) && HasOp(g, q.kReshape, Reshape) && HasOp(g, v.vReshape, Reshape)
      && HasOp(g, q.qTranspose, Transpose) && HasOp(g, q.kTranspose, Transpose) && HasOp(g, v.vTranspose, Transpose)
  {
    hide GemmFacts, MaskFacts, UnidirFacts, PastFacts, Executed, In, Out, Feeds, HasOp;
    var v, q := m.value, m.queryKey;
    ExecutedGives(g, env, softmax);
    EdgeHandsOn(g, env, Edge(v.split, 0, q.qReshape, 0));
    EdgeHandsOn(g, env, Edge(v.split, 1, q.kReshape, 0));
    EdgeHandsOn(g, env, Edge(v.split, 2, v.vReshape, 0));
    EdgeHandsOn(g, env, Edge(q.qReshape, 0, q.qTranspose, 0));
    EdgeHandsOn(g, env, Edge(q.kReshape, 0, q.kTranspose, 0));
    SoleEdgeHandsOn(g, env, v.vReshape, v.vTranspose, 0);
  }
}
