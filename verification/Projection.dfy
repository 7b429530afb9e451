/** What the subgraph around a Gemm computes: a linear map of each row, whatever the two outer dimensions are. */
module Projection {
  import opened Wrappers
  import opened GraphModel
  import opened GraphFacts
  import opened GemmMatch
  import opened GemmClosure
  import opened UnidirClosure
  import opened MaskMatch
  import opened Initializers
  import opened Tensors
  import opened GraphValues
  import opened CausalMask
  import opened PathChecks
  import opened FusionMatch
  import opened FusionFacts
  import opened HeadLayout

  /** What the fusion does not check: steps of the Slice, further inputs of the Concat, and transpositions. */
  predicate PlainGemm(g: Graph, t: GemmTrunk) {
    && |g.At(t.slice).inputs| == 4 && |g.At(t.concat).inputs| == 2
    && "transA" !in g.At(t.gemm).attributes && "transB" !in g.At(t.gemm).attributes
  }

  lemma LastOfThree(dims: seq<int>, end: int)
    requires |dims| == 3 && end >= INT_MAX
    ensures SliceOf(dims, -1, end) == [dims[2]]
  {}

  ghost predicate TrunkHandsOver(g: Graph, env: Env, t: GemmTrunk) {
    && In(g, env, t.slice, 0) == Out(g, env, t.shape) && In(g, env, t.squeeze, 0) == Out(g, env, t.slice)
    && In(g, env, t.unsqueeze, 0) == Out(g, env, t.squeeze) && In(g, env, t.concat, 1) == Out(g, env, t.unsqueeze)
    && In(g, env, t.reshapeBefore, 1) == Out(g, env, t.concat)
    && In(g, env, t.gemm, 0) == Out(g, env, t.reshapeBefore)
    && In(g, env, t.reshapeAfter, 0) == Out(g, env, t.gemm)
    && In(g, env, t.reshapeAfter, 1) == Out(g, env, t.concatAfter)
  }

  lemma TrunkEdgesHandOn(g: Graph, env: Env, root: NodeIndex, dstArg: nat, shared: bool, t: GemmTrunk)
    requires TrunkFacts(g, root, dstArg, shared, t) && NamedEdges(g)
    ensures TrunkHandsOver(g, env, t)
  {
    hide Feeds, In, Out, HasOp, NamedEdges;
    EdgeHandsOn(g, env, Edge(t.shape, 0, t.slice, 0));
    SoleEdgeHandsOn(g, env, t.slice, t.squeeze, 0);
    SoleEdgeHandsOn(g, env, t.squeeze, t.unsqueeze, 0);
    SoleEdgeHandsOn(g, env, t.unsqueeze, t.concat, 1);
    SoleEdgeHandsOn(g, env, t.concat, t.reshapeBefore, 1);
    SoleEdgeHandsOn(g, env, t.reshapeBefore, t.gemm, 0);
    SoleEdgeHandsOn(g, env, t.gemm, t.reshapeAfter, 0);
    SoleEdgeHandsOn(g, env, t.concatAfter, t.reshapeAfter, 1);
  }

  /** The last dimension of the input, as it is computed from its shape. */
  lemma LastDimension(g: Graph, env: Env, softmax: Softmaxing, t: GemmTrunk, x: RealTensor)
    requires Executed(g, env, softmax) && TrunkHandsOver(g, env, t)
    requires HasOp(g, t.shape, Shape) && HasOp(g, t.slice, Slice)
    requires HasOp(g, t.squeeze, Squeeze) && HasOp(g, t.unsqueeze, Unsqueeze)
    requires CheckSliceParameters(g, t.slice, [1, 2, 3], [-1, INT_MAX, 0]) && |g.At(t.slice).inputs| == 4
    requires In(g, env, t.shape, 0) == Reals(x) && |x.dims| == 3
    ensures In(g, env, t.concat, 1) == Ints([x.dims[2] as int])
  {
    hide CheckSliceParameters, Executed, In, Out;
    ExecutedGives(g, env, softmax);
    SliceParametersAre(g, env, t.slice, -1, INT_MAX);
    var end := In(g, env, t.slice, 2).ints[0];
    ShapeNode(g, env, softmax, t.shape, x);
    SliceIntsNode(g, env, softmax, t.slice, x.dims, -1, end);
    LastOfThree(x.dims, end);
    SameInts(g, env, softmax, t.squeeze, Squeeze);
    SameInts(g, env, softmax, t.unsqueeze, Unsqueeze);
  }

  lemma TrunkOps(g: Graph, root: NodeIndex, dstArg: nat, shared: bool, t: GemmTrunk)
    requires TrunkFacts(g, root, dstArg, shared, t)
    ensures HasOp(g, t.shape, Shape) && HasOp(g, t.slice, Slice) && HasOp(g, t.squeeze, Squeeze)
    ensures HasOp(g, t.unsqueeze, Unsqueeze) && HasOp(g, t.concat, Concat) && HasOp(g, t.concatAfter, Concat)
    ensures HasOp(g, t.reshapeBefore, Reshape) && HasOp(g, t.gemm, Gemm) && HasOp(g, t.reshapeAfter, Reshape)
  {
    hide Feeds, HasOp;
  }

  /** The shape in front of the Gemm keeps the last dimension and leaves the other open. */
  lemma ShapeBefore(g: Graph, env: Env, softmax: Softmaxing, t: GemmTrunk, x: RealTensor)
    requires Executed(g, env, softmax) && TrunkHandsOver(g, env, t)
    requires HasOp(g, t.shape, Shape) && HasOp(g, t.slice, Slice) && HasOp(g, t.concat, Concat)
    requires HasOp(g, t.squeeze, Squeeze) && HasOp(g, t.unsqueeze, Unsqueeze)
    requires TrunkValues(g, t) && PlainGemm(g, t)
    requires In(g, env, t.reshapeBefore, 0) == Reals(x) && |x.dims| == 3
    ensures In(g, env, t.reshapeBefore, 1) == Ints([-1, x.dims[2] as int])
  {
    hide CheckSliceParameters, Executed, BiasLength;
    ExecutedGives(g, env, softmax);
    LastDimension(g, env, softmax, t, x);
    IntIsConstant(g, env, g.At(t.concat).Input(0), -1);
    ConcatIntsNode(g, env, softmax, t.concat, [-1], [x.dims[2] as int], []);
  }

  /** A branch reads one dimension of the input. */
  lemma BranchReads(g: Graph, env: Env, softmax: Softmaxing, t: GemmTrunk, i: nat, shared: bool, b: GatherBranch,
                    x: RealTensor)
    requires Executed(g, env, softmax) && IsBranch(g, t.concatAfter, i, t.shape, shared, b)
    requires BranchFacts(g, t, i, shared, b) && In(g, env, t.shape, 0) == Reals(x) && i < |x.dims|
    ensures In(g, env, t.concatAfter, i) == Ints([x.dims[i]])
  {
    hide IsInputPath, Feeds, Executed, Graph.CheckOutputEdges;
    ExecutedGives(g, env, softmax);
    EdgeHandsOn(g, env, Edge(b.shape, 0, b.gather, 0));
    SoleEdgeHandsOn(g, env, b.gather, b.unsqueeze, 0);
    SoleEdgeHandsOn(g, env, b.unsqueeze, t.concatAfter, i);
    IntIsConstant(g, env, g.At(b.gather).Input(1), i);
    ShapeNode(g, env, softmax, b.shape, x);
    GatherIntsNode(g, env, softmax, b.gather, x.dims, i);
    SameInts(g, env, softmax, b.unsqueeze, Unsqueeze);
  }

  /** The shape behind the Gemm is that of the input, with the length of the bias as its last dimension. */
  lemma ShapeAfter(g: Graph, env: Env, softmax: Softmaxing, t: GemmTrunk, shared: bool, first: GatherBranch,
                   second: GatherBranch, x: RealTensor)
    requires Executed(g, env, softmax) && TrunkHandsOver(g, env, t) && HasOp(g, t.concatAfter, Concat)
    requires AreBranches(g, t, shared, first, second) && ConcatAfterChecks(g, t)
    requires BranchFacts(g, t, 0, shared, first) && BranchFacts(g, t, 1, shared, second)
    requires In(g, env, t.shape, 0) == Reals(x) && |x.dims| == 3
    ensures In(g, env, t.reshapeAfter, 1) == Ints([x.dims[0] as int, x.dims[1], BiasLength(g, t.gemm).value])
  {
    hide Executed, IsBranch, BranchFacts, BiasLength;
    ExecutedGives(g, env, softmax);
    BranchReads(g, env, softmax, t, 0, shared, first, x);
    BranchReads(g, env, softmax, t, 1, shared, second, x);
    IntIsConstant(g, env, g.At(t.concatAfter).Input(2), BiasLength(g, t.gemm).value);
    ConcatIntsNode(g, env, softmax, t.concatAfter, [x.dims[0] as int], [x.dims[1] as int],
                   [BiasLength(g, t.gemm).value]);
  }

  // ----- The rows

  lemma FlattenRows(x: RealTensor, rows: RealTensor)
    requires |x.dims| == 3 && x.dims[2] > 0 && IsReshape(x, rows, [-1, x.dims[2] as int])
    ensures rows.dims == [x.dims[0] * x.dims[1], x.dims[2]]
    ensures forall b: nat, s: nat, k: nat {:trigger Get(x, [b, s, k])} ::
      Get(rows, [b * x.dims[1] + s, k]) == Get(x, [b, s, k])
  {
    Offset3([0, 0, 0], x.dims);
    Offset2([0, 0], rows.dims);
    assert rows.dims == [rows.dims[0], x.dims[2]];
    SameFactor(rows.dims[0], x.dims[0] * x.dims[1], x.dims[2]);
    forall b: nat, s: nat, k: nat
      ensures Get(rows, [b * x.dims[1] + s, k]) == Get(x, [b, s, k])
    {
      Offset3([b, s, k], x.dims);
      Offset2([b * x.dims[1] + s, k], rows.dims);
    }
  }

  lemma SameFactor(a: int, b: int, c: int)
    requires c > 0 && a * c == b * c
    ensures a == b
  {
    assert (a - b) * c == 0;
  }

  lemma RestoreRows(y: RealTensor, out: RealTensor, batch: nat, length: nat, width: nat)
    requires y.dims == [batch * length, width] && batch > 0 && length > 0 && width > 0
    requires IsReshape(y, out, [batch, length, width])
    ensures out.dims == [batch, length, width]
    ensures forall b: nat, s: nat, c: nat {:trigger Get(out, [b, s, c])} ::
      Get(out, [b, s, c]) == Get(y, [b * length + s, c])
  {
    assert out.dims == [batch, length, width];
    forall b: nat, s: nat, c: nat
      ensures Get(out, [b, s, c]) == Get(y, [b * length + s, c])
    {
      Offset3([b, s, c], out.dims);
      Offset2([b * length + s, c], y.dims);
    }
  }

  /** Element `c` of a row of `x` after the linear map. */
  function Linear(x: RealTensor, w: RealTensor, bias: RealTensor, n: nat, b: nat, s: nat, c: nat): real {
    Sum(n, (k: nat) => Get(x, [b, s, k]) * Get(w, [k, c])) + Get(bias, [c])
  }

  ghost predicate HoldsLinear(v: Value, x: RealTensor, w: RealTensor, bias: RealTensor)
    requires |x.dims| == 3 && |w.dims| == 2
  {
    && v.Reals? && v.t.dims == [x.dims[0], x.dims[1], w.dims[1]]
    && forall b: nat, s: nat, c: nat {:trigger Linear(x, w, bias, x.dims[2], b, s, c)} ::
         b < x.dims[0] && s < x.dims[1] && c < w.dims[1] ==>
           Get(v.t, [b, s, c]) == Linear(x, w, bias, x.dims[2], b, s, c)
  }

  lemma RowsAreMapped(x: RealTensor, rows: RealTensor, w: RealTensor, bias: RealTensor, y: RealTensor, out: RealTensor)
    requires |x.dims| == 3 && x.dims[0] > 0 && x.dims[1] > 0 && x.dims[2] > 0
    requires IsReshape(x, rows, [-1, x.dims[2] as int])
    requires |rows.dims| == |w.dims| == 2 && |bias.dims| == 1 && IsLinear(rows, w, bias, y) && w.dims[1] > 0
    requires IsReshape(y, out, [x.dims[0], x.dims[1], w.dims[1]])
    ensures HoldsLinear(Reals(out), x, w, bias)
  {
    hide Get, IsReshape;
    FlattenRows(x, rows);
    RestoreRows(y, out, x.dims[0], x.dims[1], w.dims[1]);
    forall b: nat, s: nat, c: nat | b < x.dims[0] && s < x.dims[1] && c < w.dims[1]
      ensures Get(out, [b, s, c]) == Linear(x, w, bias, x.dims[2], b, s, c)
    {
      var r := b * x.dims[1] + s;
      RowInBounds(b, s, x.dims[0], x.dims[1]);
      assert InDims([r, c], y.dims);
      forall k: nat
        ensures Get(rows, [r, k]) == Get(x, [b, s, k])
      {}
      SameSum(x.dims[2], (k: nat) => Get(rows, [r, k]) * Get(w, [k, c]),
              (k: nat) => Get(x, [b, s, k]) * Get(w, [k, c]));
      LinearAt(rows, w, bias, y, r, c);
    }
  }

  lemma LinearAt(x: RealTensor, w: RealTensor, bias: RealTensor, y: RealTensor, r: nat, c: nat)
    requires |x.dims| == |w.dims| == 2 && |bias.dims| == 1 && IsLinear(x, w, bias, y) && InDims([r, c], y.dims)
    ensures Get(y, [r, c]) == Sum(x.dims[1], (k: nat) => Get(x, [r, k]) * Get(w, [k, c])) + Get(bias, [c])
  {
    var index := [r, c];
    SameSum(x.dims[1], (k: nat) => Get(x, [index[0], k]) * Get(w, [k, index[1]]),
            (k: nat) => Get(x, [r, k]) * Get(w, [k, c]));
  }

  lemma RowInBounds(b: nat, s: nat, batch: nat, length: nat)
    requires b < batch && s < length
    ensures b * length + s < batch * length
  {
    assert (b + 1) * length <= batch * length;
  }

  // ----- The nodes of a match

  lemma WeightsAreHeld(g: Graph, env: Env, gemm: NodeIndex)
    requires Constants(g, env) && BiasLength(g, gemm).Some?
    requires In(g, env, gemm, 2).Reals?
    ensures |In(g, env, gemm, 2).t.dims| == 1 && In(g, env, gemm, 2).t.dims[0] == BiasLength(g, gemm).value
  {
    var name := g.At(gemm).Input(2);
    assert HoldsShape(env(name), g.shapes[name]);
  }

  /** The subgraph maps every row of a three-dimensional input by the weights and the bias of its Gemm. */
  lemma GemmMeans(g: Graph, env: Env, softmax: Softmaxing, root: NodeIndex, dstArg: nat, shared: bool, n: GemmNodes,
                  x: RealTensor, w: RealTensor, bias: RealTensor)
    requires g.WellFormed() && IsGemmMatch(g, root, dstArg, shared, n)
    requires Executed(g, env, softmax) && PlainGemm(g, n.trunk)
    requires In(g, env, n.trunk.shape, 0) == Reals(x)
    requires |x.dims| == 3 && x.dims[0] > 0 && x.dims[1] > 0 && x.dims[2] > 0
    requires In(g, env, n.trunk.gemm, 1) == Reals(w) && |w.dims| == 2 && w.dims[1] > 0
    requires In(g, env, n.trunk.gemm, 2) == Reals(bias)
    ensures HoldsLinear(Out(g, env, n.trunk.reshapeAfter), x, w, bias)
  {
    hide IsInputPath, TrunkCounts, TrunkFacts, BranchFacts, TrunkHandsOver, HasOp, NodeRuns, IsReshape, IsLinear,
      HoldsLinear, NamedEdges, Constants, BiasLength, CheckSliceParameters, Graph.WellFormed, AreBranches;
    var t := n.trunk;
    GemmMatchGivesFacts(g, root, dstArg, shared, n);
    ExecutedGives(g, env, softmax);
    TrunkEdgesHandOn(g, env, root, dstArg, shared, t);
    TrunkOps(g, root, dstArg, shared, t);
    ShapeBefore(g, env, softmax, t, x);
    ShapeAfter(g, env, softmax, t, shared, n.first, n.second, x);
    WeightsAreHeld(g, env, t.gemm);
    NodesMapRows(g, env, softmax, t, x, w, bias);
  }

  lemma NodesMapRows(g: Graph, env: Env, softmax: Softmaxing, t: GemmTrunk, x: RealTensor, w: RealTensor,
                     bias: RealTensor)
    requires Executed(g, env, softmax) && TrunkHandsOver(g, env, t) && PlainGemm(g, t)
    requires HasOp(g, t.reshapeBefore, Reshape) && HasOp(g, t.gemm, Gemm) && HasOp(g, t.reshapeAfter, Reshape)
    requires In(g, env, t.reshapeBefore, 0) == Reals(x)
    requires |x.dims| == 3 && x.dims[0] > 0 && x.dims[1] > 0 && x.dims[2] > 0
    requires In(g, env, t.reshapeBefore, 1) == Ints([-1, x.dims[2] as int])
    requires In(g, env, t.gemm, 1) == Reals(w) && |w.dims| == 2 && w.dims[1] > 0
    requires In(g, env, t.gemm, 2) == Reals(bias) && |bias.dims| == 1
    requires In(g, env, t.reshapeAfter, 1) == Ints([x.dims[0] as int, x.dims[1], bias.dims[0]])
    ensures HoldsLinear(Out(g, env, t.reshapeAfter), x, w, bias)
  {
    hide IsReshape, IsLinear, HoldsLinear, NamedEdges, Constants;
    assert NodeRuns(g, env, softmax, t.reshapeBefore);
    var rows := Out(g, env, t.reshapeBefore);
    assert |rows.t.dims| == 2 by { ReshapeRank(x, rows.t, [-1, x.dims[2] as int]); }
    assert NodeRuns(g, env, softmax, t.gemm) && NodeRuns(g, env, softmax, t.reshapeAfter);
    var y := Out(g, env, t.gemm);
    assert w.dims[1] == bias.dims[0] by { LinearWidth(rows.t, w, bias, y.t); }
    RowsAreMapped(x, rows.t, w, bias, y.t, Out(g, env, t.reshapeAfter).t);
  }

  lemma ReshapeRank(x: RealTensor, y: RealTensor, target: seq<int>)
    requires IsReshape(x, y, target)
    ensures |y.dims| == |target|
  {}

  lemma LinearWidth(x: RealTensor, w: RealTensor, bias: RealTensor, y: RealTensor)
    requires |x.dims| == |w.dims| == 2 && |bias.dims| == 1 && IsLinear(x, w, bias, y)
    ensures w.dims[1] == bias.dims[0]
  {}

  // ----- Query, key and value

  /** Part `i` of the projection: the columns from `i * n` on. */
  ghost predicate HoldsThird(v: Value, i: nat, x: RealTensor, w: RealTensor, bias: RealTensor, n: int) {
    && |x.dims| == 3 && v.Reals? && v.t.dims == [x.dims[0], x.dims[1], n]
    && forall b: nat, s: nat, c: nat {:trigger Get(v.t, [b, s, c])} :: b < x.dims[0] && s < x.dims[1] && c < n ==>
         i * n + c >= 0 && Get(v.t, [b, s, c]) == Linear(x, w, bias, x.dims[2], b, s, i * n + c)
  }

  lemma ThirdOf(y: RealTensor, part: RealTensor, i: nat, x: RealTensor, w: RealTensor, bias: RealTensor, n: nat)
    requires |x.dims| == 3 && |w.dims| == 2 && w.dims[1] == 3 * n && i < 3
    requires HoldsLinear(Reals(y), x, w, bias) && IsThird(y, part, i)
    ensures HoldsThird(Reals(part), i, x, w, bias, n)
  {
    hide Get, Linear;
    assert part.dims == [x.dims[0], x.dims[1], n];
    forall b: nat, s: nat, c: nat | b < x.dims[0] && s < x.dims[1] && c < n
      ensures i * n + c >= 0 && Get(part, [b, s, c]) == Linear(x, w, bias, x.dims[2], b, s, i * n + c)
    {
      assert 0 <= i * n <= 2 * n;
      var index := [b, s, c];
      assert InDims(index, part.dims);
      assert [index[0], index[1], i * part.dims[2] + index[2]] == [b, s, i * n + c];
      assert Linear(x, w, bias, x.dims[2], b, s, i * n + c) == Get(y, [b, s, i * n + c]);
    }
  }

  /** What the fusion does not check of the Split. */
  predicate PlainSplit(g: Graph, split: NodeIndex) {
    var n := g.At(split);
    && |n.inputs| == 1 && |n.outputs| == 3 && "split" !in n.attributes
    && (n.HasAttribute("axis", [2]) || n.HasAttribute("axis", [-1]))
  }

  lemma ProjectionShapes(g: Graph, env: Env, layerNorm: NodeIndex, hiddenSize: int, shared: bool, nanMatches: bool,
                         m: Fusion)
    requires IsFusion(g, layerNorm, hiddenSize, shared, nanMatches, m) && hiddenSize > 0 && Constants(g, env)
    requires In(g, env, m.projection.gemm0.trunk.gemm, 1).Reals?
    ensures In(g, env, m.projection.gemm0.trunk.gemm, 1).t.dims == [hiddenSize, 3 * hiddenSize]
    ensures IsGemmMatch(g, m.value.split, 0, shared, m.projection.gemm0)
  {
    hide IsBack, IsFrame, IsValuePath, IsGemmMatch, IsPathV;
    var weights := g.At(m.projection.gemm0.trunk.gemm).Input(1);
    assert HoldsShape(env(weights), g.shapes[weights]);
  }

  /**
    Query, key and value are the three thirds of one linear map of the normalized input, with the weights
    and the bias that the fused node is given.
  */
  lemma ProjectionMeans(g: Graph, env: Env, softmax: Softmaxing, layerNorm: NodeIndex, hiddenSize: int, shared: bool,
                        nanMatches: bool, m: Fusion, x: RealTensor, w: RealTensor, bias: RealTensor)
    requires hiddenSize > 0 && |x.dims| == 3 && x.dims[0] > 0 && x.dims[1] > 0 && x.dims[2] > 0
    requires g.WellFormed() && IsFusion(g, layerNorm, hiddenSize, shared, nanMatches, m)
    requires Executed(g, env, softmax)
    requires PlainGemm(g, m.projection.gemm0.trunk) && PlainSplit(g, m.value.split)
    requires In(g, env, m.projection.gemm0.trunk.shape, 0) == Reals(x)
    requires In(g, env, m.projection.gemm0.trunk.gemm, 1) == Reals(w)
    requires In(g, env, m.projection.gemm0.trunk.gemm, 2) == Reals(bias)
    ensures forall i: nat :: i < 3 ==> HoldsThird(Out(g, env, m.value.split, i), i, x, w, bias, hiddenSize)
  {
    hide IsFusion, Facts, HoldsLinear, HoldsThird, NamedEdges, Constants, IsGemmMatch, PlainGemm, IsThird,
      Graph.WellFormed;
    ExecutedGives(g, env, softmax);
    FusionGivesFacts(g, layerNorm, hiddenSize, shared, nanMatches, m);
    ProjectionShapes(g, env, layerNorm, hiddenSize, shared, nanMatches, m);
    var t := m.projection.gemm0.trunk;
    GemmMeans(g, env, softmax, m.value.split, 0, shared, m.projection.gemm0, x, w, bias);
    SplitHandsOn(g, env, shared, m);
    var y := Out(g, env, t.reshapeAfter);
    assert y.Reals? && |y.t.dims| == 3 by { LinearIsReal(y, x, w, bias); }
    assert NodeRuns(g, env, softmax, m.value.split);
    forall i: nat | i < 3
      ensures HoldsThird(Out(g, env, m.value.split, i), i, x, w, bias, hiddenSize)
    {
      ThirdOf(y.t, Out(g, env, m.value.split, i).t, i, x, w, bias, hiddenSize);
    }
  }

  lemma LinearIsReal(v: Value, x: RealTensor, w: RealTensor, bias: RealTensor)
    requires |x.dims| == 3 && |w.dims| == 2 && HoldsLinear(v, x, w, bias)
    ensures v.Reals? && |v.t.dims| == 3
  {}

  lemma SplitHandsOn(g: Graph, env: Env, shared: bool, m: Fusion)
    requires Facts(g, shared, m) && NamedEdges(g)
    ensures In(g, env, m.value.split, 0) == Out(g, env, m.projection.gemm0.trunk.reshapeAfter)
    ensures HasOp(g, m.value.split, Split)
  {
    hide MaskFacts, UnidirFacts, PastFacts, QueryKeyFacts, BranchFacts, Feeds, In, Out, NamedEdges;
    SoleEdgeHandsOn(g, env, m.projection.gemm0.trunk.reshapeAfter, m.value.split, 0);
  }
}
