/**
  What the causal-mask subgraph computes: scores stay where a query may look and are replaced elsewhere.
*/
module CausalMask {
  import opened Wrappers
  import opened GraphModel
  import opened GraphFacts
  import opened GemmMatch
  import opened UnidirMatch
  import opened UnidirClosure
  import opened Initializers
  import opened Tensors
  import opened GraphValues

  const HIDDEN: real := -10000.0

  /** The fusion checks no steps of the slices that read the lengths; the model gives none. */
  predicate LengthSlicesHaveNoSteps(g: Graph, u: UnidirNodes) {
    |g.At(u.trunk.slice1).inputs| == 4 && |g.At(u.length.slice2).inputs| == 4
  }

  lemma SoleEdgeHandsOn(g: Graph, env: Env, x: NodeIndex, y: NodeIndex, slot: nat)
    requires NamedEdges(g) && Feeds(g, x, y, slot)
    ensures In(g, env, y, slot) == Out(g, env, x)
  {
    assert Edge(x, 0, y, slot) in g.OutEdges(x);
  }

  lemma LastOfFour(dims: seq<int>, end: int)
    requires |dims| == 4 && end >= INT_MAX
    ensures SliceOf(dims, -1, end) == [dims[3]] && SliceOf(dims, -2, -1) == [dims[2]]
  {}

  /** The end of a slice is that constant, or a large one. */
  lemma ParameterIsOne(g: Graph, env: Env, name: Name, expected: int)
    requires Constants(g, env) && SliceParameter(g, name, expected)
    ensures IsOne(env(name))
    ensures if expected >= INT_MAX then env(name).ints[0] >= INT_MAX else env(name) == Ints([expected])
  {}

  lemma SliceParametersAre(g: Graph, env: Env, slice: NodeIndex, start: int, end: int)
    requires Constants(g, env) && CheckSliceParameters(g, slice, [1, 2, 3], [start, end, 0]) && start < INT_MAX
    ensures In(g, env, slice, 1) == Ints([start]) && IsOne(In(g, env, slice, 2)) && In(g, env, slice, 3) == Ints([0])
    ensures if end >= INT_MAX then In(g, env, slice, 2).ints[0] >= INT_MAX else In(g, env, slice, 2) == Ints([end])
  {
    assert SliceParameter(g, g.At(slice).Input([1, 2, 3][0]), [start, end, 0][0]);
    assert SliceParameter(g, g.At(slice).Input([1, 2, 3][1]), [start, end, 0][1]);
    assert SliceParameter(g, g.At(slice).Input([1, 2, 3][2]), [start, end, 0][2]);
    hide SliceParameter, Constants;
    ParameterIsOne(g, env, g.At(slice).Input(1), start);
    ParameterIsOne(g, env, g.At(slice).Input(2), end);
    ParameterIsOne(g, env, g.At(slice).Input(3), 0);
  }

  /** The slices of the score shape: the last dimension, or the one before it. */
  lemma LengthOf(g: Graph, env: Env, softmax: Softmaxing, shape: NodeIndex, slice: NodeIndex, d: seq<nat>,
                 start: int, end: int)
    requires Executed(g, env, softmax) && HasOp(g, shape, Shape) && HasOp(g, slice, Slice)
    requires |d| == 4 && In(g, env, shape, 0).Reals? && In(g, env, shape, 0).t.dims == d
    requires In(g, env, slice, 0) == Out(g, env, shape)
    requires |g.At(slice).inputs| == 4 && CheckSliceParameters(g, slice, [1, 2, 3], [start, end, 0])
    requires (start == -1 && end == INT_MAX) || (start == -2 && end == -1)
    ensures Out(g, env, slice) == Ints([if start == -1 then d[3] else d[2]])
  {
    hide Constants, CheckSliceParameters;
    SliceParametersAre(g, env, slice, start, end);
    assert NodeRuns(g, env, softmax, shape) && NodeRuns(g, env, softmax, slice);
    LastOfFour(d, if start == -1 then In(g, env, slice, 2).ints[0] else INT_MAX);
  }

  lemma SameInts(g: Graph, env: Env, softmax: Softmaxing, x: NodeIndex, op: Op)
    requires Executed(g, env, softmax) && HasOp(g, x, op) && (op == Squeeze || op == Unsqueeze)
    requires In(g, env, x, 0).Ints?
    ensures Out(g, env, x) == In(g, env, x, 0)
  {
    assert NodeRuns(g, env, softmax, x);
  }

  /** The total and the query length, as the squeezed last dimensions of the scores. */
  lemma LengthsAre(g: Graph, env: Env, softmax: Softmaxing, root: NodeIndex, shared: bool, u: UnidirNodes, d: seq<nat>)
    requires IsUnidirMatch(g, root, shared, u) && UnidirFacts(g, root, shared, u)
    requires Executed(g, env, softmax) && LengthSlicesHaveNoSteps(g, u)
    requires |d| == 4 && Out(g, env, u.trunk.div).Reals? && Out(g, env, u.trunk.div).t.dims == d
    ensures Out(g, env, u.trunk.squeeze1) == Ints([d[3]]) && Out(g, env, u.length.squeeze2) == Ints([d[2]])
  {
    hide IsMask, UnidirCounts, IsInputPath, CheckSliceParameters, SliceEndFacts, IsSliceEnd, Executed, Feeds, INT_MAX;
    var t, l := u.trunk, u.length;
    assert NamedEdges(g) by { ExecutedGives(g, env, softmax); }
    EdgeHandsOn(g, env, Edge(t.shape1, 0, t.slice1, 0));
    EdgeHandsOn(g, env, Edge(l.shape2, 0, l.slice2, 0));
    SoleEdgeHandsOn(g, env, t.slice1, t.squeeze1, 0);
    SoleEdgeHandsOn(g, env, l.slice2, l.squeeze2, 0);
    LengthOf(g, env, softmax, t.shape1, t.slice1, d, -1, INT_MAX);
    LengthOf(g, env, softmax, l.shape2, l.slice2, d, -2, -1);
    SameInts(g, env, softmax, t.squeeze1, Squeeze);
    SameInts(g, env, softmax, l.squeeze2, Squeeze);
  }

  lemma ExecutedGives(g: Graph, env: Env, softmax: Softmaxing)
    requires Executed(g, env, softmax)
    ensures NamedEdges(g) && Constants(g, env)
  {}

  /** Where the bounds of the mask slices come from. */
  lemma BoundsHandOn(g: Graph, env: Env, root: NodeIndex, shared: bool, u: UnidirNodes)
    requires UnidirFacts(g, root, shared, u) && NamedEdges(g)
    ensures var t := u.trunk;
      && In(g, env, t.sub, 0) == Out(g, env, t.squeeze1) && In(g, env, t.sub, 1) == Out(g, env, u.length.squeeze2)
      && In(g, env, t.unsqueeze1, 0) == Out(g, env, t.sub)
      && In(g, env, t.maskSlice, 1) == Out(g, env, t.unsqueeze1)
      && In(g, env, u.unsqueeze2, 0) == Out(g, env, t.squeeze1) == In(g, env, u.unsqueeze3, 0)
      && In(g, env, t.lastSlice, 2) == Out(g, env, u.unsqueeze2)
      && In(g, env, t.maskSlice, 2) == Out(g, env, u.unsqueeze3)
    ensures HasOp(g, u.trunk.sub, Sub) && HasOp(g, u.trunk.unsqueeze1, Unsqueeze)
      && HasOp(g, u.unsqueeze2, Unsqueeze) && HasOp(g, u.unsqueeze3, Unsqueeze)
  {
    hide Feeds, In, Out, HasOp, NamedEdges;
    var t, l := u.trunk, u.length;
    EdgeHandsOn(g, env, Edge(t.squeeze1, 0, t.sub, 0));
    SoleEdgeHandsOn(g, env, l.squeeze2, t.sub, 1);
    SoleEdgeHandsOn(g, env, t.sub, t.unsqueeze1, 0);
    SoleEdgeHandsOn(g, env, t.unsqueeze1, t.maskSlice, 1);
    EdgeHandsOn(g, env, Edge(u.unsqueeze2, 0, t.lastSlice, 2));
    EdgeHandsOn(g, env, Edge(t.squeeze1, 0, u.unsqueeze2, 0));
    EdgeHandsOn(g, env, Edge(u.unsqueeze3, 0, t.maskSlice, 2));
    EdgeHandsOn(g, env, Edge(t.squeeze1, 0, u.unsqueeze3, 0));
  }

  /** The mask is cut to the rows from the past length to the total length, and to columns up to the latter. */
  lemma BoundsAre(g: Graph, env: Env, softmax: Softmaxing, root: NodeIndex, shared: bool, u: UnidirNodes, d: seq<nat>)
    requires IsUnidirMatch(g, root, shared, u) && UnidirFacts(g, root, shared, u)
    requires Executed(g, env, softmax) && LengthSlicesHaveNoSteps(g, u)
    requires |d| == 4 && Out(g, env, u.trunk.div).Reals? && Out(g, env, u.trunk.div).t.dims == d && d[2] <= d[3]
    ensures In(g, env, u.trunk.maskSlice, 1) == Ints([d[3] - d[2]]) && In(g, env, u.trunk.maskSlice, 2) == Ints([d[3]])
    ensures In(g, env, u.trunk.lastSlice, 2) == Ints([d[3]])
  {
    hide IsUnidirMatch, UnidirFacts, HasOp, In, Executed, LengthSlicesHaveNoSteps;
    var t, l := u.trunk, u.length;
    assert NamedEdges(g) by { ExecutedGives(g, env, softmax); }
    LengthsAre(g, env, softmax, root, shared, u, d);
    BoundsHandOn(g, env, root, shared, u);
    PastLengthIs(g, env, softmax, t.sub, d[3], d[2]);
    SameInts(g, env, softmax, t.unsqueeze1, Unsqueeze);
    SameInts(g, env, softmax, u.unsqueeze2, Unsqueeze);
    SameInts(g, env, softmax, u.unsqueeze3, Unsqueeze);
  }

  lemma PastLengthIs(g: Graph, env: Env, softmax: Softmaxing, sub: NodeIndex, total: nat, query: nat)
    requires Executed(g, env, softmax) && HasOp(g, sub, Sub)
    requires In(g, env, sub, 0) == Ints([total]) && In(g, env, sub, 1) == Ints([query])
    ensures Out(g, env, sub) == Ints([total - query])
  {
    assert NodeRuns(g, env, softmax, sub);
  }

  // ----- The mask

  /** A square mask as a tensor: its cells are those of the constant. */
  ghost predicate HoldsMask(v: Value, w: nat, unidirectional: bool) {
    && v.Reals? && v.t.dims == [1, 1, w, w]
    && (forall r: nat, c: nat :: r < w && c < w ==>
          Get(v.t, [0, 0, r, c]) == if unidirectional && c > r then 0.0 else 1.0)
  }

  lemma MaskCell(t: RealTensor, w: nat, r: nat, c: nat)
    requires t.dims == [1, 1, w, w] && |t.data| == w * w && r < w && c < w
    ensures Get(t, [0, 0, r, c]) == t.data[CellIndex(w, r, c)]
  {
    Offset4([0, 0, r, c], t.dims);
  }

  lemma MaskHolds(g: Graph, env: Env, mask: Name, unidirectional: bool) returns (w: nat)
    requires Constants(g, env) && IsMask(g, mask, unidirectional)
    ensures MaskWidth(g, mask) == Some(w) && HoldsMask(env(mask), w, unidirectional)
  {
    var v := env(mask);
    assert HoldsData(v, g.initializers[mask].data) && HoldsShape(v, g.shapes[mask]);
    w := v.t.dims[2];
    assert v.t.dims == [v.t.dims[0], v.t.dims[1], v.t.dims[2], v.t.dims[3]];
    forall r: nat, c: nat | r < w && c < w
      ensures Get(v.t, [0, 0, r, c]) == if unidirectional && c > r then 0.0 else 1.0
    {
      MaskCell(v.t, w, r, c);
    }
  }

  lemma MaskSliceParameters(g: Graph, env: Env, slice: NodeIndex, axis: int)
    requires Constants(g, env) && CheckSliceParameters(g, slice, [3, 4], [axis, 1]) && 0 <= axis < INT_MAX
    ensures UnitStep(g, env, slice) && In(g, env, slice, 3) == Ints([axis])
  {
    assert SliceParameter(g, g.At(slice).Input([3, 4][0]), [axis, 1][0]);
    assert SliceParameter(g, g.At(slice).Input([3, 4][1]), [axis, 1][1]);
    hide SliceParameter, Constants;
    ParameterIsOne(g, env, g.At(slice).Input(3), axis);
    ParameterIsOne(g, env, g.At(slice).Input(4), 1);
  }

  lemma LastSliceStart(g: Graph, env: Env, slice: NodeIndex)
    requires Constants(g, env) && CheckSliceParameters(g, slice, [1, 3, 4], [0, 3, 1])
    ensures UnitStep(g, env, slice) && In(g, env, slice, 1) == Ints([0]) && In(g, env, slice, 3) == Ints([3])
  {
    assert SliceParameter(g, g.At(slice).Input([1, 3, 4][0]), [0, 3, 1][0]);
    assert SliceParameter(g, g.At(slice).Input([1, 3, 4][1]), [0, 3, 1][1]);
    assert SliceParameter(g, g.At(slice).Input([1, 3, 4][2]), [0, 3, 1][2]);
    hide SliceParameter, Constants;
    ParameterIsOne(g, env, g.At(slice).Input(1), 0);
    ParameterIsOne(g, env, g.At(slice).Input(3), 3);
    ParameterIsOne(g, env, g.At(slice).Input(4), 1);
  }

  /** The part of a square mask for `query` rows that end with row `total`. */
  ghost predicate HoldsWindow(v: Value, query: nat, total: nat, unidirectional: bool) {
    && v.Reals? && v.t.dims == [1, 1, query, total]
    && (forall i: nat, j: nat :: i < query && j < total ==>
          Get(v.t, [0, 0, i, j]) == if unidirectional && j > total - query + i then 0.0 else 1.0)
  }

  /** Cutting rows and then columns out of the mask. */
  lemma WindowOfMask(mask: RealTensor, rows: RealTensor, window: RealTensor, w: nat, query: nat, total: nat,
                     unidirectional: bool)
    requires HoldsMask(Reals(mask), w, unidirectional) && query <= total <= w
    requires IsSlice(mask, rows, total - query, total, 2) && IsSlice(rows, window, 0, total, 3)
    ensures HoldsWindow(Reals(window), query, total, unidirectional)
  {
    hide Get, IsSlice;
    CutDims(mask, rows, window, w, query, total);
    forall i: nat, j: nat | i < query && j < total
      ensures Get(window, [0, 0, i, j]) == if unidirectional && j > total - query + i then 0.0 else 1.0
    {
      CutCell(mask, rows, window, w, query, total, i, j);
    }
  }

  lemma CutDims(mask: RealTensor, rows: RealTensor, window: RealTensor, w: nat, query: nat, total: nat)
    requires mask.dims == [1, 1, w, w] && query <= total <= w
    requires IsSlice(mask, rows, total - query, total, 2) && IsSlice(rows, window, 0, total, 3)
    ensures rows.dims == [1, 1, query, w] && window.dims == [1, 1, query, total]
  {
    hide Get;
    assert rows.dims == [1, 1, query, w];
  }

  lemma CutCell(mask: RealTensor, rows: RealTensor, window: RealTensor, w: nat, query: nat, total: nat, i: nat, j: nat)
    requires rows.dims == [1, 1, query, w] && window.dims == [1, 1, query, total] && mask.dims == [1, 1, w, w]
    requires query <= total <= w && i < query && j < total
    requires IsSlice(mask, rows, total - query, total, 2) && IsSlice(rows, window, 0, total, 3)
    ensures Get(window, [0, 0, i, j]) == Get(mask, [0, 0, i + (total - query), j])
  {
    hide Get;
    var index := [0, 0, i, j];
    assert index[3 := j + 0] == index;
    assert index[2 := i + (total - query)] == [0, 0, i + (total - query), j];
    assert Get(window, index) == Get(rows, index);
  }

  /** A cast keeps the window. */
  lemma CastWindow(g: Graph, env: Env, softmax: Softmaxing, cast: NodeIndex, query: nat, total: nat, u: bool)
    requires Executed(g, env, softmax) && HasOp(g, cast, Cast) && HoldsWindow(In(g, env, cast, 0), query, total, u)
    ensures HoldsWindow(Out(g, env, cast), query, total, u)
  {
    hide Get;
    assert NodeRuns(g, env, softmax, cast);
    var v := In(g, env, cast, 0);
    forall i: nat, j: nat | i < query && j < total
      ensures Get(Out(g, env, cast).t, [0, 0, i, j]) == Get(v.t, [0, 0, i, j])
    {}
  }

  /** A single number without dimensions, or with one; the checks of constants are documented for these. */
  predicate IsScalarValue(v: Value) {
    v.Reals? && |v.t.dims| <= 1
  }

  ghost predicate TrunkHandsOn(g: Graph, env: Env, t: UnidirTrunk) {
    && In(g, env, t.lastSlice, 0) == Out(g, env, t.maskSlice)
    && In(g, env, t.cast, 0) == Out(g, env, t.lastSlice)
    && In(g, env, t.whereNode, 0) == Out(g, env, t.cast)
    && In(g, env, t.whereNode, 1) == Out(g, env, t.div)
    && HasOp(g, t.maskSlice, Slice) && HasOp(g, t.lastSlice, Slice) && HasOp(g, t.cast, Cast)
    && HasOp(g, t.whereNode, Where)
  }

  lemma TrunkEdges(g: Graph, env: Env, root: NodeIndex, shared: bool, u: UnidirNodes)
    requires UnidirFacts(g, root, shared, u) && NamedEdges(g)
    ensures TrunkHandsOn(g, env, u.trunk)
  {
    hide Feeds, In, Out, HasOp, NamedEdges, SliceEndFacts, PastLengthFacts;
    var t := u.trunk;
    SoleEdgeHandsOn(g, env, t.maskSlice, t.lastSlice, 0);
    SoleEdgeHandsOn(g, env, t.lastSlice, t.cast, 0);
    SoleEdgeHandsOn(g, env, t.cast, t.whereNode, 0);
    EdgeHandsOn(g, env, Edge(t.div, 0, t.whereNode, 1));
  }

  lemma UnidirChecks(g: Graph, root: NodeIndex, shared: bool, u: UnidirNodes)
    requires IsUnidirMatch(g, root, shared, u)
    ensures CheckSliceParameters(g, u.trunk.lastSlice, [1, 3, 4], [0, 3, 1])
    ensures CheckSliceParameters(g, u.trunk.maskSlice, [3, 4], [2, 1])
    ensures IsMask(g, g.At(u.trunk.maskSlice).Input(0), u.unidirectional)
    ensures g.IsReal(g.At(u.trunk.whereNode).Input(2), HIDDEN, true)
  {
    hide IsMask, CheckSliceParameters, IsInputPath, UnidirCounts, IsSliceEnd, IsPastLength;
  }

  /** What reaches the condition of the Where: the rows of the mask that belong to the queries. */
  lemma WindowReachesWhere(g: Graph, env: Env, softmax: Softmaxing, root: NodeIndex, shared: bool, u: UnidirNodes,
                           d: seq<nat>, w: nat)
    requires g.WellFormed() && IsUnidirMatch(g, root, shared, u) && UnidirFacts(g, root, shared, u)
    requires Executed(g, env, softmax) && LengthSlicesHaveNoSteps(g, u)
    requires Out(g, env, u.trunk.div).Reals? && Out(g, env, u.trunk.div).t.dims == d
    requires MaskWidth(g, g.At(u.trunk.maskSlice).Input(0)) == Some(w) && |d| == 4 && d[2] <= d[3] <= w
    ensures HoldsWindow(In(g, env, u.trunk.whereNode, 0), d[2], d[3], u.unidirectional)
  {
    hide IsUnidirMatch, UnidirFacts, Executed, LengthSlicesHaveNoSteps, CheckSliceParameters, IsMask, MaskWidth,
      HoldsMask, HoldsWindow, IsSlice, UnitStep, Graph.WellFormed, TrunkHandsOn;
    ExecutedGives(g, env, softmax);
    TrunkEdges(g, env, root, shared, u);
    UnidirChecks(g, root, shared, u);
    BoundsAre(g, env, softmax, root, shared, u, d);
    MaskSliceParameters(g, env, u.trunk.maskSlice, 2);
    LastSliceStart(g, env, u.trunk.lastSlice);
    var w' := MaskHolds(g, env, g.At(u.trunk.maskSlice).Input(0), u.unidirectional);
    SlicesCutWindow(g, env, softmax, u.trunk, d[2], d[3], w, u.unidirectional);
  }

  lemma SlicesCutWindow(g: Graph, env: Env, softmax: Softmaxing, t: UnidirTrunk, query: nat, total: nat, w: nat,
                        u: bool)
    requires Executed(g, env, softmax) && TrunkHandsOn(g, env, t)
    requires HoldsMask(In(g, env, t.maskSlice, 0), w, u) && query <= total <= w
    requires UnitStep(g, env, t.maskSlice) && UnitStep(g, env, t.lastSlice)
    requires In(g, env, t.maskSlice, 1) == Ints([total - query]) && In(g, env, t.maskSlice, 2) == Ints([total])
    requires In(g, env, t.maskSlice, 3) == Ints([2])
    requires In(g, env, t.lastSlice, 1) == Ints([0]) && In(g, env, t.lastSlice, 2) == Ints([total])
    requires In(g, env, t.lastSlice, 3) == Ints([3])
    ensures HoldsWindow(In(g, env, t.whereNode, 0), query, total, u)
  {
    hide UnitStep, IsSlice, HoldsWindow, Executed, In, Out;
    var mask, rows := In(g, env, t.maskSlice, 0).t, Out(g, env, t.maskSlice);
    SliceNode(g, env, softmax, t.maskSlice, mask, total - query, total, 2);
    SliceRank(mask, rows.t, total - query, total, 2);
    SliceNode(g, env, softmax, t.lastSlice, rows.t, 0, total, 3);
    WindowOfMask(mask, rows.t, Out(g, env, t.lastSlice).t, w, query, total, u);
    CastWindow(g, env, softmax, t.cast, query, total, u);
  }

  /**
    A query may look at keys up to its own position when the mask constant is lower triangular, and at all
    of them otherwise: those scores stay, and the others are replaced by -10000. Queries are the last rows,
    so query `i` stands at the past length plus `i`.
  */
  lemma CausalMaskMeans(g: Graph, env: Env, softmax: Softmaxing, root: NodeIndex, shared: bool, u: UnidirNodes,
                        d: seq<nat>, w: nat)
    requires g.WellFormed() && IsUnidirMatch(g, root, shared, u)
    requires Executed(g, env, softmax) && LengthSlicesHaveNoSteps(g, u)
    requires IsScalarValue(In(g, env, u.trunk.whereNode, 2))
    requires Out(g, env, u.trunk.div).Reals? && Out(g, env, u.trunk.div).t.dims == d
    requires MaskWidth(g, g.At(u.trunk.maskSlice).Input(0)) == Some(w) && |d| == 4 && d[2] <= d[3] <= w
    ensures var scores, masked := Out(g, env, u.trunk.div).t, Out(g, env, u.trunk.whereNode);
      && masked.Reals? && masked.t.dims == d
      && forall index :: InDims(index, d) ==>
           Get(masked.t, index) ==
             if u.unidirectional && index[3] > d[3] - d[2] + index[2] then HIDDEN else Get(scores, index)
  {
    hide IsUnidirMatch, UnidirFacts, LengthSlicesHaveNoSteps, MaskWidth, HoldsWindow, Graph.WellFormed, Get, Constants,
      NamedEdges, Graph.IsReal;
    UnidirMatchGivesFacts(g, root, shared, u);
    ExecutedGives(g, env, softmax);
    WindowReachesWhere(g, env, softmax, root, shared, u, d, w);
    TrunkEdges(g, env, root, shared, u);
    UnidirChecks(g, root, shared, u);
    RealIsConstant(g, env, g.At(u.trunk.whereNode).Input(2), HIDDEN, true);
    WhereKeepsVisible(g, env, softmax, u.trunk.whereNode, d, u.unidirectional);
  }

  lemma WhereKeepsVisible(g: Graph, env: Env, softmax: Softmaxing, x: NodeIndex, d: seq<nat>, u: bool)
    requires Executed(g, env, softmax) && HasOp(g, x, Where) && |d| == 4 && d[2] <= d[3]
    requires HoldsWindow(In(g, env, x, 0), d[2], d[3], u)
    requires In(g, env, x, 1).Reals? && In(g, env, x, 1).t.dims == d
    requires IsScalarValue(In(g, env, x, 2)) && In(g, env, x, 2).t.data == [HIDDEN]
    ensures var scores, masked := In(g, env, x, 1).t, Out(g, env, x);
      && masked.Reals? && masked.t.dims == d
      && forall index :: InDims(index, d) ==>
           Get(masked.t, index) == if u && index[3] > d[3] - d[2] + index[2] then HIDDEN else Get(scores, index)
  {
    hide Get, Constants, NamedEdges;
    assert NodeRuns(g, env, softmax, x);
    assert CoversScores(In(g, env, x, 0).t, In(g, env, x, 1).t);
  }
}
