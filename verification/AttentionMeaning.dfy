/**
  A matched layer and the attention kernel compute the same, as far as they do: which conditions make the
  scores and the results equal.
*/
module AttentionMeaning {
  import opened Wrappers
  import opened GraphModel
  import opened GraphFacts
  import opened GemmMatch
  import opened GemmClosure
  import opened UnidirMatch
  import opened UnidirClosure
  import opened MaskMatch
  import opened PathChecks
  import opened FusionMatch
  import opened FusionFacts
  import opened Initializers
  import opened Tensors
  import opened GraphValues
  import opened CausalMask
  import opened HeadLayout
  import opened InputMask
  import opened PastState
  import opened AttentionKernel

  type Cells = (nat, nat, nat, nat) -> real

  /** A tensor of four dimensions with these elements. */
  ghost predicate HoldsGrid(v: Value, d: seq<nat>, f: Cells)
    requires |d| == 4
  {
    && v.Reals? && v.t.dims == d
    && forall a: nat, b: nat, c: nat, e: nat {:trigger f(a, b, c, e)} ::
         a < d[0] && b < d[1] && c < d[2] && e < d[3] ==> Get(v.t, [a, b, c, e]) == f(a, b, c, e)
  }

  function KeyCells(k: Task): Cells {
    (b: nat, n: nat, h: nat, t: nat) => KernelKey(k, b, n, t, h)
  }

  function ValueCells(k: Task): Cells {
    (b: nat, n: nat, t: nat, h: nat) => KernelValue(k, b, n, t, h)
  }

  function QueryCells(k: Task): Cells {
    (b: nat, n: nat, s: nat, h: nat) => HeadOf(k.q, k.z, b, n, s, h)
  }

  /** What the kernel is given is what the matched nodes work on. */
  ghost predicate SameInputs(g: Graph, env: Env, m: Fusion, k: Task) {
    && k.z.Positive() && k.z.heads == m.projection.numHeads
    && HoldsProjection(g, env, m.value.split, k.q, k.k, k.v, k.z)
    && (match m.past
        case None => k.past == 0
        case Some(p) =>
          && PastAxes(g, p) && In(g, env, p.pastKGather, 0) == Reals(k.state)
          && k.state.dims == [2, k.z.batch, k.z.heads, k.past, k.z.headSize])
  }

  // ----- Queries, keys and values

  lemma HeadsAsGrid(v: Value, x: RealTensor, k: Task)
    ensures HoldsHeads(v, x, k.z) ==>
      HoldsGrid(v, [k.z.batch, k.z.heads, k.z.length, k.z.headSize],
                (b: nat, n: nat, s: nat, h: nat) => HeadOf(x, k.z, b, n, s, h))
  {
    hide Get, HeadOf;
    if HoldsHeads(v, x, k.z) {
      forall b: nat, n: nat, s: nat, h: nat | InSizes(k.z, b, n, s, h)
        ensures Get(v.t, [b, n, s, h]) == HeadOf(x, k.z, b, n, s, h)
      {}
    }
  }

  lemma QueriesMean(g: Graph, env: Env, softmax: Softmaxing, layerNorm: NodeIndex, hiddenSize: int, shared: bool,
                    nanMatches: bool, m: Fusion, k: Task)
    requires g.WellFormed() && IsFusion(g, layerNorm, hiddenSize, shared, nanMatches, m)
    requires Executed(g, env, softmax) && SameInputs(g, env, m, k)
    ensures HoldsGrid(Out(g, env, m.queryKey.qTranspose), [k.z.batch, k.z.heads, k.z.length, k.z.headSize],
                      QueryCells(k))
  {
    hide IsFusion, Executed, HoldsHeads, HoldsKeys, HoldsProjection, HoldsGrid;
    HeadsAreColumns(g, env, softmax, layerNorm, hiddenSize, shared, nanMatches, m, k.q, k.k, k.v, k.z);
    HeadsAsGrid(Out(g, env, m.queryKey.qTranspose), k.q, k);
  }

  lemma ConcatHandsOn(g: Graph, env: Env, softmax: Softmaxing, x: NodeIndex, y: NodeIndex, slot: nat)
    requires Executed(g, env, softmax) && HasOp(g, x, Concat) && Produces(g, x, y, slot)
    ensures In(g, env, y, slot) == Out(g, env, x)
  {
    assert NodeRuns(g, env, softmax, x);
    var a: nat :| Edge(x, a, y, slot) in g.edges;
    EdgeHandsOn(g, env, Edge(x, a, y, slot));
  }

  /** Without a past the transposed keys, and with one the joined keys, go into the product. */
  lemma KeySource(g: Graph, env: Env, softmax: Softmaxing, shared: bool, m: Fusion)
    requires Facts(g, shared, m) && Executed(g, env, softmax)
    ensures match m.past
      case None => In(g, env, m.queryKey.qkMatmul, 1) == Out(g, env, m.queryKey.kTranspose)
      case Some(p) =>
        && In(g, env, p.kConcat, 1) == Out(g, env, m.queryKey.kTranspose)
        && In(g, env, m.queryKey.qkMatmul, 1) == Out(g, env, p.kConcat)
        && PastHandsOn(g, env, p) && PastOps(g, p)
  {
    hide GemmFacts, MaskFacts, UnidirFacts, ValueFacts, Executed, In, Out, PastHandsOn, PastOps, Feeds;
    ExecutedGives(g, env, softmax);
    EdgeHandsOn(g, env, Edge(m.queryKey.kTranspose, 0, m.queryKey.kSource, 1));
    if m.past.Some? {
      var p := m.past.value;
      PastEdges(g, env, m.queryKey.qkMatmul, m.value.qkvMatmul, p);
      ConcatHandsOn(g, env, softmax, p.kConcat, m.queryKey.qkMatmul, 1);
    }
  }

  lemma ValueSource(g: Graph, env: Env, softmax: Softmaxing, shared: bool, m: Fusion)
    requires Facts(g, shared, m) && Executed(g, env, softmax)
    ensures match m.past
      case None => In(g, env, m.value.qkvMatmul, 1) == Out(g, env, m.value.vTranspose)
      case Some(p) =>
        && In(g, env, p.vConcat, 1) == Out(g, env, m.value.vTranspose)
        && In(g, env, m.value.qkvMatmul, 1) == Out(g, env, p.vConcat)
        && PastHandsOn(g, env, p) && PastOps(g, p)
  {
    hide GemmFacts, MaskFacts, UnidirFacts, QueryKeyFacts, Executed, In, Out, PastHandsOn, PastOps, Feeds;
    ExecutedGives(g, env, softmax);
    SoleEdgeHandsOn(g, env, m.value.vTranspose, m.value.vSource, 1);
    if m.past.Some? {
      var p := m.past.value;
      PastEdges(g, env, m.queryKey.qkMatmul, m.value.qkvMatmul, p);
      ConcatHandsOn(g, env, softmax, p.vConcat, m.value.qkvMatmul, 1);
    }
  }

  lemma KeysAsGrid(v: Value, k: Task)
    requires k.past == 0 && HoldsKeys(v, k.k, k.z)
    ensures HoldsGrid(v, [k.z.batch, k.z.heads, k.z.headSize, k.Total()], KeyCells(k))
  {
    hide Get, HeadOf;
    forall b: nat, n: nat, h: nat, t: nat | InTotal(k.z, k.Total(), b, n, t, h)
      ensures Get(v.t, [b, n, h, t]) == KernelKey(k, b, n, t, h)
    {
      assert InSizes(k.z, b, n, t, h);
      assert HeadOf(k.k, k.z, b, n, t, h) == HeadOf(k.k, k.z, b, n, t - k.past, h);
    }
  }

  lemma ValuesAsGrid(v: Value, k: Task)
    requires k.past == 0 && HoldsHeads(v, k.v, k.z)
    ensures HoldsGrid(v, [k.z.batch, k.z.heads, k.Total(), k.z.headSize], ValueCells(k))
  {
    hide Get, HeadOf;
    forall b: nat, n: nat, t: nat, h: nat | InTotal(k.z, k.Total(), b, n, t, h)
      ensures Get(v.t, [b, n, t, h]) == KernelValue(k, b, n, t, h)
    {
      assert InSizes(k.z, b, n, t, h);
      assert HeadOf(k.v, k.z, b, n, t, h) == HeadOf(k.v, k.z, b, n, t - k.past, h);
    }
  }

  lemma AllKeysAsGrid(v: Value, keys: Value, k: Task)
    requires HoldsKeys(keys, k.k, k.z) && HoldsAllKeys(v, k.state, keys.t, k.z, k.past)
    ensures HoldsGrid(v, [k.z.batch, k.z.heads, k.z.headSize, k.Total()], KeyCells(k))
  {
    hide Get, HeadOf;
    forall b: nat, n: nat, h: nat, t: nat | InTotal(k.z, k.Total(), b, n, t, h)
      ensures Get(v.t, [b, n, h, t]) == KernelKey(k, b, n, t, h)
    {
      assert Get(v.t, [b, n, h, t]) == KeyAt(k.state, keys.t, k.past, b, n, t, h);
      if t >= k.past {
        assert InSizes(k.z, b, n, t - k.past, h);
        assert Get(keys.t, [b, n, h, t - k.past]) == HeadOf(k.k, k.z, b, n, t - k.past, h);
      }
    }
  }

  lemma AllValuesAsGrid(v: Value, values: Value, k: Task)
    requires HoldsHeads(values, k.v, k.z) && HoldsAllValues(v, k.state, values.t, k.z, k.past)
    ensures HoldsGrid(v, [k.z.batch, k.z.heads, k.Total(), k.z.headSize], ValueCells(k))
  {
    hide Get, HeadOf;
    forall b: nat, n: nat, t: nat, h: nat | InTotal(k.z, k.Total(), b, n, t, h)
      ensures Get(v.t, [b, n, t, h]) == KernelValue(k, b, n, t, h)
    {
      assert Get(v.t, [b, n, t, h]) == ValueAt(k.state, values.t, k.past, b, n, t, h);
      if t >= k.past {
        assert InSizes(k.z, b, n, t - k.past, h);
        assert Get(values.t, [b, n, t - k.past, h]) == HeadOf(k.v, k.z, b, n, t - k.past, h);
      }
    }
  }

  lemma PastIsChecked(g: Graph, layerNorm: NodeIndex, hiddenSize: int, shared: bool, nanMatches: bool, m: Fusion)
    requires IsFusion(g, layerNorm, hiddenSize, shared, nanMatches, m) && m.past.Some?
    ensures PastValues(g, m.past.value)
  {
    hide IsFront, IsMasked, IsQueryKey, IsInputPath, IsOutputPath, PastCounts, PastValues;
  }

  /** The second factor of the first product: all keys, of the past and new. */
  lemma KeysMean(g: Graph, env: Env, softmax: Softmaxing, layerNorm: NodeIndex, hiddenSize: int, shared: bool,
                 nanMatches: bool, m: Fusion, k: Task)
    requires g.WellFormed() && IsFusion(g, layerNorm, hiddenSize, shared, nanMatches, m) && Facts(g, shared, m)
    requires Executed(g, env, softmax) && SameInputs(g, env, m, k)
    ensures HoldsGrid(In(g, env, m.queryKey.qkMatmul, 1), [k.z.batch, k.z.heads, k.z.headSize, k.Total()], KeyCells(k))
  {
    hide IsFusion, Facts, Executed, HoldsHeads, HoldsKeys, HoldsProjection, HoldsGrid, KeyCells, PastAxes, PastValues,
      PastHandsOn, PastOps, HoldsAllKeys, Graph.WellFormed;
    HeadsAreColumns(g, env, softmax, layerNorm, hiddenSize, shared, nanMatches, m, k.q, k.k, k.v, k.z);
    KeySource(g, env, softmax, shared, m);
    var keys := Out(g, env, m.queryKey.kTranspose);
    match m.past {
      case None => KeysAsGrid(keys, k);
      case Some(p) =>
        PastIsChecked(g, layerNorm, hiddenSize, shared, nanMatches, m);
        assert keys.Reals? && keys.t.dims == [k.z.batch, k.z.heads, k.z.headSize, k.z.length] by {
          KeysAreReals(keys, k.k, k.z);
        }
        PastKeysMean(g, env, softmax, p, k.state, keys.t, k.z, k.past);
        AllKeysAsGrid(Out(g, env, p.kConcat), keys, k);
    }
  }

  lemma KeysAreReals(v: Value, x: RealTensor, z: Sizes)
    requires HoldsKeys(v, x, z)
    ensures v.Reals? && v.t.dims == [z.batch, z.heads, z.headSize, z.length]
  {}

  lemma HeadsAreReals(v: Value, x: RealTensor, z: Sizes)
    requires HoldsHeads(v, x, z)
    ensures v.Reals? && v.t.dims == [z.batch, z.heads, z.length, z.headSize]
  {}

  /** The second factor of the last product: all values, of the past and new. */
  lemma ValuesMean(g: Graph, env: Env, softmax: Softmaxing, layerNorm: NodeIndex, hiddenSize: int, shared: bool,
                   nanMatches: bool, m: Fusion, k: Task)
    requires g.WellFormed() && IsFusion(g, layerNorm, hiddenSize, shared, nanMatches, m) && Facts(g, shared, m)
    requires Executed(g, env, softmax) && SameInputs(g, env, m, k)
    ensures HoldsGrid(In(g, env, m.value.qkvMatmul, 1), [k.z.batch, k.z.heads, k.Total(), k.z.headSize], ValueCells(k))
  {
    hide IsFusion, Facts, Executed, HoldsHeads, HoldsKeys, HoldsProjection, HoldsGrid, ValueCells, PastAxes, PastValues,
      PastHandsOn, PastOps, HoldsAllValues, Graph.WellFormed;
    HeadsAreColumns(g, env, softmax, layerNorm, hiddenSize, shared, nanMatches, m, k.q, k.k, k.v, k.z);
    ValueSource(g, env, softmax, shared, m);
    var values := Out(g, env, m.value.vTranspose);
    match m.past {
      case None => ValuesAsGrid(values, k);
      case Some(p) =>
        PastIsChecked(g, layerNorm, hiddenSize, shared, nanMatches, m);
        assert values.Reals? && values.t.dims == [k.z.batch, k.z.heads, k.z.length, k.z.headSize] by {
          HeadsAreReals(values, k.v, k.z);
        }
        assert In(g, env, p.pastVGather, 0) == In(g, env, p.pastKGather, 0) by { SamePast(g, p); }
        PastValuesMean(g, env, softmax, p, k.state, values.t, k.z, k.past);
        AllValuesAsGrid(Out(g, env, p.vConcat), values, k);
    }
  }

  lemma SamePast(g: Graph, p: PastNodes)
    requires PastValues(g, p)
    ensures g.At(p.pastVGather).Input(0) == g.At(p.pastKGather).Input(0)
  {}

  // ----- Scores

  /** The products of the rows of `f` and the columns of `h`. */
  function ProductCells(n: nat, f: Cells, h: Cells): Cells {
    (a: nat, b: nat, c: nat, e: nat) => Sum(n, (l: nat) => f(a, b, c, l) * h(a, b, l, e))
  }

  lemma MatMulAsGrid(x: RealTensor, y: RealTensor, z: RealTensor, d: seq<nat>, n: nat, f: Cells, h: Cells)
    requires |d| == 4 && |x.dims| == |y.dims| == 4 && IsMatMul(x, y, z)
    requires HoldsGrid(Reals(x), [d[0], d[1], d[2], n], f) && HoldsGrid(Reals(y), [d[0], d[1], n, d[3]], h)
    ensures HoldsGrid(Reals(z), d, ProductCells(n, f, h))
  {
    hide Get;
    assert z.dims == d;
    forall a: nat, b: nat, c: nat, e: nat | a < d[0] && b < d[1] && c < d[2] && e < d[3]
      ensures Get(z, [a, b, c, e]) == ProductCells(n, f, h)(a, b, c, e)
    {
      var index := [a, b, c, e];
      assert InDims(index, z.dims);
      var left := (l: nat) => Get(x, [a, b, c, l]) * Get(y, [a, b, l, e]);
      var right := (l: nat) => f(a, b, c, l) * h(a, b, l, e);
      assert Get(z, index) == Sum(n, left) by {
        SameSum(n, left, (l: nat) =>
          Get(x, [index[0], index[1], index[2], l]) * Get(y, [index[0], index[1], l, index[3]]));
      }
      forall l: nat | l < n
        ensures left(l) == right(l)
      {
        assert Get(x, [a, b, c, l]) == f(a, b, c, l) && Get(y, [a, b, l, e]) == h(a, b, l, e);
      }
      SameSum(n, left, right);
    }
  }

  function RawCells(k: Task): Cells {
    (b: nat, n: nat, s: nat, t: nat) => KeyProduct(k, b, n, s, t)
  }

  lemma RawCellsAreProducts(k: Task, b: nat, n: nat, s: nat, t: nat)
    ensures ProductCells(k.z.headSize, QueryCells(k), KeyCells(k))(b, n, s, t) == RawCells(k)(b, n, s, t)
  {
    hide HeadOf, KernelKey;
    var f, h := QueryCells(k), KeyCells(k);
    var left := (l: nat) => f(b, n, s, l) * h(b, n, l, t);
    var right := (h: nat) => HeadOf(k.q, k.z, b, n, s, h) * KernelKey(k, b, n, t, h);
    forall l: nat
      ensures left(l) == right(l)
    {
      assert f(b, n, s, l) == HeadOf(k.q, k.z, b, n, s, l) && h(b, n, l, t) == KernelKey(k, b, n, t, l);
    }
    SameSum(k.z.headSize, left, right);
  }

  lemma SameGrid(v: Value, d: seq<nat>, f: Cells, h: Cells)
    requires |d| == 4 && HoldsGrid(v, d, f)
    requires forall a, b, c, e {:trigger h(a, b, c, e)} :: f(a, b, c, e) == h(a, b, c, e)
    ensures HoldsGrid(v, d, h)
  {
    hide Get;
    forall a: nat, b: nat, c: nat, e: nat | a < d[0] && b < d[1] && c < d[2] && e < d[3]
      ensures Get(v.t, [a, b, c, e]) == h(a, b, c, e)
    {
      assert Get(v.t, [a, b, c, e]) == f(a, b, c, e);
    }
  }

  function ScoreDims(k: Task): seq<nat> {
    [k.z.batch, k.z.heads, k.z.length, k.Total()]
  }

  lemma GridIsReal(v: Value, d: seq<nat>, f: Cells)
    requires |d| == 4 && HoldsGrid(v, d, f)
    ensures v.Reals? && v.t.dims == d
  {}

  /** A MatMul node on two such tensors. */
  lemma NodeMultiplies(g: Graph, env: Env, softmax: Softmaxing, x: NodeIndex, d: seq<nat>, n: nat, f: Cells, h: Cells)
    requires Executed(g, env, softmax) && HasOp(g, x, MatMul) && |d| == 4
    requires HoldsGrid(In(g, env, x, 0), [d[0], d[1], d[2], n], f)
    requires HoldsGrid(In(g, env, x, 1), [d[0], d[1], n, d[3]], h)
    ensures HoldsGrid(Out(g, env, x), d, ProductCells(n, f, h))
  {
    hide HoldsGrid, IsMatMul, NamedEdges, Constants;
    var a, b := In(g, env, x, 0), In(g, env, x, 1);
    GridIsReal(a, [d[0], d[1], d[2], n], f);
    GridIsReal(b, [d[0], d[1], n, d[3]], h);
    assert NodeRuns(g, env, softmax, x);
    assert a.t.dims[..2] == b.t.dims[..2];
    MatMulAsGrid(a.t, b.t, Out(g, env, x).t, d, n, f, h);
  }

  lemma RawScoresMean(g: Graph, env: Env, softmax: Softmaxing, layerNorm: NodeIndex, hiddenSize: int, shared: bool,
                      nanMatches: bool, m: Fusion, k: Task)
    requires g.WellFormed() && IsFusion(g, layerNorm, hiddenSize, shared, nanMatches, m) && Facts(g, shared, m)
    requires Executed(g, env, softmax) && SameInputs(g, env, m, k)
    ensures HoldsGrid(Out(g, env, m.queryKey.qkMatmul), ScoreDims(k), RawCells(k))
  {
    hide IsFusion, Facts, Executed, HoldsGrid, KeyCells, QueryCells, RawCells, ProductCells, SameInputs,
      Graph.WellFormed;
    QueriesMean(g, env, softmax, layerNorm, hiddenSize, shared, nanMatches, m, k);
    KeysMean(g, env, softmax, layerNorm, hiddenSize, shared, nanMatches, m, k);
    QueryHandsOn(g, env, softmax, shared, m);
    NodeMultiplies(g, env, softmax, m.queryKey.qkMatmul, ScoreDims(k), k.z.headSize, QueryCells(k), KeyCells(k));
    forall b, n, s, t
      ensures ProductCells(k.z.headSize, QueryCells(k), KeyCells(k))(b, n, s, t) == RawCells(k)(b, n, s, t)
    {
      RawCellsAreProducts(k, b, n, s, t);
    }
    SameGrid(Out(g, env, m.queryKey.qkMatmul), ScoreDims(k), ProductCells(k.z.headSize, QueryCells(k), KeyCells(k)),
      RawCells(k));
  }

  lemma QueryHandsOn(g: Graph, env: Env, softmax: Softmaxing, shared: bool, m: Fusion)
    requires Facts(g, shared, m) && Executed(g, env, softmax)
    ensures In(g, env, m.queryKey.qkMatmul, 0) == Out(g, env, m.queryKey.qTranspose)
    ensures In(g, env, m.unidir.trunk.div, 0) == Out(g, env, m.queryKey.qkMatmul)
    ensures HasOp(g, m.queryKey.qkMatmul, MatMul) && HasOp(g, m.unidir.trunk.div, Div)
  {
    hide GemmFacts, MaskFacts, PastFacts, ValueFacts, Executed, In, Out, Feeds, SliceEndFacts, PastLengthFacts;
    ExecutedGives(g, env, softmax);
    EdgeHandsOn(g, env, Edge(m.queryKey.qTranspose, 0, m.queryKey.qkMatmul, 0));
    EdgeHandsOn(g, env, Edge(m.queryKey.qkMatmul, 0, m.unidir.trunk.div, 0));
  }

  /** The number the scores are divided by. */
  predicate DividesBy(g: Graph, env: Env, m: Fusion, divisor: Divisor) {
    IsScalarValue(In(g, env, m.unidir.trunk.div, 1)) && In(g, env, m.unidir.trunk.div, 1).t.data == [divisor]
   
  }

  function DividedCells(k: Task, divisor: Divisor): Cells
  {
    (b: nat, n: nat, s: nat, t: nat) => KeyProduct(k, b, n, s, t) / divisor
  }

  lemma NodeDivides(g: Graph, env: Env, softmax: Softmaxing, x: NodeIndex, k: Task, divisor: Divisor)
    requires Executed(g, env, softmax) && HasOp(g, x, Div)
    requires IsScalarValue(In(g, env, x, 1)) && In(g, env, x, 1).t.data == [divisor]
    requires HoldsGrid(In(g, env, x, 0), ScoreDims(k), RawCells(k))
    ensures HoldsGrid(Out(g, env, x), ScoreDims(k), DividedCells(k, divisor))
  {
    hide Get, KeyProduct, NamedEdges, Constants;
    assert NodeRuns(g, env, softmax, x);
    var a, b := In(g, env, x, 0).t, Out(g, env, x);
    assert b.Reals? && b.t.dims == a.dims;
    forall i: nat, j: nat, s: nat, t: nat | i < k.z.batch && j < k.z.heads && s < k.z.length && t < k.Total()
      ensures Get(b.t, [i, j, s, t]) == KeyProduct(k, i, j, s, t) / divisor
    {
      assert InDims([i, j, s, t], a.dims);
      assert Get(a, [i, j, s, t]) == RawCells(k)(i, j, s, t);
    }
  }

  /** The score with its causal mask. */
  function VisibleScore(k: Task, divisor: Divisor, b: nat, n: nat, s: nat, t: nat): real
  {
    if k.unidirectional && t > k.past + s then HIDDEN else KeyProduct(k, b, n, s, t) / divisor
  }

  function VisibleCells(k: Task, divisor: Divisor): Cells
  {
    (b: nat, n: nat, s: nat, t: nat) => VisibleScore(k, divisor, b, n, s, t)
  }

  /** Scores after the Where: those of hidden keys are replaced. */
  lemma MaskedScoresMean(g: Graph, env: Env, softmax: Softmaxing, layerNorm: NodeIndex, hiddenSize: int, shared: bool,
                         nanMatches: bool, m: Fusion, k: Task, divisor: Divisor)
    requires g.WellFormed() && IsFusion(g, layerNorm, hiddenSize, shared, nanMatches, m) && Facts(g, shared, m)
    requires Executed(g, env, softmax) && SameInputs(g, env, m, k) && DividesBy(g, env, m, divisor)
    requires FitsMask(g, env, m, k)
    ensures HoldsGrid(Out(g, env, m.unidir.trunk.whereNode), ScoreDims(k), VisibleCells(k, divisor))
  {
    hide IsFusion, Facts, Executed, HoldsGrid, RawCells, DividedCells, VisibleCells, SameInputs, IsUnidirMatch,
      LengthSlicesHaveNoSteps, Graph.WellFormed, Get;
    RawScoresMean(g, env, softmax, layerNorm, hiddenSize, shared, nanMatches, m, k);
    QueryHandsOn(g, env, softmax, shared, m);
    NodeDivides(g, env, softmax, m.unidir.trunk.div, k, divisor);
    var scores := Out(g, env, m.unidir.trunk.div);
    GridIsReal(scores, ScoreDims(k), DividedCells(k, divisor));
    UnidirIsMatched(g, layerNorm, hiddenSize, shared, nanMatches, m);
    var w := MaskWidth(g, g.At(m.unidir.trunk.maskSlice).Input(0)).value;
    CausalMaskMeans(g, env, softmax, m.mask.Root(), shared, m.unidir, ScoreDims(k), w);
    VisibleAsGrid(scores, Out(g, env, m.unidir.trunk.whereNode), k, divisor);
  }

  lemma UnidirIsMatched(g: Graph, layerNorm: NodeIndex, hiddenSize: int, shared: bool, nanMatches: bool, m: Fusion)
    requires IsFusion(g, layerNorm, hiddenSize, shared, nanMatches, m)
    ensures IsUnidirMatch(g, m.mask.Root(), shared, m.unidir) && IsMaskMatch(g, m.value.qkvMatmul, true, m.mask)
  {
    hide IsFront, IsKeyed, IsMaskMatch, IsUnidirMatch;
  }

  /** The mask constant is as wide as the keys are many, and the fused node is causal if the constant is. */
  predicate FitsMask(g: Graph, env: Env, m: Fusion, k: Task) {
    && MaskWidth(g, g.At(m.unidir.trunk.maskSlice).Input(0)).Some?
    && k.Total() <= MaskWidth(g, g.At(m.unidir.trunk.maskSlice).Input(0)).value
    && k.unidirectional == m.unidir.unidirectional
    && LengthSlicesHaveNoSteps(g, m.unidir) && IsScalarValue(In(g, env, m.unidir.trunk.whereNode, 2))
  }

  lemma VisibleAsGrid(scores: Value, masked: Value, k: Task, divisor: Divisor)
    requires HoldsGrid(scores, ScoreDims(k), DividedCells(k, divisor))
    requires masked.Reals? && masked.t.dims == ScoreDims(k)
    requires forall index :: InDims(index, ScoreDims(k)) ==>
      Get(masked.t, index) == if k.unidirectional && index[3] > k.Total() - k.z.length + index[2] then HIDDEN
                              else Get(scores.t, index)
    ensures HoldsGrid(masked, ScoreDims(k), VisibleCells(k, divisor))
  {
    hide Get, KeyProduct;
    forall b: nat, n: nat, s: nat, t: nat | b < k.z.batch && n < k.z.heads && s < k.z.length && t < k.Total()
      ensures Get(masked.t, [b, n, s, t]) == VisibleCells(k, divisor)(b, n, s, t)
    {
      assert InDims([b, n, s, t], ScoreDims(k));
      assert Get(scores.t, [b, n, s, t]) == DividedCells(k, divisor)(b, n, s, t);
    }
  }

  // ----- The input mask

  /** The kernel is given the mask of the match, as integers, or none. */
  ghost predicate SameMask(g: Graph, env: Env, m: Fusion, k: Task) {
    match m.mask
    case NoInputMask(softmax) => k.mask.None? && OverLastOfFour(g, softmax)
    case InputMask(softmax, add, chain) =>
      && k.mask.Some? && k.mask.value.dims == [k.z.batch, k.Total()] && ChainScalars(g, env, chain)
      && IsKeyMask(In(g, env, chain.unsqueeze1, 0), k.z.batch, k.Total())
      && forall b: nat, t: nat :: b < k.z.batch && t < k.Total() ==>
           EntryOf(k, b, t) as real == Get(In(g, env, chain.unsqueeze1, 0).t, [b, t])
  }

  function EntryOf(k: Task, b: nat, t: nat): int {
    if k.mask.Some? then EntryAt(k.mask.value, b * k.Total() + t) else 1
  }

  /** The score the Softmax sees. */
  function GraphScore(k: Task, divisor: Divisor, b: nat, n: nat, s: nat, t: nat): real
  {
    VisibleScore(k, divisor, b, n, s, t) + if EntryOf(k, b, t) <= 0 then HIDDEN else 0.0
  }

  function GraphCells(k: Task, divisor: Divisor): Cells
  {
    (b: nat, n: nat, s: nat, t: nat) => GraphScore(k, divisor, b, n, s, t)
  }

  lemma NodeAddsMask(g: Graph, env: Env, softmax: Softmaxing, add: NodeIndex, k: Task, divisor: Divisor,
                     mask: RealTensor)
    requires Executed(g, env, softmax) && HasOp(g, add, Add)
    requires HoldsGrid(In(g, env, add, 0), ScoreDims(k), VisibleCells(k, divisor))
    requires mask.dims == [k.z.batch, k.Total()] && HoldsKeyRow(In(g, env, add, 1), mask, Penalty)
    requires IsKeyMask(Reals(mask), k.z.batch, k.Total())
    requires forall b: nat, t: nat :: b < k.z.batch && t < k.Total() ==> EntryOf(k, b, t) as real == Get(mask, [b, t])
    ensures HoldsGrid(Out(g, env, add), ScoreDims(k), GraphCells(k, divisor))
  {
    hide Get, VisibleScore, EntryOf, NamedEdges, Constants;
    assert NodeRuns(g, env, softmax, add);
    var x, y, z := In(g, env, add, 0).t, In(g, env, add, 1).t, Out(g, env, add);
    assert z.Reals? && IsRowAdd(x, y, z.t);
    forall b: nat, n: nat, s: nat, t: nat | b < k.z.batch && n < k.z.heads && s < k.z.length && t < k.Total()
      ensures Get(z.t, [b, n, s, t]) == GraphCells(k, divisor)(b, n, s, t)
    {
      assert InDims([b, n, s, t], x.dims);
      assert Get(x, [b, n, s, t]) == VisibleCells(k, divisor)(b, n, s, t);
      assert Get(y, [b, 0, 0, t]) == Penalty(Get(mask, [b, t]));
      assert Get(mask, [b, t]) == EntryOf(k, b, t) as real;
    }
  }

  lemma MaskHandsOn(g: Graph, env: Env, softmax: Softmaxing, shared: bool, m: Fusion)
    requires Facts(g, shared, m) && Executed(g, env, softmax)
    ensures In(g, env, m.mask.Root(), 0) == Out(g, env, m.unidir.trunk.whereNode)
    ensures m.mask.InputMask? ==> In(g, env, m.mask.softmax, 0) == Out(g, env, m.mask.add) && HasOp(g, m.mask.add, Add)
    ensures In(g, env, m.value.qkvMatmul, 0) == Out(g, env, m.mask.softmax) && HasOp(g, m.mask.softmax, Softmax)
  {
    hide GemmFacts, PastFacts, ValueFacts, QueryKeyFacts, Executed, In, Out, Feeds, SliceEndFacts, PastLengthFacts;
    ExecutedGives(g, env, softmax);
    SoleEdgeHandsOn(g, env, m.unidir.trunk.whereNode, m.mask.Root(), 0);
    if m.mask.InputMask? {
      SoleEdgeHandsOn(g, env, m.mask.add, m.mask.softmax, 0);
    }
    SoleEdgeHandsOn(g, env, m.mask.softmax, m.value.qkvMatmul, 0);
  }

  lemma NoMaskAsGrid(v: Value, k: Task, divisor: Divisor)
    requires k.mask.None? && HoldsGrid(v, ScoreDims(k), VisibleCells(k, divisor))
    ensures HoldsGrid(v, ScoreDims(k), GraphCells(k, divisor))
  {
    hide VisibleScore, HoldsGrid;
    forall b, n, s, t
      ensures VisibleCells(k, divisor)(b, n, s, t) == GraphCells(k, divisor)(b, n, s, t)
    {}
    SameGrid(v, ScoreDims(k), VisibleCells(k, divisor), GraphCells(k, divisor));
  }

  /** What the fusion leaves unchecked around the scores, and the values both sides share. */
  ghost predicate SameTask(g: Graph, env: Env, m: Fusion, k: Task) {
    SameInputs(g, env, m, k) && FitsMask(g, env, m, k) && SameMask(g, env, m, k)
  }

  /** The scores of a matched layer. */
  lemma GraphScoresMean(g: Graph, env: Env, softmax: Softmaxing, layerNorm: NodeIndex, hiddenSize: int, shared: bool,
                        nanMatches: bool, m: Fusion, k: Task, divisor: Divisor)
    requires g.WellFormed() && IsFusion(g, layerNorm, hiddenSize, shared, nanMatches, m)
    requires Executed(g, env, softmax) && SameTask(g, env, m, k) && DividesBy(g, env, m, divisor)
    ensures HoldsGrid(In(g, env, m.mask.softmax, 0), ScoreDims(k), GraphCells(k, divisor))
  {
    hide IsFusion, Facts, Executed, HoldsGrid, VisibleCells, GraphCells, SameInputs, FitsMask, IsUnidirMatch,
      Graph.WellFormed, Get, HoldsKeyRow, IsChain, IsInputPath, ChainScalars, IsKeyMask, EntryOf;
    FusionGivesFacts(g, layerNorm, hiddenSize, shared, nanMatches, m);
    MaskedScoresMean(g, env, softmax, layerNorm, hiddenSize, shared, nanMatches, m, k, divisor);
    MaskHandsOn(g, env, softmax, shared, m);
    UnidirIsMatched(g, layerNorm, hiddenSize, shared, nanMatches, m);
    match m.mask {
      case NoInputMask(_) => NoMaskAsGrid(In(g, env, m.mask.softmax, 0), k, divisor);
      case InputMask(_, add, chain) =>
        var v := In(g, env, chain.unsqueeze1, 0);
        KeyMaskIsReal(v, k.z.batch, k.Total());
        InputMaskMeans(g, env, softmax, m.mask.softmax, add, chain, v.t);
        NodeAddsMask(g, env, softmax, add, k, divisor, v.t);
    }
  }

  lemma KeyMaskIsReal(v: Value, batch: nat, total: nat)
    requires IsKeyMask(v, batch, total)
    ensures v.Reals? && v.t.dims == [batch, total]
  {}

  // ----- Result

  function GraphRow(k: Task, divisor: Divisor, b: nat, n: nat, s: nat): seq<real>
  {
    seq(k.Total(), (t: nat) => GraphScore(k, divisor, b, n, s, t))
  }

  function WeightCells(k: Task, softmax: Softmaxing, divisor: Divisor): Cells
  {
    (b: nat, n: nat, s: nat, t: nat) => At(softmax(GraphRow(k, divisor, b, n, s)), t)
  }

  lemma NodeWeighs(g: Graph, env: Env, softmax: Softmaxing, x: NodeIndex, k: Task, divisor: Divisor)
    requires Executed(g, env, softmax) && HasOp(g, x, Softmax) && OverLastOfFour(g, x)
    requires HoldsGrid(In(g, env, x, 0), ScoreDims(k), GraphCells(k, divisor))
    ensures HoldsGrid(Out(g, env, x), ScoreDims(k), WeightCells(k, softmax, divisor))
  {
    hide Get, GraphScore, NamedEdges, Constants;
    assert NodeRuns(g, env, softmax, x);
    var a, b := In(g, env, x, 0).t, Out(g, env, x).t;
    forall i: nat, j: nat, s: nat, t: nat | i < k.z.batch && j < k.z.heads && s < k.z.length && t < k.Total()
      ensures Get(b, [i, j, s, t]) == WeightCells(k, softmax, divisor)(i, j, s, t)
    {
      forall u: nat | u < k.Total()
        ensures RowAt(a, i, j, s)[u] == GraphRow(k, divisor, i, j, s)[u]
      {
        assert Get(a, [i, j, s, u]) == GraphCells(k, divisor)(i, j, s, u);
      }
      assert RowAt(a, i, j, s) == GraphRow(k, divisor, i, j, s);
      assert RowAt(b, i, j, s)[t] == Get(b, [i, j, s, t]);
    }
  }

  /** Element `h` of head `n` in row `s` of the result of the matched nodes. */
  function GraphResult(k: Task, softmax: Softmaxing, divisor: Divisor, b: nat, s: nat, n: nat, h: nat): real
  {
    Sum(k.Total(), (t: nat) => At(softmax(GraphRow(k, divisor, b, n, s)), t) * KernelValue(k, b, n, t, h))
  }

  function ResultCells(k: Task, softmax: Softmaxing, divisor: Divisor): Cells
  {
    (b: nat, n: nat, s: nat, h: nat) => GraphResult(k, softmax, divisor, b, s, n, h)
  }

  lemma ResultCellsAreProducts(k: Task, softmax: Softmaxing, divisor: Divisor, b: nat, n: nat, s: nat, h: nat)
    ensures ProductCells(k.Total(), WeightCells(k, softmax, divisor), ValueCells(k))(b, n, s, h)
         == ResultCells(k, softmax, divisor)(b, n, s, h)
  {
    hide KernelValue, GraphRow, At;
    var f, e := WeightCells(k, softmax, divisor), ValueCells(k);
    var left := (l: nat) => f(b, n, s, l) * e(b, n, l, h);
    var right := (t: nat) => At(softmax(GraphRow(k, divisor, b, n, s)), t) * KernelValue(k, b, n, t, h);
    forall l: nat
      ensures left(l) == right(l)
    {
      assert f(b, n, s, l) == At(softmax(GraphRow(k, divisor, b, n, s)), l);
      assert e(b, n, l, h) == KernelValue(k, b, n, l, h);
    }
    SameSum(k.Total(), left, right);
  }

  function HeadDims(k: Task): seq<nat> {
    [k.z.batch, k.z.heads, k.z.length, k.z.headSize]
  }

  lemma SoftmaxIsOverKeys(g: Graph, layerNorm: NodeIndex, hiddenSize: int, shared: bool, nanMatches: bool, m: Fusion)
    requires IsFusion(g, layerNorm, hiddenSize, shared, nanMatches, m) && m.mask.InputMask?
    ensures OverLastOfFour(g, m.mask.softmax)
  {
    hide IsFront, IsKeyed, IsUnidirMatch, IsInputPath, IsChainTop, ChainCounts, ChainValues;
  }

  /** The values weighted by the softmax of the scores, head by head. */
  lemma WeightedValuesMean(g: Graph, env: Env, softmax: Softmaxing, layerNorm: NodeIndex, hiddenSize: int, shared: bool,
                           nanMatches: bool, m: Fusion, k: Task, divisor: Divisor)
    requires g.WellFormed() && IsFusion(g, layerNorm, hiddenSize, shared, nanMatches, m) && Facts(g, shared, m)
    requires Executed(g, env, softmax) && SameTask(g, env, m, k) && DividesBy(g, env, m, divisor)
    ensures HoldsGrid(Out(g, env, m.value.qkvMatmul), HeadDims(k), ResultCells(k, softmax, divisor))
  {
    hide IsFusion, Facts, Executed, HoldsGrid, GraphCells, WeightCells, ValueCells, ProductCells, ResultCells,
      SameInputs, FitsMask, Graph.WellFormed, OverLastOfFour;
    GraphScoresMean(g, env, softmax, layerNorm, hiddenSize, shared, nanMatches, m, k, divisor);
    ValuesMean(g, env, softmax, layerNorm, hiddenSize, shared, nanMatches, m, k);
    MaskHandsOn(g, env, softmax, shared, m);
    assert OverLastOfFour(g, m.mask.softmax) by {
      if m.mask.InputMask? {
        SoftmaxIsOverKeys(g, layerNorm, hiddenSize, shared, nanMatches, m);
      }
    }
    NodeWeighs(g, env, softmax, m.mask.softmax, k, divisor);
    assert HasOp(g, m.value.qkvMatmul, MatMul) by { OutputOps(g, shared, m); }
    NodeMultiplies(g, env, softmax, m.value.qkvMatmul, HeadDims(k), k.Total(), WeightCells(k, softmax, divisor),
      ValueCells(k));
    forall b, n, s, h
      ensures ProductCells(k.Total(), WeightCells(k, softmax, divisor), ValueCells(k))(b, n, s, h)
           == ResultCells(k, softmax, divisor)(b, n, s, h)
    {
      ResultCellsAreProducts(k, softmax, divisor, b, n, s, h);
    }
    SameGrid(Out(g, env, m.value.qkvMatmul), HeadDims(k),
      ProductCells(k.Total(), WeightCells(k, softmax, divisor), ValueCells(k)), ResultCells(k, softmax, divisor));
  }

  lemma OutputOps(g: Graph, shared: bool, m: Fusion)
    requires Facts(g, shared, m)
    ensures HasOp(g, m.value.qkvMatmul, MatMul) && HasOp(g, m.value.transpose, Transpose)
    ensures HasOp(g, m.value.reshape, Reshape)
    ensures Feeds(g, m.value.qkvMatmul, m.value.transpose, 0) && Feeds(g, m.value.transpose, m.value.reshape, 0)
  {
    hide GemmFacts, PastFacts, MaskFacts, UnidirFacts, QueryKeyFacts, Feeds;
  }

  /** The buffer of `v` has this number at this position. */
  ghost predicate HoldsAt(v: Value, position: int, number: real) {
    v.Reals? && 0 <= position < |v.t.data| && v.t.data[position] == number
  }

  /** Where element `h` of head `n` in row `s` of batch `b` lies in a buffer of rows of heads. */
  function Position(z: Sizes, b: int, s: int, n: int, h: int): int {
    ((b * z.length + s) * z.heads + n) * z.headSize + h
  }

  lemma RowsOfHeads(x: RealTensor, y: RealTensor, out: RealTensor, k: Task, f: Cells, target: seq<int>,
                    b: nat, s: nat, n: nat, h: nat)
    requires HoldsGrid(Reals(x), HeadDims(k), f) && IsTranspose(x, y, SWAP_INNER) && IsReshape(y, out, target)
    requires y.Valid() && InSizes(k.z, b, n, s, h)
    ensures 0 <= Position(k.z, b, s, n, h) < |out.data| && out.data[Position(k.z, b, s, n, h)] == f(b, n, s, h)
  {
    SwappedAt(x, y, b, n, s, h);
    var index := [b, s, n, h];
    assert y.dims == [k.z.batch, k.z.length, k.z.heads, k.z.headSize];
    OffsetInBounds(index, y.dims);
    Offset4(index, y.dims);
    assert Get(x, [b, n, s, h]) == f(b, n, s, h);
  }

  /** What a matched layer computes: its output buffer holds the weighted values, the heads side by side in each row. */
  lemma LayerMeans(g: Graph, env: Env, softmax: Softmaxing, layerNorm: NodeIndex, hiddenSize: int, shared: bool,
                   nanMatches: bool, m: Fusion, k: Task, divisor: Divisor, b: nat, s: nat, n: nat, h: nat)
    requires g.WellFormed() && IsFusion(g, layerNorm, hiddenSize, shared, nanMatches, m)
    requires Executed(g, env, softmax) && SameTask(g, env, m, k) && DividesBy(g, env, m, divisor)
    requires In(g, env, m.value.reshape, 1).Ints? && InSizes(k.z, b, n, s, h)
    ensures HoldsAt(Out(g, env, m.value.reshape), Position(k.z, b, s, n, h),
                    GraphResult(k, softmax, divisor, b, s, n, h))
  {
    hide IsFusion, Facts, HoldsGrid, ResultCells, SameTask, Graph.WellFormed, IsReshape, IsTranspose, Position,
      NamedEdges, Constants, InSizes, RealTensor.Valid, GraphResult;
    FusionGivesFacts(g, layerNorm, hiddenSize, shared, nanMatches, m);
    WeightedValuesMean(g, env, softmax, layerNorm, hiddenSize, shared, nanMatches, m, k, divisor);
    OutputOps(g, shared, m);
    HeadShapes(g, layerNorm, hiddenSize, shared, nanMatches, m);
    SoleEdgeHandsOn(g, env, m.value.qkvMatmul, m.value.transpose, 0);
    SoleEdgeHandsOn(g, env, m.value.transpose, m.value.reshape, 0);
    GridIsReal(Out(g, env, m.value.qkvMatmul), HeadDims(k), ResultCells(k, softmax, divisor));
    assert NodeRuns(g, env, softmax, m.value.transpose) && NodeRuns(g, env, softmax, m.value.reshape);
    RowsOfHeads(Out(g, env, m.value.qkvMatmul).t, Out(g, env, m.value.transpose).t, Out(g, env, m.value.reshape).t,
      k, ResultCells(k, softmax, divisor), In(g, env, m.value.reshape, 1).ints, b, s, n, h);
    ResultCell(k, softmax, divisor, b, s, n, h);
  }

  lemma ResultCell(k: Task, softmax: Softmaxing, divisor: Divisor, b: nat, s: nat, n: nat, h: nat)
    ensures ResultCells(k, softmax, divisor)(b, n, s, h) == GraphResult(k, softmax, divisor, b, s, n, h)
  {}

  // ----- Against the kernel

  /** The mask of the kernel is a row of keys for each batch, or there is none. */
  predicate HasKeyMask(k: Task) {
    k.mask.Some? ==> |k.mask.value.dims| == 2
  }

  /** Key `t` comes after row `s`. */
  predicate Ahead(k: Task, s: nat, t: nat) {
    k.unidirectional && t > k.past + s
  }

  /**
    Exactly when the scores agree: where the key may be seen, if the divisor is the square root of the head
    size; and everywhere if query and key are orthogonal. For a key ahead the layer replaces the score and
    the kernel adds to it.
  */
  lemma ScoresAgreeIff(k: Task, divisor: Divisor, b: nat, n: nat, s: nat, t: nat)
    requires HasKeyMask(k)
    ensures GraphScore(k, divisor, b, n, s, t) == KernelScore(k, b, n, s, t) <==>
      KeyProduct(k, b, n, s, t) == 0.0 || (divisor == k.root && !Ahead(k, s, t))
  {
    var p := KeyProduct(k, b, n, s, t);
    hide KeyProduct;
    QuotientsAgreeIff(p, divisor, k.root);
    QuotientIsZeroIff(p, k.root);
  }

  lemma QuotientsAgreeIff(p: real, c: real, d: real)
    requires c != 0.0 && d != 0.0
    ensures p / c == p / d <==> p == 0.0 || c == d
  {
    if p / c == p / d && p != 0.0 {
      var q := p / c;
      assert q * c == p && q * d == p;
      assert q * (c - d) == 0.0;
    }
  }

  lemma QuotientIsZeroIff(p: real, d: real)
    requires d != 0.0
    ensures p / d == 0.0 <==> p == 0.0
  {
    assert p / d * d == p;
  }

  /** Rows whose scores all agree have the same result. */
  lemma ResultsAgree(k: Task, softmax: Softmaxing, divisor: Divisor, b: nat, s: nat, n: nat, h: nat)
    requires forall t: nat :: t < k.Total() ==> GraphScore(k, divisor, b, n, s, t) == KernelScore(k, b, n, s, t)
    ensures GraphResult(k, softmax, divisor, b, s, n, h) == KernelResult(k, softmax, b, s, n, h)
  {
    hide GraphScore, KernelScore;
    assert GraphRow(k, divisor, b, n, s) == ScoreRow(k, b, n, s);
    SameSum(k.Total(), (t: nat) => At(softmax(GraphRow(k, divisor, b, n, s)), t) * KernelValue(k, b, n, t, h),
            (t: nat) => At(softmax(ScoreRow(k, b, n, s)), t) * KernelValue(k, b, n, t, h));
  }

  /**
    The fused node computes what the layer computed, element by element of the output buffer, in every row
    that may see all keys: in the last row always, so for each single new token, and in every row when the
    mask is not causal. The layer must divide by the square root of the head size, which the fusion does
    not check.
  */
  lemma FusionKeepsMeaning(g: Graph, env: Env, softmax: Softmaxing, layerNorm: NodeIndex, hiddenSize: int, shared: bool,
                           nanMatches: bool, m: Fusion, k: Task, b: nat, s: nat, n: nat, h: nat)
    requires g.WellFormed() && IsFusion(g, layerNorm, hiddenSize, shared, nanMatches, m)
    requires Executed(g, env, softmax) && SameTask(g, env, m, k) && In(g, env, m.value.reshape, 1).Ints?
    requires DividesBy(g, env, m, k.root)
    requires InSizes(k.z, b, n, s, h) && (m.unidir.unidirectional ==> s == k.z.length - 1)
    ensures HoldsAt(Out(g, env, m.value.reshape), Position(k.z, b, s, n, h), KernelResult(k, softmax, b, s, n, h))
  {
    hide IsFusion, Executed, SameInputs, Graph.WellFormed, Position, GraphResult, KernelResult, GraphScore, KernelScore;
    LayerMeans(g, env, softmax, layerNorm, hiddenSize, shared, nanMatches, m, k, k.root, b, s, n, h);
    forall t: nat | t < k.Total()
      ensures GraphScore(k, k.root, b, n, s, t) == KernelScore(k, b, n, s, t)
    {
      ScoresAgreeIff(k, k.root, b, n, s, t);
    }
    ResultsAgree(k, softmax, k.root, b, s, n, h);
  }

  /** The kernel writes the heads of a row side by side, as the layer does. */
  lemma KernelPosition(z: Sizes, b: int, s: int, n: int, h: int)
    ensures (b * z.length * z.heads + n) * z.headSize + s * (z.heads * z.headSize) + h == Position(z, b, s, n, h)
  {
    var p, q := b * z.length, z.heads;
    assert (p + s) * q + n == (p * q + n) + s * q;
    assert ((p * q + n) + s * q) * z.headSize == (p * q + n) * z.headSize + s * q * z.headSize;
    assert s * q * z.headSize == s * (q * z.headSize);
  }

  /** The state after all keys and values, of which these are one element each. */
  ghost predicate IsPresent(v: Value, k: Task, b: nat, n: nat, t: nat, h: nat) {
    && v.Reals? && v.t.dims == [2, k.z.batch, k.z.heads, k.Total(), k.z.headSize]
    && Get(v.t, [0, b, n, t, h]) == KernelKey(k, b, n, t, h)
    && Get(v.t, [1, b, n, t, h]) == KernelValue(k, b, n, t, h)
  }

  /** The present of the layer is that of the kernel: all keys and all values, so that either can go on from it. */
  lemma PresentsAgree(g: Graph, env: Env, softmax: Softmaxing, layerNorm: NodeIndex, hiddenSize: int, shared: bool,
                      nanMatches: bool, m: Fusion, k: Task, b: nat, n: nat, t: nat, h: nat)
    requires g.WellFormed() && IsFusion(g, layerNorm, hiddenSize, shared, nanMatches, m) && m.past.Some?
    requires Executed(g, env, softmax) && SameInputs(g, env, m, k) && InTotal(k.z, k.Total(), b, n, t, h)
    ensures IsPresent(Out(g, env, m.past.value.presentConcat), k, b, n, t, h)
  {
    hide IsFusion, Facts, Executed, HoldsProjection, PastAxes, PastValues, PastHandsOn, PastOps, Graph.WellFormed, Get,
      KernelKey, KernelValue;
    var p := m.past.value;
    FusionGivesFacts(g, layerNorm, hiddenSize, shared, nanMatches, m);
    KeysMean(g, env, softmax, layerNorm, hiddenSize, shared, nanMatches, m, k);
    ValuesMean(g, env, softmax, layerNorm, hiddenSize, shared, nanMatches, m, k);
    KeySource(g, env, softmax, shared, m);
    ValueSource(g, env, softmax, shared, m);
    PastIsChecked(g, layerNorm, hiddenSize, shared, nanMatches, m);
    var keys, values := Out(g, env, p.kConcat).t, Out(g, env, p.vConcat).t;
    PresentMeans(g, env, softmax, p, keys, values, k.z, k.Total());
    assert Get(keys, [b, n, h, t]) == KeyCells(k)(b, n, h, t);
    assert Get(values, [b, n, t, h]) == ValueCells(k)(b, n, t, h);
  }
}
