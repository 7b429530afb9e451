/**
  What the past and present subgraph computes: past keys and values come before the new ones, and the
  present holds both in the layout of the past.
*/
module PastState {
  import opened Wrappers
  import opened GraphModel
  import opened GraphFacts
  import opened MaskMatch
  import opened FusionMatch
  import opened FusionFacts
  import opened Initializers
  import opened Tensors
  import opened GraphValues
  import opened CausalMask
  import opened HeadLayout

  /** What the fusion does not check: the axes of the Gather and Concat nodes. */
  predicate PastAxes(g: Graph, p: PastNodes) {
    && "axis" !in g.At(p.pastKGather).attributes && "axis" !in g.At(p.pastVGather).attributes
    && g.At(p.kConcat).HasAttribute("axis", [3]) && g.At(p.vConcat).HasAttribute("axis", [2])
    && g.At(p.presentConcat).HasAttribute("axis", [0])
    && |g.At(p.kConcat).inputs| == |g.At(p.vConcat).inputs| == |g.At(p.presentConcat).inputs| == 2
  }

  /** The keys of the past, and then the new ones. */
  function KeyAt(state: RealTensor, keys: RealTensor, past: nat, b: nat, n: nat, t: nat, h: nat): real {
    if t < past then Get(state, [0, b, n, t, h]) else Get(keys, [b, n, h, t - past])
  }

  function ValueAt(state: RealTensor, values: RealTensor, past: nat, b: nat, n: nat, t: nat, h: nat): real {
    if t < past then Get(state, [1, b, n, t, h]) else Get(values, [b, n, t - past, h])
  }

  predicate InTotal(z: Sizes, total: nat, b: nat, n: nat, t: nat, h: nat) {
    b < z.batch && n < z.heads && t < total && h < z.headSize
  }

  /** Keys in rows of the past, of which there are `past`, and then the new ones. */
  ghost predicate HoldsAllKeys(v: Value, state: RealTensor, keys: RealTensor, z: Sizes, past: nat) {
    && v.Reals? && v.t.dims == [z.batch, z.heads, z.headSize, past + z.length]
    && forall b: nat, n: nat, t: nat, h: nat {:trigger KeyAt(state, keys, past, b, n, t, h)} ::
         InTotal(z, past + z.length, b, n, t, h) ==> Get(v.t, [b, n, h, t]) == KeyAt(state, keys, past, b, n, t, h)
  }

  ghost predicate HoldsAllValues(v: Value, state: RealTensor, values: RealTensor, z: Sizes, past: nat) {
    && v.Reals? && v.t.dims == [z.batch, z.heads, past + z.length, z.headSize]
    && forall b: nat, n: nat, t: nat, h: nat {:trigger ValueAt(state, values, past, b, n, t, h)} ::
         InTotal(z, past + z.length, b, n, t, h) ==> Get(v.t, [b, n, t, h]) == ValueAt(state, values, past, b, n, t, h)
  }

  /** Keys and values in the layout of a past of `total` rows. */
  ghost predicate HoldsState(v: Value, keys: RealTensor, values: RealTensor, z: Sizes, total: nat) {
    && v.Reals? && v.t.dims == [2, z.batch, z.heads, total, z.headSize]
    && forall b: nat, n: nat, t: nat, h: nat {:trigger InTotal(z, total, b, n, t, h)} ::
         InTotal(z, total, b, n, t, h) ==>
         && Get(v.t, [0, b, n, t, h]) == Get(keys, [b, n, h, t])
         && Get(v.t, [1, b, n, t, h]) == Get(values, [b, n, t, h])
  }

  const SWAP_LAST := [0, 1, 3, 2]

  lemma LastSwappedAt(x: RealTensor, y: RealTensor, a: nat, b: nat, c: nat, d: nat)
    requires IsTranspose(x, y, SWAP_LAST) && InDims([a, b, c, d], x.dims)
    ensures y.dims == [x.dims[0], x.dims[1], x.dims[3], x.dims[2]] && Get(y, [a, b, d, c]) == Get(x, [a, b, c, d])
  {
    assert Picked([a, b, c, d], SWAP_LAST) == [a, b, d, c];
  }

  lemma LastSwappedDims(x: RealTensor, y: RealTensor)
    requires IsTranspose(x, y, SWAP_LAST)
    ensures y.dims == [x.dims[0], x.dims[1], x.dims[3], x.dims[2]]
  {}

  // ----- The operators on tensors

  lemma KeysAfterPast(state: RealTensor, part: RealTensor, turned: RealTensor, keys: RealTensor, all: RealTensor,
                      z: Sizes, past: nat)
    requires state.dims == [2, z.batch, z.heads, past, z.headSize]
    requires keys.dims == [z.batch, z.heads, z.headSize, z.length]
    requires IsGather(state, part, 0) && IsTranspose(part, turned, SWAP_LAST) && IsConcat(turned, keys, all, 3)
    ensures HoldsAllKeys(Reals(all), state, keys, z, past)
  {
    hide Get, IsTranspose;
    assert part.dims == [z.batch, z.heads, past, z.headSize];
    LastSwappedDims(part, turned);
    assert all.dims == [z.batch, z.heads, z.headSize, past + z.length];
    forall b: nat, n: nat, t: nat, h: nat {:trigger KeyAt(state, keys, past, b, n, t, h)} |
      InTotal(z, past + z.length, b, n, t, h)
      ensures Get(all, [b, n, h, t]) == KeyAt(state, keys, past, b, n, t, h)
    {
      var index := [b, n, h, t];
      assert InDims(index, all.dims);
      if t < past {
        LastSwappedAt(part, turned, b, n, t, h);
        assert [0] + [b, n, t, h] == [0, b, n, t, h];
      } else {
        assert index[3 := index[3] - past] == [b, n, h, t - past];
      }
    }
  }

  lemma ValuesAfterPast(state: RealTensor, part: RealTensor, values: RealTensor, all: RealTensor, z: Sizes, past: nat)
    requires state.dims == [2, z.batch, z.heads, past, z.headSize]
    requires values.dims == [z.batch, z.heads, z.length, z.headSize]
    requires IsGather(state, part, 1) && IsConcat(part, values, all, 2)
    ensures HoldsAllValues(Reals(all), state, values, z, past)
  {
    hide Get;
    assert part.dims == [z.batch, z.heads, past, z.headSize];
    assert all.dims == [z.batch, z.heads, past + z.length, z.headSize];
    forall b: nat, n: nat, t: nat, h: nat {:trigger ValueAt(state, values, past, b, n, t, h)} |
      InTotal(z, past + z.length, b, n, t, h)
      ensures Get(all, [b, n, t, h]) == ValueAt(state, values, past, b, n, t, h)
    {
      var index := [b, n, t, h];
      assert InDims(index, all.dims);
      if t < past {
        assert [1] + index == [1, b, n, t, h];
      } else {
        assert index[2 := index[2] - past] == [b, n, t - past, h];
      }
    }
  }

  lemma PresentOf(keys: RealTensor, turned: RealTensor, k: RealTensor, values: RealTensor, v: RealTensor,
                  all: RealTensor, z: Sizes, total: nat)
    requires keys.dims == [z.batch, z.heads, z.headSize, total]
    requires values.dims == [z.batch, z.heads, total, z.headSize]
    requires IsTranspose(keys, turned, SWAP_LAST) && IsUnsqueeze(turned, k, 0)
    requires IsUnsqueeze(values, v, 0) && IsConcat(k, v, all, 0)
    ensures HoldsState(Reals(all), keys, values, z, total)
  {
    hide Get, IsTranspose;
    LastSwappedDims(keys, turned);
    assert k.dims == [1, z.batch, z.heads, total, z.headSize] == v.dims;
    assert all.dims == [2, z.batch, z.heads, total, z.headSize];
    hide IsUnsqueeze, IsConcat;
    forall b: nat, n: nat, t: nat, h: nat | InTotal(z, total, b, n, t, h)
      ensures Get(all, [0, b, n, t, h]) == Get(keys, [b, n, h, t])
      ensures Get(all, [1, b, n, t, h]) == Get(values, [b, n, t, h])
    {
      FirstOfTwo(turned, k, v, all, b, n, t, h);
      SecondOfTwo(k, values, v, all, b, n, t, h);
      LastSwappedAt(keys, turned, b, n, h, t);
    }
  }

  lemma FirstOfTwo(x: RealTensor, k: RealTensor, v: RealTensor, all: RealTensor, b: nat, n: nat, t: nat, h: nat)
    requires InDims([b, n, t, h], x.dims) && IsUnsqueeze(x, k, 0) && IsConcat(k, v, all, 0)
    requires InDims([0, b, n, t, h], all.dims)
    ensures Get(all, [0, b, n, t, h]) == Get(x, [b, n, t, h])
  {
    hide Get;
    var index := [b, n, t, h];
    assert index[..0] + [0] + index[0..] == [0, b, n, t, h];
  }

  lemma SecondOfTwo(k: RealTensor, x: RealTensor, v: RealTensor, all: RealTensor, b: nat, n: nat, t: nat, h: nat)
    requires InDims([b, n, t, h], x.dims) && IsUnsqueeze(x, v, 0) && IsConcat(k, v, all, 0) && k.dims[0] == 1
    requires InDims([1, b, n, t, h], all.dims)
    ensures Get(all, [1, b, n, t, h]) == Get(x, [b, n, t, h])
  {
    hide Get;
    var index, second := [b, n, t, h], [1, b, n, t, h];
    assert second[0 := second[0] - 1] == [0, b, n, t, h] == index[..0] + [0] + index[0..];
  }

  // ----- The nodes of a match

  ghost predicate PastHandsOn(g: Graph, env: Env, p: PastNodes) {
    && In(g, env, p.pastKTranspose, 0) == Out(g, env, p.pastKGather)
    && In(g, env, p.kConcat, 0) == Out(g, env, p.pastKTranspose)
    && In(g, env, p.vConcat, 0) == Out(g, env, p.pastVGather)
    && In(g, env, p.presentKTranspose, 0) == Out(g, env, p.kConcat)
    && In(g, env, p.presentKUnsqueeze, 0) == Out(g, env, p.presentKTranspose)
    && In(g, env, p.presentVUnsqueeze, 0) == Out(g, env, p.vConcat)
    && In(g, env, p.presentConcat, 0) == Out(g, env, p.presentKUnsqueeze)
    && In(g, env, p.presentConcat, 1) == Out(g, env, p.presentVUnsqueeze)
  }

  predicate PastOps(g: Graph, p: PastNodes) {
    && HasOp(g, p.pastKGather, Gather) && HasOp(g, p.pastVGather, Gather)
    && HasOp(g, p.pastKTranspose, Transpose) && HasOp(g, p.presentKTranspose, Transpose)
    && HasOp(g, p.kConcat, Concat) && HasOp(g, p.vConcat, Concat) && HasOp(g, p.presentConcat, Concat)
    && HasOp(g, p.presentKUnsqueeze, Unsqueeze) && HasOp(g, p.presentVUnsqueeze, Unsqueeze)
  }

  lemma PastEdges(g: Graph, env: Env, qkMatmul: NodeIndex, qkvMatmul: NodeIndex, p: PastNodes)
    requires PastFacts(g, qkMatmul, qkvMatmul, p) && NamedEdges(g)
    ensures PastHandsOn(g, env, p) && PastOps(g, p)
  {
    hide Feeds, In, Out, HasOp, NamedEdges;
    SoleEdgeHandsOn(g, env, p.pastKGather, p.pastKTranspose, 0);
    SoleEdgeHandsOn(g, env, p.pastKTranspose, p.kConcat, 0);
    SoleEdgeHandsOn(g, env, p.pastVGather, p.vConcat, 0);
    EdgeHandsOn(g, env, Edge(p.kConcat, 0, p.presentKTranspose, 0));
    SoleEdgeHandsOn(g, env, p.presentKTranspose, p.presentKUnsqueeze, 0);
    EdgeHandsOn(g, env, Edge(p.vConcat, 0, p.presentVUnsqueeze, 0));
    SoleEdgeHandsOn(g, env, p.presentKUnsqueeze, p.presentConcat, 0);
    SoleEdgeHandsOn(g, env, p.presentVUnsqueeze, p.presentConcat, 1);
  }

  lemma GatherInputs(g: Graph, env: Env, p: PastNodes)
    requires Constants(g, env) && PastValues(g, p)
    ensures In(g, env, p.pastKGather, 1) == Ints([0]) && In(g, env, p.pastVGather, 1) == Ints([1])
  {}

  /** The keys of the past in front of the new ones. */
  lemma PastKeysMean(g: Graph, env: Env, softmax: Softmaxing, p: PastNodes, state: RealTensor, keys: RealTensor,
                     z: Sizes, past: nat)
    requires Executed(g, env, softmax) && PastHandsOn(g, env, p) && PastOps(g, p) && PastValues(g, p) && PastAxes(g, p)
    requires In(g, env, p.pastKGather, 0) == Reals(state) && In(g, env, p.kConcat, 1) == Reals(keys)
    requires state.dims == [2, z.batch, z.heads, past, z.headSize]
    requires keys.dims == [z.batch, z.heads, z.headSize, z.length]
    ensures HoldsAllKeys(Out(g, env, p.kConcat), state, keys, z, past)
  {
    hide IsGather, IsTranspose, IsConcat, HoldsAllKeys, Executed, Graph.IsInt, In, Out;
    ExecutedGives(g, env, softmax);
    GatherInputs(g, env, p);
    GatherNode(g, env, softmax, p.pastKGather, state, 0);
    var part := Out(g, env, p.pastKGather).t;
    TransposeNode(g, env, softmax, p.pastKTranspose, part, SWAP_LAST);
    var turned := Out(g, env, p.pastKTranspose).t;
    TransposeRank(part, turned, SWAP_LAST);
    ConcatNode(g, env, softmax, p.kConcat, turned, keys, 3);
    KeysAfterPast(state, part, turned, keys, Out(g, env, p.kConcat).t, z, past);
  }

  lemma PastValuesMean(g: Graph, env: Env, softmax: Softmaxing, p: PastNodes, state: RealTensor, values: RealTensor,
                       z: Sizes, past: nat)
    requires Executed(g, env, softmax) && PastHandsOn(g, env, p) && PastOps(g, p) && PastValues(g, p) && PastAxes(g, p)
    requires In(g, env, p.pastVGather, 0) == Reals(state) && In(g, env, p.vConcat, 1) == Reals(values)
    requires state.dims == [2, z.batch, z.heads, past, z.headSize]
    requires values.dims == [z.batch, z.heads, z.length, z.headSize]
    ensures HoldsAllValues(Out(g, env, p.vConcat), state, values, z, past)
  {
    hide IsGather, IsTranspose, IsConcat, HoldsAllValues, Executed, Graph.IsInt, In, Out;
    ExecutedGives(g, env, softmax);
    GatherInputs(g, env, p);
    GatherNode(g, env, softmax, p.pastVGather, state, 1);
    var part := Out(g, env, p.pastVGather).t;
    GatherRank(state, part, 1);
    ConcatNode(g, env, softmax, p.vConcat, part, values, 2);
    ValuesAfterPast(state, part, values, Out(g, env, p.vConcat).t, z, past);
  }

  /** The present is a past of the next step: all keys and values, in the same layout. */
  lemma PresentMeans(g: Graph, env: Env, softmax: Softmaxing, p: PastNodes, keys: RealTensor, values: RealTensor,
                     z: Sizes, total: nat)
    requires Executed(g, env, softmax) && PastHandsOn(g, env, p) && PastOps(g, p) && PastValues(g, p) && PastAxes(g, p)
    requires Out(g, env, p.kConcat) == Reals(keys) && Out(g, env, p.vConcat) == Reals(values)
    requires keys.dims == [z.batch, z.heads, z.headSize, total]
    requires values.dims == [z.batch, z.heads, total, z.headSize]
    ensures HoldsState(Out(g, env, p.presentConcat), keys, values, z, total)
  {
    hide IsUnsqueeze, IsTranspose, IsConcat, HoldsState, Executed, Graph.IsInt, In, Out;
    TransposeNode(g, env, softmax, p.presentKTranspose, keys, SWAP_LAST);
    var turned := Out(g, env, p.presentKTranspose).t;
    var k, v := Out(g, env, p.presentKUnsqueeze), Out(g, env, p.presentVUnsqueeze);
    UnsqueezeNode(g, env, softmax, p.presentKUnsqueeze, turned, 0);
    UnsqueezeNode(g, env, softmax, p.presentVUnsqueeze, values, 0);
    UnsqueezeRank(turned, k.t, 0);
    ConcatNode(g, env, softmax, p.presentConcat, k.t, v.t, 0);
    PresentOf(keys, turned, k.t, values, v.t, Out(g, env, p.presentConcat).t, z, total);
  }
}
