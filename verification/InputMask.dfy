/** What the input-mask chain computes: nothing for keys with a one in the mask, -10000 for keys with a zero. */
module InputMask {
  import opened Wrappers
  import opened GraphModel
  import opened GraphFacts
  import opened MaskMatch
  import opened FusionFacts
  import opened Initializers
  import opened Tensors
  import opened GraphValues
  import opened CausalMask

  /** A mask of zeros and ones, one row of keys for each batch. */
  ghost predicate IsKeyMask(v: Value, batch: nat, total: nat) {
    && v.Reals? && v.t.dims == [batch, total]
    && forall b: nat, t: nat :: b < batch && t < total ==> Get(v.t, [b, t]) == 0.0 || Get(v.t, [b, t]) == 1.0
  }

  /** `v` has the entries `f` makes of the mask, one row for each batch. */
  ghost predicate HoldsKeyRow(v: Value, mask: RealTensor, f: real -> real)
    requires |mask.dims| == 2
  {
    && v.Reals? && v.t.dims == [mask.dims[0], 1, 1, mask.dims[1]]
    && forall b: nat, t: nat :: b < mask.dims[0] && t < mask.dims[1] ==>
         Get(v.t, [b, 0, 0, t]) == f(Get(mask, [b, t]))
  }

  /** What a mask entry adds to a score. */
  function Penalty(entry: real): real {
    (1.0 - entry) * HIDDEN
  }

  lemma UnsqueezedTwice(mask: RealTensor, x: RealTensor, y: RealTensor)
    requires |mask.dims| == 2 && IsUnsqueeze(mask, x, 1) && IsUnsqueeze(x, y, 2)
    ensures HoldsKeyRow(Reals(y), mask, v => v)
  {
    hide Get;
    assert x.dims == [mask.dims[0], 1, mask.dims[1]] && y.dims == [mask.dims[0], 1, 1, mask.dims[1]];
    forall b: nat, t: nat | b < mask.dims[0] && t < mask.dims[1]
      ensures Get(y, [b, 0, 0, t]) == Get(mask, [b, t])
    {
      var i, j := [b, t], [b, 0, t];
      assert InDims(i, mask.dims) && InDims(j, x.dims);
      assert i[..1] + [0] + i[1..] == j && j[..2] + [0] + j[2..] == [b, 0, 0, t];
    }
  }

  /** The two Unsqueeze nodes of the chain. */
  lemma ChainUnsqueezes(g: Graph, env: Env, softmax: Softmaxing, c: MaskChain, mask: RealTensor)
    requires Executed(g, env, softmax) && ChainValues(g, c) && |mask.dims| == 2
    requires HasOp(g, c.unsqueeze1, Unsqueeze) && HasOp(g, c.unsqueeze2, Unsqueeze)
    requires In(g, env, c.unsqueeze1, 0) == Reals(mask) && In(g, env, c.unsqueeze2, 0) == Out(g, env, c.unsqueeze1)
    ensures HoldsKeyRow(Out(g, env, c.unsqueeze2), mask, v => v)
  {
    hide IsUnsqueeze, HoldsKeyRow, NamedEdges, Constants, Graph.IsReal;
    assert NodeRuns(g, env, softmax, c.unsqueeze1) && NodeRuns(g, env, softmax, c.unsqueeze2);
    var x := Out(g, env, c.unsqueeze1);
    assert IsUnsqueeze(mask, x.t, 1);
    assert |x.t.dims| == 3 by { UnsqueezeRank(mask, x.t, 1); }
    UnsqueezedTwice(mask, x.t, Out(g, env, c.unsqueeze2).t);
  }

  lemma CastKeepsKeyRow(g: Graph, env: Env, softmax: Softmaxing, cast: NodeIndex, mask: RealTensor)
    requires Executed(g, env, softmax) && HasOp(g, cast, Cast)
    requires |mask.dims| == 2 && IsKeyMask(Reals(mask), mask.dims[0], mask.dims[1])
    requires HoldsKeyRow(In(g, env, cast, 0), mask, v => v)
    ensures HoldsKeyRow(Out(g, env, cast), mask, v => v)
  {
    hide Get;
    assert NodeRuns(g, env, softmax, cast);
    var x, y := In(g, env, cast, 0).t, Out(g, env, cast);
    forall b: nat, t: nat | b < mask.dims[0] && t < mask.dims[1]
      ensures Get(y.t, [b, 0, 0, t]) == Get(mask, [b, t])
    {
      assert Get(x, [b, 0, 0, t]) == Get(mask, [b, t]);
    }
  }

  /** One minus the mask, times -10000. */
  lemma SubAndMul(g: Graph, env: Env, softmax: Softmaxing, c: MaskChain, mask: RealTensor)
    requires Executed(g, env, softmax) && HasOp(g, c.sub, Sub) && HasOp(g, c.mul, Mul)
    requires In(g, env, c.mul, 0) == Out(g, env, c.sub)
    requires IsScalarValue(In(g, env, c.sub, 0)) && In(g, env, c.sub, 0).t.data == [1.0]
    requires IsScalarValue(In(g, env, c.mul, 1)) && In(g, env, c.mul, 1).t.data == [HIDDEN]
    requires |mask.dims| == 2 && HoldsKeyRow(In(g, env, c.sub, 1), mask, v => v)
    ensures HoldsKeyRow(Out(g, env, c.mul), mask, Penalty)
  {
    hide Get, NamedEdges, Constants;
    assert NodeRuns(g, env, softmax, c.sub) && NodeRuns(g, env, softmax, c.mul);
    var x, y, w := In(g, env, c.sub, 1).t, Out(g, env, c.sub), Out(g, env, c.mul);
    assert y.Reals? && y.t.dims == x.dims && w.Reals? && w.t.dims == x.dims;
    forall b: nat, t: nat | b < mask.dims[0] && t < mask.dims[1]
      ensures Get(w.t, [b, 0, 0, t]) == Penalty(Get(mask, [b, t]))
    {
      assert InDims([b, 0, 0, t], x.dims);
      assert Get(y.t, [b, 0, 0, t]) == 1.0 - Get(mask, [b, t]);
    }
  }

  predicate ChainScalars(g: Graph, env: Env, c: MaskChain) {
    IsScalarValue(In(g, env, c.sub, 0)) && IsScalarValue(In(g, env, c.mul, 1))
  }

  lemma ChainHandsOn(g: Graph, env: Env, softmax: NodeIndex, add: NodeIndex, c: MaskChain)
    requires ChainFacts(g, softmax, add, c) && NamedEdges(g)
    ensures In(g, env, c.unsqueeze2, 0) == Out(g, env, c.unsqueeze1)
    ensures if c.cast.Some?
      then In(g, env, c.cast.value, 0) == Out(g, env, c.unsqueeze2) && In(g, env, c.sub, 1) == Out(g, env, c.cast.value)
      else In(g, env, c.sub, 1) == Out(g, env, c.unsqueeze2)
    ensures In(g, env, c.mul, 0) == Out(g, env, c.sub) && In(g, env, add, 1) == Out(g, env, c.mul)
  {
    hide Feeds, In, Out, HasOp, NamedEdges;
    SoleEdgeHandsOn(g, env, c.unsqueeze1, c.unsqueeze2, 0);
    if c.cast.Some? {
      SoleEdgeHandsOn(g, env, c.unsqueeze2, c.cast.value, 0);
      SoleEdgeHandsOn(g, env, c.cast.value, c.sub, 1);
    } else {
      SoleEdgeHandsOn(g, env, c.unsqueeze2, c.sub, 1);
    }
    SoleEdgeHandsOn(g, env, c.sub, c.mul, 0);
    EdgeHandsOn(g, env, Edge(c.mul, 0, add, 1));
  }

  /** The chain adds the penalty of each key to the scores of all queries and heads of its batch. */
  lemma InputMaskMeans(g: Graph, env: Env, softmaxing: Softmaxing, softmax: NodeIndex, add: NodeIndex, c: MaskChain,
                       mask: RealTensor)
    requires g.WellFormed() && IsChain(g, softmax, add, c) && Executed(g, env, softmaxing) && ChainScalars(g, env, c)
    requires In(g, env, c.unsqueeze1, 0) == Reals(mask)
    requires |mask.dims| == 2 && IsKeyMask(Reals(mask), mask.dims[0], mask.dims[1])
    ensures HoldsKeyRow(In(g, env, add, 1), mask, Penalty)
  {
    hide IsInputPath, IsChainTop, ChainCounts, Executed, Feeds, HoldsKeyRow, IsKeyMask, NamedEdges, Constants,
      Graph.IsReal, In, Out, Graph.WellFormed;
    ChainGivesFacts(g, softmax, add, c);
    ExecutedGives(g, env, softmaxing);
    ChainHandsOn(g, env, softmax, add, c);
    ChainUnsqueezes(g, env, softmaxing, c, mask);
    if c.cast.Some? {
      CastKeepsKeyRow(g, env, softmaxing, c.cast.value, mask);
    }
    assert In(g, env, c.sub, 0).Reals? && In(g, env, c.sub, 0).t.data == [1.0] by {
      RealIs(g, env, c.sub, 0, 1.0);
    }
    assert In(g, env, c.mul, 1).Reals? && In(g, env, c.mul, 1).t.data == [HIDDEN] by {
      RealIs(g, env, c.mul, 1, HIDDEN);
    }
    SubAndMul(g, env, softmaxing, c, mask);
  }

  lemma RealIs(g: Graph, env: Env, x: NodeIndex, slot: nat, value: real)
    requires Constants(g, env) && g.IsReal(g.At(x).Input(slot), value, false)
    ensures In(g, env, x, slot).Reals? && In(g, env, x, slot).t.data == [value]
  {}
}
