/** What the fusion makes of the scale: nothing. It needs a comparison with NaN to succeed, and reads no value. */
module FusionDivisor {
  import opened Wrappers
  import opened GraphModel
  import opened GraphFacts
  import opened GemmMatch
  import opened GemmClosure
  import opened UnidirMatch
  import opened UnidirClosure
  import opened MaskMatch
  import opened PathChecks
  import opened FusionMatch
  import opened FusionFacts

  /**
    The head size is asked for as -1 and can only come back as -1, so the scale is compared with the
    square root of -1. Every fusion relies on that comparison counting as a match.
  */
  lemma FusionNeedsNan(g: Graph, layerNorm: NodeIndex, hiddenSize: int, shared: bool, nanMatches: bool, m: Fusion)
    requires IsFusion(g, layerNorm, hiddenSize, shared, nanMatches, m)
    ensures nanMatches
    ensures m.projection.headSize == -1 && 0 < m.projection.numHeads <= hiddenSize
  {
    assert IsProjection(g, layerNorm, hiddenSize, shared, m.value, m.projection) by {
      hide IsProjection, IsFrame, IsValuePath;
    }
    assert IsQueryKey(g, m.unidir.trunk.div, m.value, m.projection, nanMatches, m.queryKey) by {
      hide IsQueryKey, IsMasked, IsPastMatch;
    }
    hide IsFusion, IsGemmMatch, IsInputPath, PathVNodes, IsOutputShape;
  }

  predicate IsScalar(g: Graph, name: Name) {
    name in g.initializers && g.initializers[name].data.Floats? && |g.initializers[name].data.reals| == 1
  }

  /** The graph with another second input of one node. */
  function WithDivisor(g: Graph, div: NodeIndex, name: Name): Graph
    requires div in g.nodes && |g.nodes[div].inputs| > 1
  {
    var node := g.nodes[div];
    g.(nodes := g.nodes[div := node.(inputs := node.inputs[1 := name])])
  }

  /** Graphs that differ in the inputs of a Div at most. */
  ghost predicate Alike(g: Graph, h: Graph, div: NodeIndex) {
    && h.nodes.Keys == g.nodes.Keys
    && h.edges == g.edges && h.outputs == g.outputs && h.initializers == g.initializers && h.shapes == g.shapes
    && h.nextIndex == g.nextIndex
    && (forall x: NodeIndex :: x != div ==> h.At(x) == g.At(x))
    && g.At(div).op == Div && h.At(div) == g.At(div).(inputs := h.At(div).inputs)
  }

  /** Nodes with other operators, links and out-edge counts are the same. */
  lemma AlikeParts(g: Graph, h: Graph, div: NodeIndex)
    requires Alike(g, h, div)
    ensures forall x: NodeIndex :: g.At(x).op != Div ==> h.At(x) == g.At(x)
    ensures forall x: NodeIndex, y: NodeIndex, e :: Link(h, x, y, e) <==> Link(g, x, y, e)
    ensures forall x: NodeIndex, n: nat :: h.CheckOutputEdges(x, n) <==> g.CheckOutputEdges(x, n)
    ensures forall x: NodeIndex :: h.OutEdges(x) == g.OutEdges(x)
    ensures forall name :: h.Ints(name) == g.Ints(name)
    ensures forall name, v :: h.IsInt(name, v) <==> g.IsInt(name, v)
    ensures forall name, v, c :: h.IsReal(name, v, c) <==> g.IsReal(name, v, c)
  {}

  lemma AlikePath(g: Graph, h: Graph, div: NodeIndex, start: NodeIndex, pattern: seq<EdgeToMatch>, path: seq<NodeIndex>)
    requires Alike(g, h, div) && IsInputPath(g, start, pattern, path)
    ensures IsInputPath(h, start, pattern, path)
  {
    hide Alike, Link;
    AlikeParts(g, h, div);
  }

  lemma AlikeOutputPath(g: Graph, h: Graph, div: NodeIndex, start: NodeIndex, pattern: seq<EdgeToMatch>,
                        path: seq<NodeIndex>)
    requires Alike(g, h, div) && IsOutputPath(g, start, pattern, path)
    ensures IsOutputPath(h, start, pattern, path)
  {
    forall x: NodeIndex, y: NodeIndex, e | SoleMatch(g, x, y, e)
      ensures SoleMatch(h, x, y, e)
    {
      AlikeCandidates(g, h, div, x, e);
    }
    hide Alike, SoleMatch;
  }

  lemma AlikeCandidates(g: Graph, h: Graph, div: NodeIndex, x: NodeIndex, e: EdgeToMatch)
    requires Alike(g, h, div)
    ensures Candidates(h, x, e) == Candidates(g, x, e)
  {}

  // ----- Gemm

  lemma AlikeTrunkValues(g: Graph, h: Graph, div: NodeIndex, t: GemmTrunk)
    requires Alike(g, h, div) && TrunkValues(g, t) && ConcatAfterChecks(g, t)
    requires HasOp(g, t.reshapeBefore, Reshape) && HasOp(g, t.shape, Shape) && HasOp(g, t.gemm, Gemm)
    requires HasOp(g, t.slice, Slice) && HasOp(g, t.concat, Concat) && HasOp(g, t.concatAfter, Concat)
    ensures TrunkValues(h, t) && ConcatAfterChecks(h, t)
  {
    AlikeParts(g, h, div);
  }

  lemma AlikeTrunk(g: Graph, h: Graph, div: NodeIndex, root: NodeIndex, dstArg: nat, shared: bool, t: GemmTrunk)
    requires g.WellFormed() && Alike(g, h, div) && IsTrunk(g, root, dstArg, shared, t)
    ensures IsTrunk(h, root, dstArg, shared, t)
  {
    hide Alike, IsInputPath, Feeds, TrunkPattern, TrunkValues, ConcatAfterChecks, Graph.CheckOutputEdges,
      Graph.WellFormed;
    TrunkGivesFacts(g, root, dstArg, shared, t);
    AlikeParts(g, h, div);
    AlikeTrunkValues(g, h, div, t);
    AlikePath(g, h, div, root, TrunkPattern(dstArg), t.Path());
    AlikePath(g, h, div, t.reshapeAfter, CONCAT_AFTER_PATTERN, [t.concatAfter]);
  }

  lemma AlikeBranch(g: Graph, h: Graph, div: NodeIndex, t: GemmTrunk, i: nat, shared: bool, b: GatherBranch)
    requires g.WellFormed() && Alike(g, h, div) && HasOp(g, t.shape, Shape)
    requires IsBranch(g, t.concatAfter, i, t.shape, shared, b)
    ensures IsBranch(h, t.concatAfter, i, t.shape, shared, b)
  {
    hide Alike, IsInputPath, Feeds, BranchPattern, Graph.CheckOutputEdges, Graph.WellFormed;
    BranchGivesFacts(g, t, i, shared, b);
    AlikeParts(g, h, div);
    AlikePath(g, h, div, t.concatAfter, BranchPattern(i), [b.unsqueeze, b.gather, b.shape]);
  }

  lemma AlikeGemm(g: Graph, h: Graph, div: NodeIndex, root: NodeIndex, dstArg: nat, shared: bool, m: GemmNodes)
    requires g.WellFormed() && Alike(g, h, div) && IsGemmMatch(g, root, dstArg, shared, m)
    ensures IsGemmMatch(h, root, dstArg, shared, m) && h.At(m.trunk.gemm) == g.At(m.trunk.gemm)
  {
    hide Alike, IsTrunk, IsBranch, Feeds;
    TrunkGivesFacts(g, root, dstArg, shared, m.trunk);
    AlikeTrunk(g, h, div, root, dstArg, shared, m.trunk);
    AlikeBranch(g, h, div, m.trunk, 0, shared, m.first);
    AlikeBranch(g, h, div, m.trunk, 1, shared, m.second);
    AlikeParts(g, h, div);
  }

  // ----- Front

  lemma AlikeFrame(g: Graph, h: Graph, div: NodeIndex, layerNorm: NodeIndex, hiddenSize: int, shared: bool, f: Frame)
    requires g.WellFormed() && Alike(g, h, div) && IsFrame(g, layerNorm, hiddenSize, shared, f)
    ensures IsFrame(h, layerNorm, hiddenSize, shared, f)
  {
    hide IsGemmMatch;
    AlikeGemm(g, h, div, f.addAfter, 1, shared, f.gemm1);
    AlikeParts(g, h, div);
    assert forall x: NodeIndex :: h.At(x).op == g.At(x).op;
  }

  lemma AlikeValuePath(g: Graph, h: Graph, div: NodeIndex, shape: NodeIndex, v: ValuePath)
    requires Alike(g, h, div) && IsValuePath(g, shape, v)
    ensures IsValuePath(h, shape, v)
  {
    hide IsInputPath;
    AlikePath(g, h, div, shape, OUTPUT_PATTERN, [v.reshape, v.transpose, v.qkvMatmul]);
    AlikePath(g, h, div, v.vSource, VALUE_PATTERN, [v.vTranspose, v.vReshape, v.split]);
  }

  lemma AlikeProjection(g: Graph, h: Graph, div: NodeIndex, layerNorm: NodeIndex, hiddenSize: int, shared: bool,
                        v: ValuePath, p: Projection)
    requires g.WellFormed() && Alike(g, h, div) && IsProjection(g, layerNorm, hiddenSize, shared, v, p)
    requires HasOp(g, v.reshape, Reshape) && HasOp(g, v.vReshape, Reshape)
    requires HasOp(g, v.transpose, Transpose) && HasOp(g, v.vTranspose, Transpose)
    ensures IsProjection(h, layerNorm, hiddenSize, shared, v, p)
  {
    hide IsGemmMatch, IsPathV;
    AlikeGemm(g, h, div, v.split, 0, shared, p.gemm0);
    AlikeParts(g, h, div);
    AlikePathV(g, h, div, hiddenSize, v, (p.numHeads, p.headSize));
  }

  lemma AlikePathV(g: Graph, h: Graph, div: NodeIndex, hiddenSize: int, v: ValuePath, heads: (int, int))
    requires Alike(g, h, div)
    requires IsPathV(g, v.reshape, v.transpose, v.qkvMatmul, v.vTranspose, v.vReshape, 0, -1, hiddenSize, heads)
    requires HasOp(g, v.reshape, Reshape) && HasOp(g, v.vReshape, Reshape)
    requires HasOp(g, v.transpose, Transpose) && HasOp(g, v.vTranspose, Transpose)
    ensures IsPathV(h, v.reshape, v.transpose, v.qkvMatmul, v.vTranspose, v.vReshape, 0, -1, hiddenSize, heads)
  {
    hide Alike, Graph.CheckOutputEdges, IsComputedShape;
    AlikeParts(g, h, div);
    if IsComputedShape(g, v.reshape, hiddenSize) {
      AlikeComputedShape(g, h, div, v.reshape, hiddenSize);
    }
  }

  lemma AlikeComputedShape(g: Graph, h: Graph, div: NodeIndex, reshape: NodeIndex, hiddenSize: int)
    requires Alike(g, h, div) && IsComputedShape(g, reshape, hiddenSize)
    ensures IsComputedShape(h, reshape, hiddenSize)
  {
    var c: NodeIndex, u: NodeIndex :|
      && IsShapePath(g, reshape, c, u)
      && g.Ints(g.At(c).Input(1)) == Some([-1])
      && g.Ints(g.At(c).Input(2)) == Some([hiddenSize]);
    assert Link(g, c, reshape, SHAPE_CONCAT_PATTERN[0]);
    AlikePath(g, h, div, reshape, SHAPE_CONCAT_PATTERN, [c, u]);
    hide IsInputPath, Alike;
    AlikeParts(g, h, div);
    assert IsShapePath(h, reshape, c, u);
  }

  // ----- Masks

  lemma AlikeMask(g: Graph, h: Graph, div: NodeIndex, qkv: NodeIndex, m: MaskNodes)
    requires g.WellFormed() && Alike(g, h, div) && IsMaskMatch(g, qkv, true, m) && MaskFacts(g, qkv, m)
    ensures IsMaskMatch(h, qkv, true, m)
  {
    hide IsInputPath, Feeds, Graph.CheckOutputEdges, IsChain;
    AlikeParts(g, h, div);
    AlikePath(g, h, div, qkv, SOFTMAX_PATTERN, [m.softmax]);
    if m.InputMask? {
      AlikeChain(g, h, div, m.softmax, m.add, m.chain);
    } else {
      assert forall x: NodeIndex :: h.At(x).op == g.At(x).op;
    }
  }

  lemma AlikeChain(g: Graph, h: Graph, div: NodeIndex, softmax: NodeIndex, add: NodeIndex, c: MaskChain)
    requires Alike(g, h, div) && IsChain(g, softmax, add, c) && ChainFacts(g, softmax, add, c)
    requires HasOp(g, softmax, Softmax)
    ensures IsChain(h, softmax, add, c)
  {
    hide Alike, IsInputPath, Feeds, Graph.CheckOutputEdges;
    AlikeParts(g, h, div);
    AlikePath(g, h, div, softmax, CHAIN_PATTERN, [add, c.mul, c.sub]);
    if c.cast.Some? {
      AlikePath(g, h, div, c.sub, CAST_PATTERN, [c.cast.value, c.unsqueeze2, c.unsqueeze1]);
    } else {
      AlikePath(g, h, div, c.sub, NO_CAST_PATTERN, [c.unsqueeze2, c.unsqueeze1]);
    }
  }

  lemma AlikeUnidirTrunk(g: Graph, h: Graph, div: NodeIndex, root: NodeIndex, shared: bool, t: UnidirTrunk, u: bool)
    requires Alike(g, h, div) && IsUnidirTrunk(g, root, shared, t, u) && UnidirTrunkFacts(g, root, shared, t)
    ensures IsUnidirTrunk(h, root, shared, t, u)
  {
    hide IsInputPath, Feeds, Graph.CheckOutputEdges, UnidirValues;
    AlikeParts(g, h, div);
    AlikePath(g, h, div, root, ROOT_PATTERN, [t.whereNode, t.div]);
    AlikePath(g, h, div, t.whereNode, MASK_PATTERN, t.Path());
    AlikeUnidirValues(g, h, div, t, u);
  }

  lemma AlikeUnidirValues(g: Graph, h: Graph, div: NodeIndex, t: UnidirTrunk, u: bool)
    requires Alike(g, h, div) && UnidirValues(g, t, u)
    requires HasOp(g, t.lastSlice, Slice) && HasOp(g, t.maskSlice, Slice) && HasOp(g, t.slice1, Slice)
      && HasOp(g, t.shape1, Shape)
    ensures UnidirValues(h, t, u)
  {
    hide LowerTriangular, AllOnes;
    AlikeParts(g, h, div);
    assert h.At(t.div).outputs == g.At(t.div).outputs;
  }

  lemma AlikeSliceEnd(g: Graph, h: Graph, div: NodeIndex, slice: NodeIndex, squeeze1: NodeIndex, shared: bool,
                      u: NodeIndex)
    requires Alike(g, h, div) && IsSliceEnd(g, slice, squeeze1, shared, u)
    ensures IsSliceEnd(h, slice, squeeze1, shared, u)
  {
    hide Alike, IsInputPath, Graph.CheckOutputEdges;
    AlikeParts(g, h, div);
    AlikePath(g, h, div, slice, SLICE_ENDS_PATTERN, [u, squeeze1]);
  }

  lemma AlikeUnidir(g: Graph, h: Graph, div: NodeIndex, root: NodeIndex, shared: bool, m: UnidirNodes)
    requires Alike(g, h, div) && IsUnidirMatch(g, root, shared, m) && UnidirFacts(g, root, shared, m)
    ensures IsUnidirMatch(h, root, shared, m)
  {
    hide Alike, IsUnidirTrunk, UnidirTrunkFacts, IsSliceEnd, SliceEndFacts, IsPastLength, PastLengthFacts;
    AlikeUnidirTrunk(g, h, div, root, shared, m.trunk, m.unidirectional);
    AlikeSliceEnd(g, h, div, m.trunk.lastSlice, m.trunk.squeeze1, shared, m.unsqueeze2);
    AlikeSliceEnd(g, h, div, m.trunk.maskSlice, m.trunk.squeeze1, shared, m.unsqueeze3);
    AlikePastLength(g, h, div, m.trunk, shared, m.length);
  }

  lemma AlikePastLength(g: Graph, h: Graph, div: NodeIndex, t: UnidirTrunk, shared: bool, l: PastLength)
    requires Alike(g, h, div) && IsPastLength(g, t, shared, l) && PastLengthFacts(g, t.sub, shared, l)
    ensures IsPastLength(h, t, shared, l)
  {
    hide IsInputPath, Feeds, Graph.CheckOutputEdges;
    AlikeParts(g, h, div);
    AlikePath(g, h, div, t.sub, PAST_LENGTH_PATTERN, [l.squeeze2, l.slice2, l.shape2]);
    assert h.At(t.div).outputs == g.At(t.div).outputs;
  }

  // ----- Query, key and past

  lemma AlikeQueryKey(g: Graph, h: Graph, div: NodeIndex, v: ValuePath, p: Projection, nanMatches: bool, q: QueryKey)
    requires Alike(g, h, div) && IsQueryKey(g, div, v, p, nanMatches, q) && QueryKeyFacts(g, div, v, q)
    requires nanMatches && p.headSize < 0 && IsScalar(g, h.At(div).Input(1))
    ensures IsQueryKey(h, div, v, p, nanMatches, q)
  {
    hide IsInputPath;
    AlikeParts(g, h, div);
    AlikePath(g, h, div, div, QUERY_PATTERN, [q.qkMatmul, q.qTranspose, q.qReshape, v.split]);
    AlikePath(g, h, div, q.kSource, KEY_PATTERN, [q.kTranspose, q.kReshape, v.split]);
  }

  lemma AlikePast(g: Graph, h: Graph, div: NodeIndex, qk: NodeIndex, qkv: NodeIndex, m: PastNodes)
    requires Alike(g, h, div) && IsPastMatch(g, m.kConcat, m.vConcat, m) && PastFacts(g, qk, qkv, m)
    ensures IsPastMatch(h, m.kConcat, m.vConcat, m)
  {
    hide Alike, IsInputPath, IsOutputPath, Feeds, Produces, Graph.CheckOutputEdges;
    AlikeParts(g, h, div);
    AlikePath(g, h, div, m.kConcat, PAST_K_PATTERN, [m.pastKTranspose, m.pastKGather]);
    AlikeOutputPath(g, h, div, m.kConcat, PRESENT_K_PATTERN,
      [m.presentKTranspose, m.presentKUnsqueeze, m.presentConcat]);
    AlikePath(g, h, div, m.presentConcat, PRESENT_V_PATTERN, [m.presentVUnsqueeze, m.vConcat, m.pastVGather]);
  }

  // ----- The whole

  lemma AlikeFront(g: Graph, h: Graph, div: NodeIndex, layerNorm: NodeIndex, hiddenSize: int, shared: bool, m: Fusion)
    requires g.WellFormed() && Alike(g, h, div) && ValueFacts(g, m.frame.gemm1.trunk.shape, m.value)
    requires IsFront(g, layerNorm, hiddenSize, shared, m.frame, m.value, m.projection)
    ensures IsFront(h, layerNorm, hiddenSize, shared, m.frame, m.value, m.projection)
  {
    hide Alike, IsFrame, IsValuePath, IsProjection, Feeds;
    AlikeFrame(g, h, div, layerNorm, hiddenSize, shared, m.frame);
    AlikeValuePath(g, h, div, m.frame.gemm1.trunk.shape, m.value);
    AlikeProjection(g, h, div, layerNorm, hiddenSize, shared, m.value, m.projection);
  }

  lemma AlikeBack(g: Graph, h: Graph, div: NodeIndex, shared: bool, nanMatches: bool, m: Fusion)
    requires Facts(g, shared, m) && Alike(g, h, div) && div == m.unidir.trunk.div
    requires IsBack(g, m.value, m.projection, shared, nanMatches, Back(m.mask, m.unidir, m.queryKey, m.past))
    requires nanMatches && m.projection.headSize < 0 && IsScalar(h, h.At(div).Input(1))
    ensures IsBack(h, m.value, m.projection, shared, nanMatches, Back(m.mask, m.unidir, m.queryKey, m.past))
  {
    hide Alike, IsMaskMatch, IsUnidirMatch, IsQueryKey, IsPastMatch, ValueFacts, GemmFacts, MaskFacts, UnidirFacts,
      QueryKeyFacts, PastFacts;
    ScalarsAreAlike(g, h, div);
    AlikeMask(g, h, div, m.value.qkvMatmul, m.mask);
    AlikeUnidir(g, h, div, m.mask.Root(), shared, m.unidir);
    AlikeQueryKey(g, h, div, m.value, m.projection, nanMatches, m.queryKey);
    if m.past.Some? {
      AlikePast(g, h, div, m.queryKey.qkMatmul, m.value.qkvMatmul, m.past.value);
      PastEnds(g, m);
    }
  }

  lemma ScalarsAreAlike(g: Graph, h: Graph, div: NodeIndex)
    requires Alike(g, h, div)
    ensures forall name :: IsScalar(h, name) <==> IsScalar(g, name)
  {}

  lemma AlikeFusion(g: Graph, h: Graph, layerNorm: NodeIndex, hiddenSize: int, shared: bool, nanMatches: bool,
                    m: Fusion)
    requires g.WellFormed() && IsFusion(g, layerNorm, hiddenSize, shared, nanMatches, m)
    requires Alike(g, h, m.unidir.trunk.div) && IsScalar(h, h.At(m.unidir.trunk.div).Input(1))
    ensures IsFusion(h, layerNorm, hiddenSize, shared, nanMatches, m)
  {
    hide Alike, IsFront, IsBack;
    FusionGivesFacts(g, layerNorm, hiddenSize, shared, nanMatches, m);
    FusionNeedsNan(g, layerNorm, hiddenSize, shared, nanMatches, m);
    AlikeFront(g, h, m.unidir.trunk.div, layerNorm, hiddenSize, shared, m);
    AlikeBack(g, h, m.unidir.trunk.div, shared, nanMatches, m);
  }

  /** A fusion has a Div at its scale. */
  lemma FusionHasDiv(g: Graph, layerNorm: NodeIndex, hiddenSize: int, shared: bool, nanMatches: bool, m: Fusion)
    requires IsFusion(g, layerNorm, hiddenSize, shared, nanMatches, m)
    ensures g.At(m.unidir.trunk.div).op == Div
  {
    hide IsFront, IsKeyed, IsMaskMatch;
    assert IsUnidirTrunk(g, m.mask.Root(), shared, m.unidir.trunk, m.unidir.unidirectional);
    assert Link(g, m.unidir.trunk.div, m.unidir.trunk.whereNode, ROOT_PATTERN[1]) by {
      hide IsFusion;
    }
  }

  lemma ReplacedIsAlike(g: Graph, div: NodeIndex, name: Name)
    requires g.WellFormed() && div in g.nodes && |g.nodes[div].inputs| > 1 && g.nodes[div].op == Div
    ensures var h := WithDivisor(g, div, name);
      && h.WellFormed() && Alike(g, h, div) && Alike(h, g, div) && h.At(div).Input(1) == name
  {}

  /**
    The divisor plays no part: replacing the scalar that divides the scores by any other scalar neither
    makes nor breaks a match.
  */
  lemma FusionIgnoresDivisor(g: Graph, layerNorm: NodeIndex, hiddenSize: int, shared: bool, nanMatches: bool, m: Fusion,
                             name: Name)
    requires g.WellFormed()
    requires var div := m.unidir.trunk.div;
      && div in g.nodes && |g.nodes[div].inputs| > 1
      && IsScalar(g, g.nodes[div].inputs[1]) && IsScalar(g, name)
    ensures IsFusion(WithDivisor(g, m.unidir.trunk.div, name), layerNorm, hiddenSize, shared, nanMatches, m)
       <==> IsFusion(g, layerNorm, hiddenSize, shared, nanMatches, m)
  {
    hide IsFusion, Alike, Graph.WellFormed;
    var div := m.unidir.trunk.div;
    var h := WithDivisor(g, div, name);
    if IsFusion(g, layerNorm, hiddenSize, shared, nanMatches, m) {
      FusionHasDiv(g, layerNorm, hiddenSize, shared, nanMatches, m);
      ReplacedIsAlike(g, div, name);
      AlikeFusion(g, h, layerNorm, hiddenSize, shared, nanMatches, m);
    }
    if IsFusion(h, layerNorm, hiddenSize, shared, nanMatches, m) {
      FusionHasDiv(h, layerNorm, hiddenSize, shared, nanMatches, m);
      ReplacedIsAlike(g, div, name);
      AlikeFusion(h, g, layerNorm, hiddenSize, shared, nanMatches, m);
    }
  }
}
