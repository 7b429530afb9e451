/** The pattern of a fusion as facts about operators, out-edges and input slots. */
module FusionFacts {
  import opened Wrappers
  import opened GraphModel
  import opened GraphFacts
  import opened GemmMatch
  import opened GemmClosure
  import opened UnidirMatch
  import opened UnidirClosure
  import opened MaskMatch
  import opened PathChecks
  import opened FusionMatch

  ghost predicate ValueFacts(g: Graph, gemmShape: NodeIndex, v: ValuePath) {
    && HasOp(g, gemmShape, Shape)
    && HasOp(g, v.reshape, Reshape) && Edge(v.reshape, 0, gemmShape, 0) in g.edges
    && HasOp(g, v.transpose, Transpose) && Feeds(g, v.transpose, v.reshape, 0)
    && HasOp(g, v.qkvMatmul, MatMul) && Feeds(g, v.qkvMatmul, v.transpose, 0)
    && HasOp(g, v.vTranspose, Transpose) && Feeds(g, v.vTranspose, v.vSource, 1)
    && HasOp(g, v.vReshape, Reshape) && Feeds(g, v.vReshape, v.vTranspose, 0)
    && HasOp(g, v.split, Split) && Edge(v.split, 2, v.vReshape, 0) in g.edges && |g.OutEdges(v.split)| == 3
    && IsSource(g, v.qkvMatmul, v.hasPast, v.vSource)
  }

  ghost predicate QueryKeyFacts(g: Graph, div: NodeIndex, v: ValuePath, q: QueryKey) {
    && HasOp(g, q.qkMatmul, MatMul) && Edge(q.qkMatmul, 0, div, 0) in g.edges
    && HasOp(g, q.qTranspose, Transpose) && Edge(q.qTranspose, 0, q.qkMatmul, 0) in g.edges
    && HasOp(g, q.qReshape, Reshape) && Edge(q.qReshape, 0, q.qTranspose, 0) in g.edges
    && Edge(v.split, 0, q.qReshape, 0) in g.edges
    && HasOp(g, q.kTranspose, Transpose) && Edge(q.kTranspose, 0, q.kSource, 1) in g.edges
    && HasOp(g, q.kReshape, Reshape) && Edge(q.kReshape, 0, q.kTranspose, 0) in g.edges
    && Edge(v.split, 1, q.kReshape, 0) in g.edges
    && IsSource(g, q.qkMatmul, v.hasPast, q.kSource)
  }

  ghost predicate ChainFacts(g: Graph, softmax: NodeIndex, add: NodeIndex, c: MaskChain) {
    && HasOp(g, add, Add) && Feeds(g, add, softmax, 0)
    && HasOp(g, c.mul, Mul) && Edge(c.mul, 0, add, 1) in g.edges
    && HasOp(g, c.sub, Sub) && Feeds(g, c.sub, c.mul, 0)
    && (c.cast.Some? ==> HasOp(g, c.cast.value, Cast) && Feeds(g, c.cast.value, c.sub, 1))
    && HasOp(g, c.unsqueeze2, Unsqueeze)
    && (if c.cast.Some? then Feeds(g, c.unsqueeze2, c.cast.value, 0) else Feeds(g, c.unsqueeze2, c.sub, 1))
    && HasOp(g, c.unsqueeze1, Unsqueeze) && Feeds(g, c.unsqueeze1, c.unsqueeze2, 0)
  }

  ghost predicate MaskFacts(g: Graph, qkvMatmul: NodeIndex, m: MaskNodes) {
    && HasOp(g, m.softmax, Softmax) && Feeds(g, m.softmax, qkvMatmul, 0)
    && (m.InputMask? ==> ChainFacts(g, m.softmax, m.add, m.chain))
  }

  ghost predicate PastFacts(g: Graph, qkMatmul: NodeIndex, qkvMatmul: NodeIndex, p: PastNodes) {
    && HasOp(g, p.kConcat, Concat) && Produces(g, p.kConcat, qkMatmul, 1) && |g.OutEdges(p.kConcat)| == 2
    && Edge(p.kConcat, 0, p.presentKTranspose, 0) in g.edges
    && HasOp(g, p.vConcat, Concat) && Produces(g, p.vConcat, qkvMatmul, 1) && |g.OutEdges(p.vConcat)| == 2
    && Edge(p.vConcat, 0, p.presentVUnsqueeze, 0) in g.edges
    && HasOp(g, p.pastKTranspose, Transpose) && Feeds(g, p.pastKTranspose, p.kConcat, 0)
    && HasOp(g, p.pastKGather, Gather) && Feeds(g, p.pastKGather, p.pastKTranspose, 0)
    && HasOp(g, p.presentKTranspose, Transpose) && Feeds(g, p.presentKTranspose, p.presentKUnsqueeze, 0)
    && HasOp(g, p.presentKUnsqueeze, Unsqueeze) && Feeds(g, p.presentKUnsqueeze, p.presentConcat, 0)
    && HasOp(g, p.presentConcat, Concat) && g.OutEdges(p.presentConcat) == {}
    && HasOp(g, p.presentVUnsqueeze, Unsqueeze) && Feeds(g, p.presentVUnsqueeze, p.presentConcat, 1)
    && HasOp(g, p.pastVGather, Gather) && Feeds(g, p.pastVGather, p.vConcat, 0)
  }

  /** Everything the removal argument needs to know about a match. */
  ghost predicate Facts(g: Graph, shared: bool, m: Fusion) {
    && g.WellFormed()
    && ValueFacts(g, m.frame.gemm1.trunk.shape, m.value)
    && GemmFacts(g, m.value.split, 0, shared, m.projection.gemm0)
    && MaskFacts(g, m.value.qkvMatmul, m.mask)
    && UnidirFacts(g, m.mask.Root(), shared, m.unidir)
    && QueryKeyFacts(g, m.unidir.trunk.div, m.value, m.queryKey)
    && (m.past.Some? <==> m.value.hasPast)
    && (m.past.Some? ==>
          && m.past.value.kConcat == m.queryKey.kSource && m.past.value.vConcat == m.value.vSource
          && PastFacts(g, m.queryKey.qkMatmul, m.value.qkvMatmul, m.past.value))
  }

  // ----- From the pattern to the facts

  lemma ValueGivesFacts(g: Graph, f: Frame, layerNorm: NodeIndex, hiddenSize: int, shared: bool, v: ValuePath,
                        p: Projection)
    requires g.WellFormed() && IsFront(g, layerNorm, hiddenSize, shared, f, v, p)
    ensures ValueFacts(g, f.gemm1.trunk.shape, v)
  {
    hide IsGemmMatch, ValidateGemmInitializer, IsOutputShape, IsValueShape;
    var shape := f.gemm1.trunk.shape;
    LinkGives(g, v.reshape, shape, OUTPUT_PATTERN[0]);
    LinkGives(g, v.transpose, v.reshape, OUTPUT_PATTERN[1]);
    LinkGives(g, v.qkvMatmul, v.transpose, OUTPUT_PATTERN[2]);
    LinkGives(g, v.vTranspose, v.vSource, VALUE_PATTERN[0]);
    LinkGives(g, v.vReshape, v.vTranspose, VALUE_PATTERN[1]);
    LinkGives(g, v.split, v.vReshape, VALUE_PATTERN[2]);
    SoleLink(g, v.transpose, v.reshape, 0);
    SoleLink(g, v.qkvMatmul, v.transpose, 0);
    SoleLink(g, v.vTranspose, v.vSource, 1);
    SoleLink(g, v.vReshape, v.vTranspose, 0);
    assert HasOp(g, shape, Shape) by {
      assert IsFrame(g, layerNorm, hiddenSize, shared, f);
      ShapeOfGemm(g, f.addAfter, shared, f.gemm1);
    }
  }

  lemma ShapeOfGemm(g: Graph, root: NodeIndex, shared: bool, m: GemmNodes)
    requires g.WellFormed() && IsGemmMatch(g, root, 1, shared, m)
    ensures HasOp(g, m.trunk.shape, Shape)
  {
    TrunkLinks(g, root, 1, m.trunk);
  }

  lemma ChainGivesFacts(g: Graph, softmax: NodeIndex, add: NodeIndex, c: MaskChain)
    requires g.WellFormed() && IsChain(g, softmax, add, c)
    ensures ChainFacts(g, softmax, add, c)
  {
    LinkGives(g, add, softmax, CHAIN_PATTERN[0]);
    LinkGives(g, c.mul, add, CHAIN_PATTERN[1]);
    LinkGives(g, c.sub, c.mul, CHAIN_PATTERN[2]);
    SoleLink(g, add, softmax, 0);
    SoleLink(g, c.sub, c.mul, 0);
    if c.cast.Some? {
      LinkGives(g, c.cast.value, c.sub, CAST_PATTERN[0]);
      LinkGives(g, c.unsqueeze2, c.cast.value, CAST_PATTERN[1]);
      LinkGives(g, c.unsqueeze1, c.unsqueeze2, CAST_PATTERN[2]);
      SoleLink(g, c.cast.value, c.sub, 1);
      SoleLink(g, c.unsqueeze2, c.cast.value, 0);
    } else {
      LinkGives(g, c.unsqueeze2, c.sub, NO_CAST_PATTERN[0]);
      LinkGives(g, c.unsqueeze1, c.unsqueeze2, NO_CAST_PATTERN[1]);
      SoleLink(g, c.unsqueeze2, c.sub, 1);
    }
    SoleLink(g, c.unsqueeze1, c.unsqueeze2, 0);
  }

  lemma MaskGivesFacts(g: Graph, qkvMatmul: NodeIndex, m: MaskNodes)
    requires g.WellFormed() && IsMaskMatch(g, qkvMatmul, true, m)
    ensures MaskFacts(g, qkvMatmul, m)
  {
    hide IsChain;
    LinkGives(g, m.softmax, qkvMatmul, SOFTMAX_PATTERN[0]);
    SoleLink(g, m.softmax, qkvMatmul, 0);
    if m.InputMask? {
      ChainGivesFacts(g, m.softmax, m.add, m.chain);
    }
  }

  lemma QueryKeyGivesFacts(g: Graph, div: NodeIndex, v: ValuePath, p: Projection, nanMatches: bool, q: QueryKey)
    requires g.WellFormed() && IsQueryKey(g, div, v, p, nanMatches, q)
    ensures QueryKeyFacts(g, div, v, q)
  {
    hide CheckNodesInPathQ, CheckNodesInPathK;
    LinkGives(g, q.qkMatmul, div, QUERY_PATTERN[0]);
    LinkGives(g, q.qTranspose, q.qkMatmul, QUERY_PATTERN[1]);
    LinkGives(g, q.qReshape, q.qTranspose, QUERY_PATTERN[2]);
    LinkGives(g, v.split, q.qReshape, QUERY_PATTERN[3]);
    LinkGives(g, q.kTranspose, q.kSource, KEY_PATTERN[0]);
    LinkGives(g, q.kReshape, q.kTranspose, KEY_PATTERN[1]);
    LinkGives(g, v.split, q.kReshape, KEY_PATTERN[2]);
  }

  lemma SoleMatchGives(g: Graph, x: NodeIndex, y: NodeIndex, e: EdgeToMatch)
    requires g.WellFormed() && SoleMatch(g, x, y, e)
    ensures HasOp(g, y, e.op) && Edge(x, e.srcArg, y, e.dstArg) in g.edges
  {
    assert y in Candidates(g, x, e);
  }

  lemma PresentGivesFacts(g: Graph, p: PastNodes)
    requires g.WellFormed()
      && IsOutputPath(g, p.kConcat, PRESENT_K_PATTERN, [p.presentKTranspose, p.presentKUnsqueeze, p.presentConcat])
    ensures HasOp(g, p.presentKTranspose, Transpose) && Edge(p.kConcat, 0, p.presentKTranspose, 0) in g.edges
    ensures HasOp(g, p.presentKUnsqueeze, Unsqueeze) && Edge(p.presentKTranspose, 0, p.presentKUnsqueeze, 0) in g.edges
    ensures HasOp(g, p.presentConcat, Concat) && Edge(p.presentKUnsqueeze, 0, p.presentConcat, 0) in g.edges
  {
    SoleMatchGives(g, p.kConcat, p.presentKTranspose, PRESENT_K_PATTERN[0]);
    SoleMatchGives(g, p.presentKTranspose, p.presentKUnsqueeze, PRESENT_K_PATTERN[1]);
    SoleMatchGives(g, p.presentKUnsqueeze, p.presentConcat, PRESENT_K_PATTERN[2]);
  }

  lemma PastGivesFacts(g: Graph, q: QueryKey, v: ValuePath, p: PastNodes)
    requires g.WellFormed() && v.hasPast && IsPastMatch(g, q.kSource, v.vSource, p)
    requires IsSource(g, q.qkMatmul, true, q.kSource) && IsSource(g, v.qkvMatmul, true, v.vSource)
    ensures PastFacts(g, q.qkMatmul, v.qkvMatmul, p)
  {
    hide PastValues;
    PresentGivesFacts(g, p);
    LinkGives(g, p.pastKTranspose, p.kConcat, PAST_K_PATTERN[0]);
    LinkGives(g, p.pastKGather, p.pastKTranspose, PAST_K_PATTERN[1]);
    LinkGives(g, p.presentVUnsqueeze, p.presentConcat, PRESENT_V_PATTERN[0]);
    LinkGives(g, p.vConcat, p.presentVUnsqueeze, PRESENT_V_PATTERN[1]);
    LinkGives(g, p.pastVGather, p.vConcat, PRESENT_V_PATTERN[2]);
    SoleLink(g, p.pastKTranspose, p.kConcat, 0);
    SoleLink(g, p.pastKGather, p.pastKTranspose, 0);
    SoleLink(g, p.presentKTranspose, p.presentKUnsqueeze, 0);
    SoleLink(g, p.presentKUnsqueeze, p.presentConcat, 0);
    SoleLink(g, p.presentVUnsqueeze, p.presentConcat, 1);
    SoleLink(g, p.pastVGather, p.vConcat, 0);
    var a: nat :| Edge(p.kConcat, a, q.qkMatmul, 1) in g.edges;
  }

  lemma FusionGivesFacts(g: Graph, layerNorm: NodeIndex, hiddenSize: int, shared: bool, nanMatches: bool, m: Fusion)
    requires g.WellFormed() && IsFusion(g, layerNorm, hiddenSize, shared, nanMatches, m)
    ensures Facts(g, shared, m)
  {
    hide IsFrame, IsValuePath, IsGemmMatch, IsMaskMatch, IsUnidirMatch, IsQueryKey, IsPastMatch, IsPathV,
      ValueFacts, GemmFacts, MaskFacts, UnidirFacts, QueryKeyFacts, PastFacts, IsSource;
    ValueGivesFacts(g, m.frame, layerNorm, hiddenSize, shared, m.value, m.projection);
    GemmMatchGivesFacts(g, m.value.split, 0, shared, m.projection.gemm0);
    MaskGivesFacts(g, m.value.qkvMatmul, m.mask);
    UnidirMatchGivesFacts(g, m.mask.Root(), shared, m.unidir);
    QueryKeyGivesFacts(g, m.unidir.trunk.div, m.value, m.projection, nanMatches, m.queryKey);
    if m.past.Some? {
      SourcesGiven(g, m);
      PastGivesFacts(g, m.queryKey, m.value, m.past.value);
      PastEnds(g, m);
    }
  }

  lemma SourcesGiven(g: Graph, m: Fusion)
    requires ValueFacts(g, m.frame.gemm1.trunk.shape, m.value)
    requires QueryKeyFacts(g, m.unidir.trunk.div, m.value, m.queryKey)
    ensures IsSource(g, m.queryKey.qkMatmul, m.value.hasPast, m.queryKey.kSource)
    ensures IsSource(g, m.value.qkvMatmul, m.value.hasPast, m.value.vSource)
  {}

  lemma PastEnds(g: Graph, m: Fusion)
    requires m.past.Some? && IsPastMatch(g, m.queryKey.kSource, m.value.vSource, m.past.value)
    ensures m.past.value.kConcat == m.queryKey.kSource && m.past.value.vConcat == m.value.vSource
  {}
}
