/** Matching the optional input-mask chain and the optional past/present subgraph. */
module MaskMatch {
  import opened Wrappers
  import opened GraphModel

  // ----- Input mask

  datatype MaskNodes =
    | NoInputMask(softmax: NodeIndex)
    | InputMask(softmax: NodeIndex, add: NodeIndex, chain: MaskChain)
  {
    /** The node the causal-mask pattern ends in front of. */
    function Root(): NodeIndex {
      if InputMask? then add else softmax
    }
  }

  /** The nodes that several layers may share. */
  datatype MaskChain = MaskChain(mul: NodeIndex, sub: NodeIndex, cast: Option<NodeIndex>, unsqueeze2: NodeIndex,
                                 unsqueeze1: NodeIndex) {
    function Indices(): seq<NodeIndex> {
      [mul, sub] + (if cast.Some? then [cast.value] else []) + [unsqueeze2, unsqueeze1]
    }
  }

  const SOFTMAX_PATTERN := [EdgeToMatch(0, 0, Softmax, {1, 11, 13})]

  const CHAIN_PATTERN := [
    EdgeToMatch(0, 0, Add, {7, 13}),
    EdgeToMatch(0, 1, Mul, {7, 13}),
    EdgeToMatch(0, 0, Sub, {7, 13})]

  const CAST_PATTERN := [
    EdgeToMatch(0, 1, Cast, {9}),
    EdgeToMatch(0, 0, Unsqueeze, {1, 11}),
    EdgeToMatch(0, 0, Unsqueeze, {1, 11})]

  const NO_CAST_PATTERN := [EdgeToMatch(0, 1, Unsqueeze, {1, 11}), EdgeToMatch(0, 0, Unsqueeze, {1, 11})]

  /** Input `slot` of `y` is produced by a node of this type. */
  ghost predicate ProducedBy(g: Graph, y: NodeIndex, slot: nat, op: Op) {
    exists x: NodeIndex, a: nat :: Edge(x, a, y, slot) in g.edges && g.At(x).op == op
  }

  predicate IsChainTop(g: Graph, c: MaskChain) {
    if c.cast.Some?
    then IsInputPath(g, c.sub, CAST_PATTERN, [c.cast.value, c.unsqueeze2, c.unsqueeze1])
    else IsInputPath(g, c.sub, NO_CAST_PATTERN, [c.unsqueeze2, c.unsqueeze1])
  }

  predicate ChainCounts(g: Graph, c: MaskChain) {
    && g.CheckOutputEdges(c.sub, 1)
    && (c.cast.Some? ==> g.CheckOutputEdges(c.cast.value, 1))
    && g.CheckOutputEdges(c.unsqueeze2, 1)
    && g.CheckOutputEdges(c.unsqueeze1, 1)
  }

  predicate ChainValues(g: Graph, c: MaskChain) {
    && g.At(c.unsqueeze1).HasAttribute("axes", [1])
    && g.At(c.unsqueeze2).HasAttribute("axes", [2])
    && g.IsReal(g.At(c.sub).Input(0), 1.0, false)
    && g.IsReal(g.At(c.mul).Input(1), -10000.0, false)
  }

  predicate IsChain(g: Graph, softmax: NodeIndex, add: NodeIndex, c: MaskChain) {
    && IsInputPath(g, softmax, CHAIN_PATTERN, [add, c.mul, c.sub])
    && IsChainTop(g, c)
    && g.CheckOutputEdges(add, 1)
    && ChainCounts(g, c)
    && g.At(softmax).HasAttribute("axis", [3])
    && ChainValues(g, c)
  }

  /** What is in front of the last MatMul: a Softmax behind the chain, or, if allowed, behind a Where. */
  ghost predicate IsMaskMatch(g: Graph, qkvMatmul: NodeIndex, optional: bool, m: MaskNodes) {
    && IsInputPath(g, qkvMatmul, SOFTMAX_PATTERN, [m.softmax])
    && g.CheckOutputEdges(m.softmax, 1)
    && match m
       case NoInputMask(softmax) => optional && ProducedBy(g, softmax, 0, Where)
       case InputMask(softmax, add, chain) => IsChain(g, softmax, add, chain)
  }

  /** The nodes above the Sub: with or without a Cast. */
  method MatchChainTop(g: Graph, mul: NodeIndex, sub: NodeIndex) returns (chain: Option<MaskChain>)
    requires g.WellFormed()
    ensures chain.Some? ==> chain.value.mul == mul && chain.value.sub == sub && IsChainTop(g, chain.value)
    ensures forall c: MaskChain | c.mul == mul && c.sub == sub && IsChainTop(g, c) :: chain == Some(c)
  {
    var path := FindPath(g, sub, CAST_PATTERN);
    var path2 := FindPath(g, sub, NO_CAST_PATTERN);
    CastExcludesNoCast(g, sub);
    if path.Some? {
      var p := path.value;
      assert p == [p[0], p[1], p[2]];
      assert path2.None?;
      return Some(MaskChain(mul, sub, Some(p[0]), p[1], p[2]));
    } else if path2.Some? {
      var p := path2.value;
      assert p == [p[0], p[1]];
      return Some(MaskChain(mul, sub, None, p[0], p[1]));
    } else {
      return None;
    }
  }

  lemma CastExcludesNoCast(g: Graph, sub: NodeIndex)
    requires g.WellFormed()
    ensures forall p, q :: !(IsInputPath(g, sub, CAST_PATTERN, p) && IsInputPath(g, sub, NO_CAST_PATTERN, q))
  {
    forall p, q | IsInputPath(g, sub, CAST_PATTERN, p)
      ensures !IsInputPath(g, sub, NO_CAST_PATTERN, q)
    {
      assert Link(g, p[0], sub, CAST_PATTERN[0]);
      var e := NO_CAST_PATTERN[0];
    }
  }

  method MatchChain(g: Graph, softmax: NodeIndex) returns (chain: Option<(NodeIndex, MaskChain)>)
    requires g.WellFormed()
    ensures chain.Some? ==> IsChain(g, softmax, chain.value.0, chain.value.1)
    ensures forall add: NodeIndex, c: MaskChain | IsChain(g, softmax, add, c) :: chain == Some((add, c))
  {
    var path := FindPath(g, softmax, CHAIN_PATTERN);
    if path.None? { return None; }
    var p := path.value;
    assert p == [p[0], p[1], p[2]];
    forall add: NodeIndex, c | IsChain(g, softmax, add, c)
      ensures add == p[0] && c.mul == p[1] && c.sub == p[2]
    {
      assert p == [add, c.mul, c.sub];
    }
    var top := MatchChainTop(g, p[1], p[2]);
    if top.None? { return None; }
    var c := top.value;
    if !g.CheckOutputEdges(p[0], 1) || !ChainCounts(g, c) { return None; }
    if !g.At(softmax).HasAttribute("axis", [3]) { return None; }
    if !ChainValues(g, c) { return None; }
    return Some((p[0], c));
  }

  method MatchInputMaskSubgraph(g: Graph, qkvMatmul: NodeIndex, optional: bool) returns (mask: Option<MaskNodes>)
    requires g.WellFormed()
    ensures mask.Some? ==> IsMaskMatch(g, qkvMatmul, optional, mask.value)
    ensures forall m | IsMaskMatch(g, qkvMatmul, optional, m) :: mask == Some(m)
  {
    var path := FindPath(g, qkvMatmul, SOFTMAX_PATTERN);
    if path.None? { return None; }
    var softmax := path.value[0];
    assert path.value == [softmax];
    forall m | IsMaskMatch(g, qkvMatmul, optional, m)
      ensures m.softmax == softmax
    {
      assert [m.softmax][0] == m.softmax;
    }
    if !g.CheckOutputEdges(softmax, 1) { return None; }
    ChainExcludesWhere(g, softmax);
    if optional {
      var parent := GetInputNode(g, softmax, 0);
      if parent.Some? && g.At(parent.value).op == Where {
        return Some(NoInputMask(softmax));
      }
    }
    var chain := MatchChain(g, softmax);
    if chain.None? { return None; }
    return Some(InputMask(softmax, chain.value.0, chain.value.1));
  }

  lemma ChainExcludesWhere(g: Graph, softmax: NodeIndex)
    requires g.WellFormed()
    ensures forall add: NodeIndex, c: MaskChain :: IsChain(g, softmax, add, c) ==> !ProducedBy(g, softmax, 0, Where)
  {
    forall add: NodeIndex, c: MaskChain | IsChain(g, softmax, add, c)
      ensures !ProducedBy(g, softmax, 0, Where)
    {
      assert Link(g, add, softmax, CHAIN_PATTERN[0]);
    }
  }

  // ----- Past and present

  datatype PastNodes = PastNodes(
    kConcat: NodeIndex, pastKTranspose: NodeIndex, pastKGather: NodeIndex, presentKTranspose: NodeIndex,
    presentKUnsqueeze: NodeIndex, presentConcat: NodeIndex, presentVUnsqueeze: NodeIndex, vConcat: NodeIndex,
    pastVGather: NodeIndex)
  {
    function Indices(): seq<NodeIndex> {
      [kConcat, pastKTranspose, pastKGather, presentKTranspose, presentKUnsqueeze, presentConcat, presentVUnsqueeze,
       vConcat, pastVGather]
    }
  }

  const PAST_K_PATTERN := [EdgeToMatch(0, 0, Transpose, {1, 13}), EdgeToMatch(0, 0, Gather, {1, 11, 13})]

  const PRESENT_K_PATTERN := [
    EdgeToMatch(0, 0, Transpose, {1, 13}),
    EdgeToMatch(0, 0, Unsqueeze, {1, 11, 13}),
    EdgeToMatch(0, 0, Concat, {4, 11, 13})]

  const PRESENT_V_PATTERN := [
    EdgeToMatch(0, 1, Unsqueeze, {1, 11, 13}),
    EdgeToMatch(0, 0, Concat, {4, 11, 13}),
    EdgeToMatch(0, 0, Gather, {1, 11, 13})]

  predicate PastValues(g: Graph, m: PastNodes) {
    && g.At(m.pastKTranspose).HasAttribute("perm", [0, 1, 3, 2])
    && g.At(m.presentKTranspose).HasAttribute("perm", [0, 1, 3, 2])
    && g.At(m.presentKUnsqueeze).HasAttribute("axes", [0])
    && g.At(m.presentVUnsqueeze).HasAttribute("axes", [0])
    && g.IsInt(g.At(m.pastVGather).Input(1), 1)
    && g.IsInt(g.At(m.pastKGather).Input(1), 0)
    && g.At(m.pastVGather).Input(0) == g.At(m.pastKGather).Input(0)
  }

  predicate PastCounts(g: Graph, m: PastNodes) {
    && g.CheckOutputEdges(m.kConcat, 2)
    && g.CheckOutputEdges(m.pastKTranspose, 1)
    && g.CheckOutputEdges(m.pastKGather, 1)
    && g.CheckOutputEdges(m.presentKTranspose, 1)
    && g.CheckOutputEdges(m.presentKUnsqueeze, 1)
    && |g.OutEdges(m.presentConcat)| == 0
    && g.CheckOutputEdges(m.presentVUnsqueeze, 1)
    && g.CheckOutputEdges(m.vConcat, 2)
    && g.CheckOutputEdges(m.pastVGather, 1)
  }

  ghost predicate IsPastMatch(g: Graph, kConcat: NodeIndex, vConcat: NodeIndex, m: PastNodes) {
    && m.kConcat == kConcat && m.vConcat == vConcat
    && IsInputPath(g, kConcat, PAST_K_PATTERN, [m.pastKTranspose, m.pastKGather])
    && IsOutputPath(g, kConcat, PRESENT_K_PATTERN, [m.presentKTranspose, m.presentKUnsqueeze, m.presentConcat])
    && IsInputPath(g, m.presentConcat, PRESENT_V_PATTERN, [m.presentVUnsqueeze, vConcat, m.pastVGather])
    && PastValues(g, m)
    && PastCounts(g, m)
  }

  method MatchPastSubgraph(g: Graph, kConcat: NodeIndex, vConcat: NodeIndex) returns (past: Option<PastNodes>)
    requires g.WellFormed()
    ensures past.Some? ==> IsPastMatch(g, kConcat, vConcat, past.value)
    ensures forall m | IsPastMatch(g, kConcat, vConcat, m) :: past == Some(m)
  {
    hide PastValues, PastCounts, IsInputPath, IsOutputPath, Graph.WellFormed;
    var path := FindPath(g, kConcat, PAST_K_PATTERN);
    if path.None? { return None; }
    var k := path.value;
    assert k == [k[0], k[1]];
    path := FindOutputPath(g, kConcat, PRESENT_K_PATTERN);
    if path.None? { return None; }
    var p := path.value;
    assert p == [p[0], p[1], p[2]];
    path := FindPath(g, p[2], PRESENT_V_PATTERN);
    if path.None? { return None; }
    var v := path.value;
    assert v == [v[0], v[1], v[2]];
    var m := PastNodes(kConcat, k[0], k[1], p[0], p[1], p[2], v[0], v[1], v[2]);
    forall m' | IsPastMatch(g, kConcat, vConcat, m')
      ensures m' == m && v[1] == vConcat
    {
      assert k == [m'.pastKTranspose, m'.pastKGather];
      assert p == [m'.presentKTranspose, m'.presentKUnsqueeze, m'.presentConcat];
      assert v == [m'.presentVUnsqueeze, vConcat, m'.pastVGather];
    }
    if v[1] != vConcat { return None; }
    if !PastValues(g, m) || !PastCounts(g, m) { return None; }
    return Some(m);
  }
}
