/** The whole pattern `FuseGptAttention` looks for, and the search for it. */
module FusionMatch {
  import opened Wrappers
  import opened GraphModel
  import opened GemmMatch
  import opened UnidirMatch
  import opened MaskMatch
  import opened PathChecks

  ghost predicate Produces(g: Graph, x: NodeIndex, y: NodeIndex, slot: nat) {
    exists a: nat :: Edge(x, a, y, slot) in g.edges
  }

  /** `FirstChildByType`: among the consumers of `x` with this operator, the one with the lowest index. */
  ghost predicate IsFirstChild(g: Graph, x: NodeIndex, op: Op, c: NodeIndex) {
    && (exists e :: e in g.OutEdges(x) && e.dst == c)
    && g.At(c).op == op
    && forall e :: e in g.OutEdges(x) && g.At(e.dst).op == op ==> c <= e.dst
  }

  method FirstChildByType(g: Graph, x: NodeIndex, op: Op) returns (child: Option<NodeIndex>)
    ensures child.Some? ==> IsFirstChild(g, x, op, child.value)
    ensures forall c: NodeIndex | IsFirstChild(g, x, op, c) :: child == Some(c)
  {
    child := None;
    var rest := g.OutEdges(x);
    while rest != {}
      invariant rest <= g.OutEdges(x)
      invariant child.Some? ==> g.At(child.value).op == op && exists e :: e in g.OutEdges(x) && e.dst == child.value
      invariant forall e :: e in g.OutEdges(x) - rest && g.At(e.dst).op == op ==> child.Some? && child.value <= e.dst
      decreases rest
    {
      var e: Edge :| e in rest;
      if g.At(e.dst).op == op && (child.None? || e.dst < child.value) {
        child := Some(e.dst);
      }
      rest := rest - {e};
    }
  }

  const CONCAT_VERSIONS: set<nat> := {4, 11, 13}

  // ----- The frame: the Add before, the Add after, and the Gemm in front of the latter

  datatype Frame = Frame(addBefore: NodeIndex, addAfter: NodeIndex, gemm1: GemmNodes)

  ghost predicate IsFrame(g: Graph, layerNorm: NodeIndex, hiddenSize: int, shared: bool, f: Frame) {
    && Produces(g, f.addBefore, layerNorm, 0) && g.At(f.addBefore).Supported(Add, {7, 13})
    && IsFirstChild(g, f.addBefore, Add, f.addAfter)
    && IsGemmMatch(g, f.addAfter, 1, shared, f.gemm1)
    && ValidateGemmInitializer(g, f.gemm1.trunk.gemm, hiddenSize, false)
  }

  method MatchFrame(g: Graph, layerNorm: NodeIndex, hiddenSize: int, shared: bool) returns (frame: Option<Frame>)
    requires g.WellFormed()
    ensures frame.Some? ==> IsFrame(g, layerNorm, hiddenSize, shared, frame.value)
    ensures forall f | IsFrame(g, layerNorm, hiddenSize, shared, f) :: frame == Some(f)
  {
    var parent := GetInputNode(g, layerNorm, 0);
    if parent.None? || !g.At(parent.value).Supported(Add, {7, 13}) { return None; }
    var child := FirstChildByType(g, parent.value, Add);
    if child.None? { return None; }
    var gemm, _ := MatchGemmSubgraph(g, child.value, 1, shared);
    if gemm.None? || !ValidateGemmInitializer(g, gemm.value.trunk.gemm, hiddenSize, false) { return None; }
    return Some(Frame(parent.value, child.value, gemm.value));
  }

  // ----- The value path

  datatype ValuePath = ValuePath(
    reshape: NodeIndex, transpose: NodeIndex, qkvMatmul: NodeIndex, hasPast: bool, vSource: NodeIndex,
    vTranspose: NodeIndex, vReshape: NodeIndex, split: NodeIndex)

  const OUTPUT_PATTERN := [
    EdgeToMatch(0, 0, Reshape, {5, 13}),
    EdgeToMatch(0, 0, Transpose, {1, 13}),
    EdgeToMatch(0, 0, MatMul, {1, 9})]

  const VALUE_PATTERN := [
    EdgeToMatch(0, 1, Transpose, {1, 13}),
    EdgeToMatch(0, 0, Reshape, {5, 13}),
    EdgeToMatch(2, 0, Split, {2, 11, 13})]

  /** With a past, a Concat stands between a MatMul and the transposed projection. */
  ghost predicate IsSource(g: Graph, matmul: NodeIndex, hasPast: bool, source: NodeIndex) {
    if hasPast then Produces(g, source, matmul, 1) && g.At(source).Supported(Concat, CONCAT_VERSIONS)
    else source == matmul
  }

  ghost predicate IsValuePath(g: Graph, gemmShape: NodeIndex, v: ValuePath) {
    && IsInputPath(g, gemmShape, OUTPUT_PATTERN, [v.reshape, v.transpose, v.qkvMatmul])
    && IsSource(g, v.qkvMatmul, v.hasPast, v.vSource)
    && IsInputPath(g, v.vSource, VALUE_PATTERN, [v.vTranspose, v.vReshape, v.split])
  }

  method MatchValuePath(g: Graph, gemmShape: NodeIndex) returns (path: Option<ValuePath>)
    requires g.WellFormed()
    ensures path.Some? ==> IsValuePath(g, gemmShape, path.value)
    ensures forall v | IsValuePath(g, gemmShape, v) :: path == Some(v)
  {
    var out := FindPath(g, gemmShape, OUTPUT_PATTERN);
    if out.None? { return None; }
    var o := out.value;
    assert o == [o[0], o[1], o[2]];
    forall v | IsValuePath(g, gemmShape, v)
      ensures v.reshape == o[0] && v.transpose == o[1] && v.qkvMatmul == o[2] && SourceIsProducer(g, v)
    {
      assert o == [v.reshape, v.transpose, v.qkvMatmul];
      ValueSource(g, gemmShape, v);
    }
    var vConcat := GetInputNode(g, o[2], 1);
    if vConcat.None? { return None; }
    var hasPast := g.At(vConcat.value).Supported(Concat, CONCAT_VERSIONS);
    var source := if hasPast then vConcat.value else o[2];
    var up := FindPath(g, source, VALUE_PATTERN);
    if up.None? { return None; }
    var p := up.value;
    assert p == [p[0], p[1], p[2]];
    var found := ValuePath(o[0], o[1], o[2], hasPast, source, p[0], p[1], p[2]);
    forall v | IsValuePath(g, gemmShape, v)
      ensures v == found
    {
      assert p == [v.vTranspose, v.vReshape, v.split];
    }
    return Some(found);
  }

  /** Input 1 of the last MatMul has a producer; it is a supported Concat exactly with a past. */
  ghost predicate SourceIsProducer(g: Graph, v: ValuePath) {
    exists x :: Produces(g, x, v.qkvMatmul, 1) && (v.hasPast <==> g.At(x).Supported(Concat, CONCAT_VERSIONS))
      && (v.hasPast ==> x == v.vSource)
  }

  lemma ValueSource(g: Graph, gemmShape: NodeIndex, v: ValuePath)
    requires IsValuePath(g, gemmShape, v)
    ensures SourceIsProducer(g, v)
  {
    if !v.hasPast {
      assert Link(g, v.vTranspose, v.qkvMatmul, VALUE_PATTERN[0]);
      assert Produces(g, v.vTranspose, v.qkvMatmul, 1);
    }
  }

  // ----- The projection behind the Split, and the head counts

  datatype Projection = Projection(gemm0: GemmNodes, numHeads: int, headSize: int)

  ghost predicate IsProjection(g: Graph, layerNorm: NodeIndex, hiddenSize: int, shared: bool, v: ValuePath,
                               p: Projection) {
    && IsGemmMatch(g, v.split, 0, shared, p.gemm0)
    && ValidateGemmInitializer(g, p.gemm0.trunk.gemm, hiddenSize, true)
    && Produces(g, layerNorm, p.gemm0.trunk.shape, 0)
    && IsPathV(g, v.reshape, v.transpose, v.qkvMatmul, v.vTranspose, v.vReshape, 0, -1, hiddenSize,
      (p.numHeads, p.headSize))
    && g.CheckOutputEdges(v.split, 3)
  }

  method MatchProjection(g: Graph, layerNorm: NodeIndex, hiddenSize: int, shared: bool, v: ValuePath)
    returns (projection: Option<Projection>)
    requires g.WellFormed()
    ensures projection.Some? ==> IsProjection(g, layerNorm, hiddenSize, shared, v, projection.value)
    ensures forall p | IsProjection(g, layerNorm, hiddenSize, shared, v, p) :: projection == Some(p)
  {
    hide IsGemmMatch, IsPathV, ValidateGemmInitializer, Graph.WellFormed;
    var gemm, _ := MatchGemmSubgraph(g, v.split, 0, shared);
    if gemm.None? || !ValidateGemmInitializer(g, gemm.value.trunk.gemm, hiddenSize, true) { return None; }
    var parent := GetInputNode(g, gemm.value.trunk.shape, 0);
    if parent.None? || parent.value != layerNorm { return None; }
    var heads := CheckNodesInPathV(g, v.reshape, v.transpose, v.qkvMatmul, v.vTranspose, v.vReshape, 0, -1, hiddenSize);
    if heads.None? { return None; }
    if !g.CheckOutputEdges(v.split, 3) { return None; }
    assert heads == Some((heads.value.0, heads.value.1));
    return Some(Projection(gemm.value, heads.value.0, heads.value.1));
  }

  // ----- The query and key paths

  datatype QueryKey = QueryKey(
    qkMatmul: NodeIndex, qTranspose: NodeIndex, qReshape: NodeIndex, kSource: NodeIndex, kTranspose: NodeIndex,
      kReshape: NodeIndex)

  const QUERY_PATTERN := [
    EdgeToMatch(0, 0, MatMul, {1, 9, 13}),
    EdgeToMatch(0, 0, Transpose, {1, 13}),
    EdgeToMatch(0, 0, Reshape, {5, 13}),
    EdgeToMatch(0, 0, Split, {2, 11, 13})]

  const KEY_PATTERN := [
    EdgeToMatch(0, 1, Transpose, {1, 13}),
    EdgeToMatch(0, 0, Reshape, {5, 13}),
    EdgeToMatch(1, 0, Split, {2, 11, 13})]

  ghost predicate IsQueryKey(g: Graph, div: NodeIndex, v: ValuePath, p: Projection, nanMatches: bool, q: QueryKey) {
    && IsInputPath(g, div, QUERY_PATTERN, [q.qkMatmul, q.qTranspose, q.qReshape, v.split])
    && CheckNodesInPathQ(g, div, q.qReshape, q.qTranspose, p.numHeads, p.headSize, nanMatches)
    && IsSource(g, q.qkMatmul, v.hasPast, q.kSource)
    && IsInputPath(g, q.kSource, KEY_PATTERN, [q.kTranspose, q.kReshape, v.split])
    && CheckNodesInPathK(g, q.kReshape, q.kTranspose, p.numHeads, p.headSize)
  }

  method MatchQueryKey(g: Graph, div: NodeIndex, v: ValuePath, p: Projection, nanMatches: bool)
    returns (queryKey: Option<QueryKey>)
    requires g.WellFormed()
    ensures queryKey.Some? ==> IsQueryKey(g, div, v, p, nanMatches, queryKey.value)
    ensures forall q | IsQueryKey(g, div, v, p, nanMatches, q) :: queryKey == Some(q)
  {
    var path := FindPath(g, div, QUERY_PATTERN);
    if path.None? { return None; }
    var u := path.value;
    assert u == [u[0], u[1], u[2], u[3]];
    forall q | IsQueryKey(g, div, v, p, nanMatches, q)
      ensures q.qkMatmul == u[0] && q.qTranspose == u[1] && q.qReshape == u[2] && u[3] == v.split
    {
      assert u == [q.qkMatmul, q.qTranspose, q.qReshape, v.split];
    }
    if u[3] != v.split { return None; }
    if !CheckNodesInPathQ(g, div, u[2], u[1], p.numHeads, p.headSize, nanMatches) { return None; }
    var source := u[0];
    if v.hasPast {
      var kConcat := GetInputNode(g, u[0], 1);
      if kConcat.None? || !g.At(kConcat.value).Supported(Concat, CONCAT_VERSIONS) { return None; }
      source := kConcat.value;
    }
    path := FindPath(g, source, KEY_PATTERN);
    if path.None? { return None; }
    var k := path.value;
    assert k == [k[0], k[1], k[2]];
    var found := QueryKey(u[0], u[1], u[2], source, k[0], k[1]);
    forall q | IsQueryKey(g, div, v, p, nanMatches, q)
      ensures q == found && k[2] == v.split
    {
      assert k == [q.kTranspose, q.kReshape, v.split];
    }
    if k[2] != v.split { return None; }
    if !CheckNodesInPathK(g, k[1], k[0], p.numHeads, p.headSize) { return None; }
    return Some(found);
  }

  // ----- The whole

  datatype Fusion = Fusion(frame: Frame, value: ValuePath, projection: Projection, mask: MaskNodes, unidir: UnidirNodes,
                           queryKey: QueryKey, past: Option<PastNodes>)
  {
    /** The nodes the fusion always removes. */
    function BaseIndices(): seq<NodeIndex> {
      [value.reshape, value.transpose, value.qkvMatmul, value.vTranspose, value.vReshape, value.split, unidir.trunk.div,
       queryKey.qkMatmul, queryKey.qTranspose, queryKey.qReshape, queryKey.kTranspose, queryKey.kReshape]
    }

    function PastIndices(): seq<NodeIndex> {
      if past.Some? then past.value.Indices() else []
    }
  }

  ghost predicate IsFront(g: Graph, layerNorm: NodeIndex, hiddenSize: int, shared: bool,
                          frame: Frame, value: ValuePath, projection: Projection)
  {
    && IsFrame(g, layerNorm, hiddenSize, shared, frame)
    && IsValuePath(g, frame.gemm1.trunk.shape, value)
    && IsProjection(g, layerNorm, hiddenSize, shared, value, projection)
  }

  ghost predicate IsMasked(g: Graph, qkvMatmul: NodeIndex, shared: bool, mask: MaskNodes, unidir: UnidirNodes) {
    IsMaskMatch(g, qkvMatmul, true, mask) && IsUnidirMatch(g, mask.Root(), shared, unidir)
  }

  ghost predicate IsKeyed(g: Graph, div: NodeIndex, v: ValuePath, p: Projection, nanMatches: bool,
                          q: QueryKey, past: Option<PastNodes>)
  {
    && IsQueryKey(g, div, v, p, nanMatches, q)
    && (past.Some? <==> v.hasPast)
    && (past.Some? ==> IsPastMatch(g, q.kSource, v.vSource, past.value))
  }

  datatype Back = Back(mask: MaskNodes, unidir: UnidirNodes, queryKey: QueryKey, past: Option<PastNodes>)

  ghost predicate IsBack(g: Graph, v: ValuePath, p: Projection, shared: bool, nanMatches: bool, b: Back) {
    && IsMasked(g, v.qkvMatmul, shared, b.mask, b.unidir)
    && IsKeyed(g, b.unidir.trunk.div, v, p, nanMatches, b.queryKey, b.past)
  }

  /** The nodes of `m` form the pattern around `layerNorm`. */
  ghost predicate IsFusion(g: Graph, layerNorm: NodeIndex, hiddenSize: int, shared: bool, nanMatches: bool, m: Fusion) {
    && IsFront(g, layerNorm, hiddenSize, shared, m.frame, m.value, m.projection)
    && IsBack(g, m.value, m.projection, shared, nanMatches, Back(m.mask, m.unidir, m.queryKey, m.past))
  }

  method MatchFront(g: Graph, layerNorm: NodeIndex, hiddenSize: int, shared: bool)
    returns (front: Option<(Frame, ValuePath, Projection)>)
    requires g.WellFormed()
    ensures front.Some? ==> IsFront(g, layerNorm, hiddenSize, shared, front.value.0, front.value.1, front.value.2)
    ensures forall f, v, p | IsFront(g, layerNorm, hiddenSize, shared, f, v, p) :: front == Some((f, v, p))
  {
    hide IsFrame, IsValuePath, IsProjection, Graph.WellFormed;
    var frame := MatchFrame(g, layerNorm, hiddenSize, shared);
    if frame.None? { return None; }
    var value := MatchValuePath(g, frame.value.gemm1.trunk.shape);
    if value.None? { return None; }
    var projection := MatchProjection(g, layerNorm, hiddenSize, shared, value.value);
    if projection.None? { return None; }
    return Some((frame.value, value.value, projection.value));
  }

  method MatchMasked(g: Graph, qkvMatmul: NodeIndex, shared: bool) returns (masked: Option<(MaskNodes, UnidirNodes)>)
    requires g.WellFormed()
    ensures masked.Some? ==> IsMasked(g, qkvMatmul, shared, masked.value.0, masked.value.1)
    ensures forall m, u | IsMasked(g, qkvMatmul, shared, m, u) :: masked == Some((m, u))
  {
    var mask := MatchInputMaskSubgraph(g, qkvMatmul, true);
    if mask.None? { return None; }
    var unidir, _ := MatchUnidirMaskSubgraph(g, mask.value.Root(), shared);
    if unidir.None? { return None; }
    return Some((mask.value, unidir.value));
  }

  method MatchKeyed(g: Graph, div: NodeIndex, v: ValuePath, p: Projection, nanMatches: bool)
    returns (keyed: Option<(QueryKey, Option<PastNodes>)>)
    requires g.WellFormed()
    ensures keyed.Some? ==> IsKeyed(g, div, v, p, nanMatches, keyed.value.0, keyed.value.1)
    ensures forall q, past | IsKeyed(g, div, v, p, nanMatches, q, past) :: keyed == Some((q, past))
  {
    var queryKey := MatchQueryKey(g, div, v, p, nanMatches);
    if queryKey.None? { return None; }
    if !v.hasPast { return Some((queryKey.value, None)); }
    var past := MatchPastSubgraph(g, queryKey.value.kSource, v.vSource);
    if past.None? { return None; }
    return Some((queryKey.value, past));
  }

  method MatchBack(g: Graph, v: ValuePath, p: Projection, shared: bool, nanMatches: bool) returns (back: Option<Back>)
    requires g.WellFormed()
    ensures back.Some? ==> IsBack(g, v, p, shared, nanMatches, back.value)
    ensures forall b | IsBack(g, v, p, shared, nanMatches, b) :: back == Some(b)
  {
    var masked := MatchMasked(g, v.qkvMatmul, shared);
    if masked.None? { return None; }
    var mask, unidir := masked.value.0, masked.value.1;
    var keyed := MatchKeyed(g, unidir.trunk.div, v, p, nanMatches);
    if keyed.None? { return None; }
    return Some(Back(mask, unidir, keyed.value.0, keyed.value.1));
  }

  /** The search part of `FuseGptAttention`. It finds the pattern whenever it is there. */
  method MatchFusion(g: Graph, layerNorm: NodeIndex, hiddenSize: int, shared: bool, nanMatches: bool)
    returns (fusion: Option<Fusion>)
    requires g.WellFormed()
    ensures forall m :: IsFusion(g, layerNorm, hiddenSize, shared, nanMatches, m) <==> fusion == Some(m)
  {
    hide IsFront, IsBack;
    var front := MatchFront(g, layerNorm, hiddenSize, shared);
    if front.None? { return None; }
    var f, v, p := front.value.0, front.value.1, front.value.2;
    var back := MatchBack(g, v, p, shared, nanMatches);
    if back.None? { return None; }
    var b := back.value;
    return Some(Fusion(f, v, p, b.mask, b.unidir, b.queryKey, b.past));
  }
}
