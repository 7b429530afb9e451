/** Removal phase of a fusion: every named node is there, named once, and loses no outside consumer. */
module FusionClosure {
  import opened Wrappers
  import opened GraphModel
  import opened GraphFacts
  import opened GemmMatch
  import opened GemmClosure
  import opened UnidirMatch
  import opened UnidirClosure
  import opened MaskMatch
  import opened FusionMatch
  import opened FusionFacts
  import opened FusionRemoval

  /** `xs` is a prefix of a list without duplicates, or the list itself. */
  lemma PrefixHasNoDuplicates(xs: seq<NodeIndex>, ys: seq<NodeIndex>)
    requires NoDuplicates(ys) && xs <= ys
    ensures NoDuplicates(xs)
  {}

  lemma RemovalIsPrefix(g: Graph, shared: bool, m: Fusion)
    ensures NodesToRemove(g, shared, m) <= AllNodes(shared, m)
  {
    var front := m.BaseIndices() + m.unidir.Indices(shared) + m.projection.gemm0.Indices(shared) + m.PastIndices();
    assert MaskIndices(g, m.mask) <= AllMaskIndices(m.mask);
    assert NodesToRemove(g, shared, m) == front + MaskIndices(g, m.mask);
    assert AllNodes(shared, m) == front + AllMaskIndices(m.mask);
  }

  lemma AllNodesAreLive(g: Graph, shared: bool, m: Fusion)
    requires Facts(g, shared, m)
    ensures forall x :: x in AllNodes(shared, m) ==> x in g.nodes
  {
    hide ValueFacts, GemmFacts, MaskFacts, UnidirFacts, QueryKeyFacts, PastFacts, BaseOps;
    BaseHaveOps(g, shared, m);
    BasePartOps(g, m);
    UnidirPartOps(g, m.mask.Root(), shared, m.unidir);
    GemmPartOps(g, m.value.split, shared, m.projection.gemm0);
    MaskPartOps(g, m.value.qkvMatmul, m.mask);
    if m.past.Some? {
      PastPartOps(g, m.queryKey.qkMatmul, m.value.qkvMatmul, m.past.value);
    }
  }

  /**
    Whenever the fusion reaches its removal phase, the list names only live nodes and names each of
    them once, so every lookup of the removal loop finds its node.
  */
  lemma RemovedExactlyOnce(g: Graph, layerNorm: NodeIndex, hiddenSize: int, shared: bool, nanMatches: bool, m: Fusion)
    requires g.WellFormed() && IsFusion(g, layerNorm, hiddenSize, shared, nanMatches, m)
    ensures NoDuplicates(NodesToRemove(g, shared, m))
    ensures forall x :: x in NodesToRemove(g, shared, m) ==> x in g.nodes
  {
    hide IsFusion, Facts, NoDuplicates;
    FusionGivesFacts(g, layerNorm, hiddenSize, shared, nanMatches, m);
    AllNodesAreDistinct(g, shared, m);
    AllNodesAreLive(g, shared, m);
    RemovalIsPrefix(g, shared, m);
    PrefixHasNoDuplicates(NodesToRemove(g, shared, m), AllNodes(shared, m));
  }

  // ----- Consumers

  /** The nodes whose consumers the fusion does not count. */
  function Unchecked(m: Fusion): set<NodeIndex> {
    {m.value.reshape, m.unidir.trunk.div, m.queryKey.qkMatmul, m.queryKey.qTranspose, m.queryKey.qReshape,
     m.queryKey.kTranspose, m.queryKey.kReshape}
  }

  /** Membership in the removal list, part by part. */
  predicate Removed(g: Graph, shared: bool, m: Fusion, x: NodeIndex) {
    || x in m.BaseIndices()
    || x in m.unidir.Indices(shared)
    || x in m.projection.gemm0.Indices(shared)
    || x in m.PastIndices()
    || x in MaskIndices(g, m.mask)
  }

  lemma RemovedIsMembership(g: Graph, shared: bool, m: Fusion, x: NodeIndex)
    ensures Removed(g, shared, m, x) <==> x in NodesToRemove(g, shared, m)
  {}

  lemma BaseConsumer(g: Graph, shared: bool, m: Fusion, e: Edge)
    requires Facts(g, shared, m) && ReshapesApart(m)
    requires e in g.edges && e.src in m.BaseIndices() && e.src !in Unchecked(m)
    ensures Removed(g, shared, m, e.dst)
  {
    hide GemmFacts, UnidirFacts, MaskFacts, PastFacts, IsSource;
    var v, q := m.value, m.queryKey;
    assert e in g.OutEdges(e.src);
    if e.src == v.split {
      ThreeOutEdges(g, v.split, Edge(v.split, 2, v.vReshape, 0), Edge(v.split, 0, q.qReshape, 0),
        Edge(v.split, 1, q.kReshape, 0));
      assert e.dst in m.BaseIndices();
    } else if e.src == v.vTranspose {
      assert e.dst == v.vSource;
      ValueSourceRemoved(g, shared, m);
    } else {
      assert e.dst in m.BaseIndices();
    }
  }

  lemma ValueSourceRemoved(g: Graph, shared: bool, m: Fusion)
    requires Facts(g, shared, m)
    ensures m.value.vSource in m.BaseIndices() || m.value.vSource in m.PastIndices()
  {
    hide GemmFacts, UnidirFacts, MaskFacts, PastFacts, QueryKeyFacts, Feeds;
    if m.past.Some? {
      assert m.value.vSource == m.past.value.vConcat;
    } else {
      assert m.value.vSource == m.value.qkvMatmul;
    }
  }

  lemma PastConsumer(g: Graph, m: Fusion, p: PastNodes, e: Edge)
    requires m.past == Some(p) && PastFacts(g, m.queryKey.qkMatmul, m.value.qkvMatmul, p)
    requires HasOp(g, m.queryKey.qkMatmul, MatMul) && HasOp(g, m.value.qkvMatmul, MatMul)
    requires e in g.edges && e.src in p.Indices()
    ensures e.dst in p.Indices() || e.dst in {m.queryKey.qkMatmul, m.value.qkvMatmul}
  {
    assert e in g.OutEdges(e.src);
    if e.src == p.kConcat {
      var a: nat :| Edge(p.kConcat, a, m.queryKey.qkMatmul, 1) in g.edges;
      TwoOutEdges(g, p.kConcat, Edge(p.kConcat, a, m.queryKey.qkMatmul, 1), Edge(p.kConcat, 0, p.presentKTranspose, 0));
    } else if e.src == p.vConcat {
      var a: nat :| Edge(p.vConcat, a, m.value.qkvMatmul, 1) in g.edges;
      TwoOutEdges(g, p.vConcat, Edge(p.vConcat, a, m.value.qkvMatmul, 1), Edge(p.vConcat, 0, p.presentVUnsqueeze, 0));
    }
  }

  lemma ChainConsumer(g: Graph, softmax: NodeIndex, add: NodeIndex, c: MaskChain, e: Edge)
    requires ChainFacts(g, softmax, add, c) && e in g.edges && e.src in c.Indices()
    requires g.CheckOutputEdges(c.mul, 1)
    ensures e.dst in c.Indices() || e.dst == add
  {
    hide HasOp;
    assert e in g.OutEdges(e.src);
    if e.src == c.mul {
      OneOutEdge(g, c.mul, Edge(c.mul, 0, add, 1));
    }
  }

  lemma MaskConsumer(g: Graph, qkv: NodeIndex, m: MaskNodes, e: Edge)
    requires MaskFacts(g, qkv, m) && e in g.edges && e.src in MaskIndices(g, m)
    ensures e.dst in MaskIndices(g, m) || e.dst == qkv
  {
    hide HasOp, MaskChain.Indices;
    assert e in g.OutEdges(e.src);
    if m.InputMask? {
      if e.src != m.softmax && e.src != m.add {
        ChainConsumer(g, m.softmax, m.add, m.chain, e);
      }
    }
  }

  lemma RootIsRemoved(g: Graph, m: MaskNodes)
    ensures m.Root() in MaskIndices(g, m)
  {}

  /**
    Nothing outside the removed nodes consumes a removed node, except possibly consumers of the
    attention output and of the six nodes of the query and key paths whose out-edges are not counted.
  */
  lemma FusionIsClosed(g: Graph, layerNorm: NodeIndex, hiddenSize: int, shared: bool, nanMatches: bool, m: Fusion)
    requires g.WellFormed() && IsFusion(g, layerNorm, hiddenSize, shared, nanMatches, m)
    ensures forall x :: x in NodesToRemove(g, shared, m) && x !in Unchecked(m) ==>
      ClosedAt(g, x, NodesToRemove(g, shared, m))
  {
    hide IsFusion, Facts;
    FusionGivesFacts(g, layerNorm, hiddenSize, shared, nanMatches, m);
    forall x, e | x in NodesToRemove(g, shared, m) && x !in Unchecked(m) && e in g.OutEdges(x)
      ensures e.dst in NodesToRemove(g, shared, m)
    {
      RemovedIsMembership(g, shared, m, x);
      ConsumerIsRemoved(g, shared, m, e);
      RemovedIsMembership(g, shared, m, e.dst);
    }
  }

  lemma ConsumerIsRemoved(g: Graph, shared: bool, m: Fusion, e: Edge)
    requires Facts(g, shared, m) && e in g.edges && Removed(g, shared, m, e.src) && e.src !in Unchecked(m)
    ensures Removed(g, shared, m, e.dst)
  {
    hide ValueFacts, GemmFacts, MaskFacts, UnidirFacts, QueryKeyFacts, PastFacts, ReshapesApart, Feeds;
    var n := m.projection.gemm0;
    if e.src in m.BaseIndices() {
      ReshapesDiffer(g, shared, m);
      BaseConsumer(g, shared, m, e);
    } else if e.src in m.unidir.Indices(shared) {
      UnidirEscape(g, m.mask.Root(), shared, m.unidir, e);
      RootIsRemoved(g, m.mask);
    } else if e.src in n.Indices(shared) {
      BaseSplit(g, shared, m);
      GemmEscape(g, m.value.split, shared, n, e);
    } else if e.src in m.PastIndices() {
      BaseHaveOps(g, shared, m);
      PastConsumer(g, m, m.past.value, e);
    } else {
      MaskConsumer(g, m.value.qkvMatmul, m.mask, e);
    }
  }

  lemma WhereFeedsRoot(g: Graph, root: NodeIndex, shared: bool, u: UnidirNodes)
    requires UnidirFacts(g, root, shared, u)
    ensures Feeds(g, u.trunk.whereNode, root, 0)
  {
    hide Feeds, SliceEndFacts, PastLengthFacts;
  }

  lemma UnidirEscape(g: Graph, root: NodeIndex, shared: bool, u: UnidirNodes, e: Edge)
    requires UnidirFacts(g, root, shared, u) && e in g.edges && e.src in u.Indices(shared)
    ensures e.dst in u.Indices(shared) || e.dst == root
  {
    hide UnidirFacts;
    if e.src == u.trunk.whereNode {
      WhereFeedsRoot(g, root, shared, u);
      assert e in g.OutEdges(e.src);
    } else {
      UnidirConsumer(g, root, shared, u, e);
    }
  }

  lemma ReshapeFeedsSplit(g: Graph, split: NodeIndex, shared: bool, n: GemmNodes)
    requires GemmFacts(g, split, 0, shared, n)
    ensures Feeds(g, n.trunk.reshapeAfter, split, 0)
  {
    hide Feeds, BranchFacts;
  }

  lemma GemmEscape(g: Graph, split: NodeIndex, shared: bool, n: GemmNodes, e: Edge)
    requires GemmFacts(g, split, 0, shared, n) && g.At(split).op != Gemm && e in g.edges && e.src in n.Indices(shared)
    ensures e.dst in n.Indices(shared) || e.dst == split
  {
    hide GemmFacts;
    if e.src == n.trunk.reshapeAfter {
      ReshapeFeedsSplit(g, split, shared, n);
      assert e in g.OutEdges(e.src);
    } else {
      GemmConsumer(g, split, 0, shared, n, e);
    }
  }

  // ----- The nodes whose consumers are not counted

  /** The out-edges of the Div and of the query and key path nodes that belong to the pattern. */
  function MatchedEdges(m: Fusion): set<Edge> {
    var t, q := m.unidir.trunk, m.queryKey;
    {Edge(t.div, 0, t.whereNode, 1), Edge(t.div, 0, t.shape1, 0), Edge(t.div, 0, m.unidir.length.shape2, 0),
     Edge(q.qkMatmul, 0, t.div, 0), Edge(q.qTranspose, 0, q.qkMatmul, 0), Edge(q.qReshape, 0, q.qTranspose, 0),
     Edge(q.kTranspose, 0, q.kSource, 1), Edge(q.kReshape, 0, q.kTranspose, 0)}
  }

  /** The Div and the query and key path nodes. */
  function Uncounted(m: Fusion): set<NodeIndex> {
    Unchecked(m) - {m.value.reshape}
  }

  /** Every removed node but the one that computes the attention output loses no outside consumer. */
  ghost predicate ClosedUpToOutput(g: Graph, shared: bool, m: Fusion) {
    forall x :: x in NodesToRemove(g, shared, m) && x != m.value.reshape ==> ClosedAt(g, x, NodesToRemove(g, shared, m))
  }

  lemma KeySourceRemoved(g: Graph, shared: bool, m: Fusion)
    requires Facts(g, shared, m)
    ensures m.queryKey.kSource in m.BaseIndices() || m.queryKey.kSource in m.PastIndices()
  {
    hide GemmFacts, UnidirFacts, MaskFacts, PastFacts, ValueFacts, Feeds;
    if m.past.Some? {
      assert m.queryKey.kSource == m.past.value.kConcat;
    } else {
      assert m.queryKey.kSource == m.queryKey.qkMatmul;
    }
  }

  lemma ShapesAreListed(g: Graph, root: NodeIndex, shared: bool, u: UnidirNodes)
    requires UnidirFacts(g, root, shared, u)
    ensures u.trunk.whereNode in u.Indices(shared)
    ensures u.trunk.shape1 in u.Indices(shared) && u.length.shape2 in u.Indices(shared)
  {
    hide Feeds;
    assert u.Indices(shared)[8] == u.trunk.shape1;
  }

  lemma MatchedStayInside(g: Graph, shared: bool, m: Fusion, e: Edge)
    requires Facts(g, shared, m) && e in MatchedEdges(m)
    ensures Removed(g, shared, m, e.dst)
  {
    hide ValueFacts, GemmFacts, MaskFacts, UnidirFacts, QueryKeyFacts, PastFacts, UnidirNodes.Indices;
    ShapesAreListed(g, m.mask.Root(), shared, m.unidir);
    KeySourceRemoved(g, shared, m);
  }

  /**
    The list is closed up to the attention output exactly if no out-edge of the uncounted nodes, beyond
    those of the pattern, leaves it.
  */
  lemma ClosedUpToOutputIff(g: Graph, layerNorm: NodeIndex, hiddenSize: int, shared: bool, nanMatches: bool, m: Fusion)
    requires g.WellFormed() && IsFusion(g, layerNorm, hiddenSize, shared, nanMatches, m)
    ensures ClosedUpToOutput(g, shared, m) <==>
      forall e :: e in g.edges && e.src in Uncounted(m) && e !in MatchedEdges(m) ==>
        e.dst in NodesToRemove(g, shared, m)
  {
    hide IsFusion, Facts, NodesToRemove, Removed, MatchedEdges;
    FusionGivesFacts(g, layerNorm, hiddenSize, shared, nanMatches, m);
    FusionIsClosed(g, layerNorm, hiddenSize, shared, nanMatches, m);
    forall e | e in MatchedEdges(m)
      ensures e.dst in NodesToRemove(g, shared, m)
    {
      MatchedStayInside(g, shared, m, e);
      RemovedIsMembership(g, shared, m, e.dst);
    }
    forall x | x in Uncounted(m)
      ensures x in NodesToRemove(g, shared, m)
    {
      RemovedIsMembership(g, shared, m, x);
      UncountedRemoved(g, shared, m, x);
    }
    forall e | e in g.edges
      ensures e in g.OutEdges(e.src)
    {}
  }

  lemma UncountedRemoved(g: Graph, shared: bool, m: Fusion, x: NodeIndex)
    requires x in Uncounted(m)
    ensures Removed(g, shared, m, x)
  {}

  /** Each uncounted node has as many out-edges as the pattern gives it. */
  ghost predicate CountsMatch(g: Graph, shared: bool, m: Fusion) {
    && |g.OutEdges(m.unidir.trunk.div)| == (if shared then 2 else 3)
    && (forall x :: x in Uncounted(m) && x != m.unidir.trunk.div ==> |g.OutEdges(x)| == 1)
  }

  /** The Shape nodes that read the output of the Div by its name are joined to it. */
  ghost predicate ShapesAreJoined(g: Graph, u: UnidirNodes) {
    Edge(u.trunk.div, 0, u.trunk.shape1, 0) in g.edges && Edge(u.trunk.div, 0, u.length.shape2, 0) in g.edges
  }

  lemma DivEdges(g: Graph, root: NodeIndex, shared: bool, u: UnidirNodes)
    requires UnidirFacts(g, root, shared, u) && ShapesAreJoined(g, u)
    requires !shared ==> u.trunk.shape1 != u.length.shape2
    requires |g.OutEdges(u.trunk.div)| == (if shared then 2 else 3)
    ensures g.OutEdges(u.trunk.div) == {Edge(u.trunk.div, 0, u.trunk.whereNode, 1),
      Edge(u.trunk.div, 0, u.trunk.shape1, 0), Edge(u.trunk.div, 0, u.length.shape2, 0)}
  {
    var d := u.trunk.div;
    var e, f, h := Edge(d, 0, u.trunk.whereNode, 1), Edge(d, 0, u.trunk.shape1, 0), Edge(d, 0, u.length.shape2, 0);
    if shared {
      TwoOutEdges(g, d, e, f);
    } else {
      ThreeOutEdges(g, d, e, f, h);
    }
  }

  /** The one out-edge the pattern gives a node of the query or key path. */
  function PathEdge(m: Fusion, x: NodeIndex): Edge {
    var q := m.queryKey;
    if x == q.qkMatmul then Edge(x, 0, m.unidir.trunk.div, 0)
    else if x == q.qTranspose then Edge(x, 0, q.qkMatmul, 0)
    else if x == q.qReshape then Edge(x, 0, q.qTranspose, 0)
    else if x == q.kTranspose then Edge(x, 0, q.kSource, 1)
    else Edge(x, 0, q.kTranspose, 0)
  }

  /** The uncounted nodes are different nodes, so an edge of the pattern tells its source. */
  lemma MatchedBySource(m: Fusion, x: NodeIndex)
    requires NoDuplicates(m.BaseIndices()) && x in Uncounted(m) && x != m.unidir.trunk.div
    ensures forall e :: e in MatchedEdges(m) && e.src == x <==> e == PathEdge(m, x)
  {
    var b := m.BaseIndices();
    assert b[6] == m.unidir.trunk.div && b[7] == m.queryKey.qkMatmul && b[8] == m.queryKey.qTranspose;
    assert b[9] == m.queryKey.qReshape && b[10] == m.queryKey.kTranspose && b[11] == m.queryKey.kReshape;
  }

  lemma DivBySource(m: Fusion)
    requires NoDuplicates(m.BaseIndices())
    ensures var t := m.unidir.trunk;
      (set e | e in MatchedEdges(m) && e.src == t.div)
      == {Edge(t.div, 0, t.whereNode, 1), Edge(t.div, 0, t.shape1, 0), Edge(t.div, 0, m.unidir.length.shape2, 0)}
  {
    var b := m.BaseIndices();
    assert b[6] == m.unidir.trunk.div && b[7] == m.queryKey.qkMatmul && b[8] == m.queryKey.qTranspose;
    assert b[9] == m.queryKey.qReshape && b[10] == m.queryKey.kTranspose && b[11] == m.queryKey.kReshape;
  }

  lemma PathEdgeIsThere(g: Graph, m: Fusion, x: NodeIndex)
    requires QueryKeyFacts(g, m.unidir.trunk.div, m.value, m.queryKey)
    requires x in Uncounted(m) && x != m.unidir.trunk.div
    ensures PathEdge(m, x) in g.OutEdges(x)
  {
    hide HasOp, IsSource;
  }

  /** The out-edges of `x` are all matched. */
  ghost predicate OnlyMatched(g: Graph, m: Fusion, x: NodeIndex) {
    forall e :: e in g.OutEdges(x) ==> e in MatchedEdges(m)
  }

  lemma PathCountIff(g: Graph, m: Fusion, x: NodeIndex)
    requires QueryKeyFacts(g, m.unidir.trunk.div, m.value, m.queryKey) && NoDuplicates(m.BaseIndices())
    requires x in Uncounted(m) && x != m.unidir.trunk.div
    ensures |g.OutEdges(x)| == 1 <==> OnlyMatched(g, m, x)
  {
    hide QueryKeyFacts, MatchedEdges, PathEdge, Uncounted, NoDuplicates, Fusion.BaseIndices;
    PathEdgeIsThere(g, m, x);
    MatchedBySource(m, x);
    var e := PathEdge(m, x);
    if |g.OutEdges(x)| == 1 {
      OneOutEdge(g, x, e);
    }
    if OnlyMatched(g, m, x) {
      assert g.OutEdges(x) == {e};
    }
  }

  lemma DivFeedsWhere(g: Graph, root: NodeIndex, shared: bool, u: UnidirNodes)
    requires UnidirFacts(g, root, shared, u)
    ensures Edge(u.trunk.div, 0, u.trunk.whereNode, 1) in g.edges
    ensures shared ==> u.trunk.shape1 == u.length.shape2
  {
    hide Feeds;
  }

  lemma DivCountIff(g: Graph, shared: bool, m: Fusion)
    requires UnidirFacts(g, m.mask.Root(), shared, m.unidir) && ShapesAreJoined(g, m.unidir)
    requires NoDuplicates(m.BaseIndices()) && (!shared ==> m.unidir.trunk.shape1 != m.unidir.length.shape2)
    ensures |g.OutEdges(m.unidir.trunk.div)| == (if shared then 2 else 3) <==> OnlyMatched(g, m, m.unidir.trunk.div)
  {
    hide UnidirFacts, MatchedEdges, NoDuplicates, Fusion.BaseIndices, UnidirNodes.Indices;
    var t, s2 := m.unidir.trunk, m.unidir.length.shape2;
    var e, f, h := Edge(t.div, 0, t.whereNode, 1), Edge(t.div, 0, t.shape1, 0), Edge(t.div, 0, s2, 0);
    DivBySource(m);
    DivFeedsWhere(g, m.mask.Root(), shared, m.unidir);
    if |g.OutEdges(t.div)| == (if shared then 2 else 3) {
      DivEdges(g, m.mask.Root(), shared, m.unidir);
    }
    if OnlyMatched(g, m, t.div) {
      assert g.OutEdges(t.div) == {e, f, h};
      assert shared ==> {e, f, h} == {e, f};
    }
  }

  lemma ShapesDiffer(g: Graph, root: NodeIndex, shared: bool, u: UnidirNodes)
    requires UnidirFacts(g, root, shared, u) && !shared
    ensures u.trunk.shape1 != u.length.shape2
  {
    hide UnidirFacts;
    UnidirHasNoDuplicates(g, root, shared, u);
    var xs := u.Indices(shared);
    assert xs[8] == u.trunk.shape1 && xs[13] == u.length.shape2;
  }

  lemma BaseHasNoDuplicates(g: Graph, shared: bool, m: Fusion)
    requires NoDuplicates(NodesToRemove(g, shared, m))
    ensures NoDuplicates(m.BaseIndices())
  {
    PrefixHasNoDuplicates(m.BaseIndices(), NodesToRemove(g, shared, m));
  }

  /**
    Which comes down to counts a caller can check: the out-edge counts are those of the pattern exactly if
    the uncounted nodes have no other out-edges, and then nothing outside loses a producer except at the
    attention output.
  */
  lemma CountsCloseTheFusion(g: Graph, layerNorm: NodeIndex, hiddenSize: int, shared: bool, nanMatches: bool, m: Fusion)
    requires g.WellFormed() && IsFusion(g, layerNorm, hiddenSize, shared, nanMatches, m)
    requires ShapesAreJoined(g, m.unidir)
    ensures CountsMatch(g, shared, m) <==> forall x :: x in Uncounted(m) ==> OnlyMatched(g, m, x)
    ensures CountsMatch(g, shared, m) ==> ClosedUpToOutput(g, shared, m)
  {
    hide IsFusion, ValueFacts, GemmFacts, MaskFacts, UnidirFacts, QueryKeyFacts, PastFacts, MatchedEdges, NoDuplicates,
      NodesToRemove, ClosedUpToOutput, Fusion.BaseIndices, ShapesAreJoined, OnlyMatched;
    FusionGivesFacts(g, layerNorm, hiddenSize, shared, nanMatches, m);
    RemovedExactlyOnce(g, layerNorm, hiddenSize, shared, nanMatches, m);
    BaseHasNoDuplicates(g, shared, m);
    if !shared { ShapesDiffer(g, m.mask.Root(), shared, m.unidir); }
    DivCountIff(g, shared, m);
    forall x | x in Uncounted(m) && x != m.unidir.trunk.div
      ensures |g.OutEdges(x)| == 1 <==> OnlyMatched(g, m, x)
    {
      PathCountIff(g, m, x);
    }
    DivIsUncounted(m);
    if CountsMatch(g, shared, m) {
      OnlyMatchedCloses(g, layerNorm, hiddenSize, shared, nanMatches, m);
    }
  }

  lemma DivIsUncounted(m: Fusion)
    requires NoDuplicates(m.BaseIndices())
    ensures m.unidir.trunk.div in Uncounted(m)
  {
    assert m.BaseIndices()[0] != m.BaseIndices()[6];
  }

  lemma OnlyMatchedCloses(g: Graph, layerNorm: NodeIndex, hiddenSize: int, shared: bool, nanMatches: bool, m: Fusion)
    requires g.WellFormed() && IsFusion(g, layerNorm, hiddenSize, shared, nanMatches, m)
    requires forall x :: x in Uncounted(m) ==> OnlyMatched(g, m, x)
    ensures ClosedUpToOutput(g, shared, m)
  {
    hide IsFusion, MatchedEdges, NodesToRemove, ClosedUpToOutput, Uncounted;
    ClosedUpToOutputIff(g, layerNorm, hiddenSize, shared, nanMatches, m);
    forall e | e in g.edges && e.src in Uncounted(m)
      ensures e in MatchedEdges(m)
    {
      assert e in g.OutEdges(e.src) && OnlyMatched(g, m, e.src);
    }
  }
}
