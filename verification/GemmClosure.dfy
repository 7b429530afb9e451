/** A matched Gemm subgraph has no repeated node and feeds nothing but the node behind it. */
module GemmClosure {
  import opened Wrappers
  import opened GraphModel
  import opened GraphFacts
  import opened GemmMatch

  /** The trunk as facts about edges and operators. */
  ghost predicate TrunkFacts(g: Graph, root: NodeIndex, dstArg: nat, shared: bool, t: GemmTrunk) {
    && HasOp(g, t.reshapeAfter, Reshape) && Feeds(g, t.reshapeAfter, root, dstArg)
    && HasOp(g, t.gemm, Gemm) && Feeds(g, t.gemm, t.reshapeAfter, 0)
    && HasOp(g, t.reshapeBefore, Reshape) && Feeds(g, t.reshapeBefore, t.gemm, 0)
    && HasOp(g, t.concat, Concat) && Feeds(g, t.concat, t.reshapeBefore, 1)
    && HasOp(g, t.unsqueeze, Unsqueeze) && Feeds(g, t.unsqueeze, t.concat, 1)
    && HasOp(g, t.squeeze, Squeeze) && Feeds(g, t.squeeze, t.unsqueeze, 0)
    && HasOp(g, t.slice, Slice) && Feeds(g, t.slice, t.squeeze, 0)
    && HasOp(g, t.shape, Shape) && Edge(t.shape, 0, t.slice, 0) in g.edges
    && |g.OutEdges(t.shape)| == (if shared then 3 else 1)
    && HasOp(g, t.concatAfter, Concat) && Feeds(g, t.concatAfter, t.reshapeAfter, 1)
  }

  ghost predicate BranchFacts(g: Graph, t: GemmTrunk, i: nat, shared: bool, b: GatherBranch) {
    && HasOp(g, b.unsqueeze, Unsqueeze) && Feeds(g, b.unsqueeze, t.concatAfter, i)
    && HasOp(g, b.gather, Gather) && Feeds(g, b.gather, b.unsqueeze, 0)
    && HasOp(g, b.shape, Shape) && Edge(b.shape, 0, b.gather, 0) in g.edges
    && (if shared then b.shape == t.shape else |g.OutEdges(b.shape)| == 1)
  }

  lemma TrunkGivesFacts(g: Graph, root: NodeIndex, dstArg: nat, shared: bool, t: GemmTrunk)
    requires g.WellFormed() && IsTrunk(g, root, dstArg, shared, t)
    ensures TrunkFacts(g, root, dstArg, shared, t)
  {
    TrunkLinks(g, root, dstArg, t);
    var c := CONCAT_AFTER_PATTERN[0];
    assert Link(g, t.concatAfter, t.reshapeAfter, c);
    SoleLink(g, t.reshapeAfter, root, dstArg);
    SoleLink(g, t.gemm, t.reshapeAfter, 0);
    SoleLink(g, t.reshapeBefore, t.gemm, 0);
    SoleLink(g, t.concat, t.reshapeBefore, 1);
    SoleLink(g, t.unsqueeze, t.concat, 1);
    SoleLink(g, t.squeeze, t.unsqueeze, 0);
    SoleLink(g, t.slice, t.squeeze, 0);
    SoleLink(g, t.concatAfter, t.reshapeAfter, 1);
  }

  lemma TrunkLinks(g: Graph, root: NodeIndex, dstArg: nat, t: GemmTrunk)
    requires g.WellFormed() && IsInputPath(g, root, TrunkPattern(dstArg), t.Path())
    ensures HasOp(g, t.reshapeAfter, Reshape) && Edge(t.reshapeAfter, 0, root, dstArg) in g.edges
    ensures HasOp(g, t.gemm, Gemm) && Edge(t.gemm, 0, t.reshapeAfter, 0) in g.edges
    ensures HasOp(g, t.reshapeBefore, Reshape) && Edge(t.reshapeBefore, 0, t.gemm, 0) in g.edges
    ensures HasOp(g, t.concat, Concat) && Edge(t.concat, 0, t.reshapeBefore, 1) in g.edges
    ensures HasOp(g, t.unsqueeze, Unsqueeze) && Edge(t.unsqueeze, 0, t.concat, 1) in g.edges
    ensures HasOp(g, t.squeeze, Squeeze) && Edge(t.squeeze, 0, t.unsqueeze, 0) in g.edges
    ensures HasOp(g, t.slice, Slice) && Edge(t.slice, 0, t.squeeze, 0) in g.edges
    ensures HasOp(g, t.shape, Shape) && Edge(t.shape, 0, t.slice, 0) in g.edges
  {
    var p := TrunkPattern(dstArg);
    LinkGives(g, t.reshapeAfter, root, p[0]);
    LinkGives(g, t.gemm, t.reshapeAfter, p[1]);
    LinkGives(g, t.reshapeBefore, t.gemm, p[2]);
    LinkGives(g, t.concat, t.reshapeBefore, p[3]);
    LinkGives(g, t.unsqueeze, t.concat, p[4]);
    LinkGives(g, t.squeeze, t.unsqueeze, p[5]);
    LinkGives(g, t.slice, t.squeeze, p[6]);
    LinkGives(g, t.shape, t.slice, p[7]);
  }

  lemma BranchGivesFacts(g: Graph, t: GemmTrunk, i: nat, shared: bool, b: GatherBranch)
    requires g.WellFormed() && IsBranch(g, t.concatAfter, i, t.shape, shared, b)
    ensures BranchFacts(g, t, i, shared, b)
  {
    var p := BranchPattern(i);
    LinkGives(g, b.unsqueeze, t.concatAfter, p[0]);
    LinkGives(g, b.gather, b.unsqueeze, p[1]);
    LinkGives(g, b.shape, b.gather, p[2]);
    SoleLink(g, b.unsqueeze, t.concatAfter, i);
    SoleLink(g, b.gather, b.unsqueeze, 0);
  }

  ghost predicate GemmFacts(g: Graph, root: NodeIndex, dstArg: nat, shared: bool, m: GemmNodes) {
    && TrunkFacts(g, root, dstArg, shared, m.trunk)
    && BranchFacts(g, m.trunk, 0, shared, m.first)
    && BranchFacts(g, m.trunk, 1, shared, m.second)
  }

  lemma GemmMatchGivesFacts(g: Graph, root: NodeIndex, dstArg: nat, shared: bool, m: GemmNodes)
    requires g.WellFormed() && IsGemmMatch(g, root, dstArg, shared, m)
    ensures GemmFacts(g, root, dstArg, shared, m)
  {
    TrunkGivesFacts(g, root, dstArg, shared, m.trunk);
    BranchGivesFacts(g, m.trunk, 0, shared, m.first);
    BranchGivesFacts(g, m.trunk, 1, shared, m.second);
  }

  /** Nodes with the same operator are told apart by their out-edges. */
  lemma GemmNodesDiffer(g: Graph, root: NodeIndex, dstArg: nat, shared: bool, m: GemmNodes)
    requires GemmFacts(g, root, dstArg, shared, m) && g.At(root).op != Gemm
    ensures m.trunk.reshapeAfter != m.trunk.reshapeBefore
    ensures m.trunk.concat != m.trunk.concatAfter
    ensures m.trunk.unsqueeze != m.first.unsqueeze && m.trunk.unsqueeze != m.second.unsqueeze
    ensures m.first.unsqueeze != m.second.unsqueeze
    ensures m.first.gather != m.second.gather
    ensures !shared ==>
      m.trunk.shape != m.first.shape && m.trunk.shape != m.second.shape && m.first.shape != m.second.shape
  {
    var t, a, b := m.trunk, m.first, m.second;
    FeedsDiffer(g, t.reshapeAfter, root, dstArg, t.reshapeBefore, t.gemm, 0);
    FeedsDiffer(g, t.concat, t.reshapeBefore, 1, t.concatAfter, t.reshapeAfter, 1);
    FeedsDiffer(g, t.unsqueeze, t.concat, 1, a.unsqueeze, t.concatAfter, 0);
    FeedsDiffer(g, t.unsqueeze, t.concat, 1, b.unsqueeze, t.concatAfter, 1);
    FeedsDiffer(g, a.unsqueeze, t.concatAfter, 0, b.unsqueeze, t.concatAfter, 1);
    FeedsDiffer(g, a.gather, a.unsqueeze, 0, b.gather, b.unsqueeze, 0);
    if !shared {
      SoleLink(g, t.shape, t.slice, 0);
      SoleLink(g, a.shape, a.gather, 0);
      SoleLink(g, b.shape, b.gather, 0);
      FeedsDiffer(g, a.shape, a.gather, 0, b.shape, b.gather, 0);
      FeedsDiffer(g, t.shape, t.slice, 0, b.shape, b.gather, 0);
      FeedsDiffer(g, t.shape, t.slice, 0, a.shape, a.gather, 0);
    }
  }

  lemma GemmHasNoDuplicates(g: Graph, root: NodeIndex, dstArg: nat, shared: bool, m: GemmNodes)
    requires GemmFacts(g, root, dstArg, shared, m) && g.At(root).op != Gemm
    ensures NoDuplicates(m.Indices(shared))
    ensures |m.Indices(shared)| == if shared then 13 else 15
  {
    hide Feeds, Graph.WellFormed;
    GemmNodesDiffer(g, root, dstArg, shared, m);
  }

  lemma ShapeIsClosed(g: Graph, root: NodeIndex, dstArg: nat, shared: bool, m: GemmNodes, e: Edge)
    requires GemmFacts(g, root, dstArg, shared, m) && g.At(root).op != Gemm
    requires e in g.edges && e.src in {m.trunk.shape, m.first.shape, m.second.shape}
    ensures e.dst in {m.trunk.slice, m.first.gather, m.second.gather}
  {
    var t, a, b := m.trunk, m.first, m.second;
    GemmNodesDiffer(g, root, dstArg, shared, m);
    if shared {
      ThreeOutEdges(g, t.shape, Edge(t.shape, 0, t.slice, 0), Edge(t.shape, 0, a.gather, 0),
        Edge(t.shape, 0, b.gather, 0));
    } else {
      SoleLink(g, t.shape, t.slice, 0);
      SoleLink(g, a.shape, a.gather, 0);
      SoleLink(g, b.shape, b.gather, 0);
    }
    assert e in g.OutEdges(e.src);
  }

  /**
    A Gemm match in front of a node that is not a Gemm: its 15 nodes (13 with a shared Shape) are
    pairwise distinct, the last Reshape feeds `root` and nothing else, and every consumer of any
    other matched node is itself matched.
  */
  lemma GemmMatchIsClosed(g: Graph, root: NodeIndex, dstArg: nat, shared: bool, m: GemmNodes)
    requires g.WellFormed() && IsGemmMatch(g, root, dstArg, shared, m) && g.At(root).op != Gemm
    ensures NoDuplicates(m.Indices(shared))
    ensures |m.Indices(shared)| == if shared then 13 else 15
    ensures g.OutEdges(m.trunk.reshapeAfter) == {Edge(m.trunk.reshapeAfter, 0, root, dstArg)}
    ensures forall x :: x in m.Indices(shared) && x != m.trunk.reshapeAfter ==> ClosedAt(g, x, m.Indices(shared))
  {
    GemmMatchGivesFacts(g, root, dstArg, shared, m);
    GemmHasNoDuplicates(g, root, dstArg, shared, m);
    forall x, e | x in m.Indices(shared) && x != m.trunk.reshapeAfter && e in g.OutEdges(x)
      ensures e.dst in m.Indices(shared)
    {
      GemmConsumer(g, root, dstArg, shared, m, e);
    }
  }

  lemma GemmConsumer(g: Graph, root: NodeIndex, dstArg: nat, shared: bool, m: GemmNodes, e: Edge)
    requires GemmFacts(g, root, dstArg, shared, m) && g.At(root).op != Gemm
    requires e in g.edges && e.src in m.Indices(shared) && e.src != m.trunk.reshapeAfter
    ensures e.dst in m.Indices(shared)
  {
    hide HasOp, Graph.WellFormed;
    var t := m.trunk;
    assert e in g.OutEdges(e.src);
    if e.src in {t.shape, m.first.shape, m.second.shape} {
      ShapeIsClosed(g, root, dstArg, shared, m, e);
    }
  }
}
