/** A matched causal-mask subgraph has no repeated node, and only its Where feeds a node outside. */
module UnidirClosure {
  import opened Wrappers
  import opened GraphModel
  import opened GraphFacts
  import opened UnidirMatch

  /** The pattern as facts about edges and operators. */
  ghost predicate UnidirTrunkFacts(g: Graph, root: NodeIndex, shared: bool, t: UnidirTrunk) {
    && HasOp(g, t.whereNode, Where) && Feeds(g, t.whereNode, root, 0)
    && HasOp(g, t.div, Div) && Edge(t.div, 0, t.whereNode, 1) in g.edges
    && HasOp(g, t.cast, Cast) && Feeds(g, t.cast, t.whereNode, 0)
    && HasOp(g, t.lastSlice, Slice) && Feeds(g, t.lastSlice, t.cast, 0)
    && HasOp(g, t.maskSlice, Slice) && Feeds(g, t.maskSlice, t.lastSlice, 0)
    && HasOp(g, t.unsqueeze1, Unsqueeze) && Feeds(g, t.unsqueeze1, t.maskSlice, 1)
    && HasOp(g, t.sub, Sub) && Feeds(g, t.sub, t.unsqueeze1, 0)
    && HasOp(g, t.squeeze1, Squeeze) && Edge(t.squeeze1, 0, t.sub, 0) in g.edges
    && |g.OutEdges(t.squeeze1)| == (if shared then 2 else 3)
    && HasOp(g, t.slice1, Slice) && Feeds(g, t.slice1, t.squeeze1, 0)
    && HasOp(g, t.shape1, Shape) && Edge(t.shape1, 0, t.slice1, 0) in g.edges
    && |g.OutEdges(t.shape1)| == (if shared then 2 else 1)
  }

  ghost predicate SliceEndFacts(g: Graph, slice: NodeIndex, squeeze1: NodeIndex, shared: bool, u: NodeIndex) {
    && HasOp(g, u, Unsqueeze) && Edge(u, 0, slice, 2) in g.edges && Edge(squeeze1, 0, u, 0) in g.edges
    && |g.OutEdges(u)| == (if shared then 2 else 1)
  }

  ghost predicate PastLengthFacts(g: Graph, sub: NodeIndex, shared: bool, l: PastLength) {
    && HasOp(g, l.squeeze2, Squeeze) && Feeds(g, l.squeeze2, sub, 1)
    && HasOp(g, l.slice2, Slice) && Feeds(g, l.slice2, l.squeeze2, 0)
    && HasOp(g, l.shape2, Shape) && Edge(l.shape2, 0, l.slice2, 0) in g.edges
    && |g.OutEdges(l.shape2)| == (if shared then 2 else 1)
  }

  ghost predicate UnidirFacts(g: Graph, root: NodeIndex, shared: bool, m: UnidirNodes) {
    && UnidirTrunkFacts(g, root, shared, m.trunk)
    && SliceEndFacts(g, m.trunk.lastSlice, m.trunk.squeeze1, shared, m.unsqueeze2)
    && SliceEndFacts(g, m.trunk.maskSlice, m.trunk.squeeze1, shared, m.unsqueeze3)
    && PastLengthFacts(g, m.trunk.sub, shared, m.length)
    && (shared ==> m.trunk.shape1 == m.length.shape2 && m.unsqueeze2 == m.unsqueeze3)
  }

  lemma UnidirTrunkLinks(g: Graph, t: UnidirTrunk)
    requires g.WellFormed() && IsInputPath(g, t.whereNode, MASK_PATTERN, t.Path())
    ensures HasOp(g, t.cast, Cast) && Edge(t.cast, 0, t.whereNode, 0) in g.edges
    ensures HasOp(g, t.lastSlice, Slice) && Edge(t.lastSlice, 0, t.cast, 0) in g.edges
    ensures HasOp(g, t.maskSlice, Slice) && Edge(t.maskSlice, 0, t.lastSlice, 0) in g.edges
    ensures HasOp(g, t.unsqueeze1, Unsqueeze) && Edge(t.unsqueeze1, 0, t.maskSlice, 1) in g.edges
    ensures HasOp(g, t.sub, Sub) && Edge(t.sub, 0, t.unsqueeze1, 0) in g.edges
    ensures HasOp(g, t.squeeze1, Squeeze) && Edge(t.squeeze1, 0, t.sub, 0) in g.edges
    ensures HasOp(g, t.slice1, Slice) && Edge(t.slice1, 0, t.squeeze1, 0) in g.edges
    ensures HasOp(g, t.shape1, Shape) && Edge(t.shape1, 0, t.slice1, 0) in g.edges
  {
    var p := MASK_PATTERN;
    LinkGives(g, t.cast, t.whereNode, p[0]);
    LinkGives(g, t.lastSlice, t.cast, p[1]);
    LinkGives(g, t.maskSlice, t.lastSlice, p[2]);
    LinkGives(g, t.unsqueeze1, t.maskSlice, p[3]);
    LinkGives(g, t.sub, t.unsqueeze1, p[4]);
    LinkGives(g, t.squeeze1, t.sub, p[5]);
    LinkGives(g, t.slice1, t.squeeze1, p[6]);
    LinkGives(g, t.shape1, t.slice1, p[7]);
  }

  lemma UnidirTrunkGivesFacts(g: Graph, root: NodeIndex, shared: bool, t: UnidirTrunk, u: bool)
    requires g.WellFormed() && IsUnidirTrunk(g, root, shared, t, u)
    ensures UnidirTrunkFacts(g, root, shared, t)
  {
    UnidirTrunkLinks(g, t);
    LinkGives(g, t.whereNode, root, ROOT_PATTERN[0]);
    LinkGives(g, t.div, t.whereNode, ROOT_PATTERN[1]);
    SoleLink(g, t.whereNode, root, 0);
    SoleLink(g, t.cast, t.whereNode, 0);
    SoleLink(g, t.lastSlice, t.cast, 0);
    SoleLink(g, t.maskSlice, t.lastSlice, 0);
    SoleLink(g, t.unsqueeze1, t.maskSlice, 1);
    SoleLink(g, t.sub, t.unsqueeze1, 0);
    SoleLink(g, t.slice1, t.squeeze1, 0);
  }

  lemma SliceEndGivesFacts(g: Graph, slice: NodeIndex, squeeze1: NodeIndex, shared: bool, u: NodeIndex)
    requires g.WellFormed() && IsSliceEnd(g, slice, squeeze1, shared, u)
    ensures SliceEndFacts(g, slice, squeeze1, shared, u)
  {
    LinkGives(g, u, slice, SLICE_ENDS_PATTERN[0]);
    LinkGives(g, squeeze1, u, SLICE_ENDS_PATTERN[1]);
  }

  lemma PastLengthGivesFacts(g: Graph, t: UnidirTrunk, shared: bool, l: PastLength)
    requires g.WellFormed() && IsPastLength(g, t, shared, l)
    ensures PastLengthFacts(g, t.sub, shared, l)
  {
    LinkGives(g, l.squeeze2, t.sub, PAST_LENGTH_PATTERN[0]);
    LinkGives(g, l.slice2, l.squeeze2, PAST_LENGTH_PATTERN[1]);
    LinkGives(g, l.shape2, l.slice2, PAST_LENGTH_PATTERN[2]);
    SoleLink(g, l.squeeze2, t.sub, 1);
    SoleLink(g, l.slice2, l.squeeze2, 0);
  }

  lemma UnidirMatchGivesFacts(g: Graph, root: NodeIndex, shared: bool, m: UnidirNodes)
    requires g.WellFormed() && IsUnidirMatch(g, root, shared, m)
    ensures UnidirFacts(g, root, shared, m)
  {
    UnidirTrunkGivesFacts(g, root, shared, m.trunk, m.unidirectional);
    SliceEndGivesFacts(g, m.trunk.lastSlice, m.trunk.squeeze1, shared, m.unsqueeze2);
    SliceEndGivesFacts(g, m.trunk.maskSlice, m.trunk.squeeze1, shared, m.unsqueeze3);
    PastLengthGivesFacts(g, m.trunk, shared, m.length);
  }

  /** Nodes with the same operator are told apart by their out-edges. */
  lemma UnidirSlicesDiffer(g: Graph, root: NodeIndex, shared: bool, m: UnidirNodes)
    requires UnidirFacts(g, root, shared, m)
    ensures m.trunk.squeeze1 != m.length.squeeze2
    ensures m.trunk.lastSlice != m.trunk.maskSlice && m.trunk.lastSlice != m.trunk.slice1
      && m.trunk.maskSlice != m.trunk.slice1
    ensures m.length.slice2 != m.trunk.lastSlice && m.length.slice2 != m.trunk.maskSlice
      && m.length.slice2 != m.trunk.slice1
  {
    var t, l := m.trunk, m.length;
    assert Edge(t.squeeze1, 0, t.sub, 0) in g.OutEdges(t.squeeze1);
    FeedsDiffer(g, t.lastSlice, t.cast, 0, t.maskSlice, t.lastSlice, 0);
    FeedsDiffer(g, t.lastSlice, t.cast, 0, t.slice1, t.squeeze1, 0);
    FeedsDiffer(g, t.maskSlice, t.lastSlice, 0, t.slice1, t.squeeze1, 0);
    FeedsDiffer(g, t.lastSlice, t.cast, 0, l.slice2, l.squeeze2, 0);
    FeedsDiffer(g, t.maskSlice, t.lastSlice, 0, l.slice2, l.squeeze2, 0);
    FeedsDiffer(g, t.slice1, t.squeeze1, 0, l.slice2, l.squeeze2, 0);
  }

  lemma UnsqueezesAreClosed(g: Graph, shared: bool, m: UnidirNodes)
    requires SliceEndFacts(g, m.trunk.lastSlice, m.trunk.squeeze1, shared, m.unsqueeze2)
    requires SliceEndFacts(g, m.trunk.maskSlice, m.trunk.squeeze1, shared, m.unsqueeze3)
    requires shared ==> m.unsqueeze2 == m.unsqueeze3
    requires m.trunk.lastSlice != m.trunk.maskSlice
    ensures !shared ==> m.unsqueeze2 != m.unsqueeze3
    ensures forall e :: e in g.OutEdges(m.unsqueeze2) + g.OutEdges(m.unsqueeze3) ==>
      e.dst in {m.trunk.lastSlice, m.trunk.maskSlice}
  {
    var t := m.trunk;
    if shared {
      TwoOutEdges(g, m.unsqueeze2, Edge(m.unsqueeze2, 0, t.lastSlice, 2), Edge(m.unsqueeze2, 0, t.maskSlice, 2));
    } else {
      SoleLink(g, m.unsqueeze2, t.lastSlice, 2);
      SoleLink(g, m.unsqueeze3, t.maskSlice, 2);
      FeedsDiffer(g, m.unsqueeze2, t.lastSlice, 2, m.unsqueeze3, t.maskSlice, 2);
    }
  }

  lemma ShapesAreClosed(g: Graph, root: NodeIndex, shared: bool, m: UnidirNodes)
    requires UnidirFacts(g, root, shared, m) && m.trunk.slice1 != m.length.slice2
    ensures !shared ==> m.trunk.shape1 != m.length.shape2
    ensures forall e :: e in g.OutEdges(m.trunk.shape1) + g.OutEdges(m.length.shape2) ==>
      e.dst in {m.trunk.slice1, m.length.slice2}
  {
    hide SliceEndFacts, HasOp;
    var t, l := m.trunk, m.length;
    if shared {
      TwoOutEdges(g, t.shape1, Edge(t.shape1, 0, t.slice1, 0), Edge(t.shape1, 0, l.slice2, 0));
    } else {
      SoleLink(g, t.shape1, t.slice1, 0);
      SoleLink(g, l.shape2, l.slice2, 0);
      FeedsDiffer(g, t.shape1, t.slice1, 0, l.shape2, l.slice2, 0);
    }
  }

  lemma UnidirUnsqueezesDiffer(g: Graph, root: NodeIndex, shared: bool, m: UnidirNodes)
    requires UnidirFacts(g, root, shared, m)
    ensures m.trunk.unsqueeze1 != m.unsqueeze2 && m.trunk.unsqueeze1 != m.unsqueeze3
    ensures !shared ==> m.unsqueeze2 != m.unsqueeze3 && m.trunk.shape1 != m.length.shape2
    ensures forall e :: e in g.OutEdges(m.unsqueeze2) + g.OutEdges(m.unsqueeze3) ==>
      e.dst in {m.trunk.lastSlice, m.trunk.maskSlice}
    ensures forall e :: e in g.OutEdges(m.trunk.shape1) + g.OutEdges(m.length.shape2) ==>
      e.dst in {m.trunk.slice1, m.length.slice2}
  {
    hide HasOp, PastLengthFacts;
    UnidirSlicesDiffer(g, root, shared, m);
    UnsqueezesAreClosed(g, shared, m);
    ShapesAreClosed(g, root, shared, m);
    SlotTwoDiffers(g, m.trunk.unsqueeze1, m.trunk.maskSlice, m.unsqueeze2, m.trunk.lastSlice);
    SlotTwoDiffers(g, m.trunk.unsqueeze1, m.trunk.maskSlice, m.unsqueeze3, m.trunk.maskSlice);
  }

  /** A node that feeds input 1 of a node only does not feed input 2 of any. */
  lemma SlotTwoDiffers(g: Graph, x: NodeIndex, y: NodeIndex, u: NodeIndex, slice: NodeIndex)
    requires Feeds(g, x, y, 1) && Edge(u, 0, slice, 2) in g.edges
    ensures x != u
  {
    assert Edge(u, 0, slice, 2) in g.OutEdges(u);
  }

  lemma SqueezeIsClosed(g: Graph, root: NodeIndex, shared: bool, m: UnidirNodes)
    requires UnidirFacts(g, root, shared, m)
    ensures forall e :: e in g.OutEdges(m.trunk.squeeze1) ==> e.dst in {m.trunk.sub, m.unsqueeze2, m.unsqueeze3}
  {
    var t := m.trunk;
    var e, f, h :=
      Edge(t.squeeze1, 0, t.sub, 0), Edge(t.squeeze1, 0, m.unsqueeze2, 0), Edge(t.squeeze1, 0, m.unsqueeze3, 0);
    assert !shared ==> m.unsqueeze2 != m.unsqueeze3 by {
      UnidirUnsqueezesDiffer(g, root, shared, m);
    }
    if shared {
      TwoOutEdges(g, t.squeeze1, e, f);
    } else {
      ThreeOutEdges(g, t.squeeze1, e, f, h);
    }
  }

  lemma UnidirHasNoDuplicates(g: Graph, root: NodeIndex, shared: bool, m: UnidirNodes)
    requires UnidirFacts(g, root, shared, m)
    ensures NoDuplicates(m.Indices(shared))
    ensures |m.Indices(shared)| == if shared then 12 else 14
  {
    hide Feeds, HasOp, Graph.WellFormed;
    UnidirSlicesDiffer(g, root, shared, m);
    UnidirUnsqueezesDiffer(g, root, shared, m);
    OperatorsTellApart(g, shared, m);
  }

  ghost predicate UnidirOps(g: Graph, m: UnidirNodes) {
    var t, l := m.trunk, m.length;
    && HasOp(g, t.whereNode, Where) && HasOp(g, t.cast, Cast) && HasOp(g, t.sub, Sub)
    && HasOp(g, t.lastSlice, Slice) && HasOp(g, t.maskSlice, Slice) && HasOp(g, t.slice1, Slice)
      && HasOp(g, l.slice2, Slice)
    && HasOp(g, t.unsqueeze1, Unsqueeze) && HasOp(g, m.unsqueeze2, Unsqueeze) && HasOp(g, m.unsqueeze3, Unsqueeze)
    && HasOp(g, t.squeeze1, Squeeze) && HasOp(g, l.squeeze2, Squeeze) && HasOp(g, t.shape1, Shape)
      && HasOp(g, l.shape2, Shape)
  }

  /** Nodes of different operators differ, so it is enough to compare within an operator. */
  lemma OperatorsTellApart(g: Graph, shared: bool, m: UnidirNodes)
    requires UnidirOps(g, m)
    requires m.trunk.squeeze1 != m.length.squeeze2
    requires NoDuplicates([m.trunk.lastSlice, m.trunk.maskSlice, m.trunk.slice1, m.length.slice2])
    requires m.trunk.unsqueeze1 != m.unsqueeze2 && m.trunk.unsqueeze1 != m.unsqueeze3
    requires !shared ==> m.unsqueeze2 != m.unsqueeze3 && m.trunk.shape1 != m.length.shape2
    ensures NoDuplicates(m.Indices(shared))
  {
    var slices := [m.trunk.lastSlice, m.trunk.maskSlice, m.trunk.slice1, m.length.slice2];
    assert slices[0] != slices[1] && slices[0] != slices[2] && slices[0] != slices[3];
    assert slices[1] != slices[2] && slices[1] != slices[3] && slices[2] != slices[3];
  }

  lemma UnidirDestination(g: Graph, root: NodeIndex, shared: bool, m: UnidirNodes, e: Edge)
    requires UnidirFacts(g, root, shared, m)
    requires e in g.edges && e.src in m.Indices(shared) && e.src != m.trunk.whereNode
    ensures var t, l := m.trunk, m.length;
      e.dst in {t.whereNode, t.cast, t.lastSlice, t.maskSlice, t.unsqueeze1, t.squeeze1, t.sub, t.slice1,
                l.squeeze2, l.slice2, m.unsqueeze2, m.unsqueeze3}
  {
    hide HasOp, SliceEndFacts;
    var t, l := m.trunk, m.length;
    assert e in g.OutEdges(e.src);
    if e.src == t.squeeze1 {
      SqueezeIsClosed(g, root, shared, m);
    } else if e.src == m.unsqueeze2 || e.src == m.unsqueeze3 || e.src == t.shape1 || e.src == l.shape2 {
      UnidirUnsqueezesDiffer(g, root, shared, m);
    }
  }

  lemma UnidirConsumer(g: Graph, root: NodeIndex, shared: bool, m: UnidirNodes, e: Edge)
    requires UnidirFacts(g, root, shared, m)
    requires e in g.edges && e.src in m.Indices(shared) && e.src != m.trunk.whereNode
    ensures e.dst in m.Indices(shared)
  {
    UnidirDestination(g, root, shared, m, e);
    assert shared ==> m.unsqueeze2 == m.unsqueeze3;
  }

  /**
    A causal-mask match: its 14 nodes (12 with shared nodes) are pairwise distinct, the Where feeds
    `root` and nothing else, and every consumer of any other matched node is itself matched.
  */
  lemma UnidirMatchIsClosed(g: Graph, root: NodeIndex, shared: bool, m: UnidirNodes)
    requires g.WellFormed() && IsUnidirMatch(g, root, shared, m)
    ensures NoDuplicates(m.Indices(shared))
    ensures |m.Indices(shared)| == if shared then 12 else 14
    ensures g.OutEdges(m.trunk.whereNode) == {Edge(m.trunk.whereNode, 0, root, 0)}
    ensures forall x :: x in m.Indices(shared) && x != m.trunk.whereNode ==> ClosedAt(g, x, m.Indices(shared))
  {
    UnidirMatchGivesFacts(g, root, shared, m);
    UnidirHasNoDuplicates(g, root, shared, m);
    forall x, e | x in m.Indices(shared) && x != m.trunk.whereNode && e in g.OutEdges(x)
      ensures e.dst in m.Indices(shared)
    {
      UnidirConsumer(g, root, shared, m, e);
    }
  }
}
