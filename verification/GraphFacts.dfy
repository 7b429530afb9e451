/** Telling nodes apart by operator, out-edges and input slots. */
module GraphFacts {
  import opened GraphModel

  predicate HasOp(g: Graph, x: NodeIndex, op: Op) {
    x in g.nodes && g.nodes[x].op == op
  }

  /** `x` has this out-edge and no other. */
  ghost predicate Feeds(g: Graph, x: NodeIndex, y: NodeIndex, slot: nat) {
    g.OutEdges(x) == {Edge(x, 0, y, slot)}
  }

  lemma LinkGives(g: Graph, x: NodeIndex, y: NodeIndex, e: EdgeToMatch)
    requires g.WellFormed() && Link(g, x, y, e)
    ensures HasOp(g, x, e.op) && Edge(x, e.srcArg, y, e.dstArg) in g.edges && y in g.nodes
  {}

  lemma SoleLink(g: Graph, x: NodeIndex, y: NodeIndex, slot: nat)
    requires Edge(x, 0, y, slot) in g.edges && |g.OutEdges(x)| == 1
    ensures Feeds(g, x, y, slot)
  {
    OneOutEdge(g, x, Edge(x, 0, y, slot));
  }

  lemma FeedsDiffer(g: Graph, x: NodeIndex, y: NodeIndex, slot: nat, x': NodeIndex, y': NodeIndex, slot': nat)
    requires Feeds(g, x, y, slot) && Feeds(g, x', y', slot') && (y != y' || slot != slot')
    ensures x != x'
  {
    assert Edge(x, 0, y, slot) in g.OutEdges(x);
  }

  // ----- Counting out-edges

  /** A node with one out-edge has no other. */
  lemma OneOutEdge(g: Graph, x: NodeIndex, e: Edge)
    requires |g.OutEdges(x)| == 1 && e in g.edges && e.src == x
    ensures g.OutEdges(x) == {e}
  {
    assert |g.OutEdges(x) - {e}| == 0;
  }

  lemma TwoOutEdges(g: Graph, x: NodeIndex, e: Edge, f: Edge)
    requires |g.OutEdges(x)| == 2 && e in g.edges && f in g.edges && e.src == x == f.src && e != f
    ensures g.OutEdges(x) == {e, f}
  {
    assert |g.OutEdges(x) - {e} - {f}| == 0;
  }

  lemma ThreeOutEdges(g: Graph, x: NodeIndex, e: Edge, f: Edge, h: Edge)
    requires |g.OutEdges(x)| == 3 && {e, f, h} <= g.edges && e.src == f.src == h.src == x
    requires e != f && e != h && f != h
    ensures g.OutEdges(x) == {e, f, h}
  {
    assert |g.OutEdges(x) - {e} - {f} - {h}| == 0;
  }

  /** Every consumer of `x` is in `xs`. */
  ghost predicate ClosedAt(g: Graph, x: NodeIndex, xs: seq<NodeIndex>) {
    forall e :: e in g.OutEdges(x) ==> e.dst in xs
  }

  ghost predicate NoDuplicates(xs: seq<NodeIndex>) {
    forall i, j :: 0 <= i < j < |xs| ==> xs[i] != xs[j]
  }
}
