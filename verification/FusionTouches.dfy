/** Every matched node has an edge, so a fusion never removes a node that has none. */
module FusionTouches {
  import opened Wrappers
  import opened GraphModel
  import opened GraphFacts
  import opened GemmMatch
  import opened GemmClosure
  import opened UnidirMatch
  import opened UnidirClosure
  import opened MaskMatch
  import opened FusionMatch
  import opened FusionFacts
  import opened FusionRemoval

  ghost predicate Touched(g: Graph, x: NodeIndex) {
    exists e :: e in g.edges && (e.src == x || e.dst == x)
  }

  ghost predicate AllTouched(g: Graph, xs: seq<NodeIndex>) {
    forall i :: 0 <= i < |xs| ==> Touched(g, xs[i])
  }

  lemma EdgesTouch(g: Graph)
    ensures forall x: NodeIndex, y: NodeIndex, slot: nat :: Feeds(g, x, y, slot) ==> Touched(g, x)
    ensures forall e :: e in g.edges ==> Touched(g, e.src) && Touched(g, e.dst)
  {
    forall x: NodeIndex, y: NodeIndex, slot: nat | Feeds(g, x, y, slot)
      ensures Touched(g, x)
    {
      assert Edge(x, 0, y, slot) in g.OutEdges(x);
    }
  }

  lemma EdgeTouches(g: Graph, x: NodeIndex, a: nat, y: NodeIndex, slot: nat)
    requires Edge(x, a, y, slot) in g.edges
    ensures Touched(g, x) && Touched(g, y)
  {}

  lemma FeedsTouches(g: Graph, x: NodeIndex, y: NodeIndex, slot: nat)
    requires Feeds(g, x, y, slot)
    ensures Touched(g, y)
  {
    assert Edge(x, 0, y, slot) in g.OutEdges(x);
  }

  lemma GemmTouched(g: Graph, root: NodeIndex, shared: bool, m: GemmNodes)
    requires GemmFacts(g, root, 0, shared, m)
    ensures AllTouched(g, m.Indices(shared))
  {
    hide Feeds, Touched, HasOp;
    EdgesTouch(g);
    EdgeTouches(g, m.trunk.shape, 0, m.trunk.slice, 0);
    EdgeTouches(g, m.first.shape, 0, m.first.gather, 0);
    EdgeTouches(g, m.second.shape, 0, m.second.gather, 0);
  }

  lemma UnidirTouched(g: Graph, root: NodeIndex, shared: bool, u: UnidirNodes)
    requires UnidirFacts(g, root, shared, u)
    ensures AllTouched(g, u.Indices(shared)) && Touched(g, u.trunk.div)
  {
    hide Feeds, Touched, HasOp;
    EdgesTouch(g);
    EdgeTouches(g, u.trunk.div, 0, u.trunk.whereNode, 1);
    EdgeTouches(g, u.trunk.squeeze1, 0, u.trunk.sub, 0);
    EdgeTouches(g, u.trunk.shape1, 0, u.trunk.slice1, 0);
    EdgeTouches(g, u.unsqueeze2, 0, u.trunk.lastSlice, 2);
    EdgeTouches(g, u.unsqueeze3, 0, u.trunk.maskSlice, 2);
    EdgeTouches(g, u.length.shape2, 0, u.length.slice2, 0);
  }

  lemma PastTouched(g: Graph, qk: NodeIndex, qkv: NodeIndex, p: PastNodes)
    requires PastFacts(g, qk, qkv, p)
    ensures AllTouched(g, p.Indices())
  {
    hide Feeds, Touched, HasOp, Produces;
    EdgesTouch(g);
    FeedsTouches(g, p.presentKUnsqueeze, p.presentConcat, 0);
    EdgeTouches(g, p.kConcat, 0, p.presentKTranspose, 0);
    EdgeTouches(g, p.vConcat, 0, p.presentVUnsqueeze, 0);
  }

  lemma MaskTouched(g: Graph, qkv: NodeIndex, m: MaskNodes)
    requires MaskFacts(g, qkv, m)
    ensures AllTouched(g, AllMaskIndices(m))
  {
    hide Feeds, Touched, HasOp;
    EdgesTouch(g);
    if m.InputMask? {
      EdgeTouches(g, m.chain.mul, 0, m.add, 1);
    }
  }

  lemma ValueTouched(g: Graph, shape: NodeIndex, v: ValuePath)
    requires ValueFacts(g, shape, v)
    ensures AllTouched(g, [v.reshape, v.transpose, v.qkvMatmul, v.vTranspose, v.vReshape, v.split])
  {
    hide Feeds, Touched, HasOp, IsSource;
    EdgesTouch(g);
    EdgeTouches(g, v.reshape, 0, shape, 0);
    EdgeTouches(g, v.split, 2, v.vReshape, 0);
  }

  lemma QueryKeyTouched(g: Graph, div: NodeIndex, v: ValuePath, q: QueryKey)
    requires QueryKeyFacts(g, div, v, q)
    ensures AllTouched(g, [div, q.qkMatmul, q.qTranspose, q.qReshape, q.kTranspose, q.kReshape])
  {
    hide Touched, HasOp, IsSource;
    EdgeTouches(g, q.qkMatmul, 0, div, 0);
    EdgeTouches(g, q.qTranspose, 0, q.qkMatmul, 0);
    EdgeTouches(g, q.qReshape, 0, q.qTranspose, 0);
    EdgeTouches(g, q.kTranspose, 0, q.kSource, 1);
    EdgeTouches(g, q.kReshape, 0, q.kTranspose, 0);
  }

  lemma BaseTouched(g: Graph, shared: bool, m: Fusion)
    requires Facts(g, shared, m)
    ensures AllTouched(g, m.BaseIndices())
  {
    hide AllTouched, ValueFacts, QueryKeyFacts, GemmFacts, UnidirFacts, PastFacts, MaskFacts;
    var v, q := m.value, m.queryKey;
    ValueTouched(g, m.frame.gemm1.trunk.shape, v);
    QueryKeyTouched(g, m.unidir.trunk.div, v, q);
    var front, back := [v.reshape, v.transpose, v.qkvMatmul, v.vTranspose, v.vReshape, v.split],
      [m.unidir.trunk.div, q.qkMatmul, q.qTranspose, q.qReshape, q.kTranspose, q.kReshape];
    TouchedAppend(g, front, back);
    assert m.BaseIndices() == front + back;
  }

  lemma TouchedAppend(g: Graph, xs: seq<NodeIndex>, ys: seq<NodeIndex>)
    requires AllTouched(g, xs) && AllTouched(g, ys)
    ensures AllTouched(g, xs + ys)
  {}

  /** No node without an edge is among the matched nodes. */
  lemma MatchedAreTouched(g: Graph, shared: bool, m: Fusion)
    requires Facts(g, shared, m)
    ensures AllTouched(g, AllNodes(shared, m))
  {
    hide AllTouched, ValueFacts, QueryKeyFacts, GemmFacts, UnidirFacts, PastFacts, MaskFacts;
    var b, u, n := m.BaseIndices(), m.unidir.Indices(shared), m.projection.gemm0.Indices(shared);
    BaseTouched(g, shared, m);
    UnidirTouched(g, m.mask.Root(), shared, m.unidir);
    GemmTouched(g, m.value.split, shared, m.projection.gemm0);
    MaskTouched(g, m.value.qkvMatmul, m.mask);
    if m.past.Some? {
      PastTouched(g, m.queryKey.qkMatmul, m.value.qkvMatmul, m.past.value);
    } else {
      NothingTouched(g);
    }
    TouchedAppend(g, b, u);
    TouchedAppend(g, b + u, n);
    TouchedAppend(g, b + u + n, m.PastIndices());
    TouchedAppend(g, b + u + n + m.PastIndices(), AllMaskIndices(m.mask));
  }

  lemma NothingTouched(g: Graph)
    ensures AllTouched(g, [])
  {}
}
