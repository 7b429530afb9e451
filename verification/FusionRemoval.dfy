/** The list of nodes a fusion removes names every node once. */
module FusionRemoval {
  import opened Wrappers
  import opened GraphModel
  import opened GraphFacts
  import opened GemmMatch
  import opened GemmClosure
  import opened UnidirMatch
  import opened UnidirClosure
  import opened MaskMatch
  import opened FusionMatch
  import opened FusionFacts

  /** The part `SetMaskNodesToRemove` adds: the shared chain only when the last layer uses it. */
  function MaskIndices(g: Graph, m: MaskNodes): seq<NodeIndex> {
    match m
    case NoInputMask(softmax) => [softmax]
    case InputMask(softmax, add, chain) =>
      [softmax, add] + if g.CheckOutputEdges(chain.mul, 1) then chain.Indices() else []
  }

  /** All mask nodes, whether removed now or left to a later layer. */
  function AllMaskIndices(m: MaskNodes): seq<NodeIndex> {
    match m
    case NoInputMask(softmax) => [softmax]
    case InputMask(softmax, add, chain) => [softmax, add] + chain.Indices()
  }

  /** `nodes_to_remove`, in the order of the original. */
  function NodesToRemove(g: Graph, shared: bool, m: Fusion): seq<NodeIndex> {
    m.BaseIndices() + m.unidir.Indices(shared) + m.projection.gemm0.Indices(shared) + m.PastIndices()
      + MaskIndices(g, m.mask)
  }

  ghost predicate Apart(xs: seq<NodeIndex>, ys: seq<NodeIndex>) {
    forall i, j :: 0 <= i < |xs| && 0 <= j < |ys| ==> xs[i] != ys[j]
  }

  // ----- Ways to tell two nodes apart

  /** Different producers of the same slot number: different nodes. */
  lemma SlotDiffers(g: Graph, s: NodeIndex, a: nat, x: NodeIndex, s': NodeIndex, a': nat, x': NodeIndex, slot: nat)
    requires g.WellFormed() && Edge(s, a, x, slot) in g.edges && Edge(s', a', x', slot) in g.edges
      && (s != s' || a != a')
    ensures x != x'
  {}

  /** `x` has an out-edge that the only out-edge of `y` is not. */
  lemma EdgeDiffers(g: Graph, x: NodeIndex, a: nat, d: NodeIndex, i: nat, y: NodeIndex, d': NodeIndex, i': nat)
    requires Edge(x, a, d, i) in g.edges && Feeds(g, y, d', i') && (d != d' || i != i')
    ensures x != y
  {
    assert Edge(x, a, d, i) in g.OutEdges(x);
  }

  // ----- Base nodes

  ghost predicate ReshapesApart(m: Fusion) {
    var v, q, t := m.value, m.queryKey, m.projection.gemm0.trunk;
    && v.reshape != v.vReshape && v.reshape != q.qReshape && v.reshape != q.kReshape
    && v.vReshape != q.qReshape && v.vReshape != q.kReshape && q.qReshape != q.kReshape
    && v.reshape != t.reshapeAfter && v.vReshape != t.reshapeAfter && q.qReshape != t.reshapeAfter
      && q.kReshape != t.reshapeAfter
    && v.reshape != t.reshapeBefore && v.vReshape != t.reshapeBefore && q.qReshape != t.reshapeBefore
      && q.kReshape != t.reshapeBefore
  }

  lemma ReshapesDiffer(g: Graph, shared: bool, m: Fusion)
    requires Facts(g, shared, m)
    ensures ReshapesApart(m)
  {
    hide UnidirFacts, MaskFacts, PastFacts, IsSource, BranchFacts;
    var v, q, t := m.value, m.queryKey, m.projection.gemm0.trunk;
    assert Edge(v.transpose, 0, v.reshape, 0) in g.OutEdges(v.transpose);
    assert Edge(t.gemm, 0, t.reshapeAfter, 0) in g.OutEdges(t.gemm);
    SlotDiffers(g, v.transpose, 0, v.reshape, v.split, 2, v.vReshape, 0);
    SlotDiffers(g, v.transpose, 0, v.reshape, v.split, 0, q.qReshape, 0);
    SlotDiffers(g, v.transpose, 0, v.reshape, v.split, 1, q.kReshape, 0);
    SlotDiffers(g, v.split, 2, v.vReshape, v.split, 0, q.qReshape, 0);
    SlotDiffers(g, v.split, 2, v.vReshape, v.split, 1, q.kReshape, 0);
    SlotDiffers(g, v.split, 0, q.qReshape, v.split, 1, q.kReshape, 0);
    SlotDiffers(g, v.transpose, 0, v.reshape, t.gemm, 0, t.reshapeAfter, 0);
    SlotDiffers(g, v.split, 2, v.vReshape, t.gemm, 0, t.reshapeAfter, 0);
    SlotDiffers(g, v.split, 0, q.qReshape, t.gemm, 0, t.reshapeAfter, 0);
    SlotDiffers(g, v.split, 1, q.kReshape, t.gemm, 0, t.reshapeAfter, 0);
    EdgeDiffers(g, v.reshape, 0, m.frame.gemm1.trunk.shape, 0, t.reshapeBefore, t.gemm, 0);
    FeedsDiffer(g, v.vReshape, v.vTranspose, 0, t.reshapeBefore, t.gemm, 0);
    EdgeDiffers(g, q.qReshape, 0, q.qTranspose, 0, t.reshapeBefore, t.gemm, 0);
    EdgeDiffers(g, q.kReshape, 0, q.kTranspose, 0, t.reshapeBefore, t.gemm, 0);
  }

  ghost predicate TransposesApart(m: Fusion) {
    var v, q := m.value, m.queryKey;
    && v.transpose != v.vTranspose && v.transpose != q.qTranspose && v.transpose != q.kTranspose
    && v.vTranspose != q.qTranspose && v.vTranspose != q.kTranspose && q.qTranspose != q.kTranspose
    && v.qkvMatmul != q.qkMatmul
  }

  lemma TransposesDiffer(g: Graph, shared: bool, m: Fusion)
    requires Facts(g, shared, m)
    ensures TransposesApart(m)
  {
    hide UnidirFacts, PastFacts, IsSource, GemmFacts, ChainFacts;
    ReshapesDiffer(g, shared, m);
    var v, q := m.value, m.queryKey;
    assert Edge(v.qkvMatmul, 0, v.transpose, 0) in g.OutEdges(v.qkvMatmul);
    assert Edge(v.vReshape, 0, v.vTranspose, 0) in g.OutEdges(v.vReshape);
    assert Edge(m.mask.softmax, 0, v.qkvMatmul, 0) in g.OutEdges(m.mask.softmax);
    SlotDiffers(g, v.qkvMatmul, 0, v.transpose, v.vReshape, 0, v.vTranspose, 0);
    SlotDiffers(g, v.qkvMatmul, 0, v.transpose, q.qReshape, 0, q.qTranspose, 0);
    SlotDiffers(g, v.qkvMatmul, 0, v.transpose, q.kReshape, 0, q.kTranspose, 0);
    SlotDiffers(g, v.vReshape, 0, v.vTranspose, q.qReshape, 0, q.qTranspose, 0);
    SlotDiffers(g, v.vReshape, 0, v.vTranspose, q.kReshape, 0, q.kTranspose, 0);
    SlotDiffers(g, q.qReshape, 0, q.qTranspose, q.kReshape, 0, q.kTranspose, 0);
    SlotDiffers(g, m.mask.softmax, 0, v.qkvMatmul, q.qTranspose, 0, q.qkMatmul, 0);
  }

  /** Operators of the base nodes. */
  ghost predicate BaseOps(g: Graph, m: Fusion) {
    var v, q := m.value, m.queryKey;
    && HasOp(g, v.reshape, Reshape) && HasOp(g, v.vReshape, Reshape) && HasOp(g, q.qReshape, Reshape)
      && HasOp(g, q.kReshape, Reshape)
    && HasOp(g, v.transpose, Transpose) && HasOp(g, v.vTranspose, Transpose)
    && HasOp(g, q.qTranspose, Transpose) && HasOp(g, q.kTranspose, Transpose)
    && HasOp(g, v.qkvMatmul, MatMul) && HasOp(g, q.qkMatmul, MatMul) && HasOp(g, v.split, Split)
      && HasOp(g, m.unidir.trunk.div, Div)
  }

  lemma BaseHaveOps(g: Graph, shared: bool, m: Fusion)
    requires Facts(g, shared, m)
    ensures BaseOps(g, m)
  {
    hide PastFacts, IsSource, GemmFacts, MaskFacts, SliceEndFacts, PastLengthFacts;
  }

  lemma BaseHasNoDuplicates(g: Graph, shared: bool, m: Fusion)
    requires BaseOps(g, m) && ReshapesApart(m) && TransposesApart(m)
    ensures NoDuplicates(m.BaseIndices())
  {}

  // ----- What the operators of each part are

  predicate OpIn(g: Graph, x: NodeIndex, ops: set<Op>) {
    x in g.nodes && g.nodes[x].op in ops
  }

  ghost predicate AllOpIn(g: Graph, xs: seq<NodeIndex>, ops: set<Op>) {
    forall i :: 0 <= i < |xs| ==> OpIn(g, xs[i], ops)
  }

  const BASE_OPS: set<Op> := {Reshape, Transpose, MatMul, Split, Div}
  const UNIDIR_OPS: set<Op> := {Where, Cast, Slice, Unsqueeze, Sub, Squeeze, Shape}
  const GEMM_OPS: set<Op> := {Unsqueeze, Gather, Shape, Reshape, Gemm, Concat, Squeeze, Slice}
  const PAST_OPS: set<Op> := {Concat, Transpose, Gather, Unsqueeze}
  const MASK_OPS: set<Op> := {Softmax, Add, Mul, Sub, Cast, Unsqueeze}

  lemma BasePartOps(g: Graph, m: Fusion)
    requires BaseOps(g, m)
    ensures AllOpIn(g, m.BaseIndices(), BASE_OPS)
  {}

  lemma UnidirPartOps(g: Graph, root: NodeIndex, shared: bool, u: UnidirNodes)
    requires UnidirFacts(g, root, shared, u)
    ensures AllOpIn(g, u.Indices(shared), UNIDIR_OPS)
  {
    hide Feeds;
  }

  lemma GemmPartOps(g: Graph, root: NodeIndex, shared: bool, m: GemmNodes)
    requires GemmFacts(g, root, 0, shared, m)
    ensures AllOpIn(g, m.Indices(shared), GEMM_OPS)
  {
    hide Feeds;
  }

  lemma PastPartOps(g: Graph, qk: NodeIndex, qkv: NodeIndex, p: PastNodes)
    requires PastFacts(g, qk, qkv, p)
    ensures AllOpIn(g, p.Indices(), PAST_OPS)
  {
    hide Feeds, Produces;
  }

  lemma MaskPartOps(g: Graph, qkv: NodeIndex, m: MaskNodes)
    requires MaskFacts(g, qkv, m)
    ensures AllOpIn(g, AllMaskIndices(m), MASK_OPS)
  {
    hide Feeds;
  }

  /** Nodes with operators from disjoint sets are apart. */
  lemma OpsApart(g: Graph, xs: seq<NodeIndex>, ops: set<Op>, ys: seq<NodeIndex>, ops': set<Op>)
    requires AllOpIn(g, xs, ops) && AllOpIn(g, ys, ops') && ops !! ops'
    ensures Apart(xs, ys)
  {}

  // ----- Unsqueeze nodes: told apart by the operator they feed

  /** Some consumer of `x` has operator `op`. */
  ghost predicate FeedsSome(g: Graph, x: NodeIndex, op: Op) {
    exists e :: e in g.OutEdges(x) && g.At(e.dst).op == op
  }

  ghost predicate FeedsNone(g: Graph, x: NodeIndex, op: Op) {
    forall e :: e in g.OutEdges(x) ==> g.At(e.dst).op != op
  }

  lemma FeedsOp(g: Graph, x: NodeIndex, y: NodeIndex, slot: nat, op: Op, other: Op)
    requires Feeds(g, x, y, slot) && HasOp(g, y, op) && op != other
    ensures FeedsSome(g, x, op) && FeedsNone(g, x, other)
  {
    assert Edge(x, 0, y, slot) in g.OutEdges(x);
  }

  lemma EdgeOp(g: Graph, x: NodeIndex, a: nat, y: NodeIndex, slot: nat, op: Op)
    requires Edge(x, a, y, slot) in g.edges && HasOp(g, y, op)
    ensures FeedsSome(g, x, op)
  {
    assert Edge(x, a, y, slot) in g.OutEdges(x);
  }

  /** Every Unsqueeze among `xs` feeds a node with operator `op`. */
  ghost predicate UnsqueezesFeed(g: Graph, xs: seq<NodeIndex>, op: Op) {
    forall i :: 0 <= i < |xs| && g.At(xs[i]).op == Unsqueeze ==> FeedsSome(g, xs[i], op)
  }

  ghost predicate UnsqueezesAvoid(g: Graph, xs: seq<NodeIndex>, op: Op) {
    forall i :: 0 <= i < |xs| && g.At(xs[i]).op == Unsqueeze ==> FeedsNone(g, xs[i], op)
  }

  lemma UnidirUnsqueezes(g: Graph, root: NodeIndex, shared: bool, u: UnidirNodes)
    requires UnidirFacts(g, root, shared, u)
    ensures UnsqueezesFeed(g, u.Indices(shared), Slice)
  {
    hide Feeds, FeedsSome;
    var t := u.trunk;
    FeedsOp(g, t.unsqueeze1, t.maskSlice, 1, Slice, Concat);
    EdgeOp(g, u.unsqueeze2, 0, t.lastSlice, 2, Slice);
    EdgeOp(g, u.unsqueeze3, 0, t.maskSlice, 2, Slice);
  }

  lemma PastUnsqueezes(g: Graph, qk: NodeIndex, qkv: NodeIndex, p: PastNodes)
    requires PastFacts(g, qk, qkv, p)
    ensures UnsqueezesFeed(g, p.Indices(), Concat)
    ensures UnsqueezesAvoid(g, p.Indices(), Slice)
  {
    hide Feeds, FeedsSome, FeedsNone, Produces;
    FeedsOp(g, p.presentKUnsqueeze, p.presentConcat, 0, Concat, Slice);
    FeedsOp(g, p.presentVUnsqueeze, p.presentConcat, 1, Concat, Slice);
  }

  lemma MaskUnsqueezes(g: Graph, qkv: NodeIndex, m: MaskNodes, other: Op)
    requires MaskFacts(g, qkv, m) && (other == Slice || other == Concat)
    ensures UnsqueezesAvoid(g, AllMaskIndices(m), other)
  {
    hide Feeds, FeedsSome, FeedsNone, ChainFacts, MaskChain.Indices;
    if m.InputMask? {
      ChainUnsqueezes(g, m.softmax, m.add, m.chain, other);
      assert HasOp(g, m.add, Add) by { AddOfChain(g, m.softmax, m.add, m.chain); }
    }
  }

  lemma AddOfChain(g: Graph, softmax: NodeIndex, add: NodeIndex, c: MaskChain)
    requires ChainFacts(g, softmax, add, c)
    ensures HasOp(g, add, Add)
  {}

  lemma ChainUnsqueezes(g: Graph, softmax: NodeIndex, add: NodeIndex, c: MaskChain, other: Op)
    requires ChainFacts(g, softmax, add, c) && (other == Slice || other == Concat)
    ensures UnsqueezesAvoid(g, c.Indices(), other)
  {
    hide Feeds, FeedsSome, FeedsNone;
    if c.cast.Some? {
      FeedsOp(g, c.unsqueeze2, c.cast.value, 0, Cast, other);
    } else {
      FeedsOp(g, c.unsqueeze2, c.sub, 1, Sub, other);
    }
    FeedsOp(g, c.unsqueeze1, c.unsqueeze2, 0, Unsqueeze, other);
  }

  /** Two parts that share only Unsqueeze nodes and feed different operators are apart. */
  lemma UnsqueezesApart(g: Graph, xs: seq<NodeIndex>, ops: set<Op>, ys: seq<NodeIndex>, ops': set<Op>, op: Op)
    requires AllOpIn(g, xs, ops) && AllOpIn(g, ys, ops') && ops * ops' <= {Unsqueeze}
    requires UnsqueezesFeed(g, xs, op) && UnsqueezesAvoid(g, ys, op)
    ensures Apart(xs, ys)
  {
    forall i, j | 0 <= i < |xs| && 0 <= j < |ys|
      ensures xs[i] != ys[j]
    {
      assert OpIn(g, xs[i], ops) && OpIn(g, ys[j], ops');
      assert g.At(xs[i]).op in ops * ops' ==> g.At(xs[i]).op == Unsqueeze;
    }
  }

  // ----- Operators that two parts have in common

  /** The nodes of `xs` with operator `op` are among `c`. */
  ghost predicate ClassIn(g: Graph, xs: seq<NodeIndex>, op: Op, c: set<NodeIndex>) {
    forall i :: 0 <= i < |xs| && g.At(xs[i]).op == op ==> xs[i] in c
  }

  /** The nodes of the two parts with operator `op` are different. */
  ghost predicate ClassesApart(g: Graph, xs: seq<NodeIndex>, ys: seq<NodeIndex>, op: Op) {
    forall i, j :: 0 <= i < |xs| && 0 <= j < |ys| && g.At(xs[i]).op == op ==> xs[i] != ys[j]
  }

  lemma DisjointClasses(g: Graph, xs: seq<NodeIndex>, c: set<NodeIndex>, ys: seq<NodeIndex>, d: set<NodeIndex>, op: Op)
    requires ClassIn(g, xs, op, c) && ClassIn(g, ys, op, d) && c !! d
    ensures ClassesApart(g, xs, ys, op)
  {}

  /** Parts are apart when they are apart for each operator they share. */
  lemma PartsApart(g: Graph, xs: seq<NodeIndex>, ops: set<Op>, ys: seq<NodeIndex>, ops': set<Op>)
    requires AllOpIn(g, xs, ops) && AllOpIn(g, ys, ops')
    requires forall op :: op in ops && op in ops' ==> ClassesApart(g, xs, ys, op)
    ensures Apart(xs, ys)
  {
    forall i, j | 0 <= i < |xs| && 0 <= j < |ys|
      ensures xs[i] != ys[j]
    {
      assert OpIn(g, xs[i], ops) && OpIn(g, ys[j], ops');
      assert g.At(xs[i]).op in ops' ==> ClassesApart(g, xs, ys, g.At(xs[i]).op);
    }
  }

  lemma UnsqueezeClasses(g: Graph, xs: seq<NodeIndex>, ys: seq<NodeIndex>, op: Op)
    requires UnsqueezesFeed(g, xs, op) && UnsqueezesAvoid(g, ys, op)
    ensures ClassesApart(g, xs, ys, Unsqueeze)
  {}

  lemma BaseClasses(g: Graph, m: Fusion)
    requires BaseOps(g, m)
    ensures var v, q := m.value, m.queryKey;
      && ClassIn(g, m.BaseIndices(), Reshape, {v.reshape, v.vReshape, q.qReshape, q.kReshape})
      && ClassIn(g, m.BaseIndices(), Transpose, {v.transpose, v.vTranspose, q.qTranspose, q.kTranspose})
  {}

  lemma UnidirSliceClasses(g: Graph, root: NodeIndex, shared: bool, u: UnidirNodes)
    requires UnidirFacts(g, root, shared, u)
    ensures ClassIn(g, u.Indices(shared), Slice,
      {u.trunk.lastSlice, u.trunk.maskSlice, u.trunk.slice1, u.length.slice2})
  {
    hide Feeds;
  }

  lemma UnidirShapeClasses(g: Graph, root: NodeIndex, shared: bool, u: UnidirNodes)
    requires UnidirFacts(g, root, shared, u)
    ensures ClassIn(g, u.Indices(shared), Squeeze, {u.trunk.squeeze1, u.length.squeeze2})
    ensures ClassIn(g, u.Indices(shared), Shape, {u.trunk.shape1, u.length.shape2})
  {
    hide Feeds;
  }

  lemma UnidirMaskClasses(g: Graph, root: NodeIndex, shared: bool, u: UnidirNodes)
    requires UnidirFacts(g, root, shared, u)
    ensures ClassIn(g, u.Indices(shared), Cast, {u.trunk.cast})
    ensures ClassIn(g, u.Indices(shared), Sub, {u.trunk.sub})
  {
    hide Feeds;
  }

  lemma GemmShapeClasses(g: Graph, root: NodeIndex, shared: bool, m: GemmNodes)
    requires GemmFacts(g, root, 0, shared, m)
    ensures ClassIn(g, m.Indices(shared), Slice, {m.trunk.slice})
    ensures ClassIn(g, m.Indices(shared), Squeeze, {m.trunk.squeeze})
    ensures ClassIn(g, m.Indices(shared), Shape, {m.trunk.shape, m.first.shape, m.second.shape})
    ensures ClassIn(g, m.Indices(shared), Reshape, {m.trunk.reshapeAfter, m.trunk.reshapeBefore})
  {
    hide Feeds;
  }

  lemma GemmConcatClasses(g: Graph, root: NodeIndex, shared: bool, m: GemmNodes)
    requires GemmFacts(g, root, 0, shared, m)
    ensures ClassIn(g, m.Indices(shared), Concat, {m.trunk.concat, m.trunk.concatAfter})
    ensures ClassIn(g, m.Indices(shared), Gather, {m.first.gather, m.second.gather})
    ensures ClassIn(g, m.Indices(shared), Unsqueeze, {m.trunk.unsqueeze, m.first.unsqueeze, m.second.unsqueeze})
  {
    hide Feeds;
  }

  lemma GemmUnsqueezes(g: Graph, root: NodeIndex, shared: bool, m: GemmNodes)
    requires GemmFacts(g, root, 0, shared, m)
    ensures UnsqueezesFeed(g, m.Indices(shared), Concat)
    ensures UnsqueezesAvoid(g, m.Indices(shared), Slice)
  {
    hide Feeds, FeedsSome, FeedsNone, GemmNodes.Indices;
    var t := m.trunk;
    GemmConcatClasses(g, root, shared, m);
    FeedsOp(g, t.unsqueeze, t.concat, 1, Concat, Slice);
    FeedsOp(g, m.first.unsqueeze, t.concatAfter, 0, Concat, Slice);
    FeedsOp(g, m.second.unsqueeze, t.concatAfter, 1, Concat, Slice);
  }

  lemma PastClasses(g: Graph, qk: NodeIndex, qkv: NodeIndex, p: PastNodes)
    requires PastFacts(g, qk, qkv, p)
    ensures ClassIn(g, p.Indices(), Concat, {p.kConcat, p.presentConcat, p.vConcat})
    ensures ClassIn(g, p.Indices(), Gather, {p.pastKGather, p.pastVGather})
    ensures ClassIn(g, p.Indices(), Unsqueeze, {p.presentKUnsqueeze, p.presentVUnsqueeze})
    ensures ClassIn(g, p.Indices(), Transpose, {p.pastKTranspose, p.presentKTranspose})
  {
    hide Feeds, Produces;
  }

  lemma MaskClasses(g: Graph, qkv: NodeIndex, m: MaskNodes)
    requires MaskFacts(g, qkv, m)
    ensures ClassIn(g, AllMaskIndices(m), Cast, if m.InputMask? && m.chain.cast.Some? then {m.chain.cast.value} else {})
    ensures ClassIn(g, AllMaskIndices(m), Sub, if m.InputMask? then {m.chain.sub} else {})
  {
    hide Feeds;
  }

  // ----- Part by part

  lemma BaseApartFromGemm(g: Graph, shared: bool, m: Fusion)
    requires BaseOps(g, m) && ReshapesApart(m) && GemmFacts(g, m.value.split, 0, shared, m.projection.gemm0)
    ensures Apart(m.BaseIndices(), m.projection.gemm0.Indices(shared))
  {
    hide GemmFacts, BaseOps, GemmNodes.Indices, ClassIn, AllOpIn, Apart, Fusion.BaseIndices;
    var v, q, n := m.value, m.queryKey, m.projection.gemm0;
    BasePartOps(g, m);
    BaseClasses(g, m);
    GemmPartOps(g, v.split, shared, n);
    GemmShapeClasses(g, v.split, shared, n);
    DisjointClasses(g, m.BaseIndices(), {v.reshape, v.vReshape, q.qReshape, q.kReshape}, n.Indices(shared),
                    {n.trunk.reshapeAfter, n.trunk.reshapeBefore}, Reshape);
    PartsApart(g, m.BaseIndices(), BASE_OPS, n.Indices(shared), GEMM_OPS);
  }

  /** Where the transposed values of the three paths come from. */
  ghost predicate TransposeSources(g: Graph, v: ValuePath, q: QueryKey) {
    && Edge(v.qkvMatmul, 0, v.transpose, 0) in g.edges && HasOp(g, v.qkvMatmul, MatMul)
    && Edge(v.vReshape, 0, v.vTranspose, 0) in g.edges && HasOp(g, v.vReshape, Reshape)
    && Edge(q.qReshape, 0, q.qTranspose, 0) in g.edges && HasOp(g, q.qReshape, Reshape)
    && Edge(q.kReshape, 0, q.kTranspose, 0) in g.edges && HasOp(g, q.kReshape, Reshape)
  }

  lemma TransposesHaveSources(g: Graph, shared: bool, m: Fusion)
    requires Facts(g, shared, m)
    ensures TransposeSources(g, m.value, m.queryKey)
  {
    hide GemmFacts, UnidirFacts, MaskFacts, PastFacts, IsSource, HasOp;
    var v := m.value;
    assert Edge(v.qkvMatmul, 0, v.transpose, 0) in g.OutEdges(v.qkvMatmul);
    assert Edge(v.vReshape, 0, v.vTranspose, 0) in g.OutEdges(v.vReshape);
  }

  /** A node fed by a Gather or a Concat is none of the transposed values. */
  lemma TransposeDiffers(g: Graph, v: ValuePath, q: QueryKey, s: NodeIndex, op: Op, x: NodeIndex)
    requires g.WellFormed() && TransposeSources(g, v, q)
    requires Edge(s, 0, x, 0) in g.edges && HasOp(g, s, op) && (op == Gather || op == Concat)
    ensures x !in {v.transpose, v.vTranspose, q.qTranspose, q.kTranspose}
  {}

  lemma PastTransposesDiffer(g: Graph, shared: bool, m: Fusion)
    requires Facts(g, shared, m) && m.past.Some?
    ensures var v, q, p := m.value, m.queryKey, m.past.value;
      {v.transpose, v.vTranspose, q.qTranspose, q.kTranspose} !! {p.pastKTranspose, p.presentKTranspose}
    ensures m.past.value.pastKTranspose != m.past.value.presentKTranspose
  {
    hide ValueFacts, QueryKeyFacts, GemmFacts, UnidirFacts, MaskFacts, IsSource, Produces, TransposeSources;
    var v, q, p := m.value, m.queryKey, m.past.value;
    TransposesHaveSources(g, shared, m);
    assert Edge(p.pastKGather, 0, p.pastKTranspose, 0) in g.OutEdges(p.pastKGather);
    TransposeDiffers(g, v, q, p.pastKGather, Gather, p.pastKTranspose);
    TransposeDiffers(g, v, q, p.kConcat, Concat, p.presentKTranspose);
    SlotDiffers(g, p.pastKGather, 0, p.pastKTranspose, p.kConcat, 0, p.presentKTranspose, 0);
  }

  lemma BaseApartFromPast(g: Graph, shared: bool, m: Fusion)
    requires Facts(g, shared, m) && m.past.Some?
    ensures Apart(m.BaseIndices(), m.past.value.Indices())
  {
    hide GemmFacts, UnidirFacts, MaskFacts, ValueFacts, QueryKeyFacts, PastFacts, BaseOps;
    var v, q, p := m.value, m.queryKey, m.past.value;
    BaseHaveOps(g, shared, m);
    BasePartOps(g, m);
    BaseClasses(g, m);
    PastPartOps(g, q.qkMatmul, v.qkvMatmul, p);
    PastClasses(g, q.qkMatmul, v.qkvMatmul, p);
    PastTransposesDiffer(g, shared, m);
    DisjointClasses(g, m.BaseIndices(), {v.transpose, v.vTranspose, q.qTranspose, q.kTranspose}, p.Indices(),
                    {p.pastKTranspose, p.presentKTranspose}, Transpose);
    PartsApart(g, m.BaseIndices(), BASE_OPS, p.Indices(), PAST_OPS);
  }

  lemma UnidirSqueezesDiffer(g: Graph, root: NodeIndex, split: NodeIndex, shared: bool, u: UnidirNodes, n: GemmNodes)
    requires UnidirFacts(g, root, shared, u) && GemmFacts(g, split, 0, shared, n)
    ensures n.trunk.squeeze !in {u.trunk.squeeze1, u.length.squeeze2}
    ensures n.trunk.slice !in {u.trunk.lastSlice, u.trunk.maskSlice, u.trunk.slice1, u.length.slice2}
  {
    hide BranchFacts, SliceEndFacts;
    var t, l, s := u.trunk, u.length, n.trunk;
    EdgeDiffers(g, t.squeeze1, 0, t.sub, 0, s.squeeze, s.unsqueeze, 0);
    FeedsDiffer(g, l.squeeze2, t.sub, 1, s.squeeze, s.unsqueeze, 0);
    FeedsDiffer(g, t.lastSlice, t.cast, 0, s.slice, s.squeeze, 0);
    FeedsDiffer(g, t.maskSlice, t.lastSlice, 0, s.slice, s.squeeze, 0);
    FeedsDiffer(g, t.slice1, t.squeeze1, 0, s.slice, s.squeeze, 0);
    FeedsDiffer(g, l.slice2, l.squeeze2, 0, s.slice, s.squeeze, 0);
  }

  lemma UnidirShapeEdges(g: Graph, root: NodeIndex, shared: bool, u: UnidirNodes)
    requires UnidirFacts(g, root, shared, u)
    ensures Edge(u.trunk.shape1, 0, u.trunk.slice1, 0) in g.edges && HasOp(g, u.trunk.slice1, Slice)
    ensures Edge(u.length.shape2, 0, u.length.slice2, 0) in g.edges && HasOp(g, u.length.slice2, Slice)
  {
    hide Feeds, HasOp;
  }

  lemma GathersHaveOp(g: Graph, split: NodeIndex, shared: bool, n: GemmNodes)
    requires GemmFacts(g, split, 0, shared, n)
    ensures HasOp(g, n.first.gather, Gather) && HasOp(g, n.second.gather, Gather)
  {
    hide Feeds, HasOp;
  }

  lemma UnidirShapesDiffer(g: Graph, root: NodeIndex, split: NodeIndex, shared: bool, u: UnidirNodes, n: GemmNodes)
    requires UnidirFacts(g, root, shared, u) && GemmFacts(g, split, 0, shared, n) && g.At(split).op != Gemm
    ensures {u.trunk.shape1, u.length.shape2} !! {n.trunk.shape, n.first.shape, n.second.shape}
  {
    hide UnidirFacts, GemmFacts;
    UnidirSqueezesDiffer(g, root, split, shared, u, n);
    UnidirShapeEdges(g, root, shared, u);
    GathersHaveOp(g, split, shared, n);
    var e, f := Edge(u.trunk.shape1, 0, u.trunk.slice1, 0), Edge(u.length.shape2, 0, u.length.slice2, 0);
    if e.src in {n.trunk.shape, n.first.shape, n.second.shape} {
      ShapeIsClosed(g, split, 0, shared, n, e);
    }
    if f.src in {n.trunk.shape, n.first.shape, n.second.shape} {
      ShapeIsClosed(g, split, 0, shared, n, f);
    }
  }

  lemma UnidirApartFromGemm(g: Graph, root: NodeIndex, split: NodeIndex, shared: bool, u: UnidirNodes, n: GemmNodes)
    requires UnidirFacts(g, root, shared, u) && GemmFacts(g, split, 0, shared, n) && g.At(split).op != Gemm
    ensures Apart(u.Indices(shared), n.Indices(shared))
  {
    hide UnidirFacts, GemmFacts, UnidirNodes.Indices, GemmNodes.Indices, ClassIn, AllOpIn, Apart;
    var xs, ys, t, l := u.Indices(shared), n.Indices(shared), u.trunk, u.length;
    UnidirPartOps(g, root, shared, u);
    UnidirSliceClasses(g, root, shared, u);
    UnidirShapeClasses(g, root, shared, u);
    UnidirUnsqueezes(g, root, shared, u);
    GemmPartOps(g, split, shared, n);
    GemmShapeClasses(g, split, shared, n);
    GemmUnsqueezes(g, split, shared, n);
    UnsqueezeClasses(g, xs, ys, Slice);
    UnidirSqueezesDiffer(g, root, split, shared, u, n);
    UnidirShapesDiffer(g, root, split, shared, u, n);
    DisjointClasses(g, xs, {t.squeeze1, l.squeeze2}, ys, {n.trunk.squeeze}, Squeeze);
    DisjointClasses(g, xs, {t.lastSlice, t.maskSlice, t.slice1, l.slice2}, ys, {n.trunk.slice}, Slice);
    DisjointClasses(g, xs, {t.shape1, l.shape2}, ys, {n.trunk.shape, n.first.shape, n.second.shape}, Shape);
    PartsApart(g, xs, UNIDIR_OPS, ys, GEMM_OPS);
  }

  lemma UnidirMaskCastsDiffer(g: Graph, qkv: NodeIndex, shared: bool, u: UnidirNodes, m: MaskNodes)
    requires UnidirFacts(g, m.Root(), shared, u) && MaskFacts(g, qkv, m)
    ensures m.InputMask? ==> u.trunk.sub != m.chain.sub && (m.chain.cast.Some? ==> u.trunk.cast != m.chain.cast.value)
  {
    hide Feeds, SliceEndFacts, PastLengthFacts;
    if m.InputMask? {
      var c, t := m.chain, u.trunk;
      FeedsDiffer(g, t.sub, t.unsqueeze1, 0, c.sub, c.mul, 0);
      if c.cast.Some? {
        FeedsDiffer(g, t.cast, t.whereNode, 0, c.cast.value, c.sub, 1);
      }
    }
  }

  lemma UnidirApartFromMask(g: Graph, qkv: NodeIndex, shared: bool, u: UnidirNodes, m: MaskNodes)
    requires UnidirFacts(g, m.Root(), shared, u) && MaskFacts(g, qkv, m)
    ensures Apart(u.Indices(shared), AllMaskIndices(m))
  {
    hide UnidirFacts, MaskFacts, UnidirNodes.Indices, AllMaskIndices, ClassIn, AllOpIn, Apart;
    var xs, ys, t := u.Indices(shared), AllMaskIndices(m), u.trunk;
    UnidirMaskCastsDiffer(g, qkv, shared, u, m);
    UnidirPartOps(g, m.Root(), shared, u);
    UnidirMaskClasses(g, m.Root(), shared, u);
    UnidirUnsqueezes(g, m.Root(), shared, u);
    MaskPartOps(g, qkv, m);
    MaskClasses(g, qkv, m);
    MaskUnsqueezes(g, qkv, m, Slice);
    UnsqueezeClasses(g, xs, ys, Slice);
    DisjointClasses(g, xs, {t.cast}, ys, if m.InputMask? && m.chain.cast.Some? then {m.chain.cast.value} else {}, Cast);
    DisjointClasses(g, xs, {t.sub}, ys, if m.InputMask? then {m.chain.sub} else {}, Sub);
    PartsApart(g, xs, UNIDIR_OPS, ys, MASK_OPS);
  }

  /** The two Concats of the past have two consumers each, of different operators. */
  lemma PastConcatsDiffer(g: Graph, qk: NodeIndex, qkv: NodeIndex, p: PastNodes)
    requires PastFacts(g, qk, qkv, p) && HasOp(g, qk, MatMul) && HasOp(g, qkv, MatMul)
    ensures g.OutEdges(p.kConcat) != g.OutEdges(p.vConcat)
    ensures p.kConcat != p.vConcat && p.kConcat != p.presentConcat && p.vConcat != p.presentConcat
  {
    var a: nat :| Edge(p.kConcat, a, qk, 1) in g.edges;
    var e, f, h :=
      Edge(p.kConcat, 0, p.presentKTranspose, 0), Edge(p.kConcat, a, qk, 1), Edge(p.vConcat, 0, p.presentVUnsqueeze, 0);
    TwoOutEdges(g, p.kConcat, e, f);
    assert h in g.OutEdges(p.vConcat) && h !in g.OutEdges(p.kConcat);
  }

  lemma GemmPastConcatsDiffer(g: Graph, qk: NodeIndex, qkv: NodeIndex, split: NodeIndex, shared: bool, n: GemmNodes,
                              p: PastNodes)
    requires GemmFacts(g, split, 0, shared, n) && PastFacts(g, qk, qkv, p)
    ensures {n.trunk.concat, n.trunk.concatAfter} !! {p.kConcat, p.presentConcat, p.vConcat}
  {
    hide BranchFacts;
    var t := n.trunk;
    assert Edge(t.concat, 0, t.reshapeBefore, 1) in g.OutEdges(t.concat);
    assert Edge(t.concatAfter, 0, t.reshapeAfter, 1) in g.OutEdges(t.concatAfter);
    assert |g.OutEdges(t.concat)| == 1 && |g.OutEdges(t.concatAfter)| == 1;
  }

  lemma GemmPastOthersDiffer(g: Graph, qk: NodeIndex, qkv: NodeIndex, split: NodeIndex, shared: bool, n: GemmNodes,
                             p: PastNodes)
    requires GemmFacts(g, split, 0, shared, n) && PastFacts(g, qk, qkv, p)
    ensures {n.first.gather, n.second.gather} !! {p.pastKGather, p.pastVGather}
    ensures {n.trunk.unsqueeze, n.first.unsqueeze, n.second.unsqueeze} !! {p.presentKUnsqueeze, p.presentVUnsqueeze}
  {
    GemmPastConcatsDiffer(g, qk, qkv, split, shared, n, p);
    hide Feeds, Produces;
    var a, b, t := n.first, n.second, n.trunk;
    FeedsDiffer(g, a.gather, a.unsqueeze, 0, p.pastKGather, p.pastKTranspose, 0);
    FeedsDiffer(g, a.gather, a.unsqueeze, 0, p.pastVGather, p.vConcat, 0);
    FeedsDiffer(g, b.gather, b.unsqueeze, 0, p.pastKGather, p.pastKTranspose, 0);
    FeedsDiffer(g, b.gather, b.unsqueeze, 0, p.pastVGather, p.vConcat, 0);
    FeedsDiffer(g, t.unsqueeze, t.concat, 1, p.presentKUnsqueeze, p.presentConcat, 0);
    FeedsDiffer(g, t.unsqueeze, t.concat, 1, p.presentVUnsqueeze, p.presentConcat, 1);
    FeedsDiffer(g, a.unsqueeze, t.concatAfter, 0, p.presentKUnsqueeze, p.presentConcat, 0);
    FeedsDiffer(g, a.unsqueeze, t.concatAfter, 0, p.presentVUnsqueeze, p.presentConcat, 1);
    FeedsDiffer(g, b.unsqueeze, t.concatAfter, 1, p.presentKUnsqueeze, p.presentConcat, 0);
    FeedsDiffer(g, b.unsqueeze, t.concatAfter, 1, p.presentVUnsqueeze, p.presentConcat, 1);
  }

  lemma GemmApartFromPast(g: Graph, qk: NodeIndex, qkv: NodeIndex, split: NodeIndex, shared: bool, n: GemmNodes,
                          p: PastNodes)
    requires GemmFacts(g, split, 0, shared, n) && PastFacts(g, qk, qkv, p)
    ensures Apart(n.Indices(shared), p.Indices())
  {
    hide GemmFacts, PastFacts, GemmNodes.Indices, PastNodes.Indices, ClassIn, AllOpIn, Apart;
    var xs, ys, t := n.Indices(shared), p.Indices(), n.trunk;
    GemmPartOps(g, split, shared, n);
    GemmConcatClasses(g, split, shared, n);
    PastPartOps(g, qk, qkv, p);
    PastClasses(g, qk, qkv, p);
    GemmPastConcatsDiffer(g, qk, qkv, split, shared, n, p);
    GemmPastOthersDiffer(g, qk, qkv, split, shared, n, p);
    DisjointClasses(g, xs, {t.concat, t.concatAfter}, ys, {p.kConcat, p.presentConcat, p.vConcat}, Concat);
    DisjointClasses(g, xs, {n.first.gather, n.second.gather}, ys, {p.pastKGather, p.pastVGather}, Gather);
    DisjointClasses(g, xs, {t.unsqueeze, n.first.unsqueeze, n.second.unsqueeze}, ys,
                    {p.presentKUnsqueeze, p.presentVUnsqueeze}, Unsqueeze);
    PartsApart(g, xs, GEMM_OPS, ys, PAST_OPS);
  }

  // ----- Within the past and the mask

  lemma PastHasNoDuplicates(g: Graph, qk: NodeIndex, qkv: NodeIndex, p: PastNodes)
    requires PastFacts(g, qk, qkv, p) && HasOp(g, qk, MatMul) && HasOp(g, qkv, MatMul)
    requires p.pastKTranspose != p.presentKTranspose
    ensures NoDuplicates(p.Indices())
  {
    PastConcatsDiffer(g, qk, qkv, p);
    FeedsDiffer(g, p.pastKGather, p.pastKTranspose, 0, p.pastVGather, p.vConcat, 0);
    FeedsDiffer(g, p.presentKUnsqueeze, p.presentConcat, 0, p.presentVUnsqueeze, p.presentConcat, 1);
    hide Feeds, Produces;
  }

  lemma MaskHasNoDuplicates(g: Graph, qkv: NodeIndex, m: MaskNodes)
    requires MaskFacts(g, qkv, m)
    ensures NoDuplicates(AllMaskIndices(m))
  {
    hide Feeds;
    if m.InputMask? {
      var c := m.chain;
      if c.cast.Some? {
        FeedsDiffer(g, c.unsqueeze2, c.cast.value, 0, c.unsqueeze1, c.unsqueeze2, 0);
      } else {
        FeedsDiffer(g, c.unsqueeze2, c.sub, 1, c.unsqueeze1, c.unsqueeze2, 0);
      }
    }
  }

  // ----- The whole list

  lemma AppendApart(xs: seq<NodeIndex>, ys: seq<NodeIndex>)
    requires NoDuplicates(xs) && NoDuplicates(ys) && Apart(xs, ys)
    ensures NoDuplicates(xs + ys)
  {}

  lemma ApartFromAppend(xs: seq<NodeIndex>, ys: seq<NodeIndex>, zs: seq<NodeIndex>)
    requires Apart(xs, zs) && Apart(ys, zs)
    ensures Apart(xs + ys, zs)
  {}

  /** The list that also names the shared chain when it is left to a later layer. */
  function AllNodes(shared: bool, m: Fusion): seq<NodeIndex> {
    m.BaseIndices() + m.unidir.Indices(shared) + m.projection.gemm0.Indices(shared) + m.PastIndices()
      + AllMaskIndices(m.mask)
  }

  ghost predicate AllApart(shared: bool, m: Fusion) {
    var b, u, n, p, k :=
      m.BaseIndices(), m.unidir.Indices(shared), m.projection.gemm0.Indices(shared), m.PastIndices(),
        AllMaskIndices(m.mask);
    && Apart(b, u) && Apart(b, n) && Apart(b, p) && Apart(b, k)
    && Apart(u, n) && Apart(u, p) && Apart(u, k)
    && Apart(n, p) && Apart(n, k)
    && Apart(p, k)
  }

  lemma PartsAreApart(g: Graph, shared: bool, m: Fusion)
    requires Facts(g, shared, m)
    ensures AllApart(shared, m)
  {
    hide ValueFacts, GemmFacts, MaskFacts, UnidirFacts, QueryKeyFacts, PastFacts, BaseOps, ReshapesApart, Apart,
      AllOpIn;
    var v, q, n, u := m.value, m.queryKey, m.projection.gemm0, m.unidir;
    assert g.At(v.split).op != Gemm by {
      BaseSplit(g, shared, m);
    }
    BaseHaveOps(g, shared, m);
    ReshapesDiffer(g, shared, m);
    BasePartOps(g, m);
    UnidirPartOps(g, m.mask.Root(), shared, u);
    GemmPartOps(g, v.split, shared, n);
    MaskPartOps(g, v.qkvMatmul, m.mask);
    OpsApart(g, m.BaseIndices(), BASE_OPS, u.Indices(shared), UNIDIR_OPS);
    OpsApart(g, m.BaseIndices(), BASE_OPS, AllMaskIndices(m.mask), MASK_OPS);
    BaseApartFromGemm(g, shared, m);
    UnidirApartFromGemm(g, m.mask.Root(), v.split, shared, u, n);
    UnidirApartFromMask(g, v.qkvMatmul, shared, u, m.mask);
    GemmApartFromMask(g, v.split, v.qkvMatmul, shared, n, m.mask);
    PastIsApart(g, shared, m);
  }

  lemma BaseSplit(g: Graph, shared: bool, m: Fusion)
    requires Facts(g, shared, m)
    ensures g.At(m.value.split).op == Split
  {
    hide GemmFacts, MaskFacts, UnidirFacts, QueryKeyFacts, PastFacts, Feeds;
  }

  lemma GemmApartFromMask(g: Graph, split: NodeIndex, qkv: NodeIndex, shared: bool, n: GemmNodes, m: MaskNodes)
    requires GemmFacts(g, split, 0, shared, n) && MaskFacts(g, qkv, m)
    ensures Apart(n.Indices(shared), AllMaskIndices(m))
  {
    hide GemmFacts, MaskFacts;
    GemmPartOps(g, split, shared, n);
    GemmUnsqueezes(g, split, shared, n);
    MaskPartOps(g, qkv, m);
    MaskUnsqueezes(g, qkv, m, Concat);
    UnsqueezesApart(g, n.Indices(shared), GEMM_OPS, AllMaskIndices(m), MASK_OPS, Concat);
  }

  lemma UnidirApartFromPast(g: Graph, root: NodeIndex, qk: NodeIndex, qkv: NodeIndex, shared: bool, u: UnidirNodes,
                            p: PastNodes)
    requires UnidirFacts(g, root, shared, u) && PastFacts(g, qk, qkv, p)
    ensures Apart(u.Indices(shared), p.Indices())
  {
    hide UnidirFacts, PastFacts;
    PastPartOps(g, qk, qkv, p);
    PastUnsqueezes(g, qk, qkv, p);
    UnidirPartOps(g, root, shared, u);
    UnidirUnsqueezes(g, root, shared, u);
    UnsqueezesApart(g, u.Indices(shared), UNIDIR_OPS, p.Indices(), PAST_OPS, Slice);
  }

  lemma PastApartFromMask(g: Graph, qk: NodeIndex, qkv: NodeIndex, p: PastNodes, m: MaskNodes)
    requires PastFacts(g, qk, qkv, p) && MaskFacts(g, qkv, m)
    ensures Apart(p.Indices(), AllMaskIndices(m))
  {
    hide PastFacts, MaskFacts;
    PastPartOps(g, qk, qkv, p);
    PastUnsqueezes(g, qk, qkv, p);
    MaskPartOps(g, qkv, m);
    MaskUnsqueezes(g, qkv, m, Concat);
    UnsqueezesApart(g, p.Indices(), PAST_OPS, AllMaskIndices(m), MASK_OPS, Concat);
  }

  lemma PastIsApart(g: Graph, shared: bool, m: Fusion)
    requires Facts(g, shared, m)
    ensures Apart(m.BaseIndices(), m.PastIndices()) && Apart(m.unidir.Indices(shared), m.PastIndices())
    ensures Apart(m.projection.gemm0.Indices(shared), m.PastIndices()) && Apart(m.PastIndices(), AllMaskIndices(m.mask))
  {
    if m.past.Some? {
      hide ValueFacts, GemmFacts, MaskFacts, UnidirFacts, QueryKeyFacts, PastFacts, Apart;
      var v, q, p := m.value, m.queryKey, m.past.value;
      BaseApartFromPast(g, shared, m);
      UnidirApartFromPast(g, m.mask.Root(), q.qkMatmul, v.qkvMatmul, shared, m.unidir, p);
      GemmApartFromPast(g, q.qkMatmul, v.qkvMatmul, v.split, shared, m.projection.gemm0, p);
      PastApartFromMask(g, q.qkMatmul, v.qkvMatmul, p, m.mask);
    }
  }

  lemma PartsHaveNoDuplicates(g: Graph, shared: bool, m: Fusion)
    requires Facts(g, shared, m)
    ensures NoDuplicates(m.BaseIndices()) && NoDuplicates(m.unidir.Indices(shared))
      && NoDuplicates(m.projection.gemm0.Indices(shared))
    ensures NoDuplicates(m.PastIndices()) && NoDuplicates(AllMaskIndices(m.mask))
  {
    hide ValueFacts, GemmFacts, MaskFacts, UnidirFacts, QueryKeyFacts, PastFacts, ReshapesApart, TransposesApart,
      NoDuplicates;
    BaseHaveOps(g, shared, m);
    ReshapesDiffer(g, shared, m);
    TransposesDiffer(g, shared, m);
    BaseHasNoDuplicates(g, shared, m);
    UnidirHasNoDuplicates(g, m.mask.Root(), shared, m.unidir);
    BaseSplit(g, shared, m);
    GemmHasNoDuplicates(g, m.value.split, 0, shared, m.projection.gemm0);
    MaskHasNoDuplicates(g, m.value.qkvMatmul, m.mask);
    if m.past.Some? {
      PastTransposesDiffer(g, shared, m);
      PastHasNoDuplicates(g, m.queryKey.qkMatmul, m.value.qkvMatmul, m.past.value);
    } else {
      EmptyHasNoDuplicates();
    }
  }

  lemma EmptyHasNoDuplicates()
    ensures NoDuplicates([])
  {}

  lemma JoinParts(b: seq<NodeIndex>, u: seq<NodeIndex>, n: seq<NodeIndex>, p: seq<NodeIndex>, k: seq<NodeIndex>)
    requires NoDuplicates(b) && NoDuplicates(u) && NoDuplicates(n) && NoDuplicates(p) && NoDuplicates(k)
    requires Apart(b, u) && Apart(b, n) && Apart(b, p) && Apart(b, k) && Apart(u, n) && Apart(u, p) && Apart(u, k)
    requires Apart(n, p) && Apart(n, k) && Apart(p, k)
    ensures NoDuplicates(b + u + n + p + k)
  {
    hide NoDuplicates, Apart;
    AppendApart(b, u);
    ApartFromAppend(b, u, n);
    AppendApart(b + u, n);
    ApartFromAppend(b, u, p);
    ApartFromAppend(b + u, n, p);
    AppendApart(b + u + n, p);
    ApartFromAppend(b, u, k);
    ApartFromAppend(b + u, n, k);
    ApartFromAppend(b + u + n, p, k);
    AppendApart(b + u + n + p, k);
  }

  lemma AllNodesAreDistinct(g: Graph, shared: bool, m: Fusion)
    requires Facts(g, shared, m)
    ensures NoDuplicates(AllNodes(shared, m))
  {
    hide Facts, NoDuplicates, Apart;
    PartsHaveNoDuplicates(g, shared, m);
    PartsAreApart(g, shared, m);
    JoinParts(m.BaseIndices(), m.unidir.Indices(shared), m.projection.gemm0.Indices(shared), m.PastIndices(),
      AllMaskIndices(m.mask));
  }
}
