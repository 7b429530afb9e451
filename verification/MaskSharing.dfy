/**
  Runs of fusions over layers that share one input mask: the mask computation survives until the
  last layer is fused, is removed then, and all layers read one int32 version of the mask.
*/
module MaskSharing {
  import opened Wrappers
  import opened GraphModel
  import opened GraphFacts
  import opened GemmClosure
  import opened UnidirClosure
  import opened MaskMatch
  import opened FusionMatch
  import opened FusionFacts
  import opened FusionRemoval
  import opened FusionClosure
  import opened FusionTouches
  import opened GptFusion

  /** One fusion: the normalization node it starts from, its parameters, and what it matched. */
  datatype Layer = Layer(layerNorm: NodeIndex, hiddenSize: int, shared: bool, nanMatches: bool, m: Fusion)

  ghost predicate LayerMatches(g: Graph, l: Layer) {
    IsFusion(g, l.layerNorm, l.hiddenSize, l.shared, l.nanMatches, l.m)
  }

  function LayerOutcome(o: Outcome, l: Layer): Outcome {
    Fused(o.graph, o.cache, l.layerNorm, l.shared, l.m)
  }

  function LayerRemoves(o: Outcome, l: Layer): seq<NodeIndex> {
    NodesToRemove(o.graph, l.shared, l.m)
  }

  /** Every layer matches in the graph the layers before it left, and is fused. */
  ghost predicate IsRun(layers: seq<Layer>, states: seq<Outcome>) {
    && |states| == |layers| + 1
    && states[0].graph.WellFormed()
    && forall k {:trigger layers[k]} :: 0 <= k < |layers| ==>
         LayerMatches(states[k].graph, layers[k]) && states[k + 1] == LayerOutcome(states[k], layers[k])
  }

  /** All layers use the chain `c`, and in `g` its Mul feeds these layers and nothing else. */
  ghost predicate ShareChain(g: Graph, layers: seq<Layer>, c: MaskChain) {
    && (forall k {:trigger layers[k]} :: 0 <= k < |layers| ==>
      layers[k].m.mask.InputMask? && layers[k].m.mask.chain == c)
    && (forall e :: e in g.OutEdges(c.mul) ==> exists k :: 0 <= k < |layers| && e == AddEdge(c, layers[k]))
  }

  function AddEdge(c: MaskChain, l: Layer): Edge
  {
    Edge(c.mul, 0, if l.m.mask.InputMask? then l.m.mask.add else 0, 1)
  }

  // ----- What one fusion does to the chain

  lemma LayerFacts(g: Graph, l: Layer)
    requires g.WellFormed() && LayerMatches(g, l)
    ensures Facts(g, l.shared, l.m) && NoDuplicates(AllNodes(l.shared, l.m))
    ensures MaskFacts(g, l.m.value.qkvMatmul, l.m.mask)
  {
    hide IsFusion, NoDuplicates, ValueFacts, GemmFacts, MaskFacts, UnidirFacts, QueryKeyFacts, PastFacts;
    FusionGivesFacts(g, l.layerNorm, l.hiddenSize, l.shared, l.nanMatches, l.m);
    AllNodesAreDistinct(g, l.shared, l.m);
  }

  lemma OwnAddIsRemoved(g: Graph, l: Layer)
    requires l.m.mask.InputMask?
    ensures l.m.mask.add in NodesToRemove(g, l.shared, l.m)
  {
    assert l.m.mask.add in MaskIndices(g, l.m.mask);
  }

  /** The chain is removed as a whole or not at all. */
  lemma ChainRemovedIff(g: Graph, l: Layer, x: NodeIndex)
    requires g.WellFormed() && LayerMatches(g, l) && l.m.mask.InputMask? && x in l.m.mask.chain.Indices()
    ensures x in NodesToRemove(g, l.shared, l.m) <==> g.CheckOutputEdges(l.m.mask.chain.mul, 1)
  {
    hide LayerMatches, Facts, MaskFacts;
    LayerFacts(g, l);
    var m, c := l.m, l.m.mask.chain;
    var front := m.BaseIndices() + m.unidir.Indices(l.shared) + m.projection.gemm0.Indices(l.shared) + m.PastIndices();
    ChainIsLast(front, m.mask.softmax, m.mask.add, c.Indices(), x);
    assert AllNodes(l.shared, m) == front + ([m.mask.softmax, m.mask.add] + c.Indices());
    assert NodesToRemove(g, l.shared, m) == front + MaskIndices(g, m.mask);
  }

  lemma ChainIsLast(front: seq<NodeIndex>, softmax: NodeIndex, add: NodeIndex, chain: seq<NodeIndex>, x: NodeIndex)
    requires x in chain
    ensures NoDuplicates(front + ([softmax, add] + chain)) ==> x !in front && x != softmax && x != add
  {
    var all := front + ([softmax, add] + chain);
    var j :| 0 <= j < |chain| && chain[j] == x;
    assert all[|front| + 2 + j] == x && all[|front|] == softmax && all[|front| + 1] == add;
    assert forall i :: 0 <= i < |front| ==> all[i] == front[i];
  }

  /** The chain is as it was in `g0`: its nodes are there, and so are the edges inside it. */
  ghost predicate ChainIntact(g0: Graph, g: Graph, c: MaskChain) {
    && (forall x :: x in c.Indices() ==> x in g0.nodes && x in g.nodes && g.nodes[x] == g0.nodes[x])
    && (forall x :: x in c.Indices() && x != c.mul ==> g.OutEdges(x) == g0.OutEdges(x))
    && g.outputs == g0.outputs
  }

  /** Consumers of the nodes above the Mul are in the chain. */
  lemma ChainConsumers(g: Graph, qkv: NodeIndex, m: MaskNodes, e: Edge)
    requires MaskFacts(g, qkv, m) && m.InputMask? && e in g.edges && e.src in m.chain.Indices() && e.src != m.chain.mul
    ensures e.dst in m.chain.Indices()
  {
    assert e in g.OutEdges(e.src);
  }

  lemma ChainNodesAreLive(g: Graph, qkv: NodeIndex, m: MaskNodes)
    requires MaskFacts(g, qkv, m) && m.InputMask?
    ensures forall x :: x in m.chain.Indices() ==> x in g.nodes
    ensures Edge(m.chain.mul, 0, m.add, 1) in g.edges && HasOp(g, m.add, Add)
  {
    hide Feeds;
  }

  /** How fusing one layer acts on nodes and edges that were there before. */
  lemma FusedKeeps(o: Outcome, l: Layer)
    requires o.graph.WellFormed()
    ensures var o', xs := LayerOutcome(o, l), LayerRemoves(o, l);
      && (forall x :: x in o.graph.nodes && x !in xs ==> x in o'.graph.nodes && o'.graph.nodes[x] == o.graph.nodes[x])
      && (forall x :: x in xs ==> x !in o'.graph.nodes)
      && (forall e :: e in o'.graph.edges <==> e in o.graph.edges && e.src !in xs && e.dst !in xs)
      && o'.graph.outputs == o.graph.outputs
      && o'.graph.WellFormed()
  {
    hide NodesToRemove, AttentionNode;
    FusedIsWellFormed(o.graph, o.cache, l.layerNorm, l.shared, l.m);
  }

  // ----- The run

  /** The layers from `k` on are exactly what the Mul feeds. */
  ghost predicate FeedsRest(g: Graph, layers: seq<Layer>, k: nat, c: MaskChain) {
    forall e :: e in g.OutEdges(c.mul) <==> exists i :: k <= i < |layers| && e == AddEdge(c, layers[i])
  }

  /** A later layer's Add is still fed by the Mul. */
  lemma {:induction false} EdgesOnlyShrink(layers: seq<Layer>, states: seq<Outcome>, k: nat, i: nat)
    requires IsRun(layers, states) && k <= i <= |layers|
    ensures states[i].graph.edges <= states[k].graph.edges
    ensures states[k].graph.WellFormed() && states[i].graph.WellFormed()
    decreases i
  {
    hide LayerMatches, LayerOutcome, LayerRemoves;
    if k < i {
      EdgesOnlyShrink(layers, states, k, i - 1);
      var l := layers[i - 1];
      FusedKeeps(states[i - 1], l);
    } else if k > 0 {
      EdgesOnlyShrink(layers, states, k - 1, k - 1);
      var l := layers[k - 1];
      FusedKeeps(states[k - 1], l);
    }
  }

  lemma LaterAddIsFed(layers: seq<Layer>, states: seq<Outcome>, c: MaskChain, k: nat, i: nat)
    requires IsRun(layers, states) && ShareChain(states[0].graph, layers, c) && k <= i < |layers|
    ensures AddEdge(c, layers[i]) in states[k].graph.OutEdges(c.mul)
    ensures HasOp(states[i].graph, layers[i].m.mask.add, Add)
  {
    hide LayerMatches, LayerOutcome, Facts, MaskFacts, NoDuplicates;
    EdgesOnlyShrink(layers, states, k, i);
    var l := layers[i];
    LayerFacts(states[i].graph, l);
    ChainNodesAreLive(states[i].graph, l.m.value.qkvMatmul, l.m.mask);
  }

  /** Different layers have different mask Adds: the earlier one is gone when the later one matches. */
  lemma AddsDiffer(layers: seq<Layer>, states: seq<Outcome>, c: MaskChain, i: nat, j: nat)
    requires IsRun(layers, states) && ShareChain(states[0].graph, layers, c) && i < j < |layers|
    ensures layers[i].m.mask.add != layers[j].m.mask.add
  {
    hide LayerMatches, LayerOutcome;
    LaterAddIsFed(layers, states, c, i + 1, j);
    EdgesOnlyShrink(layers, states, i, i + 1);
    var l := layers[i];
    OwnAddIsRemoved(states[i].graph, l);
    FusedKeeps(states[i], l);
    assert AddEdge(c, layers[j]) in states[i + 1].graph.edges;
  }

  lemma ChainStart(layers: seq<Layer>, states: seq<Outcome>, c: MaskChain)
    requires IsRun(layers, states) && ShareChain(states[0].graph, layers, c) && layers != []
    ensures ChainIntact(states[0].graph, states[0].graph, c) && FeedsRest(states[0].graph, layers, 0, c)
  {
    hide LayerMatches, LayerOutcome, Facts, MaskFacts, NoDuplicates;
    var g, l := states[0].graph, layers[0];
    LayerFacts(g, l);
    ChainNodesAreLive(g, l.m.value.qkvMatmul, l.m.mask);
    forall i | 0 <= i < |layers|
      ensures AddEdge(c, layers[i]) in g.OutEdges(c.mul)
    {
      LaterAddIsFed(layers, states, c, 0, i);
    }
  }

  lemma TwoMembers(s: set<Edge>, e: Edge, f: Edge)
    requires e in s && f in s && e != f
    ensures |s| >= 2
  {
    assert s == (s - {e, f}) + {e, f};
  }

  /** While more than one layer is left, the Mul has more than one out-edge and the chain stays. */
  lemma ChainStays(layers: seq<Layer>, states: seq<Outcome>, c: MaskChain, k: nat)
    requires IsRun(layers, states) && ShareChain(states[0].graph, layers, c) && k + 1 < |layers|
    ensures forall x :: x in c.Indices() ==> x !in LayerRemoves(states[k], layers[k])
  {
    hide LayerMatches, LayerOutcome, NodesToRemove;
    var g, l := states[k].graph, layers[k];
    LaterAddIsFed(layers, states, c, k, k);
    LaterAddIsFed(layers, states, c, k, k + 1);
    AddsDiffer(layers, states, c, k, k + 1);
    EdgesOnlyShrink(layers, states, k, k);
    assert layers[k + 1].m.mask.InputMask?;
    var e, f := AddEdge(c, layers[k]), AddEdge(c, layers[k + 1]);
    TwoMembers(g.OutEdges(c.mul), e, f);
    forall x | x in c.Indices()
      ensures x !in LayerRemoves(states[k], layers[k])
    {
      ChainRemovedIff(g, l, x);
    }
  }

  lemma ChainStep(layers: seq<Layer>, states: seq<Outcome>, c: MaskChain, k: nat)
    requires IsRun(layers, states) && ShareChain(states[0].graph, layers, c) && k + 1 < |layers|
    requires ChainIntact(states[0].graph, states[k].graph, c) && FeedsRest(states[k].graph, layers, k, c)
    ensures ChainIntact(states[0].graph, states[k + 1].graph, c) && FeedsRest(states[k + 1].graph, layers, k + 1, c)
  {
    hide LayerMatches, LayerOutcome, LayerRemoves, Facts, MaskFacts, NoDuplicates;
    var g, g', l := states[k].graph, states[k + 1].graph, layers[k];
    EdgesOnlyShrink(layers, states, k, k);
    ChainStays(layers, states, c, k);
    FusedKeeps(states[k], l);
    LayerFacts(g, l);
    forall x | x in c.Indices() && x != c.mul
      ensures g'.OutEdges(x) == g.OutEdges(x)
    {
      forall e | e in g.OutEdges(x)
        ensures e in g'.OutEdges(x)
      {
        ChainConsumers(g, l.m.value.qkvMatmul, l.m.mask, e);
      }
    }
    RestStep(layers, states, c, k);
  }

  lemma RestStep(layers: seq<Layer>, states: seq<Outcome>, c: MaskChain, k: nat)
    requires IsRun(layers, states) && ShareChain(states[0].graph, layers, c) && k + 1 < |layers|
    requires FeedsRest(states[k].graph, layers, k, c) && states[k].graph.WellFormed()
    ensures FeedsRest(states[k + 1].graph, layers, k + 1, c)
  {
    hide LayerMatches, LayerOutcome, NodesToRemove;
    var g, g', l := states[k].graph, states[k + 1].graph, layers[k];
    FusedKeeps(states[k], l);
    OwnAddIsRemoved(g, l);
    forall i | k + 1 <= i < |layers|
      ensures AddEdge(c, layers[i]) in g'.OutEdges(c.mul)
    {
      LaterAddIsFed(layers, states, c, k + 1, i);
    }
    forall e | e in g'.OutEdges(c.mul)
      ensures exists i :: k + 1 <= i < |layers| && e == AddEdge(c, layers[i])
    {
      assert e in g.OutEdges(c.mul);
      var i :| k <= i < |layers| && e == AddEdge(c, layers[i]);
      assert e.dst !in LayerRemoves(states[k], l);
      assert i != k;
    }
  }

  lemma {:induction false} ChainSurvives(layers: seq<Layer>, states: seq<Outcome>, c: MaskChain, k: nat)
    requires IsRun(layers, states) && ShareChain(states[0].graph, layers, c) && k < |layers|
    ensures ChainIntact(states[0].graph, states[k].graph, c) && FeedsRest(states[k].graph, layers, k, c)
  {
    hide IsRun, ShareChain, ChainIntact, FeedsRest;
    if k == 0 {
      NonEmpty(layers, states, k);
      ChainStart(layers, states, c);
    } else {
      NonEmpty(layers, states, k);
      ChainSurvives(layers, states, c, k - 1);
      ChainStep(layers, states, c, k - 1);
    }
  }

  lemma NonEmpty(layers: seq<Layer>, states: seq<Outcome>, k: nat)
    requires IsRun(layers, states) && k < |layers|
    ensures layers != [] && |states| == |layers| + 1
  {}

  /** With one layer left the Mul has one out-edge. */
  lemma LastCount(layers: seq<Layer>, states: seq<Outcome>, c: MaskChain)
    requires IsRun(layers, states) && ShareChain(states[0].graph, layers, c) && layers != []
    ensures var g0, g := states[0].graph, states[|layers| - 1].graph;
      g.CheckOutputEdges(c.mul, 1) <==> !g0.ProducesGraphOutput(c.mul)
  {
    hide IsRun, LayerMatches;
    var n := |layers| - 1;
    NonEmpty(layers, states, n);
    ChainSurvives(layers, states, c, n);
    var g := states[n].graph;
    assert g.OutEdges(c.mul) == {AddEdge(c, layers[n])};
    assert c.mul in c.Indices();
    assert ChainIntact(states[0].graph, g, c);
    assert g.At(c.mul) == states[0].graph.At(c.mul) && g.outputs == states[0].graph.outputs;
    assert g.ProducesGraphOutput(c.mul) == states[0].graph.ProducesGraphOutput(c.mul);
  }

  /**
    Over any run of fusions that share a mask chain whose Mul feeds only these layers: the chain is
    intact before every fusion, no fusion but the last removes any of it, and the last one removes
    all of it, provided the Mul is not itself an output of the graph (then the chain stays for good).
  */
  lemma ChainIsRemovedWithTheLastLayer(layers: seq<Layer>, states: seq<Outcome>, c: MaskChain)
    requires IsRun(layers, states) && ShareChain(states[0].graph, layers, c) && layers != []
    ensures forall k :: 0 <= k < |layers| ==> ChainIntact(states[0].graph, states[k].graph, c)
    ensures forall k, x :: 0 <= k < |layers| - 1 && x in c.Indices() ==> x !in LayerRemoves(states[k], layers[k])
    ensures var last := |layers| - 1; forall x :: x in c.Indices() ==>
      && (x in LayerRemoves(states[last], layers[last]) <==> !states[0].graph.ProducesGraphOutput(c.mul))
      && (x in states[|layers|].graph.nodes <==> states[0].graph.ProducesGraphOutput(c.mul))
  {
    hide LayerMatches, LayerOutcome, LayerRemoves, ChainIntact, FeedsRest;
    var last := |layers| - 1;
    forall k | 0 <= k < |layers|
      ensures ChainIntact(states[0].graph, states[k].graph, c)
    {
      ChainSurvives(layers, states, c, k);
    }
    forall k, x | 0 <= k < last && x in c.Indices()
      ensures x !in LayerRemoves(states[k], layers[k])
    {
      ChainStays(layers, states, c, k);
    }
    LastStep(layers, states, c);
  }

  lemma LastStep(layers: seq<Layer>, states: seq<Outcome>, c: MaskChain)
    requires IsRun(layers, states) && ShareChain(states[0].graph, layers, c) && layers != []
    ensures var last := |layers| - 1; forall x :: x in c.Indices() ==>
      && (x in LayerRemoves(states[last], layers[last]) <==> !states[0].graph.ProducesGraphOutput(c.mul))
      && (x in states[|layers|].graph.nodes <==> states[0].graph.ProducesGraphOutput(c.mul))
  {
    hide LayerMatches, LayerOutcome, NodesToRemove, FeedsRest;
    var last := |layers| - 1;
    var o, l := states[last], layers[last];
    EdgesOnlyShrink(layers, states, last, last);
    LastCount(layers, states, c);
    ChainSurvives(layers, states, c, last);
    FusedKeeps(o, l);
    forall x | x in c.Indices()
      ensures x in LayerRemoves(o, l) <==> !states[0].graph.ProducesGraphOutput(c.mul)
    {
      ChainRemovedIff(o.graph, l, x);
    }
  }

  // ----- The int32 mask

  /** The Attention node a fusion adds is the newest node, and reads the mask of the outcome. */
  lemma AttentionReadsMask(o: Outcome, l: Layer)
    requires o.graph.WellFormed() && LayerMatches(o.graph, l)
    ensures var o' := LayerOutcome(o, l);
      && o'.graph.nextIndex > 0
      && IsAttentionOver(o'.graph, o'.graph.nextIndex - 1, o'.mask)
  {
    hide LayerMatches, NodesToRemove;
    assert forall x :: x in NodesToRemove(o.graph, l.shared, l.m) ==> x in o.graph.nodes by {
      RemovedAreLive(o.graph, l);
    }
  }

  lemma RemovedAreLive(g: Graph, l: Layer)
    requires g.WellFormed() && LayerMatches(g, l)
    ensures forall x :: x in NodesToRemove(g, l.shared, l.m) ==> x in g.nodes
  {
    hide IsFusion, NodesToRemove, NoDuplicates;
    RemovedExactlyOnce(g, l.layerNorm, l.hiddenSize, l.shared, l.nanMatches, l.m);
  }

  function MaskName(g: Graph, c: MaskChain): Name {
    g.At(c.unsqueeze1).Input(0)
  }

  /** After `k` fusions: the cache knows the mask, and `k` Attention nodes and at most one Cast were added. */
  ghost predicate MaskCached(states: seq<Outcome>, c: MaskChain, k: nat)
    requires k < |states|
  {
    var name, first := MaskName(states[0].graph, c), states[0];
    var casts := if name in first.cache then 0 else 1;
    && (k == 0 || (name in states[k].cache && states[k].mask == states[k].cache[name]))
    && (k > 0 ==> states[k].mask == if name in first.cache then first.cache[name] else Generated(first.graph.nextName))
    && states[k].graph.nextIndex == first.graph.nextIndex + k + (if k == 0 then 0 else casts)
  }

  lemma MaskCachedStep(layers: seq<Layer>, states: seq<Outcome>, c: MaskChain, k: nat)
    requires IsRun(layers, states) && ShareChain(states[0].graph, layers, c) && k < |layers| && MaskCached(states, c, k)
    ensures MaskCached(states, c, k + 1)
  {
    hide LayerMatches, NodesToRemove, AttentionNode, FeedsRest;
    var l := layers[k];
    ChainSurvives(layers, states, c, k);
    assert c.unsqueeze1 in c.Indices();
    assert MaskName(states[k].graph, c) == MaskName(states[0].graph, c);
  }

  lemma {:induction false} MaskStaysCached(layers: seq<Layer>, states: seq<Outcome>, c: MaskChain, k: nat)
    requires IsRun(layers, states) && ShareChain(states[0].graph, layers, c) && k <= |layers|
    ensures MaskCached(states, c, k)
  {
    if k > 0 {
      hide IsRun, ShareChain, MaskCached;
      NonEmpty(layers, states, k - 1);
      MaskStaysCached(layers, states, c, k - 1);
      MaskCachedStep(layers, states, c, k - 1);
    }
  }

  // ----- The added nodes stay

  /** A node without edges is not removed by a fusion. */
  lemma UntouchedStays(o: Outcome, l: Layer, x: NodeIndex)
    requires o.graph.WellFormed() && LayerMatches(o.graph, l) && x in o.graph.nodes && !Touched(o.graph, x)
    ensures var g := LayerOutcome(o, l).graph; x in g.nodes && g.nodes[x] == o.graph.nodes[x]
  {
    hide LayerOutcome, Facts, MaskFacts, NoDuplicates, LayerMatches, Touched;
    LayerFacts(o.graph, l);
    MatchedAreTouched(o.graph, l.shared, l.m);
    RemovalIsPrefix(o.graph, l.shared, l.m);
    FusedKeeps(o, l);
  }

  /** Nodes added during a run have no edges, so they are there at its end. */
  lemma {:induction false} AddedNodeStays(layers: seq<Layer>, states: seq<Outcome>, k: nat, j: nat, x: NodeIndex)
    requires IsRun(layers, states) && k <= j <= |layers|
    requires x in states[k].graph.nodes && x >= states[0].graph.nextIndex
    ensures x in states[j].graph.nodes && states[j].graph.nodes[x] == states[k].graph.nodes[x]
    decreases j
  {
    hide LayerMatches, LayerOutcome;
    if k < j {
      AddedNodeStays(layers, states, k, j - 1, x);
      EdgesOnlyShrink(layers, states, 0, j - 1);
      var l := layers[j - 1];
      UntouchedStays(states[j - 1], l, x);
    }
  }

  /** The Cast that the first fusion adds for a mask it sees for the first time. */
  lemma FirstAddsCast(o: Outcome, l: Layer)
    requires o.graph.WellFormed() && LayerMatches(o.graph, l) && l.m.mask.InputMask?
    requires MaskName(o.graph, l.m.mask.chain) !in o.cache
    ensures var g, cast := LayerOutcome(o, l).graph, o.graph.nextIndex;
      && cast in g.nodes
      && g.nodes[cast] == CastNode(MaskName(o.graph, l.m.mask.chain), Generated(o.graph.nextName))
  {
    hide LayerMatches, NodesToRemove, AttentionNode;
    RemovedAreOld(o, l);
  }

  /** What a fusion removes was there before. */
  lemma RemovedAreOld(o: Outcome, l: Layer)
    requires o.graph.WellFormed() && LayerMatches(o.graph, l)
    ensures forall h: Graph, x :: x in NodesToRemove(h, l.shared, l.m) ==> x < o.graph.nextIndex
  {
    hide LayerMatches, Facts, MaskFacts, NoDuplicates;
    LayerFacts(o.graph, l);
    AllNodesAreLive(o.graph, l.shared, l.m);
    forall h: Graph, x | x in NodesToRemove(h, l.shared, l.m)
      ensures x < o.graph.nextIndex
    {
      RemovalIsPrefix(h, l.shared, l.m);
      PrefixMember(NodesToRemove(h, l.shared, l.m), AllNodes(l.shared, l.m), x);
    }
  }

  lemma PrefixMember(xs: seq<NodeIndex>, ys: seq<NodeIndex>, x: NodeIndex)
    requires xs <= ys && x in xs
    ensures x in ys
  {
    var i :| 0 <= i < |xs| && xs[i] == x;
    assert ys[i] == x;
  }

  predicate IsAttentionOver(g: Graph, x: NodeIndex, mask: Name) {
    x in g.nodes && g.nodes[x].op == Attention && g.nodes[x].Input(3) == mask
  }

  /**
    At the end of such a run all layers are fused into Attention nodes that read the same int32 mask: the
    cached one if the mask was known before, otherwise the output of one Cast of the mask, which is still
    there. Besides that Cast, each fusion adds its Attention node and nothing else.
  */
  lemma LayersShareOneMask(layers: seq<Layer>, states: seq<Outcome>, c: MaskChain)
    requires IsRun(layers, states) && ShareChain(states[0].graph, layers, c) && layers != []
    ensures var name, first, end := MaskName(states[0].graph, c), states[0], states[|layers|].graph;
      var mask32 := if name in first.cache then first.cache[name] else Generated(first.graph.nextName);
      var base := first.graph.nextIndex + if name in first.cache then 0 else 1;
      && end.nextIndex == base + |layers|
      && (forall x :: base <= x < base + |layers| ==> IsAttentionOver(end, x, mask32))
      && (name !in first.cache ==>
            first.graph.nextIndex in end.nodes && end.nodes[first.graph.nextIndex] == CastNode(name, mask32))
  {
    hide LayerMatches, LayerOutcome;
    var name, first, end := MaskName(states[0].graph, c), states[0], states[|layers|].graph;
    var base := first.graph.nextIndex + if name in first.cache then 0 else 1;
    MaskStaysCached(layers, states, c, |layers|);
    forall x | base <= x < base + |layers|
      ensures IsAttentionOver(end, x, states[|layers|].mask)
    {
      var k := x - base;
      MaskStaysCached(layers, states, c, k + 1);
      EdgesOnlyShrink(layers, states, k, k);
      var l := layers[k];
      AttentionReadsMask(states[k], l);
      AddedNodeStays(layers, states, k + 1, |layers|, x);
    }
    if name !in first.cache {
      var l := layers[0];
      FirstAddsCast(first, l);
      AddedNodeStays(layers, states, 1, |layers|, first.graph.nextIndex);
    }
  }
}
