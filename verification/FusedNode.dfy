/** What a fusion leaves in the graph: what the new node reads and writes, and everything else as it was. */
module FusedNode {
  import opened Wrappers
  import opened GraphModel
  import opened GraphFacts
  import opened GemmMatch
  import opened UnidirMatch
  import opened MaskMatch
  import opened PathChecks
  import opened FusionMatch
  import opened FusionDivisor
  import opened FusionRemoval
  import opened FusionClosure
  import opened GptFusion

  /** The node a fusion adds last. */
  function NewestNode(g: Graph): Node {
    if g.nextIndex > 0 then g.At(g.nextIndex - 1) else NO_NODE
  }

  lemma NewestIsAttention(g: Graph, cache: map<Name, Name>, layerNorm: NodeIndex, shared: bool, m: Fusion)
    requires g.WellFormed() && forall x :: x in NodesToRemove(g, shared, m) ==> x in g.nodes
    ensures var o := Fused(g, cache, layerNorm, shared, m);
      o.graph.nextIndex - 1 in o.graph.nodes
      && NewestNode(o.graph) == AttentionNode(g, layerNorm, m, o.mask)
  {
    hide AttentionNode, NodesToRemove;
  }

  /** Weights and bias of the projection, by their shapes, and the normalized input. */
  lemma FusedNodeReadsProjection(g: Graph, cache: map<Name, Name>, layerNorm: NodeIndex, hiddenSize: int,
                                 shared: bool, nanMatches: bool, m: Fusion)
    requires g.WellFormed() && IsFusion(g, layerNorm, hiddenSize, shared, nanMatches, m)
    ensures var n := NewestNode(Fused(g, cache, layerNorm, shared, m).graph);
      && n.op == Attention && n.domain == MsDomain
      && n.Input(0) == g.At(layerNorm).Output(0)
      && n.Output(0) == g.At(m.value.reshape).Output(0)
      && g.IsInitializer(n.Input(1)) && g.IsInitializer(n.Input(2))
      && n.Input(1) in g.shapes && g.shapes[n.Input(1)] == [Some(hiddenSize), Some(3 * hiddenSize)]
      && n.Input(2) in g.shapes && g.shapes[n.Input(2)] == [Some(3 * hiddenSize)]
  {
    hide IsFusion, NodesToRemove, NoDuplicates;
    FusionNeedsNan(g, layerNorm, hiddenSize, shared, nanMatches, m);
    RemovedExactlyOnce(g, layerNorm, hiddenSize, shared, nanMatches, m);
    NewestIsAttention(g, cache, layerNorm, shared, m);
    ProjectionIsChecked(g, layerNorm, hiddenSize, shared, nanMatches, m);
  }

  lemma ProjectionIsChecked(g: Graph, layerNorm: NodeIndex, hiddenSize: int, shared: bool, nanMatches: bool, m: Fusion)
    requires IsFusion(g, layerNorm, hiddenSize, shared, nanMatches, m)
    ensures ValidateGemmInitializer(g, m.projection.gemm0.trunk.gemm, hiddenSize, true)
  {
    hide IsBack, IsFrame, IsValuePath, IsGemmMatch, IsPathV, ValidateGemmInitializer;
  }

  /** `num_heads` is the head count of all three constant shapes; `unidirectional` tells the kind of the mask. */
  lemma FusedNodeAttributes(g: Graph, cache: map<Name, Name>, layerNorm: NodeIndex, hiddenSize: int,
                            shared: bool, nanMatches: bool, m: Fusion)
    requires g.WellFormed() && IsFusion(g, layerNorm, hiddenSize, shared, nanMatches, m)
    ensures var n := NewestNode(Fused(g, cache, layerNorm, shared, m).graph);
      var mask := g.At(m.unidir.trunk.maskSlice).Input(0);
      && n.attributes.Keys == {"num_heads", "unidirectional"}
      && (forall x :: x in [m.value.vReshape, m.queryKey.qReshape, m.queryKey.kReshape] ==>
            g.Ints(g.At(x).Input(1)).Some? && |g.Ints(g.At(x).Input(1)).value| == 4
            && n.attributes["num_heads"] == [g.Ints(g.At(x).Input(1)).value[2]])
      && IsMask(g, mask, n.attributes["unidirectional"] == [1])
      && (n.attributes["unidirectional"] == [1] || n.attributes["unidirectional"] == [0])
  {
    hide IsFusion, NodesToRemove, NoDuplicates;
    RemovedExactlyOnce(g, layerNorm, hiddenSize, shared, nanMatches, m);
    NewestIsAttention(g, cache, layerNorm, shared, m);
    HeadsAreShared(g, layerNorm, hiddenSize, shared, nanMatches, m);
    MaskIsChecked(g, layerNorm, hiddenSize, shared, nanMatches, m);
  }

  lemma HeadsAreShared(g: Graph, layerNorm: NodeIndex, hiddenSize: int, shared: bool, nanMatches: bool, m: Fusion)
    requires IsFusion(g, layerNorm, hiddenSize, shared, nanMatches, m)
    ensures forall x :: x in [m.value.vReshape, m.queryKey.qReshape, m.queryKey.kReshape] ==>
      g.Ints(g.At(x).Input(1)).Some? && |g.Ints(g.At(x).Input(1)).value| == 4
      && g.Ints(g.At(x).Input(1)).value[2] == m.projection.numHeads
  {
    hide IsFrame, IsValuePath, IsGemmMatch, IsMasked, IsPastMatch, IsInputPath, PathVNodes, IsOutputShape, IsScale,
      ValidateGemmInitializer;
  }

  lemma MaskIsChecked(g: Graph, layerNorm: NodeIndex, hiddenSize: int, shared: bool, nanMatches: bool, m: Fusion)
    requires IsFusion(g, layerNorm, hiddenSize, shared, nanMatches, m)
    ensures IsMask(g, g.At(m.unidir.trunk.maskSlice).Input(0), m.unidir.unidirectional)
  {
    hide IsFront, IsKeyed, IsMaskMatch, IsMask, IsInputPath, UnidirCounts, IsSliceEnd, IsPastLength;
  }

  /** The optional inputs and outputs: the int32 mask, the past both Gathers read, and the present. */
  lemma FusedNodeReadsMaskAndPast(g: Graph, cache: map<Name, Name>, layerNorm: NodeIndex, hiddenSize: int,
                                  shared: bool, nanMatches: bool, m: Fusion)
    requires g.WellFormed() && IsFusion(g, layerNorm, hiddenSize, shared, nanMatches, m)
    ensures var n := NewestNode(Fused(g, cache, layerNorm, shared, m).graph);
      && |n.inputs| == (if m.past.Some? then 5 else 4) && |n.outputs| == (if m.past.Some? then 2 else 1)
      && (m.past.Some? ==>
            && n.Input(4) == g.At(m.past.value.pastKGather).Input(0)
            && n.Input(4) == g.At(m.past.value.pastVGather).Input(0)
            && n.Output(1) == g.At(m.past.value.presentConcat).Output(0))
      && (m.mask.NoInputMask? ==> n.Input(3) == Given(""))
    ensures m.mask.InputMask? ==>
      var o := Fused(g, cache, layerNorm, shared, m).graph;
      var mask := g.At(m.mask.chain.unsqueeze1).Input(0);
      if mask in cache then NewestNode(o).Input(3) == cache[mask] && o.nextIndex == g.nextIndex + 1
      else
        && o.nextIndex == g.nextIndex + 2 && g.nextIndex in o.nodes
        && var cast := o.nodes[g.nextIndex];
        && cast.op == Cast && cast.domain == OnnxDomain && cast.attributes == map["to" := [6]]
        && cast.inputs == [mask] && cast.outputs == [NewestNode(o).Input(3)]
  {
    hide IsFusion, NodesToRemove, NoDuplicates;
    RemovedExactlyOnce(g, layerNorm, hiddenSize, shared, nanMatches, m);
    NewestIsAttention(g, cache, layerNorm, shared, m);
    if m.past.Some? {
      PastIsShared(g, layerNorm, hiddenSize, shared, nanMatches, m);
    }
  }

  lemma PastIsShared(g: Graph, layerNorm: NodeIndex, hiddenSize: int, shared: bool, nanMatches: bool, m: Fusion)
    requires IsFusion(g, layerNorm, hiddenSize, shared, nanMatches, m) && m.past.Some?
    ensures g.At(m.past.value.pastVGather).Input(0) == g.At(m.past.value.pastKGather).Input(0)
  {
    hide IsFront, IsMasked, IsQueryKey, IsInputPath, IsOutputPath, PastCounts;
  }

  /** Every other node is there, as it was, exactly if it is not listed; edges stay between nodes that do. */
  lemma FusedGraphKeepsTheRest(g: Graph, cache: map<Name, Name>, layerNorm: NodeIndex, hiddenSize: int,
                               shared: bool, nanMatches: bool, m: Fusion)
    requires g.WellFormed() && IsFusion(g, layerNorm, hiddenSize, shared, nanMatches, m)
    ensures var o, listed := Fused(g, cache, layerNorm, shared, m).graph, NodesToRemove(g, shared, m);
      && (forall x :: x < g.nextIndex ==> (x in o.nodes <==> x in g.nodes && x !in listed))
      && (forall x :: x < g.nextIndex && x in o.nodes ==> o.nodes[x] == g.nodes[x])
      && (forall e :: e in o.edges <==> e in g.edges && e.src !in listed && e.dst !in listed)
      && o.outputs == g.outputs && o.initializers == g.initializers && o.shapes == g.shapes
  {
    hide IsFusion, NodesToRemove, AttentionNode, NoDuplicates;
    RemovedExactlyOnce(g, layerNorm, hiddenSize, shared, nanMatches, m);
  }

  /** The cache gains the mask the new node reads, when it was not known, and nothing else. */
  lemma FusedCache(g: Graph, cache: map<Name, Name>, layerNorm: NodeIndex, hiddenSize: int,
                   shared: bool, nanMatches: bool, m: Fusion)
    requires g.WellFormed() && IsFusion(g, layerNorm, hiddenSize, shared, nanMatches, m)
    ensures var o := Fused(g, cache, layerNorm, shared, m);
      o.cache == if m.mask.InputMask? && g.At(m.mask.chain.unsqueeze1).Input(0) !in cache
                 then cache[g.At(m.mask.chain.unsqueeze1).Input(0) := NewestNode(o.graph).Input(3)] else cache
  {
    hide IsFusion, NodesToRemove, NoDuplicates;
    RemovedExactlyOnce(g, layerNorm, hiddenSize, shared, nanMatches, m);
    NewestIsAttention(g, cache, layerNorm, shared, m);
  }

  /** How many nodes go: twelve, the causal mask, the projection, the past, and the mask with or without its chain. */
  lemma RemovalSize(g: Graph, shared: bool, m: Fusion)
    ensures |NodesToRemove(g, shared, m)| == 12 + (if shared then 12 + 13 else 14 + 15)
      + (if m.past.Some? then 9 else 0)
      + match m.mask
        case NoInputMask(_) => 1
        case InputMask(_, _, chain) =>
          2 + if !g.CheckOutputEdges(chain.mul, 1) then 0 else if chain.cast.Some? then 5 else 4
  {}
}
