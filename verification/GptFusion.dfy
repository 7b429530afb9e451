/** Performing a fusion: the changes to the graph and to the cache of int32 masks. */
module GptFusion {
  import opened Wrappers
  import opened GraphModel
  import opened GraphFacts
  import opened UnidirMatch
  import opened MaskMatch
  import opened FusionMatch
  import opened FusionRemoval
  import opened FusionClosure

  // ----- What a fusion leaves behind

  /** Graph, cache and the mask argument of the new Attention node. */
  datatype Outcome = Outcome(graph: Graph, cache: map<Name, Name>, mask: Name)

  const INT32_TYPE := 6

  function CastNode(input: Name, output: Name): Node {
    Node(Cast, 0, OnnxDomain, [input], [output], map["to" := [INT32_TYPE]])
  }

  /** The int32 version of a mask: the cached one, or that of a new Cast node. */
  function MaskInt32(g: Graph, mask: Name, cache: map<Name, Name>): Outcome {
    if mask in cache then Outcome(g, cache, cache[mask])
    else
      var cast := Generated(g.nextName);
      Outcome(g.(nextName := g.nextName + 1).WithNode(CastNode(mask, cast)), cache[mask := cast], cast)
  }

  /** The mask argument of the fused node; the empty name stands for a missing optional input. */
  function WithMask(g: Graph, m: MaskNodes, cache: map<Name, Name>): Outcome {
    if m.InputMask? then MaskInt32(g, g.At(m.chain.unsqueeze1).Input(0), cache) else Outcome(g, cache, Given(""))
  }

  function AttentionNode(g: Graph, layerNorm: NodeIndex, m: Fusion, mask: Name): Node {
    var gemm := g.At(m.projection.gemm0.trunk.gemm);
    var inputs := [g.At(layerNorm).Output(0), gemm.Input(1), gemm.Input(2), mask];
    var outputs := [g.At(m.value.reshape).Output(0)];
    Node(Attention, 0, MsDomain,
         inputs + (if m.past.Some? then [g.At(m.past.value.pastVGather).Input(0)] else []),
         outputs + (if m.past.Some? then [g.At(m.past.value.presentConcat).Output(0)] else []),
         map["num_heads" := [m.projection.numHeads], "unidirectional" := [if m.unidir.unidirectional then 1 else 0]])
  }

  function Elements(xs: seq<NodeIndex>): set<NodeIndex> {
    set x | x in xs
  }

  /** The result of fusing the match `m`. */
  function Fused(g: Graph, cache: map<Name, Name>, layerNorm: NodeIndex, shared: bool, m: Fusion): Outcome {
    var o := WithMask(g, m.mask, cache);
    var added := o.graph.WithNode(AttentionNode(g, layerNorm, m, o.mask));
    Outcome(added.Without(Elements(NodesToRemove(g, shared, m))), o.cache, o.mask)
  }

  // ----- The objects the original updates

  class MaskCache {
    var entries: map<Name, Name>

    constructor ()
      ensures entries == map[]
    {
      entries := map[];
    }
  }

  class OnnxGraph {
    var data: Graph

    constructor (data: Graph)
      ensures this.data == data
    {
      this.data := data;
    }

    method GenerateNodeArgName() returns (name: Name)
      modifies this
      ensures name == Generated(old(data.nextName))
      ensures data == old(data).(nextName := old(data.nextName) + 1)
    {
      name := Generated(data.nextName);
      data := data.(nextName := data.nextName + 1);
    }

    method AddNode(node: Node) returns (x: NodeIndex)
      modifies this
      ensures x == old(data.nextIndex) && data == old(data).WithNode(node)
    {
      x := data.nextIndex;
      data := data.WithNode(node);
    }

    method RemoveNodeOutputEdges(x: NodeIndex)
      modifies this
      ensures data == old(data).(edges := set e | e in old(data.edges) && e.src != x)
    {
      data := data.(edges := set e | e in data.edges && e.src != x);
    }

    /** The node must be there and must have no out-edges left. Its in-edges go with it. */
    method RemoveNode(x: NodeIndex)
      requires x in data.nodes && data.OutEdges(x) == {}
      modifies this
      ensures data == old(data).(nodes := map y | y in old(data.nodes) && y != x :: old(data.nodes)[y],
                                 edges := set e | e in old(data.edges) && e.dst != x)
    {
      data := data.(nodes := map y | y in data.nodes && y != x :: data.nodes[y],
                    edges := set e | e in data.edges && e.dst != x);
    }

    /** The removal loop. A node named twice would fail the lookup; a list without duplicates cannot. */
    method RemoveNodes(xs: seq<NodeIndex>)
      requires NoDuplicates(xs) && forall x :: x in xs ==> x in data.nodes
      modifies this
      ensures data == old(data).Without(Elements(xs))
    {
      ghost var before := data;
      for k := 0 to |xs|
        invariant data == before.Without(Elements(xs[..k]))
      {
        var x := xs[k];
        assert x !in xs[..k];
        assert Elements(xs[..k + 1]) == Elements(xs[..k]) + {x};
        RemoveNodeOutputEdges(x);
        assert data.OutEdges(x) == {};
        RemoveNode(x);
        assert data == before.Without(Elements(xs[..k]) + {x});
      }
      assert xs[..|xs|] == xs;
    }
  }

  method GetOrCreateMaskInt32(graph: OnnxGraph, mask: Name, cache: MaskCache) returns (mask32: Name)
    modifies graph, cache
    ensures Outcome(graph.data, cache.entries, mask32) == MaskInt32(old(graph.data), mask, old(cache.entries))
  {
    if mask in cache.entries {
      return cache.entries[mask];
    }
    mask32 := graph.GenerateNodeArgName();
    var x := graph.AddNode(CastNode(mask, mask32));
    cache.entries := cache.entries[mask := mask32];
  }

  lemma AddedNodesKeepCounts(g: Graph, shared: bool, m: Fusion, node: Node, names: nat)
    requires g.WellFormed() && forall x :: x in NodesToRemove(g, shared, m) ==> x in g.nodes
    requires m.mask.InputMask? ==> m.mask.chain.mul in g.nodes
    ensures var g' := g.(nextName := names).WithNode(node);
      && g'.WellFormed() && NodesToRemove(g', shared, m) == NodesToRemove(g, shared, m)
      && forall x :: x in g.nodes ==> x in g'.nodes && g'.nodes[x] == g.nodes[x]
  {
    var g' := g.(nextName := names).WithNode(node);
    if m.mask.InputMask? {
      var mul := m.mask.chain.mul;
      assert g'.At(mul) == g.At(mul) && g'.OutEdges(mul) == g.OutEdges(mul);
      assert g'.CheckOutputEdges(mul, 1) == g.CheckOutputEdges(mul, 1);
    }
  }

  lemma MulIsLive(g: Graph, layerNorm: NodeIndex, hiddenSize: int, shared: bool, nanMatches: bool, m: Fusion)
    requires g.WellFormed() && IsFusion(g, layerNorm, hiddenSize, shared, nanMatches, m) && m.mask.InputMask?
    ensures m.mask.chain.mul in g.nodes
  {
    hide IsFront, IsKeyed, IsUnidirMatch, ChainValues, ChainCounts, IsChainTop;
    ChainHasMul(g, m.mask.softmax, m.mask.add, m.mask.chain);
  }

  lemma ChainHasMul(g: Graph, softmax: NodeIndex, add: NodeIndex, c: MaskChain)
    requires g.WellFormed() && IsChain(g, softmax, add, c)
    ensures c.mul in g.nodes
  {
    hide ChainValues, ChainCounts, IsChainTop;
    assert Link(g, c.mul, add, CHAIN_PATTERN[1]);
  }

  lemma FusedIsWellFormed(g: Graph, cache: map<Name, Name>, layerNorm: NodeIndex, shared: bool, m: Fusion)
    requires g.WellFormed()
    ensures Fused(g, cache, layerNorm, shared, m).graph.WellFormed()
  {
    hide NodesToRemove, AttentionNode;
  }

  /**
    The fusion. It happens exactly when the pattern is there; otherwise nothing changes. A fusion
    adds the Attention node (and a Cast of a mask seen for the first time) and removes the listed
    nodes with their edges.
  */
  method FuseGptAttention(graph: OnnxGraph, layerNorm: NodeIndex, hiddenSize: int, cache: MaskCache, shared: bool,
                          nanMatches: bool)
    returns (fused: Option<Fusion>)
    requires graph.data.WellFormed()
    modifies graph, cache
    ensures graph.data.WellFormed()
    ensures forall m :: IsFusion(old(graph.data), layerNorm, hiddenSize, shared, nanMatches, m) <==> fused == Some(m)
    ensures fused.None? ==> graph.data == old(graph.data) && cache.entries == old(cache.entries)
    ensures fused.Some? ==>
      var o := Fused(old(graph.data), old(cache.entries), layerNorm, shared, fused.value);
      graph.data == o.graph && cache.entries == o.cache
  {
    hide IsFusion, AttentionNode, NodesToRemove, NoDuplicates;
    fused := MatchFusion(graph.data, layerNorm, hiddenSize, shared, nanMatches);
    if fused.None? { return; }
    var m := fused.value;
    ghost var before := graph.data;
    RemovedExactlyOnce(before, layerNorm, hiddenSize, shared, nanMatches, m);
    if m.mask.InputMask? {
      MulIsLive(before, layerNorm, hiddenSize, shared, nanMatches, m);
    }
    FusedIsWellFormed(before, cache.entries, layerNorm, shared, m);
    ghost var entries := cache.entries;
    var mask := Given("");
    var attention := AttentionNode(graph.data, layerNorm, m, mask);
    if m.mask.InputMask? {
      AddedNodesKeepCounts(before, shared, m,
        CastNode(graph.data.At(m.mask.chain.unsqueeze1).Input(0), Generated(before.nextName)),
                           before.nextName + 1);
      var input := graph.data;
      mask := GetOrCreateMaskInt32(graph, graph.data.At(m.mask.chain.unsqueeze1).Input(0), cache);
      attention := AttentionNode(input, layerNorm, m, mask);
    }
    ghost var withMask := graph.data;
    AddedNodesKeepCounts(withMask, shared, m, attention, withMask.nextName);
    var _ := graph.AddNode(attention);
    graph.RemoveNodes(NodesToRemove(graph.data, shared, m));
  }
}
