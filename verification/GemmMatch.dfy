/** Matching the subgraph around a Gemm: Reshape, Gemm, Reshape and the computation of their shapes. */
module GemmMatch {
  import opened Wrappers
  import opened GraphModel

  const INT_MAX := 0x7FFF_FFFF

  /** One slice input: a constant scalar, or anything from `INT_MAX` upwards when that is expected. */
  predicate SliceParameter(g: Graph, input: Name, expected: int) {
    if expected >= INT_MAX
    then g.Ints(input).Some? && |g.Ints(input).value| == 1 && g.Ints(input).value[0] >= INT_MAX
    else g.IsInt(input, expected)
  }

  predicate CheckSliceParameters(g: Graph, slice: NodeIndex, indices: seq<nat>, expected: seq<int>)
    requires |indices| == |expected| > 0
  {
    && |g.At(slice).inputs| > indices[|indices| - 1]
    && forall i :: 0 <= i < |indices| ==> SliceParameter(g, g.At(slice).Input(indices[i]), expected[i])
  }

  datatype GatherBranch = GatherBranch(unsqueeze: NodeIndex, gather: NodeIndex, shape: NodeIndex)

  datatype GemmTrunk = GemmTrunk(
    reshapeAfter: NodeIndex, gemm: NodeIndex, reshapeBefore: NodeIndex, concat: NodeIndex, unsqueeze: NodeIndex,
    squeeze: NodeIndex, slice: NodeIndex, shape: NodeIndex, concatAfter: NodeIndex)
  {
    function Path(): seq<NodeIndex> {
      [reshapeAfter, gemm, reshapeBefore, concat, unsqueeze, squeeze, slice, shape]
    }

    function Indices(): seq<NodeIndex> {
      [reshapeAfter, gemm, reshapeBefore, concat, unsqueeze, squeeze, slice, shape, concatAfter]
    }
  }

  datatype GemmNodes = GemmNodes(trunk: GemmTrunk, first: GatherBranch, second: GatherBranch) {
    /** `result.node_indices`, in the order the matcher fills it. */
    function Indices(shared: bool): seq<NodeIndex> {
      BranchIndices(first, shared) + BranchIndices(second, shared) + trunk.Indices()
    }
  }

  function BranchIndices(b: GatherBranch, shared: bool): seq<NodeIndex> {
    if shared then [b.unsqueeze, b.gather] else [b.unsqueeze, b.gather, b.shape]
  }

  function TrunkPattern(dstArg: nat): seq<EdgeToMatch> {
    [EdgeToMatch(0, dstArg, Reshape, {5, 13}),
     EdgeToMatch(0, 0, Gemm, {9, 11, 13}),
     EdgeToMatch(0, 0, Reshape, {5, 13}),
     EdgeToMatch(0, 1, Concat, {4, 11, 13}),
     EdgeToMatch(0, 1, Unsqueeze, {1, 11, 13}),
     EdgeToMatch(0, 0, Squeeze, {1, 11, 13}),
     EdgeToMatch(0, 0, Slice, {1, 10, 11, 13}),
     EdgeToMatch(0, 0, Shape, {1, 13})]
  }

  const CONCAT_AFTER_PATTERN := [EdgeToMatch(0, 1, Concat, {4, 11, 13})]

  function BranchPattern(i: nat): seq<EdgeToMatch> {
    [EdgeToMatch(0, i, Unsqueeze, {1, 11, 13}),
     EdgeToMatch(0, 0, Gather, {1, 11, 13}),
     EdgeToMatch(0, 0, Shape, {1, 13})]
  }

  /** The known length of the bias of a Gemm, when it is a constant vector. */
  function BiasLength(g: Graph, gemm: NodeIndex): Option<int> {
    var bias := g.At(gemm).Input(2);
    if g.IsInitializer(bias) && bias in g.shapes && |g.shapes[bias]| == 1 then g.shapes[bias][0] else None
  }

  /** Out-edge counts along the trunk. */
  predicate TrunkCounts(g: Graph, m: GemmTrunk, shared: bool) {
    && g.CheckOutputEdges(m.shape, if shared then 3 else 1)
    && g.CheckOutputEdges(m.slice, 1)
    && g.CheckOutputEdges(m.squeeze, 1)
    && g.CheckOutputEdges(m.unsqueeze, 1)
    && g.CheckOutputEdges(m.concat, 1)
    && g.CheckOutputEdges(m.reshapeBefore, 1)
    && g.CheckOutputEdges(m.gemm, 1)
    && g.CheckOutputEdges(m.reshapeAfter, 1)
  }

  /** Inputs and constants along the trunk. */
  predicate TrunkValues(g: Graph, m: GemmTrunk) {
    && g.At(m.reshapeBefore).Input(0) == g.At(m.shape).Input(0)
    && |g.At(m.gemm).inputs| == 3
    && BiasLength(g, m.gemm).Some?
    && CheckSliceParameters(g, m.slice, [1, 2, 3], [-1, INT_MAX, 0])
    && g.IsInt(g.At(m.concat).Input(0), -1)
  }

  predicate ConcatAfterChecks(g: Graph, m: GemmTrunk) {
    && |g.At(m.concatAfter).inputs| == 3
    && g.CheckOutputEdges(m.concatAfter, 1)
    && BiasLength(g, m.gemm).Some?
    && g.IsInt(g.At(m.concatAfter).Input(2), BiasLength(g, m.gemm).value)
  }

  predicate IsBranch(g: Graph, concatAfter: NodeIndex, i: nat, trunkShape: NodeIndex, shared: bool, b: GatherBranch) {
    && IsInputPath(g, concatAfter, BranchPattern(i), [b.unsqueeze, b.gather, b.shape])
    && g.CheckOutputEdges(b.unsqueeze, 1)
    && g.CheckOutputEdges(b.gather, 1)
    && (if shared then b.shape == trunkShape else g.CheckOutputEdges(b.shape, 1))
    && g.At(b.shape).Input(0) == g.At(trunkShape).Input(0)
    && g.At(b.unsqueeze).HasAttribute("axes", [0])
    && g.At(b.gather).HasAttribute("axis", [0])
    && g.IsInt(g.At(b.gather).Input(1), i)
  }

  predicate IsTrunk(g: Graph, root: NodeIndex, dstArg: nat, shared: bool, t: GemmTrunk) {
    && IsInputPath(g, root, TrunkPattern(dstArg), t.Path())
    && TrunkValues(g, t)
    && TrunkCounts(g, t, shared)
    && IsInputPath(g, t.reshapeAfter, CONCAT_AFTER_PATTERN, [t.concatAfter])
    && ConcatAfterChecks(g, t)
  }

  predicate AreBranches(g: Graph, t: GemmTrunk, shared: bool, first: GatherBranch, second: GatherBranch) {
    && IsBranch(g, t.concatAfter, 0, t.shape, shared, first)
    && IsBranch(g, t.concatAfter, 1, t.shape, shared, second)
  }

  /** The nodes of `m` form the pattern in front of input `dstArg` of `root`. */
  predicate IsGemmMatch(g: Graph, root: NodeIndex, dstArg: nat, shared: bool, m: GemmNodes) {
    && IsTrunk(g, root, dstArg, shared, m.trunk)
    && AreBranches(g, m.trunk, shared, m.first, m.second)
  }

  /** One round of the loop over the two Gather branches. */
  method MatchBranch(g: Graph, concatAfter: NodeIndex, i: nat, trunkShape: NodeIndex, shared: bool)
    returns (branch: Option<GatherBranch>)
    requires g.WellFormed()
    ensures branch.Some? ==> IsBranch(g, concatAfter, i, trunkShape, shared, branch.value)
    ensures forall b | IsBranch(g, concatAfter, i, trunkShape, shared, b) :: branch == Some(b)
  {
    var path := FindPath(g, concatAfter, BranchPattern(i));
    if path.None? { return None; }
    var p := path.value;
    assert p == [p[0], p[1], p[2]];
    var b := GatherBranch(p[0], p[1], p[2]);
    assert forall b' | IsBranch(g, concatAfter, i, trunkShape, shared, b') :: b' == b by {
      forall b' | IsBranch(g, concatAfter, i, trunkShape, shared, b')
        ensures b' == b
      {
        assert path == Some([b'.unsqueeze, b'.gather, b'.shape]);
        assert p[0] == b'.unsqueeze && p[1] == b'.gather && p[2] == b'.shape;
      }
    }
    if !g.CheckOutputEdges(b.unsqueeze, 1) || !g.CheckOutputEdges(b.gather, 1)
       || (!g.CheckOutputEdges(b.shape, 1) && !shared) {
      return None;
    }
    if shared && b.shape != trunkShape { return None; }
    if g.At(b.shape).Input(0) != g.At(trunkShape).Input(0) { return None; }
    if !g.At(b.unsqueeze).HasAttribute("axes", [0]) { return None; }
    if !g.At(b.gather).HasAttribute("axis", [0]) { return None; }
    if !g.IsInt(g.At(b.gather).Input(1), i) { return None; }
    return Some(b);
  }

  /** The part of the matcher in front of its loop. */
  method MatchTrunk(g: Graph, root: NodeIndex, dstArg: nat, shared: bool) returns (trunk: Option<GemmTrunk>)
    requires g.WellFormed()
    ensures trunk.Some? ==> IsTrunk(g, root, dstArg, shared, trunk.value)
    ensures forall t | IsTrunk(g, root, dstArg, shared, t) :: trunk == Some(t)
  {
    var path := FindPath(g, root, TrunkPattern(dstArg));
    if path.None? { return None; }
    var p := path.value;
    var t := GemmTrunk(p[0], p[1], p[2], p[3], p[4], p[5], p[6], p[7], 0);
    assert t.Path() == p;
    forall t' | IsTrunk(g, root, dstArg, shared, t')
      ensures t' == t.(concatAfter := t'.concatAfter)
    {
      SamePath(t, t');
    }
    if !TrunkValues(g, t) || !TrunkCounts(g, t, shared) { return None; }
    path := FindPath(g, t.reshapeAfter, CONCAT_AFTER_PATTERN);
    if path.None? { return None; }
    t := t.(concatAfter := path.value[0]);
    assert path.value == [t.concatAfter];
    forall t' | IsTrunk(g, root, dstArg, shared, t')
      ensures t' == t
    {
      assert path == Some([t'.concatAfter]);
      assert [t'.concatAfter][0] == t'.concatAfter;
    }
    if !ConcatAfterChecks(g, t) { return None; }
    return Some(t);
  }

  lemma SamePath(t: GemmTrunk, t': GemmTrunk)
    requires t.Path() == t'.Path()
    ensures t' == t.(concatAfter := t'.concatAfter)
  {
    assert forall k :: 0 <= k < 8 ==> t.Path()[k] == t'.Path()[k];
    assert t.Path()[0] == t.reshapeAfter && t.Path()[1] == t.gemm && t.Path()[2] == t.reshapeBefore;
    assert t.Path()[3] == t.concat && t.Path()[4] == t.unsqueeze && t.Path()[5] == t.squeeze;
    assert t.Path()[6] == t.slice && t.Path()[7] == t.shape;
  }

  /** The loop of the matcher, round by round; it fills the first node indices. */
  method MatchBranches(g: Graph, t: GemmTrunk, shared: bool)
    returns (branches: Option<(GatherBranch, GatherBranch)>, nodeIndices: seq<NodeIndex>)
    requires g.WellFormed()
    ensures branches.Some? ==> AreBranches(g, t, shared, branches.value.0, branches.value.1)
    ensures branches.Some? ==>
      nodeIndices == BranchIndices(branches.value.0, shared) + BranchIndices(branches.value.1, shared)
    ensures forall b, c | AreBranches(g, t, shared, b, c) :: branches == Some((b, c))
  {
    nodeIndices := [];
    var first := MatchBranch(g, t.concatAfter, 0, t.shape, shared);
    if first.None? { return None, []; }
    nodeIndices := nodeIndices + BranchIndices(first.value, shared);
    var second := MatchBranch(g, t.concatAfter, 1, t.shape, shared);
    if second.None? { return None, []; }
    nodeIndices := nodeIndices + BranchIndices(second.value, shared);
    return Some((first.value, second.value)), nodeIndices;
  }

  /** The match in front of an input of `root`, when the pattern is there; it is the only one. */
  method MatchGemmSubgraph(g: Graph, root: NodeIndex, dstArg: nat, shared: bool)
    returns (result: Option<GemmNodes>, nodeIndices: seq<NodeIndex>)
    requires g.WellFormed()
    ensures result.Some? ==> IsGemmMatch(g, root, dstArg, shared, result.value)
    ensures result.Some? ==> nodeIndices == result.value.Indices(shared)
    ensures forall m | IsGemmMatch(g, root, dstArg, shared, m) :: result == Some(m)
  {
    nodeIndices := [];
    var trunk := MatchTrunk(g, root, dstArg, shared);
    if trunk.None? { return None, []; }
    var branches, indices := MatchBranches(g, trunk.value, shared);
    if branches.None? { return None, []; }
    nodeIndices := indices + trunk.value.Indices();
    return Some(GemmNodes(trunk.value, branches.value.0, branches.value.1)), nodeIndices;
  }
}
