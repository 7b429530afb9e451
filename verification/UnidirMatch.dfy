/** Matching the subgraph that builds and applies the causal mask. */
module UnidirMatch {
  import opened Wrappers
  import Grid
  import opened GraphModel
  import opened GemmMatch

  // ----- The mask itself

  /** Row-major position of a cell of a square. */
  function CellIndex(w: int, i: int, j: int): (k: nat)
    requires 0 <= i < w && 0 <= j < w
    ensures k < w * w
  {
    Grid.RowMajorInBounds(i, j, w, w);
    Grid.RowMajor(i, j, w)
  }

  /** The lower triangle holds ones and the rest zeros. */
  ghost predicate LowerTriangular<T>(data: seq<T>, w: int, one: T, zero: T)
    requires |data| == w * w
  {
    forall i, j :: 0 <= i < w && 0 <= j < w ==> data[CellIndex(w, i, j)] == if i >= j then one else zero
  }

  ghost predicate AllOnes<T>(data: seq<T>, w: int, one: T)
    requires |data| == w * w
  {
    forall i, j :: 0 <= i < w && 0 <= j < w ==> data[CellIndex(w, i, j)] == one
  }

  /** Cell `(i, j)` comes before cell `(r, c)` in row-major order. */
  predicate Earlier(i: int, j: int, r: int, c: int) {
    i < r || (i == r && j < c)
  }

  /** True when a w x w mask is lower triangular or all ones; tells which. */
  method ValidateMaskData<T(==)>(data: seq<T>, w: int, one: T, zero: T) returns (ok: bool, unidirectional: bool)
    ensures ok <==> |data| == w * w && (LowerTriangular(data, w, one, zero) || AllOnes(data, w, one))
    ensures |data| == w * w ==> (unidirectional <==> LowerTriangular(data, w, one, zero))
  {
    unidirectional := false;
    if |data| == w * w {
      var isOne := true;
      unidirectional := true;
      var p := 0;
      var i := 0;
      while i < w
        invariant 0 <= i && (i <= w || w < 0) && p == i * w
        invariant isOne <==> forall r, c :: 0 <= r < w && 0 <= c < w && Earlier(r, c, i, 0) ==>
          data[CellIndex(w, r, c)] == one
        invariant unidirectional <==> forall r, c :: 0 <= r < w && 0 <= c < w && Earlier(r, c, i, 0) ==>
          data[CellIndex(w, r, c)] == if r >= c then one else zero
      {
        var j := 0;
        while j < w
          invariant 0 <= j <= w && p == i * w + j
          invariant isOne <==> forall r, c :: 0 <= r < w && 0 <= c < w && Earlier(r, c, i, j) ==>
            data[CellIndex(w, r, c)] == one
          invariant unidirectional <==> forall r, c :: 0 <= r < w && 0 <= c < w && Earlier(r, c, i, j) ==>
            data[CellIndex(w, r, c)] == if r >= c then one else zero
        {
          assert p == CellIndex(w, i, j);
          if data[p] != one {
            isOne := false;
          }
          if data[p] != (if i >= j then one else zero) {
            unidirectional := false;
          }
          p := p + 1;
          j := j + 1;
        }
        assert p == (i + 1) * w;
        i := i + 1;
      }
      if unidirectional || isOne {
        return true, unidirectional;
      }
    }
    return false, unidirectional;
  }

  /** The known shape 1 x 1 x W x W of an argument gives W. */
  function MaskWidth(g: Graph, mask: Name): Option<int> {
    if mask in g.shapes && |g.shapes[mask]| == 4
       && g.shapes[mask][0] == Some(1) && g.shapes[mask][1] == Some(1)
       && g.shapes[mask][2].Some? && g.shapes[mask][2] == g.shapes[mask][3]
    then g.shapes[mask][2] else None
  }

  /** A constant mask the fusion can express, and whether it is causal. */
  ghost predicate IsMask(g: Graph, mask: Name, unidirectional: bool) {
    && g.IsInitializer(mask) && MaskWidth(g, mask).Some? && !g.initializers[mask].external
    && var w := MaskWidth(g, mask).value;
    match g.initializers[mask].data
    case Uint8s(xs) =>
      && |xs| == w * w && (LowerTriangular(xs, w, 1, 0) || AllOnes(xs, w, 1))
      && (unidirectional <==> LowerTriangular(xs, w, 1, 0))
    case Floats(xs) =>
      && |xs| == w * w && (LowerTriangular(xs, w, 1.0, 0.0) || AllOnes(xs, w, 1.0))
      && (unidirectional <==> LowerTriangular(xs, w, 1.0, 0.0))
    case _ => false
  }

  method ValidateUnidirMask(g: Graph, mask: Name) returns (unidirectional: Option<bool>)
    ensures forall u :: unidirectional == Some(u) <==> IsMask(g, mask, u)
  {
    if !g.IsInitializer(mask) { return None; }
    var w := MaskWidth(g, mask);
    if w.None? { return None; }
    if g.initializers[mask].external { return None; }
    var ok, u;
    match g.initializers[mask].data {
      case Uint8s(xs) => ok, u := ValidateMaskData(xs, w.value, 1, 0);
      case Floats(xs) => ok, u := ValidateMaskData(xs, w.value, 1.0, 0.0);
      case _ => return None;
    }
    if !ok { return None; }
    return Some(u);
  }

  // ----- The subgraph

  datatype UnidirTrunk = UnidirTrunk(
    whereNode: NodeIndex, div: NodeIndex, cast: NodeIndex, lastSlice: NodeIndex, maskSlice: NodeIndex,
    unsqueeze1: NodeIndex, sub: NodeIndex, squeeze1: NodeIndex, slice1: NodeIndex, shape1: NodeIndex)
  {
    function Path(): seq<NodeIndex> {
      [cast, lastSlice, maskSlice, unsqueeze1, sub, squeeze1, slice1, shape1]
    }
  }

  /** Where the length of the past is computed. */
  datatype PastLength = PastLength(squeeze2: NodeIndex, slice2: NodeIndex, shape2: NodeIndex)

  datatype UnidirNodes = UnidirNodes(trunk: UnidirTrunk, unsqueeze2: NodeIndex, unsqueeze3: NodeIndex,
                                     length: PastLength, unidirectional: bool)
  {
    /** `result.node_indices`; the Div node is not part of it. */
    function Indices(shared: bool): seq<NodeIndex> {
      [trunk.whereNode, trunk.cast, trunk.lastSlice, trunk.maskSlice, trunk.unsqueeze1, trunk.sub, trunk.squeeze1,
       trunk.slice1, trunk.shape1, unsqueeze2, length.squeeze2, length.slice2]
      + if shared then [] else [unsqueeze3, length.shape2]
    }
  }

  const ROOT_PATTERN := [EdgeToMatch(0, 0, Where, {9}), EdgeToMatch(0, 1, Div, {7, 13})]

  const MASK_PATTERN := [
    EdgeToMatch(0, 0, Cast, {9, 13}),
    EdgeToMatch(0, 0, Slice, {10, 11, 13}),
    EdgeToMatch(0, 0, Slice, {10, 11, 13}),
    EdgeToMatch(0, 1, Unsqueeze, {9, 11, 13}),
    EdgeToMatch(0, 0, Sub, {7, 13}),
    EdgeToMatch(0, 0, Squeeze, {1, 11, 13}),
    EdgeToMatch(0, 0, Slice, {10, 11, 13}),
    EdgeToMatch(0, 0, Shape, {1, 13})]

  const SLICE_ENDS_PATTERN := [EdgeToMatch(0, 2, Unsqueeze, {9, 11, 13}), EdgeToMatch(0, 0, Squeeze, {1, 11, 13})]

  const PAST_LENGTH_PATTERN := [
    EdgeToMatch(0, 1, Squeeze, {1, 11, 13}),
    EdgeToMatch(0, 0, Slice, {10, 11, 13}),
    EdgeToMatch(0, 0, Shape, {1, 13})]

  predicate UnidirCounts(g: Graph, t: UnidirTrunk, shared: bool) {
    && g.CheckOutputEdges(t.whereNode, 1)
    && g.CheckOutputEdges(t.cast, 1)
    && g.CheckOutputEdges(t.lastSlice, 1)
    && g.CheckOutputEdges(t.maskSlice, 1)
    && g.CheckOutputEdges(t.unsqueeze1, 1)
    && g.CheckOutputEdges(t.sub, 1)
    && g.CheckOutputEdges(t.squeeze1, if shared then 2 else 3)
    && g.CheckOutputEdges(t.slice1, 1)
    && g.CheckOutputEdges(t.shape1, if shared then 2 else 1)
  }

  ghost predicate UnidirValues(g: Graph, t: UnidirTrunk, unidirectional: bool) {
    && g.At(t.div).Output(0) == g.At(t.shape1).Input(0)
    && CheckSliceParameters(g, t.lastSlice, [1, 3, 4], [0, 3, 1])
    && CheckSliceParameters(g, t.maskSlice, [3, 4], [2, 1])
    && IsMask(g, g.At(t.maskSlice).Input(0), unidirectional)
    && CheckSliceParameters(g, t.slice1, [1, 2, 3], [-1, INT_MAX, 0])
  }

  ghost predicate IsUnidirTrunk(g: Graph, root: NodeIndex, shared: bool, t: UnidirTrunk, unidirectional: bool) {
    && IsInputPath(g, root, ROOT_PATTERN, [t.whereNode, t.div])
    && g.IsReal(g.At(t.whereNode).Input(2), -10000.0, true)
    && IsInputPath(g, t.whereNode, MASK_PATTERN, t.Path())
    && UnidirCounts(g, t, shared)
    && UnidirValues(g, t, unidirectional)
  }

  /** The Unsqueeze on input 2 of a Slice, fed by the trunk's Squeeze. */
  predicate IsSliceEnd(g: Graph, slice: NodeIndex, squeeze1: NodeIndex, shared: bool, u: NodeIndex) {
    && IsInputPath(g, slice, SLICE_ENDS_PATTERN, [u, squeeze1])
    && g.CheckOutputEdges(u, if shared then 2 else 1)
  }

  predicate IsPastLength(g: Graph, t: UnidirTrunk, shared: bool, l: PastLength) {
    && IsInputPath(g, t.sub, PAST_LENGTH_PATTERN, [l.squeeze2, l.slice2, l.shape2])
    && g.At(t.div).Output(0) == g.At(l.shape2).Input(0)
    && g.CheckOutputEdges(l.squeeze2, 1)
    && g.CheckOutputEdges(l.slice2, 1)
    && g.CheckOutputEdges(l.shape2, if shared then 2 else 1)
    && CheckSliceParameters(g, l.slice2, [1, 2, 3], [-2, -1, 0])
  }

  /** The nodes of `m` form the causal-mask pattern in front of input 0 of `root`. */
  ghost predicate IsUnidirMatch(g: Graph, root: NodeIndex, shared: bool, m: UnidirNodes) {
    && IsUnidirTrunk(g, root, shared, m.trunk, m.unidirectional)
    && IsSliceEnd(g, m.trunk.lastSlice, m.trunk.squeeze1, shared, m.unsqueeze2)
    && IsSliceEnd(g, m.trunk.maskSlice, m.trunk.squeeze1, shared, m.unsqueeze3)
    && IsPastLength(g, m.trunk, shared, m.length)
    && (shared ==> m.trunk.shape1 == m.length.shape2 && m.unsqueeze2 == m.unsqueeze3)
  }

  // ----- The matcher, part by part

  method MatchUnidirTrunk(g: Graph, root: NodeIndex, shared: bool) returns (trunk: Option<(UnidirTrunk, bool)>)
    requires g.WellFormed()
    ensures trunk.Some? ==> IsUnidirTrunk(g, root, shared, trunk.value.0, trunk.value.1)
    ensures forall t, u | IsUnidirTrunk(g, root, shared, t, u) :: trunk == Some((t, u))
  {
    var path := FindPath(g, root, ROOT_PATTERN);
    if path.None? { return None; }
    var r := path.value;
    assert r == [r[0], r[1]];
    forall t', u | IsUnidirTrunk(g, root, shared, t', u)
      ensures t'.whereNode == r[0] && t'.div == r[1]
    {
      assert path == Some([t'.whereNode, t'.div]);
      assert [t'.whereNode, t'.div][0] == t'.whereNode && [t'.whereNode, t'.div][1] == t'.div;
    }
    if !g.IsReal(g.At(r[0]).Input(2), -10000.0, true) { return None; }
    path := FindPath(g, r[0], MASK_PATTERN);
    if path.None? { return None; }
    var p := path.value;
    var t := UnidirTrunk(r[0], r[1], p[0], p[1], p[2], p[3], p[4], p[5], p[6], p[7]);
    assert t.Path() == p;
    forall t', u | IsUnidirTrunk(g, root, shared, t', u)
      ensures t' == t
    {
      SameUnidirPath(t, t');
    }
    if !UnidirCounts(g, t, shared) { return None; }
    if g.At(t.div).Output(0) != g.At(t.shape1).Input(0) { return None; }
    if !CheckSliceParameters(g, t.lastSlice, [1, 3, 4], [0, 3, 1]) { return None; }
    if !CheckSliceParameters(g, t.maskSlice, [3, 4], [2, 1]) { return None; }
    var unidirectional := ValidateUnidirMask(g, g.At(t.maskSlice).Input(0));
    if unidirectional.None? { return None; }
    if !CheckSliceParameters(g, t.slice1, [1, 2, 3], [-1, INT_MAX, 0]) { return None; }
    return Some((t, unidirectional.value));
  }

  lemma SameUnidirPath(t: UnidirTrunk, t': UnidirTrunk)
    requires t.Path() == t'.Path() && t.whereNode == t'.whereNode && t.div == t'.div
    ensures t' == t
  {
    assert forall k :: 0 <= k < 8 ==> t.Path()[k] == t'.Path()[k];
    assert t.Path()[0] == t.cast && t.Path()[1] == t.lastSlice && t.Path()[2] == t.maskSlice;
    assert t.Path()[3] == t.unsqueeze1 && t.Path()[4] == t.sub && t.Path()[5] == t.squeeze1;
    assert t.Path()[6] == t.slice1 && t.Path()[7] == t.shape1;
  }

  method MatchSliceEnd(g: Graph, slice: NodeIndex, squeeze1: NodeIndex, shared: bool)
    returns (unsqueeze: Option<NodeIndex>)
    requires g.WellFormed()
    ensures unsqueeze.Some? ==> IsSliceEnd(g, slice, squeeze1, shared, unsqueeze.value)
    ensures forall u: NodeIndex | IsSliceEnd(g, slice, squeeze1, shared, u) :: unsqueeze == Some(u)
  {
    var path := FindPath(g, slice, SLICE_ENDS_PATTERN);
    if path.None? { return None; }
    var p := path.value;
    forall u: NodeIndex | IsSliceEnd(g, slice, squeeze1, shared, u)
      ensures u == p[0] && squeeze1 == p[1]
    {
      assert p == [u, squeeze1];
    }
    if p[1] != squeeze1 { return None; }
    assert p == [p[0], squeeze1];
    if !g.CheckOutputEdges(p[0], if shared then 2 else 1) { return None; }
    return Some(p[0]);
  }

  method MatchPastLength(g: Graph, t: UnidirTrunk, shared: bool) returns (length: Option<PastLength>)
    requires g.WellFormed()
    ensures length.Some? ==> IsPastLength(g, t, shared, length.value)
    ensures forall l | IsPastLength(g, t, shared, l) :: length == Some(l)
  {
    var path := FindPath(g, t.sub, PAST_LENGTH_PATTERN);
    if path.None? { return None; }
    var p := path.value;
    var l := PastLength(p[0], p[1], p[2]);
    assert p == [p[0], p[1], p[2]];
    forall l' | IsPastLength(g, t, shared, l')
      ensures l' == l
    {
      assert p == [l'.squeeze2, l'.slice2, l'.shape2];
    }
    if g.At(t.div).Output(0) != g.At(l.shape2).Input(0) { return None; }
    if !g.CheckOutputEdges(l.squeeze2, 1) || !g.CheckOutputEdges(l.slice2, 1)
       || !g.CheckOutputEdges(l.shape2, if shared then 2 else 1) {
      return None;
    }
    if !CheckSliceParameters(g, l.slice2, [1, 2, 3], [-2, -1, 0]) { return None; }
    return Some(l);
  }

  /** The match in front of `root`, when the pattern is there; it is the only one. */
  method MatchUnidirMaskSubgraph(g: Graph, root: NodeIndex, shared: bool)
    returns (result: Option<UnidirNodes>, nodeIndices: seq<NodeIndex>)
    requires g.WellFormed()
    ensures result.Some? ==> IsUnidirMatch(g, root, shared, result.value)
    ensures result.Some? ==> nodeIndices == result.value.Indices(shared)
    ensures forall m | IsUnidirMatch(g, root, shared, m) :: result == Some(m)
  {
    hide IsUnidirTrunk, IsSliceEnd, IsPastLength, Graph.WellFormed;
    nodeIndices := [];
    var trunk := MatchUnidirTrunk(g, root, shared);
    if trunk.None? { return None, []; }
    var t := trunk.value.0;
    var unsqueeze2 := MatchSliceEnd(g, t.lastSlice, t.squeeze1, shared);
    if unsqueeze2.None? { return None, []; }
    var unsqueeze3 := MatchSliceEnd(g, t.maskSlice, t.squeeze1, shared);
    if unsqueeze3.None? { return None, []; }
    var length := MatchPastLength(g, t, shared);
    if length.None? { return None, []; }
    var l := length.value;
    if shared && (t.shape1 != l.shape2 || unsqueeze2.value != unsqueeze3.value) { return None, []; }
    nodeIndices := [t.whereNode, t.cast, t.lastSlice, t.maskSlice, t.unsqueeze1, t.sub, t.squeeze1,
                    t.slice1, t.shape1, unsqueeze2.value, l.squeeze2, l.slice2];
    if !shared {
      nodeIndices := nodeIndices + [unsqueeze3.value, l.shape2];
    }
    return Some(UnidirNodes(t, unsqueeze2.value, unsqueeze3.value, l, trunk.value.1)), nodeIndices;
  }
}
