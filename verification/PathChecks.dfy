/** Checks on the shapes and constants along the value, query and key paths. */
module PathChecks {
  import opened Wrappers
  import opened GraphModel

  /** `ValidateGemmInitializer`: constant weights and bias of the expected shape. */
  predicate ValidateGemmInitializer(g: Graph, gemm: NodeIndex, hiddenSize: int, beforeSplit: bool) {
    var bias, weights := g.At(gemm).Input(2), g.At(gemm).Input(1);
    var biasLength := (if beforeSplit then 3 else 1) * hiddenSize;
    && g.IsInitializer(bias) && g.ValidateShape(bias, [biasLength])
    && g.IsInitializer(weights) && g.ValidateShape(weights, [hiddenSize, biasLength])
  }

  const SHAPE_CONCAT_PATTERN := [EdgeToMatch(0, 1, Concat, {4, 11, 13}), EdgeToMatch(0, 0, Unsqueeze, {1, 11, 13})]

  /** The Concat that computes a shape from three inputs, and the Unsqueeze in front of it. */
  ghost predicate IsShapePath(g: Graph, reshape: NodeIndex, c: NodeIndex, u: NodeIndex) {
    IsInputPath(g, reshape, SHAPE_CONCAT_PATTERN, [c, u]) && |g.At(c).inputs| == 3
  }

  ghost predicate IsComputedShape(g: Graph, reshape: NodeIndex, hiddenSize: int) {
    exists c: NodeIndex, u: NodeIndex ::
      && IsShapePath(g, reshape, c, u)
      && g.Ints(g.At(c).Input(1)) == Some([-1])
      && g.Ints(g.At(c).Input(2)) == Some([hiddenSize])
  }

  /** The node recorded for the mask path is the Unsqueeze; it is recorded even if the constants do not fit. */
  method CheckDistilBertReshapeShape(g: Graph, reshape: NodeIndex, hiddenSize: int)
    returns (ok: bool, recorded: Option<NodeIndex>)
    requires g.WellFormed()
    ensures ok <==> IsComputedShape(g, reshape, hiddenSize)
    ensures forall u: NodeIndex :: recorded == Some(u) <==> exists c: NodeIndex :: IsShapePath(g, reshape, c, u)
  {
    var path := FindPath(g, reshape, SHAPE_CONCAT_PATTERN);
    if path.None? { return false, None; }
    var p := path.value;
    assert p == [p[0], p[1]];
    forall c: NodeIndex, u: NodeIndex | IsShapePath(g, reshape, c, u)
      ensures c == p[0] && u == p[1]
    {
      assert [c, u][0] == c && [c, u][1] == u;
    }
    if |g.At(p[0]).inputs| != 3 { return false, None; }
    assert IsShapePath(g, reshape, p[0], p[1]);
    recorded := Some(p[1]);
    ok := g.Ints(g.At(p[0]).Input(1)) == Some([-1]) && g.Ints(g.At(p[0]).Input(2)) == Some([hiddenSize]);
  }

  /** The constant shape of the value Reshape, in the form the caller's head size allows. */
  predicate IsValueShape(dims: seq<int>, headSize: int, hiddenSize: int) {
    && |dims| == 4
    && dims[0] == 0
    && (dims[1] == 0 || dims[1] == -1)
    && 0 < dims[2] <= hiddenSize
    && (headSize < 0 ==> dims[3] == -1)
    && (headSize == 0 ==> dims[2] * dims[3] == hiddenSize)
  }

  predicate PathVNodes(g: Graph, transpose: NodeIndex, qkvMatmul: NodeIndex, vTranspose: NodeIndex,
                       vReshape: NodeIndex) {
    && g.CheckOutputEdges(transpose, 1)
    && g.CheckOutputEdges(qkvMatmul, 1)
    && g.CheckOutputEdges(vTranspose, 1)
    && g.CheckOutputEdges(vReshape, 1)
    && g.At(transpose).HasAttribute("perm", [0, 2, 1, 3])
    && g.At(vTranspose).HasAttribute("perm", [0, 2, 1, 3])
  }

  /** The shape the attention output is given. */
  ghost predicate IsOutputShape(g: Graph, reshape: NodeIndex, numHeads: int, headSize: int, hiddenSize: int) {
    match g.Ints(g.At(reshape).Input(1))
    case None => IsComputedShape(g, reshape, hiddenSize)
    case Some(dims) =>
      |dims| == 3 && dims[0] == 0 && dims[1] == 0 && (dims[2] == numHeads * headSize || dims[2] == -1)
  }

  /** `CheckNodesInPathV` succeeds and sets the head count and head size to these values. */
  ghost predicate IsPathV(g: Graph, reshape: NodeIndex, transpose: NodeIndex, qkvMatmul: NodeIndex,
                          vTranspose: NodeIndex, vReshape: NodeIndex, numHeads: int, headSize: int, hiddenSize: int,
                          heads: (int, int))
  {
    && PathVNodes(g, transpose, qkvMatmul, vTranspose, vReshape)
    && !(numHeads > 0 && headSize > 0 && headSize != numHeads * headSize)
    && g.Ints(g.At(vReshape).Input(1)).Some?
    && var dims := g.Ints(g.At(vReshape).Input(1)).value;
    && IsValueShape(dims, headSize, hiddenSize)
    && heads == (dims[2], dims[3])
    && IsOutputShape(g, reshape, dims[2], dims[3], hiddenSize)
  }

  /**
    The counts a caller passes are compared as head size against head count times head size, not against
    the hidden size. With both positive, the path is accepted for a single head only.
  */
  lemma PositiveCountsMeanOneHead(g: Graph, reshape: NodeIndex, transpose: NodeIndex, qkvMatmul: NodeIndex,
                                  vTranspose: NodeIndex, vReshape: NodeIndex, numHeads: int, headSize: int,
                                  hiddenSize: int, heads: (int, int))
    requires IsPathV(g, reshape, transpose, qkvMatmul, vTranspose, vReshape, numHeads, headSize, hiddenSize, heads)
    requires numHeads > 0 && headSize > 0
    ensures numHeads == 1
  {
    assert (numHeads - 1) * headSize == 0;
  }

  method CheckNodesInPathV(g: Graph, reshape: NodeIndex, transpose: NodeIndex, qkvMatmul: NodeIndex,
                           vTranspose: NodeIndex, vReshape: NodeIndex, numHeads: int, headSize: int,
                           hiddenSize: int)
    returns (heads: Option<(int, int)>)
    requires g.WellFormed()
    ensures forall h :: heads == Some(h) <==>
      IsPathV(g, reshape, transpose, qkvMatmul, vTranspose, vReshape, numHeads, headSize, hiddenSize, h)
  {
    if !PathVNodes(g, transpose, qkvMatmul, vTranspose, vReshape) { return None; }
    if numHeads > 0 && headSize > 0 && headSize != numHeads * headSize { return None; }
    var vShape := g.Ints(g.At(vReshape).Input(1));
    if vShape.None? || !IsValueShape(vShape.value, headSize, hiddenSize) { return None; }
    var n, h := vShape.value[2], vShape.value[3];
    var shape := g.Ints(g.At(reshape).Input(1));
    if shape.None? {
      var computed, _ := CheckDistilBertReshapeShape(g, reshape, hiddenSize);
      return if computed then Some((n, h)) else None;
    }
    var dims := shape.value;
    if |dims| != 3 || dims[0] != 0 || dims[1] != 0 || (dims[2] != n * h && dims[2] != -1) { return None; }
    return Some((n, h));
  }

  /** The shape of the query and key Reshape nodes. */
  predicate IsHeadShape(g: Graph, reshape: NodeIndex, numHeads: int, headSize: int) {
    && g.Ints(g.At(reshape).Input(1)).Some?
    && var dims := g.Ints(g.At(reshape).Input(1)).value;
    && |dims| == 4 && dims[0] == 0 && (dims[1] == 0 || dims[1] == -1) && dims[2] == numHeads && dims[3] == headSize
  }

  /**
    The divisor equals the square root of the head size. For a negative head size the original
    compares with a NaN; how that comparison ends is not visible here and is a parameter.
  */
  predicate IsScale(g: Graph, name: Name, headSize: int, nanMatches: bool) {
    && name in g.initializers && g.initializers[name].data.Floats? && |g.initializers[name].data.reals| == 1
    && var v := g.initializers[name].data.reals[0];
    if headSize < 0 then nanMatches else v >= 0.0 && v * v == headSize as real
  }

  /** `CheckNodesInPathQ` */
  predicate CheckNodesInPathQ(g: Graph, div: NodeIndex, qReshape: NodeIndex, qTranspose: NodeIndex,
                              numHeads: int, headSize: int, nanMatches: bool)
  {
    && IsHeadShape(g, qReshape, numHeads, headSize)
    && IsScale(g, g.At(div).Input(1), headSize, nanMatches)
    && g.At(qTranspose).HasAttribute("perm", [0, 2, 1, 3])
  }

  /** `CheckNodesInPathK` */
  predicate CheckNodesInPathK(g: Graph, kReshape: NodeIndex, kTranspose: NodeIndex, numHeads: int, headSize: int) {
    g.At(kTranspose).HasAttribute("perm", [0, 2, 3, 1]) && IsHeadShape(g, kReshape, numHeads, headSize)
  }
}
