/**
  What it means that a graph has been executed: every argument has a value, constants have theirs, and
  the values around each node obey its operator. Only uses of operators that occur in an attention layer
  are spelled out; other uses are left open.
*/
module GraphValues {
  import opened Wrappers
  import opened GraphModel
  import opened Tensors

  /** Shape computations use integers, of which only the order matters; everything else is a tensor. */
  datatype Value = Ints(ints: seq<int>) | Reals(t: RealTensor)

  type Env = Name -> Value

  type Softmaxing = seq<real> -> seq<real>

  function In(g: Graph, env: Env, x: NodeIndex, slot: nat): Value {
    env(g.At(x).Input(slot))
  }

  function Out(g: Graph, env: Env, x: NodeIndex, arg: nat := 0): Value {
    env(g.At(x).Output(arg))
  }

  /** Edges leave outputs and join arguments of the same name. */
  ghost predicate NamedEdges(g: Graph) {
    forall e {:trigger e in g.edges} :: e in g.edges ==>
      e.srcArg < |g.At(e.src).outputs| && g.At(e.dst).Input(e.dstArg) == g.At(e.src).Output(e.srcArg)
  }

  ghost predicate HoldsData(v: Value, data: TensorData) {
    match data
    case Int32s(xs) => v == Ints(xs)
    case Int64s(xs) => v == Ints(xs)
    case Floats(xs) => v.Reals? && v.t.data == xs
    case Uint8s(xs) => v.Reals? && |v.t.data| == |xs| && forall k :: 0 <= k < |xs| ==> v.t.data[k] == xs[k] as real
  }

  ghost predicate HoldsShape(v: Value, shape: seq<Option<int>>) {
    v.Reals? ==>
      && |v.t.dims| == |shape|
      && forall k :: 0 <= k < |shape| && shape[k].Some? ==> v.t.dims[k] == shape[k].value
  }

  /** No initializer is replaced by an input of the model. */
  ghost predicate Constants(g: Graph, env: Env) {
    forall name :: name in g.initializers ==>
      HoldsData(env(name), g.initializers[name].data)
      && (name in g.shapes ==> HoldsShape(env(name), g.shapes[name]))
  }

  // ----- Operators

  ghost predicate RunsShape(g: Graph, env: Env, x: NodeIndex) {
    In(g, env, x, 0).Reals? ==> Out(g, env, x) == Ints(In(g, env, x, 0).t.dims)
  }

  predicate UnitStep(g: Graph, env: Env, x: NodeIndex) {
    |g.At(x).inputs| == 4 || (|g.At(x).inputs| > 4 && In(g, env, x, 4) == Ints([1]))
  }

  predicate IsOne(v: Value) {
    v.Ints? && |v.ints| == 1
  }

  ghost predicate RunsSlice(g: Graph, env: Env, x: NodeIndex) {
    var v, start, end, axis := In(g, env, x, 0), In(g, env, x, 1), In(g, env, x, 2), In(g, env, x, 3);
    UnitStep(g, env, x) && IsOne(start) && IsOne(end) && IsOne(axis) && axis.ints[0] >= 0 ==>
      match v
      case Ints(xs) => axis.ints[0] == 0 ==> Out(g, env, x) == Ints(SliceOf(xs, start.ints[0], end.ints[0]))
      case Reals(t) => axis.ints[0] < |t.dims| ==>
        Out(g, env, x).Reals? && IsSlice(t, Out(g, env, x).t, start.ints[0], end.ints[0], axis.ints[0])
  }

  /** One integer more or less in the shape of integers does not move them. */
  ghost predicate RunsSqueeze(g: Graph, env: Env, x: NodeIndex) {
    In(g, env, x, 0).Ints? ==> Out(g, env, x) == In(g, env, x, 0)
  }

  ghost predicate RunsUnsqueeze(g: Graph, env: Env, x: NodeIndex) {
    match In(g, env, x, 0)
    case Ints(xs) => Out(g, env, x) == Ints(xs)
    case Reals(t) =>
      "axes" in g.At(x).attributes && |g.At(x).attributes["axes"]| == 1
      && 0 <= g.At(x).attributes["axes"][0] <= |t.dims| ==>
        Out(g, env, x).Reals? && IsUnsqueeze(t, Out(g, env, x).t, g.At(x).attributes["axes"][0])
  }

  /** One number that applies to every element of `t`. */
  predicate IsScalarFor(v: Value, t: RealTensor) {
    v.Reals? && |v.t.data| == 1 && |v.t.dims| <= |t.dims|
  }

  ghost predicate RunsSub(g: Graph, env: Env, x: NodeIndex) {
    var a, b, c := In(g, env, x, 0), In(g, env, x, 1), Out(g, env, x);
    && (IsOne(a) && IsOne(b) ==> c == Ints([a.ints[0] - b.ints[0]]))
    && (b.Reals? && IsScalarFor(a, b.t) ==> c.Reals? && IsMap(b.t, c.t, v => a.t.data[0] - v))
  }

  ghost predicate RunsMul(g: Graph, env: Env, x: NodeIndex) {
    var a, b, c := In(g, env, x, 0), In(g, env, x, 1), Out(g, env, x);
    a.Reals? && IsScalarFor(b, a.t) ==> c.Reals? && IsMap(a.t, c.t, v => v * b.t.data[0])
  }

  ghost predicate RunsDiv(g: Graph, env: Env, x: NodeIndex) {
    var a, b, c := In(g, env, x, 0), In(g, env, x, 1), Out(g, env, x);
    a.Reals? && IsScalarFor(b, a.t) && b.t.data[0] != 0.0 ==>
      c.Reals? && IsMap(a.t, c.t, v => if b.t.data[0] != 0.0 then v / b.t.data[0] else 0.0)
  }

  ghost predicate RunsAdd(g: Graph, env: Env, x: NodeIndex) {
    var a, b, c := In(g, env, x, 0), In(g, env, x, 1), Out(g, env, x);
    a.Reals? && b.Reals? && |a.t.dims| == 4 && b.t.dims == [a.t.dims[0], 1, 1, a.t.dims[3]] ==>
      c.Reals? && IsRowAdd(a.t, b.t, c.t)
  }

  /** Zeros and ones survive a change of the element type. */
  ghost predicate RunsCast(g: Graph, env: Env, x: NodeIndex) {
    var a, b := In(g, env, x, 0), Out(g, env, x);
    a.Reals? ==>
      && b.Reals? && b.t.dims == a.t.dims
      && forall index :: Get(a.t, index) == 0.0 || Get(a.t, index) == 1.0 ==> Get(b.t, index) == Get(a.t, index)
  }

  ghost predicate RunsTranspose(g: Graph, env: Env, x: NodeIndex) {
    var a, b := In(g, env, x, 0), Out(g, env, x);
    a.Reals? && "perm" in g.At(x).attributes ==> b.Reals? && IsTranspose(a.t, b.t, g.At(x).attributes["perm"])
  }

  ghost predicate RunsReshape(g: Graph, env: Env, x: NodeIndex) {
    var a, s, b := In(g, env, x, 0), In(g, env, x, 1), Out(g, env, x);
    a.Reals? && s.Ints? ==> b.Reals? && IsReshape(a.t, b.t, s.ints)
  }

  ghost predicate RunsMatMul(g: Graph, env: Env, x: NodeIndex) {
    var a, b, c := In(g, env, x, 0), In(g, env, x, 1), Out(g, env, x);
    a.Reals? && b.Reals? && |a.t.dims| == |b.t.dims| == 4 && a.t.dims[..2] == b.t.dims[..2] ==>
      c.Reals? && IsMatMul(a.t, b.t, c.t)
  }

  predicate OverLastOfFour(g: Graph, x: NodeIndex) {
    g.At(x).HasAttribute("axis", [3]) || g.At(x).HasAttribute("axis", [-1])
  }

  ghost predicate RunsSoftmax(g: Graph, env: Env, softmax: Softmaxing, x: NodeIndex) {
    var a, b := In(g, env, x, 0), Out(g, env, x);
    a.Reals? && |a.t.dims| == 4 && OverLastOfFour(g, x) ==>
      && b.Reals? && b.t.dims == a.t.dims
      && forall i: nat, j: nat, k: nat :: i < a.t.dims[0] && j < a.t.dims[1] && k < a.t.dims[2] ==>
           RowAt(b.t, i, j, k) == softmax(RowAt(a.t, i, j, k))
  }

  ghost predicate RunsWhere(g: Graph, env: Env, x: NodeIndex) {
    var c, a, b, y := In(g, env, x, 0), In(g, env, x, 1), In(g, env, x, 2), Out(g, env, x);
    c.Reals? && a.Reals? && CoversScores(c.t, a.t) && IsScalarFor(b, a.t) ==>
      y.Reals? && IsWhere(c.t, a.t, b.t.data[0], y.t)
  }

  ghost predicate RunsGather(g: Graph, env: Env, x: NodeIndex) {
    var a, k, b := In(g, env, x, 0), In(g, env, x, 1), Out(g, env, x);
    IsOne(k) && k.ints[0] >= 0 && (g.At(x).HasAttribute("axis", [0]) || "axis" !in g.At(x).attributes) ==>
      match a
      case Ints(xs) => k.ints[0] < |xs| && b == Ints([xs[k.ints[0]]])
      case Reals(t) => b.Reals? && IsGather(t, b.t, k.ints[0])
  }

  ghost predicate RunsConcat(g: Graph, env: Env, x: NodeIndex) {
    var n, a, b, c, y := |g.At(x).inputs|, In(g, env, x, 0), In(g, env, x, 1), In(g, env, x, 2), Out(g, env, x);
    && |g.At(x).outputs| == 1
    && (n == 2 && a.Ints? && b.Ints? ==> y == Ints(a.ints + b.ints))
    && (n == 3 && a.Ints? && b.Ints? && c.Ints? ==> y == Ints(a.ints + b.ints + c.ints))
    && (n == 2 && a.Reals? && b.Reals? && "axis" in g.At(x).attributes && |g.At(x).attributes["axis"]| == 1
        && 0 <= g.At(x).attributes["axis"][0] < |a.t.dims| ==>
          y.Reals? && IsConcat(a.t, b.t, y.t, g.At(x).attributes["axis"][0]))
  }

  /** Without transposition; the two factors of the operator are one. */
  ghost predicate RunsGemm(g: Graph, env: Env, x: NodeIndex) {
    var n, a, w, b, y := g.At(x), In(g, env, x, 0), In(g, env, x, 1), In(g, env, x, 2), Out(g, env, x);
    && a.Reals? && w.Reals? && b.Reals? && |a.t.dims| == |w.t.dims| == 2 && |b.t.dims| == 1
    && "transA" !in n.attributes && "transB" !in n.attributes ==>
      y.Reals? && IsLinear(a.t, w.t, b.t, y.t)
  }

  /** Into three equal parts of the last dimension. */
  ghost predicate RunsSplit(g: Graph, env: Env, x: NodeIndex) {
    var n, a := g.At(x), In(g, env, x, 0);
    && a.Reals? && |a.t.dims| == 3 && |n.inputs| == 1 && |n.outputs| == 3 && "split" !in n.attributes
    && (n.HasAttribute("axis", [2]) || n.HasAttribute("axis", [-1])) ==>
      forall k: nat {:trigger Out(g, env, x, k)} :: k < 3 ==>
        Out(g, env, x, k).Reals? && IsThird(a.t, Out(g, env, x, k).t, k)
  }

  ghost predicate NodeRuns(g: Graph, env: Env, softmax: Softmaxing, x: NodeIndex) {
    match g.At(x).op
    case Shape => RunsShape(g, env, x)
    case Slice => RunsSlice(g, env, x)
    case Squeeze => RunsSqueeze(g, env, x)
    case Unsqueeze => RunsUnsqueeze(g, env, x)
    case Sub => RunsSub(g, env, x)
    case Mul => RunsMul(g, env, x)
    case Div => RunsDiv(g, env, x)
    case Add => RunsAdd(g, env, x)
    case Cast => RunsCast(g, env, x)
    case Transpose => RunsTranspose(g, env, x)
    case Reshape => RunsReshape(g, env, x)
    case MatMul => RunsMatMul(g, env, x)
    case Softmax => RunsSoftmax(g, env, softmax, x)
    case Where => RunsWhere(g, env, x)
    case Gather => RunsGather(g, env, x)
    case Concat => RunsConcat(g, env, x)
    case Gemm => RunsGemm(g, env, x)
    case Split => RunsSplit(g, env, x)
    case _ => true
  }

  /** The graph has been executed with these values. */
  ghost predicate Executed(g: Graph, env: Env, softmax: Softmaxing) {
    && NamedEdges(g)
    && Constants(g, env)
    && (forall name {:trigger env(name)} :: env(name).Reals? ==> env(name).t.Valid())
    && forall x :: x in g.nodes ==> NodeRuns(g, env, softmax, x)
  }

  /** An edge hands on the value. */
  lemma EdgeHandsOn(g: Graph, env: Env, e: Edge)
    requires NamedEdges(g) && e in g.edges
    ensures In(g, env, e.dst, e.dstArg) == Out(g, env, e.src, e.srcArg)
  {}

  lemma IntIsConstant(g: Graph, env: Env, name: Name, value: int)
    requires Constants(g, env) && g.IsInt(name, value)
    ensures env(name) == Ints([value])
  {}

  lemma RealIsConstant(g: Graph, env: Env, name: Name, value: real, constant: bool)
    requires Constants(g, env) && g.IsReal(name, value, constant)
    ensures env(name).Reals? && env(name).t.data == [value]
  {}

  // ----- Nodes of a graph that has been executed

  lemma GatherNode(g: Graph, env: Env, softmax: Softmaxing, x: NodeIndex, t: RealTensor, k: nat)
    requires Executed(g, env, softmax) && x in g.nodes && g.nodes[x].op == Gather
    requires "axis" !in g.At(x).attributes && In(g, env, x, 0) == Reals(t) && In(g, env, x, 1) == Ints([k])
    ensures Out(g, env, x).Reals? && IsGather(t, Out(g, env, x).t, k)
  {
    hide IsGather, NamedEdges, Constants;
    assert NodeRuns(g, env, softmax, x);
  }

  lemma TransposeNode(g: Graph, env: Env, softmax: Softmaxing, x: NodeIndex, t: RealTensor, perm: seq<int>)
    requires Executed(g, env, softmax) && x in g.nodes && g.nodes[x].op == Transpose
    requires g.At(x).HasAttribute("perm", perm) && In(g, env, x, 0) == Reals(t)
    ensures Out(g, env, x).Reals? && IsTranspose(t, Out(g, env, x).t, perm)
  {
    hide IsTranspose, NamedEdges, Constants;
    assert NodeRuns(g, env, softmax, x);
  }

  lemma UnsqueezeNode(g: Graph, env: Env, softmax: Softmaxing, x: NodeIndex, t: RealTensor, axis: nat)
    requires Executed(g, env, softmax) && x in g.nodes && g.nodes[x].op == Unsqueeze
    requires g.At(x).HasAttribute("axes", [axis]) && In(g, env, x, 0) == Reals(t) && axis <= |t.dims|
    ensures Out(g, env, x).Reals? && IsUnsqueeze(t, Out(g, env, x).t, axis)
  {
    hide IsUnsqueeze, NamedEdges, Constants;
    assert NodeRuns(g, env, softmax, x);
  }

  lemma ConcatNode(g: Graph, env: Env, softmax: Softmaxing, x: NodeIndex, t: RealTensor, u: RealTensor, axis: nat)
    requires Executed(g, env, softmax) && x in g.nodes && g.nodes[x].op == Concat && |g.At(x).inputs| == 2
    requires g.At(x).HasAttribute("axis", [axis]) && axis < |t.dims|
    requires In(g, env, x, 0) == Reals(t) && In(g, env, x, 1) == Reals(u)
    ensures Out(g, env, x).Reals? && IsConcat(t, u, Out(g, env, x).t, axis)
  {
    hide IsConcat, NamedEdges, Constants;
    assert NodeRuns(g, env, softmax, x);
  }

  lemma ShapeNode(g: Graph, env: Env, softmax: Softmaxing, x: NodeIndex, t: RealTensor)
    requires Executed(g, env, softmax) && x in g.nodes && g.nodes[x].op == Shape
    requires In(g, env, x, 0) == Reals(t)
    ensures Out(g, env, x) == Ints(t.dims)
  {
    hide NamedEdges, Constants;
    assert NodeRuns(g, env, softmax, x);
  }

  /** A slice of integers, and of a tensor. */
  lemma SliceIntsNode(g: Graph, env: Env, softmax: Softmaxing, x: NodeIndex, xs: seq<int>, start: int, end: int)
    requires Executed(g, env, softmax) && x in g.nodes && g.nodes[x].op == Slice && UnitStep(g, env, x)
    requires In(g, env, x, 0) == Ints(xs) && In(g, env, x, 1) == Ints([start]) && In(g, env, x, 2) == Ints([end])
    requires In(g, env, x, 3) == Ints([0])
    ensures Out(g, env, x) == Ints(SliceOf(xs, start, end))
  {
    hide NamedEdges, Constants, SliceOf;
    assert NodeRuns(g, env, softmax, x);
  }

  lemma SliceNode(g: Graph, env: Env, softmax: Softmaxing, x: NodeIndex, t: RealTensor, start: int, end: int, axis: nat)
    requires Executed(g, env, softmax) && x in g.nodes && g.nodes[x].op == Slice && UnitStep(g, env, x)
    requires In(g, env, x, 0) == Reals(t) && In(g, env, x, 1) == Ints([start]) && In(g, env, x, 2) == Ints([end])
    requires In(g, env, x, 3) == Ints([axis]) && axis < |t.dims|
    ensures Out(g, env, x).Reals? && IsSlice(t, Out(g, env, x).t, start, end, axis)
  {
    hide NamedEdges, Constants, IsSlice;
    assert NodeRuns(g, env, softmax, x);
  }

  lemma GatherIntsNode(g: Graph, env: Env, softmax: Softmaxing, x: NodeIndex, xs: seq<int>, k: nat)
    requires Executed(g, env, softmax) && x in g.nodes && g.nodes[x].op == Gather && g.At(x).HasAttribute("axis", [0])
    requires In(g, env, x, 0) == Ints(xs) && In(g, env, x, 1) == Ints([k])
    ensures k < |xs| && Out(g, env, x) == Ints([xs[k]])
  {
    hide NamedEdges, Constants;
    assert NodeRuns(g, env, softmax, x);
  }

  lemma ConcatIntsNode(g: Graph, env: Env, softmax: Softmaxing, x: NodeIndex, a: seq<int>, b: seq<int>, c: seq<int>)
    requires Executed(g, env, softmax) && x in g.nodes && g.nodes[x].op == Concat
    requires In(g, env, x, 0) == Ints(a) && In(g, env, x, 1) == Ints(b)
    ensures |g.At(x).inputs| == 2 ==> Out(g, env, x) == Ints(a + b)
    ensures |g.At(x).inputs| == 3 && In(g, env, x, 2) == Ints(c) ==> Out(g, env, x) == Ints(a + b + c)
  {
    hide NamedEdges, Constants, IsConcat;
    assert NodeRuns(g, env, softmax, x);
  }
}
