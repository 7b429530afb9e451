/**
  The part of an ONNX graph the fusion looks at: nodes, data edges, initializers and shapes, with
  the graph helpers as their documentation describes them.
*/
module GraphModel {
  import opened Wrappers

  type NodeIndex = nat

  /** A node argument: named by the model, or generated by an optimizer. */
  datatype Name = Given(text: string) | Generated(serial: nat)

  datatype Op =
    | Add | Attention | Cast | Concat | Div | Gather | Gemm | MatMul | Mul | Reshape | Shape | Slice
    | Softmax | Split | Squeeze | Sub | Transpose | Unsqueeze | Where | Other(name: string) | Missing

  datatype Domain = OnnxDomain | MsDomain | OtherDomain

  datatype Node = Node(op: Op, version: nat, domain: Domain, inputs: seq<Name>, outputs: seq<Name>,
                       attributes: map<string, seq<int>>)
  {
    /** `InputDefs()[i]`; an absent argument has the empty name. */
    function Input(i: nat): Name {
      if i < |inputs| then inputs[i] else Given("")
    }

    function Output(i: nat): Name {
      if i < |outputs| then outputs[i] else Given("")
    }

    predicate HasAttribute(name: string, value: seq<int>) {
      name in attributes && attributes[name] == value
    }

    predicate Supported(op: Op, versions: set<nat>) {
      this.op == op && version in versions && domain == OnnxDomain
    }
  }

  const NO_NODE := Node(Missing, 0, OtherDomain, [], [], map[])

  datatype Edge = Edge(src: NodeIndex, srcArg: nat, dst: NodeIndex, dstArg: nat)

  datatype TensorData =
    | Uint8s(ints: seq<int>)
    | Int32s(ints: seq<int>)
    | Int64s(ints: seq<int>)
    | Floats(reals: seq<real>)

  datatype Tensor = Tensor(data: TensorData, constant: bool, external: bool)

  datatype Graph = Graph(nodes: map<NodeIndex, Node>, edges: set<Edge>, outputs: set<Name>,
                         initializers: map<Name, Tensor>, shapes: map<Name, seq<Option<int>>>,
                         nextIndex: NodeIndex, nextName: nat)
  {
    function At(x: NodeIndex): Node {
      if x in nodes then nodes[x] else NO_NODE
    }

    /** Edges join live nodes and an input slot has at most one producer. */
    ghost predicate WellFormed() {
      && (forall e :: e in edges ==> e.src in nodes && e.dst in nodes)
      && (forall e, f :: e in edges && f in edges && e.dst == f.dst && e.dstArg == f.dstArg ==> e == f)
      && (forall x :: x in nodes ==> x < nextIndex)
    }

    function OutEdges(x: NodeIndex): set<Edge> {
      set e | e in edges && e.src == x
    }

    predicate ProducesGraphOutput(x: NodeIndex) {
      exists i :: 0 <= i < |At(x).outputs| && At(x).outputs[i] in outputs
    }

    /** `optimizer_utils::CheckOutputEdges` */
    predicate CheckOutputEdges(x: NodeIndex, expected: nat) {
      !ProducesGraphOutput(x) && |OutEdges(x)| == expected
    }

    // ----- Initializers

    predicate IsInitializer(name: Name) {
      name in initializers
    }

    /** `IsInitializerWithExpectedValue` for integers. */
    predicate IsInt(name: Name, value: int) {
      && name in initializers && initializers[name].constant
      && (initializers[name].data.Int32s? || initializers[name].data.Int64s?)
      && initializers[name].data.ints == [value]
    }

    /** `IsInitializerWithExpectedValue` for floating point, on exact values. */
    predicate IsReal(name: Name, value: real, constant: bool) {
      && name in initializers && (constant ==> initializers[name].constant)
      && initializers[name].data == Floats([value])
    }

    /** `AppendTensorFromInitializer` into an empty vector. */
    function Ints(name: Name): Option<seq<int>> {
      if name in initializers && initializers[name].constant
         && (initializers[name].data.Int32s? || initializers[name].data.Int64s?)
      then Some(initializers[name].data.ints) else None
    }

    predicate ValidateShape(name: Name, dims: seq<int>) {
      && name in shapes && |shapes[name]| == |dims|
      && forall i :: 0 <= i < |dims| && dims[i] > 0 ==> shapes[name][i] == Some(dims[i])
    }

    // ----- Changes

    function WithNode(node: Node): Graph {
      this.(nodes := nodes[nextIndex := node], nextIndex := nextIndex + 1)
    }

    function Without(xs: set<NodeIndex>): Graph {
      this.(nodes := map x | x in nodes && x !in xs :: nodes[x],
            edges := set e | e in edges && e.src !in xs && e.dst !in xs)
    }
  }

  // ----- Paths

  datatype EdgeToMatch = EdgeToMatch(srcArg: nat, dstArg: nat, op: Op, versions: set<nat>)

  /** An edge from `x` to `y` that matches, with a supported node at its source. */
  predicate Link(g: Graph, x: NodeIndex, y: NodeIndex, e: EdgeToMatch) {
    && Edge(x, e.srcArg, y, e.dstArg) in g.edges
    && g.At(x).Supported(e.op, e.versions)
  }

  /** The node before step `k` of a path. */
  function Before(start: NodeIndex, path: seq<NodeIndex>, k: nat): NodeIndex
    requires k <= |path|
  {
    if k == 0 then start else path[k - 1]
  }

  /** The first `n` steps of `path` follow the pattern upstream from `start`. */
  predicate FollowsUp(g: Graph, start: NodeIndex, pattern: seq<EdgeToMatch>, path: seq<NodeIndex>, n: nat) {
    && n <= |path| && n <= |pattern|
    && forall k {:trigger pattern[k]} :: 0 <= k < n ==> Link(g, path[k], Before(start, path, k), pattern[k])
  }

  /** Following the pattern upstream from `start` visits `path`. */
  predicate IsInputPath(g: Graph, start: NodeIndex, pattern: seq<EdgeToMatch>, path: seq<NodeIndex>) {
    |path| == |pattern| && FollowsUp(g, start, pattern, path, |pattern|)
  }

  lemma {:induction false} UpIsUnique(g: Graph, start: NodeIndex, pattern: seq<EdgeToMatch>,
                                      p: seq<NodeIndex>, q: seq<NodeIndex>, n: nat)
    requires g.WellFormed() && FollowsUp(g, start, pattern, p, n) && FollowsUp(g, start, pattern, q, n)
    ensures p[..n] == q[..n]
  {
    if n > 0 {
      UpIsUnique(g, start, pattern, p, q, n - 1);
      assert n > 1 ==> p[n - 2] == p[..n - 1][n - 2] == q[..n - 1][n - 2] == q[n - 2];
      var e := pattern[n - 1];
      assert p[n - 1] == q[n - 1];
      assert p[..n] == p[..n - 1] + [p[n - 1]] && q[..n] == q[..n - 1] + [q[n - 1]];
    }
  }

  lemma NextStepUp(g: Graph, start: NodeIndex, pattern: seq<EdgeToMatch>, p: seq<NodeIndex>, found: seq<NodeIndex>)
    requires g.WellFormed() && IsInputPath(g, start, pattern, p)
    requires |found| < |pattern| && FollowsUp(g, start, pattern, found, |found|)
    ensures Link(g, p[|found|], Before(start, found, |found|), pattern[|found|])
  {
    var k := |found|;
    UpIsUnique(g, start, pattern, p, found, k);
    assert k > 0 ==> p[k - 1] == p[..k][k - 1] == found[..k][k - 1] == found[k - 1];
    assert Link(g, p[k], Before(start, p, k), pattern[k]);
  }

  /** The producer of an input slot. */
  method GetInputNode(g: Graph, y: NodeIndex, dstArg: nat) returns (x: Option<NodeIndex>)
    requires g.WellFormed()
    ensures x.Some? ==> exists a :: Edge(x.value, a, y, dstArg) in g.edges
    ensures forall x': NodeIndex, a: nat | Edge(x', a, y, dstArg) in g.edges :: x == Some(x')
  {
    var candidates: set<Edge> := set e | e in g.edges && e.dst == y && e.dstArg == dstArg;
    if candidates == {} {
      assert forall x': NodeIndex, a: nat | Edge(x', a, y, dstArg) in g.edges :: Edge(x', a, y, dstArg) in candidates;
      return None;
    }
    var e: Edge :| e in candidates;
    assert e == Edge(e.src, e.srcArg, y, dstArg);
    return Some(e.src);
  }

  /** `graph_utils::FindPath` over input edges: the path if there is one; there is at most one. */
  method FindPath(g: Graph, start: NodeIndex, pattern: seq<EdgeToMatch>) returns (path: Option<seq<NodeIndex>>)
    requires g.WellFormed()
    ensures path.Some? ==> IsInputPath(g, start, pattern, path.value)
    ensures forall p | IsInputPath(g, start, pattern, p) :: path == Some(p)
  {
    var found: seq<NodeIndex> := [];
    var current := start;
    while |found| < |pattern|
      invariant FollowsUp(g, start, pattern, found, |found|) && current == Before(start, found, |found|)
    {
      var k := |found|;
      var e := pattern[k];
      var x := GetInputNode(g, current, e.dstArg);
      forall p | IsInputPath(g, start, pattern, p)
        ensures Link(g, p[k], current, e)
      {
        NextStepUp(g, start, pattern, p, found);
      }
      if x.None? || !Link(g, x.value, current, e) {
        return None;
      }
      ghost var before := found;
      found := found + [x.value];
      current := x.value;
      assert forall j :: 0 <= j <= k ==> Before(start, found, j) == Before(start, before, j);
    }
    forall p | IsInputPath(g, start, pattern, p)
      ensures p == found
    {
      UpIsUnique(g, start, pattern, p, found, |pattern|);
      assert p[..|pattern|] == p && found[..|pattern|] == found;
    }
    return Some(found);
  }

  /** Exactly one out-edge of `x` matches, and it leads to `y`. */
  ghost predicate SoleMatch(g: Graph, x: NodeIndex, y: NodeIndex, e: EdgeToMatch) {
    forall y': NodeIndex :: y' in Candidates(g, x, e) <==> y' == y
  }

  /** Nodes an out-edge of `x` that matches leads to. */
  function Candidates(g: Graph, x: NodeIndex, e: EdgeToMatch): (ys: set<NodeIndex>)
    ensures forall y: NodeIndex :: y in ys <==>
      Edge(x, e.srcArg, y, e.dstArg) in g.edges && g.At(y).Supported(e.op, e.versions)
  {
    var ys := set f | f in g.edges && f == Edge(x, e.srcArg, f.dst, e.dstArg)
      && g.At(f.dst).Supported(e.op, e.versions) :: f.dst;
    assert forall y: NodeIndex :: Edge(x, e.srcArg, y, e.dstArg) in g.edges ==> Edge(x, e.srcArg, y, e.dstArg).dst == y;
    ys
  }

  /** The first `n` steps of `path` follow the pattern downstream, with a single candidate each. */
  ghost predicate FollowsDown(g: Graph, start: NodeIndex, pattern: seq<EdgeToMatch>, path: seq<NodeIndex>, n: nat) {
    && n <= |path| && n <= |pattern|
    && forall k {:trigger pattern[k]} :: 0 <= k < n ==> SoleMatch(g, Before(start, path, k), path[k], pattern[k])
  }

  /** Following the pattern downstream from `start` visits `path`. */
  ghost predicate IsOutputPath(g: Graph, start: NodeIndex, pattern: seq<EdgeToMatch>, path: seq<NodeIndex>) {
    |path| == |pattern| && FollowsDown(g, start, pattern, path, |pattern|)
  }

  lemma {:induction false} DownIsUnique(g: Graph, start: NodeIndex, pattern: seq<EdgeToMatch>,
                                        p: seq<NodeIndex>, q: seq<NodeIndex>, n: nat)
    requires FollowsDown(g, start, pattern, p, n) && FollowsDown(g, start, pattern, q, n)
    ensures p[..n] == q[..n]
  {
    if n > 0 {
      DownIsUnique(g, start, pattern, p, q, n - 1);
      assert n > 1 ==> p[n - 2] == p[..n - 1][n - 2] == q[..n - 1][n - 2] == q[n - 2];
      assert SoleMatch(g, Before(start, p, n - 1), p[n - 1], pattern[n - 1]);
      assert SoleMatch(g, Before(start, q, n - 1), q[n - 1], pattern[n - 1]);
      assert p[n - 1] in Candidates(g, Before(start, p, n - 1), pattern[n - 1]);
      assert p[n - 1] == q[n - 1];
      assert p[..n] == p[..n - 1] + [p[n - 1]] && q[..n] == q[..n - 1] + [q[n - 1]];
    }
  }

  lemma NextStepDown(g: Graph, start: NodeIndex, pattern: seq<EdgeToMatch>, p: seq<NodeIndex>, found: seq<NodeIndex>)
    requires IsOutputPath(g, start, pattern, p)
    requires |found| < |pattern| && FollowsDown(g, start, pattern, found, |found|)
    ensures Candidates(g, Before(start, found, |found|), pattern[|found|]) == {p[|found|]}
  {
    var k := |found|;
    DownIsUnique(g, start, pattern, p, found, k);
    assert k > 0 ==> p[k - 1] == p[..k][k - 1] == found[..k][k - 1] == found[k - 1];
    assert SoleMatch(g, Before(start, p, k), p[k], pattern[k]);
  }

  /** `graph_utils::FindPath` over output edges; several candidates for one edge make it fail. */
  method FindOutputPath(g: Graph, start: NodeIndex, pattern: seq<EdgeToMatch>) returns (path: Option<seq<NodeIndex>>)
    ensures path.Some? ==> IsOutputPath(g, start, pattern, path.value)
    ensures forall p | IsOutputPath(g, start, pattern, p) :: path == Some(p)
  {
    var found: seq<NodeIndex> := [];
    var current := start;
    while |found| < |pattern|
      invariant FollowsDown(g, start, pattern, found, |found|) && current == Before(start, found, |found|)
    {
      var k := |found|;
      var candidates := Candidates(g, current, pattern[k]);
      forall p | IsOutputPath(g, start, pattern, p)
        ensures candidates == {p[k]}
      {
        NextStepDown(g, start, pattern, p, found);
      }
      if |candidates| != 1 {
        return None;
      }
      var y: NodeIndex :| y in candidates;
      assert |candidates - {y}| == 0;
      assert SoleMatch(g, current, y, pattern[k]);
      ghost var before := found;
      found := found + [y];
      current := y;
      assert forall j :: 0 <= j <= k ==> Before(start, found, j) == Before(start, before, j);
    }
    forall p | IsOutputPath(g, start, pattern, p)
      ensures p == found
    {
      DownIsUnique(g, start, pattern, p, found, |pattern|);
      assert p[..|pattern|] == p && found[..|pattern|] == found;
    }
    return Some(found);
  }
}
