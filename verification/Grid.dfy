/** Row-major offsets of the points of a three-dimensional grid, and the order in which nested loops visit them. */
module Grid {
  /** A point of a row-major grid, for input elements as well as output cells. */
  datatype Point = Point(i: int, j: int, k: int)

  /** The order in which nested loops visit points. */
  predicate Before(p: Point, q: Point) {
    p.i < q.i || (p.i == q.i && (p.j < q.j || (p.j == q.j && p.k < q.k)))
  }

  function Flat(p: Point, d1: nat, d2: nat): int {
    p.i * d1 * d2 + p.j * d2 + p.k
  }

  ghost predicate InGrid(p: Point, d0: nat, d1: nat, d2: nat) {
    0 <= p.i < d0 && 0 <= p.j < d1 && 0 <= p.k < d2
  }

  function RowMajor(r: int, k: int, d: nat): int {
    r * d + k
  }

  lemma FlatIsNested(p: Point, d1: nat, d2: nat)
    ensures Flat(p, d1, d2) == RowMajor(RowMajor(p.i, p.j, d1), p.k, d2)
  {}

  lemma RowMajorInBounds(r: int, k: int, rows: int, d: nat)
    requires 0 <= r < rows && 0 <= k < d
    ensures 0 <= RowMajor(r, k, d) < rows * d
  {
    assert 0 <= r * d <= (rows - 1) * d;
  }

  lemma RowMajorFollowsOrder(r: int, k: int, s: int, l: int, d: nat)
    requires 0 <= k < d && 0 <= l < d && (r < s || (r == s && k < l))
    ensures RowMajor(r, k, d) < RowMajor(s, l, d)
  {
    if r < s {
      assert (r + 1) * d <= s * d;
    }
  }

  lemma RowMajorIsOnto(n: nat, rows: nat, d: nat) returns (r: nat, k: nat)
    requires n < rows * d
    ensures r < rows && k < d && RowMajor(r, k, d) == n
  {
    assert d > 0;
    r, k := n / d, n % d;
    assert r * d <= n < rows * d;
    assert (rows - r) * d > 0;
  }

  lemma FlatInBounds(p: Point, d0: nat, d1: nat, d2: nat)
    requires InGrid(p, d0, d1, d2)
    ensures 0 <= Flat(p, d1, d2) < d0 * d1 * d2
  {
    RowMajorInBounds(p.i, p.j, d0, d1);
    RowMajorInBounds(RowMajor(p.i, p.j, d1), p.k, d0 * d1, d2);
    FlatIsNested(p, d1, d2);
  }

  /** Later points have later offsets, so no two points share one. */
  lemma FlatFollowsOrder(p: Point, q: Point, d0: nat, d1: nat, d2: nat)
    requires InGrid(p, d0, d1, d2) && InGrid(q, d0, d1, d2) && Before(p, q)
    ensures Flat(p, d1, d2) < Flat(q, d1, d2)
  {
    FlatIsNested(p, d1, d2);
    FlatIsNested(q, d1, d2);
    hide Flat, RowMajor;
    if p.i < q.i || p.j < q.j {
      RowMajorFollowsOrder(p.i, p.j, q.i, q.j, d1);
    }
    RowMajorFollowsOrder(RowMajor(p.i, p.j, d1), p.k, RowMajor(q.i, q.j, d1), q.k, d2);
  }

  /** Every offset belongs to a point. */
  lemma FlatIsOnto(n: nat, d0: nat, d1: nat, d2: nat) returns (p: Point)
    requires n < d0 * d1 * d2
    ensures InGrid(p, d0, d1, d2) && Flat(p, d1, d2) == n
  {
    var row, k := RowMajorIsOnto(n, d0 * d1, d2);
    var i, j := RowMajorIsOnto(row, d0, d1);
    p := Point(i, j, k);
    FlatIsNested(p, d1, d2);
  }
}
