/**
 * The movement queries `mouvement_v1/v2/v3`: the motor positions on the straight line from
 * `from_pos` to `to_pos`, each answered with `find_hand_position_v1/v2/v3`.
 */
module Trajectory {
  import opened Vectors
  import opened MapMeasures
  import opened HandPosition

  /** The number of intermediate points: one fewer than the steps asked for, and none for fewer than two. */
  function Intermediate(n: int): nat
  {
    if n >= 1 then n - 1 else 0
  }

  /** How far along the line intermediate point `index` lies, as a fraction of the whole way. */
  function Fraction(index: nat, n: int): real
    requires index < n - 1
  {
    (index as real) / ((n - 1) as real)
  }

  /** Intermediate point `index`: the start moved that fraction of the way towards the target. */
  function LinePoint(from: Point, to: Point, index: nat, n: int): Point
    requires index < n - 1
  {
    var f := Fraction(index, n);
    (PullCoordinate(from.0, to.0, f), PullCoordinate(from.1, to.1, f))
  }

  /** The motor positions queried, in order: the intermediate points, then `to_pos` itself. */
  function QueryPoints(from: Point, to: Point, n: int): (Q: seq<Point>)
    ensures |Q| == Intermediate(n) + 1
  {
    seq(Intermediate(n), t requires 0 <= t < Intermediate(n) => LinePoint(from, to, t, n)) + [to]
  }

  /** The `index`-th position computed inline, as the movement loops do, is intermediate point `index`. */
  lemma LinePointAt(from: Point, to: Point, n: int, index: nat, x: real, y: real)
    requires index < n - 1
    requires x == from.0 + (index as real / (n - 1) as real) * (to.0 - from.0)
    requires y == from.1 + (index as real / (n - 1) as real) * (to.1 - from.1)
    ensures QueryPoints(from, to, n)[index] == (x, y)
  {
    QueryPointsAt(from, to, n);
    var f := Fraction(index, n);
    assert x == PullCoordinate(from.0, to.0, f) && y == PullCoordinate(from.1, to.1, f);
  }

  lemma QueryPointsAt(from: Point, to: Point, n: int)
    ensures var Q := QueryPoints(from, to, n);
      Q[|Q| - 1] == to && forall t :: 0 <= t < |Q| - 1 ==> Q[t] == LinePoint(from, to, t, n)
  {
  }

  /** With at least one intermediate point, the movement starts at `from_pos`. */
  lemma StartsAtFrom(from: Point, to: Point, n: int)
    requires n >= 2
    ensures QueryPoints(from, to, n)[0] == from
  {
    QueryPointsAt(from, to, n);
    assert Fraction(0, n) == 0.0;
  }

  /** Every movement ends at `to_pos`, and holds `max(nb_steps, 1)` positions. */
  lemma EndsAtTo(from: Point, to: Point, n: int)
    ensures var Q := QueryPoints(from, to, n); |Q| == Max(n, 1) && Q[|Q| - 1] == to
  {
    QueryPointsAt(from, to, n);
  }

  /** The fraction of an intermediate point lies in [0, 1). */
  lemma FractionBounds(index: nat, n: int)
    requires index < n - 1
    ensures 0.0 <= Fraction(index, n) < 1.0
  {
    var m := (n - 1) as real;
    assert (index as real) < m;
  }

  /** Every queried position lies on the segment: each coordinate is between the two ends'. */
  lemma OnSegment(from: Point, to: Point, n: int, t: nat)
    requires t < |QueryPoints(from, to, n)|
    ensures var q := QueryPoints(from, to, n)[t];
      Between(from.0, q.0, to.0) && Between(from.1, q.1, to.1)
  {
    QueryPointsAt(from, to, n);
    if t < Intermediate(n) {
      var f := Fraction(t, n);
      FractionBounds(t, n);
      CoordinateBetween(from.0, to.0, f);
      CoordinateBetween(from.1, to.1, f);
    }
  }

  /** `v` lies between `a` and `b`, in either order. */
  predicate Between(a: real, v: real, b: real)
  {
    (a <= v <= b) || (b <= v <= a)
  }

  /** Consecutive positions are equally spaced: each step moves by `(to_pos - from_pos) / (nb_steps - 1)`. */
  lemma EvenlySpaced(from: Point, to: Point, n: int, t: nat)
    requires t + 1 < |QueryPoints(from, to, n)|
    ensures var Q := QueryPoints(from, to, n); var m := (n - 1) as real;
      Q[t + 1].0 - Q[t].0 == (to.0 - from.0) / m && Q[t + 1].1 - Q[t].1 == (to.1 - from.1) / m
  {
    QueryPointsAt(from, to, n);
    var Q := QueryPoints(from, to, n);
    var q, q' := Q[t], Q[t + 1];
    var m := (n - 1) as real;
    var f := Fraction(t, n);
    if t + 1 < Intermediate(n) {
      var f' := Fraction(t + 1, n);
      SpacingInside(from.0, to.0, t as real, m, f, f', q.0, q'.0);
      SpacingInside(from.1, to.1, t as real, m, f, f', q.1, q'.1);
    } else {
      SpacingLast(from.0, to.0, t as real, m, f, q.0, q'.0);
      SpacingLast(from.1, to.1, t as real, m, f, q.1, q'.1);
    }
  }

  /** Two neighbouring intermediate coordinates differ by `(b - a) / m`. */
  lemma SpacingInside(a: real, b: real, t: real, m: real, f: real, f': real, v: real, v': real)
    requires m > 0.0 && f == t / m && f' == (t + 1.0) / m
    requires v == PullCoordinate(a, b, f) && v' == PullCoordinate(a, b, f')
    ensures v' - v == (b - a) / m
  {
    assert f' == f + 1.0 / m;
    assert v' - v == (f' - f) * (b - a);
    assert (1.0 / m) * (b - a) == (b - a) / m;
  }

  /** The last intermediate coordinate (`t = m - 1`) is `(b - a) / m` short of the target `b`. */
  lemma SpacingLast(a: real, b: real, t: real, m: real, f: real, v: real, v': real)
    requires m > 0.0 && t + 1.0 == m && f == t / m
    requires v == PullCoordinate(a, b, f) && v' == b
    ensures v' - v == (b - a) / m
  {
    assert f == 1.0 - 1.0 / m;
    assert v' - v == (1.0 - f) * (b - a);
    assert (1.0 / m) * (b - a) == (b - a) / m;
  }

  // ---------------------------------------------------------------------------------------------
  // The answers of the three queries at one motor position.

  /** What `find_hand_position_v1` answers at `p`: motor and hand part of the nearest cell. */
  function NearestHand(G: seq<seq<Vector>>, p: Point, sqrt: real -> real): (Point, Point)
    requires HandGrid(G) && HasOrigin(G)
  {
    var c := NearestCell(G, p, sqrt);
    Hand(G[c.0][c.1])
  }

  /** What `find_hand_position_v2` answers at `p` with `nb_values = k`. */
  function MeanAnswer(G: seq<seq<Vector>>, p: Point, sqrt: real -> real, k: nat): (seq<(nat, nat)>, Point)
    requires HandGrid(G) && 1 <= k
  {
    TopKOnGrid(G, p, sqrt, k);
    MeanHand(G, TopK(G, p, sqrt, k), k)
  }

  /** What `find_hand_position_v3` answers at `p` with `nb_values = k`. */
  function WeightedAnswer(G: seq<seq<Vector>>, p: Point, sqrt: real -> real, k: nat): (seq<(nat, nat)>, Result<Point>)
    requires HandGrid(G) && 1 <= k
  {
    TopKOnGrid(G, p, sqrt, k);
    WeightedHand(G, TopK(G, p, sqrt, k), k)
  }

  /**
   * Where the `k >= 2` nearest cells to `p` all lie at one non-zero distance, v3 answers what v2 does:
   * the same cells, and the plain mean of their hand parts.
   */
  lemma EqualDistancesSameAnswer(G: seq<seq<Vector>>, p: Point, sqrt: real -> real, k: nat, d: real)
    requires HandGrid(G) && 2 <= k <= CellCount(G) && d != 0.0
    requires forall a :: 0 <= a < |TopK(G, p, sqrt, k)| ==> TopK(G, p, sqrt, k)[a].dist == d
    ensures WeightedAnswer(G, p, sqrt, k) == (MeanAnswer(G, p, sqrt, k).0, Success(MeanAnswer(G, p, sqrt, k).1))
  {
    TopKOnGrid(G, p, sqrt, k);
    TopKSize(G, p, sqrt, k);
    EqualDistancesGiveMean(G, TopK(G, p, sqrt, k), k, d);
  }

  /** `nb_values` at step `t` of `mouvement_v2/v3`: 4 on the way, 3 at the target. */
  function StepValues(t: nat, count: nat): nat
  {
    if t + 1 < count then 4 else 3
  }

  /** Each step of `mouvement_v2` names exactly `nb_values` distinct cells of the grid. */
  lemma MeanAnswerCells(G: seq<seq<Vector>>, p: Point, sqrt: real -> real, k: nat)
    requires HandGrid(G) && 1 <= k <= CellCount(G)
    ensures var cells := MeanAnswer(G, p, sqrt, k).0;
      |cells| == k && (forall a :: 0 <= a < k ==> InGrid(G, cells[a].0, cells[a].1)) &&
      (forall a, b :: 0 <= a < b < k ==> cells[a] != cells[b])
  {
    TopKSize(G, p, sqrt, k);
    TopKRanked(G, p, sqrt, k);
    TopKOnGrid(G, p, sqrt, k);
  }

  // ---------------------------------------------------------------------------------------------
  // The movements.

  /** `mouvement_v1`: the nearest-cell answer at every queried position. */
  method MovementV1(G: seq<seq<Vector>>, from: Point, to: Point, n: int, sqrt: real -> real)
    returns (steps: seq<(Point, Point)>)
    requires HandGrid(G) && HasOrigin(G)
    ensures var Q := QueryPoints(from, to, n);
      |steps| == |Q| && forall t :: 0 <= t < |Q| ==> steps[t] == NearestHand(G, Q[t], sqrt)
  {
    ghost var Q := QueryPoints(from, to, n);
    QueryPointsAt(from, to, n);
    steps := [];
    var index := 0;
    while index < n - 1
      invariant index <= Intermediate(n) && |steps| == index
      invariant forall t :: 0 <= t < index ==> steps[t] == NearestHand(G, Q[t], sqrt)
    {
      var x := from.0 + (index as real / (n - 1) as real) * (to.0 - from.0);
      var y := from.1 + (index as real / (n - 1) as real) * (to.1 - from.1);
      LinePointAt(from, to, n, index, x, y);
      var hand := FindHandPositionV1(G, (x, y), sqrt);
      steps := steps + [hand];
      index := index + 1;
    }
    var hand := FindHandPositionV1(G, to, sqrt);
    steps := steps + [hand];
  }

  /** `mouvement_v2`: the plain mean of the 4 nearest cells on the way and of the 3 nearest at the target. */
  method MovementV2(G: seq<seq<Vector>>, from: Point, to: Point, n: int, sqrt: real -> real)
    returns (steps: seq<(seq<(nat, nat)>, Point)>)
    requires HandGrid(G) && 3 <= CellCount(G) && (n >= 2 ==> 4 <= CellCount(G))
    ensures var Q := QueryPoints(from, to, n);
      |steps| == |Q| && forall t :: 0 <= t < |Q| ==> steps[t] == MeanAnswer(G, Q[t], sqrt, StepValues(t, |Q|))
  {
    ghost var Q := QueryPoints(from, to, n);
    QueryPointsAt(from, to, n);
    steps := [];
    var index := 0;
    while index < n - 1
      invariant index <= Intermediate(n) && |steps| == index
      invariant forall t :: 0 <= t < index ==> steps[t] == MeanAnswer(G, Q[t], sqrt, StepValues(t, |Q|))
    {
      var x := from.0 + (index as real / (n - 1) as real) * (to.0 - from.0);
      var y := from.1 + (index as real / (n - 1) as real) * (to.1 - from.1);
      LinePointAt(from, to, n, index, x, y);
      var cells, hand := FindHandPositionV2(G, (x, y), 4, sqrt);
      steps := steps + [(cells, hand)];
      index := index + 1;
    }
    var cells, hand := FindHandPositionV2(G, to, 3, sqrt);
    steps := steps + [(cells, hand)];
  }

  /**
   * `mouvement_v3`: the distance-weighted mean of the 4 nearest cells on the way and of the 3 nearest
   * at the target. A position whose weighting divides by zero keeps its cells, its hand is
   * `DivisionByZero` (NaN coordinates), and the movement goes on.
   */
  method MovementV3(G: seq<seq<Vector>>, from: Point, to: Point, n: int, sqrt: real -> real)
    returns (steps: seq<(seq<(nat, nat)>, Result<Point>)>)
    requires HandGrid(G) && 3 <= CellCount(G) && (n >= 2 ==> 4 <= CellCount(G))
    ensures var Q := QueryPoints(from, to, n);
      |steps| == |Q| && forall t :: 0 <= t < |Q| ==> steps[t] == WeightedAnswer(G, Q[t], sqrt, StepValues(t, |Q|))
  {
    ghost var Q := QueryPoints(from, to, n);
    QueryPointsAt(from, to, n);
    steps := [];
    var index := 0;
    while index < n - 1
      invariant index <= Intermediate(n) && |steps| == index
      invariant forall t :: 0 <= t < index ==> steps[t] == WeightedAnswer(G, Q[t], sqrt, StepValues(t, |Q|))
    {
      var x := from.0 + (index as real / (n - 1) as real) * (to.0 - from.0);
      var y := from.1 + (index as real / (n - 1) as real) * (to.1 - from.1);
      LinePointAt(from, to, n, index, x, y);
      var cells, hand := FindHandPositionV3(G, (x, y), 4, sqrt);
      steps := steps + [(cells, hand)];
      index := index + 1;
    }
    var cells, hand := FindHandPositionV3(G, to, 3, sqrt);
    steps := steps + [(cells, hand)];
  }
}
