/**
 * What the map's quality measures compute, stated on the weight vectors as values: the mean
 * quantisation error of `SOM.MSE` and the neighbour dispersion of `SOM.get_map_dispertion`.
 */
module MapMeasures {
  import opened Vectors

  /** Every cell of `P` has `dim` coordinates. */
  predicate Conforms(P: seq<seq<Vector>>, dim: nat)
  {
    forall i, j :: 0 <= i < |P| && 0 <= j < |P[i]| ==> |P[i][j]| == dim
  }

  /** At least one row, and no empty row. */
  predicate NonEmptyGrid<T>(g: seq<seq<T>>)
  {
    |g| > 0 && forall i :: 0 <= i < |g| ==> |g[i]| > 0
  }

  predicate InGrid<T>(g: seq<seq<T>>, i: int, j: int)
  {
    0 <= i < |g| && 0 <= j < |g[i]|
  }

  /** The activity the map shows for input `x`: each cell's distance to `x`. */
  function DistanceGrid(P: seq<seq<Vector>>, x: Vector, sqrt: real -> real): (D: seq<seq<real>>)
    requires Conforms(P, |x|)
    ensures |D| == |P| && forall i :: 0 <= i < |P| ==> |D[i]| == |P[i]|
  {
    seq(|P|, i requires 0 <= i < |P| => seq(|P[i]|, j requires 0 <= j < |P[i]| => Distance(x, P[i][j], sqrt)))
  }

  lemma DistanceGridAt(P: seq<seq<Vector>>, x: Vector, sqrt: real -> real)
    requires Conforms(P, |x|)
    ensures forall i, j :: InGrid(P, i, j) ==> DistanceGrid(P, x, sqrt)[i][j] == Distance(x, P[i][j], sqrt)
  {
  }

  function RealMin(a: real, b: real): real
  {
    if a <= b then a else b
  }

  /** The smallest entry of a non-empty row. */
  function RowMin(r: seq<real>): real
    requires |r| > 0
  {
    if |r| == 1 then r[0] else RealMin(RowMin(r[..|r| - 1]), r[|r| - 1])
  }

  /** `numpy.min` of a two-dimensional array. */
  function GridMin(D: seq<seq<real>>): real
    requires NonEmptyGrid(D)
  {
    if |D| == 1 then RowMin(D[0]) else RealMin(GridMin(D[..|D| - 1]), RowMin(D[|D| - 1]))
  }

  /** `RowMin` is an entry of the row, and no entry is smaller. */
  lemma {:induction false} RowMinIsMin(r: seq<real>)
    requires |r| > 0
    ensures exists k :: 0 <= k < |r| && r[k] == RowMin(r)
    ensures forall k :: 0 <= k < |r| ==> RowMin(r) <= r[k]
  {
    if |r| > 1 {
      var r' := r[..|r| - 1];
      RowMinIsMin(r');
      assert forall k :: 0 <= k < |r'| ==> r'[k] == r[k];
      if RowMin(r') <= r[|r| - 1] {
        var k :| 0 <= k < |r'| && r'[k] == RowMin(r');
        assert r[k] == RowMin(r);
      } else {
        assert r[|r| - 1] == RowMin(r);
      }
    } else {
      assert r[0] == RowMin(r);
    }
  }

  /** `GridMin` is an entry of the grid, and no entry is smaller. */
  lemma {:induction false} GridMinIsMin(D: seq<seq<real>>)
    requires NonEmptyGrid(D)
    ensures exists i, j :: InGrid(D, i, j) && D[i][j] == GridMin(D)
    ensures forall i, j :: InGrid(D, i, j) ==> GridMin(D) <= D[i][j]
  {
    RowMinIsMin(D[|D| - 1]);
    if |D| > 1 {
      var D' := D[..|D| - 1];
      GridMinIsMin(D');
      assert forall i :: 0 <= i < |D'| ==> D'[i] == D[i];
      if GridMin(D') <= RowMin(D[|D| - 1]) {
        var i, j :| InGrid(D', i, j) && D'[i][j] == GridMin(D');
        assert D[i][j] == GridMin(D);
      }
    }
  }

  /** A value of the grid that no entry undercuts is its minimum. */
  lemma GridMinIs(D: seq<seq<real>>, m: real, a: nat, b: nat)
    requires NonEmptyGrid(D) && InGrid(D, a, b) && D[a][b] == m
    requires forall i, j :: InGrid(D, i, j) ==> m <= D[i][j]
    ensures GridMin(D) == m
  {
    GridMinIsMin(D);
  }

  /** Cell `(i, j)` comes before cell `(k, l)` in row-major order. */
  predicate Before(i: int, j: int, k: int, l: int)
  {
    i < k || (i == k && j < l)
  }

  /** `(bi, bj)` holds the smallest entry of the grid and no earlier cell holds one as small. */
  ghost predicate IsFirstMinCell(D: seq<seq<real>>, bi: int, bj: int)
  {
    InGrid(D, bi, bj) &&
    forall i, j :: InGrid(D, i, j) ==> D[bi][bj] <= D[i][j] && (Before(i, j, bi, bj) ==> D[bi][bj] < D[i][j])
  }

  /** The first index of the smallest entry of a non-empty row. */
  function RowArgMin(r: seq<real>): (k: nat)
    requires |r| > 0
    ensures k < |r|
  {
    if |r| == 1 then 0
    else
      var k := RowArgMin(r[..|r| - 1]);
      if r[|r| - 1] < r[k] then |r| - 1 else k
  }

  /** `RowArgMin` holds the smallest entry, and every earlier entry is larger. */
  lemma {:induction false} RowArgMinIsFirstMin(r: seq<real>)
    requires |r| > 0
    ensures forall l :: 0 <= l < |r| ==> r[RowArgMin(r)] <= r[l] && (l < RowArgMin(r) ==> r[RowArgMin(r)] < r[l])
  {
    if |r| > 1 {
      var r' := r[..|r| - 1];
      RowArgMinIsFirstMin(r');
      assert forall l :: 0 <= l < |r'| ==> r'[l] == r[l];
    }
  }

  /** The grid has a cell `(0, 0)`; later rows may be empty. */
  predicate HasOrigin<T>(g: seq<seq<T>>)
  {
    |g| > 0 && |g[0]| > 0
  }

  /**
   * The position of the grid minimum: the first cell, in row-major order, that holds
   * the smallest entry (`ArgMinIsFirstMin`).
   */
  function ArgMin(D: seq<seq<real>>): (c: (nat, nat))
    requires HasOrigin(D)
    ensures InGrid(D, c.0, c.1)
  {
    if |D| == 1 then (0, RowArgMin(D[0]))
    else
      var c := ArgMin(D[..|D| - 1]);
      if |D[|D| - 1]| == 0 then c
      else
        var k := RowArgMin(D[|D| - 1]);
        if D[|D| - 1][k] < D[c.0][c.1] then (|D| - 1, k) else c
  }

  /** The argmin cell is the first cell holding the minimum. */
  lemma {:induction false} ArgMinIsFirstMin(D: seq<seq<real>>)
    requires HasOrigin(D)
    ensures IsFirstMinCell(D, ArgMin(D).0, ArgMin(D).1)
  {
    if |D[|D| - 1]| > 0 {
      RowArgMinIsFirstMin(D[|D| - 1]);
    }
    if |D| > 1 {
      var D' := D[..|D| - 1];
      ArgMinIsFirstMin(D');
      assert forall i :: 0 <= i < |D'| ==> D'[i] == D[i];
    }
  }

  /** The first minimum is unique: argmin names one cell. */
  lemma FirstMinCellUnique(D: seq<seq<real>>, bi: int, bj: int, ci: int, cj: int)
    requires IsFirstMinCell(D, bi, bj) && IsFirstMinCell(D, ci, cj)
    ensures bi == ci && bj == cj
  {
    if Before(bi, bj, ci, cj) {
      assert false;
    } else if Before(ci, cj, bi, bj) {
      assert false;
    }
  }

  /** The argmin cell holds the minimum. */
  lemma ArgMinHoldsMin(D: seq<seq<real>>)
    requires NonEmptyGrid(D)
    ensures D[ArgMin(D).0][ArgMin(D).1] == GridMin(D)
  {
    var c := ArgMin(D);
    ArgMinIsFirstMin(D);
    GridMinIs(D, D[c.0][c.1], c.0, c.1);
  }

  predicate SamplesConform(P: seq<seq<Vector>>, X: seq<Vector>)
  {
    forall t :: 0 <= t < |X| ==> Conforms(P, |X[t]|)
  }

  /** The distance from `x` to the nearest weight vector of the map. */
  function NearestDistance(P: seq<seq<Vector>>, x: Vector, sqrt: real -> real): real
    requires NonEmptyGrid(P) && Conforms(P, |x|)
  {
    GridMin(DistanceGrid(P, x, sqrt))
  }

  /** The nearest distance of every sample, in sample order. */
  function NearestDistances(P: seq<seq<Vector>>, X: seq<Vector>, sqrt: real -> real): (ds: seq<real>)
    requires NonEmptyGrid(P) && SamplesConform(P, X)
    ensures |ds| == |X|
  {
    seq(|X|, t requires 0 <= t < |X| => NearestDistance(P, X[t], sqrt))
  }

  lemma NearestDistancesAt(P: seq<seq<Vector>>, X: seq<Vector>, sqrt: real -> real, t: nat)
    requires NonEmptyGrid(P) && SamplesConform(P, X) && t < |X|
    ensures NearestDistances(P, X, sqrt)[t] == NearestDistance(P, X[t], sqrt)
  {
  }

  /** A sequence holding each sample's nearest distance is `NearestDistances`. */
  lemma NearestDistancesAre(P: seq<seq<Vector>>, X: seq<Vector>, sqrt: real -> real, ds: seq<real>)
    requires NonEmptyGrid(P) && SamplesConform(P, X) && |ds| == |X|
    requires forall t :: 0 <= t < |X| ==> ds[t] == NearestDistance(P, X[t], sqrt)
    ensures ds == NearestDistances(P, X, sqrt)
  {
  }

  /** The sum of the squares of a sequence of reals. */
  function SumSquares(d: seq<real>): (s: real)
    ensures s >= 0.0
  {
    if |d| == 0 then 0.0 else SumSquares(d[..|d| - 1]) + Sq(d[|d| - 1])
  }

  /** Appending a value adds its square. */
  lemma SumSquaresAppend(d: seq<real>, r: real)
    ensures SumSquares(d + [r]) == SumSquares(d) + Sq(r)
  {
    assert (d + [r])[..|d|] == d;
  }

  /** `s` sums the squares of `ds`, which holds the nearest distances of the first `|ds|` samples. */
  predicate Accumulated(P: seq<seq<Vector>>, X: seq<Vector>, sqrt: real -> real, ds: seq<real>, s: real)
  {
    NonEmptyGrid(P) && SamplesConform(P, X) && |ds| <= |X| && s == SumSquares(ds) &&
    forall u :: 0 <= u < |ds| ==> ds[u] == NearestDistance(P, X[u], sqrt)
  }

  /** Adding the next sample's nearest distance keeps the sum accumulated. */
  lemma AccumulatedStep(P: seq<seq<Vector>>, X: seq<Vector>, sqrt: real -> real, ds: seq<real>, s: real, m: real)
    requires Accumulated(P, X, sqrt, ds, s) && |ds| < |X|
    requires m == NearestDistance(P, X[|ds|], sqrt)
    ensures Accumulated(P, X, sqrt, ds + [m], s + Sq(m))
  {
    SumSquaresAppend(ds, m);
  }

  /** Once every sample is in, the sum is the sum of the squared nearest distances. */
  lemma AccumulatedAll(P: seq<seq<Vector>>, X: seq<Vector>, sqrt: real -> real, ds: seq<real>, s: real)
    requires Accumulated(P, X, sqrt, ds, s) && |ds| == |X|
    ensures s == SumSquares(NearestDistances(P, X, sqrt))
  {
    NearestDistancesAre(P, X, sqrt, ds);
  }

  /** The mean quantisation error of the map over the samples `X`. */
  function QuantizationError(P: seq<seq<Vector>>, X: seq<Vector>, sqrt: real -> real): real
    requires NonEmptyGrid(P) && SamplesConform(P, X) && |X| > 0
  {
    SumSquares(NearestDistances(P, X, sqrt)) / (|X| as real)
  }

  /** Over a single sample, the error is the square of that sample's nearest distance. */
  lemma OneSampleError(P: seq<seq<Vector>>, x: Vector, sqrt: real -> real)
    requires NonEmptyGrid(P) && Conforms(P, |x|)
    ensures QuantizationError(P, [x], sqrt) == Sq(NearestDistance(P, x, sqrt))
  {
    assert SamplesConform(P, [x]);
    var ds := NearestDistances(P, [x], sqrt);
    assert ds == [NearestDistance(P, x, sqrt)];
    assert ds[..0] == [];
    assert SumSquares(ds) == Sq(ds[0]);
  }

  /** The error is never negative. */
  lemma QuantizationErrorNonNegative(P: seq<seq<Vector>>, X: seq<Vector>, sqrt: real -> real)
    requires NonEmptyGrid(P) && SamplesConform(P, X) && |X| > 0
    ensures QuantizationError(P, X, sqrt) >= 0.0
  {
    RatioSign(SumSquares(NearestDistances(P, X, sqrt)), |X| as real);
  }

  lemma RatioSign(s: real, n: real)
    requires n > 0.0
    ensures s >= 0.0 ==> s / n >= 0.0
    ensures s / n == 0.0 <==> s == 0.0
  {
  }

  /** Some weight vector of the map equals `x`. */
  ghost predicate Covered(P: seq<seq<Vector>>, x: Vector)
  {
    exists i, j :: InGrid(P, i, j) && P[i][j] == x
  }

  /** The error is zero exactly when every sample coincides with some weight vector of the map. */
  lemma QuantizationErrorZero(P: seq<seq<Vector>>, X: seq<Vector>, sqrt: real -> real)
    requires IsSqrt(sqrt) && NonEmptyGrid(P) && SamplesConform(P, X) && |X| > 0
    ensures QuantizationError(P, X, sqrt) == 0.0 <==> forall t :: 0 <= t < |X| ==> Covered(P, X[t])
  {
    var ds := NearestDistances(P, X, sqrt);
    RatioSign(SumSquares(ds), |X| as real);
    SumSquaresZero(ds);
    forall t | 0 <= t < |X|
      ensures ds[t] == 0.0 <==> Covered(P, X[t])
    {
      NearestDistancesAt(P, X, sqrt, t);
      NearestZero(P, X[t], sqrt);
    }
  }

  /** A sum of squares is zero exactly when every term is zero. */
  lemma {:induction false} SumSquaresZero(d: seq<real>)
    ensures SumSquares(d) == 0.0 <==> forall t :: 0 <= t < |d| ==> d[t] == 0.0
  {
    if |d| > 0 {
      var e := d[..|d| - 1];
      SumSquaresZero(e);
      SqZeroIff(d[|d| - 1]);
      assert forall t :: 0 <= t < |e| ==> e[t] == d[t];
    }
  }

  /** The nearest distance to `x` is zero exactly when `x` is one of the weight vectors. */
  lemma NearestZero(P: seq<seq<Vector>>, x: Vector, sqrt: real -> real)
    requires IsSqrt(sqrt) && NonEmptyGrid(P) && Conforms(P, |x|)
    ensures NearestDistance(P, x, sqrt) == 0.0 <==> Covered(P, x)
  {
    var D := DistanceGrid(P, x, sqrt);
    DistanceGridAt(P, x, sqrt);
    GridMinIsMin(D);
    forall i, j | InGrid(P, i, j)
      ensures D[i][j] >= 0.0 && (D[i][j] == 0.0 <==> P[i][j] == x)
    {
      DistanceZero(x, P[i][j], sqrt);
    }
  }

  /** Under a true square root, the distance is zero exactly between equal vectors. */
  lemma DistanceZero(x: Vector, w: Vector, sqrt: real -> real)
    requires IsSqrt(sqrt) && |x| == |w|
    ensures Distance(x, w, sqrt) >= 0.0
    ensures Distance(x, w, sqrt) == 0.0 <==> w == x
  {
    var s := SqDist(x, w);
    var q := sqrt(s);
    assert q * q == s;
    if q == 0.0 {
      ZeroProduct(q, q, s);
    } else {
      PositiveProduct(q, q, s);
    }
    SqDistZero(x, w);
  }

  lemma ZeroProduct(a: real, b: real, t: real)
    requires a == 0.0 && t == a * b
    ensures t == 0.0
  {
  }

  lemma SqZeroIff(r: real)
    ensures Sq(r) == 0.0 <==> r == 0.0
  {
    if r != 0.0 {
      SqPositive(r);
    } else {
      ZeroProduct(r, r, Sq(r));
    }
  }

  /** The squared distance is zero exactly between equal vectors. */
  lemma {:induction false} SqDistZero(a: Vector, b: Vector)
    requires |a| == |b|
    ensures SqDist(a, b) == 0.0 <==> a == b
  {
    if |a| > 0 {
      var n := |a| - 1;
      SqDistZero(a[..n], b[..n]);
      SqZeroIff(a[n] - b[n]);
      if a[..n] == b[..n] && a[n] == b[n] {
        assert a == a[..n] + [a[n]] && b == b[..n] + [b[n]];
      }
    }
  }

  /** The two-dimensional squared distance between the first two coordinates of two cells. */
  function PairTerm(a: Vector, b: Vector): (t: real)
    requires |a| >= 2 && |b| >= 2
    ensures t >= 0.0
  {
    Sq(a[0] - b[0]) + Sq(a[1] - b[1])
  }

  /** A rectangular grid whose cells have at least two coordinates. */
  predicate Planar(P: seq<seq<Vector>>)
  {
    (forall i :: 0 <= i < |P| ==> |P[i]| == |P[0]|) &&
    forall i, j :: 0 <= i < |P| && 0 <= j < |P[i]| ==> |P[i][j]| >= 2
  }

  /** The vertical term of a cell: its upper neighbour, or its lower one in the first row. */
  function XTerm(P: seq<seq<Vector>>, i: nat, j: nat): real
    requires Planar(P) && InGrid(P, i, j)
  {
    if i != 0 then PairTerm(P[i - 1][j], P[i][j])
    else if i != |P| - 1 then PairTerm(P[i][j], P[i + 1][j])
    else 0.0
  }

  /** The horizontal term of a cell: its left neighbour, or its right one in the first column. */
  function YTerm(P: seq<seq<Vector>>, i: nat, j: nat): real
    requires Planar(P) && InGrid(P, i, j)
  {
    if j != 0 then PairTerm(P[i][j - 1], P[i][j])
    else if j != |P[i]| - 1 then PairTerm(P[i][j], P[i][j + 1])
    else 0.0
  }

  /** What `get_distance_with_neighbor(i, j)` returns. */
  function NeighborTerm(P: seq<seq<Vector>>, i: nat, j: nat): (t: real)
    requires Planar(P) && InGrid(P, i, j)
    ensures t >= 0.0
  {
    XTerm(P, i, j) + YTerm(P, i, j)
  }

  /**
   * Rows 0 and 1 contribute the same vertical pair and columns 0 and 1 the same horizontal pair, so
   * each of those pairs is counted twice; an axis of width 1 contributes nothing.
   */
  lemma NeighborPairs(P: seq<seq<Vector>>, i: nat, j: nat)
    requires Planar(P) && InGrid(P, i, j)
    ensures i == 0 && |P| == 1 ==> XTerm(P, i, j) == 0.0
    ensures i == 0 && |P| >= 2 ==> XTerm(P, 0, j) == XTerm(P, 1, j) == PairTerm(P[0][j], P[1][j])
    ensures j == 0 && |P[i]| == 1 ==> YTerm(P, i, j) == 0.0
    ensures j == 0 && |P[i]| >= 2 ==> YTerm(P, i, 0) == YTerm(P, i, 1) == PairTerm(P[i][0], P[i][1])
  {
  }

  /** The neighbour terms of the first `n` cells of row `i`. */
  function RowDispersion(P: seq<seq<Vector>>, i: nat, n: nat): (s: real)
    requires Planar(P) && i < |P| && n <= |P[i]|
    ensures s >= 0.0
  {
    if n == 0 then 0.0 else RowDispersion(P, i, n - 1) + NeighborTerm(P, i, n - 1)
  }

  /** The neighbour terms of the first `n` rows. */
  function DispersionRows(P: seq<seq<Vector>>, n: nat): (s: real)
    requires Planar(P) && n <= |P|
    ensures s >= 0.0
  {
    if n == 0 then 0.0 else DispersionRows(P, n - 1) + RowDispersion(P, n - 1, |P[n - 1]|)
  }

  /** The dispersion of the map: the sum of the neighbour terms of all its cells. */
  function Dispersion(P: seq<seq<Vector>>): (s: real)
    requires Planar(P)
    ensures s >= 0.0
  {
    DispersionRows(P, |P|)
  }

  /** `P` and `Q` have one shape and agree on the first two coordinates of every cell. */
  ghost predicate SamePlanarView(P: seq<seq<Vector>>, Q: seq<seq<Vector>>)
    requires Planar(P) && Planar(Q)
  {
    |P| == |Q| &&
    (forall i :: 0 <= i < |P| ==> |P[i]| == |Q[i]|) &&
    forall i, j :: InGrid(P, i, j) ==> P[i][j][0] == Q[i][j][0] && P[i][j][1] == Q[i][j][1]
  }

  /** The dispersion reads nothing but the first two coordinates of each cell. */
  lemma {:induction false} DispersionPlanarOnly(P: seq<seq<Vector>>, Q: seq<seq<Vector>>)
    requires Planar(P) && Planar(Q) && SamePlanarView(P, Q)
    ensures Dispersion(P) == Dispersion(Q)
  {
    DispersionRowsPlanarOnly(P, Q, |P|);
  }

  lemma {:induction false} DispersionRowsPlanarOnly(P: seq<seq<Vector>>, Q: seq<seq<Vector>>, n: nat)
    requires Planar(P) && Planar(Q) && SamePlanarView(P, Q) && n <= |P|
    ensures DispersionRows(P, n) == DispersionRows(Q, n)
  {
    if n > 0 {
      DispersionRowsPlanarOnly(P, Q, n - 1);
      RowPlanarOnly(P, Q, n - 1, |P[n - 1]|);
    }
  }

  lemma {:induction false} RowPlanarOnly(P: seq<seq<Vector>>, Q: seq<seq<Vector>>, i: nat, n: nat)
    requires Planar(P) && Planar(Q) && SamePlanarView(P, Q) && i < |P| && n <= |P[i]|
    ensures RowDispersion(P, i, n) == RowDispersion(Q, i, n)
  {
    if n > 0 {
      RowPlanarOnly(P, Q, i, n - 1);
      NeighborPlanarOnly(P, Q, i, n - 1);
    }
  }

  lemma NeighborPlanarOnly(P: seq<seq<Vector>>, Q: seq<seq<Vector>>, i: nat, j: nat)
    requires Planar(P) && Planar(Q) && SamePlanarView(P, Q) && InGrid(P, i, j)
    ensures NeighborTerm(P, i, j) == NeighborTerm(Q, i, j)
  {
  }

  /** Every cell sits at the planar point `(u, v)`. */
  ghost predicate Collapsed(P: seq<seq<Vector>>, u: real, v: real)
    requires Planar(P)
  {
    forall i, j :: InGrid(P, i, j) ==> P[i][j][0] == u && P[i][j][1] == v
  }

  /** A map whose cells all sit at one planar point has no dispersion. */
  lemma {:induction false} CollapsedDispersion(P: seq<seq<Vector>>, u: real, v: real)
    requires Planar(P) && Collapsed(P, u, v)
    ensures Dispersion(P) == 0.0
  {
    forall i, j | InGrid(P, i, j)
      ensures NeighborTerm(P, i, j) == 0.0
    {
      SqZeroIff(0.0);
    }
    CollapsedRows(P, |P|);
  }

  lemma {:induction false} CollapsedRows(P: seq<seq<Vector>>, n: nat)
    requires Planar(P) && n <= |P|
    requires forall i, j :: InGrid(P, i, j) ==> NeighborTerm(P, i, j) == 0.0
    ensures DispersionRows(P, n) == 0.0
  {
    if n > 0 {
      CollapsedRows(P, n - 1);
      CollapsedRow(P, n - 1, |P[n - 1]|);
    }
  }

  lemma {:induction false} CollapsedRow(P: seq<seq<Vector>>, i: nat, n: nat)
    requires Planar(P) && i < |P| && n <= |P[i]|
    requires forall j :: 0 <= j < |P[i]| ==> NeighborTerm(P, i, j) == 0.0
    ensures RowDispersion(P, i, n) == 0.0
  {
    if n > 0 {
      CollapsedRow(P, i, n - 1);
    }
  }
}
