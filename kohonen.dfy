/**
 * The self-organising map of kohonen.py: neurons that hold a weight vector, a fixed grid position and
 * their last activation, and the map that owns a rows x cols grid of them.
 */
module Kohonen {
  import opened Vectors
  import opened MapMeasures

  /** A grid of weight vectors, row by row: the value that the map's weight arrays hold. */
  type Prototypes = seq<seq<Vector>>

  /** The Gaussian neighbourhood factor `exp(-(d^2) / (2 sigma^2))` for a grid distance `d`. */
  function Kernel(exp: real -> real, sigma: real, d: nat): real
    requires sigma != 0.0
  {
    SqPositive(sigma);
    exp(-Sq(d as real) / (2.0 * Sq(sigma)))
  }

  /** The Manhattan distance between two cells of the grid. */
  function GridDistance(i: int, j: int, bi: int, bj: int): nat
  {
    Abs(i - bi) + Abs(j - bj)
  }

  /** The step size of a neuron at grid distance `d` from the winner: `eta` times the neighbourhood factor. */
  function Rate(eta: real, sigma: real, d: nat, exp: real -> real): real
    requires sigma != 0.0
  {
    eta * Kernel(exp, sigma, d)
  }

  /** `exp` is 1 at 0 and lies in (0, 1] on the non-positive reals, as the exponential does. */
  ghost predicate DecaysFromOne(exp: real -> real)
  {
    exp(0.0) == 1.0 && forall t: real :: t <= 0.0 ==> 0.0 < exp(t) <= 1.0
  }

  /** At grid distance 0, the winner's own cell, the neighbourhood factor is exactly 1. */
  lemma KernelAtWinner(exp: real -> real, sigma: real)
    requires sigma != 0.0 && exp(0.0) == 1.0
    ensures Kernel(exp, sigma, 0) == 1.0
  {
    SqPositive(sigma);
    assert Sq(0 as real) == 0.0;
  }

  /** The neighbourhood factor lies in (0, 1] at every grid distance. */
  lemma KernelBounds(exp: real -> real, sigma: real, d: nat)
    requires sigma != 0.0 && DecaysFromOne(exp)
    ensures 0.0 < Kernel(exp, sigma, d) <= 1.0
  {
    SqPositive(sigma);
    NonPositiveRatio(-Sq(d as real), 2.0 * Sq(sigma));
  }

  lemma NonPositiveRatio(n: real, s: real)
    requires n <= 0.0 && s > 0.0
    ensures n / s <= 0.0
  {
  }

  lemma UnitProduct(a: real, b: real, t: real)
    requires 0.0 <= a <= 1.0 && 0.0 <= b <= 1.0 && t == a * b
    ensures 0.0 <= t <= 1.0
  {
    MulBetween(b, a, t);
  }

  /**
   * The update every neuron applies: the winner, at grid distance 0, moves by exactly `eta * (x - w)`;
   * with `0 <= eta <= 1` every coordinate of every neuron lands between its old value and the input's.
   */
  lemma {:induction false} WinnerUpdate(w: Vector, x: Vector, eta: real, sigma: real, exp: real -> real, k: nat)
    requires |x| == |w| && k < |w| && sigma != 0.0 && exp(0.0) == 1.0
    ensures Pull(w, x, Rate(eta, sigma, 0, exp))[k] == PullCoordinate(w[k], x[k], eta)
  {
    KernelAtWinner(exp, sigma);
    assert Rate(eta, sigma, 0, exp) == eta;
    PullAt(w, x, Rate(eta, sigma, 0, exp), k);
  }

  /** With `0 < eta <= 1`, the winner ends strictly closer to a sample it did not already equal. */
  lemma WinnerMovesCloser(w: Vector, x: Vector, eta: real, sigma: real, exp: real -> real)
    requires |x| == |w| && w != x && 0.0 < eta <= 1.0 && sigma != 0.0 && exp(0.0) == 1.0
    ensures SqDist(Pull(w, x, Rate(eta, sigma, 0, exp)), x) < SqDist(w, x)
  {
    KernelAtWinner(exp, sigma);
    assert Rate(eta, sigma, 0, exp) == eta;
    PullCloser(w, x, eta);
  }

  /** With `0 <= eta <= 1`, no neuron ends farther from the sample than it was. */
  lemma NeuronMovesNoFarther(w: Vector, x: Vector, eta: real, sigma: real, exp: real -> real, d: nat)
    requires |x| == |w| && 0.0 <= eta <= 1.0 && sigma != 0.0 && DecaysFromOne(exp)
    ensures SqDist(Pull(w, x, Rate(eta, sigma, d, exp)), x) <= SqDist(w, x)
  {
    RateBounds(eta, sigma, d, exp);
    PullCloser(w, x, Rate(eta, sigma, d, exp));
  }

  /** With `0 <= eta <= 1`, every neuron's step size lies in [0, 1]. */
  lemma RateBounds(eta: real, sigma: real, d: nat, exp: real -> real)
    requires 0.0 <= eta <= 1.0 && sigma != 0.0 && DecaysFromOne(exp)
    ensures 0.0 <= Rate(eta, sigma, d, exp) <= 1.0
  {
    KernelBounds(exp, sigma, d);
    UnitProduct(eta, Kernel(exp, sigma, d), Rate(eta, sigma, d, exp));
  }

  lemma {:induction false} UpdateStaysBetween(w: Vector, x: Vector, eta: real, sigma: real, exp: real -> real, d: nat, k: nat)
    requires |x| == |w| && k < |w| && sigma != 0.0 && DecaysFromOne(exp)
    requires 0.0 <= eta <= 1.0
    ensures var v := Pull(w, x, Rate(eta, sigma, d, exp))[k];
      (w[k] <= x[k] ==> w[k] <= v <= x[k]) && (x[k] <= w[k] ==> x[k] <= v <= w[k])
  {
    RateBounds(eta, sigma, d, exp);
    PullStaysBetween(w, x, Rate(eta, sigma, d, exp), k);
  }

  /**
   * The weight vectors after one training step won by `(bi, bj)`: each one pulled towards `x` at the
   * rate of its grid distance to the winner.
   */
  function Learned(P: Prototypes, x: Vector, eta: real, sigma: real, bi: nat, bj: nat, exp: real -> real): (Q: Prototypes)
    requires sigma != 0.0 && Conforms(P, |x|)
    ensures |Q| == |P| && forall i :: 0 <= i < |P| ==> |Q[i]| == |P[i]|
  {
    seq(|P|, i requires 0 <= i < |P| =>
      seq(|P[i]|, j requires 0 <= j < |P[i]| => Pull(P[i][j], x, Rate(eta, sigma, GridDistance(i, j, bi, bj), exp))))
  }

  lemma LearnedAt(P: Prototypes, x: Vector, eta: real, sigma: real, bi: nat, bj: nat, exp: real -> real)
    requires sigma != 0.0 && Conforms(P, |x|)
    ensures forall i, j :: InGrid(P, i, j) ==>
      Learned(P, x, eta, sigma, bi, bj, exp)[i][j] == Pull(P[i][j], x, Rate(eta, sigma, GridDistance(i, j, bi, bj), exp))
  {
  }

  /** One neuron: a weight vector, its fixed position `(posx, posy)` in the grid and its last output `y`. */
  class Neuron {
    const weights: array<real>
    const posx: int
    const posy: int
    var y: real

    constructor (w: Vector, posx: int, posy: int)
      ensures fresh(weights) && weights[..] == w
      ensures this.posx == posx && this.posy == posy && y == 0.0
    {
      weights := new real[|w|](k requires 0 <= k < |w| => w[k]);
      this.posx := posx;
      this.posy := posy;
      y := 0.0;
    }

    /** The output is the Euclidean distance between the input and the weights. */
    method Compute(x: Vector, sqrt: real -> real)
      requires |x| == weights.Length
      modifies this
      ensures y == Distance(x, weights[..], sqrt)
    {
      y := sqrt(SqDist(x, weights[..]));
    }

    /** Kohonen's rule, applied in place: each weight moves towards `x` by the neighbourhood-scaled rate. */
    method Learn(eta: real, sigma: real, posxbmu: int, posybmu: int, x: Vector, exp: real -> real)
      requires |x| == weights.Length && sigma != 0.0
      modifies weights
      ensures weights[..] == Pull(old(weights[..]), x, Rate(eta, sigma, GridDistance(posx, posy, posxbmu, posybmu), exp))
    {
      var h := Rate(eta, sigma, GridDistance(posx, posy, posxbmu, posybmu), exp);
      ghost var w := weights[..];
      forall k | 0 <= k < weights.Length {
        weights[k] := PullCoordinate(weights[k], x[k], h);
      }
      forall k | 0 <= k < weights.Length
        ensures weights[k] == Pull(w, x, h)[k]
      {
        PullAt(w, x, h, k);
      }
    }
  }

  /**
   * One row of the map as the source builds it: the neurons of row `posx`, their weight arrays and their
   * initial outputs, each weight array fresh and held by one neuron only.
   */
  ghost predicate IsLine(mline: seq<Neuron>, wmline: seq<array<real>>, amline: seq<real>, posx: int, w: seq<Vector>)
    reads set b | 0 <= b < |mline| :: mline[b]
    reads set b | 0 <= b < |mline| :: mline[b].weights
  {
    |mline| == |w| && |wmline| == |w| && |amline| == |w| &&
    (forall b :: 0 <= b < |w| ==>
      mline[b].posx == posx && mline[b].posy == b && mline[b].y == 0.0 && amline[b] == 0.0 &&
      mline[b].weights[..] == w[b] && wmline[b] == mline[b].weights) &&
    (forall b, d :: 0 <= b < |w| && 0 <= d < |w| && mline[b].weights == mline[d].weights ==> b == d)
  }

  method NewLine(w: seq<Vector>, posx: int) returns (mline: seq<Neuron>, wmline: seq<array<real>>, amline: seq<real>)
    ensures IsLine(mline, wmline, amline, posx, w)
    ensures forall b :: 0 <= b < |w| ==> fresh(mline[b]) && fresh(mline[b].weights)
  {
    mline, wmline, amline := [], [], [];
    var posy := 0;
    while posy < |w|
      invariant 0 <= posy <= |w|
      invariant IsLine(mline, wmline, amline, posx, w[..posy])
      invariant forall b :: 0 <= b < posy ==> fresh(mline[b]) && fresh(mline[b].weights)
    {
      var neuron := new Neuron(w[posy], posx, posy);
      mline := mline + [neuron];
      wmline := wmline + [neuron.weights];
      amline := amline + [neuron.y];
      posy := posy + 1;
    }
  }

  /**
   * The first `|m|` rows of the map: row `a` is a line built from `init[a]` with `cols` neurons, and no
   * two neurons of the grid share a weight array.
   */
  ghost predicate IsGrid(m: seq<seq<Neuron>>, wm: seq<seq<array<real>>>, am: seq<seq<real>>, init: seq<seq<Vector>>, cols: nat)
    reads set a, b | 0 <= a < |m| && 0 <= b < |m[a]| :: m[a][b]
    reads set a, b | 0 <= a < |m| && 0 <= b < |m[a]| :: m[a][b].weights
  {
    |wm| == |m| && |am| == |m| && |m| <= |init| &&
    (forall a :: 0 <= a < |m| ==> |m[a]| == cols && IsLine(m[a], wm[a], am[a], a, init[a])) &&
    forall a, b, c, d ::
      (0 <= a < |m| && 0 <= b < cols && 0 <= c < |m| && 0 <= d < cols && m[a][b].weights == m[c][d].weights) ==>
      a == c && b == d
  }

  /** The outer loop of the source's map construction: one line per row of `init`. */
  method NewGrid(init: seq<seq<Vector>>, cols: nat) returns (m: seq<seq<Neuron>>, wm: seq<seq<array<real>>>, am: seq<seq<real>>)
    requires forall i :: 0 <= i < |init| ==> |init[i]| == cols
    ensures |m| == |init| && IsGrid(m, wm, am, init, cols)
    ensures forall a, b :: 0 <= a < |m| && 0 <= b < cols ==> fresh(m[a][b]) && fresh(m[a][b].weights)
  {
    m, wm, am := [], [], [];
    var posx := 0;
    while posx < |init|
      invariant 0 <= posx <= |init| && |m| == posx
      invariant IsGrid(m, wm, am, init, cols)
      invariant forall a, b :: 0 <= a < posx && 0 <= b < cols ==> fresh(m[a][b]) && fresh(m[a][b].weights)
    {
      var mline, wmline, amline := NewLine(init[posx], posx);
      GridAppend(m, wm, am, init, cols, mline, wmline, amline);
      m := m + [mline];
      wm := wm + [wmline];
      am := am + [amline];
      posx := posx + 1;
    }
  }

  /**
   * The map construction of the source: the grid of neurons built from `init`, the arrays they own,
   * the activity map of their initial outputs, and (for the frames of the methods) the neurons and
   * arrays as ghost sets.
   */
  method BuildMap(init: seq<seq<Vector>>, rows: nat, cols: nat, n: nat)
    returns (m: seq<seq<Neuron>>, wm: seq<seq<array<real>>>, ghost cs: set<Neuron>, ghost ws: set<array<real>>, act: array2<real>)
    requires |init| == rows && forall a :: 0 <= a < rows ==> |init[a]| == cols
    requires forall a, b :: 0 <= a < rows && 0 <= b < cols ==> |init[a][b]| == n
    ensures GridShape(m, wm, cs, ws, rows, cols, n)
    ensures forall a, b :: 0 <= a < rows && 0 <= b < cols ==> m[a][b].y == 0.0 && m[a][b].weights[..] == init[a][b]
    ensures fresh(cs) && fresh(ws) && fresh(act) && act.Length0 == rows && act.Length1 == cols
    ensures forall a, b :: 0 <= a < rows && 0 <= b < cols ==> act[a, b] == 0.0
  {
    var am;
    m, wm, am := NewGrid(init, cols);
    cs, ws := GridSets(m, cols);
    GridFacts(m, wm, am, init, cols, cs, ws, n);
    act := NewActivityMap(am, rows, cols);
  }

  /** The activity map as a `rows` x `cols` array holding the initial outputs `am`. */
  method NewActivityMap(am: seq<seq<real>>, rows: nat, cols: nat) returns (A: array2<real>)
    requires |am| == rows && forall a :: 0 <= a < rows ==> |am[a]| == cols
    ensures fresh(A) && A.Length0 == rows && A.Length1 == cols
    ensures forall a, b :: 0 <= a < rows && 0 <= b < cols ==> A[a, b] == am[a][b]
  {
    A := new real[rows, cols]((i, j) requires 0 <= i < rows && 0 <= j < cols => am[i][j]);
  }

  /** The neurons of a grid and their weight arrays, as two sets. */
  ghost method GridSets(m: seq<seq<Neuron>>, cols: nat) returns (cells: set<Neuron>, arrays: set<array<real>>)
    requires forall a :: 0 <= a < |m| ==> |m[a]| == cols
    ensures cells == set a, b | 0 <= a < |m| && 0 <= b < cols :: m[a][b]
    ensures arrays == set a, b | 0 <= a < |m| && 0 <= b < cols :: m[a][b].weights
    ensures forall a, b :: 0 <= a < |m| && 0 <= b < cols ==> m[a][b] in cells && m[a][b].weights in arrays
  {
    cells := set a, b | 0 <= a < |m| && 0 <= b < cols :: m[a][b];
    arrays := set a, b | 0 <= a < |m| && 0 <= b < cols :: m[a][b].weights;
  }

  /**
   * The heap-independent part of a built grid: its shape, the positions its neurons record, the arrays
   * `wm` lists, the sets that hold them and the distinctness of the arrays.
   */
  ghost predicate GridShape(m: seq<seq<Neuron>>, wm: seq<seq<array<real>>>, cs: set<Neuron>, ws: set<array<real>>,
                            rows: nat, cols: nat, n: nat)
  {
    |m| == rows && |wm| == rows &&
    (forall a :: 0 <= a < rows ==> |m[a]| == cols && |wm[a]| == cols) &&
    (forall a, b :: 0 <= a < rows && 0 <= b < cols ==>
      m[a][b].posx == a && m[a][b].posy == b && m[a][b].weights.Length == n &&
      wm[a][b] == m[a][b].weights && m[a][b] in cs && m[a][b].weights in ws) &&
    forall a, b, c, d ::
      (0 <= a < rows && 0 <= b < cols && 0 <= c < rows && 0 <= d < cols && m[a][b].weights == m[c][d].weights) ==>
      a == c && b == d
  }

  /** The facts of a grid, cell by cell. */
  lemma GridFacts(m: seq<seq<Neuron>>, wm: seq<seq<array<real>>>, am: seq<seq<real>>, init: seq<seq<Vector>>, cols: nat,
                  cs: set<Neuron>, ws: set<array<real>>, n: nat)
    requires IsGrid(m, wm, am, init, cols) && |m| == |init|
    requires forall a, b :: 0 <= a < |m| && 0 <= b < cols ==> |init[a][b]| == n
    requires forall a, b :: 0 <= a < |m| && 0 <= b < cols ==> m[a][b] in cs && m[a][b].weights in ws
    ensures GridShape(m, wm, cs, ws, |m|, cols, n)
    ensures forall a, b :: 0 <= a < |m| && 0 <= b < cols ==>
      m[a][b].y == 0.0 && am[a][b] == 0.0 && m[a][b].weights[..] == init[a][b]
  {
  }

  /** A new line whose arrays no earlier neuron holds extends the grid by one row. */
  lemma GridAppend(m: seq<seq<Neuron>>, wm: seq<seq<array<real>>>, am: seq<seq<real>>, init: seq<seq<Vector>>, cols: nat,
                   mline: seq<Neuron>, wmline: seq<array<real>>, amline: seq<real>)
    requires IsGrid(m, wm, am, init, cols) && |m| < |init| && |init[|m|]| == cols
    requires IsLine(mline, wmline, amline, |m|, init[|m|])
    requires forall a, b, d :: 0 <= a < |m| && 0 <= b < cols && 0 <= d < cols ==> m[a][b].weights != mline[d].weights
    ensures IsGrid(m + [mline], wm + [wmline], am + [amline], init, cols)
  {
    var m', wm', am' := m + [mline], wm + [wmline], am + [amline];
    forall a | 0 <= a < |m'|
      ensures |m'[a]| == cols && IsLine(m'[a], wm'[a], am'[a], a, init[a])
    {
      if a < |m| {
        assert m'[a] == m[a] && wm'[a] == wm[a] && am'[a] == am[a];
      }
    }
  }

  /** A rows x cols grid of neurons, the weight arrays they own and the map of their activities. */
  class SOM {
    const inputSize: nat
    const rows: nat
    const cols: nat
    const neurons: seq<seq<Neuron>>
    const weightsMap: seq<seq<array<real>>>
    const activityMap: array2<real>
    /** The neurons of the grid and their weight arrays, as sets for the frames of the methods. */
    ghost const cells: set<Neuron>
    ghost const arrays: set<array<real>>

    predicate InRange(i: int, j: int)
    {
      0 <= i < rows && 0 <= j < cols
    }

    /**
     * The grid has its declared shape; each neuron sits at its own position; `weightsMap` holds the
     * very arrays the neurons own; and no two neurons share a weight array.
     */
    ghost predicate Valid()
    {
      |neurons| == rows && |weightsMap| == rows &&
      activityMap.Length0 == rows && activityMap.Length1 == cols &&
      (forall i :: 0 <= i < rows ==> |neurons[i]| == cols && |weightsMap[i]| == cols) &&
      (forall i, j :: InRange(i, j) ==>
        neurons[i][j].posx == i && neurons[i][j].posy == j &&
        neurons[i][j].weights.Length == inputSize && weightsMap[i][j] == neurons[i][j].weights &&
        neurons[i][j] in cells && neurons[i][j].weights in arrays) &&
      forall i, j, k, l {:trigger Apart(i, j, k, l)} :: Apart(i, j, k, l) ==> neurons[i][j].weights != neurons[k][l].weights
    }

    /** Two different cells of the grid. */
    predicate Apart(i: int, j: int, k: int, l: int)
    {
      InRange(i, j) && InRange(k, l) && (i != k || j != l)
    }


    /** The current weight vector of the neuron at `(i, j)`. */
    ghost function WeightsAt(i: nat, j: nat): (w: Vector)
      requires Valid() && InRange(i, j)
      reads neurons[i][j].weights
      ensures |w| == inputSize
    {
      neurons[i][j].weights[..]
    }

    /** The current weight vectors, row by row. */
    ghost function Prototypes(): (P: Prototypes)
      requires Valid()
      reads arrays
      ensures |P| == rows && forall i :: 0 <= i < rows ==> |P[i]| == cols
      ensures forall i, j :: InRange(i, j) ==> P[i][j] == WeightsAt(i, j)
    {
      seq(rows, i requires 0 <= i < rows reads arrays =>
        seq(cols, j requires 0 <= j < cols reads arrays => WeightsAt(i, j)))
    }

    /** The weight vectors are given (the source draws them uniformly from [0, 1)). */
    constructor (inputSize: nat, gridRows: nat, gridCols: nat, init: Prototypes)
      requires |init| == gridRows
      requires forall i :: 0 <= i < gridRows ==> |init[i]| == gridCols
      requires forall i, j :: 0 <= i < gridRows && 0 <= j < gridCols ==> |init[i][j]| == inputSize
      ensures Valid() && this.inputSize == inputSize && rows == gridRows && cols == gridCols
      ensures fresh(cells) && fresh(arrays) && fresh(activityMap)
      ensures Prototypes() == init
      ensures forall i, j :: InRange(i, j) ==> neurons[i][j].y == 0.0 && activityMap[i, j] == 0.0
    {
      var m, wm, act;
      ghost var cs, ws;
      m, wm, cs, ws, act := BuildMap(init, gridRows, gridCols, inputSize);
      this.inputSize := inputSize;
      rows := gridRows;
      cols := gridCols;
      neurons := m;
      weightsMap := wm;
      activityMap := act;
      cells := cs;
      arrays := ws;
      new;
      GridIsValid(m, wm);
      PrototypesAre(init);
    }

    /** The fields the constructor sets up from a freshly built grid make a valid map. */
    lemma GridIsValid(m: seq<seq<Neuron>>, wm: seq<seq<array<real>>>)
      requires neurons == m && weightsMap == wm
      requires activityMap.Length0 == rows && activityMap.Length1 == cols
      requires GridShape(m, wm, cells, arrays, rows, cols, inputSize)
      ensures Valid()
    {
    }

    /** A grid of values that agrees with every neuron's weights is the map's prototypes. */
    lemma PrototypesAre(P: Prototypes)
      requires Valid() && |P| == rows && forall i :: 0 <= i < rows ==> |P[i]| == cols
      requires forall i, j :: InRange(i, j) ==> P[i][j] == WeightsAt(i, j)
      ensures Prototypes() == P
    {
      forall i | 0 <= i < rows
        ensures Prototypes()[i] == P[i]
      {
      }
    }

    /** Every neuron computes its activity for `x`, and the activity map records it. */
    method Compute(x: Vector, sqrt: real -> real)
      requires Valid() && |x| == inputSize
      modifies cells, activityMap
      ensures Valid() && unchanged(arrays) && Prototypes() == old(Prototypes())
      ensures forall i, j :: InRange(i, j) ==> neurons[i][j].y == activityMap[i, j]
      ensures Conforms(Prototypes(), |x|) && Activities() == DistanceGrid(Prototypes(), x, sqrt)
    {
      var posx := 0;
      while posx < rows
        invariant 0 <= posx <= rows
        invariant forall a, b :: InRange(a, b) && a < posx ==>
          neurons[a][b].y == activityMap[a, b] && activityMap[a, b] == Distance(x, neurons[a][b].weights[..], sqrt)
      {
        var posy := 0;
        while posy < cols
          invariant 0 <= posy <= cols
          invariant forall a, b :: InRange(a, b) && (a < posx || (a == posx && b < posy)) ==>
            neurons[a][b].y == activityMap[a, b] && activityMap[a, b] == Distance(x, neurons[a][b].weights[..], sqrt)
        {
          neurons[posx][posy].Compute(x, sqrt);
          activityMap[posx, posy] := neurons[posx][posy].y;
          posy := posy + 1;
        }
        posx := posx + 1;
      }
      ActivitiesAreDistances(Prototypes(), x, sqrt);
    }

    /** The activity map as a grid of values. */
    function Activities(): (A: seq<seq<real>>)
      reads activityMap
      ensures |A| == activityMap.Length0
      ensures forall i :: 0 <= i < |A| ==> |A[i]| == activityMap.Length1
      ensures forall i, j :: 0 <= i < activityMap.Length0 && 0 <= j < activityMap.Length1 ==> A[i][j] == activityMap[i, j]
    {
      seq(activityMap.Length0, i requires 0 <= i < activityMap.Length0 reads activityMap =>
        seq(activityMap.Length1, j requires 0 <= j < activityMap.Length1 reads activityMap => activityMap[i, j]))
    }

    /**
     * The best-matching unit, the grid position of the first smallest activity: a cell of the
     * grid (`BestMatchingUnitIsFirstMin` says which).
     */
    function BestMatchingUnit(): (c: (nat, nat))
      requires Valid() && rows > 0 && cols > 0
      reads activityMap
      ensures InRange(c.0, c.1)
    {
      ArgMin(Activities())
    }

    /** The best-matching unit is the first cell in row-major order whose activity is the smallest. */
    lemma BestMatchingUnitIsFirstMin()
      requires Valid() && rows > 0 && cols > 0
      ensures IsFirstMinCell(Activities(), BestMatchingUnit().0, BestMatchingUnit().1)
    {
      ArgMinIsFirstMin(Activities());
    }

    /** The neuron at `(i, j)` learns; no other neuron's weights change. */
    method LearnCell(i: nat, j: nat, eta: real, sigma: real, bmux: int, bmuy: int, x: Vector, exp: real -> real)
      requires Valid() && InRange(i, j) && |x| == inputSize && sigma != 0.0
      modifies neurons[i][j].weights
      ensures WeightsAt(i, j) == Pull(old(WeightsAt(i, j)), x, Rate(eta, sigma, GridDistance(i, j, bmux, bmuy), exp))
      ensures forall a, b :: InRange(a, b) && (a != i || b != j) ==> WeightsAt(a, b) == old(WeightsAt(a, b))
    {
      neurons[i][j].Learn(eta, sigma, bmux, bmuy, x, exp);
      forall a, b | InRange(a, b) && (a != i || b != j)
        ensures neurons[a][b].weights != neurons[i][j].weights
      {
        assert Apart(a, b, i, j);
      }
    }

    /**
     * One training step: the first minimum of the activity map wins, and every neuron moves towards
     * `x` by `eta` times the neighbourhood factor of its Manhattan grid distance to the winner.
     */
    method Learn(eta: real, sigma: real, x: Vector, exp: real -> real)
      requires Valid() && rows > 0 && cols > 0 && |x| == inputSize && sigma != 0.0
      modifies arrays
      ensures Valid() && Conforms(old(Prototypes()), |x|)
      ensures var (bi, bj) := old(BestMatchingUnit()); Prototypes() == Learned(old(Prototypes()), x, eta, sigma, bi, bj, exp)
    {
      var bmu := BestMatchingUnit();
      LearnFrom(eta, sigma, bmu.0, bmu.1, x, exp);
    }

    /** The loops of `learn`: every neuron learns from the winner `(bmux, bmuy)`. */
    method LearnFrom(eta: real, sigma: real, bmux: nat, bmuy: nat, x: Vector, exp: real -> real)
      requires Valid() && |x| == inputSize && sigma != 0.0
      modifies arrays
      ensures Valid() && Conforms(old(Prototypes()), |x|)
      ensures Prototypes() == Learned(old(Prototypes()), x, eta, sigma, bmux, bmuy, exp)
    {
      ghost var P := Prototypes();
      assert Conforms(P, |x|);
      ghost var Q := Learned(P, x, eta, sigma, bmux, bmuy, exp);
      LearnedAt(P, x, eta, sigma, bmux, bmuy, exp);
      var posx := 0;
      while posx < rows
        invariant 0 <= posx <= rows
        invariant forall a, b :: InRange(a, b) && a < posx ==> WeightsAt(a, b) == Q[a][b]
        invariant forall a, b :: InRange(a, b) && a >= posx ==> WeightsAt(a, b) == P[a][b]
      {
        LearnRow(posx, eta, sigma, bmux, bmuy, x, exp, Q);
        posx := posx + 1;
      }
      PrototypesAre(Q);
    }

    /** The inner loop of `learn`: every neuron of row `posx` learns, and no other row changes. */
    method LearnRow(posx: nat, eta: real, sigma: real, bmux: nat, bmuy: nat, x: Vector, exp: real -> real, ghost Q: Prototypes)
      requires Valid() && posx < rows && |x| == inputSize && sigma != 0.0
      requires |Q| == rows && forall i :: 0 <= i < rows ==> |Q[i]| == cols
      requires forall b :: 0 <= b < cols ==>
        Q[posx][b] == Pull(WeightsAt(posx, b), x, Rate(eta, sigma, GridDistance(posx, b, bmux, bmuy), exp))
      modifies arrays
      ensures forall b :: 0 <= b < cols ==> WeightsAt(posx, b) == Q[posx][b]
      ensures forall a, b :: InRange(a, b) && a != posx ==> WeightsAt(a, b) == old(WeightsAt(a, b))
    {
      var posy := 0;
      while posy < cols
        invariant 0 <= posy <= cols
        invariant forall b :: 0 <= b < posy ==> WeightsAt(posx, b) == Q[posx][b]
        invariant forall b :: posy <= b < cols ==> WeightsAt(posx, b) == old(WeightsAt(posx, b))
        invariant forall a, b :: InRange(a, b) && a != posx ==> WeightsAt(a, b) == old(WeightsAt(a, b))
      {
        LearnCell(posx, posy, eta, sigma, bmux, bmuy, x, exp);
        posy := posy + 1;
      }
    }

    /** The smallest activity of the map. */
    function MinActivity(): (m: real)
      requires Valid() && rows > 0 && cols > 0
      reads activityMap
      ensures exists i, j :: InRange(i, j) && activityMap[i, j] == m
      ensures forall i, j :: InRange(i, j) ==> m <= activityMap[i, j]
    {
      GridMinIsMin(Activities());
      GridMin(Activities())
    }

    /**
     * The mean quantisation error over the samples `X`: the mean of the squared distance from each
     * sample to its nearest weight vector. Computing it leaves the activities of the last sample behind.
     */
    method MSE(X: seq<Vector>, sqrt: real -> real) returns (e: real)
      requires Valid() && rows > 0 && cols > 0 && |X| > 0
      requires forall t :: 0 <= t < |X| ==> |X[t]| == inputSize
      modifies cells, activityMap
      ensures Valid() && unchanged(arrays)
      ensures NonEmptyGrid(Prototypes()) && SamplesConform(Prototypes(), X)
      ensures e == QuantizationError(Prototypes(), X, sqrt)
      ensures Shows(X[|X| - 1], sqrt)
    {
      ghost var P := Prototypes();
      ghost var ds: seq<real> := [];
      var s := 0.0;
      var t := 0;
      while t < |X|
        invariant 0 <= t <= |X| && unchanged(arrays) && Prototypes() == P
        invariant |ds| == t && Accumulated(P, X, sqrt, ds, s)
        invariant t > 0 ==> Shows(X[t - 1], sqrt)
      {
        var m := NearestActivity(X[t], sqrt);
        assert Shows(X[t], sqrt);
        AccumulatedStep(P, X, sqrt, ds, s, m);
        s := s + Sq(m);
        ds := ds + [m];
        t := t + 1;
      }
      AccumulatedAll(P, X, sqrt, ds, s);
      e := s / (|X| as real);
    }

    /**
     * The state `compute(x)` leaves behind: every activity is that cell's distance to `x`, and every
     * neuron's output equals its activity.
     */
    ghost predicate Shows(x: Vector, sqrt: real -> real)
      reads cells, arrays, activityMap
    {
      Valid() && |x| == inputSize && Conforms(Prototypes(), |x|) && Activities() == DistanceGrid(Prototypes(), x, sqrt) &&
      forall i, j :: InRange(i, j) ==> neurons[i][j].y == activityMap[i, j]
    }

    /** One sample of `MSE`: the map computes `x`, and the smallest activity is read off. */
    method NearestActivity(x: Vector, sqrt: real -> real) returns (m: real)
      requires Valid() && rows > 0 && cols > 0 && |x| == inputSize
      modifies cells, activityMap
      ensures Valid() && unchanged(arrays) && Prototypes() == old(Prototypes())
      ensures NonEmptyGrid(Prototypes()) && Conforms(Prototypes(), |x|)
      ensures m == NearestDistance(Prototypes(), x, sqrt)
      ensures Shows(x, sqrt)
    {
      Compute(x, sqrt);
      m := MinActivity();
    }

    /** Once the map has computed `x`, its activities are the distances from `x` to the weight vectors. */
    lemma ActivitiesAreDistances(P: Prototypes, x: Vector, sqrt: real -> real)
      requires Valid() && |x| == inputSize
      requires |P| == rows && forall i :: 0 <= i < rows ==> |P[i]| == cols
      requires forall i, j :: InRange(i, j) ==> |P[i][j]| == inputSize && activityMap[i, j] == Distance(x, P[i][j], sqrt)
      ensures Conforms(P, |x|) && Activities() == DistanceGrid(P, x, sqrt)
    {
      var A, D := Activities(), DistanceGrid(P, x, sqrt);
      DistanceGridAt(P, x, sqrt);
      forall i | 0 <= i < rows
        ensures A[i] == D[i]
      {
      }
    }

    lemma PrototypesPlanar()
      requires Valid() && inputSize >= 2
      ensures Planar(Prototypes())
    {
    }

    /** `get_distance_with_neighbor(posx, posy)`: the planar squared distances to the chosen neighbours. */
    function DistanceWithNeighbor(posx: nat, posy: nat): (distance: real)
      requires Valid() && InRange(posx, posy) && inputSize >= 2
      reads arrays
      ensures Planar(Prototypes()) && distance == NeighborTerm(Prototypes(), posx, posy)
    {
      VerticalTerm(posx, posy) + HorizontalTerm(posx, posy)
    }

    /** The term of the neighbour in the row above, or in the row below for the first row. */
    function VerticalTerm(posx: nat, posy: nat): (distance: real)
      requires Valid() && InRange(posx, posy) && inputSize >= 2
      reads arrays
      ensures Planar(Prototypes()) && distance == XTerm(Prototypes(), posx, posy)
    {
      PrototypesPlanar();
      var here := neurons[posx][posy].weights;
      if posx != 0 then
        PairTerm(neurons[posx - 1][posy].weights[..], here[..])
      else if posx != |neurons| - 1 then
        PairTerm(here[..], neurons[posx + 1][posy].weights[..])
      else 0.0
    }

    /** The term of the neighbour to the left, or to the right for the first column. */
    function HorizontalTerm(posx: nat, posy: nat): (distance: real)
      requires Valid() && InRange(posx, posy) && inputSize >= 2
      reads arrays
      ensures Planar(Prototypes()) && distance == YTerm(Prototypes(), posx, posy)
    {
      PrototypesPlanar();
      var here := neurons[posx][posy].weights;
      if posy != 0 then
        PairTerm(neurons[posx][posy - 1].weights[..], here[..])
      else if posy != |neurons[posx]| - 1 then
        PairTerm(here[..], neurons[posx][posy + 1].weights[..])
      else 0.0
    }

    /** `get_map_dispertion()`: the neighbour terms summed over every cell of the map. */
    method MapDispersion() returns (distanceTotal: real)
      requires Valid() && inputSize >= 2
      ensures Planar(Prototypes()) && distanceTotal == Dispersion(Prototypes())
    {
      ghost var P := Prototypes();
      PrototypesPlanar();
      distanceTotal := 0.0;
      var i := 0;
      while i < |neurons|
        invariant 0 <= i <= |P| && distanceTotal == DispersionRows(P, i)
      {
        var j := 0;
        while j < |neurons[i]|
          invariant 0 <= j <= |P[i]| && distanceTotal == DispersionRows(P, i) + RowDispersion(P, i, j)
        {
          distanceTotal := distanceTotal + DistanceWithNeighbor(i, j);
          j := j + 1;
        }
        i := i + 1;
      }
    }
  }
}
