/** Real vectors and the update rule shared by the neurons of the map. */
module Vectors {

  type Vector = seq<real>

  function Sq(r: real): (s: real)
    ensures s >= 0.0
  {
    r * r
  }

  /** A non-zero real has a positive square. */
  lemma SqPositive(r: real)
    requires r != 0.0
    ensures Sq(r) > 0.0
  {
    if r > 0.0 {
      PositiveProduct(r, r, Sq(r));
    } else {
      NegativeFactors(r, r, Sq(r));
    }
  }

  lemma PositiveProduct(a: real, b: real, t: real)
    requires a > 0.0 && b > 0.0 && t == a * b
    ensures t > 0.0
  {
  }

  lemma NegativeFactors(a: real, b: real, t: real)
    requires a < 0.0 && b < 0.0 && t == a * b
    ensures t > 0.0
  {
  }

  function Abs(n: int): (a: nat)
    ensures a == n || a == -n
  {
    if n < 0 then -n else n
  }

  function Min(a: int, b: int): (m: int)
    ensures m <= a && m <= b && (m == a || m == b)
  {
    if a <= b then a else b
  }

  function Max(a: int, b: int): (m: int)
    ensures m >= a && m >= b && (m == a || m == b)
  {
    if a <= b then b else a
  }

  /** The square of the Euclidean distance between two vectors of one length. */
  function SqDist(a: Vector, b: Vector): (d: real)
    requires |a| == |b|
    ensures d >= 0.0
  {
    if |a| == 0 then 0.0 else SqDist(a[..|a| - 1], b[..|b| - 1]) + Sq(a[|a| - 1] - b[|b| - 1])
  }

  /** `sqrt` is a square root on the non-negative reals (numpy's norm and Python's `pow(_, 0.5)`). */
  ghost predicate IsSqrt(sqrt: real -> real)
  {
    forall r: real :: 0.0 <= r ==> 0.0 <= sqrt(r) && sqrt(r) * sqrt(r) == r
  }

  /** The Euclidean distance between `x` and `w`, with the square root as a parameter. */
  function Distance(x: Vector, w: Vector, sqrt: real -> real): real
    requires |x| == |w|
  {
    sqrt(SqDist(x, w))
  }

  /** `w + c * (x - w)`, coordinate by coordinate. */
  function Pull(w: Vector, x: Vector, c: real): (r: Vector)
    requires |x| == |w|
    ensures |r| == |w|
  {
    if |w| == 0 then [] else Pull(w[..|w| - 1], x[..|x| - 1], c) + [PullCoordinate(w[|w| - 1], x[|x| - 1], c)]
  }

  function PullCoordinate(w: real, x: real, c: real): real
  {
    w + c * (x - w)
  }

  lemma {:induction false} PullAt(w: Vector, x: Vector, c: real, k: nat)
    requires |x| == |w| && k < |w|
    ensures Pull(w, x, c)[k] == PullCoordinate(w[k], x[k], c)
  {
    if k < |w| - 1 {
      PullAt(w[..|w| - 1], x[..|x| - 1], c, k);
    }
  }

  /**
   * Pulling `w` towards `x` by a factor in [0, 1] never takes it farther from `x`, and a positive factor
   * takes a `w` other than `x` strictly closer.
   */
  lemma {:induction false} PullCloser(w: Vector, x: Vector, c: real)
    requires |x| == |w| && 0.0 <= c <= 1.0
    ensures SqDist(Pull(w, x, c), x) <= SqDist(w, x)
    ensures 0.0 < c && w != x ==> SqDist(Pull(w, x, c), x) < SqDist(w, x)
  {
    if |w| > 0 {
      var n := |w| - 1;
      var p := Pull(w, x, c);
      assert p[..n] == Pull(w[..n], x[..n], c) && p[n] == PullCoordinate(w[n], x[n], c);
      PullCloser(w[..n], x[..n], c);
      CoordinateCloser(w[n], x[n], c);
      assert SqDist(w, x) == SqDist(w[..n], x[..n]) + Sq(w[n] - x[n]);
      assert SqDist(p, x) == SqDist(p[..n], x[..n]) + Sq(p[n] - x[n]);
      if w[..n] == x[..n] && w[n] == x[n] {
        assert w == w[..n] + [w[n]] && x == x[..n] + [x[n]];
      }
    }
  }

  /** One coordinate: its distance to the input's never grows, and shrinks when `c > 0` and `w != x`. */
  lemma CoordinateCloser(w: real, x: real, c: real)
    requires 0.0 <= c <= 1.0
    ensures Sq(PullCoordinate(w, x, c) - x) <= Sq(w - x)
    ensures 0.0 < c && w != x ==> Sq(PullCoordinate(w, x, c) - x) < Sq(w - x)
  {
    var g, d := 1.0 - c, w - x;
    assert PullCoordinate(w, x, c) - x == g * d;
    assert Sq(g * d) == (g * g) * (d * d);
    MulBetween(g, g, g * g);
    if d != 0.0 {
      SqPositive(d);
    }
    ScaledBelow(g * g, d * d, (g * g) * (d * d));
  }

  lemma ScaledBelow(f: real, s: real, t: real)
    requires 0.0 <= f <= 1.0 && s >= 0.0 && t == f * s
    ensures t <= s
    ensures f < 1.0 && s > 0.0 ==> t < s
  {
  }

  /** With a factor in [0, 1], every new coordinate lies between the old coordinate and the input's. */
  lemma PullStaysBetween(w: Vector, x: Vector, c: real, k: nat)
    requires |x| == |w| && k < |w|
    requires 0.0 <= c <= 1.0
    ensures w[k] <= x[k] ==> w[k] <= Pull(w, x, c)[k] <= x[k]
    ensures x[k] <= w[k] ==> x[k] <= Pull(w, x, c)[k] <= w[k]
  {
    PullAt(w, x, c, k);
    CoordinateBetween(w[k], x[k], c);
  }

  lemma CoordinateBetween(w: real, x: real, c: real)
    requires 0.0 <= c <= 1.0
    ensures w <= x ==> w <= PullCoordinate(w, x, c) <= x
    ensures x <= w ==> x <= PullCoordinate(w, x, c) <= w
  {
    MulBetween(c, x - w, PullCoordinate(w, x, c) - w);
  }

  lemma MulBetween(c: real, d: real, t: real)
    requires 0.0 <= c <= 1.0 && t == c * d
    ensures d >= 0.0 ==> 0.0 <= t <= d
    ensures d <= 0.0 ==> d <= t <= 0.0
  {
  }
}
