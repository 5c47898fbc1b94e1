/**
 * The read-only queries over a trained map, `find_hand_position_v1/v2/v3`: they look for the cells
 * whose first two coordinates (the motor part) are nearest to a motor position, and answer with
 * coordinates 2 and 3 (the hand part) of those cells. The queries read only the weight vectors of the
 * grid they are given, so they take that grid as a value.
 */
module HandPosition {
  import opened Vectors
  import opened MapMeasures

  /** A point of the plane. */
  type Point = (real, real)

  /** Every cell holds the two motor coordinates and the two hand coordinates. */
  predicate HandGrid(G: seq<seq<Vector>>)
  {
    forall i, j :: 0 <= i < |G| && 0 <= j < |G[i]| ==> |G[i][j]| >= 4
  }

  /** The planar distance from the arm part of `w` (its first two coordinates) to `p`, with the square root as a parameter. */
  function CellDistance(w: Vector, p: Point, sqrt: real -> real): real
    requires |w| >= 2
  {
    sqrt(Sq(w[0] - p.0) + Sq(w[1] - p.1))
  }

  /** With a true square root, a motor distance is never negative. */
  lemma CellDistanceNonNegative(w: Vector, p: Point, sqrt: real -> real)
    requires |w| >= 2 && IsSqrt(sqrt)
    ensures CellDistance(w, p, sqrt) >= 0.0
  {
    assert 0.0 <= Sq(w[0] - p.0) + Sq(w[1] - p.1);
  }

  /** The motor distance of every cell of the grid to `p`. */
  function MotorDistances(G: seq<seq<Vector>>, p: Point, sqrt: real -> real): (D: seq<seq<real>>)
    requires HandGrid(G)
    ensures |D| == |G| && forall i :: 0 <= i < |G| ==> |D[i]| == |G[i]|
  {
    seq(|G|, i requires 0 <= i < |G| => seq(|G[i]|, j requires 0 <= j < |G[i]| => CellDistance(G[i][j], p, sqrt)))
  }

  lemma MotorDistancesAt(G: seq<seq<Vector>>, p: Point, sqrt: real -> real)
    requires HandGrid(G)
    ensures forall i, j :: InGrid(G, i, j) ==> MotorDistances(G, p, sqrt)[i][j] == CellDistance(G[i][j], p, sqrt)
  {
  }

  /** The answer built from one cell: its motor part and its hand part. */
  function Hand(w: Vector): (Point, Point)
    requires |w| >= 4
  {
    ((w[0], w[1]), (w[2], w[3]))
  }

  /** The first cell, in row-major order, at the smallest motor distance from `p`. */
  function NearestCell(G: seq<seq<Vector>>, p: Point, sqrt: real -> real): (c: (nat, nat))
    requires HandGrid(G) && HasOrigin(G)
    ensures InGrid(G, c.0, c.1)
  {
    ArgMin(MotorDistances(G, p, sqrt))
  }

  /** No cell is nearer than the nearest cell, and every cell before it is farther. */
  lemma NearestCellIsFirstMin(G: seq<seq<Vector>>, p: Point, sqrt: real -> real)
    requires HandGrid(G) && HasOrigin(G)
    ensures var c := NearestCell(G, p, sqrt); IsFirstMinCell(MotorDistances(G, p, sqrt), c.0, c.1)
  {
    ArgMinIsFirstMin(MotorDistances(G, p, sqrt));
  }

  /**
   * `find_hand_position_v1`: a scan that keeps the first cell strictly nearer than every cell seen
   * before it, starting from cell `(0, 0)`.
   */
  method FindHandPositionV1(G: seq<seq<Vector>>, p: Point, sqrt: real -> real) returns (hand: (Point, Point))
    requires HandGrid(G) && HasOrigin(G)
    ensures var c := NearestCell(G, p, sqrt);
      IsFirstMinCell(MotorDistances(G, p, sqrt), c.0, c.1) && hand == Hand(G[c.0][c.1])
  {
    ghost var D := MotorDistances(G, p, sqrt);
    MotorDistancesAt(G, p, sqrt);
    var closestValue := CellDistance(G[0][0], p, sqrt);
    var closestIndex: (nat, nat) := (0, 0);
    var i := 0;
    while i < |G|
      invariant 0 <= i <= |G|
      invariant InGrid(G, closestIndex.0, closestIndex.1) && closestValue == D[closestIndex.0][closestIndex.1]
      invariant closestIndex == (0, 0) || closestIndex.0 < i
      invariant forall a, b :: InGrid(G, a, b) && a < i ==>
        closestValue <= D[a][b] && (Before(a, b, closestIndex.0, closestIndex.1) ==> closestValue < D[a][b])
    {
      var j := 0;
      while j < |G[i]|
        invariant 0 <= j <= |G[i]|
        invariant InGrid(G, closestIndex.0, closestIndex.1) && closestValue == D[closestIndex.0][closestIndex.1]
        invariant closestIndex == (0, 0) || Before(closestIndex.0, closestIndex.1, i, j)
        invariant forall a, b :: InGrid(G, a, b) && Before(a, b, i, j) ==>
          closestValue <= D[a][b] && (Before(a, b, closestIndex.0, closestIndex.1) ==> closestValue < D[a][b])
      {
        var d := CellDistance(G[i][j], p, sqrt);
        if d < closestValue {
          closestValue := d;
          closestIndex := (i, j);
        }
        j := j + 1;
      }
      i := i + 1;
    }
    var c := NearestCell(G, p, sqrt);
    NearestCellIsFirstMin(G, p, sqrt);
    FirstMinCellUnique(D, closestIndex.0, closestIndex.1, c.0, c.1);
    hand := Hand(G[closestIndex.0][closestIndex.1]);
  }

  // ---------------------------------------------------------------------------------------------
  // The running list `closest_values` of `find_hand_position_v2` and `find_hand_position_v3`.

  /** An entry of `closest_values`: a cell and its motor distance. */
  datatype Candidate = Candidate(cell: (nat, nat), dist: real)

  predicate Sorted(L: seq<Candidate>)
  {
    forall a, b :: 0 <= a < b < |L| ==> L[a].dist <= L[b].dist
  }

  function CellsOf(L: seq<Candidate>): (cs: seq<(nat, nat)>)
    ensures |cs| == |L| && forall a :: 0 <= a < |L| ==> cs[a] == L[a].cell
  {
    seq(|L|, a requires 0 <= a < |L| => L[a].cell)
  }

  /**
   * Appending `e` to a list ordered by distance and re-sorting it by distance: the sort is stable, so
   * `e` lands after every entry at most as far and before every farther one (`InsertPlaces`).
   */
  function Insert(L: seq<Candidate>, e: Candidate): (r: seq<Candidate>)
    ensures |r| == |L| + 1
  {
    if |L| == 0 then [e]
    else if L[|L| - 1].dist <= e.dist then L + [e]
    else Insert(L[..|L| - 1], e) + [L[|L| - 1]]
  }

  /** Where `Insert` puts the new entry. */
  function InsertPosition(L: seq<Candidate>, e: Candidate): (q: nat)
    ensures q <= |L|
  {
    if |L| == 0 || L[|L| - 1].dist <= e.dist then |L| else InsertPosition(L[..|L| - 1], e)
  }

  /** Inserting into a sorted list keeps the old entries in their order, with `e` after the
      entries at most as far and before the farther ones. */
  lemma {:induction false} InsertPlaces(L: seq<Candidate>, e: Candidate)
    requires Sorted(L)
    ensures var q := InsertPosition(L, e);
      Insert(L, e) == L[..q] + [e] + L[q..] &&
      (forall a :: 0 <= a < q ==> L[a].dist <= e.dist) &&
      (forall a :: q <= a < |L| ==> e.dist < L[a].dist)
  {
    if |L| > 0 && e.dist < L[|L| - 1].dist {
      var L' := L[..|L| - 1];
      InsertPlaces(L', e);
      var q := InsertPosition(L', e);
      assert L'[..q] == L[..q];
      assert L'[q..] + [L[|L| - 1]] == L[q..];
    } else if |L| > 0 {
      assert L[..|L|] == L;
    }
  }

  /** The result of inserting into a sorted list is sorted. */
  lemma InsertSorted(L: seq<Candidate>, e: Candidate)
    requires Sorted(L)
    ensures Sorted(Insert(L, e))
  {
    InsertPlaces(L, e);
  }

  /**
   * One step of the scan: while the list is short, the cell is added; once it holds `k` entries, the
   * cell replaces the last (farthest) entry when it is strictly nearer; the list is sorted again.
   */
  function Step(L: seq<Candidate>, e: Candidate, k: nat): (r: seq<Candidate>)
    requires 1 <= k && |L| <= k
    ensures |r| == Min(|L| + 1, k)
  {
    if |L| < k then Insert(L, e)
    else if e.dist < L[k - 1].dist then Insert(L[..k - 1], e)
    else L
  }

  /** `(i, j)` is a point of the row-major scan: a cell, the end of a row, or the end of the grid. */
  predicate ScanPoint<T>(G: seq<seq<T>>, i: nat, j: nat)
  {
    (i < |G| && j <= |G[i]|) || (i == |G| && j == 0)
  }

  /** The list after the scan has visited every cell before `(i, j)`. */
  function ScanTo(G: seq<seq<Vector>>, p: Point, sqrt: real -> real, k: nat, i: nat, j: nat): (L: seq<Candidate>)
    requires HandGrid(G) && 1 <= k && ScanPoint(G, i, j)
    ensures |L| <= k
    decreases i, j
  {
    if j > 0 then Step(ScanTo(G, p, sqrt, k, i, j - 1), Candidate((i, j - 1), CellDistance(G[i][j - 1], p, sqrt)), k)
    else if i == 0 then []
    else ScanTo(G, p, sqrt, k, i - 1, |G[i - 1]|)
  }

  /** The final `closest_values` of a scan of the whole grid. */
  function TopK(G: seq<seq<Vector>>, p: Point, sqrt: real -> real, k: nat): (L: seq<Candidate>)
    requires HandGrid(G) && 1 <= k
  {
    ScanTo(G, p, sqrt, k, |G|, 0)
  }

  /** The number of cells in the first `i` rows. */
  function RowsCells<T>(G: seq<seq<T>>, i: nat): nat
    requires i <= |G|
  {
    if i == 0 then 0 else RowsCells(G, i - 1) + |G[i - 1]|
  }

  function CellCount<T>(G: seq<seq<T>>): nat
  {
    RowsCells(G, |G|)
  }

  /** Cell `c` of the grid comes before scan point `(i, j)`. */
  predicate Scanned<T>(G: seq<seq<T>>, c: (nat, nat), i: nat, j: nat)
  {
    InGrid(G, c.0, c.1) && Before(c.0, c.1, i, j)
  }

  predicate CellBefore(c: (nat, nat), d: (nat, nat))
  {
    Before(c.0, c.1, d.0, d.1)
  }

  function Dist(G: seq<seq<Vector>>, p: Point, sqrt: real -> real, c: (nat, nat)): real
    requires HandGrid(G) && InGrid(G, c.0, c.1)
  {
    CellDistance(G[c.0][c.1], p, sqrt)
  }

  /** Every entry is a scanned cell with its own distance. */
  ghost predicate Measured(G: seq<seq<Vector>>, p: Point, sqrt: real -> real, L: seq<Candidate>, i: nat, j: nat)
    requires HandGrid(G)
  {
    forall x :: x in L ==> Scanned(G, x.cell, i, j) && x.dist == Dist(G, p, sqrt, x.cell)
  }

  /** Sorted by distance, no cell twice, and entries at equal distance in scan order. */
  predicate Ordered(L: seq<Candidate>)
  {
    forall a, b :: 0 <= a < b < |L| ==>
      L[a].dist <= L[b].dist && L[a].cell != L[b].cell && (L[a].dist == L[b].dist ==> CellBefore(L[a].cell, L[b].cell))
  }

  /** No scanned cell left out is nearer than an entry, and one as near comes after it in scan order. */
  ghost predicate Dominates(G: seq<seq<Vector>>, p: Point, sqrt: real -> real, L: seq<Candidate>, i: nat, j: nat)
    requires HandGrid(G)
  {
    forall c, x :: Scanned(G, c, i, j) && c !in CellsOf(L) && x in L ==>
      x.dist <= Dist(G, p, sqrt, c) && (x.dist == Dist(G, p, sqrt, c) ==> CellBefore(x.cell, c))
  }

  /** Every scanned cell is in the list. */
  ghost predicate Complete<T>(G: seq<seq<T>>, L: seq<Candidate>, i: nat, j: nat)
  {
    forall c :: Scanned(G, c, i, j) ==> c in CellsOf(L)
  }

  /**
   * `L` is what a stable top-`k` selection over the cells scanned before `(i, j)` keeps; a list
   * shorter than `k` holds every scanned cell.
   */
  ghost predicate Ranked(G: seq<seq<Vector>>, p: Point, sqrt: real -> real, k: nat, L: seq<Candidate>, i: nat, j: nat)
    requires HandGrid(G)
  {
    Measured(G, p, sqrt, L, i, j) && Ordered(L) && Dominates(G, p, sqrt, L, i, j) &&
    (|L| < k ==> Complete(G, L, i, j))
  }

  /** The cells scanned before `(i, j + 1)` are those before `(i, j)` and the cell `(i, j)`. */
  lemma ScannedNext<T>(G: seq<seq<T>>, i: nat, j: nat)
    requires i < |G| && j < |G[i]|
    ensures forall c :: Scanned(G, c, i, j + 1) <==> Scanned(G, c, i, j) || c == (i, j)
  {
  }

  /** The end of row `i - 1` and the start of row `i` have scanned the same cells. */
  lemma ScannedRowEnd<T>(G: seq<seq<T>>, i: nat)
    requires 0 < i <= |G|
    ensures forall c :: Scanned(G, c, i - 1, |G[i - 1]|) <==> Scanned(G, c, i, 0)
  {
  }

  lemma CellsOfAppend(A: seq<Candidate>, B: seq<Candidate>)
    ensures CellsOf(A + B) == CellsOf(A) + CellsOf(B)
  {
  }

  /** Inserting adds exactly the new entry and its cell. */
  lemma InsertMembers(L: seq<Candidate>, e: Candidate)
    requires Sorted(L)
    ensures forall x :: x in Insert(L, e) <==> x in L || x == e
    ensures forall c :: c in CellsOf(Insert(L, e)) <==> c in CellsOf(L) || c == e.cell
  {
    InsertPlaces(L, e);
    var q := InsertPosition(L, e);
    assert L == L[..q] + L[q..];
    CellsOfAppend(L[..q], L[q..]);
    CellsOfAppend(L[..q] + [e], L[q..]);
    CellsOfAppend(L[..q], [e]);
    assert CellsOf([e]) == [e.cell];
  }

  /** `Insert` entry by entry: the entries before the insert position, `e`, then the rest shifted by one. */
  lemma InsertAt(L: seq<Candidate>, e: Candidate)
    requires Sorted(L)
    ensures var q := InsertPosition(L, e);
      (forall a :: 0 <= a < q ==> Insert(L, e)[a] == L[a] && L[a].dist <= e.dist) &&
      Insert(L, e)[q] == e &&
      (forall a :: q < a <= |L| ==> Insert(L, e)[a] == L[a - 1] && e.dist < L[a - 1].dist)
  {
    InsertPlaces(L, e);
  }

  /** An entry whose cell comes after every listed cell keeps the list ordered when inserted. */
  lemma InsertOrdered(L: seq<Candidate>, e: Candidate)
    requires Ordered(L)
    requires forall x :: x in L ==> CellBefore(x.cell, e.cell)
    ensures Ordered(Insert(L, e))
  {
    assert Sorted(L);
    InsertAt(L, e);
    var q := InsertPosition(L, e);
    var L' := Insert(L, e);
    forall a, b | 0 <= a < b < |L'|
      ensures L'[a].dist <= L'[b].dist && L'[a].cell != L'[b].cell &&
        (L'[a].dist == L'[b].dist ==> CellBefore(L'[a].cell, L'[b].cell))
    {
      if b < q {
        assert L'[a] == L[a] && L'[b] == L[b];
      } else if b == q {
        assert L'[a] == L[a] && L[a] in L;
      } else if a < q {
        assert L'[a] == L[a] && L'[b] == L[b - 1];
      } else if a == q {
        assert L'[b] == L[b - 1] && L[b - 1] in L;
      } else {
        assert L'[a] == L[a - 1] && L'[b] == L[b - 1];
      }
    }
  }

  /** The new cell comes after every cell the list holds. */
  lemma NewCellLast(G: seq<seq<Vector>>, p: Point, sqrt: real -> real, L: seq<Candidate>, i: nat, j: nat)
    requires HandGrid(G) && Measured(G, p, sqrt, L, i, j)
    ensures forall x :: x in L ==> CellBefore(x.cell, (i, j))
  {
  }

  /** Inserting the next cell with its distance keeps every entry a scanned cell with its distance. */
  lemma InsertMeasured(G: seq<seq<Vector>>, p: Point, sqrt: real -> real, L: seq<Candidate>, i: nat, j: nat)
    requires HandGrid(G) && i < |G| && j < |G[i]| && Sorted(L) && Measured(G, p, sqrt, L, i, j)
    ensures Measured(G, p, sqrt, Insert(L, Candidate((i, j), Dist(G, p, sqrt, (i, j)))), i, j + 1)
  {
    InsertMembers(L, Candidate((i, j), Dist(G, p, sqrt, (i, j))));
    ScannedNext(G, i, j);
  }

  /** A prefix of a list keeps its members, order and measurements. */
  lemma PrefixFacts(G: seq<seq<Vector>>, p: Point, sqrt: real -> real, L: seq<Candidate>, n: nat, i: nat, j: nat)
    requires HandGrid(G) && n <= |L| && Ordered(L) && Measured(G, p, sqrt, L, i, j)
    ensures forall y :: y in L[..n] ==> y in L
    ensures Ordered(L[..n]) && Sorted(L[..n]) && Measured(G, p, sqrt, L[..n], i, j)
  {
    forall y | y in L[..n]
      ensures y in L
    {
      var a :| 0 <= a < n && L[..n][a] == y;
      assert L[a] == y;
    }
  }

  /** Visiting a cell that the list has room for keeps the ranking. */
  lemma StepAppend(G: seq<seq<Vector>>, p: Point, sqrt: real -> real, k: nat, L: seq<Candidate>, i: nat, j: nat)
    requires HandGrid(G) && i < |G| && j < |G[i]| && 1 <= k && |L| < k
    requires Ranked(G, p, sqrt, k, L, i, j)
    ensures Ranked(G, p, sqrt, k, Insert(L, Candidate((i, j), Dist(G, p, sqrt, (i, j)))), i, j + 1)
  {
    var e := Candidate((i, j), Dist(G, p, sqrt, (i, j)));
    var L' := Insert(L, e);
    InsertMembers(L, e);
    ScannedNext(G, i, j);
    InsertMeasured(G, p, sqrt, L, i, j);
    NewCellLast(G, p, sqrt, L, i, j);
    InsertOrdered(L, e);
    assert Complete(G, L', i, j + 1);
  }

  /** Visiting a cell strictly nearer than the last entry of a full list keeps the ranking. */
  lemma StepReplace(G: seq<seq<Vector>>, p: Point, sqrt: real -> real, k: nat, L: seq<Candidate>, i: nat, j: nat)
    requires HandGrid(G) && i < |G| && j < |G[i]| && 1 <= k && |L| == k
    requires Ranked(G, p, sqrt, k, L, i, j)
    requires Dist(G, p, sqrt, (i, j)) < L[k - 1].dist
    ensures Ranked(G, p, sqrt, k, Insert(L[..k - 1], Candidate((i, j), Dist(G, p, sqrt, (i, j)))), i, j + 1)
  {
    var e := Candidate((i, j), Dist(G, p, sqrt, (i, j)));
    var K := L[..k - 1];
    var x := L[k - 1];
    SplitLast(L);
    PrefixFacts(G, p, sqrt, L, k - 1, i, j);
    InsertMeasured(G, p, sqrt, K, i, j);
    NewCellLast(G, p, sqrt, K, i, j);
    InsertOrdered(K, e);
    ReplaceDominates(G, p, sqrt, L, K, x, e, i, j);
  }

  /** A non-empty list is its prefix followed by its last entry. */
  lemma SplitLast(L: seq<Candidate>)
    requires |L| > 0
    ensures L == L[..|L| - 1] + [L[|L| - 1]] && L[|L| - 1] in L
  {
  }

  /** Pointwise `InsertMembers`. */
  lemma InsertMemberAt(L: seq<Candidate>, e: Candidate, y: Candidate, c: (nat, nat))
    requires Sorted(L)
    ensures y in Insert(L, e) <==> y in L || y == e
    ensures c in CellsOf(Insert(L, e)) <==> c in CellsOf(L) || c == e.cell
  {
    InsertMembers(L, e);
  }

  /** Pointwise `ScannedNext`. */
  lemma ScannedNextAt<T>(G: seq<seq<T>>, i: nat, j: nat, c: (nat, nat))
    requires i < |G| && j < |G[i]|
    ensures Scanned(G, c, i, j + 1) <==> Scanned(G, c, i, j) || c == (i, j)
  {
  }

  /** The cells of a list with one more entry at the end. */
  lemma LastCellAt(K: seq<Candidate>, x: Candidate, c: (nat, nat))
    ensures c in CellsOf(K + [x]) <==> c in CellsOf(K) || c == x.cell
  {
    CellsOfAppend(K, [x]);
    assert CellsOf([x]) == [x.cell];
  }

  /** An entry of an ordered list before its last entry `x` is at most as far, and comes first when as far. */
  lemma FarthestAt(K: seq<Candidate>, x: Candidate, y: Candidate)
    requires Ordered(K + [x]) && y in K
    ensures y.dist <= x.dist && y.cell != x.cell && (y.dist == x.dist ==> CellBefore(y.cell, x.cell))
  {
    var a :| 0 <= a < |K| && K[a] == y;
    assert (K + [x])[a] == y && (K + [x])[|K|] == x;
  }

  /** The dominance half of `StepReplace`. */
  lemma ReplaceDominates(G: seq<seq<Vector>>, p: Point, sqrt: real -> real, L: seq<Candidate>, K: seq<Candidate>,
                         x: Candidate, e: Candidate, i: nat, j: nat)
    requires HandGrid(G) && i < |G| && j < |G[i]| && L == K + [x] && Sorted(K) && Ordered(L)
    requires e == Candidate((i, j), Dist(G, p, sqrt, (i, j))) && e.dist < x.dist
    requires Scanned(G, x.cell, i, j) && x.dist == Dist(G, p, sqrt, x.cell)
    requires Dominates(G, p, sqrt, L, i, j)
    ensures Dominates(G, p, sqrt, Insert(K, e), i, j + 1)
  {
    var L' := Insert(K, e);
    assert x in L;
    forall c, y | Scanned(G, c, i, j + 1) && c !in CellsOf(L') && y in L'
      ensures y.dist <= Dist(G, p, sqrt, c) && (y.dist == Dist(G, p, sqrt, c) ==> CellBefore(y.cell, c))
    {
      ScannedNextAt(G, i, j, c);
      InsertMemberAt(K, e, y, c);
      LastCellAt(K, x, c);
      if c == x.cell {
        if y != e {
          FarthestAt(K, x, y);
        }
      } else if y != e {
        assert y in L;
      }
    }
  }

  /** Visiting a cell no nearer than the last entry of a full list keeps the ranking. */
  lemma StepSkip(G: seq<seq<Vector>>, p: Point, sqrt: real -> real, k: nat, L: seq<Candidate>, i: nat, j: nat)
    requires HandGrid(G) && i < |G| && j < |G[i]| && 1 <= k && |L| == k
    requires Ranked(G, p, sqrt, k, L, i, j)
    requires L[k - 1].dist <= Dist(G, p, sqrt, (i, j))
    ensures Ranked(G, p, sqrt, k, L, i, j + 1)
  {
    SkipMeasured(G, p, sqrt, L, i, j);
    SkipDominates(G, p, sqrt, k, L, i, j);
  }

  /** The measurement half of `StepSkip`. */
  lemma SkipMeasured(G: seq<seq<Vector>>, p: Point, sqrt: real -> real, L: seq<Candidate>, i: nat, j: nat)
    requires HandGrid(G) && i < |G| && j < |G[i]|
    requires Measured(G, p, sqrt, L, i, j)
    ensures Measured(G, p, sqrt, L, i, j + 1)
  {
    forall y | y in L
      ensures Scanned(G, y.cell, i, j + 1)
    {
      ScannedNextAt(G, i, j, y.cell);
    }
  }

  /** The dominance half of `StepSkip`. */
  lemma SkipDominates(G: seq<seq<Vector>>, p: Point, sqrt: real -> real, k: nat, L: seq<Candidate>, i: nat, j: nat)
    requires HandGrid(G) && i < |G| && j < |G[i]| && 1 <= k && |L| == k
    requires Sorted(L) && Dominates(G, p, sqrt, L, i, j) && Measured(G, p, sqrt, L, i, j)
    requires L[k - 1].dist <= Dist(G, p, sqrt, (i, j))
    ensures Dominates(G, p, sqrt, L, i, j + 1)
  {
    forall c, y | Scanned(G, c, i, j + 1) && c !in CellsOf(L) && y in L
      ensures y.dist <= Dist(G, p, sqrt, c) && (y.dist == Dist(G, p, sqrt, c) ==> CellBefore(y.cell, c))
    {
      ScannedNextAt(G, i, j, c);
      if c == (i, j) {
        SkippedCellAt(G, p, sqrt, k, L, i, j, y);
      }
    }
  }

  /** Every entry of a full list is at most as far as a skipped cell, and comes before it. */
  lemma SkippedCellAt(G: seq<seq<Vector>>, p: Point, sqrt: real -> real, k: nat, L: seq<Candidate>, i: nat, j: nat,
                      y: Candidate)
    requires HandGrid(G) && i < |G| && j < |G[i]| && 1 <= k && |L| == k
    requires Sorted(L) && Measured(G, p, sqrt, L, i, j) && y in L
    requires L[k - 1].dist <= Dist(G, p, sqrt, (i, j))
    ensures y.dist <= Dist(G, p, sqrt, (i, j)) && CellBefore(y.cell, (i, j))
  {
    var a :| 0 <= a < |L| && L[a] == y;
    assert L[a].dist <= L[k - 1].dist;
  }

  /** Moving from the end of a row to the start of the next keeps the ranking. */
  lemma RankedRowEnd(G: seq<seq<Vector>>, p: Point, sqrt: real -> real, k: nat, L: seq<Candidate>, i: nat)
    requires HandGrid(G) && 0 < i <= |G|
    requires Ranked(G, p, sqrt, k, L, i - 1, |G[i - 1]|)
    ensures Ranked(G, p, sqrt, k, L, i, 0)
  {
    ScannedRowEnd(G, i);
  }

  /** One step of the scan keeps the ranking. */
  lemma StepRanked(G: seq<seq<Vector>>, p: Point, sqrt: real -> real, k: nat, L: seq<Candidate>, L': seq<Candidate>,
                   i: nat, j: nat)
    requires HandGrid(G) && i < |G| && j < |G[i]| && 1 <= k && |L| <= k
    requires L' == Step(L, Candidate((i, j), CellDistance(G[i][j], p, sqrt)), k)
    requires Ranked(G, p, sqrt, k, L, i, j)
    ensures Ranked(G, p, sqrt, k, L', i, j + 1)
  {
    var d := Dist(G, p, sqrt, (i, j));
    if |L| < k {
      StepAppend(G, p, sqrt, k, L, i, j);
    } else if d < L[k - 1].dist {
      StepReplace(G, p, sqrt, k, L, i, j);
    } else {
      StepSkip(G, p, sqrt, k, L, i, j);
    }
  }

  /** Before the scan, the empty list is ranked. */
  lemma EmptyRanked(G: seq<seq<Vector>>, p: Point, sqrt: real -> real, k: nat)
    requires HandGrid(G)
    ensures Ranked(G, p, sqrt, k, [], 0, 0)
  {
    assert CellsOf([]) == [];
  }

  /** How `ScanTo` moves from one scan point to the next. */
  lemma ScanToNext(G: seq<seq<Vector>>, p: Point, sqrt: real -> real, k: nat, i: nat, j: nat)
    requires HandGrid(G) && 1 <= k && ScanPoint(G, i, j)
    ensures j > 0 ==>
      ScanTo(G, p, sqrt, k, i, j) ==
      Step(ScanTo(G, p, sqrt, k, i, j - 1), Candidate((i, j - 1), CellDistance(G[i][j - 1], p, sqrt)), k)
    ensures j == 0 && i > 0 ==> ScanTo(G, p, sqrt, k, i, j) == ScanTo(G, p, sqrt, k, i - 1, |G[i - 1]|)
    ensures j == 0 && i == 0 ==> ScanTo(G, p, sqrt, k, i, j) == []
  {
  }

  /** Every scan point's list is ranked. */
  lemma {:induction false} ScanRanked(G: seq<seq<Vector>>, p: Point, sqrt: real -> real, k: nat, i: nat, j: nat)
    requires HandGrid(G) && 1 <= k && ScanPoint(G, i, j)
    ensures Ranked(G, p, sqrt, k, ScanTo(G, p, sqrt, k, i, j), i, j)
    decreases i, j, 1
  {
    if j > 0 {
      ScanRankedStep(G, p, sqrt, k, i, j);
    } else if i > 0 {
      ScanRankedRow(G, p, sqrt, k, i);
    } else {
      ScanToNext(G, p, sqrt, k, i, j);
      EmptyRanked(G, p, sqrt, k);
    }
  }

  /** The induction step within a row. */
  lemma {:induction false} ScanRankedStep(G: seq<seq<Vector>>, p: Point, sqrt: real -> real, k: nat, i: nat, j: nat)
    requires HandGrid(G) && 1 <= k && ScanPoint(G, i, j) && j > 0
    ensures Ranked(G, p, sqrt, k, ScanTo(G, p, sqrt, k, i, j), i, j)
    decreases i, j, 0
  {
    var L := ScanTo(G, p, sqrt, k, i, j - 1);
    ScanRanked(G, p, sqrt, k, i, j - 1);
    ScanToNext(G, p, sqrt, k, i, j);
    StepRanked(G, p, sqrt, k, L, ScanTo(G, p, sqrt, k, i, j), i, j - 1);
  }

  /** The induction step from the end of a row to the start of the next. */
  lemma {:induction false} ScanRankedRow(G: seq<seq<Vector>>, p: Point, sqrt: real -> real, k: nat, i: nat)
    requires HandGrid(G) && 1 <= k && 0 < i <= |G|
    ensures Ranked(G, p, sqrt, k, ScanTo(G, p, sqrt, k, i, 0), i, 0)
    decreases i, 0, 0
  {
    var L := ScanTo(G, p, sqrt, k, i - 1, |G[i - 1]|);
    ScanRanked(G, p, sqrt, k, i - 1, |G[i - 1]|);
    ScanToNext(G, p, sqrt, k, i, 0);
    RankedRowEnd(G, p, sqrt, k, L, i);
  }

  /** The list at a scan point holds `min(k, cells scanned)` entries. */
  lemma {:induction false} ScanSize(G: seq<seq<Vector>>, p: Point, sqrt: real -> real, k: nat, i: nat, j: nat)
    requires HandGrid(G) && 1 <= k && ScanPoint(G, i, j)
    ensures |ScanTo(G, p, sqrt, k, i, j)| == Min(k, RowsCells(G, i) + j)
    decreases i, j, 1
  {
    if j > 0 {
      ScanSizeStep(G, p, sqrt, k, i, j);
    } else if i > 0 {
      ScanSizeRow(G, p, sqrt, k, i);
    } else {
      ScanToNext(G, p, sqrt, k, i, j);
    }
  }

  lemma {:induction false} ScanSizeStep(G: seq<seq<Vector>>, p: Point, sqrt: real -> real, k: nat, i: nat, j: nat)
    requires HandGrid(G) && 1 <= k && ScanPoint(G, i, j) && j > 0
    ensures |ScanTo(G, p, sqrt, k, i, j)| == Min(k, RowsCells(G, i) + j)
    decreases i, j, 0
  {
    var L := ScanTo(G, p, sqrt, k, i, j - 1);
    ScanSize(G, p, sqrt, k, i, j - 1);
    ScanToNext(G, p, sqrt, k, i, j);
    var n := RowsCells(G, i) + j - 1;
    assert |L| == Min(k, n);
    StepSize(|L|, n, k, |ScanTo(G, p, sqrt, k, i, j)|);
  }

  /** `min(min(k, n) + 1, k) == min(k, n + 1)`. */
  lemma StepSize(l: nat, n: nat, k: nat, l': nat)
    requires 1 <= k && l == Min(k, n) && l' == Min(l + 1, k)
    ensures l' == Min(k, n + 1)
  {
  }

  lemma {:induction false} ScanSizeRow(G: seq<seq<Vector>>, p: Point, sqrt: real -> real, k: nat, i: nat)
    requires HandGrid(G) && 1 <= k && 0 < i <= |G|
    ensures |ScanTo(G, p, sqrt, k, i, 0)| == Min(k, RowsCells(G, i))
    decreases i, 0, 0
  {
    ScanSize(G, p, sqrt, k, i - 1, |G[i - 1]|);
    ScanToNext(G, p, sqrt, k, i, 0);
  }

  /** Facts about the final list of a scan of the whole grid. */
  lemma TopKRanked(G: seq<seq<Vector>>, p: Point, sqrt: real -> real, k: nat)
    requires HandGrid(G) && 1 <= k
    ensures Ranked(G, p, sqrt, k, TopK(G, p, sqrt, k), |G|, 0)
  {
    ScanRanked(G, p, sqrt, k, |G|, 0);
  }

  /** The final list holds `min(k, number of cells)` entries. */
  lemma TopKSize(G: seq<seq<Vector>>, p: Point, sqrt: real -> real, k: nat)
    requires HandGrid(G) && 1 <= k
    ensures |TopK(G, p, sqrt, k)| == Min(k, CellCount(G))
  {
    ScanSize(G, p, sqrt, k, |G|, 0);
  }

  /** With `k = 1` the top-k selection keeps exactly the cell `find_hand_position_v1` answers with. */
  lemma TopOneIsNearest(G: seq<seq<Vector>>, p: Point, sqrt: real -> real)
    requires HandGrid(G) && HasOrigin(G)
    ensures CellsOf(TopK(G, p, sqrt, 1)) == [NearestCell(G, p, sqrt)]
  {
    var L := TopK(G, p, sqrt, 1);
    TopKRanked(G, p, sqrt, 1);
    TopKSize(G, p, sqrt, 1);
    assert RowsCells(G, 1) >= 1;
    RowsCellsGrow(G, 1, |G|);
    var D := MotorDistances(G, p, sqrt);
    MotorDistancesAt(G, p, sqrt);
    var c := L[0].cell;
    assert L[0] in L && CellsOf(L) == [c];
    forall a, b | InGrid(D, a, b)
      ensures D[c.0][c.1] <= D[a][b] && (Before(a, b, c.0, c.1) ==> D[c.0][c.1] < D[a][b])
    {
      assert Scanned(G, (a, b), |G|, 0);
      if (a, b) != c {
        assert (a, b) !in CellsOf(L);
      }
    }
    var n := NearestCell(G, p, sqrt);
    NearestCellIsFirstMin(G, p, sqrt);
    FirstMinCellUnique(D, c.0, c.1, n.0, n.1);
  }

  lemma {:induction false} RowsCellsGrow<T>(G: seq<seq<T>>, i: nat, n: nat)
    requires i <= n <= |G|
    ensures RowsCells(G, i) <= RowsCells(G, n)
    decreases n
  {
    if i < n {
      RowsCellsGrow(G, i, n - 1);
    }
  }

  /**
   * The scan shared by `find_hand_position_v2` and `find_hand_position_v3`: the `k` nearest cells,
   * nearest first, ties kept in scan order.
   */
  method ClosestValues(G: seq<seq<Vector>>, p: Point, k: nat, sqrt: real -> real) returns (L: seq<Candidate>)
    requires HandGrid(G) && 1 <= k
    ensures L == TopK(G, p, sqrt, k)
    ensures |L| == Min(k, CellCount(G)) && Sorted(L) && Ranked(G, p, sqrt, k, L, |G|, 0)
  {
    L := [];
    var i := 0;
    while i < |G|
      invariant 0 <= i <= |G| && L == ScanTo(G, p, sqrt, k, i, 0)
    {
      var j := 0;
      while j < |G[i]|
        invariant 0 <= j <= |G[i]| && L == ScanTo(G, p, sqrt, k, i, j)
      {
        var d := CellDistance(G[i][j], p, sqrt);
        ScanToNext(G, p, sqrt, k, i, j + 1);
        if |L| < k {
          L := Insert(L, Candidate((i, j), d));
        } else if d < L[k - 1].dist {
          L := Insert(L[..k - 1], Candidate((i, j), d));
        }
        j := j + 1;
      }
      i := i + 1;
    }
    TopKRanked(G, p, sqrt, k);
    TopKSize(G, p, sqrt, k);
    OrderedSorted(L);
  }

  lemma OrderedSorted(L: seq<Candidate>)
    requires Ordered(L)
    ensures Sorted(L)
  {
  }

  /** Every entry names a cell of the grid. */
  predicate OnGrid(G: seq<seq<Vector>>, L: seq<Candidate>)
  {
    forall a :: 0 <= a < |L| ==> InGrid(G, L[a].cell.0, L[a].cell.1)
  }

  /** Coordinate `m` of the entries' cells, summed. */
  function CoordinateSum(G: seq<seq<Vector>>, L: seq<Candidate>, m: nat): real
    requires HandGrid(G) && OnGrid(G, L) && m < 4
  {
    if |L| == 0 then 0.0
    else CoordinateSum(G, L[..|L| - 1], m) + G[L[|L| - 1].cell.0][L[|L| - 1].cell.1][m]
  }

  /** The answer of `find_hand_position_v2`: the selected cells and the plain mean of their hand parts. */
  function MeanHand(G: seq<seq<Vector>>, L: seq<Candidate>, k: nat): (seq<(nat, nat)>, Point)
    requires HandGrid(G) && OnGrid(G, L) && k >= 1
  {
    (CellsOf(L), (CoordinateSum(G, L, 2) / k as real, CoordinateSum(G, L, 3) / k as real))
  }

  /** `find_hand_position_v2`: the `k` nearest cells and the mean of their hand parts. */
  method FindHandPositionV2(G: seq<seq<Vector>>, p: Point, k: nat, sqrt: real -> real)
    returns (cells: seq<(nat, nat)>, hand: Point)
    requires HandGrid(G) && 1 <= k <= CellCount(G)
    ensures var L := TopK(G, p, sqrt, k);
      |L| == k && OnGrid(G, L) && (cells, hand) == MeanHand(G, L, k)
  {
    var L := ClosestValues(G, p, k, sqrt);
    TopKOnGrid(G, p, sqrt, k);
    var resultX, resultY := 0.0, 0.0;
    var i := 0;
    while i < k
      invariant 0 <= i <= k
      invariant resultX == CoordinateSum(G, L[..i], 2) && resultY == CoordinateSum(G, L[..i], 3)
    {
      var c := L[i].cell;
      assert L[..i + 1][..i] == L[..i];
      resultX := resultX + G[c.0][c.1][2];
      resultY := resultY + G[c.0][c.1][3];
      i := i + 1;
    }
    assert L[..k] == L;
    resultX := resultX / k as real;
    resultY := resultY / k as real;
    cells := CellsOf(L);
    hand := (resultX, resultY);
  }

  /** The mean of values between `lo` and `hi` is between them: the v2 answer is a convex combination. */
  lemma MeanBetween(G: seq<seq<Vector>>, L: seq<Candidate>, m: nat, lo: real, hi: real)
    requires HandGrid(G) && OnGrid(G, L) && m < 4 && |L| > 0
    requires forall a :: 0 <= a < |L| ==> lo <= G[L[a].cell.0][L[a].cell.1][m] <= hi
    ensures lo <= CoordinateSum(G, L, m) / |L| as real <= hi
  {
    SumBetween(G, L, m, lo, hi);
    DivBetween(CoordinateSum(G, L, m), |L| as real, lo, hi);
  }

  lemma {:induction false} SumBetween(G: seq<seq<Vector>>, L: seq<Candidate>, m: nat, lo: real, hi: real)
    requires HandGrid(G) && OnGrid(G, L) && m < 4
    requires forall a :: 0 <= a < |L| ==> lo <= G[L[a].cell.0][L[a].cell.1][m] <= hi
    ensures (|L| as real) * lo <= CoordinateSum(G, L, m) <= (|L| as real) * hi
  {
    if |L| > 0 {
      SumBetween(G, L[..|L| - 1], m, lo, hi);
    }
  }

  lemma DivBetween(s: real, n: real, lo: real, hi: real)
    requires n > 0.0 && n * lo <= s <= n * hi
    ensures lo <= s / n <= hi
  {
  }

  // ---------------------------------------------------------------------------------------------
  // `find_hand_position_v3`: the distance-weighted mean.

  /** A computed value, or the NaN a floating-point division by zero leaves in its place. */
  datatype Result<T> = Success(value: T) | DivisionByZero

  /** The distances of the selected entries, summed in list order. */
  function DistanceSum(L: seq<Candidate>): real
  {
    if |L| == 0 then 0.0 else DistanceSum(L[..|L| - 1]) + L[|L| - 1].dist
  }

  /** The weight `(1 - d / total) / (k - 1)` of an entry at distance `d`. */
  function Coefficient(d: real, total: real, k: nat): real
    requires total != 0.0 && k != 1
  {
    (1.0 - d / total) / ((k - 1) as real)
  }

  /** The weights of the entries, in list order. */
  function Coefficients(L: seq<Candidate>, total: real, k: nat): (W: seq<real>)
    requires total != 0.0 && k != 1
    ensures |W| == |L|
  {
    if |L| == 0 then [] else Coefficients(L[..|L| - 1], total, k) + [Coefficient(L[|L| - 1].dist, total, k)]
  }

  /** The weight at place `a` is the weight of entry `a`. */
  lemma {:induction false} CoefficientsAt(L: seq<Candidate>, total: real, k: nat, a: nat)
    requires total != 0.0 && k != 1 && a < |L|
    ensures Coefficients(L, total, k)[a] == Coefficient(L[a].dist, total, k)
  {
    if a < |L| - 1 {
      CoefficientsAt(L[..|L| - 1], total, k, a);
    }
  }

  /** Coordinate `m` of the entries' cells, each scaled by the weight at the same place, summed. */
  function WeightedSum(G: seq<seq<Vector>>, L: seq<Candidate>, m: nat, W: seq<real>): real
    requires HandGrid(G) && OnGrid(G, L) && m < 4 && |W| == |L|
  {
    if |L| == 0 then 0.0
    else
      var e := L[|L| - 1];
      WeightedSum(G, L[..|L| - 1], m, W[..|W| - 1]) + G[e.cell.0][e.cell.1][m] * W[|W| - 1]
  }

  /** The weights, summed. */
  function Total(W: seq<real>): real
  {
    if |W| == 0 then 0.0 else Total(W[..|W| - 1]) + W[|W| - 1]
  }

  /**
   * The answer of `find_hand_position_v3`: the selected cells, and the weighted sum of their hand parts,
   * which divides by zero when `k = 1` or the selected distances sum to 0.
   */
  function WeightedHand(G: seq<seq<Vector>>, L: seq<Candidate>, k: nat): (seq<(nat, nat)>, Result<Point>)
    requires HandGrid(G) && OnGrid(G, L)
  {
    var total := DistanceSum(L);
    if total == 0.0 || k == 1 then (CellsOf(L), DivisionByZero)
    else
      var W := Coefficients(L, total, k);
      (CellsOf(L), Success((WeightedSum(G, L, 2, W), WeightedSum(G, L, 3, W))))
  }

  /** `find_hand_position_v3`: the `k` nearest cells and the distance-weighted mean of their hand parts. */
  method FindHandPositionV3(G: seq<seq<Vector>>, p: Point, k: nat, sqrt: real -> real)
    returns (cells: seq<(nat, nat)>, hand: Result<Point>)
    requires HandGrid(G) && 1 <= k <= CellCount(G)
    ensures var L := TopK(G, p, sqrt, k);
      |L| == k && OnGrid(G, L) && (cells, hand) == WeightedHand(G, L, k)
    ensures hand.DivisionByZero? <==> k == 1 || DistanceSum(TopK(G, p, sqrt, k)) == 0.0
  {
    var L := ClosestValues(G, p, k, sqrt);
    TopKOnGrid(G, p, sqrt, k);
    cells, hand := WeightedMean(G, L, k);
  }

  /** The second half of `find_hand_position_v3`: the weighted sum over the selected entries. */
  method WeightedMean(G: seq<seq<Vector>>, L: seq<Candidate>, k: nat)
    returns (cells: seq<(nat, nat)>, hand: Result<Point>)
    requires HandGrid(G) && OnGrid(G, L) && |L| == k >= 1
    ensures (cells, hand) == WeightedHand(G, L, k)
    ensures hand.DivisionByZero? <==> k == 1 || DistanceSum(L) == 0.0
  {
    var totalDistance := DistanceSum(L);
    if totalDistance == 0.0 || k == 1 {
      // already the first weight divides 0 by 0, so every coordinate is NaN
      WeightedHandFails(G, L, k);
      return CellsOf(L), DivisionByZero;
    }
    ghost var W := Coefficients(L, totalDistance, k);
    var resultX, resultY := 0.0, 0.0;
    var i := 0;
    while i < k
      invariant 0 <= i <= k && OnGrid(G, L[..i])
      invariant resultX == WeightedSum(G, L[..i], 2, W[..i]) && resultY == WeightedSum(G, L[..i], 3, W[..i])
    {
      var dist := Coefficient(L[i].dist, totalDistance, k);
      var c := L[i].cell;
      CoefficientsAt(L, totalDistance, k, i);
      ghost var x, y := resultX, resultY;
      resultX := resultX + G[c.0][c.1][2] * dist;
      resultY := resultY + G[c.0][c.1][3] * dist;
      Accumulate(G, L, W, i, 2, x, G[c.0][c.1][2], dist, resultX);
      Accumulate(G, L, W, i, 3, y, G[c.0][c.1][3], dist, resultY);
      i := i + 1;
    }
    assert L[..k] == L && W[..k] == W;
    cells, hand := CellsOf(L), Success((resultX, resultY));
    WeightedHandSucceeds(G, L, k, W, resultX, resultY);
  }

  /** The answer is a division by zero exactly when `k = 1` or the distances sum to 0. */
  lemma WeightedHandFails(G: seq<seq<Vector>>, L: seq<Candidate>, k: nat)
    requires HandGrid(G) && OnGrid(G, L)
    ensures WeightedHand(G, L, k).1.DivisionByZero? <==> k == 1 || DistanceSum(L) == 0.0
  {
  }

  /** Otherwise the answer holds the weighted sums over all the entries. */
  lemma WeightedHandSucceeds(G: seq<seq<Vector>>, L: seq<Candidate>, k: nat, W: seq<real>, x: real, y: real)
    requires HandGrid(G) && OnGrid(G, L) && DistanceSum(L) != 0.0 && k != 1
    requires W == Coefficients(L, DistanceSum(L), k)
    requires x == WeightedSum(G, L, 2, W) && y == WeightedSum(G, L, 3, W)
    ensures WeightedHand(G, L, k) == (CellsOf(L), Success((x, y)))
  {
  }

  /** Adding entry `i`'s weighted coordinate to the sum over the first `i` entries gives the sum over `i + 1`. */
  lemma Accumulate(G: seq<seq<Vector>>, L: seq<Candidate>, W: seq<real>, i: nat, m: nat,
                    acc: real, v: real, w: real, acc': real)
    requires HandGrid(G) && OnGrid(G, L) && i < |L| == |W| && m < 4
    requires OnGrid(G, L[..i]) && acc == WeightedSum(G, L[..i], m, W[..i])
    requires v == G[L[i].cell.0][L[i].cell.1][m] && w == W[i] && acc' == acc + v * w
    ensures OnGrid(G, L[..i + 1]) && acc' == WeightedSum(G, L[..i + 1], m, W[..i + 1])
  {
    WeightedSumNext(G, L, W, i, m);
  }

  /** Extending the prefix by one entry adds that entry's weighted coordinate. */
  lemma WeightedSumNext(G: seq<seq<Vector>>, L: seq<Candidate>, W: seq<real>, i: nat, m: nat)
    requires HandGrid(G) && OnGrid(G, L) && i < |L| == |W| && m < 4
    ensures OnGrid(G, L[..i]) && OnGrid(G, L[..i + 1])
    ensures WeightedSum(G, L[..i + 1], m, W[..i + 1]) ==
      WeightedSum(G, L[..i], m, W[..i]) + G[L[i].cell.0][L[i].cell.1][m] * W[i]
    ensures i == 0 ==> WeightedSum(G, L[..i], m, W[..i]) == 0.0
  {
    assert L[..i + 1][..i] == L[..i] && W[..i + 1][..i] == W[..i];
  }

  /** With `k >= 2` entries and a non-zero total, the weights sum to 1. */
  lemma CoefficientsSumToOne(L: seq<Candidate>, k: nat)
    requires |L| == k && k >= 2 && DistanceSum(L) != 0.0
    ensures Total(Coefficients(L, DistanceSum(L), k)) == 1.0
  {
    var total := DistanceSum(L);
    CoefficientSumIs(L, total, k);
    UnitQuotient(|L| as real, total, (k - 1) as real, Total(Coefficients(L, total, k)));
  }

  /** `(n + 1 - t / t) / n == 1`. */
  lemma UnitQuotient(a: real, t: real, n: real, r: real)
    requires t != 0.0 && n != 0.0 && a == n + 1.0 && r == (a - t / t) / n
    ensures r == 1.0
  {
    assert t / t == 1.0;
    assert a - t / t == n;
  }

  lemma {:induction false} CoefficientSumIs(L: seq<Candidate>, total: real, k: nat)
    requires total != 0.0 && k != 1
    ensures Total(Coefficients(L, total, k)) == (|L| as real - DistanceSum(L) / total) / ((k - 1) as real)
  {
    if |L| > 0 {
      var L' := L[..|L| - 1];
      CoefficientSumIs(L', total, k);
      var W := Coefficients(L, total, k);
      assert W[..|W| - 1] == Coefficients(L', total, k);
      var d := L[|L| - 1].dist;
      SplitQuotient(|L'| as real, DistanceSum(L'), d, total, (k - 1) as real);
    }
  }

  /** `(a - s / t) / n + (1 - d / t) / n == (a + 1 - (s + d) / t) / n`. */
  lemma SplitQuotient(a: real, s: real, d: real, t: real, n: real)
    requires t != 0.0 && n != 0.0
    ensures (a - s / t) / n + (1.0 - d / t) / n == (a + 1.0 - (s + d) / t) / n
  {
    assert s / t + d / t == (s + d) / t;
  }

  /** Entries at non-negative distances: each weight is non-negative when `k >= 2` and the total is non-zero. */
  lemma CoefficientsNonNegative(L: seq<Candidate>, k: nat)
    requires |L| == k && k >= 2 && DistanceSum(L) != 0.0
    requires forall b :: 0 <= b < |L| ==> L[b].dist >= 0.0
    ensures forall a :: 0 <= a < |L| ==> Coefficients(L, DistanceSum(L), k)[a] >= 0.0
  {
    forall a | 0 <= a < |L|
      ensures Coefficients(L, DistanceSum(L), k)[a] >= 0.0
    {
      CoefficientsAt(L, DistanceSum(L), k, a);
      CoefficientNonNegative(L, k, a);
    }
  }

  lemma CoefficientNonNegative(L: seq<Candidate>, k: nat, a: nat)
    requires a < |L| == k && k >= 2 && DistanceSum(L) != 0.0
    requires forall b :: 0 <= b < |L| ==> L[b].dist >= 0.0
    ensures Coefficient(L[a].dist, DistanceSum(L), k) >= 0.0
  {
    EntryBelowSum(L, a);
    var total := DistanceSum(L);
    assert 0.0 <= L[a].dist <= total && total > 0.0;
    assert L[a].dist / total <= 1.0;
  }

  lemma {:induction false} EntryBelowSum(L: seq<Candidate>, a: nat)
    requires a < |L|
    requires forall b :: 0 <= b < |L| ==> L[b].dist >= 0.0
    ensures 0.0 <= L[a].dist <= DistanceSum(L)
  {
    var L' := L[..|L| - 1];
    if a < |L| - 1 {
      EntryBelowSum(L', a);
      SumNonNegative(L');
    } else {
      SumNonNegative(L');
    }
  }

  lemma {:induction false} SumNonNegative(L: seq<Candidate>)
    requires forall b :: 0 <= b < |L| ==> L[b].dist >= 0.0
    ensures DistanceSum(L) >= 0.0
  {
    if |L| > 0 {
      SumNonNegative(L[..|L| - 1]);
    }
  }

  /**
   * Non-negative weights that sum to 1 make a convex combination: with every value between `lo` and
   * `hi`, the weighted sum is between them.
   */
  lemma WeightedBetween(G: seq<seq<Vector>>, L: seq<Candidate>, m: nat, W: seq<real>, lo: real, hi: real)
    requires HandGrid(G) && OnGrid(G, L) && m < 4 && |W| == |L|
    requires forall a :: 0 <= a < |L| ==> lo <= G[L[a].cell.0][L[a].cell.1][m] <= hi
    requires forall a :: 0 <= a < |W| ==> W[a] >= 0.0
    requires Total(W) == 1.0
    ensures lo <= WeightedSum(G, L, m, W) <= hi
  {
    WeightedSumBetween(G, L, m, W, lo, hi);
  }

  lemma {:induction false} WeightedSumBetween(G: seq<seq<Vector>>, L: seq<Candidate>, m: nat, W: seq<real>, lo: real, hi: real)
    requires HandGrid(G) && OnGrid(G, L) && m < 4 && |W| == |L|
    requires forall a :: 0 <= a < |L| ==> lo <= G[L[a].cell.0][L[a].cell.1][m] <= hi
    requires forall a :: 0 <= a < |W| ==> W[a] >= 0.0
    ensures lo * Total(W) <= WeightedSum(G, L, m, W) <= hi * Total(W)
  {
    if |L| > 0 {
      var L', W' := L[..|L| - 1], W[..|W| - 1];
      assert OnGrid(G, L');
      WeightedSumBetween(G, L', m, W', lo, hi);
      var e := L[|L| - 1];
      assert lo <= G[e.cell.0][e.cell.1][m] <= hi && W[|W| - 1] >= 0.0;
      WeightedSumBetweenStep(G, L, m, W, lo, hi);
    } else {
      ScaleZero(lo, Total(W));
      ScaleZero(hi, Total(W));
    }
  }

  /** The induction step of `WeightedSumBetween`: the last entry joins the bounds of the others. */
  lemma WeightedSumBetweenStep(G: seq<seq<Vector>>, L: seq<Candidate>, m: nat, W: seq<real>, lo: real, hi: real)
    requires HandGrid(G) && OnGrid(G, L) && m < 4 && |W| == |L| > 0 && OnGrid(G, L[..|L| - 1])
    requires var e := L[|L| - 1]; lo <= G[e.cell.0][e.cell.1][m] <= hi && W[|W| - 1] >= 0.0
    requires var L', W' := L[..|L| - 1], W[..|W| - 1];
      lo * Total(W') <= WeightedSum(G, L', m, W') <= hi * Total(W')
    ensures lo * Total(W) <= WeightedSum(G, L, m, W) <= hi * Total(W)
  {
    var L', W' := L[..|L| - 1], W[..|W| - 1];
    var e, w := L[|L| - 1], W[|W| - 1];
    var v := G[e.cell.0][e.cell.1][m];
    var s, c := WeightedSum(G, L', m, W'), Total(W');
    var s', c' := WeightedSum(G, L, m, W), Total(W);
    ConvexStep(lo, hi, s, c, v, w, s', c');
  }

  lemma ScaleZero(a: real, z: real)
    requires z == 0.0
    ensures a * z == 0.0
  {
  }

  /** One more value between `lo` and `hi`, with a non-negative weight, keeps a weighted sum between the bounds. */
  lemma ConvexStep(lo: real, hi: real, s: real, c: real, v: real, w: real, s': real, c': real)
    requires lo * c <= s <= hi * c && lo <= v <= hi && w >= 0.0
    requires s' == s + v * w && c' == c + w
    ensures lo * c' <= s' <= hi * c'
  {
    ScaleBetween(lo, v, hi, w);
    assert lo * c' == lo * c + lo * w;
    assert hi * c' == hi * c + hi * w;
  }

  lemma ScaleBetween(lo: real, v: real, hi: real, w: real)
    requires lo <= v <= hi && w >= 0.0
    ensures lo * w <= v * w <= hi * w
  {
  }

  /**
   * The answer of `find_hand_position_v3` over `k >= 2` entries at non-negative distances, not all 0,
   * exists and lies, coordinate by coordinate, between the smallest and largest hand coordinate.
   */
  lemma WeightedHandBetween(G: seq<seq<Vector>>, L: seq<Candidate>, k: nat, lo: real, hi: real)
    requires HandGrid(G) && OnGrid(G, L) && |L| == k >= 2 && DistanceSum(L) != 0.0
    requires forall a :: 0 <= a < |L| ==> L[a].dist >= 0.0
    requires forall a, m :: 0 <= a < |L| && 2 <= m < 4 ==> lo <= G[L[a].cell.0][L[a].cell.1][m] <= hi
    ensures WeightedHand(G, L, k).1.Success?
    ensures lo <= WeightedHand(G, L, k).1.value.0 <= hi && lo <= WeightedHand(G, L, k).1.value.1 <= hi
  {
    var W := Coefficients(L, DistanceSum(L), k);
    CoefficientsNonNegative(L, k);
    CoefficientsSumToOne(L, k);
    WeightedBetween(G, L, 2, W, lo, hi);
    WeightedBetween(G, L, 3, W, lo, hi);
  }

  /**
   * When the `k >= 2` selected entries all lie at one non-zero distance, the distance-weighted answer of
   * `find_hand_position_v3` is the plain mean of `find_hand_position_v2`.
   */
  lemma EqualDistancesGiveMean(G: seq<seq<Vector>>, L: seq<Candidate>, k: nat, d: real)
    requires HandGrid(G) && OnGrid(G, L) && |L| == k >= 2 && d != 0.0
    requires forall a :: 0 <= a < |L| ==> L[a].dist == d
    ensures WeightedHand(G, L, k) == (MeanHand(G, L, k).0, Success(MeanHand(G, L, k).1))
  {
    var n := k as real;
    ConstantDistanceSum(L, d);
    var total := DistanceSum(L);
    NonZeroProduct(n, d, total);
    var W := Coefficients(L, total, k);
    var c := Coefficient(d, total, k);
    EqualCoefficient(n, d, total, (k - 1) as real, c);
    forall a | 0 <= a < |W|
      ensures W[a] == c
    {
      CoefficientsAt(L, total, k, a);
    }
    var x, y := WeightedSum(G, L, 2, W), WeightedSum(G, L, 3, W);
    ConstantWeightedSum(G, L, 2, W, c);
    ConstantWeightedSum(G, L, 3, W, c);
    ScaledSumsAreMean(G, L, k, c, x, y);
    WeightedHandSucceeds(G, L, k, W, x, y);
  }

  /** Sums scaled by `1 / k` are the plain means of `find_hand_position_v2`. */
  lemma ScaledSumsAreMean(G: seq<seq<Vector>>, L: seq<Candidate>, k: nat, c: real, x: real, y: real)
    requires HandGrid(G) && OnGrid(G, L) && k >= 1 && c == 1.0 / (k as real)
    requires x == CoordinateSum(G, L, 2) * c && y == CoordinateSum(G, L, 3) * c
    ensures (x, y) == MeanHand(G, L, k).1
  {
    var sx, sy, n := CoordinateSum(G, L, 2), CoordinateSum(G, L, 3), k as real;
    assert MeanHand(G, L, k).1 == (sx / n, sy / n);
    ScaleByInverse(sx, n, c);
    ScaleByInverse(sy, n, c);
    assert x == sx / n;
    assert y == sy / n;
  }

  /** Entries all at distance `d` sum to `|L| * d`. */
  lemma {:induction false} ConstantDistanceSum(L: seq<Candidate>, d: real)
    requires forall a :: 0 <= a < |L| ==> L[a].dist == d
    ensures DistanceSum(L) == (|L| as real) * d
  {
    if |L| > 0 {
      ConstantDistanceSum(L[..|L| - 1], d);
      assert L[|L| - 1].dist == d;
    }
  }

  /** With every weight equal to `c`, the weighted sum is the plain sum scaled by `c`. */
  lemma {:induction false} ConstantWeightedSum(G: seq<seq<Vector>>, L: seq<Candidate>, m: nat, W: seq<real>, c: real)
    requires HandGrid(G) && OnGrid(G, L) && m < 4 && |W| == |L|
    requires forall a :: 0 <= a < |W| ==> W[a] == c
    ensures WeightedSum(G, L, m, W) == CoordinateSum(G, L, m) * c
  {
    if |L| > 0 {
      var L', W' := L[..|L| - 1], W[..|W| - 1];
      assert OnGrid(G, L');
      ConstantWeightedSum(G, L', m, W', c);
      var e := L[|L| - 1];
      assert W[|W| - 1] == c;
      Distribute(CoordinateSum(G, L', m), G[e.cell.0][e.cell.1][m], c);
    }
  }

  lemma Distribute(a: real, b: real, c: real)
    ensures a * c + b * c == (a + b) * c
  {
  }

  lemma NonZeroProduct(n: real, d: real, t: real)
    requires n >= 2.0 && d != 0.0 && t == n * d
    ensures t != 0.0
  {
  }

  /** `(1 - d / (n d)) / (n - 1) == 1 / n`. */
  lemma EqualCoefficient(n: real, d: real, t: real, m: real, c: real)
    requires n >= 2.0 && d != 0.0 && t == n * d && m == n - 1.0 && c == (1.0 - d / t) / m
    ensures c == 1.0 / n
  {
    assert d / t == 1.0 / n;
    assert 1.0 - d / t == m / n;
  }

  /** Scaling by `1 / n` is dividing by `n`. */
  lemma ScaleByInverse(s: real, n: real, c: real)
    requires n != 0.0 && c == 1.0 / n
    ensures s * c == s / n
  {
  }

  /** The selected cells of a scan lie on the grid, at non-negative distances when `sqrt` is a square root. */
  lemma TopKOnGrid(G: seq<seq<Vector>>, p: Point, sqrt: real -> real, k: nat)
    requires HandGrid(G) && 1 <= k
    ensures OnGrid(G, TopK(G, p, sqrt, k))
    ensures IsSqrt(sqrt) ==> forall a :: 0 <= a < |TopK(G, p, sqrt, k)| ==> TopK(G, p, sqrt, k)[a].dist >= 0.0
  {
    var L := TopK(G, p, sqrt, k);
    TopKRanked(G, p, sqrt, k);
    if IsSqrt(sqrt) {
      forall a | 0 <= a < |L|
        ensures L[a].dist >= 0.0
      {
        CellDistanceNonNegative(G[L[a].cell.0][L[a].cell.1], p, sqrt);
      }
    }
  }
}
