# Kohonen self-organising map, modelled in Dafny

This project models `kohonen.py`, a self-organising (Kohonen) map used to learn the relation
between the motor positions and the hand positions of a robot arm.

- A `Neuron` holds a weight vector, its fixed grid position `(posx, posy)` and its last output `y`.
- A `SOM` holds a rows x cols grid of neurons, a `weightsmap` that shares each neuron's weight array,
  and an `activitymap`.
- `compute` sets every neuron's output to its Euclidean distance from the input.
- `learn` picks the best-matching unit, which is the first minimum of the activity map in row-major
  order. It then pulls every neuron towards the input at the rate
  `eta * exp(-(d^2) / (2 sigma^2))`, where `d` is the neuron's Manhattan grid distance to the winner.
- `MSE` is the mean quantisation error. `get_map_dispertion` sums a neighbour term over the grid.
- The queries `find_hand_position_v1/v2/v3` read a trained grid. Each cell holds two motor
  coordinates followed by two hand coordinates.
  - v1 finds the cell whose motor part is nearest to a motor position.
  - v2 keeps a running top-k list and answers with the plain mean of the selected hand parts.
  - v3 keeps the same list and answers with a distance-weighted mean.
- `mouvement_v1/v2/v3` ask these queries along a straight line of motor positions.

The files:

- `vectors.dfy` (module `Vectors`): vectors, squared distances and the pull `w + c * (x - w)`.
- `measures.dfy` (module `MapMeasures`): the value-level meaning of the map's measures:
  - the distance grid;
  - `numpy.min`, and `numpy.argmin` with `unravel_index`;
  - the quantisation error and the dispersion.
- `kohonen.dfy` (module `Kohonen`): the classes `Neuron` and `SOM`.
  - Their methods change the weight arrays and the activity map in place.
  - They are proved against functions of the old state: `Learned`, `DistanceGrid`,
    `QuantizationError` and `Dispersion`.
- `queries.dfy` (module `HandPosition`): `find_hand_position_v1/v2/v3`.
  - They are imperative scans, proved against the recursive scan `ScanTo`, `TopK` and the
    answer functions `MeanHand` and `WeightedHand`.
  - Lemmas say what the top-k list is (`Ranked`) and that both means are convex combinations.
- `movement.dfy` (module `Trajectory`): `mouvement_v1/v2/v3` and the points they query.

Modelling decisions:

- The square root and `exp` are function parameters. Lemmas that need their real properties say so
  in their preconditions: `IsSqrt(sqrt)` for the square root, and `exp(0) == 1` or
  `DecaysFromOne(exp)` for the exponential.
- Numbers are `real`. Floating-point rounding is not modelled.
- The constructor takes the initial weight vectors as a parameter. The source draws them at random.
- The queries take the grid of weight vectors as a value. They only read `map[i][j].weights`.
- Rows of different lengths are allowed, because the scans use `len(map[i])` as the source does.
- The stable sort after `append` or after overwriting the last entry is modelled as `Insert`. It
  places the new entry into the sorted rest of the list, after every entry that is at most as near.
  The rest of the list is already sorted, so a stable sort gives the same list.
- Three behaviours of the code worth noting; the model follows them:
  - Movements: `nb_steps < 2` is accepted and gives `max(nb_steps, 1)` points.
  - Dispersion: a cell counts its neighbour in the previous row, or in the next row when it is in
    row 0. Columns work the same way.
  - v3 with `k = 1`: every weight is NaN (a division by zero), so the hand coordinates are NaN. The model marks such
    an answer `DivisionByZero`.
- The distances v3 divides are numpy floats, so its divisions by zero do not raise: they give NaN.
  That happens when `k = 1` or when the selected distances sum to 0, and each time every weight, and
  so both hand coordinates, is NaN. The model then answers the selected cells with the hand
  `DivisionByZero`. `WeightedMean` checks the two cases before its loop. This is equivalent to the
  source, because the first pass of the loop already divides by zero, and NaN stays NaN in every
  later sum.

## Model

| member | source | states |
|---|---|---|
| Kohonen.Neuron.constructor | kohonen.py:26-42 | The neuron stores a fresh copy of `w` as its weights, records its grid position, and starts with output 0. |
| Kohonen.Neuron.Compute | kohonen.py:44-50 | The output becomes the Euclidean distance between the input and the weights. |
| Kohonen.Neuron.Learn | kohonen.py:52-68 | In place, the weights become the old weights pulled towards `x` by `eta` times the neighbourhood factor of the Manhattan grid distance to the winner. |
| Kohonen.KernelAtWinner | kohonen.py:68 | At grid distance 0 the neighbourhood factor is exactly 1. |
| Kohonen.KernelBounds | kohonen.py:68 | At any grid distance the neighbourhood factor lies in (0, 1]. |
| Kohonen.WinnerUpdate | kohonen.py:68 | The winner's weights become exactly `w + eta * (x - w)`. |
| Kohonen.UpdateStaysBetween | kohonen.py:68 | With `0 <= eta <= 1`, each new coordinate of any neuron lies between its old value and the input's. |
| Kohonen.RateBounds | kohonen.py:68 | With `0 <= eta <= 1`, the step size `eta` times the neighbourhood factor lies in [0, 1] at every grid distance. |
| Kohonen.WinnerMovesCloser | kohonen.py:68 | With `0 < eta <= 1`, the winner ends strictly closer to a sample it did not already equal. |
| Kohonen.NeuronMovesNoFarther | kohonen.py:68 | With `0 <= eta <= 1`, no neuron ends farther from the sample than it was. |
| Kohonen.LearnedAt | kohonen.py:132-134 | Unfolding helper: after a training step won by `(bi, bj)`, each cell is its old vector pulled towards `x` at the rate of its own grid distance to the winner. |
| Kohonen.NewLine | kohonen.py:94-101 | One row of the map: neuron `b` sits at `(posx, b)` with output 0 and a fresh weight array holding `w[b]`. The row of weights lists those same arrays, no two of them alike, and the row of activities is all 0. |
| Kohonen.NewGrid | kohonen.py:93-104 | One row per row of the initial weights. No two neurons of the whole grid share a weight array. |
| Kohonen.NewActivityMap | kohonen.py:105 | The activity array has the given rows x cols shape and holds the given outputs. |
| Kohonen.BuildMap | kohonen.py:86-105 | The built map has the declared shape and positions. Every neuron holds its initial vector with output 0, and the activity array is all 0. |
| Kohonen.SOM.constructor | kohonen.py:74-105 | A valid map whose weight vectors are the given ones. Every output and every activity is 0. |
| Kohonen.SOM.Compute | kohonen.py:107-117 | The weights are unchanged. Each neuron's output equals its activity-map entry, and the activity map is each cell's distance to `x`. |
| Kohonen.SOM.BestMatchingUnit | kohonen.py:130 | `unravel_index(argmin(activitymap))` is a cell of the grid. |
| Kohonen.SOM.BestMatchingUnitIsFirstMin | kohonen.py:130 | The winner holds the smallest activity, and every cell before it in row-major order holds a strictly larger one. |
| Kohonen.SOM.Learn | kohonen.py:119-134 | The map stays valid, and its weights become `Learned(old weights, x, eta, sigma, winner)` for the winner chosen from the old activity map. |
| Kohonen.SOM.LearnFrom | kohonen.py:132-134 | Every neuron learns from the given winner, as `Learned` says. |
| Kohonen.SOM.LearnRow | kohonen.py:133-134 | Every neuron of row `posx` takes its learned weights, and no other row changes. |
| Kohonen.SOM.LearnCell | kohonen.py:134 | Neuron `(i, j)` takes its learned weights, and no other neuron's weights change. |
| Kohonen.SOM.MinActivity | kohonen.py:240 | `numpy.min(activitymap)` is an entry of the map, and no entry is smaller. |
| Kohonen.SOM.MSE | kohonen.py:225-242 | The weights are unchanged, and the result is the mean over the samples of the squared distance to the nearest weight vector. The activity map and the outputs are left holding the last sample's distances. |
| Kohonen.SOM.NearestActivity | kohonen.py:238-240 | After computing one sample, the smallest activity is that sample's distance to its nearest weight vector. The weights are unchanged, and the activity map and the outputs hold that sample's distances. |
| Kohonen.SOM.ActivitiesAreDistances | kohonen.py:114-117 | An activity map that holds each cell's distance to `x` equals `DistanceGrid`. |
| Kohonen.SOM.DistanceWithNeighbor | kohonen.py:252-272 | `get_distance_with_neighbor` is the sum of the cell's vertical and horizontal neighbour terms over the first two coordinates. |
| Kohonen.SOM.VerticalTerm | kohonen.py:254-261 | The term of the previous row, or of the next row when the cell is in row 0, or 0 for a single row. |
| Kohonen.SOM.HorizontalTerm | kohonen.py:263-271 | The term of the previous column, or of the next column when the cell is in column 0, or 0 for a single column. |
| Kohonen.SOM.MapDispersion | kohonen.py:244-250 | The result is the sum of the neighbour terms of every cell, and it never changes the map. |
| MapMeasures.DistanceGridAt | kohonen.py:50 | Unfolding helper: the distance-grid entry of cell `(i, j)` is the distance between `x` and that cell's weights. |
| MapMeasures.GridMinIsMin | kohonen.py:240 | `numpy.min` of a non-empty grid is one of its entries, and no entry is smaller. |
| MapMeasures.ArgMinIsFirstMin | kohonen.py:130 | The argmin cell holds the minimum, and every earlier cell in row-major order is strictly larger. |
| MapMeasures.FirstMinCellUnique | kohonen.py:130 | Only one cell is the first minimum. |
| MapMeasures.ArgMinHoldsMin | kohonen.py:130 | The argmin cell holds the minimum of the grid, `numpy.min` as at kohonen.py:240. |
| MapMeasures.NearestDistancesAre | kohonen.py:236-240 | Unfolding helper: a sequence holding each sample's nearest distance is the sequence of nearest distances. |
| MapMeasures.SumSquaresAppend | kohonen.py:240 | One more sample adds the square of its nearest distance to the sum. |
| MapMeasures.QuantizationErrorNonNegative | kohonen.py:240-242 | The mean quantisation error is never negative. |
| MapMeasures.OneSampleError | kohonen.py:225-242 | Over a single sample, the error is exactly the square of that sample's nearest distance, the smallest activity `compute` leaves. |
| MapMeasures.QuantizationErrorZero | kohonen.py:225-242 | With a true square root, the error is 0 exactly when every sample equals some weight vector of the map. |
| MapMeasures.NearestZero | kohonen.py:238-240 | With a true square root, a sample's nearest distance is 0 exactly when the sample is one of the weight vectors. |
| MapMeasures.DistanceZero | kohonen.py:50 | With a true square root, the distance is non-negative, and it is 0 exactly between equal vectors. |
| MapMeasures.SqDistZero | kohonen.py:50 | The squared distance is 0 exactly between equal vectors. |
| MapMeasures.NeighborTerm | kohonen.py:252-272 | A cell's neighbour term is never negative. |
| MapMeasures.NeighborPairs | kohonen.py:254-271 | The vertical pair of rows 0 and 1 and the horizontal pair of columns 0 and 1 are each counted twice. An axis of width 1 contributes nothing. |
| MapMeasures.Dispersion | kohonen.py:244-250 | The dispersion is never negative. |
| MapMeasures.DispersionPlanarOnly | kohonen.py:252-272 | The dispersion depends only on the first two coordinates of each cell. |
| MapMeasures.CollapsedDispersion | kohonen.py:244-272 | A map whose cells all sit at one planar point has dispersion 0. |
| Vectors.PullStaysBetween | kohonen.py:68 | With a rate in [0, 1], each coordinate of the pulled vector lies between the old coordinate and the input's. |
| Vectors.PullCloser | kohonen.py:68 | With a rate in [0, 1], the pulled vector is no farther from the input, and strictly closer when the rate is positive and the vector differs from the input. |
| Vectors.CoordinateCloser | kohonen.py:68 | One coordinate: its distance to the input's coordinate never grows under a rate in [0, 1], and shrinks under a positive rate when they differ. |
| HandPosition.CellDistanceNonNegative | kohonen.py:277 | With a true square root, the motor distance is never negative. |
| HandPosition.MotorDistancesAt | kohonen.py:282 | Unfolding helper: the motor-distance grid holds each cell's 2-D distance on `weights[0..1]`. |
| HandPosition.NearestCellIsFirstMin | kohonen.py:277-284 | No cell has a smaller motor distance than the nearest cell, and every cell before it in row-major order has a strictly larger one. |
| HandPosition.FindHandPositionV1 | kohonen.py:276-286 | The scan answers `((w0, w1), (w2, w3))` of the first cell at the smallest motor distance. |
| HandPosition.InsertPlaces | kohonen.py:296-300 | A stable re-sort after adding `e` to a sorted list keeps the old entries in order. `e` lands after every entry at most as far and before every farther one. |
| HandPosition.InsertSorted | kohonen.py:297 | The re-sorted list is sorted. |
| HandPosition.InsertMembers | kohonen.py:296-297 | Exactly the new entry is added. |
| HandPosition.InsertAt | kohonen.py:296-300 | The re-sorted list holds the entries before the insert position, then `e`, then the rest shifted by one. |
| HandPosition.Step | kohonen.py:295-300 | After one cell the list holds `min(old length + 1, k)` entries. |
| HandPosition.StepAppend | kohonen.py:295-297 | Appending a cell while the list is short keeps it the stable top-k of the scanned cells. |
| HandPosition.StepReplace | kohonen.py:298-300 | Replacing the last entry with a strictly nearer cell keeps the list the stable top-k. |
| HandPosition.StepSkip | kohonen.py:298 | Skipping a cell no nearer than the last entry keeps the list the stable top-k. |
| HandPosition.StepRanked | kohonen.py:295-300 | Any step of the scan keeps the list the stable top-k of the scanned cells. |
| HandPosition.ScanRanked | kohonen.py:293-300 | At every point of the row-major scan, the list is the stable top-k of the cells scanned so far. It is sorted, has no cell twice, and no left-out cell is nearer than an entry. A left-out cell exactly as near comes after it in scan order. |
| HandPosition.ScanSize | kohonen.py:293-300 | The list holds `min(k, cells scanned)` entries. |
| HandPosition.TopKRanked | kohonen.py:293-300 | The final list is the stable top-k of the whole grid. |
| HandPosition.TopKSize | kohonen.py:293-300 | The final list holds `min(k, number of cells)` entries. |
| HandPosition.TopOneIsNearest | kohonen.py:276-300 | With `k = 1`, the top-k selection keeps exactly the cell that v1 answers with. |
| HandPosition.ClosestValues | kohonen.py:291-300 | The loops build `TopK`, which has `min(k, cells)` entries, is sorted, and is the stable top-k. |
| HandPosition.FindHandPositionV2 | kohonen.py:290-312 | The answer is the `k` nearest cells and the plain mean of their hand coordinates. |
| HandPosition.MeanBetween | kohonen.py:302-310 | When every selected value lies in `[lo, hi]`, the v2 mean does too. |
| HandPosition.CoefficientsAt | kohonen.py:335 | Unfolding helper: the weight of entry `i` is `(1 - d_i / total) / (k - 1)`. |
| HandPosition.FindHandPositionV3 | kohonen.py:316-339 | The answer is the `k` nearest cells and the distance-weighted sum of their hand parts. The hand is `DivisionByZero` (NaN) exactly when `k = 1` or their distances sum to 0. |
| HandPosition.WeightedMean | kohonen.py:329-339 | The loop computes `WeightedHand`; the hand is `DivisionByZero` exactly when `k = 1` or the total distance is 0. |
| HandPosition.WeightedHandFails | kohonen.py:329-335 | Unfolding helper: the v3 hand is a division by zero exactly when `k = 1` or the total distance is 0. |
| HandPosition.WeightedHandSucceeds | kohonen.py:331-339 | Unfolding helper: otherwise the answer is the selected cells and the two weighted sums. |
| HandPosition.Accumulate | kohonen.py:336-337 | One pass of the v3 loop adds entry `i`'s weighted coordinate to the sum over the first `i` entries. |
| HandPosition.CoefficientsSumToOne | kohonen.py:335 | With `k >= 2` entries and a non-zero total, the weights sum to 1. |
| HandPosition.CoefficientsNonNegative | kohonen.py:335 | With non-negative distances, `k >= 2` and a non-zero total, every weight is non-negative. |
| HandPosition.WeightedSumBetween | kohonen.py:334-337 | With non-negative weights and values in `[lo, hi]`, the weighted sum lies between `lo` and `hi` times the weights' total. |
| HandPosition.WeightedBetween | kohonen.py:334-337 | With non-negative weights that sum to 1, the weighted sum of values in `[lo, hi]` lies in `[lo, hi]`. |
| HandPosition.WeightedHandBetween | kohonen.py:329-339 | With `k >= 2`, non-negative distances and a non-zero total, v3 succeeds, and both hand coordinates are convex combinations lying in `[lo, hi]`. |
| HandPosition.EqualDistancesGiveMean | kohonen.py:290-339 | When the `k >= 2` selected entries all lie at one non-zero distance, v3's weighted answer succeeds and equals v2's mean answer over the same entries: every weight is `1 / k`. |
| HandPosition.TopKOnGrid | kohonen.py:293-300 | Every selected cell is a cell of the grid. With a true square root, every selected distance is non-negative. |
| Trajectory.LinePointAt | kohonen.py:346-347 | Unfolding helper: the position computed inline in the loop is intermediate point `index` of the line. |
| Trajectory.QueryPointsAt | kohonen.py:345-353 | Unfolding helper: the queried positions are the intermediate points in order, then `to_pos`. |
| Trajectory.StartsAtFrom | kohonen.py:345-347 | With `nb_steps >= 2`, the first queried position is `from_pos`. |
| Trajectory.EndsAtTo | kohonen.py:345-353 | There are `max(nb_steps, 1)` positions, and the last is exactly `to_pos`. |
| Trajectory.FractionBounds | kohonen.py:346 | Every intermediate fraction `index / (nb_steps - 1)` lies in [0, 1). |
| Trajectory.OnSegment | kohonen.py:345-353 | Every queried position lies between `from_pos` and `to_pos`, coordinate by coordinate. |
| Trajectory.EvenlySpaced | kohonen.py:345-353 | Consecutive positions, including the last pair, differ by `(to_pos - from_pos) / (nb_steps - 1)`. |
| Trajectory.MeanAnswerCells | kohonen.py:362-366 | Each v2 step names exactly `nb_values` distinct cells of the grid. |
| Trajectory.EqualDistancesSameAnswer | kohonen.py:290-339 | At a point whose `k >= 2` nearest cells are all at one non-zero distance, v3 answers the same cells and hand as v2. |
| Trajectory.MovementV1 | kohonen.py:343-355 | One step per queried position. Each step is v1's answer at that position. |
| Trajectory.MovementV2 | kohonen.py:357-369 | One step per queried position. Each step is v2's answer there, with `k = 4` on the way and `k = 3` at `to_pos`. |
| Trajectory.MovementV3 | kohonen.py:371-383 | The movement has one step per position, each v3's answer there, with `k = 4` on the way and `k = 3` at `to_pos`. A position whose hand divides by zero keeps its step, and the movement goes on. |

## Left out

- Plotting (`scatter_plot`, `scatter_plot_2`, `plot`) and the demo script under `__main__`. They are
  graphical output, file handling and sample generation, not the map's logic.
- The random initial weights of `SOM.__init__` (`numpy.random.random`). The constructor takes them as
  a parameter.
- Concrete `sqrt`, `exp` and `pow(., 0.5)`, and floating-point rounding. They are function parameters
  over `real`.
- numpy internals (`flatten`, `argmin`, `unravel_index`, `min`, broadcasting). Only their effect is
  modelled: a copy of the vector, the first minimum in row-major order, the minimum.
- Inputs of the wrong length. They would make numpy raise or broadcast. `Neuron.Compute`,
  `Neuron.Learn`, `SOM.Compute`, `SOM.Learn` and `SOM.MSE` require inputs that match the weights.
- `sigma = 0`. The kernel divides by `2 sigma^2`, and the kernel functions require `sigma != 0`.
- `SOM.Learn` and `SOM.MSE` require a non-empty grid, and `SOM.MSE` requires at least one sample. The
  source fails there (argmin of an empty array, division by `nsamples = 0`).
- FindHandPositionV1: an empty grid, or an empty first row, is excluded by `HasOrigin`. The source
  fails on `map[0][0]`.
- FindHandPositionV2: `nb_values` outside `[1, number of cells]` is excluded. On a non-empty grid
  the source raises `IndexError` there. On an empty grid, `nb_values = 0` raises `ZeroDivisionError`,
  and a negative `nb_values` answers no cells and `(-0.0, -0.0)`.
- FindHandPositionV3: likewise, `nb_values` outside `[1, number of cells]` is excluded. The source
  raises `IndexError` there, except that a non-positive `nb_values` on an empty grid answers no cells
  and `(0, 0)`.
- Cells with fewer than four coordinates. The queries require `HandGrid` (every cell has at least four
  coordinates), because the source reads `weights[2]` and `weights[3]` of the selected cells.
- The dispersion requires cells with at least two coordinates. On a map with at most one cell the
  source reads no weights and returns 0 for any input length; otherwise it raises `IndexError` on
  `weights[0]` or `weights[1]`.
- MovementV2 and MovementV3 require at least 3 cells, and at least 4 when `nb_steps >= 2`, since the
  queries they call must not fail.
- NaN is not modelled as a number. v3's NaN hand coordinates become the hand `DivisionByZero`.
- The grid positions `posx`/`posy` and the aliasing between `weightsmap` and the neurons' arrays are
  fixed when the map is built: they are `const` fields, so no operation can change them.
