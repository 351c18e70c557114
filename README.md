# modelutils in Dafny

A Dafny model of `SimPEG/Utils/modelutils.py`, the model-building utilities of
SimPEG:

- `minCurvatureInterp`:
  - the grid builder (entry checks, derived axis vectors, the flattened
    cell-centre grid `gridCC`);
  - the nearest-sample lookup;
  - the nested operator builders `av_extrap` and `aveCC2F`;
  - the relaxation loop (seed, snap to data, smooth with `Ave.T * (Ave * m)`,
    stop on the cap or the residual);
  - the dispatch on `method`, with every Python exception a path can raise
    modelled as an error value.
- `tileSurveyPoints`: the refinement of a tile grid over the survey extent
  until no tile holds more than `maxNpoints` locations, and the south-west and
  north-east corners of the non-empty tiles.
- `expand`, the padding helper of `meshBuilder`: the least number of
  geometrically growing padding cells that covers a distance.
- `surface2ind_topo`: the choice among its five classification rules and each
  rule applied to heights given as inputs.
- `refineTree`, point branch: the stencil of offset locations around each
  point and the octree level each is refined to.

Floats are Dafny `real`s. `mkvc` is Fortran-order flattening (first index
fastest). `np.meshgrid` uses its default 'xy' indexing. Python's `int()`
truncates toward zero.

Modules and files:

| file | module | what it holds |
|---|---|---|
| `common.dfy` | `Common` | results, `mkvc`, Fortran reshape, sums, maxima, `int()`, `linspace` |
| `grid.dfy` | `Grid` | the grid builder |
| `averaging.dfy` | `Averaging` | `av_extrap`, Kronecker products, `aveCC2F` |
| `relaxation.dfy` | `Relaxation` | the nearest-sample lookup and the relaxation loop |
| `interp.dfy` | `MinCurvature` | `minCurvatureInterp` as a whole |
| `tiling.dfy` | `Tiling` | `tileSurveyPoints` |
| `padding.dfy` | `Padding` | `expand` |
| `topography.dfy` | `Topography` | `surface2ind_topo` |
| `stencil.dfy` | `Stencil` | the point branch of `refineTree` |

The loops that update state in the source are methods with loop invariants:
- `NearestSample` and `NearestAll`;
- `SeedColumns`, `SnapColumns`, `Pass` and `Relax`;
- `ScanTiles`, `ScanStrips`, `ScanStrip` and `MarkTile` (the tile mask is an
  `array<bool>` updated in place);
- `Refine`, `Advance` and `RunPass` (the refinement loop of
  `tileSurveyPoints`), `TileSurveyPoints` and `Expand`;
- `NodalActive3` and `NodalActive2` (fill an `array3`/`array2` of flags slice
  by slice).

Most methods are proved equal to a function of their inputs. Two loops run
until a stop test instead: the relaxation loop (`Relax`) and the tile
refinement (`Refine`). Each of these is proved against a stop rule:
- `StopsAfter` for `Relax`, `StopsAt` for `Refine`;
- the rule fixes the pass count as the first pass at which the test fails;
- the result is a function of that count (`Setup.Iterate`) or of the
  passes run (`PassTiles` of the last pass of a `Refinement`);
- `StopsAfterUnique`, `RefinementUnique` and `StopsUnique` prove that the
  rule leaves one possible outcome.

Where the source and the written description of the library disagree, the
model follows the source:
- **A missing `iterMax`:** it is not rejected up front. The comparison
  `count < None` raises TypeError at the first loop test, after the seeding
  (`IterMaxMissing`).
- **Snap to data:** the snapped values hold right after the snap of each pass
  (`SnapHoldsData`), not after the pass. The smoothing that follows changes
  them.
- **Boundary rows of `av_extrap`:** they do not copy the end cell. Row 0
  equals row 1 and row `n` equals row `n - 1`, so a boundary face gets the
  average of the two end cells (`AvExtrapRows`).

## Model

| member | source | states |
|---|---|---|
| Grid.EntryCheck | SimPEG/Utils/modelutils.py:463-476 | no failure exactly when the row counts of locs and data match, a given vectorY comes with at least 2 columns and a given vectorZ with 3; a count mismatch is reported first |
| Grid.BuildGrid | SimPEG/Utils/modelutils.py:463-503 | an entry-check failure is the result, then a failure to build the x axis; on success the grid is flat exactly when locs has neither 2 nor 3 columns, each axis it has is the given vector or the one derived from its column (`AxisAlong`), and a 2-D/3-D point list is the flattened meshgrid of its axes |
| Grid.DerivedAxisAlong | SimPEG/Utils/modelutils.py:478-494 | an axis derived from a column of non-empty locs has floor((max - min) / gridSize) entries, entry k is min + (k + 1) * gridSize, all in (min, max] |
| Grid.AxisVector | SimPEG/Utils/modelutils.py:481-494 | with gridSize > 0 a derived axis has floor((max - min) / gridSize) entries, entry k is min + (k + 1) * gridSize, the entries increase strictly, lie in (min, max], and the axis is empty exactly when the extent is below one step |
| Grid.AxisElements | SimPEG/Utils/modelutils.py:483-484 | the cumulative sum of `ones(n) * gridSize` puts entry k at min + (k + 1) * gridSize |
| Grid.StepsIncrease | SimPEG/Utils/modelutils.py:484 | equal positive steps above min give strictly increasing entries |
| Grid.AxisWithin | SimPEG/Utils/modelutils.py:484 | the floor(d / g) steps above min stay in (min, max] |
| Grid.Column | SimPEG/Utils/modelutils.py:482 | `locs[:, c]` holds column c of every row |
| Grid.Meshgrid2 | SimPEG/Utils/modelutils.py:500 | both meshgrid outputs have shape (len(b), len(a)) |
| Grid.Meshgrid3 | SimPEG/Utils/modelutils.py:497 | the three meshgrid outputs have shape (len(b), len(a), len(c)) |
| Grid.GridCC2 | SimPEG/Utils/modelutils.py:500-501 | the 2-D point list has nx * ny rows of 2 coordinates |
| Grid.GridCC3 | SimPEG/Utils/modelutils.py:497-498 | the 3-D point list has nx * ny * nz rows of 3 coordinates |
| Grid.GridCC2At | SimPEG/Utils/modelutils.py:500-501 | point i + j * nx is (vx[i], vy[j]): x varies fastest |
| Grid.GridCC3At | SimPEG/Utils/modelutils.py:497-498 | point i + j * nx + k * nx * ny is (vx[i], vy[j], vz[k]) |
| Common.Mkvc2At | SimPEG/Utils/modelutils.py:501 | entry (i, j) of a 2-D array lands at position i + j * rows of its `mkvc` |
| Common.Mkvc3At | SimPEG/Utils/modelutils.py:498 | entry (i, j, k) lands at position i + j * d0 + k * d0 * d1 |
| Common.ReshapeFAt | SimPEG/Utils/modelutils.py:57-59 | entry (i, j) of a Fortran-order reshape is position i + j * rows |
| Common.Mkvc2OfReshapeF | SimPEG/Utils/modelutils.py:82 | flattening a Fortran-order reshape gives back the vector |
| Common.Trunc | SimPEG/Utils/modelutils.py:483 | `int()` truncates toward zero: within 1 of x, on the side of zero |
| Common.Min | SimPEG/Utils/modelutils.py:482 | `.min()` is an element no larger than any element |
| Common.Max | SimPEG/Utils/modelutils.py:482 | `.max()` is an element no smaller than any element |
| Common.MaxOfBounds | SimPEG/Utils/modelutils.py:177-182 | the running `np.max` from 0 bounds every count, is one of them, and is 0 for none |
| Common.LinspaceShape | SimPEG/Utils/modelutils.py:160-161 | with n >= 2 and a <= b the breaks start at a, end at b, never decrease and stay in [a, b] |
| Common.LinspaceBrackets | SimPEG/Utils/modelutils.py:160-161 | every value in [a, b] lies between two consecutive breaks |
| Averaging.Spdiags | SimPEG/Utils/modelutils.py:430-435 | the two-diagonal matrix has shape (n + 1, n) |
| Averaging.AvExtrap | SimPEG/Utils/modelutils.py:427-438 | `av_extrap(n)` has shape (n + 1, n) for n >= 2 |
| Averaging.AvExtrapRows | SimPEG/Utils/modelutils.py:427-438 | interior row i averages cells i - 1 and i; row 0 equals row 1 and row n equals row n - 1 |
| Averaging.AvExtrapRowSums | SimPEG/Utils/modelutils.py:427-438 | every row of `av_extrap(n)` sums to 1 |
| Averaging.Identity | SimPEG/Utils/modelutils.py:446 | `speye(n)` is n by n |
| Averaging.IdentityRowSums | SimPEG/Utils/modelutils.py:446 | every row of `speye(n)` sums to 1 |
| Averaging.Kron | SimPEG/Utils/modelutils.py:446 | `kron(A, B)` has ra * rb rows of ca * cb entries |
| Averaging.KronAt | SimPEG/Utils/modelutils.py:446 | entry (k + i * rb, l + j * cb) of `kron(A, B)` is A[i][j] * B[k][l] |
| Averaging.KronRowSums | SimPEG/Utils/modelutils.py:446-447 | when every row of A and of B sums to 1, so does every row of `kron(A, B)` |
| Averaging.XFaces2 | SimPEG/Utils/modelutils.py:446 | the 2-D x-face block has ny * (nx + 1) rows and nx * ny columns |
| Averaging.YFaces2 | SimPEG/Utils/modelutils.py:447 | the 2-D y-face block has nx * (ny + 1) rows and nx * ny columns |
| Averaging.XFaces3 | SimPEG/Utils/modelutils.py:451-453 | the 3-D x-face block has nz * ny * (nx + 1) rows |
| Averaging.YFaces3 | SimPEG/Utils/modelutils.py:454-456 | the 3-D y-face block has nz * (ny + 1) * nx rows |
| Averaging.ZFaces3 | SimPEG/Utils/modelutils.py:457-459 | the 3-D z-face block has nx * ny * (nz + 1) rows |
| Averaging.AveCC2F | SimPEG/Utils/modelutils.py:440-461 | `aveCC2F` maps the cells of a 1-, 2- or 3-D grid to its faces: one row per face, one column per cell |
| Averaging.AveCC2FRowSums | SimPEG/Utils/modelutils.py:440-461 | every row of the stacked operator sums to 1 |
| Averaging.XFacesAt | SimPEG/Utils/modelutils.py:446 | x-face i of row kk reads only cells of the same row, with the weights of `av_extrap(nx)` |
| Averaging.YFacesAt | SimPEG/Utils/modelutils.py:447 | y-face of column i reads only cells of the same column, with the weights of `av_extrap(ny)` |
| Relaxation.NearestIn | SimPEG/Utils/modelutils.py:506-508 | the index is no farther than any sample and strictly nearer than every earlier one |
| Relaxation.NearestSample | SimPEG/Utils/modelutils.py:506-508 | the scan returns the first nearest sample and its squared distance, no larger than that of any sample |
| Relaxation.NearestIndices | SimPEG/Utils/modelutils.py:508 | one index per grid point, each naming a sample |
| Relaxation.NearestAll | SimPEG/Utils/modelutils.py:506-508 | per grid point, the first nearest sample and its squared distance |
| Relaxation.Transpose | SimPEG/Utils/modelutils.py:529 | the transpose of an r-by-c matrix is c by r |
| Relaxation.MatMul | SimPEG/Utils/modelutils.py:529 | the product of an r-by-n and an n-by-k matrix is r by k |
| Relaxation.RowStochasticKeepsConstant | SimPEG/Utils/modelutils.py:529 | a matrix whose rows sum to 1 maps a constant field to the same constant |
| Relaxation.AveragesConstant | SimPEG/Utils/modelutils.py:529 | `Ave * m` of a constant field is the same constant on every face |
| Relaxation.Setup.Seed | SimPEG/Utils/modelutils.py:517-522 | the seeded field has one row per grid point and one column per channel |
| Relaxation.Setup.Iterate | SimPEG/Utils/modelutils.py:524-531 | the field after any number of passes keeps that shape |
| Relaxation.SnapHoldsData | SimPEG/Utils/modelutils.py:527 | right after a snap, every grid point nearer than 1.1 * gridSize to its sample holds that sample's values and every other point keeps its value |
| Relaxation.SeedColumns | SimPEG/Utils/modelutils.py:517-522 | zeros, then each channel column set from the nearest samples, is the seeded field |
| Relaxation.SnapColumns | SimPEG/Utils/modelutils.py:525-527 | the channel-by-channel masked assignment is the snap |
| Relaxation.Pass | SimPEG/Utils/modelutils.py:525-530 | one pass yields the smoothed snap and the squared norms behind the residual |
| Relaxation.Relax | SimPEG/Utils/modelutils.py:514-531 | the result is the field after `count` passes, and `count` is the first pass count at which the test `count < iterMax and residual > tol` fails (`StopsAfter`); `count` is at most `iterMax`, or 0 |
| Relaxation.StopsAfterUnique | SimPEG/Utils/modelutils.py:524 | the stop rule admits one pass count, so the loop's result is determined |
| Relaxation.StopsWithinCap | SimPEG/Utils/modelutils.py:524 | a loop that stops after `count` passes ran at most `iterMax` of them, or none |
| MinCurvature.Dims | SimPEG/Utils/modelutils.py:497 | `gridCx` has one axis per location column, 2 or 3 |
| MinCurvature.PointsShape | SimPEG/Utils/modelutils.py:496-501 | a well-formed grid has one point per cell of `gridCx`, each with one coordinate per axis |
| MinCurvature.RelaxSetup | SimPEG/Utils/modelutils.py:506-512 | the operator, lookup and data handed to the loop are consistent |
| MinCurvature.RelaxOnGrid | SimPEG/Utils/modelutils.py:510-534 | an axis below 2 cells fails in `av_extrap`, no samples fail in the seeding, a missing `iterMax` fails at the loop test; otherwise the result is the field after `count` passes over the grid's setup, `count` being the first stop of the loop test |
| MinCurvature.RelaxOutcomeDetermined | SimPEG/Utils/modelutils.py:510-534 | relaxation mode has one outcome per input: the same error, or the same points, pass count and field |
| MinCurvature.MinCurvatureInterp | SimPEG/Utils/modelutils.py:406-565 | grid failures come first; on a flat grid the k-d tree query fails unless len(vectorX) equals the number of location columns; past the query, an unknown method returns None; relaxation on a flat grid fails on the unbound `gridCx` and otherwise behaves as `RelaxOnGrid`; spline mode fails on a flat grid, fails unless `data` has one column, and is otherwise shaped like `gridCx` |
| Tiling.CountIn | SimPEG/Utils/modelutils.py:169-182 | a tile count is at most the number of locations |
| Tiling.CountInPositive | SimPEG/Utils/modelutils.py:181-185 | a tile count is positive exactly when some location lies in the closed tile |
| Tiling.CountX | SimPEG/Utils/modelutils.py:169-170 | the x-strip count is at most the number of locations |
| Tiling.CountY | SimPEG/Utils/modelutils.py:173-174 | the y-strip count is at most the number of locations |
| Tiling.TileIndex | SimPEG/Utils/modelutils.py:166-186 | tile (ii, jj) is flat tile jj + ii * (nNy - 1), the box from (xt[ii], yt[jj]) to (xt[ii + 1], yt[jj + 1]) |
| Tiling.TileCounts | SimPEG/Utils/modelutils.py:181-182 | one count per flat tile, the number of locations in it |
| Tiling.MaxPrefixIsMaxOf | SimPEG/Utils/modelutils.py:177-182 | the running maximum over all tiles is the maximum |
| Tiling.MaskStep | SimPEG/Utils/modelutils.py:185-186 | clearing an empty tile keeps the mask equal to "not yet visited or non-empty" |
| Tiling.StripTiles | SimPEG/Utils/modelutils.py:166-186 | the tiles of x strip ii are the flat tiles from ii * (nNy - 1) on |
| Tiling.MarkTile | SimPEG/Utils/modelutils.py:182-186 | one tile: the running maximum takes its count in and an empty tile is cleared |
| Tiling.ScanStrip | SimPEG/Utils/modelutils.py:167-186 | the inner loop extends the mask and the three running maxima over one x strip |
| Tiling.ScanStrips | SimPEG/Utils/modelutils.py:166-186 | the outer loop covers every strip |
| Tiling.ScanTiles | SimPEG/Utils/modelutils.py:164-186 | after the nested loops the mask keeps exactly the non-empty tiles, `nObs` is the largest tile count, `countx`/`county` the largest strip counts |
| Tiling.ScannedAll | SimPEG/Utils/modelutils.py:166-186 | after all strips the running maxima are the maxima |
| Tiling.KeptListsAll | SimPEG/Utils/modelutils.py:192 | every position the mask keeps is listed by the boolean index |
| Tiling.FilterAt | SimPEG/Utils/modelutils.py:192 | entry k of `v[filt]` is v at the k-th kept position |
| Tiling.CornersAt | SimPEG/Utils/modelutils.py:191-192 | the `mkvc` order of the meshgrid corners is the mask order: entry jj + ii * (nNy - 1) is (x1[ii], y1[jj]) |
| Tiling.KeptCornersAt | SimPEG/Utils/modelutils.py:191-194 | the k-th kept corner is the corner of the k-th kept tile |
| Tiling.AssembleAt | SimPEG/Utils/modelutils.py:188-194 | entry k of `xy1`/`xy2` is the south-west/north-east corner of the k-th kept tile |
| Tiling.LimitsBound | SimPEG/Utils/modelutils.py:145-146 | `xlim` and `ylim` bound every location |
| Tiling.Covered | SimPEG/Utils/modelutils.py:160-174 | every location lies in some tile of a pass over its extent, whose count is then positive |
| Tiling.PassHasObs | SimPEG/Utils/modelutils.py:182 | a pass over non-empty locations has `nObs >= 1` |
| Tiling.KeptTileSound | SimPEG/Utils/modelutils.py:188-194 | each kept tile has its south-west corner first and holds between 1 and `nObs` locations |
| Tiling.LocationKept | SimPEG/Utils/modelutils.py:188-194 | every location is inside some returned tile |
| Tiling.KeptTilesSound | SimPEG/Utils/modelutils.py:188-194 | the two lists have one entry per kept tile, and each tile is ordered and holds between 1 and `nObs` locations |
| Tiling.LocationsKept | SimPEG/Utils/modelutils.py:188-194 | every location lies in some returned tile |
| Tiling.AssembledSound | SimPEG/Utils/modelutils.py:188-196 | the returned lists match, each tile is ordered and holds between 1 and `maxNpoints` locations, and every location is covered |
| Tiling.RunPass | SimPEG/Utils/modelutils.py:158-186 | one pass: the breaks, the mask of non-empty tiles and the three maxima; `nObs >= 1` when the locations lie in the extent |
| Tiling.Mask | SimPEG/Utils/modelutils.py:164-186 | the mask after a whole pass keeps exactly the non-empty tiles |
| Tiling.MaskUnique | SimPEG/Utils/modelutils.py:164-186 | that mask is the only one doing so |
| Tiling.ScheduledUnique | SimPEG/Utils/modelutils.py:149-156 | two schedules of break counts of one length are equal when passes with the same break counts are the same pass: each pass's break counts follow from the pass before |
| Tiling.RefinementPrefix | SimPEG/Utils/modelutils.py:148-186 | every prefix of a refinement is a refinement |
| Tiling.RefinementUnique | SimPEG/Utils/modelutils.py:148-186 | two refinements of the same length over the same locations are equal: each pass's break counts and maxima follow from the ones before |
| Tiling.StopsUnique | SimPEG/Utils/modelutils.py:149 | two refinements that both stop are equal, so the loop has one outcome |
| Tiling.StopsBeforeNot | SimPEG/Utils/modelutils.py:149 | a refinement that stops has no proper prefix that also stops |
| Tiling.RefinementStep | SimPEG/Utils/modelutils.py:149-186 | a measured pass with the break counts of lines 149-156 extends a refinement |
| Tiling.PassMeasured | SimPEG/Utils/modelutils.py:158-186 | the state a pass leaves is the pass it measures |
| Tiling.PassTilesOf | SimPEG/Utils/modelutils.py:188-194 | the corner lists assembled from that state are the pass's corner lists |
| Tiling.StoppedTilesSound | SimPEG/Utils/modelutils.py:148-196 | the corner lists of the pass a refinement stops after are sound: ordered tiles of 1 to `maxNpoints` locations that cover every location |
| Tiling.RefiningStep | SimPEG/Utils/modelutils.py:149-186 | a pass run while the fullest tile is above `maxNpoints` extends the loop state by that pass |
| Tiling.RefiningStops | SimPEG/Utils/modelutils.py:149 | once the fullest tile holds at most `maxNpoints` locations, the passes run form a refinement that stops at the last one |
| Tiling.RefiningAbove | SimPEG/Utils/modelutils.py:149 | while the fullest tile holds more, every pass run so far was above `maxNpoints` |
| Tiling.Advance | SimPEG/Utils/modelutils.py:149-186 | one trip through the loop body extends the loop state by one measured pass |
| Tiling.Refine | SimPEG/Utils/modelutils.py:140-186 | the passes run form a refinement of the extent; when it settles they stop at the last pass, whose breaks, mask and maxima are the state left, with 1 <= `nObs` <= `maxNpoints`; otherwise all `fuel` passes were above `maxNpoints` |
| Tiling.SettledOutcome | SimPEG/Utils/modelutils.py:188-196 | the corner lists assembled from a settled loop are those of the pass the refinement stops after |
| Tiling.TileSurveyPoints | SimPEG/Utils/modelutils.py:126-196 | no locations fail on `.min()`; `maxNpoints >= 1e8` skips the loop and leaves `xtiles` unbound; `maxNpoints < 1` never settles; a returned result is the corner lists of the pass at which the refinement of the locations' own limits first has no tile above `maxNpoints` (`Settled`), and is sound; running out of fuel means every pass run was above `maxNpoints` |
| Padding.PadLengthAtLeast | SimPEG/Utils/modelutils.py:256 | n padding cells are at least n * dx wide |
| Padding.PadLengthIncreasing | SimPEG/Utils/modelutils.py:254-256 | each added cell strictly widens the padding |
| Padding.PadLengthClosedForm | SimPEG/Utils/modelutils.py:256 | (expFact - 1) * width(n) == dx * expFact * (expFact^n - 1) |
| Padding.BelowPadBound | SimPEG/Utils/modelutils.py:254 | while the width is below `pad` the count stays below pad / dx |
| Padding.Expand | SimPEG/Utils/modelutils.py:251-258 | `expand` returns the least cell count whose width reaches `pad`, and 0 when `pad <= 0` |
| Topography.SelectRule | SimPEG/Utils/modelutils.py:36-121 | which of the five rules applies, by dimension, `gridLoc` and mesh type, and which error each other combination raises |
| Topography.TreeCellsActive | SimPEG/Utils/modelutils.py:53 | one flag per cell |
| Topography.Cells2Active | SimPEG/Utils/modelutils.py:100-101 | one flag per cell |
| Topography.CellRulesOnSurface | SimPEG/Utils/modelutils.py:100-101 | the 2-D rule (at or below) accepts what the tree rule (strictly below) accepts, and more exactly on the surface |
| Topography.LayerHeights | SimPEG/Utils/modelutils.py:57-59 | the centre heights reshape to one row per column position, one column per layer |
| Topography.TensorLayers | SimPEG/Utils/modelutils.py:65-68 | k stacked layers hold k flags per column position |
| Topography.TensorCellsActive | SimPEG/Utils/modelutils.py:65-68 | one flag per cell |
| Topography.TensorLayersAt | SimPEG/Utils/modelutils.py:65-68 | position p + layer * nxy of the stack is the test of layer `layer` at p |
| Topography.TensorCellsAt | SimPEG/Utils/modelutils.py:57-68 | cell p + k * nxy is active exactly when the surface at p is at or above its centre |
| Topography.TensorCellsBelow | SimPEG/Utils/modelutils.py:65-68 | with increasing layer heights, an active cell has every cell below it active |
| Topography.NodalCube3 | SimPEG/Utils/modelutils.py:86-92 | the flag array has shape (nCx, nCy, nCz) |
| Topography.NodalFlags3 | SimPEG/Utils/modelutils.py:82-92 | one flag per cell |
| Topography.FillColumn | SimPEG/Utils/modelutils.py:90-92 | filling column (ii, jj) extends the done prefix by one column |
| Topography.NodalActive3 | SimPEG/Utils/modelutils.py:82-92 | the loops over a fresh array, flattened, give the nodal flags |
| Topography.NodalFlags3At | SimPEG/Utils/modelutils.py:90-92 | cell ii + jj * nCx + kk * nCx * nCy is active exactly when its four corner heights are at or above the top of layer kk |
| Topography.NodalFlags3Below | SimPEG/Utils/modelutils.py:90-92 | with increasing layer tops, an active cell has every cell below it active |
| Topography.NodalGrid2 | SimPEG/Utils/modelutils.py:113-117 | the flag array has shape (nCx, nCy) |
| Topography.NodalFlags2 | SimPEG/Utils/modelutils.py:112-117 | one flag per cell |
| Topography.FillRow | SimPEG/Utils/modelutils.py:116-117 | filling row ii extends the done prefix by one row |
| Topography.NodalActive2 | SimPEG/Utils/modelutils.py:105-117 | the loop over a fresh array, flattened, gives the nodal flags |
| Topography.NodalFlags2At | SimPEG/Utils/modelutils.py:116-117 | cell ii + kk * nCx is active exactly when both node heights are strictly above the top of layer kk |
| Topography.NodalFlags2Below | SimPEG/Utils/modelutils.py:116-117 | with increasing layer tops, an active cell has every cell below it active |
| Stencil.RingsOf | SimPEG/Utils/modelutils.py:332-336 | the stencil has nCpad[0] + nCpad[1] + nCpad[2] rings, each of level 1 to 3, never decreasing outwards |
| Stencil.LevelVec | SimPEG/Utils/modelutils.py:339 | the mirrored level vector has 2S + 1 entries with level 1 at the centre |
| Stencil.LevelVecSymmetric | SimPEG/Utils/modelutils.py:339 | the level vector reads the same from both ends |
| Stencil.LevelVecBounds | SimPEG/Utils/modelutils.py:339 | every level of the vector is 1 to 3 |
| Stencil.SignedVec | SimPEG/Utils/modelutils.py:346 | the signed vector has 2S + 1 entries with 0 at the centre |
| Stencil.SignedMatchesLevel | SimPEG/Utils/modelutils.py:339-346 | away from the centre the signed exponent is minus the level before the centre and the level after it |
| Stencil.LevelCube | SimPEG/Utils/modelutils.py:340-342 | `gridLevel` is an L-cube whose planes are the level planes |
| Stencil.LevelLine | SimPEG/Utils/modelutils.py:340-342 | entry (i, j, k) is the largest of vec[j], vec[i], vec[k] |
| Stencil.OffsetCube | SimPEG/Utils/modelutils.py:347-351 | each offset component is an L-cube whose planes are the offset planes |
| Stencil.OffsetLine | SimPEG/Utils/modelutils.py:347-351 | entry (i, j, k) is sign(v) * 2^abs(v) * hmin of the meshgrid output |
| Stencil.Offsets | SimPEG/Utils/modelutils.py:348-352 | `offset` has L^3 rows of 3 and row t is position t of each flattened component |
| Stencil.OffsetRow | SimPEG/Utils/modelutils.py:348-352 | offset row i + j * L + k * L^2 is the steps of vs[j], vs[i], vs[k] |
| Stencil.OffsetAt | SimPEG/Utils/modelutils.py:349-351 | position t of a flattened component is the step of its meshgrid entry |
| Stencil.NewLocations | SimPEG/Utils/modelutils.py:355-358 | `newLoc` has N * P rows of 3 |
| Stencil.LocationRow | SimPEG/Utils/modelutils.py:355-358 | row t + loc * P of `newLoc` is location loc plus offset t |
| Stencil.KronOnesCube | SimPEG/Utils/modelutils.py:343 | the kron of 2-D ones with the 3-D `gridLevel` has shape (L, N * L, L), entry (i, J, k) being `gridLevel[i, J % L, k]` |
| Stencil.KronOnesPlane | SimPEG/Utils/modelutils.py:343 | each plane of that kron repeats the cube's plane N times along its rows |
| Stencil.Inserted | SimPEG/Utils/modelutils.py:361 | `maxLevel - levels + 1`, entry by entry |
| Stencil.InsertLevelsAsWritten | SimPEG/Utils/modelutils.py:343-361 | the levels as written have L * N * L * L entries |
| Stencil.InsertLevels | SimPEG/Utils/modelutils.py:361 | the intended levels have one entry per new location |
| Stencil.LevelRow | SimPEG/Utils/modelutils.py:340-361 | intended level row t + loc * P is maxLevel + 1 minus the largest ring level at stencil position t |
| Stencil.PointStencil | SimPEG/Utils/modelutils.py:332-361 | builds the new locations with the corrected levels of line 343 (`InsertLevels`, not the as-written replication): one level per new location |
| Stencil.StencilLocationAt | SimPEG/Utils/modelutils.py:346-358 | new location t + loc * P is location loc moved by the signed power-of-two steps of position t (x from j, y from i, z from k) |
| Stencil.StencilLevelAt | SimPEG/Utils/modelutils.py:339-361 | the same row is refined to maxLevel + 1 minus the largest ring level of its three coordinates |
| Stencil.StencilCentre | SimPEG/Utils/modelutils.py:330-361 | the centre of each stencil is the location itself, refined to `maxLevel` like the insert at line 330 |
| Stencil.StencilLevelBounds | SimPEG/Utils/modelutils.py:332-361 | every new location is refined to maxLevel - 2 .. maxLevel |
| Stencil.AsWrittenForOneLocation | SimPEG/Utils/modelutils.py:343 | with one location the written replication gives the intended levels |
| Stencil.AsWrittenMisaligned | SimPEG/Utils/modelutils.py:343 | with two locations and nCpad = [1, 1, 0], row 112 gets `maxLevel` as written but `maxLevel - 1` as intended |

## Left out

- `mkvc` and `ndgrid` come from `SimPEG/Utils/matutils.py`, which is not part of this model. `mkvc` is modelled as Fortran-order flattening.
- Floating point: all arithmetic is on exact reals. Rounding, `inf` and `nan` are not modelled, except that the residual test treats a zero denominator as numpy does.
- The scipy interpolants of `surface2ind_topo` (`NearestNDInterpolator`, `interp2d`, `griddata`, `interp1d`) and the mesh objects: the surface heights, cell-centre heights and layer tops are inputs. A `nan` from `griddata`'s fill value (which compares false) is not modelled.
- Topography.TreeCellsActive: its contract states only the length. The comparison itself is stated by `CellRulesOnSurface` against the 2-D rule.
- Topography.Cells2Active: its contract states only the length, for the same reason.
- `meshBuilder` apart from `expand`: the extent, the core cell counts, the `TensorMesh`/`TreeMesh` construction and the origin shift build objects of the `discretize` library.
- Padding.Expand: requires `dx > 0` and `expFact >= 1`. Otherwise the source's loop need not end, and a terminating method cannot model it.
- `refineTree`:
  - `maxLevel` (from `log2` of the mesh size) and `hmin` (`mesh.hx.min()`) are inputs.
  - The `insert_cells` calls at lines 330 and 360 are not modelled. The model returns the locations and levels passed to the second call. `StencilCentre` relates it to the first.
  - `finalize` is not modelled.
  - The surface branch (lines 364-398) is left out: it is built on `NearestNDInterpolator` and the mesh object.
- `minCurvatureInterp`:
  - Spline mode is kept only as its result shape (`SplineShaped`) and the failure when `data` has more than one column (`SplineDataColumns`). The kernel matrix, `bicgstab` and the logarithms are numerical-library code. Failures inside them other than the column check are not modelled, nor is a solve that does not converge.
  - `print(count)` is left out.
- Relaxation.NearestAll: the k-d tree query is specified as a linear scan that keeps the first of equally near samples. The tree's own tie-break is not modelled. The comparison `d < 1.1 * gridSize` is made on squared distances.
- MinCurvature.RelaxOnGrid: with no samples it reports `NoSamples` even when `data` has no channels. In that case the source never indexes `data`, and its behaviour then rests on `cKDTree`'s handling of an empty point set.
- Tiling.TileSurveyPoints: runs at most `fuel` passes of the refinement loop and reports `OutOfFuel` beyond them. The source loops until the tiles are small enough, and forever when `maxNpoints < 1`.
- Averaging.KronRowSums: row sums of Kronecker products are proved only for factors whose rows sum to 1, the only case `aveCC2F` needs.

## Findings

| source | as written | input that shows it | evidently intended | confidence | as-written member | corrected member |
|---|---|---|---|---|---|---|
| SimPEG/Utils/modelutils.py:343 | `np.kron(np.ones((N, 1)), gridLevel)` with a 3-D `gridLevel` promotes the ones to shape (1, N, 1), so the copies sit side by side along the second axis; `mkvc` of that (L, N * L, L) array interleaves them, and for N >= 2 the levels no longer line up with the rows of `newLoc` | N = 2, nCpad = [1, 1, 0] (L = 5): row 112 of `newLoc` is the first location moved by (0, 0, +4 * hmin), in the outer ring, but receives level `maxLevel` | each location's block of P = L^3 rows gets `mkvc(gridLevel)` in offset order, so row 112 gets `maxLevel - 1` | high; not executed | Stencil.AsWrittenMisaligned | Stencil.StencilLevelAt |
