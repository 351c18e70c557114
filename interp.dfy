/** `minCurvatureInterp` as a whole: the grid builder, then the dispatch on
    `method`. Relaxation mode runs the relaxation loop over the averaging
    operator of the grid; spline mode is kept only as far as its result
    shape; any other method name falls through to the end of the function,
    whose exception object is built but never raised, so the call returns
    `None`. */
module MinCurvature {
  import opened Common
  import opened Grid
  import opened Averaging
  import opened Relaxation

  /** The ways `minCurvatureInterp` fails after (or in) the grid builder. */
  datatype InterpError =
    | GridFailed(cause: GridError)  // an entry check or an axis derivation failed
    | QueryShape                    // ValueError: in the 1-D path `gridCC` is `vectorX` itself, which
                                    // `tree.query` reads as one point of len(vectorX) coordinates
    | GridCxUnbound                 // NameError: `gridCx` is only bound for 2 or 3 location columns
    | FlatSpline                    // spline mode on a flat grid: IndexError on `locs[i, 1]` or
                                    // `gridCC[i, 0]`, ValueError in `bicgstab`, or NameError on
                                    // `gridCx.shape`, whichever comes first
    | SplineDataColumns             // ValueError: `bicgstab` takes a right-hand side of one column
    | AxisTooShort                  // IndexError: `av_extrap(n)` writes column 1 with n < 2
    | NoSamples                     // IndexError: seeding reads `data[ind]` with ind == 0 == len(data)
    | IterMaxMissing                // TypeError: `count < None`

  /** What a call returns. */
  datatype Outcome =
    | Relaxed(gridCC: seq<seq<real>>, m: Matrix, count: nat)  // flat m, one row per grid point
    | SplineShaped(gridCC: seq<seq<real>>, shape: seq<nat>)   // values reshaped to `gridCx.shape`
    | NoneReturned                                           // unknown method name

  /** The shape of `gridCx` (one entry per axis, x first). */
  function Dims(g: QueryGrid): (dims: seq<nat>)
    requires !g.Flat?
    ensures |dims| == if g.Plane? then 2 else 3
  {
    match g
    case Plane(vx, vy, _) => [|vx|, |vy|]
    case Volume(vx, vy, vz, _) => [|vx|, |vy|, |vz|]
  }

  /** A grid whose point list is the flattening of its axes. */
  predicate WellFormed(g: QueryGrid)
  {
    match g
    case Flat(_) => true
    case Plane(vx, vy, cc) => cc == GridCC2(vx, vy)
    case Volume(vx, vy, vz, cc) => cc == GridCC3(vx, vy, vz)
  }

  predicate AxesLongEnough(dims: seq<nat>)
  {
    forall d :: 0 <= d < |dims| ==> dims[d] >= 2
  }

  /** The point list of a well-formed grid has one row per cell of `gridCx`,
      each row a point of the grid's dimension. */
  lemma PointsShape(g: QueryGrid)
    requires !g.Flat? && WellFormed(g)
    ensures IsMatrix(g.Points(), Cells(Dims(g)), |Dims(g)|)
  {
    if g.Volume? {
      assert |g.vx| * |g.vy| * |g.vz| == Cells(Dims(g));
    }
  }

  /** The relaxation inputs of a grid: its averaging operator and, per grid
      point, the first nearest sample and its squared distance. */
  function RelaxSetup(g: QueryGrid, locs: Matrix, data: Matrix, chans: nat, gridSize: real): (s: Setup)
    requires !g.Flat? && WellFormed(g) && AxesLongEnough(Dims(g))
    requires |locs| > 0 && IsMatrix(locs, |locs|, |Dims(g)|) && IsMatrix(data, |locs|, chans)
    ensures s.Valid()
  {
    var dims := Dims(g);
    PointsShape(g);
    var cc := g.Points();
    Setup(AveCC2F(dims), Faces(dims), Cells(dims), data, |locs|, chans,
          NearestIndices(cc, locs), NearestDists(cc, locs), gridSize)
  }

  /** What relaxation mode yields on a grid that has `gridCx`: an axis
      shorter than 2 fails in `av_extrap`, no samples fail while seeding,
      `iterMax=None` fails at the first loop test; otherwise the result is
      `gridCC` with the field after `count` passes, `count` being the first
      pass count at which the cap is reached or the residual does not exceed
      `tol`. */
  predicate RelaxOutcome(r: Result<Outcome, InterpError>, g: QueryGrid, locs: Matrix, data: Matrix,
                         chans: nat, gridSize: real, tol: real, iterMax: Option<int>)
    requires !g.Flat? && WellFormed(g)
    requires IsMatrix(locs, |locs|, |Dims(g)|) && IsMatrix(data, |locs|, chans)
  {
    if !AxesLongEnough(Dims(g)) then r == Err(AxisTooShort)
    else if |locs| == 0 then r == Err(NoSamples)
    else if iterMax.None? then r == Err(IterMaxMissing)
    else
      && r.Ok? && r.value.Relaxed? && r.value.gridCC == g.Points()
      && var s := RelaxSetup(g, locs, data, chans, gridSize);
         && r.value.m == s.Iterate(r.value.count)
         && StopsAfter(s, tol, iterMax.value, r.value.count)
  }

  /** Relaxation mode has one outcome per input: the error, or the grid, the
      pass count and the field are all determined. */
  lemma RelaxOutcomeDetermined(r1: Result<Outcome, InterpError>, r2: Result<Outcome, InterpError>,
                               g: QueryGrid, locs: Matrix, data: Matrix, chans: nat,
                               gridSize: real, tol: real, iterMax: Option<int>)
    requires !g.Flat? && WellFormed(g)
    requires IsMatrix(locs, |locs|, |Dims(g)|) && IsMatrix(data, |locs|, chans)
    requires RelaxOutcome(r1, g, locs, data, chans, gridSize, tol, iterMax)
    requires RelaxOutcome(r2, g, locs, data, chans, gridSize, tol, iterMax)
    ensures r1 == r2
  {
    if AxesLongEnough(Dims(g)) && |locs| > 0 && iterMax.Some? {
      var s := RelaxSetup(g, locs, data, chans, gridSize);
      StopsAfterUnique(s, tol, iterMax.value, r1.value.count, r2.value.count);
    }
  }

  /** Lines 510-534 on a grid that has `gridCx`: the axis-length check of
      `av_extrap`, the lookup, the seeding, the `iterMax` test and the loop. */
  method RelaxOnGrid(g: QueryGrid, locs: Matrix, data: Matrix, chans: nat,
                     gridSize: real, tol: real, iterMax: Option<int>)
    returns (r: Result<Outcome, InterpError>)
    requires !g.Flat? && WellFormed(g)
    requires IsMatrix(locs, |locs|, |Dims(g)|) && IsMatrix(data, |locs|, chans)
    ensures RelaxOutcome(r, g, locs, data, chans, gridSize, tol, iterMax)
  {
    var dims := Dims(g);
    if !AxesLongEnough(dims) {
      return Err(AxisTooShort);
    }
    if |locs| == 0 {
      return Err(NoSamples);
    }
    PointsShape(g);
    var cc := g.Points();
    var ind, d2 := NearestAll(cc, locs);
    if iterMax.None? {
      return Err(IterMaxMissing);
    }
    var s := Setup(AveCC2F(dims), Faces(dims), Cells(dims), data, |locs|, chans, ind, d2, gridSize);
    var m, count := Relax(s, tol, iterMax.value);
    return Ok(Relaxed(cc, m, count));
  }

  /** Lines 406-565. Grid-builder failures come first. The k-d tree query
      of lines 506-508 runs before the method is chosen; on a flat grid it
      fails unless len(vectorX) equals the number of location columns. Then
      the outcome depends on `method` and on whether `gridCx` exists:
      relaxation on a flat grid fails on the unbound `gridCx` and otherwise
      behaves as `RelaxOnGrid`; spline mode fails on a flat grid, fails in
      `bicgstab` unless `data` has one column, and otherwise returns values
      shaped like `gridCx`; any other method name returns `None`. */
  method MinCurvatureInterp(locs: Matrix, ndim: nat, data: Matrix, chans: nat,
                            vectorX: Option<seq<real>>, vectorY: Option<seq<real>>,
                            vectorZ: Option<seq<real>>, gridSize: real, tol: real,
                            iterMax: Option<int>, mode: string)
    returns (r: Result<Outcome, InterpError>)
    requires IsMatrix(locs, |locs|, ndim) && IsMatrix(data, |data|, chans)
    ensures var b := BuildGrid(locs, ndim, |data|, vectorX, vectorY, vectorZ, gridSize);
      && (b.Err? ==> r == Err(GridFailed(b.error)))
      && (b.Ok? && b.value.Flat? && |b.value.vx| != ndim ==> r == Err(QueryShape))
      && (b.Ok? && (!b.value.Flat? || |b.value.vx| == ndim) && mode != "relaxation" && mode != "spline" ==>
            r == Ok(NoneReturned))
      && (b.Ok? && b.value.Flat? && |b.value.vx| == ndim && mode == "relaxation" ==> r == Err(GridCxUnbound))
      && (b.Ok? && b.value.Flat? && |b.value.vx| == ndim && mode == "spline" ==> r == Err(FlatSpline))
      && (b.Ok? && !b.value.Flat? && mode == "spline" && chans != 1 ==> r == Err(SplineDataColumns))
      && (b.Ok? && !b.value.Flat? && mode == "spline" && chans == 1 ==>
            r == Ok(SplineShaped(b.value.Points(), Dims(b.value))))
      && (b.Ok? && !b.value.Flat? && mode == "relaxation" ==>
            && WellFormed(b.value) && ndim == |Dims(b.value)| && |data| == |locs|
            && RelaxOutcome(r, b.value, locs, data, chans, gridSize, tol, iterMax))
  {
    var built := BuildGrid(locs, ndim, |data|, vectorX, vectorY, vectorZ, gridSize);
    if built.Err? {
      return Err(GridFailed(built.error));
    }
    var g := built.value;
    if g.Flat? && |g.vx| != ndim {
      return Err(QueryShape);
    }
    if mode != "relaxation" && mode != "spline" {
      return Ok(NoneReturned);
    }
    if g.Flat? {
      if mode == "relaxation" {
        return Err(GridCxUnbound);
      }
      return Err(FlatSpline);
    }
    if mode == "spline" {
      if chans != 1 {
        return Err(SplineDataColumns);
      }
      return Ok(SplineShaped(g.Points(), Dims(g)));
    }
    r := RelaxOnGrid(g, locs, data, chans, gridSize, tol, iterMax);
  }
}
