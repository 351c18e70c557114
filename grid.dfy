/** The grid builder at the head of `minCurvatureInterp`: the entry
    assertions, the axis vectors derived from the extent of the sample
    locations, and the flattening of the Cartesian grid of those axes into the
    list of query points `gridCC`. */
module Grid {
  import opened Common

  /** The ways the grid builder fails, each a Python exception. */
  datatype GridError =
    | LocsDataMismatch   // AssertionError: locs and data row counts differ
    | VectorYNeedsXY     // AssertionError: vectorY given, locs has fewer than 2 columns
    | VectorZNeedsXYZ    // AssertionError: vectorZ given, locs does not have 3 columns
    | MissingColumn      // IndexError: locs[:, c] on a location array without column c
    | EmptyLocations     // ValueError: .min() of a zero-size array
    | CountNotFinite     // OverflowError/ValueError: int() of inf or nan (gridSize == 0)
    | NegativeCount      // ValueError: np.ones of a negative count (gridSize < 0)

  /** The query grid: a flat vector in the 1-D path (where `gridCx` is never
      bound), otherwise the axis vectors and the flattened point list. */
  datatype QueryGrid =
    | Flat(vx: seq<real>)
    | Plane(vx: seq<real>, vy: seq<real>, cc: seq<seq<real>>)
    | Volume(vx: seq<real>, vy: seq<real>, vz: seq<real>, cc: seq<seq<real>>)
  {
    /** The query points, one row per point (`gridCC`); a flat grid's points are its values. */
    function Points(): seq<seq<real>>
    {
      match this
      case Flat(vx) => seq(|vx|, i requires 0 <= i < |vx| => [vx[i]])
      case Plane(_, _, cc) => cc
      case Volume(_, _, _, cc) => cc
    }
  }

  /** Column `c` of the location array, `locs[:, c]`. */
  function Column(locs: seq<seq<real>>, c: nat): (r: seq<real>)
    requires forall p :: 0 <= p < |locs| ==> c < |locs[p]|
    ensures |r| == |locs| && forall p :: 0 <= p < |locs| ==> r[p] == locs[p][c]
  {
    seq(|locs|, p requires 0 <= p < |locs| => locs[p][c])
  }

  // ---------------------------------------------------------------------------
  // Derived axis vectors: `vmin + np.cumsum(np.ones(n) * gridSize)`
  // ---------------------------------------------------------------------------

  /** `np.cumsum`: entry `k` is the sum of the first `k + 1` entries. */
  function CumSum(s: seq<real>): (r: seq<real>)
    ensures |r| == |s|
  {
    seq(|s|, k requires 0 <= k < |s| => Sum(s[..k + 1]))
  }

  /** `n` copies of `g` add up to `n * g`. */
  lemma {:induction false} SumRepeat(g: real, n: nat)
    ensures Sum(Repeat(g, n)) == (n as real) * g
  {
    if n > 0 {
      assert Repeat(g, n)[1..] == Repeat(g, n - 1);
      SumRepeat(g, n - 1);
    }
  }

  /** The axis vector derived from the extent `[lo, hi]` of one column of the
      locations: `n = int((hi - lo) / gridSize)` steps of `gridSize` above `lo`. */
  function DeriveAxis(lo: real, hi: real, gridSize: real): Result<seq<real>, GridError>
  {
    if gridSize == 0.0 then Err(CountNotFinite)
    else
      var n := Trunc((hi - lo) / gridSize);
      if n < 0 then Err(NegativeCount)
      else
        var steps := CumSum(Repeat(gridSize, n));
        Ok(seq(n, k requires 0 <= k < n => lo + steps[k]))
  }

  /** With a positive grid size over a non-empty extent the axis vector has
      floor((hi - lo) / gridSize) elements, element `k` is lo + (k + 1) * gridSize,
      the elements increase strictly and lie in (lo, hi], and the vector is
      empty exactly when the extent is below one grid step. */
  lemma AxisVector(lo: real, hi: real, gridSize: real)
    requires gridSize > 0.0 && lo <= hi
    ensures DeriveAxis(lo, hi, gridSize).Ok?
    ensures var v := DeriveAxis(lo, hi, gridSize).value;
      && |v| == ((hi - lo) / gridSize).Floor
      && (forall k :: 0 <= k < |v| ==> v[k] == lo + ((k + 1) as real) * gridSize)
      && (forall k :: 0 <= k < |v| - 1 ==> v[k] < v[k + 1])
      && (forall k :: 0 <= k < |v| ==> lo < v[k] <= hi)
      && (|v| == 0 <==> hi - lo < gridSize)
  {
    var v := DeriveAxis(lo, hi, gridSize).value;
    AxisElements(lo, hi, gridSize);
    StepsFit(hi - lo, gridSize);
    StepsIncrease(v, lo, gridSize);
    AxisWithin(v, lo, hi, gridSize);
  }

  /** Equal positive steps above `lo` increase strictly. */
  lemma StepsIncrease(v: seq<real>, lo: real, g: real)
    requires g > 0.0
    requires forall k :: 0 <= k < |v| ==> v[k] == lo + ((k + 1) as real) * g
    ensures forall k :: 0 <= k < |v| - 1 ==> v[k] < v[k + 1]
  {
    forall k | 0 <= k < |v| - 1
      ensures v[k] < v[k + 1]
    {
      assert ((k + 2) as real) * g == ((k + 1) as real) * g + g;
    }
  }

  /** The floor((hi - lo) / g) steps above `lo` stay in (lo, hi]. */
  lemma AxisWithin(v: seq<real>, lo: real, hi: real, g: real)
    requires g > 0.0 && lo <= hi && |v| == ((hi - lo) / g).Floor
    requires forall k :: 0 <= k < |v| ==> v[k] == lo + ((k + 1) as real) * g
    ensures forall k :: 0 <= k < |v| ==> lo < v[k] <= hi
  {
    forall k | 0 <= k < |v|
      ensures lo < v[k] <= hi
    {
      StepWithin(hi - lo, g, k);
    }
  }

  /** Step `k + 1` of `g` lies in (0, d] when floor(d / g) steps fit. */
  lemma StepWithin(d: real, g: real, k: nat)
    requires g > 0.0 && d >= 0.0 && k < (d / g).Floor
    ensures 0.0 < ((k + 1) as real) * g <= d
  {
    StepsFit(d, g);
    var n := (d / g).Floor;
    RealMulMono((k + 1) as real, n as real, g);
    RealMulMono(1.0, (k + 1) as real, g);
  }

  /** Element `k` of a derived axis is `lo + (k + 1) * gridSize`. */
  lemma AxisElements(lo: real, hi: real, gridSize: real)
    requires gridSize > 0.0 && lo <= hi
    ensures DeriveAxis(lo, hi, gridSize).Ok?
    ensures var v := DeriveAxis(lo, hi, gridSize).value;
      && |v| == ((hi - lo) / gridSize).Floor
      && forall k :: 0 <= k < |v| ==> v[k] == lo + ((k + 1) as real) * gridSize
  {
    var n := Trunc((hi - lo) / gridSize);
    var v := DeriveAxis(lo, hi, gridSize).value;
    forall k | 0 <= k < n
      ensures v[k] == lo + ((k + 1) as real) * gridSize
    {
      assert Repeat(gridSize, n)[..k + 1] == Repeat(gridSize, k + 1);
      SumRepeat(gridSize, k + 1);
    }
  }

  /** floor(d / g) whole steps of `g` fit in `d`, and at least one does
      exactly when `g <= d`. */
  lemma StepsFit(d: real, g: real)
    requires g > 0.0 && d >= 0.0
    ensures ((d / g).Floor as real) * g <= d
    ensures (d / g).Floor == 0 <==> d < g
  {
    var q := d / g;
    assert q * g == d;
    RealMulMono(q.Floor as real, q, g);
    if q < 1.0 {
      RealMulMono(q, 1.0, g);
    }
  }

  // ---------------------------------------------------------------------------
  // Entry checks and the grid
  // ---------------------------------------------------------------------------

  /** The three entry assertions, in the order the source evaluates them. */
  function EntryCheck(nLocs: nat, nData: nat, ndim: nat, hasY: bool, hasZ: bool): (r: Option<GridError>)
    ensures r == None <==> nLocs == nData && (hasY ==> ndim >= 2) && (hasZ ==> ndim == 3)
    ensures nLocs != nData ==> r == Some(LocsDataMismatch)
  {
    if nLocs != nData then Some(LocsDataMismatch)
    else if hasY && ndim < 2 then Some(VectorYNeedsXY)
    else if hasZ && ndim != 3 then Some(VectorZNeedsXYZ)
    else None
  }

  /** The axis vector along column `c`: the given one, or one derived from
      the column's extent. */
  function AxisAlong(locs: seq<seq<real>>, ndim: nat, c: nat, given: Option<seq<real>>, gridSize: real)
    : Result<seq<real>, GridError>
    requires IsMatrix(locs, |locs|, ndim)
  {
    if given.Some? then Ok(given.value)
    else if c >= ndim then Err(MissingColumn)
    else if |locs| == 0 then Err(EmptyLocations)
    else
      var col := Column(locs, c);
      DeriveAxis(Min(col), Max(col), gridSize)
  }

  /** An axis derived from column `c` spans the column's extent: it has
      floor((max - min) / gridSize) entries, entry `k` is
      min + (k + 1) * gridSize, and every entry lies in (min, max]. */
  lemma DerivedAxisAlong(locs: seq<seq<real>>, ndim: nat, c: nat, gridSize: real)
    requires IsMatrix(locs, |locs|, ndim) && c < ndim && |locs| > 0 && gridSize > 0.0
    ensures AxisAlong(locs, ndim, c, None, gridSize).Ok?
    ensures var col := Column(locs, c);
      var v := AxisAlong(locs, ndim, c, None, gridSize).value;
      && |v| == ((Max(col) - Min(col)) / gridSize).Floor
      && (forall k :: 0 <= k < |v| ==> v[k] == Min(col) + ((k + 1) as real) * gridSize)
      && (forall k :: 0 <= k < |v| ==> Min(col) < v[k] <= Max(col))
  {
    var col := Column(locs, c);
    assert Min(col) <= col[0] <= Max(col);
    AxisVector(Min(col), Max(col), gridSize);
  }

  /** numpy's `np.meshgrid(a, b)` (default 'xy' indexing): two arrays of shape
      (|b|, |a|), the first repeating `a` along its rows, the second `b` down
      its columns. */
  function Meshgrid2(a: seq<real>, b: seq<real>): (r: (seq<seq<real>>, seq<seq<real>>))
    ensures IsMatrix(r.0, |b|, |a|) && IsMatrix(r.1, |b|, |a|)
  {
    (seq(|b|, j requires 0 <= j < |b| => seq(|a|, i requires 0 <= i < |a| => a[i])),
     seq(|b|, j requires 0 <= j < |b| => seq(|a|, i requires 0 <= i < |a| => b[j])))
  }

  /** numpy's `np.meshgrid(a, b, c)`: three arrays of shape (|b|, |a|, |c|). */
  function Meshgrid3(a: seq<real>, b: seq<real>, c: seq<real>)
    : (r: (seq<seq<seq<real>>>, seq<seq<seq<real>>>, seq<seq<seq<real>>>))
    ensures IsCube(r.0, |b|, |a|, |c|) && IsCube(r.1, |b|, |a|, |c|) && IsCube(r.2, |b|, |a|, |c|)
  {
    (seq(|b|, j requires 0 <= j < |b| => seq(|a|, i requires 0 <= i < |a| => seq(|c|, _ => a[i]))),
     seq(|b|, j requires 0 <= j < |b| => seq(|a|, _ => seq(|c|, _ => b[j]))),
     seq(|b|, _ => seq(|a|, _ => seq(|c|, k requires 0 <= k < |c| => c[k]))))
  }

  /** `np.c_[u, v]` of two equally long vectors. */
  function Stack2(u: seq<real>, v: seq<real>): (r: seq<seq<real>>)
    requires |u| == |v|
    ensures IsMatrix(r, |u|, 2)
  {
    seq(|u|, t requires 0 <= t < |u| => [u[t], v[t]])
  }

  /** `np.c_[u, v, w]`. */
  function Stack3(u: seq<real>, v: seq<real>, w: seq<real>): (r: seq<seq<real>>)
    requires |u| == |v| == |w|
    ensures IsMatrix(r, |u|, 3)
  {
    seq(|u|, t requires 0 <= t < |u| => [u[t], v[t], w[t]])
  }

  /** `gridCy, gridCx = np.meshgrid(vectorY, vectorX)` then
      `gridCC = np.c_[mkvc(gridCx), mkvc(gridCy)]`. */
  function GridCC2(vx: seq<real>, vy: seq<real>): (cc: seq<seq<real>>)
    ensures IsMatrix(cc, |vx| * |vy|, 2)
  {
    var (gy, gx) := Meshgrid2(vy, vx);
    Stack2(Mkvc2(gx, |vx|, |vy|), Mkvc2(gy, |vx|, |vy|))
  }

  /** `gridCy, gridCx, gridCz = np.meshgrid(vectorY, vectorX, vectorZ)` then
      `gridCC = np.c_[mkvc(gridCx), mkvc(gridCy), mkvc(gridCz)]`. */
  function GridCC3(vx: seq<real>, vy: seq<real>, vz: seq<real>): (cc: seq<seq<real>>)
    ensures IsMatrix(cc, |vx| * |vy| * |vz|, 3)
  {
    var (gy, gx, gz) := Meshgrid3(vy, vx, vz);
    Stack3(Mkvc3(gx, |vx|, |vy|, |vz|), Mkvc3(gy, |vx|, |vy|, |vz|), Mkvc3(gz, |vx|, |vy|, |vz|))
  }

  /** In 2-D, x varies fastest: point `i + j * nx` is (vx[i], vy[j]). */
  lemma GridCC2At(vx: seq<real>, vy: seq<real>, i: nat, j: nat)
    requires i < |vx| && j < |vy|
    ensures i + j * |vx| < |GridCC2(vx, vy)|
    ensures GridCC2(vx, vy)[i + j * |vx|] == [vx[i], vy[j]]
  {
    var (gy, gx) := Meshgrid2(vy, vx);
    Mkvc2At(gx, |vx|, |vy|, i, j);
    Mkvc2At(gy, |vx|, |vy|, i, j);
  }

  /** In 3-D, x varies fastest and z slowest: point `i + j * nx + k * nx * ny`
      is (vx[i], vy[j], vz[k]). */
  lemma GridCC3At(vx: seq<real>, vy: seq<real>, vz: seq<real>, i: nat, j: nat, k: nat)
    requires i < |vx| && j < |vy| && k < |vz|
    ensures i + j * |vx| + k * (|vx| * |vy|) < |GridCC3(vx, vy, vz)|
    ensures GridCC3(vx, vy, vz)[i + j * |vx| + k * (|vx| * |vy|)] == [vx[i], vy[j], vz[k]]
  {
    var (gy, gx, gz) := Meshgrid3(vy, vx, vz);
    var t := i + j * |vx| + k * (|vx| * |vy|);
    Mkvc3At(gx, |vx|, |vy|, |vz|, i, j, k, t);
    Mkvc3At(gy, |vx|, |vy|, |vz|, i, j, k, t);
    Mkvc3At(gz, |vx|, |vy|, |vz|, i, j, k, t);
  }

  /** Lines 463-503: the entry checks, the axis vectors and the flattened
      grid. `ndim` is `locs.shape[1]`; `nData` is `data.shape[0]`. */
  function BuildGrid(locs: seq<seq<real>>, ndim: nat, nData: nat,
                     vectorX: Option<seq<real>>, vectorY: Option<seq<real>>, vectorZ: Option<seq<real>>,
                     gridSize: real): (r: Result<QueryGrid, GridError>)
    requires IsMatrix(locs, |locs|, ndim)
    ensures EntryCheck(|locs|, nData, ndim, vectorY.Some?, vectorZ.Some?).Some? ==>
      r == Err(EntryCheck(|locs|, nData, ndim, vectorY.Some?, vectorZ.Some?).value)
    ensures r.Ok? ==> (r.value.Flat? <==> ndim != 2 && ndim != 3)
    ensures r.Ok? && r.value.Plane? ==>
      ndim == 2 && r.value.cc == GridCC2(r.value.vx, r.value.vy)
    ensures r.Ok? && r.value.Volume? ==>
      ndim == 3 && r.value.cc == GridCC3(r.value.vx, r.value.vy, r.value.vz)
    ensures r.Ok? && vectorX.Some? ==> r.value.vx == vectorX.value
    ensures r.Ok? ==> AxisAlong(locs, ndim, 0, vectorX, gridSize) == Ok(r.value.vx)
    ensures r.Ok? && !r.value.Flat? ==> AxisAlong(locs, ndim, 1, vectorY, gridSize) == Ok(r.value.vy)
    ensures r.Ok? && r.value.Volume? ==> AxisAlong(locs, ndim, 2, vectorZ, gridSize) == Ok(r.value.vz)
    ensures var x := AxisAlong(locs, ndim, 0, vectorX, gridSize);
      EntryCheck(|locs|, nData, ndim, vectorY.Some?, vectorZ.Some?).None? && x.Err? ==> r == Err(x.error)
  {
    var bad := EntryCheck(|locs|, nData, ndim, vectorY.Some?, vectorZ.Some?);
    if bad.Some? then Err(bad.value)
    else
      match AxisAlong(locs, ndim, 0, vectorX, gridSize)
      case Err(e) => Err(e)
      case Ok(vx) =>
        if ndim < 2 then Ok(Flat(vx))
        else
          match AxisAlong(locs, ndim, 1, vectorY, gridSize)
          case Err(e) => Err(e)
          case Ok(vy) =>
            if ndim == 3 then
              match AxisAlong(locs, ndim, 2, vectorZ, gridSize)
              case Err(e) => Err(e)
              case Ok(vz) => Ok(Volume(vx, vy, vz, GridCC3(vx, vy, vz)))
            else if ndim == 2 then Ok(Plane(vx, vy, GridCC2(vx, vy)))
            else Ok(Flat(vx))
  }
}
