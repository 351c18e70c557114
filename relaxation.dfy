/** Relaxation mode of `minCurvatureInterp`: every grid point starts from the
    value of its nearest sample, then the loop re-imposes the sample values
    near the data and smooths with `Ave.T * (Ave * m)` until the iteration cap
    or the residual tolerance stops it. The nearest-sample lookup (a k-d tree
    query in the source) is specified here as a linear scan over squared
    distances. */
module Relaxation {
  import opened Common
  import opened Averaging

  // ---------------------------------------------------------------------------
  // Nearest sample
  // ---------------------------------------------------------------------------

  /** Squared Euclidean distance between two points of the same dimension. */
  function SqDist(p: seq<real>, q: seq<real>): (d: real)
    requires |p| == |q|
    ensures d >= 0.0
  {
    if |p| == 0 then 0.0 else (p[0] - q[0]) * (p[0] - q[0]) + SqDist(p[1..], q[1..])
  }

  /** The first of the first `n` samples that lies nearest to `p`. */
  function NearestIn(p: seq<real>, locs: Matrix, n: nat): (best: nat)
    requires 0 < n <= |locs| && forall i :: 0 <= i < |locs| ==> |locs[i]| == |p|
    ensures best < n
    ensures forall j :: 0 <= j < n ==> SqDist(p, locs[best]) <= SqDist(p, locs[j])
    ensures forall j :: 0 <= j < best ==> SqDist(p, locs[best]) < SqDist(p, locs[j])
  {
    if n == 1 then 0
    else
      var b := NearestIn(p, locs, n - 1);
      if SqDist(p, locs[n - 1]) < SqDist(p, locs[b]) then n - 1 else b
  }

  /** The nearest sample to one query point and its squared distance, by a
      scan that keeps the first minimum. */
  method NearestSample(p: seq<real>, locs: Matrix) returns (ind: nat, d2: real)
    requires |locs| > 0 && forall i :: 0 <= i < |locs| ==> |locs[i]| == |p|
    ensures ind == NearestIn(p, locs, |locs|)
    ensures ind < |locs| && d2 == SqDist(p, locs[ind])
    ensures forall j :: 0 <= j < |locs| ==> d2 <= SqDist(p, locs[j])
  {
    ind, d2 := 0, SqDist(p, locs[0]);
    var i := 1;
    while i < |locs|
      invariant 1 <= i <= |locs|
      invariant ind == NearestIn(p, locs, i) && d2 == SqDist(p, locs[ind])
    {
      var e := SqDist(p, locs[i]);
      if e < d2 {
        ind, d2 := i, e;
      }
      i := i + 1;
    }
  }

  /** Every query point's nearest sample, the first of equally near ones. */
  function NearestIndices(points: Matrix, locs: Matrix): (ind: seq<nat>)
    requires |locs| > 0
    requires forall g :: 0 <= g < |points| ==> forall i :: 0 <= i < |locs| ==> |locs[i]| == |points[g]|
    ensures |ind| == |points| && forall g :: 0 <= g < |points| ==> ind[g] < |locs|
  {
    seq(|points|, g requires 0 <= g < |points| => NearestIn(points[g], locs, |locs|))
  }

  /** Every query point's squared distance to its nearest sample. */
  function NearestDists(points: Matrix, locs: Matrix): (d2: seq<real>)
    requires |locs| > 0
    requires forall g :: 0 <= g < |points| ==> forall i :: 0 <= i < |locs| ==> |locs[i]| == |points[g]|
    ensures |d2| == |points|
  {
    var ind := NearestIndices(points, locs);
    seq(|points|, g requires 0 <= g < |points| => SqDist(points[g], locs[ind[g]]))
  }

  /** The nearest samples to every query point (`tree.query(gridCC, k=1)`,
      with distances squared). */
  method NearestAll(points: Matrix, locs: Matrix) returns (ind: seq<nat>, d2: seq<real>)
    requires |locs| > 0
    requires forall g :: 0 <= g < |points| ==> forall i :: 0 <= i < |locs| ==> |locs[i]| == |points[g]|
    ensures |ind| == |d2| == |points|
    ensures forall g :: 0 <= g < |points| ==>
      ind[g] == NearestIn(points[g], locs, |locs|) && d2[g] == SqDist(points[g], locs[ind[g]])
    ensures ind == NearestIndices(points, locs) && d2 == NearestDists(points, locs)
  {
    ghost var all, dall := NearestIndices(points, locs), NearestDists(points, locs);
    ind, d2 := [], [];
    for g := 0 to |points|
      invariant ind == all[..g] && d2 == dall[..g]
    {
      var i, e := NearestSample(points[g], locs);
      assert i == all[g] && e == dall[g];
      ind, d2 := ind + [i], d2 + [e];
    }
    assert all[..|points|] == all && dall[..|points|] == dall;
  }

  // ---------------------------------------------------------------------------
  // Dense matrix algebra
  // ---------------------------------------------------------------------------

  function Dot(u: seq<real>, v: seq<real>): real
    requires |u| == |v|
  {
    Sum(seq(|u|, j requires 0 <= j < |u| => u[j] * v[j]))
  }

  /** Column `c` of a matrix. */
  function Col(m: Matrix, c: nat): (r: seq<real>)
    requires forall g :: 0 <= g < |m| ==> c < |m[g]|
    ensures |r| == |m|
  {
    seq(|m|, g requires 0 <= g < |m| => m[g][c])
  }

  function Transpose(a: Matrix, rows: nat, cols: nat): (t: Matrix)
    requires IsMatrix(a, rows, cols)
    ensures IsMatrix(t, cols, rows)
  {
    seq(cols, j requires 0 <= j < cols => seq(rows, i requires 0 <= i < rows => a[i][j]))
  }

  /** The product of a `|a|`-by-`n` and an `n`-by-`k` matrix. */
  function MatMul(a: Matrix, n: nat, b: Matrix, k: nat): (p: Matrix)
    requires IsMatrix(a, |a|, n) && IsMatrix(b, n, k)
    ensures IsMatrix(p, |a|, k)
  {
    seq(|a|, i requires 0 <= i < |a| => seq(k, c requires 0 <= c < k => Dot(a[i], Col(b, c))))
  }

  /** A constant field of the given shape. */
  function Constant(rows: nat, cols: nat, v: real): (m: Matrix)
    ensures IsMatrix(m, rows, cols)
  {
    seq(rows, _ => seq(cols, _ => v))
  }

  /** A matrix whose rows each sum to one maps a constant field to the same
      constant. */
  lemma RowStochasticKeepsConstant(a: Matrix, n: nat, chans: nat, v: real)
    requires IsMatrix(a, |a|, n)
    requires forall r :: 0 <= r < |a| ==> Sum(a[r]) == 1.0
    ensures MatMul(a, n, Constant(n, chans, v), chans) == Constant(|a|, chans, v)
  {
    var cm := Constant(n, chans, v);
    var p := MatMul(a, n, cm, chans);
    forall i | 0 <= i < |a|
      ensures p[i] == Constant(|a|, chans, v)[i]
    {
      forall c | 0 <= c < chans
        ensures p[i][c] == v
      {
        var col := Col(cm, c);
        var terms := seq(|a[i]|, j requires 0 <= j < |a[i]| => a[i][j] * col[j]);
        forall j | 0 <= j < n
          ensures terms[j] == Scale(v, a[i])[j]
        {
          assert col[j] == v;
        }
        assert terms == Scale(v, a[i]);
        SumScale(v, a[i]);
      }
    }
  }

  /** Averaging a constant field gives the same constant on every face,
      because every row of the operator sums to one. */
  lemma AveragesConstant(dims: seq<nat>, chans: nat, v: real)
    requires 1 <= |dims| <= 3 && forall d :: 0 <= d < |dims| ==> dims[d] >= 2
    ensures MatMul(AveCC2F(dims), Cells(dims), Constant(Cells(dims), chans, v), chans)
         == Constant(Faces(dims), chans, v)
  {
    AveCC2FRowSums(dims);
    RowStochasticKeepsConstant(AveCC2F(dims), Cells(dims), chans, v);
  }

  // ---------------------------------------------------------------------------
  // One relaxation step
  // ---------------------------------------------------------------------------

  /** `d < 1.1 * gridSize`, with `d` the square root of `d2`: a distance is
      never negative, so no point qualifies unless the grid size is positive. */
  predicate Near(d2: real, gridSize: real)
  {
    gridSize > 0.0 && d2 < (11.0 / 10.0 * gridSize) * (11.0 / 10.0 * gridSize)
  }

  /** The residual test `norm(m - mtemp) / norm(mtemp) > tol`, stated on the
      squared norms `n2` and `b2`: a zero denominator gives inf (above any
      tol) or nan (above none). The source's initial `residual = 1.` is the
      pair (1, 1). */
  predicate ResidualAbove(n2: real, b2: real, tol: real)
  {
    if b2 == 0.0 then n2 > 0.0 else tol < 0.0 || n2 > tol * tol * b2
  }

  /** The squared Frobenius norm (`np.linalg.norm` of a 2-D array, squared). */
  function SqNorm(m: Matrix): (r: real)
    ensures r >= 0.0
  {
    if |m| == 0 then 0.0 else SqLen(m[0]) + SqNorm(m[1..])
  }

  function SqLen(v: seq<real>): (r: real)
    ensures r >= 0.0
  {
    if |v| == 0 then 0.0 else v[0] * v[0] + SqLen(v[1..])
  }

  /** `a - b`, elementwise. */
  function Minus(a: Matrix, b: Matrix, rows: nat, cols: nat): (r: Matrix)
    requires IsMatrix(a, rows, cols) && IsMatrix(b, rows, cols)
    ensures IsMatrix(r, rows, cols)
  {
    seq(rows, g requires 0 <= g < rows => seq(cols, c requires 0 <= c < cols => a[g][c] - b[g][c]))
  }

  /** Everything the relaxation loop reads: the averaging operator (faces by
      cells), the data (samples by channels), and per grid point the nearest
      sample and its squared distance. */
  datatype Setup = Setup(ave: Matrix, faces: nat, cells: nat,
                         data: Matrix, samples: nat, chans: nat,
                         ind: seq<nat>, d2: seq<real>, gridSize: real)
  {
    predicate Valid()
    {
      IsMatrix(ave, faces, cells) && IsMatrix(data, samples, chans)
      && |ind| == cells && |d2| == cells
      && forall g :: 0 <= g < cells ==> ind[g] < samples
    }

    /** A field over the grid: one row per grid point, one column per channel. */
    predicate IsField(m: Matrix)
    {
      IsMatrix(m, cells, chans)
    }

    /** `m[:, ii] = data[ind, ii]` for every channel: each grid point takes
        the values of its nearest sample. */
    function Seed(): (m: Matrix)
      requires Valid()
      ensures IsField(m)
    {
      seq(cells, g requires 0 <= g < cells => data[ind[g]])
    }

    /** `m[d < 1.1 * gridSize, ii] = data[ind[d < 1.1 * gridSize], ii]` for
        every channel. */
    function Snap(m: Matrix): (r: Matrix)
      requires Valid() && IsField(m)
      ensures IsField(r)
    {
      seq(cells, g requires 0 <= g < cells => if Near(d2[g], gridSize) then data[ind[g]] else m[g])
    }

    /** `Ave.T * (Ave * m)`. */
    function Smooth(m: Matrix): (r: Matrix)
      requires Valid() && IsField(m)
      ensures IsField(r)
    {
      MatMul(Transpose(ave, faces, cells), faces, MatMul(ave, cells, m, chans), chans)
    }

    /** The field after `k` passes of the loop body, starting from the seed. */
    function Iterate(k: nat): (m: Matrix)
      requires Valid()
      ensures IsField(m)
    {
      if k == 0 then Seed() else Smooth(Snap(Iterate(k - 1)))
    }

    /** The squared norms behind the residual after `k` passes: of the change
        made by the smoothing of pass `k`, and of the snapped field it
        smoothed. */
    function Residual(k: nat): (real, real)
      requires Valid()
    {
      if k == 0 then (1.0, 1.0)
      else
        var before := Snap(Iterate(k - 1));
        (SqNorm(Minus(Smooth(before), before, cells, chans)), SqNorm(before))
    }
  }

  /** Right after the snap of any pass, every grid point closer than
      1.1 * gridSize to its nearest sample holds that sample's values, and
      every other point keeps the value it had. */
  lemma SnapHoldsData(s: Setup, k: nat)
    requires s.Valid()
    ensures forall g, c :: 0 <= g < s.cells && 0 <= c < s.chans && Near(s.d2[g], s.gridSize) ==>
      s.Snap(s.Iterate(k))[g][c] == s.data[s.ind[g]][c]
    ensures forall g :: 0 <= g < s.cells && !Near(s.d2[g], s.gridSize) ==>
      s.Snap(s.Iterate(k))[g] == s.Iterate(k)[g]
  {
  }

  /** `m[:, ii] = v` for one column. */
  function SetColumn(m: Matrix, c: nat, v: seq<real>): (r: Matrix)
    requires |v| == |m| && forall g :: 0 <= g < |m| ==> c < |m[g]|
    ensures |r| == |m| && forall g :: 0 <= g < |m| ==> |r[g]| == |m[g]|
  {
    seq(|m|, g requires 0 <= g < |m| => m[g][c := v[g]])
  }

  /** Lines 517-522: `m` starts as zeros and each channel's column takes
      the values of every grid point's nearest sample. */
  method SeedColumns(s: Setup) returns (m: Matrix)
    requires s.Valid()
    ensures m == s.Seed()
  {
    var cells, chans := s.cells, s.chans;
    m := Constant(cells, chans, 0.0);
    for ii := 0 to chans
      invariant s.IsField(m)
      invariant forall g, c :: 0 <= g < cells && 0 <= c < chans ==>
        m[g][c] == if c < ii then s.data[s.ind[g]][c] else 0.0
    {
      m := SetColumn(m, ii, seq(cells, g requires 0 <= g < cells => s.data[s.ind[g]][ii]));
    }
    forall g | 0 <= g < cells
      ensures m[g] == s.Seed()[g]
    {
    }
  }

  /** Lines 525-527: channel by channel, the grid points near a sample take
      its values; the rest keep theirs. */
  method SnapColumns(s: Setup, start: Matrix) returns (m: Matrix)
    requires s.Valid() && s.IsField(start)
    ensures m == s.Snap(start)
  {
    var cells, chans := s.cells, s.chans;
    m := start;
    for ii := 0 to chans
      invariant s.IsField(m)
      invariant forall g, c :: 0 <= g < cells && 0 <= c < chans ==>
        m[g][c] == if c < ii && Near(s.d2[g], s.gridSize) then s.data[s.ind[g]][c] else start[g][c]
    {
      m := SetColumn(m, ii, seq(cells, g requires 0 <= g < cells =>
        if Near(s.d2[g], s.gridSize) then s.data[s.ind[g]][ii] else m[g][ii]));
    }
    forall g | 0 <= g < cells
      ensures m[g] == s.Snap(start)[g]
    {
    }
  }

  /** The loop test `count < iterMax and residual > tol` after `k` passes. */
  predicate Continues(s: Setup, tol: real, iterMax: int, k: nat)
    requires s.Valid()
  {
    k < iterMax && ResidualAbove(s.Residual(k).0, s.Residual(k).1, tol)
  }

  /** The loop stops after exactly `count` passes: its test held before
      each earlier pass and fails after the last one. */
  predicate StopsAfter(s: Setup, tol: real, iterMax: int, count: nat)
    requires s.Valid()
  {
    (forall k :: 0 <= k < count ==> Continues(s, tol, iterMax, k)) && !Continues(s, tol, iterMax, count)
  }

  /** The stop rule determines the pass count: it is the first `k` at which
      the loop test fails. */
  lemma StopsAfterUnique(s: Setup, tol: real, iterMax: int, c1: nat, c2: nat)
    requires s.Valid() && StopsAfter(s, tol, iterMax, c1) && StopsAfter(s, tol, iterMax, c2)
    ensures c1 == c2
  {
  }

  /** A loop that stops after `count` passes ran at most `iterMax` of them. */
  lemma StopsWithinCap(s: Setup, tol: real, iterMax: int, count: nat)
    requires s.Valid() && StopsAfter(s, tol, iterMax, count)
    ensures count == 0 || count <= iterMax
  {
    if count > 0 {
      assert Continues(s, tol, iterMax, count - 1);
    }
  }

  /** The loop test evaluated on the residual after `count` passes is the
      test of `Continues`. */
  lemma TestAt(s: Setup, tol: real, iterMax: int, count: nat, n2: real, b2: real)
    requires s.Valid() && (n2, b2) == s.Residual(count)
    ensures Continues(s, tol, iterMax, count) <==> count < iterMax && ResidualAbove(n2, b2, tol)
  {
  }

  /** A loop whose test held before each of the first `count` passes and
      fails after them stops after `count` passes. */
  lemma StopsHere(s: Setup, tol: real, iterMax: int, count: nat)
    requires s.Valid() && !Continues(s, tol, iterMax, count)
    requires forall k :: 0 <= k < count ==> Continues(s, tol, iterMax, k)
    ensures StopsAfter(s, tol, iterMax, count)
  {
  }

  /** The relaxation loop (lines 514-531) for an iteration cap `iterMax`:
      seed, then while `count < iterMax` and the residual exceeds `tol`,
      snap, smooth, measure, count. The result is the field after `count`
      passes, where `count` is the first pass count at which the cap is
      reached or the residual does not exceed `tol`. */
  method Relax(s: Setup, tol: real, iterMax: int) returns (m: Matrix, count: nat)
    requires s.Valid()
    ensures m == s.Iterate(count)
    ensures StopsAfter(s, tol, iterMax, count)
    ensures count == 0 || count <= iterMax
  {
    m := SeedColumns(s);
    count := 0;
    var n2, b2 := 1.0, 1.0;
    while count < iterMax && ResidualAbove(n2, b2, tol)
      invariant m == s.Iterate(count)
      invariant (n2, b2) == s.Residual(count)
      invariant count == 0 || count <= iterMax
      invariant forall k :: 0 <= k < count ==> Continues(s, tol, iterMax, k)
      decreases iterMax - count
    {
      TestAt(s, tol, iterMax, count, n2, b2);
      ghost var prev := m;
      m, n2, b2 := Pass(s, m);
      assert m == s.Iterate(count + 1) by {
        assert s.Iterate(count + 1) == s.Smooth(s.Snap(prev));
      }
      assert (n2, b2) == s.Residual(count + 1);
      count := count + 1;
    }
    TestAt(s, tol, iterMax, count, n2, b2);
    StopsHere(s, tol, iterMax, count);
  }

  /** One pass of the loop body (lines 525-530): snap, smooth, and the
      squared norms of the change and of the snapped field. */
  method Pass(s: Setup, m0: Matrix) returns (m: Matrix, n2: real, b2: real)
    requires s.Valid() && s.IsField(m0)
    ensures m == s.Smooth(s.Snap(m0))
    ensures n2 == SqNorm(Minus(m, s.Snap(m0), s.cells, s.chans)) && b2 == SqNorm(s.Snap(m0))
  {
    var mtemp := SnapColumns(s, m0);
    m := s.Smooth(mtemp);
    n2, b2 := SqNorm(Minus(m, mtemp, s.cells, s.chans)), SqNorm(mtemp);
  }
}
