/** The two operator builders nested in `minCurvatureInterp`: `av_extrap`, the
    1-D averaging from `n` cell centres to `n + 1` nodes with extrapolated
    ends, and `aveCC2F`, which Kronecker-stacks it into the cell-centre to
    face averaging of a 1-, 2- or 3-D grid. Matrices are dense here, stored
    row by row. */
module Averaging {
  import opened Common

  type Matrix = seq<seq<real>>

  // ---------------------------------------------------------------------------
  // av_extrap
  // ---------------------------------------------------------------------------

  /** `sp.spdiags(0.5 * [[1..1], [1..1]], [-1, 0], n + 1, n)`: 0.5 on the main
      diagonal and on the diagonal below it. */
  function Spdiags(n: nat): (a: Matrix)
    ensures IsMatrix(a, n + 1, n)
  {
    seq(n + 1, i requires 0 <= i <= n =>
      seq(n, j requires 0 <= j < n => if j == i - 1 || j == i then 0.5 else 0.0))
  }

  /** `av_extrap(n)`: the two-diagonal matrix, then `Av[0, 1] = 0.5` and
      `Av[-1, -2] = 0.5`. For `n < 2` the source's element writes raise
      IndexError, so `n >= 2` is required. */
  function AvExtrap(n: nat): (a: Matrix)
    requires n >= 2
    ensures IsMatrix(a, n + 1, n)
  {
    var base := Spdiags(n);
    var first := base[0 := base[0][1 := 0.5]];
    first[n := first[n][n - 2 := 0.5]]
  }

  /** A row of `n` entries holding 0.5 at columns `p` and `p + 1` and zero elsewhere. */
  function HalfPair(n: nat, p: nat): (r: seq<real>)
    ensures |r| == n
  {
    seq(n, j requires 0 <= j < n => if j == p || j == p + 1 then 0.5 else 0.0)
  }

  /** Interior row `i` averages cells `i - 1` and `i`; the boundary rows are
      not one-sided copies of the end cell but repeat their neighbour: row 0
      equals row 1 and row `n` equals row `n - 1`. */
  lemma AvExtrapRows(n: nat)
    requires n >= 2
    ensures forall i :: 1 <= i <= n - 1 ==> AvExtrap(n)[i] == HalfPair(n, i - 1)
    ensures AvExtrap(n)[0] == AvExtrap(n)[1]
    ensures AvExtrap(n)[n] == AvExtrap(n)[n - 1]
  {
    var a := AvExtrap(n);
    forall i | 1 <= i <= n - 1
      ensures a[i] == HalfPair(n, i - 1)
    {
      assert a[i] == Spdiags(n)[i];
    }
    assert a[0] == HalfPair(n, 0);
    assert a[n] == HalfPair(n, n - 2);
  }

  /** Every row of `av_extrap(n)` sums to 1, so a constant field averages to itself. */
  lemma AvExtrapRowSums(n: nat)
    requires n >= 2
    ensures forall i :: 0 <= i <= n ==> Sum(AvExtrap(n)[i]) == 1.0
  {
    AvExtrapRows(n);
    forall i | 0 <= i <= n
      ensures Sum(AvExtrap(n)[i]) == 1.0
    {
      var p := if i == 0 then 0 else if i == n then n - 2 else i - 1;
      assert AvExtrap(n)[i] == HalfPair(n, p);
      HalfPairSum(n, p);
    }
  }

  lemma HalfPairSum(n: nat, p: nat)
    requires p + 1 < n
    ensures Sum(HalfPair(n, p)) == 1.0
  {
    var s := HalfPair(n, p);
    SumOnlyOn(s, p, p + 2);
    assert s[p..p + 2] == [0.5, 0.5];
    assert [0.5, 0.5][1..] == [0.5];
  }

  /** A vector that is zero outside `[p, q)` sums to the sum of that slice. */
  lemma SumOnlyOn(s: seq<real>, p: nat, q: nat)
    requires p <= q <= |s|
    requires forall j :: 0 <= j < |s| && (j < p || j >= q) ==> s[j] == 0.0
    ensures Sum(s) == Sum(s[p..q])
  {
    assert s == s[..p] + (s[p..q] + s[q..]);
    SumConcat(s[..p], s[p..q] + s[q..]);
    SumConcat(s[p..q], s[q..]);
    SumZeros(s[..p]);
    SumZeros(s[q..]);
  }

  // ---------------------------------------------------------------------------
  // Identity and Kronecker products
  // ---------------------------------------------------------------------------

  /** `speye(n)`. */
  function Identity(n: nat): (a: Matrix)
    ensures IsMatrix(a, n, n)
  {
    seq(n, i requires 0 <= i < n => seq(n, j requires 0 <= j < n => if i == j then 1.0 else 0.0))
  }

  lemma IdentityRowSums(n: nat)
    ensures forall i :: 0 <= i < n ==> Sum(Identity(n)[i]) == 1.0
  {
    forall i | 0 <= i < n
      ensures Sum(Identity(n)[i]) == 1.0
    {
      var s := Identity(n)[i];
      SumOnlyOn(s, i, i + 1);
      assert s[i..i + 1] == [1.0];
    }
  }

  /** `sp.kron(A, B)` of an `ra`-by-`ca` and an `rb`-by-`cb` matrix: block
      `(i, j)` is `A[i][j] * B`. */
  function Kron(a: Matrix, ra: nat, ca: nat, b: Matrix, rb: nat, cb: nat): (k: Matrix)
    requires IsMatrix(a, ra, ca) && IsMatrix(b, rb, cb) && rb > 0 && cb > 0
    ensures |k| == ra * rb && forall r :: 0 <= r < ra * rb ==> |k[r]| == ca * cb
  {
    seq(ra * rb, r requires 0 <= r < ra * rb => KronRowOf(a, ra, ca, b, rb, cb, r))
  }

  /** Row `r` of `kron(A, B)`: row `r / rb` of A against row `r % rb` of B. */
  function KronRowOf(a: Matrix, ra: nat, ca: nat, b: Matrix, rb: nat, cb: nat, r: nat): (row: seq<real>)
    requires IsMatrix(a, ra, ca) && IsMatrix(b, rb, cb) && rb > 0 && cb > 0 && r < ra * rb
    ensures |row| == ca * cb
  {
    DivBelow(r, ra, rb);
    var u, v := a[r / rb], b[r % rb];
    assert |u| == ca && |v| == cb;
    KronRow(u, v)
  }

  /** One row of a Kronecker product: `u[c / |v|] * v[c % |v|]` at column `c`. */
  function KronRow(u: seq<real>, v: seq<real>): (r: seq<real>)
    requires |v| > 0
    ensures |r| == |u| * |v|
  {
    seq(|u| * |v|, c requires 0 <= c < |u| * |v| =>
      DivBelow(c, |u|, |v|);
      u[c / |v|] * v[c % |v|])
  }

  /** Entry `(k + i * rb, l + j * cb)` of `kron(A, B)` is `A[i][j] * B[k][l]`. */
  lemma KronAt(a: Matrix, ra: nat, ca: nat, b: Matrix, rb: nat, cb: nat, i: nat, j: nat, k: nat, l: nat)
    requires IsMatrix(a, ra, ca) && IsMatrix(b, rb, cb)
    requires i < ra && j < ca && k < rb && l < cb
    ensures k + i * rb < ra * rb && l + j * cb < ca * cb
    ensures Kron(a, ra, ca, b, rb, cb)[k + i * rb][l + j * cb] == a[i][j] * b[k][l]
  {
    FlatIndexBelow(k, i, rb, ra);
    FlatIndexBelow(l, j, cb, ca);
    DivModOf(i, k, rb);
    DivModOf(j, l, cb);
    var row := KronRowOf(a, ra, ca, b, rb, cb, k + i * rb);
    assert row == KronRow(a[i], b[k]);
    assert row[l + j * cb] == a[i][j] * b[k][l];
  }

  /** A Kronecker row is its first block followed by the rest. */
  lemma KronRowSplit(u: seq<real>, v: seq<real>)
    requires |v| > 0 && |u| > 0
    ensures KronRow(u, v) == Scale(u[0], v) + KronRow(u[1..], v)
  {
    var m := |v|;
    var row, head, rest := KronRow(u, v), Scale(u[0], v), KronRow(u[1..], v);
    assert |row| == m + |rest| by {
      assert |u| * m == m + (|u| - 1) * m;
    }
    forall c | 0 <= c < |row|
      ensures row[c] == (head + rest)[c]
    {
      if c < m {
        DivModOf(0, c, m);
      } else {
        var d := c - m;
        DivBelow(d, |u| - 1, m);
        DivModOf(d / m + 1, d % m, m);
        assert (d / m + 1) * m + d % m == c;
        assert rest[d] == u[1..][d / m] * v[d % m];
      }
    }
  }

  /** A row of a Kronecker product against a row `v` that sums to 1 sums
      to the same as `u`. */
  lemma {:induction false} KronRowSum(u: seq<real>, v: seq<real>)
    requires |v| > 0 && Sum(v) == 1.0
    ensures Sum(KronRow(u, v)) == Sum(u)
  {
    if |u| == 0 {
      assert KronRow(u, v) == [];
    } else {
      KronRowSum(u[1..], v);
      KronRowSumSplit(u, v);
    }
  }

  /** The sum of a Kronecker row is that of its first block plus the rest. */
  lemma KronRowSumSplit(u: seq<real>, v: seq<real>)
    requires |v| > 0 && |u| > 0 && Sum(v) == 1.0
    ensures Sum(KronRow(u, v)) == u[0] + Sum(KronRow(u[1..], v))
  {
    var head, tail := Scale(u[0], v), KronRow(u[1..], v);
    KronRowSplit(u, v);
    SumConcat(head, tail);
    SumScale(u[0], v);
  }

  /** Every row of `kron(A, B)` sums to 1 when every row of A and of B does. */
  lemma KronRowSums(a: Matrix, ra: nat, ca: nat, b: Matrix, rb: nat, cb: nat)
    requires IsMatrix(a, ra, ca) && IsMatrix(b, rb, cb) && rb > 0 && cb > 0
    requires forall i :: 0 <= i < ra ==> Sum(a[i]) == 1.0
    requires forall k :: 0 <= k < rb ==> Sum(b[k]) == 1.0
    ensures forall r :: 0 <= r < ra * rb ==> Sum(Kron(a, ra, ca, b, rb, cb)[r]) == 1.0
  {
    forall r | 0 <= r < ra * rb
      ensures Sum(Kron(a, ra, ca, b, rb, cb)[r]) == 1.0
    {
      DivBelow(r, ra, rb);
      assert Kron(a, ra, ca, b, rb, cb)[r] == KronRow(a[r / rb], b[r % rb]);
      KronRowSum(a[r / rb], b[r % rb]);
    }
  }

  // ---------------------------------------------------------------------------
  // aveCC2F
  // ---------------------------------------------------------------------------

  /** `np.vstack` of two matrices with the same number of columns. */
  lemma StackShape(a: Matrix, ra: nat, b: Matrix, rb: nat, cols: nat)
    requires IsMatrix(a, ra, cols) && IsMatrix(b, rb, cols)
    ensures IsMatrix(a + b, ra + rb, cols)
  {
    forall r | 0 <= r < ra + rb
      ensures |(a + b)[r]| == cols
    {
      if r >= ra {
        assert (a + b)[r] == b[r - ra];
      }
    }
  }

  /** The number of cells of a grid of shape `dims`. */
  function Cells(dims: seq<nat>): nat
    requires 1 <= |dims| <= 3
  {
    if |dims| == 1 then dims[0]
    else if |dims| == 2 then dims[0] * dims[1]
    else dims[0] * dims[1] * dims[2]
  }

  /** The number of faces of a grid of shape `dims`: per axis, one more
      face than cells along that axis. */
  function Faces(dims: seq<nat>): nat
    requires 1 <= |dims| <= 3
  {
    if |dims| == 1 then dims[0] + 1
    else if |dims| == 2 then FacesX2(dims[0], dims[1]) + dims[0] * (dims[1] + 1)
    else FacesX3(dims[0], dims[1], dims[2]) + FacesY3(dims[0], dims[1], dims[2])
         + FacesZ3(dims[0], dims[1], dims[2])
  }

  function FacesX2(nx: nat, ny: nat): nat { ny * (nx + 1) }
  function FacesX3(nx: nat, ny: nat, nz: nat): nat { nz * ny * (nx + 1) }
  function FacesY3(nx: nat, ny: nat, nz: nat): nat { nz * (ny + 1) * nx }
  function FacesZ3(nx: nat, ny: nat, nz: nat): nat { nx * ny * (nz + 1) }

  /** The x-face block in 2-D, `kron(speye(ny), av_extrap(nx))`. */
  function XFaces2(nx: nat, ny: nat): (a: Matrix)
    requires nx >= 2 && ny >= 2
    ensures IsMatrix(a, FacesX2(nx, ny), nx * ny)
  {
    assert ny * nx == nx * ny;
    Kron(Identity(ny), ny, ny, AvExtrap(nx), nx + 1, nx)
  }

  /** The y-face block in 2-D, `kron(av_extrap(ny), speye(nx))`. */
  function YFaces2(nx: nat, ny: nat): (a: Matrix)
    requires nx >= 2 && ny >= 2
    ensures IsMatrix(a, nx * (ny + 1), nx * ny)
  {
    assert ny * nx == nx * ny && (ny + 1) * nx == nx * (ny + 1);
    Kron(AvExtrap(ny), ny + 1, ny, Identity(nx), nx, nx)
  }

  /** The x-face block in 3-D, `kron3(speye(nz), speye(ny), av_extrap(nx))`. */
  function XFaces3(nx: nat, ny: nat, nz: nat): (a: Matrix)
    requires nx >= 2 && ny >= 2 && nz >= 2
    ensures IsMatrix(a, FacesX3(nx, ny, nz), nx * ny * nz)
  {
    assert nz * ny * nx == nx * ny * nz;
    Kron(Kron(Identity(nz), nz, nz, Identity(ny), ny, ny), nz * ny, nz * ny, AvExtrap(nx), nx + 1, nx)
  }

  /** The y-face block in 3-D, `kron3(speye(nz), av_extrap(ny), speye(nx))`. */
  function YFaces3(nx: nat, ny: nat, nz: nat): (a: Matrix)
    requires nx >= 2 && ny >= 2 && nz >= 2
    ensures IsMatrix(a, FacesY3(nx, ny, nz), nx * ny * nz)
  {
    assert nz * ny * nx == nx * ny * nz;
    Kron(Kron(Identity(nz), nz, nz, AvExtrap(ny), ny + 1, ny), nz * (ny + 1), nz * ny, Identity(nx), nx, nx)
  }

  /** The z-face block in 3-D, `kron3(av_extrap(nz), speye(ny), speye(nx))`. */
  function ZFaces3(nx: nat, ny: nat, nz: nat): (a: Matrix)
    requires nx >= 2 && ny >= 2 && nz >= 2
    ensures IsMatrix(a, FacesZ3(nx, ny, nz), nx * ny * nz)
  {
    assert nz * ny * nx == nx * ny * nz && (nz + 1) * ny * nx == nx * ny * (nz + 1);
    Kron(Kron(AvExtrap(nz), nz + 1, nz, Identity(ny), ny, ny), (nz + 1) * ny, nz * ny, Identity(nx), nx, nx)
  }

  /** `aveCC2F(grid)` for a grid of shape `dims` (x first): the blocks
      stacked x, y, z. Each axis needs at least two cells, since
      `av_extrap` fails below that. */
  function AveCC2F(dims: seq<nat>): (a: Matrix)
    requires 1 <= |dims| <= 3 && forall d :: 0 <= d < |dims| ==> dims[d] >= 2
    ensures IsMatrix(a, Faces(dims), Cells(dims))
  {
    if |dims| == 1 then AvExtrap(dims[0])
    else if |dims| == 2 then AveCC2F2(dims[0], dims[1])
    else AveCC2F3(dims[0], dims[1], dims[2])
  }

  /** The 2-D operator: the x-face block stacked on the y-face block. */
  function AveCC2F2(nx: nat, ny: nat): (a: Matrix)
    requires nx >= 2 && ny >= 2
    ensures IsMatrix(a, FacesX2(nx, ny) + nx * (ny + 1), nx * ny)
  {
    StackShape(XFaces2(nx, ny), FacesX2(nx, ny), YFaces2(nx, ny), nx * (ny + 1), nx * ny);
    XFaces2(nx, ny) + YFaces2(nx, ny)
  }

  /** The 3-D operator: the x-, y- and z-face blocks stacked in that order. */
  function AveCC2F3(nx: nat, ny: nat, nz: nat): (a: Matrix)
    requires nx >= 2 && ny >= 2 && nz >= 2
    ensures IsMatrix(a, FacesX3(nx, ny, nz) + FacesY3(nx, ny, nz) + FacesZ3(nx, ny, nz), nx * ny * nz)
  {
    StackShape(XYFaces3(nx, ny, nz), FacesX3(nx, ny, nz) + FacesY3(nx, ny, nz),
               ZFaces3(nx, ny, nz), FacesZ3(nx, ny, nz), nx * ny * nz);
    XYFaces3(nx, ny, nz) + ZFaces3(nx, ny, nz)
  }

  /** The x-face block stacked on the y-face block in 3-D. */
  function XYFaces3(nx: nat, ny: nat, nz: nat): (a: Matrix)
    requires nx >= 2 && ny >= 2 && nz >= 2
    ensures IsMatrix(a, FacesX3(nx, ny, nz) + FacesY3(nx, ny, nz), nx * ny * nz)
  {
    StackShape(XFaces3(nx, ny, nz), FacesX3(nx, ny, nz), YFaces3(nx, ny, nz), FacesY3(nx, ny, nz),
               nx * ny * nz);
    XFaces3(nx, ny, nz) + YFaces3(nx, ny, nz)
  }

  /** Every row of the stacked operator still sums to 1: each face value is
      a weighted average of cell values. */
  lemma AveCC2FRowSums(dims: seq<nat>)
    requires 1 <= |dims| <= 3 && forall d :: 0 <= d < |dims| ==> dims[d] >= 2
    ensures forall r :: 0 <= r < Faces(dims) ==> Sum(AveCC2F(dims)[r]) == 1.0
  {
    var nx := dims[0];
    if |dims| == 1 {
      AvExtrapRowSums(nx);
    } else if |dims| == 2 {
      var ny := dims[1];
      RowSumsX2(nx, ny);
      RowSumsY2(nx, ny);
      RowSumsStack(XFaces2(nx, ny), YFaces2(nx, ny));
    } else {
      var ny, nz := dims[1], dims[2];
      RowSumsX3(nx, ny, nz);
      RowSumsY3(nx, ny, nz);
      RowSumsZ3(nx, ny, nz);
      RowSumsStack(XFaces3(nx, ny, nz), YFaces3(nx, ny, nz));
      RowSumsStack(XYFaces3(nx, ny, nz), ZFaces3(nx, ny, nz));
    }
  }

  /** Every row of every face block sums to 1. */
  lemma RowSumsX2(nx: nat, ny: nat)
    requires nx >= 2 && ny >= 2
    ensures forall r :: 0 <= r < |XFaces2(nx, ny)| ==> Sum(XFaces2(nx, ny)[r]) == 1.0
  {
    AvExtrapRowSums(nx);
    IdentityRowSums(ny);
    KronRowSums(Identity(ny), ny, ny, AvExtrap(nx), nx + 1, nx);
  }

  lemma RowSumsY2(nx: nat, ny: nat)
    requires nx >= 2 && ny >= 2
    ensures forall r :: 0 <= r < |YFaces2(nx, ny)| ==> Sum(YFaces2(nx, ny)[r]) == 1.0
  {
    AvExtrapRowSums(ny);
    IdentityRowSums(nx);
    KronRowSums(AvExtrap(ny), ny + 1, ny, Identity(nx), nx, nx);
  }

  lemma RowSumsX3(nx: nat, ny: nat, nz: nat)
    requires nx >= 2 && ny >= 2 && nz >= 2
    ensures forall r :: 0 <= r < |XFaces3(nx, ny, nz)| ==> Sum(XFaces3(nx, ny, nz)[r]) == 1.0
  {
    AvExtrapRowSums(nx);
    IdentityRowSums(ny);
    IdentityRowSums(nz);
    KronRowSums(Identity(nz), nz, nz, Identity(ny), ny, ny);
    var izy := Kron(Identity(nz), nz, nz, Identity(ny), ny, ny);
    KronRowSums(izy, nz * ny, nz * ny, AvExtrap(nx), nx + 1, nx);
  }

  lemma RowSumsY3(nx: nat, ny: nat, nz: nat)
    requires nx >= 2 && ny >= 2 && nz >= 2
    ensures forall r :: 0 <= r < |YFaces3(nx, ny, nz)| ==> Sum(YFaces3(nx, ny, nz)[r]) == 1.0
  {
    AvExtrapRowSums(ny);
    IdentityRowSums(nx);
    IdentityRowSums(nz);
    KronRowSums(Identity(nz), nz, nz, AvExtrap(ny), ny + 1, ny);
    var iza := Kron(Identity(nz), nz, nz, AvExtrap(ny), ny + 1, ny);
    KronRowSums(iza, nz * (ny + 1), nz * ny, Identity(nx), nx, nx);
  }

  lemma RowSumsZ3(nx: nat, ny: nat, nz: nat)
    requires nx >= 2 && ny >= 2 && nz >= 2
    ensures forall r :: 0 <= r < |ZFaces3(nx, ny, nz)| ==> Sum(ZFaces3(nx, ny, nz)[r]) == 1.0
  {
    AvExtrapRowSums(nz);
    IdentityRowSums(nx);
    IdentityRowSums(ny);
    KronRowSums(AvExtrap(nz), nz + 1, nz, Identity(ny), ny, ny);
    var azy := Kron(AvExtrap(nz), nz + 1, nz, Identity(ny), ny, ny);
    KronRowSums(azy, (nz + 1) * ny, nz * ny, Identity(nx), nx, nx);
  }


  lemma RowSumsStack(a: Matrix, b: Matrix)
    requires forall r :: 0 <= r < |a| ==> Sum(a[r]) == 1.0
    requires forall r :: 0 <= r < |b| ==> Sum(b[r]) == 1.0
    ensures forall r :: 0 <= r < |a + b| ==> Sum((a + b)[r]) == 1.0
  {
    forall r | 0 <= r < |a + b|
      ensures Sum((a + b)[r]) == 1.0
    {
      if r >= |a| {
        assert (a + b)[r] == b[r - |a|];
      }
    }
  }

  /** The x-face block averages along x within one y-row of cells: face
      `i + kk * (nx + 1)` reads only cells `j + kk * nx` of the same row `kk`,
      with the weights of `av_extrap(nx)`; the column order is the x-fastest
      order of `gridCC`. */
  lemma XFacesAt(nx: nat, ny: nat, kk: nat, i: nat, kk2: nat, j: nat, face: nat, cell: nat)
    requires nx >= 2 && ny >= 2 && kk < ny && kk2 < ny && i <= nx && j < nx
    requires face == i + kk * (nx + 1) && cell == j + kk2 * nx
    ensures face < FacesX2(nx, ny) && cell < nx * ny
    ensures XFaces2(nx, ny)[face][cell] == if kk == kk2 then AvExtrap(nx)[i][j] else 0.0
  {
    FlatIndexBelow(j, kk2, nx, ny);
    KronAt(Identity(ny), ny, ny, AvExtrap(nx), nx + 1, nx, kk, kk2, i, j);
  }

  /** The y-face block averages along y within one x-column: face
      `i + jj * nx` reads only cells `i2 + j * nx` of the same column
      `i == i2`, with the weights of `av_extrap(ny)`. */
  lemma YFacesAt(nx: nat, ny: nat, jj: nat, i: nat, j: nat, i2: nat, face: nat, cell: nat)
    requires nx >= 2 && ny >= 2 && jj <= ny && i < nx && j < ny && i2 < nx
    requires face == i + jj * nx && cell == i2 + j * nx
    ensures face < nx * (ny + 1) && cell < nx * ny
    ensures YFaces2(nx, ny)[face][cell] == if i == i2 then AvExtrap(ny)[jj][j] else 0.0
  {
    FlatIndexBelow(i, jj, nx, ny + 1);
    FlatIndexBelow(i2, j, nx, ny);
    KronAt(AvExtrap(ny), ny + 1, ny, Identity(nx), nx, nx, jj, j, i, i2);
  }
}
