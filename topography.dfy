/** The classification half of `surface2ind_topo`: given the topography
    already interpolated at the points a branch asks for, which cells of a
    mesh lie below it. The result is one flag per cell in `mkvc` order
    (x fastest). */
module Topography {
  import opened Common

  // ---------------------------------------------------------------------------
  // Choice of rule
  // ---------------------------------------------------------------------------

  /** The five classification rules, one per branch that sets `actind`. */
  datatype Rule =
    | TreeCells     // 3-D, cell centres, tree mesh: centre strictly below the surface
    | TensorCells   // 3-D, cell centres, other meshes: surface at or above the centre, layer by layer
    | TensorNodes3  // 3-D, nodes: all four corner heights at or above the top of the cell
    | Cells2        // 2-D, cell centres: centre at or below the surface
    | Nodes2        // 2-D, nodes: both corner heights strictly above the top of the cell

  datatype TopoError =
    | NodalNotImplemented  // NotImplementedError: nodal rule on a mesh that is not tensor-like
    | DimNotImplemented    // NotImplementedError: a mesh that is neither 2-D nor 3-D
    | ActindUnbound        // UnboundLocalError: `gridLoc` is neither 'CC' nor 'N'

  predicate TensorLike(meshType: string)
  {
    meshType == "TENSOR" || meshType == "CYL" || meshType == "BASETENSOR"
  }

  /** Lines 36-121: the branch on the mesh dimension, then on `gridLoc`,
      then on the mesh type. */
  function SelectRule(dim: nat, gridLoc: string, meshType: string): (r: Result<Rule, TopoError>)
    ensures r.Ok? <==> (dim == 2 || dim == 3) && (gridLoc == "CC" || (gridLoc == "N" && TensorLike(meshType)))
    ensures r == Err(DimNotImplemented) <==> dim != 2 && dim != 3
    ensures r == Ok(TreeCells) <==> dim == 3 && gridLoc == "CC" && meshType == "TREE"
    ensures r == Ok(TensorCells) <==> dim == 3 && gridLoc == "CC" && meshType != "TREE"
    ensures r.Ok? && r.value.TensorNodes3? ==> dim == 3
    ensures r.Ok? && (r.value.Cells2? || r.value.Nodes2?) ==> dim == 2
    ensures r.Ok? && (r.value.TensorNodes3? || r.value.Nodes2?) ==> gridLoc == "N"
  {
    if dim == 3 then
      if gridLoc == "CC" then
        if meshType == "TREE" then Ok(TreeCells) else Ok(TensorCells)
      else if gridLoc == "N" then
        if !TensorLike(meshType) then Err(NodalNotImplemented) else Ok(TensorNodes3)
      else Err(ActindUnbound)
    else if dim == 2 then
      if gridLoc == "CC" then Ok(Cells2)
      else if gridLoc == "N" then
        if !TensorLike(meshType) then Err(NodalNotImplemented) else Ok(Nodes2)
      else Err(ActindUnbound)
    else Err(DimNotImplemented)
  }

  // ---------------------------------------------------------------------------
  // Cell-centre rules
  // ---------------------------------------------------------------------------

  /** Line 53, tree meshes: a cell is active when its centre height lies
      strictly below the surface height interpolated at its centre. */
  function TreeCellsActive(cellZ: seq<real>, zTopo: seq<real>): (act: seq<bool>)
    requires |zTopo| == |cellZ|
    ensures |act| == |cellZ|
  {
    seq(|cellZ|, i requires 0 <= i < |cellZ| => cellZ[i] < zTopo[i])
  }

  /** Lines 100-101, 2-D meshes: a cell is active when its centre height is
      at or below the surface height at its x coordinate. */
  function Cells2Active(cellY: seq<real>, yTopo: seq<real>): (act: seq<bool>)
    requires |yTopo| == |cellY|
    ensures |act| == |cellY|
  {
    seq(|cellY|, i requires 0 <= i < |cellY| => cellY[i] <= yTopo[i])
  }

  /** The two point rules differ exactly on cells whose centre lies on the
      surface: the strict tree rule drops them, the 2-D rule keeps them. */
  lemma CellRulesOnSurface(z: seq<real>, t: seq<real>, i: nat)
    requires |t| == |z| && i < |z|
    ensures TreeCellsActive(z, t)[i] ==> Cells2Active(z, t)[i]
    ensures Cells2Active(z, t)[i] && !TreeCellsActive(z, t)[i] <==> z[i] == t[i]
  {
  }

  /** Lines 57-59: the centre heights reshaped column-major into one row per
      horizontal position and one column per layer. */
  function LayerHeights(cellZ: seq<real>, nxy: nat, nz: nat): (zcc: seq<seq<real>>)
    requires |cellZ| == nxy * nz
    ensures IsMatrix(zcc, nxy, nz)
  {
    ReshapeF(cellZ, nxy, nz)
  }

  /** Lines 65-68, tensor meshes: for each of the first `k` layers, in
      order, the flags `gridTopo >= Zcc[:, layer]`, stacked one after the
      other. */
  function TensorLayers(gridTopo: seq<real>, zcc: seq<seq<real>>, nz: nat, k: nat): (act: seq<bool>)
    requires IsMatrix(zcc, |gridTopo|, nz) && k <= nz
    ensures |act| == k * |gridTopo|
  {
    if k == 0 then []
    else
      TensorLayers(gridTopo, zcc, nz, k - 1)
        + seq(|gridTopo|, p requires 0 <= p < |gridTopo| => gridTopo[p] >= zcc[p][k - 1])
  }

  /** The tensor rule over all layers. */
  function TensorCellsActive(gridTopo: seq<real>, cellZ: seq<real>, nz: nat): (act: seq<bool>)
    requires |cellZ| == |gridTopo| * nz
    ensures |act| == |cellZ|
  {
    TensorLayers(gridTopo, LayerHeights(cellZ, |gridTopo|, nz), nz, nz)
  }

  /** Within the stacked layers, position `p + k * nxy` is the flag of
      horizontal position `p` in layer `k`. */
  lemma {:induction false} TensorLayersAt(gridTopo: seq<real>, zcc: seq<seq<real>>, nz: nat, k: nat, p: nat, layer: nat)
    requires IsMatrix(zcc, |gridTopo|, nz) && k <= nz && p < |gridTopo| && layer < k
    ensures p + layer * |gridTopo| < k * |gridTopo|
    ensures TensorLayers(gridTopo, zcc, nz, k)[p + layer * |gridTopo|] == (gridTopo[p] >= zcc[p][layer])
  {
    var nxy := |gridTopo|;
    var prev := TensorLayers(gridTopo, zcc, nz, k - 1);
    assert |prev| == (k - 1) * nxy;
    if layer < k - 1 {
      TensorLayersAt(gridTopo, zcc, nz, k - 1, p, layer);
    } else {
      assert p + layer * nxy == |prev| + p;
    }
  }

  /** The tensor rule marks cell `p + k * nxy` (position `p`, layer `k`, the
      `mkvc` order of the mesh) active exactly when the surface height at
      `p` is at or above the cell's centre. */
  lemma TensorCellsAt(gridTopo: seq<real>, cellZ: seq<real>, nz: nat, p: nat, k: nat, t: nat)
    requires |cellZ| == |gridTopo| * nz && p < |gridTopo| && k < nz
    requires t == p + k * |gridTopo|
    ensures t < |cellZ|
    ensures TensorCellsActive(gridTopo, cellZ, nz)[t] <==> gridTopo[p] >= cellZ[t]
  {
    var zcc := LayerHeights(cellZ, |gridTopo|, nz);
    TensorLayersAt(gridTopo, zcc, nz, nz, p, k);
    ReshapeFAt(cellZ, |gridTopo|, nz, p, k);
  }

  /** On a tensor mesh every layer has one centre height, increasing
      upwards; then an active cell `t` (position `p`, layer `k`) has every
      cell `t2` below it in its column (layer `k2 <= k`) active. */
  lemma TensorCellsBelow(gridTopo: seq<real>, cellZ: seq<real>, zc: seq<real>,
                         p: nat, k: nat, k2: nat, t: nat, t2: nat)
    requires |cellZ| == |gridTopo| * |zc| && p < |gridTopo| && k2 <= k < |zc|
    requires t == p + k * |gridTopo| && t2 == p + k2 * |gridTopo| && t < |cellZ| && t2 < |cellZ|
    requires cellZ[t] == zc[k] && cellZ[t2] == zc[k2]
    requires forall l :: 0 < l < |zc| ==> zc[l - 1] < zc[l]
    ensures TensorCellsActive(gridTopo, cellZ, |zc|)[t] ==> TensorCellsActive(gridTopo, cellZ, |zc|)[t2]
  {
    TensorCellsAt(gridTopo, cellZ, |zc|, p, k, t);
    TensorCellsAt(gridTopo, cellZ, |zc|, p, k2, t2);
    Ascending(zc, k2, k);
  }

  /** A strictly increasing sequence is ordered between any two positions. */
  lemma {:induction false} Ascending(zc: seq<real>, i: nat, j: nat)
    requires forall l :: 0 < l < |zc| ==> zc[l - 1] < zc[l]
    requires i <= j < |zc|
    ensures zc[i] <= zc[j]
  {
    if i < j {
      Ascending(zc, i, j - 1);
    }
  }

  // ---------------------------------------------------------------------------
  // Nodal rules
  // ---------------------------------------------------------------------------

  /** The 3-D nodal test of cell `(ii, jj)` against height `top`: every
      corner of the 2-by-2 block of node heights `gridTopo[ii:ii+2, jj:jj+2]`
      is at or above `top`. */
  predicate CornersAtLeast(g: seq<seq<real>>, ii: nat, jj: nat, top: real)
    requires ii + 1 < |g| && jj + 1 < |g[ii]| && jj + 1 < |g[ii + 1]|
  {
    g[ii][jj] >= top && g[ii + 1][jj] >= top && g[ii][jj + 1] >= top && g[ii + 1][jj + 1] >= top
  }

  /** The `(nCx, nCy, nCz)` array of flags the 3-D nodal loop fills in:
      entry `(ii, jj, kk)` tests the corners of column `(ii, jj)` against
      the top `nz[kk]` of layer `kk`. */
  function NodalCube3(g: seq<seq<real>>, nCx: nat, nCy: nat, nz: seq<real>): (c: seq<seq<seq<bool>>>)
    requires IsMatrix(g, nCx + 1, nCy + 1)
    ensures IsCube(c, nCx, nCy, |nz|)
  {
    seq(nCx, ii requires 0 <= ii < nCx =>
      seq(nCy, jj requires 0 <= jj < nCy =>
        seq(|nz|, kk requires 0 <= kk < |nz| => CornersAtLeast(g, ii, jj, nz[kk]))))
  }

  /** What the 3-D nodal branch returns: the flags, flattened. */
  function NodalFlags3(nodeTopo: seq<real>, nCx: nat, nCy: nat, nz: seq<real>): (act: seq<bool>)
    requires |nodeTopo| == (nCx + 1) * (nCy + 1)
    ensures |act| == nCx * nCy * |nz|
  {
    Mkvc3(NodalCube3(ReshapeF(nodeTopo, nCx + 1, nCy + 1), nCx, nCy, nz), nCx, nCy, |nz|)
  }

  /** Every column before `(ii, jj)` in loop order (`ii` outer, `jj`
      inner) holds the corner test of each of its layers. */
  predicate ColumnsDone(act: array3<bool>, g: seq<seq<real>>, nz: seq<real>, ii: nat, jj: nat)
    requires IsMatrix(g, act.Length0 + 1, act.Length1 + 1) && |nz| == act.Length2
    reads act
  {
    forall i, j, k ::
      0 <= i < act.Length0 && 0 <= j < act.Length1 && 0 <= k < act.Length2 && (i < ii || (i == ii && j < jj))
      ==> act[i, j, k] == CornersAtLeast(g, i, j, nz[k])
  }

  /** Lines 90-92: the slice `actind[ii, jj, :]` receives the corner test of
      every layer. */
  method FillColumn(act: array3<bool>, g: seq<seq<real>>, nz: seq<real>, ii: nat, jj: nat)
    requires IsMatrix(g, act.Length0 + 1, act.Length1 + 1) && |nz| == act.Length2
    requires ii < act.Length0 && jj < act.Length1
    requires ColumnsDone(act, g, nz, ii, jj)
    modifies act
    ensures ColumnsDone(act, g, nz, ii, jj + 1)
  {
    for kk := 0 to |nz|
      invariant ColumnsDone(act, g, nz, ii, jj)
      invariant forall k :: 0 <= k < kk ==> act[ii, jj, k] == CornersAtLeast(g, ii, jj, nz[k])
    {
      act[ii, jj, kk] := CornersAtLeast(g, ii, jj, nz[kk]);
    }
  }

  /** Lines 82-92 and 123: the node heights (x fastest) reshaped to an
      `(nCx + 1, nCy + 1)` grid; a fresh array of flags; for every column
      `(ii, jj)` the slice over the layers set from the corner test; the
      array flattened with `mkvc`. `nz` is `vectorNz[1:]`, the top of each
      layer. */
  method NodalActive3(nodeTopo: seq<real>, nCx: nat, nCy: nat, nz: seq<real>) returns (actind: seq<bool>)
    requires |nodeTopo| == (nCx + 1) * (nCy + 1)
    ensures actind == NodalFlags3(nodeTopo, nCx, nCy, nz)
  {
    var g := ReshapeF(nodeTopo, nCx + 1, nCy + 1);
    var act := new bool[nCx, nCy, |nz|];
    for ii := 0 to nCx
      invariant ColumnsDone(act, g, nz, ii, 0)
    {
      for jj := 0 to nCy
        invariant ColumnsDone(act, g, nz, ii, jj)
      {
        FillColumn(act, g, nz, ii, jj);
      }
    }
    var cube := seq(nCx, i requires 0 <= i < nCx reads act =>
      seq(nCy, j requires 0 <= j < nCy reads act =>
        seq(|nz|, k requires 0 <= k < |nz| reads act => act[i, j, k])));
    var spec := NodalCube3(g, nCx, nCy, nz);
    forall i | 0 <= i < nCx
      ensures cube[i] == spec[i]
    {
      forall j | 0 <= j < nCy
        ensures cube[i][j] == spec[i][j]
      {
        assert forall k :: 0 <= k < |nz| ==> cube[i][j][k] == spec[i][j][k];
      }
    }
    actind := Mkvc3(cube, nCx, nCy, |nz|);
  }

  /** Cell `ii + jj * nCx + kk * nCx * nCy` is active exactly when the four
      nodes around its column, `n0`, `n0 + 1`, `n0 + nCx + 1` and
      `n0 + nCx + 2` with `n0 = ii + jj * (nCx + 1)`, are all at or above
      the top of layer `kk`. */
  lemma NodalFlags3At(nodeTopo: seq<real>, nCx: nat, nCy: nat, nz: seq<real>,
                      ii: nat, jj: nat, kk: nat, t: nat, n0: nat)
    requires |nodeTopo| == (nCx + 1) * (nCy + 1) && ii < nCx && jj < nCy && kk < |nz|
    requires t == ii + jj * nCx + kk * (nCx * nCy) && n0 == ii + jj * (nCx + 1)
    ensures t < |NodalFlags3(nodeTopo, nCx, nCy, nz)| && n0 + nCx + 2 < |nodeTopo|
    ensures NodalFlags3(nodeTopo, nCx, nCy, nz)[t]
        <==> nodeTopo[n0] >= nz[kk] && nodeTopo[n0 + 1] >= nz[kk]
             && nodeTopo[n0 + nCx + 1] >= nz[kk] && nodeTopo[n0 + nCx + 2] >= nz[kk]
  {
    var g := ReshapeF(nodeTopo, nCx + 1, nCy + 1);
    Mkvc3At(NodalCube3(g, nCx, nCy, nz), nCx, nCy, |nz|, ii, jj, kk, t);
    ReshapeFAt(nodeTopo, nCx + 1, nCy + 1, ii, jj);
    ReshapeFAt(nodeTopo, nCx + 1, nCy + 1, ii + 1, jj);
    ReshapeFAt(nodeTopo, nCx + 1, nCy + 1, ii, jj + 1);
    ReshapeFAt(nodeTopo, nCx + 1, nCy + 1, ii + 1, jj + 1);
    assert ii + (jj + 1) * (nCx + 1) == n0 + nCx + 1;
  }

  /** With layer tops increasing upwards, an active cell has every cell
      below it in its column active. */
  lemma NodalFlags3Below(nodeTopo: seq<real>, nCx: nat, nCy: nat, nz: seq<real>,
                         ii: nat, jj: nat, kk: nat, kk2: nat, t: nat, t2: nat)
    requires |nodeTopo| == (nCx + 1) * (nCy + 1) && ii < nCx && jj < nCy && kk2 <= kk < |nz|
    requires forall l :: 0 < l < |nz| ==> nz[l - 1] < nz[l]
    requires t == ii + jj * nCx + kk * (nCx * nCy) && t2 == ii + jj * nCx + kk2 * (nCx * nCy)
    ensures t < |NodalFlags3(nodeTopo, nCx, nCy, nz)| && t2 < |NodalFlags3(nodeTopo, nCx, nCy, nz)|
    ensures NodalFlags3(nodeTopo, nCx, nCy, nz)[t] ==> NodalFlags3(nodeTopo, nCx, nCy, nz)[t2]
  {
    var n0 := ii + jj * (nCx + 1);
    NodalFlags3At(nodeTopo, nCx, nCy, nz, ii, jj, kk, t, n0);
    NodalFlags3At(nodeTopo, nCx, nCy, nz, ii, jj, kk2, t2, n0);
    Ascending(nz, kk2, kk);
  }

  /** The 2-D nodal test of column `ii` against height `top`: both node
      heights `gridTopo[ii:ii+2]` lie strictly above `top`. */
  predicate BothAbove(nodeTopo: seq<real>, ii: nat, top: real)
    requires ii + 1 < |nodeTopo|
  {
    nodeTopo[ii] > top && nodeTopo[ii + 1] > top
  }

  /** The `(nCx, nCy)` array of flags the 2-D nodal loop fills in: entry
      `(ii, kk)` holds when both node heights `gridTopo[ii:ii+2]` lie
      strictly above the top `ny[kk]` of layer `kk`. */
  function NodalGrid2(nodeTopo: seq<real>, nCx: nat, ny: seq<real>): (m: seq<seq<bool>>)
    requires |nodeTopo| == nCx + 1
    ensures IsMatrix(m, nCx, |ny|)
  {
    seq(nCx, ii requires 0 <= ii < nCx =>
      seq(|ny|, kk requires 0 <= kk < |ny| => BothAbove(nodeTopo, ii, ny[kk])))
  }

  /** What the 2-D nodal branch returns: the flags, flattened. */
  function NodalFlags2(nodeTopo: seq<real>, nCx: nat, ny: seq<real>): (act: seq<bool>)
    requires |nodeTopo| == nCx + 1
    ensures |act| == nCx * |ny|
  {
    Mkvc2(NodalGrid2(nodeTopo, nCx, ny), nCx, |ny|)
  }

  /** Every column before `ii` holds the two-node test of each layer. */
  predicate RowsDone(act: array2<bool>, nodeTopo: seq<real>, ny: seq<real>, ii: nat)
    requires |nodeTopo| == act.Length0 + 1 && |ny| == act.Length1
    reads act
  {
    forall i, k :: 0 <= i < ii && i < act.Length0 && 0 <= k < act.Length1 ==>
      act[i, k] == BothAbove(nodeTopo, i, ny[k])
  }

  /** Lines 116-117: the row `actind[ii, :]` receives the two-node test of
      every layer. */
  method FillRow(act: array2<bool>, nodeTopo: seq<real>, ny: seq<real>, ii: nat)
    requires |nodeTopo| == act.Length0 + 1 && |ny| == act.Length1 && ii < act.Length0
    requires RowsDone(act, nodeTopo, ny, ii)
    modifies act
    ensures RowsDone(act, nodeTopo, ny, ii + 1)
  {
    for kk := 0 to |ny|
      invariant RowsDone(act, nodeTopo, ny, ii)
      invariant forall k :: 0 <= k < kk ==> act[ii, k] == BothAbove(nodeTopo, ii, ny[k])
    {
      act[ii, kk] := BothAbove(nodeTopo, ii, ny[kk]);
    }
  }

  /** Lines 105-117 and 123: a fresh `(nCx, nCy)` array of flags; for every
      column `ii` the row `actind[ii, :]` set layer by layer from the two
      node heights around it; the array flattened with `mkvc`. `ny` is
      `vectorNy[1:]`. */
  method NodalActive2(nodeTopo: seq<real>, nCx: nat, ny: seq<real>) returns (actind: seq<bool>)
    requires |nodeTopo| == nCx + 1
    ensures actind == NodalFlags2(nodeTopo, nCx, ny)
  {
    var act := new bool[nCx, |ny|];
    for ii := 0 to nCx
      invariant RowsDone(act, nodeTopo, ny, ii)
    {
      FillRow(act, nodeTopo, ny, ii);
    }
    var grid := seq(nCx, i requires 0 <= i < nCx reads act =>
      seq(|ny|, k requires 0 <= k < |ny| reads act => act[i, k]));
    var spec := NodalGrid2(nodeTopo, nCx, ny);
    forall i | 0 <= i < nCx
      ensures grid[i] == spec[i]
    {
      assert forall k :: 0 <= k < |ny| ==> grid[i][k] == spec[i][k];
    }
    actind := Mkvc2(grid, nCx, |ny|);
  }

  /** Cell `ii + kk * nCx` is active exactly when both nodes around column
      `ii` lie strictly above the top of layer `kk`. */
  lemma NodalFlags2At(nodeTopo: seq<real>, nCx: nat, ny: seq<real>, ii: nat, kk: nat, t: nat)
    requires |nodeTopo| == nCx + 1 && ii < nCx && kk < |ny| && t == ii + kk * nCx
    ensures t < |NodalFlags2(nodeTopo, nCx, ny)|
    ensures NodalFlags2(nodeTopo, nCx, ny)[t] <==> nodeTopo[ii] > ny[kk] && nodeTopo[ii + 1] > ny[kk]
  {
    Mkvc2At(NodalGrid2(nodeTopo, nCx, ny), nCx, |ny|, ii, kk);
  }

  /** With layer tops increasing upwards, an active cell has every cell
      below it in its column active. */
  lemma NodalFlags2Below(nodeTopo: seq<real>, nCx: nat, ny: seq<real>, ii: nat, kk: nat, kk2: nat, t: nat, t2: nat)
    requires |nodeTopo| == nCx + 1 && ii < nCx && kk2 <= kk < |ny|
    requires forall l :: 0 < l < |ny| ==> ny[l - 1] < ny[l]
    requires t == ii + kk * nCx && t2 == ii + kk2 * nCx
    ensures t < |NodalFlags2(nodeTopo, nCx, ny)| && t2 < |NodalFlags2(nodeTopo, nCx, ny)|
    ensures NodalFlags2(nodeTopo, nCx, ny)[t] ==> NodalFlags2(nodeTopo, nCx, ny)[t2]
  {
    NodalFlags2At(nodeTopo, nCx, ny, ii, kk, t);
    NodalFlags2At(nodeTopo, nCx, ny, ii, kk2, t2);
    Ascending(ny, kk2, kk);
  }
}
