/** The point branch of `refineTree`: around every location, a cube of
    offset points at signed power-of-two distances, each paired with the
    octree level to refine it to. Levels are counted in stencil rings: the
    location itself and its nearest neighbours get ring 1, farther rings
    2 and 3, and a point is refined to `maxLevel - ring + 1`. */
module Stencil {
  import opened Common
  import opened Averaging

  function Reverse<T>(s: seq<T>): (r: seq<T>)
    ensures |r| == |s| && forall m :: 0 <= m < |s| ==> r[m] == s[|s| - 1 - m]
  {
    seq(|s|, m requires 0 <= m < |s| => s[|s| - 1 - m])
  }

  function Larger(a: nat, b: nat): nat
  {
    if a >= b then a else b
  }

  function Pow2(e: nat): (p: nat)
    ensures p >= 1
  {
    if e == 0 then 1 else 2 * Pow2(e - 1)
  }

  /** `np.sign(v) * 2**np.abs(v)`. */
  function SignPow(v: int): int
  {
    if v > 0 then Pow2(v) else if v < 0 then -(Pow2(-v) as int) else 0
  }

  /** The distance `np.sign(v) * 2**np.abs(v) * hmin` of a stencil point
      with signed exponent `v` along one axis. */
  function Step(v: int, hmin: real): real
  {
    (SignPow(v) as real) * hmin
  }

  // ---------------------------------------------------------------------------
  // Rings and offsets along one axis
  // ---------------------------------------------------------------------------

  /** Lines 332-336: `nCpad[0]` rings of level 1, then `nCpad[1]` of level
      2, then `nCpad[2]` of level 3; the levels never decrease outwards. */
  function RingsOf(nCpad: seq<nat>): (s: seq<nat>)
    requires |nCpad| >= 3
    ensures |s| == nCpad[0] + nCpad[1] + nCpad[2]
    ensures forall m :: 0 <= m < |s| ==> 1 <= s[m] <= 3
    ensures forall m, m2 :: 0 <= m <= m2 < |s| ==> s[m] <= s[m2]
  {
    Repeat(1, nCpad[0]) + Repeat(2, nCpad[1]) + Repeat(3, nCpad[2])
  }

  /** Line 339: the rings mirrored around a centre of level 1. */
  function LevelVec(rings: seq<nat>): (v: seq<nat>)
    ensures |v| == 2 * |rings| + 1 && v[|rings|] == 1
  {
    Reverse(rings) + [1] + rings
  }

  /** Line 346: the rings mirrored with a sign, around a centre of 0. */
  function SignedVec(rings: seq<nat>): (v: seq<int>)
    ensures |v| == 2 * |rings| + 1 && v[|rings|] == 0
  {
    seq(|rings|, m requires 0 <= m < |rings| => -(rings[|rings| - 1 - m] as int)) + [0] + rings
  }

  /** The level vector reads the same from both ends. */
  lemma LevelVecSymmetric(rings: seq<nat>, m: nat)
    requires m < 2 * |rings| + 1
    ensures LevelVec(rings)[m] == LevelVec(rings)[2 * |rings| - m]
  {
    var s := |rings|;
    var v := LevelVec(rings);
    if m < s {
      assert v[m] == rings[s - 1 - m];
      assert v[2 * s - m] == rings[s - m - 1];
    } else if m > s {
      assert v[m] == rings[m - s - 1];
      assert v[2 * s - m] == Reverse(rings)[2 * s - m];
    }
  }

  /** Away from the centre, the level of a stencil position is the size of
      its signed exponent, negative before the centre and positive after. */
  lemma SignedMatchesLevel(rings: seq<nat>, m: nat)
    requires m < 2 * |rings| + 1 && m != |rings|
    ensures m < |rings| ==> SignedVec(rings)[m] == -(LevelVec(rings)[m] as int)
    ensures m > |rings| ==> SignedVec(rings)[m] == LevelVec(rings)[m] as int
  {
    var s := |rings|;
    if m < s {
      assert SignedVec(rings)[m] == -(rings[s - 1 - m] as int);
      assert LevelVec(rings)[m] == Reverse(rings)[m];
    } else {
      assert SignedVec(rings)[m] == rings[m - s - 1] as int;
      assert LevelVec(rings)[m] == rings[m - s - 1];
    }
  }

  // ---------------------------------------------------------------------------
  // The stencil cube
  // ---------------------------------------------------------------------------

  /** Entry `(i, j, k)` of `meshgrid(v, v, v)`'s `axis`-th output: `vecX`
      varies along the second index, `vecY` along the first and `vecZ`
      along the third. */
  function MeshAt<T>(v: seq<T>, axis: nat, i: nat, j: nat, k: nat): T
    requires axis < 3 && i < |v| && j < |v| && k < |v|
  {
    if axis == 0 then v[j] else if axis == 1 then v[i] else v[k]
  }

  /** Lines 340-342: the largest of the three meshgrid levels at every
      position of the stencil. */
  function LevelCube(vec: seq<nat>): (g: seq<seq<seq<nat>>>)
    ensures IsCube(g, |vec|, |vec|, |vec|)
    ensures forall i :: 0 <= i < |vec| ==> g[i] == LevelPlane(vec, i)
  {
    seq(|vec|, i requires 0 <= i < |vec| => LevelPlane(vec, i))
  }

  function LevelPlane(vec: seq<nat>, i: nat): (pl: seq<seq<nat>>)
    requires i < |vec|
    ensures IsMatrix(pl, |vec|, |vec|)
    ensures forall j :: 0 <= j < |vec| ==> pl[j] == LevelLine(vec, i, j)
  {
    seq(|vec|, j requires 0 <= j < |vec| => LevelLine(vec, i, j))
  }

  function LevelLine(vec: seq<nat>, i: nat, j: nat): (ln: seq<nat>)
    requires i < |vec| && j < |vec|
    ensures |ln| == |vec|
    ensures forall k :: 0 <= k < |vec| ==>
      ln[k] == Larger(Larger(MeshAt(vec, 0, i, j, k), MeshAt(vec, 1, i, j, k)), MeshAt(vec, 2, i, j, k))
  {
    seq(|vec|, k requires 0 <= k < |vec| =>
      Larger(Larger(MeshAt(vec, 0, i, j, k), MeshAt(vec, 1, i, j, k)), MeshAt(vec, 2, i, j, k)))
  }

  /** One component of lines 347-351: `sign(v) * 2**abs(v) * hmin` over the
      `axis`-th meshgrid output of the signed vector. */
  function OffsetCube(vs: seq<int>, axis: nat, hmin: real): (c: seq<seq<seq<real>>>)
    requires axis < 3
    ensures IsCube(c, |vs|, |vs|, |vs|)
    ensures forall i :: 0 <= i < |vs| ==> c[i] == OffsetPlane(vs, axis, hmin, i)
  {
    seq(|vs|, i requires 0 <= i < |vs| => OffsetPlane(vs, axis, hmin, i))
  }

  function OffsetPlane(vs: seq<int>, axis: nat, hmin: real, i: nat): (pl: seq<seq<real>>)
    requires axis < 3 && i < |vs|
    ensures IsMatrix(pl, |vs|, |vs|)
    ensures forall j :: 0 <= j < |vs| ==> pl[j] == OffsetLine(vs, axis, hmin, i, j)
  {
    seq(|vs|, j requires 0 <= j < |vs| => OffsetLine(vs, axis, hmin, i, j))
  }

  function OffsetLine(vs: seq<int>, axis: nat, hmin: real, i: nat, j: nat): (ln: seq<real>)
    requires axis < 3 && i < |vs| && j < |vs|
    ensures |ln| == |vs|
    ensures forall k :: 0 <= k < |vs| ==> ln[k] == Step(MeshAt(vs, axis, i, j, k), hmin)
  {
    seq(|vs|, k requires 0 <= k < |vs| => Step(MeshAt(vs, axis, i, j, k), hmin))
  }

  /** Lines 348-352: the three components flattened with `mkvc` and set
      side by side, one offset per row. */
  function Offsets(vs: seq<int>, hmin: real): (o: Matrix)
    ensures IsMatrix(o, |vs| * |vs| * |vs|, 3)
    ensures forall t :: 0 <= t < |o| ==> o[t] == OffsetOf(vs, hmin, t)
  {
    var L := |vs|;
    seq(L * L * L, t requires 0 <= t < L * L * L => OffsetOf(vs, hmin, t))
  }

  /** Row `t` of the offsets: position `t` of each flattened component. */
  function OffsetOf(vs: seq<int>, hmin: real, t: nat): (row: seq<real>)
    requires t < |vs| * |vs| * |vs|
    ensures |row| == 3
  {
    var L := |vs|;
    [Mkvc3(OffsetCube(vs, 0, hmin), L, L, L)[t], Mkvc3(OffsetCube(vs, 1, hmin), L, L, L)[t],
     Mkvc3(OffsetCube(vs, 2, hmin), L, L, L)[t]]
  }

  /** An all-ones matrix. */
  function Ones(rows: nat, cols: nat): (m: Matrix)
    ensures IsMatrix(m, rows, cols)
  {
    seq(rows, _ => seq(cols, _ => 1.0))
  }

  /** Lines 355-358: `kron(xyz, ones((P, 1))) + kron(ones((N, 1)), offset)`:
      every location repeated once per offset, plus the offsets repeated
      once per location. */
  function NewLocations(xyz: Matrix, n: nat, offsets: Matrix, p: nat): (loc: Matrix)
    requires IsMatrix(xyz, n, 3) && IsMatrix(offsets, p, 3) && p > 0
    ensures IsMatrix(loc, n * p, 3)
  {
    var a := Averaging.Kron(xyz, n, 3, Ones(p, 1), p, 1);
    var b := Averaging.Kron(Ones(n, 1), n, 1, offsets, p, 3);
    seq(n * p, q requires 0 <= q < n * p => seq(3, c requires 0 <= c < 3 => a[q][c] + b[q][c]))
  }

  // ---------------------------------------------------------------------------
  // Levels per new location
  // ---------------------------------------------------------------------------

  /** Line 343 as written: `np.kron(np.ones((N, 1)), gridLevel)` with a 3-D
      `gridLevel` first turns the ones into shape `(1, N, 1)`, so the result
      has shape `(L, N * L, L)`: the N copies are laid side by side along
      the second axis, entry `(i, J, k)` being `gridLevel[i, J % L, k]`. */
  function KronOnesCube(g: seq<seq<seq<nat>>>, L: nat, n: nat): (c: seq<seq<seq<nat>>>)
    requires IsCube(g, L, L, L) && L > 0
    ensures IsCube(c, L, n * L, L)
    ensures forall i :: 0 <= i < L ==> c[i] == KronOnesPlane(g, L, n, i)
  {
    seq(L, i requires 0 <= i < L => KronOnesPlane(g, L, n, i))
  }

  function KronOnesPlane(g: seq<seq<seq<nat>>>, L: nat, n: nat, i: nat): (pl: seq<seq<nat>>)
    requires IsCube(g, L, L, L) && L > 0 && i < L
    ensures IsMatrix(pl, n * L, L)
    ensures forall j :: 0 <= j < n * L ==> pl[j] == g[i][j % L]
  {
    seq(n * L, j requires 0 <= j < n * L => g[i][j % L])
  }

  /** Line 361: `maxLevel - levels + 1`, entry by entry. */
  function Inserted(levels: seq<nat>, maxLevel: int): (lv: seq<int>)
    ensures |lv| == |levels| && forall q :: 0 <= q < |levels| ==> lv[q] == maxLevel - levels[q] + 1
  {
    seq(|levels|, q requires 0 <= q < |levels| => maxLevel - levels[q] + 1)
  }

  /** `n` copies of `s` one after the other. */
  function Tile<T>(s: seq<T>, n: nat): (r: seq<T>)
    requires |s| > 0
    ensures |r| == n * |s|
  {
    seq(n * |s|, q requires 0 <= q < n * |s| => s[q % |s|])
  }

  /** Position `t` of copy `loc` holds `s[t]`. */
  lemma TileAt<T>(s: seq<T>, n: nat, loc: nat, t: nat, q: nat)
    requires |s| > 0 && loc < n && t < |s| && q == t + loc * |s|
    ensures q < |Tile(s, n)| && Tile(s, n)[q] == s[t]
  {
    FlatIndexBelow(t, loc, |s|, n);
    DivModOf(loc, t, |s|);
  }

  /** Lines 343 and 361 as written: the side-by-side copies flattened in
      Fortran order. */
  function InsertLevelsAsWritten(g: seq<seq<seq<nat>>>, L: nat, n: nat, maxLevel: int): (lv: seq<int>)
    requires IsCube(g, L, L, L) && L > 0
    ensures |lv| == L * (n * L) * L
  {
    Inserted(Mkvc3(KronOnesCube(g, L, n), L, n * L, L), maxLevel)
  }

  /** The levels the stencil is built for: `mkvc(gridLevel)` once per
      location, in the order `NewLocations` lists the offsets. */
  function InsertLevels(g: seq<seq<seq<nat>>>, L: nat, n: nat, maxLevel: int): (lv: seq<int>)
    requires IsCube(g, L, L, L) && L > 0
    ensures |lv| == n * (L * L * L)
  {
    CubePositive(L);
    Inserted(Tile(Mkvc3(g, L, L, L), n), maxLevel)
  }

  /** Lines 332-358 with the corrected level replication: the new
      locations around `n` points and the level each is refined to. */
  function PointStencil(xyz: Matrix, n: nat, nCpad: seq<nat>, maxLevel: int, hmin: real)
    : (r: (Matrix, seq<int>))
    requires IsMatrix(xyz, n, 3) && |nCpad| >= 3
    ensures |r.0| == |r.1|
  {
    var rings := RingsOf(nCpad);
    var vs := SignedVec(rings);
    var L := |vs|;
    CubePositive(L);
    (NewLocations(xyz, n, Offsets(vs, hmin), L * L * L), InsertLevels(LevelCube(LevelVec(rings)), L, n, maxLevel))
  }

  lemma CubePositive(L: nat)
    requires L > 0
    ensures L * L * L > 0
  {
    MulMono(1, L, L);
    MulMono(1, L * L, L);
  }

  /** Row `q = t + loc * P` of the stencil output, where `L` is the width
      of the stencil, `P = L * L * L` and `t = i + j * L + k * L * L`: it is
      location `loc` moved by the signed power-of-two steps of stencil
      position `(i, j, k)` (x from `j`, y from `i`, z from `k`). */
  lemma StencilLocationAt(xyz: Matrix, n: nat, nCpad: seq<nat>, maxLevel: int, hmin: real,
                          L: nat, loc: nat, i: nat, j: nat, k: nat, t: nat, q: nat)
    requires IsMatrix(xyz, n, 3) && |nCpad| >= 3 && loc < n
    requires L == 2 * (nCpad[0] + nCpad[1] + nCpad[2]) + 1
    requires i < L && j < L && k < L && t == i + j * L + k * (L * L) && q == t + loc * (L * L * L)
    ensures var locs := PointStencil(xyz, n, nCpad, maxLevel, hmin).0;
      var vs := SignedVec(RingsOf(nCpad));
      && q < |locs|
      && |locs[q]| == 3
      && locs[q][0] == xyz[loc][0] + Step(vs[j], hmin)
      && locs[q][1] == xyz[loc][1] + Step(vs[i], hmin)
      && locs[q][2] == xyz[loc][2] + Step(vs[k], hmin)
  {
    var rings := RingsOf(nCpad);
    assert |rings| == nCpad[0] + nCpad[1] + nCpad[2];
    var vs := SignedVec(rings);
    assert |vs| == L;
    var p := L * L * L;
    CubePositive(L);
    assert PointStencil(xyz, n, nCpad, maxLevel, hmin).0 == NewLocations(xyz, n, Offsets(vs, hmin), p);
    OffsetRow(vs, hmin, i, j, k, t);
    LocationRow(xyz, n, Offsets(vs, hmin), p, loc, t, q);
  }

  /** The same row is refined to `maxLevel + 1` minus the largest ring level
      of the three coordinates of its stencil position. */
  lemma StencilLevelAt(xyz: Matrix, n: nat, nCpad: seq<nat>, maxLevel: int, hmin: real,
                       L: nat, loc: nat, i: nat, j: nat, k: nat, t: nat, q: nat)
    requires IsMatrix(xyz, n, 3) && |nCpad| >= 3 && loc < n
    requires L == 2 * (nCpad[0] + nCpad[1] + nCpad[2]) + 1
    requires i < L && j < L && k < L && t == i + j * L + k * (L * L) && q == t + loc * (L * L * L)
    ensures var levels := PointStencil(xyz, n, nCpad, maxLevel, hmin).1;
      var lv := LevelVec(RingsOf(nCpad));
      && q < |levels|
      && levels[q] == maxLevel - Larger(Larger(lv[j], lv[i]), lv[k]) + 1
  {
    var rings := RingsOf(nCpad);
    assert |rings| == nCpad[0] + nCpad[1] + nCpad[2];
    var lv := LevelVec(rings);
    assert |lv| == L && |SignedVec(rings)| == L;
    assert PointStencil(xyz, n, nCpad, maxLevel, hmin).1 == InsertLevels(LevelCube(lv), L, n, maxLevel);
    LevelRow(lv, L, n, maxLevel, loc, i, j, k, t, q);
  }

  /** The centre of each location's stencil is the location itself,
      refined to the finest level `maxLevel`. */
  lemma StencilCentre(xyz: Matrix, n: nat, nCpad: seq<nat>, maxLevel: int, hmin: real,
                      L: nat, loc: nat, c: nat, t: nat, q: nat)
    requires IsMatrix(xyz, n, 3) && |nCpad| >= 3 && loc < n
    requires c == nCpad[0] + nCpad[1] + nCpad[2] && L == 2 * c + 1
    requires t == c + c * L + c * (L * L) && q == t + loc * (L * L * L)
    ensures var r := PointStencil(xyz, n, nCpad, maxLevel, hmin);
      && q < |r.0| && r.0[q] == xyz[loc] && r.1[q] == maxLevel
  {
    StencilLocationAt(xyz, n, nCpad, maxLevel, hmin, L, loc, c, c, c, t, q);
    StencilLevelAt(xyz, n, nCpad, maxLevel, hmin, L, loc, c, c, c, t, q);
    CentreEntries(nCpad, c, hmin);
    SameTriple(PointStencil(xyz, n, nCpad, maxLevel, hmin).0[q], xyz[loc]);
  }

  lemma SameTriple(a: seq<real>, b: seq<real>)
    requires |a| == |b| == 3 && a[0] == b[0] && a[1] == b[1] && a[2] == b[2]
    ensures a == b
  {
  }

  /** The centre of both stencil vectors: no step, and ring level 1. */
  lemma CentreEntries(nCpad: seq<nat>, c: nat, hmin: real)
    requires |nCpad| >= 3 && c == nCpad[0] + nCpad[1] + nCpad[2]
    ensures c < |SignedVec(RingsOf(nCpad))| && Step(SignedVec(RingsOf(nCpad))[c], hmin) == 0.0
    ensures c < |LevelVec(RingsOf(nCpad))| && LevelVec(RingsOf(nCpad))[c] == 1
  {
    var rings := RingsOf(nCpad);
    assert |rings| == c;
  }

  /** Every new location is refined to one of the three finest levels,
      `maxLevel - 2` to `maxLevel`. */
  lemma StencilLevelBounds(xyz: Matrix, n: nat, nCpad: seq<nat>, maxLevel: int, hmin: real, q: nat)
    requires IsMatrix(xyz, n, 3) && |nCpad| >= 3
    requires q < |PointStencil(xyz, n, nCpad, maxLevel, hmin).1|
    ensures maxLevel - 2 <= PointStencil(xyz, n, nCpad, maxLevel, hmin).1[q] <= maxLevel
  {
    var rings := RingsOf(nCpad);
    var lv := LevelVec(rings);
    var L := |lv|;
    assert |SignedVec(rings)| == L;
    CubePositive(L);
    var p := L * L * L;
    assert PointStencil(xyz, n, nCpad, maxLevel, hmin).1 == InsertLevels(LevelCube(lv), L, n, maxLevel);
    LevelVecBounds(rings);
    var flat := Mkvc3(LevelCube(lv), L, L, L);
    DivBelow(q, n, p);
    var t := q % p;
    var i, j, k := FlatIndexSplit(t, L);
    Mkvc3At(LevelCube(lv), L, L, L, i, j, k, t);
    assert Tile(flat, n)[q] == flat[t];
  }

  /** Every entry of the level vector is a ring level, 1 to 3. */
  lemma LevelVecBounds(rings: seq<nat>)
    requires forall m :: 0 <= m < |rings| ==> 1 <= rings[m] <= 3
    ensures forall m :: 0 <= m < |LevelVec(rings)| ==> 1 <= LevelVec(rings)[m] <= 3
  {
    var v := LevelVec(rings);
    forall m | 0 <= m < |v|
      ensures 1 <= v[m] <= 3
    {
      if m < |rings| {
        assert v[m] == rings[|rings| - 1 - m];
      } else if m > |rings| {
        assert v[m] == rings[m - |rings| - 1];
      }
    }
  }

  /** A position below `L * L * L` splits into three indices below `L`. */
  lemma FlatIndexSplit(t: nat, L: nat) returns (i: nat, j: nat, k: nat)
    requires L > 0 && t < L * L * L
    ensures i < L && j < L && k < L && t == i + j * L + k * (L * L)
  {
    assert L * L * L == L * (L * L);
    DivBelow(t, L * L, L);
    DivBelow(t / L, L, L);
    i, j, k := t % L, (t / L) % L, (t / L) / L;
  }

  /** Offset row `t` holds the signed powers of stencil position `(i, j, k)`. */
  lemma OffsetRow(vs: seq<int>, hmin: real, i: nat, j: nat, k: nat, t: nat)
    requires i < |vs| && j < |vs| && k < |vs| && t == i + j * |vs| + k * (|vs| * |vs|)
    ensures t < |Offsets(vs, hmin)|
    ensures Offsets(vs, hmin)[t][0] == Step(vs[j], hmin)
    ensures Offsets(vs, hmin)[t][1] == Step(vs[i], hmin)
    ensures Offsets(vs, hmin)[t][2] == Step(vs[k], hmin)
  {
    OffsetAt(vs, 0, hmin, i, j, k, t);
    OffsetAt(vs, 1, hmin, i, j, k, t);
    OffsetAt(vs, 2, hmin, i, j, k, t);
    assert Offsets(vs, hmin)[t] == OffsetOf(vs, hmin, t);
  }

  /** Position `t` of one flattened offset component. */
  lemma OffsetAt(vs: seq<int>, axis: nat, hmin: real, i: nat, j: nat, k: nat, t: nat)
    requires axis < 3 && i < |vs| && j < |vs| && k < |vs| && t == i + j * |vs| + k * (|vs| * |vs|)
    ensures var flat := Mkvc3(OffsetCube(vs, axis, hmin), |vs|, |vs|, |vs|);
      && t < |flat|
      && flat[t] == Step(MeshAt(vs, axis, i, j, k), hmin)
  {
    var L := |vs|;
    Mkvc3At(OffsetCube(vs, axis, hmin), L, L, L, i, j, k, t);
  }

  /** New location `t + loc * P` is location `loc` plus offset `t`. */
  lemma LocationRow(xyz: Matrix, n: nat, offsets: Matrix, p: nat, loc: nat, t: nat, q: nat)
    requires IsMatrix(xyz, n, 3) && IsMatrix(offsets, p, 3) && loc < n && t < p && q == t + loc * p
    ensures q < n * p
    ensures forall c :: 0 <= c < 3 ==> NewLocations(xyz, n, offsets, p)[q][c] == xyz[loc][c] + offsets[t][c]
  {
    FlatIndexBelow(t, loc, p, n);
    forall c | 0 <= c < 3
      ensures NewLocations(xyz, n, offsets, p)[q][c] == xyz[loc][c] + offsets[t][c]
    {
      Averaging.KronAt(xyz, n, 3, Ones(p, 1), p, 1, loc, c, t, 0);
      Averaging.KronAt(Ones(n, 1), n, 1, offsets, p, 3, loc, 0, t, c);
    }
  }

  /** New location `t + loc * P` gets the level of stencil position `t`. */
  lemma LevelRow(vec: seq<nat>, L: nat, n: nat, maxLevel: int, loc: nat, i: nat, j: nat, k: nat, t: nat, q: nat)
    requires L == |vec| && L > 0 && loc < n && i < L && j < L && k < L
    requires t == i + j * L + k * (L * L) && q == t + loc * (L * L * L)
    ensures q < |InsertLevels(LevelCube(vec), L, n, maxLevel)|
    ensures InsertLevels(LevelCube(vec), L, n, maxLevel)[q]
         == maxLevel - Larger(Larger(vec[j], vec[i]), vec[k]) + 1
  {
    Mkvc3At(LevelCube(vec), L, L, L, i, j, k, t);
    TileAt(Mkvc3(LevelCube(vec), L, L, L), n, loc, t, q);
  }

  // ---------------------------------------------------------------------------
  // Line 343 as written against the intended replication
  // ---------------------------------------------------------------------------

  /** With a single location the side-by-side copy is the cube itself, and
      the written code gives the intended levels. */
  lemma AsWrittenForOneLocation(g: seq<seq<seq<nat>>>, L: nat, maxLevel: int)
    requires IsCube(g, L, L, L) && L > 0
    ensures InsertLevelsAsWritten(g, L, 1, maxLevel) == InsertLevels(g, L, 1, maxLevel)
  {
    KronOnesSingle(g, L);
    assert 1 * L == L;
    CubePositive(L);
    TileOnce(Mkvc3(g, L, L, L));
  }

  /** A single copy is the sequence itself. */
  lemma TileOnce<T>(s: seq<T>)
    requires |s| > 0
    ensures Tile(s, 1) == s
  {
    forall q | 0 <= q < |s|
      ensures Tile(s, 1)[q] == s[q]
    {
      DivModOf(0, q, |s|);
    }
  }

  /** One copy laid side by side is the cube itself. */
  lemma KronOnesSingle(g: seq<seq<seq<nat>>>, L: nat)
    requires IsCube(g, L, L, L) && L > 0
    ensures KronOnesCube(g, L, 1) == g
  {
    forall i | 0 <= i < L
      ensures KronOnesCube(g, L, 1)[i] == g[i]
    {
      KronOncePlane(g, L, i);
    }
  }

  lemma KronOncePlane(g: seq<seq<seq<nat>>>, L: nat, i: nat)
    requires IsCube(g, L, L, L) && L > 0 && i < L
    ensures KronOnesPlane(g, L, 1, i) == g[i]
  {
    var pl := KronOnesPlane(g, L, 1, i);
    forall j | 0 <= j < L
      ensures pl[j] == g[i][j]
    {
      DivModOf(0, j, L);
    }
  }

  /** Two locations with `nCpad = [1, 1, 0]` (rings `[1, 2]`, `L = 5`): row
      112 carries offset `(0, 0, +4 hmin)` from the first location, which
      lies in the outer ring and should be refined to `maxLevel - 1`; the
      written code reads the centre of the second copy instead and refines
      it to `maxLevel`. */
  lemma AsWrittenMisaligned(maxLevel: int)
    ensures var g := LevelCube(LevelVec(RingsOf([1, 1, 0])));
      && |InsertLevelsAsWritten(g, 5, 2, maxLevel)| == |InsertLevels(g, 5, 2, maxLevel)| == 250
      && InsertLevelsAsWritten(g, 5, 2, maxLevel)[112] == maxLevel
      && InsertLevels(g, 5, 2, maxLevel)[112] == maxLevel - 1
  {
    var rings := RingsOf([1, 1, 0]);
    assert rings == [1, 2];
    var vec := LevelVec(rings);
    assert vec == [2, 1, 1, 1, 2];
    var g := LevelCube(vec);
    // As written: position 112 of the (5, 10, 5) array is entry (2, 2, 2).
    Mkvc3At(KronOnesCube(g, 5, 2), 5, 10, 5, 2, 2, 2, 112);
    assert KronOnesCube(g, 5, 2)[2][2][2] == g[2][2][2] == 1;
    // Intended: position 112 of the first copy is entry (2, 2, 4).
    Mkvc3At(g, 5, 5, 5, 2, 2, 4, 112);
    assert g[2][2][4] == 2;
    TileAt(Mkvc3(g, 5, 5, 5), 2, 0, 112, 112);
  }
}
