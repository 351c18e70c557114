/** `tileSurveyPoints`: split the bounding box of the survey locations into a
    grid of tiles, adding a column or a row of tiles at a time, until no tile
    holds more than `maxNpoints` locations; then return the south-west and
    north-east corners of the tiles that hold at least one location. Tile
    bounds are inclusive on both sides, so a location on a shared edge counts
    in both tiles. */
module Tiling {
  import opened Common
  import Grid

  datatype Point2 = Point2(x: real, y: real)

  /** The ways `tileSurveyPoints` fails. */
  datatype TileError =
    | EmptyLocations  // ValueError: .min() of a zero-size array
    | TilesUnbound    // NameError: `maxNpoints >= 1e8` skips the loop, `xtiles` is never bound
    | OutOfFuel       // the refinement did not settle within the given number of passes

  predicate InBox(p: Point2, lo: Point2, hi: Point2)
  {
    lo.x <= p.x <= hi.x && lo.y <= p.y <= hi.y
  }

  /** The number of locations in the closed box [lo, hi]. */
  function CountIn(locs: seq<Point2>, lo: Point2, hi: Point2): (n: nat)
    ensures n <= |locs|
  {
    if |locs| == 0 then 0 else (if InBox(locs[0], lo, hi) then 1 else 0) + CountIn(locs[1..], lo, hi)
  }

  /** A box counts a location exactly when one lies in it. */
  lemma {:induction false} CountInPositive(locs: seq<Point2>, lo: Point2, hi: Point2)
    ensures CountIn(locs, lo, hi) > 0 <==> exists k :: 0 <= k < |locs| && InBox(locs[k], lo, hi)
  {
    if |locs| > 0 {
      CountInPositive(locs[1..], lo, hi);
      assert forall k :: 1 <= k < |locs| ==> locs[k] == locs[1..][k - 1];
      if InBox(locs[0], lo, hi) {
      } else {
        assert CountIn(locs, lo, hi) == CountIn(locs[1..], lo, hi);
        if k :| 0 <= k < |locs| && InBox(locs[k], lo, hi) {
          assert k != 0 && InBox(locs[1..][k - 1], lo, hi);
        }
      }
    }
  }

  /** The number of locations with `lo <= x <= hi` (`sum(maskx)`). */
  function CountX(locs: seq<Point2>, lo: real, hi: real): (n: nat)
    ensures n <= |locs|
  {
    if |locs| == 0 then 0 else (if lo <= locs[0].x <= hi then 1 else 0) + CountX(locs[1..], lo, hi)
  }

  /** The number of locations with `lo <= y <= hi` (`sum(masky)`). */
  function CountY(locs: seq<Point2>, lo: real, hi: real): (n: nat)
    ensures n <= |locs|
  {
    if |locs| == 0 then 0 else (if lo <= locs[0].y <= hi then 1 else 0) + CountY(locs[1..], lo, hi)
  }

  function Xs(locs: seq<Point2>): (r: seq<real>)
    ensures |r| == |locs| && forall k :: 0 <= k < |locs| ==> r[k] == locs[k].x
  {
    seq(|locs|, k requires 0 <= k < |locs| => locs[k].x)
  }

  function Ys(locs: seq<Point2>): (r: seq<real>)
    ensures |r| == |locs| && forall k :: 0 <= k < |locs| ==> r[k] == locs[k].y
  {
    seq(|locs|, k requires 0 <= k < |locs| => locs[k].y)
  }

  // ---------------------------------------------------------------------------
  // Tiles of one pass, in the flat order `jj + ii * (nNy - 1)`
  // ---------------------------------------------------------------------------

  /** Tile breaks along both axes: at least one tile each way. */
  predicate Breaks(xt: seq<real>, yt: seq<real>)
  {
    |xt| >= 2 && |yt| >= 2
  }

  function NumTiles(xt: seq<real>, yt: seq<real>): nat
    requires Breaks(xt, yt)
  {
    (|xt| - 1) * (|yt| - 1)
  }

  /** A closed box, given by its south-west and north-east corners. */
  datatype Box = Box(lo: Point2, hi: Point2)

  /** The tiles of x strip `ii`, one per y strip. */
  function TileRow(xt: seq<real>, yt: seq<real>, ii: nat): (r: seq<Box>)
    requires Breaks(xt, yt) && ii < |xt| - 1
    ensures |r| == |yt| - 1
  {
    seq(|yt| - 1, jj requires 0 <= jj < |yt| - 1 =>
      Box(Point2(xt[ii], yt[jj]), Point2(xt[ii + 1], yt[jj + 1])))
  }

  /** The tiles of the first `n` x strips, strip by strip. */
  function TilesUpTo(xt: seq<real>, yt: seq<real>, n: nat): (r: seq<Box>)
    requires Breaks(xt, yt) && n <= |xt| - 1
    ensures |r| == n * (|yt| - 1)
  {
    if n == 0 then []
    else
      var r := TilesUpTo(xt, yt, n - 1) + TileRow(xt, yt, n - 1);
      assert |r| == (n - 1) * (|yt| - 1) + (|yt| - 1) == n * (|yt| - 1);
      r
  }

  /** Every tile of a pass, in the order `jj + ii * (nNy - 1)` of the loops. */
  function Tiles(xt: seq<real>, yt: seq<real>): (r: seq<Box>)
    requires Breaks(xt, yt)
    ensures |r| == NumTiles(xt, yt)
  {
    TilesUpTo(xt, yt, |xt| - 1)
  }

  function TileCount(locs: seq<Point2>, xt: seq<real>, yt: seq<real>, t: nat): nat
    requires Breaks(xt, yt) && t < NumTiles(xt, yt)
  {
    CountIn(locs, Tiles(xt, yt)[t].lo, Tiles(xt, yt)[t].hi)
  }

  /** Adding strips keeps the earlier tiles in place. */
  lemma {:induction false} TilesPrefix(xt: seq<real>, yt: seq<real>, n: nat, m: nat, t: nat)
    requires Breaks(xt, yt) && n <= m <= |xt| - 1 && t < |TilesUpTo(xt, yt, n)|
    ensures t < |TilesUpTo(xt, yt, m)| && TilesUpTo(xt, yt, m)[t] == TilesUpTo(xt, yt, n)[t]
    decreases m - n
  {
    if n < m {
      TilesPrefix(xt, yt, n + 1, m, t);
    }
  }

  /** Tile (ii, jj) sits at flat index `jj + ii * (nNy - 1)`. */
  lemma TileIndex(xt: seq<real>, yt: seq<real>, ii: nat, jj: nat)
    requires Breaks(xt, yt) && ii < |xt| - 1 && jj < |yt| - 1
    ensures jj + ii * (|yt| - 1) < NumTiles(xt, yt)
    ensures Tiles(xt, yt)[jj + ii * (|yt| - 1)] == Box(Point2(xt[ii], yt[jj]), Point2(xt[ii + 1], yt[jj + 1]))
  {
    var t := jj + ii * (|yt| - 1);
    var row := TilesUpTo(xt, yt, ii + 1);
    assert row == TilesUpTo(xt, yt, ii) + TileRow(xt, yt, ii);
    assert row[t] == TileRow(xt, yt, ii)[jj];
    TilesPrefix(xt, yt, ii + 1, |xt| - 1, t);
  }

  /** The location count of every tile of a pass, in flat order. */
  function TileCounts(locs: seq<Point2>, xt: seq<real>, yt: seq<real>): (c: seq<nat>)
    requires Breaks(xt, yt)
    ensures |c| == NumTiles(xt, yt)
    ensures forall t :: 0 <= t < |c| ==> c[t] == TileCount(locs, xt, yt, t)
  {
    seq(NumTiles(xt, yt), t requires 0 <= t < NumTiles(xt, yt) => TileCount(locs, xt, yt, t))
  }

  /** The location count of every x strip (`sum(maskx)` per `ii`). */
  function StripCountsX(locs: seq<Point2>, xt: seq<real>): (c: seq<nat>)
    requires |xt| >= 1
    ensures |c| == |xt| - 1 && forall i {:trigger c[i]} :: 0 <= i < |c| ==> c[i] == CountX(locs, xt[i], xt[i + 1])
  {
    seq(|xt| - 1, i requires 0 <= i < |xt| - 1 => CountX(locs, xt[i], xt[i + 1]))
  }

  /** The location count of every y strip (`sum(masky)` per `jj`). */
  function StripCountsY(locs: seq<Point2>, yt: seq<real>): (c: seq<nat>)
    requires |yt| >= 1
    ensures |c| == |yt| - 1 && forall j {:trigger c[j]} :: 0 <= j < |c| ==> c[j] == CountY(locs, yt[j], yt[j + 1])
  {
    seq(|yt| - 1, j requires 0 <= j < |yt| - 1 => CountY(locs, yt[j], yt[j + 1]))
  }

  /** `m` is the largest of the first `n` entries of `s` (0 when `n == 0`),
      the running `np.max([..., m])` of the loops. */
  predicate MaxPrefix(s: seq<nat>, n: nat, m: nat)
  {
    && n <= |s|
    && (forall t :: 0 <= t < n ==> s[t] <= m)
    && (if n == 0 then m == 0 else exists t :: 0 <= t < n && s[t] == m)
  }

  lemma MaxPrefixStep(s: seq<nat>, n: nat, m: nat)
    requires n < |s| && MaxPrefix(s, n, m)
    ensures MaxPrefix(s, n + 1, if s[n] > m then s[n] else m)
  {
  }

  /** Over the whole sequence, the running maximum is `MaxOf`. */
  lemma MaxPrefixIsMaxOf(s: seq<nat>, m: nat)
    requires MaxPrefix(s, |s|, m)
    ensures m == MaxOf(s)
  {
    if |s| > 0 {
      var t :| 0 <= t < |s| && s[t] == m;
      MaxOfBounds(s);
      var u :| 0 <= u < |s| && s[u] == MaxOf(s);
      assert s[u] <= m && s[t] <= MaxOf(s);
    }
  }

  /** The mask after the first `n` tiles: cleared exactly at the empty ones. */
  predicate MaskUpTo(counts: seq<nat>, filt: seq<bool>, n: nat)
  {
    |filt| == |counts|
    && forall t :: 0 <= t < |filt| ==> (filt[t] <==> t >= n || counts[t] > 0)
  }

  lemma MaskStep(counts: seq<nat>, filt: seq<bool>, n: nat)
    requires n < |counts| && MaskUpTo(counts, filt, n)
    ensures counts[n] == 0 ==> MaskUpTo(counts, filt[n := false], n + 1)
    ensures counts[n] > 0 ==> MaskUpTo(counts, filt, n + 1)
  {
  }

  /** `counts` holds, from flat index `base` on, the location counts of the
      tiles of x strip `ii`. */
  predicate StripCounted(locs: seq<Point2>, xt: seq<real>, yt: seq<real>, ii: nat, base: nat, counts: seq<nat>)
    requires ii < |xt| - 1
  {
    && base + |yt| - 1 <= |counts|
    && forall t {:trigger counts[t]} :: base <= t < base + |yt| - 1 ==>
         counts[t] == CountIn(locs, Point2(xt[ii], yt[t - base]), Point2(xt[ii + 1], yt[t - base + 1]))
  }

  /** The tiles of x strip `ii` sit at flat indices `base` to
      `base + nNy - 2`, `jj` after `base`, and the loop body counts them. */
  lemma StripTiles(locs: seq<Point2>, xt: seq<real>, yt: seq<real>, ii: nat, base: nat)
    requires Breaks(xt, yt) && ii < |xt| - 1 && base == StripStart(|yt| - 1, ii)
    ensures base + |yt| - 1 <= NumTiles(xt, yt)
    ensures StripCounted(locs, xt, yt, ii, base, TileCounts(locs, xt, yt))
  {
    StripWithin(|yt| - 1, ii, |xt| - 1);
    StripStartIs(|yt| - 1, ii);
    forall t | base <= t < base + |yt| - 1
      ensures TileCounts(locs, xt, yt)[t]
        == CountIn(locs, Point2(xt[ii], yt[t - base]), Point2(xt[ii + 1], yt[t - base + 1]))
    {
      TileIndex(xt, yt, ii, t - base);
    }
  }

  /** The inner loop of one pass: the tiles of x strip `ii`, at flat
      indices `base` to `base + nNy - 2`. */
  method ScanStrip(locs: seq<Point2>, xt: seq<real>, yt: seq<real>, ii: nat, base: nat,
                   ghost counts: seq<nat>, ghost cx: seq<nat>, ghost cy: seq<nat>,
                   filt: array<bool>, countx0: nat, county0: nat, nObs0: nat)
    returns (countx: nat, county: nat, nObs: nat)
    requires |xt| >= 2 && |yt| >= 2 && ii < |xt| - 1
    requires StripCounted(locs, xt, yt, ii, base, counts)
    requires cx == StripCountsX(locs, xt) && cy == StripCountsY(locs, yt)
    requires Scanned(counts, cx, cy, filt[..], base, ii, countx0, county0, nObs0)
    modifies filt
    ensures Scanned(counts, cx, cy, filt[..], base + |yt| - 1, ii + 1, countx, county, nObs)
  {
    countx, county, nObs := countx0, county0, nObs0;
    for jj := 0 to |yt| - 1
      invariant MaskUpTo(counts, filt[..], base + jj)
      invariant MaxPrefix(counts, base + jj, nObs)
      invariant countx == if jj > 0 && cx[ii] > countx0 then cx[ii] else countx0
      invariant ii == 0 ==> MaxPrefix(cy, jj, county)
      invariant ii > 0 ==> county == county0
    {
      var sx := CountX(locs, xt[ii], xt[ii + 1]);
      var sy := CountY(locs, yt[jj], yt[jj + 1]);
      assert sx == cx[ii] && sy == cy[jj];
      if ii == 0 {
        MaxPrefixStep(cy, jj, county);
      }
      countx := if sx > countx then sx else countx;
      county := if sy > county then sy else county;
      var s := CountIn(locs, Point2(xt[ii], yt[jj]), Point2(xt[ii + 1], yt[jj + 1]));
      nObs := MarkTile(counts, filt, base + jj, s, nObs);
    }
    MaxPrefixStep(cx, ii, countx0);
  }

  /** The state of a pass after the first `ii` x strips, whose tiles end
      at flat index `base`: the mask, the running tile maximum, the running
      x strip maximum, and the y strip maximum (complete after one strip). */
  predicate Scanned(counts: seq<nat>, cx: seq<nat>, cy: seq<nat>, filt: seq<bool>,
                    base: nat, ii: nat, countx: nat, county: nat, nObs: nat)
  {
    && MaskUpTo(counts, filt, base)
    && MaxPrefix(counts, base, nObs)
    && MaxPrefix(cx, ii, countx)
    && MaxPrefix(cy, if ii > 0 then |cy| else 0, county)
  }

  /** After every strip, the running maxima are the maxima. */
  lemma ScannedAll(counts: seq<nat>, cx: seq<nat>, cy: seq<nat>, filt: seq<bool>,
                   countx: nat, county: nat, nObs: nat)
    requires |cx| > 0 && Scanned(counts, cx, cy, filt, |counts|, |cx|, countx, county, nObs)
    ensures MaskUpTo(counts, filt, |counts|)
    ensures nObs == MaxOf(counts) && countx == MaxOf(cx) && county == MaxOf(cy)
  {
    MaxPrefixIsMaxOf(counts, nObs);
    MaxPrefixIsMaxOf(cx, countx);
    MaxPrefixIsMaxOf(cy, county);
  }

  /** The end of the loop body for flat tile `t` holding `s` locations: the
      running maximum takes `s` in, and an empty tile is cleared in `filt`. */
  method MarkTile(ghost counts: seq<nat>, filt: array<bool>, t: nat, s: nat, nObs0: nat)
    returns (nObs: nat)
    requires t < |counts| && counts[t] == s
    requires MaskUpTo(counts, filt[..], t) && MaxPrefix(counts, t, nObs0)
    modifies filt
    ensures MaskUpTo(counts, filt[..], t + 1) && MaxPrefix(counts, t + 1, nObs)
  {
    MaxPrefixStep(counts, t, nObs0);
    MaskStep(counts, filt[..], t);
    nObs := if s > nObs0 then s else nObs0;
    if s == 0 {
      filt[t] := false;
    }
  }

  /** One pass of the nested tile loops (lines 164-186): `filt` keeps the
      tiles holding a location; `nObs` is the largest number of locations in
      a tile; `countx` and `county` are the largest number of locations in an
      x strip and in a y strip. */
  method ScanTiles(locs: seq<Point2>, xt: seq<real>, yt: seq<real>)
    returns (filt: array<bool>, countx: nat, county: nat, nObs: nat)
    requires Breaks(xt, yt)
    ensures MaskUpTo(TileCounts(locs, xt, yt), filt[..], NumTiles(xt, yt))
    ensures nObs == MaxOf(TileCounts(locs, xt, yt))
    ensures countx == MaxOf(StripCountsX(locs, xt))
    ensures county == MaxOf(StripCountsY(locs, yt))
  {
    filt := new bool[NumTiles(xt, yt)](_ => true);
    countx, county, nObs := ScanStrips(locs, xt, yt, filt);
    StripStartIs(|yt| - 1, |xt| - 1);
    ScannedAll(TileCounts(locs, xt, yt), StripCountsX(locs, xt), StripCountsY(locs, yt), filt[..], countx, county, nObs);
  }

  /** The outer loop of one pass, over the x strips, with `filt` all set
      on entry. */
  method ScanStrips(locs: seq<Point2>, xt: seq<real>, yt: seq<real>, filt: array<bool>)
    returns (countx: nat, county: nat, nObs: nat)
    requires Breaks(xt, yt) && filt.Length == NumTiles(xt, yt)
    requires forall t :: 0 <= t < filt.Length ==> filt[t]
    modifies filt
    ensures Scanned(TileCounts(locs, xt, yt), StripCountsX(locs, xt), StripCountsY(locs, yt), filt[..],
                    StripStart(|yt| - 1, |xt| - 1), |xt| - 1, countx, county, nObs)
  {
    ghost var counts, cx, cy := TileCounts(locs, xt, yt), StripCountsX(locs, xt), StripCountsY(locs, yt);
    var nx1, ny1 := |xt| - 1, |yt| - 1;
    countx, county, nObs := 0, 0, 0;
    var base := 0;
    for ii := 0 to nx1
      invariant base == StripStart(ny1, ii)
      invariant Scanned(counts, cx, cy, filt[..], base, ii, countx, county, nObs)
    {
      StripTiles(locs, xt, yt, ii, base);
      countx, county, nObs := ScanStrip(locs, xt, yt, ii, base, counts, cx, cy, filt, countx, county, nObs);
      base := base + ny1;
    }
  }

  /** The flat index of the first tile of x strip `ii`, counted strip by strip. */
  function StripStart(ny1: nat, ii: nat): nat
  {
    if ii == 0 then 0 else StripStart(ny1, ii - 1) + ny1
  }

  /** Strip `ii` of `nx1` ends inside the `nx1 * ny1` tiles. */
  lemma StripWithin(ny1: nat, ii: nat, nx1: nat)
    requires ii < nx1
    ensures StripStart(ny1, ii) + ny1 <= nx1 * ny1
  {
    StripStartIs(ny1, ii + 1);
    MulMono(ii + 1, nx1, ny1);
  }

  lemma {:induction false} StripStartIs(ny1: nat, ii: nat)
    ensures StripStart(ny1, ii) == ii * ny1
  {
    if ii > 0 {
      StripStartIs(ny1, ii - 1);
      assert (ii - 1) * ny1 + ny1 == ii * ny1;
    }
  }

  // ---------------------------------------------------------------------------
  // Assembling the corners (lines 188-194)
  // ---------------------------------------------------------------------------

  /** `s[keep]` for a boolean mask of the same length. */
  function Filter<T>(s: seq<T>, keep: seq<bool>): (r: seq<T>)
    requires |keep| == |s|
    ensures |r| == |Kept(keep)|
  {
    if |s| == 0 then []
    else (if keep[0] then [s[0]] else []) + Filter(s[1..], keep[1..])
  }

  /** The positions a mask keeps, in order. */
  function Kept(keep: seq<bool>): (r: seq<nat>)
    ensures forall k :: 0 <= k < |r| ==> r[k] < |keep| && keep[r[k]]
  {
    if |keep| == 0 then []
    else (if keep[0] then [0] else []) + Shift(Kept(keep[1..]))
  }

  /** Every position shifted one place right. */
  function Shift(s: seq<nat>): (r: seq<nat>)
    ensures |r| == |s| && forall k :: 0 <= k < |s| ==> r[k] == s[k] + 1
  {
    seq(|s|, k requires 0 <= k < |s| => s[k] + 1)
  }

  /** Every position the mask keeps is listed. */
  lemma {:induction false} KeptListsAll(keep: seq<bool>, t: nat) returns (k: nat)
    requires t < |keep| && keep[t]
    ensures k < |Kept(keep)| && Kept(keep)[k] == t
    decreases |keep|
  {
    var rest := Kept(keep[1..]);
    if t == 0 {
      assert Kept(keep) == [0] + Shift(rest);
      k := 0;
    } else {
      assert keep[1..][t - 1];
      var k' := KeptListsAll(keep[1..], t - 1);
      if keep[0] {
        assert Kept(keep) == [0] + Shift(rest);
        k := k' + 1;
      } else {
        assert Kept(keep) == Shift(rest);
        k := k';
      }
    }
  }

  /** Entry `k` of a filtered sequence is the entry at the `k`-th kept position. */
  lemma {:induction false} FilterAt<T>(s: seq<T>, keep: seq<bool>, k: nat)
    requires |keep| == |s| && k < |Kept(keep)|
    ensures Filter(s, keep)[k] == s[Kept(keep)[k]]
    decreases |s|
  {
    var rest := Kept(keep[1..]);
    if keep[0] {
      assert Kept(keep) == [0] + Shift(rest);
      assert Filter(s, keep) == [s[0]] + Filter(s[1..], keep[1..]);
      if k > 0 {
        FilterAt(s[1..], keep[1..], k - 1);
      }
    } else {
      assert Kept(keep) == Shift(rest);
      assert Filter(s, keep) == Filter(s[1..], keep[1..]);
      FilterAt(s[1..], keep[1..], k);
    }
  }

  function Zip(xs: seq<real>, ys: seq<real>): (r: seq<Point2>)
    requires |xs| == |ys|
    ensures |r| == |xs| && forall k :: 0 <= k < |xs| ==> r[k] == Point2(xs[k], ys[k])
  {
    seq(|xs|, k requires 0 <= k < |xs| => Point2(xs[k], ys[k]))
  }

  /** `X1, Y1 = np.meshgrid(x1, y1)` then `np.c_[mkvc(X1), mkvc(Y1)]`, before
      the mask: one corner per tile, y index fastest. */
  function Corners(x1: seq<real>, y1: seq<real>): (c: seq<Point2>)
    ensures |c| == |y1| * |x1|
  {
    var (gx, gy) := Grid.Meshgrid2(x1, y1);
    Zip(Mkvc2(gx, |y1|, |x1|), Mkvc2(gy, |y1|, |x1|))
  }

  /** The `mkvc` order of the meshgrid corners is the `filt` order: flat
      entry `jj + ii * (nNy - 1)` is the corner (x1[ii], y1[jj]). */
  lemma CornersAt(x1: seq<real>, y1: seq<real>, ii: nat, jj: nat)
    requires ii < |x1| && jj < |y1|
    ensures jj + ii * |y1| < |Corners(x1, y1)|
    ensures Corners(x1, y1)[jj + ii * |y1|] == Point2(x1[ii], y1[jj])
  {
    var (gx, gy) := Grid.Meshgrid2(x1, y1);
    Mkvc2At(gx, |y1|, |x1|, jj, ii);
    Mkvc2At(gy, |y1|, |x1|, jj, ii);
  }

  /** The corners `(x1[ii], y1[jj])` kept by the mask, in the order of the
      flat tiles: `np.c_[mkvc(X1)[filt], mkvc(Y1)[filt]]`. */
  function KeptCorners(x1: seq<real>, y1: seq<real>, filt: seq<bool>): (r: seq<Point2>)
    requires |filt| == |Corners(x1, y1)|
    ensures |r| == |Kept(filt)|
  {
    var c := Corners(x1, y1);
    Zip(Filter(Xs(c), filt), Filter(Ys(c), filt))
  }

  /** The `k`-th kept corner is the corner of the `k`-th kept tile. */
  lemma KeptCornersAt(x1: seq<real>, y1: seq<real>, filt: seq<bool>, k: nat, ii: nat, jj: nat)
    requires |filt| == |Corners(x1, y1)| && k < |Kept(filt)|
    requires ii < |x1| && jj < |y1| && Kept(filt)[k] == jj + ii * |y1|
    ensures KeptCorners(x1, y1, filt)[k] == Point2(x1[ii], y1[jj])
  {
    var c := Corners(x1, y1);
    CornersAt(x1, y1, ii, jj);
    FilterAt(Xs(c), filt, k);
    FilterAt(Ys(c), filt, k);
  }

  /** Corner lists of a pass: `xy1` holds the south-west and `xy2` the
      north-east corners of the kept tiles. */
  function Assemble(xt: seq<real>, yt: seq<real>, filt: seq<bool>): (r: (seq<Point2>, seq<Point2>))
    requires Breaks(xt, yt) && |filt| == NumTiles(xt, yt)
    ensures |r.0| == |r.1| == |Kept(filt)|
  {
    CornerCount(xt, yt);
    (KeptCorners(xt[..|xt| - 1], yt[..|yt| - 1], filt), KeptCorners(xt[1..], yt[1..], filt))
  }

  /** The corner lists line up with the tiles of the scan: entry `k` holds
      the corners of the `k`-th kept tile. */
  lemma AssembleAt(xt: seq<real>, yt: seq<real>, filt: seq<bool>, k: nat)
    requires Breaks(xt, yt) && |filt| == NumTiles(xt, yt) && k < |Kept(filt)|
    ensures Kept(filt)[k] < NumTiles(xt, yt)
    ensures Assemble(xt, yt, filt).0[k] == Tiles(xt, yt)[Kept(filt)[k]].lo
    ensures Assemble(xt, yt, filt).1[k] == Tiles(xt, yt)[Kept(filt)[k]].hi
  {
    var ii, jj := KeptTile(xt, yt, filt, k);
    CornerCount(xt, yt);
    KeptCornersAt(xt[..|xt| - 1], yt[..|yt| - 1], filt, k, ii, jj);
    KeptCornersAt(xt[1..], yt[1..], filt, k, ii, jj);
  }

  /** The `k`-th kept tile is tile (ii, jj). */
  lemma KeptTile(xt: seq<real>, yt: seq<real>, filt: seq<bool>, k: nat) returns (ii: nat, jj: nat)
    requires Breaks(xt, yt) && |filt| == NumTiles(xt, yt) && k < |Kept(filt)|
    ensures ii < |xt| - 1 && jj < |yt| - 1 && Kept(filt)[k] == jj + ii * (|yt| - 1)
    ensures Kept(filt)[k] < NumTiles(xt, yt)
    ensures Tiles(xt, yt)[Kept(filt)[k]] == Box(Point2(xt[ii], yt[jj]), Point2(xt[ii + 1], yt[jj + 1]))
  {
    ii, jj := FlatSplit(Kept(filt)[k], |xt| - 1, |yt| - 1);
    TileIndex(xt, yt, ii, jj);
  }

  /** There is one corner per tile. */
  lemma CornerCount(xt: seq<real>, yt: seq<real>)
    requires Breaks(xt, yt)
    ensures |Corners(xt[..|xt| - 1], yt[..|yt| - 1])| == NumTiles(xt, yt)
    ensures |Corners(xt[1..], yt[1..])| == NumTiles(xt, yt)
  {
    var a, b := |xt| - 1, |yt| - 1;
    assert b * a == a * b;
  }

  /** A flat index below `a * b` splits into the x index and the y index. */
  lemma FlatSplit(t: nat, a: nat, b: nat) returns (i: nat, j: nat)
    requires t < a * b
    ensures i < a && j < b && t == j + i * b
  {
    DivBelow(t, a, b);
    i, j := t / b, t % b;
  }

  // ---------------------------------------------------------------------------
  // The refinement loop (lines 140-186)
  // ---------------------------------------------------------------------------

  /** The state after a pass with `nNx` x breaks and `nNy` y breaks over the
      extent [xlo, xhi] x [ylo, yhi]. */
  predicate PassState(locs: seq<Point2>, xlo: real, xhi: real, ylo: real, yhi: real,
                      nNx: nat, nNy: nat, xt: seq<real>, yt: seq<real>, filt: seq<bool>, nObs: int)
  {
    && Masked(locs, xlo, xhi, ylo, yhi, nNx, nNy, xt, yt, filt)
    && nObs >= 0 && nObs == MaxOf(TileCounts(locs, xt, yt))
  }

  /** The breaks of a pass and its mask of the tiles holding a location. */
  predicate Masked(locs: seq<Point2>, xlo: real, xhi: real, ylo: real, yhi: real,
                   nNx: nat, nNy: nat, xt: seq<real>, yt: seq<real>, filt: seq<bool>)
  {
    && nNx >= 2 && nNy >= 2
    && xt == Linspace(xlo, xhi, nNx) && yt == Linspace(ylo, yhi, nNy)
    && MaskUpTo(TileCounts(locs, xt, yt), filt, NumTiles(xt, yt))
  }

  /** Every location lies in the extent [xlo, xhi] x [ylo, yhi]. */
  predicate Extent(locs: seq<Point2>, xlo: real, xhi: real, ylo: real, yhi: real)
  {
    forall p :: 0 <= p < |locs| ==> xlo <= locs[p].x <= xhi && ylo <= locs[p].y <= yhi
  }

  /** `xlim` and `ylim` of lines 145-146 bound every location. */
  lemma LimitsBound(locs: seq<Point2>)
    requires |locs| > 0
    ensures Extent(locs, Min(Xs(locs)), Max(Xs(locs)), Min(Ys(locs)), Max(Ys(locs)))
  {
    var xs, ys := Xs(locs), Ys(locs);
    forall p | 0 <= p < |locs|
      ensures Min(xs) <= locs[p].x <= Max(xs) && Min(ys) <= locs[p].y <= Max(ys)
    {
      assert xs[p] == locs[p].x && ys[p] == locs[p].y;
    }
  }

  /** What the function promises of its result: matching corner lists,
      each tile a box with its south-west corner first, holding between 1
      and `maxNpoints` locations, and every location inside some tile. */
  predicate TilesSound(locs: seq<Point2>, xy1: seq<Point2>, xy2: seq<Point2>, maxNpoints: int)
  {
    && |xy1| == |xy2|
    && (forall k :: 0 <= k < |xy1| ==> xy1[k].x <= xy2[k].x && xy1[k].y <= xy2[k].y)
    && (forall k :: 0 <= k < |xy1| ==> 1 <= CountIn(locs, xy1[k], xy2[k]) <= maxNpoints)
    && (forall p :: 0 <= p < |locs| ==> exists k :: 0 <= k < |xy1| && InBox(locs[p], xy1[k], xy2[k]))
  }

  /** A pass over a non-empty set of locations finds a tile holding one. */
  lemma PassHasObs(locs: seq<Point2>, xlo: real, xhi: real, ylo: real, yhi: real,
                   nNx: nat, nNy: nat, xt: seq<real>, yt: seq<real>, filt: seq<bool>, nObs: int)
    requires |locs| > 0 && Extent(locs, xlo, xhi, ylo, yhi)
    requires PassState(locs, xlo, xhi, ylo, yhi, nNx, nNy, xt, yt, filt, nObs)
    ensures nObs >= 1
  {
    var t := Covered(locs, xlo, xhi, ylo, yhi, nNx, nNy, 0);
    MaxOfBounds(TileCounts(locs, xt, yt));
    assert TileCounts(locs, xt, yt)[t] > 0;
  }

  /** The kept tiles of the last pass, whose fullest tile holds at most
      `maxNpoints` locations, are sound. */
  lemma AssembledSound(locs: seq<Point2>, xlo: real, xhi: real, ylo: real, yhi: real,
                       nNx: nat, nNy: nat, xt: seq<real>, yt: seq<real>, filt: seq<bool>,
                       nObs: int, maxNpoints: int)
    requires |locs| > 0 && Extent(locs, xlo, xhi, ylo, yhi) && nObs <= maxNpoints
    requires PassState(locs, xlo, xhi, ylo, yhi, nNx, nNy, xt, yt, filt, nObs)
    ensures TilesSound(locs, Assemble(xt, yt, filt).0, Assemble(xt, yt, filt).1, maxNpoints)
  {
    KeptTilesSound(locs, xlo, xhi, ylo, yhi, nNx, nNy, xt, yt, filt, nObs, maxNpoints);
    LocationsKept(locs, xlo, xhi, ylo, yhi, nNx, nNy, xt, yt, filt);
  }

  /** Every kept tile has its south-west corner first and holds between 1
      and `maxNpoints` locations. */
  lemma KeptTilesSound(locs: seq<Point2>, xlo: real, xhi: real, ylo: real, yhi: real,
                       nNx: nat, nNy: nat, xt: seq<real>, yt: seq<real>, filt: seq<bool>,
                       nObs: int, maxNpoints: int)
    requires |locs| > 0 && Extent(locs, xlo, xhi, ylo, yhi) && nObs <= maxNpoints
    requires PassState(locs, xlo, xhi, ylo, yhi, nNx, nNy, xt, yt, filt, nObs)
    ensures var xy := Assemble(xt, yt, filt);
      && |xy.0| == |xy.1|
      && (forall k :: 0 <= k < |xy.0| ==> xy.0[k].x <= xy.1[k].x && xy.0[k].y <= xy.1[k].y)
      && (forall k :: 0 <= k < |xy.0| ==> 1 <= CountIn(locs, xy.0[k], xy.1[k]) <= maxNpoints)
  {
    var xy := Assemble(xt, yt, filt);
    forall k | 0 <= k < |xy.0|
      ensures xy.0[k].x <= xy.1[k].x && xy.0[k].y <= xy.1[k].y
      ensures 1 <= CountIn(locs, xy.0[k], xy.1[k]) <= maxNpoints
    {
      KeptTileSound(locs, xlo, xhi, ylo, yhi, nNx, nNy, xt, yt, filt, nObs, k);
    }
  }

  /** Every location lies in some kept tile. */
  lemma LocationsKept(locs: seq<Point2>, xlo: real, xhi: real, ylo: real, yhi: real,
                      nNx: nat, nNy: nat, xt: seq<real>, yt: seq<real>, filt: seq<bool>)
    requires Extent(locs, xlo, xhi, ylo, yhi)
    requires Masked(locs, xlo, xhi, ylo, yhi, nNx, nNy, xt, yt, filt)
    ensures var xy := Assemble(xt, yt, filt);
      forall p :: 0 <= p < |locs| ==> exists k :: 0 <= k < |xy.0| && InBox(locs[p], xy.0[k], xy.1[k])
  {
    var xy := Assemble(xt, yt, filt);
    forall p | 0 <= p < |locs|
      ensures exists k :: 0 <= k < |xy.0| && InBox(locs[p], xy.0[k], xy.1[k])
    {
      var k := LocationKept(locs, xlo, xhi, ylo, yhi, nNx, nNy, xt, yt, filt, p);
    }
  }

  /** The `k`-th kept tile has its south-west corner first and holds
      between 1 and `nObs` locations. */
  lemma KeptTileSound(locs: seq<Point2>, xlo: real, xhi: real, ylo: real, yhi: real,
                      nNx: nat, nNy: nat, xt: seq<real>, yt: seq<real>, filt: seq<bool>,
                      nObs: int, k: nat)
    requires |locs| > 0 && Extent(locs, xlo, xhi, ylo, yhi)
    requires PassState(locs, xlo, xhi, ylo, yhi, nNx, nNy, xt, yt, filt, nObs)
    requires k < |Kept(filt)|
    ensures var xy := Assemble(xt, yt, filt);
      && xy.0[k].x <= xy.1[k].x && xy.0[k].y <= xy.1[k].y
      && 1 <= CountIn(locs, xy.0[k], xy.1[k]) <= nObs
  {
    var ii, jj := KeptTile(xt, yt, filt, k);
    AssembleAt(xt, yt, filt, k);
    LinspaceStep(xlo, xhi, nNx, ii);
    LinspaceStep(ylo, yhi, nNy, jj);
    var t := Kept(filt)[k];
    MaxOfBounds(TileCounts(locs, xt, yt));
    assert TileCounts(locs, xt, yt)[t] == TileCount(locs, xt, yt, t);
  }

  /** Every location is in some kept tile. */
  lemma LocationKept(locs: seq<Point2>, xlo: real, xhi: real, ylo: real, yhi: real,
                     nNx: nat, nNy: nat, xt: seq<real>, yt: seq<real>, filt: seq<bool>,
                     p: nat) returns (k: nat)
    requires p < |locs| && Extent(locs, xlo, xhi, ylo, yhi)
    requires Masked(locs, xlo, xhi, ylo, yhi, nNx, nNy, xt, yt, filt)
    ensures k < |Assemble(xt, yt, filt).0|
    ensures InBox(locs[p], Assemble(xt, yt, filt).0[k], Assemble(xt, yt, filt).1[k])
  {
    var t := Covered(locs, xlo, xhi, ylo, yhi, nNx, nNy, p);
    assert TileCounts(locs, xt, yt)[t] > 0;
    k := KeptListsAll(filt, t);
    AssembleAt(xt, yt, filt, k);
  }

  /** Lines 158-186, the rest of a pass once the break counts are chosen:
      the breaks, the mask of the tiles holding a location, and the largest
      count of a tile, of an x strip and of a y strip. */
  method RunPass(locs: seq<Point2>, xlo: real, xhi: real, ylo: real, yhi: real, nNx: nat, nNy: nat)
    returns (xt: seq<real>, yt: seq<real>, filt: seq<bool>, countx: nat, county: nat, nObs: nat)
    requires nNx >= 2 && nNy >= 2
    ensures PassState(locs, xlo, xhi, ylo, yhi, nNx, nNy, xt, yt, filt, nObs)
    ensures countx == MaxOf(StripCountsX(locs, xt)) && county == MaxOf(StripCountsY(locs, yt))
    ensures |locs| > 0 && Extent(locs, xlo, xhi, ylo, yhi) ==> nObs >= 1
  {
    xt, yt := Linspace(xlo, xhi, nNx), Linspace(ylo, yhi, nNy);
    var mask;
    mask, countx, county, nObs := ScanTiles(locs, xt, yt);
    filt := mask[..];
    if |locs| > 0 && Extent(locs, xlo, xhi, ylo, yhi) {
      PassHasObs(locs, xlo, xhi, ylo, yhi, nNx, nNy, xt, yt, filt, nObs);
    }
  }

  // ---------------------------------------------------------------------------
  // The passes of the refinement, as functions of the locations
  // ---------------------------------------------------------------------------

  /** `xlim` and `ylim` (lines 145-146) as a box holding every location. */
  function Limits(locs: seq<Point2>): (b: Box)
    requires |locs| > 0
    ensures Extent(locs, b.lo.x, b.hi.x, b.lo.y, b.hi.y)
  {
    LimitsBound(locs);
    Box(Point2(Min(Xs(locs)), Min(Ys(locs))), Point2(Max(Xs(locs)), Max(Ys(locs))))
  }

  /** One pass of the refinement: its break counts and what it measured, the
      largest location count of an x strip (`countx`), of a y strip
      (`county`) and of a tile (`nObs`). */
  datatype Pass = Pass(nNx: nat, nNy: nat, countx: nat, county: nat, nObs: nat)

  /** `p` holds what a pass with its break counts measures over `lim`
      (lines 158-186). */
  predicate Measured(locs: seq<Point2>, lim: Box, p: Pass)
  {
    && p.nNx >= 2 && p.nNy >= 2
    && var xt, yt := Linspace(lim.lo.x, lim.hi.x, p.nNx), Linspace(lim.lo.y, lim.hi.y, p.nNy);
       && p.countx == MaxOf(StripCountsX(locs, xt)) && p.county == MaxOf(StripCountsY(locs, yt))
       && p.nObs == MaxOf(TileCounts(locs, xt, yt))
  }

  /** The break counts of the pass after `p` (lines 149-156): one more break
      along x when its fullest x strip held more locations than its fullest
      y strip, along y otherwise. */
  function NextCounts(p: Pass): (nat, nat)
  {
    if p.countx > p.county then (p.nNx + 1, p.nNy) else (p.nNx, p.nNy + 1)
  }

  /** The break counts along `trace` follow lines 149-156. Both strip maxima
      start at 0 (lines 141-142), so the first pass splits y and turns the
      initial (2, 1) into (2, 2); every later pass takes its break counts
      from its predecessor. */
  predicate Scheduled(trace: seq<Pass>)
    decreases |trace|
  {
    if |trace| <= 1 then forall i :: 0 <= i < |trace| ==> trace[i].nNx == 2 && trace[i].nNy == 2
    else
      && Scheduled(trace[..|trace| - 1])
      && (trace[|trace| - 1].nNx, trace[|trace| - 1].nNy) == NextCounts(trace[|trace| - 2])
  }

  /** Every pass of `trace` holds what it measures over `lim`. */
  predicate AllMeasured(locs: seq<Point2>, lim: Box, trace: seq<Pass>)
  {
    forall i {:trigger Measured(locs, lim, trace[i])} :: 0 <= i < |trace| ==> Measured(locs, lim, trace[i])
  }

  /** `trace` lists the first |trace| passes of the refinement over `lim`. */
  predicate Refinement(locs: seq<Point2>, lim: Box, trace: seq<Pass>)
  {
    Scheduled(trace) && AllMeasured(locs, lim, trace)
  }

  /** The loop of lines 148-186 stops after the last pass of `trace` and no
      earlier one: only that pass's fullest tile holds at most `maxNpoints`
      locations. */
  predicate StopsAt(trace: seq<Pass>, maxNpoints: int)
  {
    && |trace| >= 1 && trace[|trace| - 1].nObs <= maxNpoints
    && forall j :: 0 <= j < |trace| - 1 ==> trace[j].nObs > maxNpoints
  }

  /** A pass's measurements are fixed by its break counts. */
  lemma MeasuredUnique(locs: seq<Point2>, lim: Box, p: Pass, q: Pass)
    requires Measured(locs, lim, p) && Measured(locs, lim, q)
    requires p.nNx == q.nNx && p.nNy == q.nNy
    ensures p == q
  {
  }

  /** Every prefix of a schedule is one. */
  lemma {:induction false} ScheduledPrefix(trace: seq<Pass>, n: nat)
    requires Scheduled(trace) && n <= |trace|
    ensures Scheduled(trace[..n])
    decreases |trace| - n
  {
    if n < |trace| {
      var shorter := trace[..|trace| - 1];
      assert shorter[..n] == trace[..n];
      if |trace| > 1 {
        ScheduledPrefix(shorter, n);
      }
    } else {
      assert trace[..n] == trace;
    }
  }

  /** Two schedules of one length agree when every pass is fixed by its
      break counts. */
  lemma {:induction false} ScheduledUnique(t1: seq<Pass>, t2: seq<Pass>)
    requires Scheduled(t1) && Scheduled(t2) && |t1| == |t2|
    requires forall i :: 0 <= i < |t1| && t1[i].nNx == t2[i].nNx && t1[i].nNy == t2[i].nNy ==> t1[i] == t2[i]
    ensures t1 == t2
    decreases |t1|
  {
    if |t1| > 1 {
      var n := |t1| - 1;
      var s1, s2 := t1[..n], t2[..n];
      assert forall i :: 0 <= i < n ==> s1[i] == t1[i] && s2[i] == t2[i];
      ScheduledUnique(s1, s2);
      assert t1[n - 1] == s1[n - 1] == s2[n - 1] == t2[n - 1];
      assert t1 == s1 + [t1[n]] && t2 == s2 + [t2[n]];
    } else if |t1| == 1 {
      assert t1 == [t1[0]] && t2 == [t2[0]];
    }
  }

  /** Every prefix of a refinement is one. */
  lemma RefinementPrefix(locs: seq<Point2>, lim: Box, trace: seq<Pass>, n: nat)
    requires Refinement(locs, lim, trace) && n <= |trace|
    ensures Refinement(locs, lim, trace[..n])
  {
    ScheduledPrefix(trace, n);
    assert forall i :: 0 <= i < n ==> trace[..n][i] == trace[i];
  }

  /** There is one refinement of each length: the passes leave no choice. */
  lemma RefinementUnique(locs: seq<Point2>, lim: Box, t1: seq<Pass>, t2: seq<Pass>)
    requires Refinement(locs, lim, t1) && Refinement(locs, lim, t2) && |t1| == |t2|
    ensures t1 == t2
  {
    forall i | 0 <= i < |t1| && t1[i].nNx == t2[i].nNx && t1[i].nNy == t2[i].nNy
      ensures t1[i] == t2[i]
    {
      MeasuredUnique(locs, lim, t1[i], t2[i]);
    }
    ScheduledUnique(t1, t2);
  }

  /** The loop stops after one pass count only: two refinements that both
      stop are the same. */
  lemma StopsUnique(locs: seq<Point2>, lim: Box, maxNpoints: int, t1: seq<Pass>, t2: seq<Pass>)
    requires Refinement(locs, lim, t1) && StopsAt(t1, maxNpoints)
    requires Refinement(locs, lim, t2) && StopsAt(t2, maxNpoints)
    ensures t1 == t2
  {
    if |t1| < |t2| {
      StopsBeforeNot(locs, lim, maxNpoints, t1, t2);
    } else if |t2| < |t1| {
      StopsBeforeNot(locs, lim, maxNpoints, t2, t1);
    } else {
      RefinementUnique(locs, lim, t1, t2);
    }
  }

  /** A refinement that stops has no stopping extension. */
  lemma StopsBeforeNot(locs: seq<Point2>, lim: Box, maxNpoints: int, t1: seq<Pass>, t2: seq<Pass>)
    requires Refinement(locs, lim, t1) && StopsAt(t1, maxNpoints)
    requires Refinement(locs, lim, t2) && |t1| < |t2|
    ensures !StopsAt(t2, maxNpoints)
  {
    var n := |t1|;
    RefinementPrefix(locs, lim, t2, n);
    RefinementUnique(locs, lim, t1, t2[..n]);
    assert t2[n - 1] == t2[..n][n - 1];
  }

  /** A refinement extended by the pass its last pass calls for. */
  lemma RefinementStep(locs: seq<Point2>, lim: Box, trace: seq<Pass>, p: Pass)
    requires Refinement(locs, lim, trace) && Measured(locs, lim, p)
    requires |trace| == 0 ==> p.nNx == 2 && p.nNy == 2
    requires |trace| >= 1 ==> (p.nNx, p.nNy) == NextCounts(trace[|trace| - 1])
    ensures Refinement(locs, lim, trace + [p])
  {
    var t := trace + [p];
    assert t[..|trace|] == trace;
    assert forall i :: 0 <= i < |trace| ==> t[i] == trace[i];
  }

  /** `filt` after a whole pass: set exactly at the tiles holding a location. */
  function Mask(counts: seq<nat>): (filt: seq<bool>)
    ensures MaskUpTo(counts, filt, |counts|)
  {
    seq(|counts|, t requires 0 <= t < |counts| => counts[t] > 0)
  }

  /** The loops of a pass leave no choice for the mask. */
  lemma MaskUnique(counts: seq<nat>, filt: seq<bool>)
    requires MaskUpTo(counts, filt, |counts|)
    ensures filt == Mask(counts)
  {
  }

  /** The corner lists that lines 188-194 build from pass `p`. */
  function PassTiles(locs: seq<Point2>, lim: Box, p: Pass): (seq<Point2>, seq<Point2>)
    requires Measured(locs, lim, p)
  {
    var xt, yt := Linspace(lim.lo.x, lim.hi.x, p.nNx), Linspace(lim.lo.y, lim.hi.y, p.nNy);
    Assemble(xt, yt, Mask(TileCounts(locs, xt, yt)))
  }

  /** The corner lists of the pass a refinement stops after are sound:
      every tile is a box holding between 1 and `maxNpoints` locations, and
      every location lies in some tile. */
  lemma StoppedTilesSound(locs: seq<Point2>, maxNpoints: int, trace: seq<Pass>)
    requires |locs| > 0 && Refinement(locs, Limits(locs), trace) && StopsAt(trace, maxNpoints)
    ensures var tiles := PassTiles(locs, Limits(locs), trace[|trace| - 1]);
      TilesSound(locs, tiles.0, tiles.1, maxNpoints)
  {
    var lim, p := Limits(locs), trace[|trace| - 1];
    assert Measured(locs, lim, trace[|trace| - 1]);
    var xt, yt := Linspace(lim.lo.x, lim.hi.x, p.nNx), Linspace(lim.lo.y, lim.hi.y, p.nNy);
    AssembledSound(locs, lim.lo.x, lim.hi.x, lim.lo.y, lim.hi.y, p.nNx, p.nNy, xt, yt,
                   Mask(TileCounts(locs, xt, yt)), p.nObs, maxNpoints);
  }

  /** The state a pass leaves is the pass it measured. */
  lemma PassMeasured(locs: seq<Point2>, lim: Box, nNx: nat, nNy: nat, xt: seq<real>, yt: seq<real>,
                     filt: seq<bool>, countx: nat, county: nat, nObs: nat)
    requires PassState(locs, lim.lo.x, lim.hi.x, lim.lo.y, lim.hi.y, nNx, nNy, xt, yt, filt, nObs)
    requires countx == MaxOf(StripCountsX(locs, xt)) && county == MaxOf(StripCountsY(locs, yt))
    ensures Measured(locs, lim, Pass(nNx, nNy, countx, county, nObs))
  {
  }

  /** The corner lists assembled from the state a pass leaves are that
      pass's. */
  lemma PassTilesOf(locs: seq<Point2>, lim: Box, p: Pass, xt: seq<real>, yt: seq<real>, filt: seq<bool>)
    requires PassState(locs, lim.lo.x, lim.hi.x, lim.lo.y, lim.hi.y, p.nNx, p.nNy, xt, yt, filt, p.nObs)
    requires p.countx == MaxOf(StripCountsX(locs, xt)) && p.county == MaxOf(StripCountsY(locs, yt))
    ensures |filt| == NumTiles(xt, yt) && Assemble(xt, yt, filt) == PassTiles(locs, lim, p)
  {
    MaskUnique(TileCounts(locs, xt, yt), filt);
  }

  /** A trace whose last pass is the first at or below `maxNpoints` stops. */
  lemma StopsHere(trace: seq<Pass>, maxNpoints: int)
    requires |trace| >= 1 && trace[|trace| - 1].nObs <= maxNpoints
    requires forall j :: 0 <= j < |trace| - 1 ==> trace[j].nObs > maxNpoints
    ensures StopsAt(trace, maxNpoints)
  {
  }

  /** Appending a pass run because the last one's fullest tile was above
      `maxNpoints` keeps every pass but the new last one above it. */
  lemma AboveStep(trace: seq<Pass>, p: Pass, maxNpoints: int)
    requires forall j :: 0 <= j < |trace| - 1 ==> trace[j].nObs > maxNpoints
    requires |trace| >= 1 ==> trace[|trace| - 1].nObs > maxNpoints
    ensures forall j :: 0 <= j < |trace| ==> (trace + [p])[j].nObs > maxNpoints
  {
  }

  /** The break counts and maxima of the loop of lines 148-186 over `lim`
      after `passes` passes, `trace` being those passes: before the first,
      the initial break counts, strip maxima and `nObs` = 1e8 (lines
      140-143); after one, that pass's; every pass but the last above
      `maxNpoints`. */
  ghost predicate Refining(locs: seq<Point2>, lim: Box, maxNpoints: int, passes: nat,
                           nNx: nat, nNy: nat, countx: nat, county: nat, nObs: nat, trace: seq<Pass>)
  {
    match passes
    case 0 =>
      trace == [] && nObs == 100000000 && nNy == 1 && nNx == 2 && countx == 0 && county == 0
    case _ =>
      && |trace| == passes && Refinement(locs, lim, trace)
      && nNx >= 2 && nNy >= 2 && nObs >= 1 && trace[passes - 1] == Pass(nNx, nNy, countx, county, nObs)
      && forall j :: 0 <= j < passes - 1 ==> trace[j].nObs > maxNpoints
  }

  /** The breaks, mask and maxima a pass with `nNx` x breaks and `nNy` y
      breaks leaves over `lim`. */
  predicate Ran(locs: seq<Point2>, lim: Box, nNx: nat, nNy: nat, xt: seq<real>, yt: seq<real>, filt: seq<bool>,
                countx: nat, county: nat, nObs: nat)
  {
    && PassState(locs, lim.lo.x, lim.hi.x, lim.lo.y, lim.hi.y, nNx, nNy, xt, yt, filt, nObs)
    && countx == MaxOf(StripCountsX(locs, xt)) && county == MaxOf(StripCountsY(locs, yt))
  }

  /** One trip through the loop body (lines 149-186), taken while the
      fullest tile holds more than `maxNpoints` locations: add a break along
      the axis whose fullest strip held more locations, then run the pass. */
  method Advance(locs: seq<Point2>, lim: Box, maxNpoints: int, passes: nat,
                 nNx0: nat, nNy0: nat, countx0: nat, county0: nat, nObs0: nat, ghost trace0: seq<Pass>)
    returns (nNx: nat, nNy: nat, xt: seq<real>, yt: seq<real>, filt: seq<bool>, countx: nat, county: nat, nObs: nat,
             ghost trace: seq<Pass>)
    requires |locs| > 0 && Extent(locs, lim.lo.x, lim.hi.x, lim.lo.y, lim.hi.y) && nObs0 > maxNpoints
    requires Refining(locs, lim, maxNpoints, passes, nNx0, nNy0, countx0, county0, nObs0, trace0)
    ensures Refining(locs, lim, maxNpoints, passes + 1, nNx, nNy, countx, county, nObs, trace)
    ensures Ran(locs, lim, nNx, nNy, xt, yt, filt, countx, county, nObs)
  {
    nNx, nNy := nNx0, nNy0;
    if countx0 > county0 {
      nNx := nNx + 1;
    } else {
      nNy := nNy + 1;
    }
    xt, yt, filt, countx, county, nObs := RunPass(locs, lim.lo.x, lim.hi.x, lim.lo.y, lim.hi.y, nNx, nNy);
    PassMeasured(locs, lim, nNx, nNy, xt, yt, filt, countx, county, nObs);
    trace := trace0 + [Pass(nNx, nNy, countx, county, nObs)];
    RefiningStep(locs, lim, maxNpoints, passes, nNx0, nNy0, countx0, county0, nObs0, trace0,
                 Pass(nNx, nNy, countx, county, nObs));
  }

  /** A measured pass run from a loop state above `maxNpoints`, with the
      break counts of lines 149-156, extends the loop state by that pass. */
  lemma RefiningStep(locs: seq<Point2>, lim: Box, maxNpoints: int, passes: nat,
                     nNx0: nat, nNy0: nat, countx0: nat, county0: nat, nObs0: nat, trace0: seq<Pass>, p: Pass)
    requires Refining(locs, lim, maxNpoints, passes, nNx0, nNy0, countx0, county0, nObs0, trace0)
    requires nObs0 > maxNpoints && Measured(locs, lim, p) && p.nObs >= 1
    requires (p.nNx, p.nNy) == (if countx0 > county0 then (nNx0 + 1, nNy0) else (nNx0, nNy0 + 1))
    ensures Refining(locs, lim, maxNpoints, passes + 1, p.nNx, p.nNy, p.countx, p.county, p.nObs, trace0 + [p])
  {
    if passes == 0 {
      RefinementStep(locs, lim, [], p);
      assert trace0 + [p] == [p];
    } else {
      assert trace0[passes - 1] == Pass(nNx0, nNy0, countx0, county0, nObs0);
      RefinementStep(locs, lim, trace0, p);
      AboveStep(trace0, p, maxNpoints);
    }
  }

  /** The loop state once the fullest tile holds at most `maxNpoints`
      locations: the refinement has stopped, at the last pass. */
  lemma RefiningStops(locs: seq<Point2>, lim: Box, maxNpoints: int, passes: nat,
                      nNx: nat, nNy: nat, countx: nat, county: nat, nObs: nat, trace: seq<Pass>)
    requires Refining(locs, lim, maxNpoints, passes, nNx, nNy, countx, county, nObs, trace)
    requires nObs <= maxNpoints < 100000000
    ensures passes >= 1 && |trace| == passes && Refinement(locs, lim, trace)
    ensures StopsAt(trace, maxNpoints) && trace[|trace| - 1] == Pass(nNx, nNy, countx, county, nObs)
    ensures 1 <= nObs <= maxNpoints
  {
    StopsHere(trace, maxNpoints);
  }

  /** The loop state while the fullest tile still holds more than
      `maxNpoints` locations: every pass run so far was above it. */
  lemma RefiningAbove(locs: seq<Point2>, lim: Box, maxNpoints: int, passes: nat,
                      nNx: nat, nNy: nat, countx: nat, county: nat, nObs: nat, trace: seq<Pass>)
    requires Refining(locs, lim, maxNpoints, passes, nNx, nNy, countx, county, nObs, trace)
    requires nObs > maxNpoints
    ensures |trace| == passes && Refinement(locs, lim, trace)
    ensures forall j :: 0 <= j < passes ==> trace[j].nObs > maxNpoints
  {
  }

  /** The refinement loop of lines 148-186 over `lim`, with at most `fuel`
      passes; `trace` is the passes run. It `settled` when the last pass's
      fullest tile holds at most `maxNpoints` locations, and then the state
      is that pass's; otherwise the fuel ran out with every pass above. */
  method Refine(locs: seq<Point2>, lim: Box, maxNpoints: int, fuel: nat)
    returns (settled: bool, nNx: nat, nNy: nat, xt: seq<real>, yt: seq<real>, filt: seq<bool>,
             countx: nat, county: nat, nObs: nat, ghost trace: seq<Pass>)
    requires |locs| > 0 && Extent(locs, lim.lo.x, lim.hi.x, lim.lo.y, lim.hi.y) && maxNpoints < 100000000
    ensures Refinement(locs, lim, trace) && |trace| <= fuel
    ensures settled ==> (StopsAt(trace, maxNpoints) && trace[|trace| - 1] == Pass(nNx, nNy, countx, county, nObs)
                         && 1 <= nObs <= maxNpoints
                         && PassState(locs, lim.lo.x, lim.hi.x, lim.lo.y, lim.hi.y, nNx, nNy, xt, yt, filt, nObs)
                         && countx == MaxOf(StripCountsX(locs, xt)) && county == MaxOf(StripCountsY(locs, yt)))
    ensures !settled ==> |trace| == fuel && forall j :: 0 <= j < fuel ==> trace[j].nObs > maxNpoints
  {
    nNx, nNy := 2, 1;
    nObs := 100000000;
    countx, county := 0, 0;
    xt, yt, filt := [], [], [];
    trace := [];
    var passes := 0;
    // The two predicates are compared with `true` so that each is checked as
    // one fact rather than split into the many conjuncts of its definition.
    while nObs > maxNpoints
      invariant passes <= fuel
      invariant Refining(locs, lim, maxNpoints, passes, nNx, nNy, countx, county, nObs, trace) == true
      invariant passes >= 1 ==> Ran(locs, lim, nNx, nNy, xt, yt, filt, countx, county, nObs) == true
      decreases fuel - passes
    {
      if passes == fuel {
        RefiningAbove(locs, lim, maxNpoints, passes, nNx, nNy, countx, county, nObs, trace);
        return false, nNx, nNy, xt, yt, filt, countx, county, nObs, trace;
      }
      nNx, nNy, xt, yt, filt, countx, county, nObs, trace :=
        Advance(locs, lim, maxNpoints, passes, nNx, nNy, countx, county, nObs, trace);
      passes := passes + 1;
    }
    RefiningStops(locs, lim, maxNpoints, passes, nNx, nNy, countx, county, nObs, trace);
    settled := true;
  }

  /** `tiles` are the corner lists of the pass the refinement `trace` of the
      locations' own limits stops after, within `fuel` passes. */
  predicate Settled(locs: seq<Point2>, maxNpoints: int, fuel: nat, trace: seq<Pass>, tiles: (seq<Point2>, seq<Point2>))
    requires |locs| > 0
  {
    && |trace| <= fuel && Refinement(locs, Limits(locs), trace) && StopsAt(trace, maxNpoints)
    && tiles == PassTiles(locs, Limits(locs), trace[|trace| - 1])
  }

  /** The state `Refine` leaves when it settles gives the corner lists of the
      pass it stopped after. */
  lemma SettledOutcome(locs: seq<Point2>, maxNpoints: int, fuel: nat, trace: seq<Pass>, nNx: nat, nNy: nat,
                       xt: seq<real>, yt: seq<real>, filt: seq<bool>, countx: nat, county: nat, nObs: nat)
    requires |locs| > 0 && |trace| <= fuel && Refinement(locs, Limits(locs), trace) && StopsAt(trace, maxNpoints)
    requires trace[|trace| - 1] == Pass(nNx, nNy, countx, county, nObs)
    requires PassState(locs, Limits(locs).lo.x, Limits(locs).hi.x, Limits(locs).lo.y, Limits(locs).hi.y, nNx, nNy, xt, yt, filt, nObs)
    ensures |filt| == NumTiles(xt, yt) && Settled(locs, maxNpoints, fuel, trace, Assemble(xt, yt, filt))
  {
    assert Measured(locs, Limits(locs), trace[|trace| - 1]);
    PassTilesOf(locs, Limits(locs), Pass(nNx, nNy, countx, county, nObs), xt, yt, filt);
  }

  /** Lines 126-196, with at most `fuel` passes of the refinement loop.
      `trace` is the passes run. On success they form the refinement of the
      locations' own limits that stops, so the result is the corner lists of
      the first pass whose fullest tile holds at most `maxNpoints`
      locations, and those tiles are sound. */
  method TileSurveyPoints(locs: seq<Point2>, maxNpoints: int, fuel: nat)
    returns (r: Result<(seq<Point2>, seq<Point2>), TileError>, ghost trace: seq<Pass>)
    ensures |locs| == 0 ==> r == Err(EmptyLocations)
    ensures |locs| > 0 && maxNpoints >= 100000000 ==> r == Err(TilesUnbound)
    ensures |locs| > 0 && maxNpoints < 1 ==> r == Err(OutOfFuel)
    ensures r.Ok? ==> |locs| > 0 && Settled(locs, maxNpoints, fuel, trace, r.value)
    ensures r == Err(OutOfFuel) ==> (|locs| > 0 && |trace| == fuel && Refinement(locs, Limits(locs), trace)
                                     && forall j :: 0 <= j < fuel ==> trace[j].nObs > maxNpoints)
    ensures r.Ok? ==> TilesSound(locs, r.value.0, r.value.1, maxNpoints)
  {
    trace := [];
    if |locs| == 0 {
      return Err(EmptyLocations), trace;
    }
    var lim := Limits(locs);
    if maxNpoints >= 100000000 {
      // `nObs` starts at 1e8, the loop body never runs and `xtiles` is
      // unbound at line 188
      return Err(TilesUnbound), trace;
    }
    var settled, nNx, nNy, xt, yt, filt, countx, county, nObs;
    settled, nNx, nNy, xt, yt, filt, countx, county, nObs, trace := Refine(locs, lim, maxNpoints, fuel);
    if !settled {
      return Err(OutOfFuel), trace;
    }
    SettledOutcome(locs, maxNpoints, fuel, trace, nNx, nNy, xt, yt, filt, countx, county, nObs);
    AssembledSound(locs, lim.lo.x, lim.hi.x, lim.lo.y, lim.hi.y, nNx, nNy, xt, yt, filt, nObs, maxNpoints);
    r := Ok(Assemble(xt, yt, filt));
  }

  /** Every location lies in some tile of a pass over its own extent. */
  lemma Covered(locs: seq<Point2>, xlo: real, xhi: real, ylo: real, yhi: real,
                nNx: nat, nNy: nat, p: nat) returns (t: nat)
    requires p < |locs| && nNx >= 2 && nNy >= 2
    requires xlo <= locs[p].x <= xhi && ylo <= locs[p].y <= yhi
    ensures var xt, yt := Linspace(xlo, xhi, nNx), Linspace(ylo, yhi, nNy);
      t < NumTiles(xt, yt) && InBox(locs[p], Tiles(xt, yt)[t].lo, Tiles(xt, yt)[t].hi)
      && TileCount(locs, xt, yt, t) > 0
  {
    var xt, yt := Linspace(xlo, xhi, nNx), Linspace(ylo, yhi, nNy);
    var ii := LinspaceBrackets(xlo, xhi, nNx, locs[p].x);
    var jj := LinspaceBrackets(ylo, yhi, nNy, locs[p].y);
    TileIndex(xt, yt, ii, jj);
    t := jj + ii * (nNy - 1);
    CountInPositive(locs, Tiles(xt, yt)[t].lo, Tiles(xt, yt)[t].hi);
  }
}
