/** Shared vocabulary of the model of SimPEG's model utilities: error-carrying
    results, sums and maxima of sequences, numpy's `linspace`, Python's `int()`
    on a float, and the column-major ("Fortran order") flattening that
    `mkvc` performs, with the index arithmetic it rests on. */
module Common {

  /** The outcome of a Python call that may raise. */
  datatype Result<T, E> = Ok(value: T) | Err(error: E)

  datatype Option<T> = None | Some(value: T)

  // ---------------------------------------------------------------------------
  // Integer index arithmetic (Dafny's / and % on non-negative operands)
  // ---------------------------------------------------------------------------

  /** Splitting `q * n + r` by `n` gives back `q` and `r`. */
  lemma DivModOf(q: int, r: int, n: int)
    requires n > 0 && q >= 0 && 0 <= r < n
    ensures (q * n + r) / n == q && (q * n + r) % n == r
  {
    var t := q * n + r;
    var d, m := t / n, t % n;
    assert t == n * d + m && 0 <= m < n;
    if d > q {
      assert n * (d - q) >= n by { MulAtLeast(d - q, n); }
      assert false;
    } else if d < q {
      assert n * (q - d) >= n by { MulAtLeast(q - d, n); }
      assert false;
    }
  }

  /** A positive multiple of `n` is at least `n`. */
  lemma MulAtLeast(k: int, n: int)
    requires k >= 1 && n > 0
    ensures n * k >= n
  {
  }

  /** Every index below `a * b` has a quotient by `b` below `a`. */
  lemma DivBelow(t: int, a: int, b: int)
    requires 0 <= t < a * b && b > 0
    ensures 0 <= t / b < a && 0 <= t % b < b
  {
    var d := t / b;
    if d >= a {
      assert b * d >= b * a by { MulMono(a, d, b); }
      assert false;
    }
  }

  lemma MulMono(x: int, y: int, n: int)
    requires x <= y && n >= 0
    ensures n * x <= n * y
  {
  }

  lemma MulComm(x: int, y: int)
    ensures x * y == y * x
  {
  }

  /** The largest flat index of an `a`-by-`b` array stays below `a * b`. */
  lemma FlatIndexBelow(i: int, j: int, a: int, b: int)
    requires 0 <= i < a && 0 <= j < b
    ensures 0 <= i + j * a < a * b
  {
    assert j * a <= (b - 1) * a by { MulMono(j, b - 1, a); }
  }

  // ---------------------------------------------------------------------------
  // Column-major flattening, numpy's `mkvc` (`x.flatten(order='F')`)
  // ---------------------------------------------------------------------------

  /** `a` is a `rows`-by-`cols` array stored as a sequence of rows. */
  predicate IsMatrix<T>(a: seq<seq<T>>, rows: nat, cols: nat)
  {
    |a| == rows && forall i :: 0 <= i < rows ==> |a[i]| == cols
  }

  /** `a` is a `d0`-by-`d1`-by-`d2` array. */
  predicate IsCube<T>(a: seq<seq<seq<T>>>, d0: nat, d1: nat, d2: nat)
  {
    |a| == d0 && forall i :: 0 <= i < d0 ==> IsMatrix(a[i], d1, d2)
  }

  /** `mkvc` of a 2-D array: the first index varies fastest. */
  function Mkvc2<T>(a: seq<seq<T>>, rows: nat, cols: nat): (r: seq<T>)
    requires IsMatrix(a, rows, cols)
    ensures |r| == rows * cols
  {
    if rows == 0 then []
    else
      seq(rows * cols, t requires 0 <= t < rows * cols =>
        DivBelow(t, cols, rows);
        a[t % rows][t / rows])
  }

  /** Entry `(i, j)` of a 2-D array lands at position `i + j * rows` of its `mkvc`. */
  lemma Mkvc2At<T>(a: seq<seq<T>>, rows: nat, cols: nat, i: nat, j: nat)
    requires IsMatrix(a, rows, cols) && i < rows && j < cols
    ensures i + j * rows < rows * cols
    ensures Mkvc2(a, rows, cols)[i + j * rows] == a[i][j]
  {
    FlatIndexBelow(i, j, rows, cols);
    DivModOf(j, i, rows);
  }

  /** `reshape((rows, cols), order='F')` of a flat vector: entry `(i, j)` is
      position `i + j * rows`. */
  function ReshapeF<T>(flat: seq<T>, rows: nat, cols: nat): (m: seq<seq<T>>)
    requires |flat| == rows * cols
    ensures IsMatrix(m, rows, cols)
  {
    seq(rows, i requires 0 <= i < rows =>
      seq(cols, j requires 0 <= j < cols =>
        FlatIndexBelow(i, j, rows, cols);
        flat[i + j * rows]))
  }

  /** Entry `(i, j)` of the Fortran-order reshape is position `i + j * rows`. */
  lemma ReshapeFAt<T>(flat: seq<T>, rows: nat, cols: nat, i: nat, j: nat)
    requires |flat| == rows * cols && i < rows && j < cols
    ensures i + j * rows < |flat| && ReshapeF(flat, rows, cols)[i][j] == flat[i + j * rows]
  {
    FlatIndexBelow(i, j, rows, cols);
  }

  /** Flattening a Fortran-order reshape gives back the vector. */
  lemma Mkvc2OfReshapeF<T>(flat: seq<T>, rows: nat, cols: nat)
    requires |flat| == rows * cols
    ensures Mkvc2(ReshapeF(flat, rows, cols), rows, cols) == flat
  {
    var m := ReshapeF(flat, rows, cols);
    var r := Mkvc2(m, rows, cols);
    forall t | 0 <= t < |flat|
      ensures r[t] == flat[t]
    {
      DivBelow(t, cols, rows);
      var i, j := t % rows, t / rows;
      ReshapeFAt(flat, rows, cols, i, j);
      assert t == i + j * rows;
    }
  }

  /** `mkvc` of a 3-D array: the first index varies fastest, the last slowest. */
  function Mkvc3<T>(a: seq<seq<seq<T>>>, d0: nat, d1: nat, d2: nat): (r: seq<T>)
    requires IsCube(a, d0, d1, d2)
    ensures |r| == d0 * d1 * d2
  {
    if d0 == 0 || d1 == 0 then []
    else
      seq(d0 * d1 * d2, t requires 0 <= t < d0 * d1 * d2 =>
        assert d0 * d1 * d2 == d0 * (d1 * d2);
        DivBelow(t, d1 * d2, d0);
        DivBelow(t / d0, d2, d1);
        a[t % d0][(t / d0) % d1][(t / d0) / d1])
  }

  /** Entry `(i, j, k)` lands at position `i + j * d0 + k * d0 * d1` of the `mkvc`. */
  lemma Mkvc3At<T>(a: seq<seq<seq<T>>>, d0: nat, d1: nat, d2: nat, i: nat, j: nat, k: nat, t: nat)
    requires IsCube(a, d0, d1, d2) && i < d0 && j < d1 && k < d2
    requires t == i + j * d0 + k * (d0 * d1)
    ensures t < |Mkvc3(a, d0, d1, d2)| && Mkvc3(a, d0, d1, d2)[t] == a[i][j][k]
  {
    FlatIndex3(i, j, k, d0, d1, d2);
    var r := Mkvc3(a, d0, d1, d2);
    assert r[t] == a[t % d0][(t / d0) % d1][(t / d0) / d1];
  }

  /** The flat position of `(i, j, k)` in a `d0`-by-`d1`-by-`d2` array, and
      how it splits back into its three indices. */
  lemma FlatIndex3(i: nat, j: nat, k: nat, d0: nat, d1: nat, d2: nat)
    requires i < d0 && j < d1 && k < d2
    ensures i + j * d0 + k * (d0 * d1) == (j + k * d1) * d0 + i
    ensures i + j * d0 + k * (d0 * d1) < d0 * d1 * d2
    ensures (i + j * d0 + k * (d0 * d1)) % d0 == i
    ensures (i + j * d0 + k * (d0 * d1)) / d0 % d1 == j
    ensures (i + j * d0 + k * (d0 * d1)) / d0 / d1 == k
  {
    var q := j + k * d1;
    assert k * (d0 * d1) == (k * d1) * d0;
    assert i + j * d0 + k * (d0 * d1) == q * d0 + i;
    FlatIndexBelow(j, k, d1, d2);
    FlatIndexBelow(i, q, d0, d1 * d2);
    assert d0 * (d1 * d2) == d0 * d1 * d2;
    DivModOf(q, i, d0);
    DivModOf(k, j, d1);
  }

  // ---------------------------------------------------------------------------
  // Sums and maxima
  // ---------------------------------------------------------------------------

  /** `np.ones(n) * v`: `n` copies of `v`. */
  function Repeat<T>(v: T, n: nat): (r: seq<T>)
    ensures |r| == n
  {
    seq(n, _ => v)
  }

  /** `np.sum` of a vector. */
  function Sum(s: seq<real>): real
  {
    if |s| == 0 then 0.0 else s[0] + Sum(s[1..])
  }

  lemma {:induction false} SumConcat(a: seq<real>, b: seq<real>)
    ensures Sum(a + b) == Sum(a) + Sum(b)
  {
    if |a| == 0 {
      assert a + b == b;
    } else {
      assert (a + b)[0] == a[0];
      assert (a + b)[1..] == a[1..] + b;
      SumConcat(a[1..], b);
    }
  }

  /** `c * s`, elementwise. */
  function Scale(c: real, s: seq<real>): (r: seq<real>)
    ensures |r| == |s|
  {
    seq(|s|, j requires 0 <= j < |s| => c * s[j])
  }

  /** Summing a scaled vector scales the sum. */
  lemma {:induction false} SumScale(c: real, s: seq<real>)
    ensures Sum(Scale(c, s)) == c * Sum(s)
  {
    if |s| > 0 {
      var t, u := Scale(c, s), Scale(c, s[1..]);
      forall j | 0 <= j < |u|
        ensures t[1..][j] == u[j]
      {
        assert t[1..][j] == t[j + 1] == c * s[j + 1];
      }
      assert t[1..] == u;
      SumScale(c, s[1..]);
    }
  }

  /** A vector of zeros sums to zero. */
  lemma {:induction false} SumZeros(s: seq<real>)
    requires forall j :: 0 <= j < |s| ==> s[j] == 0.0
    ensures Sum(s) == 0.0
  {
    if |s| > 0 {
      SumZeros(s[1..]);
    }
  }

  /** The largest of a list of counts, 0 for none (numpy's running
      `np.max([x, acc])` started at 0). */
  function MaxOf(s: seq<nat>): nat
  {
    if |s| == 0 then 0
    else
      var p := MaxOf(s[..|s| - 1]);
      if s[|s| - 1] > p then s[|s| - 1] else p
  }

  /** `MaxOf` bounds every entry and is one of them (0 for none). */
  lemma {:induction false} MaxOfBounds(s: seq<nat>)
    ensures forall j :: 0 <= j < |s| ==> s[j] <= MaxOf(s)
    ensures |s| > 0 ==> exists j :: 0 <= j < |s| && s[j] == MaxOf(s)
    ensures |s| == 0 ==> MaxOf(s) == 0
  {
    if |s| > 0 {
      var init := s[..|s| - 1];
      MaxOfBounds(init);
      assert forall j :: 0 <= j < |s| - 1 ==> s[j] == init[j];
      if |init| > 0 {
        var u :| 0 <= u < |init| && init[u] == MaxOf(init);
        assert s[u] == MaxOf(init);
      }
    }
  }

  /** `.min()` of a non-empty vector. */
  function Min(s: seq<real>): (r: real)
    requires |s| > 0
    ensures r in s && forall j :: 0 <= j < |s| ==> r <= s[j]
  {
    if |s| == 1 then s[0]
    else
      var m := Min(s[1..]);
      assert forall j :: 1 <= j < |s| ==> s[j] == s[1..][j - 1];
      if s[0] <= m then s[0] else m
  }

  /** `.max()` of a non-empty vector. */
  function Max(s: seq<real>): (r: real)
    requires |s| > 0
    ensures r in s && forall j :: 0 <= j < |s| ==> s[j] <= r
  {
    if |s| == 1 then s[0]
    else
      var m := Max(s[1..]);
      assert forall j :: 1 <= j < |s| ==> s[j] == s[1..][j - 1];
      if s[0] >= m then s[0] else m
  }

  /** Python's `int(x)` of a float: truncation toward zero. */
  function Trunc(x: real): (n: int)
    ensures x >= 0.0 ==> n as real <= x < n as real + 1.0
    ensures x < 0.0 ==> n as real - 1.0 < x <= n as real
  {
    if x >= 0.0 then x.Floor else -((-x).Floor)
  }

  // ---------------------------------------------------------------------------
  // numpy's linspace
  // ---------------------------------------------------------------------------

  /** `np.linspace(a, b, n)`: `n` equally spaced values from `a` to `b`
      inclusive; a single value is `a`. */
  function Linspace(a: real, b: real, n: nat): (r: seq<real>)
    ensures |r| == n
  {
    if n == 0 then []
    else if n == 1 then [a]
    else seq(n, k requires 0 <= k < n => a + (k as real) * (b - a) / ((n - 1) as real))
  }

  /** With at least two values, linspace starts at `a`, ends at `b`, and
      climbs by a fixed step when `a <= b`. */
  lemma LinspaceShape(a: real, b: real, n: nat)
    requires n >= 2 && a <= b
    ensures Linspace(a, b, n)[0] == a && Linspace(a, b, n)[n - 1] == b
    ensures forall k :: 0 <= k < n - 1 ==> Linspace(a, b, n)[k] <= Linspace(a, b, n)[k + 1]
    ensures forall k :: 0 <= k < n ==> a <= Linspace(a, b, n)[k] <= b
  {
    LinspaceEnds(a, b, n);
    forall k | 0 <= k < n
      ensures a <= Linspace(a, b, n)[k] <= b
    {
      LinspaceWithin(a, b, n, k);
    }
    forall k | 0 <= k < n - 1
      ensures Linspace(a, b, n)[k] <= Linspace(a, b, n)[k + 1]
    {
      LinspaceStep(a, b, n, k);
    }
  }

  lemma LinspaceEnds(a: real, b: real, n: nat)
    requires n >= 2
    ensures Linspace(a, b, n)[0] == a && Linspace(a, b, n)[n - 1] == b
  {
    var step := (b - a) / ((n - 1) as real);
    LinspaceAt(a, b, n, 0);
    LinspaceAt(a, b, n, n - 1);
    assert ((n - 1) as real) * step == b - a;
  }

  lemma LinspaceWithin(a: real, b: real, n: nat, k: nat)
    requires n >= 2 && a <= b && k < n
    ensures a <= Linspace(a, b, n)[k] <= b
  {
    var step := (b - a) / ((n - 1) as real);
    assert step >= 0.0;
    assert ((n - 1) as real) * step == b - a;
    LinspaceAt(a, b, n, k);
    RealMulMono(k as real, (n - 1) as real, step);
    RealMulMono(0.0, k as real, step);
  }

  lemma LinspaceStep(a: real, b: real, n: nat, k: nat)
    requires n >= 2 && a <= b && k < n - 1
    ensures Linspace(a, b, n)[k] <= Linspace(a, b, n)[k + 1]
  {
    var step := (b - a) / ((n - 1) as real);
    assert step >= 0.0;
    LinspaceAt(a, b, n, k);
    LinspaceAt(a, b, n, k + 1);
    assert ((k + 1) as real) * step == (k as real) * step + step;
  }



  /** Every value between the ends of a linspace of at least two values lies
      between two consecutive entries. */
  lemma LinspaceBrackets(a: real, b: real, n: nat, v: real) returns (k: nat)
    requires n >= 2 && a <= v <= b
    ensures k < n - 1 && Linspace(a, b, n)[k] <= v <= Linspace(a, b, n)[k + 1]
  {
    if a == b {
      LinspaceEnds(a, b, n);
      LinspaceAt(a, b, n, 1);
      k := 0;
    } else {
      k := BracketIndex(a, b, n, v);
    }
  }


  /** Over a strictly increasing linspace, `v` lies in the step that the
      floor of `(v - a) / step` names, or in the last one when `v == b`. */
  lemma BracketIndex(a: real, b: real, n: nat, v: real) returns (k: nat)
    requires n >= 2 && a < b && a <= v <= b
    ensures k < n - 1 && Linspace(a, b, n)[k] <= v <= Linspace(a, b, n)[k + 1]
  {
    var step := (b - a) / ((n - 1) as real);
    var q := ((v - a) / step).Floor;
    StepBracket(a, v, step);
    if q >= n - 1 {
      k := n - 2;
      LastStepBrackets(a, b, n, v, q);
    } else {
      k := q;
      InnerStepBrackets(a, b, n, v, k);
    }
  }

  /** When fewer than `n - 1` whole steps fit below `v`, `v` lies in step `k`. */
  lemma InnerStepBrackets(a: real, b: real, n: nat, v: real, k: nat)
    requires n >= 2 && k < n - 1
    requires a + (k as real) * ((b - a) / ((n - 1) as real)) <= v
    requires v < a + ((k + 1) as real) * ((b - a) / ((n - 1) as real))
    ensures Linspace(a, b, n)[k] <= v <= Linspace(a, b, n)[k + 1]
  {
    LinspaceAt(a, b, n, k);
    LinspaceAt(a, b, n, k + 1);
  }

  /** When `q >= n - 1` whole steps fit below `v`, `v` lies in the last step. */
  lemma LastStepBrackets(a: real, b: real, n: nat, v: real, q: int)
    requires n >= 2 && a < b && v <= b && q >= n - 1
    requires a + (q as real) * ((b - a) / ((n - 1) as real)) <= v
    ensures Linspace(a, b, n)[n - 2] <= v <= Linspace(a, b, n)[n - 1]
  {
    var step := (b - a) / ((n - 1) as real);
    LinspaceAt(a, b, n, n - 2);
    LinspaceEnds(a, b, n);
    RealMulMono((n - 2) as real, q as real, step);
  }

  /** Entry `k` of a linspace is `a` plus `k` steps. */
  lemma LinspaceAt(a: real, b: real, n: nat, k: nat)
    requires n >= 2 && k < n
    ensures Linspace(a, b, n)[k] == a + (k as real) * ((b - a) / ((n - 1) as real))
  {
  }

  /** The floor of `(v - a) / step` counts the whole steps from `a` to `v`. */
  lemma StepBracket(a: real, v: real, step: real)
    requires step > 0.0 && a <= v
    ensures ((v - a) / step).Floor >= 0
    ensures a + (((v - a) / step).Floor as real) * step <= v
    ensures v < a + ((((v - a) / step).Floor + 1) as real) * step
  {
    var x := (v - a) / step;
    assert x * step == v - a;
    BracketLow(x, step, v - a, x.Floor);
    BracketHigh(x, step, v - a, x.Floor);
  }

  /** `n` steps stay within `d = x * step` when `n <= x`... */
  lemma BracketLow(x: real, step: real, d: real, n: int)
    requires step > 0.0 && x * step == d && n as real <= x
    ensures (n as real) * step <= d
  {
    RealMulMono(n as real, x, step);
  }

  /** ... and `n + 1` steps pass it when `x < n + 1`. */
  lemma BracketHigh(x: real, step: real, d: real, n: int)
    requires step > 0.0 && x * step == d && x < (n + 1) as real
    ensures d < ((n + 1) as real) * step
  {
    RealMulStrict(x, (n + 1) as real, step);
  }

  lemma RealMulMono(x: real, y: real, c: real)
    requires x <= y && c >= 0.0
    ensures x * c <= y * c
  {
  }

  lemma RealMulStrict(x: real, y: real, c: real)
    requires x < y && c > 0.0
    ensures x * c < y * c
  {
  }
}
