/** `expand`, the padding helper inside `meshBuilder`: the number of
    padding cells, each `expFact` times wider than the one before it, whose
    total width first reaches a padding distance. */
module Padding {

  /** `x` to the power `k`. */
  function Pow(x: real, k: nat): real
  {
    if k == 0 then 1.0 else x * Pow(x, k - 1)
  }

  /** The total width of `n` padding cells growing from a core cell of
      width `dx`: `dx * expFact^1 + ... + dx * expFact^n`, the value the loop
      recomputes after each new cell. */
  function PadLength(dx: real, expFact: real, n: nat): real
  {
    if n == 0 then 0.0 else PadLength(dx, expFact, n - 1) + dx * Pow(expFact, n)
  }

  lemma {:induction false} PowAtLeastOne(x: real, k: nat)
    requires x >= 1.0
    ensures Pow(x, k) >= 1.0
  {
    if k > 0 {
      PowAtLeastOne(x, k - 1);
      assert x * Pow(x, k - 1) >= Pow(x, k - 1) by {
        RealScaleUp(x, Pow(x, k - 1));
      }
    }
  }

  lemma RealScaleUp(x: real, y: real)
    requires x >= 1.0 && y >= 0.0
    ensures x * y >= y
  {
  }

  lemma {:induction false} PowPositive(x: real, k: nat)
    requires x > 0.0
    ensures Pow(x, k) > 0.0
  {
    if k > 0 {
      PowPositive(x, k - 1);
      RealProductPositive(x, Pow(x, k - 1));
    }
  }

  lemma RealProductPositive(x: real, y: real)
    requires x > 0.0 && y > 0.0
    ensures x * y > 0.0
  {
  }

  /** With cells no narrower than the core cell, `n` cells are at least
      `n * dx` wide. */
  lemma {:induction false} PadLengthAtLeast(dx: real, expFact: real, n: nat)
    requires dx > 0.0 && expFact >= 1.0
    ensures PadLength(dx, expFact, n) >= (n as real) * dx
  {
    if n > 0 {
      PadLengthAtLeast(dx, expFact, n - 1);
      PowAtLeastOne(expFact, n);
      RealScaleUp(Pow(expFact, n), dx);
    }
  }

  /** Every added cell has positive width, so the total width grows strictly. */
  lemma {:induction false} PadLengthIncreasing(dx: real, expFact: real, m: nat, n: nat)
    requires dx > 0.0 && expFact > 0.0 && m < n
    ensures PadLength(dx, expFact, m) < PadLength(dx, expFact, n)
  {
    PowPositive(expFact, n);
    RealProductPositive(dx, Pow(expFact, n));
    if m < n - 1 {
      PadLengthIncreasing(dx, expFact, m, n - 1);
    }
  }

  /** The geometric-series closed form of the total width:
      `(expFact - 1) * L(n) == dx * expFact * (expFact^n - 1)`. */
  lemma {:induction false} PadLengthClosedForm(dx: real, expFact: real, n: nat)
    ensures (expFact - 1.0) * PadLength(dx, expFact, n) == dx * expFact * (Pow(expFact, n) - 1.0)
  {
    if n > 0 {
      PadLengthClosedForm(dx, expFact, n - 1);
      var prev, p := PadLength(dx, expFact, n - 1), Pow(expFact, n - 1);
      ClosedFormStep(dx, expFact, prev, p);
    }
  }

  /** The arithmetic of one step of the closed form, over plain reals. */
  lemma ClosedFormStep(dx: real, e: real, prev: real, p: real)
    requires (e - 1.0) * prev == dx * e * (p - 1.0)
    ensures (e - 1.0) * (prev + dx * (e * p)) == dx * e * (e * p - 1.0)
  {
    assert (e - 1.0) * (prev + dx * (e * p)) == (e - 1.0) * prev + (e - 1.0) * (dx * (e * p));
  }

  /** Lines 251-258: start with no cells and, while the width is below
      `pad`, add a cell and recompute the width. The result is the least
      cell count whose width reaches `pad`; in particular no cells when
      `pad <= 0`. */
  method Expand(dx: real, pad: real, expFact: real) returns (nC: nat)
    requires dx > 0.0 && expFact >= 1.0
    ensures PadLength(dx, expFact, nC) >= pad
    ensures forall m :: 0 <= m < nC ==> PadLength(dx, expFact, m) < pad
    ensures pad <= 0.0 ==> nC == 0
  {
    var L := 0.0;
    nC := 0;
    while L < pad
      invariant L == PadLength(dx, expFact, nC)
      invariant forall m :: 0 <= m < nC ==> PadLength(dx, expFact, m) < pad
      invariant L >= (nC as real) * dx
      decreases (pad / dx).Floor + 1 - nC
    {
      BelowPadBound(dx, pad, nC, L);
      nC := nC + 1;
      L := PadLength(dx, expFact, nC);
      PadLengthAtLeast(dx, expFact, nC);
    }
  }

  /** While the width is below `pad`, the count stays below `pad / dx`. */
  lemma BelowPadBound(dx: real, pad: real, n: nat, L: real)
    requires dx > 0.0 && L < pad && L >= (n as real) * dx
    ensures n <= (pad / dx).Floor
  {
    assert (n as real) * dx < pad;
    assert (n as real) < pad / dx;
  }
}
