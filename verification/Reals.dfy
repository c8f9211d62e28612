/** Multiplication kept behind names, so that proofs choose when the solver
    sees nonlinear arithmetic. */
module Reals {

  function Product(x: real, y: real): real { x * y }

  /** n * x, kept away from the solver's nonlinear arithmetic. */
  function Times(n: nat, x: real): real {
    if n == 0 then 0.0 else Times(n - 1, x) + x
  }

  lemma {:induction false} TimesIsProduct(n: nat, x: real)
    ensures Times(n, x) == n as real * x
  {
    if n > 0 {
      TimesIsProduct(n - 1, x);
      assert n as real * x == (n - 1) as real * x + x;
    }
  }

  lemma {:induction false} TimesMonotone(n: nat, x: real, y: real)
    requires x <= y
    ensures Times(n, x) <= Times(n, y)
  {
    if n > 0 { TimesMonotone(n - 1, x, y); }
  }

  lemma {:induction false} TimesShift(n: nat, x: real, c: real)
    ensures Times(n, x + c) == Times(n, x) + Times(n, c)
  {
    if n > 0 { TimesShift(n - 1, x, c); }
  }

  lemma {:induction false} TimesOfHundredths(n: nat, percent: int)
    ensures Times(n, percent as real / 100.0) == (n * percent) as real / 100.0
  {
    if n > 0 {
      TimesOfHundredths(n - 1, percent);
      assert n * percent == (n - 1) * percent + percent;
    }
  }

  lemma ProductPositive(x: real, y: real)
    requires x > 0.0 && y > 0.0
    ensures Product(x, y) > 0.0
  {
  }

  lemma ProductLe(w: real, x: real, y: real)
    requires w >= 0.0 && x <= y
    ensures w * x <= w * y
  {
  }

  lemma ProductAdd(c: real, x: real, y: real)
    ensures Product(c, x + y) == Product(c, x) + Product(c, y)
  {
  }

  /** Square roots of natural numbers, as a parameter of everything that
      weighs stakes. */
  ghost predicate IsRoot(root: nat -> real) {
    forall n: nat :: root(n) >= 0.0 && Product(root(n), root(n)) == n as real
  }

  lemma RootPositive(root: nat -> real, n: nat)
    requires IsRoot(root) && n > 0
    ensures root(n) > 0.0
  {
    assert Product(0.0, 0.0) == 0.0;
  }

  lemma RootOfOne(root: nat -> real)
    requires IsRoot(root)
    ensures root(1) == 1.0
  {
    var r := root(1);
    if r > 1.0 {
      ProductPositive(r - 1.0, r + 1.0);
    } else if r < 1.0 {
      ProductPositive(1.0 - r, r + 1.0);
    }
  }

  /** Division with the quotient 0 for a zero divisor. */
  function Ratio(x: real, y: real): real { if y == 0.0 then 0.0 else x / y }

  lemma RatioTimes(x: real, y: real)
    requires y != 0.0
    ensures Product(Ratio(x, y), y) == x
  {
  }

  lemma RatioAdd(x: real, z: real, y: real)
    ensures Ratio(x + z, y) == Ratio(x, y) + Ratio(z, y)
  {
  }

  lemma RatioProduct(x: real, y: real, p: real)
    ensures Product(Ratio(x, y), p) == Ratio(Product(x, p), y)
  {
  }

  lemma RatioCompare(x: real, y: real, t: real)
    requires y > 0.0
    ensures Ratio(x, y) >= t <==> x >= Product(t, y)
    ensures Ratio(x, y) <= t <==> x <= Product(t, y)
  {
    RatioTimes(x, y);
    var q := Ratio(x, y);
    if q > t { ProductPositive(q - t, y); }
    if q < t { ProductPositive(t - q, y); }
  }
}
