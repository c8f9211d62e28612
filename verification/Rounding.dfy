/** ROUND_HALF_EVEN (roundTiesToEven, section 4.3.1 of IEEE 754-2019), as the
    settlement quantises with it, and the ceiling the attack pricing uses. */
module Rounding {

  function HalfEven(x: real): (n: int)
    ensures n as real - 0.5 <= x <= n as real + 0.5
    ensures (x == n as real - 0.5 || x == n as real + 0.5) ==> n % 2 == 0
  {
    var below := x.Floor;
    var rest := x - below as real;
    if rest < 0.5 then below
    else if rest > 0.5 then below + 1
    else if below % 2 == 0 then below
    else below + 1
  }

  /** The two clauses of HalfEven's contract leave only one integer. */
  lemma HalfEvenUnique(x: real, n: int)
    requires n as real - 0.5 <= x <= n as real + 0.5
    requires (x == n as real - 0.5 || x == n as real + 0.5) ==> n % 2 == 0
    ensures n == HalfEven(x)
  {
    assert n - 1 <= HalfEven(x) <= n + 1;
  }

  lemma HalfEvenMonotone(x: real, y: real)
    requires x <= y
    ensures HalfEven(x) <= HalfEven(y)
  {
    assert HalfEven(x) <= HalfEven(y) + 1;
  }

  function Ceil(x: real): (n: int)
    ensures n as real - 1.0 < x <= n as real
  {
    -((-x).Floor)
  }
}
