/** Bounded reputation update (src/stakeroute/core/reputation.py) and what any
    run of settlements does to it. */
module Reputation {
  import opened Reals

  const REPUTATION_FLOOR: real := 0.1
  const REPUTATION_CEIL: real := 1.0
  const DECAY: real := 0.3

  predicate InRange(r: real) { REPUTATION_FLOOR <= r <= REPUTATION_CEIL }

  function UpdateReputation(current: real, brierScore: real, improvement: real): (r: real)
    ensures InRange(r)
  {
    var target := current + improvement;
    var blended := (1.0 - DECAY) * current + DECAY * target;
    if blended < REPUTATION_FLOOR then REPUTATION_FLOOR
    else if blended > REPUTATION_CEIL then REPUTATION_CEIL
    else blended
  }

  /** One settlement moves reputation by 0.3 of the improvement, within
      [0.1, 1.0]; the Brier score has no say. */
  lemma UpdateIs(current: real, brier: real, improvement: real)
    ensures UpdateReputation(current, brier, improvement)
              == if current + 0.3 * improvement < 0.1 then 0.1
                 else if current + 0.3 * improvement > 1.0 then 1.0
                 else current + 0.3 * improvement
  {
  }

  /** Reputation after settling with the given improvements, oldest first. */
  function AfterSettlements(start: real, improvements: seq<real>): real {
    if improvements == [] then start
    else
      var n := |improvements| - 1;
      UpdateReputation(AfterSettlements(start, improvements[..n]), 0.0, improvements[n])
  }

  /** Reputation goes up exactly from below the floor, or on a positive
      improvement below the ceiling; and down exactly from above the ceiling, or
      on a negative improvement above the floor. */
  lemma MovesWithImprovement(current: real, brier: real, improvement: real)
    ensures UpdateReputation(current, brier, improvement) > current <==>
            current < REPUTATION_FLOOR || (improvement > 0.0 && current < REPUTATION_CEIL)
    ensures UpdateReputation(current, brier, improvement) < current <==>
            current > REPUTATION_CEIL || (improvement < 0.0 && current > REPUTATION_FLOOR)
  {
  }

  /** Beating the prior does not always pull reputation up: at the ceiling it
      moves nothing, and a reputation registered above the ceiling falls. */
  lemma ImprovementCanFailToRaise()
    ensures UpdateReputation(1.0, 0.0, 0.5) == 1.0 && UpdateReputation(1.5, 0.0, 0.5) < 1.5
  {
  }

  lemma {:induction false} StaysInRange(start: real, improvements: seq<real>)
    ensures InRange(start) || improvements != [] ==> InRange(AfterSettlements(start, improvements))
  {
    if improvements != [] {
      StaysInRange(start, improvements[..|improvements| - 1]);
    }
  }

  function Min(x: real, y: real): real { if x <= y then x else y }

  lemma OneStepUp(reputation: real, improvement: real, gain: real, gained: real)
    requires InRange(reputation) && 0.0 <= gain <= improvement
    requires reputation >= Min(REPUTATION_CEIL, REPUTATION_FLOOR + DECAY * gained)
    ensures UpdateReputation(reputation, 0.0, improvement)
              >= Min(REPUTATION_CEIL, REPUTATION_FLOOR + DECAY * (gained + gain))
  {
  }

  /** n settlements each improving by at least gain lift any agent, however
      low, to at least min(1, floor + 0.3 n gain). */
  lemma {:induction false} RecoveryPath(start: real, improvements: seq<real>, gain: real)
    requires InRange(start) && gain >= 0.0
    requires forall i :: 0 <= i < |improvements| ==> improvements[i] >= gain
    ensures AfterSettlements(start, improvements)
              >= Min(REPUTATION_CEIL, REPUTATION_FLOOR + DECAY * Times(|improvements|, gain))
  {
    if improvements != [] {
      var n := |improvements| - 1;
      RecoveryPath(start, improvements[..n], gain);
      StaysInRange(start, improvements[..n]);
      OneStepUp(AfterSettlements(start, improvements[..n]), improvements[n], gain, Times(n, gain));
    }
  }

  function Max(x: real, y: real): real { if x >= y then x else y }

  lemma OneStepDown(top: real, reputation: real, improvement: real, loss: real, lost: real)
    requires 0.0 <= loss <= -improvement
    requires reputation <= Max(0.1, top - 0.3 * lost)
    ensures UpdateReputation(reputation, 0.0, improvement) <= Max(0.1, top - 0.3 * (lost + loss))
  {
  }

  /** n settlements each losing at least `loss` leave an agent at most
      max(0.1, 1.0 - 0.3 n loss), wherever in the range it stood; one registered
      above it falls from there. */
  lemma {:induction false} FadingPath(start: real, improvements: seq<real>, loss: real)
    requires loss >= 0.0
    requires forall i :: 0 <= i < |improvements| ==> improvements[i] <= -loss
    ensures AfterSettlements(start, improvements) <= Max(0.1, Max(1.0, start) - 0.3 * Times(|improvements|, loss))
  {
    if improvements != [] {
      var n := |improvements| - 1;
      FadingPath(start, improvements[..n], loss);
      OneStepDown(Max(1.0, start), AfterSettlements(start, improvements[..n]), improvements[n], loss, Times(n, loss));
    }
  }

  function SumOf(xs: seq<real>): real {
    if xs == [] then 0.0 else SumOf(xs[..|xs| - 1]) + xs[|xs| - 1]
  }

  /** The start plus 0.3 times the improvements so far never leaves [0.1, 1.0]. */
  ghost predicate NeverClamped(start: real, improvements: seq<real>) {
    forall k :: 0 < k <= |improvements| ==> 0.1 <= start + 0.3 * SumOf(improvements[..k]) <= 1.0
  }

  /** As long as no clamp binds reputation is linear in the improvements: the
      start plus 0.3 times their sum. */
  lemma {:induction false} LinearUnlessClamped(start: real, improvements: seq<real>)
    requires NeverClamped(start, improvements)
    ensures AfterSettlements(start, improvements) == start + 0.3 * SumOf(improvements)
  {
    if improvements != [] {
      var n := |improvements| - 1;
      var init := improvements[..n];
      forall k | 0 < k <= n ensures 0.1 <= start + 0.3 * SumOf(init[..k]) <= 1.0 {
        assert init[..k] == improvements[..k];
      }
      LinearUnlessClamped(start, init);
      assert improvements[..n + 1] == improvements;
      UpdateIs(AfterSettlements(start, init), 0.0, improvements[n]);
    }
  }

  /** Two agents scored alike keep their order and never drift apart. */
  lemma {:induction false} GapNeverWidens(low: real, high: real, improvements: seq<real>)
    requires InRange(low) && InRange(high) && low <= high
    ensures 0.0 <= AfterSettlements(high, improvements) - AfterSettlements(low, improvements) <= high - low
  {
    if improvements != [] {
      GapNeverWidens(low, high, improvements[..|improvements| - 1]);
    }
  }

  /** The clamp makes history matter: the same two improvements in the other
      order can leave a different reputation. */
  lemma OrderMattersAtTheBounds()
    ensures AfterSettlements(0.1, [-0.5, 0.5]) != AfterSettlements(0.1, [0.5, -0.5])
  {
    var a, b := [-0.5, 0.5], [0.5, -0.5];
    assert a[..1] == [-0.5] && b[..1] == [0.5] && a[..1][..0] == [] && b[..1][..0] == [];
    assert AfterSettlements(0.1, a[..1]) == 0.1;
    assert AfterSettlements(0.1, b[..1]) == 0.25;
  }
}
