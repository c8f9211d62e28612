/** Brier scoring and integer settlement (src/stakeroute/core/scoring.py,
    src/stakeroute/core/settlement.py) and the arithmetic they promise. */
module Scoring {
  import opened Types
  import opened Reals
  import opened Rounding

  function Square(x: real): real { Product(x, x) }

  /** None stands for InvalidOutcome. */
  function BrierScore(probability: real, outcome: int): Option<real> {
    if outcome != 0 && outcome != 1 then None else Some(Square(probability - outcome as real))
  }

  /** The improvement in whole hundredths, rounded half-even. */
  function Percent(improvement: real): int {
    HalfEven(improvement * 100.0)
  }

  /** Stake times the rounded improvement, rounded half-even to whole credits. */
  function RawDelta(stake: int, improvement: real): int {
    HalfEven((stake * Percent(improvement)) as real / 100.0)
  }

  /** `settle_forecast` with scale = 100. None stands for InvalidOutcome. */
  function SettleForecast(stake: int, prior: real, probability: real, outcome: int): Option<Settlement> {
    var priorBrier := BrierScore(prior, outcome);
    var brier := BrierScore(probability, outcome);
    if priorBrier == None || brier == None then None
    else
      var improvement := priorBrier.value - brier.value;
      var delta := RawDelta(stake, improvement);
      Some(Settlement(brier.value, priorBrier.value, improvement, AtLeast(delta, -stake)))
  }

  predicate IsOutcome(outcome: int) { outcome == 0 || outcome == 1 }

  function Improvement(prior: real, probability: real, outcome: int): real
    requires IsOutcome(outcome)
  {
    Square(prior - outcome as real) - Square(probability - outcome as real)
  }

  function Delta(stake: int, prior: real, probability: real, outcome: int): int
    requires IsOutcome(outcome)
  {
    AtLeast(RawDelta(stake, Improvement(prior, probability, outcome)), -stake)
  }

  function AtLeast(x: int, floor: int): int { if x >= floor then x else floor }

  /** SettleForecast rejects exactly the outcomes that are not 0 or 1, and
      otherwise reports the squared distances of the report and of the prior
      from the outcome, Improvement and Delta. */
  lemma SettleForecastYields(stake: int, prior: real, probability: real, outcome: int)
    ensures SettleForecast(stake, prior, probability, outcome) == None <==> !IsOutcome(outcome)
    ensures IsOutcome(outcome) ==>
              var s := SettleForecast(stake, prior, probability, outcome).value;
              && s.brier == Square(probability - outcome as real) && s.priorBrier == Square(prior - outcome as real)
              && s.improvement == s.priorBrier - s.brier == Improvement(prior, probability, outcome)
              && s.creditDelta == Delta(stake, prior, probability, outcome)
  {
  }

  /** n is x rounded half-even: the nearest integer, the even one on a tie. */
  predicate Nearest(x: real, n: int) {
    -0.5 <= x - n as real <= 0.5 && (x - n as real == 0.5 || x - n as real == -0.5 ==> n % 2 == 0)
  }

  /** A settlement replayed by hand: both Brier scores, their difference, the
      difference rounded to hundredths and its product with the stake rounded to
      credits, each half-even, and the floor. */
  lemma SettlementByHand(stake: int, prior: real, probability: real, outcome: int, percent: int, credits: int)
    requires IsOutcome(outcome)
    requires Nearest(100.0 * ((prior - outcome as real) * (prior - outcome as real)
                              - (probability - outcome as real) * (probability - outcome as real)), percent)
    requires Nearest((stake * percent) as real / 100.0, credits)
    ensures var s := SettleForecast(stake, prior, probability, outcome);
            && s.Some?
            && s.value.brier == (probability - outcome as real) * (probability - outcome as real)
            && s.value.priorBrier == (prior - outcome as real) * (prior - outcome as real)
            && s.value.improvement == s.value.priorBrier - s.value.brier
            && s.value.creditDelta == if credits < -stake then -stake else credits
  {
    HalfEvenUnique(100.0 * Improvement(prior, probability, outcome), percent);
    HalfEvenUnique((stake * percent) as real / 100.0, credits);
  }

  // ------------------------------------------------------ settlement bounds

  lemma SquareFacts(x: real)
    ensures Square(x) >= 0.0 && (Square(x) == 0.0 <==> x == 0.0)
  {
    if x > 0.0 {
      ProductPositive(x, x);
    } else if x < 0.0 {
      ProductPositive(-x, -x);
      assert Product(-x, -x) == Product(x, x);
    }
  }

  lemma SquareMonotone(x: real, y: real)
    requires 0.0 <= x <= y
    ensures Square(x) <= Square(y)
  {
    assert x * x <= x * y <= y * y;
  }

  lemma SquareOfDistance(x: real, y: real)
    ensures Square(x - y) == Square(Distance(x, y))
  {
  }

  lemma ScoreInUnit(p: real, outcome: int)
    requires IsProbability(p) && IsOutcome(outcome)
    ensures 0.0 <= Square(p - outcome as real) <= 1.0
  {
    SquareOfDistance(p, outcome as real);
    SquareMonotone(0.0, Distance(p, outcome as real));
    SquareMonotone(Distance(p, outcome as real), 1.0);
  }

  lemma ImprovementInUnit(prior: real, probability: real, outcome: int)
    requires IsProbability(prior) && IsProbability(probability) && IsOutcome(outcome)
    ensures -1.0 <= Improvement(prior, probability, outcome) <= 1.0
  {
    ScoreInUnit(prior, outcome);
    ScoreInUnit(probability, outcome);
  }

  lemma PercentInRange(improvement: real)
    requires -1.0 <= improvement <= 1.0
    ensures -100 <= Percent(improvement) <= 100
    ensures improvement >= 0.0 ==> Percent(improvement) >= 0
    ensures improvement <= 0.0 ==> Percent(improvement) <= 0
  {
  }

  lemma ScaleLe(stake: nat, x: int, y: int)
    requires x <= y
    ensures stake * x <= stake * y
  {
  }

  lemma RawDeltaMonotone(stake: nat, x: real, y: real)
    requires x <= y
    ensures RawDelta(stake, x) <= RawDelta(stake, y)
  {
    HalfEvenMonotone(x * 100.0, y * 100.0);
    ScaleLe(stake, Percent(x), Percent(y));
    HalfEvenMonotone((stake * Percent(x)) as real / 100.0, (stake * Percent(y)) as real / 100.0);
  }

  lemma RawDeltaBounds(stake: nat, x: real)
    requires -1.0 <= x <= 1.0
    ensures -(stake as int) <= RawDelta(stake, x) <= stake
    ensures x >= 0.0 ==> RawDelta(stake, x) >= 0
    ensures x <= 0.0 ==> RawDelta(stake, x) <= 0
  {
    PercentInRange(x);
    ScaleLe(stake, -100, Percent(x));
    ScaleLe(stake, Percent(x), 100);
    if x >= 0.0 { ScaleLe(stake, 0, Percent(x)); }
    if x <= 0.0 { ScaleLe(stake, Percent(x), 0); }
  }

  /** The floor at -stake is never the binding branch. */
  lemma DeltaIsRaw(stake: nat, prior: real, probability: real, outcome: int)
    requires IsProbability(prior) && IsProbability(probability) && IsOutcome(outcome)
    ensures Delta(stake, prior, probability, outcome) == RawDelta(stake, Improvement(prior, probability, outcome))
  {
    ImprovementInUnit(prior, probability, outcome);
    RawDeltaBounds(stake, Improvement(prior, probability, outcome));
  }

  /** The delta lies in [-stake, stake] because of the rounding alone: the
      floor at -stake never binds, and the sign never opposes the improvement. */
  lemma DeltaBounds(stake: nat, prior: real, probability: real, outcome: int)
    requires IsProbability(prior) && IsProbability(probability) && IsOutcome(outcome)
    ensures -(stake as int) <= Delta(stake, prior, probability, outcome) <= stake
    ensures Improvement(prior, probability, outcome) >= 0.0 ==> Delta(stake, prior, probability, outcome) >= 0
    ensures Improvement(prior, probability, outcome) <= 0.0 ==> Delta(stake, prior, probability, outcome) <= 0
  {
    ImprovementInUnit(prior, probability, outcome);
    RawDeltaBounds(stake, Improvement(prior, probability, outcome));
  }

  /** Two roundings: x to percent hundredths, then stake * percent hundredths
      to whole credits. */
  lemma TwoRoundings(stake: nat, x: real, percent: int, credits: int)
    requires x - 0.005 <= percent as real / 100.0 <= x + 0.005
    requires credits as real - 0.5 <= (stake * percent) as real / 100.0 <= credits as real + 0.5
    ensures Near(credits as real, x, stake)
  {
    TimesMonotone(stake, x - 0.005, percent as real / 100.0);
    TimesMonotone(stake, percent as real / 100.0, x + 0.005);
    TimesShift(stake, x, -0.005);
    TimesShift(stake, x, 0.005);
    TimesOfHundredths(stake, percent);
    TimesIsProduct(stake, 0.005);
    TimesIsProduct(stake, -0.005);
  }

  /** Within half a credit plus half a percent of the stake. */
  predicate Near(credits: real, x: real, stake: nat) {
    Times(stake, x) - Slack(stake) <= credits <= Times(stake, x) + Slack(stake)
  }

  lemma {:induction false} TimesOfMix(stake: nat, w: real, v: real, x1: real, x0: real)
    ensures Times(stake, Mix(w, v, x1, x0)) == Mix(w, v, Times(stake, x1), Times(stake, x0))
  {
    if stake > 0 {
      TimesOfMix(stake - 1, w, v, x1, x0);
      assert w * (Times(stake - 1, x1) + x1) == w * Times(stake - 1, x1) + w * x1;
      assert v * (Times(stake - 1, x0) + x0) == v * Times(stake - 1, x0) + v * x0;
    }
  }

  function Slack(stake: nat): real { stake as real / 200.0 + 0.5 }

  lemma RawDeltaNear(stake: nat, x: real)
    ensures Near(RawDelta(stake, x) as real, x, stake)
  {
    TwoRoundings(stake, x, Percent(x), RawDelta(stake, x));
  }

  /** Both roundings together cost at most half a credit plus half a percent
      of the stake. */
  lemma DeltaAccuracy(stake: nat, prior: real, probability: real, outcome: int)
    requires IsProbability(prior) && IsProbability(probability) && IsOutcome(outcome)
    ensures Near(Delta(stake, prior, probability, outcome) as real, Improvement(prior, probability, outcome), stake)
  {
    DeltaIsRaw(stake, prior, probability, outcome);
    RawDeltaNear(stake, Improvement(prior, probability, outcome));
  }

  /** Moving a report towards the outcome never lowers the delta. */
  lemma DeltaMonotone(stake: nat, prior: real, near: real, far: real, outcome: int)
    requires IsProbability(prior) && IsProbability(near) && IsProbability(far) && IsOutcome(outcome)
    requires Distance(near, outcome as real) <= Distance(far, outcome as real)
    ensures Delta(stake, prior, far, outcome) <= Delta(stake, prior, near, outcome)
  {
    SquareOfDistance(near, outcome as real);
    SquareOfDistance(far, outcome as real);
    SquareMonotone(Distance(near, outcome as real), Distance(far, outcome as real));
    DeltaIsRaw(stake, prior, near, outcome);
    DeltaIsRaw(stake, prior, far, outcome);
    RawDeltaMonotone(stake, Improvement(prior, far, outcome), Improvement(prior, near, outcome));
  }

  lemma RoundedHundredthsSign(n: int)
    ensures HalfEven(n as real / 100.0) > 0 <==> n > 50
    ensures HalfEven(n as real / 100.0) < 0 <==> n < -50
  {
    if n == 50 || n == -50 { HalfEvenUnique(n as real / 100.0, 0); }
  }

  /** Credits follow the improvement only above half a credit. The promise
      that beating the prior always pays (SC-008) holds exactly when stake
      times the improvement in hundredths exceeds 50, and falling short of the
      prior costs credits exactly below -50. */
  lemma CreditsMoveExactlyWhen(stake: nat, prior: real, probability: real, outcome: int)
    requires IsProbability(prior) && IsProbability(probability) && IsOutcome(outcome)
    ensures var p := Percent(Improvement(prior, probability, outcome));
            && (Delta(stake, prior, probability, outcome) > 0 <==> stake * p > 50)
            && (Delta(stake, prior, probability, outcome) < 0 <==> stake * p < -50)
  {
    DeltaIsRaw(stake, prior, probability, outcome);
    RoundedHundredthsSign(stake * Percent(Improvement(prior, probability, outcome)));
  }

  /** A forecast that beats the prior by thirty points and earns nothing. */
  lemma BeatingThePriorCanPayNothing()
    ensures Improvement(0.5, 0.8, 1) > 0.0 && Delta(1, 0.5, 0.8, 1) == 0
  {
    assert Improvement(0.5, 0.8, 1) == 0.21;
    CreditsMoveExactlyWhen(1, 0.5, 0.8, 1);
  }

  // ------------------------------------------------------------- properness

  /** The mean of x1 and x0 under weights w and v. */
  function Mix(w: real, v: real, x1: real, x0: real): real { w * x1 + v * x0 }

  /** The improvement an agent of belief q expects from reporting p. */
  function ExpectedImprovement(q: real, prior: real, p: real): real {
    Mix(q, 1.0 - q, Improvement(prior, p, 1), Improvement(prior, p, 0))
  }

  /** The credits an agent of belief q expects from reporting p. */
  function ExpectedDelta(q: real, stake: int, prior: real, p: real): real {
    Mix(q, 1.0 - q, Delta(stake, prior, p, 1) as real, Delta(stake, prior, p, 0) as real)
  }

  /** Reporting p instead of the belief q loses exactly (p - q) squared. */
  lemma ProperLoss(q: real, prior: real, p: real)
    ensures ExpectedImprovement(q, prior, p) == ExpectedImprovement(q, prior, q) - Square(p - q)
  {
  }

  /** Over exact reals the honest report is the only best one. */
  lemma StrictlyProper(q: real, prior: real, p: real)
    ensures ExpectedImprovement(q, prior, p) <= ExpectedImprovement(q, prior, q)
    ensures ExpectedImprovement(q, prior, p) == ExpectedImprovement(q, prior, q) <==> p == q
  {
    ProperLoss(q, prior, p);
    SquareFacts(p - q);
  }

  lemma MixLe(w: real, v: real, x1: real, x0: real, y1: real, y0: real)
    requires w >= 0.0 && v >= 0.0 && x1 <= y1 && x0 <= y0
    ensures Mix(w, v, x1, x0) <= Mix(w, v, y1, y0)
  {
    ProductLe(w, x1, y1);
    ProductLe(v, x0, y0);
  }

  lemma MixShift(w: real, v: real, x1: real, x0: real, c: real)
    requires w + v == 1.0
    ensures Mix(w, v, x1 + c, x0 + c) == Mix(w, v, x1, x0) + c
  {
    assert w * c + v * c == (w + v) * c;
  }

  lemma MixNear(w: real, v: real, stake: nat, x1: real, x0: real, d1: real, d0: real)
    requires w >= 0.0 && v >= 0.0 && w + v == 1.0
    requires Near(d1, x1, stake) && Near(d0, x0, stake)
    ensures Near(Mix(w, v, d1, d0), Mix(w, v, x1, x0), stake)
  {
    var t1, t0, c := Times(stake, x1), Times(stake, x0), Slack(stake);
    MixShift(w, v, t1, t0, -c);
    MixShift(w, v, t1, t0, c);
    MixLe(w, v, t1 - c, t0 - c, d1, d0);
    MixLe(w, v, d1, d0, t1 + c, t0 + c);
    TimesOfMix(stake, w, v, x1, x0);
  }

  /** The slack is real: with belief 0.6 and three credits at stake, claiming
      0.75 earns a fifth of a credit more than honesty does. */
  lemma RoundingCanRewardBoldness()
    ensures ExpectedDelta(0.6, 3, 0.5, 0.75) - ExpectedDelta(0.6, 3, 0.5, 0.6) == 0.2
  {
    assert Improvement(0.5, 0.75, 1) == 0.1875 && Improvement(0.5, 0.75, 0) == -0.3125;
    assert Improvement(0.5, 0.6, 1) == 0.09 && Improvement(0.5, 0.6, 0) == -0.11;
  }

  /** Expected credits track stake times the expected improvement. */
  lemma ExpectedDeltaAccuracy(q: real, stake: nat, prior: real, p: real)
    requires IsProbability(q) && IsProbability(prior) && IsProbability(p)
    ensures Near(ExpectedDelta(q, stake, prior, p), ExpectedImprovement(q, prior, p), stake)
  {
    DeltaAccuracy(stake, prior, p, 1);
    DeltaAccuracy(stake, prior, p, 0);
    MixNear(q, 1.0 - q, stake, Improvement(prior, p, 1), Improvement(prior, p, 0),
            Delta(stake, prior, p, 1) as real, Delta(stake, prior, p, 0) as real);
  }

  /** After both roundings no report beats honesty by more than one credit
      plus one percent of the stake. */
  lemma NearlyProper(q: real, stake: nat, prior: real, p: real)
    requires IsProbability(q) && IsProbability(prior) && IsProbability(p)
    ensures ExpectedDelta(q, stake, prior, p) - ExpectedDelta(q, stake, prior, q) <= stake as real / 100.0 + 1.0
  {
    StrictlyProper(q, prior, p);
    ExpectedDeltaAccuracy(q, stake, prior, p);
    ExpectedDeltaAccuracy(q, stake, prior, q);
    TimesMonotone(stake, ExpectedImprovement(q, prior, p), ExpectedImprovement(q, prior, q));
  }
}
