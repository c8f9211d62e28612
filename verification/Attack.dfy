/** The closed-form price of buying rank 1 (src/stakeroute/core/attack.py). */
module Attack {
  import opened Types
  import opened Reals
  import opened Rounding
  import opened Scoring

  /** What moving one hypothesis to rank 1 costs under one strategy. A missing
      required weight stands for infinity. */
  datatype AttackCost = AttackCost(
    feasible: bool, requiredProbability: real, requiredWeight: Option<real>,
    identities: nat, credits: int, reputation: real, stake: int, shared: bool, settlementLoss: int)

  function AtLeastOne(n: int): nat { if n < 1 then 1 else n }

  /** None stands for InfeasibleAttack. */
  function RequiredProbability(defenderPriority: real, impact: int, urgency: real, reviewCost: real): Option<real> {
    if reviewCost <= 0.0 then None
    else
      var scale := Product(impact as real, urgency);
      if scale <= 0.0 then None else Some(Ratio(Product(defenderPriority, reviewCost), scale))
  }

  /** None: infeasible at any weight. */
  function RequiredAdversaryWeight(honestWeight: real, honestProbability: real, target: real, adversary: real)
    : Option<real>
  {
    if honestProbability >= target then Some(0.0)
    else if honestWeight <= 0.0 then Some(0.0)
    else if adversary <= target then None
    else Some(Ratio(Product(honestWeight, target - honestProbability), adversary - target))
  }

  /** None: no finite count suffices. */
  function SybilIdentitiesRequired(root: nat -> real, weight: real, reputation: real, stake: int, shared: bool)
    : Option<nat>
  {
    if weight <= 0.0 then Some(0)
    else if reputation <= 0.0 || stake <= 0 then None
    else
      var identities := Ratio(weight, Product(reputation, root(stake)));
      Some(AtLeastOne(Ceil(if shared then Product(identities, identities) else identities)))
  }

  /** Credits destroyed at settlement; None stands for InvalidOutcome. */
  function AttackSettlementLoss(identities: int, stake: int, prior: real, adversary: real, outcome: int): Option<int> {
    if identities <= 0 || stake <= 0 then Some(0)
    else match SettleForecast(stake, prior, adversary, outcome)
         case None => None
         case Some(s) => Some(-s.creditDelta * identities)
  }

  /** None: no finite flood exceeds the threshold. */
  function MajorityVoteIdentitiesRequired(honestForecasts: nat, honestVotesTrue: int, target: real): Option<nat> {
    if honestForecasts > 0 && honestVotesTrue as real / honestForecasts as real > target then Some(0)
    else if honestForecasts == 0 && target <= 0.0 then Some(0)
    else if target >= 1.0 then None
    else
      var needed := Ratio(Product(honestForecasts as real, target) - honestVotesTrue as real, 1.0 - target);
      Some(AtLeastOne(needed.Floor + 1))
  }

  function HighestConfidenceIdentitiesRequired(currentMax: real, target: real): Option<nat> {
    if currentMax > target then Some(0)
    else if target >= PROBABILITY_CEIL then None
    else Some(1)
  }

  /** None stands for InfeasibleAttack: parameters that describe no attack. */
  function StakerouteAttackCost(root: nat -> real, defenderPriority: real, impact: int, urgency: real, reviewCost: real,
                                honestWeight: real, honestProbability: real, reputation: real, stake: int,
                                shared: bool, adversary: real, prior: real): Option<AttackCost>
  {
    match RequiredProbability(defenderPriority, impact, urgency, reviewCost)
    case None => None
    case Some(threshold) =>
      match RequiredAdversaryWeight(honestWeight, honestProbability, threshold, adversary)
      case None => Some(AttackCost(false, threshold, None, 0, 0, reputation, stake, shared, 0))
      case Some(weight) =>
        match SybilIdentitiesRequired(root, weight, reputation, stake, shared)
        case None => Some(AttackCost(false, threshold, Some(weight), 0, 0, reputation, stake, shared, 0))
        case Some(n) =>
          var identities := if n == 0 && honestProbability < threshold then 1 else n;
          Some(AttackCost(true, threshold, Some(weight), identities, identities * stake, reputation, stake, shared,
                          AttackSettlementLoss(identities, stake, prior, adversary, 0).value))
  }

  /** The price at each reputation level. */
  function AttackFrontier(root: nat -> real, defenderPriority: real, impact: int, urgency: real, reviewCost: real,
                          honestWeight: real, honestProbability: real, reputations: seq<real>, stake: int,
                          shared: bool, prior: real): seq<Option<AttackCost>>
  {
    seq(|reputations|, i requires 0 <= i < |reputations| =>
      StakerouteAttackCost(root, defenderPriority, impact, urgency, reviewCost, honestWeight, honestProbability,
                           reputations[i], stake, shared, PROBABILITY_CEIL, prior))
  }
}
