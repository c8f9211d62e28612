/** Snapshot records of the deterministic core (src/stakeroute/core/types.py)
    and the constants the whole system shares. */
module Types {
  import opened Orders

  datatype Option<+T> = None | Some(value: T)

  const PROBABILITY_FLOOR: real := 0.01
  const PROBABILITY_CEIL: real := 0.99
  const STAKE_MIN: int := 1
  const STAKE_MAX: int := 50

  /** An agent's standing as a ranking pass reads it. */
  datatype AgentSnapshot = AgentSnapshot(id: Id, reputation: real, available: int, staked: int)

  datatype ForecastSnapshot = ForecastSnapshot(
    agentId: Id, hypothesisId: Id, probability: real, stake: nat, cluster: Id)

  /** One forecast's share of an aggregate: the explanation. */
  datatype Contribution = Contribution(
    agentId: Id, probability: real, stake: nat, reputation: real,
    cluster: Id, clusterSize: nat, independence: real, weight: real, alpha: real)

  datatype AggregationResult = AggregationResult(
    hypothesisId: Id, probability: real, isPrior: bool, contributions: seq<Contribution>)

  datatype RankedHypothesis = RankedHypothesis(
    hypothesisId: Id, probability: real, priority: real, impact: int)

  datatype AllocationDecision = AllocationDecision(hypothesisId: Id, rank: nat, routed: bool)

  datatype AllocationResult = AllocationResult(decisions: seq<AllocationDecision>, withheld: nat)

  /** What scoring one forecast against an outcome yields. */
  datatype Settlement = Settlement(brier: real, priorBrier: real, improvement: real, creditDelta: int)

  predicate IsProbability(p: real) { 0.0 <= p <= 1.0 }

  function ClampProbability(p: real): (r: real)
    ensures PROBABILITY_FLOOR <= r <= PROBABILITY_CEIL
    ensures forall q :: PROBABILITY_FLOOR <= q <= PROBABILITY_CEIL ==> Distance(p, r) <= Distance(p, q)
  {
    if p < PROBABILITY_FLOOR then PROBABILITY_FLOOR
    else if p > PROBABILITY_CEIL then PROBABILITY_CEIL
    else p
  }

  function Distance(x: real, y: real): real {
    if x <= y then y - x else x - y
  }
}
