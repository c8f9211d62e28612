/** Influence weights and the explained aggregate
    (src/stakeroute/core/independence.py, src/stakeroute/core/market.py). */
module Market {
  import opened Orders
  import opened Types
  import opened Reals
  import opened Sums

  /** `1 / sqrt(cluster_size)`; None stands for EmptyCluster. */
  function IndependenceFactor(root: nat -> real, clusterSize: int): Option<real> {
    if clusterSize < 1 then None else Some(Ratio(1.0, root(clusterSize)))
  }

  function InfluenceWeight(root: nat -> real, reputation: real, stake: nat, independence: real): real {
    Product(Product(reputation, root(stake)), independence)
  }

  function InCluster(cluster: Id): ForecastSnapshot -> bool {
    (f: ForecastSnapshot) => f.cluster == cluster
  }

  /** How many of the given forecasts cite the cluster: always counted live. */
  function ClusterSize(all: seq<ForecastSnapshot>, cluster: Id): nat {
    Count(InCluster(cluster), all)
  }

  ghost predicate AllKnown(forecasts: seq<ForecastSnapshot>, agents: map<Id, AgentSnapshot>) {
    forall f :: f in forecasts ==> f.agentId in agents
  }

  function Independence(root: nat -> real, all: seq<ForecastSnapshot>, f: ForecastSnapshot): real {
    match IndependenceFactor(root, ClusterSize(all, f.cluster))
    case Some(i) => i
    case None => 0.0
  }

  /** The weight of forecast f among all forecasts on its hypothesis. */
  function Weight(root: nat -> real, agents: map<Id, AgentSnapshot>, all: seq<ForecastSnapshot>,
                  f: ForecastSnapshot): real {
    if f.agentId in agents
    then InfluenceWeight(root, agents[f.agentId].reputation, f.stake, Independence(root, all, f))
    else 0.0
  }

  function WeightIn(root: nat -> real, agents: map<Id, AgentSnapshot>, all: seq<ForecastSnapshot>)
    : ForecastSnapshot -> real
  {
    f => Weight(root, agents, all, f)
  }

  function MassIn(root: nat -> real, agents: map<Id, AgentSnapshot>, all: seq<ForecastSnapshot>)
    : ForecastSnapshot -> real
  {
    f => Product(Weight(root, agents, all, f), f.probability)
  }

  function TotalWeight(root: nat -> real, agents: map<Id, AgentSnapshot>, all: seq<ForecastSnapshot>): real {
    Sum(WeightIn(root, agents, all), all)
  }

  function TotalMass(root: nat -> real, agents: map<Id, AgentSnapshot>, all: seq<ForecastSnapshot>): real {
    Sum(MassIn(root, agents, all), all)
  }

  /** The share of one weighted forecast in the total. */
  function Alpha(weight: real, total: real): real {
    if total > 0.0 then Ratio(weight, total) else 0.0
  }

  /** The weighted mean of the reported probabilities, 0 without weight. */
  function WeightedMean(root: nat -> real, agents: map<Id, AgentSnapshot>, all: seq<ForecastSnapshot>): real {
    Alpha(TotalMass(root, agents, all), TotalWeight(root, agents, all))
  }

  predicate AgentLe(f: ForecastSnapshot, g: ForecastSnapshot) { LexLe(f.agentId, g.agentId) }

  function ContributionOf(root: nat -> real, agents: map<Id, AgentSnapshot>, all: seq<ForecastSnapshot>,
                          total: real, f: ForecastSnapshot): Contribution
    requires f.agentId in agents
  {
    var weight := Weight(root, agents, all, f);
    Contribution(f.agentId, f.probability, f.stake, agents[f.agentId].reputation, f.cluster,
                 ClusterSize(all, f.cluster), Independence(root, all, f), weight,
                 Alpha(weight, total))
  }

  /** What `aggregate_probability` is meant to return: the weighted mean over
      the input in any order, explained agent by agent. */
  ghost predicate IsAggregate(root: nat -> real, forecasts: seq<ForecastSnapshot>, agents: map<Id, AgentSnapshot>,
                              prior: real, r: AggregationResult)
    requires AllKnown(forecasts, agents)
  {
    if forecasts == [] then r == AggregationResult("", prior, true, [])
    else
      var ordered := Sort(forecasts, AgentLe);
      && r.hypothesisId == forecasts[0].hypothesisId
      && r.probability == WeightedMean(root, agents, forecasts)
      && !r.isPrior
      && |r.contributions| == |ordered|
      && forall i :: 0 <= i < |ordered| ==>
           ordered[i].agentId in agents
           && r.contributions[i]
              == ContributionOf(root, agents, forecasts, TotalWeight(root, agents, forecasts), ordered[i])
  }

  /** A forecast with its independence and weight. */
  function Weighed(root: nat -> real, agents: map<Id, AgentSnapshot>, all: seq<ForecastSnapshot>, f: ForecastSnapshot)
    : (ForecastSnapshot, real, real)
  {
    (f, Independence(root, all, f), Weight(root, agents, all, f))
  }

  /** First loop: weigh every forecast against the live cluster sizes. */
  method WeighAll(root: nat -> real, forecasts: seq<ForecastSnapshot>, agents: map<Id, AgentSnapshot>,
                  ordered: seq<ForecastSnapshot>)
    returns (weighted: seq<(ForecastSnapshot, real, real)>, total: real)
    requires AllKnown(forecasts, agents)
    requires forall f :: f in ordered ==> f in forecasts
    ensures |weighted| == |ordered|
    ensures forall k :: 0 <= k < |ordered| ==>
      weighted[k] == Weighed(root, agents, forecasts, ordered[k])
    ensures total == Sum(WeightIn(root, agents, forecasts), ordered)
  {
    weighted, total := [], 0.0;
    for i := 0 to |ordered|
      invariant |weighted| == i
      invariant forall k :: 0 <= k < i ==>
        weighted[k] == Weighed(root, agents, forecasts, ordered[k])
      invariant total == Sum(WeightIn(root, agents, forecasts), ordered[..i])
    {
      var forecast := ordered[i];
      CountSome(InCluster(forecast.cluster), forecasts, forecast);
      var independence := IndependenceFactor(root, ClusterSize(forecasts, forecast.cluster)).value;
      var weight := InfluenceWeight(root, agents[forecast.agentId].reputation, forecast.stake, independence);
      weighted := weighted + [(forecast, independence, weight)];
      assert ordered[..i + 1] == ordered[..i] + [forecast];
      SumSnoc(WeightIn(root, agents, forecasts), ordered[..i], forecast);
      total := total + weight;
    }
    assert ordered[..|ordered|] == ordered;
  }

  lemma AlphaStep(mass: real, weight: real, p: real, total: real)
    ensures Alpha(mass, total) + Product(Alpha(weight, total), p) == Alpha(mass + Product(weight, p), total)
  {
    if total > 0.0 {
      RatioProduct(weight, total, p);
      RatioAdd(mass, Product(weight, p), total);
    } else {
      assert Product(0.0, p) == 0.0;
    }
  }

  lemma MassSoFar(root: nat -> real, forecasts: seq<ForecastSnapshot>, agents: map<Id, AgentSnapshot>,
                  ordered: seq<ForecastSnapshot>, i: nat, total: real)
    requires i < |ordered|
    ensures var f, mass := ordered[i], MassIn(root, agents, forecasts);
            Alpha(Sum(mass, ordered[..i]), total)
            + Product(Alpha(Weight(root, agents, forecasts, f), total), f.probability)
              == Alpha(Sum(mass, ordered[..i + 1]), total)
  {
    var f, mass := ordered[i], MassIn(root, agents, forecasts);
    assert ordered[..i + 1] == ordered[..i] + [f];
    SumSnoc(mass, ordered[..i], f);
    AlphaStep(Sum(mass, ordered[..i]), Weight(root, agents, forecasts, f), f.probability, total);
  }

  /** Second loop: turn weights into shares and accumulate the aggregate. */
  method Explain(root: nat -> real, forecasts: seq<ForecastSnapshot>, agents: map<Id, AgentSnapshot>,
                 weighted: seq<(ForecastSnapshot, real, real)>, total: real, ghost ordered: seq<ForecastSnapshot>)
    returns (contributions: seq<Contribution>, aggregated: real)
    requires AllKnown(ordered, agents)
    requires |weighted| == |ordered|
    requires forall k :: 0 <= k < |ordered| ==>
      weighted[k] == Weighed(root, agents, forecasts, ordered[k])
    ensures |contributions| == |ordered|
    ensures forall k :: 0 <= k < |ordered| ==>
      contributions[k] == ContributionOf(root, agents, forecasts, total, ordered[k])
    ensures aggregated == Alpha(Sum(MassIn(root, agents, forecasts), ordered), total)
  {
    contributions, aggregated := [], 0.0;
    ghost var mass := MassIn(root, agents, forecasts);
    for i := 0 to |weighted|
      invariant |contributions| == i
      invariant forall k :: 0 <= k < i ==>
        contributions[k] == ContributionOf(root, agents, forecasts, total, ordered[k])
      invariant aggregated == Alpha(Sum(mass, ordered[..i]), total)
    {
      var (forecast, independence, weight) := weighted[i];
      var alpha := Alpha(weight, total);
      MassSoFar(root, forecasts, agents, ordered, i, total);
      aggregated := aggregated + Product(alpha, forecast.probability);
      contributions := contributions + [
        Contribution(forecast.agentId, forecast.probability, forecast.stake, agents[forecast.agentId].reputation,
                     forecast.cluster, ClusterSize(forecasts, forecast.cluster), independence, weight, alpha)];
    }
    assert ordered[..|ordered|] == ordered;
  }

  method AggregateProbability(root: nat -> real, forecasts: seq<ForecastSnapshot>, agents: map<Id, AgentSnapshot>,
                              prior: real)
    returns (r: AggregationResult)
    requires AllKnown(forecasts, agents)
    ensures IsAggregate(root, forecasts, agents, prior, r)
  {
    if forecasts == [] {
      return AggregationResult("", prior, true, []);
    }
    var ordered := Sort(forecasts, AgentLe);
    SortedMembers(forecasts, AgentLe);
    var weighted, total := WeighAll(root, forecasts, agents, ordered);
    SumPermuted(WeightIn(root, agents, forecasts), ordered, forecasts);
    var contributions, aggregated := Explain(root, forecasts, agents, weighted, total, ordered);
    SumPermuted(MassIn(root, agents, forecasts), ordered, forecasts);
    r := AggregationResult(forecasts[0].hypothesisId, aggregated, false, contributions);
  }
}
