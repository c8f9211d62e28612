/** What evidence the identities cite. The quoted price assumes evidence of
    their own: then it is the least price over every way of spreading the
    identities over clusters. Identities that cite an honest agent's evidence
    discount that agent too, and can need fewer. */
module EvidenceTheorems {
  import opened Orders
  import opened Types
  import opened Reals
  import opened Sums
  import opened Market
  import opened MarketTheorems
  import opened Attack
  import opened AttackTheorems

  // ---------------------------------------------- any flood, any evidence

  /** What a group weighs, and its mass, in the company of all forecasts. */
  function WeightOfGroup(root: nat -> real, agents: map<Id, AgentSnapshot>, all: seq<ForecastSnapshot>,
                         group: seq<ForecastSnapshot>): real {
    Sum(WeightIn(root, agents, all), group)
  }

  function MassOfGroup(root: nat -> real, agents: map<Id, AgentSnapshot>, all: seq<ForecastSnapshot>,
                       group: seq<ForecastSnapshot>): real {
    Sum(MassIn(root, agents, all), group)
  }

  lemma UniformMass(root: nat -> real, agents: map<Id, AgentSnapshot>, all: seq<ForecastSnapshot>,
                    sybils: seq<ForecastSnapshot>, claim: real)
    requires forall s :: s in sybils ==> s.probability == claim
    ensures MassOfGroup(root, agents, all, sybils) == Product(claim, WeightOfGroup(root, agents, all, sybils))
  {
    SumScaled(WeightIn(root, agents, all), MassIn(root, agents, all), sybils, claim);
  }

  /** The mean against a threshold, part by part. */
  lemma MeanAgainstThreshold(weight: real, mass: real, flood: real, claim: real, t: real)
    requires weight + flood > 0.0
    ensures Ratio(mass + Product(claim, flood), weight + flood) >= t <==>
            Product(flood, claim - t) >= Product(t, weight) - mass
    ensures Ratio(mass + Product(claim, flood), weight + flood) > t <==>
            Product(flood, claim - t) > Product(t, weight) - mass
  {
    RatioCompare(mass + Product(claim, flood), weight + flood, t);
    assert Product(t, weight + flood) == Product(t, weight) + Product(t, flood);
    assert Product(flood, claim - t) == Product(claim, flood) - Product(t, flood);
  }

  /** Whatever evidence a flood of equal claims cites - its own, one another's,
      or an honest agent's - it reaches the defender exactly when its pull above
      the threshold makes up what the honest forecasts, discounted for the
      company they now keep, leave below it. */
  lemma AnyFloodReachesExactlyWhen(root: nat -> real, agents: map<Id, AgentSnapshot>, prior: real, contest: Contest,
                                   honest: seq<ForecastSnapshot>, sybils: seq<ForecastSnapshot>,
                                   after: AggregationResult, claim: real)
    requires AllKnown(honest + sybils, agents) && (forall s :: s in sybils ==> s.probability == claim)
    requires IsAggregate(root, honest + sybils, agents, prior, after)
    requires contest.Sound() && TotalWeight(root, agents, honest + sybils) > 0.0
    ensures var all, t := honest + sybils, contest.Threshold();
            var pull := Product(WeightOfGroup(root, agents, all, sybils), claim - t);
            var lack := Product(t, WeightOfGroup(root, agents, all, honest)) - MassOfGroup(root, agents, all, honest);
            && (contest.Reached(after.probability) <==> pull >= lack)
            && (contest.Passed(after.probability) <==> pull > lack)
  {
    var all := honest + sybils;
    SumConcat(WeightIn(root, agents, all), honest, sybils);
    SumConcat(MassIn(root, agents, all), honest, sybils);
    UniformMass(root, agents, all, sybils, claim);
    MeanAgainstThreshold(WeightOfGroup(root, agents, all, honest), MassOfGroup(root, agents, all, honest),
                         WeightOfGroup(root, agents, all, sybils), claim, contest.Threshold());
    ThresholdInvertsPriority(contest, after.probability);
    assert all != [];
  }

  // ------------------------------------------------------- fresh evidence

  lemma DiscountAtMostOne(root: nat -> real, n: nat)
    requires IsRoot(root) && n > 0
    ensures 0.0 <= Ratio(1.0, root(n)) <= 1.0
  {
    RootPositive(root, n);
    RootOfOne(root);
    if n > 1 && root(n) < 1.0 { SquareLt(root(n), 1.0); }
    RatioCompare(1.0, root(n), 1.0);
    RatioPositive(1.0, root(n));
  }

  /** No evidence makes an identity weigh more than evidence of its own. */
  lemma WeighsAtMost(root: nat -> real, agents: map<Id, AgentSnapshot>, all: seq<ForecastSnapshot>,
                     s: ForecastSnapshot)
    requires IsRoot(root) && s in all && s.agentId in agents && agents[s.agentId].reputation >= 0.0
    ensures 0.0 <= Weight(root, agents, all, s) <= Product(agents[s.agentId].reputation, root(s.stake))
  {
    CountSome(InCluster(s.cluster), all, s);
    var unit, discount := Product(agents[s.agentId].reputation, root(s.stake)), Independence(root, all, s);
    DiscountAtMostOne(root, ClusterSize(all, s.cluster));
    ProductNonNegative(agents[s.agentId].reputation, root(s.stake));
    ProductLe(unit, 0.0, discount);
    ProductLe(unit, discount, 1.0);
  }

  lemma FloodWeighsAtMost(root: nat -> real, agents: map<Id, AgentSnapshot>, all: seq<ForecastSnapshot>,
                          sybils: seq<ForecastSnapshot>, reputation: real, stake: nat, claim: real)
    requires IsRoot(root) && reputation >= 0.0 && Uniform(sybils, agents, reputation, stake, claim)
    requires forall s :: s in sybils ==> s in all
    ensures 0.0 <= WeightOfGroup(root, agents, all, sybils)
    ensures WeightOfGroup(root, agents, all, sybils) <= Product(Product(reputation, root(stake)), |sybils| as real)
  {
    var unit, weight := Product(reputation, root(stake)), WeightIn(root, agents, all);
    var least: ForecastSnapshot -> real, most: ForecastSnapshot -> real := s => 0.0, s => unit;
    forall s | s in sybils ensures least(s) <= weight(s) <= most(s) { WeighsAtMost(root, agents, all, s); }
    SumLe(least, weight, sybils);
    SumLe(weight, most, sybils);
    SumConstant(least, sybils, 0.0);
    SumConstant(most, sybils, unit);
    TimesIsProduct(|sybils|, 0.0);
    TimesIsProduct(|sybils|, unit);
  }

  lemma NoStandingNoWeight(root: nat -> real, reputation: real, stake: nat, n: nat)
    requires IsRoot(root) && (reputation == 0.0 || stake == 0)
    ensures Product(Product(reputation, root(stake)), n as real) == 0.0
  {
    RootOfZero(root);
    assert Product(reputation, root(stake)) == 0.0;
    assert Product(0.0, n as real) == 0.0;
  }

  lemma WeightNeedsCount(root: nat -> real, weight: real, flood: real, n: nat, reputation: real, stake: nat)
    requires IsRoot(root) && reputation >= 0.0 && weight > 0.0
    requires weight <= flood <= Product(Product(reputation, root(stake)), n as real)
    ensures var needed := SybilIdentitiesRequired(root, weight, reputation, stake, false);
            needed.Some? && n >= needed.value
  {
    var unit := Product(reputation, root(stake));
    if reputation > 0.0 && stake > 0 {
      RootPositive(root, stake);
      ProductPositive(reputation, root(stake));
      DistinctCount(unit, n, weight);
    } else {
      NoStandingNoWeight(root, reputation, stake, n);
    }
  }

  lemma LeastPriceOfMean(root: nat -> real, contest: Contest, weight: real, h: real, flood: real, n: nat,
                         reputation: real, stake: nat, claim: real, prior: real)
    requires IsRoot(root) && contest.Sound() && weight > 0.0 && reputation >= 0.0 && h < contest.Threshold()
    requires 0.0 <= flood <= Product(Product(reputation, root(stake)), n as real)
    requires Diluted(weight, h, flood, claim) >= contest.Threshold()
    ensures var quote := contest.Quote(root, weight, h, reputation, stake, false, claim, prior);
            quote.feasible && n >= quote.identities
  {
    WeightInvertsMean(weight, h, flood, claim, contest.Threshold());
    var needed := RequiredAdversaryWeight(weight, h, contest.Threshold(), claim).value;
    WeightNeedsCount(root, needed, flood, n, reputation, stake);
  }

  /** The price for distinct evidence is the least there is on fresh evidence:
      however a uniform flood spreads over clusters no honest agent cites,
      reaching the defender takes a feasible quote and at least the quoted
      count. (ExactPrice: on distinct evidence that many do.) */
  lemma LeastPriceOnFreshEvidence(root: nat -> real, agents: map<Id, AgentSnapshot>, prior: real, contest: Contest,
                                  honest: seq<ForecastSnapshot>, sybils: seq<ForecastSnapshot>,
                                  before: AggregationResult, after: AggregationResult,
                                  reputation: real, stake: nat, claim: real)
    requires IsRoot(root) && AllKnown(honest, agents) && AllKnown(honest + sybils, agents) && reputation >= 0.0
    requires Uniform(sybils, agents, reputation, stake, claim) && FreshClusters(honest, sybils)
    requires IsAggregate(root, honest, agents, prior, before)
    requires IsAggregate(root, honest + sybils, agents, prior, after)
    requires ExplainedWeight(before) > 0.0 && contest.Sound() && !contest.Reached(before.probability)
    ensures var quote := contest.Quote(root, ExplainedWeight(before), before.probability,
                                       reputation, stake, false, claim, prior);
            contest.Reached(after.probability) ==> quote.feasible && |sybils| >= quote.identities
  {
    var flood := WeightOfGroup(root, agents, honest + sybils, sybils);
    FloodWeighsAtMost(root, agents, honest + sybils, sybils, reputation, stake, claim);
    FreshMean(root, agents, prior, honest, sybils, before, after, claim);
    ThresholdInvertsPriority(contest, before.probability);
    ThresholdInvertsPriority(contest, after.probability);
    if contest.Reached(after.probability) {
      LeastPriceOfMean(root, contest, ExplainedWeight(before), before.probability, flood, |sybils|,
                       reputation, stake, claim, prior);
    }
  }

  lemma PartsDilute(mass: real, weight: real, flood: real, claim: real)
    requires weight > 0.0 && flood >= 0.0
    ensures Alpha(mass + Product(claim, flood), weight + flood) == Diluted(weight, Alpha(mass, weight), flood, claim)
  {
    RatioTimes(mass, weight);
  }

  /** On fresh evidence the honest forecasts keep their weight. */
  lemma FreshMean(root: nat -> real, agents: map<Id, AgentSnapshot>, prior: real,
                  honest: seq<ForecastSnapshot>, sybils: seq<ForecastSnapshot>,
                  before: AggregationResult, after: AggregationResult, claim: real)
    requires AllKnown(honest, agents) && AllKnown(honest + sybils, agents)
    requires FreshClusters(honest, sybils) && forall s :: s in sybils ==> s.probability == claim
    requires IsAggregate(root, honest, agents, prior, before)
    requires IsAggregate(root, honest + sybils, agents, prior, after)
    requires ExplainedWeight(before) > 0.0 && WeightOfGroup(root, agents, honest + sybils, sybils) >= 0.0
    ensures after.probability == Diluted(ExplainedWeight(before), before.probability,
                                         WeightOfGroup(root, agents, honest + sybils, sybils), claim)
  {
    var all := honest + sybils;
    ExplainedWeightIsTotal(root, agents, prior, honest, before);
    HonestKeepsItsWeight(root, agents, honest, sybils);
    SumConcat(WeightIn(root, agents, all), honest, sybils);
    SumConcat(MassIn(root, agents, all), honest, sybils);
    UniformMass(root, agents, all, sybils, claim);
    PartsDilute(TotalMass(root, agents, honest), TotalWeight(root, agents, honest),
                WeightOfGroup(root, agents, all, sybils), claim);
    assert honest != [] && all != [];
  }

  // -------------------------------------------- evidence of an honest agent

  /** Five identities against the lone voice: one cites its evidence "c", four
      bring evidence of their own. */
  function FiveVoices(): seq<ForecastSnapshot> {
    [ForecastSnapshot("s1", "t", PROBABILITY_CEIL, 1, "c"), ForecastSnapshot("s2", "t", PROBABILITY_CEIL, 1, "e2"),
     ForecastSnapshot("s3", "t", PROBABILITY_CEIL, 1, "e3"), ForecastSnapshot("s4", "t", PROBABILITY_CEIL, 1, "e4"),
     ForecastSnapshot("s5", "t", PROBABILITY_CEIL, 1, "e5")]
  }

  lemma {:induction false} SumOfFive<T>(f: T -> real, xs: seq<T>)
    requires |xs| == 5
    ensures Sum(f, xs) == f(xs[0]) + f(xs[1]) + f(xs[2]) + f(xs[3]) + f(xs[4])
  {
    assert xs == [] + [xs[0]] + [xs[1]] + [xs[2]] + [xs[3]] + [xs[4]];
    SumSnoc(f, [], xs[0]);
    SumSnoc(f, [] + [xs[0]], xs[1]);
    SumSnoc(f, [] + [xs[0]] + [xs[1]], xs[2]);
    SumSnoc(f, [] + [xs[0]] + [xs[1]] + [xs[2]], xs[3]);
    SumSnoc(f, [] + [xs[0]] + [xs[1]] + [xs[2]] + [xs[3]], xs[4]);
  }

  /** A cluster only the i-th forecast of the group cites, and one nobody else. */
  lemma CitedOnce(group: seq<ForecastSnapshot>, others: seq<ForecastSnapshot>, i: nat)
    requires i < |group| && forall k :: 0 <= k < |group| && k != i ==> group[k].cluster != group[i].cluster
    ensures ClusterSize(others + group, group[i].cluster) == 1 + ClusterSize(others, group[i].cluster)
  {
    var p := InCluster(group[i].cluster);
    CountConcat(p, others, group);
    CountWithout(p, group, i);
    forall s | s in Without(group, i) ensures !p(s) {
      var k :| 0 <= k < |Without(group, i)| && Without(group, i)[k] == s;
      assert s == if k < i then group[k] else group[k + 1];
    }
    CountNone(p, Without(group, i));
  }

  lemma FiveClusterSizes()
    ensures var all := LoneVoice() + FiveVoices();
            && ClusterSize(all, "c") == 2
            && forall i :: 1 <= i < 5 ==> ClusterSize(all, FiveVoices()[i].cluster) == 1
  {
    var lone, five := LoneVoice(), FiveVoices();
    assert lone[1..] == [];
    forall i | 0 <= i < 5
      ensures ClusterSize(lone + five, five[i].cluster) == 1 + (if i == 0 then 1 else 0)
    {
      CitedOnce(five, lone, i);
    }
    assert ClusterSize(lone + five, five[0].cluster) == 2 && five[0].cluster == "c";
  }

  lemma FiveVoicesWeigh(root: nat -> real, agents: map<Id, AgentSnapshot>)
    requires IsRoot(root) && "h" in agents && agents["h"].reputation == 1.0
    requires Uniform(FiveVoices(), agents, 0.1, 1, PROBABILITY_CEIL)
    ensures var all, discount := LoneVoice() + FiveVoices(), Ratio(1.0, root(2));
            && WeightOfGroup(root, agents, all, LoneVoice()) == discount
            && MassOfGroup(root, agents, all, LoneVoice()) == 0.2 * discount
            && WeightOfGroup(root, agents, all, FiveVoices()) == 0.4 + 0.1 * discount
  {
    var all, five, discount := LoneVoice() + FiveVoices(), FiveVoices(), Ratio(1.0, root(2));
    var weight := WeightIn(root, agents, all);
    FiveClusterSizes();
    RootOfOne(root);
    assert Product(1.0, 1.0) == 1.0 && Product(0.1, 1.0) == 0.1;
    assert weight(LoneVoice()[0]) == Product(1.0, discount) == discount;
    assert LoneVoice()[1..] == [];
    assert five[0] in five && weight(five[0]) == Product(0.1, discount) == 0.1 * discount;
    forall i | 1 <= i < 5 ensures weight(five[i]) == 0.1 {
      assert five[i] in five;
      assert weight(five[i]) == Product(0.1, Ratio(1.0, 1.0));
    }
    SumOfFive(weight, five);
  }

  /** 1 / sqrt(2) is below 0.78. */
  lemma DiscountOfTwo(root: nat -> real)
    requires IsRoot(root)
    ensures 0.0 < Ratio(1.0, root(2)) < 0.78
  {
    RootPositive(root, 2);
    if root(2) <= 1.3 { SquareLe(root(2), 1.3); }
    RatioPositive(1.0, root(2));
    RatioCompare(1.0, root(2), 0.78);
    assert Product(0.78, root(2)) > 1.0;
  }

  lemma PullBeatsLack(discount: real)
    requires 0.0 < discount < 0.78
    ensures Product(0.4 + 0.1 * discount, PROBABILITY_CEIL - 0.5) > Product(0.5, discount) - 0.2 * discount
  {
    assert Product(0.4 + 0.1 * discount, 0.49) == 0.196 + 0.049 * discount;
  }

  lemma PassByWeights(root: nat -> real, agents: map<Id, AgentSnapshot>, honest: seq<ForecastSnapshot>,
                      sybils: seq<ForecastSnapshot>, after: AggregationResult, discount: real)
    requires AllKnown(honest + sybils, agents) && (forall s :: s in sybils ==> s.probability == PROBABILITY_CEIL)
    requires IsAggregate(root, honest + sybils, agents, 0.5, after) && 0.0 < discount < 0.78
    requires WeightOfGroup(root, agents, honest + sybils, honest) == discount
    requires MassOfGroup(root, agents, honest + sybils, honest) == 0.2 * discount
    requires WeightOfGroup(root, agents, honest + sybils, sybils) == 0.4 + 0.1 * discount
    ensures Contest(0.5, 1, 1.0, 1.0).Sound() && Contest(0.5, 1, 1.0, 1.0).Passed(after.probability)
  {
    var contest := Contest(0.5, 1, 1.0, 1.0);
    PullBeatsLack(discount);
    SumConcat(WeightIn(root, agents, honest + sybils), honest, sybils);
    assert contest.Sound() && contest.Threshold() == 0.5;
    AnyFloodReachesExactlyWhen(root, agents, 0.5, contest, honest, sybils, after, PROBABILITY_CEIL);
  }

  lemma FivePass(root: nat -> real, agents: map<Id, AgentSnapshot>, after: AggregationResult)
    requires IsRoot(root) && "h" in agents && agents["h"].reputation == 1.0
    requires AllKnown(LoneVoice() + FiveVoices(), agents)
    requires Uniform(FiveVoices(), agents, 0.1, 1, PROBABILITY_CEIL)
    requires IsAggregate(root, LoneVoice() + FiveVoices(), agents, 0.5, after)
    ensures Contest(0.5, 1, 1.0, 1.0).Sound() && Contest(0.5, 1, 1.0, 1.0).Passed(after.probability)
  {
    FiveVoicesWeigh(root, agents);
    DiscountOfTwo(root);
    PassByWeights(root, agents, LoneVoice(), FiveVoices(), after, Ratio(1.0, root(2)));
  }

  /** Five beat seven: where seven identities are quoted, and needed on fresh
      evidence, five pass the defender when one of them cites the honest
      agent's own. */
  lemma FiveBeatSeven(root: nat -> real, agents: map<Id, AgentSnapshot>, before: AggregationResult,
                      after: AggregationResult)
    requires IsRoot(root) && "h" in agents && agents["h"].reputation == 1.0
    requires AllKnown(LoneVoice(), agents) && AllKnown(LoneVoice() + FiveVoices(), agents)
    requires Uniform(FiveVoices(), agents, 0.1, 1, PROBABILITY_CEIL)
    requires IsAggregate(root, LoneVoice(), agents, 0.5, before)
    requires IsAggregate(root, LoneVoice() + FiveVoices(), agents, 0.5, after)
    ensures var contest := Contest(0.5, 1, 1.0, 1.0);
            && contest.Sound() && contest.Passed(after.probability)
            && var quote := contest.Quote(root, ExplainedWeight(before), before.probability, 0.1, 1, false,
                                          PROBABILITY_CEIL, 0.5);
               quote.feasible && quote.identities == 7 && |FiveVoices()| == 5
  {
    LoneVoiceWeighs(root, agents, before);
    SevenQuoted(root);
    FivePass(root, agents, after);
  }
}
