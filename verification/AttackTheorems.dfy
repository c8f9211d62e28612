/** The price is exact on fresh evidence: run through the real aggregation and
    priority score, the quoted identity count is the least one that reaches the
    defender, when the identities cite nothing an honest agent cites and all
    their evidence is distinct, or all of it shared. Any other evidence is the
    matter of EvidenceTheorems. */
module AttackTheorems {
  import opened Orders
  import opened Types
  import opened Reals
  import opened Rounding
  import opened Sums
  import opened Market
  import opened MarketTheorems
  import opened Ranking
  import opened Attack

  /** Every adversarial forecast has the same reputation, stake and claim. */
  ghost predicate Uniform(sybils: seq<ForecastSnapshot>, agents: map<Id, AgentSnapshot>,
                          reputation: real, stake: nat, claim: real) {
    forall s :: s in sybils ==>
      s.agentId in agents && agents[s.agentId].reputation == reputation && s.stake == stake && s.probability == claim
  }

  ghost predicate FreshClusters(honest: seq<ForecastSnapshot>, sybils: seq<ForecastSnapshot>) {
    forall h, s :: h in honest && s in sybils ==> h.cluster != s.cluster
  }

  ghost predicate DistinctEvidence(sybils: seq<ForecastSnapshot>) {
    forall i, j :: 0 <= i < j < |sybils| ==> sybils[i].cluster != sybils[j].cluster
  }

  ghost predicate SharedEvidence(sybils: seq<ForecastSnapshot>) {
    forall i, j :: 0 <= i < j < |sybils| ==> sybils[i].cluster == sybils[j].cluster
  }

  /** How many adversarial forecasts end up in each adversarial cluster. */
  function Crowd(sybils: seq<ForecastSnapshot>, shared: bool): nat { if shared then |sybils| else 1 }

  /** A uniform flood on fresh evidence, all distinct or all shared. */
  ghost predicate IsFlood(agents: map<Id, AgentSnapshot>, honest: seq<ForecastSnapshot>, sybils: seq<ForecastSnapshot>,
                          reputation: real, stake: nat, claim: real, shared: bool) {
    && Uniform(sybils, agents, reputation, stake, claim)
    && FreshClusters(honest, sybils)
    && (if shared then SharedEvidence(sybils) else DistinctEvidence(sybils))
  }

  /** The contested slot: the defender's priority and the target's own terms,
      which must describe an attack at all. */
  datatype Contest = Contest(defender: real, impact: int, urgency: real, reviewCost: real) {
    predicate Sound() { reviewCost > 0.0 && Product(impact as real, urgency) > 0.0 }

    /** Scored by the real priority, the probability reaches the defender. */
    predicate Reached(probability: real)
      requires Sound()
    {
      PriorityScore(probability, impact, urgency, reviewCost).value >= defender
    }

    /** Scored by the real priority, the probability passes the defender. */
    predicate Passed(probability: real)
      requires Sound()
    {
      PriorityScore(probability, impact, urgency, reviewCost).value > defender
    }

    function Threshold(): real
      requires Sound()
    {
      RequiredProbability(defender, impact, urgency, reviewCost).value
    }

    function Quote(root: nat -> real, weight: real, probability: real, reputation: real, stake: int,
                   shared: bool, claim: real, prior: real): AttackCost
      requires Sound()
    {
      StakerouteAttackCost(root, defender, impact, urgency, reviewCost, weight, probability,
                           reputation, stake, shared, claim, prior).value
    }
  }

  // ---------------------------------------------------- weights of the flood

  lemma SybilClusterSize(honest: seq<ForecastSnapshot>, sybils: seq<ForecastSnapshot>, shared: bool, i: nat)
    requires FreshClusters(honest, sybils) && i < |sybils|
    requires if shared then SharedEvidence(sybils) else DistinctEvidence(sybils)
    ensures ClusterSize(honest + sybils, sybils[i].cluster) == Crowd(sybils, shared)
  {
    var p := InCluster(sybils[i].cluster);
    CountConcat(p, honest, sybils);
    assert sybils[i] in sybils;
    CountNone(p, honest);
    if shared {
      CountAll(p, sybils);
    } else {
      CountWithout(p, sybils, i);
      forall s | s in Without(sybils, i) ensures !p(s) {
        var k :| 0 <= k < |Without(sybils, i)| && Without(sybils, i)[k] == s;
        assert s == if k < i then sybils[k] else sybils[k + 1];
      }
      CountNone(p, Without(sybils, i));
    }
  }

  lemma HonestClusterSize(honest: seq<ForecastSnapshot>, sybils: seq<ForecastSnapshot>, h: ForecastSnapshot)
    requires FreshClusters(honest, sybils) && h in honest
    ensures ClusterSize(honest + sybils, h.cluster) == ClusterSize(honest, h.cluster)
  {
    CountConcat(InCluster(h.cluster), honest, sybils);
    CountNone(InCluster(h.cluster), sybils);
  }

  /** What one adversarial identity weighs in a crowd of the given size. */
  function SybilWeight(root: nat -> real, reputation: real, stake: nat, crowd: nat): real {
    Product(Product(reputation, root(stake)), Ratio(1.0, root(crowd)))
  }

  /** The weight the whole flood adds. */
  function FloodWeight(root: nat -> real, sybils: seq<ForecastSnapshot>, reputation: real, stake: nat,
                       shared: bool): real {
    Times(|sybils|, SybilWeight(root, reputation, stake, Crowd(sybils, shared)))
  }

  lemma HonestKeepsItsWeight(root: nat -> real, agents: map<Id, AgentSnapshot>,
                             honest: seq<ForecastSnapshot>, sybils: seq<ForecastSnapshot>)
    requires FreshClusters(honest, sybils)
    ensures Sum(WeightIn(root, agents, honest + sybils), honest) == TotalWeight(root, agents, honest)
    ensures Sum(MassIn(root, agents, honest + sybils), honest) == TotalMass(root, agents, honest)
  {
    forall h | h in honest
      ensures WeightIn(root, agents, honest + sybils)(h) == WeightIn(root, agents, honest)(h)
      ensures MassIn(root, agents, honest + sybils)(h) == MassIn(root, agents, honest)(h)
    {
      HonestClusterSize(honest, sybils, h);
    }
    SumAgree(WeightIn(root, agents, honest + sybils), WeightIn(root, agents, honest), honest);
    SumAgree(MassIn(root, agents, honest + sybils), MassIn(root, agents, honest), honest);
  }

  lemma FloodTotals(root: nat -> real, agents: map<Id, AgentSnapshot>,
                    honest: seq<ForecastSnapshot>, sybils: seq<ForecastSnapshot>,
                    reputation: real, stake: nat, claim: real, shared: bool)
    requires IsFlood(agents, honest, sybils, reputation, stake, claim, shared)
    ensures Sum(WeightIn(root, agents, honest + sybils), sybils) == FloodWeight(root, sybils, reputation, stake, shared)
    ensures Sum(MassIn(root, agents, honest + sybils), sybils)
              == Product(claim, FloodWeight(root, sybils, reputation, stake, shared))
  {
    var weight, mass := WeightIn(root, agents, honest + sybils), MassIn(root, agents, honest + sybils);
    var u := SybilWeight(root, reputation, stake, Crowd(sybils, shared));
    forall s | s in sybils ensures weight(s) == u && mass(s) == Product(claim, weight(s)) {
      var i :| 0 <= i < |sybils| && sybils[i] == s;
      SybilClusterSize(honest, sybils, shared, i);
    }
    SumConstant(weight, sybils, u);
    SumScaled(weight, mass, sybils, claim);
  }

  lemma Totals(root: nat -> real, agents: map<Id, AgentSnapshot>,
               honest: seq<ForecastSnapshot>, sybils: seq<ForecastSnapshot>,
               reputation: real, stake: nat, claim: real, shared: bool)
    requires IsFlood(agents, honest, sybils, reputation, stake, claim, shared)
    ensures var flood := FloodWeight(root, sybils, reputation, stake, shared);
            && TotalWeight(root, agents, honest + sybils) == TotalWeight(root, agents, honest) + flood
            && TotalMass(root, agents, honest + sybils) == TotalMass(root, agents, honest) + Product(claim, flood)
  {
    SumConcat(WeightIn(root, agents, honest + sybils), honest, sybils);
    SumConcat(MassIn(root, agents, honest + sybils), honest, sybils);
    HonestKeepsItsWeight(root, agents, honest, sybils);
    FloodTotals(root, agents, honest, sybils, reputation, stake, claim, shared);
  }

  /** The flood's weight: linear in its size on distinct evidence, linear in
      the root of its size on shared evidence. */
  lemma FloodWeightIs(root: nat -> real, sybils: seq<ForecastSnapshot>, reputation: real, stake: nat, shared: bool)
    requires IsRoot(root)
    ensures var unit := Product(reputation, root(stake));
            FloodWeight(root, sybils, reputation, stake, shared)
              == Product(unit, if shared then root(|sybils|) else |sybils| as real)
  {
    var unit, n := Product(reputation, root(stake)), |sybils|;
    TimesIsProduct(n, SybilWeight(root, reputation, stake, Crowd(sybils, shared)));
    if shared {
      if n > 0 {
        RootPositive(root, n);
        NOverRoot(root, n, unit);
      } else {
        RootOfZero(root);
        assert Product(unit, 0.0) == 0.0;
      }
    } else {
      RootOfOne(root);
      assert Product(unit, Ratio(1.0, 1.0)) == unit;
    }
  }

  lemma NOverRoot(root: nat -> real, n: nat, unit: real)
    requires IsRoot(root) && root(n) > 0.0
    ensures n as real * Product(unit, Ratio(1.0, root(n))) == Product(unit, root(n))
  {
    var x := root(n);
    RatioTimes(1.0, x);
    assert n as real * Ratio(1.0, x) == x * (x * Ratio(1.0, x));
    assert n as real * (unit * Ratio(1.0, x)) == unit * (n as real * Ratio(1.0, x));
  }

  lemma RootOfZero(root: nat -> real)
    requires IsRoot(root)
    ensures root(0) == 0.0
  {
    if root(0) > 0.0 { ProductPositive(root(0), root(0)); }
  }

  // ------------------------------------------------------- the three inverses

  /** `required_probability` inverts the priority score. */
  lemma ThresholdInvertsPriority(contest: Contest, p: real)
    requires contest.Sound()
    ensures contest.Reached(p) <==> p >= contest.Threshold()
    ensures contest.Passed(p) <==> p > contest.Threshold()
  {
    var scale := Product(contest.impact as real, contest.urgency);
    RatioCompare(Product(p, scale), contest.reviewCost, contest.defender);
    RatioCompare(Product(contest.defender, contest.reviewCost), scale, p);
  }

  /** The mean of honest weight at h and flood weight at the claim. */
  function Diluted(honest: real, h: real, flood: real, claim: real): real {
    Ratio(Product(h, honest) + Product(claim, flood), honest + flood)
  }

  lemma GapAndHeadroom(honest: real, h: real, flood: real, claim: real, t: real)
    requires honest > 0.0 && flood >= 0.0
    ensures Diluted(honest, h, flood, claim) >= t <==> Product(flood, claim - t) >= Product(honest, t - h)
  {
    RatioCompare(Product(h, honest) + Product(claim, flood), honest + flood, t);
  }

  /** `required_adversary_weight` inverts the weighted mean: adding flood
      weight reaches the target exactly from the returned weight on, and never
      when it returns None. */
  lemma WeightInvertsMean(honest: real, h: real, flood: real, claim: real, t: real)
    requires honest > 0.0 && flood >= 0.0 && h < t
    ensures var needed := RequiredAdversaryWeight(honest, h, t, claim);
            && (Diluted(honest, h, flood, claim) >= t <==> needed.Some? && flood >= needed.value)
            && (needed.Some? ==> needed.value > 0.0)
  {
    GapAndHeadroom(honest, h, flood, claim, t);
    ProductPositive(honest, t - h);
    if claim > t {
      RatioCompare(Product(honest, t - h), claim - t, flood);
      RatioPositive(Product(honest, t - h), claim - t);
    } else {
      ProductNonNegative(flood, t - claim);
      assert Product(flood, claim - t) == -Product(flood, t - claim);
    }
  }

  lemma RatioPositive(x: real, y: real)
    requires x > 0.0 && y > 0.0
    ensures Ratio(x, y) > 0.0
  {
    RatioCompare(x, y, 0.0);
    assert Product(0.0, y) == 0.0;
  }

  lemma RootAtLeast(root: nat -> real, n: nat, x: real)
    requires IsRoot(root) && x > 0.0
    ensures root(n) >= x <==> n as real >= Product(x, x)
  {
    if root(n) >= x { SquareLe(x, root(n)); } else { SquareLt(root(n), x); }
  }

  lemma SquareLt(x: real, y: real)
    requires 0.0 <= x < y
    ensures Product(x, x) < Product(y, y)
  {
    ProductPositive(y - x, y + x);
    assert Product(y - x, y + x) == Product(y, y) - Product(x, x);
  }

  lemma CountAtLeast(n: nat, x: real)
    requires x > 0.0
    ensures n as real >= x <==> n >= AtLeastOne(Ceil(x))
  {
  }

  lemma DistinctCount(unit: real, n: nat, weight: real)
    requires unit > 0.0 && weight > 0.0
    ensures Product(unit, n as real) >= weight <==> n >= AtLeastOne(Ceil(Ratio(weight, unit)))
  {
    RatioPositive(weight, unit);
    RatioCompare(weight, unit, n as real);
    CountAtLeast(n, Ratio(weight, unit));
  }

  lemma SharedCount(root: nat -> real, unit: real, n: nat, weight: real)
    requires IsRoot(root) && unit > 0.0 && weight > 0.0
    ensures var x := Ratio(weight, unit);
            Product(unit, root(n)) >= weight <==> n >= AtLeastOne(Ceil(Product(x, x)))
  {
    var x := Ratio(weight, unit);
    RatioPositive(weight, unit);
    RatioCompare(weight, unit, root(n));
    RootAtLeast(root, n, x);
    ProductPositive(x, x);
    CountAtLeast(n, Product(x, x));
  }

  /** `sybil_identities_required` inverts the flood's weight: a uniform flood
      musters the weight exactly from the returned count on. */
  lemma IdentitiesInvertWeight(root: nat -> real, sybils: seq<ForecastSnapshot>, weight: real,
                               reputation: real, stake: nat, shared: bool)
    requires IsRoot(root) && weight > 0.0 && reputation >= 0.0
    ensures var needed := SybilIdentitiesRequired(root, weight, reputation, stake, shared);
            && (FloodWeight(root, sybils, reputation, stake, shared) >= weight <==>
                needed.Some? && |sybils| >= needed.value)
            && (needed.Some? ==> needed.value >= 1)
  {
    var unit, n := Product(reputation, root(stake)), |sybils|;
    FloodWeightIs(root, sybils, reputation, stake, shared);
    if reputation > 0.0 && stake > 0 {
      RootPositive(root, stake);
      ProductPositive(reputation, root(stake));
      if shared { SharedCount(root, unit, n, weight); } else { DistinctCount(unit, n, weight); }
    } else {
      RootOfZero(root);
      assert unit == 0.0;
      assert Product(0.0, if shared then root(n) else n as real) == 0.0;
    }
  }

  // ---------------------------------------------------------- the exact price

  lemma FloodNonNegative(root: nat -> real, sybils: seq<ForecastSnapshot>, reputation: real, stake: nat, shared: bool)
    requires IsRoot(root) && reputation >= 0.0
    ensures FloodWeight(root, sybils, reputation, stake, shared) >= 0.0
  {
    FloodWeightIs(root, sybils, reputation, stake, shared);
    ProductNonNegative(reputation, root(stake));
    ProductNonNegative(Product(reputation, root(stake)), if shared then root(|sybils|) else |sybils| as real);
  }

  /** The aggregate after the flood, in closed form. */
  lemma AttackedProbability(root: nat -> real, agents: map<Id, AgentSnapshot>, prior: real,
                            honest: seq<ForecastSnapshot>, sybils: seq<ForecastSnapshot>,
                            before: AggregationResult, after: AggregationResult,
                            reputation: real, stake: nat, claim: real, shared: bool)
    requires IsRoot(root) && AllKnown(honest, agents) && AllKnown(honest + sybils, agents) && reputation >= 0.0
    requires IsFlood(agents, honest, sybils, reputation, stake, claim, shared)
    requires IsAggregate(root, honest, agents, prior, before)
    requires IsAggregate(root, honest + sybils, agents, prior, after)
    requires ExplainedWeight(before) > 0.0
    ensures after.probability == Diluted(ExplainedWeight(before), before.probability,
                                         FloodWeight(root, sybils, reputation, stake, shared), claim)
  {
    ExplainedWeightIsTotal(root, agents, prior, honest, before);
    Totals(root, agents, honest, sybils, reputation, stake, claim, shared);
    FloodNonNegative(root, sybils, reputation, stake, shared);
    RatioTimes(TotalMass(root, agents, honest), TotalWeight(root, agents, honest));
    assert honest != [];
  }

  /** The three inverses composed. */
  lemma QuoteInvertsDilution(root: nat -> real, contest: Contest, sybils: seq<ForecastSnapshot>,
                             weight: real, h: real, reputation: real, stake: nat, shared: bool, claim: real,
                             prior: real)
    requires IsRoot(root) && contest.Sound() && weight > 0.0 && reputation >= 0.0 && h < contest.Threshold()
    ensures var quote := contest.Quote(root, weight, h, reputation, stake, shared, claim, prior);
            Diluted(weight, h, FloodWeight(root, sybils, reputation, stake, shared), claim) >= contest.Threshold() <==>
            (quote.feasible && |sybils| >= quote.identities)
  {
    var flood := FloodWeight(root, sybils, reputation, stake, shared);
    FloodNonNegative(root, sybils, reputation, stake, shared);
    WeightInvertsMean(weight, h, flood, claim, contest.Threshold());
    var needed := RequiredAdversaryWeight(weight, h, contest.Threshold(), claim);
    if needed.Some? {
      IdentitiesInvertWeight(root, sybils, needed.value, reputation, stake, shared);
    }
  }

  /** The quoted price is exact. For any honest forecasts that carry weight and
      do not yet reach the defender, and any uniform flood on fresh evidence -
      all distinct or all shared - the real aggregate of the two, scored by the
      real priority, reaches the defender exactly when the attack is quoted
      feasible and the flood is at least as large as quoted. */
  lemma ExactPrice(root: nat -> real, agents: map<Id, AgentSnapshot>, prior: real, contest: Contest,
                   honest: seq<ForecastSnapshot>, sybils: seq<ForecastSnapshot>,
                   before: AggregationResult, after: AggregationResult,
                   reputation: real, stake: nat, claim: real, shared: bool)
    requires IsRoot(root) && AllKnown(honest, agents) && AllKnown(honest + sybils, agents) && reputation >= 0.0
    requires IsFlood(agents, honest, sybils, reputation, stake, claim, shared)
    requires IsAggregate(root, honest, agents, prior, before)
    requires IsAggregate(root, honest + sybils, agents, prior, after)
    requires ExplainedWeight(before) > 0.0 && contest.Sound() && !contest.Reached(before.probability)
    ensures var quote := contest.Quote(root, ExplainedWeight(before), before.probability,
                                       reputation, stake, shared, claim, prior);
            contest.Reached(after.probability) <==> quote.feasible && |sybils| >= quote.identities
  {
    AttackedProbability(root, agents, prior, honest, sybils, before, after, reputation, stake, claim, shared);
    PriceOf(root, prior, contest, sybils, ExplainedWeight(before), before.probability, after.probability,
            reputation, stake, claim, shared);
  }

  lemma PriceOf(root: nat -> real, prior: real, contest: Contest, sybils: seq<ForecastSnapshot>,
                weight: real, before: real, after: real, reputation: real, stake: nat, claim: real, shared: bool)
    requires IsRoot(root) && reputation >= 0.0 && weight > 0.0 && contest.Sound() && !contest.Reached(before)
    requires after == Diluted(weight, before, FloodWeight(root, sybils, reputation, stake, shared), claim)
    ensures var quote := contest.Quote(root, weight, before, reputation, stake, shared, claim, prior);
            contest.Reached(after) <==> quote.feasible && |sybils| >= quote.identities
  {
    ThresholdInvertsPriority(contest, before);
    ThresholdInvertsPriority(contest, after);
    QuoteInvertsDilution(root, contest, sybils, weight, before, reputation, stake, shared, claim, prior);
  }

  // ------------------------------------------------------- beyond the tie

  /** The count before it is rounded up to whole identities. */
  function UnroundedCount(root: nat -> real, weight: real, reputation: real, stake: nat, shared: bool): real {
    var x := Ratio(weight, Product(reputation, root(stake)));
    if shared then Product(x, x) else x
  }

  lemma RootAbove(root: nat -> real, n: nat, x: real)
    requires IsRoot(root) && x > 0.0
    ensures root(n) > x <==> n as real > Product(x, x)
  {
    if root(n) > x { SquareLt(x, root(n)); } else { SquareLe(root(n), x); }
  }

  /** A uniform flood outweighs the weight exactly beyond the unrounded count. */
  lemma StrictlyOutweighs(root: nat -> real, sybils: seq<ForecastSnapshot>, weight: real,
                          reputation: real, stake: nat, shared: bool)
    requires IsRoot(root) && weight > 0.0 && reputation >= 0.0
    ensures FloodWeight(root, sybils, reputation, stake, shared) > weight <==>
            (reputation > 0.0 && stake > 0
             && |sybils| as real > UnroundedCount(root, weight, reputation, stake, shared))
  {
    var unit, n := Product(reputation, root(stake)), |sybils|;
    FloodWeightIs(root, sybils, reputation, stake, shared);
    if reputation > 0.0 && stake > 0 {
      RootPositive(root, stake);
      ProductPositive(reputation, root(stake));
      RatioPositive(weight, unit);
      RatioCompare(weight, unit, if shared then root(n) else n as real);
      if shared { RootAbove(root, n, Ratio(weight, unit)); }
    } else {
      RootOfZero(root);
      assert unit == 0.0;
      assert Product(0.0, if shared then root(n) else n as real) == 0.0;
    }
  }

  lemma StrictGapAndHeadroom(honest: real, h: real, flood: real, claim: real, t: real)
    requires honest > 0.0 && flood >= 0.0
    ensures Diluted(honest, h, flood, claim) > t <==> Product(flood, claim - t) > Product(honest, t - h)
  {
    RatioCompare(Product(h, honest) + Product(claim, flood), honest + flood, t);
  }

  /** The mean passes the target exactly when the flood outweighs what
      `required_adversary_weight` returns. */
  lemma StrictlyDiluted(honest: real, h: real, flood: real, claim: real, t: real)
    requires honest > 0.0 && flood >= 0.0 && h < t
    ensures var needed := RequiredAdversaryWeight(honest, h, t, claim);
            Diluted(honest, h, flood, claim) > t <==> needed.Some? && flood > needed.value
  {
    StrictGapAndHeadroom(honest, h, flood, claim, t);
    ProductPositive(honest, t - h);
    if claim > t {
      RatioCompare(Product(honest, t - h), claim - t, flood);
    } else {
      ProductNonNegative(flood, t - claim);
      assert Product(flood, claim - t) == -Product(flood, t - claim);
    }
  }

  /** The quote's own count, unrounded. */
  function Unrounded(root: nat -> real, quote: AttackCost, stake: nat): real {
    if quote.requiredWeight.None? then 0.0
    else UnroundedCount(root, quote.requiredWeight.value, quote.reputation, stake, quote.shared)
  }

  lemma QuoteRoundsUp(root: nat -> real, contest: Contest, weight: real, h: real,
                      reputation: real, stake: nat, shared: bool, claim: real, prior: real)
    requires IsRoot(root) && contest.Sound() && weight > 0.0 && reputation >= 0.0 && h < contest.Threshold()
    ensures var quote := contest.Quote(root, weight, h, reputation, stake, shared, claim, prior);
            quote.feasible ==>
              Unrounded(root, quote, stake) <= quote.identities as real < Unrounded(root, quote, stake) + 1.0
  {
    WeightInvertsMean(weight, h, 0.0, claim, contest.Threshold());
    var needed := RequiredAdversaryWeight(weight, h, contest.Threshold(), claim);
    if needed.Some? && reputation > 0.0 && stake > 0 {
      RootPositive(root, stake);
      ProductPositive(reputation, root(stake));
      RatioPositive(needed.value, Product(reputation, root(stake)));
      var x := Ratio(needed.value, Product(reputation, root(stake)));
      ProductPositive(x, x);
    }
  }

  lemma PassingQuote(root: nat -> real, contest: Contest, sybils: seq<ForecastSnapshot>, weight: real, h: real,
                     reputation: real, stake: nat, shared: bool, claim: real, prior: real)
    requires IsRoot(root) && contest.Sound() && weight > 0.0 && reputation >= 0.0 && h < contest.Threshold()
    ensures var quote := contest.Quote(root, weight, h, reputation, stake, shared, claim, prior);
            Diluted(weight, h, FloodWeight(root, sybils, reputation, stake, shared), claim) > contest.Threshold() <==>
            (quote.feasible && |sybils| as real > Unrounded(root, quote, stake))
  {
    var flood := FloodWeight(root, sybils, reputation, stake, shared);
    FloodNonNegative(root, sybils, reputation, stake, shared);
    WeightInvertsMean(weight, h, 0.0, claim, contest.Threshold());
    StrictlyDiluted(weight, h, flood, claim, contest.Threshold());
    var needed := RequiredAdversaryWeight(weight, h, contest.Threshold(), claim);
    if needed.Some? { StrictlyOutweighs(root, sybils, needed.value, reputation, stake, shared); }
  }

  /** Beyond the tie. Under the same conditions as ExactPrice the target passes
      the defender strictly exactly when the quote is feasible and the flood
      exceeds the count before rounding: the quoted count itself passes unless
      nothing was rounded, one identity more always does. */
  lemma PassedExactlyWhen(root: nat -> real, agents: map<Id, AgentSnapshot>, prior: real, contest: Contest,
                          honest: seq<ForecastSnapshot>, sybils: seq<ForecastSnapshot>,
                          before: AggregationResult, after: AggregationResult,
                          reputation: real, stake: nat, claim: real, shared: bool)
    requires IsRoot(root) && AllKnown(honest, agents) && AllKnown(honest + sybils, agents) && reputation >= 0.0
    requires IsFlood(agents, honest, sybils, reputation, stake, claim, shared)
    requires IsAggregate(root, honest, agents, prior, before)
    requires IsAggregate(root, honest + sybils, agents, prior, after)
    requires ExplainedWeight(before) > 0.0 && contest.Sound() && !contest.Reached(before.probability)
    ensures var quote := contest.Quote(root, ExplainedWeight(before), before.probability,
                                       reputation, stake, shared, claim, prior);
            && (contest.Passed(after.probability) <==>
                quote.feasible && |sybils| as real > Unrounded(root, quote, stake))
            && (quote.feasible ==>
                  Unrounded(root, quote, stake) <= quote.identities as real < Unrounded(root, quote, stake) + 1.0)
  {
    AttackedProbability(root, agents, prior, honest, sybils, before, after, reputation, stake, claim, shared);
    ThresholdInvertsPriority(contest, before.probability);
    ThresholdInvertsPriority(contest, after.probability);
    PassingQuote(root, contest, sybils, ExplainedWeight(before), before.probability,
                 reputation, stake, shared, claim, prior);
    QuoteRoundsUp(root, contest, ExplainedWeight(before), before.probability,
                  reputation, stake, shared, claim, prior);
  }

  // --------------------------------------------------------- worked prices

  function LoneVoice(): seq<ForecastSnapshot> { [ForecastSnapshot("h", "t", 0.2, 1, "c")] }

  lemma LoneVoiceWeighs(root: nat -> real, agents: map<Id, AgentSnapshot>, before: AggregationResult)
    requires IsRoot(root) && "h" in agents && agents["h"].reputation == 1.0 && AllKnown(LoneVoice(), agents)
    requires IsAggregate(root, LoneVoice(), agents, 0.5, before)
    ensures ExplainedWeight(before) == 1.0 && before.probability == 0.2
  {
    var f := LoneVoice()[0];
    RootOfOne(root);
    assert LoneVoice()[1..] == [];
    assert ClusterSize(LoneVoice(), "c") == 1 + Count(InCluster("c"), []);
    assert Weight(root, agents, LoneVoice(), f) == Product(Product(1.0, 1.0), Ratio(1.0, 1.0)) == 1.0;
    assert TotalWeight(root, agents, LoneVoice()) == 1.0;
    assert TotalMass(root, agents, LoneVoice()) == Product(1.0, 0.2) == 0.2;
    ExplainedWeightIsTotal(root, agents, 0.5, LoneVoice(), before);
  }

  /** A worked price: against one fully trusted agent staking 1 on 0.2, and a
      defender at 0.5, identities at the reputation floor that stake 1, claim
      0.99 and cite fresh, distinct evidence pass the defender from the seventh
      on, and not before. (EvidenceTheorems.FiveBeatSeven: on other evidence
      fewer can.) */
  lemma SevenIdentities(root: nat -> real, agents: map<Id, AgentSnapshot>, sybils: seq<ForecastSnapshot>,
                        before: AggregationResult, after: AggregationResult)
    requires IsRoot(root) && "h" in agents && agents["h"].reputation == 1.0
    requires AllKnown(LoneVoice(), agents) && AllKnown(LoneVoice() + sybils, agents)
    requires IsFlood(agents, LoneVoice(), sybils, 0.1, 1, PROBABILITY_CEIL, false)
    requires IsAggregate(root, LoneVoice(), agents, 0.5, before)
    requires IsAggregate(root, LoneVoice() + sybils, agents, 0.5, after)
    ensures Contest(0.5, 1, 1.0, 1.0).Sound()
    ensures Contest(0.5, 1, 1.0, 1.0).Reached(after.probability) <==> |sybils| >= 7
    ensures Contest(0.5, 1, 1.0, 1.0).Passed(after.probability) <==> |sybils| >= 7
  {
    var contest := Contest(0.5, 1, 1.0, 1.0);
    LoneVoiceWeighs(root, agents, before);
    ExactPrice(root, agents, 0.5, contest, LoneVoice(), sybils, before, after, 0.1, 1, PROBABILITY_CEIL, false);
    RootOfOne(root);
    SevenQuoted(root);
    if |sybils| >= 7 { SevenWeighEnough(root, agents, sybils, before, after); }
  }

  lemma SevenQuoted(root: nat -> real)
    requires IsRoot(root)
    ensures Contest(0.5, 1, 1.0, 1.0).Sound()
    ensures var quote := Contest(0.5, 1, 1.0, 1.0).Quote(root, 1.0, 0.2, 0.1, 1, false, PROBABILITY_CEIL, 0.5);
            quote.feasible && quote.identities == 7
  {
    RootOfOne(root);
    assert RequiredAdversaryWeight(1.0, 0.2, 0.5, PROBABILITY_CEIL) == Some(0.3 / 0.49);
    var x := Ratio(0.3 / 0.49, Product(0.1, 1.0));
    assert 6.0 < x < 7.0;
    assert Ceil(x) == 7;
  }

  lemma SevenWeighEnough(root: nat -> real, agents: map<Id, AgentSnapshot>, sybils: seq<ForecastSnapshot>,
                         before: AggregationResult, after: AggregationResult)
    requires IsRoot(root) && AllKnown(LoneVoice(), agents) && AllKnown(LoneVoice() + sybils, agents)
    requires IsFlood(agents, LoneVoice(), sybils, 0.1, 1, PROBABILITY_CEIL, false) && |sybils| >= 7
    requires IsAggregate(root, LoneVoice(), agents, 0.5, before)
    requires IsAggregate(root, LoneVoice() + sybils, agents, 0.5, after)
    requires ExplainedWeight(before) == 1.0 && before.probability == 0.2
    ensures Contest(0.5, 1, 1.0, 1.0).Passed(after.probability)
  {
    var contest, flood := Contest(0.5, 1, 1.0, 1.0), FloodWeight(root, sybils, 0.1, 1, false);
    AttackedProbability(root, agents, 0.5, LoneVoice(), sybils, before, after, 0.1, 1, PROBABILITY_CEIL, false);
    FloodWeightIs(root, sybils, 0.1, 1, false);
    RootOfOne(root);
    assert Product(0.1, 1.0) == 0.1 && flood == Product(0.1, |sybils| as real) >= 0.7;
    assert RequiredAdversaryWeight(1.0, 0.2, 0.5, PROBABILITY_CEIL) == Some(0.3 / 0.49);
    StrictlyDiluted(1.0, 0.2, flood, PROBABILITY_CEIL, 0.5);
  }

  /** The quoted count can buy no more than a tie: against a defender at 0.595
      one fully trusted identity is quoted, and brings the target to exactly
      0.595. */
  lemma OneIdentityTies(root: nat -> real, agents: map<Id, AgentSnapshot>, sybils: seq<ForecastSnapshot>,
                        before: AggregationResult, after: AggregationResult)
    requires IsRoot(root) && "h" in agents && agents["h"].reputation == 1.0 && |sybils| == 1
    requires AllKnown(LoneVoice(), agents) && AllKnown(LoneVoice() + sybils, agents)
    requires IsFlood(agents, LoneVoice(), sybils, 1.0, 1, PROBABILITY_CEIL, false)
    requires IsAggregate(root, LoneVoice(), agents, 0.5, before)
    requires IsAggregate(root, LoneVoice() + sybils, agents, 0.5, after)
    ensures var contest := Contest(0.595, 1, 1.0, 1.0);
            && contest.Sound()
            && var quote := contest.Quote(root, ExplainedWeight(before), before.probability, 1.0, 1, false,
                                          PROBABILITY_CEIL, 0.5);
               quote.feasible && quote.identities == 1
               && contest.Reached(after.probability) && !contest.Passed(after.probability)
  {
    LoneVoiceWeighs(root, agents, before);
    AttackedProbability(root, agents, 0.5, LoneVoice(), sybils, before, after, 1.0, 1, PROBABILITY_CEIL, false);
    FloodWeightIs(root, sybils, 1.0, 1, false);
    RootOfOne(root);
    assert FloodWeight(root, sybils, 1.0, 1, false) == Product(Product(1.0, 1.0), 1.0) == 1.0;
    assert after.probability == Ratio(Product(0.2, 1.0) + Product(0.99, 1.0), 2.0) == 0.595;
    assert RequiredAdversaryWeight(1.0, 0.2, 0.595, PROBABILITY_CEIL) == Some(1.0);
    assert Ceil(Ratio(1.0, Product(1.0, 1.0))) == 1;
  }

  /** Citing one shared source costs the square: if d distinct-evidence
      identities are needed, between (d-1) squared (excluded) and d squared
      shared ones are. */
  lemma SharedEvidenceSquaresThePrice(root: nat -> real, weight: real, reputation: real, stake: nat)
    requires IsRoot(root) && weight > 0.0 && reputation > 0.0 && stake > 0
    ensures var d := SybilIdentitiesRequired(root, weight, reputation, stake, false).value;
            var n := SybilIdentitiesRequired(root, weight, reputation, stake, true).value;
            (d - 1) * (d - 1) < n <= d * d
  {
    RootPositive(root, stake);
    ProductPositive(reputation, root(stake));
    var x := Ratio(weight, Product(reputation, root(stake)));
    RatioPositive(weight, Product(reputation, root(stake)));
    ProductPositive(x, x);
    var d := AtLeastOne(Ceil(x));
    SquareLt((d - 1) as real, x);
    SquareLe(x, d as real);
    assert Product((d - 1) as real, (d - 1) as real) == ((d - 1) * (d - 1)) as real;
    assert Product(d as real, d as real) == (d * d) as real;
  }

  lemma FewerIdentities(root: nat -> real, weight: real, low: real, high: real, stake: nat, shared: bool)
    requires IsRoot(root) && weight > 0.0 && 0.0 < low <= high && stake > 0
    ensures SybilIdentitiesRequired(root, weight, high, stake, shared).value
              <= SybilIdentitiesRequired(root, weight, low, stake, shared).value
  {
    RootPositive(root, stake);
    var u, v := Product(low, root(stake)), Product(high, root(stake));
    ProductPositive(low, root(stake));
    ProductLe(root(stake), low, high);
    var x, y := Ratio(weight, v), Ratio(weight, u);
    RatioPositive(weight, v);
    RatioPositive(weight, u);
    RatioTimes(weight, u);
    ProductLe(y, u, v);
    RatioCompare(weight, v, y);
    SquareLe(x, y);
  }

  /** What an identity's standing counts for: its reputation on distinct
      evidence, the square of it on shared evidence. */
  function Standing(reputation: real, shared: bool): real {
    if shared then Product(reputation, reputation) else reputation
  }

  /** The returned count is the quotient of a constant and the standing, rounded
      up: no reputation is charged a whole identity more than in proportion. */
  lemma CountTimesStanding(root: nat -> real, weight: real, reputation: real, stake: nat, shared: bool)
    requires IsRoot(root) && weight > 0.0 && reputation > 0.0 && stake > 0
    ensures var n := SybilIdentitiesRequired(root, weight, reputation, stake, shared).value;
            var constant := Standing(Ratio(weight, root(stake)), shared);
            Product((n - 1) as real, Standing(reputation, shared)) < constant
            && constant <= Product(n as real, Standing(reputation, shared))
  {
    var n := SybilIdentitiesRequired(root, weight, reputation, stake, shared).value;
    var k, u := Ratio(weight, root(stake)), Product(reputation, root(stake));
    var x := Ratio(weight, u);
    RootPositive(root, stake);
    ProductPositive(reputation, root(stake));
    RatioPositive(weight, u);
    UnitsCancel(weight, reputation, root(stake));
    var c := if shared then Product(x, x) else x;
    ProductPositive(x, x);
    ProductPositive(reputation, reputation);
    CountAtLeast(n, c);
    assert (n - 1) as real < c <= n as real;
    if shared { SquaresMultiply(x, reputation, k); }
    InProportion(n, c, Standing(reputation, shared));
  }

  lemma InProportion(n: nat, c: real, standing: real)
    requires standing > 0.0 && (n - 1) as real < c <= n as real
    ensures Product((n - 1) as real, standing) < Product(c, standing) <= Product(n as real, standing)
  {
    ProductPositive(c - (n - 1) as real, standing);
    ProductLe(standing, c, n as real);
  }

  lemma UnitsCancel(weight: real, reputation: real, r: real)
    requires reputation > 0.0 && r > 0.0
    ensures Product(Ratio(weight, Product(reputation, r)), reputation) == Ratio(weight, r)
  {
    ProductPositive(reputation, r);
    var x := Ratio(weight, Product(reputation, r));
    RatioTimes(weight, Product(reputation, r));
    assert Product(Product(x, reputation), r) == weight;
    RatioTimes(weight, r);
    RatioCompare(weight, r, Product(x, reputation));
  }

  lemma SquaresMultiply(x: real, y: real, k: real)
    requires Product(x, y) == k
    ensures Product(Product(x, x), Product(y, y)) == Product(k, k)
  {
    assert x * x * (y * y) == (x * y) * (x * y);
  }

  /** Reputation is the scarce input: along the frontier every level prices the
      same attacks, and the count falls in inverse proportion to the standing -
      as 1/r on distinct evidence - up to the one identity rounding can add. */
  lemma FrontierFalls(root: nat -> real, defender: real, impact: int, urgency: real, reviewCost: real,
                      honestWeight: real, honestProbability: real, reputations: seq<real>, stake: nat,
                      shared: bool, prior: real, i: nat, j: nat)
    requires IsRoot(root) && i < |reputations| && j < |reputations| && stake > 0
    requires reputations[i] > 0.0 && reputations[j] > 0.0
    ensures var frontier := AttackFrontier(root, defender, impact, urgency, reviewCost, honestWeight, honestProbability,
                                           reputations, stake, shared, prior);
            && (frontier[i].Some? <==> frontier[j].Some?)
            && (frontier[i].Some? ==>
                  var low, high := frontier[i].value, frontier[j].value;
                  && low.feasible == high.feasible
                  && Product((high.identities - 1) as real, Standing(reputations[j], shared))
                       < Product(low.identities as real, Standing(reputations[i], shared))
                  && (reputations[i] <= reputations[j] ==>
                        high.identities <= low.identities && high.credits <= low.credits))
  {
    var threshold := RequiredProbability(defender, impact, urgency, reviewCost);
    ProductPositive(reputations[i], reputations[i]);
    ProductPositive(reputations[j], reputations[j]);
    if threshold.Some? {
      var weight := RequiredAdversaryWeight(honestWeight, honestProbability, threshold.value, PROBABILITY_CEIL);
      if weight.Some? && weight.value > 0.0 {
        CountTimesStanding(root, weight.value, reputations[i], stake, shared);
        CountTimesStanding(root, weight.value, reputations[j], stake, shared);
        if reputations[i] <= reputations[j] {
          FewerIdentities(root, weight.value, reputations[i], reputations[j], stake, shared);
          var m := SybilIdentitiesRequired(root, weight.value, reputations[i], stake, shared).value;
          var n := SybilIdentitiesRequired(root, weight.value, reputations[j], stake, shared).value;
          BillLe(n, m, stake);
        }
      }
    }
  }

  lemma BillLe(n: nat, m: nat, stake: nat)
    requires n <= m
    ensures n * stake <= m * stake
  {
  }

  // ------------------------------------------------- without honest weight

  lemma UnopposedQuote(root: nat -> real, contest: Contest, current: real,
                       reputation: real, stake: nat, claim: real, shared: bool, prior: real)
    requires contest.Sound() && !contest.Reached(current)
    ensures var quote := contest.Quote(root, 0.0, current, reputation, stake, shared, claim, prior);
            quote.feasible && quote.identities == 1
  {
    ThresholdInvertsPriority(contest, current);
  }

  /** A flood of identities with standing and stake carries weight; any other
      carries none. */
  lemma FloodCarriesWeight(root: nat -> real, sybils: seq<ForecastSnapshot>, reputation: real, stake: nat, shared: bool)
    requires IsRoot(root) && sybils != [] && reputation >= 0.0
    ensures if reputation > 0.0 && stake > 0 then FloodWeight(root, sybils, reputation, stake, shared) > 0.0
            else FloodWeight(root, sybils, reputation, stake, shared) == 0.0
  {
    FloodWeightIs(root, sybils, reputation, stake, shared);
    var unit, spread := Product(reputation, root(stake)), if shared then root(|sybils|) else |sybils| as real;
    RootPositive(root, |sybils|);
    if reputation > 0.0 && stake > 0 {
      RootPositive(root, stake);
      ProductPositive(reputation, root(stake));
      ProductPositive(unit, spread);
    } else {
      RootOfZero(root);
      assert unit == 0.0;
      assert Product(0.0, spread) == 0.0;
    }
  }

  lemma MeanOfFlood(claim: real, flood: real)
    ensures Alpha(0.0 + Product(claim, flood), 0.0 + flood) == if flood > 0.0 then claim else 0.0
  {
    if flood > 0.0 { RatioCompare(Product(claim, flood), flood, claim); }
  }

  lemma UnopposedProbability(root: nat -> real, agents: map<Id, AgentSnapshot>, prior: real,
                             honest: seq<ForecastSnapshot>, sybils: seq<ForecastSnapshot>, after: AggregationResult,
                             reputation: real, stake: nat, claim: real, shared: bool)
    requires IsRoot(root) && AllKnown(honest + sybils, agents) && reputation >= 0.0
    requires IsFlood(agents, honest, sybils, reputation, stake, claim, shared) && sybils != []
    requires IsAggregate(root, honest + sybils, agents, prior, after)
    requires TotalWeight(root, agents, honest) == 0.0 && TotalMass(root, agents, honest) == 0.0
    ensures after.probability == if reputation > 0.0 && stake > 0 then claim else 0.0
  {
    var flood := FloodWeight(root, sybils, reputation, stake, shared);
    Totals(root, agents, honest, sybils, reputation, stake, claim, shared);
    FloodCarriesWeight(root, sybils, reputation, stake, shared);
    MeanOfFlood(claim, flood);
    assert after.probability
           == Alpha(TotalMass(root, agents, honest + sybils), TotalWeight(root, agents, honest + sybils));
  }

  /** Where no honest weight stands in the way the quote is one identity - but
      `required_adversary_weight` returns 0 before it looks at headroom or
      standing, so any flood suffices exactly when its identities carry weight
      and their claim meets the threshold. */
  lemma UnopposedPrice(root: nat -> real, agents: map<Id, AgentSnapshot>, prior: real, contest: Contest,
                       honest: seq<ForecastSnapshot>, sybils: seq<ForecastSnapshot>,
                       after: AggregationResult, current: real,
                       reputation: real, stake: nat, claim: real, shared: bool)
    requires IsRoot(root) && AllKnown(honest + sybils, agents) && reputation >= 0.0
    requires IsFlood(agents, honest, sybils, reputation, stake, claim, shared) && sybils != []
    requires IsAggregate(root, honest + sybils, agents, prior, after)
    requires TotalWeight(root, agents, honest) == 0.0 && TotalMass(root, agents, honest) == 0.0
    requires contest.Sound() && current >= 0.0 && !contest.Reached(current)
    ensures var quote := contest.Quote(root, 0.0, current, reputation, stake, shared, claim, prior);
            quote.feasible && quote.identities == 1
    ensures contest.Reached(after.probability) <==> (reputation > 0.0 && stake > 0 && claim >= contest.Threshold())
  {
    UnopposedQuote(root, contest, current, reputation, stake, claim, shared, prior);
    UnopposedProbability(root, agents, prior, honest, sybils, after, reputation, stake, claim, shared);
    ThresholdInvertsPriority(contest, current);
    ThresholdInvertsPriority(contest, after.probability);
  }

  /** The unopposed quote can be wrong: a threshold of 0.995 is out of reach of
      a 0.99 claim, yet one identity is quoted as enough. */
  lemma UnopposedQuoteIgnoresHeadroom(root: nat -> real)
    ensures var contest := Contest(0.995, 1, 1.0, 1.0);
            && contest.Sound()
            && var quote := contest.Quote(root, 0.0, 0.0, 0.1, 50, false, PROBABILITY_CEIL, 0.5);
               quote.feasible && quote.identities == 1 && contest.Threshold() > PROBABILITY_CEIL
  {
  }
}
