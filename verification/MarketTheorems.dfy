/** What the aggregate means: it forgets input order, it is a convex
    combination, and splitting a stake inside one evidence cluster buys no
    weight. */
module MarketTheorems {
  import opened Orders
  import opened Types
  import opened Reals
  import opened Sums
  import opened Market

  ghost predicate DistinctAgents(forecasts: seq<ForecastSnapshot>) {
    forall i, j :: 0 <= i < j < |forecasts| ==> forecasts[i].agentId != forecasts[j].agentId
  }

  lemma AgentLeIsPreorder()
    ensures Preorder(AgentLe)
  {
    LexLeIsTotalOrder();
    forall f, g ensures AgentLe(f, g) || AgentLe(g, f) {
      assert LexLe(f.agentId, g.agentId) || LexLe(g.agentId, f.agentId);
    }
    forall f, g, h | AgentLe(f, g) && AgentLe(g, h) ensures AgentLe(f, h) {
      LexLeTransitive(f.agentId, g.agentId, h.agentId);
    }
  }

  lemma DistinctAgentsAreKeys(forecasts: seq<ForecastSnapshot>)
    requires DistinctAgents(forecasts)
    ensures DistinctKeys(AgentLe, multiset(forecasts))
  {
    forall f, g | f in multiset(forecasts) && g in multiset(forecasts) && AgentLe(f, g) && AgentLe(g, f)
      ensures f == g
    {
      LexLeAntisymmetric(f.agentId, g.agentId);
      var i :| 0 <= i < |forecasts| && forecasts[i] == f;
      var j :| 0 <= j < |forecasts| && forecasts[j] == g;
    }
  }

  // -------------------------------------------------------- order of input

  lemma WeightsOrderFree(root: nat -> real, agents: map<Id, AgentSnapshot>,
                         fs: seq<ForecastSnapshot>, gs: seq<ForecastSnapshot>, f: ForecastSnapshot)
    requires multiset(fs) == multiset(gs)
    ensures ClusterSize(fs, f.cluster) == ClusterSize(gs, f.cluster)
    ensures Weight(root, agents, fs, f) == Weight(root, agents, gs, f)
  {
    CountPermuted(InCluster(f.cluster), fs, gs);
  }

  lemma TotalsOrderFree(root: nat -> real, agents: map<Id, AgentSnapshot>,
                        fs: seq<ForecastSnapshot>, gs: seq<ForecastSnapshot>)
    requires multiset(fs) == multiset(gs)
    ensures TotalWeight(root, agents, fs) == TotalWeight(root, agents, gs)
    ensures TotalMass(root, agents, fs) == TotalMass(root, agents, gs)
  {
    forall f ensures WeightIn(root, agents, fs)(f) == WeightIn(root, agents, gs)(f)
             ensures MassIn(root, agents, fs)(f) == MassIn(root, agents, gs)(f) {
      WeightsOrderFree(root, agents, fs, gs, f);
    }
    SumAgree(WeightIn(root, agents, fs), WeightIn(root, agents, gs), fs);
    SumAgree(MassIn(root, agents, fs), MassIn(root, agents, gs), fs);
    SumPermuted(WeightIn(root, agents, gs), fs, gs);
    SumPermuted(MassIn(root, agents, gs), fs, gs);
  }

  /** Reordering the forecasts of distinct agents changes neither the aggregate
      nor one entry of its explanation; only the hypothesis id is read off the
      first forecast. */
  lemma AggregateOrderFree(root: nat -> real, agents: map<Id, AgentSnapshot>, prior: real,
                           fs: seq<ForecastSnapshot>, gs: seq<ForecastSnapshot>,
                           r: AggregationResult, s: AggregationResult)
    requires multiset(fs) == multiset(gs) && DistinctAgents(fs)
    requires AllKnown(fs, agents) && AllKnown(gs, agents)
    requires IsAggregate(root, fs, agents, prior, r) && IsAggregate(root, gs, agents, prior, s)
    ensures r.probability == s.probability && r.isPrior == s.isPrior && r.contributions == s.contributions
    ensures fs != [] ==> gs != [] && (r == s <==> fs[0].hypothesisId == gs[0].hypothesisId)
  {
    assert |multiset(fs)| == |fs| && |multiset(gs)| == |gs|;
    if fs != [] {
      AgentLeIsPreorder();
      DistinctAgentsAreKeys(fs);
      SortOrderFree(fs, gs, AgentLe);
      TotalsOrderFree(root, agents, fs, gs);
      var ordered, total := Sort(fs, AgentLe), TotalWeight(root, agents, fs);
      forall i | 0 <= i < |ordered| ensures r.contributions[i] == s.contributions[i] {
        WeightsOrderFree(root, agents, fs, gs, ordered[i]);
        assert r.contributions[i] == ContributionOf(root, agents, fs, total, ordered[i]);
        assert s.contributions[i] == ContributionOf(root, agents, gs, total, ordered[i]);
      }
    }
  }

  // ---------------------------------------------------- convex combination

  ghost predicate NonNegativeReputations(forecasts: seq<ForecastSnapshot>, agents: map<Id, AgentSnapshot>)
    requires AllKnown(forecasts, agents)
  {
    forall f :: f in forecasts ==> agents[f.agentId].reputation >= 0.0
  }

  lemma ProductNonNegative(x: real, y: real)
    requires x >= 0.0 && y >= 0.0
    ensures Product(x, y) >= 0.0
  {
  }

  /** An empty cluster has no factor; the factor of n citing agents is the
      positive one whose square is one n-th. */
  lemma IndependenceIsInverseRoot(root: nat -> real, n: int)
    requires IsRoot(root)
    ensures IndependenceFactor(root, n).None? <==> n < 1
    ensures n >= 1 ==> var i := IndependenceFactor(root, n).value;
                       i > 0.0 && Product(Product(i, i), n as real) == 1.0
  {
    if n >= 1 {
      var i, r := Ratio(1.0, root(n)), root(n);
      RootPositive(root, n);
      RatioTimes(1.0, r);
      InverseSquared(i, r);
    }
  }

  lemma InverseSquared(i: real, r: real)
    requires Product(i, r) == 1.0 && r > 0.0
    ensures i > 0.0 && Product(Product(i, i), Product(r, r)) == 1.0
  {
    if i < 0.0 { ProductPositive(-i, r); }
    assert i * i * (r * r) == i * r * (i * r);
  }

  lemma InverseRootNonNegative(root: nat -> real, n: nat)
    requires IsRoot(root)
    ensures Ratio(1.0, root(n)) >= 0.0
  {
    if root(n) > 0.0 { RatioCompare(1.0, root(n), 0.0); }
  }

  lemma WeightNonNegative(root: nat -> real, agents: map<Id, AgentSnapshot>, all: seq<ForecastSnapshot>,
                          f: ForecastSnapshot)
    requires IsRoot(root)
    requires f.agentId in agents && agents[f.agentId].reputation >= 0.0
    ensures Weight(root, agents, all, f) >= 0.0
  {
    InverseRootNonNegative(root, ClusterSize(all, f.cluster));
    ProductNonNegative(agents[f.agentId].reputation, root(f.stake));
    ProductNonNegative(Product(agents[f.agentId].reputation, root(f.stake)), Independence(root, all, f));
  }

  function AlphaOf(): Contribution -> real { (c: Contribution) => c.alpha }
  function AlphaMass(): Contribution -> real { (c: Contribution) => Product(c.alpha, c.probability) }

  function ShareIn(root: nat -> real, agents: map<Id, AgentSnapshot>, all: seq<ForecastSnapshot>, total: real)
    : ForecastSnapshot -> real
  {
    f => Alpha(Weight(root, agents, all, f), total)
  }

  function ShareMassIn(root: nat -> real, agents: map<Id, AgentSnapshot>, all: seq<ForecastSnapshot>, total: real)
    : ForecastSnapshot -> real
  {
    f => Product(Alpha(Weight(root, agents, all, f), total), f.probability)
  }

  lemma RatioIsScaling(x: real, y: real)
    ensures Ratio(x, y) == Product(Ratio(1.0, y), x)
  {
  }

  lemma {:induction false} SharesSum(root: nat -> real, agents: map<Id, AgentSnapshot>, all: seq<ForecastSnapshot>,
                                     fs: seq<ForecastSnapshot>, total: real)
    requires total > 0.0
    ensures Sum(ShareIn(root, agents, all, total), fs) == Ratio(Sum(WeightIn(root, agents, all), fs), total)
    ensures Sum(ShareMassIn(root, agents, all, total), fs) == Ratio(Sum(MassIn(root, agents, all), fs), total)
  {
    var c := Ratio(1.0, total);
    forall f ensures ShareIn(root, agents, all, total)(f) == Product(c, WeightIn(root, agents, all)(f))
             ensures ShareMassIn(root, agents, all, total)(f) == Product(c, MassIn(root, agents, all)(f)) {
      var w := Weight(root, agents, all, f);
      RatioIsScaling(w, total);
      RatioProduct(w, total, f.probability);
      RatioIsScaling(Product(w, f.probability), total);
    }
    SumScaled(WeightIn(root, agents, all), ShareIn(root, agents, all, total), fs, c);
    SumScaled(MassIn(root, agents, all), ShareMassIn(root, agents, all, total), fs, c);
    RatioIsScaling(Sum(WeightIn(root, agents, all), fs), total);
    RatioIsScaling(Sum(MassIn(root, agents, all), fs), total);
  }

  /** The explanation accounts for the aggregate: with weight on the table the
      shares are non-negative, sum to one, and reproduce the probability. */
  lemma ExplanationAddsUp(root: nat -> real, agents: map<Id, AgentSnapshot>, prior: real,
                          fs: seq<ForecastSnapshot>, r: AggregationResult)
    requires IsRoot(root) && AllKnown(fs, agents) && NonNegativeReputations(fs, agents)
    requires IsAggregate(root, fs, agents, prior, r)
    requires TotalWeight(root, agents, fs) > 0.0
    ensures forall c :: c in r.contributions ==> c.alpha >= 0.0
    ensures Sum(AlphaOf(), r.contributions) == 1.0
    ensures Sum(AlphaMass(), r.contributions) == r.probability
  {
    var ordered, total := Sort(fs, AgentLe), TotalWeight(root, agents, fs);
    SortedMembers(fs, AgentLe);
    forall i | 0 <= i < |ordered|
      ensures r.contributions[i].alpha == ShareIn(root, agents, fs, total)(ordered[i]) >= 0.0
      ensures AlphaMass()(r.contributions[i]) == ShareMassIn(root, agents, fs, total)(ordered[i])
    {
      assert ordered[i] in ordered;
      WeightNonNegative(root, agents, fs, ordered[i]);
      RatioCompare(Weight(root, agents, fs, ordered[i]), total, 0.0);
    }
    SumMatched(AlphaOf(), r.contributions, ShareIn(root, agents, fs, total), ordered);
    SumMatched(AlphaMass(), r.contributions, ShareMassIn(root, agents, fs, total), ordered);
    SharesSum(root, agents, fs, ordered, total);
    SumPermuted(WeightIn(root, agents, fs), ordered, fs);
    SumPermuted(MassIn(root, agents, fs), ordered, fs);
    RatioCompare(total, total, 1.0);
  }

  function WeightOf(): Contribution -> real { (c: Contribution) => c.weight }

  /** The weight an explained aggregate rests on, read off the explanation. */
  function ExplainedWeight(r: AggregationResult): real { Sum(WeightOf(), r.contributions) }

  lemma ExplainedWeightIsTotal(root: nat -> real, agents: map<Id, AgentSnapshot>, prior: real,
                               fs: seq<ForecastSnapshot>, r: AggregationResult)
    requires AllKnown(fs, agents) && IsAggregate(root, fs, agents, prior, r)
    ensures ExplainedWeight(r) == TotalWeight(root, agents, fs)
  {
    if fs != [] {
      SumMatched(WeightOf(), r.contributions, WeightIn(root, agents, fs), Sort(fs, AgentLe));
      SumPermuted(WeightIn(root, agents, fs), Sort(fs, AgentLe), fs);
    }
  }

  /** The aggregate lies between any bounds on the reported probabilities. */
  lemma AggregateBetween(root: nat -> real, agents: map<Id, AgentSnapshot>, prior: real,
                         fs: seq<ForecastSnapshot>, r: AggregationResult, least: real, greatest: real)
    requires IsRoot(root) && AllKnown(fs, agents) && NonNegativeReputations(fs, agents)
    requires IsAggregate(root, fs, agents, prior, r)
    requires TotalWeight(root, agents, fs) > 0.0
    requires forall f :: f in fs ==> least <= f.probability <= greatest
    ensures least <= r.probability <= greatest
  {
    MassBetween(root, agents, fs, fs, least, greatest);
    RatioCompare(TotalMass(root, agents, fs), TotalWeight(root, agents, fs), least);
    RatioCompare(TotalMass(root, agents, fs), TotalWeight(root, agents, fs), greatest);
  }

  function Scaled(c: real, g: ForecastSnapshot -> real): ForecastSnapshot -> real { f => Product(c, g(f)) }

  lemma BetweenProducts(w: real, least: real, p: real, greatest: real)
    requires w >= 0.0 && least <= p <= greatest
    ensures Product(least, w) <= Product(w, p) <= Product(greatest, w)
  {
    ProductLe(w, least, p);
    ProductLe(w, p, greatest);
  }

  lemma {:induction false} MassBetween(root: nat -> real, agents: map<Id, AgentSnapshot>, all: seq<ForecastSnapshot>,
                                       fs: seq<ForecastSnapshot>, least: real, greatest: real)
    requires IsRoot(root) && AllKnown(fs, agents) && NonNegativeReputations(fs, agents)
    requires forall f :: f in fs ==> least <= f.probability <= greatest
    ensures Product(least, Sum(WeightIn(root, agents, all), fs)) <= Sum(MassIn(root, agents, all), fs)
    ensures Sum(MassIn(root, agents, all), fs) <= Product(greatest, Sum(WeightIn(root, agents, all), fs))
  {
    var weight, mass := WeightIn(root, agents, all), MassIn(root, agents, all);
    forall f | f in fs ensures Scaled(least, weight)(f) <= mass(f) <= Scaled(greatest, weight)(f) {
      WeightNonNegative(root, agents, all, f);
      BetweenProducts(weight(f), least, f.probability, greatest);
    }
    SumLe(Scaled(least, weight), mass, fs);
    SumLe(mass, Scaled(greatest, weight), fs);
    SumScaled(weight, Scaled(least, weight), fs, least);
    SumScaled(weight, Scaled(greatest, weight), fs, greatest);
  }

  // ------------------------------------------- splitting inside one cluster

  function Stakes(fs: seq<ForecastSnapshot>): nat {
    if fs == [] then 0 else fs[0].stake + Stakes(fs[1..])
  }

  function RootIn(root: nat -> real): ForecastSnapshot -> real { (f: ForecastSnapshot) => root(f.stake) }

  lemma SquareExpands(s: real, x: real, n: real, t: real)
    requires n > 0.0 && Product(s, s) <= Product(n, t)
    ensures Product(s + x, s + x) <= Product(n + 1.0, t + Product(x, x))
  {
    var d := s - n * x;
    SquareNonNegative(d);
    assert Product(d, d) == Product(s, s) - 2.0 * n * s * x + n * n * x * x;
    assert n * (2.0 * s * x) <= n * (t + n * x * x);
    CancelFactor(n, 2.0 * s * x, t + n * x * x);
  }

  lemma SquareNonNegative(x: real)
    ensures Product(x, x) >= 0.0
  {
    if x > 0.0 { ProductPositive(x, x); }
    if x < 0.0 { ProductPositive(-x, -x); assert Product(x, x) == Product(-x, -x); }
  }

  lemma CancelFactor(n: real, x: real, y: real)
    requires n > 0.0 && n * x <= n * y
    ensures x <= y
  {
    if x > y { ProductPositive(n, x - y); }
  }

  /** Cauchy-Schwarz for the roots of k stakes. */
  lemma {:induction false} RootsOfParts(root: nat -> real, fs: seq<ForecastSnapshot>)
    requires IsRoot(root)
    ensures Product(Sum(RootIn(root), fs), Sum(RootIn(root), fs)) <= Product(|fs| as real, Stakes(fs) as real)
  {
    if fs != [] {
      RootsOfParts(root, fs[1..]);
      var s, x, t := Sum(RootIn(root), fs[1..]), root(fs[0].stake), Stakes(fs[1..]) as real;
      assert Product(x, x) == fs[0].stake as real;
      if |fs| == 1 {
        assert fs[1..] == [];
      } else {
        SquareExpands(s, x, (|fs| - 1) as real, t);
      }
    }
  }

  lemma SquareLe(x: real, y: real)
    requires 0.0 <= x <= y
    ensures Product(x, x) <= Product(y, y)
  {
    ProductLe(x, x, y);
    ProductLe(y, x, y);
  }

  lemma SquareLeInverse(x: real, y: real)
    requires y >= 0.0 && Product(x, x) <= Product(y, y)
    ensures x <= y
  {
    if x > y {
      ProductPositive(x - y, x);
      ProductLe(y, y, x);
    }
  }

  lemma SquareOfProduct(x: real, y: real)
    ensures Product(Product(x, y), Product(x, y)) == Product(Product(x, x), Product(y, y))
  {
  }

  /** (r / root k) * s squared is at most r squared times t, when s squared is
      at most k t. */
  lemma DiscountedSquare(root: nat -> real, r: real, k: nat, s: real, t: real)
    requires IsRoot(root) && k > 0 && r >= 0.0
    requires Product(s, s) <= Product(k as real, t)
    ensures Product(Product(Ratio(r, root(k)), s), Product(Ratio(r, root(k)), s)) <= Product(Product(r, r), t)
  {
    RootPositive(root, k);
    var c := Ratio(r, root(k));
    RatioTimes(r, root(k));
    SquareOfProduct(c, root(k));
    assert Product(Product(c, c), k as real) == Product(r, r);
    SquareOfProduct(c, s);
    SquareNonNegative(c);
    ProductLe(Product(c, c), Product(s, s), Product(k as real, t));
    assert Product(c, c) * Product(k as real, t) == Product(Product(c, c), k as real) * t;
  }

  lemma MemberWeightBound(root: nat -> real, agents: map<Id, AgentSnapshot>, all: seq<ForecastSnapshot>,
                          f: ForecastSnapshot, r: real)
    requires IsRoot(root) && f.agentId in agents && 0.0 <= agents[f.agentId].reputation <= r
    requires ClusterSize(all, f.cluster) > 0
    ensures Weight(root, agents, all, f) <= Product(Ratio(r, root(ClusterSize(all, f.cluster))), root(f.stake))
  {
    var k, x, a := ClusterSize(all, f.cluster), root(f.stake), agents[f.agentId].reputation;
    var i := Ratio(1.0, root(k));
    InverseRootNonNegative(root, k);
    ProductLe(x, a, r);
    ProductLe(i, Product(a, x), Product(r, x));
    RatioIsScaling(r, root(k));
  }

  /** The forecasts of `group` are the whole of one evidence cluster among
      group + others. */
  ghost predicate OneCluster(group: seq<ForecastSnapshot>, others: seq<ForecastSnapshot>, cluster: Id) {
    && (forall f :: f in group ==> f.cluster == cluster)
    && (forall f :: f in others ==> f.cluster != cluster)
  }

  lemma ClusterIsGroup(group: seq<ForecastSnapshot>, others: seq<ForecastSnapshot>, cluster: Id)
    requires OneCluster(group, others, cluster)
    ensures ClusterSize(group + others, cluster) == |group|
  {
    CountConcat(InCluster(cluster), group, others);
    CountAll(InCluster(cluster), group);
    CountNone(InCluster(cluster), others);
  }

  function GroupWeight(root: nat -> real, agents: map<Id, AgentSnapshot>, group: seq<ForecastSnapshot>,
                       others: seq<ForecastSnapshot>): real {
    Sum(WeightIn(root, agents, group + others), group)
  }

  /** Any number of identities of reputation at most r filling one evidence
      cluster weigh, squared, at most r squared times their summed stakes. */
  lemma {:induction false} SplittingBound(root: nat -> real, agents: map<Id, AgentSnapshot>,
                                          group: seq<ForecastSnapshot>, others: seq<ForecastSnapshot>, cluster: Id,
                                          r: real)
    requires IsRoot(root) && group != [] && OneCluster(group, others, cluster)
    requires forall f :: f in group ==> f.agentId in agents && 0.0 <= agents[f.agentId].reputation <= r
    ensures 0.0 <= GroupWeight(root, agents, group, others)
    ensures Product(GroupWeight(root, agents, group, others), GroupWeight(root, agents, group, others))
              <= Product(Product(r, r), Stakes(group) as real)
  {
    ClusterIsGroup(group, others, cluster);
    var weight, k := WeightIn(root, agents, group + others), |group|;
    var c := Ratio(r, root(k));
    assert r >= 0.0 by { assert group[0] in group; }
    forall f | f in group ensures Scaled(0.0, weight)(f) <= weight(f) <= Scaled(c, RootIn(root))(f) {
      WeightNonNegative(root, agents, group + others, f);
      MemberWeightBound(root, agents, group + others, f, r);
    }
    SumLe(Scaled(0.0, weight), weight, group);
    SumScaled(weight, Scaled(0.0, weight), group, 0.0);
    SumLe(weight, Scaled(c, RootIn(root)), group);
    SumScaled(RootIn(root), Scaled(c, RootIn(root)), group, c);
    RootsOfParts(root, group);
    SquareLe(Sum(weight, group), Product(c, Sum(RootIn(root), group)));
    DiscountedSquare(root, r, k, Sum(RootIn(root), group), Stakes(group) as real);
  }

  /** So a split never outweighs one identity staking the whole sum on
      evidence of its own. */
  lemma SplittingGainsNothing(root: nat -> real, agents: map<Id, AgentSnapshot>, group: seq<ForecastSnapshot>,
                              others: seq<ForecastSnapshot>, cluster: Id, r: real)
    requires IsRoot(root) && group != [] && OneCluster(group, others, cluster)
    requires forall f :: f in group ==> f.agentId in agents && 0.0 <= agents[f.agentId].reputation <= r
    ensures GroupWeight(root, agents, group, others)
              <= InfluenceWeight(root, r, Stakes(group), IndependenceFactor(root, 1).value)
  {
    assert r >= 0.0 by { assert group[0] in group; }
    SplittingBound(root, agents, group, others, cluster, r);
    var x := root(Stakes(group));
    SquareOfProduct(r, x);
    ProductNonNegative(r, x);
    SquareLeInverse(GroupWeight(root, agents, group, others), Product(r, x));
    RootOfOne(root);
  }
}
