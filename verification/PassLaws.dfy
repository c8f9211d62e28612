/** What a ranking pass makes of the tables, spelled out in their own rows: the
    explanation of every stored probability under the considered mechanism, and
    the score each baseline ranks by. */
module PassLaws {
  import opened Orders
  import opened Types
  import opened Reals
  import opened Sums
  import opened Market
  import opened MarketTheorems
  import opened Baselines
  import opened Ranking
  import opened Ledger
  import opened Pipeline

  // ------------------------------------------------------------- any pass

  ghost predicate Passed(root: nat -> real, agents: map<Id, AgentSnapshot>, strategy: Strategy,
                         views: seq<HypothesisView>, budget: int, r: PassResult)
  {
    && ViewsKnown(views, agents) && (forall v :: v in views ==> Rankable(strategy, v))
    && IsPass(root, agents, strategy, views, budget, r)
  }

  /** The view that a stored row is about. */
  lemma RowIsOf(root: nat -> real, agents: map<Id, AgentSnapshot>, strategy: Strategy, views: seq<HypothesisView>,
                budget: int, r: PassResult, i: nat) returns (k: nat)
    requires Passed(root, agents, strategy, views, budget, r) && i < |views|
    ensures k < |views| && views[k] in views && views[k].id in r.aggregates
    ensures Explains(root, agents, strategy, views[k], r.aggregates[views[k].id])
    ensures RankedFor(root, agents, strategy, views[k])
              == RankedHypothesis(r.rows[i].hypothesis, r.rows[i].probability, r.rows[i].priority,
                                  views[k].terms.impact)
    ensures r.rows[i].probability == r.aggregates[views[k].id].probability
    ensures r.rows[i].contributions == r.aggregates[views[k].id].contributions
  {
    assert RowStored(strategy, r, i);
    SortedMembers(r.ranked, RankLe);
    var entry := Sort(r.ranked, RankLe)[i];
    assert entry in Sort(r.ranked, RankLe);
    k :| 0 <= k < |r.ranked| && r.ranked[k] == entry;
    assert views[k] in views;
  }

  /** Whatever the strategy, every open hypothesis has exactly one row, and
      nothing else has one. */
  lemma OneRowForEachOpenHypothesis(root: nat -> real, db: Db, strategy: Strategy, views: seq<HypothesisView>,
                                    budget: int, r: PassResult, h: Id)
    requires ReadsAll(db, views) && Passed(root, AgentSnapshots(db), strategy, views, budget, r)
    ensures (exists i :: 0 <= i < |r.rows| && r.rows[i].hypothesis == h) <==>
            h in db.hypotheses && db.hypotheses[h].status == Open
    ensures forall i, j :: 0 <= i < j < |r.rows| ==> r.rows[i].hypothesis != r.rows[j].hypothesis
  {
    var agents := AgentSnapshots(db);
    if i :| 0 <= i < |r.rows| && r.rows[i].hypothesis == h {
      var k := RowIsOf(root, agents, strategy, views, budget, r, i);
      assert Reads(db, views[k].id, views[k]);
    }
    if h in db.hypotheses && db.hypotheses[h].status == Open {
      var k :| 0 <= k < |views| && views[k].id == h;
      var i := RowFor(root, agents, strategy, views, budget, r, k);
    }
    forall i, j | 0 <= i < j < |r.rows| ensures r.rows[i].hypothesis != r.rows[j].hypothesis {
      RowsDiffer(root, agents, strategy, views, budget, r, i, j);
    }
  }

  lemma RowFor(root: nat -> real, agents: map<Id, AgentSnapshot>, strategy: Strategy, views: seq<HypothesisView>,
               budget: int, r: PassResult, k: nat) returns (i: nat)
    requires Passed(root, agents, strategy, views, budget, r) && k < |views|
    ensures i < |r.rows| && r.rows[i].hypothesis == views[k].id
  {
    SortedMembers(r.ranked, RankLe);
    var ordered := Sort(r.ranked, RankLe);
    assert r.ranked[k] in r.ranked;
    i :| 0 <= i < |ordered| && ordered[i] == r.ranked[k];
    assert RowStored(strategy, r, i);
  }

  lemma RowsDiffer(root: nat -> real, agents: map<Id, AgentSnapshot>, strategy: Strategy, views: seq<HypothesisView>,
                   budget: int, r: PassResult, i: nat, j: nat)
    requires Passed(root, agents, strategy, views, budget, r) && DistinctViews(views) && i < j < |r.rows|
    ensures r.rows[i].hypothesis != r.rows[j].hypothesis
  {
    RowsAreARanking(root, agents, strategy, views, budget, r, i);
    RowsAreARanking(root, agents, strategy, views, budget, r, j);
    RankedIdsDistinct(root, agents, strategy, views);
  }

  // ------------------------------------------------------------ baselines

  /** The greatest reported probability, or the prior without any. */
  predicate TopClaim(view: HypothesisView, p: real) {
    if view.forecasts == [] then p == view.terms.prior
    else
      && (exists i :: 0 <= i < |view.forecasts| && view.forecasts[i].probability == p)
      && (forall i :: 0 <= i < |view.forecasts| ==> view.forecasts[i].probability <= p)
  }

  /** The share of the reports above one half, or the prior without any. */
  predicate VoteShare(view: HypothesisView, p: real) {
    if view.forecasts == [] then p == view.terms.prior
    else
      var votes := set i | 0 <= i < |view.forecasts| && view.forecasts[i].probability > 0.5;
      p * |view.forecasts| as real == |votes| as real
  }

  lemma HighestIsTopClaim(view: HypothesisView)
    ensures TopClaim(view, HighestConfidenceProbability(view.forecasts, view.terms.prior))
  {
    if view.forecasts != [] { GreatestIsMaximum(view.forecasts); }
  }

  lemma ShareTimes(x: real, n: real)
    requires n != 0.0
    ensures x / n * n == x
  {
  }

  /** A baseline's stored aggregate: its own hypothesis's, a bare probability,
      the prior exactly without forecasts. */
  predicate Unexplained(view: HypothesisView, p: real, r: PassResult) {
    view.id in r.aggregates
    && r.aggregates[view.id].hypothesisId == view.id && r.aggregates[view.id].probability == p
    && r.aggregates[view.id].contributions == []
    && (r.aggregates[view.id].isPrior <==> |view.forecasts| == 0)
  }

  lemma {:induction false} VotesAreIndices(fs: seq<ForecastSnapshot>)
    ensures Votes(fs) == |set i | 0 <= i < |fs| && fs[i].probability > 0.5|
    decreases |fs|
  {
    if fs != [] {
      var n := |fs| - 1;
      VotesAreIndices(fs[..n]);
      CountConcat(VotesTrue(), fs[..n], [fs[n]]);
      assert fs[..n] + [fs[n]] == fs;
      var rest := set i | 0 <= i < n && fs[..n][i].probability > 0.5;
      assert (set i | 0 <= i < |fs| && fs[i].probability > 0.5)
             == if fs[n].probability > 0.5 then rest + {n} else rest;
    }
  }

  lemma MajorityIsVoteShare(view: HypothesisView)
    ensures VoteShare(view, MajorityVoteProbability(view.forecasts, view.terms.prior))
  {
    if view.forecasts != [] {
      VotesAreIndices(view.forecasts);
      ShareTimes(Votes(view.forecasts) as real, |view.forecasts| as real);
    }
  }

  /** Every entry and every row of a highest-confidence pass is scored and
      ranked by the greatest claim on its own hypothesis, unexplained. */
  lemma HighestConfidencePassTakesTheTopClaim(root: nat -> real, agents: map<Id, AgentSnapshot>,
                                              views: seq<HypothesisView>, budget: int, r: PassResult, i: nat)
    requires Passed(root, agents, HighestConfidence, views, budget, r) && i < |views|
    ensures r.ranked[i].hypothesisId == views[i].id && r.ranked[i].priority == r.ranked[i].probability
    ensures TopClaim(views[i], r.ranked[i].probability) && Unexplained(views[i], r.ranked[i].probability, r)
    ensures r.rows[i].contributions == [] && r.rows[i].priority == r.rows[i].probability
    ensures exists v :: v in views && v.id == r.rows[i].hypothesis && TopClaim(v, r.rows[i].probability)
  {
    var k := RowIsOf(root, agents, HighestConfidence, views, budget, r, i);
    assert views[i] in views;
    HighestIsTopClaim(views[i]);
    HighestIsTopClaim(views[k]);
  }

  /** The same for a majority-vote pass and the share of votes. */
  lemma MajorityPassTakesTheShare(root: nat -> real, agents: map<Id, AgentSnapshot>,
                                  views: seq<HypothesisView>, budget: int, r: PassResult, i: nat)
    requires Passed(root, agents, MajorityVote, views, budget, r) && i < |views|
    ensures r.ranked[i].hypothesisId == views[i].id && r.ranked[i].priority == r.ranked[i].probability
    ensures VoteShare(views[i], r.ranked[i].probability) && Unexplained(views[i], r.ranked[i].probability, r)
    ensures r.rows[i].contributions == [] && r.rows[i].priority == r.rows[i].probability
    ensures exists v :: v in views && v.id == r.rows[i].hypothesis && VoteShare(v, r.rows[i].probability)
  {
    var k := RowIsOf(root, agents, MajorityVote, views, budget, r, i);
    assert views[i] in views;
    MajorityIsVoteShare(views[i]);
    MajorityIsVoteShare(views[k]);
  }

  // ------------------------------------------------ the considered mechanism

  /** The agents whose live forecasts on h cite the cluster. */
  function Citing(db: Db, h: Id, cluster: Id): set<Id> {
    set k | k in db.forecasts && k.0 == h && db.forecasts[k].cluster == cluster :: k.1
  }

  function CitingIn(fs: seq<ForecastSnapshot>, cluster: Id): set<Id> {
    if fs == [] then {}
    else if fs[0].cluster == cluster then {fs[0].agentId} + CitingIn(fs[1..], cluster)
    else CitingIn(fs[1..], cluster)
  }

  lemma {:induction false} CitingInMeans(fs: seq<ForecastSnapshot>, cluster: Id, a: Id)
    ensures a in CitingIn(fs, cluster) <==> exists i :: 0 <= i < |fs| && fs[i].agentId == a && fs[i].cluster == cluster
    decreases |fs|
  {
    if fs != [] {
      CitingInMeans(fs[1..], cluster, a);
      assert forall i :: 1 <= i < |fs| ==> fs[i] == fs[1..][i - 1];
      if i :| 0 <= i < |fs[1..]| && fs[1..][i].agentId == a && fs[1..][i].cluster == cluster {
        assert fs[i + 1].agentId == a && fs[i + 1].cluster == cluster;
      }
    }
  }

  lemma {:induction false} ClusterIsCitingIn(fs: seq<ForecastSnapshot>, cluster: Id)
    requires DistinctAgents(fs)
    ensures ClusterSize(fs, cluster) == |CitingIn(fs, cluster)|
    decreases |fs|
  {
    if fs != [] {
      ClusterIsCitingIn(fs[1..], cluster);
      CitingInMeans(fs[1..], cluster, fs[0].agentId);
      assert forall i :: 0 <= i < |fs[1..]| ==> fs[1..][i].agentId != fs[0].agentId;
    }
  }

  lemma ClusterIsCiting(db: Db, h: Id, fs: seq<ForecastSnapshot>, cluster: Id)
    requires ReadsRows(db, h, fs)
    ensures ClusterSize(fs, cluster) == |Citing(db, h, cluster)|
  {
    ClusterIsCitingIn(fs, cluster);
    forall a ensures a in CitingIn(fs, cluster) <==> a in Citing(db, h, cluster) {
      CitingInMeans(fs, cluster, a);
      assert forall i :: 0 <= i < |fs| ==> ReadsRow(db, h, fs[i]);
      assert a in Citing(db, h, cluster) <==> (h, a) in db.forecasts && db.forecasts[(h, a)].cluster == cluster;
    }
    assert CitingIn(fs, cluster) == Citing(db, h, cluster);
  }

  /** One entry of a stored explanation, against the tables: the live forecast,
      the stored reputation, as many sharers of its evidence as the table holds,
      and reputation times root of stake over root of the sharers. */
  ghost predicate FromTables(root: nat -> real, db: Db, h: Id, c: Contribution) {
    && (h, c.agentId) in db.forecasts && c.agentId in db.agents
    && c.probability == db.forecasts[(h, c.agentId)].probability
    && c.stake == db.forecasts[(h, c.agentId)].stake
    && c.cluster == db.forecasts[(h, c.agentId)].cluster
    && c.reputation == db.agents[c.agentId].reputation
    && c.clusterSize == |Citing(db, h, c.cluster)| >= 1
    && c.independence * root(c.clusterSize) == 1.0
    && c.weight == c.reputation * root(c.stake) * c.independence
  }

  lemma ContributionFromTables(root: nat -> real, db: Db, h: Id, fs: seq<ForecastSnapshot>, total: real, i: nat)
    requires IsRoot(root) && ReadsRows(db, h, fs) && AllKnown(fs, AgentSnapshots(db)) && i < |fs|
    ensures fs[i].agentId in AgentSnapshots(db)
    ensures FromTables(root, db, h, ContributionOf(root, AgentSnapshots(db), fs, total, fs[i]))
  {
    var f := fs[i];
    assert f in fs && ReadsRow(db, h, f);
    CountSome(InCluster(f.cluster), fs, f);
    var n := ClusterSize(fs, f.cluster);
    ClusterIsCiting(db, h, fs, f.cluster);
    RootPositive(root, n);
    RatioTimes(1.0, root(n));
  }

  /** The pass already reads the forecasts in agent order. */
  lemma {:induction false} ReadInAgentOrder(db: Db, h: Id, fs: seq<ForecastSnapshot>)
    requires ReadsRows(db, h, fs)
    ensures Sort(fs, AgentLe) == fs
  {
    AgentLeIsPreorder();
    SortSorted(fs, AgentLe);
    DistinctAgentsAreKeys(fs);
    SortedUnique(fs, Sort(fs, AgentLe), AgentLe);
  }

  function MassOf(): Contribution -> real { (c: Contribution) => Product(c.weight, c.probability) }

  /** A share is its weight's part of the total, or 0 when there is no weight. */
  predicate ShareOf(share: real, part: real, total: real) {
    if total > 0.0 then Product(share, total) == part else share == 0.0
  }

  /** The stored probability, against its own explanation: the prior without
      one, else the mean of the reports by weight. */
  ghost predicate ExplainedBy(p: real, prior: real, cs: seq<Contribution>) {
    if cs == [] then p == prior
    else
      && ShareOf(p, Sum(MassOf(), cs), Sum(WeightOf(), cs))
      && forall k :: 0 <= k < |cs| ==> ShareOf(cs[k].alpha, cs[k].weight, Sum(WeightOf(), cs))
  }

  lemma AlphaIsShare(x: real, total: real)
    ensures ShareOf(Alpha(x, total), x, total)
  {
    if total > 0.0 { RatioTimes(x, total); }
  }

  lemma MeanExplained(root: nat -> real, agents: map<Id, AgentSnapshot>, prior: real, fs: seq<ForecastSnapshot>,
                      r: AggregationResult)
    requires AllKnown(fs, agents) && IsAggregate(root, fs, agents, prior, r) && Sort(fs, AgentLe) == fs
    ensures ExplainedBy(r.probability, prior, r.contributions)
  {
    if fs != [] {
      var total := TotalWeight(root, agents, fs);
      ExplainedWeightIsTotal(root, agents, prior, fs, r);
      SumMatched(MassOf(), r.contributions, MassIn(root, agents, fs), fs);
      AlphaIsShare(TotalMass(root, agents, fs), total);
      forall k | 0 <= k < |fs| ensures ShareOf(r.contributions[k].alpha, r.contributions[k].weight, total) {
        AlphaIsShare(Weight(root, agents, fs, fs[k]), total);
      }
    }
  }

  /** The entries are exactly the forecasts on h, in agent order. */
  ghost predicate EntriesFromTables(root: nat -> real, db: Db, h: Id, cs: seq<Contribution>) {
    && (forall k :: 0 <= k < |cs| ==> FromTables(root, db, h, cs[k]))
    && (forall a :: (h, a) in db.forecasts ==> exists k :: 0 <= k < |cs| && cs[k].agentId == a)
    && (forall j, k :: 0 <= j < k < |cs| ==> cs[j].agentId != cs[k].agentId && LexLe(cs[j].agentId, cs[k].agentId))
  }

  lemma {:induction false} EntriesExplained(root: nat -> real, db: Db, h: Id, fs: seq<ForecastSnapshot>, prior: real,
                                            r: AggregationResult)
    requires IsRoot(root) && ReadsRows(db, h, fs) && AllKnown(fs, AgentSnapshots(db)) && Sort(fs, AgentLe) == fs
    requires IsAggregate(root, fs, AgentSnapshots(db), prior, r)
    ensures |r.contributions| == |fs|
    ensures forall k :: 0 <= k < |fs| ==>
              r.contributions[k].agentId == fs[k].agentId && FromTables(root, db, h, r.contributions[k])
  {
    var agents := AgentSnapshots(db);
    forall k | 0 <= k < |fs|
      ensures r.contributions[k].agentId == fs[k].agentId && FromTables(root, db, h, r.contributions[k])
    {
      ContributionFromTables(root, db, h, fs, TotalWeight(root, agents, fs), k);
    }
  }

  lemma EntriesListed(root: nat -> real, db: Db, h: Id, fs: seq<ForecastSnapshot>, cs: seq<Contribution>)
    requires ReadsRows(db, h, fs) && |cs| == |fs|
    requires forall k :: 0 <= k < |fs| ==> cs[k].agentId == fs[k].agentId && FromTables(root, db, h, cs[k])
    ensures EntriesFromTables(root, db, h, cs)
  {
    forall a | (h, a) in db.forecasts ensures exists k :: 0 <= k < |cs| && cs[k].agentId == a {
      var k :| 0 <= k < |fs| && fs[k].agentId == a;
      assert cs[k].agentId == a;
    }
  }

  lemma AggregateFromTables(root: nat -> real, db: Db, h: Id, fs: seq<ForecastSnapshot>, prior: real,
                            r: AggregationResult)
    requires IsRoot(root) && ReadsRows(db, h, fs) && AllKnown(fs, AgentSnapshots(db))
    requires IsAggregate(root, fs, AgentSnapshots(db), prior, r)
    ensures EntriesFromTables(root, db, h, r.contributions)
    ensures ExplainedBy(r.probability, prior, r.contributions)
  {
    ReadInAgentOrder(db, h, fs);
    MeanExplained(root, AgentSnapshots(db), prior, fs, r);
    EntriesExplained(root, db, h, fs, prior, r);
    EntriesListed(root, db, h, fs, r.contributions);
  }

  lemma PriorityByHand(p: real, impact: int, urgency: real, reviewCost: real)
    requires reviewCost > 0.0
    ensures PriorityScore(p, impact, urgency, reviewCost).value * reviewCost == p * (impact as real * urgency)
  {
    RatioTimes(Product(p, Product(impact as real, urgency)), reviewCost);
  }

  /** One stored row against the tables. */
  ghost predicate RowExplainsTables(root: nat -> real, db: Db, row: DecisionRow) {
    && row.hypothesis in db.hypotheses
    && var terms := db.hypotheses[row.hypothesis];
       terms.status == Open && terms.reviewCost > 0.0
       && EntriesFromTables(root, db, row.hypothesis, row.contributions)
       && ExplainedBy(row.probability, terms.prior, row.contributions)
       && row.priority * terms.reviewCost == row.probability * (terms.impact as real * terms.urgency)
  }

  lemma RowFromView(root: nat -> real, db: Db, view: HypothesisView, r: AggregationResult, row: DecisionRow)
    requires IsRoot(root) && Reads(db, view.id, view) && view.terms.status == Open && view.terms.reviewCost > 0.0
    requires AllKnown(view.forecasts, AgentSnapshots(db))
    requires IsAggregate(root, view.forecasts, AgentSnapshots(db), view.terms.prior, r)
    requires row.hypothesis == view.id && row.probability == r.probability && row.contributions == r.contributions
    requires var terms := view.terms;
             row.priority == PriorityScore(r.probability, terms.impact, terms.urgency, terms.reviewCost).value
    ensures RowExplainsTables(root, db, row)
  {
    AggregateFromTables(root, db, view.id, view.forecasts, view.terms.prior, r);
    PriorityByHand(r.probability, view.terms.impact, view.terms.urgency, view.terms.reviewCost);
  }

  /** A stored row of the considered mechanism, against the tables it was
      computed from: its contributions are exactly the live forecasts on its
      hypothesis, in agent order, each weighed by its stored reputation, stake
      and the live number of agents citing its evidence; its probability is
      their mean by weight; its priority folds in impact, urgency and cost. */
  lemma PassExplainsTheTables(root: nat -> real, db: Db, views: seq<HypothesisView>, budget: int, r: PassResult, i: nat)
    requires IsRoot(root) && ReadsAll(db, views) && i < |views|
    requires Passed(root, AgentSnapshots(db), Stakeroute, views, budget, r)
    ensures RowExplainsTables(root, db, r.rows[i]) && r.rows[i].hypothesis in r.aggregates
    ensures r.aggregates[r.rows[i].hypothesis].isPrior <==> r.rows[i].contributions == []
    ensures r.rows[i].contributions != [] ==>
              r.aggregates[r.rows[i].hypothesis].hypothesisId == r.rows[i].hypothesis
  {
    var k := RowIsOf(root, AgentSnapshots(db), Stakeroute, views, budget, r, i);
    RowFromView(root, db, views[k], r.aggregates[views[k].id], r.rows[i]);
  }
}
