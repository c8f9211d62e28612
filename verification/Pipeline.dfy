/** The ranking pass (src/stakeroute/worker/pipeline.py): aggregates become
    priorities, priorities become ranks, under each of the three strategies. */
module Pipeline {
  import opened Orders
  import opened Types
  import opened Sums
  import opened Market
  import opened Baselines
  import opened Ranking
  import opened Ledger
  import opened LedgerInvariants
  import opened Storage

  datatype Strategy = Stakeroute | MajorityVote | HighestConfidence

  /** A hypothesis with the live forecasts on it, as one pass reads them. */
  datatype HypothesisView = HypothesisView(id: Id, terms: Hypothesis, forecasts: seq<ForecastSnapshot>)

  datatype DecisionRow = DecisionRow(
    hypothesis: Id, strategy: Strategy, probability: real, priority: real, rank: nat, routed: bool,
    contributions: seq<Contribution>)

  datatype PassResult = PassResult(
    allocation: AllocationResult, aggregates: map<Id, AggregationResult>,
    ranked: seq<RankedHypothesis>, rows: seq<DecisionRow>)

  // -------------------------------------------------------- specification

  /** The strategy's probability for a hypothesis. */
  function StrategyProbability(root: nat -> real, agents: map<Id, AgentSnapshot>, strategy: Strategy,
                               view: HypothesisView): real
  {
    match strategy
    case Stakeroute => if view.forecasts == [] then view.terms.prior else WeightedMean(root, agents, view.forecasts)
    case MajorityVote => MajorityVoteProbability(view.forecasts, view.terms.prior)
    case HighestConfidence => HighestConfidenceProbability(view.forecasts, view.terms.prior)
  }

  /** Only the considered mechanism folds in impact, urgency and review cost;
      None is the ValueError on the review cost. */
  function StrategyPriority(strategy: Strategy, probability: real, terms: Hypothesis): Option<real> {
    if strategy == Stakeroute then PriorityScore(probability, terms.impact, terms.urgency, terms.reviewCost)
    else Some(probability)
  }

  predicate Rankable(strategy: Strategy, view: HypothesisView) {
    strategy == Stakeroute ==> view.terms.reviewCost > 0.0
  }

  function RankedFor(root: nat -> real, agents: map<Id, AgentSnapshot>, strategy: Strategy,
                     view: HypothesisView): RankedHypothesis
    requires Rankable(strategy, view)
  {
    var p := StrategyProbability(root, agents, strategy, view);
    RankedHypothesis(view.id, p, StrategyPriority(strategy, p, view.terms).value, view.terms.impact)
  }

  function RankedAll(root: nat -> real, agents: map<Id, AgentSnapshot>, strategy: Strategy,
                     views: seq<HypothesisView>): seq<RankedHypothesis>
    requires forall v :: v in views ==> Rankable(strategy, v)
  {
    seq(|views|, i requires 0 <= i < |views| => RankedFor(root, agents, strategy, views[i]))
  }

  ghost predicate DistinctViews(views: seq<HypothesisView>) {
    forall i, j :: 0 <= i < j < |views| ==> views[i].id != views[j].id
  }

  ghost predicate ViewsKnown(views: seq<HypothesisView>, agents: map<Id, AgentSnapshot>) {
    forall v :: v in views ==> AllKnown(v.forecasts, agents)
  }

  predicate RowMatches(row: DecisionRow, strategy: Strategy, d: AllocationDecision, entry: RankedHypothesis,
                       aggregate: AggregationResult)
  {
    && d.hypothesisId == entry.hypothesisId
    && row == DecisionRow(entry.hypothesisId, strategy, aggregate.probability, entry.priority, d.rank, d.routed,
                          aggregate.contributions)
  }

  /** A pass ranks every hypothesis by its priority, and each stored row
      carries the probability, explanation, priority and rank of its own
      hypothesis. */
  ghost predicate IsPass(root: nat -> real, agents: map<Id, AgentSnapshot>, strategy: Strategy,
                         views: seq<HypothesisView>, budget: int, r: PassResult)
    requires ViewsKnown(views, agents) && forall v :: v in views ==> Rankable(strategy, v)
  {
    && r.ranked == RankedAll(root, agents, strategy, views)
    && r.allocation == Allocation(r.ranked, budget)
    && |r.rows| == |views|
    && (forall i :: 0 <= i < |views| ==> RowStored(strategy, r, i))
    && (forall v :: v in views ==> v.id in r.aggregates && Explains(root, agents, strategy, v, r.aggregates[v.id]))
  }

  predicate RowStored(strategy: Strategy, r: PassResult, i: nat)
    requires i < |r.rows| && |r.rows| == |r.ranked| == |r.allocation.decisions|
  {
    var entry := Sort(r.ranked, RankLe)[i];
    && entry.hypothesisId in r.aggregates
    && RowMatches(r.rows[i], strategy, r.allocation.decisions[i], entry, r.aggregates[entry.hypothesisId])
  }

  /** The stored explanation of a hypothesis: the full aggregate under the
      considered mechanism, a bare probability under a baseline. */
  ghost predicate Explains(root: nat -> real, agents: map<Id, AgentSnapshot>, strategy: Strategy,
                           view: HypothesisView, r: AggregationResult)
    requires AllKnown(view.forecasts, agents)
  {
    if strategy == Stakeroute then IsAggregate(root, view.forecasts, agents, view.terms.prior, r)
    else r == AggregationResult(view.id, StrategyProbability(root, agents, strategy, view), view.forecasts == [], [])
  }

  lemma RankedIdsDistinct(root: nat -> real, agents: map<Id, AgentSnapshot>, strategy: Strategy,
                          views: seq<HypothesisView>)
    requires DistinctViews(views) && forall v :: v in views ==> Rankable(strategy, v)
    ensures DistinctIds(RankedAll(root, agents, strategy, views))
  {
  }

  // ------------------------------------------------------------- one pass

  /** Score one hypothesis under one strategy. */
  method Aggregate(root: nat -> real, agents: map<Id, AgentSnapshot>, strategy: Strategy, view: HypothesisView)
    returns (r: AggregationResult)
    requires AllKnown(view.forecasts, agents)
    ensures r.probability == StrategyProbability(root, agents, strategy, view)
    ensures Explains(root, agents, strategy, view, r)
  {
    if strategy == Stakeroute {
      r := AggregateProbability(root, view.forecasts, agents, view.terms.prior);
    } else if strategy == MajorityVote {
      var probability := MajorityVoteProbability(view.forecasts, view.terms.prior);
      r := AggregationResult(view.id, probability, view.forecasts == [], []);
    } else {
      var probability := HighestConfidenceProbability(view.forecasts, view.terms.prior);
      r := AggregationResult(view.id, probability, view.forecasts == [], []);
    }
  }

  /** The first i hypotheses scored and priced. */
  ghost predicate Scored(root: nat -> real, agents: map<Id, AgentSnapshot>, strategy: Strategy,
                         views: seq<HypothesisView>,
                         i: nat, ranked: seq<RankedHypothesis>, aggregates: map<Id, AggregationResult>)
    requires ViewsKnown(views, agents) && i <= |views|
  {
    && |ranked| == i
    && (forall k :: 0 <= k < i ==>
          Rankable(strategy, views[k]) && ranked[k] == RankedFor(root, agents, strategy, views[k]))
    && (forall k :: 0 <= k < i ==>
          views[k].id in aggregates && Explains(root, agents, strategy, views[k], aggregates[views[k].id]))
  }

  lemma ScoredStep(root: nat -> real, agents: map<Id, AgentSnapshot>, strategy: Strategy, views: seq<HypothesisView>,
                   i: nat, ranked: seq<RankedHypothesis>, aggregates: map<Id, AggregationResult>, r: AggregationResult)
    requires ViewsKnown(views, agents) && DistinctViews(views) && i < |views|
    requires Scored(root, agents, strategy, views, i, ranked, aggregates) && Rankable(strategy, views[i])
    requires Explains(root, agents, strategy, views[i], r)
    ensures Scored(root, agents, strategy, views, i + 1, ranked + [RankedFor(root, agents, strategy, views[i])],
                   aggregates[views[i].id := r])
  {
    forall k | 0 <= k < i ensures views[k].id != views[i].id {}
  }

  lemma AllScored(root: nat -> real, agents: map<Id, AgentSnapshot>, strategy: Strategy, views: seq<HypothesisView>,
                  ranked: seq<RankedHypothesis>, aggregates: map<Id, AggregationResult>)
    requires ViewsKnown(views, agents) && Scored(root, agents, strategy, views, |views|, ranked, aggregates)
    ensures forall v :: v in views ==> Rankable(strategy, v)
    ensures ranked == RankedAll(root, agents, strategy, views)
    ensures forall v :: v in views ==> v.id in aggregates && Explains(root, agents, strategy, v, aggregates[v.id])
  {
    forall v | v in views
      ensures Rankable(strategy, v) && v.id in aggregates && Explains(root, agents, strategy, v, aggregates[v.id])
    {
      var k :| 0 <= k < |views| && views[k] == v;
    }
  }

  /** The first loop: every hypothesis scored and priced. */
  method ScoreAll(root: nat -> real, agents: map<Id, AgentSnapshot>, strategy: Strategy, views: seq<HypothesisView>)
    returns (ok: bool, ranked: seq<RankedHypothesis>, aggregates: map<Id, AggregationResult>)
    requires ViewsKnown(views, agents) && DistinctViews(views)
    ensures ok <==> forall v :: v in views ==> Rankable(strategy, v)
    ensures ok ==> ranked == RankedAll(root, agents, strategy, views)
    ensures ok ==>
              forall v :: v in views ==> v.id in aggregates && Explains(root, agents, strategy, v, aggregates[v.id])
  {
    ranked, aggregates := [], map[];
    for i := 0 to |views|
      invariant Scored(root, agents, strategy, views, i, ranked, aggregates)
    {
      var view := views[i];
      assert view in views;
      var result := Aggregate(root, agents, strategy, view);
      var priority := StrategyPriority(strategy, result.probability, view.terms);
      if priority.None? { return false, [], map[]; }
      ScoredStep(root, agents, strategy, views, i, ranked, aggregates, result);
      aggregates := aggregates[view.id := result];
      ranked := ranked + [RankedHypothesis(view.id, result.probability, priority.value, view.terms.impact)];
    }
    AllScored(root, agents, strategy, views, ranked, aggregates);
    ok := true;
  }

  /** The dictionary of the ranked hypotheses by id. */
  method ById(ranked: seq<RankedHypothesis>) returns (rankedById: map<Id, RankedHypothesis>)
    requires DistinctIds(ranked)
    ensures forall h :: h in ranked ==> h.hypothesisId in rankedById && rankedById[h.hypothesisId] == h
  {
    rankedById := map[];
    for i := 0 to |ranked|
      invariant forall k :: 0 <= k < i ==>
        ranked[k].hypothesisId in rankedById && rankedById[ranked[k].hypothesisId] == ranked[k]
    {
      rankedById := rankedById[ranked[i].hypothesisId := ranked[i]];
    }
  }

  /** The second loop: one row for each decision, joined by hypothesis id with
      its aggregate and its ranked entry. */
  method StoreAll(strategy: Strategy, ranked: seq<RankedHypothesis>, aggregates: map<Id, AggregationResult>,
                  decisions: seq<AllocationDecision>, ghost ordered: seq<RankedHypothesis>)
    returns (rows: seq<DecisionRow>)
    requires DistinctIds(ranked) && |decisions| == |ordered|
    requires forall i :: 0 <= i < |ordered| ==>
               ordered[i] in ranked && decisions[i].hypothesisId == ordered[i].hypothesisId
    requires forall h :: h in ranked ==> h.hypothesisId in aggregates
    ensures |rows| == |decisions|
    ensures forall i :: 0 <= i < |rows| ==>
              ordered[i].hypothesisId in aggregates
              && RowMatches(rows[i], strategy, decisions[i], ordered[i], aggregates[ordered[i].hypothesisId])
  {
    var rankedById := ById(ranked);
    rows := [];
    for i := 0 to |decisions|
      invariant |rows| == i
      invariant forall k :: 0 <= k < i ==>
        ordered[k].hypothesisId in aggregates
        && RowMatches(rows[k], strategy, decisions[k], ordered[k], aggregates[ordered[k].hypothesisId])
    {
      var d := decisions[i];
      assert ordered[i] in ranked;
      var result := aggregates[d.hypothesisId];
      rows := rows + [DecisionRow(d.hypothesisId, strategy, result.probability, rankedById[d.hypothesisId].priority,
                                  d.rank, d.routed, result.contributions)];
    }
  }

  lemma EntriesAggregated(root: nat -> real, agents: map<Id, AgentSnapshot>, strategy: Strategy,
                          views: seq<HypothesisView>, aggregates: map<Id, AggregationResult>)
    requires forall v :: v in views ==> Rankable(strategy, v) && v.id in aggregates
    ensures forall h :: h in RankedAll(root, agents, strategy, views) ==> h.hypothesisId in aggregates
  {
    var ranked := RankedAll(root, agents, strategy, views);
    forall h | h in ranked ensures h.hypothesisId in aggregates {
      var i :| 0 <= i < |ranked| && ranked[i] == h;
      assert views[i] in views;
    }
  }

  /** `_run_one_strategy`; None is the ValueError of `priority_score`. */
  method RunOneStrategy(root: nat -> real, agents: map<Id, AgentSnapshot>, strategy: Strategy,
                        views: seq<HypothesisView>, budget: int) returns (r: Option<PassResult>)
    requires ViewsKnown(views, agents) && DistinctViews(views)
    ensures r.Some? <==> forall v :: v in views ==> Rankable(strategy, v)
    ensures r.Some? ==> IsPass(root, agents, strategy, views, budget, r.value)
  {
    var ok, ranked, aggregates := ScoreAll(root, agents, strategy, views);
    if !ok { return None; }
    var allocation := AllocateAttention(ranked, budget);
    RankedIdsDistinct(root, agents, strategy, views);
    SortedMembers(ranked, RankLe);
    EntriesAggregated(root, agents, strategy, views, aggregates);
    var rows := StoreAll(strategy, ranked, aggregates, allocation.decisions, Sort(ranked, RankLe));
    r := Some(PassResult(allocation, aggregates, ranked, rows));
  }

  // ------------------------------------------------------------ the inputs

  /** Every agent's standing, as the table has it. */
  function AgentSnapshots(db: Db): (agents: map<Id, AgentSnapshot>)
    ensures forall a :: a in agents <==> a in db.agents
    ensures forall a :: a in db.agents ==>
              && agents[a].id == a && agents[a].reputation == db.agents[a].reputation
              && agents[a].available == db.agents[a].available && agents[a].staked == db.agents[a].staked
  {
    map a | a in db.agents ::
      AgentSnapshot(a, db.agents[a].reputation, db.agents[a].available, db.agents[a].staked)
  }

  /** The snapshot of a live forecast says what its row says. */
  predicate ReadsRow(db: Db, h: Id, f: ForecastSnapshot) {
    && (h, f.agentId) in db.forecasts && f.hypothesisId == h
    && f.probability == db.forecasts[(h, f.agentId)].probability
    && f.stake == db.forecasts[(h, f.agentId)].stake
    && f.cluster == db.forecasts[(h, f.agentId)].cluster
  }

  /** Every forecast on h once, in agent order. */
  ghost predicate ReadsRows(db: Db, h: Id, forecasts: seq<ForecastSnapshot>) {
    && (forall i :: 0 <= i < |forecasts| ==> ReadsRow(db, h, forecasts[i]))
    && (forall a :: (h, a) in db.forecasts ==> exists i :: 0 <= i < |forecasts| && forecasts[i].agentId == a)
    && (forall i, j :: 0 <= i < j < |forecasts| ==>
          forecasts[i].agentId != forecasts[j].agentId && LexLe(forecasts[i].agentId, forecasts[j].agentId))
  }

  /** What one pass reads of a hypothesis: its own row and the live forecasts
      on it. */
  ghost predicate Reads(db: Db, h: Id, view: HypothesisView) {
    h in db.hypotheses && view.id == h && view.terms == db.hypotheses[h] && ReadsRows(db, h, view.forecasts)
  }

  /** Every open hypothesis once, in id order. */
  ghost predicate ReadsAll(db: Db, views: seq<HypothesisView>) {
    && (forall i :: 0 <= i < |views| ==> Reads(db, views[i].id, views[i]) && views[i].terms.status == Open)
    && (forall h :: h in db.hypotheses && db.hypotheses[h].status == Open ==>
          exists i :: 0 <= i < |views| && views[i].id == h)
    && (forall i, j :: 0 <= i < j < |views| ==> views[i].id != views[j].id && LexLe(views[i].id, views[j].id))
  }

  lemma RowsAreSound(db: Db, h: Id)
    requires Consistent(db)
    ensures forall a :: a in IdListing(Forecasters(db, h)) <==> (h, a) in db.forecasts
    ensures forall a :: (h, a) in db.forecasts ==> a in db.agents && db.forecasts[(h, a)].stake >= 0
  {
    ListedForecasters(db, h);
    forall a | (h, a) in db.forecasts ensures a in db.agents && db.forecasts[(h, a)].stake >= 0 {
      assert ForecastOk(db, (h, a));
    }
  }

  /** `_forecast_snapshots`, over the selected rows. */
  method Snapshots(h: Id, rows: seq<ForecastRow>) returns (forecasts: seq<ForecastSnapshot>)
    requires forall row :: row in rows ==> row.forecast.stake >= 0
    ensures |forecasts| == |rows|
    ensures forall i :: 0 <= i < |rows| ==>
              && forecasts[i].agentId == rows[i].agent && forecasts[i].hypothesisId == h
              && forecasts[i].probability == rows[i].forecast.probability
              && forecasts[i].stake == rows[i].forecast.stake && forecasts[i].cluster == rows[i].forecast.cluster
  {
    forecasts := [];
    for i := 0 to |rows|
      invariant |forecasts| == i
      invariant forall k :: 0 <= k < i ==>
        && forecasts[k].agentId == rows[k].agent && forecasts[k].hypothesisId == h
        && forecasts[k].probability == rows[k].forecast.probability
        && forecasts[k].stake == rows[k].forecast.stake && forecasts[k].cluster == rows[k].forecast.cluster
    {
      assert rows[i] in rows;
      var row := rows[i].forecast;
      forecasts := forecasts + [ForecastSnapshot(rows[i].agent, h, row.probability, row.stake, row.cluster)];
    }
  }

  lemma ReadAsListed(db: Db, h: Id, listed: seq<Id>, forecasts: seq<ForecastSnapshot>)
    requires Distinct(listed) && SortedBy(LexLe, listed) && |forecasts| == |listed|
    requires forall a :: a in listed <==> (h, a) in db.forecasts
    requires forall i :: 0 <= i < |listed| ==> forecasts[i].agentId == listed[i] && ReadsRow(db, h, forecasts[i])
    ensures ReadsRows(db, h, forecasts)
  {
    forall a | (h, a) in db.forecasts ensures exists i :: 0 <= i < |forecasts| && forecasts[i].agentId == a {
      var i :| 0 <= i < |listed| && listed[i] == a;
      assert forecasts[i].agentId == a;
    }
  }

  method LoadView(repo: Repository, h: Id) returns (view: HypothesisView)
    requires Consistent(repo.working) && h in repo.working.hypotheses
    ensures Reads(repo.working, h, view) && AllKnown(view.forecasts, AgentSnapshots(repo.working))
  {
    var rows := repo.ListForecasts(h);
    RowsAreSound(repo.working, h);
    var forecasts := Snapshots(h, rows);
    ReadAsListed(repo.working, h, IdListing(Forecasters(repo.working, h)), forecasts);
    view := HypothesisView(h, repo.working.hypotheses[h], forecasts);
  }

  lemma AllRead(db: Db, hs: seq<Id>, views: seq<HypothesisView>)
    requires Distinct(hs) && SortedBy(LexLe, hs) && |views| == |hs|
    requires forall h :: h in hs <==> h in db.hypotheses && db.hypotheses[h].status == Open
    requires forall i :: 0 <= i < |hs| ==> Reads(db, hs[i], views[i])
    ensures ReadsAll(db, views) && DistinctViews(views)
  {
    forall h | h in db.hypotheses && db.hypotheses[h].status == Open
      ensures exists i :: 0 <= i < |views| && views[i].id == h
    {
      var i :| 0 <= i < |hs| && hs[i] == h;
      assert views[i].id == h;
    }
    forall i | 0 <= i < |views| ensures Reads(db, views[i].id, views[i]) && views[i].terms.status == Open {
      assert hs[i] in hs;
    }
  }

  method LoadViews(repo: Repository) returns (views: seq<HypothesisView>)
    requires Consistent(repo.working)
    ensures ReadsAll(repo.working, views)
    ensures ViewsKnown(views, AgentSnapshots(repo.working)) && DistinctViews(views)
  {
    var hs := IdListing(set h | h in repo.working.hypotheses && repo.working.hypotheses[h].status == Open);
    ghost var db := repo.working;
    views := [];
    for i := 0 to |hs|
      invariant |views| == i && forall k :: 0 <= k < i ==> Reads(db, hs[k], views[k])
      invariant ViewsKnown(views, AgentSnapshots(db)) && repo.working == db
    {
      assert hs[i] in hs;
      var view := LoadView(repo, hs[i]);
      views := views + [view];
    }
    AllRead(db, hs, views);
  }

  /** The three strategies over the identical inputs. */
  datatype Comparison = Comparison(stakeroute: PassResult, majorityVote: PassResult, highestConfidence: PassResult)

  /** `run_ranking_pass`: read once, rank three times, commit. */
  method RunRankingPass(root: nat -> real, repo: Repository, budget: int)
    returns (r: Option<Comparison>, ghost views: seq<HypothesisView>)
    requires Consistent(repo.working)
    modifies repo
    ensures repo.working == old(repo.working)
    ensures ReadsAll(repo.working, views) && ViewsKnown(views, AgentSnapshots(repo.working))
    ensures r.Some? <==> forall v :: v in views ==> Rankable(Stakeroute, v)
    ensures r.Some? ==>
              IsPass(root, AgentSnapshots(repo.working), Stakeroute, views, budget, r.value.stakeroute)
              && IsPass(root, AgentSnapshots(repo.working), MajorityVote, views, budget, r.value.majorityVote)
              && IsPass(root, AgentSnapshots(repo.working), HighestConfidence, views, budget, r.value.highestConfidence)
    ensures repo.committed == if r.Some? then repo.working else old(repo.committed)
  {
    var agents := AgentSnapshots(repo.working);
    var loaded := LoadViews(repo);
    views := loaded;
    var stakeroute := RunOneStrategy(root, agents, Stakeroute, loaded, budget);
    if stakeroute.None? { return None, loaded; }
    var majority := RunOneStrategy(root, agents, MajorityVote, loaded, budget);
    var highest := RunOneStrategy(root, agents, HighestConfidence, loaded, budget);
    repo.Commit();
    r := Some(Comparison(stakeroute.value, majority.value, highest.value));
  }

  /** The stored rows, read as a ranking: each hypothesis's row says how many
      beat it, who is routed follows from that and the budget alone, and as many
      are routed as the budget allows. */
  lemma RowsAreARanking(root: nat -> real, agents: map<Id, AgentSnapshot>, strategy: Strategy,
                        views: seq<HypothesisView>, budget: int, r: PassResult, i: nat)
    requires ViewsKnown(views, agents) && DistinctViews(views) && forall v :: v in views ==> Rankable(strategy, v)
    requires IsPass(root, agents, strategy, views, budget, r) && i < |views|
    ensures var entry := Sort(r.ranked, RankLe)[i];
            && entry in r.ranked && r.rows[i].hypothesis == entry.hypothesisId && r.rows[i].priority == entry.priority
            && r.rows[i].rank == i + 1 == RankOf(r.ranked, entry)
            && r.rows[i].routed == (r.rows[i].rank <= budget)
    ensures r.allocation.withheld + Count(Routed(), r.allocation.decisions) == |views|
  {
    RankedIdsDistinct(root, agents, strategy, views);
    RankCountsTheBetter(r.ranked, budget, i);
    AllocationIsBudgeted(r.ranked, budget);
    SortedMembers(r.ranked, RankLe);
    assert Sort(r.ranked, RankLe)[i] in Sort(r.ranked, RankLe);
    assert RowStored(strategy, r, i);
  }

  /** Each stored row explains itself: its probability is the strategy's for its
      own hypothesis, and its contributions are the whole explanation of that
      probability under the considered mechanism and none under a baseline. */
  lemma RowsExplainThemselves(root: nat -> real, agents: map<Id, AgentSnapshot>, strategy: Strategy,
                              views: seq<HypothesisView>, budget: int, r: PassResult, i: nat)
    returns (v: HypothesisView, a: AggregationResult)
    requires ViewsKnown(views, agents) && forall v :: v in views ==> Rankable(strategy, v)
    requires IsPass(root, agents, strategy, views, budget, r) && i < |views|
    ensures v in views && r.rows[i].hypothesis == v.id && r.rows[i].strategy == strategy
    ensures r.rows[i].probability == a.probability == StrategyProbability(root, agents, strategy, v)
    ensures r.rows[i].contributions == a.contributions
    ensures if strategy == Stakeroute then IsAggregate(root, v.forecasts, agents, v.terms.prior, a)
            else a.contributions == []
  {
    assert RowStored(strategy, r, i);
    SortedMembers(r.ranked, RankLe);
    var entry := Sort(r.ranked, RankLe)[i];
    assert entry in Sort(r.ranked, RankLe);
    var k :| 0 <= k < |r.ranked| && r.ranked[k] == entry;
    v := views[k];
    a := r.aggregates[v.id];
    assert v in views && Explains(root, agents, strategy, v, a);
  }
}
