/** The attack prices run through the ranking pass: what the quoted number of
    identities does to the ranks, under each strategy. */
module RankAttacks {
  import opened Orders
  import opened Types
  import opened Reals
  import opened Sums
  import opened Market
  import opened MarketTheorems
  import opened Baselines
  import opened Ranking
  import opened Attack
  import opened AttackTheorems
  import opened Pipeline

  /** A count of identities buys the slot at this price. */
  predicate Buys(price: Option<nat>, identities: nat) { price.Some? && identities >= price.value }

  /** The same hypotheses with more forecasts on the k-th. */
  function Flooded(views: seq<HypothesisView>, k: nat, sybils: seq<ForecastSnapshot>): seq<HypothesisView>
    requires k < |views|
  {
    views[k := views[k].(forecasts := views[k].forecasts + sybils)]
  }

  // ---------------------------------------------------------- majority vote

  ghost predicate AllVoteTrue(sybils: seq<ForecastSnapshot>) {
    forall f :: f in sybils ==> f.probability > 0.5
  }

  /** The majority score of v true votes in n, with N true votes more. */
  function Tally(n: nat, v: nat, prior: real, N: nat): real {
    if n + N == 0 then prior else (v + N) as real / (n + N) as real
  }

  lemma FloodedTally(honest: seq<ForecastSnapshot>, sybils: seq<ForecastSnapshot>, prior: real)
    requires AllVoteTrue(sybils)
    ensures MajorityVoteProbability(honest + sybils, prior) == Tally(|honest|, Votes(honest), prior, |sybils|)
  {
    CountConcat(VotesTrue(), honest, sybils);
    CountAll(VotesTrue(), sybils);
  }

  lemma TallyExceeds(n: nat, v: nat, prior: real, N: nat, t: real)
    requires n + N > 0
    ensures Tally(n, v, prior, N) > t <==> (v + N) as real > Product(t, (n + N) as real)
  {
    RatioCompare((v + N) as real, (n + N) as real, t);
  }

  /** Solving for N, below a threshold of 1. */
  lemma NeededVotes(n: nat, v: nat, N: nat, t: real)
    requires t < 1.0
    ensures var needed := Ratio(Product(n as real, t) - v as real, 1.0 - t);
            (v + N) as real > Product(t, (n + N) as real) <==> N >= needed.Floor + 1
  {
    var gap := Product(n as real, t) - v as real;
    RatioCompare(gap, 1.0 - t, N as real);
    assert Product(N as real, 1.0 - t) == N as real - Product(t, N as real);
    assert Product(t, (n + N) as real) == Product(t, n as real) + Product(t, N as real);
    assert Product(t, n as real) == Product(n as real, t);
  }

  lemma TallyAtMostOne(n: nat, v: nat, prior: real, N: nat)
    requires v <= n && n + N > 0
    ensures Tally(n, v, prior, N) <= 1.0
  {
    RatioCompare((v + N) as real, (n + N) as real, 1.0);
  }

  /** The majority count is exact whenever someone has forecast: N true votes
      beat the threshold if and only if the quoted count is at most N. With no
      forecast the code overlooks that the score is then the prior, and is
      exact if and only if the prior falls on the side it takes for granted. */
  lemma MajorityPriceExactlyWhen(n: nat, v: nat, prior: real, t: real)
    requires v <= n && IsProbability(prior)
    ensures (forall N: nat :: Tally(n, v, prior, N) > t <==> Buys(MajorityVoteIdentitiesRequired(n, v, t), N))
            <==> (n > 0 || (if t <= 0.0 then prior > t else prior <= t))
  {
    var price := MajorityVoteIdentitiesRequired(n, v, t);
    assert Tally(n, v, prior, 0) > t <==> if n == 0 then prior > t else v as real / n as real > t;
    forall N: nat | n > 0 || N > 0 ensures Tally(n, v, prior, N) > t <==> Buys(price, N) {
      MajorityPriceWithVotes(n, v, prior, t, N);
    }
    assert n == 0 ==> (Buys(price, 0) <==> t <= 0.0);
  }

  lemma MajorityPriceWithVotes(n: nat, v: nat, prior: real, t: real, N: nat)
    requires v <= n && n + N > 0
    ensures Tally(n, v, prior, N) > t <==> Buys(MajorityVoteIdentitiesRequired(n, v, t), N)
  {
    TallyExceeds(n, v, prior, N, t);
    if t >= 1.0 {
      TallyAtMostOne(n, v, prior, N);
      if n > 0 { TallyAtMostOne(n, v, prior, 0); }
    } else {
      NeededVotes(n, v, N, t);
      NeededVotes(n, v, 0, t);
      if n > 0 { TallyExceeds(n, v, prior, 0, t); }
    }
  }

  /** Without forecasts and with a prior already above the threshold the code
      still quotes one identity. */
  lemma MajorityPriceIgnoresThePrior()
    ensures MajorityVoteIdentitiesRequired(0, 0, 0.2) == Some(1) && MajorityVoteProbability([], 0.5) > 0.2
  {
  }

  /** The leader of a pass and a target that is not ahead of it. */
  ghost predicate Contested(ranked: seq<RankedHypothesis>, k: nat, j: nat) {
    && k < |ranked| && j < |ranked| && k != j
    && (forall i :: 0 <= i < |ranked| && i != k ==> ranked[i].priority <= ranked[j].priority)
    && ranked[k].priority <= ranked[j].priority
  }

  /** A target that passes the leader, everything else unchanged, is rank 1. */
  lemma PassingTheLeader(before: seq<RankedHypothesis>, after: seq<RankedHypothesis>, k: nat, j: nat, budget: int)
    requires Contested(before, k, j) && DistinctIds(after) && |after| == |before|
    requires forall i :: 0 <= i < |before| && i != k ==> after[i] == before[i]
    ensures after[k].priority > before[j].priority ==>
              RankOf(after, after[k]) == 1
              && Allocation(after, budget).decisions[0] == AllocationDecision(after[k].hypothesisId, 1, 1 <= budget)
  {
    if after[k].priority > before[j].priority {
      forall h | h in after && h.hypothesisId != after[k].hypothesisId ensures h.priority < after[k].priority {
        var i :| 0 <= i < |after| && after[i] == h;
      }
      StrictBestLeads(after, after[k], budget);
    }
  }

  /** The majority price through the pass: among any hypotheses, a target with
      a forecast that is not ahead of the leader takes rank 1 with the quoted
      number of true votes, and with any fewer its score stays at or below the
      leader's; without a quote no number suffices. */
  lemma MajorityPriceTakesTheLead(root: nat -> real, agents: map<Id, AgentSnapshot>, views: seq<HypothesisView>,
                                  k: nat, j: nat, sybils: seq<ForecastSnapshot>, budget: int)
    requires DistinctViews(views) && AllVoteTrue(sybils)
    requires Contested(RankedAll(root, agents, MajorityVote, views), k, j) && views[k].forecasts != []
    ensures var before := RankedAll(root, agents, MajorityVote, views);
            var after := RankedAll(root, agents, MajorityVote, Flooded(views, k, sybils));
            var honest := views[k].forecasts;
            var price := MajorityVoteIdentitiesRequired(|honest|, Votes(honest), before[j].priority);
            if Buys(price, |sybils|) then
              RankOf(after, after[k]) == 1
              && Allocation(after, budget).decisions[0] == AllocationDecision(views[k].id, 1, 1 <= budget)
            else after[k].priority <= after[j].priority
  {
    var before := RankedAll(root, agents, MajorityVote, views);
    var attacked := Flooded(views, k, sybils);
    var after := RankedAll(root, agents, MajorityVote, attacked);
    FloodedTally(views[k].forecasts, sybils, views[k].terms.prior);
    MajorityPriceWithVotes(|views[k].forecasts|, Votes(views[k].forecasts), views[k].terms.prior,
                           before[j].priority, |sybils|);
    RankedIdsDistinct(root, agents, MajorityVote, attacked);
    PassingTheLeader(before, after, k, j, budget);
  }

  // ----------------------------------------------------- highest confidence

  ghost predicate AllClaimCeiling(sybils: seq<ForecastSnapshot>) {
    forall f :: f in sybils ==> f.probability == PROBABILITY_CEIL
  }

  lemma {:induction false} GreatestOfFlood(honest: seq<ForecastSnapshot>, sybils: seq<ForecastSnapshot>)
    requires honest != [] && AllClaimCeiling(sybils)
    ensures Greatest(honest + sybils)
              == if sybils != [] && Greatest(honest) < PROBABILITY_CEIL then PROBABILITY_CEIL else Greatest(honest)
  {
    GreatestIsMaximum(honest);
    GreatestIsMaximum(honest + sybils);
    var all, best := honest + sybils, Greatest(honest + sybils);
    forall f | f in honest ensures f.probability <= best { assert f in all; }
    if sybils != [] { assert sybils[0] in all; }
    var f :| f in all && f.probability == best;
    var g :| g in honest && g.probability == Greatest(honest);
    assert f in honest || f in sybils;
  }

  lemma GreatestOfCeiling(sybils: seq<ForecastSnapshot>)
    requires sybils != [] && AllClaimCeiling(sybils)
    ensures Greatest(sybils) == PROBABILITY_CEIL
  {
    GreatestIsMaximum(sybils);
  }

  /** The highest-confidence count is right for a flood of ceiling claims. */
  ghost predicate HighestConfidenceRight(honest: seq<ForecastSnapshot>, sybils: seq<ForecastSnapshot>, prior: real,
                                         t: real) {
    HighestConfidenceProbability(honest + sybils, prior) > t <==>
    Buys(HighestConfidenceIdentitiesRequired(HighestConfidenceProbability(honest, prior), t), |sybils|)
  }

  lemma HighestConfidencePriceExact(honest: seq<ForecastSnapshot>, sybils: seq<ForecastSnapshot>, prior: real, t: real)
    requires AllClaimCeiling(sybils) && (honest != [] || prior <= t || t < PROBABILITY_CEIL)
    ensures HighestConfidenceRight(honest, sybils, prior, t)
  {
    if honest != [] {
      GreatestOfFlood(honest, sybils);
    } else {
      assert honest + sybils == sybils;
      if sybils != [] { GreatestOfCeiling(sybils); }
    }
  }

  /** One voice at the ceiling, or nothing: the highest-confidence count is
      exact for every flood of ceiling claims, unless nobody has forecast and
      the prior beats a threshold at or above the ceiling - then any claim
      lowers the score the count takes for granted. */
  lemma HighestConfidencePriceExactlyWhen(honest: seq<ForecastSnapshot>, prior: real, t: real)
    ensures (forall sybils :: AllClaimCeiling(sybils) ==> HighestConfidenceRight(honest, sybils, prior, t)) <==>
            (honest != [] || prior <= t || t < PROBABILITY_CEIL)
  {
    if honest != [] || prior <= t || t < PROBABILITY_CEIL {
      forall sybils | AllClaimCeiling(sybils) ensures HighestConfidenceRight(honest, sybils, prior, t) {
        HighestConfidencePriceExact(honest, sybils, prior, t);
      }
    } else {
      var claim := [ForecastSnapshot("", "", PROBABILITY_CEIL, 1, "")];
      assert honest + claim == claim;
      assert AllClaimCeiling(claim) && !HighestConfidenceRight(honest, claim, prior, t);
    }
  }

  /** A prior of 0.995 beats 0.99 by itself, and no longer does once someone
      claims 0.99. */
  lemma HighestConfidencePriceLosesThePrior()
    ensures HighestConfidenceIdentitiesRequired(HighestConfidenceProbability([], 0.995), 0.99) == Some(0)
    ensures HighestConfidenceProbability([ForecastSnapshot("s", "h", PROBABILITY_CEIL, 1, "c")], 0.995) <= 0.99
  {
  }

  /** The highest-confidence price through the pass: among any hypotheses, a
      target that is not ahead of the leader takes rank 1 with the quoted number
      of ceiling claims, and without them stays at or below it; without a quote
      no number suffices. */
  lemma HighestConfidencePriceTakesTheLead(root: nat -> real, agents: map<Id, AgentSnapshot>,
                                           views: seq<HypothesisView>, k: nat, j: nat, sybils: seq<ForecastSnapshot>,
                                           budget: int)
    requires DistinctViews(views) && AllClaimCeiling(sybils)
    requires Contested(RankedAll(root, agents, HighestConfidence, views), k, j)
    ensures var before := RankedAll(root, agents, HighestConfidence, views);
            var after := RankedAll(root, agents, HighestConfidence, Flooded(views, k, sybils));
            var price := HighestConfidenceIdentitiesRequired(before[k].probability, before[j].priority);
            if Buys(price, |sybils|) then
              RankOf(after, after[k]) == 1
              && Allocation(after, budget).decisions[0] == AllocationDecision(views[k].id, 1, 1 <= budget)
            else after[k].priority <= after[j].priority
  {
    var before := RankedAll(root, agents, HighestConfidence, views);
    var attacked := Flooded(views, k, sybils);
    var after := RankedAll(root, agents, HighestConfidence, attacked);
    HighestConfidencePriceExact(views[k].forecasts, sybils, views[k].terms.prior, before[j].priority);
    RankedIdsDistinct(root, agents, HighestConfidence, attacked);
    PassingTheLeader(before, after, k, j, budget);
  }

  // ------------------------------------------------------------- stakeroute

  /** What a pass says of one hypothesis. */
  ghost predicate PassEntry(root: nat -> real, agents: map<Id, AgentSnapshot>, view: HypothesisView,
                            entry: RankedHypothesis, aggregate: AggregationResult)
    requires AllKnown(view.forecasts, agents) && view.terms.reviewCost > 0.0
  {
    && IsAggregate(root, view.forecasts, agents, view.terms.prior, aggregate)
    && entry == RankedHypothesis(view.id, aggregate.probability,
                                 PriorityScore(aggregate.probability, view.terms.impact, view.terms.urgency,
                                               view.terms.reviewCost).value, view.terms.impact)
  }

  lemma PassReads(root: nat -> real, agents: map<Id, AgentSnapshot>, views: seq<HypothesisView>, i: nat, budget: int,
                  r: PassResult)
    requires ViewsKnown(views, agents) && i < |views| && forall v :: v in views ==> Rankable(Stakeroute, v)
    requires IsPass(root, agents, Stakeroute, views, budget, r)
    ensures |r.ranked| == |views| && views[i].id in r.aggregates
    ensures views[i] in views && PassEntry(root, agents, views[i], r.ranked[i], r.aggregates[views[i].id])
  {
    assert views[i] in views;
  }

  /** The price quoted against a defender, for a target as a pass saw it. */
  function QuoteFor(root: nat -> real, view: HypothesisView, defender: real, was: AggregationResult,
                    reputation: real, stake: nat, claim: real, shared: bool): AttackCost
    requires view.terms.reviewCost > 0.0 && Product(view.terms.impact as real, view.terms.urgency) > 0.0
  {
    Contest(defender, view.terms.impact, view.terms.urgency, view.terms.reviewCost)
      .Quote(root, ExplainedWeight(was), was.probability, reputation, stake, shared, claim, view.terms.prior)
  }

  /** ExactPrice and PassedExactlyWhen, on the entries of two passes. */
  lemma PriceOfEntries(root: nat -> real, agents: map<Id, AgentSnapshot>, view: HypothesisView,
                       sybils: seq<ForecastSnapshot>, defender: real, before: RankedHypothesis, after: RankedHypothesis,
                       was: AggregationResult, now: AggregationResult,
                       reputation: real, stake: nat, claim: real, shared: bool)
    requires IsRoot(root) && reputation >= 0.0 && view.terms.reviewCost > 0.0
    requires AllKnown(view.forecasts, agents) && AllKnown(view.forecasts + sybils, agents)
    requires IsFlood(agents, view.forecasts, sybils, reputation, stake, claim, shared)
    requires PassEntry(root, agents, view, before, was)
    requires PassEntry(root, agents, view.(forecasts := view.forecasts + sybils), after, now)
    requires before.priority < defender && Product(view.terms.impact as real, view.terms.urgency) > 0.0
    requires ExplainedWeight(was) > 0.0
    ensures var quote := QuoteFor(root, view, defender, was, reputation, stake, claim, shared);
            && (after.priority >= defender <==> quote.feasible && |sybils| >= quote.identities)
            && (after.priority > defender <==> quote.feasible && |sybils| as real > Unrounded(root, quote, stake))
            && (quote.feasible ==>
                  Unrounded(root, quote, stake) <= quote.identities as real < Unrounded(root, quote, stake) + 1.0)
  {
    var contest := Contest(defender, view.terms.impact, view.terms.urgency, view.terms.reviewCost);
    ExactPrice(root, agents, view.terms.prior, contest, view.forecasts, sybils, was, now,
               reputation, stake, claim, shared);
    PassedExactlyWhen(root, agents, view.terms.prior, contest, view.forecasts, sybils, was, now,
                      reputation, stake, claim, shared);
  }

  /** A flood touches one view, and of that only the forecasts. */
  lemma FloodedViews(views: seq<HypothesisView>, k: nat, j: nat, sybils: seq<ForecastSnapshot>)
    requires DistinctViews(views) && k < |views| && j < |views| && k != j
    requires forall v :: v in views ==> Rankable(Stakeroute, v)
    ensures var attacked := Flooded(views, k, sybils);
            && DistinctViews(attacked) && attacked[j] == views[j]
            && forall v :: v in attacked ==> Rankable(Stakeroute, v)
  {
    var attacked := Flooded(views, k, sybils);
    forall v | v in attacked ensures Rankable(Stakeroute, v) {
      var i :| 0 <= i < |attacked| && attacked[i] == v;
      assert Rankable(Stakeroute, views[i]);
    }
  }

  /** Target k against defender j in two passes over the same hypotheses,
      before and after a uniform flood on the target's fresh evidence. */
  ghost predicate IsAttack(root: nat -> real, agents: map<Id, AgentSnapshot>, views: seq<HypothesisView>, k: nat,
                           j: nat,
                           sybils: seq<ForecastSnapshot>, budget: int, before: PassResult, after: PassResult,
                           reputation: real, stake: nat, claim: real, shared: bool)
  {
    && IsRoot(root) && reputation >= 0.0 && DistinctViews(views) && k < |views| && j < |views| && k != j
    && (forall v :: v in views ==> Rankable(Stakeroute, v))
    && (forall v :: v in Flooded(views, k, sybils) ==> Rankable(Stakeroute, v))
    && ViewsKnown(views, agents) && ViewsKnown(Flooded(views, k, sybils), agents)
    && IsFlood(agents, views[k].forecasts, sybils, reputation, stake, claim, shared)
    && IsPass(root, agents, Stakeroute, views, budget, before)
    && IsPass(root, agents, Stakeroute, Flooded(views, k, sybils), budget, after)
    && before.ranked[k].priority < before.ranked[j].priority
    && views[k].terms.reviewCost > 0.0 && Product(views[k].terms.impact as real, views[k].terms.urgency) > 0.0
    && views[k].id in before.aggregates && ExplainedWeight(before.aggregates[views[k].id]) > 0.0
  }

  /** At a tie on priority the higher impact wins, then the smaller id. */
  predicate WinsTies(target: HypothesisView, defender: HypothesisView) {
    target.terms.impact > defender.terms.impact
    || (target.terms.impact == defender.terms.impact && LexLe(target.id, defender.id))
  }

  /** What the attacker can work out beforehand: a target that wins ties needs
      the quoted count, one that loses them more than the count before it was
      rounded up. */
  predicate Suffices(root: nat -> real, quote: AttackCost, stake: nat, identities: nat, winsTies: bool) {
    && quote.feasible
    && if winsTies then identities >= quote.identities else identities as real > Unrounded(root, quote, stake)
  }

  /** The quoted price through the pass. The target reaches the defender's
      priority exactly when the quote is feasible and the flood is as large as
      quoted, and is ranked ahead of it exactly when the flood suffices, ties
      considered. */
  lemma QuotedPriceReachesTheRank(root: nat -> real, agents: map<Id, AgentSnapshot>, views: seq<HypothesisView>,
                                  k: nat, j: nat, sybils: seq<ForecastSnapshot>, budget: int,
                                  before: PassResult, after: PassResult,
                                  reputation: real, stake: nat, claim: real, shared: bool)
    requires IsAttack(root, agents, views, k, j, sybils, budget, before, after, reputation, stake, claim, shared)
    ensures var quote := QuoteFor(root, views[k], before.ranked[j].priority, before.aggregates[views[k].id],
                                  reputation, stake, claim, shared);
            var target, defender := after.ranked[k], after.ranked[j];
            && (target.priority >= defender.priority <==> quote.feasible && |sybils| >= quote.identities)
            && (RankOf(after.ranked, target) < RankOf(after.ranked, defender) <==>
                Suffices(root, quote, stake, |sybils|, WinsTies(views[k], views[j])))
  {
    var attacked := Flooded(views, k, sybils);
    FloodedViews(views, k, j, sybils);
    PassReads(root, agents, views, k, budget, before);
    PassReads(root, agents, attacked, k, budget, after);
    PassReads(root, agents, attacked, j, budget, after);
    PriceOfEntries(root, agents, views[k], sybils, before.ranked[j].priority, before.ranked[k], after.ranked[k],
                   before.aggregates[views[k].id], after.aggregates[views[k].id], reputation, stake, claim, shared);
    RankedIdsDistinct(root, agents, Stakeroute, attacked);
    assert after.ranked[j] == before.ranked[j];
    RanksFollowTheKey(after.ranked, k, j);
  }

  /** Against the leader the flood that suffices buys rank 1, and no other: the
      defender is before every other hypothesis. */
  lemma QuotedPriceTakesTheLead(root: nat -> real, agents: map<Id, AgentSnapshot>, views: seq<HypothesisView>,
                                k: nat, j: nat, sybils: seq<ForecastSnapshot>, budget: int,
                                before: PassResult, after: PassResult,
                                reputation: real, stake: nat, claim: real, shared: bool)
    requires IsAttack(root, agents, views, k, j, sybils, budget, before, after, reputation, stake, claim, shared)
    requires forall i :: 0 <= i < |views| && i != j && i != k ==> RankLe(before.ranked[j], before.ranked[i])
    ensures var quote := QuoteFor(root, views[k], before.ranked[j].priority, before.aggregates[views[k].id],
                                  reputation, stake, claim, shared);
            var suffices := Suffices(root, quote, stake, |sybils|, WinsTies(views[k], views[j]));
            && (RankOf(after.ranked, after.ranked[k]) == 1 <==> suffices)
            && (suffices ==> Allocation(after.ranked, budget).decisions[0]
                               == AllocationDecision(views[k].id, 1, 1 <= budget))
  {
    QuotedPriceReachesTheRank(root, agents, views, k, j, sybils, budget, before, after,
                              reputation, stake, claim, shared);
    FloodedViews(views, k, j, sybils);
    RankedIdsDistinct(root, agents, Stakeroute, Flooded(views, k, sybils));
    OthersUnmoved(root, agents, views, k, sybils);
    LeadTaken(before.ranked, after.ranked, k, j, budget);
  }

  /** Whether the quoted count is the price of rank 1: a flood of exactly that
      size takes it from the leader if and only if the target wins ties or the
      count was rounded up. One identity more always does. */
  lemma QuotedCountTakesTheLeadExactlyWhen(root: nat -> real, agents: map<Id, AgentSnapshot>,
                                           views: seq<HypothesisView>, k: nat, j: nat, sybils: seq<ForecastSnapshot>,
                                           budget: int, before: PassResult, after: PassResult,
                                           reputation: real, stake: nat, claim: real, shared: bool)
    requires IsAttack(root, agents, views, k, j, sybils, budget, before, after, reputation, stake, claim, shared)
    requires forall i :: 0 <= i < |views| && i != j && i != k ==> RankLe(before.ranked[j], before.ranked[i])
    requires QuoteFor(root, views[k], before.ranked[j].priority, before.aggregates[views[k].id],
                      reputation, stake, claim, shared).feasible
    ensures var quote := QuoteFor(root, views[k], before.ranked[j].priority, before.aggregates[views[k].id],
                                  reputation, stake, claim, shared);
            && (|sybils| == quote.identities ==>
                  (RankOf(after.ranked, after.ranked[k]) == 1 <==>
                   WinsTies(views[k], views[j]) || Unrounded(root, quote, stake) < quote.identities as real))
            && (|sybils| > quote.identities ==> RankOf(after.ranked, after.ranked[k]) == 1)
  {
    QuotedPriceTakesTheLead(root, agents, views, k, j, sybils, budget, before, after,
                            reputation, stake, claim, shared);
    PassReads(root, agents, views, k, budget, before);
    var terms := views[k].terms;
    var contest := Contest(before.ranked[j].priority, terms.impact, terms.urgency, terms.reviewCost);
    var was := before.aggregates[views[k].id];
    ThresholdInvertsPriority(contest, was.probability);
    QuoteRoundsUp(root, contest, ExplainedWeight(was), was.probability, reputation, stake, shared, claim, terms.prior);
  }

  lemma OthersUnmoved(root: nat -> real, agents: map<Id, AgentSnapshot>, views: seq<HypothesisView>, k: nat,
                      sybils: seq<ForecastSnapshot>)
    requires k < |views| && forall v :: v in views ==> Rankable(Stakeroute, v)
    requires forall v :: v in Flooded(views, k, sybils) ==> Rankable(Stakeroute, v)
    ensures var was := RankedAll(root, agents, Stakeroute, views);
            var now := RankedAll(root, agents, Stakeroute, Flooded(views, k, sybils));
            forall i :: 0 <= i < |views| && i != k ==> now[i] == was[i]
  {
  }

  /** Overtaking the leader is leading. */
  lemma LeadTaken(before: seq<RankedHypothesis>, after: seq<RankedHypothesis>, k: nat, j: nat, budget: int)
    requires |after| == |before| && k < |after| && j < |after| && k != j && DistinctIds(after)
    requires forall i :: 0 <= i < |before| && i != k ==> after[i] == before[i]
    requires forall i :: 0 <= i < |before| && i != j && i != k ==> RankLe(before[j], before[i])
    ensures RankOf(after, after[k]) == 1 <==> RankOf(after, after[k]) < RankOf(after, after[j])
    ensures RankOf(after, after[k]) == 1 ==>
              Allocation(after, budget).decisions[0] == AllocationDecision(after[k].hypothesisId, 1, 1 <= budget)
  {
    RanksFollowTheKey(after, k, j);
    RanksFollowTheKey(after, j, k);
    LexLeTotal(after[k].hypothesisId, after[j].hypothesisId);
    if RankLe(after[k], after[j]) {
      forall i | 0 <= i < |after| && i != k ensures RankLe(after[k], after[i]) {
        if i != j { AheadOf(after[k], after[j], after[i]); }
      }
      BeforeAllLeads(after, k, budget);
    }
  }

  lemma AheadOf(x: RankedHypothesis, y: RankedHypothesis, z: RankedHypothesis)
    requires RankLe(x, y) && RankLe(y, z)
    ensures RankLe(x, z)
  {
    RankLeIsPreorder();
  }
}
