# StakeRoute: the credit ledger and the market, in Dafny

StakeRoute lets agents stake credits on probabilistic forecasts, ranks
hypotheses for human review by a stake- and reputation-weighted aggregate, and
settles every forecast against the outcome. This project models its two hard
cores and proves what they promise.

**The exactly-once credit ledger.** An at-least-once transport delivers events;
the worker inserts each event, runs its handler, commits, and only then
acknowledges. The handlers lock, replace, settle and release integer credits.
The tables are a value (`Ledger.Db`); the repository, the handlers, the
settlement runner and the consume loop are methods that change a `Repository`
and a `MemoryTransport` statement by statement, each proved to have exactly the
effect the pure specification gives. `Protocol` is the state machine over
which the safety theorems quantify: publications, deliveries, crashes at any
point, redeliveries, acknowledgements and ledger maintenance in any
interleaving. Whatever a handler raises ends the worker process, so it is a
crash.

**The market and its closed-form inverse.** Aggregation, priority, allocation,
settlement scoring and reputation, and the attack-pricing module that claims
exact inverses of them. The inverses are proved against the real aggregation,
scoring and ranking code, not against each other. Square roots enter through a
function parameter constrained by `Reals.IsRoot`; probabilities are reals.

- `Orders`, `Sums`, `Reals`, `Rounding`, `Types`: ordering and stable sort, sums, guarded multiplication, half-even rounding, records.
- `Scoring`, `Reputation`: settlement arithmetic, properness, reputation over whole runs.
- `Market`, `MarketTheorems`, `Ranking`, `Baselines`: aggregation, allocation, the naive strategies.
- `Attack`, `AttackTheorems`, `EvidenceTheorems`, `RankAttacks`, `QuoteLaws`: attack prices, their exactness on fresh evidence, other evidence, the ranks they buy, and their bill and loss in the ledger.
- `Ledger`, `LedgerFacts`, `LedgerInvariants`, `LedgerBalances`, `LedgerBacking`, `LedgerHistory`, `LedgerRuns`, `SettlementOrder`: the ledger as a fold, closed forms of its loops, invariants, conservation, stake backing, concrete runs, order independence.
- `TableLaws`: what every submission, expiry and resolution does, stated on the tables and in plain numbers, without the specification functions; the settlements table as an audit trail.
- `Transport`, `TransportTheorems`: the in-process transport, custody, dead letters, termination.
- `Storage`, `Worker`, `Consumer`, `Pipeline`: the imperative code against those specifications.
- `PassLaws`: what a ranking pass of each strategy stores, against the tables it read.
- `Protocol`, `ExactlyOnce`, `KeptTransactions`: the worker as a state machine, the idempotency argument, and what a process that outlives a raise would lose.

## Where the code and its documentation part

Each case comes with a lemma that names an input and a lemma that says exactly
when the promise holds.

- Beating the prior always pays (SC-008): a winning forecast can earn nothing
  (`Scoring.BeatingThePriorCanPayNothing`). Credits move up exactly when stake
  times the rounded improvement exceeds 50 hundredths, and down exactly below
  -50 (`Scoring.CreditsMoveExactlyWhen`).
- Beating the prior always pulls reputation up, never down: not at the ceiling,
  nor for an agent registered above it (`Reputation.ImprovementCanFailToRaise`;
  exactly: `Reputation.MovesWithImprovement`).
- Staked credits are the live stakes: neither handler looks at the hypothesis's
  status, so a forecast or an outcome for an expired hypothesis breaks this and
  staked credits can even become negative
  (`LedgerRuns.ExpiredStakeGoesNegative`). An operation keeps it if and only if
  it does not touch stakes that expiry already gave back
  (`LedgerBacking.BackingKeptExactlyWhen`). Available credits and conservation
  survive this.
- Locked stakes come back: a stake placed on an already resolved hypothesis is
  accepted (`LedgerRuns.LateStakeIsAccepted`). Some continuation of a run
  releases a lock if and only if its hypothesis has no outcome yet
  (`LedgerHistory.ReleasableExactlyWhen`).
- Resolved and expired are terminal: an outcome resolves an expired hypothesis
  (`LedgerRuns.ExpiredIsResolved`). Resolved is never left, expired exactly by
  an outcome for that hypothesis (`LedgerHistory.TerminalExactlyWhen`).
- A valid forecast is accepted and a resubmission replaces it (FR-044): it
  raises when two pairs of ids join to the same primary key, or on replacement
  when an id holds a colon (`LedgerRuns.DashedForecastRaises`,
  `LedgerRuns.ColonResubmissionRaises`; exactly:
  `LedgerInvariants.ForecastEffectIs`).
- An outcome other than 0 or 1 is rejected: only if there is a forecast to score
  (`LedgerRuns.InvalidOutcomeIsRecorded`; exactly:
  `LedgerInvariants.SettleEffectIs`).
- Event and effect become durable together: not in a process that outlives a
  raised handler and commits its open transaction later, as the dashboard does.
  Whatever the handler raised on, what is durable then continues the log if and
  only if the transaction was rolled back first
  (`KeptTransactions.KeptTransactionLosesTheEffect`; the inputs handlers raise
  on: `KeptTransactions.HandlerRaisesExactlyWhen`).
- The quoted count buys rank 1: it can tie (`AttackTheorems.OneIdentityTies`).
  Against the leader it takes rank 1 if and only if the target wins ties on
  impact and id or the count was rounded up
  (`RankAttacks.QuotedCountTakesTheLeadExactlyWhen`); one identity more always
  does.
- The quoted count is the least: where seven identities are quoted, five are
  enough when one of them cites the honest agent's own evidence and so discounts
  it (`EvidenceTheorems.FiveBeatSeven`). On evidence no honest agent cites the
  count for distinct evidence is the least however the identities spread
  (`EvidenceTheorems.LeastPriceOnFreshEvidence`); on any evidence at all a flood
  reaches the defender exactly as `EvidenceTheorems.AnyFloodReachesExactlyWhen`
  says.
- The price without honest weight skips the headroom and standing tests
  (`AttackTheorems.UnopposedQuoteIgnoresHeadroom`; exactly:
  `AttackTheorems.UnopposedPrice`).
- The majority-vote and highest-confidence counts without honest forecasts
  overlook that the score is then the prior
  (`RankAttacks.MajorityPriceIgnoresThePrior`,
  `RankAttacks.HighestConfidencePriceLosesThePrior`; exactly:
  `RankAttacks.MajorityPriceExactlyWhen`,
  `RankAttacks.HighestConfidencePriceExactlyWhen`).

## Model

| member | source | states |
|---|---|---|
| `Types.ClampProbability` | src/stakeroute/core/types.py:66-72 | The result is the closest admissible probability to the input. |
| `Rounding.HalfEven` | src/stakeroute/core/settlement.py:39-45 | The result is within one half of the input, and even on a tie; `HalfEvenUnique` shows nothing else is. |
| `Scoring.SettleForecastYields` | src/stakeroute/core/settlement.py:33-54 | Settlement is rejected exactly for outcomes other than 0 and 1, and otherwise reports the squared distances of report and prior from the outcome, the improvement between them and the delta. |
| `Scoring.SettlementByHand` | src/stakeroute/core/settlement.py:33-54 | A settlement replayed from its inputs: any integers that round the improvement to hundredths and its product with the stake to credits, half-even, give the delta. |
| `Scoring.DeltaIsRaw` | src/stakeroute/core/settlement.py:46 | On probabilities the floor at minus the stake is never the binding branch. |
| `Scoring.DeltaBounds` | src/stakeroute/core/settlement.py:33-46 | The delta lies within plus or minus the stake and never has the opposite sign to the improvement. |
| `Scoring.DeltaAccuracy` | src/stakeroute/core/settlement.py:38-46 | Both roundings together stay within stake/200 + 1/2 of stake times improvement. |
| `Scoring.DeltaMonotone` | src/stakeroute/core/settlement.py:33-46 | Moving a report towards the outcome never lowers the delta. |
| `Scoring.CreditsMoveExactlyWhen` | src/stakeroute/core/settlement.py:38-46 | Credits rise (fall) if and only if stake times the rounded improvement exceeds 50 (is below -50) hundredths. |
| `Scoring.BeatingThePriorCanPayNothing` | src/stakeroute/core/settlement.py:38-46 | A forecast that beats the prior by thirty points on a stake of one earns nothing. |
| `Scoring.StrictlyProper` | src/stakeroute/core/scoring.py:18-20 | Over exact reals the expected improvement is maximal exactly at the honest report. |
| `Scoring.NearlyProper` | src/stakeroute/core/settlement.py:33-46 | After both roundings no report beats honesty by more than stake/100 + 1 expected credits. |
| `Scoring.RoundingCanRewardBoldness` | src/stakeroute/core/settlement.py:33-46 | The slack is real: an overconfident report that earns a fifth of a credit more in expectation. |
| `Reputation.MovesWithImprovement` | src/stakeroute/core/reputation.py:35-42 | From any registered reputation: it rises exactly from below the floor or on a positive improvement below the ceiling, and falls exactly from above the ceiling or on a negative one above the floor. |
| `Reputation.ImprovementCanFailToRaise` | src/stakeroute/core/reputation.py:35-42 | An improvement that moves nothing at the ceiling, and one that lowers a reputation registered above it. |
| `Reputation.StaysInRange` | src/stakeroute/core/reputation.py:35-42 | After any sequence of settlements reputation is in [0.1, 1.0]. |
| `Reputation.RecoveryPath` | src/stakeroute/core/reputation.py:35-42 | n settlements each improving by at least g lift any agent to at least min(1, 0.1 + 0.3 n g). |
| `Reputation.FadingPath` | src/stakeroute/core/reputation.py:35-42 | n settlements each losing at least g leave an agent at most max(0.1, 1.0 - 0.3 n g), or that much below its start if it was registered above 1.0. |
| `Reputation.LinearUnlessClamped` | src/stakeroute/core/reputation.py:35-42 | While no partial sum leaves [0.1, 1.0], reputation is the start plus 0.3 times the sum of the improvements. |
| `Reputation.GapNeverWidens` | src/stakeroute/core/reputation.py:35-42 | Two agents with the same improvements keep their order and their gap never widens. |
| `Reputation.OrderMattersAtTheBounds` | src/stakeroute/core/reputation.py:38-42 | The clamp makes the order of two settlements matter. |
| `Market.WeighAll` | src/stakeroute/core/market.py:48-57 | The first loop weighs each forecast by reputation, root of stake and root of its live cluster size, and totals the weights. |
| `Market.Explain` | src/stakeroute/core/market.py:59-80 | The second loop yields one contribution per forecast and the weighted mean. |
| `Market.AggregateProbability` | src/stakeroute/core/market.py:42-87 | The aggregate is the weighted mean over the input in its given order, with contributions sorted by agent; the prior without forecasts. |
| `MarketTheorems.AggregateOrderFree` | src/stakeroute/core/market.py:47-87 | With distinct agents no reordering of the input changes the probability or one entry of the explanation. |
| `MarketTheorems.ExplanationAddsUp` | src/stakeroute/core/market.py:59-80 | With positive weight the shares are non-negative, sum to one and reproduce the probability. |
| `MarketTheorems.AggregateBetween` | src/stakeroute/core/market.py:59-87 | The aggregate lies between any bounds on the reported probabilities. |
| `MarketTheorems.SplittingBound` | src/stakeroute/core/market.py:17-57 | Identities of reputation at most r that alone fill a cluster weigh, squared, at most r squared times their summed stakes. |
| `MarketTheorems.SplittingGainsNothing` | src/stakeroute/core/independence.py:21-23 | No split inside a cluster outweighs one identity staking the whole sum. |
| `MarketTheorems.IndependenceIsInverseRoot` | src/stakeroute/core/independence.py:10-23 | An empty cluster has no factor; that of n citing agents is positive and its square is one n-th. |
| `Ranking.AllocateAttention` | src/stakeroute/core/ranking.py:35-61 | The loop's decisions and withheld count are those of the sorted order and the budget. |
| `Ranking.AllocationOrderFree` | src/stakeroute/core/ranking.py:35-38 | With distinct ids the allocation does not depend on input order. |
| `Ranking.AllocationIsBudgeted` | src/stakeroute/core/ranking.py:40-61 | Every hypothesis gets one decision, min(budget, n) are routed, the rest withheld, and every routed one sorts before every withheld one. |
| `Ranking.RankCountsTheBetter` | src/stakeroute/core/ranking.py:42-57 | A rank is one more than the number of hypotheses that beat it. |
| `Ranking.RaisingHelps` | src/stakeroute/core/ranking.py:35-38 | Raising one hypothesis's priority never worsens its rank. |
| `Ranking.BetterKeyRanksHigher` | src/stakeroute/core/ranking.py:35-38 | Ranks follow higher priority, then higher impact, then smaller id. |
| `Ranking.RanksFollowTheKey` | src/stakeroute/core/ranking.py:35-38 | Of two hypotheses the better ranked one is exactly the one the sort key puts first. |
| `Ranking.BeforeAllLeads` | src/stakeroute/core/ranking.py:35-57 | Whoever the sort key puts before every other takes rank 1. |
| `Ranking.StrictBestLeads` | src/stakeroute/core/ranking.py:35-57 | A strictly highest priority takes rank 1 whatever the tie-breaks. |
| `Orders.SortIsStable` | src/stakeroute/core/ranking.py:35-38 | Sorting keeps the order of elements with equal keys, as the language's own sort does. |
| `Orders.LexLeExactlyWhen` | src/stakeroute/core/ranking.py:35-38 | Ids are ordered by prefix or the smaller character where they first differ, as the sorts and listings compare them. |
| `Baselines.MajorityIsTheShare` | src/stakeroute/core/baselines.py:22-25 | The majority score is the share of forecasts above one half, in any order. |
| `Baselines.GreatestIsMaximum` | src/stakeroute/core/baselines.py:37-39 | The highest-confidence score is attained and bounds every report. |
| `AttackTheorems.ThresholdInvertsPriority` | src/stakeroute/core/attack.py:99-106 | A probability reaches the defender's priority if and only if it is at least the required probability. |
| `AttackTheorems.WeightInvertsMean` | src/stakeroute/core/attack.py:132-140 | Added weight reaches the target mean exactly from the returned weight on, and never when none is returned. |
| `AttackTheorems.IdentitiesInvertWeight` | src/stakeroute/core/attack.py:173-180 | A uniform flood, on distinct or shared evidence, musters the weight exactly from the returned count on. |
| `AttackTheorems.ExactPrice` | src/stakeroute/core/attack.py:287-332 | On fresh evidence, all distinct or all shared, the real aggregate of honest forecasts and flood, scored by the real priority, reaches the defender exactly when the quote is feasible and the flood is as large as quoted. |
| `AttackTheorems.PassedExactlyWhen` | src/stakeroute/core/attack.py:287-332 | Under the same conditions the target passes the defender strictly exactly when the quote is feasible and the flood exceeds the count before it was rounded up, which is less than one below the quoted count. |
| `AttackTheorems.OneIdentityTies` | src/stakeroute/core/attack.py:287-332 | An input at which the quoted count brings the target to exactly the defender's priority. |
| `AttackTheorems.SevenIdentities` | src/stakeroute/core/attack.py:287-332 | A worked price: against one trusted agent at 0.2 and a defender at 0.5, identities at the reputation floor on fresh, distinct evidence reach, and pass, the defender's priority from the seventh on and not before. |
| `EvidenceTheorems.AnyFloodReachesExactlyWhen` | src/stakeroute/core/market.py:47-87 | Whatever evidence a flood of equal claims cites, it reaches (passes) the defender exactly when its pull above the threshold makes up (exceeds) what the honest forecasts, weighed in its company, leave below it. |
| `EvidenceTheorems.LeastPriceOnFreshEvidence` | src/stakeroute/core/attack.py:149-180 | However a uniform flood spreads over clusters no honest agent cites, reaching the defender takes a feasible quote and at least the count quoted for distinct evidence. |
| `EvidenceTheorems.FiveBeatSeven` | src/stakeroute/core/attack.py:287-332 | Where seven identities are quoted, five pass the defender when one cites the honest agent's evidence. |
| `AttackTheorems.SharedEvidenceSquaresThePrice` | src/stakeroute/core/attack.py:149-180 | If d distinct identities are needed then N shared ones satisfy (d-1)^2 < N <= d^2. |
| `AttackTheorems.FrontierFalls` | src/stakeroute/core/attack.py:435-468 | Along the frontier every reputation prices the same attacks, and the count falls as 1/r (as 1/r^2 on shared evidence) up to one identity of rounding; so a higher reputation never needs more identities or credits. |
| `AttackTheorems.UnopposedPrice` | src/stakeroute/core/attack.py:132-135 | Without honest weight one identity is quoted, and a flood reaches the defender exactly when it has reputation and stake and its claim meets the threshold. |
| `AttackTheorems.UnopposedQuoteIgnoresHeadroom` | src/stakeroute/core/attack.py:132-137 | A threshold above the probability ceiling that is nevertheless quoted as reachable. |
| `RankAttacks.MajorityPriceExactlyWhen` | src/stakeroute/core/attack.py:235-246 | N true votes beat the threshold if and only if the returned count is at most N, for all N, exactly when there is an honest forecast or the prior lies on the assumed side. |
| `RankAttacks.MajorityPriceIgnoresThePrior` | src/stakeroute/core/attack.py:235-246 | With no forecast and a prior above the threshold one identity is still quoted. |
| `RankAttacks.MajorityPriceTakesTheLead` | src/stakeroute/worker/pipeline.py:110-154 | Among any hypotheses, a target with a forecast and not ahead takes rank 1 with the quoted votes and stays at or below the leader with fewer. |
| `RankAttacks.HighestConfidencePriceExactlyWhen` | src/stakeroute/core/attack.py:261-265 | One ceiling claim, or none, as the returned count says, for every flood of ceiling claims - exactly unless nobody has forecast and the prior beats a threshold at or above the ceiling. |
| `RankAttacks.HighestConfidencePriceLosesThePrior` | src/stakeroute/core/attack.py:261-265 | A prior that beats the threshold by itself and no longer does once someone claims the ceiling. |
| `RankAttacks.HighestConfidencePriceTakesTheLead` | src/stakeroute/worker/pipeline.py:115-154 | Among any hypotheses, a target that is not ahead takes rank 1 with the quoted ceiling claims and stays at or below the leader without them. |
| `RankAttacks.QuotedPriceReachesTheRank` | src/stakeroute/worker/pipeline.py:101-154 | In two passes, before and after a flood, the target reaches the defender's priority exactly at the quoted price, and ranks ahead of it exactly when the flood has the quoted count and the target wins ties, or exceeds the count before rounding. |
| `RankAttacks.QuotedPriceTakesTheLead` | src/stakeroute/worker/pipeline.py:127-170 | Against the leader the target takes rank 1 exactly when the flood suffices in that sense, which the attacker can work out beforehand. |
| `RankAttacks.QuotedCountTakesTheLeadExactlyWhen` | src/stakeroute/worker/pipeline.py:127-170 | A flood of exactly the quoted count takes rank 1 from the leader if and only if the target wins ties or the count was rounded up; one more always does. |
| `QuoteLaws.QuoteDecided` | src/stakeroute/core/attack.py:287-360 | When there is a quote at all, when it is feasible, when it asks for nobody, and that its bill is the identities times the stake. |
| `QuoteLaws.FrontierDecided` | src/stakeroute/core/attack.py:435-468 | Each price on the frontier is decided in the same way, with the claim at 0.99. |
| `QuoteLaws.LossDecided` | src/stakeroute/core/attack.py:183-212 | The predicted loss is none without capital, undefined for an impossible outcome, and otherwise minus the identities times one delta. |
| `QuoteLaws.QuotedBillAndLossAreTheLedgers` | src/stakeroute/core/attack.py:287-360 | When as many agents as quoted hold the attack's forecasts, their stakes in the ledger add up to the quoted credits, and on a false outcome their wealth falls by exactly the quoted loss. |
| `Pipeline.Aggregate` | src/stakeroute/worker/pipeline.py:103-126 | The result carries the strategy's probability: the explained aggregate, the vote share or the highest claim. |
| `Pipeline.ScoreAll` | src/stakeroute/worker/pipeline.py:98-151 | Every hypothesis is ranked by its strategy's priority; the pass raises exactly on a review cost that is not positive. |
| `Pipeline.StoreAll` | src/stakeroute/worker/pipeline.py:154-170 | Each stored row joins a decision with the probability and contributions of its own hypothesis's aggregate and the priority of its ranked entry. |
| `Pipeline.RunOneStrategy` | src/stakeroute/worker/pipeline.py:89-174 | A whole pass of one strategy: ranked entries, allocation, explanations and rows. |
| `Pipeline.LoadViews` | src/stakeroute/worker/pipeline.py:41-68 | Exactly the open hypotheses, each once in id order, with its own terms and exactly the live forecasts on it in agent order, with the stored probability, stake and cluster. |
| `Pipeline.RunRankingPass` | src/stakeroute/worker/pipeline.py:177-208 | Three passes over the identical inputs - the tables' own rows, field by field - then a commit; the ledger is unchanged. |
| `Pipeline.RowsAreARanking` | src/stakeroute/worker/pipeline.py:154-170 | Each row's rank is one more than the number of hypotheses that beat it and decides its routing. |
| `Pipeline.RowsExplainThemselves` | src/stakeroute/worker/pipeline.py:71-86 | Each row's probability is its strategy's for its own hypothesis, and its contributions are the whole explanation of it, or none under a baseline. |
| `PassLaws.PassExplainsTheTables` | src/stakeroute/worker/pipeline.py:89-174 | A stored row of the considered mechanism, on the tables: its contributions are exactly the live forecasts on its hypothesis in agent order, each with its stored probability, stake and reputation and a cluster size that is the number of agents citing the same cluster there; the probability is their mean by weight, and the priority follows from it. |
| `PassLaws.HighestConfidencePassTakesTheTopClaim` | src/stakeroute/worker/pipeline.py:115-154 | Every entry and row of a highest-confidence pass is scored and ranked by a reported probability that none on its hypothesis exceeds, or the prior without any. |
| `PassLaws.MajorityPassTakesTheShare` | src/stakeroute/worker/pipeline.py:106-154 | Every entry and row of a majority-vote pass is scored and ranked by the share of reports above one half, or the prior without any. |
| `PassLaws.OneRowForEachOpenHypothesis` | src/stakeroute/worker/pipeline.py:154-170 | Under every strategy each open hypothesis has exactly one row, and nothing else has one. |
| `Storage.Repository.Commit` | src/stakeroute/storage/repository.py:146-148 | The open transaction becomes durable. |
| `Storage.Repository.Rollback` | src/stakeroute/storage/repository.py:150-152 | The open transaction is dropped. |
| `Storage.Repository.InsertEvent` | src/stakeroute/storage/repository.py:106-143 | A new event id is recorded; a known one changes nothing and is reported as such. |
| `Storage.Repository.GetAgent` | src/stakeroute/storage/repository.py:204-208 | The agent's row, if any. |
| `Storage.Repository.AdjustAgentCredits` | src/stakeroute/storage/repository.py:218-230 | Both balances of one agent move, nothing else does. |
| `Storage.Repository.SetAgentReputation` | src/stakeroute/storage/repository.py:233-239 | One agent's reputation changes, nothing else does. |
| `Storage.Repository.EnsureEvidenceCluster` | src/stakeroute/storage/repository.py:242-254 | The cluster exists afterwards; an existing one is left alone. |
| `Storage.Repository.SetHypothesisStatus` | src/stakeroute/storage/repository.py:295-299 | One status changes, nothing else does. |
| `Storage.Repository.ListExpiredHypotheses` | src/stakeroute/storage/repository.py:325-336 | Exactly the open hypotheses with an earlier deadline, each once, in id order. |
| `Storage.Repository.GetLiveForecast` | src/stakeroute/storage/repository.py:339-353 | The agent's live forecast on the hypothesis, if any. |
| `Storage.Repository.UpsertForecastRow` | src/stakeroute/storage/repository.py:356-416 | Delete then insert replaces the live forecast and reports the id and stake it replaced, or violates a foreign or the primary key and leaves the row or the gap it got to. |
| `Storage.Repository.ListForecasts` | src/stakeroute/storage/repository.py:419-424 | A hypothesis's forecasts in agent order. |
| `Storage.Repository.InsertRejectedForecast` | src/stakeroute/storage/repository.py:725-758 | The rejection is appended, nothing else changes. |
| `Storage.Repository.InsertOutcome` | src/stakeroute/storage/repository.py:509-527 | The first outcome is recorded, a second ignored, an unknown hypothesis violates the foreign key. |
| `Storage.Repository.InsertSettlement` | src/stakeroute/storage/repository.py:537-576 | The first settlement of a forecast is appended, a second ignored. |
| `Worker.HandleForecastCreated` | src/stakeroute/worker/main.py:79-162 | The handler validates on the net stake, replaces, and reconciles credits exactly as the ledger's forecast effect, or raises exactly when that has none, and then leaves what it had written. |
| `Worker.SettleRow` | src/stakeroute/worker/settlement_runner.py:44-86 | One turn of the settlement loop: score, update reputation, insert once, release and pay. |
| `Worker.SettleHypothesis` | src/stakeroute/worker/settlement_runner.py:18-90 | The whole settlement has the ledger's settle effect and commits exactly when it ran; raised, it leaves the outcome row of a known hypothesis and nothing else. |
| `Worker.ExpireHypothesis` | src/stakeroute/worker/settlement_runner.py:104-110 | Every stake on the hypothesis is returned and the status set. |
| `Worker.ExpireOverdueHypotheses` | src/stakeroute/worker/settlement_runner.py:93-113 | All overdue hypotheses are expired in one transaction; the ids returned are exactly those open with an earlier deadline, in id order. |
| `Worker.Handle` | src/stakeroute/worker/main.py:71-181 | Each subject's handler has its ledger effect, or leaves what it had written when it raises; only a settlement that ran commits by itself. |
| `LedgerFacts.SettleLoopIs` | src/stakeroute/worker/settlement_runner.py:44-86 | The settlement loop does to each agent what settling that agent alone would, and appends one row each. |
| `LedgerFacts.ReleaseLoopIs` | src/stakeroute/worker/settlement_runner.py:104-109 | The release loop returns each agent's stake on the hypothesis, once. |
| `TableLaws.ForecastDecided` | src/stakeroute/worker/main.py:79-162 | Every submission, on the tables: beyond 1 to 50 or beyond available plus the stake it replaces, or from nobody, it only adds its rejection; within, it fails on its keys or replaces one row and moves exactly the difference of the stakes. |
| `TableLaws.AcceptedExactlyWhen` | src/stakeroute/worker/main.py:107-136 | A known agent's submission that fails on no key takes effect if and only if its stake is in 1 to 50 and at most available plus the stake it replaces. |
| `TableLaws.RaisedForecastLeaves` | src/stakeroute/storage/repository.py:356-417 | A submission that raises leaves its cluster and the settled row, the gap of a deleted row, or the new row without its credits, by what it failed on. |
| `TableLaws.ExpiryDecided` | src/stakeroute/worker/settlement_runner.py:93-113 | Expiry at a time expires exactly the open hypotheses with an earlier deadline, returns to each agent exactly the sum of its stakes on them, and changes nothing else. |
| `TableLaws.SettlementDecided` | src/stakeroute/worker/settlement_runner.py:18-90 | Every resolution, on the tables: a second changes nothing, an unknown hypothesis raises, the first with 0 or 1 pays and re-rates exactly the agents with a forecast and appends one row for each in agent order, any other outcome raises exactly when there is a forecast. |
| `TableLaws.RaisedSettlementLeaves` | src/stakeroute/worker/settlement_runner.py:33-44 | A resolution that raises leaves an unknown hypothesis's tables alone, and of a known one the impossible outcome, first recorded. |
| `LedgerInvariants.ForecastEffectIs` | src/stakeroute/worker/main.py:123-162 | An accepted forecast moves exactly the stake difference and replaces exactly one row; it raises exactly on an unknown hypothesis, a taken primary key, a settled forecast or a replaced one whose id holds a colon. |
| `LedgerInvariants.SameStakeResubmission` | src/stakeroute/worker/main.py:123-141 | Resubmitting an unsettled forecast at the same stake moves no credits and is accepted, except that it raises exactly when an id holds a colon. |
| `LedgerInvariants.SettleEffectIs` | src/stakeroute/worker/settlement_runner.py:33-90 | Settlement completes on outcomes 0 and 1 and raises on any other exactly when there is a forecast to score. |
| `LedgerInvariants.ExpireOneIs` | src/stakeroute/worker/settlement_runner.py:103-110 | Expiry returns stakes in full, touches no reputation and records no outcome. |
| `LedgerInvariants.OpKeeps` | src/stakeroute/storage/schema.sql:64-116 | Every operation keeps references, uniqueness, explained settlements and non-negative available credits, and rewrites nothing recorded. |
| `LedgerBalances.OpAccounted` | src/stakeroute/worker/settlement_runner.py:77-86 | Every operation moves every agent's wealth and reputation exactly as the settlement rows it adds say. |
| `LedgerBacking.BackingKeptExactlyWhen` | src/stakeroute/worker/main.py:123-162 | An operation keeps staked credits equal to the live, unsettled, unexpired stakes if and only if it does not touch an expired hypothesis's stakes. |
| `LedgerRuns.ExpiredStakeGoesNegative` | src/stakeroute/worker/settlement_runner.py:103-111 | A run of five operations that ends with negative staked credits. |
| `LedgerRuns.LateStakeIsAccepted` | src/stakeroute/worker/main.py:79-162 | A run of four operations that ends with a stake locked on a resolved hypothesis. |
| `LedgerRuns.InvalidOutcomeIsRecorded` | src/stakeroute/worker/settlement_runner.py:33-44 | A run that records the outcome 2. |
| `LedgerRuns.ColonResubmissionRaises` | src/stakeroute/worker/main.py:155-156 | A run after which the same forecast, accepted before, raises. |
| `LedgerRuns.DashesCollide` | src/stakeroute/worker/main.py:141-143 | Two different forecasts whose ids are the same: while one lives the other raises. |
| `LedgerRuns.DashedForecastRaises` | src/stakeroute/worker/main.py:141-143 | A run after which an otherwise acceptable first forecast raises. |
| `LedgerRuns.ExpiredIsResolved` | src/stakeroute/worker/settlement_runner.py:33-90 | A run that resolves an expired hypothesis. |
| `LedgerHistory.AlwaysConsistent` | src/stakeroute/storage/schema.sql:64-116 | Every reachable ledger has at most one settlement per forecast, each the replay of its inputs, outcomes exactly for resolved hypotheses, and no negative available credits. |
| `LedgerHistory.IdsStayDistinct` | src/stakeroute/storage/schema.sql:64-77 | In every reachable ledger the joined forecast ids are distinct. |
| `LedgerHistory.HistoryIsFinal` | src/stakeroute/worker/settlement_runner.py:33-75 | The first recorded outcome and settlement stay for good; a settled forecast is never replaced. |
| `LedgerHistory.Conservation` | src/stakeroute/worker/settlement_runner.py:77-86 | In every run available plus staked is the grant plus the recorded deltas, reputation the replay of the recorded improvements, and available credits are not negative. |
| `LedgerHistory.ReputationBounded` | src/stakeroute/worker/settlement_runner.py:56-77 | Every reachable reputation is in range from the first settlement on, and always for agents registered in range. |
| `LedgerHistory.ReputationIsLinearUnlessClamped` | src/stakeroute/worker/settlement_runner.py:56-77 | While no partial sum leaves [0.1, 1.0], a reachable agent's reputation is its registered one plus 0.3 times its recorded improvements. |
| `LedgerHistory.RowsAddUp` | src/stakeroute/worker/settlement_runner.py:60-75 | In every reachable settlements table the two scores are the squared distances of the stored forecast and prior from the recorded outcome, and the improvement their difference. |
| `TableLaws.AuditTrail` | src/stakeroute/worker/settlement_runner.py:56-77 | In every reachable settlements table each row starts from the reputation that the agent's registration and its earlier rows lead to. |
| `TableLaws.TermsAreAsFirstRegistered` | src/stakeroute/storage/repository.py:258-293 | A reachable ledger has exactly the registered hypotheses, each on the terms of its first registration. |
| `LedgerHistory.StakesAlwaysBacked` | src/stakeroute/worker/settlement_runner.py:44-111 | In every run that sends nothing to an expired hypothesis, staked credits are the live stakes and never negative. |
| `LedgerHistory.LateStakeStaysLocked` | src/stakeroute/worker/settlement_runner.py:33-37 | No operation settles or returns a stake that is on a hypothesis with an outcome. |
| `LedgerHistory.LockReleasedExactlyWhen` | src/stakeroute/worker/settlement_runner.py:33-37 | Some operation under an unused event id releases a lock if and only if its hypothesis has no outcome yet. |
| `LedgerHistory.ReleasableExactlyWhen` | src/stakeroute/worker/settlement_runner.py:33-90 | After any run, some continuation under unused event ids releases a lock if and only if its hypothesis has no outcome yet. |
| `LedgerHistory.SettleableExactlyWhen` | src/stakeroute/worker/settlement_runner.py:33-90 | After any run, some continuation settles an unsettled forecast - on an expired hypothesis too - if and only if its hypothesis has no outcome yet. |
| `LedgerHistory.TerminalExactlyWhen` | specs/001-stakeroute-attention-market/data-model.md:108 | Every operation keeps resolved, and leaves expired exactly when it is an applied outcome for that hypothesis, then for resolved. |
| `SettlementOrder.SettlementOrderFree` | src/stakeroute/worker/settlement_runner.py:44-86 | Settling distinct hypotheses in any two orders gives the same balances and outcomes, settles the same forecasts and gives each the same score. |
| `SettlementOrder.PredictedLossIsTheLedgersLoss` | src/stakeroute/core/attack.py:202-212 | When the attacked hypothesis resolves, the attackers' wealth falls by exactly the predicted loss. |
| `SettlementOrder.LossIsBounded` | src/stakeroute/core/attack.py:202-212 | The predicted loss never exceeds the stakes and is non-negative for a claim at or above the prior on outcome 0. |
| `Transport.Sweep` | src/stakeroute/transport/memory.py:61-68 | The redelivery loop: each flight, in id order, back to the queue or to the dead letters, and the count of the former. |
| `Transport.MemoryTransport.constructor` | src/stakeroute/transport/memory.py:22-27 | An empty transport whose first id is 1. |
| `Transport.MemoryTransport.PublishMessage` | src/stakeroute/transport/memory.py:29-31 | A fresh id at the end of the subject's queue. |
| `Transport.MemoryTransport.Receive` | src/stakeroute/transport/memory.py:42-45 | The head of the queue goes into flight and is handed over. |
| `Transport.MemoryTransport.Acknowledge` | src/stakeroute/transport/memory.py:47-48 | The flight is dropped; an acknowledgement of anything else does nothing. |
| `Transport.MemoryTransport.SimulateCrash` | src/stakeroute/transport/memory.py:52-69 | Every flight of the subject is redelivered or dead-lettered and the redelivered ones counted. |
| `TransportTheorems.MoveKeeps` | src/stakeroute/transport/memory.py:29-69 | Every step keeps each outstanding message in exactly one place with an honest delivery count. |
| `TransportTheorems.NothingLost` | src/stakeroute/transport/memory.py:29-69 | In every run each published message is queued, in flight, dead-lettered or acknowledged, exactly one of them, once, on its own subject. |
| `TransportTheorems.DeadLettersWereTried` | src/stakeroute/transport/memory.py:61-68 | A dead letter was delivered exactly max_redeliveries + 1 times and carries what was published. |
| `TransportTheorems.FirstComeFirstServed` | src/stakeroute/transport/memory.py:42-45 | In every run without a redelivery each subject's messages are delivered in publication order, each once. |
| `TransportTheorems.NumberedInOrder` | src/stakeroute/transport/memory.py:29-31 | In every run the ids are 1, 2, 3 and so on in publication order. |
| `TransportTheorems.RedeliverDecided` | src/stakeroute/transport/memory.py:52-69 | Behind what is queued and buried, in id order, go back exactly the flights with redeliveries left, one redelivery older, and are given up exactly the others. |
| `TransportTheorems.MoveMeasure` | src/stakeroute/transport/memory.py:42-69 | Every delivery, effective acknowledgement and non-empty redelivery lowers a measure. |
| `TransportTheorems.DeliveryTerminates` | src/stakeroute/transport/memory.py:42-69 | Once publishing stops, only measure-many steps can have an effect. |
| `TransportTheorems.QuietMeansDone` | src/stakeroute/transport/memory.py:33-69 | With nothing queued or in flight, every published message is acknowledged or dead-lettered. |
| `ExactlyOnce.StepKeeps` | src/stakeroute/worker/main.py:43-68 | Every protocol step keeps the idempotency invariant. |
| `ExactlyOnce.ExactlyOnceRefinement` | src/stakeroute/worker/main.py:43-68 | In every interleaving the durable ledger is the fold of the handlers over a log that holds every durable event exactly once, and only published ones. |
| `ExactlyOnce.AckedIsApplied` | src/stakeroute/worker/main.py:63-68 | No message is acknowledged unless its event is durable and applied. |
| `ExactlyOnce.StepAppends` | src/stakeroute/worker/settlement_runner.py:88-90 | A step changes the durable ledger only by appending one operation; settlement's own commit makes event and effect durable together. |
| `ExactlyOnce.DurableForGood` | src/stakeroute/storage/repository.py:123-148 | The log of durable operations only grows at its end. |
| `ExactlyOnce.DuplicateHasNoEffect` | src/stakeroute/worker/main.py:50-68 | A duplicate delivery runs to its acknowledgement without changing the ledger. |
| `ExactlyOnce.NothingIsHeldBack` | src/stakeroute/worker/main.py:43-68 | Publications, redeliveries and crashes are possible at any moment, a crash loses exactly the open transaction, and the worker is never stuck with a message. |
| `ExactlyOnce.MaintenanceIsHeldBackExactlyWhen` | src/stakeroute/worker/settlement_runner.py:93-113 | Maintenance is possible exactly while the open transaction holds no changes, unless it registers an agent a second time. |
| `ExactlyOnce.SurvivesTheCrashExactlyWhen` | src/stakeroute/worker/settlement_runner.py:88-90 | A crash between a new event's handler and the loop's commit loses event and effect together, except exactly for a settlement that ran, which is durable with its event. |
| `ExactlyOnce.QuietMeansApplied` | src/stakeroute/worker/main.py:43-68 | With nothing queued or in flight, every published message's event id has been applied, or the message is dead-lettered. |
| `ExactlyOnce.AppliedAsPublishedExactlyWhen` | src/stakeroute/worker/main.py:50-68 | An acknowledged message's own event is in the log if and only if it is the durable one under its id. |
| `ExactlyOnce.QuietMeansAppliedAsPublished` | src/stakeroute/core/types.py:75-86 | If event ids identify events, then with nothing queued or in flight every published message has itself been applied, or is dead-lettered. |
| `ExactlyOnce.WorkIsBounded` | src/stakeroute/transport/memory.py:61-69 | Once publishing stops, the worker is handed only measure-many more messages, poison messages included. |
| `ExactlyOnce.EveryRunConserves` | src/stakeroute/worker/main.py:43-68 | After every run the durable tables are consistent, conserve credits and are solvent. |
| `ExactlyOnce.EveryPunctualRunIsBacked` | src/stakeroute/worker/main.py:123-162 | After every run that sends nothing to an expired hypothesis, staked credits are the live stakes. |
| `KeptTransactions.KeptTransactionLosesTheEffect` | src/stakeroute/worker/main.py:50-67 | If the process outlives a raised handler - any handler, on any input - what it commits later continues the log if and only if it rolled back first; otherwise the event is durable without its effect. |
| `KeptTransactions.HandlerRaisesExactlyWhen` | src/stakeroute/worker/main.py:79-181 | The inputs on which each handler raises, exactly. |
| `Consumer.ConsumeMessage` | src/stakeroute/worker/main.py:44-68 | One turn of the consume loop is one message's protocol steps, or stops where the handler raises. |
| `Consumer.ConsumeOnce` | src/stakeroute/worker/main.py:29-68 | The loop drains the subject as the specification does and counts the new effects. |
| `Consumer.DrainIsRun` | src/stakeroute/worker/main.py:43-68 | Draining is a run of the protocol, and leaves the queue empty unless a handler raised. |
| `Consumer.DrainStopsOnlyOnRaise` | src/stakeroute/worker/main.py:43-68 | A drain that leaves messages behind stopped on one, reached by a run, whose handler raised. |
| `Consumer.RaisesExactlyWhen` | src/stakeroute/worker/main.py:50-67 | A message raises exactly when its event is new and the handler has no effect for it. |
| `Consumer.DrainCounts` | src/stakeroute/worker/main.py:43-68 | The number reported is the number of events that became durable. |

## Left out

- SQL text, SQLite locking and journal modes, retries and thread locks: only the tables' effects, keys and foreign keys are modelled, for one tenant.
- `MemoryTransport` subjects other than the three the worker consumes, and `hypotheses.updated` publications: nothing in the ledger depends on them.
- The JetStream driver, the dashboard's HTTP side, and the worker process's polling loop.
- Re-registering an existing agent, which overwrites its balances: registration is a one-time operation with a fresh id.
- `reset_tenant` and epochs; the simulator; metrics and report formatting; `latest_decisions`, whose rows may mix passes.
- Floating-point rounding error, infinities and NaN: probabilities, weights and reputations are reals, and the decimal text of an improvement is the improvement.
- The `scale` parameter of settlement is fixed at its default of 100, and the `decay` parameter of reputation at 0.3.
- Timestamps, provenance, notes, reasons, display names, evidence references and the attested flag: carried, never computed with.
- Forecast rows, and contributions to an aggregate, are keyed by hypothesis and agent; the joined forecast id is computed where the source uses it, as primary key and in the reported replacement.
- `baseline_attack_cost` and the notes on attack costs: reporting around the counts that are modelled.
- Payload decoding: events arrive typed, and a body of the wrong shape counts as a raised error.
- The dashboard process, which calls the same consume loop and lives on after a raised handler without a rollback: the runs of `Protocol` take every raise to end the process, as in the worker; `KeptTransactions` says what is lost otherwise.
- Decision rows are returned by a pass rather than kept in the ledger's tables: nothing reads them back.
- `Pipeline.RunRankingPass`: requires a consistent ledger, which `LedgerHistory.AlwaysConsistent` gives for every reachable one.
- `Protocol.Next`: other writers act only while the worker's transaction holds no changes, as SQLite's write lock enforces.
- `AttackTheorems.ExactPrice`: the attackers' rows carry the claimed probability itself; clamping it to the admissible range happens when the forecast is accepted.
