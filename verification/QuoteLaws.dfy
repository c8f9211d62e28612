/** What a quoted attack says, field by field, and what its bill and its loss
    are in the ledger. */
module QuoteLaws {
  import opened Orders
  import opened Types
  import opened Reals
  import opened Scoring
  import opened Attack
  import opened AttackTheorems
  import opened Ledger
  import opened LedgerInvariants
  import opened SettlementOrder

  /** An attack within reach: it already leads, nobody stands in its way, or the
      claim is above the threshold and the identities have standing and stake. */
  predicate WithinReach(threshold: real, honestWeight: real, honestProbability: real, reputation: real, stake: int,
                        claim: real)
  {
    honestProbability >= threshold || honestWeight <= 0.0 || (claim > threshold && reputation > 0.0 && stake > 0)
  }

  /** The quote's fields: the probability at which the target ties, whether it
      is within reach and, if so, how many identities and what bill - none at
      all exactly for a target that leads already, one against nobody. */
  ghost predicate QuoteSays(quote: AttackCost, defender: real, impact: int, urgency: real, reviewCost: real,
                            honestWeight: real, honestProbability: real, reputation: real, stake: int, shared: bool,
                            claim: real)
  {
    var t := quote.requiredProbability;
    && Product(t, Product(impact as real, urgency)) == Product(defender, reviewCost)
    && quote.reputation == reputation && quote.stake == stake && quote.shared == shared
    && quote.feasible == WithinReach(t, honestWeight, honestProbability, reputation, stake, claim)
    && (quote.requiredWeight == None <==> honestProbability < t && honestWeight > 0.0 && claim <= t)
    && quote.credits == quote.identities * stake && (stake <= 0 ==> quote.settlementLoss == 0)
    && if !quote.feasible then quote.identities == 0 && quote.settlementLoss == 0
       else
         && (quote.identities == 0 <==> honestProbability >= t)
         && (honestProbability < t && honestWeight <= 0.0 ==> quote.identities == 1)
  }

  lemma Headroom(weight: real, gap: real, headroom: real)
    requires weight > 0.0 && gap > 0.0 && headroom > 0.0
    ensures Ratio(Product(weight, gap), headroom) > 0.0
  {
    ProductPositive(weight, gap);
    RatioPositive(Product(weight, gap), headroom);
  }

  /** Every quote, decided: there is none exactly when the target has no cost or
      no value to invert. */
  lemma QuoteDecided(root: nat -> real, defender: real, impact: int, urgency: real, reviewCost: real,
                     honestWeight: real, honestProbability: real, reputation: real, stake: int,
                     shared: bool, claim: real, prior: real)
    ensures var quote := StakerouteAttackCost(root, defender, impact, urgency, reviewCost, honestWeight,
                                              honestProbability, reputation, stake, shared, claim, prior);
            && (quote == None <==> reviewCost <= 0.0 || impact as real * urgency <= 0.0)
            && (quote.Some? ==> QuoteSays(quote.value, defender, impact, urgency, reviewCost, honestWeight,
                                          honestProbability, reputation, stake, shared, claim))
  {
    var scale := Product(impact as real, urgency);
    if reviewCost > 0.0 && scale > 0.0 {
      var t := Ratio(Product(defender, reviewCost), scale);
      RatioTimes(Product(defender, reviewCost), scale);
      if honestProbability < t && honestWeight > 0.0 && claim > t {
        Headroom(honestWeight, t - honestProbability, claim - t);
      }
    }
  }

  /** Each price on the frontier is decided the same way, with the claim at the
      probability ceiling. */
  lemma FrontierDecided(root: nat -> real, defender: real, impact: int, urgency: real, reviewCost: real,
                        honestWeight: real, honestProbability: real, reputations: seq<real>, stake: int,
                        shared: bool, prior: real)
    ensures var frontier := AttackFrontier(root, defender, impact, urgency, reviewCost, honestWeight, honestProbability,
                                           reputations, stake, shared, prior);
            |frontier| == |reputations|
            && forall i :: 0 <= i < |frontier| ==>
                 && (frontier[i] == None <==> reviewCost <= 0.0 || impact as real * urgency <= 0.0)
                 && (frontier[i].Some? ==>
                       QuoteSays(frontier[i].value, defender, impact, urgency, reviewCost, honestWeight,
                                 honestProbability, reputations[i], stake, shared, 0.99))
  {
    forall i | 0 <= i < |reputations|
      ensures var quote := AttackFrontier(root, defender, impact, urgency, reviewCost, honestWeight, honestProbability,
                                          reputations, stake, shared, prior)[i];
              && (quote == None <==> reviewCost <= 0.0 || impact as real * urgency <= 0.0)
              && (quote.Some? ==> QuoteSays(quote.value, defender, impact, urgency, reviewCost, honestWeight,
                                            honestProbability, reputations[i], stake, shared, 0.99))
    {
      QuoteDecided(root, defender, impact, urgency, reviewCost, honestWeight, honestProbability, reputations[i],
                   stake, shared, 0.99, prior);
    }
  }

  /** The predicted loss, decided: none without capital, none to predict for an
      outcome that cannot be, else each identity's delta lost. */
  lemma LossDecided(identities: int, stake: int, prior: real, claim: real, outcome: int)
    ensures AttackSettlementLoss(identities, stake, prior, claim, outcome)
              == if identities <= 0 || stake <= 0 then Some(0)
                 else if outcome != 0 && outcome != 1 then None
                 else Some(-(identities * Delta(stake, prior, claim, outcome)))
  {
    if identities > 0 && stake > 0 && (outcome == 0 || outcome == 1) {
      LossIs(identities, stake, prior, claim, outcome);
    } else {
      SettleForecastYields(stake, prior, claim, outcome);
    }
  }

  function LockedBy(db: Db, h: Id, agents: seq<Id>): int
    requires forall a :: a in agents ==> (h, a) in db.forecasts
  {
    if agents == [] then 0 else db.forecasts[(h, agents[0])].stake + LockedBy(db, h, agents[1..])
  }

  lemma {:induction false} LockedTogether(db: Db, h: Id, agents: seq<Id>, stake: int)
    requires forall a :: a in agents ==> (h, a) in db.forecasts && db.forecasts[(h, a)].stake == stake
    ensures LockedBy(db, h, agents) == |agents| * stake
    decreases |agents|
  {
    if agents != [] {
      LockedTogether(db, h, agents[1..], stake);
      assert |agents| * stake == stake + (|agents| - 1) * stake;
    }
  }

  /** The bill and the loss of a quote are the ledger's: when as many agents as
      quoted hold the attack's forecasts on the hypothesis, their stakes there
      add up to the quoted credits, and when it resolves false they are together
      poorer by exactly the quoted loss. */
  lemma QuotedBillAndLossAreTheLedgers(root: nat -> real, db: Db, h: Id, agents: seq<Id>, defender: real,
                                       honestWeight: real, honestProbability: real, reputation: real, stake: int,
                                       shared: bool, claim: real, quote: AttackCost)
    requires Consistent(db) && h in db.hypotheses && h !in db.outcomes
    requires var terms := db.hypotheses[h];
             Some(quote) == StakerouteAttackCost(root, defender, terms.impact, terms.urgency, terms.reviewCost,
                                                 honestWeight, honestProbability, reputation, stake, shared, claim,
                                                 terms.prior)
    requires quote.feasible && |agents| == quote.identities && Attackers(db, h, agents, stake, claim)
    ensures LockedBy(db, h, agents) == quote.credits
    ensures SettleEffect(db, h, 0).Some?
    ensures forall a :: a in agents ==> a in SettleEffect(db, h, 0).value.0.agents
    ensures WealthOf(SettleEffect(db, h, 0).value.0, agents) == WealthOf(db, agents) - quote.settlementLoss
  {
    LockedTogether(db, h, agents, stake);
    PredictedLossIsTheLedgersLoss(db, h, agents, stake, claim, 0);
  }
}
