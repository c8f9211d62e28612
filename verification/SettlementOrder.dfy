/** Settlement across hypotheses: the order of resolution does not move a
    credit, and an attack loses exactly what its price list predicts. */
module SettlementOrder {
  import opened Orders
  import opened Types
  import opened Scoring
  import opened Sums
  import opened Attack
  import opened Ledger
  import opened LedgerFacts
  import opened LedgerInvariants
  import opened LedgerBalances

  /** A resolution: hypothesis and outcome. */
  type Resolution = (Id, int)

  function SettleAll(db: Db, rs: seq<Resolution>): Option<Db>
    decreases |rs|
  {
    if rs == [] then Some(db)
    else match SettleEffect(db, rs[0].0, rs[0].1)
         case None => None
         case Some(settled) => SettleAll(settled.0, rs[1..])
  }

  ghost predicate Resolvable(db: Db, rs: seq<Resolution>) {
    && (forall r :: r in rs ==> r.0 in db.hypotheses && IsOutcome(r.1))
    && (forall i, j :: 0 <= i < j < |rs| ==> rs[i].0 != rs[j].0)
  }

  /** What resolving r pays agent a, and releases of its stakes. */
  function Pays(db: Db, a: Id, r: Resolution): int {
    if r.0 in db.outcomes || r.0 !in db.hypotheses || !IsOutcome(r.1) || (r.0, a) !in db.forecasts then 0
    else
      var f := db.forecasts[(r.0, a)];
      f.stake + Delta(f.stake, db.hypotheses[r.0].prior, f.probability, r.1)
  }

  function Frees(db: Db, a: Id, r: Resolution): int {
    if r.0 in db.outcomes || (r.0, a) !in db.forecasts then 0 else db.forecasts[(r.0, a)].stake
  }

  function PaysIn(db: Db, a: Id): Resolution -> real { r => Pays(db, a, r) as real }
  function FreesIn(db: Db, a: Id): Resolution -> real { r => Frees(db, a, r) as real }

  /** The tables that fix every delta: unchanged by settling. */
  ghost predicate SameTerms(db: Db, after: Db) {
    && after.forecasts == db.forecasts
    && after.agents.Keys == db.agents.Keys
    && after.hypotheses.Keys == db.hypotheses.Keys
    && forall h :: h in db.hypotheses ==> after.hypotheses[h].prior == db.hypotheses[h].prior
  }

  lemma SettleStep(db: Db, h: Id, outcome: int)
    requires Consistent(db) && h in db.hypotheses && IsOutcome(outcome)
    ensures SettleEffect(db, h, outcome).Some?
    ensures var after := SettleEffect(db, h, outcome).value.0;
            && Consistent(after) && SameTerms(db, after)
            && after.outcomes == (if h in db.outcomes then db.outcomes else db.outcomes[h := outcome])
  {
    if h !in db.outcomes { SettleEffectIs(db, h, outcome); }
    SettleKeeps(db, h, outcome);
  }

  lemma SettleMoves(db: Db, h: Id, outcome: int, a: Id)
    requires Consistent(db) && h in db.hypotheses && IsOutcome(outcome) && a in db.agents
    requires SettleEffect(db, h, outcome).Some? && a in SettleEffect(db, h, outcome).value.0.agents
    ensures var after := SettleEffect(db, h, outcome).value.0;
            && after.agents[a].available == db.agents[a].available + Pays(db, a, (h, outcome))
            && after.agents[a].staked == db.agents[a].staked - Frees(db, a, (h, outcome))
  {
    if h !in db.outcomes {
      SettleEffectIs(db, h, outcome);
      ListedForecasters(db, h);
      if (h, a) in db.forecasts {
        var f := db.forecasts[(h, a)];
        SettleForecastYields(f.stake, db.hypotheses[h].prior, f.probability, outcome);
      }
    }
  }

  /** Settling h leaves what every other resolution pays and frees. */
  lemma LaterUnmoved(db: Db, next: Db, h: Id, rs: seq<Resolution>, a: Id)
    requires SameTerms(db, next) && forall r :: r in rs ==> r.0 != h
    requires forall g :: g != h ==> (g in next.outcomes <==> g in db.outcomes)
    ensures Sum(PaysIn(next, a), rs) == Sum(PaysIn(db, a), rs)
    ensures Sum(FreesIn(next, a), rs) == Sum(FreesIn(db, a), rs)
  {
    SumAgree(PaysIn(next, a), PaysIn(db, a), rs);
    SumAgree(FreesIn(next, a), FreesIn(db, a), rs);
  }

  ghost predicate Moved(db: Db, after: Db, rs: seq<Resolution>, a: Id) {
    && a in db.agents && a in after.agents
    && after.agents[a].available as real == db.agents[a].available as real + Sum(PaysIn(db, a), rs)
    && after.agents[a].staked as real == db.agents[a].staked as real - Sum(FreesIn(db, a), rs)
  }

  lemma FirstMoves(db: Db, r: Resolution, rest: seq<Resolution>, after: Db, a: Id)
    requires Consistent(db) && r.0 in db.hypotheses && IsOutcome(r.1) && a in db.agents
    requires SettleEffect(db, r.0, r.1).Some? && Moved(SettleEffect(db, r.0, r.1).value.0, after, rest, a)
    requires forall s :: s in rest ==> s.0 != r.0
    ensures Moved(db, after, [r] + rest, a)
  {
    var next := SettleEffect(db, r.0, r.1).value.0;
    SettleStep(db, r.0, r.1);
    SettleMoves(db, r.0, r.1, a);
    LaterUnmoved(db, next, r.0, rest, a);
    assert ([r] + rest)[1..] == rest;
  }

  /** After any resolutions every agent's balances moved by the sum of what
      each one pays and frees on its own. */
  lemma {:induction false} SettleAllIs(db: Db, rs: seq<Resolution>, a: Id)
    requires Consistent(db) && Resolvable(db, rs) && a in db.agents
    ensures SettleAll(db, rs).Some? && Moved(db, SettleAll(db, rs).value, rs, a)
    decreases |rs|
  {
    if rs != [] {
      SettleStep(db, rs[0].0, rs[0].1);
      SettleAllIs(SettleEffect(db, rs[0].0, rs[0].1).value.0, rs[1..], a);
      FirstMoves(db, rs[0], rs[1..], SettleAll(db, rs).value, a);
      assert rs == [rs[0]] + rs[1..];
    }
  }

  function OutcomeOf(db: Db, h: Id): Option<int> {
    if h in db.outcomes then Some(db.outcomes[h]) else None
  }

  function ResolutionOf(rs: seq<Resolution>, h: Id): Option<int> {
    if rs == [] then None else if rs[0].0 == h then Some(rs[0].1) else ResolutionOf(rs[1..], h)
  }

  lemma {:induction false} ResolvedMeans(rs: seq<Resolution>, h: Id, y: int)
    requires forall i, j :: 0 <= i < j < |rs| ==> rs[i].0 != rs[j].0
    ensures ResolutionOf(rs, h) == Some(y) <==> (h, y) in rs
  {
    if rs != [] {
      ResolvedMeans(rs[1..], h, y);
      assert rs == [rs[0]] + rs[1..];
    }
  }

  lemma {:induction false} ResolvedOrderFree(db: Db, rs: seq<Resolution>, ss: seq<Resolution>, h: Id)
    requires Resolvable(db, rs) && Resolvable(db, ss) && multiset(rs) == multiset(ss)
    ensures ResolutionOf(rs, h) == ResolutionOf(ss, h)
  {
    forall y ensures ResolutionOf(rs, h) == Some(y) <==> ResolutionOf(ss, h) == Some(y) {
      ResolvedMeans(rs, h, y);
      ResolvedMeans(ss, h, y);
      assert (h, y) in multiset(rs) <==> (h, y) in multiset(ss);
    }
    if ResolutionOf(rs, h).Some? {
      assert ResolutionOf(ss, h) == Some(ResolutionOf(rs, h).value);
    }
  }

  /** An earlier outcome stays; otherwise the resolution decides. */
  lemma {:induction false} OutcomesAfter(db: Db, rs: seq<Resolution>, h: Id)
    requires Consistent(db) && Resolvable(db, rs) && SettleAll(db, rs).Some?
    ensures OutcomeOf(SettleAll(db, rs).value, h)
              == if h in db.outcomes then Some(db.outcomes[h]) else ResolutionOf(rs, h)
    decreases |rs|
  {
    if rs != [] {
      SettleStep(db, rs[0].0, rs[0].1);
      OutcomesAfter(SettleEffect(db, rs[0].0, rs[0].1).value.0, rs[1..], h);
    }
  }

  /** Appending rows settles exactly what they name. */
  lemma SettledByRows(db: Db, after: Db, rows: seq<SettlementRow>, g: Id, a: Id)
    requires after.settlements == db.settlements + rows
    ensures Settled(after, g, a) <==>
            Settled(db, g, a) || exists i :: 0 <= i < |rows| && rows[i].hypothesis == g && rows[i].agent == a
  {
    var n := |db.settlements|;
    if Settled(db, g, a) {
      var i :| 0 <= i < n && db.settlements[i].hypothesis == g && db.settlements[i].agent == a;
      assert after.settlements[i] == db.settlements[i];
    }
    if i :| 0 <= i < |rows| && rows[i].hypothesis == g && rows[i].agent == a {
      assert after.settlements[n + i] == rows[i];
    }
  }

  /** Settling h settles every forecast on it, and no other. */
  lemma SettledStep(db: Db, h: Id, outcome: int, g: Id, a: Id)
    requires Consistent(db) && h in db.hypotheses && IsOutcome(outcome) && SettleEffect(db, h, outcome).Some?
    ensures Settled(SettleEffect(db, h, outcome).value.0, g, a) <==>
            Settled(db, g, a) || (g == h && h !in db.outcomes && (h, a) in db.forecasts)
  {
    if h !in db.outcomes {
      SettleEffectIs(db, h, outcome);
      ListedForecasters(db, h);
      var listed := IdListing(Forecasters(db, h));
      var rows := RowsOf(db.(outcomes := db.outcomes[h := outcome]), h, db.hypotheses[h].prior, outcome, listed);
      SettledByRows(db, SettledDb(db, h, outcome), rows, g, a);
      if g == h && (h, a) in db.forecasts {
        var i :| 0 <= i < |listed| && listed[i] == a;
        assert rows[i].hypothesis == g && rows[i].agent == a;
      }
    }
  }

  lemma {:induction false} SettledAfter(db: Db, rs: seq<Resolution>, g: Id, a: Id)
    requires Consistent(db) && Resolvable(db, rs) && SettleAll(db, rs).Some?
    ensures Settled(SettleAll(db, rs).value, g, a) <==>
            Settled(db, g, a) || (ResolutionOf(rs, g).Some? && g !in db.outcomes && (g, a) in db.forecasts)
    decreases |rs|
  {
    if rs != [] {
      SettleStep(db, rs[0].0, rs[0].1);
      SettledStep(db, rs[0].0, rs[0].1, g, a);
      SettledAfter(SettleEffect(db, rs[0].0, rs[0].1).value.0, rs[1..], g, a);
      if rs[0].0 == g { NotAgain(rs, g); }
    }
  }

  lemma NotAgain(rs: seq<Resolution>, g: Id)
    requires rs != [] && rs[0].0 == g && forall i, j :: 0 <= i < j < |rs| ==> rs[i].0 != rs[j].0
    ensures ResolutionOf(rs[1..], g) == None
  {
    if ResolutionOf(rs[1..], g).Some? {
      ResolvedMeans(rs[1..], g, ResolutionOf(rs[1..], g).value);
      assert false;
    }
  }

  /** Settling any distinct hypotheses in any two orders gives every agent the
      same available and staked credits, records the same outcomes, settles the
      same forecasts, and scores each of them alike. (Reputations may differ: the clamp remembers
      order, see Reputation.OrderMattersAtTheBounds.) */
  lemma SettlementOrderFree(db: Db, rs: seq<Resolution>, ss: seq<Resolution>)
    requires Consistent(db) && Resolvable(db, rs) && Resolvable(db, ss) && multiset(rs) == multiset(ss)
    ensures SettleAll(db, rs).Some? && SettleAll(db, ss).Some?
    ensures var x := SettleAll(db, rs).value; var y := SettleAll(db, ss).value;
            && x.agents.Keys == y.agents.Keys
            && (forall a :: a in x.agents ==> x.agents[a].available == y.agents[a].available
                                              && x.agents[a].staked == y.agents[a].staked)
            && (forall h :: OutcomeOf(x, h) == OutcomeOf(y, h))
            && (forall h, a :: Settled(x, h, a) <==> Settled(y, h, a))
            && forall i, j :: 0 <= i < |x.settlements| && 0 <= j < |y.settlements|
                 && x.settlements[i].hypothesis == y.settlements[j].hypothesis
                 && x.settlements[i].agent == y.settlements[j].agent
                 ==> x.settlements[i].score == y.settlements[j].score
  {
    SettleAllSucceeds(db, rs);
    SettleAllSucceeds(db, ss);
    var x, y := SettleAll(db, rs).value, SettleAll(db, ss).value;
    forall a | a in db.agents
      ensures x.agents[a].available == y.agents[a].available && x.agents[a].staked == y.agents[a].staked
    {
      SettleAllIs(db, rs, a);
      SettleAllIs(db, ss, a);
      SumPermuted(PaysIn(db, a), rs, ss);
      SumPermuted(FreesIn(db, a), rs, ss);
    }
    forall h ensures OutcomeOf(x, h) == OutcomeOf(y, h) {
      OutcomesAfter(db, rs, h);
      OutcomesAfter(db, ss, h);
      ResolvedOrderFree(db, rs, ss, h);
    }
    forall h, a ensures Settled(x, h, a) <==> Settled(y, h, a) {
      SettledAfter(db, rs, h, a);
      SettledAfter(db, ss, h, a);
      ResolvedOrderFree(db, rs, ss, h);
    }
    forall i, j | 0 <= i < |x.settlements| && 0 <= j < |y.settlements|
        && x.settlements[i].hypothesis == y.settlements[j].hypothesis
        && x.settlements[i].agent == y.settlements[j].agent
      ensures x.settlements[i].score == y.settlements[j].score
    {
      SameScore(x, y, i, j);
    }
  }

  lemma SameScore(x: Db, y: Db, i: nat, j: nat)
    requires Consistent(x) && Consistent(y) && SameTerms(x, y) && i < |x.settlements| && j < |y.settlements|
    requires x.settlements[i].hypothesis == y.settlements[j].hypothesis
    requires x.settlements[i].agent == y.settlements[j].agent
    requires OutcomeOf(x, x.settlements[i].hypothesis) == OutcomeOf(y, x.settlements[i].hypothesis)
    ensures x.settlements[i].score == y.settlements[j].score
  {
    assert RowOk(x, x.settlements[i]) && RowOk(y, y.settlements[j]);
  }

  lemma {:induction false} SettleAllSucceeds(db: Db, rs: seq<Resolution>)
    requires Consistent(db) && Resolvable(db, rs)
    ensures SettleAll(db, rs).Some? && Consistent(SettleAll(db, rs).value) && SameTerms(db, SettleAll(db, rs).value)
    decreases |rs|
  {
    if rs != [] {
      SettleStep(db, rs[0].0, rs[0].1);
      SettleAllSucceeds(SettleEffect(db, rs[0].0, rs[0].1).value.0, rs[1..]);
    }
  }

  // ----------------------------------------------------------- predicted loss

  function WealthOf(db: Db, agents: seq<Id>): int
    requires forall a :: a in agents ==> a in db.agents
  {
    if agents == [] then 0 else Wealth(db, agents[0]) + WealthOf(db, agents[1..])
  }

  /** The attackers each hold one forecast of the same stake and claim on h. */
  ghost predicate Attackers(db: Db, h: Id, agents: seq<Id>, stake: int, claim: real) {
    forall a :: a in agents ==>
      a in db.agents && (h, a) in db.forecasts
      && db.forecasts[(h, a)].stake == stake && db.forecasts[(h, a)].probability == claim
  }

  lemma {:induction false} AttackersPaid(db: Db, h: Id, agents: seq<Id>, stake: int, claim: real, outcome: int)
    requires Consistent(db) && h in db.hypotheses && h !in db.outcomes && IsOutcome(outcome)
    requires Attackers(db, h, agents, stake, claim)
    requires SettleEffect(db, h, outcome).Some?
    requires forall a :: a in agents ==> a in SettleEffect(db, h, outcome).value.0.agents
    ensures WealthOf(SettleEffect(db, h, outcome).value.0, agents)
              == WealthOf(db, agents) + |agents| * Delta(stake, db.hypotheses[h].prior, claim, outcome)
    decreases |agents|
  {
    if agents != [] {
      assert agents[0] in agents;
      SettleMoves(db, h, outcome, agents[0]);
      AttackersPaid(db, h, agents[1..], stake, claim, outcome);
      var d := Delta(stake, db.hypotheses[h].prior, claim, outcome);
      assert |agents| * d == d + (|agents| - 1) * d;
    }
  }

  lemma LossIs(identities: nat, stake: int, prior: real, claim: real, outcome: int)
    requires IsOutcome(outcome) && (identities > 0 ==> stake > 0)
    ensures AttackSettlementLoss(identities, stake, prior, claim, outcome)
              == Some(-(identities * Delta(stake, prior, claim, outcome)))
  {
    SettleForecastYields(stake, prior, claim, outcome);
    var d := Delta(stake, prior, claim, outcome);
    assert -d * identities == -(identities * d);
  }

  /** When the attacked hypothesis resolves, the attackers' wealth in the ledger
      falls by exactly `attack_settlement_loss`. */
  lemma PredictedLossIsTheLedgersLoss(db: Db, h: Id, agents: seq<Id>, stake: int, claim: real, outcome: int)
    requires Consistent(db) && h in db.hypotheses && h !in db.outcomes && IsOutcome(outcome)
    requires Attackers(db, h, agents, stake, claim)
    ensures SettleEffect(db, h, outcome).Some?
    ensures forall a :: a in agents ==> a in SettleEffect(db, h, outcome).value.0.agents
    ensures var loss := AttackSettlementLoss(|agents|, stake, db.hypotheses[h].prior, claim, outcome);
            loss.Some? && WealthOf(SettleEffect(db, h, outcome).value.0, agents) == WealthOf(db, agents) - loss.value
  {
    SettleStep(db, h, outcome);
    AttackersPaid(db, h, agents, stake, claim, outcome);
    if agents != [] {
      assert agents[0] in agents && ForecastOk(db, (h, agents[0]));
    }
    LossIs(|agents|, stake, db.hypotheses[h].prior, claim, outcome);
  }

  /** The predicted loss never exceeds the stakes, and a claim at or above the
      prior never profits when the hypothesis resolves false. */
  lemma LossIsBounded(identities: nat, stake: nat, prior: real, claim: real, outcome: int)
    requires IsProbability(prior) && IsProbability(claim) && IsOutcome(outcome)
    ensures var loss := AttackSettlementLoss(identities, stake, prior, claim, outcome);
            && loss.Some? && loss.value <= identities * stake
            && (outcome == 0 && prior <= claim ==> loss.value >= 0)
  {
    SettleForecastYields(stake, prior, claim, outcome);
    DeltaBounds(stake, prior, claim, outcome);
    var d := Delta(stake, prior, claim, outcome);
    ScaleLe(identities, -d, stake);
    if outcome == 0 && prior <= claim {
      SquareMonotone(prior, claim);
      ScaleLe(identities, 0, -d);
    }
    assert -d * identities == identities * -d;
  }
}
