/** The subject handlers (src/stakeroute/worker/main.py) and the settlement
    runner (src/stakeroute/worker/settlement_runner.py), statement by statement
    against the repository, proved to have the ledger's effects. */
module Worker {
  import opened Orders
  import opened Types
  import opened Scoring
  import opened Reputation
  import opened Ledger
  import opened Storage

  /** `handle_forecast_created`; false is a raised constraint violation, or the
      ValueError of taking the reported replacement apart. */
  method HandleForecastCreated(repo: Repository, h: Id, a: Id, probability: real, stake: int, cluster: Id)
    returns (ok: bool)
    modifies repo`working
    ensures ok == ForecastEffect(old(repo.working), h, a, probability, stake, cluster).Some?
    ensures ok ==> repo.working == ForecastEffect(old(repo.working), h, a, probability, stake, cluster).value
    ensures !ok ==> repo.working == ForecastLeft(old(repo.working), h, a, probability, stake, cluster)
  {
    var clamped := ClampProbability(probability);
    var agent := repo.GetAgent(a);
    if agent.None? {
      repo.InsertRejectedForecast(h, a, stake, clamped);
      return true;
    }
    if !(STAKE_MIN <= stake <= STAKE_MAX) {
      repo.InsertRejectedForecast(h, a, stake, clamped);
      return true;
    }
    var existing := repo.GetLiveForecast(h, a);
    var lockedHere := if existing.Some? then existing.value.stake else 0;
    if stake > agent.value.available + lockedHere {
      repo.InsertRejectedForecast(h, a, stake, clamped);
      return true;
    }
    repo.EnsureEvidenceCluster(cluster);
    var upserted, previous := repo.UpsertForecastRow(h, a, Forecast(clamped, stake, cluster));
    if !upserted { return false; }
    if previous.Some? {
      var (id, previousStake) := previous.value;
      if Unsplittable(id) { return false; }
      repo.AdjustAgentCredits(a, previousStake, -previousStake);
    }
    repo.AdjustAgentCredits(a, -stake, stake);
    ok := true;
  }

  /** Settling the rows from the i-th on. */
  function SettleRest(db: Db, h: Id, prior: real, outcome: int, agents: seq<Id>, i: nat): Option<Db>
    requires i <= |agents| && forall a :: a in agents ==> (h, a) in db.forecasts
  {
    SettleLoop(db, h, prior, outcome, agents[i..])
  }

  lemma SettleRestStep(db: Db, h: Id, prior: real, outcome: int, agents: seq<Id>, i: nat)
    requires i < |agents| && forall a :: a in agents ==> (h, a) in db.forecasts
    ensures var next := SettleOne(db, h, prior, outcome, agents[i]);
            && (next.Some? ==> next.value.forecasts == db.forecasts)
            && SettleRest(db, h, prior, outcome, agents, i)
                 == if next.None? then None else SettleRest(next.value, h, prior, outcome, agents, i + 1)
  {
    assert agents[i..][0] == agents[i] && agents[i..][1..] == agents[i + 1..];
  }

  /** One turn of the settlement loop; false is InvalidOutcome. */
  method SettleRow(repo: Repository, h: Id, prior: real, outcome: int, row: ForecastRow) returns (ok: bool)
    requires (h, row.agent) in repo.working.forecasts && repo.working.forecasts[(h, row.agent)] == row.forecast
    modifies repo`working
    ensures ok == SettleOne(old(repo.working), h, prior, outcome, row.agent).Some?
    ensures ok ==> repo.working == SettleOne(old(repo.working), h, prior, outcome, row.agent).value
    ensures !ok || !IsOutcome(outcome) ==> repo.working == old(repo.working)
    ensures !ok ==> !IsOutcome(outcome)
  {
    var agent := repo.GetAgent(row.agent);
    if agent.None? { return true; }
    var settlement := SettleForecast(row.forecast.stake, prior, row.forecast.probability, outcome);
    SettleForecastYields(row.forecast.stake, prior, row.forecast.probability, outcome);
    if settlement.None? { return false; }
    var score := settlement.value;
    var before := agent.value.reputation;
    var after := UpdateReputation(before, score.brier, score.improvement);
    var inserted := repo.InsertSettlement(SettlementRow(h, row.agent, score, before, after));
    if !inserted { return true; }
    repo.SetAgentReputation(row.agent, after);
    repo.AdjustAgentCredits(row.agent, row.forecast.stake + score.creditDelta, -row.forecast.stake);
    ok := true;
  }

  /** `settle_hypothesis`; None is a raised error. Its last statement commits
      whatever transaction it runs in. */
  method SettleHypothesis(repo: Repository, h: Id, outcome: int) returns (ran: Option<bool>)
    modifies repo
    ensures ran.Some? == SettleEffect(old(repo.working), h, outcome).Some?
    ensures ran.Some? ==> (repo.working, ran.value) == SettleEffect(old(repo.working), h, outcome).value
    ensures ran.None? ==> repo.working == SettleLeft(old(repo.working), h, outcome)
    ensures repo.committed == if ran == Some(true) then repo.working else old(repo.committed)
  {
    var isNew := repo.InsertOutcome(h, outcome);
    if isNew.None? { return None; }
    if !isNew.value { return Some(false); }
    var hypothesis := repo.GetHypothesis(h);
    var rows := repo.ListForecasts(h);
    ghost var start, agents := repo.working, IdListing(Forecasters(repo.working, h));
    var prior := hypothesis.value.prior;
    assert agents[0..] == agents;
    var i := 0;
    while i < |rows|
      modifies repo`working
      invariant 0 <= i <= |rows| && repo.working.forecasts == start.forecasts
      invariant SettleRest(repo.working, h, prior, outcome, agents, i) == SettleLoop(start, h, prior, outcome, agents)
      invariant !IsOutcome(outcome) ==> repo.working == start
    {
      SettleRestStep(repo.working, h, prior, outcome, agents, i);
      assert agents[i] in agents && rows[i] == ForecastRow(agents[i], start.forecasts[(h, agents[i])]);
      var ok := SettleRow(repo, h, prior, outcome, rows[i]);
      if !ok { return None; }
      i := i + 1;
    }
    repo.SetHypothesisStatus(h, Resolved);
    repo.Commit();
    ran := Some(true);
  }

  /** The hypotheses still to be expired, from the i-th on. */
  function ExpireRest(db: Db, hs: seq<Id>, i: nat): Db
    requires i <= |hs|
  {
    ExpireLoop(db, hs[i..])
  }

  function ReleaseRest(db: Db, h: Id, agents: seq<Id>, i: nat): Db
    requires i <= |agents| && forall a :: a in agents ==> (h, a) in db.forecasts
  {
    ReleaseLoop(db, h, agents[i..])
  }

  lemma ReleaseRestStep(db: Db, h: Id, agents: seq<Id>, i: nat)
    requires i < |agents| && forall a :: a in agents ==> (h, a) in db.forecasts
    ensures var stake := db.forecasts[(h, agents[i])].stake;
            var next := AdjustCredits(db, agents[i], stake, -stake);
            next.forecasts == db.forecasts
            && ReleaseRest(db, h, agents, i) == ReleaseRest(next, h, agents, i + 1)
  {
    assert agents[i..][0] == agents[i] && agents[i..][1..] == agents[i + 1..];
  }

  /** The inner loop of `expire_overdue_hypotheses`. */
  method ExpireHypothesis(repo: Repository, h: Id)
    modifies repo`working
    ensures repo.working == ExpireOne(old(repo.working), h)
  {
    var rows := repo.ListForecasts(h);
    ghost var start, agents := repo.working, IdListing(Forecasters(repo.working, h));
    assert agents[0..] == agents;
    var i := 0;
    while i < |rows|
      modifies repo`working
      invariant 0 <= i <= |rows| && repo.working.forecasts == start.forecasts
      invariant ReleaseRest(repo.working, h, agents, i) == ReleaseLoop(start, h, agents)
    {
      ReleaseRestStep(repo.working, h, agents, i);
      assert rows[i] == ForecastRow(agents[i], start.forecasts[(h, agents[i])]);
      repo.AdjustAgentCredits(rows[i].agent, rows[i].forecast.stake, -rows[i].forecast.stake);
      i := i + 1;
    }
    repo.SetHypothesisStatus(h, Expired);
  }

  /** `expire_overdue_hypotheses`: one transaction, and the ids it expired. */
  method ExpireOverdueHypotheses(repo: Repository, now: int) returns (expired: seq<Id>)
    modifies repo
    ensures repo.working == ExpireEffect(old(repo.working), now) && repo.committed == repo.working
    ensures expired == IdListing(OverdueSet(old(repo.working), now)) && ListsOverdue(old(repo.working), now, expired)
  {
    var hs := repo.ListExpiredHypotheses(now);
    expired := [];
    ghost var start := repo.working;
    assert hs[0..] == hs;
    var i := 0;
    while i < |hs|
      modifies repo`working
      invariant 0 <= i <= |hs| && expired == hs[..i]
      invariant ExpireRest(repo.working, hs, i) == ExpireLoop(start, hs)
    {
      assert hs[i..][0] == hs[i] && hs[i..][1..] == hs[i + 1..];
      ExpireHypothesis(repo, hs[i]);
      expired := expired + [hs[i]];
      i := i + 1;
    }
    repo.Commit();
  }

  /** The handler of a subject; false is anything raised. Only settlement
      commits on its own, and then everything up to that point. */
  method Handle(repo: Repository, subject: Subject, body: Body) returns (ok: bool)
    modifies repo
    ensures ok == HandlerEffect(old(repo.working), subject, body).Some?
    ensures repo.working == if ok then HandlerEffect(old(repo.working), subject, body).value
                            else HandlerLeft(old(repo.working), subject, body)
    ensures repo.committed
              == if CommitsItself(old(repo.working), subject, body) then repo.working else old(repo.committed)
  {
    match (subject, body) {
      case (SignalsRaw, _) => ok := true;
      case (ForecastsCreated, ForecastBody(h, a, p, s, c)) => ok := HandleForecastCreated(repo, h, a, p, s, c);
      case (OutcomesResolved, OutcomeBody(h, o)) =>
        var ran := SettleHypothesis(repo, h, o);
        ok := ran.Some?;
      case _ => ok := false;
    }
  }
}
