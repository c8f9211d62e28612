/** Closed forms of the ledger's loops: what settling or expiring a hypothesis
    does to every agent at once. */
module LedgerFacts {
  import opened Orders
  import opened Types
  import opened Scoring
  import opened Reputation
  import opened Ledger

  /** Agents credited with the given deltas. */
  function Credited(agent: Agent, availableDelta: int, stakedDelta: int): Agent {
    agent.(available := agent.available + availableDelta, staked := agent.staked + stakedDelta)
  }

  // --------------------------------------------------------------- settling

  function Score(db: Db, h: Id, prior: real, outcome: int, a: Id): Settlement
    requires IsOutcome(outcome) && (h, a) in db.forecasts
  {
    SettleForecast(db.forecasts[(h, a)].stake, prior, db.forecasts[(h, a)].probability, outcome).value
  }

  function RowOf(db: Db, h: Id, prior: real, outcome: int, a: Id): SettlementRow
    requires IsOutcome(outcome) && (h, a) in db.forecasts && a in db.agents
  {
    var s := Score(db, h, prior, outcome, a);
    var before := db.agents[a].reputation;
    SettlementRow(h, a, s, before, UpdateReputation(before, s.brier, s.improvement))
  }

  function AgentAfter(db: Db, h: Id, prior: real, outcome: int, a: Id): Agent
    requires IsOutcome(outcome) && (h, a) in db.forecasts && a in db.agents
  {
    var row := RowOf(db, h, prior, outcome, a);
    var stake := db.forecasts[(h, a)].stake;
    Credited(db.agents[a], stake + row.score.creditDelta, -stake).(reputation := row.after)
  }

  /** Every agent of the list holds an unsettled forecast on h. */
  ghost predicate Settleable(db: Db, h: Id, agents: seq<Id>) {
    && Distinct(agents)
    && forall a :: a in agents ==> (h, a) in db.forecasts && a in db.agents && !Settled(db, h, a)
  }

  function RowsOf(db: Db, h: Id, prior: real, outcome: int, agents: seq<Id>): seq<SettlementRow>
    requires IsOutcome(outcome) && forall a :: a in agents ==> (h, a) in db.forecasts && a in db.agents
  {
    seq(|agents|, i requires 0 <= i < |agents| => RowOf(db, h, prior, outcome, agents[i]))
  }

  function AgentsAfter(db: Db, h: Id, prior: real, outcome: int, agents: seq<Id>): map<Id, Agent>
    requires IsOutcome(outcome) && forall a :: a in agents ==> (h, a) in db.forecasts && a in db.agents
  {
    map a | a in db.agents :: if a in agents then AgentAfter(db, h, prior, outcome, a) else db.agents[a]
  }

  lemma SetThenAdjust(db: Db, a: Id, reputation: real, availableDelta: int, stakedDelta: int)
    requires a in db.agents
    ensures AdjustCredits(SetReputation(db, a, reputation), a, availableDelta, stakedDelta)
              == db.(agents := db.agents[a := Credited(db.agents[a], availableDelta, stakedDelta)
                                                .(reputation := reputation)])
  {
    var once := SetReputation(db, a, reputation);
    assert AdjustCredits(once, a, availableDelta, stakedDelta).agents
           == db.agents[a := Credited(db.agents[a], availableDelta, stakedDelta).(reputation := reputation)];
  }

  /** The state after settling one unsettled forecast. */
  function AfterOne(db: Db, h: Id, prior: real, outcome: int, a: Id): Db
    requires IsOutcome(outcome) && (h, a) in db.forecasts && a in db.agents
  {
    db.(agents := db.agents[a := AgentAfter(db, h, prior, outcome, a)],
        settlements := db.settlements + [RowOf(db, h, prior, outcome, a)])
  }

  lemma SettleOneIs(db: Db, h: Id, prior: real, outcome: int, a: Id)
    requires IsOutcome(outcome) && (h, a) in db.forecasts && a in db.agents && !Settled(db, h, a)
    ensures SettleOne(db, h, prior, outcome, a) == Some(AfterOne(db, h, prior, outcome, a))
  {
    var row := RowOf(db, h, prior, outcome, a);
    var inserted := db.(settlements := db.settlements + [row]);
    var stake := db.forecasts[(h, a)].stake;
    SetThenAdjust(inserted, a, row.after, stake + row.score.creditDelta, -stake);
    SettleForecastYields(stake, prior, db.forecasts[(h, a)].probability, outcome);
  }

  lemma AfterOneKeepsOthers(db: Db, h: Id, prior: real, outcome: int, a: Id, agents: seq<Id>)
    requires IsOutcome(outcome) && agents != [] && agents[0] == a && Settleable(db, h, agents)
    ensures Settleable(AfterOne(db, h, prior, outcome, a), h, agents[1..])
  {
    var next := AfterOne(db, h, prior, outcome, a);
    forall b | b in agents[1..] ensures !Settled(next, h, b) {
      assert b != a && !Settled(db, h, b);
    }
  }

  lemma RowsOfTail(db: Db, h: Id, prior: real, outcome: int, agents: seq<Id>)
    requires IsOutcome(outcome) && agents != [] && Settleable(db, h, agents)
    requires Settleable(AfterOne(db, h, prior, outcome, agents[0]), h, agents[1..])
    ensures RowsOf(db, h, prior, outcome, agents)
              == [RowOf(db, h, prior, outcome, agents[0])]
                 + RowsOf(AfterOne(db, h, prior, outcome, agents[0]), h, prior, outcome, agents[1..])
  {
    var next := AfterOne(db, h, prior, outcome, agents[0]);
    forall i | 1 <= i < |agents|
      ensures RowsOf(db, h, prior, outcome, agents)[i] == RowsOf(next, h, prior, outcome, agents[1..])[i - 1]
    {
      assert agents[1..][i - 1] == agents[i] != agents[0];
    }
  }

  lemma AgentsAfterTail(db: Db, h: Id, prior: real, outcome: int, agents: seq<Id>)
    requires IsOutcome(outcome) && agents != [] && Settleable(db, h, agents)
    requires Settleable(AfterOne(db, h, prior, outcome, agents[0]), h, agents[1..])
    ensures AgentsAfter(db, h, prior, outcome, agents)
              == AgentsAfter(AfterOne(db, h, prior, outcome, agents[0]), h, prior, outcome, agents[1..])
  {
    var next := AfterOne(db, h, prior, outcome, agents[0]);
    var m, n := AgentsAfter(db, h, prior, outcome, agents), AgentsAfter(next, h, prior, outcome, agents[1..]);
    forall a | a in db.agents ensures m[a] == n[a] {
      assert a in agents <==> a == agents[0] || a in agents[1..];
      assert agents[0] !in agents[1..];
    }
  }

  /** The state after settling a list of unsettled forecasts. */
  function AfterAll(db: Db, h: Id, prior: real, outcome: int, agents: seq<Id>): Db
    requires IsOutcome(outcome) && forall a :: a in agents ==> (h, a) in db.forecasts && a in db.agents
  {
    db.(agents := AgentsAfter(db, h, prior, outcome, agents),
        settlements := db.settlements + RowsOf(db, h, prior, outcome, agents))
  }

  lemma AfterNone(db: Db, h: Id, prior: real, outcome: int)
    requires IsOutcome(outcome)
    ensures AfterAll(db, h, prior, outcome, []) == db
  {
    assert AgentsAfter(db, h, prior, outcome, []) == db.agents;
  }

  lemma AfterAllStep(db: Db, h: Id, prior: real, outcome: int, agents: seq<Id>)
    requires IsOutcome(outcome) && agents != [] && Settleable(db, h, agents)
    requires Settleable(AfterOne(db, h, prior, outcome, agents[0]), h, agents[1..])
    ensures AfterAll(db, h, prior, outcome, agents)
              == AfterAll(AfterOne(db, h, prior, outcome, agents[0]), h, prior, outcome, agents[1..])
  {
    var next := AfterOne(db, h, prior, outcome, agents[0]);
    RowsOfTail(db, h, prior, outcome, agents);
    AgentsAfterTail(db, h, prior, outcome, agents);
    assert db.settlements + ([RowOf(db, h, prior, outcome, agents[0])] + RowsOf(next, h, prior, outcome, agents[1..]))
           == next.settlements + RowsOf(next, h, prior, outcome, agents[1..]);
  }

  /** Settling a list of distinct, unsettled forecasts does to each agent what
      settling that agent alone would, and appends one row each. */
  lemma {:induction false} SettleLoopIs(db: Db, h: Id, prior: real, outcome: int, agents: seq<Id>)
    requires IsOutcome(outcome) && Settleable(db, h, agents)
    ensures SettleLoop(db, h, prior, outcome, agents) == Some(AfterAll(db, h, prior, outcome, agents))
    decreases |agents|
  {
    if agents == [] {
      AfterNone(db, h, prior, outcome);
    } else {
      SettleOneIs(db, h, prior, outcome, agents[0]);
      AfterOneKeepsOthers(db, h, prior, outcome, agents[0], agents);
      SettleLoopIs(AfterOne(db, h, prior, outcome, agents[0]), h, prior, outcome, agents[1..]);
      AfterAllStep(db, h, prior, outcome, agents);
    }
  }

  // --------------------------------------------------------------- expiring

  function ReleasedAgents(db: Db, h: Id, agents: seq<Id>): map<Id, Agent>
    requires forall a :: a in agents ==> (h, a) in db.forecasts
  {
    map a | a in db.agents ::
      if a in agents then Credited(db.agents[a], db.forecasts[(h, a)].stake, -db.forecasts[(h, a)].stake)
      else db.agents[a]
  }

  lemma ReleasedTail(db: Db, h: Id, agents: seq<Id>)
    requires agents != [] && Distinct(agents)
    requires forall a :: a in agents ==> (h, a) in db.forecasts && a in db.agents
    ensures var stake := db.forecasts[(h, agents[0])].stake;
            var next := AdjustCredits(db, agents[0], stake, -stake);
            ReleasedAgents(db, h, agents) == ReleasedAgents(next, h, agents[1..])
  {
    var stake := db.forecasts[(h, agents[0])].stake;
    var next := AdjustCredits(db, agents[0], stake, -stake);
    var m, n := ReleasedAgents(db, h, agents), ReleasedAgents(next, h, agents[1..]);
    assert agents[0] !in agents[1..];
    forall a | a in db.agents ensures m[a] == n[a] {
      assert a in agents <==> a == agents[0] || a in agents[1..];
    }
  }

  lemma {:induction false} ReleaseLoopIs(db: Db, h: Id, agents: seq<Id>)
    requires Distinct(agents)
    requires forall a :: a in agents ==> (h, a) in db.forecasts && a in db.agents
    ensures ReleaseLoop(db, h, agents) == db.(agents := ReleasedAgents(db, h, agents))
    decreases |agents|
  {
    if agents == [] {
      assert ReleasedAgents(db, h, agents) == db.agents;
    } else {
      var stake := db.forecasts[(h, agents[0])].stake;
      ReleasedTail(db, h, agents);
      ReleaseLoopIs(AdjustCredits(db, agents[0], stake, -stake), h, agents[1..]);
    }
  }
}
