/** What each handler and runner does to the tables, spelled out in the tables'
    own rows and the rules' own numbers: independent statements that the
    specification functions of Ledger meet. */
module TableLaws {
  import opened Orders
  import opened Types
  import opened Scoring
  import opened Reputation
  import opened Sums
  import opened Ledger
  import opened LedgerFacts
  import opened LedgerInvariants
  import opened LedgerBalances
  import opened LedgerHistory

  // ------------------------------------------------------ forecasts.created

  /** The stake a submission would replace. */
  function StakeAt(db: Db, h: Id, a: Id): int {
    if (h, a) in db.forecasts then db.forecasts[(h, a)].stake else 0
  }

  /** FR-044: the new stake is measured against what is available once the stake
      it replaces is freed. */
  predicate WithinMeans(db: Db, h: Id, a: Id, stake: int) {
    a in db.agents && 1 <= stake <= 50 && stake <= db.agents[a].available + StakeAt(db, h, a)
  }

  predicate HasSettlement(db: Db, h: Id, a: Id) {
    exists i :: 0 <= i < |db.settlements| && db.settlements[i].hypothesis == h && db.settlements[i].agent == a
  }

  /** Another live forecast's two ids join to the same primary key. */
  predicate KeyTaken(db: Db, h: Id, a: Id) {
    exists k :: k in db.forecasts && k != (h, a) && "forecast-" + k.0 + "-" + k.1 == "forecast-" + h + "-" + a
  }

  /** The constraints and the parsing a submission can fail on. */
  predicate FailsOnKeys(db: Db, h: Id, a: Id) {
    || h !in db.hypotheses || KeyTaken(db, h, a)
    || ((h, a) in db.forecasts && (':' in h || ':' in a || HasSettlement(db, h, a)))
  }

  function Clamped(p: real): real { if p < 0.01 then 0.01 else if p > 0.99 then 0.99 else p }

  /** Every submission, decided: beyond the agent's means - or from nobody - it
      only adds a rejection; within them it fails on its keys, or replaces one
      row and moves exactly the difference of the stakes. */
  lemma ForecastDecided(db: Db, h: Id, a: Id, probability: real, stake: int, cluster: Id)
    ensures ForecastEffect(db, h, a, probability, stake, cluster)
              == if !WithinMeans(db, h, a, stake) then
                   Some(db.(rejected := db.rejected + [Rejection(h, a, stake, Clamped(probability))]))
                 else if FailsOnKeys(db, h, a) then None
                 else
                   var agent, locked := db.agents[a], StakeAt(db, h, a);
                   Some(db.(clusters := db.clusters + {cluster},
                            forecasts := db.forecasts[(h, a) := Forecast(Clamped(probability), stake, cluster)],
                            agents := db.agents[a := Agent(agent.reputation, agent.available + locked - stake,
                                                           agent.staked - locked + stake)]))
  {
    if Accepted(db, h, a, stake) {
      ForecastEffectIs(db, h, a, probability, stake, cluster);
      KeysDecide(db, h, a);
    }
  }

  lemma KeysDecide(db: Db, h: Id, a: Id)
    ensures IdTaken(db, h, a) == KeyTaken(db, h, a)
    ensures ForecastRaises(db, h, a) == FailsOnKeys(db, h, a)
  {
    ColonInId(h, a);
    if IdTaken(db, h, a) {
      var k :| k in db.forecasts && k != (h, a) && ForecastId(k.0, k.1) == ForecastId(h, a);
      assert "forecast-" + k.0 + "-" + k.1 == "forecast-" + h + "-" + a;
    }
    if k :| k in db.forecasts && k != (h, a) && "forecast-" + k.0 + "-" + k.1 == "forecast-" + h + "-" + a {
      assert ForecastId(k.0, k.1) == ForecastId(h, a);
    }
  }

  /** What a submission that raises leaves behind: its evidence cluster and, by
      what it failed on, the row that a settlement refers to, the gap of the row
      deleted for one that has no place, or the new row without its credits. */
  lemma RaisedForecastLeaves(db: Db, h: Id, a: Id, probability: real, stake: int, cluster: Id)
    requires WithinMeans(db, h, a, stake) && FailsOnKeys(db, h, a)
    ensures ForecastEffect(db, h, a, probability, stake, cluster) == None
    ensures ForecastLeft(db, h, a, probability, stake, cluster)
              == db.(clusters := db.clusters + {cluster},
                     forecasts := if (h, a) in db.forecasts && HasSettlement(db, h, a) then db.forecasts
                                  else if h !in db.hypotheses || KeyTaken(db, h, a) then db.forecasts - {(h, a)}
                                  else db.forecasts[(h, a) := Forecast(Clamped(probability), stake, cluster)])
  {
    ForecastDecided(db, h, a, probability, stake, cluster);
    KeysDecide(db, h, a);
    var clustered := db.(clusters := db.clusters + {cluster});
    assert IdTaken(clustered, h, a) == IdTaken(db, h, a);
    assert (h, a) !in db.forecasts ==> db.forecasts - {(h, a)} == db.forecasts;
  }

  /** The submission takes effect if and only if it is within the agent's
      means. */
  lemma AcceptedExactlyWhen(db: Db, h: Id, a: Id, probability: real, stake: int, cluster: Id)
    requires Consistent(db) && a in db.agents && !FailsOnKeys(db, h, a)
    ensures ForecastEffect(db, h, a, probability, stake, cluster).Some?
    ensures var after := ForecastEffect(db, h, a, probability, stake, cluster).value;
            var agent, locked := db.agents[a], StakeAt(db, h, a);
            (1 <= stake <= 50 && stake <= agent.available + locked) <==>
            ((h, a) in after.forecasts && after.forecasts[(h, a)].stake == stake && a in after.agents
             && after.agents[a].available == agent.available + locked - stake
             && after.agents[a].staked == agent.staked - locked + stake
             && after.rejected == db.rejected)
  {
    ForecastDecided(db, h, a, probability, stake, cluster);
  }

  // ---------------------------------------------------------------- expiry

  /** The hypotheses past their deadline. */
  predicate PastDeadline(db: Db, h: Id, now: int) {
    h in db.hypotheses && db.hypotheses[h].status == Open && db.hypotheses[h].deadline < now
  }

  /** Agent a's stakes on the given hypotheses. */
  function StakesOn(db: Db, a: Id, hs: set<Id>): map<Id, int> {
    map h | h in hs && (h, a) in db.forecasts :: db.forecasts[(h, a)].stake
  }

  function Members(hs: seq<Id>): set<Id> { set h | h in hs }

  function Returned(agent: Agent, stakes: int): Agent {
    Agent(agent.reputation, agent.available + stakes, agent.staked - stakes)
  }

  /** Between two ledgers exactly the given hypotheses were expired, and exactly
      the stakes on them given back. */
  ghost predicate ExpiredExactly(db: Db, after: Db, hs: set<Id>) {
    && after == db.(agents := after.agents, hypotheses := after.hypotheses)
    && HypothesesExpired(db, after, hs)
    && StakesReturned(db, after, hs)
  }

  ghost predicate HypothesesExpired(db: Db, after: Db, hs: set<Id>) {
    && after.hypotheses.Keys == db.hypotheses.Keys
    && forall h :: h in db.hypotheses ==>
         after.hypotheses[h] == if h in hs then db.hypotheses[h].(status := Expired) else db.hypotheses[h]
  }

  ghost predicate StakesReturned(db: Db, after: Db, hs: set<Id>) {
    && after.agents.Keys == db.agents.Keys
    && forall a :: a in db.agents ==> after.agents[a] == Returned(db.agents[a], MapTotal(StakesOn(db, a, hs)))
  }

  ghost predicate ForecastsOk(db: Db) { forall k :: k in db.forecasts ==> ForecastOk(db, k) }

  lemma ExpireOneFrame(db: Db, h: Id)
    requires ForecastsOk(db) && h in db.hypotheses
    ensures var next := ExpireOne(db, h);
            && next == db.(agents := next.agents, hypotheses := next.hypotheses)
            && HypothesesExpired(db, next, {h}) && ForecastsOk(next)
  {
    ExpireOneIs(db, h);
    var next := ExpireOne(db, h);
    forall k | k in next.forecasts ensures ForecastOk(next, k) { assert ForecastOk(db, k); }
  }

  lemma ExpireOneReturns(db: Db, h: Id)
    requires ForecastsOk(db)
    ensures ExpireOne(db, h).agents.Keys == db.agents.Keys
    ensures forall a :: a in db.agents ==> ExpireOne(db, h).agents[a] == Returned(db.agents[a], StakeAt(db, h, a))
  {
    ExpireOneIs(db, h);
    ListedForecasters(db, h);
  }

  lemma StakesStep(db: Db, next: Db, a: Id, h: Id, rest: set<Id>)
    requires next.forecasts == db.forecasts && h !in rest
    ensures MapTotal(StakesOn(db, a, rest + {h})) == StakeAt(db, h, a) + MapTotal(StakesOn(next, a, rest))
  {
    var m := StakesOn(db, a, rest);
    assert StakesOn(next, a, rest) == m;
    if (h, a) in db.forecasts {
      assert StakesOn(db, a, rest + {h}) == m[h := db.forecasts[(h, a)].stake];
      MapTotalUpdated(m, h, db.forecasts[(h, a)].stake);
    } else {
      assert StakesOn(db, a, rest + {h}) == m;
    }
  }

  lemma StakesReturnedFirst(db: Db, next: Db, after: Db, h: Id, rest: set<Id>)
    requires next.forecasts == db.forecasts && h !in rest && next.agents.Keys == db.agents.Keys
    requires forall a :: a in db.agents ==> next.agents[a] == Returned(db.agents[a], StakeAt(db, h, a))
    requires StakesReturned(next, after, rest)
    ensures StakesReturned(db, after, rest + {h})
  {
    forall a | a in db.agents
      ensures after.agents[a] == Returned(db.agents[a], MapTotal(StakesOn(db, a, rest + {h})))
    {
      StakesStep(db, next, a, h, rest);
    }
  }

  lemma ExpiredFirst(db: Db, after: Db, h: Id, rest: set<Id>)
    requires ForecastsOk(db) && h in db.hypotheses && h !in rest
    requires ExpiredExactly(ExpireOne(db, h), after, rest)
    ensures ExpiredExactly(db, after, rest + {h})
  {
    ExpireOneFrame(db, h);
    ExpireOneReturns(db, h);
    StakesReturnedFirst(db, ExpireOne(db, h), after, h, rest);
  }

  lemma ExpiredNone(db: Db)
    ensures ExpiredExactly(db, db, {})
  {
    forall a | a in db.agents ensures MapTotal(StakesOn(db, a, {})) == 0 {
      assert StakesOn(db, a, {}) == map[];
    }
  }

  lemma MembersOf(hs: seq<Id>)
    requires Distinct(hs) && hs != []
    ensures hs[0] !in Members(hs[1..]) && Members(hs) == Members(hs[1..]) + {hs[0]}
  {
    assert hs == [hs[0]] + hs[1..];
  }

  lemma {:induction false} ExpireLoopExpires(db: Db, hs: seq<Id>)
    requires ForecastsOk(db) && Distinct(hs) && forall h :: h in hs ==> h in db.hypotheses
    ensures ExpiredExactly(db, ExpireLoop(db, hs), Members(hs))
    decreases |hs|
  {
    if hs == [] {
      ExpiredNone(db);
      assert Members(hs) == {};
    } else {
      ExpireOneFrame(db, hs[0]);
      ExpireLoopExpires(ExpireOne(db, hs[0]), hs[1..]);
      MembersOf(hs);
      ExpiredFirst(db, ExpireLoop(db, hs), hs[0], Members(hs[1..]));
    }
  }

  /** Expiry at a time, decided: exactly the open hypotheses with an earlier
      deadline expire, every stake on them is given back in full, and nothing
      else changes - no reputation, no outcome, no forecast. */
  lemma ExpiryDecided(db: Db, now: int)
    requires Consistent(db)
    ensures ApplyOp(db, ExpiredAt(now)).Some?
    ensures ExpiredExactly(db, ApplyOp(db, ExpiredAt(now)).value,
                           set h | h in db.hypotheses && PastDeadline(db, h, now))
  {
    var due := set h | h in db.hypotheses && PastDeadline(db, h, now);
    OverdueAreOpen(db, now);
    ExpireLoopExpires(db, IdListing(OverdueSet(db, now)));
    assert Members(IdListing(OverdueSet(db, now))) == due by {
      forall h ensures h in Members(IdListing(OverdueSet(db, now))) <==> h in due {
        assert h in OverdueSet(db, now) <==> PastDeadline(db, h, now);
      }
    }
  }

  // ------------------------------------------------------ outcomes.resolved

  /** What settling against an outcome makes of an agent with the forecast: the
      stake comes back with the delta, and reputation moves by 0.3 of the
      improvement within [0.1, 1.0]. */
  function Paid(agent: Agent, stake: int, delta: int, improvement: real): Agent {
    var moved := agent.reputation + 0.3 * improvement;
    Agent(if moved < 0.1 then 0.1 else if moved > 1.0 then 1.0 else moved,
          agent.available + stake + delta, agent.staked - stake)
  }

  /** One settlement row: the stored forecast and prior against the outcome. */
  ghost predicate RowFor(db: Db, h: Id, outcome: int, row: SettlementRow, a: Id)
    requires h in db.hypotheses && (h, a) in db.forecasts && a in db.agents
  {
    && row.hypothesis == h && row.agent == a
    && SettleForecast(db.forecasts[(h, a)].stake, db.hypotheses[h].prior, db.forecasts[(h, a)].probability, outcome)
         == Some(row.score)
    && row.before == db.agents[a].reputation
    && row.after == Paid(db.agents[a], 0, 0, row.score.improvement).reputation
  }

  ghost predicate PaidFor(db: Db, after: Db, h: Id, outcome: int, a: Id)
    requires h in db.hypotheses && (h, a) in db.forecasts && a in db.agents
  {
    var f := db.forecasts[(h, a)];
    var s := SettleForecast(f.stake, db.hypotheses[h].prior, f.probability, outcome);
    s.Some? && a in after.agents
    && after.agents[a] == Paid(db.agents[a], f.stake, s.value.creditDelta, s.value.improvement)
  }

  /** One row for each forecast on h, in agent order. */
  ghost predicate RowsAppended(db: Db, rows: seq<SettlementRow>, h: Id, outcome: int)
    requires h in db.hypotheses && ForecastsOk(db)
  {
    && (forall a :: (h, a) in db.forecasts ==> exists i :: 0 <= i < |rows| && rows[i].agent == a)
    && (forall i :: 0 <= i < |rows| ==>
          (h, rows[i].agent) in db.forecasts && ForecastOk(db, (h, rows[i].agent))
          && RowFor(db, h, outcome, rows[i], rows[i].agent))
    && (forall i, j :: 0 <= i < j < |rows| ==>
          rows[i].agent != rows[j].agent && LexLe(rows[i].agent, rows[j].agent))
  }

  /** The outcome is recorded, the hypothesis resolved, each agent with a
      forecast on it paid and re-rated, one row appended for each, and nothing
      else changes. */
  ghost predicate SettledExactly(db: Db, after: Db, h: Id, outcome: int)
    requires h in db.hypotheses && ForecastsOk(db)
  {
    && after == db.(agents := after.agents, hypotheses := db.hypotheses[h := db.hypotheses[h].(status := Resolved)],
                    outcomes := db.outcomes[h := outcome], settlements := after.settlements)
    && after.agents.Keys == db.agents.Keys
    && (forall a :: a in db.agents && (h, a) !in db.forecasts ==> after.agents[a] == db.agents[a])
    && (forall a :: (h, a) in db.forecasts ==> ForecastOk(db, (h, a)) && PaidFor(db, after, h, outcome, a))
    && db.settlements <= after.settlements
    && RowsAppended(db, after.settlements[|db.settlements|..], h, outcome)
  }

  /** What settlement starts from. */
  ghost predicate Ready(db: Db, h: Id, outcome: int) {
    && ForecastsOk(db) && h in db.hypotheses && (outcome == 0 || outcome == 1)
    && forall a :: a in IdListing(Forecasters(db, h)) <==> (h, a) in db.forecasts
  }

  function NewRows(db: Db, h: Id, outcome: int): seq<SettlementRow>
    requires IsOutcome(outcome) && h in db.hypotheses
    requires forall a :: a in IdListing(Forecasters(db, h)) ==> (h, a) in db.forecasts && a in db.agents
  {
    RowsOf(db.(outcomes := db.outcomes[h := outcome]), h, db.hypotheses[h].prior, outcome,
           IdListing(Forecasters(db, h)))
  }

  lemma SettledFrame(db: Db, h: Id, outcome: int)
    requires Ready(db, h, outcome)
    requires forall a :: a in IdListing(Forecasters(db, h)) ==> (h, a) in db.forecasts && a in db.agents
    ensures var after := SettledDb(db, h, outcome);
            && after == db.(agents := after.agents,
                            hypotheses := db.hypotheses[h := db.hypotheses[h].(status := Resolved)],
                            outcomes := db.outcomes[h := outcome], settlements := after.settlements)
            && after.agents.Keys == db.agents.Keys
            && after.settlements == db.settlements + NewRows(db, h, outcome)
            && forall a :: a in db.agents && (h, a) !in db.forecasts ==> after.agents[a] == db.agents[a]
  {
  }

  lemma SettledAgent(db: Db, h: Id, outcome: int, a: Id)
    requires Ready(db, h, outcome) && (h, a) in db.forecasts && a in db.agents
    requires forall b :: b in IdListing(Forecasters(db, h)) ==> (h, b) in db.forecasts && b in db.agents
    ensures PaidFor(db, SettledDb(db, h, outcome), h, outcome, a)
  {
    var f := db.forecasts[(h, a)];
    SettleForecastYields(f.stake, db.hypotheses[h].prior, f.probability, outcome);
    var s := SettleForecast(f.stake, db.hypotheses[h].prior, f.probability, outcome).value;
    UpdateIs(db.agents[a].reputation, s.brier, s.improvement);
  }

  lemma NewRowIs(db: Db, h: Id, outcome: int, a: Id)
    requires Ready(db, h, outcome) && (h, a) in db.forecasts && a in db.agents
    ensures RowFor(db, h, outcome,
                   RowOf(db.(outcomes := db.outcomes[h := outcome]), h, db.hypotheses[h].prior, outcome, a), a)
  {
    var f := db.forecasts[(h, a)];
    SettleForecastYields(f.stake, db.hypotheses[h].prior, f.probability, outcome);
    var s := SettleForecast(f.stake, db.hypotheses[h].prior, f.probability, outcome).value;
    UpdateIs(db.agents[a].reputation, s.brier, s.improvement);
  }

  lemma NewRowsListed(db: Db, h: Id, outcome: int)
    requires Ready(db, h, outcome)
    requires forall a :: a in IdListing(Forecasters(db, h)) ==> (h, a) in db.forecasts && a in db.agents
    ensures var rows, listed := NewRows(db, h, outcome), IdListing(Forecasters(db, h));
            |rows| == |listed|
            && forall i :: 0 <= i < |rows| ==>
                 rows[i].agent == listed[i] && RowFor(db, h, outcome, rows[i], listed[i])
  {
    var rows, listed := NewRows(db, h, outcome), IdListing(Forecasters(db, h));
    forall i | 0 <= i < |rows| ensures rows[i].agent == listed[i] && RowFor(db, h, outcome, rows[i], listed[i]) {
      NewRowIs(db, h, outcome, listed[i]);
    }
  }

  lemma RowsAsListed(db: Db, h: Id, outcome: int, rows: seq<SettlementRow>, listed: seq<Id>)
    requires h in db.hypotheses && ForecastsOk(db) && |rows| == |listed|
    requires Distinct(listed) && SortedBy(LexLe, listed)
    requires forall a :: a in listed <==> (h, a) in db.forecasts
    requires forall i :: 0 <= i < |rows| ==>
               ForecastOk(db, (h, listed[i])) && rows[i].agent == listed[i]
               && RowFor(db, h, outcome, rows[i], listed[i])
    ensures RowsAppended(db, rows, h, outcome)
  {
    forall a | (h, a) in db.forecasts ensures exists i :: 0 <= i < |rows| && rows[i].agent == a {
      var i :| 0 <= i < |listed| && listed[i] == a;
      assert rows[i].agent == a;
    }
  }

  lemma NewRowsAppended(db: Db, h: Id, outcome: int)
    requires Ready(db, h, outcome)
    requires forall a :: a in IdListing(Forecasters(db, h)) ==> (h, a) in db.forecasts && a in db.agents
    ensures RowsAppended(db, NewRows(db, h, outcome), h, outcome)
  {
    NewRowsListed(db, h, outcome);
    RowsAsListed(db, h, outcome, NewRows(db, h, outcome), IdListing(Forecasters(db, h)));
  }

  lemma SettledDbDecided(db: Db, h: Id, outcome: int)
    requires Ready(db, h, outcome)
    requires forall a :: a in IdListing(Forecasters(db, h)) ==> (h, a) in db.forecasts && a in db.agents
    ensures SettledExactly(db, SettledDb(db, h, outcome), h, outcome)
  {
    SettledFrame(db, h, outcome);
    NewRowsAppended(db, h, outcome);
    forall a | (h, a) in db.forecasts
      ensures ForecastOk(db, (h, a)) && PaidFor(db, SettledDb(db, h, outcome), h, outcome, a)
    {
      assert ForecastOk(db, (h, a));
      SettledAgent(db, h, outcome, a);
    }
  }

  /** Every resolution, decided: a second one changes nothing and commits
      nothing, an unknown hypothesis raises, the first with outcome 0 or 1
      settles every forecast, and any other outcome raises exactly when there is
      a forecast to score - and resolves the hypothesis unpaid when not. */
  lemma SettlementDecided(db: Db, h: Id, outcome: int)
    requires Consistent(db)
    ensures h in db.outcomes ==> SettleEffect(db, h, outcome) == Some((db, false))
    ensures h !in db.hypotheses ==> SettleEffect(db, h, outcome) == None
    ensures h in db.hypotheses && h !in db.outcomes && (outcome == 0 || outcome == 1) ==>
              && SettleEffect(db, h, outcome).Some? && SettleEffect(db, h, outcome).value.1
              && SettledExactly(db, SettleEffect(db, h, outcome).value.0, h, outcome)
    ensures h in db.hypotheses && h !in db.outcomes && outcome != 0 && outcome != 1 ==>
              SettleEffect(db, h, outcome)
                == if exists a :: (h, a) in db.forecasts then None
                   else Some((db.(outcomes := db.outcomes[h := outcome],
                                  hypotheses := db.hypotheses[h := db.hypotheses[h].(status := Resolved)]), true))
  {
    if h in db.hypotheses && h !in db.outcomes {
      SettleEffectIs(db, h, outcome);
      ListedForecasters(db, h);
      if outcome == 0 || outcome == 1 {
        SettledDbDecided(db, h, outcome);
      } else {
        assert Forecasters(db, h) == {} <==> !exists a :: (h, a) in db.forecasts by {
          if a :| (h, a) in db.forecasts { assert a in Forecasters(db, h); }
        }
      }
    }
  }

  /** What a resolution that raises leaves behind: nothing of an unknown
      hypothesis, and of a known one the impossible outcome, unsettled. */
  lemma RaisedSettlementLeaves(db: Db, h: Id, outcome: int)
    requires Consistent(db) && SettleEffect(db, h, outcome) == None
    ensures h in db.hypotheses ==> outcome != 0 && outcome != 1 && exists a :: (h, a) in db.forecasts
    ensures var left := SettleLeft(db, h, outcome);
            && left == db.(outcomes := left.outcomes)
            && (h !in db.hypotheses ==> left.outcomes == db.outcomes)
            && (h in db.hypotheses ==> left.outcomes == db.outcomes[h := outcome] && h !in db.outcomes)
  {
    SettlementDecided(db, h, outcome);
  }

  // -------------------------------------------------------- the audit trail

  /** The i-th row's `before` is the reputation the earlier rows lead to. */
  ghost predicate TakesUp(log: seq<Op>, db: Db, i: nat)
    requires i < |db.settlements|
  {
    var row, registered := db.settlements[i], Registration(log, db.settlements[i].agent);
    && registered.Some?
    && row.before == AfterSettlements(registered.value.reputation, Improvements(db.settlements[..i], row.agent))
  }

  /** Only the first resolution of a hypothesis appends rows. */
  lemma RowsComeFromOutcomes(db: Db, op: Op)
    requires Consistent(db) && ApplyOp(db, op).Some? && ApplyOp(db, op).value.settlements != db.settlements
    ensures op.Applied? && op.subject == OutcomesResolved && op.envelope.body.OutcomeBody?
    ensures var body := op.envelope.body;
            body.hypothesis in db.hypotheses && body.hypothesis !in db.outcomes
            && (body.outcome == 0 || body.outcome == 1)
  {
    match op {
      case Applied(subject, envelope) =>
        var recorded := RecordEvent(db, subject, envelope);
        RecordKeeps(db, subject, envelope);
        match (subject, envelope.body) {
          case (ForecastsCreated, ForecastBody(h, a, p, s, c)) => ForecastDecided(recorded, h, a, p, s, c);
          case (OutcomesResolved, OutcomeBody(h, o)) => SettlementDecided(recorded, h, o);
          case _ =>
        }
      case ExpiredAt(now) =>
        OverdueAreOpen(db, now);
        ExpiryKeepsSettlements(db, IdListing(OverdueSet(db, now)));
      case _ =>
    }
  }

  lemma AppendedRow(db: Db, rows: seq<SettlementRow>, h: Id, outcome: int, k: nat)
    requires h in db.hypotheses && ForecastsOk(db) && RowsAppended(db, rows, h, outcome) && k < |rows|
    ensures rows[k].agent in db.agents && rows[k].before == db.agents[rows[k].agent].reputation
    ensures forall j :: 0 <= j < k ==> rows[j].agent != rows[k].agent
  {
  }

  /** Nobody among the rows from the n-th to the i-th is the i-th's agent. */
  lemma InTail(rows: seq<SettlementRow>, n: nat, i: nat)
    requires n <= i < |rows| && forall j :: 0 <= j < i - n ==> rows[n..][j].agent != rows[n..][i - n].agent
    ensures rows[n..][i - n] == rows[i]
    ensures forall j :: n <= j < i ==> rows[j].agent != rows[i].agent
  {
    forall j | n <= j < i ensures rows[j].agent != rows[i].agent {
      assert rows[n..][j - n] == rows[j];
    }
  }

  /** A new row starts from the reputation of the ledger before. */
  ghost predicate StartsFrom(db: Db, after: Db, i: nat)
    requires |db.settlements| <= i < |after.settlements|
  {
    var row := after.settlements[i];
    && db.settlements <= after.settlements
    && row.agent in db.agents && row.before == db.agents[row.agent].reputation
    && forall j :: |db.settlements| <= j < i ==> after.settlements[j].agent != row.agent
  }

  lemma SettledRowBefore(db: Db, after: Db, h: Id, outcome: int, i: nat)
    requires h in db.hypotheses && ForecastsOk(db) && |db.settlements| <= i < |after.settlements|
    requires db.settlements <= after.settlements && RowsAppended(db, after.settlements[|db.settlements|..], h, outcome)
    ensures StartsFrom(db, after, i)
  {
    var n := |db.settlements|;
    AppendedRow(db, after.settlements[n..], h, outcome, i - n);
    InTail(after.settlements, n, i);
  }

  lemma NewRowBefore(db: Db, op: Op, i: nat)
    requires Consistent(db) && ApplyOp(db, op).Some?
    requires |db.settlements| <= i < |ApplyOp(db, op).value.settlements|
    ensures StartsFrom(db, ApplyOp(db, op).value, i)
  {
    RowsComeFromOutcomes(db, op);
    var recorded, body := RecordEvent(db, op.subject, op.envelope), op.envelope.body;
    RecordKeeps(db, op.subject, op.envelope);
    SettlementDecided(recorded, body.hypothesis, body.outcome);
    SettledRowBefore(recorded, ApplyOp(db, op).value, body.hypothesis, body.outcome, i);
  }

  lemma TrailSoFar(rows: seq<SettlementRow>, n: nat, i: nat, a: Id)
    requires n <= i <= |rows| && forall j :: n <= j < i ==> rows[j].agent != a
    ensures Improvements(rows[..i], a) == Improvements(rows[..n], a)
  {
    assert rows[..i] == rows[..n] + rows[n..i];
    TrailConcat(rows[..n], rows[n..i], a);
    TrailWithout(rows[n..i], a);
  }

  lemma OldRowTakesUp(log: seq<Op>, db: Db, op: Op, i: nat)
    requires Consistent(db) && ApplyOp(db, op).Some? && i < |db.settlements| && TakesUp(log, db, i)
    ensures i < |ApplyOp(db, op).value.settlements| && TakesUp(log + [op], ApplyOp(db, op).value, i)
  {
    var after, a := ApplyOp(db, op).value, db.settlements[i].agent;
    OpKeeps(db, op);
    assert after.settlements[i] == db.settlements[i] && after.settlements[..i] == db.settlements[..i];
    assert RowOk(db, db.settlements[i]);
    assert ForecastOk(db, (db.settlements[i].hypothesis, a));
    RegistrationKept(log, op, a);
  }

  lemma NewRowTakesUp(log: seq<Op>, db: Db, op: Op, i: nat)
    requires Consistent(db) && ApplyOp(db, op).Some?
    requires |db.settlements| <= i < |ApplyOp(db, op).value.settlements|
    requires forall a :: a in db.agents ==> Explained(log, db, a)
    ensures TakesUp(log + [op], ApplyOp(db, op).value, i)
  {
    var after, n := ApplyOp(db, op).value, |db.settlements|;
    NewRowBefore(db, op, i);
    var a := after.settlements[i].agent;
    RowsComeFromOutcomes(db, op);
    RegistrationKept(log, op, a);
    TrailSoFar(after.settlements, n, i, a);
    assert after.settlements[..n] == db.settlements && Explained(log, db, a);
  }

  /** The settlements table of a reachable ledger is an audit trail without
      gaps: each row starts from the reputation that the agent's registration
      and its earlier rows lead to. */
  lemma {:induction false} AuditTrail(log: seq<Op>, i: nat)
    requires Possible(log) && i < |Fold(log).value.settlements|
    ensures TakesUp(log, Fold(log).value, i)
  {
    var init, op := log[..|log| - 1], log[|log| - 1];
    var db := Fold(init).value;
    PrefixPossible(log);
    AlwaysConsistent(init);
    assert init + [op] == log;
    if i < |db.settlements| {
      AuditTrail(init, i);
      OldRowTakesUp(init, db, op, i);
    } else {
      forall a | a in db.agents ensures Explained(init, db, a) { AlwaysExplained(init, a); }
      NewRowTakesUp(init, db, op, i);
    }
  }

  // -------------------------------------------------- terms and registrations

  /** A hypothesis as its first registration described it. */
  function FirstTerms(log: seq<Op>, h: Id): Option<Hypothesis> {
    if log == [] then None
    else
      var n := |log| - 1;
      if FirstTerms(log[..n], h).Some? then FirstTerms(log[..n], h)
      else if log[n].RegisteredHypothesis? && log[n].hypothesis == h then Some(log[n].terms)
      else None
  }

  /** Everything about a hypothesis but its status. */
  predicate SameButStatus(terms: Hypothesis, other: Hypothesis) {
    && terms.prior == other.prior && terms.impact == other.impact && terms.urgency == other.urgency
    && terms.reviewCost == other.reviewCost && terms.deadline == other.deadline
  }

  ghost predicate TermsStay(db: Db, after: Db) {
    && after.hypotheses.Keys == db.hypotheses.Keys
    && forall h :: h in db.hypotheses ==> SameButStatus(after.hypotheses[h], db.hypotheses[h])
  }

  lemma SettlementKeepsTerms(db: Db, h: Id, outcome: int)
    requires Consistent(db) && SettleEffect(db, h, outcome).Some?
    ensures TermsStay(db, SettleEffect(db, h, outcome).value.0)
  {
    SettlementDecided(db, h, outcome);
  }

  lemma HandlersKeepTerms(db: Db, subject: Subject, body: Body)
    requires Consistent(db) && HandlerEffect(db, subject, body).Some?
    ensures TermsStay(db, HandlerEffect(db, subject, body).value)
  {
    match (subject, body) {
      case (ForecastsCreated, ForecastBody(h, a, p, s, c)) => ForecastDecided(db, h, a, p, s, c);
      case (OutcomesResolved, OutcomeBody(h, o)) => SettlementKeepsTerms(db, h, o);
      case _ =>
    }
  }

  /** No operation changes a registered hypothesis but for its status. */
  lemma TermsKept(db: Db, op: Op, h: Id)
    requires Consistent(db) && ApplyOp(db, op).Some?
    ensures var after := ApplyOp(db, op).value;
            && (h in db.hypotheses ==>
                  h in after.hypotheses && SameButStatus(after.hypotheses[h], db.hypotheses[h]))
            && (h !in db.hypotheses ==>
                  (h in after.hypotheses <==> op.RegisteredHypothesis? && op.hypothesis == h)
                  && (h in after.hypotheses ==>
                        SameButStatus(after.hypotheses[h], op.terms) && after.hypotheses[h].status == Open))
  {
    match op {
      case Applied(subject, envelope) =>
        RecordKeeps(db, subject, envelope);
        HandlersKeepTerms(RecordEvent(db, subject, envelope), subject, envelope.body);
      case ExpiredAt(now) => ExpiryDecided(db, now);
      case _ =>
    }
  }

  /** A reachable ledger has exactly the registered hypotheses, each on the
      terms - prior, impact, urgency, cost, deadline - it was first registered
      with: those its forecasts are settled and ranked by. */
  lemma {:induction false} TermsAreAsFirstRegistered(log: seq<Op>, h: Id)
    requires Possible(log)
    ensures h in Fold(log).value.hypotheses <==> FirstTerms(log, h).Some?
    ensures h in Fold(log).value.hypotheses ==>
              SameButStatus(Fold(log).value.hypotheses[h], FirstTerms(log, h).value)
  {
    if log != [] {
      PrefixPossible(log);
      AlwaysConsistent(log[..|log| - 1]);
      TermsAreAsFirstRegistered(log[..|log| - 1], h);
      TermsKept(Fold(log[..|log| - 1]).value, log[|log| - 1], h);
    }
  }
}
