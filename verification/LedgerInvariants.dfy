/** What every operation keeps: references, unique and explained settlements,
    solvency. */
module LedgerInvariants {
  import opened Orders
  import opened Types
  import opened Scoring
  import opened Reputation
  import opened Ledger
  import opened LedgerFacts

  // ------------------------------------------------------------- invariants

  predicate ForecastOk(db: Db, k: (Id, Id))
    requires k in db.forecasts
  {
    var f := db.forecasts[k];
    && k.0 in db.hypotheses && k.1 in db.agents
    && STAKE_MIN <= f.stake <= STAKE_MAX
    && PROBABILITY_FLOOR <= f.probability <= PROBABILITY_CEIL
  }

  /** The row says exactly what replaying `settle_forecast` and
      `update_reputation` on the stored forecast, prior and outcome says. */
  predicate RowOk(db: Db, row: SettlementRow) {
    && (row.hypothesis, row.agent) in db.forecasts
    && row.hypothesis in db.hypotheses
    && row.hypothesis in db.outcomes
    && SettleForecast(db.forecasts[(row.hypothesis, row.agent)].stake, db.hypotheses[row.hypothesis].prior,
                      db.forecasts[(row.hypothesis, row.agent)].probability, db.outcomes[row.hypothesis])
       == Some(row.score)
    && row.after == UpdateReputation(row.before, row.score.brier, row.score.improvement)
  }

  ghost predicate UniqueRows(rows: seq<SettlementRow>) {
    forall i, j :: 0 <= i < j < |rows| ==> rows[i].hypothesis != rows[j].hypothesis || rows[i].agent != rows[j].agent
  }

  ghost predicate Consistent(db: Db) {
    && (forall k :: k in db.forecasts ==> ForecastOk(db, k))
    && (forall i :: 0 <= i < |db.settlements| ==> RowOk(db, db.settlements[i]))
    && UniqueRows(db.settlements)
    && (forall h :: h in db.outcomes ==> h in db.hypotheses)
    && (forall h :: h in db.hypotheses ==> (h in db.outcomes <==> db.hypotheses[h].status == Resolved))
    && (forall a :: a in db.agents ==> db.agents[a].available >= 0)
  }

  lemma SettledMeans(db: Db, h: Id, a: Id)
    requires Consistent(db) && Settled(db, h, a)
    ensures (h, a) in db.forecasts && h in db.outcomes
  {
    var i :| 0 <= i < |db.settlements| && db.settlements[i].hypothesis == h && db.settlements[i].agent == a;
    assert RowOk(db, db.settlements[i]);
  }

  // ------------------------------------------------- settling a hypothesis

  lemma SettlementPreparation(db: Db, h: Id, outcome: int)
    requires Consistent(db) && h in db.hypotheses && h !in db.outcomes
    ensures Settleable(db.(outcomes := db.outcomes[h := outcome]), h, IdListing(Forecasters(db, h)))
  {
    forall a | a in IdListing(Forecasters(db, h))
      ensures (h, a) in db.forecasts && a in db.agents && !Settled(db, h, a)
    {
      assert a in Forecasters(db, h);
      assert ForecastOk(db, (h, a));
    }
  }

  /** The ledger after outcome y of hypothesis h has been settled. */
  function SettledDb(db: Db, h: Id, outcome: int): Db
    requires IsOutcome(outcome) && h in db.hypotheses
    requires forall a :: a in IdListing(Forecasters(db, h)) ==> (h, a) in db.forecasts && a in db.agents
  {
    SetStatus(AfterAll(db.(outcomes := db.outcomes[h := outcome]), h, db.hypotheses[h].prior, outcome,
                       IdListing(Forecasters(db, h))), h, Resolved)
  }

  lemma ListedForecasters(db: Db, h: Id)
    requires forall k :: k in db.forecasts ==> ForecastOk(db, k)
    ensures forall a :: a in IdListing(Forecasters(db, h)) <==> (h, a) in db.forecasts
    ensures forall a :: a in IdListing(Forecasters(db, h)) ==> a in db.agents
  {
    forall a ensures a in IdListing(Forecasters(db, h)) <==> (h, a) in db.forecasts {
      assert (h, a) in db.forecasts ==> a in Forecasters(db, h);
    }
    forall a | (h, a) in db.forecasts ensures a in db.agents { assert ForecastOk(db, (h, a)); }
  }

  /** Settlement runs to the end on a valid outcome; on an invalid one it
      raises exactly when there is a forecast to score. */
  lemma SettleEffectIs(db: Db, h: Id, outcome: int)
    requires Consistent(db) && h in db.hypotheses && h !in db.outcomes
    ensures forall a :: a in IdListing(Forecasters(db, h)) ==> (h, a) in db.forecasts && a in db.agents
    ensures IsOutcome(outcome) ==> SettleEffect(db, h, outcome) == Some((SettledDb(db, h, outcome), true))
    ensures !IsOutcome(outcome) ==>
              SettleEffect(db, h, outcome)
                == if Forecasters(db, h) == {}
                   then Some((SetStatus(db.(outcomes := db.outcomes[h := outcome]), h, Resolved), true)) else None
  {
    ListedForecasters(db, h);
    var recorded, listed := db.(outcomes := db.outcomes[h := outcome]), IdListing(Forecasters(db, h));
    SettlementPreparation(db, h, outcome);
    assert Forecasters(recorded, h) == Forecasters(db, h);
    if IsOutcome(outcome) {
      SettleLoopIs(recorded, h, db.hypotheses[h].prior, outcome, listed);
    } else if listed != [] {
      SettleForecastYields(db.forecasts[(h, listed[0])].stake, db.hypotheses[h].prior,
                           db.forecasts[(h, listed[0])].probability, outcome);
      assert listed[0] in Forecasters(db, h);
      assert SettleOne(recorded, h, db.hypotheses[h].prior, outcome, listed[0]) == None;
    } else {
      assert Forecasters(db, h) == {} by { forall a ensures a !in Forecasters(db, h) { assert a !in listed; } }
    }
  }

  // ------------------------------------------------------------ preservation

  /** Nothing recorded is ever rewritten: outcomes and settlement rows are
      final, and so is every forecast a settlement refers to. */
  ghost predicate Extends(before: Db, after: Db) {
    && before.events.Keys <= after.events.Keys
    && before.agents.Keys <= after.agents.Keys
    && before.hypotheses.Keys <= after.hypotheses.Keys
    && (forall h :: h in before.outcomes ==> h in after.outcomes && after.outcomes[h] == before.outcomes[h])
    && before.settlements <= after.settlements
    && (forall k :: k in before.forecasts ==> k in after.forecasts)
    && (forall k :: k in before.forecasts && Settled(before, k.0, k.1) ==> after.forecasts[k] == before.forecasts[k])
  }

  /** What makes the handler raise on an accepted forecast. */
  predicate ForecastRaises(db: Db, h: Id, a: Id) {
    h !in db.hypotheses || IdTaken(db, h, a)
    || ((h, a) in db.forecasts && (Settled(db, h, a) || Unsplittable(ForecastId(h, a))))
  }

  /** An accepted forecast, in closed form. */
  lemma ForecastEffectIs(db: Db, h: Id, a: Id, probability: real, stake: int, cluster: Id)
    requires Accepted(db, h, a, stake)
    ensures var moved := stake - LockedHere(db, h, a);
            var f := Forecast(ClampProbability(probability), stake, cluster);
            ForecastEffect(db, h, a, probability, stake, cluster)
              == if ForecastRaises(db, h, a) then None
                 else Some(db.(clusters := db.clusters + {cluster},
                               forecasts := db.forecasts[(h, a) := f],
                               agents := db.agents[a := Credited(db.agents[a], -moved, moved)]))
  {
    var previous := LockedHere(db, h, a);
    var clustered := db.(clusters := db.clusters + {cluster});
    assert IdTaken(clustered, h, a) == IdTaken(db, h, a);
    if !ForecastRaises(db, h, a) {
      var upserted := UpsertForecast(clustered, h, a, Forecast(ClampProbability(probability), stake, cluster)).value;
      var freed := if (h, a) in db.forecasts then AdjustCredits(upserted, a, previous, -previous) else upserted;
      assert AdjustCredits(freed, a, -stake, stake).agents
             == db.agents[a := Credited(db.agents[a], previous - stake, stake - previous)];
    }
  }

  lemma ForecastKeeps(db: Db, h: Id, a: Id, probability: real, stake: int, cluster: Id)
    requires Consistent(db) && ForecastEffect(db, h, a, probability, stake, cluster).Some?
    ensures Consistent(ForecastEffect(db, h, a, probability, stake, cluster).value)
    ensures Extends(db, ForecastEffect(db, h, a, probability, stake, cluster).value)
  {
    var after := ForecastEffect(db, h, a, probability, stake, cluster).value;
    if Accepted(db, h, a, stake) {
      ForecastEffectIs(db, h, a, probability, stake, cluster);
      forall k | k in after.forecasts ensures ForecastOk(after, k) { assert k in db.forecasts ==> ForecastOk(db, k); }
      forall i | 0 <= i < |after.settlements| ensures RowOk(after, after.settlements[i]) {
        assert RowOk(db, db.settlements[i]);
        assert Settled(db, db.settlements[i].hypothesis, db.settlements[i].agent);
      }
    } else {
      forall k | k in after.forecasts ensures ForecastOk(after, k) { assert ForecastOk(db, k); }
      forall i | 0 <= i < |after.settlements| ensures RowOk(after, after.settlements[i]) {
        assert RowOk(db, db.settlements[i]);
      }
    }
  }

  /** No two live forecasts have the same primary key. */
  ghost predicate DistinctForecastIds(db: Db) {
    forall j, k :: j in db.forecasts && k in db.forecasts && ForecastId(j.0, j.1) == ForecastId(k.0, k.1) ==> j == k
  }

  /** Replacing an unsettled forecast at the same stake is never refused for
      lack of credits and moves none - but it raises exactly when an id holds a
      colon. */
  lemma SameStakeResubmission(db: Db, h: Id, a: Id, probability: real, cluster: Id)
    requires Consistent(db) && DistinctForecastIds(db) && (h, a) in db.forecasts && !Settled(db, h, a)
    ensures var stake := db.forecasts[(h, a)].stake;
            var f := Forecast(ClampProbability(probability), stake, cluster);
            ForecastEffect(db, h, a, probability, stake, cluster)
              == if ':' in h || ':' in a then None
                 else Some(db.(clusters := db.clusters + {cluster}, forecasts := db.forecasts[(h, a) := f]))
  {
    var stake := db.forecasts[(h, a)].stake;
    assert ForecastOk(db, (h, a));
    ForecastEffectIs(db, h, a, probability, stake, cluster);
    ColonInId(h, a);
    assert db.agents[a := Credited(db.agents[a], 0, 0)] == db.agents;
  }

  lemma ColonInId(h: Id, a: Id)
    ensures Unsplittable(ForecastId(h, a)) <==> ':' in h || ':' in a
  {
    assert ':' !in "forecast-" && ':' !in "-";
  }

  lemma DeltaAtLeastMinusStake(db: Db, h: Id, prior: real, outcome: int, a: Id)
    requires IsOutcome(outcome) && (h, a) in db.forecasts && a in db.agents
    ensures Score(db, h, prior, outcome, a).creditDelta >= -db.forecasts[(h, a)].stake
  {
    SettleForecastYields(db.forecasts[(h, a)].stake, prior, db.forecasts[(h, a)].probability, outcome);
  }

  lemma NewRowOk(db: Db, h: Id, outcome: int, a: Id)
    requires h in db.hypotheses && IsOutcome(outcome) && (h, a) in db.forecasts && a in db.agents
    requires forall b :: b in IdListing(Forecasters(db, h)) ==> (h, b) in db.forecasts && b in db.agents
    ensures RowOk(SettledDb(db, h, outcome),
                  RowOf(db.(outcomes := db.outcomes[h := outcome]), h, db.hypotheses[h].prior, outcome, a))
  {
    var f := db.forecasts[(h, a)];
    SettleForecastYields(f.stake, db.hypotheses[h].prior, f.probability, outcome);
  }

  lemma OldRowOk(db: Db, h: Id, outcome: int, row: SettlementRow)
    requires RowOk(db, row) && h in db.hypotheses && h !in db.outcomes && IsOutcome(outcome)
    requires forall a :: a in IdListing(Forecasters(db, h)) ==> (h, a) in db.forecasts && a in db.agents
    ensures RowOk(SettledDb(db, h, outcome), row) && row.hypothesis != h
  {
  }

  lemma OldRowsOk(db: Db, h: Id, outcome: int)
    requires Consistent(db) && h in db.hypotheses && h !in db.outcomes && IsOutcome(outcome)
    requires forall a :: a in IdListing(Forecasters(db, h)) ==> (h, a) in db.forecasts && a in db.agents
    ensures forall row :: row in db.settlements ==> RowOk(SettledDb(db, h, outcome), row) && row.hypothesis != h
  {
    forall row | row in db.settlements ensures RowOk(SettledDb(db, h, outcome), row) && row.hypothesis != h {
      var i :| 0 <= i < |db.settlements| && db.settlements[i] == row;
      assert RowOk(db, db.settlements[i]);
      OldRowOk(db, h, outcome, row);
    }
  }

  lemma AllRowsOk(after: Db, earlier: seq<SettlementRow>, rows: seq<SettlementRow>)
    requires after.settlements == earlier + rows
    requires (forall row :: row in earlier ==> RowOk(after, row)) && (forall row :: row in rows ==> RowOk(after, row))
    ensures forall i :: 0 <= i < |after.settlements| ==> RowOk(after, after.settlements[i])
  {
    forall i | 0 <= i < |after.settlements| ensures RowOk(after, after.settlements[i]) {
      assert after.settlements[i] in earlier || after.settlements[i] in rows;
    }
  }

  lemma SettledRowsOk(db: Db, h: Id, outcome: int)
    requires Consistent(db) && h in db.hypotheses && h !in db.outcomes && IsOutcome(outcome)
    requires forall a :: a in IdListing(Forecasters(db, h)) ==> (h, a) in db.forecasts && a in db.agents
    ensures forall i :: 0 <= i < |SettledDb(db, h, outcome).settlements| ==>
              RowOk(SettledDb(db, h, outcome), SettledDb(db, h, outcome).settlements[i])
    ensures UniqueRows(SettledDb(db, h, outcome).settlements)
  {
    var after, listed := SettledDb(db, h, outcome), IdListing(Forecasters(db, h));
    var rows := RowsOf(db.(outcomes := db.outcomes[h := outcome]), h, db.hypotheses[h].prior, outcome, listed);
    OldRowsOk(db, h, outcome);
    forall row | row in rows ensures RowOk(after, row) {
      var i :| 0 <= i < |rows| && rows[i] == row;
      NewRowOk(db, h, outcome, listed[i]);
    }
    AllRowsOk(after, db.settlements, rows);
    AppendedUnique(db.settlements, rows, h);
  }

  lemma AppendedUnique(earlier: seq<SettlementRow>, rows: seq<SettlementRow>, h: Id)
    requires UniqueRows(earlier) && forall i :: 0 <= i < |earlier| ==> earlier[i].hypothesis != h
    requires forall i :: 0 <= i < |rows| ==> rows[i].hypothesis == h
    requires forall i, j :: 0 <= i < j < |rows| ==> rows[i].agent != rows[j].agent
    ensures UniqueRows(earlier + rows)
  {
  }

  lemma SettledKeeps(db: Db, h: Id, outcome: int)
    requires Consistent(db) && h in db.hypotheses && h !in db.outcomes && IsOutcome(outcome)
    requires forall a :: a in IdListing(Forecasters(db, h)) ==> (h, a) in db.forecasts && a in db.agents
    ensures Consistent(SettledDb(db, h, outcome)) && Extends(db, SettledDb(db, h, outcome))
  {
    var after := SettledDb(db, h, outcome);
    var recorded := db.(outcomes := db.outcomes[h := outcome]);
    SettledRowsOk(db, h, outcome);
    forall k | k in after.forecasts ensures ForecastOk(after, k) { assert ForecastOk(db, k); }
    forall a | a in after.agents ensures after.agents[a].available >= 0 {
      if a in IdListing(Forecasters(db, h)) {
        DeltaAtLeastMinusStake(recorded, h, db.hypotheses[h].prior, outcome, a);
      }
    }
  }

  lemma SettleKeeps(db: Db, h: Id, outcome: int)
    requires Consistent(db) && SettleEffect(db, h, outcome).Some?
    ensures Consistent(SettleEffect(db, h, outcome).value.0) && Extends(db, SettleEffect(db, h, outcome).value.0)
  {
    if h !in db.outcomes {
      SettleEffectIs(db, h, outcome);
      if IsOutcome(outcome) {
        SettledKeeps(db, h, outcome);
      } else {
        var after := SettleEffect(db, h, outcome).value.0;
        forall k | k in after.forecasts ensures ForecastOk(after, k) { assert ForecastOk(db, k); }
        forall i | 0 <= i < |after.settlements| ensures RowOk(after, after.settlements[i]) {
          assert RowOk(db, db.settlements[i]);
        }
      }
    }
  }

  /** Expiring a hypothesis, in closed form. */
  function ExpiredDb(db: Db, h: Id): Db
    requires forall a :: a in IdListing(Forecasters(db, h)) ==> (h, a) in db.forecasts
  {
    SetStatus(db.(agents := ReleasedAgents(db, h, IdListing(Forecasters(db, h)))), h, Expired)
  }

  lemma ExpireOneIs(db: Db, h: Id)
    requires forall k :: k in db.forecasts ==> ForecastOk(db, k)
    ensures forall a :: a in IdListing(Forecasters(db, h)) ==> (h, a) in db.forecasts
    ensures ExpireOne(db, h) == ExpiredDb(db, h)
  {
    ListedForecasters(db, h);
    ReleaseLoopIs(db, h, IdListing(Forecasters(db, h)));
  }

  lemma ExpireOneKeeps(db: Db, h: Id)
    requires Consistent(db) && h in db.hypotheses && db.hypotheses[h].status == Open
    ensures Consistent(ExpireOne(db, h)) && Extends(db, ExpireOne(db, h))
  {
    var after := ExpireOne(db, h);
    ExpireOneIs(db, h);
    forall k | k in after.forecasts ensures ForecastOk(after, k) { assert ForecastOk(db, k); }
    forall i | 0 <= i < |after.settlements| ensures RowOk(after, after.settlements[i]) {
      assert RowOk(db, db.settlements[i]);
    }
    forall a | a in after.agents ensures after.agents[a].available >= 0 {
      if a in IdListing(Forecasters(db, h)) { assert ForecastOk(db, (h, a)); }
    }
  }

  ghost predicate AllOpen(db: Db, hs: seq<Id>) {
    Distinct(hs) && forall h :: h in hs ==> h in db.hypotheses && db.hypotheses[h].status == Open
  }

  lemma ExpireOneLeavesOpen(db: Db, hs: seq<Id>)
    requires forall k :: k in db.forecasts ==> ForecastOk(db, k)
    requires hs != [] && AllOpen(db, hs)
    ensures AllOpen(ExpireOne(db, hs[0]), hs[1..])
  {
    ExpireOneIs(db, hs[0]);
  }

  lemma ExtendsTransitive(x: Db, y: Db, z: Db)
    requires Extends(x, y) && Extends(y, z)
    ensures Extends(x, z)
  {
    forall k | k in x.forecasts && Settled(x, k.0, k.1) ensures z.forecasts[k] == x.forecasts[k] {
      var i :| 0 <= i < |x.settlements| && x.settlements[i].hypothesis == k.0 && x.settlements[i].agent == k.1;
      assert y.settlements[i] == x.settlements[i];
      assert Settled(y, k.0, k.1);
    }
  }

  lemma {:induction false} ExpireLoopKeeps(db: Db, hs: seq<Id>)
    requires Consistent(db) && AllOpen(db, hs)
    ensures Consistent(ExpireLoop(db, hs)) && Extends(db, ExpireLoop(db, hs))
    decreases |hs|
  {
    if hs != [] {
      ExpireOneKeeps(db, hs[0]);
      ExpireOneLeavesOpen(db, hs);
      ExpireLoopKeeps(ExpireOne(db, hs[0]), hs[1..]);
      ExtendsTransitive(db, ExpireOne(db, hs[0]), ExpireLoop(db, hs));
    }
  }

  lemma OverdueAreOpen(db: Db, now: int)
    ensures AllOpen(db, IdListing(OverdueSet(db, now)))
  {
    forall h | h in IdListing(OverdueSet(db, now)) ensures h in db.hypotheses && db.hypotheses[h].status == Open {
      assert h in OverdueSet(db, now);
    }
  }

  lemma RecordKeeps(db: Db, subject: Subject, envelope: Envelope)
    requires Consistent(db)
    ensures Consistent(RecordEvent(db, subject, envelope)) && Extends(db, RecordEvent(db, subject, envelope))
  {
    var after := RecordEvent(db, subject, envelope);
    forall k | k in after.forecasts ensures ForecastOk(after, k) { assert ForecastOk(db, k); }
    forall i | 0 <= i < |after.settlements| ensures RowOk(after, after.settlements[i]) {
      assert RowOk(db, db.settlements[i]);
    }
  }

  /** Every operation keeps the ledger consistent and rewrites no history. */
  lemma OpKeeps(db: Db, op: Op)
    requires Consistent(db) && ApplyOp(db, op).Some?
    ensures Consistent(ApplyOp(db, op).value) && Extends(db, ApplyOp(db, op).value)
  {
    var after := ApplyOp(db, op).value;
    match op {
      case Applied(subject, envelope) =>
        var recorded := RecordEvent(db, subject, envelope);
        RecordKeeps(db, subject, envelope);
        match (subject, envelope.body) {
          case (ForecastsCreated, ForecastBody(h, a, p, s, c)) => ForecastKeeps(recorded, h, a, p, s, c);
          case (OutcomesResolved, OutcomeBody(h, o)) => SettleKeeps(recorded, h, o);
          case _ =>
        }
        if after != recorded { ExtendsTransitive(db, recorded, after); }
      case ExpiredAt(now) =>
        OverdueAreOpen(db, now);
        ExpireLoopKeeps(db, IdListing(OverdueSet(db, now)));
      case RegisteredAgent(_, _, _) => RegistrationKeeps(db, after);
      case RegisteredHypothesis(h, _) => if h !in db.hypotheses { RegistrationKeeps(db, after); }
    }
  }

  lemma RegistrationKeeps(db: Db, after: Db)
    requires Consistent(db) && after == db.(agents := after.agents, hypotheses := after.hypotheses)
    requires forall a :: a in db.agents ==> a in after.agents && after.agents[a] == db.agents[a]
    requires forall a :: a in after.agents && a !in db.agents ==> after.agents[a].available >= 0
    requires forall h :: h in db.hypotheses ==> h in after.hypotheses && after.hypotheses[h] == db.hypotheses[h]
    requires forall h :: h in after.hypotheses && h !in db.hypotheses ==> after.hypotheses[h].status == Open
    ensures Consistent(after) && Extends(db, after)
  {
    forall k | k in after.forecasts ensures ForecastOk(after, k) { assert ForecastOk(db, k); }
    forall i | 0 <= i < |after.settlements| ensures RowOk(after, after.settlements[i]) {
      assert RowOk(db, db.settlements[i]);
    }
  }
}
