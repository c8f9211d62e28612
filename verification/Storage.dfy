/** The repository (src/stakeroute/storage/repository.py): every method is one
    statement against the tables inside the open transaction. */
module Storage {
  import opened Orders
  import opened Types
  import opened Ledger

  /** A forecast row joined with its key's agent. */
  datatype ForecastRow = ForecastRow(agent: Id, forecast: Forecast)

  function RowsFor(db: Db, h: Id, agents: seq<Id>): seq<ForecastRow>
    requires forall a :: a in agents ==> (h, a) in db.forecasts
  {
    seq(|agents|, i requires 0 <= i < |agents| => ForecastRow(agents[i], db.forecasts[(h, agents[i])]))
  }

  /** The open hypotheses with an earlier deadline, each once, in id order. */
  ghost predicate ListsOverdue(db: Db, now: int, hs: seq<Id>) {
    && Distinct(hs) && SortedBy(LexLe, hs)
    && forall h :: h in hs <==>
                   h in db.hypotheses && db.hypotheses[h].status == Open && db.hypotheses[h].deadline < now
  }

  class Repository {
    var committed: Db
    var working: Db

    constructor ()
      ensures committed == EMPTY && working == EMPTY
    {
      committed, working := EMPTY, EMPTY;
    }

    // ---------------------------------------------------------- transaction

    method Commit()
      modifies this
      ensures working == old(working) && committed == old(working)
    {
      committed := working;
    }

    /** Also what is left after the process dies. */
    method Rollback()
      modifies this
      ensures committed == old(committed) && working == old(committed)
    {
      working := committed;
    }

    // --------------------------------------------------------------- events

    /** ON CONFLICT (event_id) DO NOTHING. */
    method InsertEvent(subject: Subject, envelope: Envelope) returns (isNew: bool)
      modifies `working
      ensures isNew == (envelope.eventId !in old(working).events)
      ensures working == if isNew then RecordEvent(old(working), subject, envelope) else old(working)
    {
      isNew := envelope.eventId !in working.events;
      if isNew {
        working := working.(events := working.events[envelope.eventId := (subject, envelope)]);
      }
    }

    // --------------------------------------------------------------- agents

    method GetAgent(a: Id) returns (row: Option<Agent>)
      ensures row == if a in working.agents then Some(working.agents[a]) else None
    {
      row := None;
      if a in working.agents { row := Some(working.agents[a]); }
    }

    method AdjustAgentCredits(a: Id, availableDelta: int, stakedDelta: int)
      modifies `working
      ensures working == AdjustCredits(old(working), a, availableDelta, stakedDelta)
    {
      if a in working.agents {
        var row := working.agents[a];
        row := row.(available := row.available + availableDelta);
        row := row.(staked := row.staked + stakedDelta);
        working := working.(agents := working.agents[a := row]);
      }
    }

    method SetAgentReputation(a: Id, reputation: real)
      modifies `working
      ensures working == SetReputation(old(working), a, reputation)
    {
      if a in working.agents {
        working := working.(agents := working.agents[a := working.agents[a].(reputation := reputation)]);
      }
    }

    // ----------------------------------------------- clusters and hypotheses

    method EnsureEvidenceCluster(c: Id)
      modifies `working
      ensures working == old(working).(clusters := old(working).clusters + {c})
    {
      if c !in working.clusters {
        working := working.(clusters := working.clusters + {c});
      }
      assert c in old(working).clusters ==> old(working).clusters + {c} == old(working).clusters;
    }

    method GetHypothesis(h: Id) returns (row: Option<Hypothesis>)
      ensures row == if h in working.hypotheses then Some(working.hypotheses[h]) else None
    {
      row := None;
      if h in working.hypotheses { row := Some(working.hypotheses[h]); }
    }

    method SetHypothesisStatus(h: Id, status: Status)
      modifies `working
      ensures working == SetStatus(old(working), h, status)
    {
      if h in working.hypotheses {
        working := working.(hypotheses := working.hypotheses[h := working.hypotheses[h].(status := status)]);
      }
    }

    /** ORDER BY id. */
    method ListExpiredHypotheses(now: int) returns (hs: seq<Id>)
      ensures hs == IdListing(OverdueSet(working, now))
      ensures ListsOverdue(working, now, hs)
    {
      hs := IdListing(set h | h in working.hypotheses && working.hypotheses[h].status == Open
                              && working.hypotheses[h].deadline < now);
      assert (set h | h in working.hypotheses && working.hypotheses[h].status == Open
                      && working.hypotheses[h].deadline < now) == OverdueSet(working, now);
    }

    // ------------------------------------------------------------ forecasts

    method GetLiveForecast(h: Id, a: Id) returns (row: Option<Forecast>)
      ensures row == if (h, a) in working.forecasts then Some(working.forecasts[(h, a)]) else None
    {
      row := None;
      if (h, a) in working.forecasts { row := Some(working.forecasts[(h, a)]); }
    }

    /** Delete the live row, insert the new one, and report the id and stake
        that were replaced. Either statement can violate a constraint. */
    method UpsertForecastRow(h: Id, a: Id, f: Forecast) returns (ok: bool, previous: Option<(Id, int)>)
      modifies `working
      ensures ok == UpsertForecast(old(working), h, a, f).Some?
      ensures working == if ok then UpsertForecast(old(working), h, a, f).value else UpsertLeft(old(working), h, a)
      ensures ok ==> previous == if (h, a) !in old(working).forecasts then None
                                 else Some((ForecastId(h, a), old(working).forecasts[(h, a)].stake))
    {
      var existing := GetLiveForecast(h, a);
      previous := None;
      if existing.Some? {
        if Settled(working, h, a) { return false, None; }
        working := working.(forecasts := working.forecasts - {(h, a)});
        previous := Some((ForecastId(h, a), existing.value.stake));
      }
      assert IdTaken(working, h, a) == IdTaken(old(working), h, a);
      if IdTaken(working, h, a) { return false, None; }
      if h !in working.hypotheses || a !in working.agents || f.cluster !in working.clusters { return false, None; }
      working := working.(forecasts := working.forecasts[(h, a) := f]);
      assert working.forecasts == old(working).forecasts[(h, a) := f];
      ok := true;
    }

    method ListForecasts(h: Id) returns (rows: seq<ForecastRow>)
      ensures forall a :: a in IdListing(Forecasters(working, h)) ==> (h, a) in working.forecasts
      ensures rows == RowsFor(working, h, IdListing(Forecasters(working, h)))
    {
      var agents := IdListing(Forecasters(working, h));
      forall a | a in agents ensures (h, a) in working.forecasts { assert a in Forecasters(working, h); }
      rows := [];
      for i := 0 to |agents|
        invariant |rows| == i
        invariant forall j :: 0 <= j < i ==> rows[j] == ForecastRow(agents[j], working.forecasts[(h, agents[j])])
      {
        rows := rows + [ForecastRow(agents[i], working.forecasts[(h, agents[i])])];
      }
    }

    method InsertRejectedForecast(h: Id, a: Id, stake: int, probability: real)
      modifies `working
      ensures working == old(working).(rejected := old(working).rejected + [Rejection(h, a, stake, probability)])
    {
      working := working.(rejected := working.rejected + [Rejection(h, a, stake, probability)]);
    }

    // ------------------------------------------------ outcomes, settlements

    /** ON CONFLICT (hypothesis_id) DO NOTHING; None is the foreign key
        violation of an unknown hypothesis. */
    method InsertOutcome(h: Id, outcome: int) returns (isNew: Option<bool>)
      modifies `working
      ensures isNew == if h in old(working).outcomes then Some(false)
                       else if h in old(working).hypotheses then Some(true) else None
      ensures working == if isNew == Some(true) then old(working).(outcomes := old(working).outcomes[h := outcome])
                         else old(working)
    {
      if h in working.outcomes { return Some(false); }
      if h !in working.hypotheses { return None; }
      working := working.(outcomes := working.outcomes[h := outcome]);
      isNew := Some(true);
    }

    /** ON CONFLICT (forecast_id) DO NOTHING. */
    method InsertSettlement(row: SettlementRow) returns (inserted: bool)
      modifies `working
      ensures inserted == !Settled(old(working), row.hypothesis, row.agent)
      ensures working == if !inserted then old(working)
                         else old(working).(settlements := old(working).settlements + [row])
    {
      inserted := !Settled(working, row.hypothesis, row.agent);
      if inserted {
        working := working.(settlements := working.settlements + [row]);
      }
    }
  }
}
