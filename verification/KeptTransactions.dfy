/** A process that outlives a raised handler. `Protocol` takes every raise to end
    the process; here is what each handler leaves in the open transaction when
    it raises, and what a later commit of that makes of the ledger. */
module KeptTransactions {
  import opened Orders
  import opened Types
  import opened Scoring
  import opened Ledger
  import opened LedgerInvariants
  import opened LedgerHistory
  import opened ExactlyOnce

  // ----------------------------------------------------- when handlers raise

  /** The inputs a handler raises on. */
  predicate HandlerRaises(db: Db, subject: Subject, body: Body) {
    match (subject, body)
    case (SignalsRaw, _) => false
    case (ForecastsCreated, ForecastBody(h, a, _, stake, _)) => Accepted(db, h, a, stake) && ForecastRaises(db, h, a)
    case (OutcomesResolved, OutcomeBody(h, outcome)) =>
      h !in db.outcomes && (h !in db.hypotheses || (!IsOutcome(outcome) && Forecasters(db, h) != {}))
    case _ => true
  }

  lemma HandlerRaisesExactlyWhen(db: Db, subject: Subject, body: Body)
    requires Consistent(db)
    ensures HandlerEffect(db, subject, body) == None <==> HandlerRaises(db, subject, body)
  {
    match (subject, body) {
      case (ForecastsCreated, ForecastBody(h, a, p, s, c)) =>
        if Accepted(db, h, a, s) { ForecastEffectIs(db, h, a, p, s, c); }
      case (OutcomesResolved, OutcomeBody(h, o)) =>
        if h !in db.outcomes && h in db.hypotheses { SettleEffectIs(db, h, o); }
      case _ =>
    }
  }

  // ------------------------------------------- maintenance changes no raise

  /** What maintenance leaves of everything a raise depends on. */
  ghost predicate Calm(db: Db, after: Db) {
    && after.forecasts == db.forecasts && after.settlements == db.settlements && after.outcomes == db.outcomes
    && db.hypotheses.Keys <= after.hypotheses.Keys
    && (forall a :: a in db.agents ==> a in after.agents && after.agents[a].available >= db.agents[a].available)
  }

  lemma {:induction false} ExpiryIsCalm(db: Db, hs: seq<Id>)
    requires Consistent(db) && AllOpen(db, hs)
    ensures Calm(db, ExpireLoop(db, hs))
    decreases |hs|
  {
    if hs != [] {
      ExpireOneIs(db, hs[0]);
      ExpireOneKeeps(db, hs[0]);
      ExpireOneLeavesOpen(db, hs);
      forall a | a in IdListing(Forecasters(db, hs[0])) ensures db.forecasts[(hs[0], a)].stake >= 0 {
        assert ForecastOk(db, (hs[0], a));
      }
      ExpiryIsCalm(ExpireOne(db, hs[0]), hs[1..]);
    }
  }

  lemma MaintenanceIsCalm(db: Db, op: Op)
    requires Consistent(db) && !op.Applied? && ApplyOp(db, op).Some?
    ensures Calm(db, ApplyOp(db, op).value)
  {
    if op.ExpiredAt? {
      OverdueAreOpen(db, op.now);
      ExpiryIsCalm(db, IdListing(OverdueSet(db, op.now)));
    }
  }

  lemma {:induction false} StretchIsCalm(log: seq<Op>, more: seq<Op>)
    requires Possible(log) && Possible(log + more) && forall op :: op in more ==> !op.Applied?
    ensures Calm(Fold(log).value, Fold(log + more).value)
    decreases |more|
  {
    if more == [] {
      assert log + more == log;
    } else {
      var init, op := more[..|more| - 1], more[|more| - 1];
      assert log + more == (log + init) + [op];
      FoldSnoc(log + init, op);
      StretchIsCalm(log, init);
      AlwaysConsistent(log + init);
      MaintenanceIsCalm(Fold(log + init).value, op);
    }
  }

  /** What raises still raises after maintenance that registers no hypothesis. */
  lemma StillRaises(db: Db, after: Db, subject: Subject, e: Envelope)
    requires Calm(db, after) && after.hypotheses.Keys == db.hypotheses.Keys
    requires HandlerRaises(RecordEvent(db, subject, e), subject, e.body)
    ensures HandlerRaises(RecordEvent(after, subject, e), subject, e.body)
  {
    if subject == OutcomesResolved && e.body.OutcomeBody? {
      assert Forecasters(RecordEvent(after, subject, e), e.body.hypothesis)
             == Forecasters(RecordEvent(db, subject, e), e.body.hypothesis);
    }
  }

  // --------------------------------------------------------- the commit

  lemma LeftTables(db: Db, subject: Subject, body: Body)
    ensures HandlerLeft(db, subject, body).events == db.events
    ensures HandlerLeft(db, subject, body).hypotheses == db.hypotheses
  {
  }

  /** Where a log continued by `more` first applies something. */
  lemma {:induction false} FirstApplied(more: seq<Op>, i: nat) returns (first: nat)
    requires i < |more| && more[i].Applied?
    ensures first <= i && more[first].Applied? && forall op :: op in more[..first] ==> !op.Applied?
    decreases i
  {
    if j :| 0 <= j < i && more[j].Applied? {
      first := FirstApplied(more, j);
    } else {
      first := i;
    }
  }

  /** The one event a ledger has beyond the log's is the first thing its
      continuation applies. */
  lemma OnlyNewEvent(log: seq<Op>, db: Db, more: seq<Op>, open: Db, subject: Subject, e: Envelope)
    returns (first: nat)
    requires LogOk(log, db) && LogOk(log + more, open) && e.eventId !in db.events
    requires open.events == db.events[e.eventId := (subject, e)]
    ensures first < |more| && more[first] == Applied(subject, e)
    ensures forall op :: op in more[..first] ==> !op.Applied?
  {
    assert e.eventId in open.events;
    var i :| IsApplied(log + more, i, e.eventId);
    assert i >= |log| by {
      if i < |log| { assert IsApplied(log, i, e.eventId); }
    }
    first := FirstApplied(more, i - |log|);
    var id := more[first].envelope.eventId;
    assert IsApplied(log + more, |log| + first, id);
    if id in db.events {
      var k :| IsApplied(log, k, id);
      assert IsApplied(log + more, k, id);
    }
  }

  lemma KeptIsNoContinuation(log: seq<Op>, db: Db, more: seq<Op>, subject: Subject, e: Envelope)
    requires LogOk(log, db) && e.eventId !in db.events
    requires HandlerEffect(RecordEvent(db, subject, e), subject, e.body) == None
    ensures !LogOk(log + more, HandlerLeft(RecordEvent(db, subject, e), subject, e.body))
  {
    var open := HandlerLeft(RecordEvent(db, subject, e), subject, e.body);
    LeftTables(RecordEvent(db, subject, e), subject, e.body);
    AlwaysConsistent(log);
    RecordKeeps(db, subject, e);
    HandlerRaisesExactlyWhen(RecordEvent(db, subject, e), subject, e.body);
    if LogOk(log + more, open) {
      var first := OnlyNewEvent(log, db, more, open, subject, e);
      ReplayRaises(log, db, more, first, open, subject, e);
    }
  }

  /** Where a continuation first applies something, the ledger is as calm as if
      nothing had been maintained. */
  lemma FirstIsCalm(log: seq<Op>, more: seq<Op>, first: nat)
    requires Possible(log) && Possible(log + more) && first < |more|
    requires forall op :: op in more[..first] ==> !op.Applied?
    requires Fold(log + more).value.hypotheses.Keys <= Fold(log).value.hypotheses.Keys
    ensures Possible(log + more[..first])
    ensures var there := Fold(log + more[..first]).value;
            && Calm(Fold(log).value, there) && there.hypotheses.Keys == Fold(log).value.hypotheses.Keys
            && Consistent(there) && ApplyOp(there, more[first]).Some?
  {
    var whole, n := log + more, |log| + first;
    assert whole[..n] == log + more[..first] && whole[..n + 1] == whole[..n] + [more[first]];
    HypothesesStay(whole, n);
    HypothesesStay(whole, n + 1);
    FoldSnoc(whole[..n], more[first]);
    StretchIsCalm(log, more[..first]);
    AlwaysConsistent(whole[..n]);
  }

  /** Replaying the event where the continuation has it raises there too. */
  lemma ReplayRaises(log: seq<Op>, db: Db, more: seq<Op>, first: nat, open: Db, subject: Subject, e: Envelope)
    requires LogOk(log, db) && first < |more| && more[first] == Applied(subject, e)
    requires forall op :: op in more[..first] ==> !op.Applied?
    requires open.hypotheses == db.hypotheses && HandlerRaises(RecordEvent(db, subject, e), subject, e.body)
    ensures Fold(log + more) != Some(open)
  {
    if Fold(log + more) == Some(open) {
      FirstIsCalm(log, more, first);
      RaisesThere(db, Fold(log + more[..first]).value, subject, e);
    }
  }

  lemma {:induction false} HypothesesStay(log: seq<Op>, n: nat)
    requires Possible(log) && n <= |log|
    ensures Possible(log[..n]) && Fold(log[..n]).value.hypotheses.Keys <= Fold(log).value.hypotheses.Keys
  {
    HistoryIsFinal(log, n);
  }

  lemma RaisesThere(db: Db, there: Db, subject: Subject, e: Envelope)
    requires Calm(db, there) && there.hypotheses.Keys == db.hypotheses.Keys && Consistent(there)
    requires HandlerRaises(RecordEvent(db, subject, e), subject, e.body)
    ensures ApplyOp(there, Applied(subject, e)) == None
  {
    RecordKeeps(there, subject, e);
    StillRaises(db, there, subject, e);
    HandlerRaisesExactlyWhen(RecordEvent(there, subject, e), subject, e.body);
  }

  /** Event and effect become durable together exactly if a raise drops the
      transaction. Whatever the handler and whatever it raised on: if the
      process lives on and commits later, what it makes durable continues the
      log if and only if it rolled back first. Otherwise the event is durable
      without its effect, and its redelivery will pass for a duplicate. */
  lemma KeptTransactionLosesTheEffect(log: seq<Op>, db: Db, subject: Subject, e: Envelope, rolledBack: bool)
    requires LogOk(log, db) && e.eventId !in db.events
    requires HandlerEffect(RecordEvent(db, subject, e), subject, e.body) == None
    ensures var kept := HandlerLeft(RecordEvent(db, subject, e), subject, e.body);
            var durable := if rolledBack then db else kept;
            && e.eventId in kept.events
            && ((exists more :: LogOk(log + more, durable)) <==> rolledBack)
  {
    LeftTables(RecordEvent(db, subject, e), subject, e.body);
    if rolledBack {
      assert log + [] == log;
      assert LogOk(log + [], db);
    } else {
      forall more ensures !LogOk(log + more, HandlerLeft(RecordEvent(db, subject, e), subject, e.body)) {
        KeptIsNoContinuation(log, db, more, subject, e);
      }
    }
  }
}
