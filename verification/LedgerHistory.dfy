/** Every ledger reachable by any sequence of operations: nothing recorded is
    rewritten, no credit appears or disappears unexplained, no balance goes
    negative. */
module LedgerHistory {
  import opened Orders
  import opened Types
  import opened Scoring
  import opened Reputation
  import opened Ledger
  import opened LedgerInvariants
  import opened LedgerBalances
  import opened LedgerBacking

  predicate Possible(log: seq<Op>) { Fold(log).Some? }

  lemma PrefixPossible(log: seq<Op>)
    requires Possible(log) && log != []
    ensures Possible(log[..|log| - 1])
    ensures ApplyOp(Fold(log[..|log| - 1]).value, log[|log| - 1]) == Fold(log)
  {
  }

  /** Every reachable ledger is consistent: live references, at most one
      settlement per forecast, each settlement the exact replay of its inputs,
      an outcome exactly for the resolved hypotheses, no negative balance. */
  lemma {:induction false} AlwaysConsistent(log: seq<Op>)
    requires Possible(log)
    ensures Consistent(Fold(log).value)
  {
    if log != [] {
      PrefixPossible(log);
      AlwaysConsistent(log[..|log| - 1]);
      OpKeeps(Fold(log[..|log| - 1]).value, log[|log| - 1]);
    }
  }

  /** The first committed outcome and settlement decide for good: whatever is
      recorded after n operations is still recorded, unchanged, after all. */
  lemma {:induction false} HistoryIsFinal(log: seq<Op>, n: nat)
    requires Possible(log) && n <= |log|
    ensures Possible(log[..n]) && Extends(Fold(log[..n]).value, Fold(log).value)
    decreases |log|
  {
    if n == |log| {
      assert log[..n] == log;
    } else {
      var init := log[..|log| - 1];
      PrefixPossible(log);
      assert init[..n] == log[..n];
      HistoryIsFinal(init, n);
      AlwaysConsistent(init);
      OpKeeps(Fold(init).value, log[|log| - 1]);
      ExtendsTransitive(Fold(log[..n]).value, Fold(init).value, Fold(log).value);
    }
  }

  /** Agent a as its registration created it. */
  function Registration(log: seq<Op>, a: Id): Option<Agent> {
    if log == [] then None
    else
      match log[|log| - 1]
      case RegisteredAgent(b, reputation, grant) =>
        if b == a then Some(Agent(reputation, grant, 0)) else Registration(log[..|log| - 1], a)
      case _ => Registration(log[..|log| - 1], a)
  }

  /** Only a registration creates an agent. */
  lemma OnlyRegistrationAdds(db: Db, op: Op, a: Id)
    requires Consistent(db) && ApplyOp(db, op).Some? && a !in db.agents
    ensures a in ApplyOp(db, op).value.agents <==> op.RegisteredAgent? && op.agent == a
  {
    if op.Applied? {
      RecordKeeps(db, op.subject, op.envelope);
      HandlersAddNoAgent(RecordEvent(db, op.subject, op.envelope), op.subject, op.envelope.body);
    } else if op.ExpiredAt? {
      OverdueAreOpen(db, op.now);
      ExpiryAddsNoAgent(db, IdListing(OverdueSet(db, op.now)));
    }
  }

  lemma HandlersAddNoAgent(db: Db, subject: Subject, body: Body)
    requires Consistent(db) && HandlerEffect(db, subject, body).Some?
    ensures HandlerEffect(db, subject, body).value.agents.Keys == db.agents.Keys
  {
    match (subject, body) {
      case (ForecastsCreated, ForecastBody(h, a, p, s, c)) =>
        if Accepted(db, h, a, s) { ForecastEffectIs(db, h, a, p, s, c); }
      case (OutcomesResolved, OutcomeBody(h, o)) =>
        if h !in db.outcomes && h in db.hypotheses { SettleEffectIs(db, h, o); }
      case _ =>
    }
  }

  lemma {:induction false} ExpiryAddsNoAgent(db: Db, hs: seq<Id>)
    requires Consistent(db) && AllOpen(db, hs)
    ensures ExpireLoop(db, hs).agents.Keys == db.agents.Keys
    decreases |hs|
  {
    if hs != [] {
      ExpireOneIs(db, hs[0]);
      ExpireOneKeeps(db, hs[0]);
      ExpireOneLeavesOpen(db, hs);
      ExpiryAddsNoAgent(ExpireOne(db, hs[0]), hs[1..]);
    }
  }

  /** Agent a's balance and reputation are what the registration and the
      settlements table, replayed in order, say they are. */
  ghost predicate Explained(log: seq<Op>, db: Db, a: Id) {
    && a in db.agents
    && var r := Registration(log, a);
    (r.Some?
     && Wealth(db, a) == r.value.available + Deltas(db.settlements, a)
     && db.agents[a].reputation == AfterSettlements(r.value.reputation, Improvements(db.settlements, a)))
  }

  lemma RegistrationKept(log: seq<Op>, op: Op, a: Id)
    requires !(op.RegisteredAgent? && op.agent == a)
    ensures Registration(log + [op], a) == Registration(log, a)
  {
    assert (log + [op])[..|log + [op]| - 1] == log;
  }

  lemma ExplainedFurther(log: seq<Op>, longer: seq<Op>, db: Db, after: Db, a: Id)
    requires Explained(log, db, a) && Accounted(db, after, a)
    requires Registration(longer, a) == Registration(log, a)
    ensures Explained(longer, after, a)
  {
    var added := after.settlements[|db.settlements|..];
    assert after.settlements == db.settlements + added;
    TrailConcat(db.settlements, added, a);
    var r := Registration(log, a).value;
    SettlementsCompose(r.reputation, Improvements(db.settlements, a), Improvements(added, a));
  }

  lemma ExplainedStep(log: seq<Op>, db: Db, op: Op, a: Id)
    requires Consistent(db) && ApplyOp(db, op).Some? && a in db.agents && Explained(log, db, a)
    ensures Explained(log + [op], ApplyOp(db, op).value, a)
  {
    OpAccounted(db, op, a);
    RegistrationKept(log, op, a);
    ExplainedFurther(log, log + [op], db, ApplyOp(db, op).value, a);
  }

  lemma ExplainedAtBirth(log: seq<Op>, db: Db, op: Op)
    requires Consistent(db) && ApplyOp(db, op).Some? && op.RegisteredAgent? && op.agent !in db.agents
    ensures Explained(log + [op], ApplyOp(db, op).value, op.agent)
  {
    forall i | 0 <= i < |db.settlements| ensures db.settlements[i].agent != op.agent {
      assert RowOk(db, db.settlements[i]);
      assert ForecastOk(db, (db.settlements[i].hypothesis, db.settlements[i].agent));
    }
    TrailWithout(db.settlements, op.agent);
  }

  lemma {:induction false} AlwaysExplained(log: seq<Op>, a: Id)
    requires Possible(log) && a in Fold(log).value.agents
    ensures Explained(log, Fold(log).value, a)
  {
    var init, op := log[..|log| - 1], log[|log| - 1];
    var db := Fold(init).value;
    PrefixPossible(log);
    AlwaysConsistent(init);
    assert init + [op] == log;
    if a in db.agents {
      AlwaysExplained(init, a);
      ExplainedStep(init, db, op, a);
    } else {
      OnlyRegistrationAdds(db, op, a);
      ExplainedAtBirth(init, db, op);
    }
  }

  /** Conservation and the reputation trail, for every agent of every reachable
      ledger, expiry and late submissions included: available plus staked is
      the grant plus the recorded settlement deltas, reputation is the replay
      of the recorded improvements, and available credits are not negative. */
  lemma {:induction false} Conservation(log: seq<Op>, a: Id)
    requires Possible(log) && a in Fold(log).value.agents
    ensures Explained(log, Fold(log).value, a)
    ensures Fold(log).value.agents[a].available >= 0
  {
    AlwaysConsistent(log);
    AlwaysExplained(log, a);
  }

  /** Reputation stays within bounds from the first settlement on, and always
      for an agent registered within them. */
  lemma ReputationBounded(log: seq<Op>, a: Id)
    requires Possible(log) && a in Fold(log).value.agents
    ensures Registration(log, a).Some?
    ensures InRange(Registration(log, a).value.reputation) || Improvements(Fold(log).value.settlements, a) != [] ==>
              InRange(Fold(log).value.agents[a].reputation)
  {
    Conservation(log, a);
    StaysInRange(Registration(log, a).value.reputation, Improvements(Fold(log).value.settlements, a));
  }

  /** While no clamp binds, a reachable agent's reputation is its registered one
      plus 0.3 times the sum of its recorded improvements. */
  lemma ReputationIsLinearUnlessClamped(log: seq<Op>, a: Id)
    requires Possible(log) && a in Fold(log).value.agents && Registration(log, a).Some?
    requires NeverClamped(Registration(log, a).value.reputation, Improvements(Fold(log).value.settlements, a))
    ensures Fold(log).value.agents[a].reputation
              == Registration(log, a).value.reputation + 0.3 * SumOf(Improvements(Fold(log).value.settlements, a))
  {
    Conservation(log, a);
    LinearUnlessClamped(Registration(log, a).value.reputation, Improvements(Fold(log).value.settlements, a));
  }

  /** Every settlement row of a reachable ledger adds up: the improvement is the
      squared distance of the prior from the recorded outcome less that of the
      forecast. */
  lemma {:induction false} RowsAddUp(log: seq<Op>, i: nat)
    requires Possible(log) && i < |Fold(log).value.settlements|
    ensures var db := Fold(log).value;
            var row := db.settlements[i];
            && (row.hypothesis, row.agent) in db.forecasts && row.hypothesis in db.hypotheses
            && row.hypothesis in db.outcomes
            && row.score.brier == Square(db.forecasts[(row.hypothesis, row.agent)].probability
                                         - db.outcomes[row.hypothesis] as real)
            && row.score.priorBrier == Square(db.hypotheses[row.hypothesis].prior - db.outcomes[row.hypothesis] as real)
            && row.score.improvement == row.score.priorBrier - row.score.brier
  {
    AlwaysConsistent(log);
    var db := Fold(log).value;
    var row := db.settlements[i];
    assert RowOk(db, row);
    var f := db.forecasts[(row.hypothesis, row.agent)];
    SettleForecastYields(f.stake, db.hypotheses[row.hypothesis].prior, f.probability, db.outcomes[row.hypothesis]);
  }

  /** No operation of the log touched stakes that expiry had given back. */
  predicate Punctual(log: seq<Op>)
    requires Possible(log)
  {
    log == [] || (PrefixPossible(log);
                  Punctual(log[..|log| - 1]) && !TouchesExpired(Fold(log[..|log| - 1]).value, log[|log| - 1]))
  }

  /** In every run that sends nothing to an expired hypothesis, each agent's
      staked credits are exactly its live, unsettled, unexpired stakes. */
  lemma {:induction false} StakesAlwaysBacked(log: seq<Op>)
    requires Possible(log) && Punctual(log)
    ensures Backed(Fold(log).value)
    ensures forall a :: a in Fold(log).value.agents ==> Fold(log).value.agents[a].staked >= 0
  {
    AlwaysConsistent(log);
    if log != [] {
      PrefixPossible(log);
      StakesAlwaysBacked(log[..|log| - 1]);
      AlwaysConsistent(log[..|log| - 1]);
      BackingKeptExactlyWhen(Fold(log[..|log| - 1]).value, log[|log| - 1]);
    }
    forall a | a in Fold(log).value.agents ensures Fold(log).value.agents[a].staked >= 0 {
      BackedIsNonNegative(Fold(log).value, a);
    }
  }

  // ------------------------------------------------------- stakes too late

  /** Everything an operation adds to the settlements is for a hypothesis that
      had no outcome before. */
  ghost predicate SettlesOnlyNew(db: Db, after: Db) {
    forall i :: |db.settlements| <= i < |after.settlements| ==> after.settlements[i].hypothesis !in db.outcomes
  }

  lemma {:induction false} ExpiryKeepsSettlements(db: Db, hs: seq<Id>)
    requires Consistent(db) && AllOpen(db, hs)
    ensures ExpireLoop(db, hs).settlements == db.settlements
    decreases |hs|
  {
    if hs != [] {
      ExpireOneIs(db, hs[0]);
      ExpireOneKeeps(db, hs[0]);
      ExpireOneLeavesOpen(db, hs);
      ExpiryKeepsSettlements(ExpireOne(db, hs[0]), hs[1..]);
    }
  }

  lemma HandlersSettleOnlyNew(db: Db, subject: Subject, body: Body)
    requires Consistent(db) && HandlerEffect(db, subject, body).Some?
    ensures SettlesOnlyNew(db, HandlerEffect(db, subject, body).value)
  {
    match (subject, body) {
      case (ForecastsCreated, ForecastBody(h, a, p, s, c)) =>
        if Accepted(db, h, a, s) { ForecastEffectIs(db, h, a, p, s, c); }
      case (OutcomesResolved, OutcomeBody(h, o)) =>
        if h !in db.outcomes && h in db.hypotheses { SettleEffectIs(db, h, o); }
      case _ =>
    }
  }

  lemma OpSettlesOnlyNew(db: Db, op: Op)
    requires Consistent(db) && ApplyOp(db, op).Some?
    ensures SettlesOnlyNew(db, ApplyOp(db, op).value)
  {
    if op.Applied? {
      RecordKeeps(db, op.subject, op.envelope);
      HandlersSettleOnlyNew(RecordEvent(db, op.subject, op.envelope), op.subject, op.envelope.body);
    } else if op.ExpiredAt? {
      OverdueAreOpen(db, op.now);
      ExpiryKeepsSettlements(db, IdListing(OverdueSet(db, op.now)));
    }
  }

  /** A forecast that reaches a hypothesis after its outcome is never settled. */
  lemma StaysUnsettled(db: Db, op: Op, h: Id, a: Id)
    requires Consistent(db) && ApplyOp(db, op).Some? && h in db.outcomes && !Settled(db, h, a)
    ensures h in ApplyOp(db, op).value.outcomes && !Settled(ApplyOp(db, op).value, h, a)
  {
    var after := ApplyOp(db, op).value;
    OpKeeps(db, op);
    OpSettlesOnlyNew(db, op);
    forall i | 0 <= i < |after.settlements|
      ensures after.settlements[i].hypothesis != h || after.settlements[i].agent != a
    {
      if i < |db.settlements| { assert after.settlements[i] == db.settlements[i]; }
    }
  }

  /** A stake that reaches a hypothesis after its outcome is never released: no
      operation settles it or gives it back. */
  lemma LateStakeStaysLocked(db: Db, op: Op, h: Id, a: Id)
    requires Consistent(db) && ApplyOp(db, op).Some? && h in db.outcomes && IsLocked(db, h, a)
    ensures h in ApplyOp(db, op).value.outcomes && IsLocked(ApplyOp(db, op).value, h, a)
  {
    OpKeeps(db, op);
    StaysUnsettled(db, op, h, a);
  }

  // The worker applies an event only under an id that is not durable yet.

  predicate Deliverable(db: Db, op: Op) { op.Applied? ==> op.envelope.eventId !in db.events }

  /** The operations could follow one another in the worker. */
  ghost predicate DeliverableAll(db: Db, more: seq<Op>) {
    && (forall op :: op in more ==> Deliverable(db, op))
    && (forall i, j :: 0 <= i < j < |more| && more[i].Applied? && more[j].Applied? ==>
          more[i].envelope.eventId != more[j].envelope.eventId)
  }

  lemma {:induction false} UnusedId(used: set<Id>) returns (id: Id)
    ensures forall x :: x in used ==> |x| < |id|
    decreases |used|
  {
    if used == {} {
      id := "";
    } else {
      var x :| x in used;
      var longer := UnusedId(used - {x});
      id := longer + x + "+";
      forall y | y in used ensures |y| < |id| { assert y == x || y in used - {x}; }
    }
  }

  /** The resolution of h with outcome 1, under an id that is not durable. */
  lemma Resolving(db: Db, h: Id) returns (op: Op)
    ensures Deliverable(db, op) && op.Applied? && op.subject == OutcomesResolved
    ensures op.envelope.body == OutcomeBody(h, 1)
  {
    var id := UnusedId(db.events.Keys);
    op := Applied(OutcomesResolved, Envelope(id, OutcomeBody(h, 1)));
  }

  /** A resolution settles every unsettled forecast on its hypothesis and
      releases every lock. */
  lemma OutcomeSettles(db: Db, eventId: Id, h: Id, a: Id)
    requires Consistent(db) && h in db.hypotheses && h !in db.outcomes
    ensures var op := Applied(OutcomesResolved, Envelope(eventId, OutcomeBody(h, 1)));
            && ApplyOp(db, op).Some? && !IsLocked(ApplyOp(db, op).value, h, a)
            && ((h, a) in db.forecasts ==> Settled(ApplyOp(db, op).value, h, a))
  {
    var envelope := Envelope(eventId, OutcomeBody(h, 1));
    var recorded := RecordEvent(db, OutcomesResolved, envelope);
    RecordKeeps(db, OutcomesResolved, envelope);
    SettleEffectIs(recorded, h, 1);
    SettledReleases(recorded, h, 1);
    ListedForecasters(recorded, h);
    if (h, a) in db.forecasts { SettledNow(recorded, h, 1, a); }
    assert ApplyOp(db, Applied(OutcomesResolved, envelope)) == Some(SettledDb(recorded, h, 1));
  }

  /** A lock can be released by some operation if and only if its hypothesis
      has no outcome yet. */
  lemma LockReleasedExactlyWhen(db: Db, h: Id, a: Id)
    requires Consistent(db) && IsLocked(db, h, a)
    ensures (exists op :: Deliverable(db, op) && ApplyOp(db, op).Some? && !IsLocked(ApplyOp(db, op).value, h, a)) <==>
            h !in db.outcomes
  {
    if h in db.outcomes {
      forall op | ApplyOp(db, op).Some? ensures IsLocked(ApplyOp(db, op).value, h, a) {
        LateStakeStaysLocked(db, op, h, a);
      }
    } else {
      var op := Resolving(db, h);
      OutcomeSettles(db, op.envelope.eventId, h, a);
    }
  }

  lemma {:induction false} LateStakeForever(log: seq<Op>, more: seq<Op>, h: Id, a: Id)
    requires Possible(log) && h in Fold(log).value.outcomes && !Settled(Fold(log).value, h, a)
    requires Possible(log + more)
    ensures h in Fold(log + more).value.outcomes && !Settled(Fold(log + more).value, h, a)
    ensures IsLocked(Fold(log).value, h, a) ==> IsLocked(Fold(log + more).value, h, a)
    decreases |more|
  {
    if more == [] {
      assert log + more == log;
    } else {
      var init, op := more[..|more| - 1], more[|more| - 1];
      assert log + more == (log + init) + [op];
      FoldSnoc(log + init, op);
      LateStakeForever(log, init, h, a);
      AlwaysConsistent(log + init);
      StaysUnsettled(Fold(log + init).value, op, h, a);
      if IsLocked(Fold(log + init).value, h, a) { LateStakeStaysLocked(Fold(log + init).value, op, h, a); }
    }
  }

  /** Some continuation of the run that the worker could take. */
  ghost predicate Continues(log: seq<Op>, more: seq<Op>)
    requires Possible(log)
  {
    Possible(log + more) && DeliverableAll(Fold(log).value, more)
  }

  lemma ResolvingContinues(log: seq<Op>, h: Id, a: Id) returns (more: seq<Op>)
    requires Possible(log) && h in Fold(log).value.hypotheses && h !in Fold(log).value.outcomes
    ensures Continues(log, more) && !IsLocked(Fold(log + more).value, h, a)
    ensures (h, a) in Fold(log).value.forecasts ==> Settled(Fold(log + more).value, h, a)
  {
    var op := Resolving(Fold(log).value, h);
    AlwaysConsistent(log);
    OutcomeSettles(Fold(log).value, op.envelope.eventId, h, a);
    FoldSnoc(log, op);
    more := [op];
  }

  /** Over whole runs: some continuation releases a lock if and only if its
      hypothesis has no outcome yet. */
  lemma ReleasableExactlyWhen(log: seq<Op>, h: Id, a: Id)
    requires Possible(log) && IsLocked(Fold(log).value, h, a)
    ensures (exists more :: Continues(log, more) && !IsLocked(Fold(log + more).value, h, a)) <==>
            h !in Fold(log).value.outcomes
  {
    if h in Fold(log).value.outcomes {
      forall more | Continues(log, more) ensures IsLocked(Fold(log + more).value, h, a) {
        LateStakeForever(log, more, h, a);
      }
    } else {
      var more := ResolvingContinues(log, h, a);
    }
  }

  /** The same for settling at all, whatever the hypothesis's status - expired
      included: some continuation settles an unsettled forecast if and only if
      its hypothesis has no outcome yet. */
  lemma SettleableExactlyWhen(log: seq<Op>, h: Id, a: Id)
    requires Possible(log) && (h, a) in Fold(log).value.forecasts && !Settled(Fold(log).value, h, a)
    ensures (exists more :: Continues(log, more) && Settled(Fold(log + more).value, h, a)) <==>
            h !in Fold(log).value.outcomes
  {
    if h in Fold(log).value.outcomes {
      forall more | Continues(log, more) ensures !Settled(Fold(log + more).value, h, a) {
        LateStakeForever(log, more, h, a);
      }
    } else {
      AlwaysConsistent(log);
      assert ForecastOk(Fold(log).value, (h, a));
      var more := ResolvingContinues(log, h, a);
    }
  }

  // ---------------------------------------------------- terminal statuses

  /** An applied outcome for the hypothesis. */
  predicate Resolves(op: Op, h: Id) {
    op.Applied? && op.subject == OutcomesResolved && op.envelope.body.OutcomeBody? && op.envelope.body.hypothesis == h
  }

  lemma {:induction false} ExpiryTouchesOpen(db: Db, hs: seq<Id>, h: Id)
    requires Consistent(db) && AllOpen(db, hs) && h in db.hypotheses && h !in hs
    ensures h in ExpireLoop(db, hs).hypotheses && ExpireLoop(db, hs).hypotheses[h] == db.hypotheses[h]
    decreases |hs|
  {
    if hs != [] {
      ExpireOneIs(db, hs[0]);
      ExpireOneKeeps(db, hs[0]);
      ExpireOneLeavesOpen(db, hs);
      ExpiryTouchesOpen(ExpireOne(db, hs[0]), hs[1..], h);
    }
  }

  lemma HandlerStatus(db: Db, subject: Subject, body: Body, h: Id)
    requires Consistent(db) && HandlerEffect(db, subject, body).Some? && h in db.hypotheses
    ensures var after := HandlerEffect(db, subject, body).value;
            h in after.hypotheses
            && after.hypotheses[h].status
               == if subject == OutcomesResolved && body.OutcomeBody? && body.hypothesis == h then Resolved
                  else db.hypotheses[h].status
  {
    match (subject, body) {
      case (ForecastsCreated, ForecastBody(g, a, p, s, c)) =>
        if Accepted(db, g, a, s) { ForecastEffectIs(db, g, a, p, s, c); }
      case (OutcomesResolved, OutcomeBody(g, o)) =>
        if g !in db.outcomes && g in db.hypotheses { SettleEffectIs(db, g, o); }
      case _ =>
    }
  }

  /** Resolved is terminal. Expired, which should be too, is left exactly by an
      outcome for that hypothesis, and then for resolved. */
  lemma TerminalExactlyWhen(db: Db, op: Op, h: Id)
    requires Consistent(db) && ApplyOp(db, op).Some? && h in db.hypotheses && db.hypotheses[h].status != Open
    ensures h in ApplyOp(db, op).value.hypotheses
    ensures var before, after := db.hypotheses[h].status, ApplyOp(db, op).value.hypotheses[h].status;
            && (after != before <==> before == Expired && Resolves(op, h))
            && (after != before ==> after == Resolved)
  {
    if op.Applied? {
      RecordKeeps(db, op.subject, op.envelope);
      HandlerStatus(RecordEvent(db, op.subject, op.envelope), op.subject, op.envelope.body, h);
    } else if op.ExpiredAt? {
      OverdueAreOpen(db, op.now);
      ExpiryTouchesOpen(db, IdListing(OverdueSet(db, op.now)), h);
    }
  }

  // ------------------------------------------------------- primary keys

  lemma {:induction false} ExpiryKeepsForecasts(db: Db, hs: seq<Id>)
    requires Consistent(db) && AllOpen(db, hs)
    ensures ExpireLoop(db, hs).forecasts == db.forecasts
    decreases |hs|
  {
    if hs != [] {
      ExpireOneIs(db, hs[0]);
      ExpireOneKeeps(db, hs[0]);
      ExpireOneLeavesOpen(db, hs);
      ExpiryKeepsForecasts(ExpireOne(db, hs[0]), hs[1..]);
    }
  }

  lemma ForecastKeepsIds(db: Db, h: Id, a: Id, f: Forecast)
    requires DistinctForecastIds(db) && !IdTaken(db, h, a)
    ensures DistinctForecastIds(db.(forecasts := db.forecasts[(h, a) := f]))
  {
  }

  lemma HandlersKeepIds(db: Db, subject: Subject, body: Body)
    requires Consistent(db) && DistinctForecastIds(db) && HandlerEffect(db, subject, body).Some?
    ensures DistinctForecastIds(HandlerEffect(db, subject, body).value)
  {
    match (subject, body) {
      case (ForecastsCreated, ForecastBody(h, a, p, s, c)) =>
        if Accepted(db, h, a, s) {
          ForecastEffectIs(db, h, a, p, s, c);
          ForecastKeepsIds(db, h, a, Forecast(ClampProbability(p), s, c));
        }
      case (OutcomesResolved, OutcomeBody(h, o)) =>
        if h !in db.outcomes && h in db.hypotheses { SettleEffectIs(db, h, o); }
      case _ =>
    }
  }

  /** In every reachable ledger the joined ids tell the live forecasts apart. */
  lemma {:induction false} IdsStayDistinct(log: seq<Op>)
    requires Possible(log)
    ensures DistinctForecastIds(Fold(log).value)
  {
    if log != [] {
      var db, op := Fold(log[..|log| - 1]).value, log[|log| - 1];
      PrefixPossible(log);
      IdsStayDistinct(log[..|log| - 1]);
      AlwaysConsistent(log[..|log| - 1]);
      if op.Applied? {
        RecordKeeps(db, op.subject, op.envelope);
        HandlersKeepIds(RecordEvent(db, op.subject, op.envelope), op.subject, op.envelope.body);
      } else if op.ExpiredAt? {
        OverdueAreOpen(db, op.now);
        ExpiryKeepsForecasts(db, IdListing(OverdueSet(db, op.now)));
      }
    }
  }
}
