/** Stake backing: an agent's staked credits are the stakes of its live
    forecasts that are neither settled nor released by expiry. The handlers
    never look at a hypothesis's status, so this holds exactly as long as no
    forecast and no outcome arrives for an expired hypothesis. */
module LedgerBacking {
  import opened Orders
  import opened Scoring
  import opened Sums
  import opened Ledger
  import opened LedgerInvariants

  /** Agent a's stake on h is live, unsettled, and not released by expiry. */
  predicate IsLocked(db: Db, h: Id, a: Id) {
    && h in db.hypotheses && (h, a) in db.forecasts
    && db.hypotheses[h].status != Expired && !Settled(db, h, a)
  }

  /** The stakes agent a has locked, by hypothesis. */
  function Locked(db: Db, a: Id): map<Id, int> {
    map h | h in db.hypotheses && IsLocked(db, h, a) :: db.forecasts[(h, a)].stake
  }

  ghost predicate BackedFor(db: Db, a: Id)
    requires a in db.agents
  {
    db.agents[a].staked == MapTotal(Locked(db, a))
  }

  ghost predicate Backed(db: Db) {
    forall a :: a in db.agents ==> BackedFor(db, a)
  }

  /** Backed stakes are never negative. */
  lemma BackedIsNonNegative(db: Db, a: Id)
    requires Consistent(db) && Backed(db) && a in db.agents
    ensures db.agents[a].staked >= 0
  {
    forall h | h in Locked(db, a) ensures Locked(db, a)[h] >= 0 { assert ForecastOk(db, (h, a)); }
    MapTotalNonNegative(Locked(db, a));
    assert BackedFor(db, a);
  }

  // ------------------------------------------------------ how locks change

  ghost predicate SameLock(db: Db, after: Db, h: Id, a: Id) {
    && (IsLocked(db, h, a) <==> IsLocked(after, h, a))
    && (IsLocked(db, h, a) ==> after.forecasts[(h, a)].stake == db.forecasts[(h, a)].stake)
  }

  lemma SameLocks(db: Db, after: Db, a: Id)
    requires forall h :: SameLock(db, after, h, a)
    ensures Locked(after, a) == Locked(db, a)
  {
    forall h ensures h in Locked(db, a) <==> h in Locked(after, a) { assert SameLock(db, after, h, a); }
    forall h | h in Locked(db, a) ensures Locked(after, a)[h] == Locked(db, a)[h] { assert SameLock(db, after, h, a); }
  }

  lemma LockDropped(db: Db, after: Db, h: Id, a: Id)
    requires !IsLocked(after, h, a) && forall g :: g != h ==> SameLock(db, after, g, a)
    ensures Locked(after, a) == Locked(db, a) - {h}
  {
    forall g ensures g in Locked(after, a) <==> g in Locked(db, a) - {h} {
      assert g != h ==> SameLock(db, after, g, a);
    }
    forall g | g in Locked(after, a) ensures Locked(after, a)[g] == (Locked(db, a) - {h})[g] {
      assert SameLock(db, after, g, a);
    }
  }

  lemma LockSet(db: Db, after: Db, h: Id, a: Id)
    requires IsLocked(after, h, a) && forall g :: g != h ==> SameLock(db, after, g, a)
    ensures Locked(after, a) == Locked(db, a)[h := after.forecasts[(h, a)].stake]
  {
    var m := Locked(db, a)[h := after.forecasts[(h, a)].stake];
    forall g ensures g in Locked(after, a) <==> g in m { assert g != h ==> SameLock(db, after, g, a); }
    forall g | g in Locked(after, a) ensures Locked(after, a)[g] == m[g] {
      assert g != h ==> SameLock(db, after, g, a);
    }
  }

  lemma SettledFrame(db: Db, after: Db, h: Id, a: Id)
    requires after.settlements == db.settlements
    ensures Settled(after, h, a) == Settled(db, h, a)
  {
  }

  // --------------------------------------------------------------- forecasts

  /** A forecast that moves stake on an expired hypothesis. */
  predicate MovesExpiredStake(db: Db, h: Id, a: Id, stake: int) {
    && h in db.hypotheses && db.hypotheses[h].status == Expired
    && Accepted(db, h, a, stake) && stake != LockedHere(db, h, a)
  }

  /** The accepted forecast in closed form, for the tables that matter here. */
  ghost predicate Replaces(db: Db, after: Db, h: Id, a: Id, stake: int) {
    && h in db.hypotheses && a in db.agents && !Settled(db, h, a)
    && after.hypotheses == db.hypotheses && after.settlements == db.settlements
    && (h, a) in after.forecasts && after.forecasts[(h, a)].stake == stake
    && (forall k :: k != (h, a) ==> (k in after.forecasts <==> k in db.forecasts))
    && (forall k :: k != (h, a) && k in db.forecasts ==> after.forecasts[k] == db.forecasts[k])
    && after.agents.Keys == db.agents.Keys
    && after.agents[a].staked == db.agents[a].staked + stake - LockedHere(db, h, a)
    && (forall b :: b in db.agents && b != a ==> after.agents[b] == db.agents[b])
  }

  lemma AcceptedReplaces(db: Db, h: Id, a: Id, probability: real, stake: int, cluster: Id)
    requires Consistent(db) && Accepted(db, h, a, stake)
    requires ForecastEffect(db, h, a, probability, stake, cluster).Some?
    ensures Replaces(db, ForecastEffect(db, h, a, probability, stake, cluster).value, h, a, stake)
  {
    ForecastEffectIs(db, h, a, probability, stake, cluster);
    if Settled(db, h, a) { SettledMeans(db, h, a); }
  }

  lemma ReplaceLocks(db: Db, after: Db, h: Id, a: Id, stake: int, b: Id)
    requires Replaces(db, after, h, a, stake)
    ensures Locked(after, b)
              == if b == a && db.hypotheses[h].status != Expired then Locked(db, b)[h := stake] else Locked(db, b)
  {
    forall g | g != h || b != a || db.hypotheses[h].status == Expired ensures SameLock(db, after, g, b) {
      SettledFrame(db, after, g, b);
      assert (g, b) != (h, a) ==> ((g, b) in after.forecasts <==> (g, b) in db.forecasts);
    }
    if b == a && db.hypotheses[h].status != Expired {
      SettledFrame(db, after, h, a);
      LockSet(db, after, h, a);
    } else {
      SameLocks(db, after, b);
    }
  }

  lemma ReplaceBacking(db: Db, after: Db, h: Id, a: Id, stake: int)
    requires Backed(db) && Replaces(db, after, h, a, stake)
    ensures Backed(after) <==> db.hypotheses[h].status != Expired || stake == LockedHere(db, h, a)
  {
    assert BackedFor(db, a);
    ReplaceLocks(db, after, h, a, stake, a);
    MapTotalUpdated(Locked(db, a), h, stake);
    forall b | b in after.agents && b != a ensures BackedFor(after, b) {
      assert BackedFor(db, b);
      ReplaceLocks(db, after, h, a, stake, b);
    }
    assert BackedFor(after, a) <==> db.hypotheses[h].status != Expired || stake == LockedHere(db, h, a);
  }

  lemma ForecastBacking(db: Db, h: Id, a: Id, probability: real, stake: int, cluster: Id)
    requires Consistent(db) && Backed(db) && ForecastEffect(db, h, a, probability, stake, cluster).Some?
    ensures Backed(ForecastEffect(db, h, a, probability, stake, cluster).value) <==> !MovesExpiredStake(db, h, a, stake)
  {
    var after := ForecastEffect(db, h, a, probability, stake, cluster).value;
    if Accepted(db, h, a, stake) {
      AcceptedReplaces(db, h, a, probability, stake, cluster);
      ReplaceBacking(db, after, h, a, stake);
    } else {
      SameTablesBacked(db, after);
    }
  }

  /** Operations that only add agents, hypotheses or log rows. */
  lemma SameTablesBacked(db: Db, after: Db)
    requires Consistent(db) && Backed(db)
    requires after.forecasts == db.forecasts && after.settlements == db.settlements
    requires forall h :: h in db.hypotheses ==>
               h in after.hypotheses && after.hypotheses[h].status == db.hypotheses[h].status
    requires forall a :: a in after.agents ==>
               if a in db.agents then after.agents[a].staked == db.agents[a].staked else after.agents[a].staked == 0
    ensures Backed(after)
  {
    forall a | a in after.agents ensures BackedFor(after, a) {
      forall g ensures SameLock(db, after, g, a) {
        SettledFrame(db, after, g, a);
        assert (g, a) in db.forecasts ==> ForecastOk(db, (g, a));
      }
      SameLocks(db, after, a);
      if a in db.agents {
        assert BackedFor(db, a);
      } else {
        NoLocksForStrangers(db, a);
      }
    }
  }

  lemma NoLocksForStrangers(db: Db, a: Id)
    requires Consistent(db) && a !in db.agents
    ensures Locked(db, a) == map[]
  {
    forall g ensures g !in Locked(db, a) { assert (g, a) in db.forecasts ==> ForecastOk(db, (g, a)); }
  }

  // ----------------------------------------------------- releasing all of h

  /** Every forecaster of h got its stake back and holds no lock on h. */
  ghost predicate Releases(db: Db, after: Db, h: Id) {
    && after.agents.Keys == db.agents.Keys
    && (forall a :: a in db.agents ==> after.agents[a].staked == db.agents[a].staked - LockedHere(db, h, a))
    && (forall a :: !IsLocked(after, h, a))
    && (forall a, g :: g != h ==> SameLock(db, after, g, a))
  }

  /** Releasing is sound exactly for agents whose stake on h still counted. */
  lemma ReleaseBacking(db: Db, after: Db, h: Id, a: Id)
    requires Consistent(db) && Releases(db, after, h) && a in db.agents && BackedFor(db, a)
    ensures BackedFor(after, a) <==> ((h, a) in db.forecasts ==> IsLocked(db, h, a))
  {
    LockDropped(db, after, h, a);
    MapTotalDropped(Locked(db, a), h);
    assert (h, a) in db.forecasts ==> ForecastOk(db, (h, a));
  }

  /** An outcome on an expired hypothesis releases stakes a second time. */
  predicate ReleasesTwice(db: Db, h: Id) {
    h in db.hypotheses && db.hypotheses[h].status == Expired && Forecasters(db, h) != {}
  }

  lemma UnsettledBeforeOutcome(db: Db, h: Id, a: Id)
    requires Consistent(db) && h !in db.outcomes
    ensures !Settled(db, h, a)
  {
    if Settled(db, h, a) { SettledMeans(db, h, a); }
  }

  lemma SettledSame(db: Db, h: Id, outcome: int, g: Id, a: Id)
    requires IsOutcome(outcome) && h in db.hypotheses && g != h
    requires forall b :: b in IdListing(Forecasters(db, h)) ==> (h, b) in db.forecasts && b in db.agents
    ensures SameLock(db, SettledDb(db, h, outcome), g, a)
  {
    var after := SettledDb(db, h, outcome);
    if Settled(db, g, a) {
      var i :| 0 <= i < |db.settlements| && db.settlements[i].hypothesis == g && db.settlements[i].agent == a;
      assert after.settlements[i] == db.settlements[i];
    }
  }

  lemma SettledNow(db: Db, h: Id, outcome: int, a: Id)
    requires IsOutcome(outcome) && h in db.hypotheses && a in IdListing(Forecasters(db, h))
    requires forall b :: b in IdListing(Forecasters(db, h)) ==> (h, b) in db.forecasts && b in db.agents
    ensures Settled(SettledDb(db, h, outcome), h, a)
  {
    var after, listed := SettledDb(db, h, outcome), IdListing(Forecasters(db, h));
    var i :| 0 <= i < |listed| && listed[i] == a;
    var row := after.settlements[|db.settlements| + i];
    assert row.hypothesis == h && row.agent == a;
  }

  lemma SettledReleases(db: Db, h: Id, outcome: int)
    requires Consistent(db) && h in db.hypotheses && h !in db.outcomes && IsOutcome(outcome)
    requires forall b :: b in IdListing(Forecasters(db, h)) ==> (h, b) in db.forecasts && b in db.agents
    ensures Releases(db, SettledDb(db, h, outcome), h)
  {
    var after := SettledDb(db, h, outcome);
    ListedForecasters(db, h);
    forall a ensures !IsLocked(after, h, a) {
      if (h, a) in db.forecasts { SettledNow(db, h, outcome, a); }
    }
    forall a, g | g != h ensures SameLock(db, after, g, a) { SettledSame(db, h, outcome, g, a); }
  }

  lemma SettledBacking(db: Db, h: Id, outcome: int)
    requires Consistent(db) && Backed(db) && h in db.hypotheses && h !in db.outcomes && IsOutcome(outcome)
    requires forall b :: b in IdListing(Forecasters(db, h)) ==> (h, b) in db.forecasts && b in db.agents
    ensures Backed(SettledDb(db, h, outcome)) <==> !ReleasesTwice(db, h)
  {
    var after := SettledDb(db, h, outcome);
    SettledReleases(db, h, outcome);
    forall a | a in db.agents
      ensures BackedFor(after, a) <==> !(db.hypotheses[h].status == Expired && (h, a) in db.forecasts)
    {
      assert BackedFor(db, a);
      ReleaseBacking(db, after, h, a);
      UnsettledBeforeOutcome(db, h, a);
    }
    if ReleasesTwice(db, h) {
      var a :| a in Forecasters(db, h);
      assert ForecastOk(db, (h, a));
      assert !BackedFor(after, a);
    } else {
      forall a | a in after.agents ensures BackedFor(after, a) {
        assert (h, a) in db.forecasts ==> a in Forecasters(db, h);
      }
    }
  }

  lemma SettleBacking(db: Db, h: Id, outcome: int)
    requires Consistent(db) && Backed(db) && SettleEffect(db, h, outcome).Some?
    ensures Backed(SettleEffect(db, h, outcome).value.0) <==> !ReleasesTwice(db, h)
  {
    if h !in db.outcomes {
      SettleEffectIs(db, h, outcome);
      if IsOutcome(outcome) { SettledBacking(db, h, outcome); } else { NoForecastsBacking(db, h, outcome); }
    }
  }

  lemma StatusOfUnbacked(db: Db, after: Db, h: Id, a: Id)
    requires after.forecasts == db.forecasts && after.settlements == db.settlements && (h, a) !in db.forecasts
    requires after.hypotheses.Keys == db.hypotheses.Keys
    requires forall g :: g in db.hypotheses && g != h ==> after.hypotheses[g] == db.hypotheses[g]
    ensures Locked(after, a) == Locked(db, a)
  {
    forall g ensures SameLock(db, after, g, a) { SettledFrame(db, after, g, a); }
    SameLocks(db, after, a);
  }

  lemma NoForecastsBacking(db: Db, h: Id, outcome: int)
    requires Backed(db) && Forecasters(db, h) == {}
    ensures Backed(SetStatus(db.(outcomes := db.outcomes[h := outcome]), h, Resolved))
  {
    var after := SetStatus(db.(outcomes := db.outcomes[h := outcome]), h, Resolved);
    forall a | a in after.agents ensures BackedFor(after, a) {
      assert BackedFor(db, a);
      assert a !in Forecasters(db, h);
      StatusOfUnbacked(db, after, h, a);
    }
  }

  // ------------------------------------------------------------------ expiry

  lemma ExpiredSame(db: Db, h: Id, g: Id, a: Id)
    requires forall b :: b in IdListing(Forecasters(db, h)) ==> (h, b) in db.forecasts
    requires g != h
    ensures SameLock(db, ExpiredDb(db, h), g, a)
  {
    SettledFrame(db, ExpiredDb(db, h), g, a);
  }

  lemma ExpiredUnlocks(db: Db, h: Id, a: Id)
    requires forall b :: b in IdListing(Forecasters(db, h)) ==> (h, b) in db.forecasts
    requires forall b :: b in IdListing(Forecasters(db, h)) <==> (h, b) in db.forecasts
    requires h in db.hypotheses
    ensures !IsLocked(ExpiredDb(db, h), h, a)
    ensures a in db.agents ==> ExpiredDb(db, h).agents[a].staked == db.agents[a].staked - LockedHere(db, h, a)
  {
  }

  lemma ExpireReleases(db: Db, h: Id)
    requires Consistent(db) && h in db.hypotheses
    ensures Releases(db, ExpireOne(db, h), h)
  {
    ExpireOneIs(db, h);
    ListedForecasters(db, h);
    forall a ensures !IsLocked(ExpiredDb(db, h), h, a) { ExpiredUnlocks(db, h, a); }
    forall a | a in db.agents ensures ExpiredDb(db, h).agents[a].staked == db.agents[a].staked - LockedHere(db, h, a) {
      ExpiredUnlocks(db, h, a);
    }
    forall a, g | g != h ensures SameLock(db, ExpiredDb(db, h), g, a) { ExpiredSame(db, h, g, a); }
  }

  lemma ExpireOneBacking(db: Db, h: Id)
    requires Consistent(db) && Backed(db) && h in db.hypotheses && db.hypotheses[h].status == Open
    ensures Backed(ExpireOne(db, h))
  {
    ExpireReleases(db, h);
    forall a | a in ExpireOne(db, h).agents ensures BackedFor(ExpireOne(db, h), a) {
      assert BackedFor(db, a);
      UnsettledBeforeOutcome(db, h, a);
      ReleaseBacking(db, ExpireOne(db, h), h, a);
    }
  }

  lemma {:induction false} ExpireLoopBacking(db: Db, hs: seq<Id>)
    requires Consistent(db) && Backed(db) && AllOpen(db, hs)
    ensures Backed(ExpireLoop(db, hs))
    decreases |hs|
  {
    if hs != [] {
      ExpireOneKeeps(db, hs[0]);
      ExpireOneBacking(db, hs[0]);
      ExpireOneLeavesOpen(db, hs);
      ExpireLoopBacking(ExpireOne(db, hs[0]), hs[1..]);
    }
  }

  // -------------------------------------------------------- every operation

  /** The guard neither handler has: the operation touches stakes that expiry
      has already given back. A caller can check it before the operation. */
  predicate TouchesExpired(db: Db, op: Op) {
    match op
    case Applied(ForecastsCreated, Envelope(_, ForecastBody(h, a, _, stake, _))) => MovesExpiredStake(db, h, a, stake)
    case Applied(OutcomesResolved, Envelope(_, OutcomeBody(h, _))) => ReleasesTwice(db, h)
    case _ => false
  }

  lemma RecordedBacking(db: Db, subject: Subject, envelope: Envelope)
    requires Consistent(db) && Backed(db)
    ensures Consistent(RecordEvent(db, subject, envelope)) && Backed(RecordEvent(db, subject, envelope))
  {
    RecordKeeps(db, subject, envelope);
    SameTablesBacked(db, RecordEvent(db, subject, envelope));
  }

  lemma AppliedForecastIs(db: Db, id: Id, h: Id, a: Id, p: real, stake: int, c: Id)
    ensures var envelope := Envelope(id, ForecastBody(h, a, p, stake, c));
            var recorded := RecordEvent(db, ForecastsCreated, envelope);
            && ApplyOp(db, Applied(ForecastsCreated, envelope)) == ForecastEffect(recorded, h, a, p, stake, c)
            && (TouchesExpired(db, Applied(ForecastsCreated, envelope)) <==> MovesExpiredStake(recorded, h, a, stake))
  {
  }

  lemma AppliedForecastBacking(db: Db, id: Id, h: Id, a: Id, p: real, stake: int, c: Id)
    requires Consistent(db) && Backed(db)
    requires ApplyOp(db, Applied(ForecastsCreated, Envelope(id, ForecastBody(h, a, p, stake, c)))).Some?
    ensures var op := Applied(ForecastsCreated, Envelope(id, ForecastBody(h, a, p, stake, c)));
            Backed(ApplyOp(db, op).value) <==> !TouchesExpired(db, op)
  {
    var envelope := Envelope(id, ForecastBody(h, a, p, stake, c));
    AppliedForecastIs(db, id, h, a, p, stake, c);
    RecordedBacking(db, ForecastsCreated, envelope);
    ForecastBacking(RecordEvent(db, ForecastsCreated, envelope), h, a, p, stake, c);
  }

  lemma AppliedOutcomeBacking(db: Db, id: Id, h: Id, outcome: int)
    requires Consistent(db) && Backed(db)
    requires ApplyOp(db, Applied(OutcomesResolved, Envelope(id, OutcomeBody(h, outcome)))).Some?
    ensures var op := Applied(OutcomesResolved, Envelope(id, OutcomeBody(h, outcome)));
            Backed(ApplyOp(db, op).value) <==> !TouchesExpired(db, op)
  {
    var envelope := Envelope(id, OutcomeBody(h, outcome));
    var recorded := RecordEvent(db, OutcomesResolved, envelope);
    RecordedBacking(db, OutcomesResolved, envelope);
    SettleBacking(recorded, h, outcome);
    assert Forecasters(recorded, h) == Forecasters(db, h);
  }

  lemma ExpiryBacking(db: Db, now: int)
    requires Consistent(db) && Backed(db)
    ensures Backed(ExpireEffect(db, now))
  {
    OverdueAreOpen(db, now);
    ExpireLoopBacking(db, IdListing(OverdueSet(db, now)));
  }

  lemma AgentBacking(db: Db, a: Id, reputation: real, grant: nat)
    requires Consistent(db) && Backed(db) && a !in db.agents
    ensures Backed(db.(agents := db.agents[a := Agent(reputation, grant, 0)]))
  {
    SameTablesBacked(db, db.(agents := db.agents[a := Agent(reputation, grant, 0)]));
  }

  lemma HypothesisBacking(db: Db, h: Id, terms: Hypothesis)
    requires Consistent(db) && Backed(db) && h !in db.hypotheses
    ensures Backed(db.(hypotheses := db.hypotheses[h := terms]))
  {
    SameTablesBacked(db, db.(hypotheses := db.hypotheses[h := terms]));
  }

  /** An operation keeps every agent's stakes backed if and only if it does not
      touch an expired hypothesis's stakes. */
  lemma BackingKeptExactlyWhen(db: Db, op: Op)
    requires Consistent(db) && Backed(db) && ApplyOp(db, op).Some?
    ensures Backed(ApplyOp(db, op).value) <==> !TouchesExpired(db, op)
  {
    match op {
      case Applied(SignalsRaw, envelope) => RecordedBacking(db, SignalsRaw, envelope);
      case Applied(ForecastsCreated, Envelope(id, ForecastBody(h, a, p, s, c))) =>
        AppliedForecastBacking(db, id, h, a, p, s, c);
      case Applied(OutcomesResolved, Envelope(id, OutcomeBody(h, o))) => AppliedOutcomeBacking(db, id, h, o);
      case Applied(_, _) =>
      case ExpiredAt(now) => ExpiryBacking(db, now);
      case RegisteredAgent(a, reputation, grant) => AgentBacking(db, a, reputation, grant);
      case RegisteredHypothesis(h, terms) =>
        if h !in db.hypotheses { HypothesisBacking(db, h, terms.(status := Open)); }
    }
  }
}
