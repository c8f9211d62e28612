/** The idempotency argument, for every interleaving: whatever crashes and is
    redelivered, the durable ledger is the fold of the handlers over distinct
    events, and nothing is acknowledged before it is durable. */
module ExactlyOnce {
  import opened Orders
  import opened Types
  import opened Ledger
  import opened Transport
  import opened TransportTheorems
  import opened Protocol
  import H = LedgerHistory
  import I = LedgerInvariants
  import B = LedgerBacking

  // ------------------------------------------------ what handlers leave alone

  lemma {:induction false} SettleLoopKeepsEvents(db: Db, h: Id, prior: real, outcome: int, agents: seq<Id>)
    requires forall a :: a in agents ==> (h, a) in db.forecasts
    requires SettleLoop(db, h, prior, outcome, agents).Some?
    ensures SettleLoop(db, h, prior, outcome, agents).value.events == db.events
    decreases |agents|
  {
    if agents != [] {
      SettleLoopKeepsEvents(SettleOne(db, h, prior, outcome, agents[0]).value, h, prior, outcome, agents[1..]);
    }
  }

  lemma {:induction false} ReleaseLoopKeepsEvents(db: Db, h: Id, agents: seq<Id>)
    requires forall a :: a in agents ==> (h, a) in db.forecasts
    ensures ReleaseLoop(db, h, agents).events == db.events
    decreases |agents|
  {
    if agents != [] {
      var stake := db.forecasts[(h, agents[0])].stake;
      ReleaseLoopKeepsEvents(AdjustCredits(db, agents[0], stake, -stake), h, agents[1..]);
    }
  }

  lemma {:induction false} ExpireLoopKeepsEvents(db: Db, hs: seq<Id>)
    ensures ExpireLoop(db, hs).events == db.events
    decreases |hs|
  {
    if hs != [] {
      ReleaseLoopKeepsEvents(db, hs[0], IdListing(Forecasters(db, hs[0])));
      ExpireLoopKeepsEvents(ExpireOne(db, hs[0]), hs[1..]);
    }
  }

  lemma HandlerKeepsEvents(db: Db, subject: Subject, body: Body)
    requires HandlerEffect(db, subject, body).Some?
    ensures HandlerEffect(db, subject, body).value.events == db.events
  {
    match (subject, body) {
      case (OutcomesResolved, OutcomeBody(h, o)) =>
        if h !in db.outcomes {
          var recorded := db.(outcomes := db.outcomes[h := o]);
          assert forall a :: a in IdListing(Forecasters(db, h)) ==> a in Forecasters(db, h);
          SettleLoopKeepsEvents(recorded, h, db.hypotheses[h].prior, o, IdListing(Forecasters(db, h)));
        }
      case _ =>
    }
  }

  lemma MaintenanceKeepsEvents(db: Db, op: Op)
    requires !op.Applied? && ApplyOp(db, op).Some?
    ensures ApplyOp(db, op).value.events == db.events
  {
    if op.ExpiredAt? { ExpireLoopKeepsEvents(db, IdListing(OverdueSet(db, op.now))); }
  }

  // ------------------------------------------------------------ the log

  predicate IsApplied(log: seq<Op>, i: int, eventId: Id) {
    0 <= i < |log| && log[i].Applied? && log[i].envelope.eventId == eventId
  }

  /** The durable ledger is the fold of the log, each event is in it at most
      once, and the events table is the log's index. */
  ghost predicate LogOk(log: seq<Op>, db: Db) {
    && Fold(log) == Some(db)
    && (forall i, j, e :: IsApplied(log, i, e) && IsApplied(log, j, e) ==> i == j)
    && (forall i, e :: IsApplied(log, i, e) ==> e in db.events && db.events[e] == (log[i].subject, log[i].envelope))
    && (forall e :: e in db.events ==> exists i :: IsApplied(log, i, e))
  }

  lemma LogOkAfterEvent(log: seq<Op>, db: Db, subject: Subject, envelope: Envelope)
    requires LogOk(log, db) && envelope.eventId !in db.events
    requires ApplyOp(db, Applied(subject, envelope)).Some?
    ensures LogOk(log + [Applied(subject, envelope)], ApplyOp(db, Applied(subject, envelope)).value)
  {
    var op := Applied(subject, envelope);
    var longer, after := log + [op], ApplyOp(db, op).value;
    FoldSnoc(log, op);
    HandlerKeepsEvents(RecordEvent(db, subject, envelope), subject, envelope.body);
    assert after.events == db.events[envelope.eventId := (subject, envelope)];
    forall i, e | IsApplied(longer, i, e)
      ensures e in after.events && after.events[e] == (longer[i].subject, longer[i].envelope)
      ensures i < |log| ==> IsApplied(log, i, e)
    {
      if i < |log| { assert IsApplied(log, i, e); }
    }
    forall e | e in after.events ensures exists i :: IsApplied(longer, i, e) {
      if e == envelope.eventId {
        assert IsApplied(longer, |log|, e);
      } else {
        var i :| IsApplied(log, i, e);
        assert IsApplied(longer, i, e);
      }
    }
  }

  lemma LogOkAfterMaintenance(log: seq<Op>, db: Db, op: Op)
    requires LogOk(log, db) && !op.Applied? && ApplyOp(db, op).Some?
    ensures LogOk(log + [op], ApplyOp(db, op).value)
  {
    var longer, after := log + [op], ApplyOp(db, op).value;
    FoldSnoc(log, op);
    MaintenanceKeepsEvents(db, op);
    forall i, e ensures IsApplied(longer, i, e) <==> IsApplied(log, i, e) {}
    forall e | e in after.events ensures exists i :: IsApplied(longer, i, e) {
      var i :| IsApplied(log, i, e);
      assert IsApplied(longer, i, e);
    }
  }

  // -------------------------------------------------------- the invariant

  /** What the open transaction holds at each stage. */
  predicate StageOk(committed: Db, working: Db, stage: Stage) {
    match stage
    case Idle => working == committed
    case Received(_, _, _) => working == committed
    case Inserted(s, _, e, isNew) =>
      isNew == (e.eventId !in committed.events)
      && working == if isNew then RecordEvent(committed, s, e) else committed
    case Handled(s, _, e) =>
      if e.eventId in committed.events then working == committed
      else ApplyOp(committed, Applied(s, e)) == Some(working)
    case Durable(_, _, e) => working == committed && e.eventId in committed.events
  }

  predicate WasPublished(net: Net, subject: Subject, envelope: Envelope) {
    exists id :: id in net.published && net.published[id] == (subject, envelope)
  }

  /** Nothing is acknowledged before it is durable; only what was published is
      ever durable. */
  ghost predicate LedgerFollowsNet(net: Net, db: Db) {
    && (forall id :: id in net.acked ==> id in net.published && net.published[id].1.eventId in db.events)
    && (forall e :: e in db.events ==> WasPublished(net, db.events[e].0, db.events[e].1))
  }

  predicate HoldsPublished(net: Net, stage: Stage) {
    stage.Idle? || (stage.id in net.published && net.published[stage.id] == (stage.subject, stage.envelope))
  }

  ghost predicate SystemOk(sys: System) {
    && NetOk(sys.net)
    && LogOk(sys.log, sys.committed)
    && StageOk(sys.committed, sys.working, sys.stage)
    && LedgerFollowsNet(sys.net, sys.committed)
    && HoldsPublished(sys.net, sys.stage)
  }

  lemma StartIsOk(maxRedeliveries: int)
    ensures SystemOk(Start(maxRedeliveries))
  {
    FreshIsOk(maxRedeliveries);
    assert LogOk([], EMPTY);
  }

  // --------------------------------------------------------- network steps

  /** Publishing and redelivering keep what was published and what was acked. */
  lemma NetworkKeeps(sys: System, net: Net)
    requires SystemOk(sys) && NetOk(net)
    requires forall id :: id in sys.net.published ==> id in net.published && net.published[id] == sys.net.published[id]
    requires net.acked == sys.net.acked
    ensures SystemOk(sys.(net := net))
  {
    forall e | e in sys.committed.events
      ensures WasPublished(net, sys.committed.events[e].0, sys.committed.events[e].1)
    {
      assert WasPublished(sys.net, sys.committed.events[e].0, sys.committed.events[e].1);
    }
  }

  lemma ReceiveKeeps(sys: System, s: Subject)
    requires SystemOk(sys) && CanStep(sys, Receives(s))
    ensures SystemOk(Next(sys, Receives(s)))
  {
    MoveKeeps(sys.net, Delivering(s));
    assert LaneOk(sys.net, s);
    assert MessageOk(sys.net, s, QueueIn(sys.net.pending, s)[0]);
    NetworkKeeps(sys, Deliver(sys.net, s));
  }

  lemma AcknowledgeKeeps(sys: System)
    requires SystemOk(sys) && CanStep(sys, Acknowledges)
    ensures SystemOk(Next(sys, Acknowledges))
  {
    var net := Ack(sys.net, sys.stage.subject, sys.stage.id);
    MoveKeeps(sys.net, Acking(sys.stage.subject, sys.stage.id));
    forall e | e in sys.committed.events
      ensures WasPublished(net, sys.committed.events[e].0, sys.committed.events[e].1)
    {
      assert WasPublished(sys.net, sys.committed.events[e].0, sys.committed.events[e].1);
    }
  }

  // ---------------------------------------------------------- ledger steps

  lemma EventFollowsNet(net: Net, db: Db, after: Db, stage: Stage)
    requires LedgerFollowsNet(net, db) && !stage.Idle? && HoldsPublished(net, stage)
    requires after.events == db.events[stage.envelope.eventId := (stage.subject, stage.envelope)]
    ensures LedgerFollowsNet(net, after)
  {
    forall e | e in after.events ensures WasPublished(net, after.events[e].0, after.events[e].1) {
      if e == stage.envelope.eventId {
        assert WasPublished(net, stage.subject, stage.envelope);
      } else {
        assert WasPublished(net, db.events[e].0, db.events[e].1);
      }
    }
  }

  /** Committing a handled message, whether it was new or not. */
  lemma MakeDurableKeeps(sys: System)
    requires SystemOk(sys) && sys.stage.Handled?
    ensures var after := MakeDurable(sys);
            SystemOk(after) && after.committed == after.working && sys.stage.envelope.eventId in after.committed.events
  {
    var s, e := sys.stage.subject, sys.stage.envelope;
    if e.eventId !in sys.committed.events {
      HandlerKeepsEvents(RecordEvent(sys.committed, s, e), s, e.body);
      LogOkAfterEvent(sys.log, sys.committed, s, e);
      EventFollowsNet(sys.net, sys.committed, sys.working, sys.stage);
    }
  }

  /** The handler's effect, before any commit of its own. */
  lemma EffectKeeps(sys: System, after: Db)
    requires SystemOk(sys) && sys.stage.Inserted? && sys.stage.isNew
    requires HandlerEffect(sys.working, sys.stage.subject, sys.stage.envelope.body) == Some(after)
    ensures SystemOk(sys.(working := after, stage := Handled(sys.stage.subject, sys.stage.id, sys.stage.envelope)))
  {
    assert ApplyOp(sys.committed, Applied(sys.stage.subject, sys.stage.envelope)) == Some(after);
  }

  lemma CrashKeeps(sys: System)
    requires SystemOk(sys)
    ensures SystemOk(Crashed(sys))
  {
  }

  /** A duplicate goes past the handler. */
  lemma SkipKeeps(sys: System)
    requires SystemOk(sys) && sys.stage.Inserted? && !sys.stage.isNew
    ensures SystemOk(sys.(stage := Handled(sys.stage.subject, sys.stage.id, sys.stage.envelope)))
  {
  }

  lemma HandlerRunKeeps(sys: System)
    requires SystemOk(sys) && CanStep(sys, RunsHandler)
    ensures SystemOk(HandlerRun(sys))
  {
    var s, id, e := sys.stage.subject, sys.stage.id, sys.stage.envelope;
    if !sys.stage.isNew {
      SkipKeeps(sys);
    } else {
      var effect := HandlerEffect(sys.working, s, e.body);
      if effect.None? {
        CrashKeeps(sys);
      } else {
        var handled := sys.(working := effect.value, stage := Handled(s, id, e));
        EffectKeeps(sys, effect.value);
        if CommitsItself(sys.working, s, e.body) {
          MakeDurableKeeps(handled);
          assert HandlerRun(sys) == MakeDurable(handled);
        } else {
          assert HandlerRun(sys) == handled;
        }
      }
    }
  }

  /** An inserted or handled event is in the open transaction's table. */
  lemma HeldEventIsInserted(committed: Db, working: Db, stage: Stage)
    requires StageOk(committed, working, stage) && (stage.Inserted? || stage.Handled?)
    ensures stage.envelope.eventId in working.events
  {
    if stage.Handled? && stage.envelope.eventId !in committed.events {
      HandlerKeepsEvents(RecordEvent(committed, stage.subject, stage.envelope), stage.subject, stage.envelope.body);
    }
  }

  lemma MaintainKeeps(sys: System, op: Op)
    requires SystemOk(sys) && CanStep(sys, Maintains(op))
    ensures SystemOk(Next(sys, Maintains(op)))
  {
    var after := ApplyOp(sys.committed, op).value;
    LogOkAfterMaintenance(sys.log, sys.committed, op);
    MaintenanceKeepsEvents(sys.committed, op);
    if sys.stage.Inserted? || sys.stage.Handled? { HeldEventIsInserted(sys.committed, sys.working, sys.stage); }
    assert StageOk(after, after, sys.stage);
    assert LedgerFollowsNet(sys.net, after);
  }

  /** The runs leave nothing out. Publications, redeliveries and crashes are
      possible at any moment, and a crash loses the open transaction and what
      the worker held, nothing else; the worker itself is never stuck with a
      message, and takes one whenever it is idle and a queue is not empty. */
  lemma NothingIsHeldBack(sys: System, s: Subject, e: Envelope)
    ensures CanStep(sys, Publishes(s, e)) && CanStep(sys, Redelivers(s)) && CanStep(sys, Crashes)
    ensures Next(sys, Crashes) == System(sys.net, sys.committed, sys.committed, Idle, sys.log)
    ensures CanStep(sys, Receives(s)) <==> sys.stage == Idle && QueueIn(sys.net.pending, s) != []
    ensures sys.stage != Idle <==>
              || CanStep(sys, InsertsEvent) || CanStep(sys, RunsHandler) || CanStep(sys, Commits)
              || CanStep(sys, Acknowledges)
  {
  }

  /** Maintenance is possible while the open transaction holds no changes, on
      whatever the ledger does not refuse. */
  lemma MaintenanceIsHeldBackExactlyWhen(sys: System, op: Op)
    requires SystemOk(sys) && !op.Applied?
    ensures CanStep(sys, Maintains(op)) <==>
              sys.working == sys.committed && !(op.RegisteredAgent? && op.agent in sys.committed.agents)
  {
  }

  /** The first resolution of a known hypothesis, with an outcome that can be
      scored or nothing to score. */
  predicate SettlesFirst(db: Db, subject: Subject, body: Body) {
    && subject == OutcomesResolved && body.OutcomeBody?
    && body.hypothesis in db.hypotheses && body.hypothesis !in db.outcomes
    && (body.outcome == 0 || body.outcome == 1 || !exists k :: k in db.forecasts && k.0 == body.hypothesis)
  }

  lemma SettlesFirstCommitsItself(db: Db, subject: Subject, body: Body)
    requires I.Consistent(db)
    ensures CommitsItself(db, subject, body) <==> SettlesFirst(db, subject, body)
  {
    if subject == OutcomesResolved && body.OutcomeBody? && body.hypothesis in db.hypotheses
       && body.hypothesis !in db.outcomes {
      I.SettleEffectIs(db, body.hypothesis, body.outcome);
      assert Forecasters(db, body.hypothesis) == {} <==> !exists k :: k in db.forecasts && k.0 == body.hypothesis by {
        if k :| k in db.forecasts && k.0 == body.hypothesis { assert k.1 in Forecasters(db, body.hypothesis); }
      }
    }
  }

  /** A crash between a new event's handler and the loop's commit loses event and
      effect together, to be redelivered - except that a settlement has already
      committed both by itself. */
  lemma SurvivesTheCrashExactlyWhen(sys: System)
    requires SystemOk(sys) && sys.stage.Inserted? && sys.stage.isNew
    ensures var e, crashed := sys.stage.envelope, Next(Next(sys, RunsHandler), Crashes);
            if SettlesFirst(sys.committed, sys.stage.subject, e.body)
            then Some(crashed.committed) == ApplyOp(sys.committed, Applied(sys.stage.subject, e))
            else crashed.committed == sys.committed && e.eventId !in crashed.committed.events
  {
    var s, e := sys.stage.subject, sys.stage.envelope;
    H.AlwaysConsistent(sys.log);
    I.RecordKeeps(sys.committed, s, e);
    SettlesFirstCommitsItself(RecordEvent(sys.committed, s, e), s, e.body);
  }

  /** Every step keeps the argument going. */
  lemma StepKeeps(sys: System, step: Step)
    requires SystemOk(sys) && CanStep(sys, step)
    ensures SystemOk(Next(sys, step))
  {
    match step {
      case Publishes(s, e) =>
        MoveKeeps(sys.net, Publishing(s, e));
        NetworkKeeps(sys, Publish(sys.net, s, e));
      case Redelivers(s) =>
        MoveKeeps(sys.net, Redelivering(s));
        NetworkKeeps(sys, Redeliver(sys.net, s));
      case Receives(s) => ReceiveKeeps(sys, s);
      case Acknowledges => AcknowledgeKeeps(sys);
      case RunsHandler => HandlerRunKeeps(sys);
      case Commits => MakeDurableKeeps(sys);
      case Maintains(op) => MaintainKeeps(sys, op);
      case InsertsEvent =>
      case Crashes => CrashKeeps(sys);
    }
  }

  lemma {:induction false} RunIsOk(sys: System, steps: seq<Step>)
    requires SystemOk(sys) && IsRun(sys, steps)
    ensures SystemOk(Reached(sys, steps))
    decreases |steps|
  {
    if steps != [] {
      StepKeeps(sys, steps[0]);
      RunIsOk(Next(sys, steps[0]), steps[1..]);
    }
  }

  // ------------------------------------------------------------- theorems

  lemma {:induction false} ReachedIsOk(maxRedeliveries: int, steps: seq<Step>)
    requires IsRun(Start(maxRedeliveries), steps)
    ensures SystemOk(Reached(Start(maxRedeliveries), steps))
  {
    StartIsOk(maxRedeliveries);
    RunIsOk(Start(maxRedeliveries), steps);
  }

  /** Exactly once, in every interleaving of publications, deliveries, crashes
      at any point, redeliveries, acknowledgements and maintenance: the durable
      ledger is the fold of the handlers over a log in which every durable
      event occurs at exactly one place, and every one was published. */
  lemma ExactlyOnceRefinement(maxRedeliveries: int, steps: seq<Step>)
    requires IsRun(Start(maxRedeliveries), steps)
    ensures var sys := Reached(Start(maxRedeliveries), steps);
            && Fold(sys.log) == Some(sys.committed)
            && (forall i, j, e :: IsApplied(sys.log, i, e) && IsApplied(sys.log, j, e) ==> i == j)
            && (forall e :: e in sys.committed.events <==> exists i :: IsApplied(sys.log, i, e))
            && (forall i, e :: IsApplied(sys.log, i, e) ==>
                  WasPublished(sys.net, sys.log[i].subject, sys.log[i].envelope))
  {
    ReachedIsOk(maxRedeliveries, steps);
    var sys := Reached(Start(maxRedeliveries), steps);
    forall i, e | IsApplied(sys.log, i, e) ensures WasPublished(sys.net, sys.log[i].subject, sys.log[i].envelope) {
      assert WasPublished(sys.net, sys.committed.events[e].0, sys.committed.events[e].1);
    }
  }

  /** No message is acknowledged unless its event is durable, and then it has
      been applied. */
  lemma AckedIsApplied(maxRedeliveries: int, steps: seq<Step>, id: nat)
    requires IsRun(Start(maxRedeliveries), steps)
    requires id in Reached(Start(maxRedeliveries), steps).net.acked
    ensures var sys := Reached(Start(maxRedeliveries), steps);
            id in sys.net.published && exists i :: IsApplied(sys.log, i, sys.net.published[id].1.eventId)
  {
    ReachedIsOk(maxRedeliveries, steps);
  }

  /** A step changes the durable ledger only by appending the one operation it
      makes durable; a crash changes nothing durable. */
  lemma StepAppends(sys: System, step: Step)
    requires SystemOk(sys) && CanStep(sys, step)
    ensures var after := Next(sys, step);
            (after.log == sys.log && after.committed == sys.committed)
            || (|after.log| == |sys.log| + 1 && sys.log <= after.log
                && ApplyOp(sys.committed, after.log[|sys.log|]) == Some(after.committed))
  {
    if sys.stage.Inserted? || sys.stage.Handled? { HeldEventIsInserted(sys.committed, sys.working, sys.stage); }
    if step.RunsHandler? && sys.stage.isNew {
      var effect := HandlerEffect(sys.working, sys.stage.subject, sys.stage.envelope.body);
      if effect.Some? { HandlerKeepsEvents(sys.working, sys.stage.subject, sys.stage.envelope.body); }
    }
  }

  /** What is durable stays durable: the log only ever grows at the end. */
  lemma {:induction false} DurableForGood(sys: System, steps: seq<Step>)
    requires SystemOk(sys) && IsRun(sys, steps)
    ensures sys.log <= Reached(sys, steps).log
    decreases |steps|
  {
    if steps != [] {
      StepKeeps(sys, steps[0]);
      StepAppends(sys, steps[0]);
      DurableForGood(Next(sys, steps[0]), steps[1..]);
    }
  }

  /** A duplicate delivery - another message with a durable event id, or the
      same one again - runs to its acknowledgement without any effect. */
  lemma DuplicateHasNoEffect(sys: System)
    requires SystemOk(sys) && sys.stage.Received? && sys.stage.envelope.eventId in sys.committed.events
    ensures var steps := [InsertsEvent, RunsHandler, Commits, Acknowledges];
            IsRun(sys, steps)
            && Reached(sys, steps) == sys.(net := Ack(sys.net, sys.stage.subject, sys.stage.id), stage := Idle)
  {
    var s1 := Next(sys, InsertsEvent);
    var s2 := Next(s1, RunsHandler);
    var s3 := Next(s2, Commits);
    var s4 := Next(s3, Acknowledges);
    assert Reached(s4, []) == s4;
    assert [Acknowledges][1..] == [] && [Commits, Acknowledges][1..] == [Acknowledges];
    assert [RunsHandler, Commits, Acknowledges][1..] == [Commits, Acknowledges];
    assert [InsertsEvent, RunsHandler, Commits, Acknowledges][1..] == [RunsHandler, Commits, Acknowledges];
  }

  /** Nothing is lost: once nothing is queued or in flight, the event id of every
      published message has been applied exactly once, or the message sits in
      its subject's dead letters after the promised number of deliveries. */
  lemma QuietMeansApplied(maxRedeliveries: int, steps: seq<Step>, id: nat)
    requires IsRun(Start(maxRedeliveries), steps)
    requires var net := Reached(Start(maxRedeliveries), steps).net;
             id in net.published && forall s :: QueueIn(net.pending, s) == [] && FlyingIn(net.inFlight, s) == map[]
    ensures var sys := Reached(Start(maxRedeliveries), steps);
            (exists i :: IsApplied(sys.log, i, sys.net.published[id].1.eventId))
            || Buried(DeadIn(sys.net.deadLetter, sys.net.published[id].0), id) == 1
  {
    ReachedIsOk(maxRedeliveries, steps);
    var sys := Reached(Start(maxRedeliveries), steps);
    QuietMeansDone(sys.net, id);
    if id in sys.net.acked { AckedIsApplied(maxRedeliveries, steps, id); }
  }

  /** Event ids are used for one event each, as `compute_event_id` means them. */
  ghost predicate IdsIdentify(net: Net) {
    forall m, n | m in net.published && n in net.published
                  && net.published[m].1.eventId == net.published[n].1.eventId ::
      net.published[m] == net.published[n]
  }

  /** The log holds the message's own event: its subject and its envelope. */
  ghost predicate AppliedAsPublished(sys: System, id: nat)
    requires id in sys.net.published
  {
    exists i :: 0 <= i < |sys.log| && sys.log[i] == Applied(sys.net.published[id].0, sys.net.published[id].1)
  }

  /** An acknowledged message was applied as published if and only if the
      durable event under its id is its own, ... */
  lemma AppliedAsPublishedExactlyWhen(sys: System, id: nat)
    requires SystemOk(sys) && id in sys.net.acked
    ensures id in sys.net.published && sys.net.published[id].1.eventId in sys.committed.events
    ensures AppliedAsPublished(sys, id) <==>
            sys.committed.events[sys.net.published[id].1.eventId] == sys.net.published[id]
  {
    var e := sys.net.published[id].1.eventId;
    var i :| IsApplied(sys.log, i, e);
    assert sys.committed.events[e] == (sys.log[i].subject, sys.log[i].envelope);
    if AppliedAsPublished(sys, id) {
      var j :| 0 <= j < |sys.log| && sys.log[j] == Applied(sys.net.published[id].0, sys.net.published[id].1);
      assert IsApplied(sys.log, j, e);
    }
  }

  /** ... which it is whenever event ids identify events: then a quiet system
      has applied every published message itself, or dead-lettered it. */
  lemma QuietMeansAppliedAsPublished(maxRedeliveries: int, steps: seq<Step>, id: nat)
    requires IsRun(Start(maxRedeliveries), steps)
    requires var net := Reached(Start(maxRedeliveries), steps).net;
             id in net.published && IdsIdentify(net)
             && forall s :: QueueIn(net.pending, s) == [] && FlyingIn(net.inFlight, s) == map[]
    ensures var sys := Reached(Start(maxRedeliveries), steps);
            AppliedAsPublished(sys, id) || Buried(DeadIn(sys.net.deadLetter, sys.net.published[id].0), id) == 1
  {
    ReachedIsOk(maxRedeliveries, steps);
    var sys := Reached(Start(maxRedeliveries), steps);
    QuietMeansDone(sys.net, id);
    if id in sys.net.acked {
      var e := sys.net.published[id].1.eventId;
      AppliedAsPublishedExactlyWhen(sys, id);
      var i :| IsApplied(sys.log, i, e);
      assert sys.committed.events[e].1.eventId == e;
      assert WasPublished(sys.net, sys.committed.events[e].0, sys.committed.events[e].1);
    }
  }

  function Deliveries(steps: seq<Step>): nat {
    if steps == [] then 0 else (if steps[0].Receives? then 1 else 0) + Deliveries(steps[1..])
  }

  /** What a step asks of the transport. */
  function MoveOf(sys: System, step: Step): Option<Move>
    requires CanStep(sys, step)
  {
    match step
    case Publishes(s, e) => Some(Publishing(s, e))
    case Receives(s) => Some(Delivering(s))
    case Acknowledges => Some(Acking(sys.stage.subject, sys.stage.id))
    case Redelivers(s) => Some(Redelivering(s))
    case _ => None
  }

  lemma StepMoves(sys: System, step: Step)
    requires CanStep(sys, step)
    ensures var move := MoveOf(sys, step);
            Next(sys, step).net
              == if move.Some? then (assert Enabled(sys.net, move.value); Moved(sys.net, move.value)) else sys.net
  {
  }

  /** Once publishing stops, the worker is handed only so many more messages,
      however often it crashes - also by messages whose handler always
      raises. */
  lemma {:induction false} WorkIsBounded(sys: System, steps: seq<Step>)
    requires SystemOk(sys) && IsRun(sys, steps) && forall step :: step in steps ==> !step.Publishes?
    ensures Deliveries(steps) <= Measure(sys.net)
    decreases |steps|
  {
    if steps == [] {
      MeasureNonNegative(sys.net);
    } else {
      assert steps[0] in steps;
      StepMoves(sys, steps[0]);
      var move := MoveOf(sys, steps[0]);
      if move.Some? { MoveMeasure(sys.net, move.value); }
      StepKeeps(sys, steps[0]);
      WorkIsBounded(Next(sys, steps[0]), steps[1..]);
    }
  }

  /** The ledger's own theorems therefore hold of the durable tables after
      every run: consistency, conservation, solvency. */
  lemma EveryRunConserves(maxRedeliveries: int, steps: seq<Step>, a: Id)
    requires IsRun(Start(maxRedeliveries), steps)
    requires a in Reached(Start(maxRedeliveries), steps).committed.agents
    ensures var sys := Reached(Start(maxRedeliveries), steps);
            && I.Consistent(sys.committed)
            && H.Explained(sys.log, sys.committed, a)
            && sys.committed.agents[a].available >= 0
  {
    ReachedIsOk(maxRedeliveries, steps);
    var sys := Reached(Start(maxRedeliveries), steps);
    H.AlwaysConsistent(sys.log);
    H.Conservation(sys.log, a);
  }

  /** And so does stake backing, in every run that sends nothing to an expired
      hypothesis. */
  lemma EveryPunctualRunIsBacked(maxRedeliveries: int, steps: seq<Step>)
    requires IsRun(Start(maxRedeliveries), steps)
    requires var log := Reached(Start(maxRedeliveries), steps).log; H.Possible(log) && H.Punctual(log)
    ensures B.Backed(Reached(Start(maxRedeliveries), steps).committed)
  {
    ReachedIsOk(maxRedeliveries, steps);
    H.StakesAlwaysBacked(Reached(Start(maxRedeliveries), steps).log);
  }
}
