/** `consume_once` (src/stakeroute/worker/main.py): the loop itself, proved to
    take the protocol's steps and no others. */
module Consumer {
  import opened Ledger
  import opened Transport
  import opened Storage
  import opened Worker
  import opened Protocol
  import E = ExactlyOnce

  /** One message from delivery to acknowledgement, or to the handler's raise. */
  function ProcessOne(sys: System, s: Subject): (r: System)
    requires CanStep(sys, Receives(s))
    ensures QueueIn(r.net.pending, s) == QueueIn(sys.net.pending, s)[1..] && r.stage.Idle?
  {
    var received := Next(sys, Receives(s));
    var handled := Next(Next(received, InsertsEvent), RunsHandler);
    if handled.stage.Idle? then handled else Next(Next(handled, Commits), Acknowledges)
  }

  /** The handler raised: nothing will acknowledge the message. */
  predicate Raises(sys: System, s: Subject)
    requires CanStep(sys, Receives(s))
  {
    Next(Next(Next(sys, Receives(s)), InsertsEvent), RunsHandler).stage.Idle?
  }

  /** Draining a subject: until its queue is empty or a handler raises. */
  function Drain(sys: System, s: Subject): System
    requires sys.stage.Idle?
    decreases |QueueIn(sys.net.pending, s)|
  {
    if QueueIn(sys.net.pending, s) == [] then sys
    else
      var next := ProcessOne(sys, s);
      if Raises(sys, s) then next else Drain(next, s)
  }

  predicate DrainRaises(sys: System, s: Subject)
    requires sys.stage.Idle?
    decreases |QueueIn(sys.net.pending, s)|
  {
    QueueIn(sys.net.pending, s) != [] && (Raises(sys, s) || DrainRaises(ProcessOne(sys, s), s))
  }

  /** The messages of a drain that were new and went through. */
  function Applications(sys: System, s: Subject): nat
    requires sys.stage.Idle?
    decreases |QueueIn(sys.net.pending, s)|
  {
    if QueueIn(sys.net.pending, s) == [] || Raises(sys, s) then 0
    else (if IsNew(sys, s) then 1 else 0) + Applications(ProcessOne(sys, s), s)
  }

  predicate IsNew(sys: System, s: Subject)
    requires QueueIn(sys.net.pending, s) != []
  {
    QueueIn(sys.net.pending, s)[0].envelope.eventId !in sys.working.events
  }

  lemma {:induction false} RunsCompose(sys: System, xs: seq<Step>, ys: seq<Step>)
    requires IsRun(sys, xs) && IsRun(Reached(sys, xs), ys)
    ensures IsRun(sys, xs + ys) && Reached(sys, xs + ys) == Reached(Reached(sys, xs), ys)
    decreases |xs|
  {
    if xs == [] {
      assert xs + ys == ys;
    } else {
      assert (xs + ys)[1..] == xs[1..] + ys;
      RunsCompose(Next(sys, xs[0]), xs[1..], ys);
    }
  }

  function StepsOfOne(sys: System, s: Subject): seq<Step>
    requires CanStep(sys, Receives(s))
  {
    [Receives(s), InsertsEvent, RunsHandler] + if Raises(sys, s) then [] else [Commits, Acknowledges]
  }

  lemma OneStep(sys: System, step: Step)
    requires CanStep(sys, step)
    ensures IsRun(sys, [step]) && Reached(sys, [step]) == Next(sys, step)
  {
    assert [step][1..] == [];
    assert IsRun(Next(sys, step), []);
  }

  lemma TwoSteps(sys: System, first: Step, second: Step)
    requires CanStep(sys, first) && CanStep(Next(sys, first), second)
    ensures IsRun(sys, [first, second]) && Reached(sys, [first, second]) == Next(Next(sys, first), second)
  {
    OneStep(sys, first);
    OneStep(Next(sys, first), second);
    RunsCompose(sys, [first], [second]);
    assert [first] + [second] == [first, second];
  }

  lemma ProcessOneIsRun(sys: System, s: Subject)
    requires CanStep(sys, Receives(s))
    ensures IsRun(sys, StepsOfOne(sys, s)) && Reached(sys, StepsOfOne(sys, s)) == ProcessOne(sys, s)
  {
    var inserted := Next(Next(sys, Receives(s)), InsertsEvent);
    var handled := Next(inserted, RunsHandler);
    TwoSteps(sys, Receives(s), InsertsEvent);
    OneStep(inserted, RunsHandler);
    RunsCompose(sys, [Receives(s), InsertsEvent], [RunsHandler]);
    assert [Receives(s), InsertsEvent] + [RunsHandler] == [Receives(s), InsertsEvent, RunsHandler];
    if Raises(sys, s) {
      assert [Receives(s), InsertsEvent, RunsHandler] + [] == [Receives(s), InsertsEvent, RunsHandler];
    } else {
      TwoSteps(handled, Commits, Acknowledges);
      RunsCompose(sys, [Receives(s), InsertsEvent, RunsHandler], [Commits, Acknowledges]);
    }
  }

  /** Draining is a run of the protocol: everything proved of every run holds
      of `consume_once`. */
  lemma {:induction false} DrainIsRun(sys: System, s: Subject) returns (steps: seq<Step>)
    requires sys.stage.Idle?
    ensures IsRun(sys, steps) && Reached(sys, steps) == Drain(sys, s)
    ensures !DrainRaises(sys, s) ==> QueueIn(Drain(sys, s).net.pending, s) == []
    decreases |QueueIn(sys.net.pending, s)|
  {
    steps := [];
    if QueueIn(sys.net.pending, s) != [] {
      ProcessOneIsRun(sys, s);
      steps := StepsOfOne(sys, s);
      if !Raises(sys, s) {
        var rest := DrainIsRun(ProcessOne(sys, s), s);
        RunsCompose(sys, steps, rest);
        steps := steps + rest;
      }
    }
  }

  /** A message raises exactly when its event is new and the handler has no
      effect for it: duplicates never do. */
  lemma RaisesExactlyWhen(sys: System, s: Subject)
    requires CanStep(sys, Receives(s))
    ensures var e := QueueIn(sys.net.pending, s)[0].envelope;
            Raises(sys, s) <==> e.eventId !in sys.working.events
                                && HandlerEffect(RecordEvent(sys.working, s, e), s, e.body).None?
  {
  }

  /** A drain that leaves messages behind stopped on one whose handler raised. */
  lemma {:induction false} DrainStopsOnlyOnRaise(sys: System, s: Subject) returns (steps: seq<Step>, at: System)
    requires sys.stage.Idle? && DrainRaises(sys, s)
    ensures IsRun(sys, steps) && Reached(sys, steps) == at
    ensures CanStep(at, Receives(s)) && Raises(at, s) && Drain(sys, s) == ProcessOne(at, s)
    decreases |QueueIn(sys.net.pending, s)|
  {
    steps, at := [], sys;
    if !Raises(sys, s) {
      ProcessOneIsRun(sys, s);
      var rest;
      rest, at := DrainStopsOnlyOnRaise(ProcessOne(sys, s), s);
      RunsCompose(sys, StepsOfOne(sys, s), rest);
      steps := StepsOfOne(sys, s) + rest;
    }
  }

  /** The operation the worker still has to make durable. */
  function Unlogged(sys: System): nat
    requires sys.stage.Handled?
  {
    if sys.stage.envelope.eventId in sys.committed.events then 0 else 1
  }

  lemma HandlerLogs(sys: System)
    requires E.SystemOk(sys) && sys.stage.Inserted? && HandlerRun(sys).stage.Handled?
    ensures |HandlerRun(sys).log| + Unlogged(HandlerRun(sys)) == |sys.log| + (if sys.stage.isNew then 1 else 0)
  {
    var s, e := sys.stage.subject, sys.stage.envelope;
    if sys.stage.isNew { E.HandlerKeepsEvents(sys.working, s, e.body); }
  }

  lemma CommitLogs(sys: System)
    requires E.SystemOk(sys) && sys.stage.Handled?
    ensures |MakeDurable(sys).log| == |sys.log| + Unlogged(sys)
  {
    E.HeldEventIsInserted(sys.committed, sys.working, sys.stage);
  }

  lemma HandledIsOk(sys: System, s: Subject)
    requires E.SystemOk(sys) && CanStep(sys, Receives(s))
    ensures var inserted := Next(Next(sys, Receives(s)), InsertsEvent);
            && E.SystemOk(inserted) && E.SystemOk(Next(inserted, RunsHandler))
            && inserted.log == sys.log && inserted.stage.isNew == IsNew(sys, s)
  {
    E.StepKeeps(sys, Receives(s));
    E.StepKeeps(Next(sys, Receives(s)), InsertsEvent);
    E.StepKeeps(Next(Next(sys, Receives(s)), InsertsEvent), RunsHandler);
  }

  /** One message adds at most one operation to the log: exactly when it was
      new and its handler did not raise. */
  lemma ProcessOneLogs(sys: System, s: Subject)
    requires E.SystemOk(sys) && CanStep(sys, Receives(s))
    ensures E.SystemOk(ProcessOne(sys, s))
    ensures |ProcessOne(sys, s).log| == |sys.log| + (if !Raises(sys, s) && IsNew(sys, s) then 1 else 0)
  {
    var inserted := Next(Next(sys, Receives(s)), InsertsEvent);
    var handled := Next(inserted, RunsHandler);
    HandledIsOk(sys, s);
    if !handled.stage.Idle? {
      HandlerLogs(inserted);
      CommitLogs(handled);
      E.StepKeeps(handled, Commits);
      E.StepKeeps(Next(handled, Commits), Acknowledges);
    }
  }

  /** The number `consume_once` reports is the number of events that became
      durable. */
  lemma {:induction false} DrainCounts(sys: System, s: Subject)
    requires E.SystemOk(sys) && sys.stage.Idle?
    ensures |Drain(sys, s).log| == |sys.log| + Applications(sys, s)
    decreases |QueueIn(sys.net.pending, s)|
  {
    if QueueIn(sys.net.pending, s) != [] {
      ProcessOneLogs(sys, s);
      if !Raises(sys, s) { DrainCounts(ProcessOne(sys, s), s); }
    }
  }

  // -------------------------------------------------------------- the loop

  /** What the transport and the repository hold between messages. */
  ghost function Snapshot(transport: MemoryTransport, repo: Repository, log: seq<Op>): System
    reads transport, repo
  {
    System(transport.State(), repo.committed, repo.working, Idle, log)
  }

  /** One turn of the loop; not alive when the handler raised. The log is
      history only. */
  method ConsumeMessage(transport: MemoryTransport, repo: Repository, s: Subject, ghost log: seq<Op>)
    returns (alive: bool, isNew: bool, ghost log': seq<Op>)
    requires transport.Waiting(s) != []
    modifies transport, repo
    ensures var before := old(Snapshot(transport, repo, log));
            && alive == !Raises(before, s)
            && isNew == IsNew(before, s)
            && Snapshot(transport, repo, log').(working := ProcessOne(before, s).working) == ProcessOne(before, s)
            && (alive ==> Snapshot(transport, repo, log') == ProcessOne(before, s))
  {
    ghost var before := Snapshot(transport, repo, log);
    ghost var received := Next(before, Receives(s));
    ghost var inserted := Next(received, InsertsEvent);
    log' := log;
    var id, e := transport.Receive(s);
    isNew := repo.InsertEvent(s, e);
    assert Snapshot(transport, repo, log) == inserted.(stage := Idle);
    if isNew {
      alive := Handle(repo, s, e.body);
      if !alive { return; }
    }
    ghost var handled := Next(inserted, RunsHandler);
    log' := handled.log;
    assert Snapshot(transport, repo, log') == handled.(stage := Idle);
    repo.Commit();
    log' := Next(handled, Commits).log;
    transport.Acknowledge(s, id);
    alive := true;
  }

  /** `consume_once`: drain the subject and count what had a new effect. */
  method ConsumeOnce(transport: MemoryTransport, repo: Repository, s: Subject, ghost log: seq<Op>)
    returns (alive: bool, applied: nat, ghost log': seq<Op>)
    modifies transport, repo
    ensures var before := old(Snapshot(transport, repo, log));
            && alive == !DrainRaises(before, s) && applied == Applications(before, s)
            && Snapshot(transport, repo, log').(working := Drain(before, s).working) == Drain(before, s)
            && (alive ==> Snapshot(transport, repo, log') == Drain(before, s))
  {
    ghost var before := Snapshot(transport, repo, log);
    log', applied, alive := log, 0, true;
    while transport.Waiting(s) != []
      invariant Drain(Snapshot(transport, repo, log'), s) == Drain(before, s)
      invariant DrainRaises(Snapshot(transport, repo, log'), s) == DrainRaises(before, s)
      invariant alive && applied + Applications(Snapshot(transport, repo, log'), s) == Applications(before, s)
      decreases |transport.Waiting(s)|
    {
      var isNew;
      alive, isNew, log' := ConsumeMessage(transport, repo, s, log');
      if !alive { return; }
      applied := applied + if isNew then 1 else 0;
    }
  }
}
