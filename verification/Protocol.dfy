/** The worker as a protocol: deliver, insert the event, run the handler,
    commit, acknowledge - with crashes, redeliveries, publications and ledger
    maintenance interleaved anywhere. */
module Protocol {
  import opened Ledger
  import opened Transport

  /** How far the worker has got with the message it holds. */
  datatype Stage =
    | Idle
    | Received(subject: Subject, id: nat, envelope: Envelope)
    | Inserted(subject: Subject, id: nat, envelope: Envelope, isNew: bool)
    | Handled(subject: Subject, id: nat, envelope: Envelope)
    | Durable(subject: Subject, id: nat, envelope: Envelope)

  /** The transport, the durable tables, the worker's open transaction, and -
      as history only - the operations that became durable, in order. */
  datatype System = System(net: Net, committed: Db, working: Db, stage: Stage, log: seq<Op>)

  function Start(maxRedeliveries: int): System {
    System(Fresh(maxRedeliveries), EMPTY, EMPTY, Idle, [])
  }

  datatype Step =
    | Publishes(subject: Subject, envelope: Envelope)
    | Receives(subject: Subject)
    | InsertsEvent
    | RunsHandler
    | Commits
    | Acknowledges
    | Crashes
    | Redelivers(subject: Subject)
    | Maintains(op: Op)

  /** Making the open transaction durable records the worker's operation if it
      was not durable yet. */
  function MakeDurable(sys: System): System
    requires !sys.stage.Idle?
  {
    var e := sys.stage.envelope;
    sys.(committed := sys.working,
         log := if e.eventId in sys.working.events && e.eventId !in sys.committed.events
                then sys.log + [Applied(sys.stage.subject, e)] else sys.log)
  }

  /** The process dies: its transaction and what it held are gone. */
  function Crashed(sys: System): System {
    sys.(working := sys.committed, stage := Idle)
  }

  /** Running the handler for an event that was new, or skipping it; anything
      the handler raises ends the process. */
  function HandlerRun(sys: System): System
    requires sys.stage.Inserted?
  {
    var s, id, e := sys.stage.subject, sys.stage.id, sys.stage.envelope;
    if !sys.stage.isNew then sys.(stage := Handled(s, id, e))
    else
      match HandlerEffect(sys.working, s, e.body)
      case None => Crashed(sys)
      case Some(after) =>
        var handled := sys.(working := after, stage := Handled(s, id, e));
        if CommitsItself(sys.working, s, e.body) then MakeDurable(handled) else handled
  }

  /** Nobody else can write while the worker's transaction holds changes. */
  predicate CanStep(sys: System, step: Step) {
    match step
    case Publishes(_, _) => true
    case Receives(s) => sys.stage.Idle? && QueueIn(sys.net.pending, s) != []
    case InsertsEvent => sys.stage.Received?
    case RunsHandler => sys.stage.Inserted?
    case Commits => sys.stage.Handled?
    case Acknowledges => sys.stage.Durable?
    case Crashes => true
    case Redelivers(_) => true
    case Maintains(op) => !op.Applied? && sys.working == sys.committed && ApplyOp(sys.committed, op).Some?
  }

  function Next(sys: System, step: Step): System
    requires CanStep(sys, step)
  {
    match step
    case Publishes(s, e) => sys.(net := Publish(sys.net, s, e))
    case Receives(s) =>
      var m := QueueIn(sys.net.pending, s)[0];
      sys.(net := Deliver(sys.net, s), stage := Received(s, m.id, m.envelope))
    case InsertsEvent =>
      var s, id, e := sys.stage.subject, sys.stage.id, sys.stage.envelope;
      var isNew := e.eventId !in sys.working.events;
      sys.(working := if isNew then RecordEvent(sys.working, s, e) else sys.working,
           stage := Inserted(s, id, e, isNew))
    case RunsHandler => HandlerRun(sys)
    case Commits => MakeDurable(sys).(stage := Durable(sys.stage.subject, sys.stage.id, sys.stage.envelope))
    case Acknowledges => sys.(net := Ack(sys.net, sys.stage.subject, sys.stage.id), stage := Idle)
    case Crashes => Crashed(sys)
    case Redelivers(s) => sys.(net := Redeliver(sys.net, s))
    case Maintains(op) =>
      var after := ApplyOp(sys.committed, op).value;
      sys.(committed := after, working := after, log := sys.log + [op])
  }

  predicate IsRun(sys: System, steps: seq<Step>)
    decreases |steps|
  {
    steps == [] || (CanStep(sys, steps[0]) && IsRun(Next(sys, steps[0]), steps[1..]))
  }

  function Reached(sys: System, steps: seq<Step>): System
    requires IsRun(sys, steps)
    decreases |steps|
  {
    if steps == [] then sys else Reached(Next(sys, steps[0]), steps[1..])
  }
}
