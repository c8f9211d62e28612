/** The in-process transport (src/stakeroute/transport/memory.py): its queues
    as a value, the steps on them, and the class that makes the steps in
    place. */
module Transport {
  import opened Orders
  import opened Ledger

  /** A queued message with the redeliveries it has been through. */
  datatype Message = Message(id: nat, envelope: Envelope, redeliveries: int)

  datatype Flight = Flight(envelope: Envelope, redeliveries: int)

  datatype Letter = Letter(id: nat, envelope: Envelope)

  type Pending = map<Subject, seq<Message>>
  type InFlight = map<Subject, map<nat, Flight>>
  type DeadLetters = map<Subject, seq<Letter>>

  /** The stores and - as history only - what was published, how often each
      message was delivered, and which acknowledgements took. */
  datatype Net = Net(
    pending: Pending,
    inFlight: InFlight,
    deadLetter: DeadLetters,
    nextId: nat,
    maxRedeliveries: int,
    published: map<nat, (Subject, Envelope)>,
    delivered: map<nat, nat>,
    acked: set<nat>)

  // The stores are default dictionaries: a missing subject is empty.

  function QueueIn(pending: Pending, s: Subject): seq<Message> {
    if s in pending then pending[s] else []
  }

  function FlyingIn(inFlight: InFlight, s: Subject): map<nat, Flight> {
    if s in inFlight then inFlight[s] else map[]
  }

  function DeadIn(deadLetter: DeadLetters, s: Subject): seq<Letter> {
    if s in deadLetter then deadLetter[s] else []
  }

  function Fresh(maxRedeliveries: int): Net {
    Net(map[], map[], map[], 1, maxRedeliveries, map[], map[], {})
  }

  function Publish(net: Net, s: Subject, e: Envelope): Net {
    net.(pending := net.pending[s := QueueIn(net.pending, s) + [Message(net.nextId, e, 0)]],
         nextId := net.nextId + 1,
         published := net.published[net.nextId := (s, e)],
         delivered := net.delivered[net.nextId := 0])
  }

  function DeliveriesOf(net: Net, id: nat): nat {
    if id in net.delivered then net.delivered[id] else 0
  }

  /** The head of the queue goes into flight. */
  function Deliver(net: Net, s: Subject): Net
    requires QueueIn(net.pending, s) != []
  {
    var queue := QueueIn(net.pending, s);
    var m := queue[0];
    net.(pending := net.pending[s := queue[1..]],
         inFlight := net.inFlight[s := FlyingIn(net.inFlight, s)[m.id := Flight(m.envelope, m.redeliveries)]],
         delivered := net.delivered[m.id := DeliveriesOf(net, m.id) + 1])
  }

  /** Acknowledging a message that is no longer in flight does nothing. */
  function Ack(net: Net, s: Subject, id: nat): Net {
    var flying := FlyingIn(net.inFlight, s);
    net.(inFlight := net.inFlight[s := flying - {id}],
         acked := if id in flying then net.acked + {id} else net.acked)
  }

  /** The flights that still have redeliveries left, back in the queue. */
  function Requeued(flying: map<nat, Flight>, ids: seq<nat>, max: int): seq<Message>
    requires forall id :: id in ids ==> id in flying
  {
    if ids == [] then []
    else
      var n := |ids| - 1;
      var f := flying[ids[n]];
      Requeued(flying, ids[..n], max)
      + (if f.redeliveries >= max then [] else [Message(ids[n], f.envelope, f.redeliveries + 1)])
  }

  /** The flights that have used theirs up. */
  function Lettered(flying: map<nat, Flight>, ids: seq<nat>, max: int): seq<Letter>
    requires forall id :: id in ids ==> id in flying
  {
    if ids == [] then []
    else
      var n := |ids| - 1;
      var f := flying[ids[n]];
      Lettered(flying, ids[..n], max) + (if f.redeliveries >= max then [Letter(ids[n], f.envelope)] else [])
  }

  /** `simulate_crash`: every un-acked message of the subject, in id order,
      goes back to the queue or to the dead letters. */
  function Redeliver(net: Net, s: Subject): Net {
    var flying := FlyingIn(net.inFlight, s);
    var ids := NatListing(flying.Keys);
    net.(pending := net.pending[s := QueueIn(net.pending, s) + Requeued(flying, ids, net.maxRedeliveries)],
         inFlight := net.inFlight[s := map[]],
         deadLetter := net.deadLetter[s := DeadIn(net.deadLetter, s) + Lettered(flying, ids, net.maxRedeliveries)])
  }

  // ------------------------------------------------------------- the class

  /** One more flight looked at, in the loop of `simulate_crash`. */
  lemma OneMoreFlight(queue: seq<Message>, dead: seq<Letter>, flying: map<nat, Flight>, ids: seq<nat>, i: nat, max: int)
    requires i < |ids| && forall id :: id in ids ==> id in flying
    ensures var f := flying[ids[i]];
            var q, d := queue + Requeued(flying, ids[..i], max), dead + Lettered(flying, ids[..i], max);
            if f.redeliveries >= max then
              queue + Requeued(flying, ids[..i + 1], max) == q
              && dead + Lettered(flying, ids[..i + 1], max) == d + [Letter(ids[i], f.envelope)]
            else
              queue + Requeued(flying, ids[..i + 1], max) == q + [Message(ids[i], f.envelope, f.redeliveries + 1)]
              && dead + Lettered(flying, ids[..i + 1], max) == d
  {
    assert ids[..i + 1][..i] == ids[..i] && ids[..i + 1][i] == ids[i];
  }

  /** The loop of `simulate_crash`, over the subject's own queue and list. */
  method Sweep(flying: map<nat, Flight>, ids: seq<nat>, max: int, queue: seq<Message>, dead: seq<Letter>)
    returns (queue': seq<Message>, dead': seq<Letter>, redelivered: nat)
    requires forall id :: id in ids ==> id in flying
    ensures queue' == queue + Requeued(flying, ids, max)
    ensures dead' == dead + Lettered(flying, ids, max)
    ensures redelivered == |queue'| - |queue|
  {
    queue', dead', redelivered := queue, dead, 0;
    for i := 0 to |ids|
      invariant queue' == queue + Requeued(flying, ids[..i], max)
      invariant dead' == dead + Lettered(flying, ids[..i], max)
      invariant redelivered == |queue'| - |queue|
    {
      var id := ids[i];
      var f := flying[id];
      OneMoreFlight(queue, dead, flying, ids, i, max);
      if f.redeliveries >= max {
        dead' := dead' + [Letter(id, f.envelope)];
      } else {
        queue' := queue' + [Message(id, f.envelope, f.redeliveries + 1)];
        redelivered := redelivered + 1;
      }
    }
    assert ids[..|ids|] == ids;
  }

  class MemoryTransport {
    var pending: Pending
    var inFlight: InFlight
    var deadLetter: DeadLetters
    var nextId: nat
    const maxRedeliveries: int
    ghost var published: map<nat, (Subject, Envelope)>
    ghost var delivered: map<nat, nat>
    ghost var acked: set<nat>

    function Waiting(s: Subject): seq<Message>
      reads this
    {
      QueueIn(pending, s)
    }

    ghost function State(): Net
      reads this
    {
      Net(pending, inFlight, deadLetter, nextId, maxRedeliveries, published, delivered, acked)
    }

    constructor (maxRedeliveries: int)
      ensures State() == Fresh(maxRedeliveries)
    {
      this.maxRedeliveries := maxRedeliveries;
      pending, inFlight, deadLetter, nextId := map[], map[], map[], 1;
      published, delivered, acked := map[], map[], {};
    }

    method PublishMessage(s: Subject, e: Envelope)
      modifies this
      ensures State() == Publish(old(State()), s, e)
    {
      var id := nextId;
      nextId := nextId + 1;
      pending := pending[s := QueueIn(pending, s) + [Message(id, e, 0)]];
      published := published[id := (s, e)];
      delivered := delivered[id := 0];
    }

    /** One turn of `subscribe`: pop the head of the queue into flight. */
    method Receive(s: Subject) returns (id: nat, e: Envelope)
      requires Waiting(s) != []
      modifies this
      ensures id == old(Waiting(s))[0].id && e == old(Waiting(s))[0].envelope
      ensures State() == Deliver(old(State()), s)
    {
      var m := QueueIn(pending, s)[0];
      pending := pending[s := QueueIn(pending, s)[1..]];
      inFlight := inFlight[s := FlyingIn(inFlight, s)[m.id := Flight(m.envelope, m.redeliveries)]];
      delivered := delivered[m.id := DeliveriesOf(State(), m.id) + 1];
      id, e := m.id, m.envelope;
    }

    method Acknowledge(s: Subject, id: nat)
      modifies this
      ensures State() == Ack(old(State()), s, id)
    {
      acked := if id in FlyingIn(inFlight, s) then acked + {id} else acked;
      inFlight := inFlight[s := FlyingIn(inFlight, s) - {id}];
    }

    /** The flights are cleared only after the loop over them. */
    method SimulateCrash(s: Subject) returns (redelivered: nat)
      modifies this
      ensures State() == Redeliver(old(State()), s)
      ensures redelivered == |Waiting(s)| - |old(Waiting(s))|
    {
      var flights := FlyingIn(inFlight, s);
      var queue, dead, moved := Sweep(flights, NatListing(flights.Keys), maxRedeliveries,
                                      QueueIn(pending, s), DeadIn(deadLetter, s));
      pending := pending[s := queue];
      deadLetter := deadLetter[s := dead];
      inFlight := inFlight[s := map[]];
      redelivered := moved;
    }
  }
}
