/** At-least-once delivery: no message is lost or duplicated inside the
    transport, dead letters come after exactly the promised number of
    deliveries, and delivery terminates. */
module TransportTheorems {
  import opened Orders
  import opened Sums
  import opened Ledger
  import opened Transport

  // -------------------------------------------------------------- the steps

  datatype Move =
    | Publishing(subject: Subject, envelope: Envelope)
    | Delivering(subject: Subject)
    | Acking(subject: Subject, id: nat)
    | Redelivering(subject: Subject)

  predicate Enabled(net: Net, move: Move) {
    move.Delivering? ==> QueueIn(net.pending, move.subject) != []
  }

  function Moved(net: Net, move: Move): Net
    requires Enabled(net, move)
  {
    match move
    case Publishing(s, e) => Publish(net, s, e)
    case Delivering(s) => Deliver(net, s)
    case Acking(s, id) => Ack(net, s, id)
    case Redelivering(s) => Redeliver(net, s)
  }

  // ---------------------------------------------------------- the invariant

  /** The copies of a message in a queue, and in a list of dead letters. */
  function Queued(queue: seq<Message>, id: nat): nat {
    if queue == [] then 0 else (if queue[0].id == id then 1 else 0) + Queued(queue[1..], id)
  }

  function Buried(dead: seq<Letter>, id: nat): nat {
    if dead == [] then 0 else (if dead[0].id == id then 1 else 0) + Buried(dead[1..], id)
  }

  function Flown(flying: map<nat, Flight>, id: nat): nat { if id in flying then 1 else 0 }

  /** How often the stores of a subject hold a message. */
  function Copies(net: Net, s: Subject, id: nat): nat {
    Queued(QueueIn(net.pending, s), id) + Flown(FlyingIn(net.inFlight, s), id) + Buried(DeadIn(net.deadLetter, s), id)
  }

  /** Published on the subject and not acknowledged. */
  predicate Outstanding(net: Net, s: Subject, id: nat) {
    id in net.published && net.published[id].0 == s && id !in net.acked
  }

  /** The subject holds one copy of what is outstanding on it, and no other. */
  ghost predicate Conserved(net: Net, s: Subject) {
    forall id :: Copies(net, s, id) == if Outstanding(net, s, id) then 1 else 0
  }

  /** The redeliveries a message may go through. */
  function Limit(net: Net): nat { if net.maxRedeliveries > 0 then net.maxRedeliveries else 0 }

  /** A copy of id with its redelivery counter, after so many deliveries. */
  predicate CopyOk(net: Net, s: Subject, id: nat, e: Envelope, redeliveries: int, deliveries: int) {
    && id in net.published && net.published[id] == (s, e)
    && 0 <= redeliveries <= Limit(net)
    && DeliveriesOf(net, id) == deliveries
  }

  predicate MessageOk(net: Net, s: Subject, m: Message) {
    CopyOk(net, s, m.id, m.envelope, m.redeliveries, m.redeliveries)
  }

  predicate FlightOk(net: Net, s: Subject, id: nat, f: Flight) {
    CopyOk(net, s, id, f.envelope, f.redeliveries, f.redeliveries + 1)
  }

  predicate LetterOk(net: Net, s: Subject, l: Letter) {
    CopyOk(net, s, l.id, l.envelope, Limit(net), Limit(net) + 1)
  }

  ghost predicate ContentsOk(net: Net, s: Subject) {
    && (forall m :: m in QueueIn(net.pending, s) ==> MessageOk(net, s, m))
    && (forall id :: id in FlyingIn(net.inFlight, s) ==> FlightOk(net, s, id, FlyingIn(net.inFlight, s)[id]))
    && (forall l :: l in DeadIn(net.deadLetter, s) ==> LetterOk(net, s, l))
  }

  ghost predicate LaneOk(net: Net, s: Subject) {
    Conserved(net, s) && ContentsOk(net, s)
  }

  ghost predicate NetOk(net: Net) {
    && (forall id :: id in net.published ==> id < net.nextId)
    && net.acked <= net.published.Keys
    && (forall s :: LaneOk(net, s))
  }

  lemma FreshIsOk(maxRedeliveries: int)
    ensures NetOk(Fresh(maxRedeliveries))
  {
    var net := Fresh(maxRedeliveries);
    forall s ensures LaneOk(net, s) { assert Conserved(net, s); }
  }

  // ------------------------------------------------------------ small facts

  lemma {:induction false} QueuedConcat(xs: seq<Message>, ys: seq<Message>, id: nat)
    ensures Queued(xs + ys, id) == Queued(xs, id) + Queued(ys, id)
  {
    if xs == [] {
      assert xs + ys == ys;
    } else {
      assert (xs + ys)[1..] == xs[1..] + ys;
      QueuedConcat(xs[1..], ys, id);
    }
  }

  lemma {:induction false} BuriedConcat(xs: seq<Letter>, ys: seq<Letter>, id: nat)
    ensures Buried(xs + ys, id) == Buried(xs, id) + Buried(ys, id)
  {
    if xs == [] {
      assert xs + ys == ys;
    } else {
      assert (xs + ys)[1..] == xs[1..] + ys;
      BuriedConcat(xs[1..], ys, id);
    }
  }

  lemma {:induction false} QueuedOnce(queue: seq<Message>, m: Message)
    requires m in queue
    ensures Queued(queue, m.id) >= 1
  {
    if m != queue[0] { QueuedOnce(queue[1..], m); }
  }

  lemma {:induction false} BuriedOnce(dead: seq<Letter>, l: Letter)
    requires l in dead
    ensures Buried(dead, l.id) >= 1
  {
    if l != dead[0] { BuriedOnce(dead[1..], l); }
  }

  /** What an operation on one subject leaves of another's. */
  ghost predicate Apart(net: Net, after: Net, t: Subject) {
    && QueueIn(after.pending, t) == QueueIn(net.pending, t)
    && FlyingIn(after.inFlight, t) == FlyingIn(net.inFlight, t)
    && DeadIn(after.deadLetter, t) == DeadIn(net.deadLetter, t)
    && after.maxRedeliveries == net.maxRedeliveries
    && forall id :: SameFate(net, after, t, id)
  }

  predicate SameFate(net: Net, after: Net, t: Subject, id: nat) {
    && (Outstanding(after, t, id) <==> Outstanding(net, t, id))
    && (Outstanding(net, t, id) ==>
          after.published[id] == net.published[id] && DeliveriesOf(after, id) == DeliveriesOf(net, id))
  }

  /** A copy held on a subject is outstanding there. */
  lemma HeldIsOutstanding(net: Net, s: Subject)
    requires Conserved(net, s)
    ensures forall m :: m in QueueIn(net.pending, s) ==> Outstanding(net, s, m.id)
    ensures forall id :: id in FlyingIn(net.inFlight, s) ==> Outstanding(net, s, id)
    ensures forall l :: l in DeadIn(net.deadLetter, s) ==> Outstanding(net, s, l.id)
  {
    forall m | m in QueueIn(net.pending, s) ensures Outstanding(net, s, m.id) {
      QueuedOnce(QueueIn(net.pending, s), m);
      assert Copies(net, s, m.id) >= 1;
    }
    forall id | id in FlyingIn(net.inFlight, s) ensures Outstanding(net, s, id) {
      assert Copies(net, s, id) >= 1;
    }
    forall l | l in DeadIn(net.deadLetter, s) ensures Outstanding(net, s, l.id) {
      BuriedOnce(DeadIn(net.deadLetter, s), l);
      assert Copies(net, s, l.id) >= 1;
    }
  }

  lemma ApartKeeps(net: Net, after: Net, t: Subject)
    requires LaneOk(net, t) && Apart(net, after, t)
    ensures LaneOk(after, t)
  {
    HeldIsOutstanding(net, t);
    forall id ensures Copies(after, t, id) == if Outstanding(after, t, id) then 1 else 0 {
      assert Copies(net, t, id) == if Outstanding(net, t, id) then 1 else 0;
      assert SameFate(net, after, t, id);
    }
    forall m | m in QueueIn(after.pending, t) ensures MessageOk(after, t, m) {
      assert MessageOk(net, t, m) && SameFate(net, after, t, m.id);
    }
    forall id | id in FlyingIn(after.inFlight, t) ensures FlightOk(after, t, id, FlyingIn(after.inFlight, t)[id]) {
      assert FlightOk(net, t, id, FlyingIn(net.inFlight, t)[id]) && SameFate(net, after, t, id);
    }
    forall l | l in DeadIn(after.deadLetter, t) ensures LetterOk(after, t, l) {
      assert LetterOk(net, t, l) && SameFate(net, after, t, l.id);
    }
  }

  // ------------------------------------------------------------ publication

  ghost predicate FreshId(net: Net) {
    net.nextId !in net.published && net.nextId !in net.acked
  }

  lemma PublishConserves(net: Net, s: Subject, e: Envelope)
    requires FreshId(net) && Conserved(net, s)
    ensures Conserved(Publish(net, s, e), s)
  {
    var after, queue, m := Publish(net, s, e), QueueIn(net.pending, s), Message(net.nextId, e, 0);
    forall id ensures Copies(after, s, id) == if Outstanding(after, s, id) then 1 else 0 {
      assert Copies(net, s, id) == if Outstanding(net, s, id) then 1 else 0;
      QueuedConcat(queue, [m], id);
      assert Queued([m], id) == (if id == m.id then 1 else 0) + Queued([], id) by { assert [m][1..] == []; }
    }
  }

  lemma PublishKeepsContents(net: Net, s: Subject, e: Envelope)
    requires FreshId(net) && ContentsOk(net, s)
    ensures ContentsOk(Publish(net, s, e), s)
  {
    var after, queue, m := Publish(net, s, e), QueueIn(net.pending, s), Message(net.nextId, e, 0);
    forall n | n in queue + [m] ensures MessageOk(after, s, n) { assert n != m ==> MessageOk(net, s, n); }
    forall id | id in FlyingIn(after.inFlight, s) ensures FlightOk(after, s, id, FlyingIn(after.inFlight, s)[id]) {
      assert FlightOk(net, s, id, FlyingIn(net.inFlight, s)[id]);
    }
    forall l | l in DeadIn(after.deadLetter, s) ensures LetterOk(after, s, l) { assert LetterOk(net, s, l); }
  }

  lemma PublishKeeps(net: Net, s: Subject, e: Envelope)
    requires NetOk(net)
    ensures NetOk(Publish(net, s, e))
  {
    var after := Publish(net, s, e);
    assert FreshId(net);
    forall t ensures LaneOk(after, t) {
      assert LaneOk(net, t);
      if t == s {
        PublishConserves(net, s, e);
        PublishKeepsContents(net, s, e);
      } else {
        ApartKeeps(net, after, t);
      }
    }
  }

  // --------------------------------------------------------------- delivery

  /** The head of a queue is in no other place. */
  lemma HeadIsAlone(net: Net, s: Subject)
    requires Conserved(net, s) && QueueIn(net.pending, s) != []
    ensures var id := QueueIn(net.pending, s)[0].id;
            && Outstanding(net, s, id)
            && (forall n :: n in QueueIn(net.pending, s)[1..] ==> n.id != id)
            && id !in FlyingIn(net.inFlight, s)
            && (forall l :: l in DeadIn(net.deadLetter, s) ==> l.id != id)
  {
    var queue, dead := QueueIn(net.pending, s), DeadIn(net.deadLetter, s);
    var id := queue[0].id;
    assert Copies(net, s, id) == if Outstanding(net, s, id) then 1 else 0;
    assert Queued(queue, id) == 1 + Queued(queue[1..], id);
    forall n | n in queue[1..] ensures n.id != id { QueuedOnce(queue[1..], n); }
    forall l | l in dead ensures l.id != id { BuriedOnce(dead, l); }
  }

  lemma DeliverConserves(net: Net, s: Subject)
    requires Conserved(net, s) && QueueIn(net.pending, s) != []
    ensures Conserved(Deliver(net, s), s)
  {
    var after, queue := Deliver(net, s), QueueIn(net.pending, s);
    HeadIsAlone(net, s);
    forall id ensures Copies(after, s, id) == if Outstanding(after, s, id) then 1 else 0 {
      assert Copies(net, s, id) == if Outstanding(net, s, id) then 1 else 0;
      assert Queued(queue, id) == (if queue[0].id == id then 1 else 0) + Queued(queue[1..], id);
    }
  }

  lemma DeliverKeepsContents(net: Net, s: Subject)
    requires LaneOk(net, s) && QueueIn(net.pending, s) != []
    ensures ContentsOk(Deliver(net, s), s)
  {
    var after, queue := Deliver(net, s), QueueIn(net.pending, s);
    HeadIsAlone(net, s);
    forall n | n in queue[1..] ensures MessageOk(after, s, n) {
      assert n in queue;
      assert MessageOk(net, s, n);
    }
    forall id | id in FlyingIn(after.inFlight, s) ensures FlightOk(after, s, id, FlyingIn(after.inFlight, s)[id]) {
      if id == queue[0].id {
        assert MessageOk(net, s, queue[0]);
      } else {
        assert FlightOk(net, s, id, FlyingIn(net.inFlight, s)[id]);
      }
    }
    forall l | l in DeadIn(after.deadLetter, s) ensures LetterOk(after, s, l) { assert LetterOk(net, s, l); }
  }

  lemma DeliverKeeps(net: Net, s: Subject)
    requires NetOk(net) && QueueIn(net.pending, s) != []
    ensures NetOk(Deliver(net, s))
  {
    var after := Deliver(net, s);
    assert LaneOk(net, s);
    HeadIsAlone(net, s);
    forall t ensures LaneOk(after, t) {
      assert LaneOk(net, t);
      if t == s {
        DeliverConserves(net, s);
        DeliverKeepsContents(net, s);
      } else {
        ApartKeeps(net, after, t);
      }
    }
  }

  // -------------------------------------------------------- acknowledgement

  lemma AckKeepsLane(net: Net, s: Subject, id: nat)
    requires LaneOk(net, s)
    ensures LaneOk(Ack(net, s, id), s)
  {
    var after := Ack(net, s, id);
    forall n ensures Copies(after, s, n) == if Outstanding(after, s, n) then 1 else 0 {
      assert Copies(net, s, n) == if Outstanding(net, s, n) then 1 else 0;
    }
    forall m | m in QueueIn(after.pending, s) ensures MessageOk(after, s, m) { assert MessageOk(net, s, m); }
    forall n | n in FlyingIn(after.inFlight, s) ensures FlightOk(after, s, n, FlyingIn(after.inFlight, s)[n]) {
      assert FlightOk(net, s, n, FlyingIn(net.inFlight, s)[n]);
    }
    forall l | l in DeadIn(after.deadLetter, s) ensures LetterOk(after, s, l) { assert LetterOk(net, s, l); }
  }

  lemma AckFate(net: Net, s: Subject, id: nat, t: Subject, n: nat)
    requires s != t && (id in FlyingIn(net.inFlight, s) ==> Outstanding(net, s, id))
    ensures SameFate(net, Ack(net, s, id), t, n)
  {
  }

  lemma AckApart(net: Net, s: Subject, id: nat, t: Subject)
    requires LaneOk(net, s) && s != t
    ensures Apart(net, Ack(net, s, id), t)
  {
    assert id in FlyingIn(net.inFlight, s) ==> Copies(net, s, id) >= 1;
    assert Copies(net, s, id) == if Outstanding(net, s, id) then 1 else 0;
    forall n ensures SameFate(net, Ack(net, s, id), t, n) { AckFate(net, s, id, t, n); }
  }

  lemma AckKeeps(net: Net, s: Subject, id: nat)
    requires NetOk(net)
    ensures NetOk(Ack(net, s, id))
  {
    var after := Ack(net, s, id);
    assert LaneOk(net, s);
    forall t ensures LaneOk(after, t) {
      assert LaneOk(net, t);
      if t == s {
        AckKeepsLane(net, s, id);
      } else {
        AckApart(net, s, id, t);
        ApartKeeps(net, after, t);
      }
    }
  }

  // ------------------------------------------------------------- redelivery

  lemma LastSweptOnce(flying: map<nat, Flight>, ids: seq<nat>, max: int, id: nat)
    requires ids != [] && forall n :: n in ids ==> n in flying
    ensures var init := ids[..|ids| - 1];
            Queued(Requeued(flying, ids, max), id) + Buried(Lettered(flying, ids, max), id)
              == Queued(Requeued(flying, init, max), id) + Buried(Lettered(flying, init, max), id)
                 + (if ids[|ids| - 1] == id then 1 else 0)
  {
    var init, last := ids[..|ids| - 1], ids[|ids| - 1];
    var f := flying[last];
    var kept, lost := Requeued(flying, init, max), Lettered(flying, init, max);
    if f.redeliveries >= max {
      var letter := Letter(last, f.envelope);
      BuriedConcat(lost, [letter], id);
      assert [letter][1..] == [] && kept + [] == kept;
    } else {
      var again := Message(last, f.envelope, f.redeliveries + 1);
      QueuedConcat(kept, [again], id);
      assert [again][1..] == [] && lost + [] == lost;
    }
  }

  /** Each flight swept goes to exactly one of the two places. */
  lemma {:induction false} SweptOnce(flying: map<nat, Flight>, ids: seq<nat>, max: int, id: nat)
    requires Distinct(ids) && forall n :: n in ids ==> n in flying
    ensures Queued(Requeued(flying, ids, max), id) + Buried(Lettered(flying, ids, max), id)
              == if id in ids then 1 else 0
    decreases |ids|
  {
    if ids != [] {
      SweptOnce(flying, ids[..|ids| - 1], max, id);
      LastSweptOnce(flying, ids, max, id);
      assert ids == ids[..|ids| - 1] + [ids[|ids| - 1]];
    }
  }

  ghost predicate AscendingMessages(queue: seq<Message>) {
    forall i, j :: 0 <= i < j < |queue| ==> queue[i].id < queue[j].id
  }

  ghost predicate AscendingLetters(dead: seq<Letter>) {
    forall i, j :: 0 <= i < j < |dead| ==> dead[i].id < dead[j].id
  }

  /** The flight goes back to the queue, with one redelivery more. */
  predicate GoesBack(flying: map<nat, Flight>, max: int, m: Message) {
    m.id in flying && flying[m.id].redeliveries < max
    && m.envelope == flying[m.id].envelope && m.redeliveries == flying[m.id].redeliveries + 1
  }

  /** The flight has used up its redeliveries. */
  predicate GivenUp(flying: map<nat, Flight>, max: int, l: Letter) {
    l.id in flying && flying[l.id].redeliveries >= max && l.envelope == flying[l.id].envelope
  }

  lemma {:induction false} SweptExactly(flying: map<nat, Flight>, ids: seq<nat>, max: int)
    requires forall id :: id in ids ==> id in flying
    ensures forall m :: m in Requeued(flying, ids, max) <==> m.id in ids && GoesBack(flying, max, m)
    ensures forall l :: l in Lettered(flying, ids, max) <==> l.id in ids && GivenUp(flying, max, l)
    decreases |ids|
  {
    if ids != [] {
      var n := |ids| - 1;
      SweptExactly(flying, ids[..n], max);
      assert ids == ids[..n] + [ids[n]];
    }
  }

  lemma {:induction false} SweptInOrder(flying: map<nat, Flight>, ids: seq<nat>, max: int)
    requires (forall id :: id in ids ==> id in flying) && Distinct(ids) && SortedBy(NatLe, ids)
    ensures AscendingMessages(Requeued(flying, ids, max)) && AscendingLetters(Lettered(flying, ids, max))
    decreases |ids|
  {
    if ids != [] {
      var n := |ids| - 1;
      SweptInOrder(flying, ids[..n], max);
      SweptExactly(flying, ids[..n], max);
      forall id | id in ids[..n] ensures id < ids[n] {
        var i :| 0 <= i < n && ids[i] == id;
        assert NatLe(ids[i], ids[n]);
      }
    }
  }

  /** A redelivery, decided: behind what is queued and buried already, in id
      order, go back exactly the flights with redeliveries left, one redelivery
      older, and are given up exactly the others. */
  lemma RedeliverDecided(net: Net, s: Subject)
    ensures var flying, max, after := FlyingIn(net.inFlight, s), net.maxRedeliveries, Redeliver(net, s);
            var queue, dead := QueueIn(net.pending, s), DeadIn(net.deadLetter, s);
            && queue <= QueueIn(after.pending, s) && dead <= DeadIn(after.deadLetter, s)
            && FlyingIn(after.inFlight, s) == map[]
            && var again, buried := QueueIn(after.pending, s)[|queue|..], DeadIn(after.deadLetter, s)[|dead|..];
               && AscendingMessages(again) && (forall m :: m in again <==> GoesBack(flying, max, m))
               && AscendingLetters(buried) && (forall l :: l in buried <==> GivenUp(flying, max, l))
  {
    var flying := FlyingIn(net.inFlight, s);
    SweptExactly(flying, NatListing(flying.Keys), net.maxRedeliveries);
    SweptInOrder(flying, NatListing(flying.Keys), net.maxRedeliveries);
    var again := Requeued(flying, NatListing(flying.Keys), net.maxRedeliveries);
    var buried := Lettered(flying, NatListing(flying.Keys), net.maxRedeliveries);
    assert (QueueIn(net.pending, s) + again)[|QueueIn(net.pending, s)|..] == again;
    assert (DeadIn(net.deadLetter, s) + buried)[|DeadIn(net.deadLetter, s)|..] == buried;
  }

  lemma RedeliverCopies(net: Net, s: Subject, id: nat)
    ensures Copies(Redeliver(net, s), s, id) == Copies(net, s, id)
  {
    var flying := FlyingIn(net.inFlight, s);
    var ids := NatListing(flying.Keys);
    SweptOnce(flying, ids, net.maxRedeliveries, id);
    QueuedConcat(QueueIn(net.pending, s), Requeued(flying, ids, net.maxRedeliveries), id);
    BuriedConcat(DeadIn(net.deadLetter, s), Lettered(flying, ids, net.maxRedeliveries), id);
    assert Flown(flying, id) == if id in ids then 1 else 0;
  }

  lemma RedeliverConserves(net: Net, s: Subject)
    requires Conserved(net, s)
    ensures Conserved(Redeliver(net, s), s)
  {
    var after := Redeliver(net, s);
    forall id ensures Copies(after, s, id) == if Outstanding(after, s, id) then 1 else 0 {
      RedeliverCopies(net, s, id);
      assert Outstanding(after, s, id) == Outstanding(net, s, id);
    }
  }

  lemma SweptOk(net: Net, s: Subject)
    requires ContentsOk(net, s)
    ensures var flying := FlyingIn(net.inFlight, s);
            && (forall m :: m in Requeued(flying, NatListing(flying.Keys), net.maxRedeliveries) ==>
                  MessageOk(net, s, m))
            && (forall l :: l in Lettered(flying, NatListing(flying.Keys), net.maxRedeliveries) ==> LetterOk(net, s, l))
  {
    var flying := FlyingIn(net.inFlight, s);
    var again := Requeued(flying, NatListing(flying.Keys), net.maxRedeliveries);
    var letters := Lettered(flying, NatListing(flying.Keys), net.maxRedeliveries);
    SweptExactly(flying, NatListing(flying.Keys), net.maxRedeliveries);
    forall m | m in again ensures MessageOk(net, s, m) { assert FlightOk(net, s, m.id, flying[m.id]); }
    forall l | l in letters ensures LetterOk(net, s, l) { assert FlightOk(net, s, l.id, flying[l.id]); }
  }

  lemma RedeliverKeepsContents(net: Net, s: Subject)
    requires ContentsOk(net, s)
    ensures ContentsOk(Redeliver(net, s), s)
  {
    var after := Redeliver(net, s);
    SweptOk(net, s);
    forall m | m in QueueIn(after.pending, s) ensures MessageOk(after, s, m) { assert MessageOk(net, s, m); }
    forall l | l in DeadIn(after.deadLetter, s) ensures LetterOk(after, s, l) { assert LetterOk(net, s, l); }
  }

  lemma RedeliverKeeps(net: Net, s: Subject)
    requires NetOk(net)
    ensures NetOk(Redeliver(net, s))
  {
    var after := Redeliver(net, s);
    forall t ensures LaneOk(after, t) {
      assert LaneOk(net, t);
      if t == s {
        RedeliverConserves(net, s);
        RedeliverKeepsContents(net, s);
      } else {
        ApartKeeps(net, after, t);
      }
    }
  }

  /** Every step, in every interleaving, keeps the transport in order. */
  lemma MoveKeeps(net: Net, move: Move)
    requires NetOk(net) && Enabled(net, move)
    ensures NetOk(Moved(net, move))
  {
    match move {
      case Publishing(s, e) => PublishKeeps(net, s, e);
      case Delivering(s) => DeliverKeeps(net, s);
      case Acking(s, id) => AckKeeps(net, s, id);
      case Redelivering(s) => RedeliverKeeps(net, s);
    }
  }

  // ------------------------------------------------------- what this gives

  /** Any run of steps that can be taken one after the other. */
  predicate Runs(net: Net, moves: seq<Move>)
    decreases |moves|
  {
    moves == [] || (Enabled(net, moves[0]) && Runs(Moved(net, moves[0]), moves[1..]))
  }

  function After(net: Net, moves: seq<Move>): Net
    requires Runs(net, moves)
    decreases |moves|
  {
    if moves == [] then net else After(Moved(net, moves[0]), moves[1..])
  }

  lemma {:induction false} RunKeeps(net: Net, moves: seq<Move>)
    requires NetOk(net) && Runs(net, moves)
    ensures NetOk(After(net, moves))
    decreases |moves|
  {
    if moves != [] {
      MoveKeeps(net, moves[0]);
      RunKeeps(Moved(net, moves[0]), moves[1..]);
    }
  }

  /** What the moves published, in order. */
  function Publications(moves: seq<Move>): seq<(Subject, Envelope)>
    decreases |moves|
  {
    if moves == [] then []
    else if moves[0].Publishing? then [(moves[0].subject, moves[0].envelope)] + Publications(moves[1..])
    else Publications(moves[1..])
  }

  /** Between two states exactly these were published, under the next ids. */
  ghost predicate Numbers(net: Net, after: Net, sent: seq<(Subject, Envelope)>) {
    && after.nextId == net.nextId + |sent|
    && (forall id :: id in after.published <==> id in net.published || net.nextId <= id < after.nextId)
    && (forall id :: id in net.published ==> after.published[id] == net.published[id])
    && (forall k :: net.nextId <= k < after.nextId ==> after.published[k] == sent[k - net.nextId])
  }

  lemma NumbersOneMore(net: Net, s: Subject, e: Envelope, after: Net, rest: seq<(Subject, Envelope)>)
    requires Numbers(Publish(net, s, e), after, rest) && net.nextId !in net.published
    ensures Numbers(net, after, [(s, e)] + rest)
  {
    assert Publish(net, s, e).published[net.nextId] == (s, e);
  }

  lemma OnlyPublishingNumbers(net: Net, move: Move)
    requires Enabled(net, move)
    ensures Moved(net, move).published
              == if move.Publishing? then net.published[net.nextId := (move.subject, move.envelope)] else net.published
    ensures Moved(net, move).nextId == if move.Publishing? then net.nextId + 1 else net.nextId
  {
  }

  lemma NumbersNoMore(net: Net, next: Net, after: Net, rest: seq<(Subject, Envelope)>)
    requires Numbers(next, after, rest) && next.published == net.published && next.nextId == net.nextId
    ensures Numbers(net, after, rest)
  {
  }

  lemma {:induction false} NumberedFrom(net: Net, moves: seq<Move>)
    requires Runs(net, moves) && forall id :: id in net.published ==> id < net.nextId
    ensures Numbers(net, After(net, moves), Publications(moves))
    decreases |moves|
  {
    if moves != [] {
      var next := Moved(net, moves[0]);
      OnlyPublishingNumbers(net, moves[0]);
      NumberedFrom(next, moves[1..]);
      if moves[0].Publishing? {
        NumbersOneMore(net, moves[0].subject, moves[0].envelope, After(next, moves[1..]), Publications(moves[1..]));
      } else {
        NumbersNoMore(net, next, After(next, moves[1..]), Publications(moves[1..]));
      }
    }
  }

  lemma NumbersFromOne(maxRedeliveries: int, after: Net, sent: seq<(Subject, Envelope)>)
    requires Numbers(Fresh(maxRedeliveries), after, sent)
    ensures forall id :: id in after.published <==> 1 <= id <= |sent|
    ensures forall id :: 1 <= id <= |sent| ==> after.published[id] == sent[id - 1]
  {
  }

  /** The ids are 1, 2, 3 and so on in publication order, whatever happens in
      between, and each says what was published under it. */
  lemma NumberedInOrder(maxRedeliveries: int, moves: seq<Move>)
    requires Runs(Fresh(maxRedeliveries), moves)
    ensures var published, sent := After(Fresh(maxRedeliveries), moves).published, Publications(moves);
            && (forall id :: id in published <==> 1 <= id <= |sent|)
            && (forall id :: 1 <= id <= |sent| ==> published[id] == sent[id - 1])
  {
    NumberedFrom(Fresh(maxRedeliveries), moves);
    NumbersFromOne(maxRedeliveries, After(Fresh(maxRedeliveries), moves), Publications(moves));
  }

  /** From a fresh transport, in every interleaving: each published message is
      queued, in flight, dead-lettered or acknowledged - exactly one of them,
      once, and only on its own subject. */
  lemma NothingLost(maxRedeliveries: int, moves: seq<Move>, s: Subject, id: nat)
    requires Runs(Fresh(maxRedeliveries), moves)
    ensures var net := After(Fresh(maxRedeliveries), moves);
            if id in net.published && net.published[id].0 == s then
              Queued(QueueIn(net.pending, s), id) + Flown(FlyingIn(net.inFlight, s), id)
              + Buried(DeadIn(net.deadLetter, s), id) + (if id in net.acked then 1 else 0) == 1
            else Queued(QueueIn(net.pending, s), id) + Flown(FlyingIn(net.inFlight, s), id)
                 + Buried(DeadIn(net.deadLetter, s), id) == 0
  {
    FreshIsOk(maxRedeliveries);
    RunKeeps(Fresh(maxRedeliveries), moves);
    var net := After(Fresh(maxRedeliveries), moves);
    assert LaneOk(net, s);
    assert Copies(net, s, id) == if Outstanding(net, s, id) then 1 else 0;
  }

  /** A dead letter was delivered exactly once more than redeliveries are
      allowed, carries what was published, and will not be delivered again;
      nothing still queued has used its redeliveries up. */
  lemma DeadLettersWereTried(maxRedeliveries: int, moves: seq<Move>, s: Subject)
    requires Runs(Fresh(maxRedeliveries), moves)
    ensures var net := After(Fresh(maxRedeliveries), moves);
            && (forall l :: l in DeadIn(net.deadLetter, s) ==>
                  l.id in net.published && net.published[l.id] == (s, l.envelope)
                  && DeliveriesOf(net, l.id) == Limit(net) + 1 && Queued(QueueIn(net.pending, s), l.id) == 0)
            && (forall m :: m in QueueIn(net.pending, s) ==> DeliveriesOf(net, m.id) <= Limit(net))
  {
    FreshIsOk(maxRedeliveries);
    RunKeeps(Fresh(maxRedeliveries), moves);
    var net := After(Fresh(maxRedeliveries), moves);
    assert LaneOk(net, s);
    forall l | l in DeadIn(net.deadLetter, s)
      ensures LetterOk(net, s, l) && Queued(QueueIn(net.pending, s), l.id) == 0
    {
      BuriedOnce(DeadIn(net.deadLetter, s), l);
      assert Copies(net, s, l.id) == if Outstanding(net, s, l.id) then 1 else 0;
    }
    forall m | m in QueueIn(net.pending, s) ensures DeliveriesOf(net, m.id) <= Limit(net) {
      assert MessageOk(net, s, m);
    }
  }

  /** The messages of a queue are in publication order, all of them published
      after the given one. */
  ghost predicate InOrder(queue: seq<Message>, last: int) {
    && (forall i :: 0 <= i < |queue| ==> last < queue[i].id)
    && (forall i, j :: 0 <= i < j < |queue| ==> queue[i].id < queue[j].id)
  }

  /** The last message of the subject that the step delivers, if it does. */
  function LastDelivered(net: Net, move: Move, s: Subject, last: int): int
    requires Enabled(net, move)
  {
    if move == Delivering(s) then QueueIn(net.pending, s)[0].id else last
  }

  lemma PublishedInOrder(net: Net, s: Subject, e: Envelope, last: int)
    requires NetOk(net) && InOrder(QueueIn(net.pending, s), last) && last < net.nextId
    ensures InOrder(QueueIn(Publish(net, s, e).pending, s), last)
  {
    var queue := QueueIn(net.pending, s);
    assert LaneOk(net, s);
    forall i | 0 <= i < |queue| ensures queue[i].id < net.nextId {
      assert queue[i] in queue;
      assert MessageOk(net, s, queue[i]);
    }
  }

  lemma OrderKept(net: Net, move: Move, s: Subject, last: int)
    requires NetOk(net) && Enabled(net, move) && !move.Redelivering?
    requires InOrder(QueueIn(net.pending, s), last) && last < net.nextId
    ensures var after := Moved(net, move);
            var now := LastDelivered(net, move, s, last);
            last <= now < after.nextId && InOrder(QueueIn(after.pending, s), now)
            && (move == Delivering(s) ==> last < now)
  {
    match move {
      case Publishing(t, e) => if t == s { PublishedInOrder(net, s, e, last); }
      case Delivering(t) =>
        if t == s {
          assert LaneOk(net, s);
          assert MessageOk(net, s, QueueIn(net.pending, s)[0]);
        }
      case Acking(_, _) =>
    }
  }

  /** The message ids a run delivers on a subject, in order. */
  function DeliveredIds(net: Net, moves: seq<Move>, s: Subject): seq<nat>
    requires Runs(net, moves)
    decreases |moves|
  {
    if moves == [] then []
    else
      (if moves[0] == Delivering(s) then [QueueIn(net.pending, s)[0].id] else [])
      + DeliveredIds(Moved(net, moves[0]), moves[1..], s)
  }

  ghost predicate Increasing(ids: seq<nat>, last: int) {
    && (forall i :: 0 <= i < |ids| ==> last < ids[i])
    && (forall i, j :: 0 <= i < j < |ids| ==> ids[i] < ids[j])
  }

  lemma {:induction false} DeliveredInOrder(net: Net, moves: seq<Move>, s: Subject, last: int)
    requires NetOk(net) && Runs(net, moves) && forall m :: m in moves ==> !m.Redelivering?
    requires InOrder(QueueIn(net.pending, s), last) && last < net.nextId
    ensures Increasing(DeliveredIds(net, moves, s), last)
    decreases |moves|
  {
    if moves != [] {
      assert moves[0] in moves;
      OrderKept(net, moves[0], s, last);
      MoveKeeps(net, moves[0]);
      var now, rest := LastDelivered(net, moves[0], s, last), DeliveredIds(Moved(net, moves[0]), moves[1..], s);
      DeliveredInOrder(Moved(net, moves[0]), moves[1..], s, now);
      if moves[0] == Delivering(s) {
        assert DeliveredIds(net, moves, s) == [now] + rest;
      } else {
        assert DeliveredIds(net, moves, s) == [] + rest == rest;
      }
    }
  }

  /** First come, first served: in every run from a fresh transport without a
      redelivery, each subject's messages are delivered in the order they were
      published, each once. */
  lemma FirstComeFirstServed(maxRedeliveries: int, moves: seq<Move>, s: Subject)
    requires Runs(Fresh(maxRedeliveries), moves) && forall m :: m in moves ==> !m.Redelivering?
    ensures var ids := DeliveredIds(Fresh(maxRedeliveries), moves, s);
            forall i, j :: 0 <= i < j < |ids| ==> ids[i] < ids[j]
  {
    FreshIsOk(maxRedeliveries);
    DeliveredInOrder(Fresh(maxRedeliveries), moves, s, 0);
  }

  // ------------------------------------------------------------ termination

  function QueueWeight(queue: seq<Message>, limit: nat): int {
    if queue == [] then 0 else 2 * (limit - queue[0].redeliveries) + 2 + QueueWeight(queue[1..], limit)
  }

  function FlightWeights(flying: map<nat, Flight>, limit: nat): map<nat, int> {
    map id | id in flying :: 2 * (limit - flying[id].redeliveries) + 1
  }

  /** What a subject can still do: two steps for each delivery left. */
  ghost function LaneWeight(net: Net, s: Subject): int {
    QueueWeight(QueueIn(net.pending, s), Limit(net)) + MapTotal(FlightWeights(FlyingIn(net.inFlight, s), Limit(net)))
  }

  ghost function Measure(net: Net): int {
    LaneWeight(net, SignalsRaw) + LaneWeight(net, ForecastsCreated) + LaneWeight(net, OutcomesResolved)
  }

  lemma {:induction false} QueueWeightConcat(xs: seq<Message>, ys: seq<Message>, limit: nat)
    ensures QueueWeight(xs + ys, limit) == QueueWeight(xs, limit) + QueueWeight(ys, limit)
  {
    if xs == [] {
      assert xs + ys == ys;
    } else {
      assert (xs + ys)[1..] == xs[1..] + ys;
      QueueWeightConcat(xs[1..], ys, limit);
    }
  }

  lemma {:induction false} QueueWeightNonNegative(queue: seq<Message>, limit: nat)
    requires forall m :: m in queue ==> m.redeliveries <= limit
    ensures QueueWeight(queue, limit) >= 0
  {
    if queue != [] {
      assert queue[0] in queue;
      QueueWeightNonNegative(queue[1..], limit);
    }
  }

  lemma MeasureNonNegative(net: Net)
    requires NetOk(net)
    ensures Measure(net) >= 0
  {
    forall s ensures LaneWeight(net, s) >= 0 {
      assert LaneOk(net, s);
      forall m | m in QueueIn(net.pending, s) ensures m.redeliveries <= Limit(net) { assert MessageOk(net, s, m); }
      QueueWeightNonNegative(QueueIn(net.pending, s), Limit(net));
      var flying := FlyingIn(net.inFlight, s);
      forall id | id in flying ensures FlightWeights(flying, Limit(net))[id] >= 0 {
        assert FlightOk(net, s, id, flying[id]);
      }
      MapTotalNonNegative(FlightWeights(flying, Limit(net)));
    }
  }

  lemma DeliverWeight(net: Net, s: Subject)
    requires LaneOk(net, s) && QueueIn(net.pending, s) != []
    ensures LaneWeight(Deliver(net, s), s) == LaneWeight(net, s) - 1
  {
    var flying, m, limit := FlyingIn(net.inFlight, s), QueueIn(net.pending, s)[0], Limit(net);
    HeadIsAlone(net, s);
    var w := 2 * (limit - m.redeliveries) + 1;
    assert FlightWeights(flying[m.id := Flight(m.envelope, m.redeliveries)], limit)
           == FlightWeights(flying, limit)[m.id := w];
    MapTotalUpdated(FlightWeights(flying, limit), m.id, w);
  }

  lemma AckWeight(net: Net, s: Subject, id: nat)
    requires LaneOk(net, s)
    ensures LaneWeight(Ack(net, s, id), s)
              <= LaneWeight(net, s) - (if id in FlyingIn(net.inFlight, s) then 1 else 0)
  {
    var flying: map<nat, Flight>, limit := FlyingIn(net.inFlight, s), Limit(net);
    var rest: map<nat, Flight> := flying - {id};
    assert FlightWeights(rest, limit) == FlightWeights(flying, limit) - {id};
    MapTotalDropped(FlightWeights(flying, limit), id);
    assert id in flying ==> FlightOk(net, s, id, flying[id]);
  }

  /** Each flight swept loses exactly one step. */
  lemma {:induction false} SweptWeight(flying: map<nat, Flight>, ids: seq<nat>, max: int, limit: nat)
    requires forall id :: id in ids ==> id in flying && 0 <= flying[id].redeliveries <= limit
    requires limit == if max > 0 then max else 0
    ensures QueueWeight(Requeued(flying, ids, max), limit) == ListTotal(FlightWeights(flying, limit), ids) - |ids|
    decreases |ids|
  {
    if ids != [] {
      assert ids[|ids| - 1] in ids;
      SweptWeight(flying, ids[..|ids| - 1], max, limit);
      LastSweptWeight(flying, ids, max, limit);
    }
  }

  lemma LastSweptWeight(flying: map<nat, Flight>, ids: seq<nat>, max: int, limit: nat)
    requires ids != [] && forall id :: id in ids ==> id in flying
    requires limit == if max > 0 then max else 0
    requires 0 <= flying[ids[|ids| - 1]].redeliveries <= limit
    ensures QueueWeight(Requeued(flying, ids, max), limit)
              == QueueWeight(Requeued(flying, ids[..|ids| - 1], max), limit)
                 + 2 * (limit - flying[ids[|ids| - 1]].redeliveries)
  {
    var init, f := ids[..|ids| - 1], flying[ids[|ids| - 1]];
    var kept, again := Requeued(flying, init, max), Message(ids[|ids| - 1], f.envelope, f.redeliveries + 1);
    QueueWeightConcat(kept, [again], limit);
    assert QueueWeight([again], limit) == 2 * (limit - again.redeliveries) + 2 by { assert [again][1..] == []; }
    assert kept + [] == kept;
  }

  /** The flights' weight, less one step each, is what goes back in queue. */
  lemma AllSweptWeight(flying: map<nat, Flight>, max: int, limit: nat)
    requires limit == if max > 0 then max else 0
    requires forall id :: id in flying ==> 0 <= flying[id].redeliveries <= limit
    ensures QueueWeight(Requeued(flying, NatListing(flying.Keys), max), limit)
              == MapTotal(FlightWeights(flying, limit)) - |flying|
  {
    var ids := NatListing(flying.Keys);
    SweptWeight(flying, ids, max, limit);
    ListTotalIsMapTotal(FlightWeights(flying, limit), ids);
    DistinctLength(ids, flying.Keys);
    assert |flying.Keys| == |flying|;
  }

  lemma RedeliverWeight(net: Net, s: Subject)
    requires LaneOk(net, s)
    ensures LaneWeight(Redeliver(net, s), s) == LaneWeight(net, s) - |FlyingIn(net.inFlight, s)|
  {
    var flying, limit := FlyingIn(net.inFlight, s), Limit(net);
    forall id | id in flying ensures 0 <= flying[id].redeliveries <= limit { assert FlightOk(net, s, id, flying[id]); }
    AllSweptWeight(flying, net.maxRedeliveries, limit);
    QueueWeightConcat(QueueIn(net.pending, s), Requeued(flying, NatListing(flying.Keys), net.maxRedeliveries), limit);
    assert FlightWeights(map[], limit) == map[];
  }

  lemma {:induction false} DistinctLength(ids: seq<nat>, keys: set<nat>)
    requires Distinct(ids) && forall id :: id in ids <==> id in keys
    ensures |ids| == |keys|
    decreases |ids|
  {
    if ids == [] {
      assert keys == {} by { forall k ensures k !in keys { assert k !in ids; } }
    } else {
      assert ids == [ids[0]] + ids[1..];
      DistinctLength(ids[1..], keys - {ids[0]});
    }
  }

  /** A step that does something: a delivery, an acknowledgement that takes, a
      crash with something in flight. */
  predicate Effective(net: Net, move: Move) {
    match move
    case Publishing(_, _) => false
    case Delivering(_) => true
    case Acking(s, id) => id in FlyingIn(net.inFlight, s)
    case Redelivering(s) => FlyingIn(net.inFlight, s) != map[]
  }

  predicate SameStores(net: Net, after: Net, t: Subject) {
    && QueueIn(after.pending, t) == QueueIn(net.pending, t)
    && FlyingIn(after.inFlight, t) == FlyingIn(net.inFlight, t)
    && after.maxRedeliveries == net.maxRedeliveries
  }

  lemma RedeliverElsewhere(net: Net, s: Subject, t: Subject)
    requires t != s
    ensures SameStores(net, Redeliver(net, s), t)
  {
  }

  lemma DeliverElsewhere(net: Net, s: Subject, t: Subject)
    requires t != s && QueueIn(net.pending, s) != []
    ensures SameStores(net, Deliver(net, s), t)
  {
  }

  lemma SameWeight(net: Net, after: Net, t: Subject)
    requires SameStores(net, after, t)
    ensures LaneWeight(after, t) == LaneWeight(net, t)
  {
  }

  lemma WeightApart(net: Net, move: Move, t: Subject)
    requires Enabled(net, move) && !move.Publishing? && t != move.subject
    ensures LaneWeight(Moved(net, move), t) == LaneWeight(net, t)
  {
    match move {
      case Delivering(s) => DeliverElsewhere(net, s, t);
      case Acking(s, id) =>
      case Redelivering(s) => RedeliverElsewhere(net, s, t);
    }
    assert SameStores(net, Moved(net, move), t);
    SameWeight(net, Moved(net, move), t);
  }

  lemma MoveWeight(net: Net, move: Move)
    requires LaneOk(net, move.subject) && Enabled(net, move) && !move.Publishing?
    ensures LaneWeight(Moved(net, move), move.subject)
              <= LaneWeight(net, move.subject) - (if Effective(net, move) then 1 else 0)
  {
    match move {
      case Delivering(s) => DeliverWeight(net, s);
      case Acking(s, id) => AckWeight(net, s, id);
      case Redelivering(s) => RedeliverWeight(net, s);
    }
  }

  lemma MoveMeasure(net: Net, move: Move)
    requires NetOk(net) && Enabled(net, move) && !move.Publishing?
    ensures Measure(Moved(net, move)) <= Measure(net) - (if Effective(net, move) then 1 else 0)
  {
    assert LaneOk(net, move.subject);
    MoveWeight(net, move);
    if move.subject != SignalsRaw { WeightApart(net, move, SignalsRaw); }
    if move.subject != ForecastsCreated { WeightApart(net, move, ForecastsCreated); }
    if move.subject != OutcomesResolved { WeightApart(net, move, OutcomesResolved); }
  }

  function EffectiveSteps(net: Net, moves: seq<Move>): nat
    requires Runs(net, moves)
    decreases |moves|
  {
    if moves == [] then 0
    else (if Effective(net, moves[0]) then 1 else 0) + EffectiveSteps(Moved(net, moves[0]), moves[1..])
  }

  /** Delivery terminates: once publishing stops, however deliveries,
      acknowledgements and crashes interleave, no more than Measure of them can
      have an effect. */
  lemma {:induction false} DeliveryTerminates(net: Net, moves: seq<Move>)
    requires NetOk(net) && Runs(net, moves) && forall m :: m in moves ==> !m.Publishing?
    ensures EffectiveSteps(net, moves) <= Measure(net)
    decreases |moves|
  {
    if moves == [] {
      MeasureNonNegative(net);
    } else {
      assert moves[0] in moves;
      MoveMeasure(net, moves[0]);
      MoveKeeps(net, moves[0]);
      DeliveryTerminates(Moved(net, moves[0]), moves[1..]);
    }
  }

  /** When no effective step is left, every published message is acknowledged
      or dead-lettered. */
  lemma QuietMeansDone(net: Net, id: nat)
    requires NetOk(net) && id in net.published
    requires forall s :: QueueIn(net.pending, s) == [] && FlyingIn(net.inFlight, s) == map[]
    ensures id in net.acked || Buried(DeadIn(net.deadLetter, net.published[id].0), id) == 1
  {
    var s := net.published[id].0;
    assert LaneOk(net, s);
    assert Copies(net, s, id) == if Outstanding(net, s, id) then 1 else 0;
  }
}
