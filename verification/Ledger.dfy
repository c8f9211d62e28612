/** The tables of src/stakeroute/storage/schema.sql as a value, and what each
    handler of src/stakeroute/worker/main.py and each runner of
    src/stakeroute/worker/settlement_runner.py does to them. */
module Ledger {
  import opened Orders
  import opened Types
  import opened Scoring
  import opened Reputation

  // ----------------------------------------------------------------- events

  datatype Subject = SignalsRaw | ForecastsCreated | OutcomesResolved

  datatype Body =
    | SignalBody
    | ForecastBody(hypothesis: Id, agent: Id, probability: real, stake: int, cluster: Id)
    | OutcomeBody(hypothesis: Id, outcome: int)

  /** eventId is the deduplication key. */
  datatype Envelope = Envelope(eventId: Id, body: Body)

  // ----------------------------------------------------------------- tables

  datatype Status = Open | Resolved | Expired

  datatype Agent = Agent(reputation: real, available: int, staked: int)

  datatype Hypothesis = Hypothesis(
    prior: real, impact: int, urgency: real, reviewCost: real, deadline: int, status: Status)

  datatype Forecast = Forecast(probability: real, stake: int, cluster: Id)

  datatype SettlementRow = SettlementRow(hypothesis: Id, agent: Id, score: Settlement, before: real, after: real)

  datatype Rejection = Rejection(hypothesis: Id, agent: Id, stake: int, probability: real)

  /** One tenant's tables. Forecasts are keyed by UNIQUE(hypothesis, agent);
      settlements keep their insertion order. */
  datatype Db = Db(
    events: map<Id, (Subject, Envelope)>,
    agents: map<Id, Agent>,
    hypotheses: map<Id, Hypothesis>,
    clusters: set<Id>,
    forecasts: map<(Id, Id), Forecast>,
    outcomes: map<Id, int>,
    settlements: seq<SettlementRow>,
    rejected: seq<Rejection>)

  const EMPTY: Db := Db(map[], map[], map[], {}, map[], map[], [], [])

  predicate Settled(db: Db, h: Id, a: Id) {
    exists i :: 0 <= i < |db.settlements| && db.settlements[i].hypothesis == h && db.settlements[i].agent == a
  }

  function Forecasters(db: Db, h: Id): set<Id> {
    set k | k in db.forecasts && k.0 == h :: k.1
  }

  /** UPDATE agents: no row, no effect. */
  function AdjustCredits(db: Db, a: Id, availableDelta: int, stakedDelta: int): Db {
    if a in db.agents then
      var agent := db.agents[a];
      db.(agents := db.agents[a := agent.(available := agent.available + availableDelta,
                                          staked := agent.staked + stakedDelta)])
    else db
  }

  function SetReputation(db: Db, a: Id, reputation: real): Db {
    if a in db.agents then db.(agents := db.agents[a := db.agents[a].(reputation := reputation)]) else db
  }

  function SetStatus(db: Db, h: Id, status: Status): Db {
    if h in db.hypotheses then db.(hypotheses := db.hypotheses[h := db.hypotheses[h].(status := status)]) else db
  }

  // ------------------------------------------------------ forecasts.created

  function LockedHere(db: Db, h: Id, a: Id): int {
    if (h, a) in db.forecasts then db.forecasts[(h, a)].stake else 0
  }

  /** The validation: a known agent, a stake within limits, and enough credits
      net of the stake this submission would replace. */
  predicate Accepted(db: Db, h: Id, a: Id, stake: int) {
    && a in db.agents
    && STAKE_MIN <= stake <= STAKE_MAX
    && stake <= db.agents[a].available + LockedHere(db, h, a)
  }

  /** The primary key of a forecast row. */
  function ForecastId(h: Id, a: Id): Id { "forecast-" + h + "-" + a }

  /** Another live forecast has the same primary key: the dashes that join it
      can also be part of the ids. */
  predicate IdTaken(db: Db, h: Id, a: Id) {
    exists k :: k in db.forecasts && k != (h, a) && ForecastId(k.0, k.1) == ForecastId(h, a)
  }

  /** DELETE then INSERT of the live forecast. None is a constraint violation:
      the old row is referenced by a settlement, the primary key is taken, or
      there is no such hypothesis. */
  function UpsertForecast(db: Db, h: Id, a: Id, f: Forecast): Option<Db> {
    if (h, a) in db.forecasts && Settled(db, h, a) then None
    else if IdTaken(db, h, a) then None
    else if h !in db.hypotheses || a !in db.agents || f.cluster !in db.clusters then None
    else Some(db.(forecasts := db.forecasts[(h, a) := f]))
  }

  /** A replacement is reported as "id:stake" and taken apart again at the
      colon, which fails when the id holds one of its own. */
  predicate Unsplittable(id: Id) { ':' in id }

  function ForecastEffect(db: Db, h: Id, a: Id, probability: real, stake: int, cluster: Id): Option<Db> {
    var p := ClampProbability(probability);
    if !Accepted(db, h, a, stake) then Some(db.(rejected := db.rejected + [Rejection(h, a, stake, p)]))
    else
      var previous := LockedHere(db, h, a);
      var clustered := db.(clusters := db.clusters + {cluster});
      match UpsertForecast(clustered, h, a, Forecast(p, stake, cluster))
      case None => None
      case Some(upserted) =>
        if (h, a) in db.forecasts && Unsplittable(ForecastId(h, a)) then None
        else
          var freed := if (h, a) in db.forecasts then AdjustCredits(upserted, a, previous, -previous) else upserted;
          Some(AdjustCredits(freed, a, -stake, stake))
  }

  /** What the upsert leaves behind when it raises: the row it could not
      delete, or the gap where it could not insert. */
  function UpsertLeft(db: Db, h: Id, a: Id): Db {
    if (h, a) in db.forecasts && !Settled(db, h, a) then db.(forecasts := db.forecasts - {(h, a)}) else db
  }

  /** What a raised `forecasts.created` handler leaves in the transaction. */
  function ForecastLeft(db: Db, h: Id, a: Id, probability: real, stake: int, cluster: Id): Db {
    var clustered := db.(clusters := db.clusters + {cluster});
    match UpsertForecast(clustered, h, a, Forecast(ClampProbability(probability), stake, cluster))
    case None => UpsertLeft(clustered, h, a)
    case Some(upserted) => upserted
  }

  // ------------------------------------------------------ outcomes.resolved

  /** Settling one agent's forecast; None is InvalidOutcome. */
  function SettleOne(db: Db, h: Id, prior: real, outcome: int, a: Id): Option<Db>
    requires (h, a) in db.forecasts
  {
    if a !in db.agents then Some(db)
    else
      var f := db.forecasts[(h, a)];
      match SettleForecast(f.stake, prior, f.probability, outcome)
      case None => None
      case Some(score) =>
        var before := db.agents[a].reputation;
        var after := UpdateReputation(before, score.brier, score.improvement);
        if Settled(db, h, a) then Some(db)
        else
          var inserted := db.(settlements := db.settlements + [SettlementRow(h, a, score, before, after)]);
          Some(AdjustCredits(SetReputation(inserted, a, after), a, f.stake + score.creditDelta, -f.stake))
  }

  function SettleLoop(db: Db, h: Id, prior: real, outcome: int, agents: seq<Id>): Option<Db>
    requires forall a :: a in agents ==> (h, a) in db.forecasts
    decreases |agents|
  {
    if agents == [] then Some(db)
    else match SettleOne(db, h, prior, outcome, agents[0])
         case None => None
         case Some(next) => SettleLoop(next, h, prior, outcome, agents[1..])
  }

  /** `settle_hypothesis`; None is a constraint violation or InvalidOutcome,
      the flag says whether settlement ran. */
  function SettleEffect(db: Db, h: Id, outcome: int): Option<(Db, bool)> {
    if h in db.outcomes then Some((db, false))
    else if h !in db.hypotheses then None
    else
      match SettleLoop(db.(outcomes := db.outcomes[h := outcome]), h, db.hypotheses[h].prior, outcome,
                       IdListing(Forecasters(db, h)))
      case None => None
      case Some(settled) => Some((SetStatus(settled, h, Resolved), true))
  }

  /** What a raised `settle_hypothesis` leaves in the transaction. */
  function SettleLeft(db: Db, h: Id, outcome: int): Db {
    if h in db.hypotheses then db.(outcomes := db.outcomes[h := outcome]) else db
  }

  // ----------------------------------------------------------------- expiry

  predicate Overdue(db: Db, h: Id, now: int) {
    h in db.hypotheses && db.hypotheses[h].status == Open && db.hypotheses[h].deadline < now
  }

  function OverdueSet(db: Db, now: int): set<Id> {
    set h | h in db.hypotheses && Overdue(db, h, now)
  }

  function ReleaseLoop(db: Db, h: Id, agents: seq<Id>): Db
    requires forall a :: a in agents ==> (h, a) in db.forecasts
    decreases |agents|
  {
    if agents == [] then db
    else
      var stake := db.forecasts[(h, agents[0])].stake;
      ReleaseLoop(AdjustCredits(db, agents[0], stake, -stake), h, agents[1..])
  }

  function ExpireOne(db: Db, h: Id): Db {
    SetStatus(ReleaseLoop(db, h, IdListing(Forecasters(db, h))), h, Expired)
  }

  function ExpireLoop(db: Db, hs: seq<Id>): Db
    decreases |hs|
  {
    if hs == [] then db else ExpireLoop(ExpireOne(db, hs[0]), hs[1..])
  }

  /** `expire_overdue_hypotheses`. */
  function ExpireEffect(db: Db, now: int): Db {
    ExpireLoop(db, IdListing(OverdueSet(db, now)))
  }

  // ------------------------------------------------------------- operations

  function RecordEvent(db: Db, subject: Subject, envelope: Envelope): Db {
    db.(events := db.events[envelope.eventId := (subject, envelope)])
  }

  /** The handler of the subject; None is anything it raises, a body of the
      wrong shape included. */
  function HandlerEffect(db: Db, subject: Subject, body: Body): Option<Db> {
    match (subject, body)
    case (SignalsRaw, _) => Some(db)
    case (ForecastsCreated, ForecastBody(h, a, p, s, c)) => ForecastEffect(db, h, a, p, s, c)
    case (OutcomesResolved, OutcomeBody(h, o)) =>
      (match SettleEffect(db, h, o)
       case None => None
       case Some(settled) => Some(settled.0))
    case _ => None
  }

  /** What a raised handler leaves in the transaction. */
  function HandlerLeft(db: Db, subject: Subject, body: Body): Db {
    match (subject, body)
    case (ForecastsCreated, ForecastBody(h, a, p, s, c)) => ForecastLeft(db, h, a, p, s, c)
    case (OutcomesResolved, OutcomeBody(h, o)) => SettleLeft(db, h, o)
    case _ => db
  }

  /** Settlement's own commit happens inside the handler, when it ran. */
  predicate CommitsItself(db: Db, subject: Subject, body: Body) {
    && subject == OutcomesResolved && body.OutcomeBody?
    && SettleEffect(db, body.hypothesis, body.outcome).Some?
    && SettleEffect(db, body.hypothesis, body.outcome).value.1
  }

  /** Everything that durably changes the ledger. */
  datatype Op =
    | Applied(subject: Subject, envelope: Envelope)
    | ExpiredAt(now: int)
    | RegisteredAgent(agent: Id, reputation: real, grant: nat)
    | RegisteredHypothesis(hypothesis: Id, terms: Hypothesis)

  function ApplyOp(db: Db, op: Op): Option<Db> {
    match op
    case Applied(subject, envelope) => HandlerEffect(RecordEvent(db, subject, envelope), subject, envelope.body)
    case ExpiredAt(now) => Some(ExpireEffect(db, now))
    case RegisteredAgent(a, reputation, grant) =>
      if a in db.agents then None else Some(db.(agents := db.agents[a := Agent(reputation, grant, 0)]))
    case RegisteredHypothesis(h, terms) =>
      if h in db.hypotheses then Some(db)
      else Some(db.(hypotheses := db.hypotheses[h := terms.(status := Open)]))
  }

  /** The ledger as a pure fold over its operations. */
  function Fold(log: seq<Op>): Option<Db> {
    if log == [] then Some(EMPTY)
    else match Fold(log[..|log| - 1])
         case None => None
         case Some(db) => ApplyOp(db, log[|log| - 1])
  }

  lemma FoldSnoc(log: seq<Op>, op: Op)
    ensures Fold(log + [op]) == if Fold(log) == None then None else ApplyOp(Fold(log).value, op)
  {
    assert (log + [op])[..|log + [op]| - 1] == log;
  }
}
