/** Short runs from the empty ledger that reach what the exact conditions in
    LedgerBacking, LedgerHistory and LedgerInvariants exclude. */
module LedgerRuns {
  import opened Orders
  import opened Types
  import opened Ledger
  import opened LedgerFacts
  import opened LedgerInvariants
  import opened LedgerBacking

  const TERMS: Hypothesis := Hypothesis(0.5, 1, 1.0, 1.0, 10, Open)

  function StakeOn(event: Id, h: Id, stake: int): Op {
    Applied(ForecastsCreated, Envelope(event, ForecastBody(h, "a", 0.5, stake, "c")))
  }

  function ResolveAs(event: Id, h: Id, outcome: int): Op {
    Applied(OutcomesResolved, Envelope(event, OutcomeBody(h, outcome)))
  }

  /** One agent with 100 credits and one hypothesis. */
  function Opening(h: Id): seq<Op> { [RegisteredAgent("a", 0.5, 100)] + [RegisteredHypothesis(h, TERMS)] }

  function Genesis(h: Id): Db {
    EMPTY.(agents := EMPTY.agents["a" := Agent(0.5, 100, 0)], hypotheses := EMPTY.hypotheses[h := TERMS])
  }

  /** The closed form of an accepted forecast of the one agent. */
  function Staked(db: Db, event: Id, h: Id, stake: int, agent: Agent): Db {
    db.(events := db.events[event := (ForecastsCreated, StakeOn(event, h, stake).envelope)],
        clusters := db.clusters + {"c"},
        forecasts := db.forecasts[(h, "a") := Forecast(0.5, stake, "c")],
        agents := db.agents["a" := agent])
  }

  function AfterStake(): Db { Staked(Genesis("h"), "e1", "h", 30, Agent(0.5, 70, 30)) }

  function AfterExpiry(): Db {
    AfterStake().(agents := AfterStake().agents["a" := Agent(0.5, 100, 0)],
                  hypotheses := AfterStake().hypotheses["h" := TERMS.(status := Expired)])
  }

  lemma PlainId()
    ensures !Unsplittable(ForecastId("h", "a"))
  {
    ColonInId("h", "a");
  }

  lemma StakeStep(db: Db, event: Id, h: Id, stake: int, agent: Agent)
    requires Accepted(db, h, "a", stake) && h in db.hypotheses && db.settlements == []
    requires db.forecasts.Keys <= {(h, "a")} && (db.forecasts == map[] || !Unsplittable(ForecastId(h, "a")))
    requires var moved := stake - LockedHere(db, h, "a"); agent == Credited(db.agents["a"], -moved, moved)
    ensures ApplyOp(db, StakeOn(event, h, stake)) == Some(Staked(db, event, h, stake, agent))
  {
    var recorded := RecordEvent(db, ForecastsCreated, StakeOn(event, h, stake).envelope);
    AppliedForecastIs(db, event, h, "a", 0.5, stake, "c");
    ForecastEffectIs(recorded, h, "a", 0.5, stake, "c");
  }

  lemma OpeningSteps(h: Id)
    ensures Fold(Opening(h)) == Some(Genesis(h))
  {
    FoldSnoc([], RegisteredAgent("a", 0.5, 100));
    assert [] + [RegisteredAgent("a", 0.5, 100)] == [RegisteredAgent("a", 0.5, 100)];
    FoldSnoc([RegisteredAgent("a", 0.5, 100)], RegisteredHypothesis(h, TERMS));
  }

  lemma ExpiryStep()
    ensures ApplyOp(AfterStake(), ExpiredAt(11)) == Some(AfterExpiry())
  {
    OnlyExpiry(AfterStake(), "h", "a", 11);
  }

  /** A grant of 100, a stake of 30, expiry, then a stake of 1 on the expired
      hypothesis: the agent ends with 129 spendable credits and -29 staked. */
  lemma ExpiredStakeGoesNegative()
    ensures var log := Opening("h") + [StakeOn("e1", "h", 30)] + [ExpiredAt(11)] + [StakeOn("e2", "h", 1)];
            Fold(log).Some? && "a" in Fold(log).value.agents && Fold(log).value.agents["a"] == Agent(0.5, 129, -29)
  {
    OpeningSteps("h");
    PlainId();
    StakeStep(Genesis("h"), "e1", "h", 30, Agent(0.5, 70, 30));
    ExpiryStep();
    StakeStep(AfterExpiry(), "e2", "h", 1, Agent(0.5, 129, -29));
    FoldSnoc(Opening("h"), StakeOn("e1", "h", 30));
    FoldSnoc(Opening("h") + [StakeOn("e1", "h", 30)], ExpiredAt(11));
    FoldSnoc(Opening("h") + [StakeOn("e1", "h", 30)] + [ExpiredAt(11)], StakeOn("e2", "h", 1));
  }

  lemma SingletonListing(s: set<Id>, x: Id)
    requires s == {x}
    ensures IdListing(s) == [x]
  {
    LexLeIsTotalOrder();
    assert s - {x} == {};
    assert Listing(s - {x}, LexLe) == [];
  }

  lemma OnlyExpiry(db: Db, h: Id, a: Id, now: int)
    requires db.hypotheses.Keys == {h} && Overdue(db, h, now) && db.forecasts.Keys == {(h, a)} && a in db.agents
    ensures var stake := db.forecasts[(h, a)].stake;
            ExpireEffect(db, now) == SetStatus(AdjustCredits(db, a, stake, -stake), h, Expired)
  {
    assert OverdueSet(db, now) == {h};
    SingletonListing(OverdueSet(db, now), h);
    assert a in Forecasters(db, h);
    assert Forecasters(db, h) == {a};
    SingletonListing(Forecasters(db, h), a);
    var stake := db.forecasts[(h, a)].stake;
    assert ReleaseLoop(db, h, [a]) == AdjustCredits(db, a, stake, -stake);
    assert ExpireLoop(db, [h]) == ExpireOne(db, h);
  }

  // ---------------------------------------------------- stakes too late

  /** The one hypothesis resolved before anyone forecast. */
  function AfterOutcome(db: Db, outcome: int): Db {
    var recorded := RecordEvent(db, OutcomesResolved, ResolveAs("e1", "h", outcome).envelope);
    SetStatus(recorded.(outcomes := recorded.outcomes["h" := outcome]), "h", Resolved)
  }

  lemma OutcomeStep(db: Db, outcome: int)
    requires "h" in db.hypotheses && "h" !in db.outcomes && db.forecasts == map[]
    ensures ApplyOp(db, ResolveAs("e1", "h", outcome)) == Some(AfterOutcome(db, outcome))
  {
    var recorded := RecordEvent(db, OutcomesResolved, ResolveAs("e1", "h", outcome).envelope);
    var resolved := recorded.(outcomes := recorded.outcomes["h" := outcome]);
    assert Forecasters(recorded, "h") == {};
    assert IdListing(Forecasters(recorded, "h")) == [] by {
      assert forall x :: x !in IdListing(Forecasters(recorded, "h"));
    }
    assert SettleLoop(resolved, "h", db.hypotheses["h"].prior, outcome, []) == Some(resolved);
  }

  /** A stake of 1 that arrives after the outcome is locked on a hypothesis
      that can no longer release it. */
  lemma LateStakeIsAccepted()
    ensures var log := Opening("h") + [ResolveAs("e1", "h", 1)] + [StakeOn("e2", "h", 1)];
            && Fold(log).Some? && "h" in Fold(log).value.outcomes && IsLocked(Fold(log).value, "h", "a")
            && "a" in Fold(log).value.agents && Fold(log).value.agents["a"] == Agent(0.5, 99, 1)
  {
    OpeningSteps("h");
    OutcomeStep(Genesis("h"), 1);
    StakeStep(AfterOutcome(Genesis("h"), 1), "e2", "h", 1, Agent(0.5, 99, 1));
    FoldSnoc(Opening("h"), ResolveAs("e1", "h", 1));
    FoldSnoc(Opening("h") + [ResolveAs("e1", "h", 1)], StakeOn("e2", "h", 1));
  }

  // ------------------------------------------------- inputs not rejected

  /** An outcome of 2 on a hypothesis nobody forecast is recorded. */
  lemma InvalidOutcomeIsRecorded()
    ensures var log := Opening("h") + [ResolveAs("e1", "h", 2)];
            Fold(log).Some? && "h" in Fold(log).value.outcomes && Fold(log).value.outcomes["h"] == 2
  {
    OpeningSteps("h");
    OutcomeStep(Genesis("h"), 2);
    FoldSnoc(Opening("h"), ResolveAs("e1", "h", 2));
  }

  /** A forecast on a hypothesis whose id holds a colon is accepted once; the
      same forecast again raises. */
  lemma ColonResubmissionRaises()
    ensures var log := Opening("h:1") + [StakeOn("e1", "h:1", 30)];
            Fold(log).Some? && Fold(log + [StakeOn("e2", "h:1", 30)]) == None
  {
    var db := Staked(Genesis("h:1"), "e1", "h:1", 30, Agent(0.5, 70, 30));
    OpeningSteps("h:1");
    StakeStep(Genesis("h:1"), "e1", "h:1", 30, Agent(0.5, 70, 30));
    FoldSnoc(Opening("h:1"), StakeOn("e1", "h:1", 30));
    FoldSnoc(Opening("h:1") + [StakeOn("e1", "h:1", 30)], StakeOn("e2", "h:1", 30));
    ColonInId("h:1", "a");
    assert "h:1"[1] == ':';
    AppliedForecastIs(db, "e2", "h:1", "a", 0.5, 30, "c");
    ForecastEffectIs(RecordEvent(db, ForecastsCreated, StakeOn("e2", "h:1", 30).envelope), "h:1", "a", 0.5, 30, "c");
  }

  /** Two different hypotheses and agents whose joined ids are one and the same:
      while the one forecast lives, the other raises. */
  lemma DashesCollide(db: Db, probability: real, stake: int, cluster: Id)
    requires ("a-b", "c") in db.forecasts && Accepted(db, "a", "b-c", stake)
    ensures ForecastEffect(db, "a", "b-c", probability, stake, cluster) == None
  {
    assert ForecastId("a-b", "c") == ForecastId("a", "b-c");
    assert IdTaken(db, "a", "b-c") by { assert ("a-b", "c") in db.forecasts && ("a-b", "c") != ("a", "b-c"); }
    ForecastEffectIs(db, "a", "b-c", probability, stake, cluster);
  }

  function DashedOpening(): seq<Op> {
    [RegisteredAgent("c", 0.5, 100)] + [RegisteredAgent("b-c", 0.5, 100)]
    + [RegisteredHypothesis("a-b", TERMS)] + [RegisteredHypothesis("a", TERMS)]
  }

  function DashedGenesis(): Db {
    EMPTY.(agents := EMPTY.agents["c" := Agent(0.5, 100, 0)]["b-c" := Agent(0.5, 100, 0)],
           hypotheses := EMPTY.hypotheses["a-b" := TERMS]["a" := TERMS])
  }

  lemma DashedOpeningSteps()
    ensures Fold(DashedOpening()) == Some(DashedGenesis())
  {
    var first := [RegisteredAgent("c", 0.5, 100)];
    FoldSnoc([], RegisteredAgent("c", 0.5, 100));
    assert [] + first == first;
    FoldSnoc(first, RegisteredAgent("b-c", 0.5, 100));
    var agents := first + [RegisteredAgent("b-c", 0.5, 100)];
    FoldSnoc(agents, RegisteredHypothesis("a-b", TERMS));
    FoldSnoc(agents + [RegisteredHypothesis("a-b", TERMS)], RegisteredHypothesis("a", TERMS));
  }

  /** A run after which an otherwise acceptable first forecast raises. */
  lemma DashedForecastRaises()
    ensures var first := Applied(ForecastsCreated, Envelope("e1", ForecastBody("a-b", "c", 0.5, 1, "x")));
            var second := Applied(ForecastsCreated, Envelope("e2", ForecastBody("a", "b-c", 0.5, 1, "x")));
            var log := DashedOpening() + [first];
            && Fold(log).Some? && ("a", "b-c") !in Fold(log).value.forecasts
            && Accepted(Fold(log).value, "a", "b-c", 1) && Fold(log + [second]) == None
  {
    var first := Applied(ForecastsCreated, Envelope("e1", ForecastBody("a-b", "c", 0.5, 1, "x")));
    var second := Applied(ForecastsCreated, Envelope("e2", ForecastBody("a", "b-c", 0.5, 1, "x")));
    DashedOpeningSteps();
    FoldSnoc(DashedOpening(), first);
    AppliedForecastIs(DashedGenesis(), "e1", "a-b", "c", 0.5, 1, "x");
    ForecastEffectIs(RecordEvent(DashedGenesis(), ForecastsCreated, first.envelope), "a-b", "c", 0.5, 1, "x");
    FoldSnoc(DashedOpening() + [first], second);
    var db := Fold(DashedOpening() + [first]).value;
    AppliedForecastIs(db, "e2", "a", "b-c", 0.5, 1, "x");
    DashesCollide(RecordEvent(db, ForecastsCreated, second.envelope), 0.5, 1, "x");
  }

  // ------------------------------------------------------------- expiry left

  lemma EmptyExpiry(db: Db, h: Id, now: int)
    requires db.hypotheses.Keys == {h} && Overdue(db, h, now) && db.forecasts == map[]
    ensures ExpireEffect(db, now) == SetStatus(db, h, Expired)
  {
    assert OverdueSet(db, now) == {h};
    SingletonListing(OverdueSet(db, now), h);
    assert Forecasters(db, h) == {};
    assert IdListing(Forecasters(db, h)) == [] by { assert forall x :: x !in IdListing(Forecasters(db, h)); }
    assert ExpireLoop(db, [h]) == ExpireOne(db, h);
  }

  /** An expired hypothesis that an outcome resolves. */
  lemma ExpiredIsResolved()
    ensures var log := Opening("h") + [ExpiredAt(11)];
            var later := log + [ResolveAs("e1", "h", 1)];
            && Fold(log).Some? && "h" in Fold(log).value.hypotheses && Fold(log).value.hypotheses["h"].status == Expired
            && Fold(later).Some? && "h" in Fold(later).value.hypotheses
            && Fold(later).value.hypotheses["h"].status == Resolved
  {
    OpeningSteps("h");
    EmptyExpiry(Genesis("h"), "h", 11);
    FoldSnoc(Opening("h"), ExpiredAt(11));
    FoldSnoc(Opening("h") + [ExpiredAt(11)], ResolveAs("e1", "h", 1));
    OutcomeStep(SetStatus(Genesis("h"), "h", Expired), 1);
  }
}
