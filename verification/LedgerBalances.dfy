/** Where the credits are: every operation's effect on wealth and reputation
    against the audit trail it leaves in the settlements table. */
module LedgerBalances {
  import opened Orders
  import opened Scoring
  import opened Reputation
  import opened Ledger
  import opened LedgerFacts
  import opened LedgerInvariants

  // ------------------------------------------------------- the audit trail

  /** The credit deltas the settlements table holds for an agent. */
  function Deltas(rows: seq<SettlementRow>, a: Id): int {
    if rows == [] then 0 else (if rows[0].agent == a then rows[0].score.creditDelta else 0) + Deltas(rows[1..], a)
  }

  /** The improvements the settlements table holds for an agent, oldest first. */
  function Improvements(rows: seq<SettlementRow>, a: Id): seq<real> {
    if rows == [] then []
    else (if rows[0].agent == a then [rows[0].score.improvement] else []) + Improvements(rows[1..], a)
  }

  lemma {:induction false} TrailConcat(xs: seq<SettlementRow>, ys: seq<SettlementRow>, a: Id)
    ensures Deltas(xs + ys, a) == Deltas(xs, a) + Deltas(ys, a)
    ensures Improvements(xs + ys, a) == Improvements(xs, a) + Improvements(ys, a)
  {
    if xs == [] {
      assert xs + ys == ys;
    } else {
      assert (xs + ys)[1..] == xs[1..] + ys;
      TrailConcat(xs[1..], ys, a);
    }
  }

  lemma {:induction false} TrailWithout(rows: seq<SettlementRow>, a: Id)
    requires forall i :: 0 <= i < |rows| ==> rows[i].agent != a
    ensures Deltas(rows, a) == 0 && Improvements(rows, a) == []
  {
    if rows != [] { TrailWithout(rows[1..], a); }
  }

  lemma TrailOnce(rows: seq<SettlementRow>, i: nat, a: Id)
    requires i < |rows| && forall j :: 0 <= j < |rows| ==> (rows[j].agent == a <==> j == i)
    ensures Deltas(rows, a) == rows[i].score.creditDelta && Improvements(rows, a) == [rows[i].score.improvement]
  {
    assert rows == rows[..i] + ([rows[i]] + rows[i + 1..]);
    TrailConcat(rows[..i], [rows[i]] + rows[i + 1..], a);
    TrailConcat([rows[i]], rows[i + 1..], a);
    assert [rows[i]][1..] == [];
    TrailWithout(rows[..i], a);
    TrailWithout(rows[i + 1..], a);
  }

  function Wealth(db: Db, a: Id): int
    requires a in db.agents
  {
    db.agents[a].available + db.agents[a].staked
  }

  /** Between two ledgers, agent a's wealth and reputation moved exactly as the
      settlement rows added in between say. */
  ghost predicate Accounted(before: Db, after: Db, a: Id)
    requires a in before.agents
  {
    && a in after.agents
    && before.settlements <= after.settlements
    && var added := after.settlements[|before.settlements|..];
    (Wealth(after, a) == Wealth(before, a) + Deltas(added, a)
     && after.agents[a].reputation == AfterSettlements(before.agents[a].reputation, Improvements(added, a)))
  }

  lemma AccountedUnchanged(before: Db, after: Db, a: Id)
    requires a in before.agents && a in after.agents && before.settlements == after.settlements
    requires Wealth(after, a) == Wealth(before, a) && after.agents[a].reputation == before.agents[a].reputation
    ensures Accounted(before, after, a)
  {
    assert after.settlements[|before.settlements|..] == [];
  }

  lemma {:induction false} SettlementsCompose(start: real, xs: seq<real>, ys: seq<real>)
    ensures AfterSettlements(start, xs + ys) == AfterSettlements(AfterSettlements(start, xs), ys)
  {
    if ys == [] {
      assert xs + ys == xs;
    } else {
      assert (xs + ys)[..|xs + ys| - 1] == xs + ys[..|ys| - 1];
      SettlementsCompose(start, xs, ys[..|ys| - 1]);
    }
  }

  lemma AccountedTransitive(x: Db, y: Db, z: Db, a: Id)
    requires a in x.agents && Accounted(x, y, a) && Accounted(y, z, a)
    ensures Accounted(x, z, a)
  {
    var first, second := y.settlements[|x.settlements|..], z.settlements[|y.settlements|..];
    assert z.settlements[|x.settlements|..] == first + second;
    TrailConcat(first, second, a);
    SettlementsCompose(x.agents[a].reputation, Improvements(first, a), Improvements(second, a));
  }

  lemma ForecastAccounted(db: Db, h: Id, a: Id, probability: real, stake: int, cluster: Id, b: Id)
    requires b in db.agents && ForecastEffect(db, h, a, probability, stake, cluster).Some?
    ensures Accounted(db, ForecastEffect(db, h, a, probability, stake, cluster).value, b)
  {
    if Accepted(db, h, a, stake) { ForecastEffectIs(db, h, a, probability, stake, cluster); }
    AccountedUnchanged(db, ForecastEffect(db, h, a, probability, stake, cluster).value, b);
  }

  lemma {:induction false} RowsTrail(db: Db, h: Id, prior: real, outcome: int, agents: seq<Id>, a: Id)
    requires IsOutcome(outcome) && Distinct(agents)
    requires forall b :: b in agents ==> (h, b) in db.forecasts && b in db.agents
    ensures var rows := RowsOf(db, h, prior, outcome, agents);
            if a in agents then
              Deltas(rows, a) == Score(db, h, prior, outcome, a).creditDelta
              && Improvements(rows, a) == [Score(db, h, prior, outcome, a).improvement]
            else Deltas(rows, a) == 0 && Improvements(rows, a) == []
  {
    var rows := RowsOf(db, h, prior, outcome, agents);
    if a in agents {
      var i :| 0 <= i < |agents| && agents[i] == a;
      TrailOnce(rows, i, a);
    } else {
      TrailWithout(rows, a);
    }
  }

  lemma OneSettlement(start: real, x: real)
    ensures AfterSettlements(start, [x]) == UpdateReputation(start, 0.0, x)
  {
    assert [x][..0] == [];
  }

  lemma SettledAccounted(db: Db, h: Id, outcome: int, a: Id)
    requires Consistent(db) && a in db.agents && h in db.hypotheses && h !in db.outcomes && IsOutcome(outcome)
    requires forall b :: b in IdListing(Forecasters(db, h)) ==> (h, b) in db.forecasts && b in db.agents
    ensures Accounted(db, SettledDb(db, h, outcome), a)
  {
    var after, listed, prior := SettledDb(db, h, outcome), IdListing(Forecasters(db, h)), db.hypotheses[h].prior;
    var recorded := db.(outcomes := db.outcomes[h := outcome]);
    assert after.settlements[|db.settlements|..] == RowsOf(recorded, h, prior, outcome, listed);
    RowsTrail(recorded, h, prior, outcome, listed, a);
    if a in listed {
      OneSettlement(db.agents[a].reputation, Score(recorded, h, prior, outcome, a).improvement);
    }
  }

  lemma SettleAccounted(db: Db, h: Id, outcome: int, a: Id)
    requires Consistent(db) && a in db.agents && SettleEffect(db, h, outcome).Some?
    ensures Accounted(db, SettleEffect(db, h, outcome).value.0, a)
  {
    if h !in db.outcomes {
      SettleEffectIs(db, h, outcome);
      if IsOutcome(outcome) { SettledAccounted(db, h, outcome, a); }
    }
    if h in db.outcomes || !IsOutcome(outcome) {
      AccountedUnchanged(db, SettleEffect(db, h, outcome).value.0, a);
    }
  }

  lemma {:induction false} ExpireLoopAccounted(db: Db, hs: seq<Id>, a: Id)
    requires Consistent(db) && AllOpen(db, hs) && a in db.agents
    ensures Accounted(db, ExpireLoop(db, hs), a)
    decreases |hs|
  {
    if hs == [] {
      AccountedUnchanged(db, db, a);
    } else {
      ExpireOneIs(db, hs[0]);
      AccountedUnchanged(db, ExpireOne(db, hs[0]), a);
      ExpireOneKeeps(db, hs[0]);
      ExpireOneLeavesOpen(db, hs);
      ExpireLoopAccounted(ExpireOne(db, hs[0]), hs[1..], a);
      AccountedTransitive(db, ExpireOne(db, hs[0]), ExpireLoop(db, hs), a);
    }
  }

  /** Every operation moves every agent's wealth and reputation exactly as the
      rows it adds to the settlements table say: stakes locked, replaced,
      released or returned never create or destroy a credit. */
  lemma OpAccounted(db: Db, op: Op, a: Id)
    requires Consistent(db) && a in db.agents && ApplyOp(db, op).Some?
    ensures Accounted(db, ApplyOp(db, op).value, a)
  {
    var after := ApplyOp(db, op).value;
    match op {
      case Applied(subject, envelope) =>
        var recorded := RecordEvent(db, subject, envelope);
        RecordKeeps(db, subject, envelope);
        AccountedUnchanged(db, recorded, a);
        match (subject, envelope.body) {
          case (ForecastsCreated, ForecastBody(h, b, p, s, c)) => ForecastAccounted(recorded, h, b, p, s, c, a);
          case (OutcomesResolved, OutcomeBody(h, o)) => SettleAccounted(recorded, h, o, a);
          case _ => AccountedUnchanged(recorded, after, a);
        }
        AccountedTransitive(db, recorded, after, a);
      case ExpiredAt(now) =>
        OverdueAreOpen(db, now);
        ExpireLoopAccounted(db, IdListing(OverdueSet(db, now)), a);
      case RegisteredAgent(_, _, _) => AccountedUnchanged(db, after, a);
      case RegisteredHypothesis(_, _) => AccountedUnchanged(db, after, a);
    }
  }
}
