/** Priority scoring and budgeted allocation (src/stakeroute/core/ranking.py). */
module Ranking {
  import opened Orders
  import opened Types
  import opened Reals
  import opened Sums

  /** probability * impact * urgency / review_cost; None stands for the
      ValueError on a review cost that is not positive. */
  function PriorityScore(probability: real, impact: int, urgency: real, reviewCost: real): Option<real> {
    if reviewCost <= 0.0 then None
    else Some(Ratio(Product(probability, Product(impact as real, urgency)), reviewCost))
  }

  /** The sort key (-priority, -impact, id). */
  predicate RankLe(h: RankedHypothesis, g: RankedHypothesis) {
    h.priority > g.priority
    || (h.priority == g.priority
        && (h.impact > g.impact || (h.impact == g.impact && LexLe(h.hypothesisId, g.hypothesisId))))
  }

  function DecisionAt(ordered: seq<RankedHypothesis>, budget: int, i: nat): AllocationDecision
    requires i < |ordered|
  {
    AllocationDecision(ordered[i].hypothesisId, i + 1, i + 1 <= budget)
  }

  /** How many of n hypotheses a budget leaves out. */
  function Withheld(n: nat, budget: int): nat {
    if budget <= 0 then n else if budget <= n then n - budget else 0
  }

  function Allocation(ranked: seq<RankedHypothesis>, budget: int): AllocationResult {
    var ordered := Sort(ranked, RankLe);
    AllocationResult(seq(|ordered|, i requires 0 <= i < |ordered| => DecisionAt(ordered, budget, i)),
                     Withheld(|ranked|, budget))
  }

  method AllocateAttention(ranked: seq<RankedHypothesis>, budget: int) returns (r: AllocationResult)
    ensures r == Allocation(ranked, budget)
  {
    var ordered := Sort(ranked, RankLe);
    var decisions: seq<AllocationDecision>, withheld: nat := [], 0;
    for i := 0 to |ordered|
      invariant |decisions| == i
      invariant forall k :: 0 <= k < i ==> decisions[k] == DecisionAt(ordered, budget, k)
      invariant withheld == Withheld(i, budget)
    {
      var rank := i + 1;
      var routed := rank <= budget;
      if !routed {
        withheld := withheld + 1;
      }
      decisions := decisions + [AllocationDecision(ordered[i].hypothesisId, rank, routed)];
    }
    r := AllocationResult(decisions, withheld);
  }

  // ------------------------------------------------------ the order itself

  lemma RankLeIsPreorder()
    ensures Preorder(RankLe)
  {
    forall h, g ensures RankLe(h, g) || RankLe(g, h) { LexLeTotal(h.hypothesisId, g.hypothesisId); }
    forall h, g, k | RankLe(h, g) && RankLe(g, k) ensures RankLe(h, k) {
      if h.priority == g.priority == k.priority && h.impact == g.impact == k.impact {
        LexLeTransitive(h.hypothesisId, g.hypothesisId, k.hypothesisId);
      }
    }
  }

  ghost predicate DistinctIds(ranked: seq<RankedHypothesis>) {
    forall i, j :: 0 <= i < j < |ranked| ==> ranked[i].hypothesisId != ranked[j].hypothesisId
  }

  lemma DistinctIdsAreKeys(ranked: seq<RankedHypothesis>)
    requires DistinctIds(ranked)
    ensures DistinctKeys(RankLe, multiset(ranked))
  {
    forall h, g | h in multiset(ranked) && g in multiset(ranked) && RankLe(h, g) && RankLe(g, h) ensures h == g {
      LexLeAntisymmetric(h.hypothesisId, g.hypothesisId);
      var i :| 0 <= i < |ranked| && ranked[i] == h;
      var j :| 0 <= j < |ranked| && ranked[j] == g;
    }
  }

  /** The allocation of distinct hypotheses does not depend on input order. */
  lemma AllocationOrderFree(xs: seq<RankedHypothesis>, ys: seq<RankedHypothesis>, budget: int)
    requires multiset(xs) == multiset(ys) && DistinctIds(xs)
    ensures Allocation(xs, budget) == Allocation(ys, budget)
  {
    assert |multiset(xs)| == |xs| && |multiset(ys)| == |ys|;
    RankLeIsPreorder();
    DistinctIdsAreKeys(xs);
    SortOrderFree(xs, ys, RankLe);
  }

  function Routed(): AllocationDecision -> bool { (d: AllocationDecision) => d.routed }

  lemma {:induction false} RoutedPrefix(ds: seq<AllocationDecision>, first: nat, budget: int)
    requires forall i :: 0 <= i < |ds| ==> ds[i].routed == (first + i + 1 <= budget)
    ensures Count(Routed(), ds) == |ds| - Withheld(|ds|, budget - first)
  {
    if ds != [] {
      RoutedPrefix(ds[1..], first + 1, budget);
    }
  }

  /** Nothing is dropped and the budget is met exactly: each hypothesis gets
      one decision, min(budget, n) of them routed, the rest counted withheld,
      and every routed one sorts before every withheld one. */
  lemma {:induction false} AllocationIsBudgeted(ranked: seq<RankedHypothesis>, budget: int)
    ensures var r := Allocation(ranked, budget);
            var ordered := Sort(ranked, RankLe);
            && |r.decisions| == |ranked| && multiset(ordered) == multiset(ranked)
            && (forall i :: 0 <= i < |ranked| ==>
                 (r.decisions[i].hypothesisId == ordered[i].hypothesisId && r.decisions[i].rank == i + 1))
            && Count(Routed(), r.decisions)
               == (if budget < 0 then 0 else if budget < |ranked| then budget else |ranked|)
            && Count(Routed(), r.decisions) + r.withheld == |ranked|
            && (forall i, j :: 0 <= i < |ranked| && 0 <= j < |ranked|
                               && r.decisions[i].routed && !r.decisions[j].routed ==>
                 i < j && RankLe(ordered[i], ordered[j]))
  {
    RankSorted(ranked);
    RoutedPrefix(Allocation(ranked, budget).decisions, 0, budget);
  }

  // ------------------------------------------------------------- ranks

  predicate Before(h: RankedHypothesis, g: RankedHypothesis) { h.hypothesisId != g.hypothesisId && RankLe(h, g) }

  function BeforeIt(g: RankedHypothesis): RankedHypothesis -> bool { (h: RankedHypothesis) => Before(h, g) }

  /** The rank of g among ranked: one more than the hypotheses that beat it. */
  function RankOf(ranked: seq<RankedHypothesis>, g: RankedHypothesis): nat {
    1 + Count(BeforeIt(g), ranked)
  }

  lemma {:induction false} SortedPlace(ordered: seq<RankedHypothesis>, i: nat)
    requires SortedBy(RankLe, ordered) && DistinctIds(ordered) && i < |ordered|
    ensures Count(BeforeIt(ordered[i]), ordered) == i
  {
    var g := ordered[i];
    forall h | h in ordered[i..] ensures !Before(h, g) {
      var j :| i <= j < |ordered| && ordered[j] == h;
      if j > i && RankLe(h, g) {
        LexLeAntisymmetric(g.hypothesisId, h.hypothesisId);
      }
    }
    assert ordered == ordered[..i] + ordered[i..];
    CountConcat(BeforeIt(g), ordered[..i], ordered[i..]);
    CountAll(BeforeIt(g), ordered[..i]);
    CountNone(BeforeIt(g), ordered[i..]);
  }

  /** The allocator's rank numbers say how many hypotheses stand before. */
  lemma {:induction false} RankCountsTheBetter(ranked: seq<RankedHypothesis>, budget: int, i: nat)
    requires DistinctIds(ranked) && i < |ranked|
    ensures var d := Allocation(ranked, budget).decisions[i];
            var g := Sort(ranked, RankLe)[i];
            d.hypothesisId == g.hypothesisId && d.rank == RankOf(ranked, g)
  {
    var ordered := Sort(ranked, RankLe);
    PlaceIsRank(ranked, ordered, i);
    assert Allocation(ranked, budget).decisions[i] == DecisionAt(ordered, budget, i);
  }

  lemma PlaceIsRank(ranked: seq<RankedHypothesis>, ordered: seq<RankedHypothesis>, i: nat)
    requires DistinctIds(ranked) && ordered == Sort(ranked, RankLe) && i < |ordered|
    ensures RankOf(ranked, ordered[i]) == i + 1
  {
    SortKeepsIdsDistinct(ranked);
    RankSorted(ranked);
    CountPermuted(BeforeIt(ordered[i]), ranked, ordered);
    SortedPlace(ordered, i);
  }

  lemma RankSorted(ranked: seq<RankedHypothesis>)
    ensures SortedBy(RankLe, Sort(ranked, RankLe))
  {
    RankLeIsPreorder();
    SortSorted(ranked, RankLe);
  }

  lemma SortKeepsIdsDistinct(ranked: seq<RankedHypothesis>)
    requires DistinctIds(ranked)
    ensures DistinctIds(Sort(ranked, RankLe))
  {
    IdsOfPermutation(ranked, Sort(ranked, RankLe));
  }

  lemma {:induction false} IdsOfPermutation(xs: seq<RankedHypothesis>, ys: seq<RankedHypothesis>)
    requires DistinctIds(xs) && multiset(xs) == multiset(ys)
    ensures DistinctIds(ys)
    decreases |xs|
  {
    assert |multiset(xs)| == |xs| && |multiset(ys)| == |ys|;
    if ys != [] {
      var k := HeadInPermutation(ys, xs);
      IdsOfPermutation(Without(xs, k), ys[1..]);
      forall j | 1 <= j < |ys| ensures ys[0].hypothesisId != ys[j].hypothesisId {
        assert ys[j] == ys[1..][j - 1];
        assert ys[j] in multiset(ys[1..]);
        assert ys[j] in multiset(Without(xs, k));
        var m :| 0 <= m < |Without(xs, k)| && Without(xs, k)[m] == ys[j];
        assert ys[j] == if m < k then xs[m] else xs[m + 1];
      }
    }
  }

  /** Raising one hypothesis's priority never worsens its rank. */
  lemma RaisingHelps(ranked: seq<RankedHypothesis>, k: nat, raised: RankedHypothesis)
    requires k < |ranked|
    requires raised.hypothesisId == ranked[k].hypothesisId && raised.impact == ranked[k].impact
    requires raised.priority >= ranked[k].priority
    ensures RankOf(ranked[k := raised], raised) <= RankOf(ranked, ranked[k])
  {
    var now := ranked[k := raised];
    var p, q := BeforeIt(raised), BeforeIt(ranked[k]);
    CountWithout(p, now, k);
    CountWithout(q, ranked, k);
    assert Without(now, k) == Without(ranked, k);
    CountLe(p, q, Without(ranked, k));
  }

  /** Ranks follow the promised key: the higher priority first, on a tie the
      higher impact, on a further tie the smaller id. */
  lemma BetterKeyRanksHigher(ranked: seq<RankedHypothesis>, g: nat, h: nat)
    requires g < |ranked| && h < |ranked| && g != h && DistinctIds(ranked)
    requires ranked[g].priority >= ranked[h].priority
    requires ranked[g].priority == ranked[h].priority ==> ranked[g].impact >= ranked[h].impact
    requires (ranked[g].priority == ranked[h].priority && ranked[g].impact == ranked[h].impact) ==>
               LexLe(ranked[g].hypothesisId, ranked[h].hypothesisId)
    ensures RankOf(ranked, ranked[g]) < RankOf(ranked, ranked[h])
  {
    var p, q := BeforeIt(ranked[g]), BeforeIt(ranked[h]);
    CountWithout(p, ranked, g);
    CountWithout(q, ranked, g);
    RankLeIsPreorder();
    forall x | x in Without(ranked, g) && p(x) ensures q(x) {
      assert RankLe(x, ranked[g]) && RankLe(ranked[g], ranked[h]);
      if x.hypothesisId == ranked[h].hypothesisId {
        LexLeAntisymmetric(ranked[g].hypothesisId, ranked[h].hypothesisId);
      }
    }
    CountLe(p, q, Without(ranked, g));
  }

  /** Of two entries the better ranked is the one RankLe puts first. */
  lemma RanksFollowTheKey(ranked: seq<RankedHypothesis>, g: nat, h: nat)
    requires g < |ranked| && h < |ranked| && g != h && DistinctIds(ranked)
    ensures RankOf(ranked, ranked[g]) < RankOf(ranked, ranked[h]) <==> RankLe(ranked[g], ranked[h])
  {
    LexLeTotal(ranked[g].hypothesisId, ranked[h].hypothesisId);
    if RankLe(ranked[g], ranked[h]) { BetterKeyRanksHigher(ranked, g, h); } else { BetterKeyRanksHigher(ranked, h, g); }
  }

  /** Whoever is before every other entry is rank 1. */
  lemma BeforeAllLeads(ranked: seq<RankedHypothesis>, g: nat, budget: int)
    requires g < |ranked| && DistinctIds(ranked)
    requires forall i :: 0 <= i < |ranked| && i != g ==> RankLe(ranked[g], ranked[i])
    ensures RankOf(ranked, ranked[g]) == 1
    ensures Allocation(ranked, budget).decisions[0] == AllocationDecision(ranked[g].hypothesisId, 1, 1 <= budget)
  {
    forall x | x in ranked ensures !Before(x, ranked[g]) {
      var i :| 0 <= i < |ranked| && ranked[i] == x;
      if i != g && RankLe(x, ranked[g]) { LexLeAntisymmetric(x.hypothesisId, ranked[g].hypothesisId); }
    }
    CountNone(BeforeIt(ranked[g]), ranked);
    var ordered := Sort(ranked, RankLe);
    SortedMembers(ranked, RankLe);
    assert ranked[g] in ordered;
    var j :| 0 <= j < |ordered| && ordered[j] == ranked[g];
    PlaceIsRank(ranked, ordered, j);
  }

  /** A strictly highest priority is rank 1, whatever the ids and impacts. */
  lemma StrictBestLeads(ranked: seq<RankedHypothesis>, g: RankedHypothesis, budget: int)
    requires g in ranked && DistinctIds(ranked)
    requires forall h :: h in ranked && h.hypothesisId != g.hypothesisId ==> h.priority < g.priority
    ensures RankOf(ranked, g) == 1
    ensures Allocation(ranked, budget).decisions[0] == AllocationDecision(g.hypothesisId, 1, 1 <= budget)
  {
    CountNone(BeforeIt(g), ranked);
    RankSorted(ranked);
    SortedMembers(ranked, RankLe);
    var first := Sort(ranked, RankLe)[0];
    assert first in ranked;
    var j :| 0 <= j < |ranked| && Sort(ranked, RankLe)[j] == g;
    assert first == g || RankLe(first, g);
    assert first.hypothesisId == g.hypothesisId;
  }
}
