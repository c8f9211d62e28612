/** The two naive strategies (src/stakeroute/core/baselines.py). */
module Baselines {
  import opened Types
  import opened Sums

  function VotesTrue(): ForecastSnapshot -> bool { (f: ForecastSnapshot) => f.probability > 0.5 }

  function Votes(forecasts: seq<ForecastSnapshot>): nat { Count(VotesTrue(), forecasts) }

  /** One unweighted vote per forecast above 0.5; the prior without any. */
  function MajorityVoteProbability(forecasts: seq<ForecastSnapshot>, prior: real): real {
    if forecasts == [] then prior else Votes(forecasts) as real / |forecasts| as real
  }

  function Greatest(forecasts: seq<ForecastSnapshot>): real
    requires forecasts != []
  {
    if |forecasts| == 1 then forecasts[0].probability
    else
      var rest := Greatest(forecasts[1..]);
      if forecasts[0].probability >= rest then forecasts[0].probability else rest
  }

  /** The single highest reported probability; the prior without any. */
  function HighestConfidenceProbability(forecasts: seq<ForecastSnapshot>, prior: real): real {
    if forecasts == [] then prior else Greatest(forecasts)
  }

  lemma {:induction false} GreatestIsMaximum(forecasts: seq<ForecastSnapshot>)
    requires forecasts != []
    ensures exists f :: f in forecasts && f.probability == Greatest(forecasts)
    ensures forall f :: f in forecasts ==> f.probability <= Greatest(forecasts)
  {
    assert forecasts[0] in forecasts;
    if |forecasts| > 1 {
      GreatestIsMaximum(forecasts[1..]);
    }
  }

  /** One identity, one vote: in any order, the score is the share of forecasts
      above one half, whatever their confidence, stake or evidence. */
  lemma MajorityIsTheShare(forecasts: seq<ForecastSnapshot>, yes: seq<ForecastSnapshot>, no: seq<ForecastSnapshot>,
                           prior: real)
    requires multiset(forecasts) == multiset(yes + no) && forecasts != []
    requires (forall f :: f in yes ==> f.probability > 0.5) && (forall f :: f in no ==> f.probability <= 0.5)
    ensures |yes| + |no| > 0
    ensures MajorityVoteProbability(forecasts, prior) == |yes| as real / (|yes| + |no|) as real
  {
    assert |forecasts| == |multiset(forecasts)| == |multiset(yes + no)| == |yes + no|;
    CountPermuted(VotesTrue(), forecasts, yes + no);
    CountConcat(VotesTrue(), yes, no);
    CountAll(VotesTrue(), yes);
    CountNone(VotesTrue(), no);
  }
}
