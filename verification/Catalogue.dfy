/** The shipped catalogue on raw feature values: what each rule scores, and when it is reported. */
module Catalogue {
  import opened Engine
  import opened Rules
  import opened Weights

  // ----- one condition

  /** A missing feature meets nothing; a feature at the threshold meets "at least" and "at most" only. */
  lemma ThresholdMeans(c: Condition, fv: FeatureVector)
    ensures c.feature !in fv ==> !c.Met(fv)
    ensures c.feature in fv && fv[c.feature] == c.threshold ==> (c.Met(fv) <==> c.op == Ge || c.op == Le)
    ensures c.feature in fv && fv[c.feature] > c.threshold ==> (c.Met(fv) <==> c.op == Gt || c.op == Ge || c.op == Ne)
    ensures c.feature in fv && fv[c.feature] < c.threshold ==> (c.Met(fv) <==> c.op == Lt || c.op == Le || c.op == Ne)
  {
  }

  /** A condition that is met stays met when its feature moves further past the threshold, or away from it. */
  lemma FurtherStaysMet(c: Condition, fv: FeatureVector, fv': FeatureVector)
    requires c.Met(fv) && c.feature in fv'
    requires c.op == Gt || c.op == Ge ==> fv'[c.feature] >= fv[c.feature]
    requires c.op == Lt || c.op == Le ==> fv'[c.feature] <= fv[c.feature]
    requires c.op == Ne ==> (fv[c.feature] > c.threshold ==> fv'[c.feature] >= fv[c.feature]) &&
                            (fv[c.feature] < c.threshold ==> fv'[c.feature] <= fv[c.feature])
    ensures c.Met(fv')
  {
  }

  // ----- the scores in raw comparisons

  function AtLeastZero(x: real): real {
    if x > 0.0 then x else 0.0
  }

  /** The score of each shipped rule, in comparisons of feature values; a missing feature counts for nothing. */
  function RawScore(fv: FeatureVector, c: nat): real
    requires c < 6
  {
    if c == 0 then
      AtLeastZero((if "wns_ns" in fv && fv["wns_ns"] < -0.2 then 0.35 else 0.0)
                  + (if "congestion_hotspot_count" in fv && fv["congestion_hotspot_count"] > 3.0 then 0.30 else 0.0)
                  + (if "utilization_pct" in fv && fv["utilization_pct"] > 65.0 then 0.20 else 0.0)
                  + (if "tns_ns" in fv && fv["tns_ns"] < -1.0 then 0.15 else 0.0)
                  - (if "hold_violations" in fv && fv["hold_violations"] > 10.0 then 0.15 else 0.0))
    else if c == 1 then
      AtLeastZero((if "hold_violations" in fv && fv["hold_violations"] > 0.0 then 0.40 else 0.0)
                  + (if "clock_skew_ns" in fv && fv["clock_skew_ns"] > 0.08 then 0.40 else 0.0)
                  + (if "setup_violations" in fv && fv["setup_violations"] < 5.0 then 0.20 else 0.0)
                  - (if "wns_ns" in fv && fv["wns_ns"] < -0.5 then 0.20 else 0.0))
    else if c == 2 then
      AtLeastZero((if "max_fanout_violations" in fv && fv["max_fanout_violations"] > 0.0 then 0.35 else 0.0)
                  + (if "total_power_mw" in fv && fv["total_power_mw"] > 0.0 then 0.20 else 0.0)
                  + (if "max_slew_violations" in fv && fv["max_slew_violations"] > 0.0 then 0.30 else 0.0)
                  + (if "congestion_hotspot_count" in fv && fv["congestion_hotspot_count"] > 2.0 then 0.15 else 0.0)
                  - (if "wns_ns" in fv && fv["wns_ns"] < -1.0 then 0.15 else 0.0))
    else if c == 3 then
      (if "utilization_pct" in fv && fv["utilization_pct"] > 75.0 then 0.45 else 0.0)
      + (if "congestion_hotspot_count" in fv && fv["congestion_hotspot_count"] > 5.0 then 0.30 else 0.0)
      + (if "max_overflow" in fv && fv["max_overflow"] > 0.5 then 0.25 else 0.0)
    else if c == 4 then
      AtLeastZero((if "hold_violations" in fv && fv["hold_violations"] > 3.0 then 0.50 else 0.0)
                  + (if "clock_skew_ns" in fv && fv["clock_skew_ns"] < 0.06 then 0.30 else 0.0)
                  + (if "wns_ns" in fv && fv["wns_ns"] > -0.1 then 0.20 else 0.0)
                  - (if "clock_skew_ns" in fv && fv["clock_skew_ns"] > 0.10 then 0.25 else 0.0))
    else
      (if "drc_total" in fv && fv["drc_total"] > 5.0 then 0.45 else 0.0)
      + (if "congestion_hotspot_count" in fv && fv["congestion_hotspot_count"] > 3.0 then 0.35 else 0.0)
      + (if "utilization_pct" in fv && fv["utilization_pct"] > 60.0 then 0.20 else 0.0)
  }

  function Part(c: Condition, fv: FeatureVector): real {
    if c.Met(fv) then c.weight else 0.0
  }

  lemma FourConditions(a: Condition, b: Condition, c: Condition, d: Condition, fv: FeatureVector)
    ensures Hits([a, b, c, d], fv) == Part(a, fv) + Part(b, fv) + Part(c, fv) + Part(d, fv)
    ensures Weight([a, b, c, d]) == a.weight + b.weight + c.weight + d.weight
  {
    hide Condition.Met;
    assert [a, b, c, d][1..] == [b, c, d];
    ThreeConditions(b, c, d, fv);
  }

  lemma ThreeConditions(a: Condition, b: Condition, c: Condition, fv: FeatureVector)
    ensures Hits([a, b, c], fv) == Part(a, fv) + Part(b, fv) + Part(c, fv)
    ensures Weight([a, b, c]) == a.weight + b.weight + c.weight
  {
    hide Condition.Met;
    OneCondition(c, fv);
    assert [a, b, c][1..] == [b, c] && [b, c][1..] == [c] && [c][1..] == [];
    assert Hits([b, c], fv) == Part(b, fv) + Part(c, fv) && Weight([b, c]) == b.weight + c.weight;
  }

  lemma OneCondition(a: Condition, fv: FeatureVector)
    ensures Hits([a], fv) == Part(a, fv) && Hits([], fv) == 0.0 && Weight([a]) == a.weight
  {
    hide Condition.Met;
    assert [a][1..] == [];
  }

  lemma RoutingDetour(fv: FeatureVector)
    ensures ROUTING_DETOUR.Score(fv) == RawScore(fv, 0)
  {
    FourConditions(ROUTING_DETOUR.conditions[0], ROUTING_DETOUR.conditions[1], ROUTING_DETOUR.conditions[2],
                   ROUTING_DETOUR.conditions[3], fv);
    OneCondition(ROUTING_DETOUR.antiConditions[0], fv);
    hide Hits, Weight;
  }

  lemma CtsSkew(fv: FeatureVector)
    ensures CTS_SKEW.Score(fv) == RawScore(fv, 1)
  {
    ThreeConditions(CTS_SKEW.conditions[0], CTS_SKEW.conditions[1], CTS_SKEW.conditions[2], fv);
    OneCondition(CTS_SKEW.antiConditions[0], fv);
    hide Hits, Weight;
  }

  lemma OverBuffering(fv: FeatureVector)
    ensures OVER_BUFFERING.Score(fv) == RawScore(fv, 2)
  {
    FourConditions(OVER_BUFFERING.conditions[0], OVER_BUFFERING.conditions[1], OVER_BUFFERING.conditions[2],
                   OVER_BUFFERING.conditions[3], fv);
    OneCondition(OVER_BUFFERING.antiConditions[0], fv);
    hide Hits, Weight;
  }

  lemma DensitySaturation(fv: FeatureVector)
    ensures DENSITY_SATURATION.Score(fv) == RawScore(fv, 3)
  {
    ThreeConditions(DENSITY_SATURATION.conditions[0], DENSITY_SATURATION.conditions[1],
                    DENSITY_SATURATION.conditions[2], fv);
    OneCondition(DENSITY_SATURATION.conditions[0], fv);
    hide Hits, Weight;
  }

  lemma HoldMarginTight(fv: FeatureVector)
    ensures HOLD_MARGIN_TIGHT.Score(fv) == RawScore(fv, 4)
  {
    ThreeConditions(HOLD_MARGIN_TIGHT.conditions[0], HOLD_MARGIN_TIGHT.conditions[1], HOLD_MARGIN_TIGHT.conditions[2],
                    fv);
    OneCondition(HOLD_MARGIN_TIGHT.antiConditions[0], fv);
    hide Hits, Weight;
  }

  lemma DrcRoutingCongestion(fv: FeatureVector)
    ensures DRC_ROUTING_CONGESTION.Score(fv) == RawScore(fv, 5)
  {
    ThreeConditions(DRC_ROUTING_CONGESTION.conditions[0], DRC_ROUTING_CONGESTION.conditions[1],
                    DRC_ROUTING_CONGESTION.conditions[2], fv);
    OneCondition(DRC_ROUTING_CONGESTION.conditions[0], fv);
    hide Hits, Weight;
  }

  /** For every feature vector, the score of every shipped rule in raw comparisons. */
  lemma CatalogueScores(fv: FeatureVector, c: nat)
    requires c < |RULES|
    ensures RULES[c].Score(fv) == RawScore(fv, c)
  {
    RoutingDetour(fv);
    CtsSkew(fv);
    OverBuffering(fv);
    DensitySaturation(fv);
    HoldMarginTight(fv);
    DrcRoutingCongestion(fv);
    hide RawScore, Rule.Score;
    assert RULES[0] == ROUTING_DETOUR && RULES[1] == CTS_SKEW && RULES[2] == OVER_BUFFERING;
    assert RULES[3] == DENSITY_SATURATION && RULES[4] == HOLD_MARGIN_TIGHT && RULES[5] == DRC_ROUTING_CONGESTION;
  }

  /** The least score with which each shipped rule fires. */
  function RawThreshold(c: nat): real
    requires c < 6
  {
    if c == 2 then 0.25 else 0.30
  }

  /** The shipped rules that fire on their own scores and come before rule c. */
  ghost function RawBetter(fv: FeatureVector, c: nat): set<nat>
    requires c < 6
  {
    set r: nat | r < 6 && RawScore(fv, r) >= RawThreshold(r)
                 && (RawScore(fv, r) > RawScore(fv, c) || (RawScore(fv, r) == RawScore(fv, c) && r < c))
  }

  /**
    What the shipped catalogue reports without any stored weight: rule c is hypothesis k + 1 exactly if it reaches its
    threshold and k rules that reach theirs score better, or equally and come earlier; and it is among the three
    hypotheses exactly if fewer than three do.
   */
  lemma CatalogueReport(fv: FeatureVector, c: nat, k: nat)
    requires c < |RULES|
    ensures k < |Report(RULES, fv, map[])| && Report(RULES, fv, map[])[k].causeId == RULES[c].id <==>
            k < 3 && RawScore(fv, c) >= RawThreshold(c) && |RawBetter(fv, c)| == k
    ensures RULES[c].id in CauseIds(Report(RULES, fv, map[])) <==>
            RawScore(fv, c) >= RawThreshold(c) && |RawBetter(fv, c)| < 3
  {
    CatalogueWellFormed();
    Thresholds();
    forall r: nat | r < 6
      ensures FinalScore(RULES, fv, map[], r) == RawScore(fv, r) && RULES[r].minScore == RawThreshold(r)
    {
      CatalogueScores(fv, r);
      ScoreRange(RULES[r], fv);
    }
    hide RawScore, RawThreshold, FinalScore, Report, CauseIds, RULES;
    assert Better(RULES, fv, map[], c) == RawBetter(fv, c);
    ReportPlace(RULES, fv, map[], c, k);
    Reported(RULES, fv, map[], c);
  }

  lemma Thresholds()
    ensures forall r: nat | r < 6 :: RULES[r].minScore == RawThreshold(r)
  {
  }
}
