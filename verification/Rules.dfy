/** The root-cause rules: threshold conditions on a feature vector, weighted into a score. */
module Rules {
  import opened Stepping

  /** Features extracted from one run; a feature that is missing or null has no entry. */
  type FeatureVector = map<string, real>

  datatype Op = Gt | Ge | Lt | Le | Ne

  datatype Condition = Condition(feature: string, op: Op, threshold: real, weight: real) {
    predicate Met(fv: FeatureVector) {
      feature in fv &&
      match op
      case Gt => fv[feature] > threshold
      case Ge => fv[feature] >= threshold
      case Lt => fv[feature] < threshold
      case Le => fv[feature] <= threshold
      case Ne => fv[feature] != threshold
    }
  }

  datatype Rule = Rule(id: string, conditions: seq<Condition>, antiConditions: seq<Condition>, minScore: real) {
    predicate NonNegative() {
      (forall i | 0 <= i < |conditions| :: conditions[i].weight >= 0.0) &&
      (forall i | 0 <= i < |antiConditions| :: antiConditions[i].weight >= 0.0)
    }

    function Score(fv: FeatureVector): real {
      var total := Weight(conditions);
      var raw := Hits(conditions, fv) / (if total == 0.0 then 1.0 else total);
      var penalty := Hits(antiConditions, fv);
      if raw - penalty > 0.0 then raw - penalty else 0.0
    }
  }

  function Weight(cs: seq<Condition>): real {
    if cs == [] then 0.0 else cs[0].weight + Weight(cs[1..])
  }

  /** The summed weight of the conditions that hold. */
  function Hits(cs: seq<Condition>, fv: FeatureVector): real {
    if cs == [] then 0.0 else (if cs[0].Met(fv) then cs[0].weight else 0.0) + Hits(cs[1..], fv)
  }

  lemma {:induction false} HitsBounded(cs: seq<Condition>, fv: FeatureVector)
    requires forall c | c in cs :: c.weight >= 0.0
    ensures 0.0 <= Hits(cs, fv) <= Weight(cs)
  {
    if cs != [] {
      HitsBounded(cs[1..], fv);
    }
  }

  /** Hits reach the full weight exactly when every weighted condition holds, and vanish exactly when none does. */
  lemma {:induction false} HitsExtremes(cs: seq<Condition>, fv: FeatureVector)
    requires forall c | c in cs :: c.weight >= 0.0
    ensures Hits(cs, fv) == Weight(cs) <==> forall c | c in cs && c.weight > 0.0 :: c.Met(fv)
    ensures Hits(cs, fv) == 0.0 <==> forall c | c in cs && c.weight > 0.0 :: !c.Met(fv)
  {
    if cs != [] {
      HitsBounded(cs[1..], fv);
      HitsExtremes(cs[1..], fv);
      assert forall c :: c in cs <==> c == cs[0] || c in cs[1..];
    }
  }

  lemma {:induction false} HitsMonotone(cs: seq<Condition>, fv: FeatureVector, fv': FeatureVector)
    requires forall c | c in cs :: c.weight >= 0.0
    requires forall c | c in cs :: c.Met(fv) ==> c.Met(fv')
    ensures Hits(cs, fv) <= Hits(cs, fv')
  {
    if cs != [] {
      HitsMonotone(cs[1..], fv, fv');
    }
  }

  /** A quotient of non-negative numbers, the smaller on top, lies in the unit interval. */
  lemma Quotient(x: real, y: real)
    requires 0.0 <= x <= y && 0.0 < y
    ensures 0.0 <= x / y <= 1.0
    ensures x / y == 1.0 <==> x == y
  {
    assert x == (x / y) * y;
  }

  /**
    Every score lies in the unit interval, and is 1 exactly when there is weight at all, and all weighted conditions
    and no weighted anti-condition hold; without any weight it is 0.
   */
  lemma {:induction false} ScoreRange(r: Rule, fv: FeatureVector)
    requires r.NonNegative()
    ensures 0.0 <= r.Score(fv) <= 1.0
    ensures r.Score(fv) == 1.0 <==>
            && Weight(r.conditions) > 0.0
            && (forall c | c in r.conditions && c.weight > 0.0 :: c.Met(fv))
            && (forall c | c in r.antiConditions && c.weight > 0.0 :: !c.Met(fv))
    ensures Weight(r.conditions) == 0.0 ==> r.Score(fv) == 0.0
  {
    HitsBounded(r.conditions, fv);
    HitsBounded(r.antiConditions, fv);
    HitsExtremes(r.conditions, fv);
    HitsExtremes(r.antiConditions, fv);
    if Weight(r.conditions) > 0.0 {
      Quotient(Hits(r.conditions, fv), Weight(r.conditions));
    }
  }

  /** Meeting more conditions and fewer anti-conditions never lowers the score. */
  lemma {:induction false} ScoreMonotone(r: Rule, fv: FeatureVector, fv': FeatureVector)
    requires r.NonNegative()
    requires forall c | c in r.conditions :: c.Met(fv) ==> c.Met(fv')
    requires forall c | c in r.antiConditions :: c.Met(fv') ==> c.Met(fv)
    ensures r.Score(fv) <= r.Score(fv')
  {
    HitsMonotone(r.conditions, fv, fv');
    HitsMonotone(r.antiConditions, fv', fv);
    HitsBounded(r.conditions, fv);
    var total := Weight(r.conditions);
    QuotientMonotone(Hits(r.conditions, fv), Hits(r.conditions, fv'), if total == 0.0 then 1.0 else total);
  }

  const ROUTING_DETOUR := Rule(
    "routing_detour",
    [ Condition("wns_ns", Lt, -0.2, 0.35),
      Condition("congestion_hotspot_count", Gt, 3.0, 0.30),
      Condition("utilization_pct", Gt, 65.0, 0.20),
      Condition("tns_ns", Lt, -1.0, 0.15) ],
    [ Condition("hold_violations", Gt, 10.0, 0.15) ],
    0.30)

  const CTS_SKEW := Rule(
    "cts_skew",
    [ Condition("hold_violations", Gt, 0.0, 0.40),
      Condition("clock_skew_ns", Gt, 0.08, 0.40),
      Condition("setup_violations", Lt, 5.0, 0.20) ],
    [ Condition("wns_ns", Lt, -0.5, 0.20) ],
    0.30)

  const OVER_BUFFERING := Rule(
    "over_buffering",
    [ Condition("max_fanout_violations", Gt, 0.0, 0.35),
      Condition("total_power_mw", Gt, 0.0, 0.20),
      Condition("max_slew_violations", Gt, 0.0, 0.30),
      Condition("congestion_hotspot_count", Gt, 2.0, 0.15) ],
    [ Condition("wns_ns", Lt, -1.0, 0.15) ],
    0.25)

  const DENSITY_SATURATION := Rule(
    "density_saturation",
    [ Condition("utilization_pct", Gt, 75.0, 0.45),
      Condition("congestion_hotspot_count", Gt, 5.0, 0.30),
      Condition("max_overflow", Gt, 0.5, 0.25) ],
    [],
    0.30)

  const HOLD_MARGIN_TIGHT := Rule(
    "hold_margin_tight",
    [ Condition("hold_violations", Gt, 3.0, 0.50),
      Condition("clock_skew_ns", Lt, 0.06, 0.30),
      Condition("wns_ns", Gt, -0.1, 0.20) ],
    [ Condition("clock_skew_ns", Gt, 0.10, 0.25) ],
    0.30)

  const DRC_ROUTING_CONGESTION := Rule(
    "drc_routing_congestion",
    [ Condition("drc_total", Gt, 5.0, 0.45),
      Condition("congestion_hotspot_count", Gt, 3.0, 0.35),
      Condition("utilization_pct", Gt, 60.0, 0.20) ],
    [],
    0.30)

  /** The catalogue, in its declared order. */
  const RULES: seq<Rule> := [
    ROUTING_DETOUR,
    CTS_SKEW,
    OVER_BUFFERING,
    DENSITY_SATURATION,
    HOLD_MARGIN_TIGHT,
    DRC_ROUTING_CONGESTION
  ]

  ghost predicate DistinctIds(rules: seq<Rule>) {
    forall i, j | 0 <= i < j < |rules| :: rules[i].id != rules[j].id
  }

  ghost predicate WellFormed(rules: seq<Rule>) {
    DistinctIds(rules) && forall i | 0 <= i < |rules| :: rules[i].NonNegative()
  }

  /** Each declared rule has non-negative weights and a firing threshold of 0.25 or 0.30. */
  lemma CatalogueEntries()
    ensures forall i | 0 <= i < |RULES| :: RULES[i].NonNegative() && 0.25 <= RULES[i].minScore <= 0.30
  {
    assert ROUTING_DETOUR.NonNegative();
    assert CTS_SKEW.NonNegative();
    assert OVER_BUFFERING.NonNegative();
    assert DENSITY_SATURATION.NonNegative();
    assert HOLD_MARGIN_TIGHT.NonNegative();
    assert DRC_ROUTING_CONGESTION.NonNegative();
  }

  /** The declared ids, told apart by their first letters. */
  lemma CatalogueIds()
    ensures DistinctIds(RULES)
  {
    assert ROUTING_DETOUR.id[0] == 'r' && CTS_SKEW.id[0] == 'c' && OVER_BUFFERING.id[0] == 'o';
    assert HOLD_MARGIN_TIGHT.id[0] == 'h';
    assert DENSITY_SATURATION.id[..2] == "de" && DRC_ROUTING_CONGESTION.id[..2] == "dr";
    assert DENSITY_SATURATION.id[1] == 'e' && DRC_ROUTING_CONGESTION.id[1] == 'r';
  }

  /** The shipped catalogue has distinct ids, non-negative weights and thresholds of 0.25 or 0.30. */
  lemma CatalogueWellFormed()
    ensures WellFormed(RULES) && |RULES| == 6
    ensures forall i | 0 <= i < |RULES| :: 0.25 <= RULES[i].minScore <= 0.30
  {
    CatalogueEntries();
    CatalogueIds();
  }
}
