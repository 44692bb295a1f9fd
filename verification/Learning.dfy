/** Inference and feedback as one dynamical system: what repeated confirmation of one cause leads to. */
module Learning {
  import opened Rules
  import opened Weights
  import opened Engine
  import opened Stepping

  /** One round: infer on the given features, then confirm the rule at position c. */
  function Round(rules: seq<Rule>, fv: FeatureVector, c: nat, delta: real, m: Multipliers): Multipliers
    requires c < |rules|
  {
    Feedback(m, rules[c].id, Shown(rules, fv, m), delta)
  }

  function Rounds(rules: seq<Rule>, fv: FeatureVector, c: nat, delta: real, m: Multipliers, n: nat): Multipliers
    requires c < |rules|
    decreases n
  {
    if n == 0 then m else Rounds(rules, fv, c, delta, Round(rules, fv, c, delta, m), n - 1)
  }

  ghost predicate Leads(rules: seq<Rule>, fv: FeatureVector, m: Multipliers, c: nat)
    requires c < |rules|
  {
    var ranked := Ranked(rules, fv, m);
    ranked != [] && ranked[0].pos == c
  }

  /** Rule pos, scored as if its multiplier were mult. */
  function At(rules: seq<Rule>, fv: FeatureVector, pos: nat, mult: real): Fired
    requires pos < |rules|
  {
    Fired(pos, rules[pos].Score(fv), Adjusted(rules[pos].Score(fv), mult))
  }

  /**
    Rule c fires at the largest multiplier, and no other rule fires at the smallest one and still stays ahead of it.
   */
  ghost predicate CanLead(rules: seq<Rule>, fv: FeatureVector, c: nat)
    requires c < |rules|
  {
    && At(rules, fv, c, MAX_MULTIPLIER).adjusted >= rules[c].minScore
    && forall r | 0 <= r < |rules| && r != c ::
         !(At(rules, fv, r, MIN_MULTIPLIER).adjusted >= rules[r].minScore
           && Ahead(At(rules, fv, r, MIN_MULTIPLIER), At(rules, fv, c, MAX_MULTIPLIER)))
  }

  // ----- a rule's standing is monotone in its multiplier

  lemma AdjustedMonotone(raw: real, a: real, b: real)
    requires raw >= 0.0 && a <= b
    ensures Adjusted(raw, a) <= Adjusted(raw, b)
  {
    assert raw * a <= raw * b;
  }

  /** Leading means firing and having no other fired rule ahead. */
  lemma LeadsIff(rules: seq<Rule>, fv: FeatureVector, m: Multipliers, c: nat)
    requires c < |rules|
    ensures Leads(rules, fv, m, c) <==>
              && Fires(rules, fv, m, c)
              && forall r | 0 <= r < |rules| && Fires(rules, fv, m, r) && r != c ::
                   Ahead(Evaluate(rules, fv, m, c), Evaluate(rules, fv, m, r))
  {
    RankingCorrect(rules, fv, m);
    var ranked := Ranked(rules, fv, m);
    if Leads(rules, fv, m, c) {
      assert ranked[0] in ranked;
      forall r | 0 <= r < |rules| && Fires(rules, fv, m, r) && r != c
        ensures Ahead(Evaluate(rules, fv, m, c), Evaluate(rules, fv, m, r))
      {
        assert Evaluate(rules, fv, m, r) in ranked;
      }
    } else if Fires(rules, fv, m, c) {
      assert Evaluate(rules, fv, m, c) in ranked;
      assert ranked[0] in ranked;
      var i :| 0 <= i < |ranked| && ranked[i] == Evaluate(rules, fv, m, c);
      assert Ahead(ranked[0], ranked[i]);
    }
  }

  // ----- one round

  lemma RoundInBounds(rules: seq<Rule>, fv: FeatureVector, c: nat, delta: real, m: Multipliers)
    requires c < |rules| && InBounds(m)
    ensures InBounds(Round(rules, fv, c, delta, m))
  {
    hide Shown;
    FeedbackInBounds(m, rules[c].id, Shown(rules, fv, m), delta);
  }

  lemma Bounds(m: Multipliers, id: string)
    requires InBounds(m)
    ensures MIN_MULTIPLIER <= Get(m, id) <= MAX_MULTIPLIER
  {
  }

  /** A round moves c up, moves nothing else up, and moves the leader down when it is not c. */
  lemma RoundEffect(rules: seq<Rule>, fv: FeatureVector, c: nat, delta: real, m: Multipliers)
    requires WellFormed(rules) && c < |rules| && delta > 0.0 && InBounds(m)
    ensures var after := Round(rules, fv, c, delta, m);
            && Get(after, rules[c].id) == Capped(Get(m, rules[c].id), delta)
            && forall r | 0 <= r < |rules| && r != c :: Get(after, rules[r].id) <= Get(m, rules[r].id)
    ensures !Leads(rules, fv, m, c) && Ranked(rules, fv, m) != [] ==>
              var r := Ranked(rules, fv, m)[0].pos;
              && r < |rules| && r != c
              && Get(Round(rules, fv, c, delta, m), rules[r].id) <= Lowered(Get(m, rules[r].id), delta / 2.0)
  {
    hide Feedback, Ranked, Adjusted;
    var shown := Shown(rules, fv, m);
    FeedbackEffect(m, rules[c].id, shown, delta, rules[c].id);
    forall r | 0 <= r < |rules| && r != c
      ensures Get(Round(rules, fv, c, delta, m), rules[r].id) <= Get(m, rules[r].id)
    {
      assert rules[r].id != rules[c].id;
      FeedbackEffect(m, rules[c].id, shown, delta, rules[r].id);
    }
    RankedPositions(rules, fv, m);
    if !Leads(rules, fv, m, c) && Ranked(rules, fv, m) != [] {
      var r := Ranked(rules, fv, m)[0].pos;
      assert shown[0] == rules[r].id && rules[r].id != rules[c].id;
      FeedbackEffect(m, rules[c].id, shown, delta, rules[r].id);
    }
  }

  function Capped(v: real, delta: real): real {
    if v + delta < MAX_MULTIPLIER then v + delta else MAX_MULTIPLIER
  }

  function Lowered(v: real, step: real): real {
    if v - step > MIN_MULTIPLIER then v - step else MIN_MULTIPLIER
  }

  /** Confirming c never lets another rule overtake it: whoever is ahead of c afterwards was ahead of it before. */
  lemma {:induction false} NoOvertaking(rules: seq<Rule>, fv: FeatureVector, c: nat, delta: real, m: Multipliers,
                                        r: nat)
    requires WellFormed(rules) && c < |rules| && delta > 0.0 && InBounds(m)
    requires r < |rules| && r != c
    ensures Fires(rules, fv, m, c) ==> Fires(rules, fv, Round(rules, fv, c, delta, m), c)
    ensures var after := Round(rules, fv, c, delta, m);
            Fires(rules, fv, after, r) && Ahead(Evaluate(rules, fv, after, r), Evaluate(rules, fv, after, c)) ==>
              Fires(rules, fv, m, r) && Ahead(Evaluate(rules, fv, m, r), Evaluate(rules, fv, m, c))
  {
    var after := Round(rules, fv, c, delta, m);
    RoundEffect(rules, fv, c, delta, m);
    ScoreRange(rules[c], fv);
    ScoreRange(rules[r], fv);
    hide Round, Ranked, Rule.Score, Get, Adjusted, Shown;
    RoundIncreases(rules, fv, c, delta, m);
    AdjustedMonotone(rules[c].Score(fv), Get(m, rules[c].id), Get(after, rules[c].id));
    AdjustedMonotone(rules[r].Score(fv), Get(after, rules[r].id), Get(m, rules[r].id));
  }

  lemma RoundIncreases(rules: seq<Rule>, fv: FeatureVector, c: nat, delta: real, m: Multipliers)
    requires WellFormed(rules) && c < |rules| && delta > 0.0 && InBounds(m)
    ensures Get(m, rules[c].id) <= Get(Round(rules, fv, c, delta, m), rules[c].id)
  {
    hide Round, Ranked;
    RoundEffect(rules, fv, c, delta, m);
    Bounds(m, rules[c].id);
  }

  /** Once first, always first. */
  lemma LeadIsKept(rules: seq<Rule>, fv: FeatureVector, c: nat, delta: real, m: Multipliers)
    requires WellFormed(rules) && c < |rules| && delta > 0.0 && InBounds(m)
    requires Leads(rules, fv, m, c)
    ensures Leads(rules, fv, Round(rules, fv, c, delta, m), c)
  {
    hide *;
    var after := Round(rules, fv, c, delta, m);
    LeadsIff(rules, fv, m, c);
    LeadsIff(rules, fv, after, c);
    FiringIsKept(rules, fv, c, delta, m);
    forall r | 0 <= r < |rules| && Fires(rules, fv, after, r) && r != c
      ensures Ahead(Evaluate(rules, fv, after, c), Evaluate(rules, fv, after, r))
    {
      NoOvertaking(rules, fv, c, delta, m, r);
      OneIsAhead(rules, fv, m, c, r);
      OneIsAhead(rules, fv, after, c, r);
    }
  }

  lemma OneIsAhead(rules: seq<Rule>, fv: FeatureVector, m: Multipliers, c: nat, r: nat)
    requires c < |rules| && r < |rules| && c != r
    ensures Ahead(Evaluate(rules, fv, m, c), Evaluate(rules, fv, m, r)) <==>
            !Ahead(Evaluate(rules, fv, m, r), Evaluate(rules, fv, m, c))
  {
  }

  lemma FiringIsKept(rules: seq<Rule>, fv: FeatureVector, c: nat, delta: real, m: Multipliers)
    requires WellFormed(rules) && c < |rules| && delta > 0.0 && InBounds(m)
    ensures Fires(rules, fv, m, c) ==> Fires(rules, fv, Round(rules, fv, c, delta, m), c)
  {
    ScoreRange(rules[c], fv);
    hide Round, Rule.Score, Get, Adjusted;
    RoundIncreases(rules, fv, c, delta, m);
    AdjustedMonotone(rules[c].Score(fv), Get(m, rules[c].id), Get(Round(rules, fv, c, delta, m), rules[c].id));
  }

  // ----- the documented penalty

  /**
    A multiplier after a confirmation that was not shown, as the documentation of the weights has it: every fired rule
    but the confirmed one loses half a step, shown or not.
   */
  function Documented(rules: seq<Rule>, fv: FeatureVector, m: Multipliers, confirmed: string, delta: real,
                      pos: nat): real
    requires pos < |rules|
  {
    var before := Get(m, rules[pos].id);
    if rules[pos].id == confirmed then Clamp(before + delta)
    else if Fires(rules, fv, m, pos) then Clamp(before - delta / 2.0)
    else before
  }

  /** Fired, not shown, and not the confirmed one: the rules the code leaves alone. */
  predicate Spared(rules: seq<Rule>, fv: FeatureVector, m: Multipliers, confirmed: string, pos: nat)
    requires pos < |rules|
  {
    Fires(rules, fv, m, pos) && rules[pos].id !in Shown(rules, fv, m) && rules[pos].id != confirmed
  }

  lemma RuleAsDocumented(rules: seq<Rule>, fv: FeatureVector, m: Multipliers, confirmed: string, delta: real, pos: nat)
    requires DistinctIds(rules) && InBounds(m) && delta > 0.0 && confirmed !in Shown(rules, fv, m) && pos < |rules|
    ensures Get(Feedback(m, confirmed, Shown(rules, fv, m), delta), rules[pos].id)
              == Documented(rules, fv, m, confirmed, delta, pos) <==>
            !Spared(rules, fv, m, confirmed, pos) || Get(m, rules[pos].id) == MIN_MULTIPLIER
  {
    hide Feedback, Shown, Fires, Get, InBounds, DistinctIds;
    FeedbackEffect(m, confirmed, Shown(rules, fv, m), delta, rules[pos].id);
    Bounds(m, rules[pos].id);
    if rules[pos].id in Shown(rules, fv, m) {
      ShownFires(rules, fv, m, pos);
    }
  }

  /**
    When the confirmed cause was not shown, the code does what is documented exactly if every rule it spares is at the
    smallest multiplier anyway; with at most three fired rules it always does.
   */
  lemma PenaltyAsDocumented(rules: seq<Rule>, fv: FeatureVector, m: Multipliers, confirmed: string, delta: real)
    requires DistinctIds(rules) && InBounds(m) && delta > 0.0 && confirmed !in Shown(rules, fv, m)
    ensures (forall pos | 0 <= pos < |rules| ::
               Get(Feedback(m, confirmed, Shown(rules, fv, m), delta), rules[pos].id)
                 == Documented(rules, fv, m, confirmed, delta, pos)) <==>
            forall pos | 0 <= pos < |rules| && Spared(rules, fv, m, confirmed, pos) ::
              Get(m, rules[pos].id) == MIN_MULTIPLIER
    ensures |Ranked(rules, fv, m)| <= 3 ==> forall pos | 0 <= pos < |rules| :: !Spared(rules, fv, m, confirmed, pos)
  {
    hide Feedback, Shown, Ranked, Documented, Get, Fires, Evaluate;
    forall pos | 0 <= pos < |rules|
      ensures Get(Feedback(m, confirmed, Shown(rules, fv, m), delta), rules[pos].id)
                == Documented(rules, fv, m, confirmed, delta, pos) <==>
              !Spared(rules, fv, m, confirmed, pos) || Get(m, rules[pos].id) == MIN_MULTIPLIER
    {
      RuleAsDocumented(rules, fv, m, confirmed, delta, pos);
    }
    forall pos | 0 <= pos < |rules| && |Ranked(rules, fv, m)| <= 3
      ensures !Spared(rules, fv, m, confirmed, pos)
    {
      if Fires(rules, fv, m, pos) {
        AllShown(rules, fv, m, pos);
      }
    }
  }

  lemma AllShown(rules: seq<Rule>, fv: FeatureVector, m: Multipliers, pos: nat)
    requires pos < |rules| && Fires(rules, fv, m, pos) && |Ranked(rules, fv, m)| <= 3
    ensures rules[pos].id in Shown(rules, fv, m)
  {
    var i := RankOf(rules, fv, m, pos);
    hide Ranked, Fires, Evaluate;
    assert Shown(rules, fv, m)[i] == rules[pos].id;
  }

  // ----- the potential

  /** The share of rule pos in the potential: steps up to the top for c, half steps down to the bottom for the rest. */
  function Share(rules: seq<Rule>, c: nat, delta: real, m: Multipliers, pos: nat): int
    requires pos < |rules| && delta > 0.0
  {
    if pos == c then Steps(MAX_MULTIPLIER - Get(m, rules[pos].id), delta)
    else Steps(Get(m, rules[pos].id) - MIN_MULTIPLIER, delta / 2.0)
  }

  function Potential(rules: seq<Rule>, c: nat, delta: real, m: Multipliers, n: nat): int
    requires n <= |rules| && delta > 0.0
  {
    if n == 0 then 0 else Potential(rules, c, delta, m, n - 1) + Share(rules, c, delta, m, n - 1)
  }

  lemma {:induction false} PotentialCompare(rules: seq<Rule>, c: nat, delta: real, m: Multipliers, m': Multipliers,
                                            n: nat)
    requires n <= |rules| && delta > 0.0
    requires forall i | 0 <= i < n :: Share(rules, c, delta, m', i) <= Share(rules, c, delta, m, i)
    ensures Potential(rules, c, delta, m', n) <= Potential(rules, c, delta, m, n)
    ensures (exists i | 0 <= i < n :: Share(rules, c, delta, m', i) < Share(rules, c, delta, m, i)) ==>
              Potential(rules, c, delta, m', n) < Potential(rules, c, delta, m, n)
  {
    if n > 0 {
      PotentialCompare(rules, c, delta, m, m', n - 1);
      if i :| 0 <= i < n && Share(rules, c, delta, m', i) < Share(rules, c, delta, m, i) {
        assert i < n - 1 || i == n - 1;
      }
    }
  }

  lemma {:induction false} PotentialNonNegative(rules: seq<Rule>, c: nat, delta: real, m: Multipliers, n: nat)
    requires n <= |rules| && delta > 0.0 && InBounds(m)
    ensures Potential(rules, c, delta, m, n) >= 0
  {
    if n > 0 {
      PotentialNonNegative(rules, c, delta, m, n - 1);
      Bounds(m, rules[n - 1].id);
      StepsNonNegative(MAX_MULTIPLIER - Get(m, rules[n - 1].id), delta);
      StepsNonNegative(Get(m, rules[n - 1].id) - MIN_MULTIPLIER, delta / 2.0);
    }
  }

  /** When c can lead but does not, either it can still rise or the leader can still fall. */
  lemma RoomToMove(rules: seq<Rule>, fv: FeatureVector, c: nat, m: Multipliers)
    requires WellFormed(rules) && c < |rules| && InBounds(m)
    requires CanLead(rules, fv, c) && !Leads(rules, fv, m, c)
    ensures Get(m, rules[c].id) >= MAX_MULTIPLIER ==>
              && Ranked(rules, fv, m) != []
              && Ranked(rules, fv, m)[0].pos < |rules|
              && Get(m, rules[Ranked(rules, fv, m)[0].pos].id) > MIN_MULTIPLIER
  {
    hide Ranked, Adjusted, Rule.Score;
    if Get(m, rules[c].id) >= MAX_MULTIPLIER {
      RankingCorrect(rules, fv, m);
      var ranked := Ranked(rules, fv, m);
      assert Evaluate(rules, fv, m, c) == At(rules, fv, c, MAX_MULTIPLIER);
      assert Evaluate(rules, fv, m, c) in ranked;
      var i :| 0 <= i < |ranked| && ranked[i] == Evaluate(rules, fv, m, c);
      assert ranked[0] in ranked && Ahead(ranked[0], ranked[i]);
      var r := ranked[0].pos;
      assert ranked[0] == Evaluate(rules, fv, m, r);
      Bounds(m, rules[r].id);
      assert ranked[0] == At(rules, fv, r, Get(m, rules[r].id));
    }
  }

  /** Every round in which c does not lead uses up potential. */
  lemma {:induction false} RoundUsesPotential(rules: seq<Rule>, fv: FeatureVector, c: nat, delta: real, m: Multipliers)
    requires WellFormed(rules) && c < |rules| && delta > 0.0 && InBounds(m)
    requires CanLead(rules, fv, c) && !Leads(rules, fv, m, c)
    ensures Potential(rules, c, delta, Round(rules, fv, c, delta, m), |rules|) < Potential(rules, c, delta, m, |rules|)
  {
    hide Round, Ranked, Leads, CanLead, Steps, Potential;
    var after := Round(rules, fv, c, delta, m);
    RoundEffect(rules, fv, c, delta, m);
    forall i | 0 <= i < |rules|
      ensures Share(rules, c, delta, after, i) <= Share(rules, c, delta, m, i)
    {
      if i == c {
        StepsMonotone(MAX_MULTIPLIER - Get(after, rules[c].id), MAX_MULTIPLIER - Get(m, rules[c].id), delta);
      } else {
        StepsMonotone(Get(after, rules[i].id) - MIN_MULTIPLIER, Get(m, rules[i].id) - MIN_MULTIPLIER, delta / 2.0);
      }
    }
    RoomToMove(rules, fv, c, m);
    if Get(m, rules[c].id) < MAX_MULTIPLIER {
      StepsDecrease(MAX_MULTIPLIER - Get(m, rules[c].id), MAX_MULTIPLIER - Get(after, rules[c].id), delta);
      assert Share(rules, c, delta, after, c) < Share(rules, c, delta, m, c);
    } else {
      var r := Ranked(rules, fv, m)[0].pos;
      StepsDecrease(Get(m, rules[r].id) - MIN_MULTIPLIER, Get(after, rules[r].id) - MIN_MULTIPLIER, delta / 2.0);
      assert Share(rules, c, delta, after, r) < Share(rules, c, delta, m, r);
    }
    PotentialCompare(rules, c, delta, m, after, |rules|);
  }

  /** From any multipliers in bounds, c leads after at most Potential rounds of being confirmed, and ever after. */
  lemma {:induction false} ConvergesWhenPossible(rules: seq<Rule>, fv: FeatureVector, c: nat, delta: real,
                                                 m: Multipliers, n: nat)
    requires WellFormed(rules) && c < |rules| && delta > 0.0 && InBounds(m)
    requires CanLead(rules, fv, c) || Leads(rules, fv, m, c)
    requires Leads(rules, fv, m, c) || n >= Potential(rules, c, delta, m, |rules|)
    ensures Leads(rules, fv, Rounds(rules, fv, c, delta, m, n), c)
    decreases n
  {
    hide Round, Leads, CanLead, Potential;
    var after := Round(rules, fv, c, delta, m);
    RoundInBounds(rules, fv, c, delta, m);
    PotentialNonNegative(rules, c, delta, after, |rules|);
    if Leads(rules, fv, m, c) {
      if n > 0 {
        LeadIsKept(rules, fv, c, delta, m);
        ConvergesWhenPossible(rules, fv, c, delta, after, n - 1);
      }
    } else {
      RoundUsesPotential(rules, fv, c, delta, m);
      ConvergesWhenPossible(rules, fv, c, delta, after, n - 1);
    }
  }

  /** Only a rule that can lead ever leads, whatever the multipliers. */
  lemma LeadingNeedsCanLead(rules: seq<Rule>, fv: FeatureVector, c: nat, m: Multipliers)
    requires WellFormed(rules) && c < |rules| && InBounds(m) && Leads(rules, fv, m, c)
    ensures CanLead(rules, fv, c)
  {
    LeadsIff(rules, fv, m, c);
    ScoreRange(rules[c], fv);
    AdjustedMonotone(rules[c].Score(fv), Get(m, rules[c].id), MAX_MULTIPLIER);
    forall r | 0 <= r < |rules| && r != c
      ensures !(At(rules, fv, r, MIN_MULTIPLIER).adjusted >= rules[r].minScore
                && Ahead(At(rules, fv, r, MIN_MULTIPLIER), At(rules, fv, c, MAX_MULTIPLIER)))
    {
      ScoreRange(rules[r], fv);
      AdjustedMonotone(rules[r].Score(fv), MIN_MULTIPLIER, Get(m, rules[r].id));
    }
  }

  lemma {:induction false} RoundsInBounds(rules: seq<Rule>, fv: FeatureVector, c: nat, delta: real, m: Multipliers,
                                          n: nat)
    requires WellFormed(rules) && c < |rules| && delta > 0.0 && InBounds(m)
    ensures InBounds(Rounds(rules, fv, c, delta, m, n))
    decreases n
  {
    RoundInBounds(rules, fv, c, delta, m);
    if n > 0 {
      RoundsInBounds(rules, fv, c, delta, Round(rules, fv, c, delta, m), n - 1);
    }
  }

  lemma LeadingLater(rules: seq<Rule>, fv: FeatureVector, c: nat, delta: real, m: Multipliers, n: nat)
    requires WellFormed(rules) && c < |rules| && delta > 0.0 && InBounds(m)
    ensures Leads(rules, fv, Rounds(rules, fv, c, delta, m, n), c) ==> CanLead(rules, fv, c)
  {
    hide *;
    RoundsInBounds(rules, fv, c, delta, m, n);
    if Leads(rules, fv, Rounds(rules, fv, c, delta, m, n), c) {
      LeadingNeedsCanLead(rules, fv, c, Rounds(rules, fv, c, delta, m, n));
    }
  }

  /**
    Learning converges exactly when it can: for any rules, features, step size and starting multipliers in bounds,
    c leads at some point of the run iff CanLead holds, and then it leads from round Potential on, for good.
   */
  lemma LearningConverges(rules: seq<Rule>, fv: FeatureVector, c: nat, delta: real, m: Multipliers)
    requires WellFormed(rules) && c < |rules| && delta > 0.0 && InBounds(m)
    ensures CanLead(rules, fv, c) <==> exists n: nat :: Leads(rules, fv, Rounds(rules, fv, c, delta, m, n), c)
    ensures CanLead(rules, fv, c) ==>
              forall n: nat | n >= Potential(rules, c, delta, m, |rules|) ::
                Leads(rules, fv, Rounds(rules, fv, c, delta, m, n), c)
  {
    hide *;
    PotentialNonNegative(rules, c, delta, m, |rules|);
    var bound: nat := Potential(rules, c, delta, m, |rules|);
    forall n: nat
      ensures CanLead(rules, fv, c) && n >= bound ==> Leads(rules, fv, Rounds(rules, fv, c, delta, m, n), c)
      ensures Leads(rules, fv, Rounds(rules, fv, c, delta, m, n), c) ==> CanLead(rules, fv, c)
    {
      if CanLead(rules, fv, c) && n >= bound {
        ConvergesWhenPossible(rules, fv, c, delta, m, n);
      }
      LeadingLater(rules, fv, c, delta, m, n);
    }
    assert CanLead(rules, fv, c) ==> Leads(rules, fv, Rounds(rules, fv, c, delta, m, bound), c);
  }

  // ----- the shipped catalogue and step size

  /**
    With the shipped thresholds no rule fires at the smallest multiplier, so only the confirmed rule's own score
    matters.
   */
  lemma CatalogueCanLead(fv: FeatureVector, c: nat)
    requires c < |RULES|
    ensures CanLead(RULES, fv, c) <==> MAX_MULTIPLIER * RULES[c].Score(fv) >= RULES[c].minScore
  {
    CatalogueWellFormed();
    forall r | 0 <= r < |RULES|
      ensures At(RULES, fv, r, MIN_MULTIPLIER).adjusted < RULES[r].minScore
    {
      ScoreRange(RULES[r], fv);
      AdjustedMonotone(RULES[r].Score(fv), MIN_MULTIPLIER, MIN_MULTIPLIER);
      assert RULES[r].Score(fv) * MIN_MULTIPLIER <= MIN_MULTIPLIER;
    }
  }

  lemma {:induction false} DefaultPotential(rules: seq<Rule>, c: nat, n: nat)
    requires n <= |rules|
    ensures Potential(rules, c, DELTA, map[], n) == 36 * n - (if c < n then 16 else 0)
  {
    if n > 0 {
      DefaultPotential(rules, c, n - 1);
      assert 1.0 / 0.05 == 20.0 && 0.9 / 0.025 == 36.0;
      assert Share(rules, c, DELTA, map[], n - 1) == if n - 1 == c then 20 else 36;
    }
  }

  /**
    The shipped system, starting without any stored weight: confirming rule c makes it the first hypothesis
    within 200 rounds and for good, if twice its raw score reaches its threshold, and never otherwise.
   */
  lemma CatalogueLearning(fv: FeatureVector, c: nat)
    requires c < |RULES|
    ensures MAX_MULTIPLIER * RULES[c].Score(fv) >= RULES[c].minScore ==>
              forall n: nat | n >= 200 :: Leads(RULES, fv, Rounds(RULES, fv, c, DELTA, map[], n), c)
    ensures MAX_MULTIPLIER * RULES[c].Score(fv) < RULES[c].minScore ==>
              forall n: nat :: !Leads(RULES, fv, Rounds(RULES, fv, c, DELTA, map[], n), c)
  {
    CatalogueWellFormed();
    CatalogueCanLead(fv, c);
    LearningConverges(RULES, fv, c, DELTA, map[]);
    DefaultPotential(RULES, c, |RULES|);
  }
}
