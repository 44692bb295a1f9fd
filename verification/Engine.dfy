/** Inference: score every rule, weight it, keep the best three that fire. */
module Engine {
  import opened Rules
  import opened Weights

  datatype Confidence = High | Medium | Low

  const HIGH_THRESHOLD := 0.65
  const MEDIUM_THRESHOLD := 0.35

  function ScoreToConfidence(score: real): Confidence {
    if score >= HIGH_THRESHOLD then High else if score >= MEDIUM_THRESHOLD then Medium else Low
  }

  /** The confidence the module documentation of the rules speaks of. */
  function DocumentedConfidence(score: real): Confidence {
    if score >= 0.7 then High else if score >= 0.4 then Medium else Low
  }

  /** It is the one computed, except for scores in two bands. */
  lemma ConfidenceAsDocumented(score: real)
    ensures ScoreToConfidence(score) == DocumentedConfidence(score) <==>
            !(MEDIUM_THRESHOLD <= score < 0.4) && !(HIGH_THRESHOLD <= score < 0.7)
  {
  }

  /** A rule that fired; pos is its place in the catalogue. */
  datatype Fired = Fired(pos: nat, raw: real, adjusted: real)

  datatype Hypothesis = Hypothesis(rank: nat, causeId: string, score: real, rawScore: real, multiplier: real,
                                   confidence: Confidence)

  /** The weighted score, capped at 1. */
  function Adjusted(raw: real, multiplier: real): real {
    if raw * multiplier < 1.0 then raw * multiplier else 1.0
  }

  function Evaluate(rules: seq<Rule>, fv: FeatureVector, m: Multipliers, pos: nat): Fired
    requires pos < |rules|
  {
    var raw := rules[pos].Score(fv);
    Fired(pos, raw, Adjusted(raw, Get(m, rules[pos].id)))
  }

  predicate Fires(rules: seq<Rule>, fv: FeatureVector, m: Multipliers, pos: nat)
    requires pos < |rules|
  {
    Evaluate(rules, fv, m, pos).adjusted >= rules[pos].minScore
  }

  /** The first n rules that fire, in catalogue order. */
  function FiredAmong(rules: seq<Rule>, fv: FeatureVector, m: Multipliers, n: nat): (fired: seq<Fired>)
    requires n <= |rules|
    ensures forall e :: e in fired <==> e.pos < n && Fires(rules, fv, m, e.pos) && e == Evaluate(rules, fv, m, e.pos)
    ensures forall i, j | 0 <= i < j < |fired| :: fired[i].pos < fired[j].pos
  {
    if n == 0 then []
    else
      var rest := FiredAmong(rules, fv, m, n - 1);
      if Fires(rules, fv, m, n - 1) then rest + [Evaluate(rules, fv, m, n - 1)] else rest
  }

  /** Ranked strictly ahead: a better score, or the same score and an earlier place in the catalogue. */
  predicate Ahead(a: Fired, b: Fired) {
    a.adjusted > b.adjusted || (a.adjusted == b.adjusted && a.pos < b.pos)
  }

  ghost predicate StrictlyRanked(s: seq<Fired>) {
    forall i, j | 0 <= i < j < |s| :: Ahead(s[i], s[j])
  }

  /** Put e behind every entry whose score is at least its own. */
  function InsertByScore(e: Fired, s: seq<Fired>): (r: seq<Fired>)
    ensures multiset(r) == multiset(s) + multiset{e}
  {
    if s == [] || s[0].adjusted < e.adjusted then [e] + s
    else
      assert s == [s[0]] + s[1..];
      [s[0]] + InsertByScore(e, s[1..])
  }

  /** Sorting by score, best first, where equal scores keep their order. */
  function SortByScore(s: seq<Fired>): (r: seq<Fired>)
    ensures multiset(r) == multiset(s)
  {
    if s == [] then []
    else
      assert s == s[..|s| - 1] + [s[|s| - 1]];
      InsertByScore(s[|s| - 1], SortByScore(s[..|s| - 1]))
  }

  lemma SameElements(a: seq<Fired>, b: seq<Fired>)
    requires multiset(a) == multiset(b)
    ensures forall e :: e in a <==> e in b
  {
    forall e
      ensures e in a <==> e in b
    {
      assert e in a <==> e in multiset(a);
      assert e in b <==> e in multiset(b);
    }
  }

  lemma {:induction false} InsertRanked(e: Fired, s: seq<Fired>)
    requires StrictlyRanked(s) && forall x | x in s :: x.pos < e.pos
    ensures StrictlyRanked(InsertByScore(e, s))
  {
    if s != [] && s[0].adjusted >= e.adjusted {
      InsertRanked(e, s[1..]);
      var r := InsertByScore(e, s[1..]);
      forall x | x in r
        ensures Ahead(s[0], x)
      {
        assert x in multiset(s[1..]) + multiset{e};
        if x != e {
          assert x in multiset(s[1..]);
          assert x in s[1..];
        }
      }
    }
  }

  lemma {:induction false} SortRanked(s: seq<Fired>)
    requires forall i, j | 0 <= i < j < |s| :: s[i].pos < s[j].pos
    ensures StrictlyRanked(SortByScore(s))
  {
    if s != [] {
      var front := s[..|s| - 1];
      SortRanked(front);
      SameElements(SortByScore(front), front);
      InsertRanked(s[|s| - 1], SortByScore(front));
    }
  }

  /** Every fired rule, best first. */
  function Ranked(rules: seq<Rule>, fv: FeatureVector, m: Multipliers): seq<Fired> {
    SortByScore(FiredAmong(rules, fv, m, |rules|))
  }

  function Min(a: nat, b: nat): nat {
    if a < b then a else b
  }

  /** The ids of the at most three best fired rules. */
  function Shown(rules: seq<Rule>, fv: FeatureVector, m: Multipliers): seq<string> {
    RankedPositions(rules, fv, m);
    var ranked := Ranked(rules, fv, m);
    seq(Min(3, |ranked|), k requires 0 <= k < Min(3, |ranked|) => rules[ranked[k].pos].id)
  }

  lemma RankedPositions(rules: seq<Rule>, fv: FeatureVector, m: Multipliers)
    ensures forall k | 0 <= k < |Ranked(rules, fv, m)| :: Ranked(rules, fv, m)[k].pos < |rules|
  {
    var fired := FiredAmong(rules, fv, m, |rules|);
    SameElements(SortByScore(fired), fired);
    assert forall e | e in Ranked(rules, fv, m) :: e in fired;
  }

  /** The ranking lists exactly the rules that fire, each scored as evaluated, in strict order of Ahead. */
  lemma RankingCorrect(rules: seq<Rule>, fv: FeatureVector, m: Multipliers)
    ensures StrictlyRanked(Ranked(rules, fv, m))
    ensures forall e :: e in Ranked(rules, fv, m) <==>
                        e.pos < |rules| && Fires(rules, fv, m, e.pos) && e == Evaluate(rules, fv, m, e.pos)
  {
    var fired := FiredAmong(rules, fv, m, |rules|);
    SortRanked(fired);
    SameElements(SortByScore(fired), fired);
  }

  lemma FirstIsAhead(s: seq<Fired>, i: nat)
    requires StrictlyRanked(s) && i < |s|
    ensures i == 0 || Ahead(s[0], s[i])
  {
  }

  /** The strict order leaves no choice: any list with these two properties is the ranking. */
  lemma {:induction false} RankingUnique(a: seq<Fired>, b: seq<Fired>)
    requires StrictlyRanked(a) && StrictlyRanked(b)
    requires forall e :: e in a <==> e in b
    ensures a == b
  {
    assert |b| > 0 ==> b[0] in a;
    if a != [] {
      assert a[0] in b && b[0] in a;
      var i :| 0 <= i < |b| && b[i] == a[0];
      var j :| 0 <= j < |a| && a[j] == b[0];
      FirstIsAhead(b, i);
      FirstIsAhead(a, j);
      forall e
        ensures e in a[1..] <==> e in b[1..]
      {
        if e in a[1..] {
          var k :| 1 <= k < |a| && a[k] == e;
          assert Ahead(a[0], a[k]) && e in b;
        }
        if e in b[1..] {
          var k :| 1 <= k < |b| && b[k] == e;
          assert Ahead(b[0], b[k]) && e in a;
        }
      }
      RankingUnique(a[1..], b[1..]);
      assert a == [a[0]] + a[1..] && b == [b[0]] + b[1..];
    }
  }

  /** One entry of the report. */
  function Describe(rules: seq<Rule>, m: Multipliers, e: Fired, rank: nat): Hypothesis
    requires e.pos < |rules|
  {
    var id := rules[e.pos].id;
    Hypothesis(rank, id, e.adjusted, e.raw, Get(m, id), ScoreToConfidence(e.adjusted))
  }

  /** The report: the at most three best fired rules, rank by rank. */
  function Report(rules: seq<Rule>, fv: FeatureVector, m: Multipliers): seq<Hypothesis> {
    RankedPositions(rules, fv, m);
    var ranked := Ranked(rules, fv, m);
    seq(Min(3, |ranked|), k requires 0 <= k < Min(3, |ranked|) => Describe(rules, m, ranked[k], k + 1))
  }

  method BuildHypotheses(rules: seq<Rule>, multipliers: Multipliers, fired: seq<Fired>)
    returns (hypotheses: seq<Hypothesis>)
    requires forall k | 0 <= k < |fired| :: fired[k].pos < |rules|
    ensures |hypotheses| == Min(3, |fired|)
    ensures forall k | 0 <= k < |hypotheses| :: hypotheses[k] == Describe(rules, multipliers, fired[k], k + 1)
  {
    hypotheses := [];
    for k := 0 to Min(3, |fired|)
      invariant |hypotheses| == k
      invariant forall i | 0 <= i < k :: hypotheses[i] == Describe(rules, multipliers, fired[i], i + 1)
    {
      hypotheses := hypotheses + [Describe(rules, multipliers, fired[k], k + 1)];
    }
  }

  method FireRules(rules: seq<Rule>, fv: FeatureVector, multipliers: Multipliers) returns (fired: seq<Fired>)
    ensures fired == FiredAmong(rules, fv, multipliers, |rules|)
  {
    fired := [];
    for i := 0 to |rules|
      invariant fired == FiredAmong(rules, fv, multipliers, i)
    {
      var raw := rules[i].Score(fv);
      var mult := Get(multipliers, rules[i].id);
      var adjusted := Adjusted(raw, mult);
      if adjusted >= rules[i].minScore {
        fired := fired + [Fired(i, raw, adjusted)];
      }
    }
  }

  method Infer(rules: seq<Rule>, fv: FeatureVector, multipliers: Multipliers) returns (hypotheses: seq<Hypothesis>)
    ensures hypotheses == Report(rules, fv, multipliers)
    ensures CauseIds(hypotheses) == Shown(rules, fv, multipliers)
  {
    hide Describe, FiredAmong, SortByScore, Get;
    var fired := FireRules(rules, fv, multipliers);
    fired := SortByScore(fired);
    assert fired == Ranked(rules, fv, multipliers);
    RankedPositions(rules, fv, multipliers);
    hide Ranked, Evaluate, Fires, Shown, CauseIds;
    hypotheses := BuildHypotheses(rules, multipliers, fired);
    ReportCauses(rules, fv, multipliers);
  }

  lemma ReportCauses(rules: seq<Rule>, fv: FeatureVector, m: Multipliers)
    ensures CauseIds(Report(rules, fv, m)) == Shown(rules, fv, m)
  {
    hide Ranked, Get, Evaluate;
    RankedPositions(rules, fv, m);
  }

  function CauseIds(hypotheses: seq<Hypothesis>): seq<string> {
    seq(|hypotheses|, k requires 0 <= k < |hypotheses| => hypotheses[k].causeId)
  }

  lemma RankOf(rules: seq<Rule>, fv: FeatureVector, m: Multipliers, pos: nat) returns (i: nat)
    requires pos < |rules| && Fires(rules, fv, m, pos)
    ensures i < |Ranked(rules, fv, m)| && Ranked(rules, fv, m)[i] == Evaluate(rules, fv, m, pos)
    ensures Evaluate(rules, fv, m, pos).pos == pos
  {
    RankingCorrect(rules, fv, m);
    hide Ranked, Get;
    assert Evaluate(rules, fv, m, pos) in Ranked(rules, fv, m);
    i :| 0 <= i < |Ranked(rules, fv, m)| && Ranked(rules, fv, m)[i] == Evaluate(rules, fv, m, pos);
  }

  /** Only rules that fire are shown. */
  lemma ShownFires(rules: seq<Rule>, fv: FeatureVector, m: Multipliers, pos: nat)
    requires DistinctIds(rules) && pos < |rules| && rules[pos].id in Shown(rules, fv, m)
    ensures Fires(rules, fv, m, pos)
  {
    RankingCorrect(rules, fv, m);
    RankedPositions(rules, fv, m);
    hide Ranked, Fires, Evaluate;
    var ranked := Ranked(rules, fv, m);
    var k :| 0 <= k < |Shown(rules, fv, m)| && Shown(rules, fv, m)[k] == rules[pos].id;
    assert ranked[k] in ranked && ranked[k].pos == pos;
  }

  /** A fired rule that is not shown is ranked behind all three that are. */
  lemma OmittedAreBehind(rules: seq<Rule>, fv: FeatureVector, m: Multipliers, pos: nat)
    requires DistinctIds(rules) && pos < |rules| && Fires(rules, fv, m, pos)
    ensures rules[pos].id !in Shown(rules, fv, m) ==>
              && |Shown(rules, fv, m)| == 3
              && forall k | 0 <= k < 3 :: Ahead(Ranked(rules, fv, m)[k], Evaluate(rules, fv, m, pos))
  {
    hide Evaluate, Fires, Get;
    RankingCorrect(rules, fv, m);
    var ranked := Ranked(rules, fv, m);
    var i := RankOf(rules, fv, m, pos);
    if i < 3 {
      assert Shown(rules, fv, m)[i] == rules[pos].id;
    }
  }

  // ----- the report in terms of scores and stored multipliers

  /** A rule's score times its stored multiplier, or times 1 if there is none, but never more than 1. */
  function FinalScore(rules: seq<Rule>, fv: FeatureVector, m: Multipliers, pos: nat): real
    requires pos < |rules|
  {
    var weighted := rules[pos].Score(fv) * (if rules[pos].id in m then m[rules[pos].id] else 1.0);
    if weighted > 1.0 then 1.0 else weighted
  }

  /** The rules that reach their threshold and come before rule pos: by a better score, or by place if it is equal. */
  ghost function Better(rules: seq<Rule>, fv: FeatureVector, m: Multipliers, pos: nat): set<nat>
    requires pos < |rules|
  {
    set r: nat | r < |rules| && FinalScore(rules, fv, m, r) >= rules[r].minScore
                 && (FinalScore(rules, fv, m, r) > FinalScore(rules, fv, m, pos)
                     || (FinalScore(rules, fv, m, r) == FinalScore(rules, fv, m, pos) && r < pos))
  }

  lemma FinalIsAdjusted(rules: seq<Rule>, fv: FeatureVector, m: Multipliers, pos: nat)
    requires pos < |rules|
    ensures Evaluate(rules, fv, m, pos) == Fired(pos, rules[pos].Score(fv), FinalScore(rules, fv, m, pos))
    ensures Fires(rules, fv, m, pos) <==> FinalScore(rules, fv, m, pos) >= rules[pos].minScore
  {
  }

  /** The first n positions of a strictly ranked list. */
  ghost function Positions(s: seq<Fired>, n: nat): set<nat>
    requires n <= |s|
  {
    set i | 0 <= i < n :: s[i].pos
  }

  lemma {:induction false} PositionsCount(s: seq<Fired>, n: nat)
    requires n <= |s| && forall i, j | 0 <= i < j < |s| :: s[i].pos != s[j].pos
    ensures |Positions(s, n)| == n
  {
    if n > 0 {
      PositionsCount(s, n - 1);
      assert Positions(s, n) == Positions(s, n - 1) + {s[n - 1].pos};
    }
  }

  /** ranked lists, in strict order, exactly the rules that fire, each with its score. */
  ghost predicate RanksFired(rules: seq<Rule>, fv: FeatureVector, m: Multipliers, ranked: seq<Fired>) {
    && StrictlyRanked(ranked)
    && (forall i | 0 <= i < |ranked| :: ranked[i].pos < |rules| && ranked[i] == Scored(rules, fv, m, ranked[i].pos))
    && forall pos: nat | pos < |rules| ::
         FinalScore(rules, fv, m, pos) >= rules[pos].minScore <==> Scored(rules, fv, m, pos) in ranked
  }

  function Scored(rules: seq<Rule>, fv: FeatureVector, m: Multipliers, pos: nat): Fired
    requires pos < |rules|
  {
    Fired(pos, rules[pos].Score(fv), FinalScore(rules, fv, m, pos))
  }

  lemma RankedRanksFired(rules: seq<Rule>, fv: FeatureVector, m: Multipliers)
    ensures RanksFired(rules, fv, m, Ranked(rules, fv, m))
  {
    RankingCorrect(rules, fv, m);
    var ranked := Ranked(rules, fv, m);
    hide Ranked, Evaluate, Fires, FinalScore, StrictlyRanked;
    forall pos: nat | pos < |rules|
      ensures Evaluate(rules, fv, m, pos) == Scored(rules, fv, m, pos)
      ensures Fires(rules, fv, m, pos) <==> FinalScore(rules, fv, m, pos) >= rules[pos].minScore
    {
      FinalIsAdjusted(rules, fv, m, pos);
    }
    assert forall i | 0 <= i < |ranked| :: ranked[i] in ranked;
  }

  /** In such a list a rule's place is the number of fired rules that come before it. */
  lemma PlaceIsCount(rules: seq<Rule>, fv: FeatureVector, m: Multipliers, ranked: seq<Fired>, i: nat)
    requires RanksFired(rules, fv, m, ranked) && i < |ranked|
    ensures |Better(rules, fv, m, ranked[i].pos)| == i
  {
    hide FinalScore;
    assert forall j | i < j < |ranked| :: Ahead(ranked[i], ranked[j]);
    forall r: nat
      ensures r in Better(rules, fv, m, ranked[i].pos) <==> r in Positions(ranked, i)
    {
      if r in Better(rules, fv, m, ranked[i].pos) {
        assert Scored(rules, fv, m, r) in ranked;
        var j :| 0 <= j < |ranked| && ranked[j] == Scored(rules, fv, m, r);
      }
      if r in Positions(ranked, i) {
        var j :| 0 <= j < i && ranked[j].pos == r;
        assert Ahead(ranked[j], ranked[i]) && ranked[j] in ranked;
      }
    }
    assert Better(rules, fv, m, ranked[i].pos) == Positions(ranked, i);
    assert forall a, b | 0 <= a < b < |ranked| :: Ahead(ranked[a], ranked[b]);
    PositionsCount(ranked, i);
  }

  lemma PlaceOf(rules: seq<Rule>, fv: FeatureVector, m: Multipliers, pos: nat) returns (i: nat)
    requires pos < |rules|
    ensures FinalScore(rules, fv, m, pos) >= rules[pos].minScore <==> i < |Ranked(rules, fv, m)|
    ensures i < |Ranked(rules, fv, m)| ==>
              Ranked(rules, fv, m)[i] == Scored(rules, fv, m, pos) && i == |Better(rules, fv, m, pos)|
  {
    RankedRanksFired(rules, fv, m);
    hide Ranked, FinalScore, Better, StrictlyRanked;
    var ranked := Ranked(rules, fv, m);
    if Scored(rules, fv, m, pos) in ranked {
      i :| 0 <= i < |ranked| && ranked[i] == Scored(rules, fv, m, pos);
      PlaceIsCount(rules, fv, m, ranked, i);
    } else {
      i := |ranked|;
    }
  }

  /** Hypothesis k + 1, when rule pos is it. */
  function Entry(rules: seq<Rule>, fv: FeatureVector, m: Multipliers, pos: nat, k: nat): Hypothesis
    requires pos < |rules|
  {
    var score := FinalScore(rules, fv, m, pos);
    Hypothesis(k + 1, rules[pos].id, score, rules[pos].Score(fv),
               if rules[pos].id in m then m[rules[pos].id] else 1.0,
               if score >= 0.65 then High else if score >= 0.35 then Medium else Low)
  }

  /**
    What is reported where, and how: rule pos is hypothesis k + 1 exactly if it is among the first three, reaches its
    threshold, and exactly k rules come before it; its entry then tells its score with and without its multiplier.
   */
  lemma ReportPlace(rules: seq<Rule>, fv: FeatureVector, m: Multipliers, pos: nat, k: nat)
    requires DistinctIds(rules) && pos < |rules|
    ensures k < |Report(rules, fv, m)| && Report(rules, fv, m)[k].causeId == rules[pos].id <==>
            k < 3 && FinalScore(rules, fv, m, pos) >= rules[pos].minScore && |Better(rules, fv, m, pos)| == k
    ensures k < |Report(rules, fv, m)| && Report(rules, fv, m)[k].causeId == rules[pos].id ==>
              Report(rules, fv, m)[k] == Entry(rules, fv, m, pos, k)
  {
    hide *;
    ReportLists(rules, fv, m);
    var i := PlaceOf(rules, fv, m, pos);
    if k < |Report(rules, fv, m)| {
      ReportEntry(rules, fv, m, k);
      OneId(rules, Ranked(rules, fv, m)[k].pos, pos);
      RankedRanksFired(rules, fv, m);
      PlaceIsCount(rules, fv, m, Ranked(rules, fv, m), k);
    }
    if i < |Ranked(rules, fv, m)| && i == k < 3 {
      ScoredAt(rules, fv, m, pos);
    }
  }

  lemma ScoredAt(rules: seq<Rule>, fv: FeatureVector, m: Multipliers, pos: nat)
    requires pos < |rules|
    ensures Scored(rules, fv, m, pos).pos == pos
  {
  }

  lemma OneId(rules: seq<Rule>, a: nat, b: nat)
    requires DistinctIds(rules) && a < |rules| && b < |rules|
    ensures rules[a].id == rules[b].id <==> a == b
  {
  }

  lemma ReportLists(rules: seq<Rule>, fv: FeatureVector, m: Multipliers)
    ensures |Report(rules, fv, m)| == if |Ranked(rules, fv, m)| < 3 then |Ranked(rules, fv, m)| else 3
  {
    hide Ranked;
  }

  lemma ReportEntry(rules: seq<Rule>, fv: FeatureVector, m: Multipliers, k: nat)
    requires k < |Report(rules, fv, m)|
    ensures k < |Ranked(rules, fv, m)|
    ensures var pos := Ranked(rules, fv, m)[k].pos;
            && pos < |rules| && FinalScore(rules, fv, m, pos) >= rules[pos].minScore
            && Report(rules, fv, m)[k] == Entry(rules, fv, m, pos, k)
            && Report(rules, fv, m)[k].causeId == rules[pos].id
  {
    RankedRanksFired(rules, fv, m);
    var ranked := Ranked(rules, fv, m);
    hide Ranked, FinalScore, Better, StrictlyRanked;
    RankedPositions(rules, fv, m);
    assert ranked[k] in ranked;
  }

  /** Reported exactly if the rule reaches its threshold and fewer than three rules come before it. */
  lemma Reported(rules: seq<Rule>, fv: FeatureVector, m: Multipliers, pos: nat)
    requires DistinctIds(rules) && pos < |rules|
    ensures rules[pos].id in CauseIds(Report(rules, fv, m)) <==>
            FinalScore(rules, fv, m, pos) >= rules[pos].minScore && |Better(rules, fv, m, pos)| < 3
  {
    hide Report, FinalScore, Better;
    var report := Report(rules, fv, m);
    ReportPlace(rules, fv, m, pos, |Better(rules, fv, m, pos)|);
    var k := |Better(rules, fv, m, pos)|;
    assert k < |report| ==> CauseIds(report)[k] == report[k].causeId;
    if rules[pos].id in CauseIds(report) {
      var j: nat :| j < |CauseIds(report)| && CauseIds(report)[j] == rules[pos].id;
      ReportPlace(rules, fv, m, pos, j);
    }
  }

  /** The report is as long as there are rules that reach their threshold, up to three. */
  lemma ReportLength(rules: seq<Rule>, fv: FeatureVector, m: Multipliers)
    ensures var fired := set pos: nat | pos < |rules| && FinalScore(rules, fv, m, pos) >= rules[pos].minScore;
            |Report(rules, fv, m)| == if |fired| < 3 then |fired| else 3
  {
    RankedRanksFired(rules, fv, m);
    RankedPositions(rules, fv, m);
    hide Ranked, FinalScore;
    var ranked := Ranked(rules, fv, m);
    var fired := set pos: nat | pos < |rules| && FinalScore(rules, fv, m, pos) >= rules[pos].minScore;
    forall pos: nat
      ensures pos in fired <==> pos in Positions(ranked, |ranked|)
    {
      if pos in fired {
        assert Scored(rules, fv, m, pos) in ranked;
      }
    }
    assert fired == Positions(ranked, |ranked|);
    assert forall a, b | 0 <= a < b < |ranked| :: Ahead(ranked[a], ranked[b]);
    PositionsCount(ranked, |ranked|);
  }

  /** No rule that fires reaches the threshold. */
  ghost predicate NothingReaches(rules: seq<Rule>, fv: FeatureVector, m: Multipliers, threshold: real) {
    forall pos | 0 <= pos < |rules| && Fires(rules, fv, m, pos) :: Evaluate(rules, fv, m, pos).adjusted < threshold
  }

  /** The first reported score bounds every rule that fires, reported or not. */
  lemma TopScoreDecides(rules: seq<Rule>, fv: FeatureVector, m: Multipliers, threshold: real)
    ensures NothingReaches(rules, fv, m, threshold) <==>
            Report(rules, fv, m) == [] || Report(rules, fv, m)[0].score < threshold
  {
    RankingCorrect(rules, fv, m);
    RankedPositions(rules, fv, m);
    hide Ranked, Evaluate, Fires, Get;
    var ranked := Ranked(rules, fv, m);
    forall pos | 0 <= pos < |rules| && Fires(rules, fv, m, pos)
      ensures ranked != [] && Evaluate(rules, fv, m, pos).adjusted <= ranked[0].adjusted
    {
      var i := RankOf(rules, fv, m, pos);
      FirstIsAhead(ranked, i);
      assert Evaluate(rules, fv, m, pos).adjusted <= ranked[0].adjusted;
    }
    assert ranked != [] ==> ranked[0] in ranked;
  }
}
