/**
  The closed loop: infer, try the suggested experiment, verify on the new run, and confirm the cause that was cured.
 */
module ClosedLoop {
  import opened Diagnosis
  import opened Engine
  import opened Lineage
  import opened Rules
  import opened Tuning
  import opened Weights
  import opened Wrappers

  datatype Experiment = Experiment(action: string, risk: string, params: Params)

  /** The experiment to try, and the cause it is for. */
  datatype Choice = Choice(cause: string, experiment: Experiment)

  /**
    The environment. By iteration and run: the features found, and whether the target is met. By iteration: whether the
    inferences before and after the experiment get stored. By iteration, parent run and parameters: the new run.
   */
  datatype Environment = Environment(features: (nat, int) -> FeatureVector, targetMet: (nat, int) -> bool,
                                     saved: nat -> bool, verifySaved: nat -> bool,
                                     run: (nat, int, Params) -> RunResult)

  /** One iteration; source is the run it started from, run is absent when there was nothing to try. */
  datatype Record = Record(iteration: nat, source: int, inferenceId: int, causeId: string,
                           experiment: Option<Experiment>, run: Option<RunResult>,
                           converged: bool, targetMet: bool, scoreDropped: bool)

  function FirstLowRisk(es: seq<Experiment>): Option<Experiment> {
    if es == [] then None else if es[0].risk == "low" then Some(es[0]) else FirstLowRisk(es[1..])
  }

  /** The first low-risk experiment for the top cause, or else its first experiment. */
  function Select(hypotheses: seq<Hypothesis>, experiments: string -> seq<Experiment>): Option<Choice> {
    if hypotheses == [] || experiments(hypotheses[0].causeId) == [] then None
    else
      var es := experiments(hypotheses[0].causeId);
      Some(Choice(hypotheses[0].causeId, match FirstLowRisk(es) case Some(e) => e case None => es[0]))
  }

  predicate NoneLow(es: seq<Experiment>) {
    forall e | e in es :: e.risk != "low"
  }

  /** A risky experiment is only tried when the top cause has no other kind. */
  lemma SelectionAvoidsRisk(hypotheses: seq<Hypothesis>, experiments: string -> seq<Experiment>)
    ensures Select(hypotheses, experiments).None? <==> hypotheses == [] || experiments(hypotheses[0].causeId) == []
    ensures Select(hypotheses, experiments).Some? ==>
              (var choice, es := Select(hypotheses, experiments).value, experiments(hypotheses[0].causeId);
               && choice.cause == hypotheses[0].causeId
               && (choice.experiment.risk == "low" <==> exists e | e in es :: e.risk == "low")
               && exists k | 0 <= k < |es| ::
                    es[k] == choice.experiment && if es[k].risk == "low" then NoneLow(es[..k]) else k == 0)
  {
    if hypotheses != [] {
      var es := experiments(hypotheses[0].causeId);
      var k := FirstLowRiskFound(es);
      assert es != [] ==> es[0] in es;
      assert k < |es| ==> es[k] in es;
    }
  }

  lemma {:induction false} FirstLowRiskFound(es: seq<Experiment>) returns (k: nat)
    ensures k <= |es| && NoneLow(es[..k])
    ensures FirstLowRisk(es) == if k < |es| then Some(es[k]) else None
    ensures k < |es| ==> es[k].risk == "low"
  {
    if es == [] || es[0].risk == "low" {
      k := 0;
    } else {
      var rest := FirstLowRiskFound(es[1..]);
      k := rest + 1;
      assert es[..k] == [es[0]] + es[1..][..rest];
    }
  }

  function ScoreDropped(hypotheses: seq<Hypothesis>, threshold: real): bool {
    hypotheses == [] || hypotheses[0].score < threshold
  }

  function NewRunId(r: Record): Option<int> {
    if r.run.Some? then r.run.value.runId else None
  }

  /** The edge from the run diagnosed to the new run, if there is one. */
  function NewEdge(r: Record): seq<(int, int)> {
    if NewRunId(r).Some? then [(r.source, NewRunId(r).value)] else []
  }

  predicate Ran(r: Record) {
    NewRunId(r).Some? && r.run.value.success
  }

  /** The ids of the new runs, successful or not. */
  function NewIds(records: seq<Record>): seq<int> {
    if records == [] then []
    else
      var id := NewRunId(records[|records| - 1]);
      NewIds(records[..|records| - 1]) + if id.Some? then [id.value] else []
  }

  /** The run the next iteration starts from: the newest one, or the baseline. */
  function Current(baseline: int, records: seq<Record>): int {
    var chain := [baseline] + NewIds(records);
    chain[|chain| - 1]
  }

  // ----- what one iteration does

  /**
    The parameters of one call: catalogue, experiments, baseline run, base parameters, score threshold, environment.
   */
  datatype Call = Call(rules: seq<Rule>, experiments: string -> seq<Experiment>, baseline: int, base: Params,
                       threshold: real, env: Environment)

  function ReportFor(c: Call, iteration: nat, run: int, m: Multipliers): seq<Hypothesis> {
    Report(c.rules, c.env.features(iteration, run), m)
  }

  /**
    Iteration r after the given ones: it diagnoses the newest run, tries what the top cause suggests on top of the
    base parameters, and has converged when the new run meets the target or when on it no rule that fires reaches
    the threshold. A run with id 0 is never checked against the target.
   */
  ghost predicate Fits(c: Call, before: seq<Record>, r: Record, m: Multipliers) {
    var i := |before| + 1;
    var report := ReportFor(c, i, r.source, m);
    && r.iteration == i && r.source == Current(c.baseline, before)
    && (c.env.saved(i) <==> r.inferenceId > 0)
    && r.causeId == (if report == [] then "" else report[0].causeId)
    && (match Select(report, c.experiments)
        case None => r.experiment.None? && r.run.None?
        case Some(choice) =>
          && r.experiment == Some(choice.experiment)
          && r.run == Some(c.env.run(i, r.source, c.base + choice.experiment.params)))
    && r.scoreDropped == (Ran(r) && NothingReaches(c.rules, c.env.features(i, NewRunId(r).value), m, c.threshold))
    && r.targetMet == (Ran(r) && NewRunId(r).value != 0 && c.env.targetMet(i, NewRunId(r).value))
    && r.converged == (r.targetMet || r.scoreDropped)
  }

  ghost predicate AllFit(c: Call, records: seq<Record>, m: Multipliers) {
    forall k {:trigger records[k]} | 0 <= k < |records| :: Fits(c, records[..k], records[k], m)
  }

  lemma FitsExtend(c: Call, records: seq<Record>, r: Record, m: Multipliers)
    requires AllFit(c, records, m) && Fits(c, records, r, m)
    ensures AllFit(c, records + [r], m)
  {
    hide Fits;
    forall k | 0 <= k < |records + [r]|
      ensures Fits(c, (records + [r])[..k], (records + [r])[k], m)
    {
      assert (records + [r])[..k] == if k < |records| then records[..k] else records;
    }
  }

  lemma ChainNext(baseline: int, records: seq<Record>, r: Record)
    ensures [baseline] + NewIds(records + [r]) ==
              [baseline] + NewIds(records) + if NewRunId(r).Some? then [NewRunId(r).value] else []
  {
    assert (records + [r])[..|records|] == records;
    Associative([baseline], NewIds(records), if NewRunId(r).Some? then [NewRunId(r).value] else []);
  }

  lemma Associative<T>(a: seq<T>, b: seq<T>, c: seq<T>)
    ensures a + b + c == a + (b + c)
  {
  }

  lemma ChainExtends(baseline: int, records: seq<Record>, r: Record)
    requires r.source == Current(baseline, records)
    ensures Edges([baseline] + NewIds(records + [r])) ==
              Edges([baseline] + NewIds(records)) + NewEdge(r)
    ensures Current(baseline, records + [r]) == if NewRunId(r).Some? then NewRunId(r).value else r.source
  {
    hide NewIds, Edges;
    ChainNext(baseline, records, r);
    var chain := [baseline] + NewIds(records);
    if NewRunId(r).Some? {
      EdgesSnoc(chain, NewRunId(r).value);
    } else {
      assert chain + [] == chain;
    }
  }

  /**
    What verification says, in terms of the new run: neither test is passed without a successful run that has an id;
    the target is not even looked at when that id is 0.
   */
  lemma VerdictMeans(c: Call, before: seq<Record>, r: Record, m: Multipliers)
    requires Fits(c, before, r, m)
    ensures r.targetMet <==>
              r.run.Some? && r.run.value.success && r.run.value.runId.Some? && r.run.value.runId.value != 0 &&
              c.env.targetMet(|before| + 1, r.run.value.runId.value)
    ensures r.scoreDropped <==>
              r.run.Some? && r.run.value.success && r.run.value.runId.Some? &&
              NothingReaches(c.rules, c.env.features(|before| + 1, r.run.value.runId.value), m, c.threshold)
  {
    hide Report, Select, NothingReaches, Current;
  }

  /** The first iteration diagnoses the baseline, every further one the newest run that has an id, successful or not. */
  lemma SourcesMean(c: Call, records: seq<Record>, m: Multipliers, k: nat)
    requires AllFit(c, records, m) && k < |records|
    ensures records[k].source ==
            if k == 0 then c.baseline
            else if records[k - 1].run.Some? && records[k - 1].run.value.runId.Some?
            then records[k - 1].run.value.runId.value
            else records[k - 1].source
  {
    hide Edges, NewIds, NothingReaches, Report, Select;
    assert Fits(c, records[..k], records[k], m);
    if k == 0 {
      NothingYet(c, m);
      assert records[..0] == [];
    } else {
      assert Fits(c, records[..k - 1], records[k - 1], m);
      ChainExtends(c.baseline, records[..k - 1], records[k - 1]);
      assert records[..k - 1] + [records[k - 1]] == records[..k];
    }
  }

  predicate Converged(records: seq<Record>) {
    records != [] && records[|records| - 1].converged
  }

  predicate Confirmed(records: seq<Record>) {
    Converged(records) && records[|records| - 1].inferenceId > 0
  }

  /** The multipliers with one rule moved up a step. */
  function Reinforced(m: Multipliers, id: string): Multipliers {
    m[id := Clamp(Get(m, id) + DELTA)]
  }

  /** Confirming the top cause of a report only ever reinforces it: no other rule is touched. */
  lemma ConfirmingTheTopReinforces(m: Multipliers, report: seq<Hypothesis>)
    requires report != []
    ensures Feedback(m, report[0].causeId, CauseIds(report), DELTA) == Reinforced(m, report[0].causeId)
  {
    var top, shown := report[0].causeId, CauseIds(report);
    assert shown[0] == top;
    assert forall id :: Change(top, shown, DELTA, id) == if id == top then Some(DELTA) else None;
    assert Updates(m, top, shown, DELTA) == map[top := Clamp(Get(m, top) + DELTA)];
  }

  // ----- the loop

  class OptimizationLoop {
    const store: InferenceStore
    const maxIterations: nat
    const threshold: real
    /** The records of all calls so far. */
    var history: seq<Record>
    /** Rows of decision_trace: source and target run. */
    var traces: seq<(int, int)>

    constructor (store: InferenceStore, maxIterations: nat, threshold: real)
      ensures this.store == store && this.maxIterations == maxIterations && this.threshold == threshold
      ensures history == [] && traces == []
    {
      this.store, this.maxIterations, this.threshold := store, maxIterations, threshold;
      history, traces := [], [];
    }

    /** Append the record; a new run is also recorded as an edge from the run diagnosed. */
    method RecordIteration(r: Record)
      modifies this
      ensures history == old(history) + [r]
      ensures traces == old(traces) + if r.experiment.Some? then NewEdge(r) else []
    {
      history := history + [r];
      if r.experiment.Some? && NewRunId(r).Some? {
        traces := traces + [(r.source, NewRunId(r).value)];
      }
    }

    /** Diagnose the current run, try an experiment and verify it. */
    method Iterate(c: Call, iteration: nat, current: int, ghost before: seq<Record>) returns (r: Record)
      requires store.Valid() && iteration == |before| + 1 && current == Current(c.baseline, before)
      modifies store
      ensures store.Valid() && store.chosen == old(store.chosen)
      ensures Fits(c, before, r, store.weights.table) && r.source == current
      ensures forall id | id in old(store.records) :: id in store.records && store.records[id] == old(store.records[id])
      ensures r.inferenceId > 0 ==>
                && r.inferenceId in store.records
                && store.records[r.inferenceId] == ReportFor(c, iteration, r.source, store.weights.table)
      ensures r.run.Some? && r.run.value.success && r.run.value.runId.Some? && c.env.verifySaved(iteration) ==>
                exists id ::
                  && id in store.records && id !in old(store.records) && id != r.inferenceId
                  && store.records[id] == ReportFor(c, iteration, r.run.value.runId.value, store.weights.table)
    {
      hide Report, NothingReaches, Select, Current, CauseIds, Shown;
      var id, hypotheses := store.Diagnose(c.rules, c.env.features(iteration, current), c.env.saved(iteration));
      var cause := if hypotheses == [] then "" else hypotheses[0].causeId;
      var choice := Select(hypotheses, c.experiments);
      if choice.None? {
        return Record(iteration, current, id, cause, None, None, false, false, false);
      }
      var experiment := choice.value.experiment;
      var run := c.env.run(iteration, current, c.base + experiment.params);
      var scoreDropped, targetMet := false, false;
      if run.runId.Some? && run.success {
        var fv := c.env.features(iteration, run.runId.value);
        var verifyId, verified := store.Diagnose(c.rules, fv, c.env.verifySaved(iteration));
        assert c.env.verifySaved(iteration) ==> verifyId in store.records;
        TopScoreDecides(c.rules, fv, store.weights.table, c.threshold);
        scoreDropped := ScoreDropped(verified, c.threshold);
        targetMet := run.runId.value != 0 && c.env.targetMet(iteration, run.runId.value);
      }
      r := Record(iteration, current, id, cause, Some(experiment), Some(run), targetMet || scoreDropped, targetMet,
                  scoreDropped);
    }

    /** Confirm the cause of a record whose inference was stored. */
    method ConfirmCured(c: Call, iteration: nat, r: Record)
      requires store.Valid()
      requires r.inferenceId > 0 ==>
                 && r.inferenceId in store.records
                 && store.records[r.inferenceId] == ReportFor(c, iteration, r.source, store.weights.table)
                 && store.records[r.inferenceId] != [] && r.causeId == store.records[r.inferenceId][0].causeId
      modifies store, store.weights
      ensures store.Valid() && store.records == old(store.records)
      ensures store.weights.table ==
                if r.inferenceId > 0 then Reinforced(old(store.weights.table), r.causeId) else old(store.weights.table)
      ensures store.chosen ==
                if r.inferenceId > 0 then old(store.chosen)[r.inferenceId := r.causeId] else old(store.chosen)
    {
      if r.inferenceId > 0 {
        ConfirmingTheTopReinforces(store.weights.table, store.records[r.inferenceId]);
        hide *;
        var _ := store.Confirm(r.inferenceId, r.causeId);
      }
    }

    /** The iterations of one call; current is the run the last one leaves behind. */
    method RunIterations(c: Call) returns (current: int, ghost records: seq<Record>)
      requires store.Valid()
      modifies this, store, store.weights
      ensures store.Valid() && history == old(history) + records && |records| <= maxIterations
      ensures AllFit(c, records, old(store.weights.table))
      ensures traces == old(traces) + Edges([c.baseline] + NewIds(records))
      ensures forall k | 0 <= k < |records| - 1 :: !records[k].converged && records[k].run.Some?
      ensures |records| == maxIterations || Converged(records) || (records != [] && records[|records| - 1].run.None?)
      ensures store.weights.table ==
                if Confirmed(records) then Reinforced(old(store.weights.table), records[|records| - 1].causeId)
                else old(store.weights.table)
      ensures store.chosen == if Confirmed(records) then
                                old(store.chosen)[records[|records| - 1].inferenceId := records[|records| - 1].causeId]
                              else old(store.chosen)
      ensures !Converged(records) ==> current == Current(c.baseline, records)
    {
      hide *;
      ghost var m, past, edges := store.weights.table, history, traces;
      var iteration := 0;
      current, records := c.baseline, [];
      NothingYet(c, m);
      assert past + [] == past && edges + [] == edges;
      while iteration < maxIterations
        invariant store.Valid() && iteration == |records| <= maxIterations && history == past + records
        invariant AllFit(c, records, m) && current == Current(c.baseline, records)
        invariant traces == edges + Edges([c.baseline] + NewIds(records))
        invariant forall k | 0 <= k < |records| :: !records[k].converged && records[k].run.Some?
        invariant store.weights.table == m && store.chosen == old(store.chosen)
        invariant !Converged(records) && !Confirmed(records)
      {
        iteration := iteration + 1;
        var r := Iterate(c, iteration, current, records);
        FitsExtend(c, records, r, m);
        RecordFacts(c, records, r, m);
        RecordIteration(r);
        Associative(past, records, [r]);
        Associative(edges, Edges([c.baseline] + NewIds(records)), NewEdge(r));
        records := records + [r];
        if r.run.None? {
          break;
        }
        if r.converged {
          ConfirmCured(c, iteration, r);
          break;
        }
        if NewRunId(r).Some? {
          current := NewRunId(r).value;
        }
      }
    }

    /**
      The whole loop. All iterations infer with the multipliers found at the start. Only the last one can have
      converged or had nothing to try. The new edges are one path from the baseline run. A cause is confirmed at
      most once: the last iteration's top cause, exactly when that iteration converged and its inference was stored;
      then its rule moves up one step and no other multiplier changes. The result also counts convergence in earlier
      calls on the same object.
     */
    method Orchestrate(baseline: int, base: Params, rules: seq<Rule>, experiments: string -> seq<Experiment>,
                       env: Environment)
      returns (converged: bool, finalReport: Option<seq<Hypothesis>>, ghost records: seq<Record>)
      requires store.Valid()
      modifies this, store, store.weights
      ensures store.Valid() && history == old(history) + records && |records| <= maxIterations
      ensures AllFit(Call(rules, experiments, baseline, base, threshold, env), records, old(store.weights.table))
      ensures traces == old(traces) + Edges([baseline] + NewIds(records))
      ensures forall k | 0 <= k < |records| - 1 :: !records[k].converged && records[k].run.Some?
      ensures |records| == maxIterations || Converged(records) || (records != [] && records[|records| - 1].run.None?)
      ensures store.weights.table ==
                if Confirmed(records) then Reinforced(old(store.weights.table), records[|records| - 1].causeId)
                else old(store.weights.table)
      ensures store.chosen == if Confirmed(records) then
                                old(store.chosen)[records[|records| - 1].inferenceId := records[|records| - 1].causeId]
                              else old(store.chosen)
      ensures converged <==> Converged(records) || exists r | r in old(history) :: r.converged
      ensures finalReport ==
                if history == [] || history[|history| - 1].converged then None
                else Some(Report(rules, env.features(|records| + 1, Current(baseline, records)),
                                 old(store.weights.table)))
    {
      hide AllFit, Edges, NewIds, Reinforced, Report, Current, CauseIds, Shown;
      var before := |history|;
      var current;
      current, records := RunIterations(Call(rules, experiments, baseline, base, threshold, env));
      AnyConverged(old(history), records);
      converged := exists r | r in history :: r.converged;
      finalReport := None;
      if history != [] && !history[|history| - 1].converged {
        var next := |history| - before + 1;
        var _, report := store.Diagnose(rules, env.features(next, current), env.saved(next));
        finalReport := Some(report);
      }
    }
  }

  /** Before the last record none converged, so the last one decides. */
  lemma AnyConverged(past: seq<Record>, records: seq<Record>)
    requires forall k | 0 <= k < |records| - 1 :: !records[k].converged
    ensures (exists r | r in past + records :: r.converged) <==>
            Converged(records) || exists r | r in past :: r.converged
  {
    if Converged(records) {
      assert records[|records| - 1] in past + records;
    }
    forall r | r in past + records
      ensures r in past || (r in records && (r.converged ==> Converged(records)))
    {
    }
    assert forall r | r in past :: r in past + records;
  }

  lemma NothingYet(c: Call, m: Multipliers)
    ensures AllFit(c, [], m) && Edges([c.baseline] + NewIds([])) == [] && Current(c.baseline, []) == c.baseline
    ensures !Converged([]) && !Confirmed([])
  {
  }

  /** What a record says about the next current run, the new edge and the cause. */
  lemma RecordFacts(c: Call, records: seq<Record>, r: Record, m: Multipliers)
    requires Fits(c, records, r, m)
    ensures Edges([c.baseline] + NewIds(records + [r])) ==
              Edges([c.baseline] + NewIds(records)) + NewEdge(r)
    ensures Current(c.baseline, records + [r]) == if NewRunId(r).Some? then NewRunId(r).value else r.source
    ensures Converged(records + [r]) == r.converged && Confirmed(records + [r]) == (r.converged && r.inferenceId > 0)
    ensures r.experiment.Some? <==> r.run.Some?
    ensures r.run.None? ==> NewEdge(r) == [] && Current(c.baseline, records + [r]) == r.source
    ensures r.run.None? ==> !r.converged
    ensures r.run.Some? ==>
              ReportFor(c, |records| + 1, r.source, m) != [] &&
              r.causeId == ReportFor(c, |records| + 1, r.source, m)[0].causeId
  {
    hide Report, NothingReaches, Edges, NewIds;
    ChainExtends(c.baseline, records, r);
  }
}
