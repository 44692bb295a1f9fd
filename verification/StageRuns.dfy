/** The runs of a multi-stage tuning session: their order, parents, parameters, and the decisions that link them. */
module StageRuns {
  import opened Tuning
  import opened Wrappers

  const STAGE_ORDER: seq<string> := ["synth", "floorplan", "place", "cts", "route", "finish"]

  /** A timing answer: an empty dictionary, or one with a summary that may hold a worst slack. */
  datatype Timing = NoTiming | Summary(wns: Option<real>)

  /**
    The environment: stage runs by sequence number; per iteration the timing of the finish stage, the timing queried
    when there is none, whether the target is met, the bottleneck picked, and the parameters left after filtering
    the suggestion, which depends on whether it was asked with the remark that the last parameters did not improve
    the slack.
   */
  datatype Environment = Environment(run: nat -> RunResult, finishTiming: nat -> Timing, queriedTiming: nat -> Timing,
                                     targetMet: nat -> bool, bottleneck: nat -> string, filtered: (nat, bool) -> Params)

  /** One stage run with the context it was started with; decided counts the decisions taken before it. */
  datatype StageRun = StageRun(iteration: nat, stage: string, stageSeq: nat, parent: Option<int>, params: Params,
                               decided: nat, result: RunResult)

  /** A decision: the run it was taken on, how many runs there were by then, and what it changes. */
  datatype Decision = Decision(source: int, at: nat, bottleneck: string, params: Params)

  /** A recorded decision trace, with the position of its target in the list of runs. */
  datatype Trace = Trace(source: int, target: int, run: nat)

  /**
    One iteration: its runs are the count runs from position first on; decided counts the decisions taken before it,
    and lastRunId is what its last successful run returned as id.
   */
  datatype Iteration = Iteration(iteration: nat, rerunFrom: string, first: nat, count: nat, decided: nat, failed: bool,
                                 lastRunId: Option<int>, wns: Option<real>, improved: bool, targetMet: bool)

  predicate HasId(run: StageRun) {
    run.result.success && run.result.runId.Some?
  }

  /** The id of the latest successful run that has one. */
  function LatestId(runs: seq<StageRun>): Option<int> {
    if runs == [] then None
    else if HasId(runs[|runs| - 1]) then runs[|runs| - 1].result.runId
    else LatestId(runs[..|runs| - 1])
  }

  function IndexOr(stage: string, fallback: nat, k: nat): nat
    decreases 6 - k
  {
    if k >= 6 then fallback else if STAGE_ORDER[k] == stage then k else IndexOr(stage, fallback, k + 1)
  }

  /** The position a rerun starts at; unknown names fall back to the start stage, and that to the first one. */
  function RerunIndex(rerunFrom: string, startStage: string): (i: nat)
    ensures i < 6
  {
    IndexBound(startStage, 0, 0);
    IndexBound(rerunFrom, IndexOr(startStage, 0, 0), 0);
    IndexOr(rerunFrom, IndexOr(startStage, 0, 0), 0)
  }

  lemma {:induction false} IndexBound(stage: string, fallback: nat, k: nat)
    requires fallback < 6
    ensures IndexOr(stage, fallback, k) < 6
    decreases 6 - k
  {
    if k < 6 {
      IndexBound(stage, fallback, k + 1);
    }
  }

  /** The latest non-empty parameters decided for a stage. */
  function ParamsUsed(decisions: seq<Decision>, stage: string): Params {
    if decisions == [] then map[]
    else
      var d := decisions[|decisions| - 1];
      if d.bottleneck == stage && d.params != map[] then d.params else ParamsUsed(decisions[..|decisions| - 1], stage)
  }

  function RerunFrom(decisions: seq<Decision>, startStage: string): string {
    if decisions == [] then startStage else decisions[|decisions| - 1].bottleneck
  }

  // ----- the lineage

  /**
    Every run has the next sequence number, the latest successful run as parent and the latest parameters of its
    stage.
   */
  ghost predicate RunFits(runs: seq<StageRun>, decisions: seq<Decision>, k: nat)
    requires k < |runs|
  {
    && runs[k].stageSeq == k + 1
    && runs[k].parent == LatestId(runs[..k])
    && runs[k].decided <= |decisions|
    && runs[k].params == ParamsUsed(decisions[..runs[k].decided], runs[k].stage)
  }

  ghost predicate RunsFit(runs: seq<StageRun>, decisions: seq<Decision>) {
    forall k | 0 <= k < |runs| :: RunFits(runs, decisions, k)
  }

  /** The trace of a decision leads from its source to the first successful run after it, whose parent is the source. */
  ghost predicate TraceFits(runs: seq<StageRun>, d: Decision, t: Trace) {
    && t.source == d.source
    && d.at <= t.run < |runs|
    && HasId(runs[t.run]) && runs[t.run].result.runId == Some(t.target) && runs[t.run].parent == Some(t.source)
    && forall k | d.at <= k < t.run :: !HasId(runs[k])
  }

  /** The results are the environment's, by sequence number. */
  ghost predicate ResultsFrom(runs: seq<StageRun>, env: Environment) {
    forall k {:trigger runs[k]} | 0 <= k < |runs| :: runs[k].result == env.run(k + 1)
  }

  lemma ResultsExtend(runs: seq<StageRun>, run: StageRun, env: Environment)
    requires ResultsFrom(runs, env) && run.result == env.run(|runs| + 1)
    ensures ResultsFrom(runs + [run], env)
  {
  }

  lemma RunsExtend(runs: seq<StageRun>, decisions: seq<Decision>, run: StageRun)
    requires RunsFit(runs, decisions)
    requires run.stageSeq == |runs| + 1 && run.parent == LatestId(runs) && run.decided == |decisions|
    requires run.params == ParamsUsed(decisions, run.stage)
    ensures RunsFit(runs + [run], decisions)
  {
    var runs' := runs + [run];
    forall k | 0 <= k < |runs'|
      ensures RunFits(runs', decisions, k)
    {
      assert runs'[..k] == runs[..k];
      if k < |runs| {
        assert RunFits(runs, decisions, k);
      } else {
        assert runs[..k] == runs && decisions[..|decisions|] == decisions;
      }
    }
  }

  ghost predicate TracesFit(runs: seq<StageRun>, decisions: seq<Decision>, traces: seq<Trace>) {
    |traces| <= |decisions| && forall d | 0 <= d < |traces| :: TraceFits(runs, decisions[d], traces[d])
  }

  /** The open decision was taken on the latest successful run, and nothing ran to an id since. */
  ghost predicate OpenFits(runs: seq<StageRun>, d: Decision) {
    LatestId(runs) == Some(d.source) && d.at <= |runs| && forall k | d.at <= k < |runs| :: !HasId(runs[k])
  }

  /**
    Decisions are recorded in order and each once; only the last one may still be open, and nothing ran to an id
    since.
   */
  ghost predicate DecisionsFit(runs: seq<StageRun>, decisions: seq<Decision>, traces: seq<Trace>,
                               pending: Option<int>) {
    && |decisions| == |traces| + (if pending.Some? then 1 else 0)
    && TracesFit(runs, decisions, traces)
    && (pending.Some? ==>
          decisions[|decisions| - 1].source == pending.value && OpenFits(runs, decisions[|decisions| - 1]))
  }

  lemma TracesExtend(runs: seq<StageRun>, decisions: seq<Decision>, traces: seq<Trace>, run: StageRun)
    requires TracesFit(runs, decisions, traces)
    ensures TracesFit(runs + [run], decisions, traces)
  {
    forall d | 0 <= d < |traces|
      ensures TraceFits(runs + [run], decisions[d], traces[d])
    {
      assert TraceFits(runs, decisions[d], traces[d]);
    }
  }

  lemma OpenExtends(runs: seq<StageRun>, d: Decision, run: StageRun)
    requires OpenFits(runs, d) && run.parent == LatestId(runs)
    ensures !HasId(run) ==> OpenFits(runs + [run], d)
    ensures HasId(run) ==> TraceFits(runs + [run], d, Trace(d.source, run.result.runId.value, |runs|))
  {
    assert (runs + [run])[..|runs|] == runs;
  }

  lemma TraceRecorded(runs: seq<StageRun>, decisions: seq<Decision>, traces: seq<Trace>, t: Trace)
    requires TracesFit(runs, decisions, traces) && |decisions| == |traces| + 1
    requires TraceFits(runs, decisions[|traces|], t)
    ensures TracesFit(runs, decisions, traces + [t])
  {
  }

  lemma RunsExtendDecisions(runs: seq<StageRun>, decisions: seq<Decision>, d: Decision)
    requires RunsFit(runs, decisions)
    ensures RunsFit(runs, decisions + [d])
  {
    forall k | 0 <= k < |runs|
      ensures RunFits(runs, decisions + [d], k)
    {
      assert RunFits(runs, decisions, k);
      assert (decisions + [d])[..runs[k].decided] == decisions[..runs[k].decided];
    }
  }

  /** A run keeps the pending decision open, or is the target the pending decision is recorded with. */
  lemma DecisionsExtend(runs: seq<StageRun>, decisions: seq<Decision>, traces: seq<Trace>, pending: Option<int>,
                        run: StageRun)
    requires DecisionsFit(runs, decisions, traces, pending) && run.parent == LatestId(runs)
    ensures !HasId(run) ==> DecisionsFit(runs + [run], decisions, traces, pending)
    ensures HasId(run) ==>
              DecisionsFit(runs + [run], decisions,
                           if pending.Some? then traces + [Trace(pending.value, run.result.runId.value, |runs|)]
                           else traces, None)
  {
    hide OpenFits, TraceFits, TracesFit, LatestId;
    TracesExtend(runs, decisions, traces, run);
    if pending.Some? {
      OpenExtends(runs, decisions[|decisions| - 1], run);
      if HasId(run) {
        TraceRecorded(runs + [run], decisions, traces, Trace(pending.value, run.result.runId.value, |runs|));
      }
    }
  }

  /** The state of the loop. */
  class Lineage {
    var runs: seq<StageRun>
    var decisions: seq<Decision>
    var traces: seq<Trace>
    var updates: seq<Update>
    var prevRunId: Option<int>
    var pending: Option<int>
    var stageSeq: nat
    var stageParams: map<string, Params>

    ghost predicate Valid()
      reads this
    {
      && stageSeq == |runs|
      && prevRunId == LatestId(runs)
      && RunsFit(runs, decisions)
      && DecisionsFit(runs, decisions, traces, pending)
      && forall stage :: (if stage in stageParams then stageParams[stage] else map[]) == ParamsUsed(decisions, stage)
    }

    constructor ()
      ensures Valid() && runs == [] && decisions == [] && traces == [] && updates == []
    {
      runs, decisions, traces, updates := [], [], [], [];
      prevRunId, pending := None, None;
      stageSeq := 0;
      stageParams := map[];
    }

    /** Run one stage and record it; a pending decision is recorded at the first successful run. */
    method RunStage(iteration: nat, stage: string, env: Environment) returns (result: RunResult)
      requires Valid() && ResultsFrom(runs, env)
      modifies this
      ensures Valid() && ResultsFrom(runs, env)
      ensures result == env.run(|runs|)
      ensures |runs| == |old(runs)| + 1 && runs[..|old(runs)|] == old(runs) && decisions == old(decisions)
      ensures var run := runs[|runs| - 1];
              run.iteration == iteration && run.stage == stage && run.result == result
      ensures runs[|runs| - 1].decided == |decisions|
      ensures updates == if result.success then old(updates) else old(updates) + [Update(FailedSession, None)]
      ensures result.success && result.runId.Some? ==> pending.None? && LatestId(runs) == result.runId
      ensures !(result.success && result.runId.Some?) ==>
                pending == old(pending) && LatestId(runs) == LatestId(old(runs))
    {
      hide RunsFit, DecisionsFit, ParamsUsed, ResultsFrom;
      var params := if stage in stageParams then stageParams[stage] else map[];
      stageSeq := stageSeq + 1;
      result := env.run(stageSeq);
      var run := StageRun(iteration, stage, stageSeq, prevRunId, params, |decisions|, result);
      RunsExtend(runs, decisions, run);
      DecisionsExtend(runs, decisions, traces, pending, run);
      ResultsExtend(runs, run, env);
      assert (runs + [run])[..|runs|] == runs;
      if !result.success {
        updates := updates + [Update(FailedSession, None)];
      } else if result.runId.Some? {
        if pending.Some? {
          traces := traces + [Trace(pending.value, result.runId.value, |runs|)];
          pending := None;
        }
        prevRunId := result.runId;
      }
      runs := runs + [run];
    }

    /** Take a decision on the latest successful run. */
    method Decide(source: int, bottleneck: string, filtered: Params)
      requires Valid() && LatestId(runs) == Some(source) && pending.None?
      modifies this
      ensures Valid() && runs == old(runs) && updates == old(updates)
      ensures decisions == old(decisions) + [Decision(source, |runs|, bottleneck, filtered)]
      ensures pending == Some(source)
    {
      var d := Decision(source, |runs|, bottleneck, filtered);
      RunsExtendDecisions(runs, decisions, d);
      assert (decisions + [d])[..|decisions|] == decisions;
      if filtered != map[] {
        stageParams := stageParams[bottleneck := filtered];
      }
      pending := Some(source);
      decisions := decisions + [d];
    }

    lemma Facts()
      requires Valid()
      ensures RunsFit(runs, decisions) && DecisionsFit(runs, decisions, traces, pending) && stageSeq == |runs|
    {
    }

    method Close(update: Update)
      requires Valid()
      modifies this`updates
      ensures Valid() && updates == old(updates) + [update]
    {
      updates := updates + [update];
    }
  }
}
