/** What a multi-stage tuning run does, spelled out in stages, runs and answers of the environment. */
module Itinerary {
  import opened StageRuns
  import opened Tuning
  import opened Wrappers

  /**
    Position p of the flow is where a rerun starts: at the stage named, or at the start stage if that name is no stage,
    or at the first one if neither is.
   */
  ghost predicate StartsAt(rerunFrom: string, startStage: string, p: nat) {
    var flow := ["synth", "floorplan", "place", "cts", "route", "finish"];
    && p < 6
    && if rerunFrom in flow then flow[p] == rerunFrom
       else if startStage in flow then flow[p] == startStage
       else p == 0
  }

  lemma {:induction false} IndexOrMeans(stage: string, fallback: nat, k: nat)
    requires k <= 6
    ensures var i := IndexOr(stage, fallback, k);
            if stage in STAGE_ORDER[k..] then k <= i < 6 && STAGE_ORDER[i] == stage else i == fallback
    decreases 6 - k
  {
    hide STAGE_ORDER;
    SixStages();
    if k < 6 {
      IndexOrMeans(stage, fallback, k + 1);
      assert STAGE_ORDER[k..] == [STAGE_ORDER[k]] + STAGE_ORDER[k + 1..];
    }
  }

  lemma SixStages()
    ensures |STAGE_ORDER| == 6
  {
  }

  lemma RerunMeans(rerunFrom: string, startStage: string)
    ensures StartsAt(rerunFrom, startStage, RerunIndex(rerunFrom, startStage))
  {
    assert STAGE_ORDER[0..] == STAGE_ORDER;
    IndexOrMeans(startStage, 0, 0);
    IndexOrMeans(rerunFrom, IndexOr(startStage, 0, 0), 0);
    hide IndexOr;
  }

  // ----- one run

  /** Run k counts up, hangs below the latest run before it that went through and had an id, if there is one. */
  ghost predicate RunMeans(runs: seq<StageRun>, k: nat)
    requires k < |runs|
  {
    && runs[k].stageSeq == k + 1
    && if forall j | 0 <= j < k :: !(runs[j].result.success && runs[j].result.runId.Some?) then runs[k].parent == None
       else exists j | 0 <= j < k ::
         && runs[j].result.success && runs[j].result.runId.Some? && runs[k].parent == runs[j].result.runId
         && forall l | j < l < k :: !(runs[l].result.success && runs[l].result.runId.Some?)
  }

  /** The parameters are those of the latest decision about the run's stage that had any. */
  ghost predicate ParamsFit(run: StageRun, decisions: seq<Decision>) {
    && run.decided <= |decisions|
    && if forall d | 0 <= d < run.decided :: decisions[d].bottleneck != run.stage || decisions[d].params == map[]
       then run.params == map[]
       else exists d | 0 <= d < run.decided ::
         && decisions[d].bottleneck == run.stage && decisions[d].params != map[] && run.params == decisions[d].params
         && forall e | d < e < run.decided :: decisions[e].bottleneck != run.stage || decisions[e].params == map[]
  }

  lemma {:induction false} LatestMeans(runs: seq<StageRun>) returns (j: nat)
    ensures j <= |runs| && forall l | j <= l < |runs| :: !(runs[l].result.success && runs[l].result.runId.Some?)
    ensures if j == 0 then LatestId(runs) == None
            else && runs[j - 1].result.success && runs[j - 1].result.runId.Some?
                 && LatestId(runs) == runs[j - 1].result.runId
    decreases |runs|
  {
    if runs == [] || HasId(runs[|runs| - 1]) {
      j := |runs|;
    } else {
      j := LatestMeans(runs[..|runs| - 1]);
      assert forall l | 0 <= l < |runs| - 1 :: runs[..|runs| - 1][l] == runs[l];
    }
  }

  lemma {:induction false} ParamsMean(decisions: seq<Decision>, stage: string) returns (d: nat)
    ensures d <= |decisions|
    ensures forall e | d <= e < |decisions| :: decisions[e].bottleneck != stage || decisions[e].params == map[]
    ensures if d == 0 then ParamsUsed(decisions, stage) == map[]
            else && decisions[d - 1].bottleneck == stage && decisions[d - 1].params != map[]
                 && ParamsUsed(decisions, stage) == decisions[d - 1].params
    decreases |decisions|
  {
    if decisions == [] {
      d := 0;
    } else if decisions[|decisions| - 1].bottleneck == stage && decisions[|decisions| - 1].params != map[] {
      d := |decisions|;
    } else {
      d := ParamsMean(decisions[..|decisions| - 1], stage);
      assert forall e | 0 <= e < |decisions| - 1 :: decisions[..|decisions| - 1][e] == decisions[e];
    }
  }

  lemma RunsMean(runs: seq<StageRun>, decisions: seq<Decision>, k: nat)
    requires RunsFit(runs, decisions) && k < |runs|
    ensures RunMeans(runs, k) && ParamsFit(runs[k], decisions)
  {
    assert RunFits(runs, decisions, k);
    hide LatestId, ParamsUsed, RunsFit;
    var before, known := runs[..k], decisions[..runs[k].decided];
    var j := LatestMeans(before);
    assert forall l | 0 <= l < k :: before[l] == runs[l];
    var d := ParamsMean(known, runs[k].stage);
    assert forall e | 0 <= e < runs[k].decided :: known[e] == decisions[e];
  }

  // ----- one iteration

  function SlackIn(timing: Timing): Option<real> {
    if timing.Summary? then timing.wns else None
  }

  /** The iteration runs the flow from where its rerun starts, to the end or to the first failure. */
  ghost predicate FlowMeans(it: Iteration, startStage: string, runs: seq<StageRun>) {
    var flow := ["synth", "floorplan", "place", "cts", "route", "finish"];
    exists p: nat ::
      && StartsAt(it.rerunFrom, startStage, p) && 0 < it.count <= 6 - p && it.first + it.count <= |runs|
      && (forall j | it.first <= j < it.first + it.count ::
            && runs[j].iteration == it.iteration && runs[j].stage == flow[p + j - it.first]
            && (runs[j].result.success <==> !(it.failed && j == it.first + it.count - 1)))
      && (!it.failed ==> it.count == 6 - p)
  }

  /** What came out of the iteration: the last id, the slack judged by, and whether that is the best so far. */
  ghost predicate OutcomeMeans(history: seq<Iteration>, i: nat, runs: seq<StageRun>, env: Environment)
    requires i < |history|
  {
    var it := history[i];
    var through := if it.failed then it.count - 1 else it.count;
    && 0 <= through && it.first + through <= |runs|
    && it.lastRunId == (if through == 0 then None else runs[it.first + through - 1].result.runId)
    && it.wns == (if !it.failed && env.finishTiming(i + 1) != NoTiming then SlackIn(env.finishTiming(i + 1))
                  else if it.lastRunId.Some? && it.lastRunId.value != 0 then SlackIn(env.queriedTiming(i + 1))
                  else None)
    && (it.improved <==>
          it.wns.Some? && forall j | 0 <= j < i && history[j].wns.Some? :: it.wns.value > history[j].wns.value)
    && it.targetMet == env.targetMet(i + 1)
  }

  /**
    Where iteration i + 1 comes in: after the runs and decisions of those before it; it starts from the bottleneck just
    decided, or where the one before started if nothing was decided. Its own decision is about the bottleneck then
    picked, on its last successful run.
   */
  ghost predicate TurnMeans(history: seq<Iteration>, i: nat, decisions: seq<Decision>, startStage: string,
                            maxIterations: nat, env: Environment)
    requires i < |history|
  {
    var it := history[i];
    && it.iteration == i + 1
    && it.first == (if i == 0 then 0 else history[i - 1].first + history[i - 1].count)
    && it.rerunFrom == (if i == 0 then startStage
                        else if history[i - 1].lastRunId.Some? then env.bottleneck(i) else history[i - 1].rerunFrom)
    && it.decided == (if i == 0 then 0
                      else history[i - 1].decided + if history[i - 1].lastRunId.Some? then 1 else 0)
    && (i + 1 < maxIterations && !it.targetMet && it.lastRunId.Some? ==>
          && it.decided < |decisions|
          && decisions[it.decided] ==
             Decision(it.lastRunId.value, it.first + it.count, env.bottleneck(i + 1),
                      env.filtered(i + 1, i > 0 && !it.improved)))
  }
}
