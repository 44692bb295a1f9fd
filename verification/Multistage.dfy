/** The multi-stage tuning loop: rerun a suffix of the flow, judge it, decide what to change. */
module Multistage {
  import opened Itinerary
  import opened StageRuns
  import opened Tuning
  import opened Wrappers

  // ----- one iteration

  /** The runs of an iteration: a prefix of the flow from the rerun stage on, ending early only at a failure. */
  ghost predicate IterationRuns(runs: seq<StageRun>, iteration: nat, first: nat, count: nat, decided: nat,
                                suffix: seq<string>) {
    && first + count <= |runs| && count <= |suffix|
    && (forall j | first <= j < first + count ::
          runs[j].iteration == iteration && runs[j].decided == decided && runs[j].stage == suffix[j - first])
    && forall j | first <= j < first + count - 1 :: runs[j].result.success
  }

  ghost predicate IterationFits(it: Iteration, runs: seq<StageRun>, decisions: seq<Decision>, startStage: string) {
    var suffix := STAGE_ORDER[RerunIndex(it.rerunFrom, startStage)..];
    && it.decided <= |decisions| && it.rerunFrom == RerunFrom(decisions[..it.decided], startStage)
    && it.count > 0 && IterationRuns(runs, it.iteration, it.first, it.count, it.decided, suffix)
    && (it.failed <==> !runs[it.first + it.count - 1].result.success)
    && (!it.failed ==> it.count == |suffix|)
    && it.lastRunId == LastSuccessful(runs, it.first, if it.failed then it.count - 1 else it.count)
  }

  /** The id returned by the last of the n runs from position first on. */
  function LastSuccessful(runs: seq<StageRun>, first: nat, n: nat): Option<int>
    requires first + n <= |runs|
  {
    if n == 0 then None else runs[first + n - 1].result.runId
  }

  /** The timing an iteration is judged by: that of its finish stage, or else the one queried for its last run. */
  function JudgedBy(it: Iteration, env: Environment): Timing {
    var finish := if it.failed then NoTiming else env.finishTiming(it.iteration);
    if finish == NoTiming && TruthyId(it.lastRunId) then env.queriedTiming(it.iteration) else finish
  }

  predicate TruthyId(id: Option<int>) {
    id.Some? && id.value != 0
  }

  function WnsIn(timing: Timing): Option<real> {
    if timing.Summary? then timing.wns else None
  }

  /** The finish stage ends the flow. */
  ghost predicate EndsWithFinish(suffix: seq<string>) {
    suffix != [] && forall k | 0 <= k < |suffix| :: suffix[k] == "finish" <==> k == |suffix| - 1
  }

  lemma SuffixEnds(i: nat)
    requires i < 6
    ensures EndsWithFinish(STAGE_ORDER[i..])
  {
    assert STAGE_ORDER[0][0] == 's' && STAGE_ORDER[1][1] == 'l' && STAGE_ORDER[2][0] == 'p' && STAGE_ORDER[3][0] == 'c';
    assert STAGE_ORDER[4][0] == 'r' && STAGE_ORDER[5][0] == 'f' && STAGE_ORDER[5][1] == 'i';
  }

  method RunSuffix(lineage: Lineage, iteration: nat, suffix: seq<string>, env: Environment)
    returns (count: nat, failed: bool, lastRunId: Option<int>, timing: Timing)
    requires lineage.Valid() && ResultsFrom(lineage.runs, env) && EndsWithFinish(suffix)
    modifies lineage
    ensures lineage.Valid() && ResultsFrom(lineage.runs, env) && lineage.decisions == old(lineage.decisions)
    ensures |lineage.runs| == |old(lineage.runs)| + count && lineage.runs[..|old(lineage.runs)|] == old(lineage.runs)
    ensures count > 0 && IterationRuns(lineage.runs, iteration, |old(lineage.runs)|, count, |lineage.decisions|, suffix)
    ensures failed <==> !lineage.runs[|lineage.runs| - 1].result.success
    ensures !failed ==> count == |suffix|
    ensures timing == if failed then NoTiming else env.finishTiming(iteration)
    ensures lastRunId == LastSuccessful(lineage.runs, |old(lineage.runs)|, if failed then count - 1 else count)
    ensures lastRunId.Some? ==> LatestId(lineage.runs) == lastRunId && lineage.pending.None?
    ensures lineage.updates == old(lineage.updates) + if failed then [Update(FailedSession, None)] else []
  {
    hide LatestId, Lineage.Valid, ResultsFrom;
    ghost var before := lineage.runs;
    count, failed, lastRunId, timing := 0, false, None, NoTiming;
    while count < |suffix|
      invariant count <= |suffix| && lineage.Valid() && ResultsFrom(lineage.runs, env)
      invariant lineage.decisions == old(lineage.decisions)
      invariant |lineage.runs| == |before| + count && lineage.runs[..|before|] == before
      invariant IterationRuns(lineage.runs, iteration, |before|, count, |lineage.decisions|, suffix)
      invariant forall j | |before| <= j < |lineage.runs| :: lineage.runs[j].result.success
      invariant lastRunId.Some? ==> LatestId(lineage.runs) == lastRunId && lineage.pending.None?
      invariant lastRunId == LastSuccessful(lineage.runs, |before|, count)
      invariant timing == if count == |suffix| then env.finishTiming(iteration) else NoTiming
      invariant lineage.updates == old(lineage.updates)
    {
      ghost var so := lineage.runs;
      var result := lineage.RunStage(iteration, suffix[count], env);
      assert forall j | 0 <= j < |so| :: lineage.runs[j] == so[j];
      count := count + 1;
      if !result.success {
        failed := true;
        return;
      }
      lastRunId := result.runId;
      if suffix[count - 1] == "finish" {
        timing := env.finishTiming(iteration);
      }
    }
  }

  // ----- the whole loop

  function WnsOf(history: seq<Iteration>): seq<Option<real>> {
    seq(|history|, i requires 0 <= i < |history| => history[i].wns)
  }

  /** One failure update for each iteration in which a stage failed. */
  function FailureUpdates(history: seq<Iteration>): seq<Update> {
    if history == [] then []
    else FailureUpdates(history[..|history| - 1])
         + if history[|history| - 1].failed then [Update(FailedSession, None)] else []
  }

  function RunsBefore(history: seq<Iteration>): nat {
    if history == [] then 0 else RunsBefore(history[..|history| - 1]) + history[|history| - 1].count
  }

  /**
    The decisions that follow from a history: one after each iteration but the last allowed one, unless it met the
    target or its last successful run had no id; on that run, and about the bottleneck and the parameters then
    suggested.
   */
  function Decided(history: seq<Iteration>, maxIterations: nat, env: Environment): seq<Decision> {
    if history == [] then []
    else
      var it := history[|history| - 1];
      Decided(history[..|history| - 1], maxIterations, env)
      + if it.iteration < maxIterations && !it.targetMet && it.lastRunId.Some? then [DecisionAfter(it, env)] else []
  }

  function DecisionAfter(it: Iteration, env: Environment): Decision
    requires it.lastRunId.Some?
  {
    Decision(it.lastRunId.value, it.first + it.count, env.bottleneck(it.iteration),
             env.filtered(it.iteration, it.iteration > 1 && !it.improved))
  }

  /**
    Entry i of the history describes iteration i + 1: its runs follow those of the earlier ones, it took part after the
    decisions that follow from them, and it is judged by its own timing.
   */
  ghost predicate EntryFits(history: seq<Iteration>, i: nat, runs: seq<StageRun>, decisions: seq<Decision>,
                            startStage: string, maxIterations: nat, env: Environment)
    requires i < |history|
  {
    var it := history[i];
    && it.iteration == i + 1 && it.first == RunsBefore(history[..i])
    && it.decided == |Decided(history[..i], maxIterations, env)|
    && it.wns == WnsIn(JudgedBy(it, env))
    && IterationFits(it, runs, decisions, startStage)
    && it.improved == (it.wns.Some? && Improves(it.wns.value, Best(WnsOf(history[..i]))))
    && it.targetMet == env.targetMet(i + 1)
  }

  ghost predicate HistoryFits(history: seq<Iteration>, runs: seq<StageRun>, decisions: seq<Decision>,
                              startStage: string, maxIterations: nat, env: Environment) {
    && RunsBefore(history) == |runs|
    && forall i | 0 <= i < |history| :: EntryFits(history, i, runs, decisions, startStage, maxIterations, env)
  }

  lemma IterationRunsStay(runs: seq<StageRun>, runs': seq<StageRun>, iteration: nat, first: nat, count: nat,
                          decided: nat, suffix: seq<string>)
    requires IterationRuns(runs, iteration, first, count, decided, suffix)
    requires |runs| <= |runs'| && runs'[..|runs|] == runs
    ensures IterationRuns(runs', iteration, first, count, decided, suffix)
  {
    forall j | 0 <= j < |runs|
      ensures runs[j] == runs'[j]
    {
      assert runs'[..|runs|][j] == runs'[j];
    }
  }

  lemma LastSuccessfulStays(runs: seq<StageRun>, runs': seq<StageRun>, first: nat, n: nat)
    requires first + n <= |runs| <= |runs'| && runs'[..|runs|] == runs
    ensures LastSuccessful(runs', first, n) == LastSuccessful(runs, first, n)
  {
    if n > 0 {
      assert runs'[..|runs|][first + n - 1] == runs'[first + n - 1];
    }
  }

  lemma IterationStays(it: Iteration, runs: seq<StageRun>, runs': seq<StageRun>, decisions: seq<Decision>,
                       decisions': seq<Decision>, startStage: string)
    requires IterationFits(it, runs, decisions, startStage)
    requires |runs| <= |runs'| && runs'[..|runs|] == runs && |decisions| <= |decisions'|
    requires decisions'[..|decisions|] == decisions
    ensures IterationFits(it, runs', decisions', startStage)
  {
    hide LatestId, RerunIndex, RerunFrom, LastSuccessful;
    assert decisions'[..it.decided] == decisions[..it.decided];
    var suffix := STAGE_ORDER[RerunIndex(it.rerunFrom, startStage)..];
    IterationRunsStay(runs, runs', it.iteration, it.first, it.count, it.decided, suffix);
    var last := it.first + it.count - 1;
    assert runs'[..|runs|][last] == runs'[last];
    hide IterationRuns;
    LastSuccessfulStays(runs, runs', it.first, if it.failed then it.count - 1 else it.count);
  }

  lemma HistoryExtends(history: seq<Iteration>, it: Iteration, runs: seq<StageRun>, runs': seq<StageRun>,
                       decisions: seq<Decision>, startStage: string, maxIterations: nat, env: Environment)
    requires HistoryFits(history, runs, decisions, startStage, maxIterations, env)
    requires |runs| + it.count == |runs'| && runs'[..|runs|] == runs
    requires it.iteration == |history| + 1 && it.first == |runs| && IterationFits(it, runs', decisions, startStage)
    requires it.improved == (it.wns.Some? && Improves(it.wns.value, Best(WnsOf(history))))
    requires it.targetMet == env.targetMet(|history| + 1)
    requires it.decided == |Decided(history, maxIterations, env)| && it.wns == WnsIn(JudgedBy(it, env))
    ensures HistoryFits(history + [it], runs', decisions, startStage, maxIterations, env)
  {
    hide IterationFits, Best;
    var next := history + [it];
    assert next[..|history|] == history;
    forall i | 0 <= i < |next|
      ensures EntryFits(next, i, runs', decisions, startStage, maxIterations, env)
    {
      assert next[..i] == history[..i];
      if i < |history| {
        assert EntryFits(history, i, runs, decisions, startStage, maxIterations, env);
        IterationStays(history[i], runs, runs', decisions, decisions, startStage);
      } else {
        assert history[..i] == history;
      }
    }
  }

  lemma HistoryKeepsDecision(history: seq<Iteration>, runs: seq<StageRun>, decisions: seq<Decision>, d: Decision,
                             startStage: string, maxIterations: nat, env: Environment)
    requires HistoryFits(history, runs, decisions, startStage, maxIterations, env)
    ensures HistoryFits(history, runs, decisions + [d], startStage, maxIterations, env)
  {
    hide IterationFits, Best;
    assert (decisions + [d])[..|decisions|] == decisions && runs[..|runs|] == runs;
    forall i | 0 <= i < |history|
      ensures EntryFits(history, i, runs, decisions + [d], startStage, maxIterations, env)
    {
      assert EntryFits(history, i, runs, decisions, startStage, maxIterations, env);
      IterationStays(history[i], runs, runs, decisions, decisions + [d], startStage);
    }
  }

  lemma HistoryNext(history: seq<Iteration>, it: Iteration, maxIterations: nat, env: Environment)
    ensures Best(WnsOf(history + [it])) ==
              if it.wns.Some? && Improves(it.wns.value, Best(WnsOf(history))) then it.wns else Best(WnsOf(history))
    ensures FailureUpdates(history + [it]) ==
              FailureUpdates(history) + if it.failed then [Update(FailedSession, None)] else []
    ensures Decided(history + [it], maxIterations, env) ==
              Decided(history, maxIterations, env)
              + if it.iteration < maxIterations && !it.targetMet && it.lastRunId.Some? then
                  [Decision(it.lastRunId.value, it.first + it.count, env.bottleneck(it.iteration),
                            env.filtered(it.iteration, it.iteration > 1 && !it.improved))]
                else []
    ensures RunsBefore(history + [it]) == RunsBefore(history) + it.count
  {
    var next := history + [it];
    assert next[..|history|] == history;
    assert WnsOf(next) == WnsOf(history) + [it.wns];
    assert WnsOf(next)[..|history|] == WnsOf(history);
  }

  /** Run one iteration, judge it, and describe it. */
  method RunIteration(lineage: Lineage, iteration: nat, startStage: string, rerunFrom: string, env: Environment,
                      best: Option<real>)
    returns (it: Iteration, lastRunId: Option<int>)
    requires lineage.Valid() && ResultsFrom(lineage.runs, env) && rerunFrom == RerunFrom(lineage.decisions, startStage)
    modifies lineage
    ensures lineage.Valid() && ResultsFrom(lineage.runs, env) && lineage.decisions == old(lineage.decisions)
    ensures |lineage.runs| == |old(lineage.runs)| + it.count && lineage.runs[..|old(lineage.runs)|] == old(lineage.runs)
    ensures it.iteration == iteration && it.first == |old(lineage.runs)|
    ensures IterationFits(it, lineage.runs, lineage.decisions, startStage)
    ensures it.decided == |lineage.decisions| && it.rerunFrom == rerunFrom && it.lastRunId == lastRunId
    ensures it.wns == WnsIn(JudgedBy(it, env))
    ensures it.improved == (it.wns.Some? && Improves(it.wns.value, best)) && it.targetMet == env.targetMet(iteration)
    ensures lastRunId.Some? ==> LatestId(lineage.runs) == lastRunId && lineage.pending.None?
    ensures lineage.updates == old(lineage.updates) + if it.failed then [Update(FailedSession, None)] else []
  {
    hide LatestId, IterationRuns, ResultsFrom, Lineage.Valid;
    var suffix := STAGE_ORDER[RerunIndex(rerunFrom, startStage)..];
    var first, decided := |lineage.runs|, |lineage.decisions|;
    var count, failed, timing;
    SuffixEnds(RerunIndex(rerunFrom, startStage));
    count, failed, lastRunId, timing := RunSuffix(lineage, iteration, suffix, env);
    if timing == NoTiming && TruthyId(lastRunId) {
      timing := env.queriedTiming(iteration);
    }
    var wns := WnsIn(timing);
    var improved := wns.Some? && Improves(wns.value, best);
    assert lineage.decisions[..decided] == lineage.decisions;
    it := Iteration(iteration, rerunFrom, first, count, decided, failed, lastRunId, wns, improved,
                    env.targetMet(iteration));
  }

  // ----- the same, spelled out

  lemma FlowSpelled(history: seq<Iteration>, runs: seq<StageRun>, decisions: seq<Decision>, startStage: string,
                    maxIterations: nat, env: Environment, i: nat)
    requires HistoryFits(history, runs, decisions, startStage, maxIterations, env) && i < |history|
    ensures FlowMeans(history[i], startStage, runs)
  {
    assert EntryFits(history, i, runs, decisions, startStage, maxIterations, env);
    hide *;
    IterationFlow(history, runs, decisions, startStage, maxIterations, env, i);
    var it := history[i];
    RerunMeans(it.rerunFrom, startStage);
    SuffixFlow(it, startStage, runs, RerunIndex(it.rerunFrom, startStage));
  }

  lemma IterationFlow(history: seq<Iteration>, runs: seq<StageRun>, decisions: seq<Decision>, startStage: string,
                      maxIterations: nat, env: Environment, i: nat)
    requires i < |history| && EntryFits(history, i, runs, decisions, startStage, maxIterations, env)
    ensures var it, p := history[i], RerunIndex(history[i].rerunFrom, startStage);
            && it.count > 0 && it.first + it.count <= |runs|
            && IterationRuns(runs, it.iteration, it.first, it.count, it.decided, STAGE_ORDER[p..])
            && (it.failed <==> !runs[it.first + it.count - 1].result.success)
            && (!it.failed ==> it.count == |STAGE_ORDER[p..]|)
  {
    hide Decided, RunsBefore, JudgedBy, Best, RerunFrom, LastSuccessful, RerunIndex;
  }

  lemma SuffixFlow(it: Iteration, startStage: string, runs: seq<StageRun>, p: nat)
    requires StartsAt(it.rerunFrom, startStage, p) && it.count > 0 && p < 6
    requires IterationRuns(runs, it.iteration, it.first, it.count, it.decided, STAGE_ORDER[p..])
    requires it.failed <==> !runs[it.first + it.count - 1].result.success
    requires !it.failed ==> it.count == |STAGE_ORDER[p..]|
    ensures FlowMeans(it, startStage, runs)
  {
    hide StartsAt;
    forall j | it.first <= j < it.first + it.count
      ensures runs[j].stage == STAGE_ORDER[p + j - it.first]
    {
      assert STAGE_ORDER[p..][j - it.first] == STAGE_ORDER[p + j - it.first];
    }
  }

  lemma OutcomeSpelled(history: seq<Iteration>, runs: seq<StageRun>, decisions: seq<Decision>, startStage: string,
                       maxIterations: nat, env: Environment, i: nat)
    requires HistoryFits(history, runs, decisions, startStage, maxIterations, env) && i < |history|
    ensures OutcomeMeans(history, i, runs, env)
  {
    assert EntryFits(history, i, runs, decisions, startStage, maxIterations, env);
    hide HistoryFits, Decided, RunsBefore, Best, RerunFrom, RerunIndex, Improves;
    var slacks := WnsOf(history[..i]);
    assert |slacks| == i && forall j | 0 <= j < i :: slacks[j] == history[j].wns;
    if history[i].wns.Some? {
      ImprovesMeans(slacks, history[i].wns.value);
    }
  }

  lemma {:induction false} DecidedPrefix(history: seq<Iteration>, maxIterations: nat, env: Environment, i: nat)
    requires i <= |history|
    ensures var all, some := Decided(history, maxIterations, env), Decided(history[..i], maxIterations, env);
            |some| <= |all| && all[..|some|] == some
    decreases |history|
  {
    if i == |history| {
      assert history[..i] == history;
    } else {
      hide DecisionAfter;
      var front := history[..|history| - 1];
      assert front[..i] == history[..i];
      DecidedPrefix(front, maxIterations, env, i);
    }
  }

  /** What iteration i + 1 adds to the decisions. */
  lemma DecidedNext(history: seq<Iteration>, maxIterations: nat, env: Environment, i: nat)
    requires i < |history|
    ensures var it, before := history[i], Decided(history[..i], maxIterations, env);
            Decided(history[..i + 1], maxIterations, env) ==
            before
            + if it.iteration < maxIterations && !it.targetMet && it.lastRunId.Some? then [DecisionAfter(it, env)]
              else []
  {
    assert history[..i + 1][..i] == history[..i];
  }

  lemma EntryFacts(history: seq<Iteration>, runs: seq<StageRun>, decisions: seq<Decision>, startStage: string,
                   maxIterations: nat, env: Environment, i: nat)
    requires HistoryFits(history, runs, decisions, startStage, maxIterations, env) && i < |history|
    requires decisions == Decided(history, maxIterations, env)
    ensures var it, before := history[i], Decided(history[..i], maxIterations, env);
            && it.iteration == i + 1 && it.first == RunsBefore(history[..i]) && it.decided == |before|
            && it.rerunFrom == RerunFrom(before, startStage)
    ensures i == 0 ==> RunsBefore(history[..i]) == 0 && Decided(history[..i], maxIterations, env) == []
    ensures i > 0 ==> RunsBefore(history[..i]) == RunsBefore(history[..i - 1]) + history[i - 1].count
  {
    assert EntryFits(history, i, runs, decisions, startStage, maxIterations, env);
    DecidedPrefix(history, maxIterations, env, i);
    hide HistoryFits, Decided, JudgedBy, Best, Improves, RerunIndex, LastSuccessful, IterationRuns, WnsOf, RerunFrom;
    if i == 0 {
      NothingYet(startStage, maxIterations, env);
      assert history[..0] == [];
    } else {
      assert history[..i][..i - 1] == history[..i - 1];
    }
  }

  /** What iteration i + 1 decides, and from where the next one starts in view of it. */
  lemma DecidedHere(history: seq<Iteration>, startStage: string, maxIterations: nat, env: Environment, i: nat)
    requires i < |history|
    ensures var it, before := history[i], Decided(history[..i], maxIterations, env);
            var after := Decided(history[..i + 1], maxIterations, env);
            if it.iteration < maxIterations && !it.targetMet && it.lastRunId.Some? then
              && |after| == |before| + 1
              && after[|before|] == Decision(it.lastRunId.value, it.first + it.count, env.bottleneck(it.iteration),
                                             env.filtered(it.iteration, it.iteration > 1 && !it.improved))
              && RerunFrom(after, startStage) == env.bottleneck(it.iteration)
            else after == before
  {
    DecidedNext(history, maxIterations, env, i);
    hide Decided;
  }

  lemma TurnSpelled(history: seq<Iteration>, runs: seq<StageRun>, decisions: seq<Decision>, startStage: string,
                    maxIterations: nat, env: Environment, i: nat)
    requires HistoryFits(history, runs, decisions, startStage, maxIterations, env) && i < |history| <= maxIterations
    requires decisions == Decided(history, maxIterations, env)
    requires forall k | 0 <= k < |history| - 1 :: !history[k].targetMet
    ensures TurnMeans(history, i, decisions, startStage, maxIterations, env)
  {
    hide HistoryFits, Decided, RerunFrom, RunsBefore;
    EntryFacts(history, runs, decisions, startStage, maxIterations, env, i);
    DecidedHere(history, startStage, maxIterations, env, i);
    DecidedPrefix(history, maxIterations, env, i + 1);
    NothingYet(startStage, maxIterations, env);
    if i > 0 {
      EntryFacts(history, runs, decisions, startStage, maxIterations, env, i - 1);
      DecidedHere(history, startStage, maxIterations, env, i - 1);
    }
  }

  /**
    The multi-stage tuning loop, for every environment. runs, decisions and traces are what it persists, updates the
    changes of the session status. The session ends completed exactly if the last iteration met the target.
   */
  method Tune(startStage: string, maxIterations: nat, env: Environment)
    returns (history: seq<Iteration>, best: Option<real>, runs: seq<StageRun>, decisions: seq<Decision>,
             traces: seq<Trace>, updates: seq<Update>, ghost pending: Option<int>)
    ensures |history| <= maxIterations
    ensures HistoryFits(history, runs, decisions, startStage, maxIterations, env)
    ensures RunsFit(runs, decisions) && ResultsFrom(runs, env)
    ensures DecisionsFit(runs, decisions, traces, pending)
    ensures best == Best(WnsOf(history))
    ensures forall i | 0 <= i < |history| - 1 :: !history[i].targetMet
    ensures |history| == maxIterations || (history != [] && history[|history| - 1].targetMet)
    ensures decisions == Decided(history, maxIterations, env)
    ensures updates != [] &&
            (updates[|updates| - 1].status == CompletedSession <==> history != [] && history[|history| - 1].targetMet)
    ensures updates == FailureUpdates(history)
                       + if history != [] && history[|history| - 1].targetMet then
                           [Update(CompletedSession, history[|history| - 1].lastRunId)]
                         else if FailureUpdates(history) == [] then [Update(FailedSession, None)] else []
    ensures |updates| == 1 <==> ClosedOnce(history)
    ensures forall k | 0 <= k < |runs| :: RunMeans(runs, k) && ParamsFit(runs[k], decisions)
    ensures forall i | 0 <= i < |history| ::
              && FlowMeans(history[i], startStage, runs) && OutcomeMeans(history, i, runs, env)
              && TurnMeans(history, i, decisions, startStage, maxIterations, env)
  {
    hide *;
    var lineage := new Lineage();
    history, best := [], None;
    var rerunFrom := startStage;
    var targetReached, sessionFailed := false, false;
    var i := 1;
    NothingYet(startStage, maxIterations, env);
    while i <= maxIterations
      invariant 1 <= i <= maxIterations + 1 && |history| == i - 1
      invariant fresh(lineage) && lineage.Valid() && rerunFrom == RerunFrom(lineage.decisions, startStage)
      invariant HistoryFits(history, lineage.runs, lineage.decisions, startStage, maxIterations, env)
      invariant RunsBefore(history) == |lineage.runs|
      invariant ResultsFrom(lineage.runs, env)
      invariant best == Best(WnsOf(history)) && lineage.decisions == Decided(history, maxIterations, env)
      invariant forall k | 0 <= k < |history| :: !history[k].targetMet
      invariant lineage.updates == FailureUpdates(history) && (sessionFailed <==> FailureUpdates(history) != [])
    {
      ghost var before := lineage.runs;
      var it, lastRunId := RunIteration(lineage, i, startStage, rerunFrom, env, best);
      HistoryExtends(history, it, before, lineage.runs, lineage.decisions, startStage, maxIterations, env);
      HistoryNext(history, it, maxIterations, env);
      if it.improved {
        best := it.wns;
      }
      sessionFailed := sessionFailed || it.failed;
      history := history + [it];
      HistoryCounts(history, lineage.runs, lineage.decisions, startStage, maxIterations, env);
      if it.targetMet {
        lineage.Close(Update(CompletedSession, lastRunId));
        targetReached := true;
        break;
      }
      if i < maxIterations && lastRunId.Some? {
        var bottleneck, filtered := env.bottleneck(i), env.filtered(i, i > 1 && !it.improved);
        HistoryKeepsDecision(history, lineage.runs, lineage.decisions,
                             Decision(lastRunId.value, |lineage.runs|, bottleneck, filtered), startStage,
                             maxIterations, env);
        lineage.Decide(lastRunId.value, bottleneck, filtered);
        rerunFrom := bottleneck;
        RerunAtBottleneck(lineage.decisions, startStage);
      }
      i := i + 1;
    }
    if !targetReached && !sessionFailed {
      lineage.Close(Update(FailedSession, None));
    }
    LastFailure(history);
    OnceCounts(history);
    lineage.Facts();
    runs, decisions, traces := lineage.runs, lineage.decisions, lineage.traces;
    updates, pending := lineage.updates, lineage.pending;
    Spelled(history, runs, decisions, startStage, maxIterations, env);
  }

  lemma Spelled(history: seq<Iteration>, runs: seq<StageRun>, decisions: seq<Decision>, startStage: string,
                maxIterations: nat, env: Environment)
    requires HistoryFits(history, runs, decisions, startStage, maxIterations, env) && |history| <= maxIterations
    requires decisions == Decided(history, maxIterations, env) && RunsFit(runs, decisions)
    requires forall k | 0 <= k < |history| - 1 :: !history[k].targetMet
    ensures forall k | 0 <= k < |runs| :: RunMeans(runs, k) && ParamsFit(runs[k], decisions)
    ensures forall i | 0 <= i < |history| ::
              && FlowMeans(history[i], startStage, runs) && OutcomeMeans(history, i, runs, env)
              && TurnMeans(history, i, decisions, startStage, maxIterations, env)
  {
    hide *;
    forall k | 0 <= k < |runs|
      ensures RunMeans(runs, k) && ParamsFit(runs[k], decisions)
    {
      RunsMean(runs, decisions, k);
    }
    forall i | 0 <= i < |history|
      ensures FlowMeans(history[i], startStage, runs) && OutcomeMeans(history, i, runs, env)
      ensures TurnMeans(history, i, decisions, startStage, maxIterations, env)
    {
      FlowSpelled(history, runs, decisions, startStage, maxIterations, env, i);
      OutcomeSpelled(history, runs, decisions, startStage, maxIterations, env, i);
      TurnSpelled(history, runs, decisions, startStage, maxIterations, env, i);
    }
  }

  /** At most one iteration failed, and none if the last one met the target. */
  ghost predicate ClosedOnce(history: seq<Iteration>) {
    && (forall i, j | 0 <= i < j < |history| :: !(history[i].failed && history[j].failed))
    && (history != [] && history[|history| - 1].targetMet ==> forall i | 0 <= i < |history| :: !history[i].failed)
  }

  lemma OnceCounts(history: seq<Iteration>)
    ensures ClosedOnce(history) <==>
            |FailureUpdates(history)| <= if history != [] && history[|history| - 1].targetMet then 0 else 1
  {
    FailuresCounted(history);
  }

  lemma {:induction false} FailuresCounted(history: seq<Iteration>)
    ensures |FailureUpdates(history)| == 0 <==> forall i | 0 <= i < |history| :: !history[i].failed
    ensures |FailureUpdates(history)| <= 1 <==>
            forall i, j | 0 <= i < j < |history| :: !(history[i].failed && history[j].failed)
    decreases |history|
  {
    if history != [] {
      var front := history[..|history| - 1];
      FailuresCounted(front);
      assert forall i | 0 <= i < |front| :: front[i] == history[i];
    }
  }

  /** A session can be marked failed and then completed: the first run fails, the second meets the target. */
  method FailThenComplete() returns (updates: seq<Update>)
    ensures updates == [Update(FailedSession, None), Update(CompletedSession, Some(2))]
  {
    hide HistoryFits, IterationFits, RunsFit, DecisionsFit, Best, ClosedOnce, Decided, ParamsUsed;
    var env := Environment(n => RunResult(n == 2, Some(n)), _ => NoTiming, _ => NoTiming, i => i == 2, _ => "finish",
                           (_, _) => map[]);
    var history, best, runs, decisions, traces;
    ghost var pending;
    history, best, runs, decisions, traces, updates, pending := Tune("finish", 2, env);
    SecondRunMeets(history, runs, decisions, env);
  }

  lemma {:induction false} SecondRunMeets(history: seq<Iteration>, runs: seq<StageRun>, decisions: seq<Decision>,
                                          env: Environment)
    requires HistoryFits(history, runs, decisions, "finish", 2, env) && ResultsFrom(runs, env)
    requires |history| <= 2 && (|history| == 2 || (history != [] && history[|history| - 1].targetMet))
    requires env.run(1) == RunResult(false, Some(1)) && env.run(2) == RunResult(true, Some(2))
    requires !env.targetMet(1) && env.targetMet(2)
    ensures |history| == 2 && history[1].targetMet && history[1].lastRunId == Some(2)
    ensures FailureUpdates(history) == [Update(FailedSession, None)]
  {
    hide ParamsUsed, LatestId, Best, JudgedBy, RerunIndex;
    FinishIsLast();
    assert EntryFits(history, 0, runs, decisions, "finish", 2, env);
    assert |history| == 2 && history[..0] == [] && decisions[..0] == [];
    var first := history[0];
    assert first.first == 0 && first.decided == 0 && first.rerunFrom == "finish" && first.count == 1;
    assert runs[0].result == env.run(1) && first.failed && first.lastRunId == None;
    assert EntryFits(history, 1, runs, decisions, "finish", 2, env);
    var second := history[1];
    assert history[..1] == [first] && [first][..0] == [];
    assert second.first == 1 && second.decided == 0 && second.rerunFrom == "finish" && second.count == 1;
    assert runs[1].result == env.run(2) && !second.failed;
    assert FailureUpdates([first]) == FailureUpdates([]) + [Update(FailedSession, None)];
    assert history[..|history| - 1] == [first];
  }

  lemma FinishIsLast()
    ensures RerunIndex("finish", "finish") == 5 && |STAGE_ORDER[5..]| == 1
  {
    SuffixEnds(0);
    assert forall k | 0 <= k < 6 :: STAGE_ORDER[0..][k] == STAGE_ORDER[k];
    forall fallback: nat
      ensures IndexOr("finish", fallback, 0) == 5
    {
      assert IndexOr("finish", fallback, 5) == 5;
      assert IndexOr("finish", fallback, 4) == 5;
      assert IndexOr("finish", fallback, 3) == 5;
      assert IndexOr("finish", fallback, 2) == 5;
      assert IndexOr("finish", fallback, 1) == 5;
    }
  }

  lemma NothingYet(startStage: string, maxIterations: nat, env: Environment)
    ensures HistoryFits([], [], [], startStage, maxIterations, env) && Best(WnsOf([])) == None
    ensures RunsBefore([]) == 0 && Decided([], maxIterations, env) == [] && FailureUpdates([]) == []
    ensures RerunFrom([], startStage) == startStage && ResultsFrom([], env)
  {
  }

  lemma HistoryCounts(history: seq<Iteration>, runs: seq<StageRun>, decisions: seq<Decision>, startStage: string,
                      maxIterations: nat, env: Environment)
    requires HistoryFits(history, runs, decisions, startStage, maxIterations, env)
    ensures RunsBefore(history) == |runs|
  {
  }

  lemma RerunAtBottleneck(decisions: seq<Decision>, startStage: string)
    requires decisions != []
    ensures RerunFrom(decisions, startStage) == decisions[|decisions| - 1].bottleneck
  {
  }

  /** Failure updates only ever mark the session failed. */
  lemma {:induction false} LastFailure(history: seq<Iteration>)
    ensures forall u | u in FailureUpdates(history) :: u == Update(FailedSession, None)
    ensures FailureUpdates(history) != [] ==>
              FailureUpdates(history)[|FailureUpdates(history)| - 1].status == FailedSession
    decreases |history|
  {
    if history != [] {
      LastFailure(history[..|history| - 1]);
    }
  }
}
