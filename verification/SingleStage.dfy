/**
  The single-stage tuning loop: run, measure, stop at the target or the first failure, else run the next suggestion.
 */
module SingleStage {
  import opened Lineage
  import opened Tuning
  import opened Wrappers

  /**
    The environment by iteration: the run, its slack if one is reported, whether the target is met, and the filtered
    suggestion, which depends on whether it was asked with the remark that the last parameters did not improve the
    slack.
   */
  datatype Environment = Environment(run: nat -> RunResult, wns: nat -> Option<real>, targetMet: nat -> bool,
                                     suggest: (nat, bool) -> Params)

  datatype Record = Record(iteration: nat, params: Params, parent: Option<int>, run: RunResult, wns: Option<real>,
                           improved: bool, targetMet: bool)

  predicate Ran(r: Record) {
    r.run.success && r.run.runId.Some?
  }

  function WnsOf(history: seq<Record>): seq<Option<real>> {
    seq(|history|, i requires 0 <= i < |history| => history[i].wns)
  }

  /** The ids of the runs that went through, in order. */
  function Ids(history: seq<Record>): seq<int> {
    if history == [] then []
    else
      var last := history[|history| - 1];
      Ids(history[..|history| - 1]) + if Ran(last) then [last.run.runId.value] else []
  }

  predicate Met(history: seq<Record>) {
    history != [] && history[|history| - 1].targetMet
  }

  /**
    Record k: run k + 1 on top of the run before, with nothing or with what was suggested after it, the suggestion being
    asked with the remark exactly if the run before, not the first one, did not improve the best slack.
   */
  ghost predicate Fits(history: seq<Record>, k: nat, env: Environment)
    requires k < |history|
  {
    var r := history[k];
    && r.iteration == k + 1 && r.run == env.run(k + 1)
    && r.parent == (if k == 0 then None else history[k - 1].run.runId)
    && r.params == (if k == 0 then map[] else env.suggest(k, k > 1 && !history[k - 1].improved))
    && r.wns == (if r.run.success && r.run.runId.Some? then env.wns(k + 1) else None)
    && r.improved == (r.wns.Some? && Improves(r.wns.value, Best(WnsOf(history[..k]))))
    && r.targetMet == (r.run.success && r.run.runId.Some? && env.targetMet(k + 1))
  }

  /** Record k improved on all before it exactly if its slack is larger than every one recorded before. */
  ghost predicate ImprovedFits(history: seq<Record>, k: nat)
    requires k < |history|
  {
    history[k].improved <==>
      history[k].wns.Some? &&
      forall j | 0 <= j < k && history[j].wns.Some? :: history[k].wns.value > history[j].wns.value
  }

  lemma ImprovedMeans(history: seq<Record>, env: Environment)
    requires AllFit(history, env)
    ensures forall k | 0 <= k < |history| :: ImprovedFits(history, k)
  {
    hide Best, Improves;
    forall k | 0 <= k < |history|
      ensures ImprovedFits(history, k)
    {
      assert Fits(history, k, env);
      assert |WnsOf(history[..k])| == k && forall j | 0 <= j < k :: WnsOf(history[..k])[j] == history[j].wns;
      if history[k].wns.Some? {
        ImprovesMeans(WnsOf(history[..k]), history[k].wns.value);
      }
    }
  }

  /** The edges join the runs of neighbouring records, as far as these went through. */
  lemma {:induction false} IdsMean(history: seq<Record>)
    requires forall k | 0 <= k < |history| - 1 :: history[k].run.success && history[k].run.runId.Some?
    ensures |Ids(history)| == if history == [] || Ran(history[|history| - 1]) then |history| else |history| - 1
    ensures forall k | 0 <= k < |Ids(history)| :: history[k].run.runId == Some(Ids(history)[k])
    decreases |history|
  {
    if history != [] {
      var front := history[..|history| - 1];
      assert forall k | 0 <= k < |front| :: front[k] == history[k];
      IdsMean(front);
    }
  }

  lemma TracesMean(history: seq<Record>)
    requires forall k | 0 <= k < |history| - 1 :: history[k].run.success && history[k].run.runId.Some?
    ensures var n := if history == [] then 0
                     else if history[|history| - 1].run.success && history[|history| - 1].run.runId.Some?
                     then |history| else |history| - 1;
            && |Edges(Ids(history))| == (if n == 0 then 0 else n - 1)
            && forall k {:trigger Edges(Ids(history))[k]} | 0 <= k < n - 1 ::
                 history[k].run.runId.Some? && history[k + 1].run.runId.Some? &&
                 Edges(Ids(history))[k] == (history[k].run.runId.value, history[k + 1].run.runId.value)
  {
    IdsMean(history);
  }

  ghost predicate AllFit(history: seq<Record>, env: Environment) {
    forall k | 0 <= k < |history| :: Fits(history, k, env)
  }

  lemma FitsExtend(history: seq<Record>, r: Record, env: Environment)
    requires AllFit(history, env) && Fits(history + [r], |history|, env)
    ensures AllFit(history + [r], env)
  {
    hide Best, Ran;
    forall k | 0 <= k < |history|
      ensures Fits(history + [r], k, env)
    {
      assert Fits(history, k, env) && (history + [r])[..k] == history[..k];
    }
  }

  lemma RecordNext(history: seq<Record>, r: Record)
    ensures Best(WnsOf(history + [r])) ==
              if r.wns.Some? && Improves(r.wns.value, Best(WnsOf(history))) then r.wns else Best(WnsOf(history))
    ensures Ids(history + [r]) == Ids(history) + if Ran(r) then [r.run.runId.value] else []
  {
    var next := history + [r];
    assert next[..|history|] == history;
    assert WnsOf(next) == WnsOf(history) + [r.wns];
    assert WnsOf(next)[..|history|] == WnsOf(history);
  }

  /** Every run so far went through and missed the target, and best and traces describe them. */
  ghost predicate Going(history: seq<Record>, best: Option<real>, traces: seq<(int, int)>, env: Environment) {
    && AllFit(history, env)
    && (forall k | 0 <= k < |history| :: Ran(history[k]) && !history[k].targetMet)
    && best == Best(WnsOf(history)) && traces == Edges(Ids(history))
  }

  function LastRunId(history: seq<Record>): Option<int> {
    if history == [] then None else history[|history| - 1].run.runId
  }

  function NextParams(history: seq<Record>, env: Environment): Params {
    if history == [] then map[]
    else env.suggest(|history|, |history| > 1 && !history[|history| - 1].improved)
  }

  lemma NoEdges()
    ensures Edges([]) == []
  {
  }

  /** What recording one more run does. */
  lemma Recorded(history: seq<Record>, best: Option<real>, traces: seq<(int, int)>, r: Record, env: Environment)
    requires Going(history, best, traces, env)
    requires r.iteration == |history| + 1 && r.run == env.run(|history| + 1)
    requires r.parent == LastRunId(history) && r.params == NextParams(history, env)
    requires r.wns == (if Ran(r) then env.wns(|history| + 1) else None)
    requires r.improved == (r.wns.Some? && Improves(r.wns.value, best))
    requires r.targetMet == (Ran(r) && env.targetMet(|history| + 1))
    ensures var next := history + [r];
            && AllFit(next, env)
            && Best(WnsOf(next)) == (if r.improved then r.wns else best)
            && Edges(Ids(next)) ==
               (if Ran(r) && history != [] then traces + [(LastRunId(history).value, r.run.runId.value)] else traces)
  {
    hide Best, Edges;
    assert (history + [r])[..|history|] == history;
    assert Fits(history + [r], |history|, env);
    FitsExtend(history, r, env);
    RecordNext(history, r);
    EdgesSnoc(Ids(history), if Ran(r) then r.run.runId.value else 0);
    assert Ids(history) + [] == Ids(history);
    NoEdges();
  }

  /**
    One tuning run. Every run hangs below the one before, and the recorded decisions are exactly the pairs of
    consecutive runs; only the last record can have failed or met the target; the best slack is the maximum of the
    recorded ones; and the session is closed exactly once, as completed if and only if the target was met.
   */
  method Tune(maxIterations: nat, env: Environment)
    returns (history: seq<Record>, best: Option<real>, traces: seq<(int, int)>, updates: seq<Update>, met: bool)
    ensures AllFit(history, env) && |history| <= maxIterations
    ensures forall k | 0 <= k < |history| - 1 :: Ran(history[k]) && !history[k].targetMet
    ensures |history| == maxIterations || Met(history) || (history != [] && !Ran(history[|history| - 1]))
    ensures best == Best(WnsOf(history)) && forall k | 0 <= k < |history| :: ImprovedFits(history, k)
    ensures traces == Edges(Ids(history))
    ensures updates == [if Met(history) then Update(CompletedSession, history[|history| - 1].run.runId)
                        else Update(FailedSession, None)]
    ensures met == Met(history)
  {
    hide Best, AllFit, WnsOf, Ids, Edges, ImprovedFits;
    history, best, traces, updates := [], None, [], [];
    var params: Params := map[];
    var prevRunId, pending: Option<int> := None, None;
    var targetReached, sessionFailed := false, false;
    NothingRecorded(env);
    for i := 1 to maxIterations + 1
      invariant Going(history, best, traces, env) && |history| == i - 1 && updates == []
      invariant prevRunId == LastRunId(history)
      invariant i <= maxIterations ==> pending == prevRunId && params == NextParams(history, env)
      invariant !targetReached && !sessionFailed
    {
      var run := env.run(i);
      if !run.success || run.runId.None? {
        var r := Record(i, params, prevRunId, run, None, false, false);
        Recorded(history, best, traces, r, env);
        history := history + [r];
        sessionFailed := true;
        updates := updates + [Update(FailedSession, None)];
        break;
      }
      var wns := env.wns(i);
      var improved := wns.Some? && Improves(wns.value, best);
      var r := Record(i, params, prevRunId, run, wns, improved, env.targetMet(i));
      Recorded(history, best, traces, r, env);
      if pending.Some? {
        traces := traces + [(pending.value, run.runId.value)];
        pending := None;
      }
      prevRunId := run.runId;
      if improved {
        best := wns;
      }
      history := history + [r];
      if r.targetMet {
        updates := updates + [Update(CompletedSession, run.runId)];
        targetReached := true;
        break;
      }
      if i < maxIterations {
        params := env.suggest(i, i > 1 && !improved);
        pending := run.runId;
      }
    }
    if !targetReached && !sessionFailed {
      updates := updates + [Update(FailedSession, None)];
    }
    ImprovedMeans(history, env);
    met := exists k :: 0 <= k < |history| && history[k].targetMet;
  }

  lemma NothingRecorded(env: Environment)
    ensures Going([], None, [], env)
  {
  }
}
