/** Running a slice of the supported stages in order, as one flow session. */
module Flow {
  import opened Wrappers
  import opened Lineage

  /** What the environment does for one stage: an exception, or a saved run. */
  datatype StageOutcome = StageRaised | StageRan(success: bool, runId: int)

  /** The context a run is saved with. */
  datatype RunCall = RunCall(stage: string, stageSeq: nat, parent: Option<int>)

  datatype StageRecord = StageRecord(stage: string, isFinal: bool, success: bool, runId: int)

  datatype SessionUpdate = MarkFailed | MarkCompleted(baseline: int)

  /** How the call ends: an exception, an error dictionary, or a result with an overall status. */
  datatype FlowEnd = FlowRaised | FlowError | FlowResult(success: bool, results: seq<StageRecord>)

  // ----- which stages are requested

  function LowerChar(c: char): char {
    if 'A' <= c <= 'Z' then c - 'A' + 'a' else c
  }

  function Lower(s: string): (r: string)
    ensures |r| == |s|
  {
    seq(|s|, i requires 0 <= i < |s| => LowerChar(s[i]))
  }

  /** Letters of the ASCII alphabet become small, everything else stays. */
  lemma LowerMeans(s: string, k: nat)
    requires k < |s|
    ensures 'A' <= s[k] <= 'Z' ==> Lower(s)[k] == "abcdefghijklmnopqrstuvwxyz"[s[k] as int - 'A' as int]
    ensures s[k] < 'A' || s[k] > 'Z' ==> Lower(s)[k] == s[k]
  {
  }

  /** The first position of x, or None. */
  function IndexOf(xs: seq<string>, x: string): (i: Option<nat>)
    ensures i.Some? ==> i.value < |xs| && xs[i.value] == x && forall k | 0 <= k < i.value :: xs[k] != x
    ensures i.None? <==> x !in xs
  {
    if xs == [] then None
    else if xs[0] == x then Some(0)
    else
      match IndexOf(xs[1..], x)
      case Some(i) => Some(i + 1)
      case None => None
  }

  /** The stages of a request, or None for a request that is answered with an error. */
  function Requested(supported: seq<string>, stageStart: string, stageEnd: Option<string>): Option<seq<string>> {
    if Lower(stageStart) == "all" then Some(supported)
    else if stageEnd.Some? && stageEnd.value != "" then
      match (IndexOf(supported, Lower(stageStart)), IndexOf(supported, Lower(stageEnd.value)))
      case (Some(lo), Some(hi)) => if lo > hi then None else Some(supported[lo..hi + 1])
      case _ => None
    else if Lower(stageStart) !in supported then None
    else Some([Lower(stageStart)])
  }

  /**
    A request is served exactly if it names everything, or supported stages in flow order; it is a contiguous slice.
   */
  lemma RequestedIsSlice(supported: seq<string>, stageStart: string, stageEnd: Option<string>)
    requires forall i, j | 0 <= i < j < |supported| :: supported[i] != supported[j]
    ensures var r := Requested(supported, stageStart, stageEnd);
            var last := if stageEnd.Some? && stageEnd.value != "" then Lower(stageEnd.value) else Lower(stageStart);
            && (Lower(stageStart) == "all" ==> r == Some(supported))
            && (Lower(stageStart) != "all" ==>
                  (r.Some? <==> exists lo: nat, hi: nat ::
                     lo <= hi < |supported| && supported[lo] == Lower(stageStart) && supported[hi] == last))
            && (Lower(stageStart) != "all" ==>
                  forall lo: nat, hi: nat |
                    lo <= hi < |supported| && supported[lo] == Lower(stageStart) && supported[hi] == last ::
                    r == Some(supported[lo..hi + 1]))
  {
    var r := Requested(supported, stageStart, stageEnd);
    var first := Lower(stageStart);
    if first != "all" && !(stageEnd.Some? && stageEnd.value != "") {
      if first in supported {
        var lo := IndexOf(supported, first).value;
        assert [first] == supported[lo..lo + 1];
      }
    }
  }

  // ----- running them

  function RunIds(results: seq<StageRecord>): seq<int> {
    seq(|results|, i requires 0 <= i < |results| => results[i].runId)
  }

  function Record(stages: seq<string>, k: nat, ran: StageOutcome): StageRecord
    requires k < |stages| && ran.StageRan?
  {
    StageRecord(stages[k], stages[k] == stages[|stages| - 1], ran.success, ran.runId)
  }

  /** The results are those of the first stages, in order. */
  ghost predicate ResultsFit(stages: seq<string>, outcome: nat -> StageOutcome, results: seq<StageRecord>) {
    && |results| <= |stages|
    && forall k {:trigger results[k]} | 0 <= k < |results| ::
         outcome(k).StageRan? && results[k] == Record(stages, k, outcome(k))
  }

  /** Each run was started with its number and with the previous run as parent. */
  ghost predicate CallsFit(stages: seq<string>, results: seq<StageRecord>, calls: seq<RunCall>) {
    && |results| <= |calls| <= |results| + 1 && |calls| <= |stages|
    && forall k {:trigger calls[k]} | 0 <= k < |calls| ::
         calls[k] == RunCall(stages[k], k + 1, if k == 0 then None else Some(results[k - 1].runId))
  }

  /** The first stages ran one after another, each saved with its number and with the previous run as parent. */
  ghost predicate RanInOrder(stages: seq<string>, outcome: nat -> StageOutcome, results: seq<StageRecord>,
                             calls: seq<RunCall>)
  {
    ResultsFit(stages, outcome, results) && CallsFit(stages, results, calls)
  }

  /**
    Stage k was run as number k + 1 on top of the run of the stage before, and reported as it went, marked as final if
    it is the last one requested.
   */
  ghost predicate StageMeans(stages: seq<string>, outcome: nat -> StageOutcome, k: nat, r: StageRecord, call: RunCall)
    requires k < |stages|
  {
    && outcome(k).StageRan?
    && r.stage == stages[k] && r.success == outcome(k).success && r.runId == outcome(k).runId
    && r.isFinal == (stages[k] == stages[|stages| - 1])
    && call.stage == stages[k] && call.stageSeq == k + 1
    && if k == 0 then call.parent == None
       else outcome(k - 1).StageRan? && call.parent == Some(outcome(k - 1).runId)
  }

  lemma StagesMean(stages: seq<string>, outcome: nat -> StageOutcome, results: seq<StageRecord>, calls: seq<RunCall>)
    requires RanInOrder(stages, outcome, results, calls) && |calls| == |results|
    ensures |calls| <= |stages|
    ensures forall k | 0 <= k < |calls| :: StageMeans(stages, outcome, k, results[k], calls[k])
  {
    forall k | 0 <= k < |calls|
      ensures StageMeans(stages, outcome, k, results[k], calls[k])
    {
      var r, call := results[k], calls[k];
      assert k > 0 ==> results[k - 1] == Record(stages, k - 1, outcome(k - 1));
    }
  }

  lemma RanNothing(stages: seq<string>, outcome: nat -> StageOutcome)
    ensures RanInOrder(stages, outcome, [], [])
  {
  }

  lemma CallNext(stages: seq<string>, outcome: nat -> StageOutcome, results: seq<StageRecord>, calls: seq<RunCall>,
                 call: RunCall)
    requires RanInOrder(stages, outcome, results, calls) && |results| == |calls| < |stages|
    requires call == RunCall(stages[|calls|], |calls| + 1,
                             if results == [] then None else Some(results[|results| - 1].runId))
    ensures RanInOrder(stages, outcome, results, calls + [call])
  {
    hide ResultsFit;
    var calls' := calls + [call];
    forall k | 0 <= k < |calls'|
      ensures calls'[k] == RunCall(stages[k], k + 1, if k == 0 then None else Some(results[k - 1].runId))
    {
      if k < |calls| {
        assert calls'[k] == calls[k];
      }
    }
  }

  lemma RanNext(stages: seq<string>, outcome: nat -> StageOutcome, results: seq<StageRecord>, calls: seq<RunCall>)
    requires RanInOrder(stages, outcome, results, calls) && |calls| == |results| + 1 && outcome(|results|).StageRan?
    ensures RanInOrder(stages, outcome, results + [Record(stages, |results|, outcome(|results|))], calls)
  {
    var results' := results + [Record(stages, |results|, outcome(|results|))];
    forall k | 0 <= k < |results'|
      ensures outcome(k).StageRan? && results'[k] == Record(stages, k, outcome(k))
    {
      if k < |results| {
        assert results'[k] == results[k];
      }
    }
    forall k | 0 <= k < |calls|
      ensures calls[k] == RunCall(stages[k], k + 1, if k == 0 then None else Some(results'[k - 1].runId))
    {
      assert k > 0 ==> results'[k - 1] == results[k - 1];
    }
  }

  /** Stages stop at the first one that fails. */
  ghost predicate StopsAtFailure(stages: seq<string>, results: seq<StageRecord>) {
    && (forall k | 0 <= k < |results| - 1 :: results[k].success)
    && (results != [] && results[|results| - 1].success ==> |results| == |stages|)
  }

  /** Every requested stage runs and succeeds. */
  ghost predicate AllSucceed(stages: seq<string>, outcome: nat -> StageOutcome) {
    forall k | 0 <= k < |stages| :: outcome(k).StageRan? && outcome(k).success
  }

  /** The results of the stages from k on, up to the first that fails or raises. */
  function ResultsFrom(stages: seq<string>, outcome: nat -> StageOutcome, k: nat): seq<StageRecord>
    requires k <= |stages|
    decreases |stages| - k
  {
    if k == |stages| || outcome(k).StageRaised? then []
    else [Record(stages, k, outcome(k))] + if outcome(k).success then ResultsFrom(stages, outcome, k + 1) else []
  }

  /** A stage raises before any fails. */
  predicate RaisesFrom(stages: seq<string>, outcome: nat -> StageOutcome, k: nat)
    requires k <= |stages|
    decreases |stages| - k
  {
    k < |stages| && (outcome(k).StageRaised? || (outcome(k).success && RaisesFrom(stages, outcome, k + 1)))
  }

  /** The results of a loop that ended are determined by the outcomes. */
  lemma {:induction false} ResultsDetermined(stages: seq<string>, outcome: nat -> StageOutcome,
                                             results: seq<StageRecord>, calls: seq<RunCall>, k: nat)
    requires RanInOrder(stages, outcome, results, calls) && StopsAtFailure(stages, results) && results != []
    requires k < |results|
    ensures results[k..] == ResultsFrom(stages, outcome, k) && !RaisesFrom(stages, outcome, k)
    decreases |results| - k
  {
    var r := results[k];
    if k + 1 < |results| {
      ResultsDetermined(stages, outcome, results, calls, k + 1);
      assert results[k..] == [results[k]] + results[k + 1..];
    } else {
      assert results[k..] == [results[k]];
    }
  }

  lemma {:induction false} RaiseDetermined(stages: seq<string>, outcome: nat -> StageOutcome,
                                           results: seq<StageRecord>, calls: seq<RunCall>, k: nat)
    requires RanInOrder(stages, outcome, results, calls) && k <= |results| < |stages|
    requires (forall j | 0 <= j < |results| :: results[j].success) && outcome(|results|).StageRaised?
    ensures RaisesFrom(stages, outcome, k)
    decreases |results| - k
  {
    if k < |results| {
      var r := results[k];
      RaiseDetermined(stages, outcome, results, calls, k + 1);
    }
  }

  /** The stage loop up to the first exception or failure. */
  method RunStages(stages: seq<string>, outcome: nat -> StageOutcome)
    returns (raised: bool, results: seq<StageRecord>, calls: seq<RunCall>, edges: seq<(int, int)>,
             updates: seq<SessionUpdate>)
    requires stages != []
    ensures RanInOrder(stages, outcome, results, calls)
    ensures forall k | 0 <= k < |results| - 1 :: results[k].success
    ensures edges == Edges(RunIds(results))
    ensures raised ==> |results| < |stages| && outcome(|results|).StageRaised? && |calls| == |results| + 1
    ensures raised ==> updates == [] && forall k | 0 <= k < |results| :: results[k].success
    ensures !raised ==> results != [] && StopsAtFailure(stages, results) && |calls| == |results|
    ensures !raised ==> updates == if results[|results| - 1].success then [] else [MarkFailed]
  {
    hide RanInOrder, Edges;
    RanNothing(stages, outcome);
    results, calls, edges, updates := [], [], [], [];
    EdgesSnoc([], 0);
    var prevRunId: Option<int> := None;
    for i := 0 to |stages|
      invariant |results| == i && |calls| == i && RanInOrder(stages, outcome, results, calls)
      invariant forall k | 0 <= k < i :: results[k].success
      invariant prevRunId == if i == 0 then None else Some(results[i - 1].runId)
      invariant edges == Edges(RunIds(results)) && updates == []
    {
      CallNext(stages, outcome, results, calls, RunCall(stages[i], i + 1, prevRunId));
      calls := calls + [RunCall(stages[i], i + 1, prevRunId)];
      var stageResult := outcome(i);
      if stageResult.StageRaised? {
        return true, results, calls, edges, updates;
      }
      var sourceRunId, runId := prevRunId, stageResult.runId;
      prevRunId := Some(runId);
      ghost var before := RunIds(results);
      RanNext(stages, outcome, results, calls);
      results := results + [Record(stages, i, stageResult)];
      assert RunIds(results) == before + [runId];
      EdgesSnoc(before, runId);
      if sourceRunId.Some? {
        edges := edges + [(sourceRunId.value, runId)];
      }
      if !stageResult.success {
        updates := [MarkFailed];
        return false, results, calls, edges, updates;
      }
    }
    raised := false;
  }

  /** Once the loop has ended without an exception, the results tell whether every requested stage succeeded. */
  lemma LastDecides(stages: seq<string>, outcome: nat -> StageOutcome, results: seq<StageRecord>, calls: seq<RunCall>)
    requires results != [] && |calls| == |results|
    requires RanInOrder(stages, outcome, results, calls) && StopsAtFailure(stages, results)
    ensures (forall k | 0 <= k < |results| :: results[k].success) <==> AllSucceed(stages, outcome)
    ensures (forall k | 0 <= k < |results| :: results[k].success) <==> results[|results| - 1].success
    ensures results[|results| - 1].success ==> results[|results| - 1].stage == stages[|stages| - 1]
  {
    forall k | 0 <= k < |results|
      ensures outcome(k).StageRan? && outcome(k).success == results[k].success && results[k].stage == stages[k]
    {
      var r := results[k];
    }
  }

  lemma RaisedMeansNotAll(stages: seq<string>, outcome: nat -> StageOutcome, k: nat)
    requires k < |stages| && outcome(k).StageRaised?
    ensures !AllSucceed(stages, outcome)
  {
  }

  /**
    The synchronous flow. outcome gives what happens to the stage at each position of the request; calls are the runs
    started, edges the decision traces, updates the changes of the session status. On a normal return the session is
    closed by exactly one update, as completed if and only if every requested stage ran and succeeded.
   */
  method RunFlow(supported: seq<string>, stageStart: string, stageEnd: Option<string>, outcome: nat -> StageOutcome)
    returns (end: FlowEnd, calls: seq<RunCall>, edges: seq<(int, int)>, updates: seq<SessionUpdate>)
    ensures var request := Requested(supported, stageStart, stageEnd);
            && (end == FlowError <==> request.None?)
            && (end == FlowError ==> calls == [] && edges == [] && updates == [])
            && (end == FlowRaised ==>
                  request.Some? && updates == [] && (request.value == [] || !AllSucceed(request.value, outcome)))
            && (end == FlowRaised <==>
                  request.Some? && (request.value == [] || RaisesFrom(request.value, outcome, 0)))
            && (end.FlowResult? ==>
                  && request.Some? && end.results != []
                  && RanInOrder(request.value, outcome, end.results, calls) && |calls| == |end.results|
                  && StopsAtFailure(request.value, end.results)
                  && end.results == ResultsFrom(request.value, outcome, 0)
                  && edges == Edges(RunIds(end.results))
                  && (end.success <==> AllSucceed(request.value, outcome))
                  && updates == [if end.success then MarkCompleted(end.results[|end.results| - 1].runId)
                                 else MarkFailed])
    ensures end.FlowResult? ==>
              var stages := Requested(supported, stageStart, stageEnd).value;
              && |calls| == |end.results| <= |stages|
              && forall k | 0 <= k < |calls| :: StageMeans(stages, outcome, k, end.results[k], calls[k])
  {
    hide RanInOrder, StopsAtFailure, AllSucceed, Requested, StageMeans, RaisesFrom, ResultsFrom;
    calls, edges, updates := [], [], [];
    var request := Requested(supported, stageStart, stageEnd);
    if request.None? {
      return FlowError, calls, edges, updates;
    }
    var stages := request.value;
    if |stages| == 0 {
      return FlowRaised, calls, edges, updates;
    }
    var raised, results;
    raised, results, calls, edges, updates := RunStages(stages, outcome);
    if raised {
      RaisedMeansNotAll(stages, outcome, |results|);
      RaiseDetermined(stages, outcome, results, calls, 0);
      return FlowRaised, calls, edges, updates;
    }
    LastDecides(stages, outcome, results, calls);
    ResultsDetermined(stages, outcome, results, calls, 0);
    StagesMean(stages, outcome, results, calls);
    assert results[0..] == results;
    var last := results[|results| - 1];
    var allSuccess := forall k | 0 <= k < |results| :: results[k].success;
    if allSuccess && last.stage == stages[|stages| - 1] {
      updates := updates + [MarkCompleted(last.runId)];
    }
    end := FlowResult(allSuccess, results);
  }
}
