/** What both tuning loops record, and the running best they keep. */
module Tuning {
  import opened Wrappers

  type Params = map<string, string>

  /** The result of one stage run. */
  datatype RunResult = RunResult(success: bool, runId: Option<int>)

  datatype SessionStatus = CompletedSession | FailedSession

  datatype Update = Update(status: SessionStatus, baseline: Option<int>)

  /** The largest value among the recorded ones, if there is any. */
  function Best(wns: seq<Option<real>>): Option<real> {
    if wns == [] then None
    else
      var last, before := wns[|wns| - 1], Best(wns[..|wns| - 1]);
      if last.Some? && Improves(last.value, before) then last else before
  }

  predicate Improves(x: real, best: Option<real>) {
    best.None? || x > best.value
  }

  /** Best is a maximum: recorded, and not exceeded by anything recorded. */
  lemma {:induction false} BestIsMaximum(wns: seq<Option<real>>)
    ensures Best(wns).None? <==> forall k | 0 <= k < |wns| :: wns[k].None?
    ensures Best(wns).Some? ==>
              && Best(wns) in wns
              && forall k | 0 <= k < |wns| && wns[k].Some? :: wns[k].value <= Best(wns).value
    decreases |wns|
  {
    if wns != [] {
      var front := wns[..|wns| - 1];
      BestIsMaximum(front);
      assert forall k | 0 <= k < |front| :: front[k] == wns[k];
      assert forall x | x in front :: x in wns;
    }
  }

  /** A value improves the running best exactly if it exceeds every value recorded so far. */
  lemma ImprovesMeans(wns: seq<Option<real>>, x: real)
    ensures Improves(x, Best(wns)) <==> forall k | 0 <= k < |wns| && wns[k].Some? :: x > wns[k].value
  {
    BestIsMaximum(wns);
    if Best(wns).Some? {
      var k :| 0 <= k < |wns| && wns[k] == Best(wns);
    }
  }
}
