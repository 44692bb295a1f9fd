/** The stateful side of inference: stored inference records, and confirmations that feed them back into the weights. */
module Diagnosis {
  import opened Rules
  import opened Weights
  import opened Engine
  import opened Learning

  class InferenceStore {
    const weights: RuleWeights
    /** Rows of root_cause_inferences: the hypotheses reported under each id. */
    var records: map<int, seq<Hypothesis>>
    /** The cause an engineer or a tuning loop confirmed for them. */
    var chosen: map<int, string>
    var nextId: nat

    ghost predicate Valid()
      reads this
    {
      nextId > 0 && forall id | id in records :: 0 < id < nextId
    }

    constructor (weights: RuleWeights)
      ensures Valid() && this.weights == weights && records == map[] && chosen == map[]
    {
      this.weights := weights;
      records, chosen := map[], map[];
      nextId := 1;
    }

    /** Infer on the current weights and store the report under a new id; the id is -1 when that fails. */
    method Diagnose(rules: seq<Rule>, fv: FeatureVector, saved: bool) returns (id: int, hypotheses: seq<Hypothesis>)
      requires Valid()
      modifies this
      ensures Valid() && chosen == old(chosen)
      ensures id == -1 || id > 0
      ensures saved <==> id > 0
      ensures id !in old(records) && records == if saved then old(records)[id := hypotheses] else old(records)
      ensures hypotheses == Report(rules, fv, weights.table)
      ensures CauseIds(hypotheses) == Shown(rules, fv, weights.table)
    {
      hypotheses := Infer(rules, fv, weights.table);
      id := -1;
      if saved {
        id := nextId;
        records := records[id := hypotheses];
        nextId := nextId + 1;
      }
    }

    /** Feed the stored report back; an unknown id changes nothing. */
    method Confirm(id: int, cause: string) returns (known: bool)
      requires Valid()
      modifies this`chosen, weights
      ensures Valid() && known == (id in records)
      ensures chosen == if known then old(chosen)[id := cause] else old(chosen)
      ensures weights.table ==
                if known then Feedback(old(weights.table), cause, CauseIds(records[id]), DELTA) else old(weights.table)
    {
      known := id in records;
      if known {
        chosen := chosen[id := cause];
        var _ := weights.UpdateWeights(cause, CauseIds(records[id]), DELTA);
      }
    }

    /** Diagnosing and confirming the rule at position c, as often as asked, runs the system of module Learning. */
    method TrainOn(rules: seq<Rule>, fv: FeatureVector, c: nat, rounds: nat)
      requires Valid() && c < |rules|
      modifies this, weights
      ensures Valid()
      ensures weights.table == Rounds(rules, fv, c, DELTA, old(weights.table), rounds)
    {
      hide Shown, Feedback;
      for n := 0 to rounds
        invariant Valid()
        invariant Rounds(rules, fv, c, DELTA, weights.table, rounds - n) ==
                  Rounds(rules, fv, c, DELTA, old(weights.table), rounds)
      {
        var id, _ := Diagnose(rules, fv, true);
        var _ := Confirm(id, rules[c].id);
      }
    }
  }
}
