/** Feedback learning: one multiplier per rule, moved after every confirmation by an engineer. */
module Weights {
  import opened Wrappers

  const DELTA := 0.05
  const MIN_MULTIPLIER := 0.10
  const MAX_MULTIPLIER := 2.00

  /** The stored multipliers; a rule without a row has multiplier 1. */
  type Multipliers = map<string, real>

  function Get(m: Multipliers, id: string): real {
    if id in m then m[id] else 1.0
  }

  function Clamp(v: real): real {
    var capped := if v < MAX_MULTIPLIER then v else MAX_MULTIPLIER;
    if capped > MIN_MULTIPLIER then capped else MIN_MULTIPLIER
  }

  /** How one confirmation moves the rule id, given the ranked ids that were shown; None when it leaves it alone. */
  function Change(confirmed: string, shown: seq<string>, delta: real, id: string): Option<real> {
    if id == confirmed then Some(delta)
    else if shown == [] || confirmed == shown[0] then None
    else if confirmed in shown then if id == shown[0] then Some(-delta) else None
    else if id in shown then Some(-delta / 2.0)
    else None
  }

  /** The rows a confirmation writes. */
  function Updates(m: Multipliers, confirmed: string, shown: seq<string>, delta: real): Multipliers {
    map id | id in {confirmed} + (set x | x in shown) && Change(confirmed, shown, delta, id).Some?
      :: Clamp(Get(m, id) + Change(confirmed, shown, delta, id).value)
  }

  lemma UpdatesWhenNotShown(m: Multipliers, confirmed: string, shown: seq<string>, delta: real)
    requires shown != [] && confirmed !in shown
    ensures forall id :: id in Updates(m, confirmed, shown, delta) <==> id == confirmed || id in shown
    ensures Updates(m, confirmed, shown, delta)[confirmed] == Clamp(Get(m, confirmed) + delta)
    ensures forall id | id in shown :: Updates(m, confirmed, shown, delta)[id] == Clamp(Get(m, id) + -delta / 2.0)
  {
  }

  /** The rows that exist afterwards: the confirmed rule, and the shown ones that the confirmation speaks against. */
  lemma RowsWritten(m: Multipliers, confirmed: string, shown: seq<string>, delta: real)
    ensures forall id :: id in Updates(m, confirmed, shown, delta) <==>
              id == confirmed ||
              (id in shown && confirmed != shown[0] && (confirmed in shown ==> id == shown[0]))
  {
  }

  /** A value in bounds is stored as it is, any other one as the bound it exceeds. */
  lemma ClampMeans(v: real)
    ensures 0.10 <= v <= 2.00 ==> Clamp(v) == v
    ensures v < 0.10 ==> Clamp(v) == 0.10
    ensures v > 2.00 ==> Clamp(v) == 2.00
  {
  }

  /** The table after a confirmation. */
  function Feedback(m: Multipliers, confirmed: string, shown: seq<string>, delta: real): Multipliers {
    m + Updates(m, confirmed, shown, delta)
  }

  ghost predicate InBounds(m: Multipliers) {
    forall id | id in m :: MIN_MULTIPLIER <= m[id] <= MAX_MULTIPLIER
  }

  /** The counters after one more confirmation touched the rules ids. */
  function Counted(counts: map<string, nat>, ids: set<string>): map<string, nat> {
    map id | id in counts.Keys + ids :: (if id in counts then counts[id] else 0) + (if id in ids then 1 else 0)
  }

  /** The updates but those still pending. */
  function Written(updates: Multipliers, pending: set<string>): Multipliers {
    map id | id in updates && id !in pending :: updates[id]
  }

  lemma NothingWritten(before: Multipliers, counts: map<string, nat>, updates: Multipliers)
    ensures before + Written(updates, updates.Keys) == before && Written(updates, {}) == updates
    ensures Counted(counts, updates.Keys - updates.Keys) == counts
  {
  }

  lemma PersistNext(before: Multipliers, updates: Multipliers, pending: set<string>, id: string)
    requires id in pending && pending <= updates.Keys
    ensures (before + Written(updates, pending))[id := updates[id]] == before + Written(updates, pending - {id})
  {
  }

  lemma CountNext(before: map<string, nat>, done: set<string>, id: string)
    requires id !in done
    ensures var counts := Counted(before, done);
            counts[id := if id in counts then counts[id] + 1 else 1] == Counted(before, done + {id})
  {
  }

  /** The rule_weights table: the multiplier of a rule, and how many confirmations touched it. */
  class RuleWeights {
    var table: Multipliers
    var confirmCount: map<string, nat>

    constructor ()
      ensures table == map[] && confirmCount == map[]
    {
      table, confirmCount := map[], map[];
    }

    method UpdateWeights(confirmed: string, shown: seq<string>, delta: real) returns (updates: Multipliers)
      modifies this
      ensures updates == Updates(old(table), confirmed, shown, delta)
      ensures table == Feedback(old(table), confirmed, shown, delta)
      ensures confirmCount == Counted(old(confirmCount), updates.Keys)
      ensures forall id :: id in updates <==>
                id == confirmed ||
                (id in shown && confirmed != shown[0] && (confirmed in shown ==> id == shown[0]))
      ensures forall id :: id in confirmCount <==> id in old(confirmCount) || id in updates
      ensures forall id | id in confirmCount ::
                confirmCount[id] == (if id in old(confirmCount) then old(confirmCount)[id] else 0)
                                    + (if id in updates then 1 else 0)
    {
      RowsWritten(table, confirmed, shown, delta);
      hide Adjust, Updates;
      var current := table;
      updates := Adjust(current, map[], confirmed, delta);
      if |shown| == 0 || confirmed == shown[0] {
        UpdatesWhenFirst(current, confirmed, shown, delta);
      } else if confirmed in shown {
        updates := Adjust(current, updates, shown[0], -delta);
        UpdatesWhenShown(current, confirmed, shown, delta);
      } else {
        updates := PenaliseShown(current, updates, confirmed, shown, delta);
      }
      PersistUpdates(updates);
    }

    /** The confirmed rule was not shown at all: every shown rule loses half a step. */
    static method PenaliseShown(current: Multipliers, start: Multipliers, confirmed: string, shown: seq<string>,
                                delta: real)
      returns (updates: Multipliers)
      requires shown != [] && confirmed !in shown
      requires start == Adjust(current, map[], confirmed, delta)
      ensures updates == Updates(current, confirmed, shown, delta)
    {
      updates := start;
      for i := 0 to |shown|
        invariant forall id :: id in updates <==> id == confirmed || id in shown[..i]
        invariant updates[confirmed] == Clamp(Get(current, confirmed) + delta)
        invariant forall id | id in shown[..i] :: updates[id] == Clamp(Get(current, id) + -delta / 2.0)
      {
        updates := Adjust(current, updates, shown[i], -delta / 2.0);
      }
      assert shown[..|shown|] == shown;
      UpdatesWhenNotShown(current, confirmed, shown, delta);
    }

    method PersistUpdates(updates: Multipliers)
      modifies this
      ensures table == old(table) + updates
      ensures confirmCount == Counted(old(confirmCount), updates.Keys)
    {
      hide Written, Counted;
      var pending := updates.Keys;
      NothingWritten(old(table), old(confirmCount), updates);
      while pending != {}
        invariant pending <= updates.Keys
        invariant table == old(table) + Written(updates, pending)
        invariant confirmCount == Counted(old(confirmCount), updates.Keys - pending)
        decreases pending
      {
        var id :| id in pending;
        PersistNext(old(table), updates, pending, id);
        CountNext(old(confirmCount), updates.Keys - pending, id);
        assert updates.Keys - (pending - {id}) == updates.Keys - pending + {id};
        table := table[id := updates[id]];
        confirmCount := confirmCount[id := if id in confirmCount then confirmCount[id] + 1 else 1];
        pending := pending - {id};
      }
      assert updates.Keys - pending == updates.Keys;
    }
  }

  /** Record a new multiplier for id, computed from the multiplier it had before this confirmation. */
  function Adjust(current: Multipliers, updates: Multipliers, id: string, change: real): Multipliers {
    updates[id := Clamp(Get(current, id) + change)]
  }

  lemma UpdatesWhenFirst(m: Multipliers, confirmed: string, shown: seq<string>, delta: real)
    requires shown == [] || confirmed == shown[0]
    ensures Adjust(m, map[], confirmed, delta) == Updates(m, confirmed, shown, delta)
  {
    hide Clamp, Get;
  }

  lemma UpdatesWhenShown(m: Multipliers, confirmed: string, shown: seq<string>, delta: real)
    requires shown != [] && confirmed != shown[0] && confirmed in shown
    ensures Adjust(m, Adjust(m, map[], confirmed, delta), shown[0], -delta) == Updates(m, confirmed, shown, delta)
  {
    hide Clamp, Get;
  }

  /** One confirmation of an arbitrary cause against an arbitrary, possibly outdated, ranked list. */
  datatype Confirmation = Confirmation(confirmed: string, shown: seq<string>, delta: real)

  function Replay(m: Multipliers, events: seq<Confirmation>): Multipliers {
    if events == [] then m
    else
      var before := Replay(m, events[..|events| - 1]);
      var e := events[|events| - 1];
      Feedback(before, e.confirmed, e.shown, e.delta)
  }

  lemma FeedbackInBounds(m: Multipliers, confirmed: string, shown: seq<string>, delta: real)
    requires InBounds(m)
    ensures InBounds(Feedback(m, confirmed, shown, delta))
  {
    hide Change, Get;
  }

  /** Whatever is confirmed, in whatever order, no multiplier ever leaves its bounds. */
  lemma {:induction false} MultipliersStayInBounds(events: seq<Confirmation>)
    ensures InBounds(Replay(map[], events))
  {
    hide Feedback;
    if events != [] {
      var before, e := events[..|events| - 1], events[|events| - 1];
      MultipliersStayInBounds(before);
      FeedbackInBounds(Replay(map[], before), e.confirmed, e.shown, e.delta);
    }
  }

  /**
    The effect of one confirmation on the multipliers as the engine reads them: the confirmed rule moves up by delta,
    no other rule moves up, and a rule moves down exactly when the confirmed one was not shown first:
    the leader by delta when the confirmed one was shown lower, every shown rule by half of delta when it was not shown.
   */
  lemma FeedbackEffect(m: Multipliers, confirmed: string, shown: seq<string>, delta: real, id: string)
    requires delta >= 0.0 && InBounds(m)
    ensures var before, after := Get(m, id), Get(Feedback(m, confirmed, shown, delta), id);
            if id == confirmed then
              after == if before + delta < MAX_MULTIPLIER then before + delta else MAX_MULTIPLIER
            else if shown == [] || shown[0] == confirmed || id !in shown || (confirmed in shown && id != shown[0]) then
              after == before
            else
              var drop := if confirmed in shown then delta else delta / 2.0;
              after == if before - drop > MIN_MULTIPLIER then before - drop else MIN_MULTIPLIER
  {
    var updates := Updates(m, confirmed, shown, delta);
    assert id in updates <==> Change(confirmed, shown, delta, id).Some?;
    assert Get(Feedback(m, confirmed, shown, delta), id) == if id in updates then updates[id] else Get(m, id);
  }
}
