/** What the job store does in one go, as steps of the protocol. */
module Sweeping {
  import opened Jobs
  import opened Protocol
  import opened Wrappers

  /** The writes of one sweep, entry after entry. */
  function Writes(client: nat, order: seq<(JobId, nat)>, now: nat): seq<Step> {
    if order == [] then [] else [SweepWrite(client, order[0].0, order[0].1, now)] + Writes(client, order[1..], now)
  }

  /** order lists, each once, the entries read whose worker is not found. */
  ghost predicate ListsStale(order: seq<(JobId, nat)>, read: set<(JobId, nat)>, dead: set<nat>) {
    && (forall j, k | 0 <= j < k < |order| :: order[j] != order[k])
    && forall id: JobId, pid: nat :: (id, pid) in order <==> (id, pid) in read && pid in dead
  }

  /** A sweep reads the running jobs that have a worker, each with that worker. */
  lemma ReadMeans(s: State, client: nat, id: JobId, pid: nat)
    ensures client in Apply(s, SweepRead(client)).sweeps
    ensures (id, pid) in Apply(s, SweepRead(client)).sweeps[client] <==>
            id in s.rows && s.rows[id].status == Running && s.rows[id].workerPid == Some(pid)
  {
  }

  /** order lists different jobs of the table, which the sweep of client has read. */
  ghost predicate CanWrite(s: State, client: nat, order: seq<(JobId, nat)>) {
    && client in s.sweeps
    && (forall k | 0 <= k < |order| :: order[k] in s.sweeps[client] && order[k].0 in s.rows)
    && forall j, k | 0 <= j < k < |order| :: order[j].0 != order[k].0
  }

  ghost predicate Fails(order: seq<(JobId, nat)>, id: JobId) {
    exists k | 0 <= k < |order| :: order[k].0 == id
  }

  lemma FailsFirst(order: seq<(JobId, nat)>, id: JobId)
    requires order != []
    ensures Fails(order, id) <==> order[0].0 == id || Fails(order[1..], id)
  {
    if k :| 0 <= k < |order| && order[k].0 == id {
      assert k > 0 ==> order[1..][k - 1].0 == id;
    }
    if k :| 0 <= k < |order[1..]| && order[1..][k].0 == id {
      assert order[k + 1].0 == id;
    }
  }

  lemma {:induction false} WritesRun(s: State, client: nat, order: seq<(JobId, nat)>, now: nat)
    requires CanWrite(s, client, order)
    ensures Legal(s, Writes(client, order, now))
    ensures var rows := Exec(s, Writes(client, order, now)).rows;
            && rows.Keys == s.rows.Keys
            && forall id | id in rows ::
                 rows[id] == if Fails(order, id) then s.rows[id].(status := Failed, finishedAt := Some(now))
                             else s.rows[id]
    decreases |order|
  {
    if order != [] {
      var step := SweepWrite(client, order[0].0, order[0].1, now);
      var s' := Apply(s, step);
      assert order[0] in s.sweeps[client];
      assert s'.rows == s.rows[order[0].0 := s.rows[order[0].0].(status := Failed, finishedAt := Some(now))];
      forall k | 0 <= k < |order[1..]|
        ensures order[1..][k] in s'.sweeps[client] && order[1..][k].0 in s'.rows && order[1..][k].0 != order[0].0
      {
        assert order[1..][k] == order[k + 1];
      }
      WritesRun(s', client, order[1..], now);
      hide Apply, Enabled, Fails;
      assert Writes(client, order, now)[1..] == Writes(client, order[1..], now);
      forall id
        ensures Fails(order, id) <==> order[0].0 == id || Fails(order[1..], id)
      {
        FailsFirst(order, id);
      }
      NotAgain(order);
    }
  }

  lemma NotAgain(order: seq<(JobId, nat)>)
    requires order != [] && forall j, k | 0 <= j < k < |order| :: order[j].0 != order[k].0
    ensures !Fails(order[1..], order[0].0)
  {
  }

  /**
    A sweep that nothing interferes with is the read followed by one write for each stale entry it read, in any order:
    this is legal, and it leaves exactly the table in which the running jobs of workers not found have failed.
   */
  lemma SweepIsRun(s: State, client: nat, order: seq<(JobId, nat)>, dead: set<nat>, now: nat, after: Rows)
    requires client in Apply(s, SweepRead(client)).sweeps
    requires ListsStale(order, Apply(s, SweepRead(client)).sweeps[client], dead) && after.Keys == s.rows.Keys
    requires forall id | id in after ::
               var before := s.rows[id];
               after[id] ==
               if before.status == Running && before.workerPid.Some? && before.workerPid.value in dead
               then before.(status := Failed, finishedAt := Some(now)) else before
    ensures Legal(s, [SweepRead(client)] + Writes(client, order, now))
    ensures Exec(s, [SweepRead(client)] + Writes(client, order, now)).rows == after
  {
    hide *;
    var s' := Apply(s, SweepRead(client));
    ReadStale(s, client, order, dead);
    WritesRun(s', client, order, now);
    Then(s, SweepRead(client), Writes(client, order, now));
    forall id | id in after
      ensures Fails(order, id) <==>
              s.rows[id].status == Running && s.rows[id].workerPid.Some? && s.rows[id].workerPid.value in dead
    {
      StaleFails(s, client, order, dead, id);
    }
  }

  lemma ReadStale(s: State, client: nat, order: seq<(JobId, nat)>, dead: set<nat>)
    requires client in Apply(s, SweepRead(client)).sweeps
    requires ListsStale(order, Apply(s, SweepRead(client)).sweeps[client], dead)
    ensures var s' := Apply(s, SweepRead(client)); CanWrite(s', client, order) && s'.rows == s.rows
  {
    var s' := Apply(s, SweepRead(client));
    forall k | 0 <= k < |order|
      ensures order[k] in s'.sweeps[client] && order[k].0 in s'.rows
      ensures s.rows[order[k].0].workerPid == Some(order[k].1)
    {
      assert (order[k].0, order[k].1) in order;
      ReadMeans(s, client, order[k].0, order[k].1);
    }
    forall j, k | 0 <= j < k < |order|
      ensures order[j].0 != order[k].0
    {
      assert order[j] != order[k] && s.rows[order[j].0].workerPid == Some(order[j].1);
    }
  }

  lemma StaleFails(s: State, client: nat, order: seq<(JobId, nat)>, dead: set<nat>, id: JobId)
    requires client in Apply(s, SweepRead(client)).sweeps && id in s.rows
    requires ListsStale(order, Apply(s, SweepRead(client)).sweeps[client], dead)
    ensures Fails(order, id) <==>
            s.rows[id].status == Running && s.rows[id].workerPid.Some? && s.rows[id].workerPid.value in dead
  {
    if Fails(order, id) {
      var k :| 0 <= k < |order| && order[k].0 == id;
      assert (order[k].0, order[k].1) in order;
      ReadMeans(s, client, id, order[k].1);
    }
    if s.rows[id].status == Running && s.rows[id].workerPid.Some? && s.rows[id].workerPid.value in dead {
      ReadMeans(s, client, id, s.rows[id].workerPid.value);
      assert (id, s.rows[id].workerPid.value) in order;
    }
  }

  lemma Then(s: State, step: Step, steps: seq<Step>)
    requires step.SweepRead?
    ensures Exec(s, [step] + steps) == Exec(Apply(s, step), steps)
    ensures Legal(s, [step] + steps) <==> Legal(Apply(s, step), steps)
  {
    assert ([step] + steps)[1..] == steps;
  }

  /**
    The read-then-write cancellation, when nothing interferes, is its two steps: the read goes through exactly if the
    job is pending, and the write behind it leaves the job cancelled, with the note and the time.
   */
  lemma CancelIsRun(s: State, client: nat, id: JobId, now: nat)
    requires client !in s.readers
    ensures Enabled(s, CancelRead(client, id)) <==> id in s.rows && s.rows[id].status == Pending
    ensures id in s.rows && s.rows[id].status == Pending ==>
              var read := Apply(s, CancelRead(client, id));
              && read.rows == s.rows && Enabled(read, CancelWrite(client, now))
              && Apply(read, CancelWrite(client, now)).rows ==
                 s.rows[id := s.rows[id].(status := Cancelled, runDbId := None, errorMessage := "Cancelled by user",
                                          finishedAt := Some(now))]
  {
  }

  /** What a step gives leave for can be done once: a second time it needs another read, claim or submission. */
  lemma StepsAreUsedUp(s: State, step: Step)
    requires Enabled(s, step)
    requires step.Submit? || step.Claim? || step.Finish? || step.CancelRead? || step.CancelWrite? || step.SweepWrite? ||
             step.Reuse?
    ensures !Enabled(Apply(s, step), step)
  {
  }
}
