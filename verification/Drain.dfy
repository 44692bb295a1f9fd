/**
  What a worker's whole run amounts to: nothing twice, oldest first, and nothing left, amid arbitrary other
  participants.
 */
module Drain {
  import opened Jobs
  import opened Protocol
  import opened Store
  import opened Worker
  import opened Wrappers

  /** Whatever any participant of the protocol does to the table is something Persists allows. */
  lemma ProtocolPersists(s: State, step: Step)
    requires Inv(s) && Enabled(s, step)
    ensures Persists(s.rows, Apply(s, step).rows)
  {
    RowsStep(s, step);
    hide Apply, Enabled, Inv;
  }

  lemma PersistsTwice(a: Rows, b: Rows, c: Rows)
    requires Persists(a, b) && Persists(b, c)
    ensures Persists(a, c)
  {
  }

  /** Others keep to what Persists allows. */
  ghost predicate Orderly(s: Surroundings) {
    forall p: nat, rows: Rows :: Persists(rows, s.before(p, rows)) && Persists(rows, s.during(p, rows))
  }

  lemma PollPersists(p: nat, poll: Poll, s: Surroundings, pid: nat, ex: Execution)
    requires Orderly(s) && PollFits(p, poll, s, pid, ex)
    ensures Persists(poll.before, poll.after)
    ensures poll.claimed.Some? ==>
              && poll.claimed.value in poll.before && poll.before[poll.claimed.value].status == Pending
              && poll.claimed.value in poll.after && Terminal(poll.after[poll.claimed.value].status)
  {
    if poll.claimed.Some? {
      var claimed := Claimed(poll.before, poll.claimed.value, pid, s.clock(p));
      var met := s.during(p, claimed);
      assert Persists(claimed, met);
      ClaimSteps(p, poll, s, pid, ex);
      hide PollFits, Persists, Claimed;
      PersistsTwice(poll.before, claimed, met);
      PersistsTwice(poll.before, met, poll.after);
    } else {
      PersistsSelf(poll.before);
    }
  }

  lemma PersistsSelf(rows: Rows)
    ensures Persists(rows, rows)
  {
  }

  lemma TameIsOrderly(s: Surroundings, quiet: nat)
    requires Tame(s.before, quiet) && Tame(s.during, quiet)
    ensures Orderly(s)
  {
  }

  /** What the worker itself does in a poll is no different. */
  lemma ClaimSteps(p: nat, poll: Poll, s: Surroundings, pid: nat, ex: Execution)
    requires PollFits(p, poll, s, pid, ex) && poll.claimed.Some?
    ensures var id, claimed := poll.claimed.value, Claimed(poll.before, poll.claimed.value, pid, s.clock(p));
            var met := s.during(p, claimed);
            && Persists(poll.before, claimed) && claimed.Keys == poll.before.Keys
            && Persists(met, poll.after) && met.Keys == poll.after.Keys
            && id in poll.before && poll.before[id].status == Pending
            && id in poll.after && Terminal(poll.after[id].status)
  {
    hide Accomplished, RunNoted;
  }

  lemma PollAt(log: seq<Poll>, start: Rows, s: Surroundings, pid: nat, ex: Execution, k: nat)
    requires LogFits(log, start, s, pid, ex) && k < |log|
    ensures PollFits(k, log[k], s, pid, ex)
  {
  }

  /** A poll meets what others made of what the poll before left. */
  lemma NextMeets(log: seq<Poll>, start: Rows, s: Surroundings, pid: nat, ex: Execution, k: nat)
    requires LogFits(log, start, s, pid, ex) && 0 < k < |log|
    ensures log[k].before == s.before(k, log[k - 1].after)
    ensures Orderly(s) ==> Persists(log[k - 1].after, log[k].before)
  {
    hide PollFits;
    assert LeftBehind(log[..k], start) == log[k - 1].after;
  }

  /** Between two polls. */
  lemma {:induction false} LogPersists(log: seq<Poll>, start: Rows, s: Surroundings, pid: nat, ex: Execution, j: nat,
                                       k: nat)
    requires Orderly(s) && LogFits(log, start, s, pid, ex) && j < k < |log|
    ensures Persists(log[j].after, log[k].before) && Persists(log[j].before, log[k].before)
    decreases k
  {
    hide *;
    PollAt(log, start, s, pid, ex, j);
    PollAt(log, start, s, pid, ex, k - 1);
    NextMeets(log, start, s, pid, ex, k);
    PollPersists(j, log[j], s, pid, ex);
    var left := log[k - 1].after;
    if j + 1 < k {
      LogPersists(log, start, s, pid, ex, j, k - 1);
      PollPersists(k - 1, log[k - 1], s, pid, ex);
      PersistsTwice(log[j].after, log[k - 1].before, left);
      PersistsTwice(log[j].after, left, log[k].before);
    }
    PersistsTwice(log[j].before, log[j].after, log[k].before);
  }

  /** No job is taken twice. */
  lemma ExecutedOnce(log: seq<Poll>, start: Rows, s: Surroundings, pid: nat, ex: Execution, j: nat, k: nat)
    requires Orderly(s) && LogFits(log, start, s, pid, ex) && j < k < |log|
    requires log[j].claimed.Some? && log[k].claimed.Some?
    ensures log[j].claimed != log[k].claimed
  {
    hide PollFits;
    LogPersists(log, start, s, pid, ex, j, k);
    PollPersists(j, log[j], s, pid, ex);
    PollPersists(k, log[k], s, pid, ex);
  }

  /** Of two jobs taken, the earlier one is not younger, if the later one was in the table by then. */
  lemma OlderFirst(log: seq<Poll>, start: Rows, s: Surroundings, pid: nat, ex: Execution, j: nat, k: nat)
    requires Orderly(s) && LogFits(log, start, s, pid, ex) && j < k < |log|
    requires log[j].claimed.Some? && log[k].claimed.Some? && log[k].claimed.value in log[j].before
    ensures log[j].claimed.value in log[j].before && log[k].claimed.value in log[k].before
    ensures log[j].before[log[j].claimed.value].createdAt <= log[k].before[log[k].claimed.value].createdAt
  {
    LogPersists(log, start, s, pid, ex, j, k);
    assert OldestPending(log[j].before, log[j].claimed.value) && OldestPending(log[k].before, log[k].claimed.value);
  }

  /** New jobs are not older than any that were there. */
  ghost predicate NewAreYounger(rows: Rows, rows': Rows) {
    forall x, y | x in rows && y in rows' && y !in rows :: rows[x].createdAt <= rows'[y].createdAt
  }

  /** Creation times follow arrival. */
  ghost predicate YoungerArrivals(s: Surroundings) {
    forall p: nat, rows: Rows :: NewAreYounger(rows, s.before(p, rows)) && NewAreYounger(rows, s.during(p, rows))
  }

  lemma YoungerTwice(a: Rows, b: Rows, c: Rows)
    requires Persists(a, b) && Persists(b, c) && NewAreYounger(a, b) && NewAreYounger(b, c)
    ensures NewAreYounger(a, c)
  {
    forall x, y | x in a && y in c && y !in a
      ensures a[x].createdAt <= c[y].createdAt
    {
      assert x in b && b[x].createdAt == a[x].createdAt;
      if y in b {
        assert c[y].createdAt == b[y].createdAt;
      }
    }
  }

  lemma SameJobs(a: Rows, b: Rows)
    requires a.Keys == b.Keys
    ensures NewAreYounger(a, b)
  {
  }

  lemma PollYounger(p: nat, poll: Poll, s: Surroundings, pid: nat, ex: Execution)
    requires Orderly(s) && YoungerArrivals(s) && PollFits(p, poll, s, pid, ex)
    ensures NewAreYounger(poll.before, poll.after)
  {
    hide Ended, RunNoted, NewAreYounger;
    if poll.claimed.Some? {
      var claimed := Claimed(poll.before, poll.claimed.value, pid, s.clock(p));
      var met := s.during(p, claimed);
      assert Persists(claimed, met) && NewAreYounger(claimed, met);
      ClaimSteps(p, poll, s, pid, ex);
      hide PollFits, Persists, Claimed;
      SameJobs(poll.before, claimed);
      SameJobs(met, poll.after);
      YoungerTwice(poll.before, claimed, met);
      PersistsTwice(poll.before, claimed, met);
      YoungerTwice(poll.before, met, poll.after);
    } else {
      SameJobs(poll.before, poll.after);
    }
  }

  lemma {:induction false} ArrivalsAreYounger(log: seq<Poll>, start: Rows, s: Surroundings, pid: nat, ex: Execution,
                                              j: nat, k: nat)
    requires Orderly(s) && YoungerArrivals(s) && LogFits(log, start, s, pid, ex) && j < k < |log|
    ensures NewAreYounger(log[j].before, log[k].before)
    decreases k
  {
    hide PollFits, Persists, NewAreYounger;
    var left := log[k - 1].after;
    assert LeftBehind(log[..k], start) == left;
    assert log[k].before == s.before(k, left);
    assert Persists(left, s.before(k, left)) && NewAreYounger(left, s.before(k, left));
    PollYounger(k - 1, log[k - 1], s, pid, ex);
    PollPersists(k - 1, log[k - 1], s, pid, ex);
    YoungerTwice(log[k - 1].before, left, log[k].before);
    PersistsTwice(log[k - 1].before, left, log[k].before);
    if j < k - 1 {
      ArrivalsAreYounger(log, start, s, pid, ex, j, k - 1);
      LogPersists(log, start, s, pid, ex, j, k - 1);
      YoungerTwice(log[j].before, log[k - 1].before, log[k].before);
    }
  }

  /** When creation times follow arrival, the whole run is sorted by them. */
  lemma RunIsSorted(log: seq<Poll>, start: Rows, s: Surroundings, pid: nat, ex: Execution, j: nat, k: nat)
    requires Orderly(s) && YoungerArrivals(s) && LogFits(log, start, s, pid, ex)
    requires j < k < |log| && log[j].claimed.Some? && log[k].claimed.Some?
    ensures log[j].claimed.value in log[j].before && log[k].claimed.value in log[k].before
    ensures log[j].before[log[j].claimed.value].createdAt <= log[k].before[log[k].claimed.value].createdAt
  {
    hide Persists, PollFits, YoungerArrivals, Orderly, LogFits;
    if log[k].claimed.value in log[j].before {
      OlderFirst(log, start, s, pid, ex, j, k);
    } else {
      TakenWasThere(log, start, s, pid, ex, j);
      TakenWasThere(log, start, s, pid, ex, k);
      ArrivalsAreYounger(log, start, s, pid, ex, j, k);
    }
  }

  lemma TakenWasThere(log: seq<Poll>, start: Rows, s: Surroundings, pid: nat, ex: Execution, k: nat)
    requires LogFits(log, start, s, pid, ex) && k < |log| && log[k].claimed.Some?
    ensures log[k].claimed.value in log[k].before
  {
    assert PollFits(k, log[k], s, pid, ex);
  }

  // ----- alone at the queue

  /** Others submit jobs, but leave all jobs in the table alone: nobody else claims, cancels or sweeps. */
  ghost predicate OnlySubmits(others: (nat, Rows) -> Rows) {
    forall p: nat, rows: Rows, id: JobId | id in rows :: id in others(p, rows) && others(p, rows)[id] == rows[id]
  }

  lemma UntouchedByPoll(p: nat, poll: Poll, s: Surroundings, pid: nat, ex: Execution, id: JobId)
    requires OnlySubmits(s.during) && PollFits(p, poll, s, pid, ex) && id in poll.before && poll.claimed != Some(id)
    ensures id in poll.after && poll.after[id] == poll.before[id]
  {
    if poll.claimed.Some? {
      var claimed := Claimed(poll.before, poll.claimed.value, pid, s.clock(p));
      assert claimed[id] == poll.before[id];
      assert s.during(p, claimed)[id] == claimed[id];
    }
  }

  lemma UntouchedBefore(p: nat, rows: Rows, s: Surroundings, id: JobId)
    requires OnlySubmits(s.before) && id in rows
    ensures id in s.before(p, rows) && s.before(p, rows)[id] == rows[id]
  {
  }

  lemma NotIdle(p: nat, poll: Poll, s: Surroundings, pid: nat, ex: Execution, id: JobId)
    requires PollFits(p, poll, s, pid, ex) && id in poll.before && poll.before[id].status == Pending
    ensures poll.claimed.Some?
  {
    assert id in PendingIds(poll.before);
  }

  /** A job that is pending at poll k is taken at some poll from k on, if the log ends idle. */
  lemma {:induction false} TakenLater(log: seq<Poll>, start: Rows, s: Surroundings, pid: nat, ex: Execution, k: nat,
                                      id: JobId)
    returns (m: nat)
    requires OnlySubmits(s.before) && OnlySubmits(s.during) && LogFits(log, start, s, pid, ex)
    requires k < |log| && log[|log| - 1].claimed.None?
    requires id in log[k].before && log[k].before[id].status == Pending
    ensures k <= m < |log| && log[m].claimed == Some(id) && id in log[m].before
    ensures log[m].before[id] == log[k].before[id]
    decreases |log| - k
  {
    hide *;
    PollAt(log, start, s, pid, ex, k);
    if log[k].claimed == Some(id) {
      m := k;
    } else {
      NotIdle(k, log[k], s, pid, ex, id);
      NextMeets(log, start, s, pid, ex, k + 1);
      UntouchedByPoll(k, log[k], s, pid, ex, id);
      UntouchedBefore(k + 1, log[k].after, s, id);
      m := TakenLater(log, start, s, pid, ex, k + 1, id);
    }
  }

  /** A job that is not pending stays as it is. */
  lemma {:induction false} EndedStays(log: seq<Poll>, start: Rows, s: Surroundings, pid: nat, ex: Execution, k: nat,
                                      id: JobId)
    requires OnlySubmits(s.before) && OnlySubmits(s.during) && LogFits(log, start, s, pid, ex) && k < |log|
    requires id in log[k].after && log[k].after[id].status != Pending
    ensures id in log[|log| - 1].after && log[|log| - 1].after[id] == log[k].after[id]
    decreases |log| - k
  {
    if k < |log| - 1 {
      PollAt(log, start, s, pid, ex, k + 1);
      NextMeets(log, start, s, pid, ex, k + 1);
      UntouchedBefore(k + 1, log[k].after, s, id);
      assert log[k + 1].claimed != Some(id);
      hide *;
      UntouchedByPoll(k + 1, log[k + 1], s, pid, ex, id);
      EndedStays(log, start, s, pid, ex, k + 1, id);
    }
  }

  /**
    Alone at the queue a worker that exits has drained it: every job that was pending at any poll was taken by it, and
    has ended as its execution says.
   */
  lemma QueueIsDrained(log: seq<Poll>, start: Rows, s: Surroundings, pid: nat, ex: Execution, k: nat, id: JobId)
    requires OnlySubmits(s.before) && OnlySubmits(s.during) && LogFits(log, start, s, pid, ex)
    requires k < |log| && log[|log| - 1].claimed.None?
    requires id in log[k].before && log[k].before[id].status == Pending
    ensures exists m | k <= m < |log| :: log[m].claimed == Some(id)
    ensures id in log[|log| - 1].after && Ended(id, log[k].before[id], log[|log| - 1].after[id], ex)
    ensures log[|log| - 1].after[id].workerPid == Some(pid)
  {
    hide PollFits, Ended;
    var m := TakenLater(log, start, s, pid, ex, k, id);
    TakenEnds(m, log[m], s, pid, ex, id);
    EndedStays(log, start, s, pid, ex, m, id);
  }

  lemma TakenEnds(p: nat, poll: Poll, s: Surroundings, pid: nat, ex: Execution, id: JobId)
    requires OnlySubmits(s.during) && PollFits(p, poll, s, pid, ex) && poll.claimed == Some(id) && id in poll.before
    ensures id in poll.after && poll.after[id].status != Pending
    ensures Ended(id, poll.before[id], poll.after[id], ex) && poll.after[id].workerPid == Some(pid)
  {
    hide Accomplished;
    var claimed := Claimed(poll.before, id, pid, s.clock(p));
    assert s.during(p, claimed)[id] == claimed[id];
  }

  // ----- the whole run in one contract

  /** The polls that took a job, in order. */
  function TakingPolls(log: seq<Poll>): seq<nat> {
    if log == [] then []
    else TakingPolls(log[..|log| - 1]) + if log[|log| - 1].claimed.Some? then [|log| - 1] else []
  }

  /** polls are the polls of log that took a job, in order, and claims the jobs they took. */
  ghost predicate Taking(log: seq<Poll>, polls: seq<nat>, claims: seq<JobId>) {
    && |polls| == |claims|
    && (forall a | 0 <= a < |polls| :: polls[a] < |log| && log[polls[a]].claimed == Some(claims[a]))
    && (forall a, b | 0 <= a < b < |polls| :: polls[a] < polls[b])
    && forall m | 0 <= m < |log| && log[m].claimed.Some? :: m in polls
  }

  lemma TakingExtends(log: seq<Poll>, polls: seq<nat>, claims: seq<JobId>, poll: Poll)
    requires Taking(log, polls, claims)
    ensures poll.claimed.None? ==> Taking(log + [poll], polls, claims)
    ensures poll.claimed.Some? ==> Taking(log + [poll], polls + [|log|], claims + [poll.claimed.value])
  {
  }

  lemma {:induction false} ClaimsOfPolls(log: seq<Poll>)
    ensures Taking(log, TakingPolls(log), Claims(log))
    decreases |log|
  {
    if log != [] {
      hide Taking;
      var front, last := log[..|log| - 1], log[|log| - 1];
      ClaimsOfPolls(front);
      TakingExtends(front, TakingPolls(front), Claims(front), last);
      assert log == front + [last];
      assert Claims(front) + [] == Claims(front) && TakingPolls(front) + [] == TakingPolls(front);
    } else {
      assert Taking([], [], []);
    }
  }

  lemma TakenIsClaimed(log: seq<Poll>, m: nat)
    requires Taking(log, TakingPolls(log), Claims(log)) && m < |log| && log[m].claimed.Some?
    ensures log[m].claimed.value in Claims(log)
  {
    var a :| 0 <= a < |TakingPolls(log)| && TakingPolls(log)[a] == m;
    assert Claims(log)[a] == log[m].claimed.value;
  }

  lemma PollsOf(log: seq<Poll>, a: nat, b: nat) returns (j: nat, k: nat)
    requires Taking(log, TakingPolls(log), Claims(log)) && a < b < |Claims(log)|
    ensures j < k < |log| && log[j].claimed == Some(Claims(log)[a]) && log[k].claimed == Some(Claims(log)[b])
  {
    j, k := TakingPolls(log)[a], TakingPolls(log)[b];
  }

  /** A job keeps its creation time to the end of the run. */
  lemma AtTheEnd(log: seq<Poll>, start: Rows, s: Surroundings, pid: nat, ex: Execution, k: nat, id: JobId)
    requires Orderly(s) && LogFits(log, start, s, pid, ex) && k < |log| && id in log[k].before
    ensures id in log[|log| - 1].after && log[|log| - 1].after[id].createdAt == log[k].before[id].createdAt
  {
    var last := |log| - 1;
    hide *;
    PollAt(log, start, s, pid, ex, last);
    if k < last {
      LogPersists(log, start, s, pid, ex, k, last);
    }
    PollPersists(last, log[last], s, pid, ex);
    KeepsCreation(log[k].before, log[last].before, id);
    KeepsCreation(log[last].before, log[last].after, id);
  }

  lemma KeepsCreation(rows: Rows, rows': Rows, id: JobId)
    requires (rows == rows' || Persists(rows, rows')) && id in rows
    ensures id in rows' && rows'[id].createdAt == rows[id].createdAt
  {
  }

  /** Pending jobs of the start are still so at the first poll. */
  lemma FirstPoll(log: seq<Poll>, start: Rows, s: Surroundings, pid: nat, ex: Execution, id: JobId)
    requires OnlySubmits(s.before) && LogFits(log, start, s, pid, ex) && log != [] && id in start
    ensures id in log[0].before && log[0].before[id] == start[id]
  {
    assert LeftBehind(log[..0], start) == start;
    UntouchedBefore(0, start, s, id);
  }

  lemma InOrder(log: seq<Poll>, start: Rows, s: Surroundings, pid: nat, ex: Execution, a: nat, b: nat)
    requires Orderly(s) && YoungerArrivals(s) && LogFits(log, start, s, pid, ex) && a < b < |Claims(log)|
    ensures var executed, rows := Claims(log), log[|log| - 1].after;
            && executed[a] != executed[b] && executed[a] in rows && executed[b] in rows
            && rows[executed[a]].createdAt <= rows[executed[b]].createdAt
  {
    hide *;
    ClaimsOfPolls(log);
    var j, k := PollsOf(log, a, b);
    ExecutedOnce(log, start, s, pid, ex, j, k);
    RunIsSorted(log, start, s, pid, ex, j, k);
    AtTheEnd(log, start, s, pid, ex, j, Claims(log)[a]);
    AtTheEnd(log, start, s, pid, ex, k, Claims(log)[b]);
  }

  lemma IdleEnd(log: seq<Poll>, start: Rows, s: Surroundings, pid: nat, ex: Execution, rows: Rows)
    requires LogFits(log, start, s, pid, ex) && log != [] && log[|log| - 1].claimed.None?
    requires rows == log[|log| - 1].after
    ensures forall id | id in rows :: rows[id].status != Pending
  {
    PollAt(log, start, s, pid, ex, |log| - 1);
    assert forall id | id in rows && rows[id].status == Pending :: id in PendingIds(rows);
  }

  /**
    First in, first out, and drain. A worker that is alone at the queue, while submissions come in and then end, exits
    with no pending job left: it has executed every job that was pending at the start or at any poll, each exactly
    once and in order of creation, and each has ended as its execution says.
   */
  method DrainQueue(store: JobStore, pid: nat, ex: Execution, s: Surroundings, poll: real, idleLimit: real,
                    ghost quiet: nat, ghost tick: real)
    returns (executed: seq<JobId>, ghost log: seq<Poll>)
    requires Tame(s.before, quiet) && Tame(s.during, quiet)
    requires OnlySubmits(s.before) && OnlySubmits(s.during) && YoungerArrivals(s)
    requires tick > 0.0 && forall p: nat :: poll + s.elapsed(p) >= tick
    modifies store
    ensures LogFits(log, old(store.rows), s, pid, ex) && executed == Claims(log)
    ensures forall id | id in old(store.rows) && old(store.rows)[id].status == Pending ::
              && id in executed && id in store.rows
              && Ended(id, old(store.rows)[id], store.rows[id], ex) && store.rows[id].workerPid == Some(pid)
    ensures forall k, id {:trigger id in log[k].before} |
              0 <= k < |log| && id in log[k].before && log[k].before[id].status == Pending ::
              && id in executed && id in store.rows
              && Ended(id, log[k].before[id], store.rows[id], ex) && store.rows[id].workerPid == Some(pid)
    ensures forall a, b | 0 <= a < b < |executed| ::
              && executed[a] != executed[b] && executed[a] in store.rows && executed[b] in store.rows
              && store.rows[executed[a]].createdAt <= store.rows[executed[b]].createdAt
    ensures forall id | id in store.rows :: store.rows[id].status != Pending
  {
    hide *;
    ghost var start := store.rows;
    executed, log := RunWorker(store, pid, ex, s, poll, idleLimit, quiet, tick);
    TameIsOrderly(s, quiet);
    ClaimsOfPolls(log);
    IdleEnd(log, start, s, pid, ex, store.rows);
    forall k, id | 0 <= k < |log| && id in log[k].before && log[k].before[id].status == Pending
      ensures id in executed && id in store.rows
      ensures Ended(id, log[k].before[id], store.rows[id], ex) && store.rows[id].workerPid == Some(pid)
    {
      QueueIsDrained(log, start, s, pid, ex, k, id);
      var m :| k <= m < |log| && log[m].claimed == Some(id);
      TakenIsClaimed(log, m);
    }
    forall id | id in start && start[id].status == Pending
      ensures id in log[0].before && log[0].before[id] == start[id]
    {
      FirstPoll(log, start, s, pid, ex, id);
    }
    forall a, b | 0 <= a < b < |executed|
      ensures executed[a] != executed[b] && executed[a] in store.rows && executed[b] in store.rows
      ensures store.rows[executed[a]].createdAt <= store.rows[executed[b]].createdAt
    {
      InOrder(log, start, s, pid, ex, a, b);
    }
  }
}
