/** The worker process: claim a job, execute it, record how it ended, and exit after an idle period. */
module Worker {
  import opened Wrappers
  import opened Jobs
  import opened Stepping
  import opened Store
  import Flow

  /** One stage run outside a flow. */
  datatype StageEnd = StageRaised | StageReturned(success: bool, runId: Option<int>)

  /** What executing jobs meets: the supported stages of a backend, single stages and the stages of flows, per job. */
  datatype Execution = Execution(supported: string -> seq<string>, stage: JobId -> StageEnd,
                                 flow: JobId -> (nat -> Flow.StageOutcome))

  /** Whether everything the job asked for was run and succeeded. */
  ghost predicate Accomplished(id: JobId, spec: JobSpec, ex: Execution) {
    match spec.runMode
    case StageMode => ex.stage(id).StageReturned? && ex.stage(id).success
    case FlowMode =>
      var request := Flow.Requested(ex.supported(spec.backend), FlowStart(spec), spec.stageEnd);
      request.Some? && request.value != [] && Flow.AllSucceed(request.value, ex.flow(id))
  }

  /** after is before with its end recorded: success exactly if everything the job asked for ran and succeeded. */
  ghost predicate Ended(id: JobId, before: Job, after: Job, ex: Execution) {
    && after.status == (if Accomplished(id, before.spec, ex) then Success else Failed)
    && after.finishedAt.Some?
    && after.spec == before.spec && after.createdAt == before.createdAt
  }

  function FlowStart(spec: JobSpec): string {
    if spec.stageStart.Some? && spec.stageStart.value != "" then spec.stageStart.value else "all"
  }

  /** The last run id of a flow that is not zero. */
  function LastRunId(results: seq<Flow.StageRecord>): Option<int> {
    if results == [] then None
    else
      var last := results[|results| - 1].runId;
      if last != 0 then Some(last) else LastRunId(results[..|results| - 1])
  }

  lemma {:induction false} LastRunMeans(results: seq<Flow.StageRecord>) returns (k: nat)
    ensures k <= |results| && forall i | k <= i < |results| :: results[i].runId == 0
    ensures LastRunId(results) == if k == 0 then None else Some(results[k - 1].runId)
    ensures k > 0 ==> results[k - 1].runId != 0
    decreases |results|
  {
    if results == [] {
      k := 0;
    } else if results[|results| - 1].runId != 0 {
      k := |results|;
    } else {
      k := LastRunMeans(results[..|results| - 1]);
      assert forall i | 0 <= i < |results| - 1 :: results[..|results| - 1][i] == results[i];
    }
  }

  /**
    A flow job that names no first stage, or an empty one, asks for everything its backend supports; one that does
    asks for the flow from that stage on.
   */
  lemma AccomplishedMeans(id: JobId, spec: JobSpec, ex: Execution)
    requires spec.runMode == FlowMode
    ensures spec.stageStart == None || spec.stageStart == Some("") ==>
              var stages := ex.supported(spec.backend);
              Accomplished(id, spec, ex) <==>
              stages != [] && forall k | 0 <= k < |stages| :: ex.flow(id)(k).StageRan? && ex.flow(id)(k).success
    ensures spec.stageStart.Some? && spec.stageStart.value != "" ==>
              var request := Flow.Requested(ex.supported(spec.backend), spec.stageStart.value, spec.stageEnd);
              Accomplished(id, spec, ex) <==>
              request.Some? && request.value != [] &&
              forall k | 0 <= k < |request.value| :: ex.flow(id)(k).StageRan? && ex.flow(id)(k).success
  {
    assert Flow.Lower("all") == "all";
  }

  /** The run noted with an ended job: that of the stage, or the last one of a flow that did not raise. */
  ghost predicate RunNoted(id: JobId, spec: JobSpec, runDbId: Option<int>, ex: Execution) {
    match spec.runMode
    case StageMode => runDbId == if ex.stage(id).StageReturned? then ex.stage(id).runId else None
    case FlowMode =>
      var request := Flow.Requested(ex.supported(spec.backend), FlowStart(spec), spec.stageEnd);
      runDbId == if request.None? || request.value == [] || Flow.RaisesFrom(request.value, ex.flow(id), 0) then None
                 else LastRunId(Flow.ResultsFrom(request.value, ex.flow(id), 0))
  }

  /** Execute a job and record its end. */
  method ExecuteJob(store: JobStore, id: JobId, ex: Execution, now: nat)
    requires id in store.rows
    modifies store
    ensures store.rows.Keys == old(store.rows).Keys
    ensures forall other | other in store.rows && other != id :: store.rows[other] == old(store.rows)[other]
    ensures Ended(id, old(store.rows)[id], store.rows[id], ex)
    ensures RunNoted(id, store.rows[id].spec, store.rows[id].runDbId, ex)
    ensures store.rows[id].finishedAt == Some(now) && store.rows[id].startedAt == old(store.rows)[id].startedAt
    ensures store.rows[id].workerPid == old(store.rows)[id].workerPid
  {
    var spec := store.rows[id].spec;
    match spec.runMode
    case FlowMode =>
      var end, _, _, _ := Flow.RunFlow(ex.supported(spec.backend), FlowStart(spec), spec.stageEnd, ex.flow(id));
      match end {
        case FlowRaised => store.MarkDone(id, Failed, None, "exception", now);
        case FlowError => store.MarkDone(id, Failed, None, "error", now);
        case FlowResult(success, results) =>
          store.MarkDone(id, if success then Success else Failed, LastRunId(results), "", now);
      }
    case StageMode =>
      match ex.stage(id) {
        case StageRaised => store.MarkDone(id, Failed, None, "exception", now);
        case StageReturned(success, runId) =>
          store.MarkDone(id, if success then Success else Failed, runId, "", now);
      }
  }

  // ----- the polling loop

  /**
    What rows may go through at anyone's hands: they stay, keep what they were created with, and never become
    pending again.
   */
  ghost predicate Persists(rows: Rows, rows': Rows) {
    forall id | id in rows ::
      && id in rows' && rows'[id].createdAt == rows[id].createdAt && rows'[id].spec == rows[id].spec
      && (rows'[id].status == Pending ==> rows[id].status == Pending)
  }

  /** Others act on the table as Persists allows, and from poll quiet on no new pending job comes from them. */
  ghost predicate Tame(others: (nat, Rows) -> Rows, quiet: nat) {
    && (forall p: nat, rows: Rows :: Persists(rows, others(p, rows)))
    && forall p: nat, rows: Rows | p >= quiet :: PendingIds(others(p, rows)) <= PendingIds(rows)
  }

  /**
    The surroundings of one worker, by poll: what all others do to the table before it and while its job is
    executed, the time that passes during it (on top of the sleep of an idle poll), and the wall clock when it claims
    a job and when that job ends.
   */
  datatype Surroundings = Surroundings(before: (nat, Rows) -> Rows, during: (nat, Rows) -> Rows, elapsed: nat -> real,
                                       clock: nat -> nat, ended: nat -> nat)

  /** One poll: the table it met, the job it took, and the table it left. */
  datatype Poll = Poll(before: Rows, claimed: Option<JobId>, after: Rows)

  /** A poll with nothing to do changes nothing; any other takes an oldest pending job and records its end. */
  ghost predicate PollFits(p: nat, poll: Poll, s: Surroundings, pid: nat, ex: Execution) {
    match poll.claimed
    case None => poll.after == poll.before && PendingIds(poll.before) == {}
    case Some(id) =>
      && OldestPending(poll.before, id)
      && var met := s.during(p, Claimed(poll.before, id, pid, s.clock(p)));
         && id in met && poll.after.Keys == met.Keys
         && (forall other | other in met && other != id :: poll.after[other] == met[other])
         && Ended(id, met[id], poll.after[id], ex) && RunNoted(id, met[id].spec, poll.after[id].runDbId, ex)
         && poll.after[id].finishedAt == Some(s.ended(p))
         && poll.after[id].startedAt == met[id].startedAt && poll.after[id].workerPid == met[id].workerPid
  }

  function LeftBehind(log: seq<Poll>, start: Rows): Rows {
    if log == [] then start else log[|log| - 1].after
  }

  /** Poll p meets what others made of what the poll before left. */
  ghost predicate LogFits(log: seq<Poll>, start: Rows, s: Surroundings, pid: nat, ex: Execution) {
    forall p {:trigger log[p]} | 0 <= p < |log| ::
      log[p].before == s.before(p, LeftBehind(log[..p], start)) && PollFits(p, log[p], s, pid, ex)
  }

  lemma LogNext(log: seq<Poll>, poll: Poll, start: Rows, s: Surroundings, pid: nat, ex: Execution)
    requires LogFits(log, start, s, pid, ex) && PollFits(|log|, poll, s, pid, ex)
    requires poll.before == s.before(|log|, LeftBehind(log, start))
    ensures LogFits(log + [poll], start, s, pid, ex)
  {
    hide PollFits, LeftBehind;
    var next := log + [poll];
    forall p | 0 <= p < |next|
      ensures next[p].before == s.before(p, LeftBehind(next[..p], start))
      ensures PollFits(p, next[p], s, pid, ex)
    {
      assert next[..p] == if p < |log| then log[..p] else log;
      assert p < |log| ==> next[p] == log[p];
    }
  }

  /** The jobs taken, in order. */
  function Claims(log: seq<Poll>): seq<JobId> {
    if log == [] then []
    else
      var claimed := log[|log| - 1].claimed;
      Claims(log[..|log| - 1]) + if claimed.Some? then [claimed.value] else []
  }

  /** The time after some polls. */
  function TimeAfter(log: seq<Poll>, s: Surroundings, poll: real): real {
    if log == [] then 0.0
    else
      TimeAfter(log[..|log| - 1], s, poll)
      + (if log[|log| - 1].claimed.None? then poll else 0.0) + s.elapsed(|log| - 1)
  }

  /** Since when the worker has been idle. */
  function IdleSince(log: seq<Poll>, s: Surroundings, poll: real): Option<real> {
    if log == [] || log[|log| - 1].claimed.Some? then None
    else
      var before := IdleSince(log[..|log| - 1], s, poll);
      if before.Some? then before else Some(TimeAfter(log[..|log| - 1], s, poll))
  }

  /** A further idle poll exceeds the idle limit. */
  predicate IdleTooLong(log: seq<Poll>, s: Surroundings, poll: real, limit: real) {
    IdleSince(log, s, poll).Some? && TimeAfter(log, s, poll) - IdleSince(log, s, poll).value >= limit
  }

  /** The worker has been idle since its latest job ended, or since it started; at the limit that is too long. */
  lemma {:induction false} IdleMeans(log: seq<Poll>, s: Surroundings, poll: real, limit: real) returns (k: nat)
    ensures k <= |log| && (forall p | k <= p < |log| :: log[p].claimed.None?) && (k > 0 ==> log[k - 1].claimed.Some?)
    ensures IdleSince(log, s, poll) == if k == |log| then None else Some(TimeAfter(log[..k], s, poll))
    ensures IdleTooLong(log, s, poll, limit) <==>
            k < |log| && TimeAfter(log, s, poll) >= TimeAfter(log[..k], s, poll) + limit
    decreases |log|
  {
    if log == [] || log[|log| - 1].claimed.Some? {
      k := |log|;
    } else {
      var front := log[..|log| - 1];
      k := IdleMeans(front, s, poll, limit);
      assert forall p | 0 <= p < |front| :: front[p] == log[p];
      assert log[..k] == front[..k];
      assert k == |front| ==> front[..k] == front;
    }
  }

  /** No idle poll so far exceeded the idle limit. */
  ghost predicate KeptGoing(log: seq<Poll>, s: Surroundings, poll: real, limit: real) {
    forall p {:trigger log[p]} | 0 <= p < |log| && log[p].claimed.None? :: !IdleTooLong(log[..p], s, poll, limit)
  }

  lemma GoesOn(log: seq<Poll>, poll: Poll, s: Surroundings, interval: real, limit: real)
    requires KeptGoing(log, s, interval, limit)
    ensures poll.claimed.Some? || !IdleTooLong(log, s, interval, limit) ==> KeptGoing(log + [poll], s, interval, limit)
  {
    hide IdleTooLong;
    forall p | 0 <= p <= |log|
      ensures (log + [poll])[..p] == if p < |log| then log[..p] else log
    {
    }
  }

  lemma PollNext(log: seq<Poll>, poll: Poll, s: Surroundings, interval: real)
    ensures var next := log + [poll];
            && Claims(next) == Claims(log) + (if poll.claimed.Some? then [poll.claimed.value] else [])
            && TimeAfter(next, s, interval)
               == TimeAfter(log, s, interval) + (if poll.claimed.None? then interval else 0.0) + s.elapsed(|log|)
            && IdleSince(next, s, interval)
               == if poll.claimed.Some? then None
                  else if IdleSince(log, s, interval).Some? then IdleSince(log, s, interval)
                  else Some(TimeAfter(log, s, interval))
  {
    assert (log + [poll])[..|log|] == log;
  }

  /** One poll: take the oldest pending job, if there is one, and execute it. */
  method PollOnce(store: JobStore, pid: nat, ex: Execution, s: Surroundings, p: nat) returns (poll: Poll)
    requires forall rows: Rows :: Persists(rows, s.during(p, rows))
    modifies store
    ensures poll.before == old(store.rows) && poll.after == store.rows
    ensures PollFits(p, poll, s, pid, ex)
  {
    hide Accomplished;
    var before := store.rows;
    var claimed := store.ClaimPendingJob(pid, s.clock(p));
    if claimed.Some? {
      assert Persists(store.rows, s.during(p, store.rows));
      store.rows := s.during(p, store.rows);
      ExecuteJob(store, claimed.value, ex, s.ended(p));
    }
    poll := Poll(before, claimed, store.rows);
  }

  /** How many more idle polls fit before the limit, when each takes at least a tick. */
  ghost function IdleRank(idleSince: Option<real>, time: real, limit: real, tick: real): nat
    requires tick > 0.0
  {
    var left := if idleSince.Some? then limit - (time - idleSince.value) else limit;
    var steps := if left > 0.0 && Steps(left, tick) > 0 then Steps(left, tick) else 0;
    if idleSince.Some? then steps else steps + 1
  }

  lemma IdleRankDecreases(idleSince: Option<real>, time: real, limit: real, tick: real, passed: real)
    requires tick > 0.0 && passed >= tick
    requires idleSince.Some? ==> time - idleSince.value < limit
    ensures var since := if idleSince.Some? then idleSince else Some(time);
            IdleRank(since, time + passed, limit, tick) < IdleRank(idleSince, time, limit, tick)
  {
    var left := if idleSince.Some? then limit - (time - idleSince.value) else limit;
    if left > 0.0 {
      StepsDecrease(left, left - passed, tick);
      StepsPositive(left, tick);
    }
  }

  lemma StepsPositive(x: real, d: real)
    requires x > 0.0 && d > 0.0
    ensures Steps(x, d) >= 1
  {
    QuotientPositive(x, d);
  }

  /** Taking a job leaves fewer pending ones, when no one adds any. */
  lemma FewerPending(p: nat, poll: Poll, s: Surroundings, pid: nat, ex: Execution)
    requires PollFits(p, poll, s, pid, ex) && poll.claimed.Some?
    requires PendingIds(s.during(p, Claimed(poll.before, poll.claimed.value, pid, s.clock(p))))
          <= PendingIds(Claimed(poll.before, poll.claimed.value, pid, s.clock(p)))
    ensures |PendingIds(poll.after)| < |PendingIds(poll.before)|
  {
    var id := poll.claimed.value;
    var claimed := Claimed(poll.before, id, pid, s.clock(p));
    assert PendingIds(claimed) == PendingIds(poll.before) - {id};
    assert PendingIds(poll.after) <= PendingIds(s.during(p, claimed));
    assert id in PendingIds(poll.before);
    Smaller(PendingIds(poll.after), PendingIds(poll.before), id);
  }

  lemma Smaller(a: set<JobId>, b: set<JobId>, id: JobId)
    requires id in b && a <= b - {id}
    ensures |a| < |b|
  {
    assert b == a + (b - a);
    assert id in b - a;
  }

  lemma NoMore(a: set<JobId>, b: set<JobId>)
    requires a <= b
    ensures |a| <= |b|
  {
    assert b == a + (b - a);
  }

  /**
    The worker with an idle limit, whatever all others do to the table: if submissions end at some poll and every
    idle poll takes some time, it exits, at the first poll at which it has been idle for the limit, and with no
    pending job left.
   */
  method RunWorker(store: JobStore, pid: nat, ex: Execution, s: Surroundings, poll: real, idleLimit: real,
                   ghost quiet: nat,
                   ghost tick: real)
    returns (executed: seq<JobId>, ghost log: seq<Poll>)
    requires Tame(s.before, quiet) && Tame(s.during, quiet)
    requires tick > 0.0 && forall p: nat :: poll + s.elapsed(p) >= tick
    modifies store
    ensures LogFits(log, old(store.rows), s, pid, ex) && executed == Claims(log)
    ensures log != [] && log[|log| - 1].claimed.None? && store.rows == log[|log| - 1].after
    ensures IdleTooLong(log[..|log| - 1], s, poll, idleLimit) && KeptGoing(log[..|log| - 1], s, poll, idleLimit)
  {
    hide LogFits, PollFits, Claims, TimeAfter, IdleSince, IdleRank, PendingIds, Tame, Steps, KeptGoing;
    executed, log := [], [];
    ghost var start := store.rows;
    var p := 0;
    var time: real := 0.0;
    var idleSince: Option<real> := None;
    NothingPolled(start, s, pid, ex, poll, idleLimit);
    while true
      invariant p == |log| && LogFits(log, start, s, pid, ex) && executed == Claims(log)
      invariant store.rows == LeftBehind(log, start)
      invariant time == TimeAfter(log, s, poll) && idleSince == IdleSince(log, s, poll)
      invariant KeptGoing(log, s, poll, idleLimit)
      decreases if p < quiet then quiet - p else 0, |PendingIds(store.rows)|, IdleRank(idleSince, time, idleLimit, tick)
    {
      ghost var left := store.rows;
      store.rows := s.before(p, store.rows);
      TameAt(s, quiet, p);
      var done := PollOnce(store, pid, ex, s, p);
      LogNext(log, done, start, s, pid, ex);
      PollNext(log, done, s, poll);
      PendingGoDown(p, left, done, s, quiet, pid, ex);
      GoesOn(log, done, s, poll, idleLimit);
      assert (log + [done])[..|log|] == log;
      log := log + [done];
      if done.claimed.Some? {
        idleSince := None;
        executed := executed + [done.claimed.value];
        time := time + s.elapsed(p);
      } else {
        ghost var since := idleSince;
        if idleSince.None? {
          idleSince := Some(time);
        } else if time - idleSince.value >= idleLimit {
          assert executed + [] == executed;
          break;
        }
        assert executed + [] == executed;
        IdleRankDecreases(since, time, idleLimit, tick, poll + s.elapsed(p));
        time := time + poll + s.elapsed(p);
      }
      p := p + 1;
    }
  }

  lemma NothingPolled(start: Rows, s: Surroundings, pid: nat, ex: Execution, poll: real, limit: real)
    ensures LogFits([], start, s, pid, ex) && Claims([]) == [] && KeptGoing([], s, poll, limit)
    ensures TimeAfter([], s, poll) == 0.0 && IdleSince([], s, poll) == None
  {
  }

  lemma TameAt(s: Surroundings, quiet: nat, p: nat)
    requires Tame(s.before, quiet) && Tame(s.during, quiet)
    ensures forall rows: Rows :: Persists(rows, s.before(p, rows)) && Persists(rows, s.during(p, rows))
    ensures p >= quiet ==>
              forall rows: Rows ::
                PendingIds(s.before(p, rows)) <= PendingIds(rows) && PendingIds(s.during(p, rows)) <= PendingIds(rows)
  {
  }

  /** Once submissions have ended, a poll that takes a job leaves fewer pending ones, and any other leaves none. */
  lemma PendingGoDown(p: nat, left: Rows, poll: Poll, s: Surroundings, quiet: nat, pid: nat, ex: Execution)
    requires Tame(s.before, quiet) && Tame(s.during, quiet)
    requires poll.before == s.before(p, left) && PollFits(p, poll, s, pid, ex)
    ensures p >= quiet ==> |PendingIds(poll.after)| <= |PendingIds(left)|
    ensures p >= quiet && poll.claimed.Some? ==> |PendingIds(poll.after)| < |PendingIds(left)|
  {
    hide Tame, Persists, Claimed;
    TameAt(s, quiet, p);
    if p >= quiet {
      NoMore(PendingIds(poll.before), PendingIds(left));
      if poll.claimed.Some? {
        FewerPending(p, poll, s, pid, ex);
      }
    }
  }
}
