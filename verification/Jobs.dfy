/** Job rows, and the effect of each SQL statement of the job store on the table. */
module Jobs {
  import opened Wrappers

  datatype Status = Pending | Running | Success | Failed | Cancelled

  datatype RunMode = StageMode | FlowMode

  datatype JobSpec = JobSpec(backend: string, stage: string, stageStart: Option<string>, stageEnd: Option<string>,
                             runMode: RunMode)

  datatype Job = Job(spec: JobSpec, status: Status, createdAt: nat, startedAt: Option<nat>, finishedAt: Option<nat>,
                     workerPid: Option<nat>, runDbId: Option<int>, errorMessage: string)

  type JobId = string
  type Rows = map<JobId, Job>

  function NewJob(spec: JobSpec, now: nat): Job {
    Job(spec, Pending, now, None, None, None, None, "")
  }

  predicate Terminal(status: Status) {
    status == Success || status == Failed || status == Cancelled
  }

  /** A pending job such that no pending job is older. */
  predicate OldestPending(rows: Rows, id: JobId) {
    && id in rows && rows[id].status == Pending
    && forall other | other in rows && rows[other].status == Pending :: rows[id].createdAt <= rows[other].createdAt
  }

  /** INSERT of a new job. */
  function Inserted(rows: Rows, id: JobId, spec: JobSpec, now: nat): Rows {
    rows[id := NewJob(spec, now)]
  }

  /** The UPDATE inside a claim. */
  function Claimed(rows: Rows, id: JobId, pid: nat, now: nat): Rows {
    if id in rows then rows[id := rows[id].(status := Running, startedAt := Some(now), workerPid := Some(pid))]
    else rows
  }

  /** The unguarded UPDATE of mark_done. */
  function Done(rows: Rows, id: JobId, status: Status, runDbId: Option<int>, errorMessage: string, now: nat): Rows {
    if id in rows then
      rows[id := rows[id].(status := status, runDbId := runDbId, errorMessage := errorMessage, finishedAt := Some(now))]
    else rows
  }

  /** The guarded UPDATE of cancel_job. */
  function CancelledIfPending(rows: Rows, id: JobId): Rows {
    if id in rows && rows[id].status == Pending then rows[id := rows[id].(status := Cancelled)] else rows
  }

  /** The UPDATE a stale sweep issues for one row. */
  function SweptFailed(rows: Rows, id: JobId, now: nat): Rows {
    if id in rows then rows[id := rows[id].(status := Failed, finishedAt := Some(now))] else rows
  }

  lemma NonEmptyKeys(keys: set<JobId>)
    requires keys != {}
    ensures exists id :: id in keys
  {
  }

  /** A table with a pending job has an oldest one. */
  lemma {:induction false} OldestExists(rows: Rows, candidates: set<JobId>) returns (oldest: JobId)
    requires candidates != {} && candidates <= rows.Keys
    ensures oldest in candidates && forall id | id in candidates :: rows[oldest].createdAt <= rows[id].createdAt
    decreases candidates
  {
    NonEmptyKeys(candidates);
    oldest :| oldest in candidates;
    var rest := candidates - {oldest};
    assert forall id | id in candidates :: id == oldest || id in rest;
    if rest != {} {
      var other := OldestExists(rows, rest);
      if rows[other].createdAt < rows[oldest].createdAt {
        oldest := other;
      }
    }
  }

  /** No job in candidates is younger. */
  predicate NewestOf(rows: Rows, candidates: set<JobId>, id: JobId)
  {
    && id in candidates && id in rows
    && forall other | other in candidates && other in rows :: rows[other].createdAt <= rows[id].createdAt
  }

  lemma {:induction false} NewestExists(rows: Rows, candidates: set<JobId>) returns (newest: JobId)
    requires candidates != {} && candidates <= rows.Keys
    ensures NewestOf(rows, candidates, newest)
    decreases candidates
  {
    NonEmptyKeys(candidates);
    newest :| newest in candidates;
    var rest := candidates - {newest};
    assert forall id | id in candidates :: id == newest || id in rest;
    if rest != {} {
      var other := NewestExists(rows, rest);
      if rows[newest].createdAt < rows[other].createdAt {
        newest := other;
      }
    }
  }

  function PendingIds(rows: Rows): set<JobId> {
    set id | id in rows && rows[id].status == Pending
  }
}
