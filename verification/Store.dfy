/** The job store object: each method runs one statement or transaction of the protocol on the table. */
module Store {
  import opened Wrappers
  import opened Jobs

  datatype CancelReply = NotFound | Refused(status: Status) | CancelReported

  /** Running, with a worker that the probe does not find. */
  predicate Stale(job: Job, dead: set<nat>) {
    job.status == Running && job.workerPid.Some? && job.workerPid.value in dead
  }

  /** The jobs with the given status, or all of them. */
  function Selected(rows: Rows, status: Option<Status>): set<JobId> {
    set id | id in rows && (status.None? || rows[id].status == status.value)
  }

  /** ids lists the wanted jobs, each once, newest first. */
  ghost predicate ListsNewestFirst(rows: Rows, wanted: set<JobId>, ids: seq<JobId>) {
    && (forall id :: id in ids <==> id in wanted)
    && (forall a, b | 0 <= a < b < |ids| :: ids[a] != ids[b])
    && forall a, b | 0 <= a < b < |ids| && ids[a] in rows && ids[b] in rows ::
         rows[ids[b]].createdAt <= rows[ids[a]].createdAt
  }

  class JobStore {
    var rows: Rows

    constructor ()
      ensures rows == map[]
    {
      rows := map[];
    }

    /** id is freshly generated. */
    method CreateJob(id: JobId, spec: JobSpec, now: nat) returns (job: Job)
      requires id !in rows
      modifies this
      ensures rows == Inserted(old(rows), id, spec, now) && job == rows[id]
      ensures rows == old(rows)[id := Job(spec, Pending, now, None, None, None, None, "")]
    {
      job := NewJob(spec, now);
      rows := rows[id := job];
    }

    method GetJob(id: JobId) returns (job: Option<Job>)
      ensures job == if id in rows then Some(rows[id]) else None
    {
      job := if id in rows then Some(rows[id]) else None;
    }

    /** The claim transaction, and the read that follows it. */
    method ClaimPendingJob(pid: nat, now: nat) returns (claimed: Option<JobId>)
      modifies this
      ensures claimed.None? ==> rows == old(rows) && forall id | id in rows :: rows[id].status != Pending
      ensures claimed.Some? ==>
                OldestPending(old(rows), claimed.value) && rows == Claimed(old(rows), claimed.value, pid, now)
      ensures claimed.Some? ==>
                var id := claimed.value;
                && id in old(rows) && old(rows)[id].status == Pending
                && (forall other | other in old(rows) && old(rows)[other].status == Pending ::
                      old(rows)[id].createdAt <= old(rows)[other].createdAt)
                && rows == old(rows)[id := old(rows)[id].(status := Running, startedAt := Some(now),
                                                          workerPid := Some(pid))]
    {
      var candidates := PendingIds(rows);
      if candidates == {} {
        assert forall id | id in rows && rows[id].status == Pending :: id in candidates;
        return None;
      }
      ghost var oldest := OldestExists(rows, candidates);
      assert OldestPending(rows, oldest);
      var id :| id in rows && OldestPending(rows, id);
      rows := rows[id := rows[id].(status := Running, startedAt := Some(now), workerPid := Some(pid))];
      return Some(id);
    }

    method MarkDone(id: JobId, status: Status, runDbId: Option<int>, errorMessage: string, now: nat)
      modifies this
      ensures rows == Done(old(rows), id, status, runDbId, errorMessage, now)
      ensures id !in old(rows) ==> rows == old(rows)
      ensures id in old(rows) ==>
                rows == old(rows)[id := old(rows)[id].(status := status, runDbId := runDbId,
                                                       errorMessage := errorMessage, finishedAt := Some(now))]
    {
      if id in rows {
        rows := rows[id := rows[id].(status := status, runDbId := runDbId, errorMessage := errorMessage,
                                     finishedAt := Some(now))];
      }
    }

    method CancelJob(id: JobId) returns (cancelled: bool)
      modifies this
      ensures rows == CancelledIfPending(old(rows), id)
      ensures cancelled <==> id in old(rows) && old(rows)[id].status == Pending
      ensures rows == if cancelled then old(rows)[id := old(rows)[id].(status := Cancelled)] else old(rows)
    {
      cancelled := id in rows && rows[id].status == Pending;
      if cancelled {
        rows := rows[id := rows[id].(status := Cancelled)];
      }
    }

    /** The read-then-write cancellation, without interference between its two accesses. */
    method CancelJobImpl(id: JobId, now: nat) returns (reply: CancelReply)
      modifies this
      ensures reply == if id !in old(rows) then NotFound
                       else if old(rows)[id].status != Pending then Refused(old(rows)[id].status)
                       else CancelReported
      ensures rows == if reply == CancelReported then
                        old(rows)[id := old(rows)[id].(status := Cancelled, runDbId := None,
                                                       errorMessage := "Cancelled by user", finishedAt := Some(now))]
                      else old(rows)
    {
      var job := GetJob(id);
      if job.None? {
        return NotFound;
      }
      if job.value.status != Pending {
        return Refused(job.value.status);
      }
      MarkDone(id, Cancelled, None, "Cancelled by user", now);
      return CancelReported;
    }

    /** The wanted jobs, newest first. */
    method List(wanted: set<JobId>) returns (ids: seq<JobId>)
      requires wanted <= rows.Keys
      ensures ListsNewestFirst(rows, wanted, ids)
    {
      ids := [];
      var rest := wanted;
      while rest != {}
        invariant rest <= wanted && ListsNewestFirst(rows, wanted - rest, ids)
        invariant forall a | 0 <= a < |ids| :: ids[a] in wanted
        invariant forall a, id | 0 <= a < |ids| && id in rest :: rows[id].createdAt <= rows[ids[a]].createdAt
        decreases rest
      {
        ghost var newest := NewestExists(rows, rest);
        var id :| id in rest && NewestOf(rows, rest, id);
        assert forall a | 0 <= a < |ids| :: ids[a] in ids;
        assert rest <= rows.Keys && NewestOf(rows, rest, id);
        forall other | other in rest
          ensures rows[other].createdAt <= rows[id].createdAt
        {
          assert other in rows;
        }
        ids := ids + [id];
        rest := rest - {id};
      }
    }

    /**
      The stale sweep: read the running rows, then probe and update them one by one; dead are the workers the probe does
      not find, whether they are dead or not. Then list the jobs, all or those with one status.
     */
    method FixStaleJobs(dead: set<nat>, now: nat, status: Option<Status>) returns (listed: seq<JobId>)
      modifies this
      ensures rows.Keys == old(rows).Keys
      ensures forall id | id in rows ::
                var before := old(rows)[id];
                rows[id] ==
                if before.status == Running && before.workerPid.Some? && before.workerPid.value in dead
                then before.(status := Failed, finishedAt := Some(now)) else before
      ensures forall id :: id in listed <==> id in rows && (status.Some? ==> rows[id].status == status.value)
      ensures ListsNewestFirst(rows, Selected(rows, status), listed)
    {
      var todo := set id | id in rows && rows[id].status == Running;
      ghost var start := rows;
      while todo != {}
        invariant todo <= start.Keys == rows.Keys
        invariant forall id | id in todo :: start[id].status == Running
        invariant forall id | id in start ::
                    rows[id] == if id !in todo && Stale(start[id], dead)
                                then start[id].(status := Failed, finishedAt := Some(now)) else start[id]
        decreases todo
      {
        NonEmptyKeys(todo);
        var id :| id in todo;
        if Stale(rows[id], dead) {
          rows := rows[id := rows[id].(status := Failed, finishedAt := Some(now))];
        }
        todo := todo - {id};
      }
      listed := List(Selected(rows, status));
    }
  }
}
