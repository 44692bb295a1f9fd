/**
  The job table under concurrency. Submitters, worker processes, two kinds of cancellation and stale-job sweeps
  interleave; every statement or transaction that runs on its own in the database is one step.
 */
module Protocol {
  import opened Wrappers
  import opened Jobs

  /**
    busy: the job each live worker process has claimed and not finished.
    readers: cancellations (client by client) that have read "pending" and not written yet.
    sweeps: the running rows, with their worker ids, that each sweep has read; its probe may take a live worker for
    dead.
    The last three record what happened: how often each job was claimed, for which jobs cancel_job returned True,
    and for which jobs the read-then-write cancellation reported success.
   */
  datatype State = State(rows: Rows, dead: set<nat>, busy: map<nat, JobId>, readers: map<nat, JobId>,
                         sweeps: map<nat, set<(JobId, nat)>>,
                         claims: multiset<JobId>, granted: set<JobId>, reported: set<JobId>)

  const INIT := State(map[], {}, map[], map[], map[], multiset{}, {}, {})

  datatype Step =
    | Submit(id: JobId, spec: JobSpec, now: nat)
    | Claim(pid: nat, id: JobId, now: nat)
    | Finish(pid: nat, status: Status, runDbId: Option<int>, errorMessage: string, now: nat)
    | Cancel(id: JobId)
    | CancelRead(client: nat, id: JobId)
    | CancelWrite(client: nat, now: nat)
    | SweepRead(client: nat)
    | SweepWrite(client: nat, id: JobId, pid: nat, now: nat)
    | Die(pid: nat)
    | Reuse(pid: nat)

  predicate Enabled(s: State, step: Step) {
    match step
    case Submit(id, _, _) => id !in s.rows
    case Claim(pid, id, _) => pid !in s.dead && pid !in s.busy && OldestPending(s.rows, id)
    case Finish(pid, status, _, _, _) => pid in s.busy && (status == Success || status == Failed)
    case Cancel(_) => true
    case CancelRead(client, id) => client !in s.readers && id in s.rows && s.rows[id].status == Pending
    case CancelWrite(client, _) => client in s.readers
    case SweepRead(_) => true
    case SweepWrite(client, id, pid, _) => client in s.sweeps && (id, pid) in s.sweeps[client]
    case Die(_) => true
    case Reuse(pid) => pid in s.dead
  }

  /** The running rows with a worker id. */
  function RunningRows(rows: Rows): set<(JobId, nat)> {
    set id | id in rows && rows[id].status == Running && rows[id].workerPid.Some? :: (id, rows[id].workerPid.value)
  }

  function Apply(s: State, step: Step): State {
    match step
    case Submit(id, spec, now) => s.(rows := Inserted(s.rows, id, spec, now))
    case Claim(pid, id, now) =>
      s.(rows := Claimed(s.rows, id, pid, now), busy := s.busy[pid := id], claims := s.claims + multiset{id})
    case Finish(pid, status, runDbId, errorMessage, now) =>
      if pid in s.busy then
        s.(rows := Done(s.rows, s.busy[pid], status, runDbId, errorMessage, now), busy := s.busy - {pid})
      else s
    case Cancel(id) =>
      s.(rows := CancelledIfPending(s.rows, id),
         granted := if id in s.rows && s.rows[id].status == Pending then s.granted + {id} else s.granted)
    case CancelRead(client, id) => s.(readers := s.readers[client := id])
    case CancelWrite(client, now) =>
      if client in s.readers then
        s.(rows := Done(s.rows, s.readers[client], Cancelled, None, "Cancelled by user", now),
           readers := s.readers - {client}, reported := s.reported + {s.readers[client]})
      else s
    case SweepRead(client) => s.(sweeps := s.sweeps[client := RunningRows(s.rows)])
    case SweepWrite(client, id, pid, now) =>
      if client in s.sweeps then
        s.(rows := SweptFailed(s.rows, id, now), sweeps := s.sweeps[client := s.sweeps[client] - {(id, pid)}])
      else s
    case Die(pid) => s.(dead := s.dead + {pid}, busy := s.busy - {pid})
    case Reuse(pid) => s.(dead := s.dead - {pid})
  }

  ghost predicate Legal(s: State, steps: seq<Step>)
    decreases |steps|
  {
    steps == [] || (Enabled(s, steps[0]) && Legal(Apply(s, steps[0]), steps[1..]))
  }

  function Exec(s: State, steps: seq<Step>): State
    decreases |steps|
  {
    if steps == [] then s else Exec(Apply(s, steps[0]), steps[1..])
  }

  lemma {:induction false} ExecConcat(s: State, a: seq<Step>, b: seq<Step>)
    ensures Exec(s, a + b) == Exec(Exec(s, a), b)
    ensures Legal(s, a + b) <==> Legal(s, a) && Legal(Exec(s, a), b)
    decreases |a|
  {
    if a == [] {
      assert a + b == b;
    } else {
      assert (a + b)[0] == a[0] && (a + b)[1..] == a[1..] + b;
      ExecConcat(Apply(s, a[0]), a[1..], b);
    }
  }

  // ----- what holds in every interleaving

  /** How a row relates to the number of times it was claimed. */
  predicate ClaimTrace(job: Job, count: nat) {
    && count == (if job.startedAt.Some? then 1 else 0)
    && (job.startedAt.Some? ==> job.status != Pending)
    && (job.workerPid.Some? ==> job.startedAt.Some?)
  }

  /** A job has been claimed at most once, and it has exactly if its start time is set; a claimed job is not pending. */
  ghost predicate ClaimsOk(rows: Rows, claims: multiset<JobId>) {
    && (forall id | id in rows :: ClaimTrace(rows[id], claims[id]))
    && forall id | id !in rows :: claims[id] == 0
  }

  /** id was claimed, by pid. */
  ghost predicate ClaimedBy(rows: Rows, id: JobId, pid: nat) {
    id in rows && rows[id].startedAt.Some? && rows[id].workerPid == Some(pid)
  }

  ghost predicate BusyOk(rows: Rows, busy: map<nat, JobId>, dead: set<nat>) {
    forall pid | pid in busy :: pid !in dead && ClaimedBy(rows, busy[pid], pid)
  }

  ghost predicate SweepsOk(rows: Rows, sweeps: map<nat, set<(JobId, nat)>>) {
    forall client, entry | client in sweeps && entry in sweeps[client] :: ClaimedBy(rows, entry.0, entry.1)
  }

  /** Workers and sweeps only know jobs that were claimed, and by whom; pending cancellations know existing jobs. */
  ghost predicate ViewsOk(s: State) {
    && BusyOk(s.rows, s.busy, s.dead)
    && SweepsOk(s.rows, s.sweeps)
    && forall client | client in s.readers :: s.readers[client] in s.rows
  }

  /** A job whose guarded cancellation was granted is cancelled and was never claimed. */
  ghost predicate GrantedOk(s: State) {
    forall id | id in s.granted :: CancelledUnstarted(s.rows, id)
  }

  ghost predicate Inv(s: State) {
    ClaimsOk(s.rows, s.claims) && ViewsOk(s) && GrantedOk(s)
  }

  /** Rows stay; creation data never changes; a claim's traces never change; nothing becomes pending again. */
  ghost predicate RowsEvolve(rows: Rows, rows': Rows) {
    forall id | id in rows ::
      && id in rows'
      && rows'[id].createdAt == rows[id].createdAt && rows'[id].spec == rows[id].spec
      && (rows[id].startedAt.Some? ==>
            rows'[id].startedAt == rows[id].startedAt && rows'[id].workerPid == rows[id].workerPid)
      && (rows'[id].status == Pending ==> rows[id].status == Pending)
  }

  /** Rewriting one row, without making it pending and without touching the traces of a claim. */
  lemma UpdateEvolves(rows: Rows, claims: multiset<JobId>, id: JobId, job: Job)
    requires ClaimsOk(rows, claims) && id in rows
    requires job.createdAt == rows[id].createdAt && job.spec == rows[id].spec && job.status != Pending
    requires job.startedAt == rows[id].startedAt && job.workerPid == rows[id].workerPid
    ensures RowsEvolve(rows, rows[id := job]) && ClaimsOk(rows[id := job], claims)
  {
  }

  lemma ClaimEvolves(rows: Rows, claims: multiset<JobId>, id: JobId, pid: nat, now: nat)
    requires ClaimsOk(rows, claims) && id in rows && rows[id].status == Pending
    ensures RowsEvolve(rows, Claimed(rows, id, pid, now))
    ensures ClaimsOk(Claimed(rows, id, pid, now), claims + multiset{id})
  {
  }

  lemma InsertEvolves(rows: Rows, claims: multiset<JobId>, id: JobId, spec: JobSpec, now: nat)
    requires ClaimsOk(rows, claims) && id !in rows
    ensures RowsEvolve(rows, Inserted(rows, id, spec, now)) && ClaimsOk(Inserted(rows, id, spec, now), claims)
  {
  }

  lemma RowsStep(s: State, step: Step)
    requires ClaimsOk(s.rows, s.claims) && ViewsOk(s) && Enabled(s, step)
    ensures RowsEvolve(s.rows, Apply(s, step).rows)
    ensures ClaimsOk(Apply(s, step).rows, Apply(s, step).claims)
  {
    hide ClaimsOk;
    hide RowsEvolve;
    Unchanged(s.rows);
    match step
    case Submit(id, spec, now) => InsertEvolves(s.rows, s.claims, id, spec, now);
    case Claim(pid, id, now) => ClaimEvolves(s.rows, s.claims, id, pid, now);
    case Finish(pid, status, runDbId, errorMessage, now) =>
      var id := s.busy[pid];
      UpdateEvolves(s.rows, s.claims, id, Done(s.rows, id, status, runDbId, errorMessage, now)[id]);
    case Cancel(id) =>
      if id in s.rows && s.rows[id].status == Pending {
        UpdateEvolves(s.rows, s.claims, id, CancelledIfPending(s.rows, id)[id]);
      }
    case CancelWrite(client, now) =>
      var id := s.readers[client];
      UpdateEvolves(s.rows, s.claims, id, Done(s.rows, id, Cancelled, None, "Cancelled by user", now)[id]);
    case SweepWrite(client, id, pid, now) =>
      assert ClaimedBy(s.rows, (id, pid).0, (id, pid).1);
      UpdateEvolves(s.rows, s.claims, id, SweptFailed(s.rows, id, now)[id]);
    case _ =>
  }

  lemma Unchanged(rows: Rows)
    ensures RowsEvolve(rows, rows)
  {
  }

  lemma BusyStep(s: State, step: Step)
    requires ViewsOk(s) && Enabled(s, step) && RowsEvolve(s.rows, Apply(s, step).rows)
    ensures var s' := Apply(s, step); BusyOk(s'.rows, s'.busy, s'.dead)
  {
    ClaimedByStays(s.rows, Apply(s, step).rows);
    hide RowsEvolve, Inserted, Done, CancelledIfPending, SweptFailed, RunningRows;
  }

  lemma SweepsStep(s: State, step: Step)
    requires ClaimsOk(s.rows, s.claims) && ViewsOk(s) && Enabled(s, step) && RowsEvolve(s.rows, Apply(s, step).rows)
    ensures SweepsOk(Apply(s, step).rows, Apply(s, step).sweeps)
  {
    ClaimedByStays(s.rows, Apply(s, step).rows);
    SweepSeesClaimed(s.rows, s.claims);
    hide RowsEvolve, ClaimsOk, ClaimedBy, Inserted, Claimed, Done, CancelledIfPending, SweptFailed, RunningRows;
  }

  lemma ViewsStep(s: State, step: Step)
    requires ClaimsOk(s.rows, s.claims) && ViewsOk(s) && Enabled(s, step)
    ensures ViewsOk(Apply(s, step))
  {
    RowsStep(s, step);
    BusyStep(s, step);
    SweepsStep(s, step);
    ClaimedByStays(s.rows, Apply(s, step).rows);
    hide RowsEvolve, ClaimsOk, ClaimedBy, BusyOk, SweepsOk, Inserted, Claimed, Done, CancelledIfPending, SweptFailed;
  }

  lemma ClaimedByStays(rows: Rows, rows': Rows)
    requires RowsEvolve(rows, rows')
    ensures forall id, pid | ClaimedBy(rows, id, pid) :: ClaimedBy(rows', id, pid)
    ensures rows.Keys <= rows'.Keys
  {
  }

  lemma SweepSeesClaimed(rows: Rows, claims: multiset<JobId>)
    requires ClaimsOk(rows, claims)
    ensures forall entry | entry in RunningRows(rows) :: ClaimedBy(rows, entry.0, entry.1)
  {
  }

  /** Cancelled without ever having been claimed. */
  predicate CancelledUnstarted(rows: Rows, id: JobId) {
    id in rows && rows[id].status == Cancelled && rows[id].startedAt.None?
  }

  /** Nothing revives such a job: workers and sweeps only know jobs that were claimed. */
  lemma CancelledStays(s: State, step: Step, id: JobId)
    requires ViewsOk(s) && Enabled(s, step) && CancelledUnstarted(s.rows, id)
    ensures CancelledUnstarted(Apply(s, step).rows, id)
  {
    hide RunningRows;
    match step
    case SweepWrite(client, swept, pid, _) => assert ClaimedBy(s.rows, (swept, pid).0, (swept, pid).1);
    case Finish(pid, _, _, _, _) => assert ClaimedBy(s.rows, s.busy[pid], pid);
    case _ =>
  }

  lemma GrantedStep(s: State, step: Step)
    requires Inv(s) && Enabled(s, step)
    ensures GrantedOk(Apply(s, step))
  {
    forall id | id in Apply(s, step).granted
      ensures CancelledUnstarted(Apply(s, step).rows, id)
    {
      if id in s.granted {
        CancelledStays(s, step, id);
      } else {
        assert ClaimTrace(s.rows[id], s.claims[id]);
      }
    }
  }

  lemma InvStep(s: State, step: Step)
    requires Inv(s) && Enabled(s, step)
    ensures Inv(Apply(s, step))
  {
    RowsStep(s, step);
    ViewsStep(s, step);
    GrantedStep(s, step);
  }
}
