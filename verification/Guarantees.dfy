/** What the job protocol guarantees in every interleaving, and the races that remain. */
module Guarantees {
  import opened Wrappers
  import opened Jobs
  import opened Protocol

  lemma InitInv()
    ensures Inv(INIT)
  {
  }

  lemma {:induction false} RunEvolves(s: State, steps: seq<Step>)
    requires Inv(s) && Legal(s, steps)
    ensures Inv(Exec(s, steps)) && RowsEvolve(s.rows, Exec(s, steps).rows)
    ensures s.granted <= Exec(s, steps).granted && s.claims <= Exec(s, steps).claims
    decreases |steps|
  {
    hide ClaimsOk, ViewsOk, GrantedOk, Apply, Enabled;
    if steps != [] {
      RowsStep(s, steps[0]);
      InvStep(s, steps[0]);
      LogsGrow(s, steps[0]);
      RunEvolves(Apply(s, steps[0]), steps[1..]);
    }
  }

  lemma LogsGrow(s: State, step: Step)
    ensures s.granted <= Apply(s, step).granted && s.claims <= Apply(s, step).claims
  {
  }

  /** No job is claimed twice, however submitters, workers, both cancellations and stale sweeps interleave. */
  lemma ClaimedAtMostOnce(steps: seq<Step>, id: JobId)
    requires Legal(INIT, steps)
    ensures Exec(INIT, steps).claims[id] <= 1
  {
    InitInv();
    RunEvolves(INIT, steps);
  }

  /** When cancel_job answers True, the job was not and will not be claimed, and it stays cancelled. */
  lemma GrantedCancelIsFinal(before: seq<Step>, id: JobId, after: seq<Step>)
    requires Legal(INIT, before + [Cancel(id)] + after)
    requires id in Exec(INIT, before).rows && Exec(INIT, before).rows[id].status == Pending
    ensures var end := Exec(INIT, before + [Cancel(id)] + after);
            end.claims[id] == 0 && id in end.rows && end.rows[id].status == Cancelled
  {
    InitInv();
    ExecConcat(INIT, before + [Cancel(id)], after);
    ExecConcat(INIT, before, [Cancel(id)]);
    RunEvolves(INIT, before);
    var s := Exec(INIT, before);
    assert Exec(s, [Cancel(id)]) == Apply(s, Cancel(id));
    InvStep(s, Cancel(id));
    RunEvolves(Apply(s, Cancel(id)), after);
  }

  /**
    The read-then-write cancellation reports success in any case. The report is true, in the sense that the job is
    never claimed and stays cancelled, exactly when it had no start time at the moment of the write; this holds for
    every continuation.
   */
  lemma ReportedCancelIsTrueIffUnstarted(before: seq<Step>, client: nat, now: nat, after: seq<Step>)
    requires Legal(INIT, before + [CancelWrite(client, now)] + after)
    ensures var s := Exec(INIT, before);
            var end := Exec(INIT, before + [CancelWrite(client, now)] + after);
            && client in s.readers && s.readers[client] in s.rows
            && (end.claims[s.readers[client]] == 0 <==> s.rows[s.readers[client]].startedAt == None)
            && (CancelledUnstarted(end.rows, s.readers[client]) <==> s.rows[s.readers[client]].startedAt == None)
  {
    InitInv();
    var step := CancelWrite(client, now);
    ExecConcat(INIT, before + [step], after);
    ExecConcat(INIT, before, [step]);
    RunEvolves(INIT, before);
    var s := Exec(INIT, before);
    assert Legal(s, [step]) && Enabled(s, step);
    assert Exec(s, [step]) == Apply(s, step);
    InvStep(s, step);
    var s' := Apply(s, step);
    RunEvolves(s', after);
    var id := s.readers[client];
    assert s'.rows[id].status == Cancelled && s'.rows[id].startedAt == s.rows[id].startedAt;
    if s.rows[id].startedAt == None {
      NotPendingNeverClaimed(s', after, id);
      CancelledForGood(s', after, id);
    }
  }

  /** A job cancelled before it was claimed stays so in every continuation. */
  lemma {:induction false} CancelledForGood(s: State, steps: seq<Step>, id: JobId)
    requires Inv(s) && Legal(s, steps) && CancelledUnstarted(s.rows, id)
    ensures CancelledUnstarted(Exec(s, steps).rows, id)
    decreases |steps|
  {
    if steps != [] {
      hide ClaimsOk, ViewsOk, GrantedOk, Apply, Enabled, CancelledUnstarted;
      CancelledStays(s, steps[0], id);
      InvStep(s, steps[0]);
      CancelledForGood(Apply(s, steps[0]), steps[1..], id);
    }
  }

  /** A job that is not pending is never claimed again. */
  lemma {:induction false} NotPendingNeverClaimed(s: State, steps: seq<Step>, id: JobId)
    requires Inv(s) && Legal(s, steps) && id in s.rows && s.rows[id].status != Pending
    ensures Exec(s, steps).claims[id] == s.claims[id]
    decreases |steps|
  {
    hide ClaimsOk, ViewsOk, GrantedOk;
    if steps != [] {
      var step := steps[0];
      RowsStep(s, step);
      InvStep(s, step);
      if step.Claim? {
        assert step.id != id;
      }
      NotPendingNeverClaimed(Apply(s, step), steps[1..], id);
    }
  }

  /**
    First in, first out: of two claims in a run, the first took a job that is not younger than the second one's,
    if that one was in the table by then.
   */
  lemma OldestFirst(steps: seq<Step>, i: nat, j: nat)
    requires Legal(INIT, steps) && i < j < |steps| && steps[i].Claim? && steps[j].Claim?
    requires steps[j].id in Exec(INIT, steps[..i]).rows
    ensures steps[i].id in Exec(INIT, steps[..i]).rows
    ensures Exec(INIT, steps[..i]).rows[steps[i].id].createdAt <= Exec(INIT, steps[..i]).rows[steps[j].id].createdAt
    ensures steps[i].id != steps[j].id
  {
    hide *;
    InitInv();
    var a, b, c := steps[..i], steps[i..j], steps[j..];
    ThreeParts(steps, i, j);
    ExecConcat(INIT, a, b + c);
    ExecConcat(Exec(INIT, a), b, c);
    RunEvolves(INIT, a);
    FirstEnabled(Exec(Exec(INIT, a), b), c);
    OldestFirstFrom(Exec(INIT, a), b, steps[j]);
  }

  lemma ThreeParts(steps: seq<Step>, i: nat, j: nat)
    requires i < j < |steps|
    ensures steps == steps[..i] + (steps[i..j] + steps[j..])
    ensures steps[i..j] != [] && steps[i..j][0] == steps[i] && steps[j..] != [] && steps[j..][0] == steps[j]
  {
  }

  lemma FirstEnabled(s: State, steps: seq<Step>)
    requires steps != [] && Legal(s, steps)
    ensures Enabled(s, steps[0])
  {
  }

  lemma OldestFirstFrom(s: State, b: seq<Step>, second: Step)
    requires Inv(s) && b != [] && Legal(s, b) && b[0].Claim? && second.Claim? && Enabled(Exec(s, b), second)
    requires second.id in s.rows
    ensures b[0].id in s.rows && s.rows[b[0].id].createdAt <= s.rows[second.id].createdAt && b[0].id != second.id
  {
    hide ClaimsOk, ViewsOk, GrantedOk;
    var s' := Apply(s, b[0]);
    RunEvolves(s, b);
    InvStep(s, b[0]);
    RunEvolves(s', b[1..]);
    assert s'.rows[b[0].id].status == Running;
  }

  // ----- the life of a job

  /** The intended transitions: pending to running to success or failed, or pending to cancelled. */
  predicate IntendedMove(a: Status, b: Status) {
    || a == b
    || (a == Pending && (b == Running || b == Cancelled))
    || (a == Running && (b == Success || b == Failed))
  }

  /** One status after another along intended moves. */
  predicate Reaches(a: Status, b: Status) {
    a == b || a == Pending || (a == Running && (b == Success || b == Failed))
  }

  lemma ReachesIsPathOfMoves(a: Status, b: Status, c: Status)
    ensures IntendedMove(a, b) ==> Reaches(a, b)
    ensures Reaches(a, b) && IntendedMove(b, c) ==> Reaches(a, c)
    ensures Terminal(a) && Reaches(a, b) ==> a == b
  {
  }

  /** A step that does not fall into one of the two read-write gaps. */
  predicate OutsideGaps(s: State, step: Step) {
    match step
    case CancelWrite(client, _) =>
      client in s.readers && s.readers[client] in s.rows ==>
        s.rows[s.readers[client]].status == Pending || s.rows[s.readers[client]].status == Cancelled
    case SweepWrite(_, id, _, _) =>
      id in s.rows ==> s.rows[id].status == Running || s.rows[id].status == Failed
    case _ => true
  }

  /** A sweep that writes was right about the worker being dead. */
  predicate ProbeIsRight(s: State, step: Step) {
    step.SweepWrite? ==> step.pid in s.dead
  }

  /** A process id that comes back has no running job left over from its former owner. */
  ghost predicate ReuseIsClean(s: State, step: Step) {
    step.Reuse? ==> forall id | id in s.rows && s.rows[id].status == Running :: s.rows[id].workerPid != Some(step.pid)
  }

  ghost predicate Undisturbed(s: State, step: Step) {
    OutsideGaps(s, step) && ProbeIsRight(s, step) && ReuseIsClean(s, step)
  }

  ghost predicate RunUndisturbed(s: State, steps: seq<Step>)
    decreases |steps|
  {
    steps == [] || (Undisturbed(s, steps[0]) && RunUndisturbed(Apply(s, steps[0]), steps[1..]))
  }

  /**
    The timestamps and the worker id are set exactly as the status says; whether a cancelled job has an end time
    depends on which cancellation it was, see CancelsFit.
   */
  predicate FieldsFit(job: Job) {
    match job.status
    case Pending => job.startedAt.None? && job.workerPid.None? && job.finishedAt.None?
    case Running => job.startedAt.Some? && job.workerPid.Some? && job.finishedAt.None?
    case Success => job.startedAt.Some? && job.workerPid.Some? && job.finishedAt.Some?
    case Failed => job.startedAt.Some? && job.workerPid.Some? && job.finishedAt.Some?
    case Cancelled => job.startedAt.None? && job.workerPid.None?
  }

  ghost predicate FieldsOk(rows: Rows) {
    forall id | id in rows :: FieldsFit(rows[id])
  }

  /** A running job whose worker lives is the one that worker is busy with, and a busy worker's job is running. */
  ghost predicate OwnersOk(s: State) {
    && (forall id | id in s.rows && s.rows[id].status == Running ::
          s.rows[id].workerPid.Some? &&
          (s.rows[id].workerPid.value !in s.dead ==>
             s.rows[id].workerPid.value in s.busy && s.busy[s.rows[id].workerPid.value] == id))
    && forall pid | pid in s.busy :: s.busy[pid] in s.rows && s.rows[s.busy[pid]].status == Running
  }

  /**
    The jobs that the read-then-write cancellation reported are cancelled, and they are exactly the cancelled ones
    with an end time: the guarded cancellation sets none.
   */
  ghost predicate CancelsFit(rows: Rows, reported: set<JobId>) {
    && (forall id | id in reported :: id in rows && rows[id].status == Cancelled)
    && forall id | id in rows && rows[id].status == Cancelled :: rows[id].finishedAt.Some? <==> id in reported
  }

  ghost predicate LifeInv(s: State) {
    Inv(s) && FieldsOk(s.rows) && OwnersOk(s)
  }

  ghost predicate MovesAsIntended(rows: Rows, rows': Rows) {
    forall id | id in rows :: id in rows' && IntendedMove(rows[id].status, rows'[id].status)
  }

  lemma UpdateMoves(rows: Rows, id: JobId, job: Job)
    requires FieldsOk(rows) && id in rows && IntendedMove(rows[id].status, job.status) && FieldsFit(job)
    ensures MovesAsIntended(rows, rows[id := job]) && FieldsOk(rows[id := job])
  {
  }

  lemma InsertMoves(rows: Rows, id: JobId, spec: JobSpec, now: nat)
    requires FieldsOk(rows) && id !in rows
    ensures MovesAsIntended(rows, Inserted(rows, id, spec, now)) && FieldsOk(Inserted(rows, id, spec, now))
  {
  }

  lemma NothingMoves(rows: Rows)
    ensures MovesAsIntended(rows, rows)
  {
  }

  /** The row a step rewrites, if it rewrites one. */
  function Target(s: State, step: Step): Option<JobId> {
    match step
    case Claim(_, id, _) => Some(id)
    case Finish(pid, _, _, _, _) => if pid in s.busy then Some(s.busy[pid]) else None
    case Cancel(id) => if id in s.rows && s.rows[id].status == Pending then Some(id) else None
    case CancelWrite(client, _) => if client in s.readers then Some(s.readers[client]) else None
    case SweepWrite(_, id, _, _) => Some(id)
    case _ => None
  }

  /** In a state of the protocol, every step that rewrites a row rewrites one that exists, and only that one. */
  lemma TargetRow(s: State, step: Step)
    requires Inv(s) && Enabled(s, step)
    ensures var s' := Apply(s, step);
            match Target(s, step)
            case Some(id) => id in s.rows && id in s'.rows && s'.rows == s.rows[id := s'.rows[id]]
            case None => s'.rows == if step.Submit? then Inserted(s.rows, step.id, step.spec, step.now) else s.rows
  {
    hide ClaimsOk, GrantedOk;
    assert BusyOk(s.rows, s.busy, s.dead) && SweepsOk(s.rows, s.sweeps);
    if step.SweepWrite? {
      assert ClaimedBy(s.rows, (step.id, step.pid).0, (step.id, step.pid).1);
    }
  }

  lemma TargetMoves(s: State, step: Step, id: JobId)
    requires LifeInv(s) && Enabled(s, step) && OutsideGaps(s, step) && Target(s, step) == Some(id)
    requires id in s.rows && id in Apply(s, step).rows
    ensures IntendedMove(s.rows[id].status, Apply(s, step).rows[id].status) && FieldsFit(Apply(s, step).rows[id])
  {
    assert FieldsFit(s.rows[id]);
  }

  /** Outside the gaps every step moves every job as intended and keeps the fields in line with the status. */
  lemma MovesStep(s: State, step: Step)
    requires LifeInv(s) && Enabled(s, step) && OutsideGaps(s, step)
    ensures MovesAsIntended(s.rows, Apply(s, step).rows)
    ensures FieldsOk(Apply(s, step).rows)
  {
    hide FieldsOk, OwnersOk, Inv, MovesAsIntended, Apply, Enabled, OutsideGaps, FieldsFit;
    assert FieldsOk(s.rows) && Inv(s);
    TargetRow(s, step);
    NothingMoves(s.rows);
    match Target(s, step)
    case Some(id) =>
      TargetMoves(s, step, id);
      UpdateMoves(s.rows, id, Apply(s, step).rows[id]);
    case None =>
      if step.Submit? {
        SubmitEnabled(s, step);
        InsertMoves(s.rows, step.id, step.spec, step.now);
      }
  }

  lemma SubmitEnabled(s: State, step: Step)
    requires Enabled(s, step) && step.Submit?
    ensures step.id !in s.rows
  {
  }

  /** The owner of a running row, in a state with the given workers. */
  predicate OwnerFits(id: JobId, job: Job, dead: set<nat>, busy: map<nat, JobId>) {
    job.status == Running ==>
      && job.workerPid.Some?
      && (job.workerPid.value !in dead ==> job.workerPid.value in busy && busy[job.workerPid.value] == id)
  }

  lemma OwnersStep(s: State, step: Step)
    requires LifeInv(s) && Enabled(s, step) && Undisturbed(s, step)
    ensures OwnersOk(Apply(s, step))
  {
    var s' := Apply(s, step);
    TargetRow(s, step);
    BusyRunning(s, step);
    forall id | id in s'.rows
      ensures OwnerFits(id, s'.rows[id], s'.dead, s'.busy)
    {
      OwnerStep(s, step, id);
    }
  }

  lemma OwnerStep(s: State, step: Step, id: JobId)
    requires LifeInv(s) && Enabled(s, step) && Undisturbed(s, step)
    requires id in Apply(s, step).rows
    ensures var s' := Apply(s, step); OwnerFits(id, s'.rows[id], s'.dead, s'.busy)
  {
    hide ClaimsOk, SweepsOk, GrantedOk, FieldsOk;
    assert id in s.rows ==> OwnerFits(id, s.rows[id], s.dead, s.busy);
  }

  lemma BusyRunning(s: State, step: Step)
    requires LifeInv(s) && Enabled(s, step) && Undisturbed(s, step)
    ensures var s' := Apply(s, step);
            forall pid | pid in s'.busy :: s'.busy[pid] in s'.rows && s'.rows[s'.busy[pid]].status == Running
  {
    hide ClaimsOk, GrantedOk, FieldsOk;
    var s' := Apply(s, step);
    assert BusyOk(s.rows, s.busy, s.dead) && SweepsOk(s.rows, s.sweeps);
    forall pid | pid in s'.busy
      ensures s'.busy[pid] in s'.rows && s'.rows[s'.busy[pid]].status == Running
    {
      if step.SweepWrite? {
        assert ClaimedBy(s.rows, (step.id, step.pid).0, (step.id, step.pid).1);
      }
      if pid in s.busy {
        assert ClaimedBy(s.rows, s.busy[pid], pid);
      }
    }
  }

  /** A step outside the gaps that is not a worker's late end write: its job is running, or already has that status. */
  predicate Guarded(s: State, step: Step) {
    OutsideGaps(s, step) &&
    match step
    case Finish(pid, status, _, _, _) =>
      pid in s.busy && s.busy[pid] in s.rows ==>
        s.rows[s.busy[pid]].status == Running || s.rows[s.busy[pid]].status == status
    case _ => true
  }

  lemma OneMoves(rows: Rows, id: JobId, job: Job)
    requires id in rows
    ensures MovesAsIntended(rows, rows[id := job]) <==> IntendedMove(rows[id].status, job.status)
  {
    assert (rows[id := job])[id] == job;
  }

  lemma NewMoves(rows: Rows, id: JobId, spec: JobSpec, now: nat)
    requires id !in rows
    ensures MovesAsIntended(rows, Inserted(rows, id, spec, now))
  {
  }

  lemma TargetGuarded(s: State, step: Step, id: JobId)
    requires Enabled(s, step) && Target(s, step) == Some(id) && id in s.rows && id in Apply(s, step).rows
    ensures IntendedMove(s.rows[id].status, Apply(s, step).rows[id].status) <==> Guarded(s, step)
  {
  }

  lemma NoTargetGuarded(s: State, step: Step)
    requires Enabled(s, step) && Target(s, step) == None
    ensures Guarded(s, step)
  {
  }

  /**
    In every interleaving, whatever has gone wrong before: a step moves some job against the intended life cycle
    exactly when it is a late write, of a read-then-write cancellation, of a stale sweep, or of a worker that ends a
    job which was cancelled or swept meanwhile.
   */
  lemma OnlyLateWritesBreakTheLifecycle(s: State, step: Step)
    requires Inv(s) && Enabled(s, step)
    ensures MovesAsIntended(s.rows, Apply(s, step).rows) <==> Guarded(s, step)
  {
    hide *;
    TargetRow(s, step);
    match Target(s, step)
    case Some(id) =>
      TargetGuarded(s, step, id);
      OneMoves(s.rows, id, Apply(s, step).rows[id]);
    case None =>
      NoTargetGuarded(s, step);
      NothingMoves(s.rows);
      if step.Submit? {
        SubmitEnabled(s, step);
        NewMoves(s.rows, step.id, step.spec, step.now);
      }
  }

  /** As long as nothing has gone wrong before, only the two gaps can break the life cycle. */
  lemma OnlyGapsBreakTheLifecycle(s: State, step: Step)
    requires LifeInv(s) && Enabled(s, step)
    ensures MovesAsIntended(s.rows, Apply(s, step).rows) <==> OutsideGaps(s, step)
  {
    OnlyLateWritesBreakTheLifecycle(s, step);
    hide Inv, FieldsOk, MovesAsIntended, Apply;
  }

  lemma {:induction false} LifecycleRun(s: State, steps: seq<Step>)
    requires LifeInv(s) && Legal(s, steps) && RunUndisturbed(s, steps)
    ensures LifeInv(Exec(s, steps))
    ensures forall id | id in s.rows ::
              id in Exec(s, steps).rows && Reaches(s.rows[id].status, Exec(s, steps).rows[id].status)
    ensures CancelsFit(s.rows, s.reported) ==> CancelsFit(Exec(s, steps).rows, Exec(s, steps).reported)
    decreases |steps|
  {
    hide Inv, FieldsOk, OwnersOk, CancelsFit, Apply, Enabled, Undisturbed;
    if steps != [] {
      LifeStep(s, steps[0]);
      if CancelsFit(s.rows, s.reported) {
        CancelsStep(s, steps[0]);
      }
      LifecycleRun(Apply(s, steps[0]), steps[1..]);
    }
  }

  lemma CancelsStep(s: State, step: Step)
    requires LifeInv(s) && Enabled(s, step) && Undisturbed(s, step) && CancelsFit(s.rows, s.reported)
    ensures CancelsFit(Apply(s, step).rows, Apply(s, step).reported)
  {
    LifeIsSound(s);
    hide *;
    TargetRow(s, step);
    var s' := Apply(s, step);
    match Target(s, step)
    case Some(id) =>
      TargetCancels(s, step, id);
      OneCancels(s.rows, s.reported, id, s'.rows[id], s'.reported);
    case None =>
      NothingReported(s, step);
      if step.Submit? {
        SubmitEnabled(s, step);
        NewCancels(s.rows, s.reported, step.id, step.spec, step.now);
      }
  }

  lemma LifeIsSound(s: State)
    requires LifeInv(s)
    ensures Inv(s)
  {
  }

  lemma NothingReported(s: State, step: Step)
    requires Enabled(s, step) && Target(s, step) == None
    ensures Apply(s, step).reported == s.reported
  {
  }

  lemma NewCancels(rows: Rows, reported: set<JobId>, id: JobId, spec: JobSpec, now: nat)
    requires CancelsFit(rows, reported) && id !in rows
    ensures CancelsFit(Inserted(rows, id, spec, now), reported)
  {
  }

  /** What a step makes of the row it rewrites. */
  lemma TargetCancels(s: State, step: Step, id: JobId)
    requires LifeInv(s) && Enabled(s, step) && Undisturbed(s, step) && CancelsFit(s.rows, s.reported)
    requires Target(s, step) == Some(id) && id in s.rows && id in Apply(s, step).rows
    ensures var job, reported := Apply(s, step).rows[id], Apply(s, step).reported;
            && (reported == s.reported || reported == s.reported + {id})
            && (id in reported ==> job.status == Cancelled)
            && (job.status == Cancelled ==> (job.finishedAt.Some? <==> id in reported))
  {
    assert FieldsFit(s.rows[id]);
    hide Inv, FieldsOk;
  }

  lemma OneCancels(rows: Rows, reported: set<JobId>, id: JobId, job: Job, reported': set<JobId>)
    requires CancelsFit(rows, reported) && id in rows && (reported' == reported || reported' == reported + {id})
    requires id in reported' ==> job.status == Cancelled
    requires job.status == Cancelled ==> (job.finishedAt.Some? <==> id in reported')
    ensures CancelsFit(rows[id := job], reported')
  {
  }

  lemma LifeStep(s: State, step: Step)
    requires LifeInv(s) && Enabled(s, step) && Undisturbed(s, step)
    ensures LifeInv(Apply(s, step)) && MovesAsIntended(s.rows, Apply(s, step).rows)
  {
    hide Inv, FieldsOk, OwnersOk, MovesAsIntended;
    assert Inv(s);
    InvStep(s, step);
    MovesStep(s, step);
    OwnersStep(s, step);
  }

  /**
    The life cycle, for every run outside the gaps with right probes and every point of it: from there on each job
    only moves along pending, running, success or failed, or from pending to cancelled, and a terminal status stays;
    at the end the fields fit the status, a cancelled job has an end time exactly if the read-then-write cancellation
    reported it, and a live worker owns at most one running job.
   */
  lemma Lifecycle(before: seq<Step>, after: seq<Step>)
    requires Legal(INIT, before + after) && RunUndisturbed(INIT, before + after)
    ensures var s, t := Exec(INIT, before), Exec(INIT, before + after);
            && FieldsOk(t.rows) && CancelsFit(t.rows, t.reported)
            && (forall id | id in s.rows :: id in t.rows && Reaches(s.rows[id].status, t.rows[id].status))
            && (forall id | id in s.rows && Terminal(s.rows[id].status) :: t.rows[id].status == s.rows[id].status)
            && (forall a, b | a in t.rows && b in t.rows && t.rows[a].status == Running && t.rows[b].status == Running
                              && t.rows[a].workerPid == t.rows[b].workerPid
                              && t.rows[a].workerPid.value !in t.dead :: a == b)
  {
    InitInv();
    assert LifeInv(INIT);
    ExecConcat(INIT, before, after);
    GapsConcat(INIT, before, after);
    LifecycleRun(INIT, before);
    LifecycleRun(Exec(INIT, before), after);
  }

  // ----- what breaks ownership and finality, exactly

  /** The rest of a run, if it is legal and undisturbed, ends with job id failed. */
  ghost predicate EndsFailed(s: State, after: seq<Step>, id: JobId) {
    Legal(s, after) && RunUndisturbed(s, after) ==>
      id in Exec(s, after).rows && Exec(s, after).rows[id].status == Failed
  }

  /**
    A job that a sweep marks failed stays failed, however the run goes on undisturbed, exactly if its worker is dead
    at that moment.
   */
  lemma SweptIsFinalIffDead(s: State, step: Step)
    requires LifeInv(s) && Enabled(s, step) && step.SweepWrite?
    requires step.id in s.rows && s.rows[step.id].status == Running
    ensures step.pid in s.dead <==> forall after: seq<Step> :: EndsFailed(Apply(s, step), after, step.id)
  {
    hide *;
    SweepFails(s, step);
    if step.pid in s.dead {
      RightSweepIsUndisturbed(s, step);
      LifeStep(s, step);
      forall after: seq<Step>
        ensures EndsFailed(Apply(s, step), after, step.id)
      {
        FailedForGood(Apply(s, step), after, step.id);
      }
    } else {
      LiveWorkerRevives(s, step);
    }
  }

  lemma SweepFails(s: State, step: Step)
    requires Enabled(s, step) && step.SweepWrite? && step.id in s.rows
    ensures step.id in Apply(s, step).rows && Apply(s, step).rows[step.id].status == Failed
  {
  }

  lemma RightSweepIsUndisturbed(s: State, step: Step)
    requires step.SweepWrite? && step.id in s.rows && s.rows[step.id].status == Running && step.pid in s.dead
    ensures Undisturbed(s, step)
  {
  }

  lemma FailedForGood(s: State, after: seq<Step>, id: JobId)
    requires LifeInv(s) && id in s.rows && s.rows[id].status == Failed
    ensures EndsFailed(s, after, id)
  {
    hide LifeInv, Legal, RunUndisturbed, Exec;
    if Legal(s, after) && RunUndisturbed(s, after) {
      LifecycleRun(s, after);
    }
  }

  /** A live worker only has to finish its job. */
  lemma LiveWorkerRevives(s: State, step: Step)
    requires LifeInv(s) && Enabled(s, step) && step.SweepWrite? && step.pid !in s.dead
    requires step.id in s.rows && s.rows[step.id].status == Running
    ensures exists after: seq<Step> :: !EndsFailed(Apply(s, step), after, step.id)
  {
    assert ClaimedBy(s.rows, (step.id, step.pid).0, (step.id, step.pid).1);
    assert step.pid in s.busy && s.busy[step.pid] == step.id;
    hide ClaimsOk, ViewsOk, GrantedOk, FieldsOk, OwnersOk;
    var finish := Finish(step.pid, Success, None, "", 0);
    var s' := Apply(s, step);
    assert Enabled(s', finish) && Undisturbed(s', finish);
    assert Apply(s', finish).rows[step.id].status == Success;
    Once(s', finish);
    assert !EndsFailed(s', [finish], step.id);
  }

  lemma Once(s: State, step: Step)
    ensures Exec(s, [step]) == Apply(s, step)
    ensures Legal(s, [step]) <==> Enabled(s, step)
    ensures RunUndisturbed(s, [step]) <==> Undisturbed(s, step)
  {
  }

  /** Reusing a process id keeps every running job with the worker it belongs to exactly if no job was left over. */
  lemma OwnershipSurvivesCleanReuse(s: State, pid: nat)
    requires LifeInv(s) && pid in s.dead
    ensures OwnersOk(Apply(s, Reuse(pid))) <==> ReuseIsClean(s, Reuse(pid))
  {
    assert BusyOk(s.rows, s.busy, s.dead);
    hide ClaimsOk, SweepsOk, GrantedOk, FieldsOk;
  }

  lemma {:induction false} GapsConcat(s: State, a: seq<Step>, b: seq<Step>)
    ensures RunUndisturbed(s, a + b) <==> RunUndisturbed(s, a) && RunUndisturbed(Exec(s, a), b)
    decreases |a|
  {
    if a == [] {
      assert a + b == b;
    } else {
      assert (a + b)[0] == a[0] && (a + b)[1..] == a[1..] + b;
      GapsConcat(Apply(s, a[0]), a[1..], b);
    }
  }

  // ----- the races, as runs

  /** A job can be reported cancelled and still be claimed and end in success. */
  lemma CancelRace(spec: JobSpec) returns (steps: seq<Step>)
    ensures Legal(INIT, steps)
    ensures var end := Exec(INIT, steps);
            "a" in end.reported && end.claims["a"] == 1 && "a" in end.rows && end.rows["a"].status == Success
  {
    hide Legal, Exec;
    Empty();
    var s := INIT;
    steps := [];
    steps, s := Then(steps, s, Submit("a", spec, 0));
    steps, s := Then(steps, s, CancelRead(1, "a"));
    steps, s := Then(steps, s, Claim(7, "a", 1));
    steps, s := Then(steps, s, CancelWrite(1, 2));
    steps, s := Then(steps, s, Finish(7, Success, Some(1), "", 3));
  }

  lemma Empty()
    ensures Legal(INIT, []) && Exec(INIT, []) == INIT
  {
  }

  lemma Then(steps: seq<Step>, s: State, step: Step) returns (steps': seq<Step>, s': State)
    requires Legal(INIT, steps) && Exec(INIT, steps) == s && Enabled(s, step)
    ensures steps' == steps + [step] && s' == Apply(s, step)
    ensures Legal(INIT, steps') && Exec(INIT, steps') == s'
  {
    ExecConcat(INIT, steps, [step]);
    steps', s' := steps + [step], Apply(s, step);
  }

  /** A stale sweep can turn a job that ended in success into a failed one. */
  lemma SweepRace(spec: JobSpec) returns (before: seq<Step>, steps: seq<Step>)
    ensures Legal(INIT, steps) && before <= steps
    ensures "a" in Exec(INIT, before).rows && Exec(INIT, before).rows["a"].status == Success
    ensures "a" in Exec(INIT, steps).rows && Exec(INIT, steps).rows["a"].status == Failed
  {
    hide Legal, Exec;
    Empty();
    var s := INIT;
    steps := [];
    steps, s := Then(steps, s, Submit("a", spec, 0));
    steps, s := Then(steps, s, Claim(7, "a", 1));
    steps, s := Then(steps, s, SweepRead(1));
    assert ("a", 7) in s.sweeps[1];
    steps, s := Then(steps, s, Finish(7, Success, Some(1), "", 2));
    before := steps;
    steps, s := Then(steps, s, Die(7));
    steps, s := Then(steps, s, SweepWrite(1, "a", 7, 3));
  }

  /** A sweep whose probe takes a live worker for dead fails a job that then ends in success. */
  lemma MistakenSweep(spec: JobSpec) returns (before: seq<Step>, steps: seq<Step>)
    ensures Legal(INIT, steps) && before <= steps
    ensures "a" in Exec(INIT, before).rows && Exec(INIT, before).rows["a"].status == Failed
    ensures "a" in Exec(INIT, steps).rows && Exec(INIT, steps).rows["a"].status == Success
  {
    hide Legal, Exec;
    Empty();
    var s := INIT;
    steps := [];
    steps, s := Then(steps, s, Submit("a", spec, 0));
    steps, s := Then(steps, s, Claim(7, "a", 1));
    steps, s := Then(steps, s, SweepRead(1));
    assert ("a", 7) in s.sweeps[1];
    steps, s := Then(steps, s, SweepWrite(1, "a", 7, 2));
    before := steps;
    steps, s := Then(steps, s, Finish(7, Success, Some(1), "", 3));
  }

  /** A reused process id can own two running jobs. */
  lemma ReuseRace(spec: JobSpec) returns (steps: seq<Step>)
    ensures Legal(INIT, steps)
    ensures var end := Exec(INIT, steps);
            && 7 !in end.dead && "a" in end.rows && "b" in end.rows
            && end.rows["a"].status == Running && end.rows["a"].workerPid == Some(7)
            && end.rows["b"].status == Running && end.rows["b"].workerPid == Some(7)
  {
    hide Legal, Exec;
    Empty();
    var s := INIT;
    steps := [];
    steps, s := Then(steps, s, Submit("a", spec, 0));
    steps, s := Then(steps, s, Claim(7, "a", 1));
    steps, s := Then(steps, s, Submit("b", spec, 2));
    steps, s := Then(steps, s, Die(7));
    steps, s := Then(steps, s, Reuse(7));
    steps, s := Then(steps, s, Claim(7, "b", 3));
  }
}
