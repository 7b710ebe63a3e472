/** The job table: `start_job` with the task it spawns, `poll_job` and `cancel_job`, over jobs in memory and rows in
    the database.

    Requests are served one at a time, so at most one start or cancellation is under way; tasks interleave with it
    freely. Every stretch between two waits is one step. An aborted task takes no further step. */
module JobRuntime {
  import opened Database

  type JobId = string

  datatype Status = Running | Succeeded | Failed | Cancelled

  datatype Job = Job(target: string, status: Status)

  /** Where a spawned task is: waiting for the start signal, running its recipe, about to record how it ended, about
      to publish that. */
  datatype Phase = Waiting | Working | Recording(outcome: Status) | Publishing(outcome: Status, recorded: bool)

  /** A task keeps the target it was spawned for. */
  datatype Task = Task(target: string, phase: Phase)

  /** Where the request being served is. */
  datatype Request =
    | NoRequest
    | Reconciled(id: JobId, target: string)
    | Recorded(id: JobId, target: string)
    | Spawned(id: JobId, target: string)
    | Inserted(id: JobId)
    | Cancelling(id: JobId, target: string)

  /** `unsure` holds the jobs one of whose writes was not acknowledged. */
  datatype State = State(
    jobs: map<JobId, Job>,
    rows: map<JobId, Job>,
    tasks: map<JobId, Task>,
    request: Request,
    unsure: set<JobId>)

  datatype Step =
    | StartReconcile(id: JobId, target: string, write: Write)
    | StartRecord(write: Write)
    | StartSpawn
    | StartInsert
    | StartSignal
    | TaskFinish(task: JobId, ok: bool)
    | TaskRecord(task: JobId, write: Write)
    | TaskPublish(task: JobId)
    | Cancel(job: JobId)
    | CancelRecord(write: Write)
    | Poll(job: JobId)
    | Restart

  const START := State(map[], map[], map[], NoRequest, {})

  // ---- Database writes ----

  /** `record_job_state`: an upsert by job id. */
  function Upsert(rows: map<JobId, Job>, id: JobId, job: Job, write: Write): map<JobId, Job> {
    if write == Dropped then rows else rows[id := job]
  }

  /** `reconcile_orphaned_job_runs`: rows of the target that say running become failed. */
  function Orphaned(rows: map<JobId, Job>, target: string): map<JobId, Job> {
    map id | id in rows :: if rows[id] == Job(target, Running) then Job(target, Failed) else rows[id]
  }

  function Noted(unsure: set<JobId>, id: JobId, write: Write): set<JobId> {
    if write == Done then unsure else unsure + {id}
  }

  function Moved(tasks: map<JobId, Task>, id: JobId, phase: Phase): map<JobId, Task> {
    if id in tasks then tasks[id := tasks[id].(phase := phase)] else tasks
  }

  predicate Cancels(request: Request, id: JobId) {
    request.Cancelling? && request.id == id
  }

  // ---- Steps ----

  predicate Fresh(s: State, id: JobId) {
    id !in s.rows && id !in s.jobs && id !in s.tasks && id !in s.unsure
  }

  predicate Enabled(s: State, step: Step) {
    match step
    case StartReconcile(id, _, _) => s.request.NoRequest? && Fresh(s, id)
    case StartRecord(_) => s.request.Reconciled?
    case StartSpawn => s.request.Recorded?
    case StartInsert => s.request.Spawned?
    case StartSignal => s.request.Inserted?
    case TaskFinish(id, _) => id in s.tasks && s.tasks[id].phase.Working?
    case TaskRecord(id, _) => id in s.tasks && s.tasks[id].phase.Recording?
    case TaskPublish(id) => id in s.tasks && s.tasks[id].phase.Publishing?
    case Cancel(_) => s.request.NoRequest?
    case CancelRecord(_) => s.request.Cancelling?
    case Poll(_) => s.request.NoRequest?
    case Restart => true
  }

  /** The status a finished task gives its job; a task that finds no entry, or a cancelled one, publishes nothing. */
  function Published(s: State, id: JobId): map<JobId, Job>
    requires id in s.tasks && s.tasks[id].phase.Publishing?
  {
    if id !in s.jobs || s.jobs[id].status == Cancelled then s.jobs
    else s.jobs[id := s.jobs[id].(status := if s.tasks[id].phase.recorded then s.tasks[id].phase.outcome else Failed)]
  }

  function After(s: State, step: Step): State
    requires Enabled(s, step)
  {
    match step
    case StartReconcile(id, target, write) =>
      s.(rows := if write == Dropped then s.rows else Orphaned(s.rows, target),
         request := if write == Done then Reconciled(id, target) else NoRequest)
    case StartRecord(write) =>
      var id, target := s.request.id, s.request.target;
      s.(rows := Upsert(s.rows, id, Job(target, Running), write),
         request := if write == Done then Recorded(id, target) else NoRequest,
         unsure := Noted(s.unsure, id, write))
    case StartSpawn =>
      s.(tasks := s.tasks[s.request.id := Task(s.request.target, Waiting)],
         request := Spawned(s.request.id, s.request.target))
    case StartInsert =>
      s.(jobs := s.jobs[s.request.id := Job(s.request.target, Running)], request := Inserted(s.request.id))
    case StartSignal =>
      s.(tasks := Moved(s.tasks, s.request.id, Working), request := NoRequest)
    case TaskFinish(id, ok) =>
      s.(tasks := Moved(s.tasks, id, Recording(if ok then Succeeded else Failed)))
    case TaskRecord(id, write) =>
      var outcome := s.tasks[id].phase.outcome;
      s.(rows := Upsert(s.rows, id, Job(s.tasks[id].target, outcome), write),
         tasks := Moved(s.tasks, id, Publishing(outcome, write == Done)),
         unsure := Noted(s.unsure, id, write))
    case TaskPublish(id) =>
      s.(jobs := Published(s, id), tasks := s.tasks - {id})
    case Cancel(id) =>
      if id in s.jobs && s.jobs[id].status == Running
      then s.(jobs := s.jobs[id := s.jobs[id].(status := Cancelled)], tasks := s.tasks - {id},
              request := Cancelling(id, s.jobs[id].target))
      else s
    case CancelRecord(write) =>
      var id := s.request.id;
      s.(rows := Upsert(s.rows, id, Job(s.request.target, Cancelled), write),
         request := NoRequest,
         unsure := Noted(s.unsure, id, write))
    case Poll(_) => s
    case Restart => s.(jobs := map[], tasks := map[], request := NoRequest)
  }

  // ---- What every step keeps ----

  /** The task of a job runs exactly while the job is running, from its start signal on. */
  predicate TaskOk(s: State, id: JobId) {
    && (id in s.tasks && s.tasks[id].phase.Waiting? ==>
          s.request == Inserted(id) || (s.request.Spawned? && s.request.id == id))
    && (id in s.tasks && !s.tasks[id].phase.Waiting? ==> id in s.jobs && s.jobs[id].status == Running)
    && (id in s.tasks && (s.tasks[id].phase.Recording? || s.tasks[id].phase.Publishing?) ==>
          s.tasks[id].phase.outcome in {Succeeded, Failed})
    && (id in s.jobs && s.jobs[id].status == Running ==> id in s.tasks)
    && (id in s.tasks && id in s.jobs ==> s.tasks[id].target == s.jobs[id].target)
  }

  /** A job in memory has a row of the same target. */
  predicate RowOk(s: State, id: JobId) {
    id in s.jobs ==> id in s.rows && s.rows[id].target == s.jobs[id].target
  }

  /** What has been recorded about a job whose writes were all acknowledged. */
  predicate RecordOk(s: State, id: JobId) {
    id !in s.unsure ==>
      && (id in s.tasks && s.tasks[id].phase.Publishing? ==>
            s.tasks[id].phase.recorded && id in s.rows && s.rows[id].status == s.tasks[id].phase.outcome)
      && (id in s.jobs && s.jobs[id].status != Running && !Cancels(s.request, id) ==>
            id in s.rows && s.rows[id].status == s.jobs[id].status)
  }

  /** A row that says running has a live task, is being started or cancelled, has an unacknowledged write, or
      outlived its process. */
  predicate RunningRowOk(s: State, id: JobId) {
    id in s.rows && s.rows[id].status == Running ==>
      id in s.tasks || id in s.unsure || Cancels(s.request, id) || id !in s.jobs
  }

  predicate RequestOk(s: State) {
    match s.request
    case NoRequest => true
    case Reconciled(id, target) => Fresh(s, id) && forall k :: k in s.rows ==> s.rows[k] != Job(target, Running)
    case Recorded(id, target) => id in s.rows && s.rows[id].target == target && id !in s.jobs && id !in s.tasks
    case Spawned(id, target) =>
      && id in s.rows && s.rows[id].target == target && id !in s.jobs
      && id in s.tasks && s.tasks[id] == Task(target, Waiting)
    case Inserted(id) => id in s.jobs && s.jobs[id].status == Running && id in s.tasks && s.tasks[id].phase == Waiting
    case Cancelling(id, target) => id in s.jobs && s.jobs[id] == Job(target, Cancelled)
  }

  predicate OneRunningRow(s: State) {
    forall a, b :: a in s.rows && b in s.rows && s.rows[a].status == Running && s.rows[b] == s.rows[a] ==> a == b
  }

  predicate JobOk(s: State, id: JobId) {
    TaskOk(s, id) && RowOk(s, id) && RecordOk(s, id) && RunningRowOk(s, id)
  }

  ghost predicate Inv(s: State) {
    RequestOk(s) && OneRunningRow(s) && forall id :: JobOk(s, id)
  }

  lemma KeepsTaskOk(s: State, step: Step, id: JobId)
    requires Enabled(s, step) && RequestOk(s) && JobOk(s, id)
    ensures TaskOk(After(s, step), id) && RowOk(After(s, step), id)
  {
  }

  lemma KeepsRecordOk(s: State, step: Step, id: JobId)
    requires Enabled(s, step) && RequestOk(s) && JobOk(s, id)
    ensures RecordOk(After(s, step), id)
  {
  }

  lemma KeepsRunningRowOk(s: State, step: Step, id: JobId)
    requires Enabled(s, step) && RequestOk(s) && JobOk(s, id)
    ensures RunningRowOk(After(s, step), id)
  {
  }

  /** The job a step of a task or a cancellation is about. */
  function Subject(step: Step): JobId {
    match step
    case TaskFinish(id, _) => id
    case TaskRecord(id, _) => id
    case TaskPublish(id) => id
    case Cancel(id) => id
    case _ => ""
  }

  lemma KeepsRequestOk(s: State, step: Step)
    requires Enabled(s, step) && RequestOk(s) && JobOk(s, Subject(step))
    ensures RequestOk(After(s, step))
  {
  }

  lemma KeepsOneRunningRow(s: State, step: Step)
    requires Enabled(s, step) && RequestOk(s) && OneRunningRow(s) && JobOk(s, Subject(step))
    ensures OneRunningRow(After(s, step))
  {
  }

  lemma KeepsInv(s: State, step: Step)
    requires Inv(s) && Enabled(s, step)
    ensures Inv(After(s, step))
  {
    forall id ensures JobOk(After(s, step), id) {
      assert JobOk(s, id);
      KeepsTaskOk(s, step, id);
      KeepsRecordOk(s, step, id);
      KeepsRunningRowOk(s, step, id);
    }
    assert JobOk(s, Subject(step));
    KeepsRequestOk(s, step);
    KeepsOneRunningRow(s, step);
  }

  // ---- Runs ----

  ghost predicate Legal(steps: seq<Step>)
    decreases |steps|, 0
  {
    steps == [] || (Legal(Before(steps)) && Enabled(StateAfter(Before(steps)), steps[|steps| - 1]))
  }

  function Before(steps: seq<Step>): seq<Step>
    requires steps != []
  {
    steps[..|steps| - 1]
  }

  ghost function StateAfter(steps: seq<Step>): State
    requires Legal(steps)
    decreases |steps|, 1
  {
    if steps == [] then START else After(StateAfter(Before(steps)), steps[|steps| - 1])
  }

  lemma {:induction false} InvHolds(steps: seq<Step>)
    requires Legal(steps)
    ensures Inv(StateAfter(steps))
  {
    if steps != [] {
      InvHolds(Before(steps));
      KeepsInv(StateAfter(Before(steps)), steps[|steps| - 1]);
    }
  }

  /** At most one row of a target says running. */
  lemma OneRunningRowPerTarget(steps: seq<Step>, a: JobId, b: JobId)
    requires Legal(steps)
    ensures var rows := StateAfter(steps).rows;
            a in rows && b in rows && rows[a].status == Running && rows[b] == rows[a] ==> a == b
  {
    InvHolds(steps);
  }

  /** A task that comes to publish always finds its entry, and finds it still running. */
  lemma TaskFindsItsEntry(steps: seq<Step>, id: JobId)
    requires Legal(steps) && Enabled(StateAfter(steps), TaskPublish(id))
    ensures var s := StateAfter(steps); id in s.jobs && s.jobs[id].status == Running
  {
    InvHolds(steps);
    assert JobOk(StateAfter(steps), id);
  }

  /** A job that has ended says the same in memory and in its row, unless its cancellation is being recorded or a
      write was not acknowledged. */
  lemma MemoryAgreesWithRow(steps: seq<Step>, id: JobId)
    requires Legal(steps)
    requires var s :=
      StateAfter(steps); id in s.jobs && s.jobs[id].status != Running && id !in s.unsure && !Cancels(s.request, id)
    ensures var s := StateAfter(steps); id in s.rows && s.rows[id] == s.jobs[id]
  {
    InvHolds(steps);
    assert JobOk(StateAfter(steps), id);
  }

  /** A row that says running is explained. */
  lemma RunningRowIsExplained(steps: seq<Step>, id: JobId)
    requires Legal(steps)
    requires var s := StateAfter(steps); id in s.rows && s.rows[id].status == Running
    ensures var s := StateAfter(steps); id in s.tasks || id in s.unsure || Cancels(s.request, id) || id !in s.jobs
  {
    InvHolds(steps);
    assert JobOk(StateAfter(steps), id);
  }

  /** One step keeps a job in memory, and changes its status only away from running. */
  lemma StepKeepsEnded(s: State, step: Step, id: JobId)
    requires Inv(s) && Enabled(s, step) && step != Restart && id in s.jobs
    ensures var after := After(s, step).jobs; id in after && (s.jobs[id].status != Running ==> after[id] == s.jobs[id])
  {
    assert JobOk(s, id);
    assert JobOk(s, Subject(step));
  }

  lemma {:induction false} PrefixIsLegal(steps: seq<Step>, n: nat)
    requires Legal(steps) && n <= |steps|
    ensures Legal(steps[..n])
  {
    if n < |steps| {
      PrefixIsLegal(Before(steps), n);
      assert Before(steps)[..n] == steps[..n];
    } else {
      assert steps[..n] == steps;
    }
  }

  /** Ended is for good: within one process a job never disappears, and once it has ended its status never changes. */
  lemma {:induction false} EndedIsForGood(steps: seq<Step>, n: nat, id: JobId)
    requires Legal(steps) && n <= |steps| && Restart !in steps[n..]
    requires Legal(steps[..n]) && id in StateAfter(steps[..n]).jobs
    ensures id in StateAfter(steps).jobs
    ensures StateAfter(steps[..n]).jobs[id].status != Running ==>
              StateAfter(steps).jobs[id] == StateAfter(steps[..n]).jobs[id]
  {
    if n == |steps| {
      assert steps[..n] == steps;
    } else {
      var earlier, last := Before(steps), steps[|steps| - 1];
      assert earlier[..n] == steps[..n];
      assert last == steps[n..][|steps| - 1 - n];
      assert forall step :: step in earlier[n..] ==> step in steps[n..];
      EndedIsForGood(earlier, n, id);
      InvHolds(earlier);
      StepKeepsEnded(StateAfter(earlier), last, id);
    }
  }

  /** A job's status changes at most once: if two moments differ, every later moment agrees with the second. */
  lemma StatusChangesAtMostOnce(steps: seq<Step>, n: nat, m: nat, id: JobId)
    requires Legal(steps) && n <= m <= |steps| && Restart !in steps[n..]
    requires Legal(steps[..n]) && Legal(steps[..m]) && id in StateAfter(steps[..n]).jobs
    ensures id in StateAfter(steps[..m]).jobs && id in StateAfter(steps).jobs
    ensures StateAfter(steps[..n]).jobs[id].status != StateAfter(steps[..m]).jobs[id].status ==>
              StateAfter(steps).jobs[id].status == StateAfter(steps[..m]).jobs[id].status
  {
    assert steps[..m][..n] == steps[..n];
    assert forall step :: step in steps[..m][n..] ==> step in steps[n..];
    EndedIsForGood(steps[..m], n, id);
    assert forall step :: step in steps[m..] ==> step in steps[n..];
    EndedIsForGood(steps, m, id);
  }
}

/** The runtime's own code, section by section: each method is one stretch between two waits. It makes its step of
    `JobRuntime`, keeps the joint invariant, and says what its caller may rely on. */
module JobTable {
  import opened Text
  import opened Database
  import opened JobRuntime

  class Runtime {
    var jobs: map<JobId, Job>
    var rows: map<JobId, Job>
    var tasks: map<JobId, Task>
    var request: Request
    ghost var unsure: set<JobId>

    ghost function Now(): State
      reads this
    {
      State(jobs, rows, tasks, request, unsure)
    }

    constructor ()
      ensures Now() == START && Inv(Now())
    {
      jobs, rows, tasks, request, unsure := map[], map[], map[], NoRequest, {};
    }

    /** `reconcile_orphaned_job_runs`: applied, it leaves no row of the target saying running, and touches no other. */
    method ReconcileOrphans(target: string, write: Write)
      modifies this`rows
      ensures rows == if write == Dropped then old(rows) else Orphaned(old(rows), target)
      ensures write != Dropped ==> forall k :: k in rows ==> rows[k] != Job(target, Running)
      ensures forall k :: k in old(rows) ==>
                k in rows && (old(rows)[k] != Job(target, Running) ==> rows[k] == old(rows)[k])
      ensures forall k :: write != Dropped && k in old(rows) && old(rows)[k] == Job(target, Running) ==>
                rows[k] == Job(target, Failed)
    {
      if write != Dropped {
        rows := map k | k in rows :: if rows[k].target == target && rows[k].status == Running then Job(target, Failed)
          else rows[k];
      }
    }

    /** The start of `start_job`: when it goes on, no row of the target says running any more; jobs and tasks are
        left alone. */
    method BeginStart(id: JobId, target: string, write: Write) returns (accepted: bool)
      requires Inv(Now()) && Enabled(Now(), StartReconcile(id, target, write))
      modifies this
      ensures Inv(Now()) && Now() == After(old(Now()), StartReconcile(id, target, write))
      ensures accepted ==> forall k :: k in rows ==> rows[k] != Job(target, Running)
      ensures forall k :: k in old(rows) ==>
                k in rows && (old(rows)[k] != Job(target, Running) ==> rows[k] == old(rows)[k])
      ensures jobs == old(jobs) && tasks == old(tasks)
    {
      ghost var before := Now();
      KeepsInv(before, StartReconcile(id, target, write));
      ReconcileOrphans(target, write);
      accepted := write == Done;
      if accepted {
        request := Reconciled(id, target);
      }
      assert Now() == After(before, StartReconcile(id, target, write));
    }

    /** `record_job_state`. */
    method RecordJobState(id: JobId, job: Job, write: Write) returns (acknowledged: bool)
      modifies this`rows, this`unsure
      ensures rows == Upsert(old(rows), id, job, write) && unsure == Noted(old(unsure), id, write)
      ensures acknowledged <==> write == Done
    {
      if write != Dropped {
        rows := rows[id := job];
      }
      acknowledged := write == Done;
      if !acknowledged {
        unsure := unsure + {id};
      }
    }

    /** The new job's row says running, and is the only one of its target that does. */
    method RecordStart(write: Write) returns (accepted: bool)
      requires Inv(Now()) && Enabled(Now(), StartRecord(write))
      modifies this
      ensures Inv(Now()) && Now() == After(old(Now()), StartRecord(write))
      ensures accepted ==> old(request).id in rows && rows[old(request).id] == Job(old(request).target, Running)
      ensures accepted ==>
                forall k :: k in rows && rows[k] == Job(old(request).target, Running) ==> k == old(request).id
    {
      KeepsInv(Now(), StartRecord(write));
      accepted := RecordJobState(request.id, Job(request.target, Running), write);
      request := if accepted then Recorded(request.id, request.target) else NoRequest;
    }

    method Spawn()
      requires Inv(Now()) && Enabled(Now(), StartSpawn)
      modifies this
      ensures Inv(Now()) && Now() == After(old(Now()), StartSpawn)
      ensures old(request).id in tasks && tasks[old(request).id].phase == Waiting
    {
      KeepsInv(Now(), StartSpawn);
      tasks := tasks[request.id := Task(request.target, Waiting)];
      request := Spawned(request.id, request.target);
    }

    method InsertEntry()
      requires Inv(Now()) && Enabled(Now(), StartInsert)
      modifies this
      ensures Inv(Now()) && Now() == After(old(Now()), StartInsert)
      ensures old(request).id in jobs && jobs[old(request).id].status == Running
    {
      KeepsInv(Now(), StartInsert);
      jobs := jobs[request.id := Job(request.target, Running)];
      request := Inserted(request.id);
    }

    /** The task may go on, and only now: its entry is in the table, running. */
    method Signal() returns (accepted: JobId)
      requires Inv(Now()) && Enabled(Now(), StartSignal)
      modifies this
      ensures Inv(Now()) && Now() == After(old(Now()), StartSignal) && accepted == old(request).id
      ensures accepted in tasks && tasks[accepted].phase == Working && accepted in jobs
      ensures jobs[accepted].status == Running
    {
      KeepsInv(Now(), StartSignal);
      accepted := request.id;
      tasks := tasks[accepted := tasks[accepted].(phase := Working)];
      request := NoRequest;
    }

    /** The recipe has returned; the task is about to record a success or a failure, as it did. */
    method FinishTask(id: JobId, ok: bool)
      requires Inv(Now()) && Enabled(Now(), TaskFinish(id, ok))
      modifies this
      ensures Inv(Now()) && Now() == After(old(Now()), TaskFinish(id, ok))
      ensures id in jobs && jobs[id].status == Running
      ensures id in tasks && tasks[id].phase == Recording(if ok then Succeeded else Failed)
    {
      KeepsInv(Now(), TaskFinish(id, ok));
      assert JobOk(Now(), id);
      tasks := tasks[id := tasks[id].(phase := Recording(if ok then Succeeded else Failed))];
    }

    /** An acknowledged record leaves the row as the task ended; the job itself still says running. */
    method RecordTask(id: JobId, write: Write)
      requires Inv(Now()) && Enabled(Now(), TaskRecord(id, write))
      modifies this
      ensures Inv(Now()) && Now() == After(old(Now()), TaskRecord(id, write))
      ensures id in jobs && jobs[id].status == Running
      ensures write == Done ==>
                id in rows && rows[id].status == old(tasks)[id].phase.outcome && rows[id].target == jobs[id].target
    {
      KeepsInv(Now(), TaskRecord(id, write));
      assert JobOk(Now(), id);
      var outcome := tasks[id].phase.outcome;
      var acknowledged := RecordJobState(id, Job(tasks[id].target, outcome), write);
      tasks := tasks[id := tasks[id].(phase := Publishing(outcome, acknowledged))];
    }

    /** The task finds its entry, still running, and gives it the recorded outcome, or failed when the record was
        not acknowledged; unless a write was lost, memory and row now agree. */
    method PublishTask(id: JobId)
      requires Inv(Now()) && Enabled(Now(), TaskPublish(id))
      modifies this
      ensures Inv(Now()) && Now() == After(old(Now()), TaskPublish(id))
      ensures id in old(jobs) && old(jobs)[id].status == Running && id in jobs
      ensures jobs[id].status == if old(tasks)[id].phase.recorded then old(tasks)[id].phase.outcome else Failed
      ensures jobs[id].status != Running && (id !in unsure ==> id in rows && rows[id] == jobs[id])
      ensures forall k :: k in old(jobs) && k != id ==> k in jobs && jobs[k] == old(jobs)[k]
    {
      KeepsInv(Now(), TaskPublish(id));
      assert JobOk(Now(), id) && JobOk(After(Now(), TaskPublish(id)), id);
      var phase := tasks[id].phase;
      tasks := tasks - {id};
      if id in jobs && jobs[id].status != Cancelled {
        if phase.recorded {
          jobs := jobs[id := jobs[id].(status := phase.outcome)];
        } else {
          jobs := jobs[id := jobs[id].(status := Failed)];
        }
      }
    }

    /** The part of `cancel_job` under the lock: the reported status, if there is such a job. A running job's task
        is gone. */
    method CancelJob(id: JobId) returns (report: Option<Status>)
      requires Inv(Now()) && Enabled(Now(), Cancel(id))
      modifies this
      ensures Inv(Now()) && Now() == After(old(Now()), Cancel(id))
      ensures report == if id in jobs then Some(jobs[id].status) else None
      ensures report.Some? ==> report.value != Running && id !in tasks
      ensures id in old(jobs) && old(jobs)[id].status != Running ==> jobs == old(jobs)
    {
      KeepsInv(Now(), Cancel(id));
      assert JobOk(After(Now(), Cancel(id)), id);
      if id !in jobs {
        return None;
      }
      if jobs[id].status == Running {
        tasks := tasks - {id};
        request := Cancelling(id, jobs[id].target);
        jobs := jobs[id := jobs[id].(status := Cancelled)];
      }
      report := Some(jobs[id].status);
    }

    /** An acknowledged record leaves the row saying what memory says. */
    method RecordCancel(write: Write) returns (acknowledged: bool)
      requires Inv(Now()) && Enabled(Now(), CancelRecord(write))
      modifies this
      ensures Inv(Now()) && Now() == After(old(Now()), CancelRecord(write))
      ensures acknowledged ==>
                old(request).id in jobs && old(request).id in rows && rows[old(request).id] == jobs[old(request).id]
    {
      KeepsInv(Now(), CancelRecord(write));
      acknowledged := RecordJobState(request.id, Job(request.target, Cancelled), write);
      request := NoRequest;
    }

    /** `poll_job`. */
    method PollJob(id: JobId) returns (report: Option<Status>)
      requires Inv(Now()) && Enabled(Now(), Poll(id))
      ensures report == if id in jobs then Some(jobs[id].status) else None
    {
      if id in jobs {
        return Some(jobs[id].status);
      }
      report := None;
    }
  }
}
