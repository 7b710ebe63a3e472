/** How a job's outcome follows from what happened in a run: what its recipe returned, whether that was recorded, and
    whether it was cancelled while running. */
module JobOutcomes {
  import opened Database
  import opened JobRuntime

  // ---- A task goes one way, once ----

  function Rank(p: Phase): nat {
    match p
    case Waiting => 0
    case Working => 1
    case Recording(_) => 2
    case Publishing(_, _) => 3
  }

  predicate Starting(request: Request, id: JobId) {
    (request.Reconciled? || request.Recorded? || request.Spawned? || request.Inserted?) && request.id == id
  }

  /** The job has been started, and its task, if it still has one, has come this far. */
  predicate Past(s: State, id: JobId, rank: nat) {
    id in s.rows && !Starting(s.request, id) && (id in s.tasks ==> Rank(s.tasks[id].phase) >= rank)
  }

  lemma PastStays(s: State, step: Step, id: JobId, rank: nat)
    requires Inv(s) && Enabled(s, step) && Past(s, id, rank) && 1 <= rank
    ensures Past(After(s, step), id, rank)
  {
  }

  lemma PastAfterFinish(s: State, id: JobId, ok: bool)
    requires Inv(s) && Enabled(s, TaskFinish(id, ok))
    ensures Past(After(s, TaskFinish(id, ok)), id, 2)
  {
    assert JobOk(s, id);
  }

  lemma PastAfterRecord(s: State, id: JobId, write: Write)
    requires Inv(s) && Enabled(s, TaskRecord(id, write))
    ensures Past(After(s, TaskRecord(id, write)), id, 3)
  {
    assert JobOk(s, id);
  }

  lemma {:induction false} PastFromThenOn(steps: seq<Step>, n: nat, id: JobId, rank: nat)
    requires Legal(steps) && n <= |steps| && Legal(steps[..n]) && Past(StateAfter(steps[..n]), id, rank) && 1 <= rank
    ensures Past(StateAfter(steps), id, rank)
  {
    if n == |steps| {
      assert steps[..n] == steps;
    } else {
      var earlier := Before(steps);
      assert earlier[..n] == steps[..n];
      PastFromThenOn(earlier, n, id, rank);
      InvHolds(earlier);
      PastStays(StateAfter(earlier), steps[|steps| - 1], id, rank);
    }
  }

  /** The state in which a step was taken, and the one it led to. */
  lemma StepTaken(steps: seq<Step>, n: nat)
    requires Legal(steps) && n < |steps|
    ensures Legal(steps[..n]) && Legal(steps[..n + 1]) && Inv(StateAfter(steps[..n]))
    ensures Enabled(StateAfter(steps[..n]), steps[n])
    ensures StateAfter(steps[..n + 1]) == After(StateAfter(steps[..n]), steps[n])
  {
    PrefixIsLegal(steps, n);
    PrefixIsLegal(steps, n + 1);
    assert Before(steps[..n + 1]) == steps[..n];
    InvHolds(steps[..n]);
  }

  lemma PastBetween(steps: seq<Step>, n: nat, m: nat, id: JobId, rank: nat)
    requires Legal(steps) && n < m < |steps| && 1 <= rank
    requires Legal(steps[..n + 1]) && Past(StateAfter(steps[..n + 1]), id, rank)
    ensures Legal(steps[..m]) && Past(StateAfter(steps[..m]), id, rank)
  {
    PrefixIsLegal(steps, m);
    assert steps[..m][..n + 1] == steps[..n + 1];
    PastFromThenOn(steps[..m], n + 1, id, rank);
  }

  /** A job's recipe returns at most once. */
  lemma FinishesOnce(steps: seq<Step>, n: nat, m: nat, id: JobId)
    requires Legal(steps) && n < |steps| && m < |steps|
    requires steps[n].TaskFinish? && steps[n].task == id && steps[m].TaskFinish? && steps[m].task == id
    ensures n == m
  {
    StepTaken(steps, n);
    StepTaken(steps, m);
    PastAfterFinish(StateAfter(steps[..n]), id, steps[n].ok);
    PastAfterFinish(StateAfter(steps[..m]), id, steps[m].ok);
    if n < m {
      PastBetween(steps, n, m, id, 2);
    } else if m < n {
      PastBetween(steps, m, n, id, 2);
    }
  }

  /** Its end is recorded at most once. */
  lemma RecordsOnce(steps: seq<Step>, n: nat, m: nat, id: JobId)
    requires Legal(steps) && n < |steps| && m < |steps|
    requires steps[n].TaskRecord? && steps[n].task == id && steps[m].TaskRecord? && steps[m].task == id
    ensures n == m
  {
    StepTaken(steps, n);
    StepTaken(steps, m);
    PastAfterRecord(StateAfter(steps[..n]), id, steps[n].write);
    PastAfterRecord(StateAfter(steps[..m]), id, steps[m].write);
    if n < m {
      PastBetween(steps, n, m, id, 3);
    } else if m < n {
      PastBetween(steps, m, n, id, 3);
    }
  }

  // ---- What a phase and a status tell ----

  /** The recipe returned at step `n`, in this process. */
  predicate Returned(steps: seq<Step>, n: int, id: JobId, ok: bool) {
    0 <= n < |steps| && steps[n] == TaskFinish(id, ok) && Restart !in steps[n..]
  }

  /** And its end was recorded at step `m`. */
  predicate Reported(steps: seq<Step>, n: int, m: int, id: JobId, ok: bool, write: Write) {
    Returned(steps, n, id, ok) && n < m < |steps| && steps[m] == TaskRecord(id, write)
  }

  ghost predicate PhaseTold(steps: seq<Step>, p: Phase, id: JobId) {
    && (p.Recording? ==>
          exists n, ok :: Returned(steps, n, id, ok) && p.outcome == if ok then Succeeded else Failed)
    && (p.Publishing? ==>
          exists n, m, ok, write ::
            Reported(steps, n, m, id, ok, write) && p.outcome == (if ok then Succeeded else Failed)
            && (p.recorded <==> write == Done))
  }

  lemma Longer(steps: seq<Step>, n: int)
    requires steps != [] && 0 <= n < |steps| - 1 && steps[|steps| - 1] != Restart
    ensures Restart in steps[n..] <==> Restart in Before(steps)[n..]
  {
    assert steps[n..] == Before(steps)[n..] + [steps[|steps| - 1]];
  }

  lemma ReturnedStays(steps: seq<Step>, n: int, id: JobId, ok: bool)
    requires steps != [] && steps[|steps| - 1] != Restart && Returned(Before(steps), n, id, ok)
    ensures Returned(steps, n, id, ok)
  {
    Longer(steps, n);
  }

  lemma PhaseToldStays(steps: seq<Step>, p: Phase, id: JobId)
    requires steps != [] && steps[|steps| - 1] != Restart && PhaseTold(Before(steps), p, id)
    ensures PhaseTold(steps, p, id)
  {
    if p.Recording? {
      var n, ok :| Returned(Before(steps), n, id, ok) && p.outcome == if ok then Succeeded else Failed;
      ReturnedStays(steps, n, id, ok);
    } else if p.Publishing? {
      var n, m, ok, write :|
        Reported(Before(steps), n, m, id, ok, write) && p.outcome == (if ok then Succeeded else Failed)
        && (p.recorded <==> write == Done);
      ReturnedStays(steps, n, id, ok);
      assert Reported(steps, n, m, id, ok, write);
    }
  }

  lemma PhaseToldNext(steps: seq<Step>, p: Phase, id: JobId)
    requires steps != [] && (steps[|steps| - 1].TaskFinish? || steps[|steps| - 1].TaskRecord?)
    requires steps[|steps| - 1].task == id && PhaseTold(Before(steps), p, id)
    requires steps[|steps| - 1].TaskRecord? ==> p.Recording?
    ensures var last := steps[|steps| - 1];
            && (last.TaskFinish? ==> PhaseTold(steps, Recording(if last.ok then Succeeded else Failed), id))
            && (last.TaskRecord? ==> PhaseTold(steps, Publishing(p.outcome, last.write == Done), id))
  {
    var k := |steps| - 1;
    if steps[k].TaskFinish? {
      assert steps[k..] == [steps[k]];
      assert Returned(steps, k, id, steps[k].ok);
    } else {
      var n, ok :| Returned(Before(steps), n, id, ok) && p.outcome == if ok then Succeeded else Failed;
      ReturnedStays(steps, n, id, ok);
      assert Reported(steps, n, k, id, ok, steps[k].write);
    }
  }

  lemma {:induction false} PhaseIsTold(steps: seq<Step>, id: JobId)
    requires Legal(steps)
    ensures id in StateAfter(steps).tasks ==> PhaseTold(steps, StateAfter(steps).tasks[id].phase, id)
  {
    if steps != [] && id in StateAfter(steps).tasks {
      var s, last := StateAfter(Before(steps)), steps[|steps| - 1];
      PhaseIsTold(Before(steps), id);
      if id in s.tasks {
        if (last.TaskFinish? || last.TaskRecord?) && last.task == id {
          PhaseToldNext(steps, s.tasks[id].phase, id);
        } else {
          PhaseToldStays(steps, s.tasks[id].phase, id);
        }
      }
    }
  }

  // ---- The outcome ----

  /** The job's recipe returned, its end was recorded, and that was published. */
  predicate Ended(steps: seq<Step>, n: int, m: int, k: int, id: JobId, ok: bool, write: Write) {
    Reported(steps, n, m, id, ok, write) && m < k < |steps| && steps[k] == TaskPublish(id)
  }

  /** A cancellation found the job running. */
  ghost predicate CancelledAt(steps: seq<Step>, k: int, id: JobId) {
    && 0 <= k < |steps| && steps[k] == Cancel(id) && Restart !in steps[k..] && Legal(steps[..k])
    && id in StateAfter(steps[..k]).jobs && StateAfter(steps[..k]).jobs[id].status == Running
  }

  /** The status published for a recipe that returned, as its record was acknowledged or not. */
  function Outcome(ok: bool, write: Write): Status {
    if ok && write == Done then Succeeded else Failed
  }

  ghost predicate StatusTold(steps: seq<Step>, status: Status, id: JobId) {
    match status
    case Running => true
    case Cancelled => exists k :: CancelledAt(steps, k, id)
    case _ => exists n, m, k, ok, write :: Ended(steps, n, m, k, id, ok, write) && status == Outcome(ok, write)
  }

  lemma StatusToldStays(steps: seq<Step>, status: Status, id: JobId)
    requires steps != [] && steps[|steps| - 1] != Restart && StatusTold(Before(steps), status, id)
    ensures StatusTold(steps, status, id)
  {
    if status == Cancelled {
      var k :| CancelledAt(Before(steps), k, id);
      Longer(steps, k);
      assert Before(steps)[..k] == steps[..k];
      assert CancelledAt(steps, k, id);
    } else if status != Running {
      var n, m, k, ok, write :| Ended(Before(steps), n, m, k, id, ok, write) && status == Outcome(ok, write);
      ReturnedStays(steps, n, id, ok);
      assert Ended(steps, n, m, k, id, ok, write);
    }
  }

  /** What a task that is about to publish has behind it. */
  lemma PublishingTold(steps: seq<Step>, id: JobId) returns (n: int, m: int, ok: bool, write: Write)
    requires Legal(steps) && Enabled(StateAfter(steps), TaskPublish(id))
    ensures Reported(steps, n, m, id, ok, write)
    ensures var p := StateAfter(steps).tasks[id].phase;
            p.outcome == (if ok then Succeeded else Failed) && (p.recorded <==> write == Done)
  {
    PhaseIsTold(steps, id);
    var p := StateAfter(steps).tasks[id].phase;
    n, m, ok, write :|
      Reported(steps, n, m, id, ok, write) && p.outcome == (if ok then Succeeded else Failed)
      && (p.recorded <==> write == Done);
  }

  lemma PublishedStatus(steps: seq<Step>, id: JobId)
    requires Legal(steps) && steps != [] && steps[|steps| - 1] == TaskPublish(id)
    ensures id in StateAfter(steps).jobs && StatusTold(steps, StateAfter(steps).jobs[id].status, id)
  {
    var earlier := Before(steps);
    TaskFindsItsEntry(earlier, id);
    var n, m, ok, write := PublishingTold(earlier, id);
    ReturnedStays(steps, n, id, ok);
    assert Ended(steps, n, m, |earlier|, id, ok, write);
  }

  lemma {:induction false} StatusIsTold(steps: seq<Step>, id: JobId)
    requires Legal(steps)
    ensures id in StateAfter(steps).jobs ==> StatusTold(steps, StateAfter(steps).jobs[id].status, id)
  {
    if steps != [] && id in StateAfter(steps).jobs {
      var earlier, last := Before(steps), steps[|steps| - 1];
      StatusIsTold(earlier, id);
      if last == TaskPublish(id) {
        PublishedStatus(steps, id);
      } else if last == Cancel(id) && StateAfter(earlier).jobs[id].status == Running {
        assert steps[|steps| - 1..] == [last];
        assert CancelledAt(steps, |steps| - 1, id);
      } else if id in StateAfter(earlier).jobs {
        StatusToldStays(steps, StateAfter(earlier).jobs[id].status, id);
      }
    }
  }

  /** Two moments after which nothing restarts: what had ended by the first stands at the second. */
  lemma EndStands(steps: seq<Step>, k: nat, id: JobId)
    requires Legal(steps) && k < |steps| && Restart !in steps[k..] && Legal(steps[..k + 1])
    requires id in StateAfter(steps[..k + 1]).jobs && StateAfter(steps[..k + 1]).jobs[id].status != Running
    ensures id in StateAfter(steps).jobs && StateAfter(steps).jobs[id] == StateAfter(steps[..k + 1]).jobs[id]
  {
    assert forall step :: step in steps[k + 1..] ==> step in steps[k..];
    EndedIsForGood(steps, k + 1, id);
  }

  /** How a job ended, published, is how it stands. */
  lemma EndedStatus(steps: seq<Step>, n: int, m: int, k: int, id: JobId, ok: bool, write: Write)
    requires Legal(steps) && Ended(steps, n, m, k, id, ok, write)
    ensures id in StateAfter(steps).jobs && StateAfter(steps).jobs[id].status == Outcome(ok, write)
  {
    PublishEnds(steps, n, m, k, id, ok, write);
    assert forall step :: step in steps[k..] ==> step in steps[n..];
    EndStands(steps, k, id);
  }

  lemma PublishEnds(steps: seq<Step>, n: int, m: int, k: int, id: JobId, ok: bool, write: Write)
    requires Legal(steps) && Ended(steps, n, m, k, id, ok, write)
    ensures Legal(steps[..k + 1]) && id in StateAfter(steps[..k + 1]).jobs
    ensures StateAfter(steps[..k + 1]).jobs[id].status == Outcome(ok, write)
  {
    StepTaken(steps, k);
    TaskFindsItsEntry(steps[..k], id);
    var n', m', ok', write' := PublishingTold(steps[..k], id);
    FinishesOnce(steps, n, n', id);
    RecordsOnce(steps, m, m', id);
  }

  lemma CancelStands(steps: seq<Step>, k: nat, id: JobId)
    requires Legal(steps) && CancelledAt(steps, k, id)
    ensures id in StateAfter(steps).jobs && StateAfter(steps).jobs[id].status == Cancelled
  {
    StepTaken(steps, k);
    EndStands(steps, k, id);
  }

  /** In every run, a job held in memory has succeeded if and only if its recipe returned a success whose record was
      acknowledged, and that was published; it has failed if and only if a failure, or an end whose record was not
      acknowledged, was published; and it is cancelled if and only if a cancellation found it running. */
  lemma OutcomeExactly(steps: seq<Step>, id: JobId)
    requires Legal(steps) && id in StateAfter(steps).jobs
    ensures var status := StateAfter(steps).jobs[id].status;
            && (status == Succeeded <==> exists n, m, k :: Ended(steps, n, m, k, id, true, Done))
            && (status == Failed <==>
                  exists n, m, k, ok, write :: Ended(steps, n, m, k, id, ok, write) && (!ok || write != Done))
            && (status == Cancelled <==> exists k :: CancelledAt(steps, k, id))
  {
    StatusIsTold(steps, id);
    forall n, m, k, ok, write | Ended(steps, n, m, k, id, ok, write)
      ensures StateAfter(steps).jobs[id].status == Outcome(ok, write)
    {
      EndedStatus(steps, n, m, k, id, ok, write);
    }
    forall k | CancelledAt(steps, k, id) ensures StateAfter(steps).jobs[id].status == Cancelled {
      CancelStands(steps, k, id);
    }
  }

  // ---- The row of an ended job ----

  /** An acknowledged record of how the task ended is in the row. */
  predicate RowRecorded(s: State, id: JobId) {
    id in s.tasks && s.tasks[id].phase.Publishing? && s.tasks[id].phase.recorded ==>
      id in s.rows && s.rows[id].status == s.tasks[id].phase.outcome
  }

  lemma RowRecordedStays(s: State, step: Step, id: JobId)
    requires Inv(s) && Enabled(s, step) && RowRecorded(s, id)
    ensures RowRecorded(After(s, step), id)
  {
    assert JobOk(s, id);
  }

  lemma {:induction false} RowIsRecorded(steps: seq<Step>, id: JobId)
    requires Legal(steps)
    ensures RowRecorded(StateAfter(steps), id)
  {
    if steps != [] {
      RowIsRecorded(Before(steps), id);
      InvHolds(Before(steps));
      RowRecordedStays(StateAfter(Before(steps)), steps[|steps| - 1], id);
    }
  }

  /** The job has ended, and its row says the same. */
  predicate Settled(s: State, id: JobId, status: Status) {
    && status != Running && id in s.jobs && s.jobs[id].status == status && id in s.rows && s.rows[id].status == status
    && id !in s.tasks && !Starting(s.request, id) && !Cancels(s.request, id)
  }

  lemma SettledStays(s: State, step: Step, id: JobId, status: Status)
    requires Inv(s) && Enabled(s, step) && Settled(s, id, status) && step != Restart
    ensures Settled(After(s, step), id, status)
  {
  }

  lemma {:induction false} SettledFromThenOn(steps: seq<Step>, n: nat, id: JobId, status: Status)
    requires Legal(steps) && n <= |steps| && Restart !in steps[n..]
    requires Legal(steps[..n]) && Settled(StateAfter(steps[..n]), id, status)
    ensures Settled(StateAfter(steps), id, status)
  {
    if n == |steps| {
      assert steps[..n] == steps;
    } else {
      var earlier, last := Before(steps), steps[|steps| - 1];
      assert earlier[..n] == steps[..n] && last == steps[n..][|steps| - 1 - n];
      assert forall step :: step in earlier[n..] ==> step in steps[n..];
      SettledFromThenOn(earlier, n, id, status);
      InvHolds(earlier);
      SettledStays(StateAfter(earlier), last, id, status);
    }
  }

  lemma PublishSettles(s: State, id: JobId)
    requires Inv(s) && RowRecorded(s, id) && Enabled(s, TaskPublish(id)) && s.tasks[id].phase.recorded
    ensures Settled(After(s, TaskPublish(id)), id, s.tasks[id].phase.outcome)
  {
    assert JobOk(s, id);
  }

  /** A job whose recipe returned and whose end was recorded and published says in memory and in its row what the
      recipe returned. */
  lemma RowExactly(steps: seq<Step>, n: int, m: int, k: int, id: JobId, ok: bool)
    requires Legal(steps) && Ended(steps, n, m, k, id, ok, Done)
    ensures Settled(StateAfter(steps), id, if ok then Succeeded else Failed)
  {
    SettlesAt(steps, n, m, k, id, ok);
    assert forall step :: step in steps[k + 1..] ==> step in steps[n..];
    SettledFromThenOn(steps, k + 1, id, if ok then Succeeded else Failed);
  }

  lemma SettlesAt(steps: seq<Step>, n: int, m: int, k: int, id: JobId, ok: bool)
    requires Legal(steps) && Ended(steps, n, m, k, id, ok, Done)
    ensures Legal(steps[..k + 1])
    ensures Settled(StateAfter(steps[..k + 1]), id, if ok then Succeeded else Failed)
  {
    StepTaken(steps, k);
    RowIsRecorded(steps[..k], id);
    var n', m', ok', write' := PublishingTold(steps[..k], id);
    FinishesOnce(steps, n, n', id);
    RecordsOnce(steps, m, m', id);
    PublishSettles(StateAfter(steps[..k]), id);
  }
}
