/** The enrollment job as it runs: methods over the stored row and results, each computing what `EnrollmentJob`
    specifies. */
module EnrollmentJobStore {
  import opened Text
  import opened Enrollment
  import opened EnrollmentJob
  import opened EnrollmentJobRuns
  import R = Rollout
  import G = Gates

  class JobStore {
    const env: Environment
    var row: Row
    var commissioned: seq<G.Result>
    var qualified: seq<G.Result>
    var revision: nat
    var calls: nat

    ghost function Now(): Ledger
      reads this
    {
      Ledger(row, commissioned, qualified, revision, calls)
    }

    constructor (env: Environment, t: Ledger)
      ensures this.env == env && Now() == t
    {
      this.env, row, commissioned, qualified, revision, calls :=
        env, t.row, t.commissioned, t.qualified, t.revision, t.calls;
    }

    method Submit(d: Decision) returns (error: Option<JobError>)
      modifies this
      ensures Done(Now(), error) == Submitted(env, old(Now()), d)
    {
      error := env.broker(calls);
      if error.None? {
        if d.Refuse? {
          error := Some(Refused);
        } else if d.Write? {
          row := Apply(row, d.patch);
          revision := revision + 1;
        }
      }
      calls := calls + 1;
    }

    method Transition(dst: Lifecycle, reason: bool) returns (error: Option<JobError>)
      modifies this
      ensures Done(Now(), error) == Transitioned(env, old(Now()), dst, reason)
    {
      error :=
        Submit(DecideTransition(row, Request(dst, reason, None, None), env.evidence(calls), env.now(calls), revision));
    }

    method RecordCheck(gate: G.Gate, check: string) returns (error: Option<JobError>)
      modifies this
      ensures Done(Now(), error) == CheckRecorded(env, old(Now()), gate, check)
    {
      var result := CheckResult(env, calls, gate, check);
      error := env.broker(calls);
      if error.None? || env.storedAnyway(calls) {
        if gate.Commissioning? {
          commissioned := [result] + commissioned;
        } else {
          qualified := [result] + qualified;
        }
      }
      if error.Some? {
        calls := calls + 1;
      } else {
        error := Submit(DecideValidation(row, gate, if gate.Commissioning? then commissioned else qualified, revision));
      }
    }

    method ReconcilePosture(observed: Health) returns (error: Option<JobError>)
      modifies this
      ensures Done(Now(), error) == PostureReconciled(env, old(Now()), observed)
    {
      error := Submit(DecidePosture(row, observed, env.evidence(calls), revision));
    }

    /** `quarantine`. */
    method Quarantine(error: JobError)
      modifies this
      ensures Now() == Isolated(env, old(Now()), error)
    {
      var _ := Transition(Quarantined, ReasonAccepted(error));
      var _ := ReconcilePosture(Degraded);
    }

    method RunCheck(gate: G.Gate, check: string, failed: seq<string>) returns (error: Option<JobError>,
                    after: seq<string>)
      modifies this
      ensures Ran(Now(), error, after) == OneMoreRun(env, Ran(old(Now()), None, failed), gate, check)
    {
      after := if CheckPasses(env, calls, gate, check) then failed else failed + [check];
      error := RecordCheck(gate, check);
    }

    /** The loop of `run_gate`: the first failing call ends it. */
    method RunChecks(gate: G.Gate, required: seq<string>) returns (error: Option<JobError>, failed: seq<string>)
      modifies this
      ensures Ran(Now(), error, failed) == ChecksRun(env, Ran(old(Now()), None, []), gate, required)
    {
      failed, error := [], None;
      ghost var start := Ran(Now(), None, []);
      assert required[0..] == required;
      for i := 0 to |required|
        invariant error.None?
        invariant ChecksRun(env, start, gate, required) == ChecksRun(env, Ran(Now(), None, failed), gate, required[i..])
      {
        ghost var before := Ran(Now(), None, failed);
        error, failed := RunCheck(gate, required[i], failed);
        ChecksRunStep(env, before, gate, required[i..]);
        assert required[i..][1..] == required[i + 1..];
        if error.Some? {
          return;
        }
      }
    }

    /** `run_gate`: every required check is run and its result recorded, then the gate fails if any check failed. */
    method RunGate(gate: G.Gate) returns (error: Option<JobError>)
      modifies this
      ensures Done(Now(), error) == GateRun(env, old(Now()), gate)
      ensures RowOk(old(row)) && GateRuns(gate, old(row).lifecycle) && ReliableFrom(env, old(calls)) ==>
                var required := Required(old(row), gate);
                var failed := FailedAfter(env, gate, required, old(calls), []);
                && (required == [] ==> error == Some(NotConfigured))
                && (required != [] ==> error == if failed == [] then None else Some(ChecksFailed(failed)))
                && (required != [] ==> StoredOf(Now(), gate) == ResultsAfter(env, gate, required, old(calls),
                                                                             old(StoredOf(Now(), gate))))
    {
      ghost var before := Now();
      if RowOk(row) && GateRuns(gate, row.lifecycle) && ReliableFrom(env, calls) {
        GateRunExactly(env, before, gate);
        ChecksRunThrough(env, before, gate, Required(row, gate));
        ChecksRunExactly(env, Ran(before, None, []), gate, Required(row, gate));
      }
      var required := Required(row, gate);
      if required == [] {
        return Some(NotConfigured);
      }
      var failed;
      error, failed := RunChecks(gate, required);
      if error.None? && failed != [] {
        error := Some(ChecksFailed(failed));
      }
    }

    method RunGateStage(gate: G.Gate, dst: Lifecycle) returns (p: Pass)
      modifies this
      ensures Passed(Now(), p) == GateStage(env, old(Now()), gate, dst)
    {
      var error := RunGate(gate);
      if error.Some? {
        Quarantine(error.value);
        return Stop(GateFailed(gate));
      }
      error := Transition(dst, false);
      p := if error.Some? then Stop(StepFailed) else Continue;
    }

    method RunPlanStage() returns (p: Pass)
      modifies this
      ensures Passed(Now(), p) == PlanStage(env, old(Now()))
    {
      if SetupOutstanding(row.plan) {
        return Stop(SetupRequired);
      }
      var receipt := if row.plan.NotPlanned? then None else row.plan.receipt;
      var error := Submit(DecidePlan(row, Ready(Sorted(R.Features(row.profile)), receipt), revision));
      if error.None? {
        error := Transition(Configuring, false);
      }
      p := if error.Some? then Stop(StepFailed) else Continue;
    }

    method RunRepairStage() returns (p: Pass)
      modifies this
      ensures Passed(Now(), p) == RepairStage(env, old(Now()))
    {
      match env.repair
      case Repaired =>
        var error := Transition(Qualifying, false);
        p := if error.Some? then Stop(StepFailed) else Continue;
      case SafeStopped =>
        Quarantine(Stopped);
        p := Stop(RepairFailed(Stopped));
      case RepairError(error) =>
        Quarantine(error);
        p := Stop(RepairFailed(error));
    }

    method RunActiveStage(requalify: bool) returns (p: Pass)
      modifies this
      ensures Passed(Now(), p) == ActiveStage(env, old(Now()), requalify)
    {
      var error: Option<JobError>;
      if requalify {
        error := RunGate(G.Qualification);
        if error.Some? {
          Quarantine(error.value);
          return Stop(GateFailed(G.Qualification));
        }
      }
      error := ReconcilePosture(Healthy);
      p := Stop(if error.Some? then StepFailed else Succeeded);
    }

    method RunStage(requalify: bool) returns (p: Pass)
      modifies this
      ensures Passed(Now(), p) == Stage(env, old(Now()), requalify)
    {
      match row.lifecycle
      case Discovered =>
        var error := Transition(Commissioning, false);
        p := if error.Some? then Stop(StepFailed) else Continue;
      case Commissioning => p := RunGateStage(G.Commissioning, ReadyToConfigure);
      case ReadyToConfigure => p := RunPlanStage();
      case Configuring => p := RunRepairStage();
      case Qualifying => p := RunGateStage(G.Qualification, Active);
      case Active => p := RunActiveStage(requalify);
      case _ => p := Stop(NotEligible);
    }

    method RunPass(target: string, requalify: bool) returns (p: Pass)
      modifies this
      ensures Passed(Now(), p) == PassOnce(Stages(env, requalify), env, old(Now()), target)
    {
      var error := env.broker(calls);
      calls := calls + 1;
      assert Now() == old(Now()).(calls := old(calls) + 1);
      if error.Some? {
        p := Stop(StepFailed);
      } else if row.target != target {
        p := Stop(NotEligible);
      } else {
        p := RunStage(requalify);
      }
    }

    /** `run`: at most eight passes, of which it never needs more than six. It keeps the gate invariant, succeeds
        into service except where a requalification hides a stored failure, and with a serving broker isolates the
        server when a gate fails, and when a repair fails with an acceptable reason. */
    method Run(target: string, requalify: bool) returns (ended: Ended)
      requires RowOk(row)
      modifies this
      ensures Passed(Now(), Stop(ended)) == JobRun(env, old(Now()), target, requalify, PASSES)
      ensures ended != OutOfPasses && Kept(old(Now()), Now())
      ensures ended == Succeeded ==>
                if HidesFailure(env, old(Now()), requalify) then row.lifecycle == Quarantined
                  else row.lifecycle == Active
      ensures ended == Succeeded ==> row.health == Healthy
      ensures old(row).target != target ==> ended in {StepFailed, NotEligible} && row == old(row)
      ensures ended == SetupRequired ==> row.lifecycle == ReadyToConfigure && SetupOutstanding(row.plan)
      ensures ReliableFrom(env, old(calls)) && CheckNamesCanonical(old(row)) ==>
                && (ended.GateFailed? ==> row.lifecycle == Quarantined)
                && (ended.RepairFailed? ==> (row.lifecycle == Quarantined <==> ReasonAccepted(ended.error)))
    {
      ghost var start := Now();
      ended := RunPasses(target, requalify);
      JobEnds(env, start, target, requalify, PASSES);
      SuccessMeansService(env, start, target, requalify, PASSES);
      SetupIsOutstanding(env, start, target, requalify, PASSES);
      SuccessIsHealthy(env, start, target, requalify, PASSES);
      if start.row.target != target {
        OtherTargetUntouched(env, start, target, requalify);
      }
      if ReliableFrom(env, start.calls) && CheckNamesCanonical(start.row) {
        JobIsolates(env, start, target, requalify, PASSES);
      }
    }

    method RunPasses(target: string, requalify: bool) returns (ended: Ended)
      modifies this
      ensures Passed(Now(), Stop(ended)) == JobRun(env, old(Now()), target, requalify, PASSES)
    {
      for i := 0 to PASSES
        invariant JobRun(env, old(Now()), target, requalify, PASSES) ==
                  JobRun(env, Now(), target, requalify, PASSES - i)
      {
        ghost var before := Now();
        var p := RunPass(target, requalify);
        JobRunStep(env, before, target, requalify, PASSES - i, Passed(Now(), p));
        if p.Stop? {
          return p.ended;
        }
      }
      JobRunOut(env, Now(), target, requalify);
      return OutOfPasses;
    }
  }
}
