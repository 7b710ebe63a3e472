/** Plans, setup receipts and posture over whole runs: a receipt belongs to one reviewed rollout and is recorded
    once for it. */
module EnrollmentPlans {
  import opened Text
  import opened Enrollment
  import opened EnrollmentRuns
  import R = Rollout

  /** A reviewed plan lists the features of the pinned profile, and those a setup run may reapply are signed ones. */
  predicate PlanOk(row: Row) {
    row.plan.Reviewed? ==>
      && row.plan.features == Sorted(R.Features(row.profile))
      && (row.plan.reapply ==> R.Features(row.profile) <= R.REAPPLY)
  }

  predicate WritesPlan(call: Call) {
    call.ApplyRollout? || call.RecordPlan?
  }

  lemma ReapplyIsSigned(row: Row, desired: Desired)
    requires R.Decide(row.profile, desired.profile, row.requiredCommissioning, desired.requiredCommissioning) ==
             R.ToReadyToConfigure
    ensures R.Features(desired.profile) <= R.REAPPLY
  {
  }

  /** What a write does to plan and profile: only a rollout or a plan record replaces the plan, only a rollout the
      profile, and a setup record adds the one receipt of a plan that had none. */
  predicate PlanMoves(hd: Handler, row: Row, next: Row) {
    && (!hd.call.ApplyRollout? ==> next.profile == row.profile)
    && (!WritesPlan(hd.call) && !hd.call.RecordSetup? ==> next.plan == row.plan)
    && (hd.call.RecordPlan? ==> next.plan.Ready?)
    && (hd.call.ApplyRollout? ==> next.profile == hd.call.desired.profile)
    && (hd.call.RecordSetup? ==>
          && row.plan.Reviewed? && row.plan.reapply && row.plan.receipt.None? && row.plan.features == hd.call.features
          && next.plan == Reviewed(true, hd.call.features, Some(hd.call.targetRevision)))
  }

  lemma DecidedPlanMoves(hd: Handler, revision: nat)
    requires Decide(hd, revision).Write?
    ensures PlanMoves(hd, hd.row, Apply(hd.row, Decide(hd, revision).patch))
  {
    if hd.call.Transition? || hd.call.Validate? || hd.call.Posture? {
      OthersKeepPlan(hd, revision);
    }
  }

  lemma OthersKeepPlan(hd: Handler, revision: nat)
    requires Decide(hd, revision).Write? && (hd.call.Transition? || hd.call.Validate? || hd.call.Posture?)
    ensures var next := Apply(hd.row, Decide(hd, revision).patch);
            next.plan == hd.row.plan && next.profile == hd.row.profile
  {
  }

  lemma RolloutPlanOk(hd: Handler, revision: nat)
    requires Decide(hd, revision).Write? && hd.call.ApplyRollout?
    ensures PlanOk(Apply(hd.row, Decide(hd, revision).patch))
  {
    var desired := hd.call.desired;
    if R.Decide(hd.row.profile, desired.profile, hd.row.requiredCommissioning, desired.requiredCommissioning) ==
      R.ToReadyToConfigure {
      ReapplyIsSigned(hd.row, desired);
    }
  }

  lemma PlanStep(r: Run, i: nat, id: string)
    requires IsRun(r) && i < |r.steps| && WriteAt(r, i, id)
    ensures PlanMoves(r.states[i].handlers[r.steps[i].h], r.states[i].rows[id], r.states[i + 1].rows[id])
  {
    WriteDecided(r, i, id);
    DecidedPlanMoves(r.states[i].handlers[r.steps[i].h], r.steps[i].revision);
  }

  lemma PlanOkStep(r: Run, i: nat, id: string)
    requires IsRun(r) && i < |r.steps| && WriteAt(r, i, id) && PlanOk(r.states[i].rows[id])
    ensures PlanOk(r.states[i + 1].rows[id])
  {
    var hd := r.states[i].handlers[r.steps[i].h];
    PlanStep(r, i, id);
    if hd.call.ApplyRollout? {
      WriteDecided(r, i, id);
      RolloutPlanOk(hd, r.steps[i].revision);
    }
  }

  lemma NewRowPlanOk(s: State, step: Step, id: string)
    requires Inv(s) && Enabled(s, step)
    ensures id in After(s, step).rows && id !in s.rows ==> After(s, step).rows[id].plan == NotPlanned
  {
    if step.Commit? {
      assert HandlerOk(s, s.handlers[step.h]);
    }
  }

  /** In every state of every run, reviewed plans list exactly the features of the pinned profile. */
  lemma {:induction false} PlansMatchProfiles(r: Run, i: nat, id: string)
    requires IsRun(r) && i < |r.states| && id in r.states[i].rows
    ensures PlanOk(r.states[i].rows[id])
  {
    assert i > 0;
    assert StepAt(r, i - 1);
    GatesHoldInEveryState(r, i - 1);
    if id in r.states[i - 1].rows {
      PlansMatchProfiles(r, i - 1, id);
      RowStep(r, i - 1, id);
      if WriteAt(r, i - 1, id) {
        PlanOkStep(r, i - 1, id);
      }
    } else {
      NewRowPlanOk(r.states[i - 1], r.steps[i - 1], id);
    }
  }

  ghost predicate PlanWrittenAt(r: Run, k: nat, id: string)
    requires IsRun(r) && k < |r.steps|
  {
    WriteAt(r, k, id) && WritesPlan(r.states[k].handlers[r.steps[k].h].call)
  }

  /** Step `k` records a setup receipt. */
  ghost predicate ReceiptAt(r: Run, k: nat, id: string)
    requires IsRun(r) && k < |r.steps|
  {
    WriteAt(r, k, id) && r.states[k].handlers[r.steps[k].h].call.RecordSetup?
  }

  lemma {:induction false} ReceiptStays(r: Run, i: nat, j: nat, id: string)
    requires IsRun(r) && i <= j < |r.states| && id in r.states[i].rows
    requires r.states[i].rows[id].plan.Reviewed? && r.states[i].rows[id].plan.receipt.Some?
    requires forall k :: i <= k < j ==> !PlanWrittenAt(r, k, id)
    ensures id in r.states[j].rows && r.states[j].rows[id].plan == r.states[i].rows[id].plan
  {
    if i < j {
      ReceiptStays(r, i, j - 1, id);
      RowStep(r, j - 1, id);
      if WriteAt(r, j - 1, id) {
        PlanStep(r, j - 1, id);
        assert !PlanWrittenAt(r, j - 1, id);
      }
    }
  }

  /** Between any two recorded receipts a plan was written: a reviewed setup is recorded at most once. */
  lemma OneReceiptPerPlan(r: Run, i: nat, j: nat, id: string)
    requires IsRun(r) && i < j < |r.steps| && ReceiptAt(r, i, id) && ReceiptAt(r, j, id)
    ensures exists k :: i < k < j && PlanWrittenAt(r, k, id)
  {
    PlanStep(r, i, id);
    PlanStep(r, j, id);
    if forall k :: i < k < j ==> !PlanWrittenAt(r, k, id) {
      ReceiptStays(r, i + 1, j, id);
      assert false;
    }
  }

  /** One step back from a reviewed plan: a rollout has just written it, or it was there with the same profile. */
  lemma ReviewedStep(r: Run, j: nat, id: string)
    requires IsRun(r) && j < |r.states| && id in r.states[j].rows && r.states[j].rows[id].plan.Reviewed?
    ensures j > 0 && id in r.states[j - 1].rows
    ensures if PlanWrittenAt(r, j - 1, id)
            then var call := r.states[j - 1].handlers[r.steps[j - 1].h].call;
                 call.ApplyRollout? && r.states[j].rows[id].profile == call.desired.profile
            else && r.states[j - 1].rows[id].plan.Reviewed?
                 && r.states[j].rows[id].profile == r.states[j - 1].rows[id].profile
  {
    assert j > 0;
    assert StepAt(r, j - 1);
    GatesHoldInEveryState(r, j - 1);
    NewRowPlanOk(r.states[j - 1], r.steps[j - 1], id);
    RowStep(r, j - 1, id);
    if WriteAt(r, j - 1, id) {
      PlanStep(r, j - 1, id);
    }
  }

  /** A reviewed plan was put there by a rollout that pinned the profile, and no plan was written since. */
  lemma {:induction false} PlanCameFrom(r: Run, j: nat, id: string) returns (a: nat)
    requires IsRun(r) && j < |r.states| && id in r.states[j].rows && r.states[j].rows[id].plan.Reviewed?
    ensures a < j && PlanWrittenAt(r, a, id) && r.states[a].handlers[r.steps[a].h].call.ApplyRollout?
    ensures r.states[j].rows[id].profile == r.states[a].handlers[r.steps[a].h].call.desired.profile
    ensures forall k :: a < k < j ==> !PlanWrittenAt(r, k, id)
  {
    ReviewedStep(r, j, id);
    if PlanWrittenAt(r, j - 1, id) {
      a := j - 1;
    } else {
      a := PlanCameFrom(r, j - 1, id);
    }
  }

  /** A recorded setup run is for exactly the features of the profile that the last rollout pinned, all of them
      signed for reapplication, and no other plan came between. */
  lemma ReceiptIsForRollout(r: Run, j: nat, id: string) returns (a: nat)
    requires IsRun(r) && j < |r.steps| && ReceiptAt(r, j, id)
    ensures a < j && WriteAt(r, a, id) && r.states[a].handlers[r.steps[a].h].call.ApplyRollout?
    ensures forall k :: a < k < j ==> !PlanWrittenAt(r, k, id)
    ensures var desired := r.states[a].handlers[r.steps[a].h].call.desired;
            var call := r.states[j].handlers[r.steps[j].h].call;
            call.features == Sorted(R.Features(desired.profile)) && R.Features(desired.profile) <= R.REAPPLY
  {
    PlanStep(r, j, id);
    a := PlanCameFrom(r, j, id);
    PlansMatchProfiles(r, j, id);
  }

  // ---- Posture ----

  /** What a posture write decides on an active row that keeps the gate invariant. */
  lemma PostureWrite(hd: Handler, revision: nat)
    requires hd.call.Posture? && RowOk(hd.row) && hd.row.lifecycle == Active && Decide(hd, revision).Write?
    ensures hd.seen.clusterRevision.Some?
    ensures var next := Apply(hd.row, Decide(hd, revision).patch);
            && next.health == hd.call.observed
            && next.compliance == (if hd.seen.clusterRevision.value == hd.row.clusterRevision then Compliant else Drift)
  {
  }

  /** In every run, a posture commit on an active enrollment stores the observed health and is never blocked or
      unknown: it is compliant or drifted, exactly as the cluster's revision was the pinned one at a moment `k`
      while the row stood. */
  lemma PostureIsExact(r: Run, i: nat, id: string) returns (k: nat)
    requires IsRun(r) && i < |r.steps| && WriteAt(r, i, id)
    requires r.states[i].handlers[r.steps[i].h].call.Posture? && r.states[i].rows[id].lifecycle == Active
    ensures k < i && RowAt(r.states[k], id, r.states[i].rows[id])
    ensures var row, next, clusters := r.states[i].rows[id], r.states[i + 1].rows[id], r.states[k].world.clusters;
            && next.health == r.states[i].handlers[r.steps[i].h].call.observed
            && row.cluster in clusters
            && next.compliance == (if clusters[row.cluster] == row.clusterRevision then Compliant else Drift)
  {
    GatesHoldInEveryState(r, i);
    WriteDecided(r, i, id);
    PostureWrite(r.states[i].handlers[r.steps[i].h], r.steps[i].revision);
    k := EvidenceWasTrue(r, i, r.steps[i].h, Clusters);
  }
}
