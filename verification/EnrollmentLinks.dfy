/** The incident link on the way back to service: what erases it, and what that means for the check repeated at
    activation. */
module EnrollmentLinks {
  import opened Text
  import opened Enrollment
  import opened EnrollmentRuns
  import G = Gates
  import GR = GateRoom

  /** The states between release from quarantine and service. */
  predicate Returning(l: Lifecycle) {
    l == Commissioning || l == ReadyToConfigure || l == Configuring || l == Qualifying
  }

  predicate RecordsPlan(call: Call) {
    call.RecordPlan? || call.RecordSetup?
  }

  /** On the way back, a write keeps the link unless it records a plan or a setup run, which erases it. */
  lemma ReturningWrite(hd: Handler, revision: nat)
    requires Decide(hd, revision).Write?
    ensures var next := Apply(hd.row, Decide(hd, revision).patch);
            Returning(hd.row.lifecycle) && Returning(next.lifecycle) ==>
              next.progress == if RecordsPlan(hd.call) then NO_LINK else hd.row.progress
  {
    if hd.call.Transition? {
      ReturningTransition(hd, revision);
    } else {
      ReturningOther(hd, revision);
    }
  }

  lemma ReturningTransition(hd: Handler, revision: nat)
    requires Decide(hd, revision).Write? && hd.call.Transition?
    ensures var next := Apply(hd.row, Decide(hd, revision).patch);
            Returning(hd.row.lifecycle) && Returning(next.lifecycle) ==> next.progress == hd.row.progress
  {
  }

  lemma ReturningOther(hd: Handler, revision: nat)
    requires Decide(hd, revision).Write? && !hd.call.Transition?
    ensures var next := Apply(hd.row, Decide(hd, revision).patch);
            Returning(hd.row.lifecycle) ==> next.progress == if RecordsPlan(hd.call) then NO_LINK else hd.row.progress
  {
  }

  /** Step `k` commits a plan or a setup run of the enrollment. */
  ghost predicate PlanRecordedAt(r: Run, k: nat, id: string)
    requires IsRun(r) && k < |r.steps|
  {
    WriteAt(r, k, id) && RecordsPlan(r.states[k].handlers[r.steps[k].h].call)
  }

  ghost predicate ReturningBetween(r: Run, i: nat, j: nat, id: string)
    requires i <= j < |r.states|
  {
    forall k :: i <= k <= j ==> id in r.states[k].rows && Returning(r.states[k].rows[id].lifecycle)
  }

  ghost predicate NoPlanRecorded(r: Run, i: nat, j: nat, id: string)
    requires IsRun(r) && i <= j < |r.states|
    decreases j - i
  {
    i < j ==> NoPlanRecorded(r, i, j - 1, id) && !PlanRecordedAt(r, j - 1, id)
  }

  lemma {:induction false} NoPlanRecordedMeans(r: Run, i: nat, j: nat, id: string)
    requires IsRun(r) && i <= j < |r.states|
    ensures NoPlanRecorded(r, i, j, id) <==> forall k :: i <= k < j ==> !PlanRecordedAt(r, k, id)
    decreases j - i
  {
    if i < j {
      NoPlanRecordedMeans(r, i, j - 1, id);
      assert NoPlanRecorded(r, i, j, id) <==> NoPlanRecorded(r, i, j - 1, id) && !PlanRecordedAt(r, j - 1, id);
    }
  }

  lemma ReturningStep(r: Run, i: nat, id: string)
    requires IsRun(r) && i < |r.steps| && id in r.states[i].rows && id in r.states[i + 1].rows
    requires Returning(r.states[i].rows[id].lifecycle) && Returning(r.states[i + 1].rows[id].lifecycle)
    ensures r.states[i + 1].rows[id].progress == if PlanRecordedAt(r, i, id) then NO_LINK
            else r.states[i].rows[id].progress
  {
    RowStep(r, i, id);
    if WriteAt(r, i, id) {
      WriteDecided(r, i, id);
      ReturningWrite(r.states[i].handlers[r.steps[i].h], r.steps[i].revision);
    }
  }

  /** On the way back the link stands, unchanged, if and only if no plan or setup run was recorded. */
  lemma {:induction false} LinkStandsExactly(r: Run, i: nat, j: nat, id: string)
    requires IsRun(r) && i <= j < |r.states| && ReturningBetween(r, i, j, id)
    requires r.states[i].rows[id].progress.incident.Some?
    ensures NoPlanRecorded(r, i, j, id) ==> r.states[j].rows[id].progress == r.states[i].rows[id].progress
    ensures !NoPlanRecorded(r, i, j, id) ==> r.states[j].rows[id].progress == NO_LINK
  {
    if i < j {
      LinkStandsExactly(r, i, j - 1, id);
      ReturningStep(r, j - 1, id);
    }
  }

  // ---- Activation ----

  /** What a write that enters service asks for: with a link recovery and the pinned cluster revision, without one
      nothing. */
  lemma ActivationAsks(hd: Handler, revision: nat, other: Evidence)
    requires Decide(hd, revision).Write? && hd.row.lifecycle == Qualifying
    requires Apply(hd.row, Decide(hd, revision).patch).lifecycle == Active
    ensures hd.call.Transition? && hd.call.req.incident.None?
    ensures hd.row.progress.incident.Some? ==>
              && hd.row.progress.isolation.Some? && Recovery(hd.row.progress.isolation.value, hd.seen).Some?
              && hd.seen.clusterRevision == Some(hd.row.clusterRevision)
              && Decide(hd.(seen := NOTHING_SEEN), revision) == Refuse
    ensures hd.row.progress.incident.None? ==> Decide(hd.(seen := other), revision) == Decide(hd, revision)
  {
  }

  /** The cluster's revision was the pinned one at some moment while the row stood as it is. */
  ghost predicate PinnedClusterSeen(r: Run, i: nat, id: string, row: Row)
    requires i < |r.states|
  {
    exists k :: 0 <= k <= i && RowAt(r.states[k], id, row)
                && row.cluster in r.states[k].world.clusters
                && r.states[k].world.clusters[row.cluster] == row.clusterRevision
  }

  /** The commit at `j` would have been refused without evidence. */
  ghost predicate DemandsEvidence(r: Run, j: nat)
    requires IsRun(r) && j < |r.steps| && r.steps[j].Commit? && r.steps[j].h in r.states[j].handlers
  {
    Decide(r.states[j].handlers[r.steps[j].h].(seen := NOTHING_SEEN), r.steps[j].revision) == Refuse
  }

  ghost predicate ActivatesAt(r: Run, j: nat, id: string)
    requires IsRun(r) && j < |r.steps|
  {
    WriteAt(r, j, id) && r.states[j].rows[id].lifecycle == Qualifying && r.states[j + 1].rows[id].lifecycle == Active
  }

  lemma LinkedActivation(r: Run, j: nat, id: string)
    requires IsRun(r) && j < |r.steps| && ActivatesAt(r, j, id) && r.states[j].rows[id].progress.incident.Some?
    ensures DemandsEvidence(r, j) && RecoverySeen(r, j, id, r.states[j].rows[id])
    ensures PinnedClusterSeen(r, j, id, r.states[j].rows[id]) && RecoveredIn(r.states[j].world, r.states[j].rows[id])
    ensures QualifiedIn(r.states[j].results, id, r.states[j + 1].rows[id])
  {
    WriteDecided(r, j, id);
    var row, h := r.states[j].rows[id], r.steps[j].h;
    ActivationAsks(r.states[j].handlers[h], r.steps[j].revision, NOTHING_SEEN);
    ReleaseSawRecovery(r, j, id);
    RecoveredAtCommit(r, j, id);
    var k := EvidenceWasTrue(r, j, h, Clusters);
    assert RowAt(r.states[k], id, row);
  }

  lemma UnlinkedActivation(r: Run, j: nat, id: string)
    requires IsRun(r) && j < |r.steps| && ActivatesAt(r, j, id) && r.states[j].rows[id].progress.incident.None?
    ensures !DemandsEvidence(r, j)
  {
    WriteDecided(r, j, id);
    ActivationAsks(r.states[j].handlers[r.steps[j].h], r.steps[j].revision, NOTHING_SEEN);
  }

  /** From a linked row on its way back to the commit that activates it: recovery is checked again at that commit,
      on evidence of closed incident, quiet host, fresh healthy snapshot and unchanged cluster profile, if and only
      if no plan and no setup run was recorded in between. */
  lemma ActivationRechecksExactly(r: Run, i: nat, j: nat, id: string)
    requires IsRun(r) && i <= j < |r.steps| && ReturningBetween(r, i, j, id) && ActivatesAt(r, j, id)
    requires r.states[i].rows[id].progress.incident.Some?
    ensures DemandsEvidence(r, j) <==> NoPlanRecorded(r, i, j, id)
    ensures NoPlanRecorded(r, i, j, id) ==>
              && r.states[j].rows[id].progress == r.states[i].rows[id].progress
              && RecoverySeen(r, j, id, r.states[j].rows[id]) && PinnedClusterSeen(r, j, id, r.states[j].rows[id])
              && RecoveredIn(r.states[j].world, r.states[j].rows[id])
              && QualifiedIn(r.states[j].results, id, r.states[j + 1].rows[id])
  {
    LinkStandsExactly(r, i, j, id);
    if NoPlanRecorded(r, i, j, id) {
      LinkedActivation(r, j, id);
    } else {
      UnlinkedActivation(r, j, id);
    }
  }

  // ---- The link can be lost ----

  function Outcome(row: Row, d: Decision): Row {
    if d.Write? then Apply(row, d.patch) else row
  }

  function Move(row: Row, dst: Lifecycle, now: int, revision: nat): Row {
    Outcome(row, DecideTransition(row, Request(dst, false, None, None), NOTHING_SEEN, now, revision))
  }

  /** Every linked row that waits for configuration, with required qualification checks that fit on a page, can lose
      its link and reach service on no evidence at all: record a plan, move on, pass every required check, activate. */
  lemma LinkCanBeLost(row: Row, features: seq<string>, t: int, revision: nat)
    requires RowOk(row) && row.lifecycle == ReadyToConfigure && row.progress.incident.Some?
    requires row.requiredQualification != [] && |row.requiredQualification| <= G.PAGE
    ensures var planned := Outcome(row, DecidePlan(row, Ready(features, None), revision));
            var qualifying := Move(Move(planned, Configuring, t, revision + 1), Qualifying, t, revision + 2);
            var results := GR.PassOfEach(row.requiredQualification, t);
            var passed := Outcome(qualifying, DecideValidation(qualifying, G.Qualification, results, revision + 3));
            var active := Move(passed, Active, t, revision + 4);
            planned.progress == NO_LINK && qualifying.lifecycle == Qualifying && active.lifecycle == Active
  {
    var planned := Outcome(row, DecidePlan(row, Ready(features, None), revision));
    PlanLosesLink(row, features, revision);
    UnlinkedQualifies(planned, t, revision + 1);
    UnlinkedActivates(Move(Move(planned, Configuring, t, revision + 1), Qualifying, t, revision + 2), t, revision + 3);
  }

  lemma PlanLosesLink(row: Row, features: seq<string>, revision: nat)
    requires row.lifecycle == ReadyToConfigure
    ensures var planned := Outcome(row, DecidePlan(row, Ready(features, None), revision));
            && planned.lifecycle == ReadyToConfigure && planned.progress == NO_LINK
            && planned.requiredQualification == row.requiredQualification
  {
  }

  /** An unlinked row that waits for configuration goes to qualifying on no evidence. */
  lemma UnlinkedQualifies(row: Row, t: int, revision: nat)
    requires row.lifecycle == ReadyToConfigure && row.progress == NO_LINK
    ensures var qualifying := Move(Move(row, Configuring, t, revision), Qualifying, t, revision + 1);
            && qualifying.lifecycle == Qualifying && qualifying.progress == NO_LINK && qualifying.cycleStart == t
            && qualifying.requiredQualification == row.requiredQualification
  {
  }

  /** An unlinked row in qualifying goes into service on passed checks alone. */
  lemma UnlinkedActivates(row: Row, t: int, revision: nat)
    requires row.lifecycle == Qualifying && row.progress == NO_LINK && row.cycleStart == t
    requires row.requiredQualification != [] && |row.requiredQualification| <= G.PAGE
    ensures var results := GR.PassOfEach(row.requiredQualification, t);
            var passed := Outcome(row, DecideValidation(row, G.Qualification, results, revision));
            Move(passed, Active, t, revision + 1).lifecycle == Active
  {
    var results := GR.PassOfEach(row.requiredQualification, t);
    GR.PassOfEachPasses(row.requiredQualification, t);
    assert results + [] == results;
    GR.PassingGateExactly(row.requiredQualification, results, [], t);
  }
}
