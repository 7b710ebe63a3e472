# Verified model of the server-administrator bundle

This project models the core of the `server-administrator` bundle in Dafny and proves what the bundle relies on. `dafny verify
dfyconfig.toml` checks all of it.

## What is modelled

- **Enrollment protocol** (`Gates`, `GateRoom`, `Enrollment`, `EnrollmentRuns`, `EnrollmentMoves`, `EnrollmentLinks`,
  `EnrollmentPlans`, `EnrollmentTable`). An enrollment row has ten lifecycle states and two validation gates. `Enrollment` holds
  what each handler decides from the row it read and the evidence it saw; `EnrollmentRuns` interleaves any number of handlers step
  by step over the shared tables, with each read of evidence and of the clock a step of its own, the conditional write on the
  row's revision and the database's guard on releases and activations, and proves the invariants over all runs; `EnrollmentMoves`
  says by the stored values when each handler writes and what, and what evidence links a server to an incident; `EnrollmentLinks`
  follows the incident link and `EnrollmentPlans` plans, setup receipts and posture through runs; `EnrollmentTable` is the same
  steps as methods over the tables.
- **Enrollment job** (`EnrollmentJob`, `EnrollmentJobRuns`, `EnrollmentJobSuccess`, `EnrollmentJobStore`). The bounded loop that
  takes one enrollment from discovery to service, the checks it can run, its gate runs and its quarantine, against an arbitrary
  broker, arbitrary observations and an arbitrary monitoring repair.
- **Profiles** (`Profiles`, `ProfilePlaces`, `ProfileMerge`, `ProfileChecks`, `ProfileDiff`, `Rollout`, `RolloutWrites`). Layer
  composition over JSON documents, as an algebra and place by place, the bounded list of changed paths, and what a rollout may do
  and does.
- **Alerts** (`Alerts`, `AlertStore`, `AlertHistory`). Conditions, reconciliation with stored alerts, and the meaning of the
  stateful evaluator as a statement about the whole history of evaluations.
- **Metric history** (`MetricHistory`, `MetricBuckets`, `MetricCoverage`). Bucketing, its composition over persisted tiers, and
  the reported gaps.
- **Job runtime** (`JobRuntime`, `JobTable`, `JobOutcomes`). The in-memory job table, the persisted rows and the spawned tasks,
  interleaved freely.
- **Monitoring repair and rollback** (`Monitoring`), against a remote whose every answer may depend on everything sent so far.
- **Topology graph** (`Topology`), with address masking bit by bit.

`Text` holds the string order, canonical ids and separators the others share; `Database` how a write may go.

## Assumptions

- Revisions written by enrollment handlers are fresh and the clock does not go back. A revision is derived from the request id, so a
  request id used for two writes is outside the model; a requalification job that starts below active reuses its own step ids.
- `enrollment_start` only creates enrollments whose id is new. `EnrollmentJob` has no other writer and serves one enrollment.
- A broker call is atomic; a check result may stay stored although a later call of its handler fails. Database writes of the job
  runtime may be lost or go unacknowledged; an alert evaluation is one step.
- Results listed with equal times come in any order. Digests and generated ids are opaque and fresh.
- The runtime serves one request at a time (bundles/server-administrator/src/lib.rs:172-204), so starts do not overlap.
- Required check names are canonical ids where a failed gate is said to isolate the server, and required lists are sorted without
  repetition where a gate is said to pass: both as `required_checks` makes them.
- In the job a refusal by the database's guard is a failing call.
- A job's checks are stored newest first, in the order they are recorded.
- The broker sets `truncated` on a listing exactly when more rows exist than were asked for
  (crates/gadgetron-gateway/src/web/bundle_broker.rs:1932).

## Where the code does less than one might expect

- A rollout can drop every required commissioning check without a new commissioning run: when the desired list is empty the list is
  replaced, yet no rerun is asked for. `ChecksKeptExactly` gives the exact condition on what the handler writes, `ChecksCanBeDropped` a
  family of rollouts it accepts. The commissioning status itself is never touched by a rollout.
- A failed monitoring repair need not isolate the server: its reason is cut to 500 characters, but a reason is limited to 512 bytes
  without control characters, and a refused transition is ignored. `IsolatedExactly` and `JobIsolates` give the exact condition,
  `WideMessageIsRefused` a family of messages.
- The changed-path list may be reported truncated although every difference is listed, and a truncated list refuses the rollout.
  `DiffIsCutExactly` says exactly when the flag is up, `FlagMisleads` gives a family of documents.
- The plan and setup records replace the stored progress, and with it the incident link, while the enrollment is ready to configure; the
  job always records a plan, so it always erases the link (`PlanStageExactly`). The check of recovery repeated at activation therefore
  takes place exactly when neither record was committed since the release: `ActivationRechecksExactly`. `LinkCanBeLost` shows the
  other case, decision by decision, for every linked enrollment whose required qualification checks fit on a page.
- A requalification can report success for a server it has quarantined. When a failure of a later check is stored in the current cycle,
  recording the pass of the first check quarantines the active server; the later checks then pass in quarantine, and the job answers
  that qualification was rerun and passed. `SuccessMeansService` gives the exact condition, `SuccessCanHideFailure` a family of such
  starts with everything working, and `FailureCanBeLeftBehind` shows that a job with a failing broker can leave one behind.
- The job can run one commissioning and four qualification checks. Even with everything working, an enrollment that requires any other,
  or none for a gate, ends quarantined: `JobSucceedsExactly`.
- A gate of 200 required checks, each of which has passed, is reported running once one older result is stored: `PassingGateExactly`
  gives the exact room a gate needs, `LargeGateStaysRunning` the family, `GateOf200` an instance.
- The two hardware rules share their fingerprints: `PrintInjective` says exactly which fingerprints coincide, and
  `HardwareRulesNeverMeet` why no alert is confused by it.

## Model

| member | source | states |
|---|---|---|
| ProfileMerge.MergeValue | bundles/server-administrator/src/enrollment.rs:2906-2945 | the in-place merge: refused exactly when two values of different kinds meet, with the place of such a meeting; otherwise the merged document, and exactly the replaced or extended places are added to the overrides |
| ProfilePlaces.MergeAt | bundles/server-administrator/src/enrollment.rs:2906-2945 | what a merge leaves at every key path: what the one document says where the other is silent; else a value of the kind both say, which is the upper document's unless it is an object, or an array at one of the four accumulating paths, which becomes both lists in order with each later item once |
| ProfilePlaces.OverriddenExactly | bundles/server-administrator/src/enrollment.rs:2923-2939 | a path is reported if and only if it renders a place where both documents speak and the upper one holds a different value that is no object, or a new item of an accumulating list |
| ProfilePlaces.CompatibleExactly | bundles/server-administrator/src/enrollment.rs:2906-2945 | two documents merge if and only if at no key path they hold values of different kinds |
| ProfileMerge.ComposeProfiles | bundles/server-administrator/src/enrollment.rs:2892-2904 | effective if and only if there are layers, all objects, no two of which hold values of different kinds at a place; then at every place stands the value of the last layer that has it, unless that is an object, or an accumulating list, which holds the items of all layers in order; the overrides are sorted and exactly the places where a layer says something else than the last one below, or lists an item none below lists; a refusal names the root, for a missing or non-object layer, or a place where two layers differ in kind |
| Profiles.MergeAssociative | bundles/server-administrator/src/enrollment.rs:2906-2945 | merging is an associative partial operation: both groupings of any three documents fail, or both succeed with equal documents, unions in order included |
| Profiles.MergeIdempotent | bundles/server-administrator/src/enrollment.rs:2906-2945 | a document merges with itself and is unchanged, repeated list items included |
| Profiles.ComposeGroups | bundles/server-administrator/src/enrollment.rs:2892-2904 | a stack of layers composed in two halves and joined is the stack composed at once, refused exactly when that is |
| Profiles.NoOverrideKeepsBase | bundles/server-administrator/src/enrollment.rs:2906-2945 | no override is reported exactly when everything the base says is kept |
| ProfileChecks.RequiredChecks | bundles/server-administrator/src/enrollment.rs:2947-2970 | the ids listed at the gate's required_checks, sorted and without repetition; none exactly when the section is no object, or the list no array of canonical ids |
| ProfileChecks.ComposedChecksAreUnion | bundles/server-administrator/src/enrollment.rs:2892-2970 | if the composed profile yields a valid list for a gate, it is exactly the union of every layer's list, so no layer can drop a check |
| ProfileDiff.CollectChangedPaths | bundles/server-administrator/src/enrollment.rs:1620-1659 | the recursive walk appends exactly the rendered places of the specified difference, up to the limit |
| ProfileDiff.DiffBounded | bundles/server-administrator/src/enrollment.rs:1620-1659 | never more than 100 places; none and not truncated for equal documents, some for unequal ones |
| ProfileDiff.PatchReachesDesired | bundles/server-administrator/src/enrollment.rs:1620-1659 | when not truncated, copying or deleting the desired values at exactly the listed places turns the current document into the desired one |
| ProfileDiff.ListedPlacesDiffer | bundles/server-administrator/src/enrollment.rs:1620-1659 | every listed place is a real difference, truncated or not |
| ProfileDiff.DiffIsCutExactly | bundles/server-administrator/src/enrollment.rs:1620-1659 | the listed places are the first 100 places of the same walk without a limit, and the truncated flag is up if and only if more than 100 differ, or exactly 100 and the walk has a key left to visit after the hundredth |
| ProfileDiff.FlagMisleads | bundles/server-administrator/src/enrollment.rs:1634-1637 | any 100 added keys followed by an unchanged one are all listed and still reported as truncated |
| ProfileDiff.FlagCanMislead | bundles/server-administrator/src/enrollment.rs:1634-1637 | and there are such documents, whatever value they hold |
| Rollout.AssessRollout | bundles/server-administrator/src/enrollment.rs:1567-1597 | the assessment shown: at most 100 paths, and empty and untruncated exactly for equal profiles |
| Rollout.QualifyingExactly | bundles/server-administrator/src/enrollment.rs:1067-1134 | a rollout goes to qualifying if and only if the whole difference is known, only top-level keys beginning with qualification or commissioning differ, and the commissioning checks are equal or none are desired |
| Rollout.ReconfigureExactly | bundles/server-administrator/src/enrollment.rs:1067-1618 | a rollout goes to ready_to_configure if and only if the whole difference is known, besides those keys only the list at setup.features differs (or, as a leaf, a top-level key spelled setup.features), the features change and are all signed ones, no reboot is wanted, and the commissioning checks are equal or none are desired |
| RolloutWrites.ChecksKeptExactly | bundles/server-administrator/src/enrollment.rs:990-1226 | what enrollment_rollout_apply writes never touches the commissioning status, and keeps the required commissioning checks if and only if the desired profile requires some or none were required |
| RolloutWrites.ChecksCanBeDropped | bundles/server-administrator/src/enrollment.rs:990-1226 | a family of rollouts the handler accepts and writes, for every active enrollment whose profile has just the two gate sections: it goes to qualifying with commissioning still passed and no commissioning check required any more |
| Gates.AggregateStatus | bundles/server-administrator/src/enrollment.rs:3027-3073 | failed if and only if the first row of a required check is a fail or skipped; pending if and only if there are no rows; warning and passed, with nothing cut off, by which of pass, not-applicable and warn the first rows are; not configured if and only if nothing is required; running otherwise |
| Gates.PageVerdictExactly | bundles/server-administrator/src/enrollment.rs:2587-2626 | the same by indices into the stored results: of the newest 200, those at or after the cycle start, and of these the newest of each required check; cut off if and only if there are more than 200 and the last of them is in the cycle |
| Gates.PageVerdictIsComplete | bundles/server-administrator/src/enrollment.rs:2587-2626 | every verdict other than running, from the 200 newest results cut at the cycle start, is the verdict over the complete history of the cycle |
| Gates.PassedIsEarned | bundles/server-administrator/src/enrollment.rs:2587-3073 | a gate passes only with, for each of at least one required check, a newest in-cycle result that neither failed nor was skipped |
| Gates.PassDoesNotFail | bundles/server-administrator/src/enrollment.rs:2587-2626 | one more passing result never turns a gate that does not fail into a failing one, page limit included |
| GateRoom.PassingGateExactly | bundles/server-administrator/src/enrollment.rs:2587-2626 | with nothing but passes in the cycle and one for every required check, the gate is passed if and only if those results fit the page: fewer than 200, or no more than 200 together with all older ones; otherwise it is running |
| GateRoom.LargeGateStaysRunning | bundles/server-administrator/src/enrollment.rs:2587-2626 | a gate of 200 or more required checks stays running, however often all of them pass, once more than a page is stored |
| GateRoom.GateOf200 | bundles/server-administrator/src/enrollment.rs:2587-2626 | and there is such a gate: 200 checks, each passed once, after one older result |
| EnrollmentRuns.DecisionMoves | bundles/server-administrator/src/enrollment.rs:990-2688 | every write any handler decides on keeps the gate invariant, resets the gates of a validation phase it enters, passes a gate only on in-cycle results, and leaves quarantine only by retirement or release |
| EnrollmentMoves.TransitionExactly | bundles/server-administrator/src/enrollment.rs:1829-2390 | a transition writes if and only if the move is one of 25, its gate has passed, a quarantine has a reason, a named incident is open and critical on the snapshot's host with a critical signal of it firing, an expected snapshot is the one seen, and a linked server that returns to duty has recovered, under its pinned cluster revision if it becomes active |
| EnrollmentMoves.TransitionWrites | bundles/server-administrator/src/enrollment.rs:2001-2086 | what it writes, column by column: gates and cycle are reset on entering a validation phase or quarantine, health and compliance follow, and the link is set with the snapshot of the isolation, kept with that of the recovery, ended, or left alone; nothing else changes |
| EnrollmentMoves.ValidationWrites | bundles/server-administrator/src/enrollment.rs:2506-2688 | a result is accepted exactly in the states that run the gate and in quarantine; the verdict becomes the status, except an open one in service; a failed qualification takes a server out of service; nothing else changes |
| EnrollmentMoves.RolloutPins | bundles/server-administrator/src/enrollment.rs:990-1226 | a rollout writes if and only if the enrollment is active, both expected revisions stand, the cluster revision is new, qualification checks are desired and the difference is accepted; it pins the desired profile and checks, starts qualification again and ends the link |
| EnrollmentMoves.SetupWrites | bundles/server-administrator/src/enrollment.rs:1228-1385 | a setup run is recorded exactly for the reviewed plan that asks for it, with the same target and features, no receipt yet and the expected revision; the same run again is answered without writing |
| EnrollmentMoves.PostureWrites | bundles/server-administrator/src/enrollment.rs:1672-1817 | in every lifecycle state: blocked if and only if a gate has failed, otherwise drift or compliant only in service, by the cluster revision seen; written if and only if health or compliance changes, and nothing else changes |
| EnrollmentMoves.EveryMoveIsListed | bundles/server-administrator/src/enrollment.rs:2972-2987 | in every run a step that changes a lifecycle makes one of the 25 moves by a transition, or is a failed qualification of an active server, or a rollout that takes an active one to qualifying or to wait for configuration |
| EnrollmentTable.Tables.CommitIfUnmoved | bundles/server-administrator/src/enrollment.rs:2088-2158 | the conditional update keeps the invariant of all runs; columns are set only while the row's revision is the one read and the database's guard admits the update, and then the row replaced is exactly the row decided on and no other changes |
| EnrollmentTable.Tables.RecordResult | bundles/server-administrator/src/enrollment.rs:2560-2586 | the result is stored for its enrollment and gate at the time the handler took, which is not before the row's cycle start; no earlier result is lost, no row changes, and the invariant of all runs is kept |
| EnrollmentRuns.CommitWrites | bundles/server-administrator/src/enrollment.rs:2067-2158 | a commit that takes effect was decided on exactly the row it replaces |
| EnrollmentRuns.GatesHoldInEveryState | bundles/server-administrator/src/enrollment.rs:990-3088 | in every state of every interleaving an active or draining enrollment has qualification passed or warning, and one from ready_to_configure to maintenance has commissioning passed or warning |
| EnrollmentRuns.GatesEarnedAgain | bundles/server-administrator/src/enrollment.rs:1896-3073 | on every run from quarantined back to active both gates were reset and then each passed again, from stored results of that gate observed at or after the cycle start which the release set or a later one; and that cycle start is no earlier than a moment at which the server stood quarantined with its row just as the release replaced it |
| EnrollmentRuns.HandlerBegan | bundles/server-administrator/src/enrollment.rs:1862-2000 | a handler in flight read its row at an earlier moment and at the time it keeps, so the time it takes for its write lies between that moment and the write |
| EnrollmentRuns.ServiceIsEarned | bundles/server-administrator/src/enrollment.rs:2046-2080 | whenever a server is in service, qualification was earned after it last entered qualifying, from results of that cycle or a later one |
| EnrollmentRuns.CommissioningIsEarned | bundles/server-administrator/src/enrollment.rs:2046-2080 | likewise for commissioning, whenever a server is past it |
| EnrollmentRuns.EvidenceWasTrue | bundles/server-administrator/src/enrollment.rs:2254-2390 | evidence a handler commits on was true of its table at a moment when the row was already as the commit replaces it |
| EnrollmentMoves.LinkedQuarantineEntry | bundles/server-administrator/src/enrollment.rs:2160-2252 | in every run a step that links an enrollment to an incident is a quarantine with a reason whose handler saw, while the row stood, that incident open and critical on the host of the target's snapshot, and an unended critical firing signal of it; the isolation stored is the revision of that snapshot |
| EnrollmentMoves.EvidenceIsolates | bundles/server-administrator/src/enrollment.rs:2160-2252 | conversely a handler with such evidence and a reason, whose row is unmoved in one of the six states that lead to quarantine, leaves the server quarantined, linked to that incident and snapshot |
| EnrollmentRuns.RecoveredAtCommit | bundles/server-administrator/migrations/20260716000004_incident_recovery_validation.sql:18-106 | in every run a step that releases or activates a linked enrollment is taken while the incident is closed, its host has no unended critical firing signal and the target's snapshot is of that host, healthy and not the one of the isolation, all in one state; and one that activates it while a newest in-cycle result of every required qualification check neither failed nor was skipped |
| EnrollmentRuns.LinkedQuarantineExit | bundles/server-administrator/src/enrollment.rs:1929-2406 | no step erases an incident link while quarantined; the only exits are retirement and a move to commissioning whose handler saw the incident closed, no unended critical firing signal on its host, and a healthy snapshot of that host with a revision other than the isolation one; and all of that holds in the state in which it commits |
| EnrollmentRuns.LinkStandsUntilRecovery | bundles/server-administrator/src/enrollment.rs:1929-2406 | over any stretch of a run the link stands unchanged until such an exit |
| EnrollmentLinks.LinkStandsExactly | bundles/server-administrator/src/enrollment.rs:2001-2067 | on the way from release to service a link stands unchanged if and only if no plan and no setup run was recorded |
| EnrollmentLinks.ActivationRechecksExactly | bundles/server-administrator/src/enrollment.rs:1929-2158 | the commit that activates a released, linked enrollment would be refused without evidence if and only if no plan and no setup run was recorded since; and then incident, signals, health and the pinned cluster revision were all seen again while the row stood, and recovery and cleared qualification checks hold in the state in which it commits |
| EnrollmentLinks.LinkCanBeLost | bundles/server-administrator/src/enrollment.rs:2419-2470 | decision by decision, every linked enrollment that waits for configuration, with required qualification checks that fit a page, can lose its link to a plan record and reach active on no evidence at all |
| EnrollmentPlans.PlansMatchProfiles | bundles/server-administrator/src/enrollment.rs:1067-1226 | in every state of every run a reviewed plan lists exactly the features of the pinned profile, and those it may reapply are signed ones |
| EnrollmentPlans.OneReceiptPerPlan | bundles/server-administrator/src/enrollment.rs:1228-1385 | in every run a plan was written between any two recorded setup receipts |
| EnrollmentPlans.ReceiptIsForRollout | bundles/server-administrator/src/enrollment.rs:1228-1385 | in every run a recorded setup run is for exactly the features of the profile that the last rollout pinned, and no other plan came between |
| EnrollmentPlans.PostureIsExact | bundles/server-administrator/src/enrollment.rs:1672-1817 | in every run a posture commit on an active enrollment stores the observed health, and compliant or drift exactly as the cluster's revision was the pinned one at a moment while the row stood |
| EnrollmentJob.WideMessageIsRefused | bundles/server-administrator/src/enrollment_job.rs:487-505 | a family of errors whose reason, cut to 500 characters, is over the limit of 512 bytes, so that the server is not isolated |
| EnrollmentJob.TwoByteMessageExactly | bundles/server-administrator/src/enrollment_job.rs:487-505 | for a plain code and a message of two-byte characters, the reason is accepted if and only if the 500 characters kept are no more than 512 bytes |
| EnrollmentJobStore.JobStore.RunGate | bundles/server-administrator/src/enrollment_job.rs:313-398 | the loop of the gate run; with a serving broker it stores one result for each required check, newest first, and reports that nothing is required or exactly the checks that failed |
| EnrollmentJobStore.JobStore.Run | bundles/server-administrator/src/enrollment_job.rs:46-311 | the bounded loop of passes never runs out of them and keeps the gate invariant; one that succeeds leaves the server in service, or quarantined if and only if it was a requalification that hides a stored failure; a failed gate leaves the server quarantined, and a failed repair does exactly when its reason is acceptable |
| EnrollmentJobRuns.ChecksRunExactly | bundles/server-administrator/src/enrollment_job.rs:327-389 | unless a call fails, one result for each required check is stored, newest first, and exactly those that did not pass are collected |
| EnrollmentJobRuns.GateRunExactly | bundles/server-administrator/src/enrollment_job.rs:313-398 | with a serving broker a gate run reports that nothing is required, or exactly the failed checks, and that report is always an acceptable quarantine reason |
| EnrollmentJobRuns.IsolatedExactly | bundles/server-administrator/src/enrollment_job.rs:487-516 | when the broker serves the call, the enrollment ends quarantined exactly when the reason built from the error is one a transition accepts |
| EnrollmentJobRuns.StageClimbs | bundles/server-administrator/src/enrollment_job.rs:56-304 | every stage stops, or the lifecycle has strictly advanced along the activation path |
| EnrollmentJobRuns.JobEnds | bundles/server-administrator/src/enrollment_job.rs:46-311 | with no other writer the job ends within the passes ahead of it, at most six: more passes change nothing and running out of them never happens |
| EnrollmentJobRuns.JobIsolates | bundles/server-administrator/src/enrollment_job.rs:46-311 | with a serving broker a job whose gate failed leaves the enrollment quarantined, and one whose repair failed does exactly when its reason is acceptable |
| EnrollmentJobRuns.RequalifiedExactly | bundles/server-administrator/src/enrollment_job.rs:230-255 | a requalification without an error leaves the server active, or quarantined if and only if the stored results still fail the gate once the first required check has passed; and never if they do not fail it before |
| EnrollmentJobRuns.SuccessMeansService | bundles/server-administrator/src/enrollment_job.rs:46-311 | from every start, with any broker and whatever a failing call left stored: a job that succeeds leaves the server active, or quarantined if and only if it was started to requalify an active server whose stored results still fail the gate once the first required check has passed |
| EnrollmentJobRuns.SuccessIsHealthy | bundles/server-administrator/src/enrollment_job.rs:256-304 | a job that succeeds leaves the server's health healthy |
| EnrollmentJobRuns.SetupIsOutstanding | bundles/server-administrator/src/enrollment_job.rs:99-146 | a job that asks for setup leaves the server waiting, with a reviewed setup outstanding |
| EnrollmentJobRuns.PlanStageExactly | bundles/server-administrator/src/enrollment_job.rs:99-146 | the plan stage stops for setup exactly when a reviewed setup is outstanding, and then changes nothing; otherwise it goes on with a ready plan for the profile's features and the earlier receipt, and always without an incident link |
| EnrollmentJobSuccess.JobSucceedsExactly | bundles/server-administrator/src/enrollment_job.rs:46-454 | with everything working, the job takes a discovered enrollment into service if and only if commissioning requires just inventory and qualification some of telemetry, topology, logs and monitoring and nothing else; otherwise it fails at the first gate of which that is not true and leaves the server quarantined |
| EnrollmentJobSuccess.SuccessCanHideFailure | bundles/server-administrator/src/enrollment_job.rs:230-270 | with everything working, every requalification of an active server whose newest stored result is an in-cycle failure of a required check other than the first reports success and leaves the server quarantined |
| EnrollmentJobSuccess.FailureCanBeLeftBehind | bundles/server-administrator/src/enrollment_job.rs:313-516 | the job itself can leave such a start: a failing result is stored, that call and all later ones fail, and the server stays active with the failure as its newest result |
| Alerts.PrintInjective | bundles/server-administrator/src/alerts.rs:178-268 | two fingerprints are equal if and only if host and metric are and the rules are the same, or the two hardware rules, for colon-free rule ids and hosts |
| Alerts.HardwareRulesNeverMeet | bundles/server-administrator/src/alerts.rs:191-211 | no metric belongs to both hardware rules, so sharing a fingerprint never confuses them |
| Alerts.CanonicalHasNoColon | bundles/server-administrator/src/alerts.rs:370-379 | canonical rule ids contain no colon |
| Alerts.AlertMetricInverts | bundles/server-administrator/src/alerts.rs:2313-2322 | the metric is read back from every fingerprint |
| Alerts.AlertMetricOnlyInverts | bundles/server-administrator/src/alerts.rs:2313-2322 | a metric is read back only from the fingerprint made from it |
| Alerts.LiteralPattern | bundles/server-administrator/src/alerts.rs:168-176 | a pattern without wildcards matches its own metric and no other |
| Alerts.WildcardPattern | bundles/server-administrator/src/alerts.rs:168-176 | a pattern matches exactly the metrics with as many segments, equal to its own except where it has a star, which stands for any one segment |
| Alerts.FingerprintText | bundles/server-administrator/src/alerts.rs:178-268 | the fingerprints as they are written |
| Alerts.ThresholdExactly | bundles/server-administrator/src/alerts.rs:270-280 | a value trips a rule if and only if it is at or above, or for a rule below at or below, the high or the critical threshold, and critically if and only if that is so of the critical one |
| Alerts.ActiveConditions | bundles/server-administrator/src/alerts.rs:178-236 | strictly sorted by fingerprint; every condition is raised by a sample, with the severity its value gives by the thresholds, and every fingerprint that some sample raises is listed, with the first condition found in sample order |
| Alerts.Reconcile | bundles/server-administrator/src/alerts.rs:282-355 | one alert for each active condition, continued from the prior one; exactly the resolved inactive fingerprints are deleted |
| AlertStore.AlertTable.ReconcileTelemetry | bundles/server-administrator/src/alerts.rs:2187-2305 | the stored alerts become the evaluated ones; nothing changes with more than 200 rules or 500 stored alerts of the host |
| AlertStore.ActiveExactly | bundles/server-administrator/src/alerts.rs:178-236 | an active condition under a fingerprint means exactly that a sample of its metric trips its rule on its host |
| AlertStore.SplitExactly | bundles/server-administrator/src/alerts.rs:282-355 | the exact fate of a stored telemetry alert: kept under the same rule when tripped, deleted when not and its metric was sampled or its rule is disabled or gone, untouched otherwise and for other hosts |
| AlertStore.FiringSticks | bundles/server-administrator/src/alerts.rs:299-326 | a firing alert never goes back to pending and keeps its times until deleted, whatever the rules and the clock do |
| AlertHistory.StoredAlertIsItsHistory | bundles/server-administrator/src/alerts.rs:178-355 | for a fixed enabled rule, from an empty store: stored iff the last evaluation that sampled the metric breached; pending since the first breach of that episode; firing iff some breaching evaluation found the wait over, active since the first such |
| AlertHistory.StoredBySamples | bundles/server-administrator/src/alerts.rs:178-355 | after every run the alert of a fixed enabled rule is stored if and only if the rule's pattern matches and in the last evaluation that sampled the metric some sample was at or past a threshold; it is critical if and only if the first such sample was at or past the critical one |
| AlertHistory.RunFiresExactlyWhenDue | bundles/server-administrator/src/alerts.rs:282-355 | after every run with times that do not decrease, the alert of a fixed rule is firing exactly when the rule does not wait, or the last observation is at least the wait, in nanoseconds, after the stored time of the first breach of the episode |
| AlertHistory.RunSplits | bundles/server-administrator/src/alerts.rs:282-355 | after every run from an empty store, whatever the rules, the next evaluation splits every stored alert exactly |
| AlertHistory.FiringUntilDeleted | bundles/server-administrator/src/alerts.rs:299-326 | over every run a firing alert stays firing with the same times for as long as it is stored |
| AlertHistory.FiresExactlyWhenDue | bundles/server-administrator/src/alerts.rs:299-326 | when times do not decrease, firing exactly when the episode has by now lasted the wait |
| AlertHistory.ExplanationIsUnique | bundles/server-administrator/src/alerts.rs:282-326 | the history determines the alert |
| MetricHistory.Rebucket | bundles/server-administrator/src/metrics.rs:656-692 | one point for each bucket that holds samples, in time order, aggregating exactly the bucket's points |
| MetricBuckets.BucketContents | bundles/server-administrator/src/metrics.rs:656-692 | a bucketed series has a point at exactly the multiples of the step that begin an occupied bucket; its samples are the sum, its average the weighted mean, its extremes the smallest minimum and the largest maximum of the points in its bucket |
| MetricHistory.RebucketUnique | bundles/server-administrator/src/metrics.rs:656-692 | bucketing has one result |
| MetricHistory.RebucketOfPermutation | bundles/server-administrator/src/metrics.rs:656-692 | the order of the input does not matter |
| MetricHistory.RebucketComposes | bundles/server-administrator/src/metrics.rs:656-692 | re-aggregating a bucketed series at a multiple of its step is bucketing the original points directly |
| MetricHistory.BucketingConserves | bundles/server-administrator/src/metrics.rs:656-692 | total samples, weighted sum, minimum and maximum are conserved |
| MetricHistory.BucketingKeepsSound | bundles/server-administrator/src/metrics.rs:656-692 | every average stays between its minimum and maximum |
| MetricCoverage.ListingReachesRange | bundles/server-administrator/src/metrics.rs:486-532 | the limit on listed rows, four above the number of tier steps in the range, cuts nothing of the range unless five or more later buckets exist |
| MetricCoverage.TierServesInterval | bundles/server-administrator/src/metrics.rs:486-567 | serving a range from the newest rows of the persisted tier up to that limit, listed in any order and cut to the range, is serving it from the points the tier was bucketed from: those whose tier bucket starts in the range |
| MetricCoverage.ResolvedIntervals | bundles/server-administrator/src/metrics.rs:88-141 | every resolved interval is a multiple of its tier's step and cuts its range into 2 to 288 whole buckets |
| MetricCoverage.ResolveExactly | bundles/server-administrator/src/metrics.rs:88-112 | which of the eleven pairs of range and interval are served as asked for, that all others are refused, and what auto picks for each range |
| MetricCoverage.LimitsExactly | bundles/server-administrator/src/metrics.rs:488-490 | how many rows are listed for each of them |
| MetricCoverage.HistoryCoverage | bundles/server-administrator/src/metrics.rs:694-727 | start, end, gaps, completeness and truncation of any series |
| MetricCoverage.GapsAreMissingRuns | bundles/server-administrator/src/metrics.rs:694-709 | on a bucketed series the gaps are exactly the maximal runs of missing aligned buckets |
| MetricCoverage.MissingIsInGap | bundles/server-administrator/src/metrics.rs:694-709 | an aligned bucket between the first and last point is missing exactly when it lies in a gap |
| MetricCoverage.ServeHistory | bundles/server-administrator/src/metrics.rs:526-727 | from the listed points: cut to the range and bucketed; the gaps are exactly the maximal runs of missing aligned buckets; complete if and only if there are points, they reach both ends to within a step and none is missing between them; and complete history has a point in every aligned bucket b with from + step <= b and b + 2 step <= to |
| JobRuntime.KeepsInv | bundles/server-administrator/src/lib.rs:556-772 | every step of a start, a task, a cancellation or a poll, and a restart, keeps the invariant of memory, rows and tasks |
| JobRuntime.OneRunningRowPerTarget | bundles/server-administrator/src/operational.rs:652-723 | in every interleaving at most one persisted row of a target says running |
| JobRuntime.TaskFindsItsEntry | bundles/server-administrator/src/lib.rs:669-674 | a task that comes to publish finds its entry, still running: the not-found and cancelled branches are never taken |
| JobRuntime.MemoryAgreesWithRow | bundles/server-administrator/src/lib.rs:646-772 | a job that has ended says the same in memory and in its row, unless its cancellation is being recorded or one of its writes was not acknowledged |
| JobRuntime.RunningRowIsExplained | bundles/server-administrator/src/lib.rs:556-772 | a row that says running has a live task, or is being cancelled, has an unacknowledged write, or belongs to no job of this process |
| JobRuntime.EndedIsForGood | bundles/server-administrator/src/lib.rs:668-772 | within one process a job never disappears and a terminal status never changes |
| JobRuntime.StatusChangesAtMostOnce | bundles/server-administrator/src/lib.rs:668-772 | a job's in-memory status changes at most once |
| JobOutcomes.OutcomeExactly | bundles/server-administrator/src/lib.rs:642-772 | in every run a job in memory has succeeded if and only if its recipe returned a success whose record was acknowledged, and that was published; failed if and only if a failure, or an end whose record was not acknowledged, was published; cancelled if and only if a cancellation found it running |
| JobOutcomes.RowExactly | bundles/server-administrator/src/lib.rs:642-686 | a job whose end was recorded and published says in memory and in its row what its recipe returned, from then on |
| JobTable.Runtime.FinishTask | bundles/server-administrator/src/lib.rs:642-650 | the task goes on to record a success if the recipe returned one and a failure otherwise; the joint invariant is kept |
| JobTable.Runtime.PublishTask | bundles/server-administrator/src/lib.rs:669-686 | the task finds its entry, still running, and gives it the recorded outcome, or failed when the record was not acknowledged; memory and row then agree unless a write was lost; no other job changes and the joint invariant is kept |
| JobTable.Runtime.CancelJob | bundles/server-administrator/src/lib.rs:719-749 | the report is never running and the job's task is gone; an ended job is left alone and the joint invariant is kept |
| JobTable.Runtime.BeginStart | bundles/server-administrator/src/operational.rs:692-723 | when a start goes on, no row of the target says running any more and no other row has changed; jobs and tasks are left alone and the joint invariant is kept |
| Monitoring.StateRoundTrip | bundles/server-administrator/src/operational.rs:4046-4059 | recorded states decode to what was encoded, and the unknown state to nothing |
| Monitoring.Operations.MonitoringRepair | bundles/server-administrator/src/operational.rs:3458-3627 | against every remote: the before-state recorded is what the first read answered, the after-state of a success or failure the last one read; the commands sent are a prefix of enable, enable, disable, which one is told by the answer, and nothing follows a read that saw monitoring enabled; with a database that serves and a first read that answers, it never ends in an error |
| Monitoring.Operations.MonitoringRollback | bundles/server-administrator/src/operational.rs:3817-4008 | nothing is sent for an operation that is not a verified repair, or when the state moved; otherwise only the recorded before-state, at most twice, until it is seen; a success last read what the repair had read first, whatever happened in between |
| Topology.SameNetworkExactly | bundles/server-administrator/src/topology.rs:550-567 | with prefix lengths in range, the masked networks are equal if and only if prefix lengths and leading bits are, as in section 3.1 of RFC 4632 |
| Topology.SharedNetworkExactly | bundles/server-administrator/src/topology.rs:437-450 | two addresses with prefixes below 32 share a network node if and only if tag, prefix length and leading bits agree |
| Topology.NetworkOfExactly | bundles/server-administrator/src/topology.rs:437-450 | an address has a network node exactly when its prefix is shorter than 32 bits: tag, prefix length, and leading bits followed by zeros |
| Topology.VerifiedBySight | bundles/server-administrator/src/topology.rs:514-518 | a network is verified if and only if an attached port lists, in whatever case, the hardware address of an attached port as a neighbour |
| Topology.HostsOnAreMembers | bundles/server-administrator/src/topology.rs:452-485 | the accumulated members are exactly the hosts with a membership edge |
| Topology.BuildTopologyGraph | bundles/server-administrator/src/topology.rs:401-548 | every edge joins existing nodes; the edges are exactly the reported interface addresses and identified switch neighbours, in order; one node per network, with the number of its distinct hosts, its verification and the largest speed reported on it |

## Left out

- Broker, SSH and socket transport, leases, protocol envelopes and health probes: the store and the remote are abstract.
- Text shown to people: labels, messages, summaries, guidance and subject payloads; a condition keeps its severity only.
- Request parsing and the columns that nothing modelled reads (actor, timestamps of update and activation, last error).
- Fleet summaries, asset lists, incident enrichment, knowledge feedback; incidents open and close in the world of `EnrollmentRuns`.
- Telemetry, cooling and log parsing, and the other bundles: many independent branches with easy properties.
- Floating-point rounding, saturation of sample counts, and out-of-range dates: reals and unbounded integers. The wait of an alert keeps the rounding of its stored times to milliseconds and of durations to seconds.
- CIDR, UUID and timestamp text: addresses are bits and times are integers; a malformed CIDR is an absent address.
- The order in which network nodes are listed.
- The fields of stored progress other than the incident link and recovery, and the stored operation receipts.
- Failures in the middle of one alert evaluation, after some of its writes.
- What an observation must contain for a check the job can run: it is good or not, arbitrarily.
- The raw samples that stand in for an empty five-minute tier: they are served by the same `ServeHistory`.
