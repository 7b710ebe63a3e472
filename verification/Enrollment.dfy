/** One enrollment row and what each handler decides to write to it: `enrollment_transition`, `validation_record`,
    `enrollment_rollout_apply`, `enrollment_plan_record`, `enrollment_setup_record` and `reconcile_posture`.

    A handler reads the row, reads whatever evidence it needs, decides, and writes columns only if the row's
    revision has not moved. This module holds the decisions; `EnrollmentRuns` interleaves them. */
module Enrollment {
  import opened Text
  import P = Profiles
  import R = Rollout
  import G = Gates

  datatype Lifecycle =
    | Discovered
    | Commissioning
    | ReadyToConfigure
    | Configuring
    | Qualifying
    | Active
    | Draining
    | Maintenance
    | Quarantined
    | Retired

  datatype Health = HealthUnknown | Healthy | Degraded | Unreachable

  datatype Compliance = ComplianceUnknown | Compliant | Drift | Blocked

  /** The part of the stored progress that links an enrollment to an incident. */
  datatype Progress = Progress(incident: Option<string>, isolation: Option<string>, faultCleared: Option<string>)

  const NO_LINK := Progress(None, None, None)

  /** The stored configuration plan. A receipt is the target revision a setup run was recorded for. */
  datatype Plan =
    | NotPlanned
    | Reviewed(reapply: bool, features: seq<string>, receipt: Option<string>)
    | Ready(features: seq<string>, receipt: Option<string>)

  datatype Row = Row(
    target: string,
    cluster: string,
    clusterRevision: string,
    lifecycle: Lifecycle,
    commissioning: G.GateStatus,
    qualification: G.GateStatus,
    requiredCommissioning: seq<string>,
    requiredQualification: seq<string>,
    profile: P.Json,
    health: Health,
    compliance: Compliance,
    plan: Plan,
    progress: Progress,
    cycleStart: int,
    revision: nat)

  /** The columns one conditional update sets. */
  datatype Patch = Patch(
    revision: nat,
    clusterRevision: Option<string>,
    lifecycle: Option<Lifecycle>,
    commissioning: Option<G.GateStatus>,
    qualification: Option<G.GateStatus>,
    requiredCommissioning: Option<seq<string>>,
    requiredQualification: Option<seq<string>>,
    profile: Option<P.Json>,
    health: Option<Health>,
    compliance: Option<Compliance>,
    plan: Option<Plan>,
    progress: Option<Progress>,
    cycleStart: Option<int>)

  function Touch(revision: nat): Patch {
    Patch(revision, None, None, None, None, None, None, None, None, None, None, None, None)
  }

  function Set<T>(column: Option<T>, stored: T): T {
    if column.Some? then column.value else stored
  }

  function Apply(row: Row, p: Patch): Row {
    row.(clusterRevision := Set(p.clusterRevision, row.clusterRevision),
         lifecycle := Set(p.lifecycle, row.lifecycle),
         commissioning := Set(p.commissioning, row.commissioning),
         qualification := Set(p.qualification, row.qualification),
         requiredCommissioning := Set(p.requiredCommissioning, row.requiredCommissioning),
         requiredQualification := Set(p.requiredQualification, row.requiredQualification),
         profile := Set(p.profile, row.profile),
         health := Set(p.health, row.health),
         compliance := Set(p.compliance, row.compliance),
         plan := Set(p.plan, row.plan),
         progress := Set(p.progress, row.progress),
         cycleStart := Set(p.cycleStart, row.cycleStart),
         revision := p.revision)
  }

  /** A handler's conclusion: refuse, answer without writing, or write. */
  datatype Decision = Refuse | Keep | Write(patch: Patch)

  function PendingGate(required: seq<string>): G.GateStatus {
    if required == [] then G.NotConfigured else G.Pending
  }

  function Enroll(target: string, cluster: string, clusterRevision: string, profile: P.Json,
                  requiredCommissioning: seq<string>, requiredQualification: seq<string>, now: int, revision: nat): Row
  {
    Row(target, cluster, clusterRevision, Discovered, PendingGate(requiredCommissioning),
        PendingGate(requiredQualification),
        requiredCommissioning, requiredQualification, profile, HealthUnknown, ComplianceUnknown, NotPlanned, NO_LINK,
          now, revision)
  }

  // ---- Evidence read outside the row ----

  datatype Incident = Incident(host: Option<string>, closed: bool, critical: bool)

  datatype Signal = Signal(id: string, incident: string, host: string, critical: bool, firing: bool, ended: bool)

  datatype Snapshot = Snapshot(host: string, status: Health, revision: string)

  /** What a handler has read so far; each part is read at its own moment. `None` inside means that no row was
      visible. */
  datatype Evidence = Evidence(
    incident: Option<Option<Incident>>,
    signals: Option<set<Signal>>,
    health: Option<Option<Snapshot>>,
    clusterRevision: Option<string>)

  const NOTHING_SEEN := Evidence(None, None, None, None)

  predicate FiringCritical(s: Signal) {
    s.critical && s.firing && !s.ended
  }

  predicate HostFiring(signals: set<Signal>, host: string) {
    exists s :: s in signals && s.host == host && FiringCritical(s)
  }

  predicate IncidentFiring(signals: set<Signal>, incident: string) {
    exists s :: s in signals && s.incident == incident && FiringCritical(s)
  }

  /** `validate_incident_safe_stop`: the health revision at isolation, when the incident may isolate the server. */
  function SafeStop(incident: string, seen: Evidence): Option<string> {
    if seen.incident.Some? && seen.signals.Some? && seen.health.Some?
       && seen.incident.value.Some? && !seen.incident.value.value.closed && seen.incident.value.value.critical
       && IncidentFiring(seen.signals.value, incident)
       && seen.health.value.Some?
       && seen.incident.value.value.host == Some(seen.health.value.value.host)
    then Some(seen.health.value.value.revision)
    else None
  }

  /** `validate_incident_recovery`, once the row is known to be linked: the fresh health revision, when recovery may
      start. */
  function Recovery(isolation: string, seen: Evidence): Option<string> {
    if seen.incident.Some? && seen.signals.Some? && seen.health.Some?
       && seen.incident.value.Some? && seen.incident.value.value.closed && seen.incident.value.value.host.Some?
       && !HostFiring(seen.signals.value, seen.incident.value.value.host.value)
       && seen.health.value.Some?
       && seen.health.value.value.host == seen.incident.value.value.host.value
       && seen.health.value.value.status == Healthy
       && seen.health.value.value.revision != isolation
    then Some(seen.health.value.value.revision)
    else None
  }

  // ---- Lifecycle transitions ----

  predicate TransitionAllowed(src: Lifecycle, dst: Lifecycle) {
    match src
    case Discovered => dst == Commissioning || dst == Retired
    case Commissioning => dst == ReadyToConfigure || dst == Quarantined || dst == Retired
    case ReadyToConfigure => dst == Configuring || dst == Quarantined || dst == Retired
    case Configuring => dst == Qualifying || dst == Quarantined || dst == Retired
    case Qualifying => dst == Active || dst == Quarantined || dst == Retired
    case Active => dst == Draining || dst == Quarantined || dst == Retired
    case Draining => dst == Maintenance || dst == Active || dst == Quarantined || dst == Retired
    case Maintenance => dst == Qualifying || dst == Retired
    case Quarantined => dst == Commissioning || dst == Retired
    case Retired => false
  }

  /** A transition request. `reason` is present when a valid reason text is given. */
  datatype Request = Request(dst: Lifecycle, reason: bool, incident: Option<string>, targetRevision: Option<string>)

  predicate NeedsRecovery(row: Row, dst: Lifecycle) {
    (row.lifecycle == Quarantined && dst == Commissioning) || dst == Active
  }

  /** The link carried forward, replaced or cleared by a transition. */
  function NextProgress(row: Row, req: Request, isolation: Option<string>, recovered: Option<string>): Progress {
    if req.incident.Some? then Progress(req.incident, isolation, None)
    else if recovered.Some? then row.progress.(faultCleared := recovered)
    else if req.dst == Active || req.dst == Quarantined || req.dst == Retired then NO_LINK
    else row.progress
  }

  function TransitionPatch(row: Row, req: Request, isolation: Option<string>, recovered: Option<string>, now: int,
                           revision: nat): Patch {
    var p :=
      Touch(revision).(lifecycle := Some(req.dst), progress := Some(NextProgress(row, req, isolation, recovered)));
    match req.dst
    case Quarantined =>
      p.(compliance := Some(Blocked), qualification := Some(PendingGate(row.requiredQualification)),
         cycleStart := Some(now))
    case Commissioning =>
      p.(compliance := Some(ComplianceUnknown), commissioning := Some(PendingGate(row.requiredCommissioning)),
         qualification := Some(PendingGate(row.requiredQualification)), cycleStart := Some(now))
    case Qualifying =>
      p.(compliance := Some(ComplianceUnknown), qualification := Some(PendingGate(row.requiredQualification)),
         cycleStart := Some(now))
    case Active =>
      if recovered.Some? then p.(health := Some(Healthy), compliance := Some(Compliant)) else p
    case _ => p
  }

  /** `enrollment_transition`. */
  function DecideTransition(row: Row, req: Request, seen: Evidence, now: int, revision: nat): Decision {
    var isolation := if req.incident.Some? then SafeStop(req.incident.value, seen) else None;
    var linked := NeedsRecovery(row, req.dst) && row.progress.incident.Some?;
    var recovered := if linked && row.progress.isolation.Some? then Recovery(row.progress.isolation.value, seen)
      else None;
    if req.dst == Quarantined && !req.reason then Refuse
    else if req.incident.Some? && req.dst != Quarantined then Refuse
    else if row.lifecycle == req.dst then Keep
    else if !TransitionAllowed(row.lifecycle, req.dst) then Refuse
    else if req.dst == ReadyToConfigure && !G.GatePassed(row.commissioning) then Refuse
    else if req.dst == Active && !G.GatePassed(row.qualification) then Refuse
    else if req.incident.Some? && isolation.None? then Refuse
    else if req.targetRevision.Some? && req.targetRevision != isolation then Refuse
    else if linked && recovered.None? then Refuse
    else if linked && req.dst == Active && seen.clusterRevision != Some(row.clusterRevision) then Refuse
    else Write(TransitionPatch(row, req, isolation, recovered, now, revision))
  }

  // ---- Validation ----

  predicate ValidationAllowed(gate: G.Gate, lifecycle: Lifecycle) {
    match gate
    case Commissioning => lifecycle == Commissioning || lifecycle == Quarantined
    case Qualification =>
      lifecycle == Qualifying || lifecycle == Active || lifecycle == Maintenance || lifecycle == Quarantined
  }

  function Required(row: Row, gate: G.Gate): seq<string> {
    if gate.Commissioning? then row.requiredCommissioning else row.requiredQualification
  }

  function StatusOf(row: Row, gate: G.Gate): G.GateStatus {
    if gate.Commissioning? then row.commissioning else row.qualification
  }

  /** `validation_record`, once its result is stored and the newest results of the gate are read back. */
  function DecideValidation(row: Row, gate: G.Gate, listing: seq<G.Result>, revision: nat): Decision {
    if !ValidationAllowed(gate, row.lifecycle) then Refuse
    else
      var verdict := G.PageVerdict(Required(row, gate), listing, row.cycleStart);
      var persist := row.lifecycle != Active || !(verdict == G.Pending || verdict == G.Running);
      var p := Touch(revision);
      var q :=
        if !persist then p
        else if gate.Commissioning? then p.(commissioning := Some(verdict))
        else p.(qualification := Some(verdict));
      Write(if row.lifecycle == Active && gate.Qualification? && verdict == G.Failed
            then q.(lifecycle := Some(Quarantined)) else q)
  }

  // ---- Rollout, plan, setup receipt, posture ----

  /** The composed profile a rollout would pin, as loaded for the enrollment's cluster. */
  datatype Desired = Desired(
    clusterRevision: string,
    profile: P.Json,
    requiredCommissioning: seq<string>,
    requiredQualification: seq<string>)

  /** `enrollment_rollout_apply`. */
  function DecideRollout(row: Row, expectedRevision: nat, expectedCluster: string, desired: Desired, now: int,
                         revision: nat): Decision {
    var verdict := R.Decide(row.profile, desired.profile, row.requiredCommissioning, desired.requiredCommissioning);
    if row.lifecycle != Active || row.revision != expectedRevision || desired.requiredQualification == []
       || desired.clusterRevision != expectedCluster || row.clusterRevision == desired.clusterRevision
       || !row.profile.Obj? || verdict == R.Rejected
    then Refuse
    else
      Write(Touch(revision).(
              clusterRevision := Some(desired.clusterRevision),
              lifecycle := Some(if verdict == R.ToReadyToConfigure then ReadyToConfigure else Qualifying),
              qualification := Some(G.Pending),
              commissioning := Some(row.commissioning),
              requiredCommissioning := Some(desired.requiredCommissioning),
              requiredQualification := Some(desired.requiredQualification),
              profile := Some(desired.profile),
              compliance := Some(ComplianceUnknown),
              plan := Some(Reviewed(verdict == R.ToReadyToConfigure, Sorted(R.Features(desired.profile)), None)),
              progress := Some(NO_LINK),
              cycleStart := Some(now)))
  }

  /** `enrollment_plan_record`. */
  function DecidePlan(row: Row, plan: Plan, revision: nat): Decision {
    if row.lifecycle != ReadyToConfigure then Refuse
    else Write(Touch(revision).(plan := Some(plan), progress := Some(NO_LINK)))
  }

  /** `enrollment_setup_record`. */
  function DecideSetup(row: Row, target: string, features: seq<string>, targetRevision: string, expectedRevision: nat,
                       revision: nat): Decision {
    if row.target != target || row.lifecycle != ReadyToConfigure then Refuse
    else if !row.plan.Reviewed? || !row.plan.reapply || row.plan.features != features then Refuse
    else if row.plan.receipt.Some? then (if row.plan.receipt.value == targetRevision then Keep else Refuse)
    else if row.revision != expectedRevision then Refuse
    else Write(Touch(revision).(plan := Some(Reviewed(true, features, Some(targetRevision))),
                                progress := Some(NO_LINK)))
  }

  /** `derive_posture`. */
  function DerivedCompliance(row: Row, currentCluster: string): Compliance {
    if row.commissioning == G.Failed || row.qualification == G.Failed then Blocked
    else if row.lifecycle == Active && row.clusterRevision != currentCluster then Drift
    else if row.lifecycle == Active && G.GatePassed(row.commissioning) && G.GatePassed(row.qualification) then Compliant
    else ComplianceUnknown
  }

  /** `reconcile_posture`. */
  function DecidePosture(row: Row, observed: Health, seen: Evidence, revision: nat): Decision {
    if row.lifecycle == Retired then Keep
    else if seen.clusterRevision.None? then Refuse
    else
      var compliance := DerivedCompliance(row, seen.clusterRevision.value);
      if row.health == observed && row.compliance == compliance then Keep
      else Write(Touch(revision).(health := Some(observed), compliance := Some(compliance)))
  }

  // ---- What every write keeps ----

  predicate Commissioned(l: Lifecycle) {
    l == ReadyToConfigure || l == Configuring || l == Qualifying || l == Active || l == Draining || l == Maintenance
  }

  predicate InService(l: Lifecycle) {
    l == Active || l == Draining
  }

  /** The gate invariant of one row. */
  predicate RowOk(row: Row) {
    && (InService(row.lifecycle) ==> G.GatePassed(row.qualification))
    && (Commissioned(row.lifecycle) ==> G.GatePassed(row.commissioning))
    && (G.GatePassed(row.qualification) ==> row.requiredQualification != [])
  }
}
