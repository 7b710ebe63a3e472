/** What each handler's write amounts to, said by the stored values alone: which moves of the lifecycle there are,
    when a transition is granted, and what evidence isolates a server. */
module EnrollmentMoves {
  import opened Text
  import opened Enrollment
  import opened EnrollmentRuns
  import P = Profiles
  import R = Rollout
  import G = Gates

  // ---- Transitions ----

  /** The moves a transition may make. */
  const MOVES: set<(Lifecycle, Lifecycle)> := {
    (Discovered, Commissioning), (Discovered, Retired),
    (Commissioning, ReadyToConfigure), (Commissioning, Quarantined), (Commissioning, Retired),
    (ReadyToConfigure, Configuring), (ReadyToConfigure, Quarantined), (ReadyToConfigure, Retired),
    (Configuring, Qualifying), (Configuring, Quarantined), (Configuring, Retired),
    (Qualifying, Active), (Qualifying, Quarantined), (Qualifying, Retired),
    (Active, Draining), (Active, Quarantined), (Active, Retired),
    (Draining, Maintenance), (Draining, Active), (Draining, Quarantined), (Draining, Retired),
    (Maintenance, Qualifying), (Maintenance, Retired),
    (Quarantined, Commissioning), (Quarantined, Retired)}

  /** An incident, the signals and a snapshot were all seen. */
  predicate AllSeen(seen: Evidence) {
    && seen.incident.Some? && seen.incident.value.Some? && seen.signals.Some?
    && seen.health.Some? && seen.health.value.Some?
  }

  /** The incident is open and critical, one of its signals is critical, firing and not ended, and the snapshot with
      this revision is of the incident's host. */
  predicate Isolating(seen: Evidence, incident: string, revision: string) {
    && AllSeen(seen)
    && var i, signals, h := seen.incident.value.value, seen.signals.value, seen.health.value.value;
       && !i.closed && i.critical && i.host == Some(h.host) && h.revision == revision
       && exists s :: s in signals && s.incident == incident && s.critical && s.firing && !s.ended
  }

  /** The incident is closed, no signal of its host is critical, firing and not ended, and the snapshot with this
      revision is of that host, healthy, and not the one of the isolation. */
  predicate Recovering(seen: Evidence, isolation: string, revision: string) {
    && AllSeen(seen)
    && var i, signals, h := seen.incident.value.value, seen.signals.value, seen.health.value.value;
       && i.closed && i.host == Some(h.host) && h.status == Healthy && h.revision == revision != isolation
       && forall s :: s in signals && s.host == h.host ==> !s.critical || !s.firing || s.ended
  }

  predicate PassedOrWarning(s: G.GateStatus) {
    s == G.Passed || s == G.Warning
  }

  /** The transitions that repeat the check of recovery. */
  predicate ReturnsToDuty(row: Row, dst: Lifecycle) {
    row.progress.incident.Some? && ((row.lifecycle == Quarantined && dst == Commissioning) || dst == Active)
  }

  lemma SafeStopExactly(incident: string, seen: Evidence, revision: string)
    ensures SafeStop(incident, seen) == Some(revision) <==> Isolating(seen, incident, revision)
  {
  }

  lemma RecoveryExactly(isolation: string, seen: Evidence, revision: string)
    ensures Recovery(isolation, seen) == Some(revision) <==> Recovering(seen, isolation, revision)
  {
  }

  lemma MovesExactly(src: Lifecycle, dst: Lifecycle)
    ensures TransitionAllowed(src, dst) <==> (src, dst) in MOVES
  {
  }

  /** When `enrollment_transition` writes: the move exists, its gate has passed, a quarantine has a reason, a named
      incident isolates the server, an expected snapshot is the one seen, and a linked server that returns to duty
      has recovered, under its pinned cluster profile if it becomes active. */
  lemma TransitionExactly(row: Row, req: Request, seen: Evidence, now: int, revision: nat)
    ensures DecideTransition(row, req, seen, now, revision).Write? <==>
            && (row.lifecycle, req.dst) in MOVES
            && (req.dst == ReadyToConfigure ==> PassedOrWarning(row.commissioning))
            && (req.dst == Active ==> PassedOrWarning(row.qualification))
            && (req.dst == Quarantined ==> req.reason)
            && (req.incident.Some? ==> req.dst == Quarantined && exists v :: Isolating(seen, req.incident.value, v))
            && (req.targetRevision.Some? ==>
                  req.incident.Some? && Isolating(seen, req.incident.value, req.targetRevision.value))
            && (ReturnsToDuty(row, req.dst) ==>
                  && row.progress.isolation.Some? && (exists v :: Recovering(seen, row.progress.isolation.value, v))
                  && (req.dst == Active ==> seen.clusterRevision == Some(row.clusterRevision)))
    ensures DecideTransition(row, req, seen, now, revision).Keep? <==>
            && row.lifecycle == req.dst && (req.dst == Quarantined ==> req.reason)
            && (req.incident.Some? ==> req.dst == Quarantined)
  {
    MovesExactly(row.lifecycle, req.dst);
    if req.incident.Some? {
      StoppedExactly(req.incident.value, seen);
    }
    if row.progress.isolation.Some? {
      RecoveredExactly(row.progress.isolation.value, seen);
    }
  }

  lemma StoppedExactly(incident: string, seen: Evidence)
    ensures SafeStop(incident, seen).Some? <==> exists v :: Isolating(seen, incident, v)
    ensures forall v :: SafeStop(incident, seen) == Some(v) <==> Isolating(seen, incident, v)
  {
    forall v ensures SafeStop(incident, seen) == Some(v) <==> Isolating(seen, incident, v) {
      SafeStopExactly(incident, seen, v);
    }
    if SafeStop(incident, seen).Some? {
      SafeStopExactly(incident, seen, SafeStop(incident, seen).value);
    }
  }

  lemma RecoveredExactly(isolation: string, seen: Evidence)
    ensures Recovery(isolation, seen).Some? <==> exists v :: Recovering(seen, isolation, v)
    ensures forall v :: Recovery(isolation, seen) == Some(v) <==> Recovering(seen, isolation, v)
  {
    forall v ensures Recovery(isolation, seen) == Some(v) <==> Recovering(seen, isolation, v) {
      RecoveryExactly(isolation, seen, v);
    }
    if Recovery(isolation, seen).Some? {
      RecoveryExactly(isolation, seen, Recovery(isolation, seen).value);
    }
  }

  function ResetGate(required: seq<string>): G.GateStatus {
    if |required| == 0 then G.NotConfigured else G.Pending
  }

  /** The columns a transition never sets. */
  predicate SamePins(row: Row, next: Row) {
    && next.target == row.target && next.cluster == row.cluster && next.clusterRevision == row.clusterRevision
    && next.requiredCommissioning == row.requiredCommissioning
    && next.requiredQualification == row.requiredQualification
    && next.profile == row.profile && next.plan == row.plan
  }

  /** What a granted transition leaves of the gates: entering a validation phase or quarantine starts a new cycle. */
  predicate GatesAfter(row: Row, next: Row, now: int) {
    && (if next.lifecycle in {Commissioning, Qualifying, Quarantined}
        then next.cycleStart == now && next.qualification == ResetGate(row.requiredQualification)
        else next.cycleStart == row.cycleStart && next.qualification == row.qualification)
    && (if next.lifecycle == Commissioning
        then next.commissioning == ResetGate(row.requiredCommissioning)
        else next.commissioning == row.commissioning)
  }

  /** What it leaves of the posture. */
  predicate PostureAfter(row: Row, next: Row) {
    var recovered := next.lifecycle == Active && row.progress.incident.Some?;
    && next.health == (if recovered then Healthy else row.health)
    && next.compliance ==
         (if next.lifecycle == Quarantined then Blocked
          else if next.lifecycle in {Commissioning, Qualifying} then ComplianceUnknown
          else if recovered then Compliant
          else row.compliance)
  }

  /** And of the link: a named incident is linked with the snapshot seen; a return to duty notes the snapshot that
      showed recovery; any other quarantine, activation or retirement ends the link; other moves keep it. */
  predicate LinkAfter(row: Row, req: Request, seen: Evidence, next: Row) {
    if req.incident.Some? then
      && next.progress.incident == req.incident && next.progress.faultCleared.None?
      && next.progress.isolation.Some? && Isolating(seen, req.incident.value, next.progress.isolation.value)
    else if ReturnsToDuty(row, next.lifecycle) then
      && next.progress.incident == row.progress.incident && next.progress.isolation == row.progress.isolation
      && row.progress.isolation.Some? && next.progress.faultCleared.Some?
      && Recovering(seen, row.progress.isolation.value, next.progress.faultCleared.value)
    else if next.lifecycle in {Active, Quarantined, Retired} then
      next.progress.incident.None? && next.progress.isolation.None? && next.progress.faultCleared.None?
    else next.progress == row.progress
  }

  /** Everything a granted transition writes. */
  lemma TransitionWrites(row: Row, req: Request, seen: Evidence, now: int, revision: nat)
    requires DecideTransition(row, req, seen, now, revision).Write?
    ensures var next := Apply(row, DecideTransition(row, req, seen, now, revision).patch);
            && next.lifecycle == req.dst && next.revision == revision && SamePins(row, next)
            && GatesAfter(row, next, now) && PostureAfter(row, next) && LinkAfter(row, req, seen, next)
  {
    MovesExactly(row.lifecycle, req.dst);
    if req.incident.Some? {
      StoppedExactly(req.incident.value, seen);
    }
    if row.progress.isolation.Some? {
      RecoveredExactly(row.progress.isolation.value, seen);
    }
  }

  // ---- The other handlers ----

  /** A new enrollment is discovered, with its gates not yet passed, nothing known, nothing planned and no link. */
  lemma EnrollWrites(target: string, cluster: string, clusterRevision: string, profile: P.Json,
                     commissioning: seq<string>, qualification: seq<string>, now: int, revision: nat)
    ensures var row := Enroll(target, cluster, clusterRevision, profile, commissioning, qualification, now, revision);
            && row.target == target && row.cluster == cluster && row.clusterRevision == clusterRevision
            && row.profile == profile && row.requiredCommissioning == commissioning
            && row.requiredQualification == qualification && row.cycleStart == now && row.revision == revision
            && row.lifecycle == Discovered && row.commissioning == ResetGate(commissioning)
            && row.qualification == ResetGate(qualification) && row.health == HealthUnknown
            && row.compliance == ComplianceUnknown && row.plan == NotPlanned
            && row.progress == Progress(None, None, None)
  {
  }

  /** A result is accepted exactly in the states that run the gate, and in quarantine. Its verdict becomes the status
      of the gate, except that a server in service keeps its status while the verdict is open; a failed qualification
      takes it out of service. Nothing else changes. */
  lemma ValidationWrites(row: Row, gate: G.Gate, listing: seq<G.Result>, revision: nat)
    ensures var d := DecideValidation(row, gate, listing, revision);
            var verdict := G.PageVerdict(Required(row, gate), listing, row.cycleStart);
            var settled := row.lifecycle != Active || verdict in {G.NotConfigured, G.Passed, G.Warning, G.Failed};
            && (d.Write? <==> (gate == G.Commissioning && row.lifecycle in {Commissioning, Quarantined})
                              || (gate == G.Qualification
                                  && row.lifecycle in {Qualifying, Active, Maintenance, Quarantined}))
            && !d.Keep?
            && (d.Write? ==>
                  Apply(row, d.patch) == row.(
                    revision := revision,
                    lifecycle := if row.lifecycle == Active && verdict == G.Failed then Quarantined else row.lifecycle,
                    commissioning := if gate.Commissioning? then verdict else row.commissioning,
                    qualification := if gate.Qualification? && settled then verdict else row.qualification))
  {
  }

  /** A plan is recorded exactly while the enrollment waits for configuration, and ends the link. */
  lemma PlanWrites(row: Row, plan: Plan, revision: nat)
    ensures var d := DecidePlan(row, plan, revision);
            && (d.Write? <==> row.lifecycle == ReadyToConfigure) && !d.Keep?
            && (d.Write? ==> Apply(row, d.patch) ==
                             row.(revision := revision, plan := plan, progress := Progress(None, None, None)))
  {
  }

  /** A setup run is recorded exactly once for a reviewed plan that asks for it, on the target, features and revision
      it names; the same run again is answered without writing. */
  lemma SetupWrites(row: Row, target: string, features: seq<string>, ran: string, expected: nat, revision: nat)
    ensures var d := DecideSetup(row, target, features, ran, expected, revision);
            var asked := row.target == target && row.lifecycle == ReadyToConfigure
                         && (row.plan == Reviewed(true, features, None)
                             || exists v :: row.plan == Reviewed(true, features, Some(v)));
            && (d.Write? <==> asked && row.plan.receipt.None? && row.revision == expected)
            && (d.Keep? <==> asked && row.plan.receipt == Some(ran))
            && (d.Write? ==> Apply(row, d.patch) ==
                             row.(revision := revision, plan := Reviewed(true, features, Some(ran)),
                                  progress := Progress(None, None, None)))
  {
    if row.plan.Reviewed? && row.plan.receipt.Some? {
      assert row.plan == Reviewed(row.plan.reapply, row.plan.features, Some(row.plan.receipt.value));
    }
  }

  /** The compliance a posture run finds: blocked by a failed gate; otherwise, in service, drift or compliant as the
      pinned cluster revision is the current one; otherwise unknown. */
  predicate CompliesAs(row: Row, current: string, c: Compliance) {
    var blocked := row.commissioning == G.Failed || row.qualification == G.Failed;
    && (c == Blocked <==> blocked)
    && (c == Drift <==> !blocked && row.lifecycle == Active && row.clusterRevision != current)
    && (c == Compliant <==> && row.lifecycle == Active && row.clusterRevision == current
                            && PassedOrWarning(row.commissioning) && PassedOrWarning(row.qualification))
  }

  /** A posture run writes exactly when health or compliance has changed, and nothing else than those two. */
  lemma PostureWrites(row: Row, observed: Health, seen: Evidence, revision: nat)
    ensures var d := DecidePosture(row, observed, seen, revision);
            && (d.Refuse? <==> row.lifecycle != Retired && seen.clusterRevision.None?)
            && (d.Keep? <==> row.lifecycle == Retired
                             || (seen.clusterRevision.Some? && row.health == observed
                                 && CompliesAs(row, seen.clusterRevision.value, row.compliance)))
            && (d.Write? ==>
                  var next := Apply(row, d.patch);
                  && CompliesAs(row, seen.clusterRevision.value, next.compliance)
                  && next == row.(revision := revision, health := observed, compliance := next.compliance))
  {
  }

  /** A rollout pins the desired profile, with its checks, for the revision expected of an active enrollment and of
      its cluster; qualification starts again and the link ends. */
  lemma RolloutPins(row: Row, expected: nat, expectedCluster: string, desired: Desired, now: int, revision: nat)
    ensures var d := DecideRollout(row, expected, expectedCluster, desired, now, revision);
            var verdict := R.Decide(row.profile, desired.profile, row.requiredCommissioning,
                                    desired.requiredCommissioning);
            && (d.Write? <==>
                  && row.lifecycle == Active && row.revision == expected && |desired.requiredQualification| > 0
                  && desired.clusterRevision == expectedCluster && expectedCluster != row.clusterRevision
                  && row.profile.Obj? && verdict in {R.ToQualifying, R.ToReadyToConfigure})
            && !d.Keep?
            && (d.Write? ==>
                  var next := Apply(row, d.patch);
                  && next == row.(revision := revision, lifecycle := next.lifecycle,
                                  clusterRevision := expectedCluster, profile := desired.profile,
                                  requiredCommissioning := desired.requiredCommissioning,
                                  requiredQualification := desired.requiredQualification,
                                  qualification := G.Pending, compliance := ComplianceUnknown, cycleStart := now,
                                  plan := next.plan, progress := Progress(None, None, None))
                  && (next.lifecycle == ReadyToConfigure <==> verdict == R.ToReadyToConfigure)
                  && next.plan.Reviewed? && next.plan.receipt.None?
                  && (next.plan.reapply <==> next.lifecycle == ReadyToConfigure)
                  && (next.lifecycle == ReadyToConfigure || next.lifecycle == Qualifying)
                  && StrictlySorted(next.plan.features)
                  && forall f :: f in next.plan.features <==> f in R.Features(desired.profile))
  {
  }

  // ---- Over runs ----

  /** In every run, a step that moves an enrollment makes one of the listed moves, or is a rollout that takes an active
      one back to qualifying or to wait for configuration. */
  lemma EveryMoveIsListed(r: Run, i: nat, id: string)
    requires IsRun(r) && i < |r.steps| && WriteAt(r, i, id)
    requires r.states[i].rows[id].lifecycle != r.states[i + 1].rows[id].lifecycle
    ensures var src, dst := r.states[i].rows[id].lifecycle, r.states[i + 1].rows[id].lifecycle;
            var call := r.states[i].handlers[r.steps[i].h].call;
            || (call.Transition? && (src, dst) in MOVES)
            || (call.Validate? && call.gate == G.Qualification && src == Active && dst == Quarantined)
            || (call.ApplyRollout? && src == Active && dst in {Qualifying, ReadyToConfigure})
  {
    WriteDecided(r, i, id);
    var hd, revision := r.states[i].handlers[r.steps[i].h], r.steps[i].revision;
    match hd.call
    case Transition(req) =>
      TransitionExactly(hd.row, req, hd.seen, hd.clock.value, revision);
      TransitionWrites(hd.row, req, hd.seen, hd.clock.value, revision);
    case Validate(gate, _, _) => ValidationWrites(hd.row, gate, hd.listing.value, revision);
    case _ =>
  }

  /** While the row stood as it is, the incident was open and critical on this host, a critical signal of it was
      firing and not ended, and the target's snapshot was of that host with this revision; each at some moment up to
      step `i`. */
  ghost predicate IsolationSeen(r: Run, i: nat, id: string, row: Row, incident: string, revision: string)
    requires i < |r.states|
  {
    exists a, b, c, host ::
      && 0 <= a <= i && RowAt(r.states[a], id, row) && CriticalAt(r.states[a], incident, host)
      && 0 <= b <= i && RowAt(r.states[b], id, row) && SignalFiringAt(r.states[b], incident)
      && 0 <= c <= i && RowAt(r.states[c], id, row) && SnapshotAt(r.states[c], row.target, host, revision)
  }

  ghost predicate CriticalAt(s: State, incident: string, host: string) {
    && incident in s.world.incidents && !s.world.incidents[incident].closed && s.world.incidents[incident].critical
    && s.world.incidents[incident].host == Some(host)
  }

  ghost predicate SignalFiringAt(s: State, incident: string) {
    exists g :: g in s.world.signals && g.incident == incident && g.critical && g.firing && !g.ended
  }

  ghost predicate SnapshotAt(s: State, target: string, host: string, revision: string) {
    target in s.world.health && s.world.health[target].host == host && s.world.health[target].revision == revision
  }

  /** A handler that saw what isolates the server saw it while the row stood. */
  lemma IsolatingWasTrue(r: Run, i: nat, id: string, incident: string, revision: string)
    requires IsRun(r) && i < |r.steps| && WriteAt(r, i, id)
    requires var hd := r.states[i].handlers[r.steps[i].h];
             hd.call.Transition? && hd.call.req.incident == Some(incident) && Isolating(hd.seen, incident, revision)
    ensures IsolationSeen(r, i, id, r.states[i].rows[id], incident, revision)
  {
    var row, h := r.states[i].rows[id], r.steps[i].h;
    var a := EvidenceWasTrue(r, i, h, Incidents);
    var b := EvidenceWasTrue(r, i, h, Signals);
    var c := EvidenceWasTrue(r, i, h, HealthTable);
    var host := r.states[i].handlers[h].seen.health.value.value.host;
    assert RowAt(r.states[a], id, row) && CriticalAt(r.states[a], incident, host);
    assert RowAt(r.states[b], id, row) && SignalFiringAt(r.states[b], incident);
    assert RowAt(r.states[c], id, row) && SnapshotAt(r.states[c], row.target, host, revision);
  }

  /** The write changes the link, or quarantines by a transition that leaves one. */
  ghost predicate GivesLink(hd: Handler, row: Row, next: Row) {
    && next.progress.incident.Some?
    && (|| next.progress.incident != row.progress.incident || next.progress.isolation != row.progress.isolation
        || (hd.call.Transition? && next.lifecycle == Quarantined))
  }

  /** The twin of leaving a linked quarantine: in every run, a step that links an enrollment to an incident is a
      quarantine with a reason whose handler saw, while the row stood, that incident open and critical on the host of
      the target's snapshot, and a critical signal of it firing and not ended; and the isolation it stores is that
      snapshot. */
  lemma LinkedQuarantineEntry(r: Run, i: nat, id: string)
    requires IsRun(r) && i < |r.steps| && WriteAt(r, i, id)
    requires GivesLink(r.states[i].handlers[r.steps[i].h], r.states[i].rows[id], r.states[i + 1].rows[id])
    ensures var hd, next := r.states[i].handlers[r.steps[i].h], r.states[i + 1].rows[id];
            && hd.call.Transition? && hd.call.req.reason && next.lifecycle == Quarantined
            && next.progress.isolation.Some? && next.progress.faultCleared.None?
            && IsolationSeen(r, i, id, r.states[i].rows[id], next.progress.incident.value,
                             next.progress.isolation.value)
  {
    WriteDecided(r, i, id);
    var hd, revision, next := r.states[i].handlers[r.steps[i].h], r.steps[i].revision, r.states[i + 1].rows[id];
    LinkGivenByTransition(hd, revision);
    TransitionExactly(hd.row, hd.call.req, hd.seen, hd.clock.value, revision);
    TransitionWrites(hd.row, hd.call.req, hd.seen, hd.clock.value, revision);
    IsolatingWasTrue(r, i, id, next.progress.incident.value, next.progress.isolation.value);
  }

  /** No other handler gives a link, and no transition does that names no incident. */
  lemma LinkGivenByTransition(hd: Handler, revision: nat)
    requires Decide(hd, revision).Write? && GivesLink(hd, hd.row, Apply(hd.row, Decide(hd, revision).patch))
    ensures hd.call.Transition? && hd.call.req.incident.Some?
  {
    if hd.call.Transition? {
      TransitionWrites(hd.row, hd.call.req, hd.seen, hd.clock.value, revision);
    }
  }

  /** And conversely: a handler that asks for such a quarantine with a reason, holds such evidence, and finds its row
      unmoved in a state from which quarantine can be reached, isolates the server. */
  lemma EvidenceIsolates(s: State, h: nat, incident: string, snapshot: string, revision: nat)
    requires Inv(s) && Enabled(s, Commit(h, revision)) && Unmoved(s, h) && s.handlers[h].clock.Some?
    requires var hd := s.handlers[h];
             && (hd.call == Transition(Request(Quarantined, true, Some(incident), None))
                 || hd.call == Transition(Request(Quarantined, true, Some(incident), Some(snapshot))))
             && hd.row.lifecycle in {Commissioning, ReadyToConfigure, Configuring, Qualifying, Active, Draining}
             && Isolating(hd.seen, incident, snapshot)
    ensures var id, rows := s.handlers[h].id, After(s, Commit(h, revision)).rows;
            && id in rows && rows[id].lifecycle == Quarantined
            && rows[id].progress == Progress(Some(incident), Some(snapshot), None)
            && rows[id].compliance == Blocked && rows[id].cycleStart == s.handlers[h].clock.value
  {
    var hd := s.handlers[h];
    assert HandlerOk(s, hd);
    TransitionExactly(hd.row, hd.call.req, hd.seen, hd.clock.value, revision);
    TransitionWrites(hd.row, hd.call.req, hd.seen, hd.clock.value, revision);
    assert Effective(s, h, revision);
  }
}
