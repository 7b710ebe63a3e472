/** When the enrollment job succeeds: with everything working, a newly discovered enrollment reaches service if and
    only if the job can run every check that its gates require. */
module EnrollmentJobSuccess {
  import opened Text
  import opened Enrollment
  import opened EnrollmentJob
  import opened EnrollmentJobRuns
  import G = Gates
  import GR = GateRoom

  // ---- A run where everything works ----

  predicate ServesAt(env: Environment, n: nat) {
    env.broker(n).None? && env.observes(n) && env.evidence(n).clusterRevision.Some?
  }

  /** Every call is served, every observation of a check the job can run is good, the repair works, and the clock
      does not go back. */
  ghost predicate Working(env: Environment) {
    && env.repair.Repaired? && (forall n :: ServesAt(env, n))
    && (forall m: nat, n: nat :: m <= n ==> env.now(m) <= env.now(n))
  }

  lemma WorkingServes(env: Environment, calls: nat)
    requires Working(env)
    ensures ReliableFrom(env, calls)
  {
    forall n | n >= calls ensures Reliable(env, n) { assert ServesAt(env, n); }
  }

  /** The required checks of a gate are among those the job can run, and there are some. */
  predicate Runnable(gate: G.Gate, required: seq<string>) {
    && required != []
    && forall c :: c in required ==>
         if gate == G.Commissioning then c == "inventory" else c in {"telemetry", "topology", "logs", "monitoring"}
  }

  lemma SupportedExactly(gate: G.Gate, check: string)
    ensures Supported(gate, check) <==>
            || (gate == G.Commissioning && check == "inventory")
            || (gate == G.Qualification && check in {"telemetry", "topology", "logs", "monitoring"})
  {
  }

  /** The checks the job can run are few. */
  lemma RunnableAreFew(gate: G.Gate, required: seq<string>)
    requires StrictlySorted(required) && Runnable(gate, required)
    ensures |required| <= 4
  {
    var within := if gate.Commissioning? then COMMISSIONING_CHECKS else QUALIFICATION_CHECKS;
    SortedFits(required, within);
    AtMostFour("telemetry", "topology", "logs", "monitoring");
    AtMostFour("inventory", "inventory", "inventory", "inventory");
    assert COMMISSIONING_CHECKS == {"inventory", "inventory", "inventory", "inventory"};
  }

  lemma AtMostFour(a: string, b: string, c: string, d: string)
    ensures |{a, b, c, d}| <= 4
  {
    var s := {a, b};
    assert |s| <= 2;
    var t := s + {c};
    assert |t| <= 3;
    assert t + {d} == {a, b, c, d};
  }

  // ---- A gate run ----

  /** In a working run the failed checks are exactly those the job cannot run. */
  lemma {:induction false} FailedAreUnsupported(env: Environment, gate: G.Gate, required: seq<string>, calls: nat)
    requires Working(env)
    ensures FailedAfter(env, gate, required, calls, []) == [] <==> forall c :: c in required ==> Supported(gate, c)
  {
    var failed := FailedAfter(env, gate, required, calls, []);
    forall c | c in required && !Supported(gate, c) ensures c in failed {
      var i :| 0 <= i < |required| && required[i] == c;
      assert FailsAt(env, gate, required, calls, i);
      FailedExactly(env, gate, required, calls, [], c);
    }
    if failed != [] {
      assert failed[0] in failed;
      FailedExactly(env, gate, required, calls, [], failed[0]);
      var i :| FailsAt(env, gate, required, calls, i) && required[i] == failed[0];
      assert ServesAt(env, calls + i);
    }
  }

  /** In a working run of checks the job can run, the stored results are passes of the cycle, one for each check,
      and what was stored before. */
  lemma {:induction false} ResultsPass(env: Environment, gate: G.Gate, required: seq<string>, calls: nat,
                                       stored: seq<G.Result>,
                                       start: int)
    returns (recent: seq<G.Result>)
    requires Working(env) && start <= env.now(calls) && forall c :: c in required ==> Supported(gate, c)
    ensures ResultsAfter(env, gate, required, calls, stored) == recent + stored && |recent| == |required|
    ensures forall r :: r in recent ==> r.outcome == G.Pass && r.observedAt >= start
    ensures forall c :: c in required ==> exists r :: r in recent && r.check == c
    decreases |required|
  {
    if required == [] {
      recent := [];
      assert recent + stored == stored;
    } else {
      var r := CheckResult(env, calls, gate, required[0]);
      assert ServesAt(env, calls) && required[0] in required;
      assert env.now(calls) <= env.now(calls + 1);
      var later := ResultsPass(env, gate, required[1..], calls + 1, [r] + stored, start);
      recent := later + [r];
      assert later + ([r] + stored) == recent + stored;
      assert required == [required[0]] + required[1..];
      forall c | c in required ensures exists q :: q in recent && q.check == c {
        if c == required[0] {
          assert r in recent;
        } else {
          var q :| q in later && q.check == c;
          assert q in recent;
        }
      }
    }
  }

  /** Everything about a working gate run that the job relies on. */
  lemma GateRunWorks(env: Environment, t: Ledger, gate: G.Gate)
    requires Working(env) && RowOk(t.row) && GateRuns(gate, t.row.lifecycle) && t.row.lifecycle != Active
    requires StrictlySorted(Required(t.row, gate))
    requires t.row.cycleStart <= env.now(t.calls) && GR.Older(StoredOf(t, gate), t.row.cycleStart)
    ensures var d := GateRun(env, t, gate);
            && (d.error.None? <==> Runnable(gate, Required(t.row, gate)))
            && (d.error.None? ==> SameButStatus(t, d.ledger, gate) && G.GatePassed(StatusOf(d.ledger.row, gate)))
  {
    var required, before := Required(t.row, gate), Ran(t, None, []);
    WorkingServes(env, t.calls);
    GateRunExactly(env, t, gate);
    FailedAreUnsupported(env, gate, required, t.calls);
    if Runnable(gate, required) {
      ChecksRunThrough(env, t, gate, required);
      ChecksStatus(env, before, gate, required);
      ChecksRunExactly(env, before, gate, required);
      RunnablePasses(env, gate, required, t.calls, StoredOf(t, gate), t.row.cycleStart);
    }
  }

  lemma RunnablePasses(env: Environment, gate: G.Gate, required: seq<string>, calls: nat, stored: seq<G.Result>,
                       start: int)
    requires Working(env) && StrictlySorted(required) && Runnable(gate, required)
    requires start <= env.now(calls) && GR.Older(stored, start)
    ensures G.PageVerdict(required, ResultsAfter(env, gate, required, calls, stored), start) == G.Passed
  {
    var recent := ResultsPass(env, gate, required, calls, stored, start);
    RunnableAreFew(gate, required);
    GR.PassingGateExactly(required, recent, stored, start);
  }

  // ---- The way into service ----

  /** Where a job began: what was required, what was stored, and the first call. */
  datatype Origin = Origin(
    commissioning: seq<string>,
    qualification: seq<string>,
    commissioned: seq<G.Result>,
    qualified: seq<G.Result>,
    begin: nat)

  ghost predicate OriginOk(env: Environment, o: Origin) {
    && StrictlySorted(o.commissioning) && StrictlySorted(o.qualification)
    && (forall c :: c in o.commissioning ==> Canonical(c)) && (forall c :: c in o.qualification ==> Canonical(c))
    && GR.Older(o.commissioned, env.now(o.begin)) && GR.Older(o.qualified, env.now(o.begin))
  }

  predicate BothRunnable(o: Origin) {
    Runnable(G.Commissioning, o.commissioning) && Runnable(G.Qualification, o.qualification)
  }

  /** The job is on its way: nothing is in its path, it could run the gates it has passed, and those ahead find what
      was stored before. */
  predicate OnTrack(env: Environment, o: Origin, t: Ledger) {
    && RowOk(t.row) && t.row.requiredCommissioning == o.commissioning && t.row.requiredQualification == o.qualification
    && t.row.progress.incident.None? && !SetupOutstanding(t.row.plan)
    && Rank(t.row.lifecycle) <= 5 && o.begin <= t.calls
    && (t.row.lifecycle == Commissioning || t.row.lifecycle == Qualifying ==>
          env.now(o.begin) <= t.row.cycleStart <= env.now(t.calls))
    && (Rank(t.row.lifecycle) <= 1 ==> t.commissioned == o.commissioned)
    && (Rank(t.row.lifecycle) <= 4 ==> t.qualified == o.qualified)
    && (Rank(t.row.lifecycle) >= 2 ==> Runnable(G.Commissioning, o.commissioning))
    && (Rank(t.row.lifecycle) >= 5 ==> Runnable(G.Qualification, o.qualification))
  }

  /** The first gate the job cannot run. */
  function Obstacle(o: Origin): G.Gate {
    if Runnable(G.Commissioning, o.commissioning) then G.Qualification else G.Commissioning
  }

  /** The job has ended in service, or, with a gate it cannot run, at that gate and quarantined. */
  predicate EndsAsItMust(o: Origin, p: Passed) {
    if BothRunnable(o)
    then p.pass == Stop(Succeeded) && p.ledger.row.lifecycle == Active
    else p.pass == Stop(GateFailed(Obstacle(o))) && p.ledger.row.lifecycle == Quarantined
  }

  /** A stage stays on its way, or the job ends there as it must. */
  predicate Tracks(env: Environment, o: Origin, t: Ledger, p: Passed) {
    && (p.pass.Continue? ==> OnTrack(env, o, p.ledger) && Rank(t.row.lifecycle) < Rank(p.ledger.row.lifecycle))
    && (p.pass.Stop? ==> EndsAsItMust(o, p))
  }

  // ---- Stage by stage ----

  /** A transition without a link goes through exactly when it is allowed and its gate has passed. */
  predicate Goes(row: Row, dst: Lifecycle) {
    && (dst == ReadyToConfigure ==> G.GatePassed(row.commissioning))
    && (dst == Active ==> G.GatePassed(row.qualification))
  }

  lemma PlainTransition(env: Environment, t: Ledger, dst: Lifecycle)
    requires env.broker(t.calls).None? && t.row.progress.incident.None? && TransitionAllowed(t.row.lifecycle, dst)
    requires dst != Quarantined && dst != Retired && t.row.lifecycle != dst
    ensures var d := Transitioned(env, t, dst, false);
            && (d.error.None? <==> Goes(t.row, dst))
            && d.ledger.calls == t.calls + 1 && d.ledger.commissioned == t.commissioned
            && d.ledger.qualified == t.qualified
            && d.ledger.row.plan == t.row.plan && d.ledger.row.progress.incident.None?
            && (d.error.None? && (dst == Commissioning || dst == Qualifying) ==>
                  d.ledger.row.cycleStart == env.now(t.calls))
  {
  }

  lemma DiscoveredTracks(env: Environment, o: Origin, t: Ledger)
    requires Working(env) && OnTrack(env, o, t) && t.row.lifecycle == Discovered
    ensures Tracks(env, o, t, Stepped(Transitioned(env, t, Commissioning, false)))
  {
    assert ServesAt(env, t.calls);
    PlainTransition(env, t, Commissioning);
    TransitionedKeeps(env, t, Commissioning, false);
  }

  lemma OlderStill(rs: seq<G.Result>, a: int, b: int)
    requires GR.Older(rs, a) && a <= b
    ensures GR.Older(rs, b)
  {
  }

  /** A gate the job cannot run ends it there, quarantined. */
  lemma BlockedGate(env: Environment, t: Ledger, gate: G.Gate, dst: Lifecycle)
    requires Working(env) && RowOk(t.row) && GateRuns(gate, t.row.lifecycle) && CheckNamesCanonical(t.row)
    requires GateRun(env, t, gate).error.Some?
    ensures var p := GateStage(env, t, gate, dst);
            p.pass == Stop(GateFailed(gate)) && p.ledger.row.lifecycle == Quarantined
  {
    WorkingServes(env, t.calls);
    FailedGateIsolates(env, t, gate);
  }

  lemma CommissioningTracks(env: Environment, o: Origin, t: Ledger)
    requires Working(env) && OriginOk(env, o) && OnTrack(env, o, t) && t.row.lifecycle == Commissioning
    ensures Tracks(env, o, t, GateStage(env, t, G.Commissioning, ReadyToConfigure))
  {
    var ran := GateRun(env, t, G.Commissioning);
    OlderStill(t.commissioned, env.now(o.begin), t.row.cycleStart);
    GateRunWorks(env, t, G.Commissioning);
    if ran.error.Some? {
      BlockedGate(env, t, G.Commissioning, ReadyToConfigure);
    } else {
      GateRunKeeps(env, t, G.Commissioning);
      assert ServesAt(env, ran.ledger.calls);
      PlainTransition(env, ran.ledger, ReadyToConfigure);
      TransitionedKeeps(env, ran.ledger, ReadyToConfigure, false);
    }
  }

  lemma QualifyingTracks(env: Environment, o: Origin, t: Ledger)
    requires Working(env) && OriginOk(env, o) && OnTrack(env, o, t) && t.row.lifecycle == Qualifying
    ensures Tracks(env, o, t, GateStage(env, t, G.Qualification, Active))
  {
    var ran := GateRun(env, t, G.Qualification);
    OlderStill(t.qualified, env.now(o.begin), t.row.cycleStart);
    GateRunWorks(env, t, G.Qualification);
    if ran.error.Some? {
      BlockedGate(env, t, G.Qualification, Active);
    } else {
      GateRunKeeps(env, t, G.Qualification);
      assert ServesAt(env, ran.ledger.calls);
      PlainTransition(env, ran.ledger, Active);
      TransitionedKeeps(env, ran.ledger, Active, false);
    }
  }

  lemma PlanWorks(env: Environment, t: Ledger)
    requires env.broker(t.calls).None? && RowOk(t.row) && t.row.lifecycle == ReadyToConfigure
    ensures var d := PlanRecorded(env, t);
            d.error.None? && d.ledger.qualified == t.qualified && d.ledger.row.plan.Ready?
            && d.ledger.row.progress.incident.None?
  {
  }

  lemma PlanTracks(env: Environment, o: Origin, t: Ledger)
    requires Working(env) && OnTrack(env, o, t) && t.row.lifecycle == ReadyToConfigure
    ensures Tracks(env, o, t, PlanStage(env, t))
  {
    var planned := PlanRecorded(env, t);
    assert ServesAt(env, t.calls) && ServesAt(env, planned.ledger.calls);
    PlanWorks(env, t);
    PlanKeeps(env, t);
    PlainTransition(env, planned.ledger, Configuring);
    TransitionedKeeps(env, planned.ledger, Configuring, false);
  }

  lemma RepairTracks(env: Environment, o: Origin, t: Ledger)
    requires Working(env) && OnTrack(env, o, t) && t.row.lifecycle == Configuring
    ensures Tracks(env, o, t, RepairStage(env, t))
  {
    assert ServesAt(env, t.calls);
    PlainTransition(env, t, Qualifying);
    TransitionedKeeps(env, t, Qualifying, false);
  }

  lemma ActiveTracks(env: Environment, o: Origin, t: Ledger)
    requires Working(env) && OnTrack(env, o, t) && t.row.lifecycle == Active
    ensures Tracks(env, o, t, ActiveStage(env, t, false))
  {
    assert ServesAt(env, t.calls);
    PostureKeeps(env, t, Healthy);
  }

  lemma StageTracks(env: Environment, o: Origin, t: Ledger)
    requires Working(env) && OriginOk(env, o) && OnTrack(env, o, t)
    ensures Tracks(env, o, t, Stage(env, t, false))
  {
    match t.row.lifecycle
    case Discovered => DiscoveredTracks(env, o, t);
    case Commissioning => CommissioningTracks(env, o, t);
    case ReadyToConfigure => PlanTracks(env, o, t);
    case Configuring => RepairTracks(env, o, t);
    case Qualifying => QualifyingTracks(env, o, t);
    case Active => ActiveTracks(env, o, t);
    case _ =>
  }

  // ---- The whole job ----

  ghost predicate AllTrack(stage: Ledger -> Passed, env: Environment, o: Origin) {
    forall t: Ledger {:trigger stage(t)} :: OnTrack(env, o, t) ==> Tracks(env, o, t, stage(t))
  }

  lemma PassTracks(stage: Ledger -> Passed, env: Environment, o: Origin, t: Ledger, target: string)
    requires AllTrack(stage, env, o) && AllClimb(stage) && Working(env) && OnTrack(env, o, t) && t.row.target == target
    ensures var once := PassOnce(stage, env, t, target);
            Tracks(env, o, t, once) && (once.pass.Continue? ==> once.ledger.row.target == target)
  {
    var loaded := t.(calls := t.calls + 1);
    assert ServesAt(env, t.calls);
    assert env.now(t.calls) <= env.now(loaded.calls);
    assert OnTrack(env, o, loaded);
    assert Tracks(env, o, loaded, stage(loaded)) && Climbs(loaded, stage(loaded));
  }

  lemma {:induction false} IterateTracks(stage: Ledger -> Passed, env: Environment, o: Origin, t: Ledger,
                                         target: string, passes: nat)
    requires AllTrack(stage, env, o) && AllClimb(stage) && Working(env)
    requires OnTrack(env, o, t) && t.row.target == target && passes >= Ahead(t.row.lifecycle)
    ensures EndsAsItMust(o, Iterate(stage, env, t, target, passes))
    decreases passes
  {
    var once := PassOnce(stage, env, t, target);
    PassTracks(stage, env, o, t, target);
    if once.pass.Continue? {
      IterateTracks(stage, env, o, once.ledger, target, passes - 1);
    }
  }

  /** With a working broker, repair and clock, good observations, no incident link and no setup outstanding, the job
      takes a newly discovered enrollment into service if and only if each gate requires some checks and only checks
      the job can run. Otherwise it fails at the first gate of which that is not true and leaves the server
      quarantined. */
  lemma JobSucceedsExactly(env: Environment, t: Ledger)
    requires Working(env) && RowOk(t.row) && t.row.lifecycle == Discovered
    requires t.row.progress.incident.None? && !SetupOutstanding(t.row.plan)
    requires StrictlySorted(t.row.requiredCommissioning) && StrictlySorted(t.row.requiredQualification)
    requires CheckNamesCanonical(t.row)
    requires GR.Older(t.commissioned, env.now(t.calls)) && GR.Older(t.qualified, env.now(t.calls))
    ensures var r := JobRun(env, t, t.row.target, false, PASSES);
            var commissionable := Runnable(G.Commissioning, t.row.requiredCommissioning);
            if commissionable && Runnable(G.Qualification, t.row.requiredQualification)
            then r.pass == Stop(Succeeded) && r.ledger.row.lifecycle == Active
            else && r.pass == Stop(GateFailed(if commissionable then G.Qualification else G.Commissioning))
                 && r.ledger.row.lifecycle == Quarantined
  {
    var o := Origin(t.row.requiredCommissioning, t.row.requiredQualification, t.commissioned, t.qualified, t.calls);
    StagesClimb(env, false);
    forall u: Ledger | OnTrack(env, o, u) ensures Tracks(env, o, u, Stages(env, false)(u)) { StageTracks(env, o, u); }
    IterateTracks(Stages(env, false), env, o, t, t.row.target, PASSES);
  }

  // ---- Success can hide a failure ----

  lemma NewestFailBlocks(required: seq<string>, r: G.Result, stored: seq<G.Result>, start: int, check: string)
    requires stored != [] && stored[0].check == check && stored[0].outcome == G.Fail && stored[0].observedAt >= start
    requires check in required && r.check != check
    ensures G.PageVerdict(required, [r] + stored, start) == G.Failed
  {
    var all := [r] + stored;
    var page := if |all| > G.PAGE then all[..G.PAGE] else all;
    var rest := page[1..];
    assert page == [r] + rest && rest[0] == stored[0];
    G.InCycleSplit([r], rest, start);
    assert [r][1..] == [];
    assert G.Latest(G.InCycle([r], start), check).None?;
    G.LatestOfPrefix(G.InCycle([r], start), G.InCycle(rest, start), check);
    assert G.Blocking(G.Latest(G.InCycle(page, start), check));
    G.FailedExactly(required, all, start);
    assert G.Fails(required, G.InCycle(page, start));
  }

  /** With everything working, the requalification of an active server whose newest stored result is a failure of a
      later required check reports success, and leaves the server quarantined. */
  lemma SuccessCanHideFailure(env: Environment, t: Ledger, check: string)
    requires Working(env) && RowOk(t.row) && t.row.lifecycle == Active
    requires Runnable(G.Qualification, t.row.requiredQualification)
    requires check in t.row.requiredQualification && check != t.row.requiredQualification[0]
    requires t.qualified != [] && t.qualified[0].check == check && t.qualified[0].outcome == G.Fail
    requires t.qualified[0].observedAt >= t.row.cycleStart
    ensures var r := JobRun(env, t, t.row.target, true, PASSES);
            r.pass == Stop(Succeeded) && r.ledger.row.lifecycle == Quarantined
  {
    var required, loaded := t.row.requiredQualification, t.(calls := t.calls + 1);
    NewestFailBlocks(required, CheckResult(env, loaded.calls, G.Qualification, required[0]), t.qualified,
                     t.row.cycleStart, check);
    RequalificationSucceeds(env, loaded);
    ActiveStageSuccess(env, loaded, true);
    assert ServesAt(env, t.calls);
    StagesAtActive(env, loaded, true);
    IterateOnce(Stages(env, true), env, t, t.row.target, PASSES, ActiveStage(env, loaded, true));
  }

  lemma RequalificationSucceeds(env: Environment, t: Ledger)
    requires Working(env) && RowOk(t.row) && t.row.lifecycle == Active
    requires Runnable(G.Qualification, t.row.requiredQualification)
    ensures ActiveStage(env, t, true).pass == Stop(Succeeded)
  {
    var ran := GateRun(env, t, G.Qualification);
    WorkingServes(env, t.calls);
    GateRunExactly(env, t, G.Qualification);
    FailedAreUnsupported(env, G.Qualification, t.row.requiredQualification, t.calls);
    assert ServesAt(env, ran.ledger.calls);
  }

  /** And such a start is one the job itself can leave behind: a failing check is stored, the call fails, and so
      does every later one. */
  lemma FailureCanBeLeftBehind(env: Environment, t: Ledger)
    requires RowOk(t.row) && t.row.lifecycle == Active && env.broker(t.calls).None?
    requires forall n :: n > t.calls ==> !Reliable(env, n)
    requires env.storedAnyway(t.calls + 1)
    requires !CheckPasses(env, t.calls + 1, G.Qualification, t.row.requiredQualification[0])
    ensures var r := JobRun(env, t, t.row.target, true, PASSES);
            && r.pass == Stop(GateFailed(G.Qualification)) && r.ledger.row == t.row
            && r.ledger.qualified ==
              [CheckResult(env, t.calls + 1, G.Qualification, t.row.requiredQualification[0])] + t.qualified
  {
    var loaded := t.(calls := t.calls + 1);
    LeftBehind(env, loaded);
    StagesAtActive(env, loaded, true);
    IterateOnce(Stages(env, true), env, t, t.row.target, PASSES, ActiveStage(env, loaded, true));
  }

  lemma LeftBehind(env: Environment, t: Ledger)
    requires RowOk(t.row) && t.row.lifecycle == Active && forall n :: n >= t.calls ==> !Reliable(env, n)
    requires env.storedAnyway(t.calls)
    ensures var p := ActiveStage(env, t, true);
            && p.pass == Stop(GateFailed(G.Qualification)) && p.ledger.row == t.row
            && p.ledger.qualified ==
              [CheckResult(env, t.calls, G.Qualification, t.row.requiredQualification[0])] + t.qualified
  {
    var required, before := t.row.requiredQualification, Ran(t, None, []);
    assert !Reliable(env, t.calls) && !Reliable(env, t.calls + 1) && !Reliable(env, t.calls + 2);
    ChecksRunStep(env, before, G.Qualification, required);
  }
}
