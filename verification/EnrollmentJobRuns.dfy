/** What the enrollment job comes to, for every broker, every observation and every repair: it climbs the activation
    path and stops within six passes, a failed gate isolates the server, and success means service. */
module EnrollmentJobRuns {
  import opened Text
  import opened Enrollment
  import opened EnrollmentJob
  import R = Rollout
  import G = Gates

  // ---- What every call keeps ----

  predicate SameChecks(a: Row, b: Row) {
    a.requiredCommissioning == b.requiredCommissioning && a.requiredQualification == b.requiredQualification
  }

  /** The gate invariant, the required checks and the target are kept, and calls are only counted up. */
  predicate Kept(a: Ledger, b: Ledger) {
    RowOk(b.row) && SameChecks(a.row, b.row) && b.row.target == a.row.target && a.calls <= b.calls
  }

  /** The lifecycle states in which the job runs a gate, or finds itself while running it. */
  predicate GateRuns(gate: G.Gate, l: Lifecycle) {
    match gate
    case Commissioning => l == Commissioning
    case Qualification => l == Qualifying || l == Active || l == Quarantined
  }

  predicate StaysOrQuarantines(a: Lifecycle, b: Lifecycle) {
    b == a || (a == Active && b == Quarantined)
  }

  lemma TransitionedKeeps(env: Environment, t: Ledger, dst: Lifecycle, reason: bool)
    requires RowOk(t.row)
    ensures var d := Transitioned(env, t, dst, reason);
            && Kept(t, d.ledger) && d.ledger.calls == t.calls + 1
            && (if d.error.Some? then d.ledger.row == t.row else d.ledger.row.lifecycle == dst)
  {
  }

  lemma PostureKeeps(env: Environment, t: Ledger, observed: Health)
    requires RowOk(t.row)
    ensures var d := PostureReconciled(env, t, observed);
            Kept(t, d.ledger) && d.ledger.row.lifecycle == t.row.lifecycle && d.ledger.calls == t.calls + 1
  {
  }

  lemma PlanKeeps(env: Environment, t: Ledger)
    requires RowOk(t.row)
    ensures var d := PlanRecorded(env, t);
            && Kept(t, d.ledger) && d.ledger.row.lifecycle == t.row.lifecycle && d.ledger.calls == t.calls + 1
            && (d.error.None? ==> d.ledger.row.progress == NO_LINK && d.ledger.row.plan.Ready?)
            && (d.error.None? ==>
                  d.ledger.row.plan.receipt == if t.row.plan.NotPlanned? then None else t.row.plan.receipt)
            && (d.error.None? ==> d.ledger.row.plan.features == Sorted(R.Features(t.row.profile)))
  {
  }

  lemma CheckKeeps(env: Environment, t: Ledger, gate: G.Gate, check: string)
    requires RowOk(t.row) && GateRuns(gate, t.row.lifecycle)
    ensures var d := CheckRecorded(env, t, gate, check);
            && Kept(t, d.ledger) && d.ledger.calls == t.calls + 1 && d.error == env.broker(t.calls)
            && StaysOrQuarantines(t.row.lifecycle, d.ledger.row.lifecycle)
  {
  }

  lemma {:induction false} ChecksKeep(env: Environment, before: Ran, gate: G.Gate, required: seq<string>)
    requires before.error.None? && RowOk(before.ledger.row) && GateRuns(gate, before.ledger.row.lifecycle)
    ensures var ran := ChecksRun(env, before, gate, required);
            && Kept(before.ledger, ran.ledger) && GateRuns(gate, ran.ledger.row.lifecycle)
            && StaysOrQuarantines(before.ledger.row.lifecycle, ran.ledger.row.lifecycle)
            && (ran.error.Some? ==> exists n :: n >= before.ledger.calls && !Reliable(env, n))
    decreases |required|
  {
    if required != [] {
      var next := OneMoreRun(env, before, gate, required[0]);
      ChecksRunStep(env, before, gate, required);
      CheckKeeps(env, before.ledger, gate, required[0]);
      if next.error.None? {
        ChecksKeep(env, next, gate, required[1..]);
      } else {
        assert !Reliable(env, before.ledger.calls);
      }
    }
  }

  lemma GateRunKeeps(env: Environment, t: Ledger, gate: G.Gate)
    requires RowOk(t.row) && GateRuns(gate, t.row.lifecycle)
    ensures var d := GateRun(env, t, gate);
            && Kept(t, d.ledger) && GateRuns(gate, d.ledger.row.lifecycle)
            && StaysOrQuarantines(t.row.lifecycle, d.ledger.row.lifecycle)
  {
    ChecksKeep(env, Ran(t, None, []), gate, Required(t.row, gate));
  }

  lemma IsolatedKeeps(env: Environment, t: Ledger, error: JobError)
    requires RowOk(t.row)
    ensures Kept(t, Isolated(env, t, error))
  {
    TransitionedKeeps(env, t, Quarantined, ReasonAccepted(error));
    PostureKeeps(env, Transitioned(env, t, Quarantined, ReasonAccepted(error)).ledger, Degraded);
  }

  // ---- Every pass climbs or stops ----

  /** Progress through the activation path; states off the path rank after it. */
  function Rank(l: Lifecycle): nat {
    match l
    case Discovered => 0
    case Commissioning => 1
    case ReadyToConfigure => 2
    case Configuring => 3
    case Qualifying => 4
    case Active => 5
    case _ => 6
  }

  predicate Climbs(t: Ledger, p: Passed) {
    && Kept(t, p.ledger)
    && (p.pass.Continue? ==> Rank(t.row.lifecycle) < Rank(p.ledger.row.lifecycle) <= 5)
    && p.pass != Stop(OutOfPasses)
  }

  lemma SteppedClimbs(env: Environment, t: Ledger, dst: Lifecycle)
    requires RowOk(t.row) && Rank(t.row.lifecycle) < Rank(dst) <= 5
    ensures Climbs(t, Stepped(Transitioned(env, t, dst, false)))
  {
    TransitionedKeeps(env, t, dst, false);
  }

  lemma GateStageClimbs(env: Environment, t: Ledger, gate: G.Gate, dst: Lifecycle)
    requires RowOk(t.row) && GateRuns(gate, t.row.lifecycle) && t.row.lifecycle != Active
    requires Rank(t.row.lifecycle) < Rank(dst) <= 5
    ensures Climbs(t, GateStage(env, t, gate, dst))
  {
    var ran := GateRun(env, t, gate);
    GateRunKeeps(env, t, gate);
    if ran.error.Some? {
      IsolatedKeeps(env, ran.ledger, ran.error.value);
    } else {
      TransitionedKeeps(env, ran.ledger, dst, false);
    }
  }

  lemma PlanStageClimbs(env: Environment, t: Ledger)
    requires RowOk(t.row) && t.row.lifecycle == ReadyToConfigure
    ensures Climbs(t, PlanStage(env, t))
  {
    PlanKeeps(env, t);
    TransitionedKeeps(env, PlanRecorded(env, t).ledger, Configuring, false);
  }

  lemma RepairStageClimbs(env: Environment, t: Ledger)
    requires RowOk(t.row) && t.row.lifecycle == Configuring
    ensures Climbs(t, RepairStage(env, t))
  {
    match env.repair
    case Repaired => TransitionedKeeps(env, t, Qualifying, false);
    case SafeStopped => IsolatedKeeps(env, t, Stopped);
    case RepairError(error) => IsolatedKeeps(env, t, error);
  }

  lemma ActiveStageClimbs(env: Environment, t: Ledger, requalify: bool)
    requires RowOk(t.row) && t.row.lifecycle == Active
    ensures Climbs(t, ActiveStage(env, t, requalify))
  {
    var ran := GateRun(env, t, G.Qualification);
    GateRunKeeps(env, t, G.Qualification);
    PostureKeeps(env, t, Healthy);
    PostureKeeps(env, ran.ledger, Healthy);
    if ran.error.Some? {
      IsolatedKeeps(env, ran.ledger, ran.error.value);
    }
  }

  lemma StageClimbs(env: Environment, t: Ledger, requalify: bool)
    requires RowOk(t.row)
    ensures Climbs(t, Stage(env, t, requalify))
  {
    match t.row.lifecycle
    case Discovered => SteppedClimbs(env, t, Commissioning);
    case Commissioning => GateStageClimbs(env, t, G.Commissioning, ReadyToConfigure);
    case ReadyToConfigure => PlanStageClimbs(env, t);
    case Configuring => RepairStageClimbs(env, t);
    case Qualifying => GateStageClimbs(env, t, G.Qualification, Active);
    case Active => ActiveStageClimbs(env, t, requalify);
    case _ =>
  }

  /** Every stage stops, or the lifecycle has strictly advanced along the activation path. */
  ghost predicate AllClimb(stage: Ledger -> Passed) {
    forall t: Ledger {:trigger stage(t)} :: RowOk(t.row) ==> Climbs(t, stage(t))
  }

  lemma StagesClimb(env: Environment, requalify: bool)
    ensures AllClimb(Stages(env, requalify))
  {
    forall t: Ledger | RowOk(t.row) ensures Climbs(t, Stages(env, requalify)(t)) { StageClimbs(env, t, requalify); }
  }

  lemma PassClimbs(stage: Ledger -> Passed, env: Environment, t: Ledger, target: string)
    requires AllClimb(stage) && RowOk(t.row)
    ensures Climbs(t, PassOnce(stage, env, t, target))
  {
    var loaded := t.(calls := t.calls + 1);
    assert Climbs(loaded, stage(loaded));
  }

  /** How many passes the path ahead can take. */
  function Ahead(l: Lifecycle): nat {
    if Rank(l) <= 5 then 6 - Rank(l) else 1
  }

  lemma {:induction false} IterateEnds(stage: Ledger -> Passed, env: Environment, t: Ledger, target: string,
                                       passes: nat)
    requires AllClimb(stage) && RowOk(t.row) && passes >= Ahead(t.row.lifecycle)
    ensures var r := Iterate(stage, env, t, target, passes);
            && r == Iterate(stage, env, t, target, Ahead(t.row.lifecycle))
            && r.pass.Stop? && r.pass.ended != OutOfPasses && Kept(t, r.ledger)
    decreases passes
  {
    var once, ahead := PassOnce(stage, env, t, target), Ahead(t.row.lifecycle);
    PassClimbs(stage, env, t, target);
    if once.pass.Continue? {
      IterateEnds(stage, env, once.ledger, target, passes - 1);
      IterateEnds(stage, env, once.ledger, target, ahead - 1);
    }
  }

  /** The job ends within the passes ahead of it, at most six: more passes change nothing, and running out of them
      never happens. */
  lemma JobEnds(env: Environment, t: Ledger, target: string, requalify: bool, passes: nat)
    requires RowOk(t.row) && passes >= Ahead(t.row.lifecycle)
    ensures var r := JobRun(env, t, target, requalify, passes);
            && r == JobRun(env, t, target, requalify, Ahead(t.row.lifecycle))
            && r.pass.Stop? && r.pass.ended != OutOfPasses && Kept(t, r.ledger)
  {
    StagesClimb(env, requalify);
    IterateEnds(Stages(env, requalify), env, t, target, passes);
  }

  // ---- Failure isolates ----

  /** The broker serves every call from the given one on. */
  ghost predicate ReliableFrom(env: Environment, calls: nat) {
    forall n :: n >= calls ==> Reliable(env, n)
  }

  lemma Serves(env: Environment, calls: nat, later: nat)
    requires ReliableFrom(env, calls) && calls <= later
    ensures ReliableFrom(env, later) && env.broker(later).None?
  {
    assert Reliable(env, later);
  }

  /** Stored check names are canonical ids: they come from `required_checks`. */
  predicate CheckNamesCanonical(row: Row) {
    && (forall c :: c in row.requiredCommissioning ==> Canonical(c))
    && (forall c :: c in row.requiredQualification ==> Canonical(c))
  }

  lemma FailureWordsArePlain()
    ensures PlainText(FAILED_WORDS) && PlainText(FAILED_CODE)
  {
  }

  lemma FailureIsPlain(failed: seq<string>, required: seq<string>)
    requires forall f :: f in failed ==> f in required
    requires forall c :: c in required ==> Canonical(c)
    ensures ReasonAccepted(ChecksFailed(failed))
  {
    forall f | f in failed ensures PlainText(f) { CanonicalIsPlain(f); }
    JoinedPlain(failed);
    FailureWordsArePlain();
    assert PlainText(FAILED_WORDS + JoinNames(failed));
    PlainReasonIsClean(FAILED_CODE, FAILED_WORDS + JoinNames(failed));
  }

  /** When the broker serves the calls, isolation works exactly when the error makes a reason that a transition
      accepts. */
  lemma IsolatedExactly(env: Environment, t: Ledger, error: JobError)
    requires RowOk(t.row) && (TransitionAllowed(t.row.lifecycle, Quarantined) || t.row.lifecycle == Quarantined)
    requires env.broker(t.calls).None?
    ensures Isolated(env, t, error).row.lifecycle == Quarantined <==>
              t.row.lifecycle == Quarantined || ReasonAccepted(error)
    ensures env.broker(t.calls + 1).None? && env.evidence(t.calls + 1).clusterRevision.Some? ==>
              Isolated(env, t, error).row.health == Degraded
  {
    TransitionedKeeps(env, t, Quarantined, ReasonAccepted(error));
    PostureKeeps(env, Transitioned(env, t, Quarantined, ReasonAccepted(error)).ledger, Degraded);
  }

  // The stored results once the checks were run one call after the other, and those that failed.

  function ResultsAfter(env: Environment, gate: G.Gate, required: seq<string>, calls: nat,
                        stored: seq<G.Result>): seq<G.Result>
    decreases |required|
  {
    if required == [] then stored
      else ResultsAfter(env, gate, required[1..], calls + 1, [CheckResult(env, calls, gate, required[0])] + stored)
  }

  function FailedAfter(env: Environment, gate: G.Gate, required: seq<string>, calls: nat,
                       failed: seq<string>): seq<string>
    decreases |required|
  {
    if required == [] then failed
    else FailedAfter(env, gate, required[1..], calls + 1,
                     if CheckPasses(env, calls, gate, required[0]) then failed else failed + [required[0]])
  }

  /** The check at this place of the list fails when it is run. */
  predicate FailsAt(env: Environment, gate: G.Gate, required: seq<string>, calls: nat, i: int) {
    0 <= i < |required| && !CheckPasses(env, calls + i, gate, required[i])
  }

  /** Besides those failed before, exactly the checks that fail are collected. */
  lemma {:induction false} FailedExactly(env: Environment, gate: G.Gate, required: seq<string>, calls: nat,
                                         failed: seq<string>, f: string)
    ensures f in FailedAfter(env, gate, required, calls, failed) <==>
            f in failed || exists i :: FailsAt(env, gate, required, calls, i) && required[i] == f
    decreases |required|
  {
    if required != [] {
      var next := if CheckPasses(env, calls, gate, required[0]) then failed else failed + [required[0]];
      FailedExactly(env, gate, required[1..], calls + 1, next, f);
      forall i | FailsAt(env, gate, required[1..], calls + 1, i) && required[1..][i] == f
        ensures exists j :: FailsAt(env, gate, required, calls, j) && required[j] == f
      {
        assert FailsAt(env, gate, required, calls, i + 1) && required[i + 1] == f;
      }
      forall i | FailsAt(env, gate, required, calls, i) && required[i] == f
        ensures f in next || exists j :: FailsAt(env, gate, required[1..], calls + 1, j) && required[1..][j] == f
      {
        if i > 0 {
          assert FailsAt(env, gate, required[1..], calls + 1, i - 1) && required[1..][i - 1] == f;
        }
      }
      assert !CheckPasses(env, calls, gate, required[0]) ==> FailsAt(env, gate, required, calls, 0);
    }
  }

  lemma CheckStores(env: Environment, t: Ledger, gate: G.Gate, check: string)
    requires CheckRecorded(env, t, gate, check).error.None?
    ensures var d := CheckRecorded(env, t, gate, check);
            d.ledger.calls == t.calls + 1
            && StoredOf(d.ledger, gate) == [CheckResult(env, t.calls, gate, check)] + StoredOf(t, gate)
  {
  }

  lemma ChecksRunThrough(env: Environment, t: Ledger, gate: G.Gate, required: seq<string>)
    requires RowOk(t.row) && GateRuns(gate, t.row.lifecycle) && ReliableFrom(env, t.calls)
    ensures ChecksRun(env, Ran(t, None, []), gate, required).error.None?
  {
    ChecksKeep(env, Ran(t, None, []), gate, required);
  }

  /** Unless a call fails, one result for each required check is stored in order, and exactly those that did not
      pass are collected. */
  lemma {:induction false} ChecksRunExactly(env: Environment, before: Ran, gate: G.Gate, required: seq<string>)
    requires before.error.None? && ChecksRun(env, before, gate, required).error.None?
    ensures var ran, calls := ChecksRun(env, before, gate, required), before.ledger.calls;
            && ran.ledger.calls == calls + |required|
            && ran.failed == FailedAfter(env, gate, required, calls, before.failed)
            && StoredOf(ran.ledger, gate) == ResultsAfter(env, gate, required, calls, StoredOf(before.ledger, gate))
    decreases |required|
  {
    if required != [] {
      var next := OneMoreRun(env, before, gate, required[0]);
      ChecksRunStep(env, before, gate, required);
      CheckStores(env, before.ledger, gate, required[0]);
      ChecksRunExactly(env, next, gate, required[1..]);
    }
  }

  /** A gate run reports that nothing is required, or exactly the checks that failed; that report is always an
      acceptable reason. */
  lemma GateRunExactly(env: Environment, t: Ledger, gate: G.Gate)
    requires RowOk(t.row) && GateRuns(gate, t.row.lifecycle) && ReliableFrom(env, t.calls)
    ensures var required := Required(t.row, gate);
            var failed := FailedAfter(env, gate, required, t.calls, []);
            GateRun(env, t, gate).error
            == if required == [] then Some(NotConfigured) else if failed == [] then None else Some(ChecksFailed(failed))
    ensures CheckNamesCanonical(t.row) && GateRun(env, t, gate).error.Some? ==>
              ReasonAccepted(GateRun(env, t, gate).error.value)
  {
    var required := Required(t.row, gate);
    ChecksRunThrough(env, t, gate, required);
    ChecksRunExactly(env, Ran(t, None, []), gate, required);
    forall f | f in FailedAfter(env, gate, required, t.calls, []) ensures f in required {
      FailedExactly(env, gate, required, t.calls, [], f);
    }
    if CheckNamesCanonical(t.row) {
      FailureIsPlain(FailedAfter(env, gate, required, t.calls, []), required);
    }
  }

  /** What stopping a pass means for the row: a failed gate leaves it quarantined, and a failed repair does exactly
      when the repair's error makes an acceptable reason. */
  predicate IsolatedAsDue(p: Passed) {
    p.pass.Stop? ==>
      && (p.pass.ended.GateFailed? ==> p.ledger.row.lifecycle == Quarantined)
      && (p.pass.ended.RepairFailed? ==>
            (p.ledger.row.lifecycle == Quarantined <==> ReasonAccepted(p.pass.ended.error)))
  }

  lemma FailedGateIsolates(env: Environment, t: Ledger, gate: G.Gate)
    requires RowOk(t.row) && GateRuns(gate, t.row.lifecycle) && ReliableFrom(env, t.calls) && CheckNamesCanonical(t.row)
    ensures var ran := GateRun(env, t, gate);
            ran.error.Some? ==> Isolated(env, ran.ledger, ran.error.value).row.lifecycle == Quarantined
  {
    var ran := GateRun(env, t, gate);
    GateRunKeeps(env, t, gate);
    GateRunExactly(env, t, gate);
    if ran.error.Some? {
      Serves(env, t.calls, ran.ledger.calls);
      IsolatedExactly(env, ran.ledger, ran.error.value);
    }
  }

  lemma GateStageIsolates(env: Environment, t: Ledger, gate: G.Gate, dst: Lifecycle)
    requires RowOk(t.row) && GateRuns(gate, t.row.lifecycle) && ReliableFrom(env, t.calls) && CheckNamesCanonical(t.row)
    ensures IsolatedAsDue(GateStage(env, t, gate, dst))
  {
    FailedGateIsolates(env, t, gate);
  }

  lemma RepairStageIsolates(env: Environment, t: Ledger)
    requires RowOk(t.row) && t.row.lifecycle == Configuring && env.broker(t.calls).None?
    ensures IsolatedAsDue(RepairStage(env, t))
  {
    match env.repair
    case Repaired =>
    case SafeStopped => IsolatedExactly(env, t, Stopped);
    case RepairError(error) => IsolatedExactly(env, t, error);
  }

  lemma StageIsolates(env: Environment, t: Ledger, requalify: bool)
    requires RowOk(t.row) && ReliableFrom(env, t.calls) && CheckNamesCanonical(t.row)
    ensures IsolatedAsDue(Stage(env, t, requalify))
  {
    match t.row.lifecycle
    case Commissioning => GateStageIsolates(env, t, G.Commissioning, ReadyToConfigure);
    case Configuring => Serves(env, t.calls, t.calls); RepairStageIsolates(env, t);
    case Qualifying => GateStageIsolates(env, t, G.Qualification, Active);
    case Active => FailedGateIsolates(env, t, G.Qualification);
    case _ =>
  }

  ghost predicate AllIsolate(stage: Ledger -> Passed, env: Environment) {
    forall t: Ledger {:trigger stage(t)} :: RowOk(t.row) && ReliableFrom(env, t.calls) && CheckNamesCanonical(t.row) ==>
        IsolatedAsDue(stage(t))
  }

  lemma {:induction false} IterateIsolates(stage: Ledger -> Passed, env: Environment, t: Ledger, target: string,
                                           passes: nat)
    requires AllClimb(stage) && AllIsolate(stage, env)
    requires RowOk(t.row) && ReliableFrom(env, t.calls) && CheckNamesCanonical(t.row)
    ensures IsolatedAsDue(Iterate(stage, env, t, target, passes))
    decreases passes
  {
    if passes > 0 {
      var once, loaded := PassOnce(stage, env, t, target), t.(calls := t.calls + 1);
      PassClimbs(stage, env, t, target);
      Serves(env, t.calls, loaded.calls);
      if once.pass.Stop? {
        assert IsolatedAsDue(stage(loaded));
      } else {
        Serves(env, t.calls, once.ledger.calls);
        IterateIsolates(stage, env, once.ledger, target, passes - 1);
      }
    }
  }

  /** With a broker that serves, a job whose gate failed leaves the enrollment quarantined; one whose repair failed
      does exactly when the reason is acceptable. */
  lemma JobIsolates(env: Environment, t: Ledger, target: string, requalify: bool, passes: nat)
    requires RowOk(t.row) && ReliableFrom(env, t.calls) && CheckNamesCanonical(t.row)
    ensures IsolatedAsDue(JobRun(env, t, target, requalify, passes))
  {
    StagesClimb(env, requalify);
    forall u: Ledger | RowOk(u.row) && ReliableFrom(env, u.calls) && CheckNamesCanonical(u.row)
      ensures IsolatedAsDue(Stages(env, requalify)(u))
    {
      StageIsolates(env, u, requalify);
    }
    IterateIsolates(Stages(env, requalify), env, t, target, passes);
  }

  // ---- What success means ----

  /** The newest results of the qualification checks fail the gate. */
  predicate Failing(t: Ledger) {
    G.PageVerdict(t.row.requiredQualification, t.qualified, t.row.cycleStart) == G.Failed
  }

  /** One passing result of an active server's qualification: it is quarantined exactly when the gate fails with
      that result. */
  lemma PassAtActive(env: Environment, t: Ledger, check: string)
    requires t.row.lifecycle == Active && env.broker(t.calls).None? && CheckPasses(env, t.calls, G.Qualification, check)
    ensures var after := CheckRecorded(env, t, G.Qualification, check).ledger;
            var r := CheckResult(env, t.calls, G.Qualification, check);
            && after.row.lifecycle == (if Failing(after) then Quarantined else Active)
            && after.qualified == [r] + t.qualified && after.row.cycleStart == t.row.cycleStart
            && SameChecks(t.row, after.row)
            && (!Failing(t) ==> !Failing(after))
  {
    var r := CheckResult(env, t.calls, G.Qualification, check);
    if !Failing(t) {
      G.PassDoesNotFail(t.row.requiredQualification, t.qualified, t.row.cycleStart, r);
    }
  }

  /** Passing checks keep an active server whose gate does not fail active. */
  lemma {:induction false} PassesAtActive(env: Environment, before: Ran, required: seq<string>)
    requires before.error.None? && before.ledger.row.lifecycle == Active && RowOk(before.ledger.row)
    requires !Failing(before.ledger)
    ensures var ran := ChecksRun(env, before, G.Qualification, required);
            ran.error.None? && ran.failed == [] ==> ran.ledger.row.lifecycle == Active
    decreases |required|
  {
    if required != [] {
      var next := OneMoreRun(env, before, G.Qualification, required[0]);
      ChecksRunStep(env, before, G.Qualification, required);
      CheckKeeps(env, before.ledger, G.Qualification, required[0]);
      if next.error.None? {
        if CheckPasses(env, before.ledger.calls, G.Qualification, required[0]) {
          PassAtActive(env, before.ledger, required[0]);
          PassesAtActive(env, next, required[1..]);
        } else {
          FailedStay(env, next, G.Qualification, required[1..]);
        }
      }
    }
  }

  /** A check once collected as failed stays collected. */
  lemma {:induction false} FailedStay(env: Environment, before: Ran, gate: G.Gate, required: seq<string>)
    ensures before.failed != [] ==> ChecksRun(env, before, gate, required).failed != []
    decreases |required|
  {
    if required != [] && before.error.None? {
      FailedStay(env, OneMoreRun(env, before, gate, required[0]), gate, required[1..]);
    }
  }

  /** An active server's stored results hide a failure: with the first required check passing now, the gate still
      fails. */
  predicate HidesFailureAt(env: Environment, t: Ledger) {
    && t.row.requiredQualification != []
    && Failing(t.(qualified := [CheckResult(env, t.calls, G.Qualification,
                                            t.row.requiredQualification[0])] + t.qualified))
  }

  /** A requalification without an error leaves the server active exactly when no failure was hidden. */
  lemma RequalifiedExactly(env: Environment, t: Ledger)
    requires RowOk(t.row) && t.row.lifecycle == Active && GateRun(env, t, G.Qualification).error.None?
    ensures GateRun(env, t, G.Qualification).ledger.row.lifecycle ==
            (if HidesFailureAt(env, t) then Quarantined else Active)
    ensures !Failing(t) ==> !HidesFailureAt(env, t)
  {
    var required, before := t.row.requiredQualification, Ran(t, None, []);
    var next := OneMoreRun(env, before, G.Qualification, required[0]);
    ChecksRunStep(env, before, G.Qualification, required);
    CheckKeeps(env, t, G.Qualification, required[0]);
    FailedStay(env, next, G.Qualification, required[1..]);
    PassAtActive(env, t, required[0]);
    if Failing(next.ledger) {
      ChecksKeep(env, next, G.Qualification, required[1..]);
    } else {
      PassesAtActive(env, next, required[1..]);
    }
  }

  /** Only the status of the gate, its stored results and the revision change. */
  predicate SameButStatus(a: Ledger, b: Ledger, gate: G.Gate) {
    && b.row.lifecycle == a.row.lifecycle && b.row.progress == a.row.progress && b.row.plan == a.row.plan
    && b.row.cycleStart == a.row.cycleStart && SameChecks(a.row, b.row)
    && (gate.Commissioning? ==> b.qualified == a.qualified && b.row.qualification == a.row.qualification)
    && (gate.Qualification? ==> b.commissioned == a.commissioned && b.row.commissioning == a.row.commissioning)
  }

  lemma CheckStatus(env: Environment, t: Ledger, gate: G.Gate, check: string)
    requires env.broker(t.calls).None? && GateRuns(gate, t.row.lifecycle) && t.row.lifecycle != Active
    ensures var d := CheckRecorded(env, t, gate, check);
            && d.error.None? && SameButStatus(t, d.ledger, gate)
            && StatusOf(d.ledger.row, gate) ==
              G.PageVerdict(Required(t.row, gate), StoredOf(d.ledger, gate), t.row.cycleStart)
  {
  }

  /** Outside service, a gate run without failing calls leaves the verdict of the stored results as the status of
      the gate. */
  lemma {:induction false} ChecksStatus(env: Environment, before: Ran, gate: G.Gate, required: seq<string>)
    requires before.error.None? && GateRuns(gate, before.ledger.row.lifecycle) && before.ledger.row.lifecycle != Active
    requires ChecksRun(env, before, gate, required).error.None?
    ensures var ran := ChecksRun(env, before, gate, required);
            && SameButStatus(before.ledger, ran.ledger, gate)
            && (required != [] ==>
                  StatusOf(ran.ledger.row, gate)
                  == G.PageVerdict(Required(before.ledger.row, gate), StoredOf(ran.ledger, gate),
                                   before.ledger.row.cycleStart))
    decreases |required|
  {
    if required != [] {
      var next := OneMoreRun(env, before, gate, required[0]);
      ChecksRunStep(env, before, gate, required);
      CheckStatus(env, before.ledger, gate, required[0]);
      ChecksStatus(env, next, gate, required[1..]);
    }
  }

  /** A server that goes on is not active, or its gate does not fail; a job that succeeds here leaves the server
      active. */
  predicate Good(p: Passed) {
    && (p.pass.Continue? && p.ledger.row.lifecycle == Active ==> !Failing(p.ledger))
    && (p.pass == Stop(Succeeded) ==> p.ledger.row.lifecycle == Active)
  }

  lemma ActivationKeepsResults(env: Environment, t: Ledger)
    requires t.row.lifecycle == Qualifying && Transitioned(env, t, Active, false).error.None?
    ensures var d := Transitioned(env, t, Active, false);
            && G.GatePassed(t.row.qualification) && d.ledger.qualified == t.qualified
            && d.ledger.row.cycleStart == t.row.cycleStart && SameChecks(t.row, d.ledger.row)
  {
  }

  lemma QualifyingGood(env: Environment, t: Ledger)
    requires RowOk(t.row) && t.row.lifecycle == Qualifying
    ensures Good(GateStage(env, t, G.Qualification, Active))
  {
    var ran := GateRun(env, t, G.Qualification);
    if ran.error.None? {
      ChecksStatus(env, Ran(t, None, []), G.Qualification, t.row.requiredQualification);
      if Transitioned(env, ran.ledger, Active, false).error.None? {
        ActivationKeepsResults(env, ran.ledger);
      }
    }
  }

  lemma ActiveGood(env: Environment, t: Ledger, requalify: bool)
    requires RowOk(t.row) && t.row.lifecycle == Active && !Failing(t)
    ensures Good(ActiveStage(env, t, requalify))
  {
    var ran := GateRun(env, t, G.Qualification);
    GateRunKeeps(env, t, G.Qualification);
    PostureKeeps(env, t, Healthy);
    PostureKeeps(env, ran.ledger, Healthy);
    if ran.error.None? {
      RequalifiedExactly(env, t);
    }
  }

  lemma CommissioningGood(env: Environment, t: Ledger)
    requires RowOk(t.row) && t.row.lifecycle == Commissioning
    ensures Good(GateStage(env, t, G.Commissioning, ReadyToConfigure))
  {
    GateRunKeeps(env, t, G.Commissioning);
    TransitionedKeeps(env, GateRun(env, t, G.Commissioning).ledger, ReadyToConfigure, false);
  }

  lemma PlanGood(env: Environment, t: Ledger)
    requires RowOk(t.row) && t.row.lifecycle == ReadyToConfigure
    ensures Good(PlanStage(env, t))
  {
    PlanKeeps(env, t);
    TransitionedKeeps(env, PlanRecorded(env, t).ledger, Configuring, false);
  }

  lemma StageGood(env: Environment, t: Ledger, requalify: bool)
    requires RowOk(t.row) && (t.row.lifecycle == Active ==> !Failing(t))
    ensures Good(Stage(env, t, requalify))
  {
    match t.row.lifecycle
    case Discovered => TransitionedKeeps(env, t, Commissioning, false);
    case Commissioning => CommissioningGood(env, t);
    case ReadyToConfigure => PlanGood(env, t);
    case Configuring => TransitionedKeeps(env, t, Qualifying, false);
    case Qualifying => QualifyingGood(env, t);
    case Active => ActiveGood(env, t, requalify);
    case _ =>
  }

  ghost predicate AllGood(stage: Ledger -> Passed) {
    forall t: Ledger {:trigger stage(t)} :: RowOk(t.row) && (t.row.lifecycle == Active ==> !Failing(t)) ==>
        Good(stage(t))
  }

  lemma PassGood(stage: Ledger -> Passed, env: Environment, t: Ledger, target: string)
    requires AllClimb(stage) && AllGood(stage) && RowOk(t.row) && (t.row.lifecycle == Active ==> !Failing(t))
    ensures var once := PassOnce(stage, env, t, target);
            && Good(once) && (once.pass.Continue? ==> RowOk(once.ledger.row))
  {
    PassClimbs(stage, env, t, target);
    assert Good(stage(t.(calls := t.calls + 1)));
  }

  lemma {:induction false} IterateGood(stage: Ledger -> Passed, env: Environment, t: Ledger, target: string,
                                       passes: nat)
    requires AllClimb(stage) && AllGood(stage) && RowOk(t.row) && (t.row.lifecycle == Active ==> !Failing(t))
    ensures Good(Iterate(stage, env, t, target, passes))
    decreases passes
  {
    if passes > 0 {
      var once := PassOnce(stage, env, t, target);
      PassGood(stage, env, t, target);
      if once.pass.Continue? {
        IterateGood(stage, env, once.ledger, target, passes - 1);
      }
    }
  }

  /** A requalification of an active server whose stored results hide a failure. */
  predicate HidesFailure(env: Environment, t: Ledger, requalify: bool) {
    t.row.lifecycle == Active && requalify && HidesFailureAt(env, t.(calls := t.calls + 1))
  }

  lemma ActiveStageSuccess(env: Environment, t: Ledger, requalify: bool)
    requires RowOk(t.row) && t.row.lifecycle == Active
    ensures var p := ActiveStage(env, t, requalify);
            && p.pass.Stop?
            && (p.pass == Stop(Succeeded) ==>
                  p.ledger.row.lifecycle == if requalify && HidesFailureAt(env, t) then Quarantined else Active)
  {
    var ran := GateRun(env, t, G.Qualification);
    PostureKeeps(env, t, Healthy);
    GateRunKeeps(env, t, G.Qualification);
    PostureKeeps(env, ran.ledger, Healthy);
    if ran.error.None? {
      RequalifiedExactly(env, t);
    }
  }

  lemma StagesAtActive(env: Environment, t: Ledger, requalify: bool)
    requires t.row.lifecycle == Active
    ensures Stages(env, requalify)(t) == ActiveStage(env, t, requalify)
  {
  }

  /** A stage that stops ends the job at the first pass. */
  lemma IterateOnce(stage: Ledger -> Passed, env: Environment, t: Ledger, target: string, passes: nat, p: Passed)
    requires p == stage(t.(calls := t.calls + 1)) && p.pass.Stop? && passes > 0
    ensures Iterate(stage, env, t, target, passes) ==
            if env.broker(t.calls).Some? then Passed(t.(calls := t.calls + 1), Stop(StepFailed))
            else if t.row.target != target then Passed(t.(calls := t.calls + 1), Stop(NotEligible))
            else p
  {
  }

  /** A job that succeeds leaves the server active, with one exception: the requalification of an active server
      whose stored results, with the first required check passing, still fail the gate. That server is quarantined
      on the way, and the job reports success. */
  lemma SuccessMeansService(env: Environment, t: Ledger, target: string, requalify: bool, passes: nat)
    requires RowOk(t.row)
    ensures var r := JobRun(env, t, target, requalify, passes);
            r.pass == Stop(Succeeded) ==>
                r.ledger.row.lifecycle == if HidesFailure(env, t, requalify) then Quarantined else Active
  {
    if t.row.lifecycle != Active {
      StagesClimb(env, requalify);
      forall u: Ledger | RowOk(u.row) && (u.row.lifecycle == Active ==> !Failing(u))
        ensures Good(Stages(env, requalify)(u))
      {
        StageGood(env, u, requalify);
      }
      IterateGood(Stages(env, requalify), env, t, target, passes);
    } else if passes > 0 {
      var loaded := t.(calls := t.calls + 1);
      ActiveStageSuccess(env, loaded, requalify);
      StagesAtActive(env, loaded, requalify);
      IterateOnce(Stages(env, requalify), env, t, target, passes, ActiveStage(env, loaded, requalify));
    }
  }

  // ---- Health ----

  /** A job that succeeds reports the server healthy. */
  predicate ReportsHealthy(p: Passed) {
    p.pass == Stop(Succeeded) ==> p.ledger.row.health == Healthy
  }

  lemma FinishedHealthy(env: Environment, t: Ledger)
    requires t.row.lifecycle != Retired
    ensures ReportsHealthy(Finished(env, t))
  {
  }

  lemma StageHealthy(env: Environment, t: Ledger, requalify: bool)
    requires RowOk(t.row)
    ensures ReportsHealthy(Stage(env, t, requalify))
  {
    if t.row.lifecycle == Active {
      FinishedHealthy(env, t);
      GateRunKeeps(env, t, G.Qualification);
      if GateRun(env, t, G.Qualification).ledger.row.lifecycle != Retired {
        FinishedHealthy(env, GateRun(env, t, G.Qualification).ledger);
      }
    }
  }

  lemma {:induction false} IterateHealthy(stage: Ledger -> Passed, env: Environment, t: Ledger, target: string,
                                          passes: nat)
    requires AllClimb(stage) && RowOk(t.row)
    requires forall u: Ledger {:trigger stage(u)} :: RowOk(u.row) ==> ReportsHealthy(stage(u))
    ensures ReportsHealthy(Iterate(stage, env, t, target, passes))
    decreases passes
  {
    if passes > 0 {
      var once, loaded := PassOnce(stage, env, t, target), t.(calls := t.calls + 1);
      PassClimbs(stage, env, t, target);
      assert ReportsHealthy(stage(loaded));
      if once.pass.Continue? {
        IterateHealthy(stage, env, once.ledger, target, passes - 1);
      }
    }
  }

  lemma SuccessIsHealthy(env: Environment, t: Ledger, target: string, requalify: bool, passes: nat)
    requires RowOk(t.row)
    ensures ReportsHealthy(JobRun(env, t, target, requalify, passes))
  {
    StagesClimb(env, requalify);
    forall u: Ledger | RowOk(u.row) ensures ReportsHealthy(Stages(env, requalify)(u)) {
      StageHealthy(env, u, requalify);
    }
    IterateHealthy(Stages(env, requalify), env, t, target, passes);
  }

  /** A job for another target leaves the enrollment alone. */
  lemma OtherTargetUntouched(env: Environment, t: Ledger, target: string, requalify: bool)
    requires t.row.target != target
    ensures var r := JobRun(env, t, target, requalify, PASSES);
            && r.ledger == t.(calls := t.calls + 1)
            && r.pass == Stop(if env.broker(t.calls).Some? then StepFailed else NotEligible)
  {
  }

  // ---- Setup ----

  predicate AsksForSetup(p: Passed) {
    p.pass == Stop(SetupRequired) ==> p.ledger.row.lifecycle == ReadyToConfigure && SetupOutstanding(p.ledger.row.plan)
  }

  lemma {:induction false} IterateAsks(stage: Ledger -> Passed, env: Environment, t: Ledger, target: string,
                                       passes: nat)
    requires forall u: Ledger {:trigger stage(u)} :: AsksForSetup(stage(u))
    ensures AsksForSetup(Iterate(stage, env, t, target, passes))
    decreases passes
  {
    if passes > 0 {
      var once, loaded := PassOnce(stage, env, t, target), t.(calls := t.calls + 1);
      assert AsksForSetup(stage(loaded));
      if once.pass.Continue? {
        IterateAsks(stage, env, once.ledger, target, passes - 1);
      }
    }
  }

  /** A job that asks for setup leaves the server waiting for it. */
  lemma SetupIsOutstanding(env: Environment, t: Ledger, target: string, requalify: bool, passes: nat)
    ensures AsksForSetup(JobRun(env, t, target, requalify, passes))
  {
    forall u: Ledger ensures AsksForSetup(Stages(env, requalify)(u)) {
      StageAsks(env, u, requalify);
    }
    IterateAsks(Stages(env, requalify), env, t, target, passes);
  }

  lemma StageAsks(env: Environment, t: Ledger, requalify: bool)
    ensures AsksForSetup(Stage(env, t, requalify))
  {
  }

  /** The plan stage stops for setup exactly when a reviewed setup is outstanding, and then changes nothing;
      otherwise it goes on with a ready plan for the profile's features, the earlier receipt, and no incident link
      any more. */
  lemma PlanStageExactly(env: Environment, t: Ledger)
    requires RowOk(t.row) && t.row.lifecycle == ReadyToConfigure
    ensures var p := PlanStage(env, t);
            && (p.pass == Stop(SetupRequired) <==>
                  t.row.plan.Reviewed? && t.row.plan.reapply && t.row.plan.receipt == None)
            && (p.pass == Stop(SetupRequired) ==> p.ledger == t)
            && (p.pass.Continue? ==>
                  && p.ledger.row.lifecycle == Configuring && p.ledger.row.progress == NO_LINK
                  && p.ledger.row.plan ==
                    Ready(Sorted(R.Features(t.row.profile)),
                          if t.row.plan.NotPlanned? then None else t.row.plan.receipt))
  {
    PlanKeeps(env, t);
    ConfiguringKeepsPlan(env, PlanRecorded(env, t).ledger);
  }

  lemma ConfiguringKeepsPlan(env: Environment, t: Ledger)
    requires RowOk(t.row) && t.row.lifecycle == ReadyToConfigure
    ensures var d := Transitioned(env, t, Configuring, false);
            d.error.None? ==>
                d.ledger.row.lifecycle == Configuring && d.ledger.row.plan == t.row.plan
                && d.ledger.row.progress == t.row.progress
  {
  }
}
