/** The enrollment job: `run`, `run_gate` and `quarantine` driving one enrollment from discovery to service.

    The job is the only writer of its enrollment here. Everything else is arbitrary: what each store call fails
    with, what each check observes, and how the monitoring repair ends. What the job makes of it is a function of
    the ledger it starts from; `EnrollmentJobRuns` says what that comes to, and the methods of `EnrollmentJobStore`
    compute it. */
module EnrollmentJob {
  import opened Text
  import opened Enrollment
  import R = Rollout
  import G = Gates

  /** An error of a job step: one of the job's own fixed texts, a list of failed checks, or an error reported by
      another party. */
  datatype JobError =
    | NotConfigured
    | Stopped
    | Refused
    | ChecksFailed(failed: seq<string>)
    | Foreign(code: string, message: string)

  datatype Repair = Repaired | SafeStopped | RepairError(error: JobError)

  /** Everything the job does not control, by the number of the call that meets it. */
  datatype Environment = Environment(
    now: nat -> int,
    evidence: nat -> Evidence,
    broker: nat -> Option<JobError>,
    storedAnyway: nat -> bool,
    observes: nat -> bool,
    repair: Repair)

  predicate Reliable(env: Environment, calls: nat) {
    env.broker(calls).None?
  }

  // ---- The reason recorded with a quarantine ----

  function Utf8Length(c: char): nat {
    if c as int < 0x80 then 1 else if c as int < 0x800 then 2 else if c as int < 0x10000 then 3 else 4
  }

  function ByteLength(s: string): nat {
    if s == [] then 0 else Utf8Length(s[0]) + ByteLength(s[1..])
  }

  predicate Control(c: char) {
    c as int < 0x20 || 0x7F <= c as int < 0xA0
  }

  /** `clean_text(text, 512)`: the limit is in bytes. */
  predicate Clean(s: string) {
    s != [] && ByteLength(s) <= 512 && forall c :: c in s ==> !Control(c)
  }

  /** The reason is `code: message`, cut to 500 characters. */
  function Reason(code: string, message: string): string {
    var text := code + ": " + message;
    if |text| > 500 then text[..500] else text
  }

  const FAILED_CODE := "enrollment-validation-failed"
  const FAILED_WORDS := "required checks failed: "

  /** Whether the reason built from an error is one a transition accepts. The fixed texts are short printable ASCII. */
  predicate ReasonAccepted(e: JobError) {
    match e
    case ChecksFailed(failed) => Clean(Reason(FAILED_CODE, FAILED_WORDS + JoinNames(failed)))
    case Foreign(code, message) => Clean(Reason(code, message))
    case _ => true
  }

  predicate PlainText(s: string) {
    forall i :: 0 <= i < |s| ==> 0x20 <= s[i] as int < 0x7F
  }

  lemma {:induction false} PlainLength(s: string)
    requires PlainText(s)
    ensures ByteLength(s) == |s|
  {
    if s != [] {
      PlainLength(s[1..]);
    }
  }

  lemma PlainReasonIsClean(code: string, message: string)
    requires PlainText(code) && PlainText(message)
    ensures Clean(Reason(code, message))
  {
    var text, reason := code + ": " + message, Reason(code, message);
    assert PlainText(": ") && PlainText(text);
    assert PlainText(reason) && reason != [];
    PlainLength(reason);
  }

  lemma PlainConcat(a: string, b: string)
    requires PlainText(a) && PlainText(b)
    ensures PlainText(a + b)
  {
  }

  function JoinNames(names: seq<string>): string {
    if names == [] then "" else if |names| == 1 then names[0] else names[0] + ", " + JoinNames(names[1..])
  }

  lemma {:induction false} JoinedPlain(names: seq<string>)
    requires forall n :: n in names ==> PlainText(n)
    ensures PlainText(JoinNames(names))
  {
    if |names| > 1 {
      JoinedPlain(names[1..]);
      assert names[0] in names && PlainText(names[0]) && PlainText(", ");
      PlainConcat(names[0], ", ");
      PlainConcat(names[0] + ", ", JoinNames(names[1..]));
    } else if |names| == 1 {
      assert names[0] in names;
    }
  }

  lemma CanonicalIsPlain(s: string)
    requires Canonical(s)
    ensures PlainText(s)
  {
    assert forall i :: 0 <= i < |s| ==> s[i] in s;
  }

  lemma {:induction false} BytesOfPrefix(prefix: string, wide: string)
    requires forall i :: 0 <= i < |wide| ==> wide[i] as int >= 0x80
    ensures ByteLength(prefix + wide) >= |prefix| + 2 * |wide|
    decreases |prefix| + |wide|
  {
    var text := prefix + wide;
    if prefix != [] {
      assert text[1..] == prefix[1..] + wide;
      BytesOfPrefix(prefix[1..], wide);
    } else if wide != [] {
      assert text[1..] == [] + wide[1..];
      BytesOfPrefix([], wide[1..]);
    }
  }

  /** The cut counts characters and the limit counts bytes, so a long message outside ASCII is refused as a reason,
      and the enrollment it was meant to isolate stays where it was. */
  lemma WideMessageIsRefused(code: string, message: string)
    requires |code| <= 200 && |message| >= 300
    requires forall i :: 0 <= i < |message| ==> message[i] as int >= 0x80
    ensures !ReasonAccepted(Foreign(code, message))
  {
    var kept := if |message| < 498 - |code| then |message| else 498 - |code|;
    assert Reason(code, message) == (code + ": ") + message[..kept];
    BytesOfPrefix(code + ": ", message[..kept]);
  }

  lemma {:induction false} TwoByteLength(prefix: string, wide: string)
    requires PlainText(prefix) && forall i :: 0 <= i < |wide| ==> 0xA0 <= wide[i] as int < 0x800
    ensures ByteLength(prefix + wide) == |prefix| + 2 * |wide|
    decreases |prefix| + |wide|
  {
    var text := prefix + wide;
    if prefix != [] {
      assert text[1..] == prefix[1..] + wide;
      TwoByteLength(prefix[1..], wide);
    } else if wide != [] {
      assert text[1..] == [] + wide[1..];
      TwoByteLength([], wide[1..]);
    }
  }

  /** How long a message of two-byte characters may be: the cut leaves 500 characters of code, separator and message,
      and those must not exceed 512 bytes. */
  lemma TwoByteMessageExactly(code: string, message: string)
    requires PlainText(code) && |code| <= 498 && forall i :: 0 <= i < |message| ==> 0xA0 <= message[i] as int < 0x800
    ensures ReasonAccepted(Foreign(code, message)) <==>
              |code| + 2 + 2 * (if |message| < 498 - |code| then |message| else 498 - |code|) <= 512
  {
    var kept := if |message| < 498 - |code| then |message| else 498 - |code|;
    var reason := Reason(code, message);
    assert reason == (code + ": ") + message[..kept];
    assert PlainText(code + ": ");
    TwoByteLength(code + ": ", message[..kept]);
    forall c | c in reason ensures !Control(c) {
      var i :| 0 <= i < |reason| && reason[i] == c;
      assert c == if i < |code + ": "| then (code + ": ")[i] else message[i - |code + ": "|];
    }
  }

  // ---- The ledger and what each call does to it ----

  /** The enrollment row, the stored results of each gate, newest first, and the number of broker calls made. */
  datatype Ledger = Ledger(row: Row, commissioned: seq<G.Result>, qualified: seq<G.Result>, revision: nat, calls: nat)

  datatype Done = Done(ledger: Ledger, error: Option<JobError>)

  function StoredOf(t: Ledger, gate: G.Gate): seq<G.Result> {
    if gate.Commissioning? then t.commissioned else t.qualified
  }

  function WithResult(t: Ledger, gate: G.Gate, r: G.Result): Ledger {
    if gate.Commissioning? then t.(commissioned := [r] + t.commissioned) else t.(qualified := [r] + t.qualified)
  }

  /** A decision is written to the row, unless the broker fails; a refusal is an error too. */
  function Submitted(env: Environment, t: Ledger, d: Decision): Done {
    var after := t.(calls := t.calls + 1);
    if env.broker(t.calls).Some? then Done(after, env.broker(t.calls))
    else match d
         case Refuse => Done(after, Some(Refused))
         case Keep => Done(after, None)
         case Write(patch) => Done(after.(row := Apply(t.row, patch), revision := t.revision + 1), None)
  }

  function Transitioned(env: Environment, t: Ledger, dst: Lifecycle, reason: bool): Done {
    var req := Request(dst, reason, None, None);
    Submitted(env, t, DecideTransition(t.row, req, env.evidence(t.calls), env.now(t.calls), t.revision))
  }

  const COMMISSIONING_CHECKS: set<string> := {"inventory"}
  const QUALIFICATION_CHECKS: set<string> := {"telemetry", "topology", "logs", "monitoring"}

  /** `supported_gadget`: the checks the job can run. Any other required check is recorded as failed. */
  predicate Supported(gate: G.Gate, check: string) {
    check in if gate.Commissioning? then COMMISSIONING_CHECKS else QUALIFICATION_CHECKS
  }

  predicate CheckPasses(env: Environment, calls: nat, gate: G.Gate, check: string) {
    Supported(gate, check) && env.observes(calls)
  }

  function CheckResult(env: Environment, calls: nat, gate: G.Gate, check: string): G.Result {
    G.Result(check, if CheckPasses(env, calls, gate, check) then G.Pass else G.Fail, env.now(calls))
  }

  /** `validation_record`: the result is stored, and the newest results of the gate decide. When a call fails on the
      way the result may be stored all the same. */
  function CheckRecorded(env: Environment, t: Ledger, gate: G.Gate, check: string): Done {
    var stored := WithResult(t, gate, CheckResult(env, t.calls, gate, check));
    if env.broker(t.calls).Some?
    then Done((if env.storedAnyway(t.calls) then stored else t).(calls := t.calls + 1), env.broker(t.calls))
    else Submitted(env, stored, DecideValidation(t.row, gate, StoredOf(stored, gate), t.revision))
  }

  function PlanRecorded(env: Environment, t: Ledger): Done {
    var receipt := if t.row.plan.NotPlanned? then None else t.row.plan.receipt;
    Submitted(env, t, DecidePlan(t.row, Ready(Sorted(R.Features(t.row.profile)), receipt), t.revision))
  }

  function PostureReconciled(env: Environment, t: Ledger, observed: Health): Done {
    Submitted(env, t, DecidePosture(t.row, observed, env.evidence(t.calls), t.revision))
  }

  /** `quarantine`: the enrollment is isolated and its posture degraded; every error on the way is ignored. */
  function Isolated(env: Environment, t: Ledger, error: JobError): Ledger {
    PostureReconciled(env, Transitioned(env, t, Quarantined, ReasonAccepted(error)).ledger, Degraded).ledger
  }

  /** The checks run so far: the first failing call ends them. */
  datatype Ran = Ran(ledger: Ledger, error: Option<JobError>, failed: seq<string>)

  function OneMoreRun(env: Environment, before: Ran, gate: G.Gate, check: string): Ran {
    var passes := CheckPasses(env, before.ledger.calls, gate, check);
    var failed := if passes then before.failed else before.failed + [check];
    var recorded := CheckRecorded(env, before.ledger, gate, check);
    Ran(recorded.ledger, recorded.error, failed)
  }

  function ChecksRun(env: Environment, before: Ran, gate: G.Gate, required: seq<string>): Ran
    decreases |required|
  {
    if required == [] || before.error.Some? then before
    else ChecksRun(env, OneMoreRun(env, before, gate, required[0]), gate, required[1..])
  }

  /** `run_gate`. */
  function GateRun(env: Environment, t: Ledger, gate: G.Gate): Done {
    var required := Required(t.row, gate);
    if required == [] then Done(t, Some(NotConfigured))
    else
      var ran := ChecksRun(env, Ran(t, None, []), gate, required);
      Done(ran.ledger, if ran.error.None? && ran.failed != [] then Some(ChecksFailed(ran.failed)) else ran.error)
  }

  // ---- The stages ----

  /** How a job ended. */
  datatype Ended =
    | Succeeded
    | GateFailed(gate: G.Gate)
    | RepairFailed(error: JobError)
    | SetupRequired
    | NotEligible
    | StepFailed
    | OutOfPasses

  datatype Pass = Continue | Stop(ended: Ended)

  datatype Passed = Passed(ledger: Ledger, pass: Pass)

  function Stepped(d: Done): Passed {
    Passed(d.ledger, if d.error.Some? then Stop(StepFailed) else Continue)
  }

  predicate SetupOutstanding(plan: Plan) {
    plan.Reviewed? && plan.reapply && plan.receipt.None?
  }

  /** The commissioning and qualifying stages: run the gate, then move on, or isolate the server. */
  function GateStage(env: Environment, t: Ledger, gate: G.Gate, dst: Lifecycle): Passed {
    var ran := GateRun(env, t, gate);
    if ran.error.Some? then Passed(Isolated(env, ran.ledger, ran.error.value), Stop(GateFailed(gate)))
    else Stepped(Transitioned(env, ran.ledger, dst, false))
  }

  /** The ready-to-configure stage: record the plan and start configuring, unless a reviewed setup is still
      outstanding. */
  function PlanStage(env: Environment, t: Ledger): Passed {
    if SetupOutstanding(t.row.plan) then Passed(t, Stop(SetupRequired))
    else
      var planned := PlanRecorded(env, t);
      if planned.error.Some? then Stepped(planned) else Stepped(Transitioned(env, planned.ledger, Configuring, false))
  }

  /** The configuring stage: repair monitoring, then move on, or isolate the server. */
  function RepairStage(env: Environment, t: Ledger): Passed {
    match env.repair
    case Repaired => Stepped(Transitioned(env, t, Qualifying, false))
    case SafeStopped => Passed(Isolated(env, t, Stopped), Stop(RepairFailed(Stopped)))
    case RepairError(error) => Passed(Isolated(env, t, error), Stop(RepairFailed(error)))
  }

  function Finished(env: Environment, t: Ledger): Passed {
    var posture := PostureReconciled(env, t, Healthy);
    Passed(posture.ledger, Stop(if posture.error.Some? then StepFailed else Succeeded))
  }

  /** An active server is finished, after requalification if that was asked for. */
  function ActiveStage(env: Environment, t: Ledger, requalify: bool): Passed {
    if !requalify then Finished(env, t)
    else
      var ran := GateRun(env, t, G.Qualification);
      if ran.error.Some? then Passed(Isolated(env, ran.ledger, ran.error.value), Stop(GateFailed(G.Qualification)))
      else Finished(env, ran.ledger)
  }

  function Stage(env: Environment, t: Ledger, requalify: bool): Passed {
    match t.row.lifecycle
    case Discovered => Stepped(Transitioned(env, t, Commissioning, false))
    case Commissioning => GateStage(env, t, G.Commissioning, ReadyToConfigure)
    case ReadyToConfigure => PlanStage(env, t)
    case Configuring => RepairStage(env, t)
    case Qualifying => GateStage(env, t, G.Qualification, Active)
    case Active => ActiveStage(env, t, requalify)
    case _ => Passed(t, Stop(NotEligible))
  }

  function Stages(env: Environment, requalify: bool): Ledger -> Passed {
    t => Stage(env, t, requalify)
  }

  /** One pass: the row is read again, and its stage is run. */
  function PassOnce(stage: Ledger -> Passed, env: Environment, t: Ledger, target: string): Passed {
    var loaded := t.(calls := t.calls + 1);
    if env.broker(t.calls).Some? then Passed(loaded, Stop(StepFailed))
    else if t.row.target != target then Passed(loaded, Stop(NotEligible))
    else stage(loaded)
  }

  /** At most so many passes. */
  function Iterate(stage: Ledger -> Passed, env: Environment, t: Ledger, target: string, passes: nat): Passed
    decreases passes
  {
    if passes == 0 then Passed(t, Stop(OutOfPasses))
    else
      var once := PassOnce(stage, env, t, target);
      if once.pass.Stop? then once else Iterate(stage, env, once.ledger, target, passes - 1)
  }

  function JobRun(env: Environment, t: Ledger, target: string, requalify: bool, passes: nat): Passed {
    Iterate(Stages(env, requalify), env, t, target, passes)
  }

  const PASSES: nat := 8

  lemma JobRunStep(env: Environment, t: Ledger, target: string, requalify: bool, passes: nat, once: Passed)
    requires passes > 0 && once == PassOnce(Stages(env, requalify), env, t, target)
    ensures JobRun(env, t, target, requalify, passes) ==
            if once.pass.Stop? then once else JobRun(env, once.ledger, target, requalify, passes - 1)
  {
  }

  lemma JobRunOut(env: Environment, t: Ledger, target: string, requalify: bool)
    ensures JobRun(env, t, target, requalify, 0) == Passed(t, Stop(OutOfPasses))
  {
  }

  lemma ChecksRunStep(env: Environment, before: Ran, gate: G.Gate, required: seq<string>)
    requires required != [] && before.error.None?
    ensures var next := OneMoreRun(env, before, gate, required[0]);
            && ChecksRun(env, before, gate, required) == ChecksRun(env, next, gate, required[1..])
            && (next.error.Some? ==> ChecksRun(env, next, gate, required[1..]) == next)
  {
  }
}
