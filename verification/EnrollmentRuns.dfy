/** Every interleaving of the enrollment handlers over the shared store.

    A handler is in flight from the moment it reads its row until it commits or gives up; in between it reads
    evidence and the clock, other handlers may write, time may pass and the incident, health and cluster tables may
    change in any way. A commit takes effect only if the row's revision is still the one read. Revisions are fresh
    and the clock does not go back. */
module EnrollmentRuns {
  import opened Text
  import opened Enrollment
  import G = Gates

  /** A stored check result, with the enrollment and gate it belongs to. */
  datatype Stored = Stored(id: string, gate: G.Gate, result: G.Result)

  /** The tables other parts of the system own. */
  datatype World = World(
    incidents: map<string, Incident>,
    signals: set<Signal>,
    health: map<string, Snapshot>,
    clusters: map<string, string>)

  datatype Call =
    | Transition(req: Request)
    | Validate(gate: G.Gate, check: string, outcome: G.Outcome)
    | ApplyRollout(expectedRevision: nat, expectedCluster: string, desired: Desired)
    | RecordPlan(features: seq<string>, receipt: Option<string>)
    | RecordSetup(target: string, features: seq<string>, targetRevision: string, expectedRevision: nat)
    | Posture(observed: Health)

  /** A handler in flight: the row it read and when, what it has seen since, the time it took, and the results it
      listed. */
  datatype Handler = Handler(
    id: string,
    call: Call,
    row: Row,
    begun: int,
    seen: Evidence,
    clock: Option<int>,
    recorded: bool,
    listing: Option<seq<G.Result>>)

  datatype State = State(
    rows: map<string, Row>,
    results: seq<Stored>,
    handlers: map<nat, Handler>,
    started: set<nat>,
    world: World,
    now: int,
    revisions: set<nat>)

  datatype Step =
    | Tick(now: int)
    | Change(world: World)
    | Start(id: string, row: Row)
    | Begin(h: nat, id: string, call: Call)
    | SeeIncident(h: nat)
    | SeeSignals(h: nat)
    | SeeHealth(h: nat)
    | SeeCluster(h: nat)
    | ReadClock(h: nat)
    | Record(h: nat)
    | List(h: nat, listing: seq<G.Result>)
    | Commit(h: nat, revision: nat)
    | GiveUp(h: nat)

  function Lookup<T>(m: map<string, T>, key: string): Option<T> {
    if key in m then Some(m[key]) else None
  }

  /** The incident a transition asks about: the one it links, or the one its row is linked to. */
  function AskedIncident(hd: Handler): Option<string> {
    if hd.call.Transition? && hd.call.req.incident.Some? then hd.call.req.incident else hd.row.progress.incident
  }

  function ResultsOf(results: seq<Stored>, id: string, gate: G.Gate): seq<G.Result> {
    if results == [] then []
    else (if results[0].id == id && results[0].gate == gate then [results[0].result] else []) + ResultsOf(results[1..],
                                                                                id, gate)
  }

  /** What a handler decides once it has taken the time for its write. */
  function Decide(hd: Handler, revision: nat): Decision {
    if hd.clock.None? then Refuse else
    match hd.call
    case Transition(req) => DecideTransition(hd.row, req, hd.seen, hd.clock.value, revision)
    case Validate(gate, _, _) =>
      if hd.recorded && hd.listing.Some? then DecideValidation(hd.row, gate, hd.listing.value, revision) else Refuse
    case ApplyRollout(expected, cluster, desired) =>
      DecideRollout(hd.row, expected, cluster, desired, hd.clock.value, revision)
    case RecordPlan(features, receipt) => DecidePlan(hd.row, Ready(features, receipt), revision)
    case RecordSetup(target, features, targetRevision, expected) =>
      DecideSetup(hd.row, target, features, targetRevision, expected, revision)
    case Posture(observed) => DecidePosture(hd.row, observed, hd.seen, revision)
  }

  ghost predicate Enabled(s: State, step: Step) {
    match step
    case Tick(now) => now >= s.now
    case Change(_) => true
    case Start(id, row) =>
      && id !in s.rows && row.revision !in s.revisions
      && row == Enroll(row.target, row.cluster, row.clusterRevision, row.profile, row.requiredCommissioning,
                       row.requiredQualification, s.now, row.revision)
    case Begin(h, id, _) => h !in s.started && id in s.rows
    case SeeIncident(h) => h in s.handlers && AskedIncident(s.handlers[h]).Some?
    case SeeSignals(h) => h in s.handlers
    case SeeHealth(h) => h in s.handlers
    case SeeCluster(h) => h in s.handlers && s.handlers[h].row.cluster in s.world.clusters
    case ReadClock(h) => h in s.handlers && s.handlers[h].clock.None?
    case Record(h) =>
      && h in s.handlers && s.handlers[h].call.Validate? && !s.handlers[h].recorded && s.handlers[h].clock.Some?
      && ValidationAllowed(s.handlers[h].call.gate, s.handlers[h].row.lifecycle)
    case List(h, listing) =>
      && h in s.handlers && s.handlers[h].call.Validate? && s.handlers[h].recorded
      && G.NewestFirst(listing)
      && multiset(listing) == multiset(ResultsOf(s.results, s.handlers[h].id, s.handlers[h].call.gate))
    case Commit(h, revision) => h in s.handlers && revision !in s.revisions
    case GiveUp(h) => h in s.handlers
  }

  function WithHandler(s: State, h: nat, hd: Handler): State {
    s.(handlers := s.handlers[h := hd])
  }

  /** The linked incident is closed, its host has no unended critical firing signal, and the target's snapshot is of
      that host, healthy, and not the one of the isolation: all of it as the tables say now. */
  predicate RecoveredIn(world: World, row: Row) {
    && row.progress.incident.Some? && row.progress.isolation.Some?
    && row.progress.incident.value in world.incidents && row.target in world.health
    && var incident, health := world.incidents[row.progress.incident.value], world.health[row.target];
       && incident.closed && incident.host == Some(health.host) && !HostFiring(world.signals, health.host)
       && health.status == Healthy && health.revision != row.progress.isolation.value
  }

  /** Whether a stored result is of this qualification check, in the row's cycle. */
  predicate Concerns(q: Stored, id: string, row: Row, check: string) {
    q.id == id && q.gate == G.Qualification && q.result.check == check && q.result.observedAt >= row.cycleStart
  }

  /** A newest result of the check in the cycle neither failed nor was skipped. */
  predicate ClearsNow(results: seq<Stored>, id: string, row: Row, check: string) {
    exists q :: q in results && Concerns(q, id, row, check) && !G.Blocking(Some(q.result.outcome))
                && forall p :: p in results && Concerns(p, id, row, check) ==>
                                 p.result.observedAt <= q.result.observedAt
  }

  /** Every required qualification check of the row is cleared, as the stored results say now. */
  predicate QualifiedIn(results: seq<Stored>, id: string, row: Row) {
    forall c :: c in row.requiredQualification ==> ClearsNow(results, id, row, c)
  }

  /** The database's own guard on an update of a linked enrollment that releases or activates it. */
  predicate GuardAdmits(world: World, results: seq<Stored>, id: string, row: Row, p: Patch) {
    row.progress.incident.Some? && p.lifecycle.Some? ==>
      && (row.lifecycle == Quarantined && p.lifecycle.value == Commissioning ==>
            RecoveredIn(world, row) && Set(p.cycleStart, row.cycleStart) > row.cycleStart)
      && (p.lifecycle.value == Active ==> RecoveredIn(world, row) && QualifiedIn(results, id, Apply(row, p)))
  }

  /** Whether a commit takes effect: the handler decided to write, its row has not moved, and the database admits
      the update. */
  ghost predicate Effective(s: State, h: nat, revision: nat)
    requires h in s.handlers
  {
    var hd, d := s.handlers[h], Decide(s.handlers[h], revision);
    d.Write? && hd.id in s.rows && s.rows[hd.id].revision == hd.row.revision
    && GuardAdmits(s.world, s.results, hd.id, s.rows[hd.id], d.patch)
  }

  ghost function After(s: State, step: Step): State
    requires Enabled(s, step)
  {
    match step
    case Tick(now) => s.(now := now)
    case Change(world) => s.(world := world)
    case Start(id, row) => s.(rows := s.rows[id := row], revisions := s.revisions + {row.revision})
    case Begin(h, id, call) =>
      var hd := Handler(id, call, s.rows[id], s.now, NOTHING_SEEN, None, false, None);
      WithHandler(s, h, hd).(started := s.started + {h})
    case SeeIncident(h) =>
      var hd := s.handlers[h];
      WithHandler(s, h, hd.(seen := hd.seen.(incident := Some(Lookup(s.world.incidents, AskedIncident(hd).value)))))
    case SeeSignals(h) =>
      var hd := s.handlers[h];
      WithHandler(s, h, hd.(seen := hd.seen.(signals := Some(s.world.signals))))
    case SeeHealth(h) =>
      var hd := s.handlers[h];
      WithHandler(s, h, hd.(seen := hd.seen.(health := Some(Lookup(s.world.health, hd.row.target)))))
    case SeeCluster(h) =>
      var hd := s.handlers[h];
      WithHandler(s, h, hd.(seen := hd.seen.(clusterRevision := Some(s.world.clusters[hd.row.cluster]))))
    case ReadClock(h) =>
      WithHandler(s, h, s.handlers[h].(clock := Some(s.now)))
    case Record(h) =>
      var hd := s.handlers[h];
      WithHandler(s, h, hd.(recorded := true)).(
        results := s.results + [Stored(hd.id, hd.call.gate, G.Result(hd.call.check, hd.call.outcome, hd.clock.value))])
    case List(h, listing) =>
      WithHandler(s, h, s.handlers[h].(listing := Some(listing)))
    case Commit(h, revision) =>
      var hd := s.handlers[h];
      var next := s.(handlers := s.handlers - {h});
      if Effective(s, h, revision) then
        next.(rows := s.rows[hd.id := Apply(s.rows[hd.id], Decide(hd, revision).patch)],
              revisions := s.revisions + {revision})
      else next
    case GiveUp(h) => s.(handlers := s.handlers - {h})
  }

  // ---- Runs ----

  datatype Run = Run(states: seq<State>, steps: seq<Step>)

  ghost predicate Initial(s: State) {
    s.rows == map[] && s.results == [] && s.handlers == map[] && s.started == {} && s.revisions == {}
  }

  ghost predicate StepAt(r: Run, i: nat)
    requires |r.states| == |r.steps| + 1 && i < |r.steps|
  {
    Enabled(r.states[i], r.steps[i]) && r.states[i + 1] == After(r.states[i], r.steps[i])
  }

  ghost predicate IsRun(r: Run) {
    && |r.states| == |r.steps| + 1
    && Initial(r.states[0])
    && forall i {:trigger StepAt(r, i)} :: 0 <= i < |r.steps| ==> StepAt(r, i)
  }

  /** Whether a handler's row is the stored row whenever the revisions agree, its times are in order, and it only
      lists results that were stored. */
  ghost predicate HandlerOk(s: State, hd: Handler) {
    && hd.id in s.rows && hd.row.revision in s.revisions
    && hd.row.cycleStart <= hd.begun <= s.now
    && (hd.clock.Some? ==> hd.begun <= hd.clock.value <= s.now)
    && (s.rows[hd.id].revision == hd.row.revision ==> s.rows[hd.id] == hd.row)
    && (hd.listing.Some? ==>
          hd.call.Validate? && G.NewestFirst(hd.listing.value)
          && forall q :: q in hd.listing.value ==> Stored(hd.id, hd.call.gate, q) in s.results)
  }

  ghost predicate Inv(s: State) {
    && (forall id :: id in s.rows ==>
          RowOk(s.rows[id]) && s.rows[id].revision in s.revisions && s.rows[id].cycleStart <= s.now)
    && (forall h :: h in s.handlers ==> h in s.started && HandlerOk(s, s.handlers[h]))
  }

  // ---- What one write does to its row ----

  /** A gate status that becomes passed was earned: by a validation of that gate, from the results listed for the
      row's cycle. */
  ghost predicate Earned(hd: Handler, row: Row, next: Row, gate: G.Gate) {
    !G.GatePassed(StatusOf(row, gate)) && G.GatePassed(StatusOf(next, gate)) ==>
      && hd.call.Validate? && hd.call.gate == gate && hd.listing.Some?
      && G.GatePassed(G.PageVerdict(Required(row, gate), hd.listing.value, row.cycleStart))
  }

  /** Leaving quarantine: only for good, or into a new commissioning cycle with both gates reset; and with an
      incident linked, only on evidence of recovery. */
  ghost predicate LeavesQuarantine(hd: Handler, now: int, row: Row, next: Row) {
    || (next.lifecycle == Quarantined && next.progress == row.progress)
    || next.lifecycle == Retired
    || (&& next.lifecycle == Commissioning && hd.call.Transition? && hd.call.req.incident.None?
        && !G.GatePassed(next.commissioning) && !G.GatePassed(next.qualification) && next.cycleStart == now
        && (row.progress.incident.Some? ==>
              row.progress.isolation.Some? && Recovery(row.progress.isolation.value, hd.seen).Some?))
  }

  /** Entering a validation phase resets its gates and starts a new cycle; quarantine never keeps a qualification
      pass. */
  ghost predicate ResetsGates(now: int, row: Row, next: Row) {
    && (next.lifecycle == Commissioning && row.lifecycle != Commissioning ==>
          !G.GatePassed(next.commissioning) && !G.GatePassed(next.qualification) && next.cycleStart == now)
    && (next.lifecycle == Qualifying && row.lifecycle != Qualifying ==>
          !G.GatePassed(next.qualification) && next.cycleStart == now)
    && (next.lifecycle == Quarantined && row.lifecycle != Quarantined ==> !G.GatePassed(next.qualification))
  }

  /** Service is reached only from service or qualification, and what follows commissioning only from there or from
      it. */
  ghost predicate ComesFrom(row: Row, next: Row) {
    && (InService(next.lifecycle) ==> InService(row.lifecycle) || row.lifecycle == Qualifying)
    && (Commissioned(next.lifecycle) ==> Commissioned(row.lifecycle) || row.lifecycle == Commissioning)
  }

  ghost predicate EntersClean(now: int, row: Row, next: Row) {
    ResetsGates(now, row, next) && ComesFrom(row, next)
  }

  ghost predicate Moves(hd: Handler, row: Row, next: Row) {
    && hd.clock.Some?
    && RowOk(next) && next.target == row.target && EntersClean(hd.clock.value, row, next)
    && (next.cycleStart == row.cycleStart || next.cycleStart == hd.clock.value)
    && Earned(hd, row, next, G.Commissioning) && Earned(hd, row, next, G.Qualification)
    && (row.lifecycle == Quarantined ==> LeavesQuarantine(hd, hd.clock.value, row, next))
    && row.lifecycle != Retired
  }

  lemma TransitionKeeps(hd: Handler, revision: nat)
    requires hd.call.Transition? && RowOk(hd.row) && Decide(hd, revision).Write?
    ensures var next := Apply(hd.row, Decide(hd, revision).patch);
            && RowOk(next) && next.target == hd.row.target && hd.row.lifecycle != Retired && next.revision == revision
            && (next.cycleStart == hd.row.cycleStart || next.cycleStart == hd.clock.value)
  {
  }

  lemma TransitionResetsGates(hd: Handler, revision: nat)
    requires hd.call.Transition? && Decide(hd, revision).Write?
    ensures ResetsGates(hd.clock.value, hd.row, Apply(hd.row, Decide(hd, revision).patch))
  {
  }

  lemma TransitionComesFrom(hd: Handler, revision: nat)
    requires hd.call.Transition? && Decide(hd, revision).Write?
    ensures ComesFrom(hd.row, Apply(hd.row, Decide(hd, revision).patch))
  {
  }

  lemma TransitionEarnsNothing(hd: Handler, revision: nat)
    requires hd.call.Transition? && RowOk(hd.row) && Decide(hd, revision).Write?
    ensures var next := Apply(hd.row, Decide(hd, revision).patch);
            && Earned(hd, hd.row, next, G.Commissioning) && Earned(hd, hd.row, next, G.Qualification)
            && (hd.row.lifecycle == Quarantined ==> LeavesQuarantine(hd, hd.clock.value, hd.row, next))
  {
  }

  lemma TransitionMoves(hd: Handler, revision: nat)
    requires hd.call.Transition? && RowOk(hd.row) && Decide(hd, revision).Write?
    ensures Decide(hd, revision).patch.revision == revision
    ensures Moves(hd, hd.row, Apply(hd.row, Decide(hd, revision).patch))
  {
    TransitionKeeps(hd, revision);
    TransitionResetsGates(hd, revision);
    TransitionComesFrom(hd, revision);
    TransitionEarnsNothing(hd, revision);
  }

  lemma ValidationMoves(hd: Handler, revision: nat)
    requires hd.call.Validate? && RowOk(hd.row) && Decide(hd, revision).Write?
    requires G.NewestFirst(hd.listing.value)
    ensures Decide(hd, revision).patch.revision == revision
    ensures Moves(hd, hd.row, Apply(hd.row, Decide(hd, revision).patch))
  {
    var required := Required(hd.row, hd.call.gate);
    if G.GatePassed(G.PageVerdict(required, hd.listing.value, hd.row.cycleStart)) {
      G.PassedIsEarned(required, hd.listing.value, hd.row.cycleStart);
    }
  }

  lemma RolloutMoves(hd: Handler, revision: nat)
    requires hd.call.ApplyRollout? && RowOk(hd.row) && Decide(hd, revision).Write?
    ensures Decide(hd, revision).patch.revision == revision
    ensures Moves(hd, hd.row, Apply(hd.row, Decide(hd, revision).patch))
  {
  }

  lemma OtherMoves(hd: Handler, revision: nat)
    requires hd.call.RecordPlan? || hd.call.RecordSetup? || hd.call.Posture?
    requires RowOk(hd.row) && Decide(hd, revision).Write?
    ensures Decide(hd, revision).patch.revision == revision
    ensures Moves(hd, hd.row, Apply(hd.row, Decide(hd, revision).patch))
  {
  }

  lemma DecisionMoves(hd: Handler, revision: nat)
    requires RowOk(hd.row) && Decide(hd, revision).Write?
    requires hd.listing.Some? ==> G.NewestFirst(hd.listing.value)
    ensures Decide(hd, revision).patch.revision == revision
    ensures Moves(hd, hd.row, Apply(hd.row, Decide(hd, revision).patch))
  {
    match hd.call
    case Transition(_) => TransitionMoves(hd, revision);
    case Validate(_, _, _) => ValidationMoves(hd, revision);
    case ApplyRollout(_, _, _) => RolloutMoves(hd, revision);
    case _ => OtherMoves(hd, revision);
  }

  // ---- Every step keeps the invariant ----

  ghost function Written(s: State, h: nat, row: Row): State
    requires h in s.handlers
  {
    s.(handlers := s.handlers - {h}, rows := s.rows[s.handlers[h].id := row], revisions := s.revisions + {row.revision})
  }

  lemma WriteKeepsInv(s: State, h: nat, row: Row)
    requires Inv(s) && h in s.handlers && row.revision !in s.revisions && RowOk(row) && row.cycleStart <= s.now
    ensures Inv(Written(s, h, row))
  {
    var s' := Written(s, h, row);
    forall k | k in s'.handlers ensures k in s'.started && HandlerOk(s', s'.handlers[k]) {
      assert k in s.handlers && HandlerOk(s, s.handlers[k]);
    }
  }

  /** A commit either changes no row, or replaces its handler's row, unmoved since it was read, by what was decided
      on it. */
  lemma CommitWrites(s: State, h: nat, revision: nat)
    requires Inv(s) && Enabled(s, Commit(h, revision))
    ensures !Effective(s, h, revision) ==> After(s, Commit(h, revision)) == s.(handlers := s.handlers - {h})
    ensures Effective(s, h, revision) ==>
              var hd := s.handlers[h];
              exists next :: && After(s, Commit(h, revision)) == Written(s, h, next)
                             && hd.row == s.rows[hd.id] && Moves(hd, hd.row, next) && next.revision == revision
  {
    if Effective(s, h, revision) {
      var hd := s.handlers[h];
      assert HandlerOk(s, hd);
      DecisionMoves(hd, revision);
      var next := Apply(hd.row, Decide(hd, revision).patch);
      assert After(s, Commit(h, revision)) == Written(s, h, next);
    }
  }

  lemma {:induction false} ResultsOfStored(results: seq<Stored>, id: string, gate: G.Gate, q: G.Result)
    requires q in ResultsOf(results, id, gate)
    ensures Stored(id, gate, q) in results
  {
    if !(results[0].id == id && results[0].gate == gate && results[0].result == q) {
      ResultsOfStored(results[1..], id, gate, q);
    }
  }

  lemma ListedAreStored(s: State, h: nat, listing: seq<G.Result>)
    requires Enabled(s, List(h, listing))
    ensures forall q :: q in listing ==> Stored(s.handlers[h].id, s.handlers[h].call.gate, q) in s.results
  {
    var hd := s.handlers[h];
    forall q | q in listing ensures Stored(hd.id, hd.call.gate, q) in s.results {
      assert q in multiset(listing);
      ResultsOfStored(s.results, hd.id, hd.call.gate, q);
    }
  }

  lemma CommitKeepsInv(s: State, h: nat, revision: nat)
    requires Inv(s) && Enabled(s, Commit(h, revision))
    ensures Inv(After(s, Commit(h, revision)))
  {
    CommitWrites(s, h, revision);
    if Effective(s, h, revision) {
      var hd := s.handlers[h];
      var next :| After(s, Commit(h, revision)) == Written(s, h, next)
                  && hd.row == s.rows[hd.id] && Moves(hd, hd.row, next) && next.revision == revision;
      WriteKeepsInv(s, h, next);
    } else {
      GivingUpKeepsInv(s, h);
    }
  }

  lemma GivingUpKeepsInv(s: State, h: nat)
    requires Inv(s)
    ensures Inv(s.(handlers := s.handlers - {h}))
  {
    var s' := s.(handlers := s.handlers - {h});
    forall k | k in s'.handlers ensures k in s'.started && HandlerOk(s', s'.handlers[k]) {
      assert HandlerOk(s, s.handlers[k]);
    }
  }

  predicate TakesNote(step: Step) {
    step.SeeIncident? || step.SeeSignals? || step.SeeHealth? || step.SeeCluster? || step.ReadClock? || step.List?
  }

  /** Taking a note changes only that handler, and not the row it read. */
  lemma NoteKeepsInv(s: State, step: Step)
    requires Inv(s) && Enabled(s, step) && TakesNote(step)
    ensures Inv(After(s, step))
  {
    var h := step.h;
    var hd := After(s, step).handlers[h];
    assert HandlerOk(s, s.handlers[h]);
    if step.List? {
      ListedAreStored(s, h, step.listing);
    }
    assert HandlerOk(s, hd);
    WithHandlerKeepsInv(s, h, hd);
  }

  lemma WithHandlerKeepsInv(s: State, h: nat, hd: Handler)
    requires Inv(s) && h in s.started && HandlerOk(s, hd)
    ensures Inv(WithHandler(s, h, hd))
  {
    var s' := WithHandler(s, h, hd);
    forall k | k in s'.handlers ensures k in s'.started && HandlerOk(s', s'.handlers[k]) {
      if k != h {
        assert HandlerOk(s, s.handlers[k]);
      }
    }
  }

  /** More rows and more results take nothing away from a handler whose own row stays. */
  lemma GrowthKeepsHandlers(s: State, s': State)
    requires Inv(s) && s'.handlers.Keys <= s.handlers.Keys && s.started <= s'.started && s.revisions <= s'.revisions
    requires forall k :: k in s'.handlers ==> s'.handlers[k] == s.handlers[k]
    requires forall id :: id in s.rows ==> id in s'.rows && s'.rows[id] == s.rows[id]
    requires (forall q :: q in s.results ==> q in s'.results) && s.now <= s'.now
    ensures forall k :: k in s'.handlers ==> k in s'.started && HandlerOk(s', s'.handlers[k])
  {
    forall k | k in s'.handlers ensures k in s'.started && HandlerOk(s', s'.handlers[k]) {
      assert HandlerOk(s, s.handlers[k]);
    }
  }

  lemma StartKeepsInv(s: State, id: string, row: Row)
    requires Inv(s) && Enabled(s, Start(id, row))
    ensures Inv(After(s, Start(id, row)))
  {
    GrowthKeepsHandlers(s, After(s, Start(id, row)));
    assert RowOk(row);
  }

  lemma OtherStepKeepsInv(s: State, step: Step)
    requires Inv(s) && Enabled(s, step) && !step.Commit? && !step.Start? && !TakesNote(step)
    ensures Inv(After(s, step))
  {
    if step.Begin? {
      var s1 := s.(started := s.started + {step.h});
      GrowthKeepsHandlers(s, s1);
      WithHandlerKeepsInv(s1, step.h,
                          Handler(step.id, step.call, s.rows[step.id], s.now, NOTHING_SEEN, None, false, None));
    } else if step.Record? {
      var s1 := s.(results := After(s, step).results);
      GrowthKeepsHandlers(s, s1);
      assert HandlerOk(s1, s1.handlers[step.h]);
      WithHandlerKeepsInv(s1, step.h, s1.handlers[step.h].(recorded := true));
    } else {
      GrowthKeepsHandlers(s, After(s, step));
    }
  }

  lemma StepKeepsInv(s: State, step: Step)
    requires Inv(s) && Enabled(s, step)
    ensures Inv(After(s, step))
  {
    if step.Commit? {
      CommitKeepsInv(s, step.h, step.revision);
    } else if TakesNote(step) {
      NoteKeepsInv(s, step);
    } else if step.Start? {
      StartKeepsInv(s, step.id, step.row);
    } else {
      OtherStepKeepsInv(s, step);
    }
  }

  /** In every state of every run: an active or draining enrollment has qualification passed, one anywhere from
      ready-to-configure to maintenance has commissioning passed. */
  lemma {:induction false} GatesHoldInEveryState(r: Run, i: nat)
    requires IsRun(r) && i < |r.states|
    ensures Inv(r.states[i])
    ensures forall id :: id in r.states[i].rows ==>
              var row := r.states[i].rows[id];
              && (InService(row.lifecycle) ==> G.GatePassed(row.qualification))
              && (Commissioned(row.lifecycle) ==> G.GatePassed(row.commissioning))
  {
    if i > 0 {
      GatesHoldInEveryState(r, i - 1);
      assert StepAt(r, i - 1);
      StepKeepsInv(r.states[i - 1], r.steps[i - 1]);
    }
  }

  // ---- What one step of a run does to one row ----

  /** Step `i` commits a write to enrollment `id`, taken on exactly the row it replaces. */
  ghost predicate WriteAt(r: Run, i: nat, id: string)
    requires IsRun(r) && i < |r.steps|
  {
    var s := r.states[i];
    && id in s.rows && id in r.states[i + 1].rows
    && r.steps[i].Commit? && r.steps[i].h in s.handlers
    && var hd := s.handlers[r.steps[i].h];
       hd.id == id && hd.row == s.rows[id] && Moves(hd, s.rows[id], r.states[i + 1].rows[id])
       && r.states[i + 1].rows[id].revision == r.steps[i].revision
  }

  lemma RowStep(r: Run, i: nat, id: string)
    requires IsRun(r) && i < |r.steps| && id in r.states[i].rows
    ensures id in r.states[i + 1].rows
    ensures r.states[i + 1].rows[id] == r.states[i].rows[id] || WriteAt(r, i, id)
    ensures r.states[i].now <= r.states[i + 1].now
  {
    GatesHoldInEveryState(r, i);
    assert StepAt(r, i);
    var s, step := r.states[i], r.steps[i];
    if step.Commit? {
      CommitWrites(s, step.h, step.revision);
      if Effective(s, step.h, step.revision) {
        var hd := s.handlers[step.h];
        var next :| After(s, step) == Written(s, step.h, next)
                    && hd.row == s.rows[hd.id] && Moves(hd, hd.row, next) && next.revision == step.revision;
      }
    }
  }

  /** An enrollment, once there, stays; its cycle start never goes back. */
  lemma {:induction false} RowPersists(r: Run, i: nat, j: nat, id: string)
    requires IsRun(r) && i <= j < |r.states| && id in r.states[i].rows
    ensures id in r.states[j].rows && r.states[i].rows[id].cycleStart <= r.states[j].rows[id].cycleStart
    ensures r.states[i].rows[id].lifecycle == Retired ==> r.states[j].rows[id].lifecycle == Retired
  {
    if i < j {
      RowPersists(r, i, j - 1, id);
      RowPersistsOnce(r, j - 1, id);
    }
  }

  lemma RowPersistsOnce(r: Run, i: nat, id: string)
    requires IsRun(r) && i < |r.states| - 1 && id in r.states[i].rows
    ensures id in r.states[i + 1].rows && r.states[i].rows[id].cycleStart <= r.states[i + 1].rows[id].cycleStart
    ensures r.states[i].rows[id].lifecycle == Retired ==> r.states[i + 1].rows[id].lifecycle == Retired
  {
    GatesHoldInEveryState(r, i);
    RowStep(r, i, id);
  }

  // ---- Gates are earned again after quarantine ----

  ghost predicate StatusPassed(r: Run, i: nat, id: string, gate: G.Gate)
    requires i < |r.states|
  {
    id in r.states[i].rows && G.GatePassed(StatusOf(r.states[i].rows[id], gate))
  }

  /** Step `i` makes the gate pass, from stored results of that gate observed no earlier than the row's cycle start:
      one clearing result, the newest of its check, for each required check. */
  ghost predicate EarnedAt(r: Run, i: nat, id: string, gate: G.Gate)
    requires IsRun(r) && i < |r.steps|
  {
    && WriteAt(r, i, id) && StatusPassed(r, i + 1, id, gate)
    && var row, hd := r.states[i].rows[id], r.states[i].handlers[r.steps[i].h];
       && hd.call.Validate? && hd.call.gate == gate && hd.listing.Some?
       && Required(row, gate) != []
       && (forall c :: c in Required(row, gate) ==> exists q :: G.Clears(hd.listing.value, row.cycleStart, c, q))
       && (forall q :: q in hd.listing.value ==> Stored(id, gate, q) in r.states[i].results)
  }

  lemma {:induction false} GateEarnedBetween(r: Run, i: nat, j: nat, id: string, gate: G.Gate) returns (e: nat)
    requires IsRun(r) && i <= j < |r.states| && id in r.states[i].rows
    requires !StatusPassed(r, i, id, gate) && StatusPassed(r, j, id, gate)
    ensures i <= e < j && EarnedAt(r, e, id, gate)
  {
    RowPersists(r, i, j - 1, id);
    if StatusPassed(r, j - 1, id, gate) {
      e := GateEarnedBetween(r, i, j - 1, id, gate);
    } else {
      e := j - 1;
      PassingStepEarned(r, e, id, gate);
    }
  }

  lemma PassingStepEarned(r: Run, e: nat, id: string, gate: G.Gate)
    requires IsRun(r) && e < |r.steps| && id in r.states[e].rows
    requires !StatusPassed(r, e, id, gate) && StatusPassed(r, e + 1, id, gate)
    ensures EarnedAt(r, e, id, gate)
  {
    RowStep(r, e, id);
    GatesHoldInEveryState(r, e);
    var row, hd := r.states[e].rows[id], r.states[e].handlers[r.steps[e].h];
    assert HandlerOk(r.states[e], hd);
    assert Earned(hd, row, r.states[e + 1].rows[id], gate);
    G.PassedIsEarned(Required(row, gate), hd.listing.value, row.cycleStart);
  }

  /** Step `i` takes the enrollment out of quarantine into a new cycle with both gates reset. */
  ghost predicate RestartsAt(r: Run, i: nat, id: string)
    requires IsRun(r) && i < |r.steps|
  {
    && WriteAt(r, i, id) && r.states[i].rows[id].lifecycle == Quarantined
    && var next := r.states[i + 1].rows[id];
       && next.lifecycle == Commissioning && next.cycleStart == r.states[i].handlers[r.steps[i].h].clock.value
       && !G.GatePassed(next.commissioning) && !G.GatePassed(next.qualification)
  }

  lemma {:induction false} LastRestart(r: Run, i: nat, j: nat, id: string) returns (a: nat)
    requires IsRun(r) && i <= j < |r.states| && id in r.states[i].rows && r.states[i].rows[id].lifecycle == Quarantined
    requires id in r.states[j].rows && r.states[j].rows[id].lifecycle != Quarantined
    requires r.states[j].rows[id].lifecycle != Retired
    ensures i <= a < j && RestartsAt(r, a, id)
    ensures forall k :: a < k <= j ==> id in r.states[k].rows && r.states[k].rows[id].lifecycle != Quarantined
  {
    RestartsOrOut(r, i, j, id);
    if r.states[j - 1].rows[id].lifecycle == Quarantined {
      a := j - 1;
    } else {
      a := LastRestart(r, i, j - 1, id);
    }
  }

  lemma RestartsOrOut(r: Run, i: nat, j: nat, id: string)
    requires IsRun(r) && i < j < |r.states| && id in r.states[i].rows
    requires id in r.states[j].rows && r.states[j].rows[id].lifecycle != Quarantined
    requires r.states[j].rows[id].lifecycle != Retired
    ensures id in r.states[j - 1].rows && r.states[j - 1].rows[id].lifecycle != Retired
    ensures r.states[j - 1].rows[id].lifecycle == Quarantined ==> RestartsAt(r, j - 1, id)
  {
    RowPersists(r, i, j - 1, id);
    RowPersistsOnce(r, j - 1, id);
    if r.states[j - 1].rows[id].lifecycle == Quarantined {
      LeavingRestarts(r, j - 1, id);
    }
  }

  lemma LeavingRestarts(r: Run, i: nat, id: string)
    requires IsRun(r) && i < |r.states| - 1 && id in r.states[i].rows && id in r.states[i + 1].rows
    requires r.states[i].rows[id].lifecycle == Quarantined
    requires r.states[i + 1].rows[id].lifecycle != Quarantined && r.states[i + 1].rows[id].lifecycle != Retired
    ensures RestartsAt(r, i, id)
  {
    RowStep(r, i, id);
  }

  /** A handler in flight read its row at some earlier moment, at the time it keeps as its beginning. */
  lemma {:induction false} HandlerBegan(r: Run, n: nat, h: nat) returns (k: nat)
    requires IsRun(r) && n < |r.states| && h in r.states[n].handlers
    ensures var hd := r.states[n].handlers[h];
            k < n && r.states[k].now == hd.begun && hd.id in r.states[k].rows && r.states[k].rows[hd.id] == hd.row
  {
    assert n > 0;
    assert StepAt(r, n - 1);
    GatesHoldInEveryState(r, n - 1);
    if h in r.states[n - 1].handlers {
      StepKeepsTask(r.states[n - 1], r.steps[n - 1], h);
      k := HandlerBegan(r, n - 1, h);
    } else {
      StepStartsTask(r.states[n - 1], r.steps[n - 1], h);
      k := n - 1;
    }
  }

  lemma StepKeepsTask(s: State, step: Step, h: nat)
    requires Inv(s) && Enabled(s, step) && h in s.handlers && h in After(s, step).handlers
    ensures var a, b := s.handlers[h], After(s, step).handlers[h]; a.id == b.id && a.row == b.row && a.begun == b.begun
  {
    if step.Commit? {
      CommitWrites(s, step.h, step.revision);
    }
  }

  lemma StepStartsTask(s: State, step: Step, h: nat)
    requires Inv(s) && Enabled(s, step) && h !in s.handlers && h in After(s, step).handlers
    ensures var hd := After(s, step).handlers[h]; hd.begun == s.now && hd.id in s.rows && s.rows[hd.id] == hd.row
  {
    if step.Commit? {
      CommitWrites(s, step.h, step.revision);
    }
  }

  lemma RestartBegan(r: Run, a: nat, id: string) returns (k: nat)
    requires IsRun(r) && a < |r.steps| && RestartsAt(r, a, id)
    ensures k < a && id in r.states[k].rows && r.states[k].rows[id] == r.states[a].rows[id]
    ensures r.states[k].now <= r.states[a + 1].rows[id].cycleStart
  {
    GatesHoldInEveryState(r, a);
    assert HandlerOk(r.states[a], r.states[a].handlers[r.steps[a].h]);
    k := HandlerBegan(r, a, r.steps[a].h);
  }

  /** On every run from quarantined back to active, after the last release both gates were reset and then each was
      earned again, from results observed at or after the cycle start that release set, or a later one. That cycle
      start is no earlier than a moment `k` at which the server stood quarantined with its row just as the release
      replaced it. */
  lemma GatesEarnedAgain(r: Run, i: nat, j: nat, id: string) returns (k: nat, a: nat, c: nat, q: nat)
    requires IsRun(r) && i < j < |r.states| && id in r.states[i].rows && id in r.states[j].rows
    requires r.states[i].rows[id].lifecycle == Quarantined && r.states[j].rows[id].lifecycle == Active
    ensures i <= a < c < j && a < q < j
    ensures RestartsAt(r, a, id) && EarnedAt(r, c, id, G.Commissioning) && EarnedAt(r, q, id, G.Qualification)
    ensures k < a && id in r.states[k].rows && r.states[k].rows[id] == r.states[a].rows[id]
    ensures r.states[k].now <= r.states[a + 1].rows[id].cycleStart
    ensures r.states[a + 1].rows[id].cycleStart <= r.states[c].rows[id].cycleStart
    ensures r.states[a + 1].rows[id].cycleStart <= r.states[q].rows[id].cycleStart
    ensures forall n :: a < n <= j ==> id in r.states[n].rows && r.states[n].rows[id].lifecycle != Quarantined
  {
    a := LastRestart(r, i, j, id);
    k := RestartBegan(r, a, id);
    c := EarnedSince(r, a, j, id, G.Commissioning);
    q := EarnedSince(r, a, j, id, G.Qualification);
  }

  /** A gate reset by a release and passed by the time of service was earned in between, in the cycle of that
      release or a later one. */
  lemma EarnedSince(r: Run, a: nat, j: nat, id: string, gate: G.Gate) returns (e: nat)
    requires IsRun(r) && a < j < |r.states| && RestartsAt(r, a, id) && id in r.states[j].rows
    requires r.states[j].rows[id].lifecycle == Active
    ensures a < e < j && EarnedAt(r, e, id, gate)
    ensures r.states[a + 1].rows[id].cycleStart <= r.states[e].rows[id].cycleStart
  {
    GatesHoldInEveryState(r, j);
    e := GateEarnedBetween(r, a + 1, j, id, gate);
    RowPersists(r, a + 1, e, id);
  }

  /** Step `i` enters a lifecycle state. */
  ghost predicate EntersAt(r: Run, i: nat, id: string, l: Lifecycle)
    requires IsRun(r) && i < |r.steps|
  {
    WriteAt(r, i, id) && r.states[i].rows[id].lifecycle != l && r.states[i + 1].rows[id].lifecycle == l
  }

  /** At a state, or further along the path that leads through it. */
  predicate Past(now: Lifecycle, l: Lifecycle) {
    (l == Qualifying && (InService(now) || now == l)) || (l == Commissioning && (Commissioned(now) || now == l))
  }

  lemma EntersOrPast(r: Run, i: nat, id: string, l: Lifecycle)
    requires IsRun(r) && i < |r.states| - 1 && id in r.states[i].rows && id in r.states[i + 1].rows
    requires Past(r.states[i + 1].rows[id].lifecycle, l)
    ensures EntersAt(r, i, id, l) || Past(r.states[i].rows[id].lifecycle, l)
  {
    RowStep(r, i, id);
  }

  lemma {:induction false} LastEntry(r: Run, j: nat, id: string, l: Lifecycle) returns (a: nat)
    requires IsRun(r) && j < |r.states| && id in r.states[j].rows
    requires Past(r.states[j].rows[id].lifecycle, l)
    ensures a < j && EntersAt(r, a, id, l)
    ensures forall k :: a < k < j ==> id in r.states[k].rows && !EntersAt(r, k, id, l)
  {
    EnrolledBefore(r, j, id);
    EntersOrPast(r, j - 1, id, l);
    if EntersAt(r, j - 1, id, l) {
      a := j - 1;
    } else {
      a := LastEntry(r, j - 1, id, l);
    }
  }

  lemma NewRowIsDiscovered(s: State, step: Step, id: string)
    requires Inv(s) && Enabled(s, step)
    ensures id in After(s, step).rows && id !in s.rows ==> After(s, step).rows[id].lifecycle == Discovered
  {
    if step.Commit? {
      assert HandlerOk(s, s.handlers[step.h]);
    }
  }

  lemma EnrolledBefore(r: Run, j: nat, id: string)
    requires IsRun(r) && j < |r.states| && id in r.states[j].rows && r.states[j].rows[id].lifecycle != Discovered
    ensures j > 0 && id in r.states[j - 1].rows
  {
    assert j > 0;
    assert StepAt(r, j - 1);
    GatesHoldInEveryState(r, j - 1);
    NewRowIsDiscovered(r.states[j - 1], r.steps[j - 1], id);
  }

  /** Whenever a server is in service, qualification was earned after it last entered qualification, from results of
      that cycle or a later one. */
  lemma ServiceIsEarned(r: Run, j: nat, id: string) returns (a: nat, q: nat)
    requires IsRun(r) && j < |r.states| && id in r.states[j].rows && InService(r.states[j].rows[id].lifecycle)
    ensures a < q < j && EntersAt(r, a, id, Qualifying) && EarnedAt(r, q, id, G.Qualification)
    ensures r.states[a + 1].rows[id].cycleStart <= r.states[q].rows[id].cycleStart
    ensures forall k :: a < k < j ==> id in r.states[k].rows && !EntersAt(r, k, id, Qualifying)
  {
    a := LastEntry(r, j, id, Qualifying);
    GatesHoldInEveryState(r, j);
    q := GateEarnedBetween(r, a + 1, j, id, G.Qualification);
    RowPersists(r, a + 1, q, id);
  }

  /** Likewise, whenever a server is past commissioning, that gate was earned after it last entered commissioning. */
  lemma CommissioningIsEarned(r: Run, j: nat, id: string) returns (a: nat, c: nat)
    requires IsRun(r) && j < |r.states| && id in r.states[j].rows && Commissioned(r.states[j].rows[id].lifecycle)
    ensures a < c < j && EntersAt(r, a, id, Commissioning) && EarnedAt(r, c, id, G.Commissioning)
    ensures r.states[a + 1].rows[id].cycleStart <= r.states[c].rows[id].cycleStart
    ensures forall k :: a < k < j ==> id in r.states[k].rows && !EntersAt(r, k, id, Commissioning)
  {
    a := LastEntry(r, j, id, Commissioning);
    GatesHoldInEveryState(r, j);
    c := GateEarnedBetween(r, a + 1, j, id, G.Commissioning);
    RowPersists(r, a + 1, c, id);
  }

  // ---- Incident-linked quarantine ----

  datatype Source = Incidents | Signals | HealthTable | Clusters

  /** The handler holds evidence from this table. */
  predicate Has(hd: Handler, src: Source) {
    match src
    case Incidents => hd.seen.incident.Some?
    case Signals => hd.seen.signals.Some?
    case HealthTable => hd.seen.health.Some?
    case Clusters => hd.seen.clusterRevision.Some?
  }

  /** The evidence the handler holds is what the table says in this state. */
  ghost predicate Matches(s: State, hd: Handler, src: Source) {
    match src
    case Incidents =>
      AskedIncident(hd).Some? && hd.seen.incident == Some(Lookup(s.world.incidents, AskedIncident(hd).value))
    case Signals => hd.seen.signals == Some(s.world.signals)
    case HealthTable => hd.seen.health == Some(Lookup(s.world.health, hd.row.target))
    case Clusters =>
      hd.row.cluster in s.world.clusters && hd.seen.clusterRevision == Some(s.world.clusters[hd.row.cluster])
  }

  predicate SameTask(a: Handler, b: Handler) {
    a.id == b.id && a.call == b.call && a.row == b.row
  }

  predicate SameNote(a: Handler, b: Handler, src: Source) {
    match src
    case Incidents => a.seen.incident == b.seen.incident
    case Signals => a.seen.signals == b.seen.signals
    case HealthTable => a.seen.health == b.seen.health
    case Clusters => a.seen.clusterRevision == b.seen.clusterRevision
  }

  ghost predicate Unmoved(s: State, h: nat) {
    h in s.handlers && s.handlers[h].id in s.rows && s.rows[s.handlers[h].id].revision == s.handlers[h].row.revision
  }

  /** A commit cannot bring back a revision: a row unmoved after it was unmoved before. */
  lemma CommitBack(s: State, step: Step, s': State, h: nat)
    requires Inv(s) && step.Commit? && Enabled(s, step) && s' == After(s, step) && Unmoved(s', h)
    ensures h in s.handlers && s.handlers[h] == s'.handlers[h] && Unmoved(s, h)
  {
    CommitWrites(s, step.h, step.revision);
    assert HandlerOk(s, s.handlers[h]);
  }

  lemma TaskBack(s: State, step: Step, s': State, h: nat)
    requires Inv(s) && Enabled(s, step) && s' == After(s, step) && Unmoved(s', h) && h in s.handlers
    ensures SameTask(s.handlers[h], s'.handlers[h]) && Unmoved(s, h)
  {
    if step.Commit? {
      CommitBack(s, step, s', h);
    } else {
      assert HandlerOk(s, s.handlers[h]);
    }
  }

  lemma NoteBack(s: State, step: Step, h: nat, src: Source)
    requires Enabled(s, step) && !step.Commit? && h in After(s, step).handlers && Has(After(s, step).handlers[h], src)
    ensures h in s.handlers
    ensures Matches(s, After(s, step).handlers[h], src) || SameNote(s.handlers[h], After(s, step).handlers[h], src)
  {
  }

  /** Going one step back from a handler whose row is unmoved: it was there with its row unmoved, and evidence it
      holds it held before or has just read. */
  lemma StepBack(s: State, step: Step, s': State, h: nat, src: Source)
    requires Inv(s) && Enabled(s, step) && s' == After(s, step) && Unmoved(s', h) && Has(s'.handlers[h], src)
    ensures h in s.handlers && SameTask(s.handlers[h], s'.handlers[h]) && Unmoved(s, h)
    ensures Matches(s, s'.handlers[h], src) || SameNote(s.handlers[h], s'.handlers[h], src)
  {
    if step.Commit? {
      CommitBack(s, step, s', h);
    } else {
      NoteBack(s, step, h, src);
      TaskBack(s, step, s', h);
    }
  }

  lemma EvidenceStep(r: Run, n: nat, h: nat, src: Source)
    requires IsRun(r) && n < |r.states| && Unmoved(r.states[n], h) && Has(r.states[n].handlers[h], src)
    ensures n > 0 && Unmoved(r.states[n - 1], h)
    ensures var hd, s := r.states[n].handlers[h], r.states[n - 1];
            && SameTask(s.handlers[h], hd) && s.rows[hd.id] == hd.row
            && (Matches(s, hd, src) || SameNote(s.handlers[h], hd, src))
  {
    assert n > 0;
    assert StepAt(r, n - 1);
    GatesHoldInEveryState(r, n - 1);
    StepBack(r.states[n - 1], r.steps[n - 1], r.states[n], h, src);
    assert HandlerOk(r.states[n - 1], r.states[n - 1].handlers[h]);
  }

  /** Evidence held by a handler whose row is unmoved was true of its table at some earlier moment, with the row as
      it is now. */
  lemma {:induction false} EvidenceWasTrue(r: Run, n: nat, h: nat, src: Source) returns (k: nat)
    requires IsRun(r) && n < |r.states| && Unmoved(r.states[n], h) && Has(r.states[n].handlers[h], src)
    ensures k < n && Matches(r.states[k], r.states[n].handlers[h], src)
    ensures var hd := r.states[n].handlers[h]; hd.id in r.states[k].rows && r.states[k].rows[hd.id] == hd.row
  {
    EvidenceStep(r, n, h, src);
    if Matches(r.states[n - 1], r.states[n].handlers[h], src) {
      k := n - 1;
    } else {
      k := EvidenceWasTrue(r, n - 1, h, src);
    }
  }

  ghost predicate ClosedAt(s: State, incident: string, host: string) {
    incident in s.world.incidents && s.world.incidents[incident].closed
    && s.world.incidents[incident].host == Some(host)
  }

  ghost predicate FreshHealthyAt(s: State, target: string, host: string, isolation: string) {
    && target in s.world.health && s.world.health[target].host == host
    && s.world.health[target].status == Healthy && s.world.health[target].revision != isolation
  }

  ghost predicate RowAt(s: State, id: string, row: Row) {
    id in s.rows && s.rows[id] == row
  }

  /** While the row stood as it is, its incident was closed, its host had no unended critical firing signal, and a
      health snapshot of the same host, newer than the isolation, was healthy; each at some moment up to step `i`. */
  ghost predicate RecoverySeen(r: Run, i: nat, id: string, row: Row)
    requires i < |r.states|
  {
    row.progress.incident.Some? && row.progress.isolation.Some? &&
    exists a, b, c, host ::
      && 0 <= a <= i && RowAt(r.states[a], id, row) && ClosedAt(r.states[a], row.progress.incident.value, host)
      && 0 <= b <= i && RowAt(r.states[b], id, row) && !HostFiring(r.states[b].world.signals, host)
      && 0 <= c <= i && RowAt(r.states[c], id, row)
      && FreshHealthyAt(r.states[c], row.target, host, row.progress.isolation.value)
  }

  /** A committed write is exactly what its handler decided on the row it read, and the database admitted it. */
  lemma WriteDecided(r: Run, i: nat, id: string)
    requires IsRun(r) && i < |r.steps| && WriteAt(r, i, id)
    ensures var hd, revision := r.states[i].handlers[r.steps[i].h], r.steps[i].revision;
            && Decide(hd, revision).Write?
            && r.states[i + 1].rows[id] == Apply(r.states[i].rows[id], Decide(hd, revision).patch)
            && GuardAdmits(r.states[i].world, r.states[i].results, id, r.states[i].rows[id], Decide(hd, revision).patch)
  {
    GatesHoldInEveryState(r, i);
    assert StepAt(r, i);
    var s, step := r.states[i], r.steps[i];
    assert s.rows[id].revision in s.revisions;
    assert Effective(s, step.h, step.revision);
  }

  /** A step that releases or activates a linked enrollment finds it recovered at that very moment, and one that
      activates it finds every required qualification check cleared. */
  lemma RecoveredAtCommit(r: Run, i: nat, id: string)
    requires IsRun(r) && i < |r.steps| && WriteAt(r, i, id) && r.states[i].rows[id].progress.incident.Some?
    requires var row, next := r.states[i].rows[id].lifecycle, r.states[i + 1].rows[id].lifecycle;
             (row == Quarantined && next == Commissioning) || (row != Active && next == Active)
    ensures RecoveredIn(r.states[i].world, r.states[i].rows[id])
    ensures var world, row := r.states[i].world, r.states[i].rows[id];
            && row.progress.incident.value in world.incidents && world.incidents[row.progress.incident.value].closed
            && row.target in world.health && world.health[row.target].status == Healthy
            && Some(world.health[row.target].revision) != row.progress.isolation && row.progress.isolation.Some?
            && world.incidents[row.progress.incident.value].host == Some(world.health[row.target].host)
            && forall s :: s in world.signals && s.host == world.health[row.target].host ==>
                             !s.critical || !s.firing || s.ended
    ensures r.states[i + 1].rows[id].lifecycle == Active ==>
              QualifiedIn(r.states[i].results, id, r.states[i + 1].rows[id])
  {
    WriteDecided(r, i, id);
  }

  /** A qualification result of this check, of the row's cycle. */
  predicate ResultOf(q: Stored, id: string, row: Row, check: string) {
    q == Stored(id, G.Qualification, G.Result(check, q.result.outcome, q.result.observedAt))
    && row.cycleStart <= q.result.observedAt
  }

  /** No such result is newer than the one stored at `i`, which is a pass, a warning or not applicable. */
  predicate ClearedAt(results: seq<Stored>, id: string, row: Row, check: string, i: int) {
    && 0 <= i < |results| && ResultOf(results[i], id, row, check)
    && (results[i].result.outcome.Pass? || results[i].result.outcome.Warn? || results[i].result.outcome.NotApplicable?)
    && forall j :: 0 <= j < |results| && ResultOf(results[j], id, row, check) ==>
                     results[j].result.observedAt <= results[i].result.observedAt
  }

  /** What it is for a required qualification check to be cleared, by the stored results. */
  lemma ClearsExactly(results: seq<Stored>, id: string, row: Row, check: string)
    ensures ClearsNow(results, id, row, check) <==> exists i :: ClearedAt(results, id, row, check, i)
  {
    assert forall q :: Concerns(q, id, row, check) <==> ResultOf(q, id, row, check);
    if ClearsNow(results, id, row, check) {
      var q :| q in results && Concerns(q, id, row, check) && !G.Blocking(Some(q.result.outcome))
               && forall p :: p in results && Concerns(p, id, row, check) ==>
                                p.result.observedAt <= q.result.observedAt;
      var i :| 0 <= i < |results| && results[i] == q;
      assert ClearedAt(results, id, row, check, i);
    }
    if i :| ClearedAt(results, id, row, check, i) {
      assert results[i] in results;
    }
  }

  lemma ReleaseSawRecovery(r: Run, i: nat, id: string)
    requires IsRun(r) && i < |r.steps| && WriteAt(r, i, id)
    requires var row, hd := r.states[i].rows[id], r.states[i].handlers[r.steps[i].h];
             row.progress.incident.Some? && row.progress.isolation.Some? && hd.call.Transition?
             && hd.call.req.incident.None?
             && Recovery(row.progress.isolation.value, hd.seen).Some?
    ensures RecoverySeen(r, i, id, r.states[i].rows[id])
  {
    var row, h := r.states[i].rows[id], r.steps[i].h;
    var hd := r.states[i].handlers[h];
    var a := EvidenceWasTrue(r, i, h, Incidents);
    var b := EvidenceWasTrue(r, i, h, Signals);
    var c := EvidenceWasTrue(r, i, h, HealthTable);
    var host := hd.seen.incident.value.value.host.value;
    assert RowAt(r.states[a], id, row) && ClosedAt(r.states[a], row.progress.incident.value, host);
    assert RowAt(r.states[b], id, row) && !HostFiring(r.states[b].world.signals, host);
    assert RowAt(r.states[c], id, row) && FreshHealthyAt(r.states[c], row.target, host, row.progress.isolation.value);
  }

  /** No operation erases the incident link while quarantined; the only exits are retirement and a release that saw
      recovery. */
  lemma LinkedQuarantineExit(r: Run, i: nat, id: string)
    requires IsRun(r) && i < |r.steps| && id in r.states[i].rows
    requires r.states[i].rows[id].lifecycle == Quarantined && r.states[i].rows[id].progress.incident.Some?
    ensures id in r.states[i + 1].rows
    ensures var row, next := r.states[i].rows[id], r.states[i + 1].rows[id];
            || (next.lifecycle == Quarantined && next.progress == row.progress)
            || next.lifecycle == Retired
            || (next.lifecycle == Commissioning && RecoverySeen(r, i, id, row) && RecoveredIn(r.states[i].world, row))
  {
    RowStep(r, i, id);
    if WriteAt(r, i, id) && r.states[i + 1].rows[id].lifecycle == Commissioning {
      ReleaseSawRecovery(r, i, id);
      RecoveredAtCommit(r, i, id);
    }
  }

  /** Over a whole stretch of a run: the link stands until a step that retires the server or saw recovery. */
  lemma {:induction false} LinkStandsUntilRecovery(r: Run, i: nat, j: nat, id: string) returns (m: nat)
    requires IsRun(r) && i <= j < |r.states| && id in r.states[i].rows
    requires r.states[i].rows[id].lifecycle == Quarantined && r.states[i].rows[id].progress.incident.Some?
    ensures i <= m <= j
    ensures forall k :: i <= k <= m ==>
              && id in r.states[k].rows && r.states[k].rows[id].lifecycle == Quarantined
              && r.states[k].rows[id].progress == r.states[i].rows[id].progress
    ensures m < j ==> id in r.states[m + 1].rows
                      && (r.states[m + 1].rows[id].lifecycle == Retired
                          || (&& r.states[m + 1].rows[id].lifecycle == Commissioning
                              && RecoverySeen(r, m, id, r.states[m].rows[id])
                              && RecoveredIn(r.states[m].world, r.states[m].rows[id])))
  {
    if i == j {
      m := i;
    } else {
      m := LinkStandsUntilRecovery(r, i, j - 1, id);
      if m == j - 1 {
        LinkedQuarantineExit(r, m, id);
        if r.states[j].rows[id].lifecycle == Quarantined {
          m := j;
        }
      }
    }
  }
}
