/** Monitoring repair and its rollback, against a remote that may fail, lie idle or change by itself at any time.

    The log holds every command sent and every answer received; what the remote answers may depend on all of it in
    any way. */
module Monitoring {
  import opened Text
  import P = Profiles
  import opened Database

  /** A monitoring read, which answers nothing when it fails or cannot be parsed, or a change command. */
  datatype Event = Read(answer: Option<bool>) | Change(enable: bool, accepted: bool)

  datatype Action = Repair | Rollback

  datatype Observed = Succeeded | Failed | Indeterminate

  /** A recorded operation outcome. */
  datatype Outcome = Outcome(action: Action, before: P.Json, after: P.Json, observed: Observed)

  datatype Response =
    | Error
    | Unchanged
    | Recovered(attempts: nat)
    | RolledBack(attempts: nat)
    | SafeStopped(attempts: nat)

  /** Everything outside: how the remote and the database answer after a given log. */
  datatype World = World(
    answer: seq<Event> -> Option<bool>,
    accept: seq<Event> -> bool,
    write: seq<Event> -> Write,
    prepare: seq<Event> -> bool,
    clear: seq<Event> -> bool)

  // ---- States as recorded ----

  const MONITORING := "monitoring"
  const PREDICATE := "predicate_met"

  /** `monitoring_state_json`. */
  function StateJson(enabled: bool): P.Json {
    P.Obj(map[MONITORING := P.Str(if enabled then "enabled" else "disabled"), PREDICATE := P.Bool(true)])
  }

  const UNKNOWN := P.Obj(map[MONITORING := P.Str("unknown"), PREDICATE := P.Bool(false)])

  /** `monitoring_enabled_from_json`. */
  function EnabledFromJson(j: P.Json): Option<bool> {
    if !j.Obj? || MONITORING !in j.fields then None
    else if j.fields[MONITORING] == P.Str("enabled") then Some(true)
    else if j.fields[MONITORING] == P.Str("disabled") then Some(false)
    else None
  }

  lemma StateRoundTrip(enabled: bool)
    ensures EnabledFromJson(StateJson(enabled)) == Some(enabled)
    ensures EnabledFromJson(UNKNOWN) == None
  {
    assert MONITORING[0] != PREDICATE[0];
    assert "enabled"[0] != "disabled"[0] && "unknown"[0] != "enabled"[0] && "unknown"[0] != "disabled"[0];
  }

  // ---- What a log says ----

  /** The change commands sent, in order. */
  function Commands(log: seq<Event>): seq<bool> {
    if log == [] then []
    else
      var n := |log| - 1;
      Commands(log[..n]) + if log[n].Change? then [log[n].enable] else []
  }

  /** The answer to the last read. */
  function LastRead(log: seq<Event>): Option<bool> {
    if log == [] then None
    else
      var n := |log| - 1;
      if log[n].Read? then log[n].answer else LastRead(log[..n])
  }

  lemma OneMoreEvent(log: seq<Event>, e: Event)
    ensures Commands(log + [e]) == Commands(log) + if e.Change? then [e.enable] else []
    ensures LastRead(log + [e]) == if e.Read? then e.answer else LastRead(log)
  {
    assert (log + [e])[..|log|] == log;
  }

  /** Succeeded and failed operations have told the truth: the recorded after-state is the last one read. */
  predicate Truthful(o: Outcome, log: seq<Event>) {
    o.observed != Indeterminate ==> LastRead(log).Some? && o.after == StateJson(LastRead(log).value)
  }

  /** The before-state recorded for an operation is what the read at this place of the log answered. */
  predicate ReadBefore(log: seq<Event>, outcomes: map<string, Outcome>, id: string, at: int) {
    && 0 <= at < |log| && id in outcomes && log[at].Read? && log[at].answer.Some?
    && outcomes[id].before == StateJson(log[at].answer.value)
  }

  /** From this place on, nothing follows a read that answered so. */
  predicate StopsOn(log: seq<Event>, start: int, answer: Option<bool>) {
    forall i :: 0 <= start <= i < |log| - 1 ==> log[i] != Read(answer)
  }

  lemma StopsOnFromBefore(log: seq<Event>, start: int, answer: Option<bool>)
    requires 0 <= start < |log| && log[start] != Read(answer) && StopsOn(log, start + 1, answer)
    ensures StopsOn(log, start, answer)
  {
  }

  /** The commands sent by a repair that ended so: after an error, a part of those of a safe stop. */
  predicate SentBy(r: Response, before: seq<bool>, after: seq<bool>) {
    || after == before + RepairCommands(r)
    || (r == Error && exists n :: 0 <= n <= 3 && after == before + SafeStopCommands()[..n])
  }

  lemma NothingSent(r: Response, sent: seq<bool>)
    requires r == Error || r == Unchanged
    ensures SentBy(r, sent, sent)
  {
    assert sent + [] == sent;
  }

  /** The database serves every request. */
  ghost predicate Serving(world: World) {
    forall log :: world.write(log) == Done && world.prepare(log) && world.clear(log)
  }

  /** The log ends with an accepted command and a read that saw it done. */
  predicate EndsSeen(log: seq<Event>, enable: bool) {
    |log| >= 2 && log[|log| - 2] == Change(enable, true) && log[|log| - 1] == Read(Some(enable))
  }

  /** What a repair that answered so has recorded: a success last saw monitoring enabled, a failure saw it disabled
      again, and in any other case the state after is unknown. */
  predicate RepairRecord(o: Outcome, log: seq<Event>, r: Response) {
    && o.action == Repair && Truthful(o, log)
    && (o.observed == Succeeded ==> LastRead(log) == Some(true))
    && (o.observed == Failed ==> LastRead(log) == Some(false) && o.before == StateJson(false))
    && (o.observed == Indeterminate ==> o.after == UNKNOWN)
    && (r == Unchanged || r.Recovered? ==> o.observed == Succeeded)
    && (r.SafeStopped? ==> o.observed == if EndsSeen(log, false) then Failed else Indeterminate)
  }

  /** How a repair can answer. */
  predicate RepairAnswer(r: Response, log: seq<Event>) {
    || r == Error
    || r == Unchanged
    || ((r == Recovered(1) || r == Recovered(2)) && EndsSeen(log, true))
    || r == SafeStopped(2)
  }

  /** A recorded success can be read back. */
  lemma RepairReversible(outcomes: map<string, Outcome>, id: string, before: bool, log: seq<Event>, r: Response)
    requires id in outcomes && RepairRecord(outcomes[id], log, r) && outcomes[id].before == StateJson(before)
    ensures outcomes[id].observed == Succeeded ==> Reversible(outcomes, id)
  {
    StateRoundTrip(before);
    StateRoundTrip(true);
  }

  class Operations {
    const world: World
    var log: seq<Event>
    var outcomes: map<string, Outcome>

    constructor (world: World)
      ensures this.world == world && log == [] && outcomes == map[]
    {
      this.world, log, outcomes := world, [], map[];
    }

    method ReadState() returns (answer: Option<bool>)
      modifies this`log
      ensures log == old(log) + [Read(answer)]
      ensures Commands(log) == Commands(old(log)) && LastRead(log) == answer
    {
      answer := world.answer(log);
      OneMoreEvent(log, Read(answer));
      log := log + [Read(answer)];
    }

    method SetState(enable: bool) returns (ok: bool)
      modifies this`log
      ensures log == old(log) + [Change(enable, ok)]
      ensures Commands(log) == Commands(old(log)) + [enable] && LastRead(log) == LastRead(old(log))
    {
      ok := world.accept(log);
      OneMoreEvent(log, Change(enable, ok));
      log := log + [Change(enable, ok)];
    }

    /** One attempt: a change command, and a read that must see it. */
    method Attempt(enable: bool) returns (seen: bool)
      modifies this`log
      ensures old(log) < log && Commands(log) == Commands(old(log)) + [enable]
      ensures seen <==> EndsSeen(log, enable)
      ensures seen ==> log == old(log) + [Change(enable, true), Read(Some(enable))]
      ensures seen ==> LastRead(log) == Some(enable)
      ensures !seen ==> log == old(log) + [Change(enable, false)]
                        || (LastRead(log) != Some(enable) && log == old(log) + [Change(enable, true),
                                                                                Read(LastRead(log))])
    {
      seen := SetState(enable);
      if seen {
        var answer := ReadState();
        seen := answer == Some(enable);
      }
    }

    /** `record_monitoring_outcome`. */
    method Record(id: string, o: Outcome) returns (ok: bool)
      modifies this`outcomes
      ensures outcomes == old(outcomes) || outcomes == old(outcomes)[id := o]
      ensures ok ==> outcomes == old(outcomes)[id := o]
      ensures Serving(world) ==> ok
    {
      var write := world.write(log);
      if write != Dropped {
        outcomes := outcomes[id := o];
      }
      ok := write == Done;
    }

    /** `monitoring_repair`, under a new operation id. At most three change commands go out: enable, enable again,
        and then disable to put the original state back. What its first read answered is recorded as the state
        before. */
    method MonitoringRepair(id: string) returns (r: Response)
      requires id !in outcomes
      modifies this
      ensures old(log) < log && (id in outcomes ==> ReadBefore(log, outcomes, id, |old(log)|))
      ensures Serving(world) && log[|old(log)|] != Read(None) ==> r != Error
      ensures outcomes == old(outcomes) || (id in outcomes && outcomes == old(outcomes)[id := outcomes[id]])
      ensures r != Error ==> id in outcomes
      ensures id in outcomes ==> RepairRecord(outcomes[id], log, r)
      ensures id in outcomes && outcomes[id].observed == Succeeded ==> Reversible(outcomes, id)
      ensures RepairAnswer(r, log) && SentBy(r, Commands(old(log)), Commands(log))
      ensures StopsOn(log, |old(log)|, Some(true))
    {
      var before := ReadState();
      if before.None? || !world.prepare(log) {
        NothingSent(Error, Commands(log));
        return Error;
      }
      if before.value {
        r := ConfirmEnabled(id);
        NothingSent(r, Commands(log));
      } else {
        r := RepairDisabled(id);
        StopsOnFromBefore(log, |old(log)|, Some(true));
      }
      if id in outcomes {
        RepairReversible(outcomes, id, before.value, log, r);
      }
    }

    /** Monitoring was seen enabled: that is recorded, and nothing is sent. */
    method ConfirmEnabled(id: string) returns (r: Response)
      requires id !in outcomes
      modifies this`outcomes
      ensures outcomes == old(outcomes)
              || outcomes == old(outcomes)[id := Outcome(Repair, StateJson(true), StateJson(true), Succeeded)]
      ensures r == Error || (r == Unchanged && id in outcomes)
      ensures Serving(world) ==> r != Error
    {
      var ok := Record(id, Outcome(Repair, StateJson(true), StateJson(true), Succeeded));
      r := if !ok || !world.clear(log) then Error else Unchanged;
    }

    /** The rest of the repair, once monitoring was seen disabled. */
    method RepairDisabled(id: string) returns (r: Response)
      requires id !in outcomes
      modifies this
      ensures old(log) <= log && StopsOn(log, |old(log)|, Some(true)) && RepairAnswer(r, log)
      ensures Serving(world) ==> r != Error
      ensures outcomes == old(outcomes) || (id in outcomes && outcomes == old(outcomes)[id := outcomes[id]])
      ensures r != Error ==> id in outcomes
      ensures id in outcomes ==> RepairRecord(outcomes[id], log, r) && outcomes[id].before == StateJson(false)
      ensures SentBy(r, Commands(old(log)), Commands(log))
    {
      var attempts := 0;
      while attempts < 2
        invariant 0 <= attempts <= 2 && outcomes == old(outcomes) && old(log) <= log
        invariant forall i :: |old(log)| <= i < |log| ==> log[i] != Read(Some(true))
        invariant Commands(log) == Commands(old(log)) + SafeStopCommands()[..attempts]
      {
        attempts := attempts + 1;
        var seen := Attempt(true);
        assert SafeStopCommands()[..attempts] == SafeStopCommands()[..attempts - 1] + [true];
        if seen {
          var ok := Record(id, Outcome(Repair, StateJson(false), StateJson(true), Succeeded));
          assert SafeStopCommands()[..attempts] == RepairCommands(Recovered(attempts));
          return if !ok || !world.clear(log) then Error else Recovered(attempts);
        }
      }
      r := PutBack(id);
      assert SafeStopCommands()[..2] + [false] == SafeStopCommands() == SafeStopCommands()[..3];
    }

    /** After two failed attempts: one command to disable again, and the end of the repair is recorded. */
    method PutBack(id: string) returns (r: Response)
      requires id !in outcomes
      modifies this
      ensures Commands(log) == Commands(old(log)) + [false] && |old(log)| < |log| <= |old(log)| + 2
      ensures old(log) < log && !log[|old(log)|].Read?
      ensures r == Error || (r == SafeStopped(2) && id in outcomes)
      ensures Serving(world) ==> r != Error
      ensures outcomes == old(outcomes)
              || outcomes == old(outcomes)[id := if EndsSeen(log, false)
                                                 then Outcome(Repair, StateJson(false), StateJson(false), Failed)
                                                 else Outcome(Repair, StateJson(false), UNKNOWN, Indeterminate)]
      ensures EndsSeen(log, false) ==> LastRead(log) == Some(false)
    {
      var restored := Attempt(false);
      var after, observed := if restored then StateJson(false) else UNKNOWN, if restored then Failed else Indeterminate;
      var ok := Record(id, Outcome(Repair, StateJson(false), after, observed));
      r := if ok then SafeStopped(2) else Error;
    }

    /** `monitoring_rollback` of a recorded operation, under a new operation id. A success last read what the repair
        had read first, whatever happened in between. */
    method MonitoringRollback(source: string, id: string) returns (r: Response)
      requires id !in outcomes
      modifies this
      ensures old(log) <= log && (id in outcomes ==> ReadBefore(log, outcomes, id, |old(log)|))
      ensures Serving(world) && Reversible(old(outcomes), source) && |old(log)| < |log| && log[|old(log)|] != Read(None)
              ==> r != Error
      ensures id in outcomes && outcomes[id].observed == Succeeded ==>
                forall at :: ReadBefore(old(log), old(outcomes), source, at) ==> LastRead(log) == old(log)[at].answer
      ensures outcomes == old(outcomes) || (id in outcomes && outcomes == old(outcomes)[id := outcomes[id]])
      ensures r != Error ==> id in outcomes
      ensures !Reversible(old(outcomes), source) ==> r == Error && log == old(log) && outcomes == old(outcomes)
      ensures id in outcomes ==>
                Reversible(old(outcomes), source) && outcomes[id].action == Rollback && Truthful(outcomes[id], log)
      ensures id in outcomes && outcomes[id].observed == Succeeded ==>
                LastRead(log).Some? && LastRead(log) == EnabledFromJson(old(outcomes)[source].before)
      ensures Reversible(old(outcomes), source) ==> old(log) < log
      ensures Reversible(old(outcomes), source) && old(log) < log && Moved(old(outcomes)[source], log[|old(log)|]) ==>
                log == old(log) + [log[|old(log)|]] && r in {Error, SafeStopped(0)}
                && (id in outcomes ==> outcomes[id].observed == Failed)
      ensures exists n, b :: 0 <= n <= 2 && Commands(log) == Commands(old(log)) + Repeated(n, b)
                             && (n > 0 ==>
                                   && source in old(outcomes)
                                   && EnabledFromJson(old(outcomes)[source].before) == Some(b))
      ensures r.RolledBack? ==> outcomes[id].observed == Succeeded
      ensures source in old(outcomes) ==>
                StopsOn(log, |old(log)| + 1, EnabledFromJson(old(outcomes)[source].before))
      ensures r.RolledBack? || (r.SafeStopped? && r.attempts > 0) ==>
                && 1 <= r.attempts <= 2 && EnabledFromJson(old(outcomes)[source].before).Some?
                && Commands(log) == Commands(old(log))
                                    + Repeated(r.attempts, EnabledFromJson(old(outcomes)[source].before).value)
      ensures r.SafeStopped? && r.attempts > 0 ==>
                r.attempts == 2 && outcomes[id].observed == Indeterminate && outcomes[id].after == UNKNOWN
    {
      StateRoundTrip(true);
      StateRoundTrip(false);
      if source !in outcomes || outcomes[source].action != Repair || outcomes[source].observed != Succeeded {
        assert Commands(log) == Commands(old(log)) + Repeated(0, true);
        return Error;
      }
      var repair := outcomes[source];
      var before, applied := EnabledFromJson(repair.before), EnabledFromJson(repair.after);
      if before.None? || applied.None? {
        assert Commands(log) == Commands(old(log)) + Repeated(0, true);
        return Error;
      }
      var current := ReadState();
      assert Commands(log) == Commands(old(log)) + Repeated(0, true);
      if current.None? {
        return Error;
      }
      if current != applied {
        var state := StateJson(current.value);
        var ok := Record(id, Outcome(Rollback, state, state, Failed));
        return if ok then SafeStopped(0) else Error;
      }
      r := Restore(id, before.value, current.value);
    }

    /** The rest of the rollback, once the state is known not to have moved. */
    method Restore(id: string, before: bool, current: bool) returns (r: Response)
      requires id !in outcomes
      modifies this
      ensures old(log) < log && (id in outcomes ==> outcomes[id].before == StateJson(current))
      ensures outcomes == old(outcomes) || (id in outcomes && outcomes == old(outcomes)[id := outcomes[id]])
      ensures r != Error ==> id in outcomes
      ensures id in outcomes ==>
                outcomes[id].action == Rollback && Truthful(outcomes[id], log) && outcomes[id].observed != Failed
      ensures id in outcomes && outcomes[id].observed == Succeeded ==> LastRead(log) == Some(before)
      ensures exists n :: 0 <= n <= 2 && Commands(log) == Commands(old(log)) + Repeated(n, before)
      ensures r.RolledBack? ==> outcomes[id].observed == Succeeded
      ensures StopsOn(log, |old(log)|, Some(before)) && r in {Error, RolledBack(1), RolledBack(2), SafeStopped(2)}
      ensures r != Error ==> Commands(log) == Commands(old(log)) + Repeated(r.attempts, before)
      ensures Serving(world) ==> r != Error
      ensures r == SafeStopped(2) ==> outcomes[id].observed == Indeterminate && outcomes[id].after == UNKNOWN
    {
      var attempts, restored := 0, false;
      ghost var start := log;
      while attempts < 2 && !restored
        invariant 0 <= attempts <= 2 && start <= log && (attempts > 0 ==> |start| < |log|)
        invariant Commands(log) == Commands(start) + Repeated(attempts, before)
        invariant restored ==> attempts > 0 && LastRead(log) == Some(before)
        invariant forall i :: |start| <= i < |log| - 1 ==> log[i] != Read(Some(before))
        invariant !restored ==> |log| == |start| || log[|log| - 1] != Read(Some(before))
        invariant outcomes == old(outcomes)
        decreases 2 - attempts
      {
        attempts := attempts + 1;
        restored := Attempt(before);
      }
      var after, observed := if restored then StateJson(before)
        else UNKNOWN, if restored then Succeeded else Indeterminate;
      var ok := Record(id, Outcome(Rollback, StateJson(current), after, observed));
      r := if !ok then Error else if restored then RolledBack(attempts) else SafeStopped(attempts);
    }
  }

  function SafeStopCommands(): seq<bool> {
    [true, true, false]
  }

  /** The change commands behind each way a repair ends. */
  function RepairCommands(r: Response): seq<bool> {
    match r
    case Recovered(n) => Repeated(n, true)
    case SafeStopped(_) => SafeStopCommands()
    case _ => []
  }

  function Repeated(n: nat, b: bool): (s: seq<bool>)
    ensures |s| == n && forall i :: 0 <= i < n ==> s[i] == b
  {
    if n == 0 then [] else Repeated(n - 1, b) + [b]
  }

  /** A recorded, verified repair whose states can be read back. */
  predicate Reversible(outcomes: map<string, Outcome>, source: string) {
    && source in outcomes && outcomes[source].action == Repair && outcomes[source].observed == Succeeded
    && EnabledFromJson(outcomes[source].before).Some? && EnabledFromJson(outcomes[source].after).Some?
  }

  /** The first read of a rollback saw another state than the repair left. */
  predicate Moved(repair: Outcome, first: Event) {
    first.Read? && first.answer.Some? && first.answer != EnabledFromJson(repair.after)
  }
}
