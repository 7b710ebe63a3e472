/** The handlers' own sections over the stored tables: each method is the stretch of a handler between two broker
    calls. It makes its step of `EnrollmentRuns`, keeps the invariant of all runs, and says what the handler may
    rely on. */
module EnrollmentTable {
  import opened Text
  import opened Enrollment
  import opened EnrollmentRuns
  import G = Gates

  class Tables {
    var rows: map<string, Row>
    var results: seq<Stored>
    var handlers: map<nat, Handler>
    ghost var started: set<nat>
    var world: World
    var now: int
    ghost var revisions: set<nat>

    ghost function Now(): State
      reads this
    {
      State(rows, results, handlers, started, world, now, revisions)
    }

    constructor (world: World, now: int)
      ensures Initial(Now()) && Inv(Now())
    {
      rows, results, handlers, started, revisions := map[], [], map[], {}, {};
      this.world, this.now := world, now;
    }

    /** `load_enrollment`, at the start of every handler: it holds the stored row, which keeps the gate invariant. */
    method Load(h: nat, id: string, call: Call)
      requires Inv(Now()) && Enabled(Now(), Begin(h, id, call))
      modifies this
      ensures Inv(Now()) && Now() == After(old(Now()), Begin(h, id, call))
      ensures h in handlers && handlers[h].row == rows[id] && RowOk(handlers[h].row) && rows == old(rows)
    {
      StepKeepsInv(Now(), Begin(h, id, call));
      handlers := handlers[h := Handler(id, call, rows[id], now, NOTHING_SEEN, None, false, None)];
      started := started + {h};
    }

    method ReadIncident(h: nat)
      requires Inv(Now()) && Enabled(Now(), SeeIncident(h))
      modifies this
      ensures Inv(Now()) && Now() == After(old(Now()), SeeIncident(h))
      ensures h in handlers && Matches(Now(), handlers[h], Incidents)
    {
      StepKeepsInv(Now(), SeeIncident(h));
      var hd := handlers[h];
      var id := AskedIncident(hd).value;
      var found := if id in world.incidents then Some(world.incidents[id]) else None;
      handlers := handlers[h := hd.(seen := hd.seen.(incident := Some(found)))];
    }

    method ReadSignals(h: nat)
      requires Inv(Now()) && Enabled(Now(), SeeSignals(h))
      modifies this
      ensures Inv(Now()) && Now() == After(old(Now()), SeeSignals(h))
      ensures h in handlers && Matches(Now(), handlers[h], Signals)
    {
      StepKeepsInv(Now(), SeeSignals(h));
      var hd := handlers[h];
      handlers := handlers[h := hd.(seen := hd.seen.(signals := Some(world.signals)))];
    }

    method ReadHealth(h: nat)
      requires Inv(Now()) && Enabled(Now(), SeeHealth(h))
      modifies this
      ensures Inv(Now()) && Now() == After(old(Now()), SeeHealth(h))
      ensures h in handlers && Matches(Now(), handlers[h], HealthTable)
    {
      StepKeepsInv(Now(), SeeHealth(h));
      var hd := handlers[h];
      var found := if hd.row.target in world.health then Some(world.health[hd.row.target]) else None;
      handlers := handlers[h := hd.(seen := hd.seen.(health := Some(found)))];
    }

    method ReadCluster(h: nat)
      requires Inv(Now()) && Enabled(Now(), SeeCluster(h))
      modifies this
      ensures Inv(Now()) && Now() == After(old(Now()), SeeCluster(h))
      ensures h in handlers && Matches(Now(), handlers[h], Clusters)
    {
      StepKeepsInv(Now(), SeeCluster(h));
      var hd := handlers[h];
      handlers := handlers[h := hd.(seen := hd.seen.(clusterRevision := Some(world.clusters[hd.row.cluster])))];
    }

    /** The time a handler writes with is no earlier than the time it read its row, and that no earlier than the
        row's cycle start. */
    method TakeTime(h: nat) returns (t: int)
      requires Inv(Now()) && Enabled(Now(), ReadClock(h))
      modifies this
      ensures Inv(Now()) && Now() == After(old(Now()), ReadClock(h))
      ensures h in handlers && handlers[h].clock == Some(t) && handlers[h].row.cycleStart <= handlers[h].begun <= t
    {
      StepKeepsInv(Now(), ReadClock(h));
      t := now;
      handlers := handlers[h := handlers[h].(clock := Some(t))];
      assert HandlerOk(After(old(Now()), ReadClock(h)), handlers[h]);
    }

    /** The insert of `validation_record`: the result is stored for the enrollment and gate, observed at the time
        the handler took; no earlier result is lost and no row changes. */
    method RecordResult(h: nat)
      requires Inv(Now()) && Enabled(Now(), Record(h))
      modifies this
      ensures Inv(Now()) && Now() == After(old(Now()), Record(h))
      ensures rows == old(rows) && old(results) <= results && |results| == |old(results)| + 1
      ensures h in handlers
              && Stored(handlers[h].id, handlers[h].call.gate,
                        G.Result(handlers[h].call.check, handlers[h].call.outcome, handlers[h].clock.value))
                 in results
      ensures handlers[h].row.cycleStart <= handlers[h].clock.value
    {
      StepKeepsInv(Now(), Record(h));
      assert HandlerOk(Now(), handlers[h]);
      var hd := handlers[h];
      var stored := Stored(hd.id, hd.call.gate, G.Result(hd.call.check, hd.call.outcome, hd.clock.value));
      results := results + [stored];
      handlers := handlers[h := hd.(recorded := true)];
      assert results[|results| - 1] == stored;
    }

    /** The conditional update every handler ends with: it sets columns only where the revision is still the one
        read, and then the row it replaces is exactly the row it was decided on. */
    method CommitIfUnmoved(h: nat, revision: nat) returns (updated: bool)
      requires Inv(Now()) && Enabled(Now(), Commit(h, revision))
      modifies this
      ensures Inv(Now()) && Now() == After(old(Now()), Commit(h, revision))
      ensures updated <==> Effective(old(Now()), h, revision)
      ensures !updated ==> rows == old(rows)
      ensures updated ==>
                var hd := old(handlers)[h];
                && hd.id in old(rows) && hd.row == old(rows)[hd.id] && hd.id in rows && Moves(hd, hd.row, rows[hd.id])
                && rows == old(rows)[hd.id := rows[hd.id]] && rows[hd.id].revision == revision
    {
      ghost var before := Now();
      StepKeepsInv(before, Commit(h, revision));
      CommitWrites(before, h, revision);
      var hd := handlers[h];
      var d := Decide(hd, revision);
      handlers := handlers - {h};
      updated :=
        d.Write? && hd.id in rows && rows[hd.id].revision == hd.row.revision
        && GuardAdmits(world, results, hd.id, rows[hd.id], d.patch);
      if updated {
        rows := rows[hd.id := Apply(rows[hd.id], d.patch)];
        revisions := revisions + {revision};
      }
      assert Now() == After(before, Commit(h, revision));
    }
  }
}
