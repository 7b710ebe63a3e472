/** Evaluations against the stored alerts: `reconcile_telemetry` as a change of the store, and what each evaluation
    does to every stored alert. */
module AlertStore {
  import opened Text
  import opened Alerts

  type Store = map<string, Alert>

  /** One telemetry evaluation of one host. */
  datatype Evaluation = Evaluation(host: string, rules: seq<Rule>, samples: seq<Sample>, now: int)

  function Lookup(store: Store, fp: string): Option<Alert> {
    if fp in store then Some(store[fp]) else None
  }

  predicate Indexed(samples: seq<Sample>) {
    exists s :: s in samples && IndexedXid(s)
  }

  function Conditions(e: Evaluation): seq<Condition> {
    Found(e.host, e.rules, e.samples, Indexed(e.samples))
  }

  function Observed(e: Evaluation): set<string> {
    set s | s in e.samples :: s.metric
  }

  /** The stored alert an evaluation of a host takes into account. */
  function Considered(store: Store, host: string, fp: string): Option<Alert> {
    if fp in store && store[fp].host == host && Telemetry(store[fp].key) then Some(store[fp]) else None
  }

  /** What an evaluation leaves stored under a fingerprint. */
  function Next(store: Store, e: Evaluation, fp: string): Option<Alert> {
    var c, prior := First(Conditions(e), fp), Considered(store, e.host, fp);
    if c.Some? then Some(Project(e.host, c.value, prior, Wait(e.rules, c.value.key), e.now))
    else if prior.Some? && Resolved(prior.value.key, AlertMetric(fp, prior.value.key, e.host), e.rules, Observed(e))
    then None
    else Lookup(store, fp)
  }

  function Touched(store: Store, e: Evaluation): set<string> {
    store.Keys + set c | c in Conditions(e) :: c.fingerprint
  }

  function Evaluate(store: Store, e: Evaluation): Store {
    map fp | fp in Touched(store, e) && Next(store, e, fp).Some? :: Next(store, e, fp).value
  }

  lemma EvaluateLookup(store: Store, e: Evaluation, fp: string)
    ensures Lookup(Evaluate(store, e), fp) == Next(store, e, fp)
  {
    FirstIsListed(Conditions(e), fp);
  }

  lemma EvaluateIs(store: Store, e: Evaluation, after: Store)
    requires forall fp :: Lookup(after, fp) == Next(store, e, fp)
    ensures after == Evaluate(store, e)
  {
    forall fp ensures Lookup(after, fp) == Lookup(Evaluate(store, e), fp) {
      EvaluateLookup(store, e, fp);
    }
    assert forall fp :: fp in after <==> Lookup(after, fp).Some?;
    assert forall fp :: fp in Evaluate(store, e) <==> Lookup(Evaluate(store, e), fp).Some?;
    assert forall fp :: fp in after ==> Lookup(after, fp) == Some(after[fp]);
  }

  const RULE_CEILING := 200
  const ALERT_CEILING := 500

  function HostRows(store: Store, host: string): set<string> {
    set fp | fp in store && store[fp].host == host
  }

  class AlertTable {
    var alerts: Store

    constructor ()
      ensures alerts == map[]
    {
      alerts := map[];
    }

    /** The host's telemetry alerts, read back for evaluation. */
    method ReadPrior(host: string) returns (prior: seq<Prior>)
      ensures forall fp :: PriorOf(prior, fp) == Considered(alerts, host, fp)
      ensures forall p :: p in prior ==> Considered(alerts, host, p.fingerprint) == Some(p.alert)
      ensures forall p :: p in prior ==> p.metric == AlertMetric(p.fingerprint, p.alert.key, host)
      ensures forall fp :: Considered(alerts, host, fp).Some? ==> exists p :: p in prior && p.fingerprint == fp
    {
      var rows := Sorted(HostRows(alerts, host));
      prior := [];
      for i := 0 to |rows|
        invariant forall fp :: PriorOf(prior, fp) == if fp in rows[..i] then Considered(alerts, host, fp) else None
        invariant forall p :: p in prior ==> Considered(alerts, host, p.fingerprint) == Some(p.alert)
        invariant forall p :: p in prior ==> p.metric == AlertMetric(p.fingerprint, p.alert.key, host)
        invariant forall fp :: fp in rows[..i] && Considered(alerts, host, fp).Some? ==>
                    exists p :: p in prior && p.fingerprint == fp
      {
        assert rows[i] in rows && rows[i] in HostRows(alerts, host);
        assert rows[..i + 1] == rows[..i] + [rows[i]];
        var alert := alerts[rows[i]];
        if Telemetry(alert.key) {
          var row := Prior(rows[i], alert, AlertMetric(rows[i], alert.key, host));
          assert (prior + [row])[..|prior|] == prior;
          prior := prior + [row];
        }
      }
      assert rows[..|rows|] == rows;
    }

    /** Writes the alerts of the active conditions, replacing rows with the same fingerprint. */
    method WriteKept(active: seq<Condition>, keep: seq<Alert>)
      requires |keep| == |active| && StrictlyOrdered(active)
      modifies this
      ensures forall i :: 0 <= i < |active| ==> Lookup(alerts, active[i].fingerprint) == Some(keep[i])
      ensures forall fp :: First(active, fp).None? ==> Lookup(alerts, fp) == Lookup(old(alerts), fp)
    {
      for i := 0 to |active|
        invariant forall j :: 0 <= j < i ==> Lookup(alerts, active[j].fingerprint) == Some(keep[j])
        invariant forall fp :: First(active, fp).None? ==> Lookup(alerts, fp) == Lookup(old(alerts), fp)
      {
        StrictlyOrderedFirst(active, i);
        forall j | 0 <= j < i ensures active[j].fingerprint != active[i].fingerprint {
          StrictlyOrderedFirst(active, j);
          StrictlyOrderedPair(active, j, i);
        }
        alerts := alerts[active[i].fingerprint := keep[i]];
      }
    }

    method DeleteResolved(resolved: seq<string>)
      modifies this
      ensures forall fp :: Lookup(alerts, fp) == if fp in resolved then None else Lookup(old(alerts), fp)
    {
      for i := 0 to |resolved|
        invariant forall fp :: Lookup(alerts, fp) == if fp in resolved[..i] then None else Lookup(old(alerts), fp)
      {
        assert resolved[..i + 1] == resolved[..i] + [resolved[i]];
        alerts := alerts - {resolved[i]};
      }
    }

    /** `reconcile_telemetry`. */
    method ReconcileTelemetry(e: Evaluation) returns (ok: bool)
      modifies this
      ensures ok <==> |e.rules| <= 200 && |HostRows(old(alerts), e.host)| <= 500
      ensures alerts == if ok then Evaluate(old(alerts), e) else old(alerts)
    {
      if |e.rules| > RULE_CEILING || |HostRows(alerts, e.host)| > ALERT_CEILING {
        return false;
      }
      ghost var before := alerts;
      var prior := ReadPrior(e.host);
      var active := ActiveConditions(e.host, e.rules, e.samples);
      assert Found(e.host, e.rules, e.samples, exists s :: s in e.samples && IndexedXid(s)) == Conditions(e);
      var keep, resolved := Reconcile(e.host, active, prior, e.rules, Observed(e), e.now);
      WriteKept(active, keep);
      DeleteResolved(resolved);
      forall fp ensures Lookup(alerts, fp) == Next(before, e, fp) {
        FirstIsListed(active, fp);
        if First(active, fp).Some? {
          var i :| 0 <= i < |active| && active[i] == First(active, fp).value;
          assert Lookup(alerts, fp) == Some(keep[i]);
        }
      }
      EvaluateIs(before, e, alerts);
      ok := true;
    }
  }

  lemma {:induction false} StrictlyOrderedPair(cs: seq<Condition>, i: nat, j: nat)
    requires StrictlyOrdered(cs) && i < j < |cs|
    ensures cs[i].fingerprint != cs[j].fingerprint
  {
    if i == 0 {
      StrictlyOrderedDistinct(cs, j);
      NotBelowBack(cs[0].fingerprint, cs[j].fingerprint);
    } else {
      StrictlyOrderedPair(cs[1..], i - 1, j - 1);
    }
  }

  // ---- What is active, said without fingerprints ----

  predicate EvaluationOk(e: Evaluation) {
    NoColon(e.host) && forall r :: r in e.rules ==> Canonical(r.id)
  }

  /** A sample of the metric trips the rule. */
  predicate Tripped(e: Evaluation, key: Key, metric: string) {
    exists s :: s in e.samples && s.metric == metric && TripsKey(e.rules, s, ReportsIndexedXid(e.samples), key)
  }

  /** The condition a sample yields for a fingerprint names that sample's metric and the evaluated host. */
  lemma ConditionNames(host: string, rules: seq<Rule>, s: Sample, indexed: bool, c: Condition)
    requires ConditionOf(host, rules, s, indexed, c)
    ensures Telemetry(c.key) && c.fingerprint == Print(c.key, host, s.metric)
    ensures c.key.MetricRule? ==> exists r :: r in rules && r.id == c.key.id && Breaches(r, s)
    ensures !c.key.MetricRule? ==> HardwareTrips(c.key, s, indexed)
  {
    RuleConditionsListed(host, rules, s, c);
    HardwareListed(host, s, indexed, c);
  }

  lemma RuleMakesCondition(host: string, rules: seq<Rule>, s: Sample, indexed: bool, r: Rule)
    requires r in rules && Breaches(r, s)
    ensures exists c ::
              ConditionOf(host, rules, s, indexed, c) && c.fingerprint == Print(MetricRule(r.id), host, s.metric)
  {
    var c := Condition(Print(MetricRule(r.id), host, s.metric), MetricRule(r.id), ThresholdSeverity(r, s.value).value);
    RuleConditionsListed(host, rules, s, c);
    assert ConditionOf(host, rules, s, indexed, c);
  }

  lemma HardwareMakesCondition(host: string, rules: seq<Rule>, s: Sample, indexed: bool, key: Key)
    requires (key.HardwareEcc? || key.HardwareXid?) && HardwareTrips(key, s, indexed)
    ensures exists c :: ConditionOf(host, rules, s, indexed, c) && c.fingerprint == Print(key, host, s.metric)
  {
    var c := HardwareCondition(host, s, key);
    HardwareListed(host, s, indexed, c);
    assert ConditionOf(host, rules, s, indexed, c);
  }

  /** An active condition under a fingerprint of the evaluated host means exactly that a sample of its metric trips
      its rule. */
  lemma ActiveExactly(e: Evaluation, key: Key, host: string, metric: string)
    requires EvaluationOk(e) && Telemetry(key) && KeyOk(key) && NoColon(host) && OfRule(key, metric)
    ensures First(Conditions(e), Print(key, host, metric)).Some? <==> host == e.host && Tripped(e, key, metric)
    ensures var c := First(Conditions(e), Print(key, host, metric)); c.Some? ==> c.value.key == key
  {
    var fp, indexed := Print(key, host, metric), Indexed(e.samples);
    FirstIsListed(Conditions(e), fp);
    if First(Conditions(e), fp).Some? {
      var c := First(Conditions(e), fp).value;
      FoundListed(e.host, e.rules, e.samples, indexed, c);
      var s :| s in e.samples && ConditionOf(e.host, e.rules, s, indexed, c);
      ConditionNames(e.host, e.rules, s, indexed, c);
      assert KeyOk(c.key);
      PrintInjective(c.key, e.host, s.metric, key, host, metric);
      HardwareRulesNeverMeet(metric);
    }
    if host == e.host && Tripped(e, key, metric) {
      TrippedIsFound(e, key, metric);
    }
  }

  lemma TrippedIsFound(e: Evaluation, key: Key, metric: string)
    requires Telemetry(key) && Tripped(e, key, metric)
    ensures exists c :: c in Conditions(e) && c.fingerprint == Print(key, e.host, metric)
  {
    var indexed := Indexed(e.samples);
    var s: Sample;
    if key.MetricRule? {
      s :| s in e.samples && s.metric == metric && exists r :: r in e.rules && r.id == key.id && Breaches(r, s);
      var r :| r in e.rules && r.id == key.id && Breaches(r, s);
      RuleMakesCondition(e.host, e.rules, s, indexed, r);
    } else {
      s :| s in e.samples && s.metric == metric && HardwareTrips(key, s, indexed);
      HardwareMakesCondition(e.host, e.rules, s, indexed, key);
    }
    var c :| ConditionOf(e.host, e.rules, s, indexed, c) && c.fingerprint == Print(key, e.host, metric);
    FoundListed(e.host, e.rules, e.samples, indexed, c);
  }

  // ---- Every stored telemetry alert is kept, deleted or untouched ----

  /** Firing alerts have an activation time, and stored times are whole milliseconds. */
  predicate TimesOk(a: Alert) {
    && (a.state == Firing <==> a.activeSince.Some?)
    && Millis(a.pendingSince) == a.pendingSince
    && (a.activeSince.Some? ==> Millis(a.activeSince.value) == a.activeSince.value)
  }

  predicate AlertOk(fp: string, a: Alert) {
    Telemetry(a.key) ==>
      && KeyOk(a.key) && NoColon(a.host) && TimesOk(a)
      && AlertMetric(fp, a.key, a.host).Some? && OfRule(a.key, AlertMetric(fp, a.key, a.host).value)
  }

  lemma ProjectTimesOk(host: string, c: Condition, prior: Option<Alert>, wait: int, now: int)
    requires prior.Some? ==> TimesOk(prior.value)
    ensures TimesOk(Project(host, c, prior, wait, now))
  {
    MillisTwice(now);
    if prior.Some? {
      MillisTwice(prior.value.pendingSince);
    }
  }

  predicate StoreOk(store: Store) {
    forall fp :: fp in store ==> AlertOk(fp, store[fp])
  }

  lemma EvaluateKeepsStoreOk(store: Store, e: Evaluation)
    requires StoreOk(store) && EvaluationOk(e)
    ensures StoreOk(Evaluate(store, e))
  {
    var after := Evaluate(store, e);
    forall fp | fp in after ensures AlertOk(fp, after[fp]) {
      EvaluateLookup(store, e, fp);
      FirstIsListed(Conditions(e), fp);
      if First(Conditions(e), fp).Some? {
        WrittenOk(store, e, fp);
      }
    }
  }

  lemma WrittenOk(store: Store, e: Evaluation, fp: string)
    requires StoreOk(store) && EvaluationOk(e) && First(Conditions(e), fp).Some?
    ensures AlertOk(fp, Next(store, e, fp).value)
  {
    FirstIsListed(Conditions(e), fp);
    var c, indexed := First(Conditions(e), fp).value, Indexed(e.samples);
    FoundListed(e.host, e.rules, e.samples, indexed, c);
    var s :| s in e.samples && ConditionOf(e.host, e.rules, s, indexed, c);
    ConditionNames(e.host, e.rules, s, indexed, c);
    AlertMetricInverts(c.key, e.host, s.metric);
    var prior := Considered(store, e.host, fp);
    assert prior.Some? ==> AlertOk(fp, prior.value);
    ProjectTimesOk(e.host, c, prior, Wait(e.rules, c.key), e.now);
  }

  /** Why an alert without a tripping sample is deleted: its metric was sampled, or its rule is gone, or the first
      rule with its id is disabled. */
  ghost predicate Over(e: Evaluation, key: Key, metric: string) {
    || (exists s :: s in e.samples && s.metric == metric)
    || (key.MetricRule? && (|| (forall r :: r in e.rules ==> r.id != key.id)
                            || exists i :: FirstDisabled(e.rules, key.id, i)))
  }

  predicate FirstDisabled(rules: seq<Rule>, id: string, i: int) {
    0 <= i < |rules| && rules[i].id == id && !rules[i].enabled && forall j :: 0 <= j < i ==> rules[j].id != id
  }

  lemma {:induction false} FindExactly(rules: seq<Rule>, id: string)
    ensures FindRule(rules, MetricRule(id)).None? <==> forall r :: r in rules ==> r.id != id
    ensures (FindRule(rules, MetricRule(id)).Some? && !FindRule(rules, MetricRule(id)).value.enabled) <==>
              exists i :: FirstDisabled(rules, id, i)
  {
    if rules != [] {
      var rest := rules[1..];
      FindExactly(rest, id);
      assert rules == [rules[0]] + rest;
      if rules[0].id == id {
        assert !rules[0].enabled ==> FirstDisabled(rules, id, 0);
      } else {
        assert forall i :: FirstDisabled(rest, id, i) ==> FirstDisabled(rules, id, i + 1);
        assert forall i :: FirstDisabled(rules, id, i) ==> FirstDisabled(rest, id, i - 1);
      }
    }
  }

  /** The exact fate of a stored telemetry alert: kept when a sample trips its rule, deleted when none does and the
      metric was sampled or the rule is disabled or gone, and left as it is otherwise. Alerts of other hosts are
      left as they are. */
  ghost predicate Splits(store: Store, e: Evaluation, fp: string)
    requires fp in store
  {
    var a, after := store[fp], Lookup(Evaluate(store, e), fp);
    var metric := AlertMetric(fp, a.key, a.host);
    && metric.Some?
    && (a.host != e.host ==> after == Some(a))
    && (a.host == e.host ==>
          && (Tripped(e, a.key, metric.value) ==>
                after.Some? && after.value.pendingSince == a.pendingSince && after.value.key == a.key)
          && (!Tripped(e, a.key, metric.value) && Over(e, a.key, metric.value) ==> after.None?)
          && (!Tripped(e, a.key, metric.value) && !Over(e, a.key, metric.value) ==> after == Some(a)))
  }

  lemma SplitExactly(store: Store, e: Evaluation, fp: string)
    requires StoreOk(store) && EvaluationOk(e) && fp in store && Telemetry(store[fp].key)
    ensures Splits(store, e, fp)
  {
    var a := store[fp];
    assert AlertOk(fp, a);
    var metric := AlertMetric(fp, a.key, a.host).value;
    AlertMetricOnlyInverts(fp, a.key, a.host);
    EvaluateLookup(store, e, fp);
    ActiveExactly(e, a.key, a.host, metric);
    if a.key.MetricRule? {
      FindExactly(e.rules, a.key.id);
    }
    assert metric in Observed(e) <==> exists s :: s in e.samples && s.metric == metric;
  }

  /** A firing alert never goes back to pending and keeps its activation time for as long as it is stored. */
  lemma FiringSticks(store: Store, e: Evaluation, fp: string)
    requires StoreOk(store) && EvaluationOk(e) && fp in store && Telemetry(store[fp].key) && store[fp].state == Firing
    ensures var after := Lookup(Evaluate(store, e), fp);
            after.Some? ==> after.value.state == Firing && after.value.activeSince == store[fp].activeSince
                            && after.value.pendingSince == store[fp].pendingSince
  {
    SplitExactly(store, e, fp);
    assert AlertOk(fp, store[fp]);
    EvaluateLookup(store, e, fp);
  }

  /** An evaluation writes telemetry alerts only. */
  lemma EvaluateKeepsTelemetry(store: Store, e: Evaluation)
    requires forall fp :: fp in store ==> Telemetry(store[fp].key)
    ensures forall fp :: fp in Evaluate(store, e) ==> Telemetry(Evaluate(store, e)[fp].key)
  {
    forall fp | fp in Evaluate(store, e) ensures Telemetry(Evaluate(store, e)[fp].key) {
      EvaluateLookup(store, e, fp);
      FirstIsListed(Conditions(e), fp);
      if First(Conditions(e), fp).Some? {
        var c, indexed := First(Conditions(e), fp).value, Indexed(e.samples);
        FoundListed(e.host, e.rules, e.samples, indexed, c);
        var s :| s in e.samples && ConditionOf(e.host, e.rules, s, indexed, c);
        ConditionNames(e.host, e.rules, s, indexed, c);
      }
    }
  }
}
