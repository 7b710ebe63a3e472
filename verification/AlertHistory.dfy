/** What the stateful evaluator means: the alert stored for one rule, host and metric is a function of the whole
    history of evaluations, said here without any store. */
module AlertHistory {
  import opened Text
  import opened Alerts
  import opened AlertStore

  /** The severity of the first sample of the metric that breaches the rule. */
  function Observe(r: Rule, metric: string, samples: seq<Sample>): Option<Severity> {
    if samples == [] then None
    else
      var earlier, s := Observe(r, metric, samples[..|samples| - 1]), samples[|samples| - 1];
      if earlier.Some? then earlier
      else if s.metric == metric && Breaches(r, s) then ThresholdSeverity(r, s.value)
      else None
  }

  datatype Observation = Observation(now: int, breach: Option<Severity>)

  /** The evaluations of the host that sampled the metric. */
  function History(evals: seq<Evaluation>, host: string, r: Rule, metric: string): seq<Observation> {
    if evals == [] then []
    else
      var earlier, e := History(evals[..|evals| - 1], host, r, metric), evals[|evals| - 1];
      if e.host == host && metric in Observed(e) then earlier + [Observation(e.now, Observe(r, metric, e.samples))]
        else earlier
  }

  /** The store after a run of evaluations that starts empty. */
  function Run(evals: seq<Evaluation>): Store {
    if evals == [] then map[] else Evaluate(Run(evals[..|evals| - 1]), evals[|evals| - 1])
  }

  // ---- The meaning of a history ----

  predicate Breaching(hist: seq<Observation>) {
    hist != [] && hist[|hist| - 1].breach.Some?
  }

  /** The current episode starts here: every observation from here on breaches, and the one before does not. */
  predicate EpisodeStart(hist: seq<Observation>, start: int) {
    && 0 <= start < |hist|
    && (forall i :: start <= i < |hist| ==> hist[i].breach.Some?)
    && (start > 0 ==> hist[start - 1].breach.None?)
  }

  /** At this observation the episode has lasted for the rule's wait. */
  predicate Due(hist: seq<Observation>, start: int, f: int, wait: int) {
    0 <= start <= f < |hist| && Waited(wait, Millis(hist[start].now), hist[f].now)
  }

  predicate FirstDue(hist: seq<Observation>, start: int, f: int, wait: int) {
    Due(hist, start, f, wait) && forall g :: start <= g < f ==> !Due(hist, start, g, wait)
  }

  /** An alert tells an episode: when it started, whether and when it first was due, and how severe it is now. */
  ghost predicate Tells(hist: seq<Observation>, start: int, wait: int, a: Alert)
    requires EpisodeStart(hist, start)
  {
    && a.pendingSince == Millis(hist[start].now)
    && Some(a.severity) == hist[|hist| - 1].breach
    && (a.state == Firing <==> exists f :: start <= f < |hist| && Due(hist, start, f, wait))
    && (a.state == Firing ==> exists f :: FirstDue(hist, start, f, wait) && a.activeSince == Some(Millis(hist[f].now)))
    && (a.state == Pending ==> a.activeSince == None)
  }

  ghost predicate Explains(hist: seq<Observation>, wait: int, a: Option<Alert>) {
    && (a.Some? <==> Breaching(hist))
    && (a.Some? ==> exists start :: EpisodeStart(hist, start) && Tells(hist, start, wait, a.value))
  }

  // ---- One more observation ----

  function After(prior: Option<Alert>, key: Key, host: string, o: Observation, wait: int): Option<Alert> {
    if o.breach.None? then None else Some(Project(host, Condition("", key, o.breach.value), prior, wait, o.now))
  }

  lemma EpisodeBegins(hist: seq<Observation>, key: Key, host: string, o: Observation, wait: int)
    requires !Breaching(hist) && o.breach.Some? && wait >= 0
    ensures Explains(hist + [o], wait, After(None, key, host, o, wait))
  {
    var longer, start := hist + [o], |hist|;
    assert EpisodeStart(longer, start);
    assert Waited(wait, o.now, o.now) <==> Waited(wait, Millis(o.now), o.now);
    assert Due(longer, start, start, wait) <==> Waited(wait, o.now, o.now);
    assert Due(longer, start, start, wait) ==> FirstDue(longer, start, start, wait);
    assert Tells(longer, start, wait, After(None, key, host, o, wait).value);
  }

  lemma EpisodeGoesOn(hist: seq<Observation>, start: int, a: Alert, key: Key, host: string, o: Observation, wait: int)
    requires EpisodeStart(hist, start) && Tells(hist, start, wait, a) && o.breach.Some?
    ensures Explains(hist + [o], wait, After(Some(a), key, host, o, wait))
  {
    var longer, n := hist + [o], |hist|;
    var b := After(Some(a), key, host, o, wait).value;
    MillisTwice(hist[start].now);
    assert b.pendingSince == a.pendingSince;
    assert forall i :: start <= i < n ==> longer[i] == hist[i];
    assert EpisodeStart(longer, start);
    assert forall f :: start <= f < n ==> (Due(longer, start, f, wait) <==> Due(hist, start, f, wait));
    assert Due(longer, start, n, wait) <==> Waited(wait, a.pendingSince, o.now);
    if a.state == Firing {
      var f :| FirstDue(hist, start, f, wait) && a.activeSince == Some(Millis(hist[f].now));
      MillisTwice(hist[f].now);
      assert FirstDue(longer, start, f, wait) && b.activeSince == Some(Millis(longer[f].now));
    } else if Due(longer, start, n, wait) {
      assert FirstDue(longer, start, n, wait);
    }
    assert Tells(longer, start, wait, b);
  }

  lemma OneMore(hist: seq<Observation>, a: Option<Alert>, key: Key, host: string, o: Observation, wait: int)
    requires Explains(hist, wait, a) && wait >= 0
    ensures Explains(hist + [o], wait, After(a, key, host, o, wait))
  {
    if o.breach.Some? {
      if a.None? {
        EpisodeBegins(hist, key, host, o, wait);
      } else {
        var start :| EpisodeStart(hist, start) && Tells(hist, start, wait, a.value);
        EpisodeGoesOn(hist, start, a.value, key, host, o, wait);
      }
    }
  }

  // ---- One evaluation ----

  /** The rule is loaded, and no other rule shares its id. */
  predicate Loaded(rules: seq<Rule>, r: Rule) {
    r in rules && forall q :: q in rules && q.id == r.id ==> q == r
  }

  /** The evaluations a fixed, enabled rule takes part in; all else about them is arbitrary. */
  predicate Fixed(evals: seq<Evaluation>, r: Rule) {
    forall e :: e in evals ==> EvaluationOk(e) && Loaded(e.rules, r)
  }

  lemma {:induction false} RuleConditionFor(host: string, rules: seq<Rule>, s: Sample, r: Rule, metric: string)
    requires forall q :: q in rules ==> NoColon(q.id) && (q.id == r.id ==> q == r)
    requires NoColon(host) && NoColon(r.id)
    ensures var fp := Print(MetricRule(r.id), host, metric);
            First(RuleConditions(host, rules, s), fp) ==
            if r in rules && s.metric == metric && Breaches(r, s)
            then Some(Condition(fp, MetricRule(r.id), ThresholdSeverity(r, s.value).value))
            else None
  {
    if rules != [] {
      var fp, earlier, q := Print(MetricRule(r.id), host, metric), rules[..|rules| - 1], rules[|rules| - 1];
      assert rules == earlier + [q];
      RuleConditionFor(host, earlier, s, r, metric);
      PrintInjective(MetricRule(q.id), host, s.metric, MetricRule(r.id), host, metric);
      if Breaches(q, s) {
        var last :=
          [Condition(Print(MetricRule(q.id), host, s.metric), MetricRule(q.id), ThresholdSeverity(q, s.value).value)];
        FirstOfConcat(RuleConditions(host, earlier, s), last, fp);
        assert last[1..] == [];
      }
    }
  }

  lemma HardwareConditionFor(host: string, s: Sample, indexed: bool, id: string, metric: string)
    requires NoColon(host) && NoColon(id)
    ensures First(HardwareConditions(host, s, indexed), Print(MetricRule(id), host, metric)).None?
  {
    var cs, fp := HardwareConditions(host, s, indexed), Print(MetricRule(id), host, metric);
    FirstIsListed(cs, fp);
    forall c | c in cs ensures c.fingerprint != fp {
      HardwareListed(host, s, indexed, c);
      PrintInjective(c.key, host, s.metric, MetricRule(id), host, metric);
    }
  }

  /** The condition found for the rule, host and metric is the first breach observed. */
  lemma {:induction false} FoundFor(host: string, rules: seq<Rule>, samples: seq<Sample>, indexed: bool, r: Rule,
                                    metric: string)
    requires Loaded(rules, r) && NoColon(host) && forall q :: q in rules ==> NoColon(q.id)
    ensures var fp, o := Print(MetricRule(r.id), host, metric), Observe(r, metric, samples);
            First(Found(host, rules, samples, indexed), fp) ==
            if o.Some? then Some(Condition(fp, MetricRule(r.id), o.value)) else None
  {
    if samples != [] {
      var fp, earlier, s := Print(MetricRule(r.id), host, metric), samples[..|samples| - 1], samples[|samples| - 1];
      FoundFor(host, rules, earlier, indexed, r, metric);
      HardwareConditionFor(host, s, indexed, r.id, metric);
      RuleConditionFor(host, rules, s, r, metric);
      FirstOfConcat(HardwareConditions(host, s, indexed), RuleConditions(host, rules, s), fp);
      FirstOfConcat(Found(host, rules, earlier, indexed),
                    HardwareConditions(host, s, indexed) + RuleConditions(host, rules, s), fp);
    }
  }

  lemma {:induction false} LoadedRule(rules: seq<Rule>, r: Rule)
    requires Loaded(rules, r)
    ensures Wait(rules, MetricRule(r.id)) == r.forSeconds
    ensures FindRule(rules, MetricRule(r.id)) == Some(r)
  {
    WaitOfLoaded(rules, r);
    FindLoaded(rules, r);
  }

  lemma {:induction false} WaitOfLoaded(rules: seq<Rule>, r: Rule)
    requires Loaded(rules, r)
    ensures Wait(rules, MetricRule(r.id)) == r.forSeconds
  {
    var earlier, q := rules[..|rules| - 1], rules[|rules| - 1];
    assert rules == earlier + [q];
    if q.id != r.id {
      WaitOfLoaded(earlier, r);
    }
  }

  lemma {:induction false} FindLoaded(rules: seq<Rule>, r: Rule)
    requires Loaded(rules, r)
    ensures FindRule(rules, MetricRule(r.id)) == Some(r)
  {
    assert rules == [rules[0]] + rules[1..];
    if rules[0].id != r.id {
      FindLoaded(rules[1..], r);
    }
  }

  lemma {:induction false} ObserveExactly(r: Rule, metric: string, samples: seq<Sample>)
    ensures Observe(r, metric, samples).Some? <==> exists s :: s in samples && s.metric == metric && Breaches(r, s)
  {
    if samples != [] {
      ObserveExactly(r, metric, samples[..|samples| - 1]);
      assert samples == samples[..|samples| - 1] + [samples[|samples| - 1]];
    }
  }

  /** What is stored for the rule, host and metric belongs to them. */
  predicate Owned(a: Option<Alert>, key: Key, host: string) {
    a.Some? ==> a.value.key == key && a.value.host == host
  }

  lemma CanonicalRules(rules: seq<Rule>)
    requires forall r :: r in rules ==> Canonical(r.id)
    ensures forall r :: r in rules ==> NoColon(r.id)
  {
    forall r | r in rules ensures NoColon(r.id) { CanonicalHasNoColon(r.id); }
  }

  /** An evaluation of the host that sampled the metric. */
  lemma EvaluationObserves(store: Store, e: Evaluation, r: Rule, metric: string)
    requires EvaluationOk(e) && Loaded(e.rules, r) && metric in Observed(e)
    requires Owned(Lookup(store, Print(MetricRule(r.id), e.host, metric)), MetricRule(r.id), e.host)
    ensures var fp, key := Print(MetricRule(r.id), e.host, metric), MetricRule(r.id);
            Next(store, e, fp) ==
              After(Lookup(store, fp), key, e.host, Observation(e.now, Observe(r, metric, e.samples)), r.forSeconds)
  {
    if Observe(r, metric, e.samples).Some? {
      BreachObserved(store, e, r, metric);
    } else {
      CalmObserved(store, e, r, metric);
    }
  }

  lemma BreachObserved(store: Store, e: Evaluation, r: Rule, metric: string)
    requires EvaluationOk(e) && Loaded(e.rules, r) && Observe(r, metric, e.samples).Some?
    requires Owned(Lookup(store, Print(MetricRule(r.id), e.host, metric)), MetricRule(r.id), e.host)
    ensures var fp, key := Print(MetricRule(r.id), e.host, metric), MetricRule(r.id);
            Next(store, e, fp) ==
            After(Lookup(store, fp), key, e.host, Observation(e.now, Observe(r, metric, e.samples)), r.forSeconds)
  {
    CanonicalRules(e.rules);
    FoundFor(e.host, e.rules, e.samples, Indexed(e.samples), r, metric);
    WaitOfLoaded(e.rules, r);
  }

  lemma CalmObserved(store: Store, e: Evaluation, r: Rule, metric: string)
    requires EvaluationOk(e) && Loaded(e.rules, r) && metric in Observed(e) && Observe(r, metric, e.samples).None?
    requires Owned(Lookup(store, Print(MetricRule(r.id), e.host, metric)), MetricRule(r.id), e.host)
    ensures Next(store, e, Print(MetricRule(r.id), e.host, metric)).None?
  {
    CanonicalRules(e.rules);
    FoundFor(e.host, e.rules, e.samples, Indexed(e.samples), r, metric);
    FindLoaded(e.rules, r);
    AlertMetricInverts(MetricRule(r.id), e.host, metric);
  }

  /** Any other evaluation leaves the alert alone. */
  lemma EvaluationIgnores(store: Store, e: Evaluation, host: string, r: Rule, metric: string)
    requires EvaluationOk(e) && Loaded(e.rules, r) && r.enabled && NoColon(host)
    requires e.host != host || metric !in Observed(e)
    requires Owned(Lookup(store, Print(MetricRule(r.id), host, metric)), MetricRule(r.id), host)
    ensures var fp := Print(MetricRule(r.id), host, metric); Next(store, e, fp) == Lookup(store, fp)
  {
    CanonicalRules(e.rules);
    ActiveExactly(e, MetricRule(r.id), host, metric);
    if e.host == host {
      FoundFor(e.host, e.rules, e.samples, Indexed(e.samples), r, metric);
      ObserveExactly(r, metric, e.samples);
      LoadedRule(e.rules, r);
      AlertMetricInverts(MetricRule(r.id), e.host, metric);
    }
  }

  // ---- Whole runs ----

  /** The stored alert is explained by the history: it is stored exactly when the last evaluation that sampled the
      metric breached, it has been pending since the first breach of that episode, it fires exactly from the first
      breaching evaluation at which the rule's wait was over, and it says when that was. */
  lemma {:induction false} StoredAlertIsItsHistory(evals: seq<Evaluation>, host: string, r: Rule, metric: string)
    requires Fixed(evals, r) && r.enabled && r.forSeconds >= 0 && NoColon(host) && NoColon(r.id)
    ensures var a := Lookup(Run(evals), Print(MetricRule(r.id), host, metric));
            Explains(History(evals, host, r, metric), r.forSeconds, a) && Owned(a, MetricRule(r.id), host)
  {
    if evals != [] {
      var earlier, e := evals[..|evals| - 1], evals[|evals| - 1];
      var fp, key, hist := Print(MetricRule(r.id), host, metric), MetricRule(r.id), History(earlier, host, r, metric);
      StoredAlertIsItsHistory(earlier, host, r, metric);
      EvaluateLookup(Run(earlier), e, fp);
      var before := Lookup(Run(earlier), fp);
      if e.host == host && metric in Observed(e) {
        EvaluationObserves(Run(earlier), e, r, metric);
        OneMore(hist, before, key, host, Observation(e.now, Observe(r, metric, e.samples)), r.forSeconds);
      } else {
        EvaluationIgnores(Run(earlier), e, host, r, metric);
      }
    }
  }

  // ---- Said by the samples ----

  predicate SamplesMetric(e: Evaluation, host: string, metric: string) {
    e.host == host && exists s :: s in e.samples && s.metric == metric
  }

  /** The last evaluation of the host that sampled the metric. */
  predicate LastSampled(evals: seq<Evaluation>, host: string, metric: string, k: int) {
    && 0 <= k < |evals| && SamplesMetric(evals[k], host, metric)
    && forall j :: k < j < |evals| ==> !SamplesMetric(evals[j], host, metric)
  }

  /** The first sample of the metric whose value is at or past one of the rule's thresholds. */
  predicate FirstTrip(r: Rule, metric: string, samples: seq<Sample>, i: int) {
    && 0 <= i < |samples| && samples[i].metric == metric && Trips(r, samples[i].value)
    && forall j :: 0 <= j < i && samples[j].metric == metric ==> !Trips(r, samples[j].value)
  }

  /** An observation of an enabled rule: how severe it is, told by the first sample past a threshold, if any is. */
  ghost predicate ObservesFirst(r: Rule, metric: string, samples: seq<Sample>, o: Option<Severity>) {
    && (o.Some? <==> MetricMatches(r.pattern, metric) && exists i :: FirstTrip(r, metric, samples, i))
    && (forall i :: o.Some? && FirstTrip(r, metric, samples, i) ==>
          (o.value == Critical <==> TripsCritically(r, samples[i].value)))
  }

  lemma {:induction false} ObserveMeans(r: Rule, metric: string, samples: seq<Sample>)
    requires r.enabled
    ensures ObservesFirst(r, metric, samples, Observe(r, metric, samples))
  {
    if samples != [] {
      var n := |samples| - 1;
      var earlier, s := samples[..n], samples[n];
      ObserveMeans(r, metric, earlier);
      ThresholdExactly(r, s.value);
      assert forall i :: FirstTrip(r, metric, earlier, i) ==> FirstTrip(r, metric, samples, i);
      assert forall i :: FirstTrip(r, metric, samples, i) && i < n ==> FirstTrip(r, metric, earlier, i);
      if Observe(r, metric, earlier).None? && MetricMatches(r.pattern, metric) && s.metric == metric {
        NoneTrips(r, metric, earlier);
        assert Trips(r, s.value) ==> FirstTrip(r, metric, samples, n);
      }
    }
  }

  /** Without a first sample past a threshold there is none at all. */
  lemma {:induction false} NoneTrips(r: Rule, metric: string, samples: seq<Sample>)
    requires forall i :: !FirstTrip(r, metric, samples, i)
    ensures forall i :: 0 <= i < |samples| && samples[i].metric == metric ==> !Trips(r, samples[i].value)
  {
    if samples != [] {
      var n := |samples| - 1;
      assert forall i :: FirstTrip(r, metric, samples[..n], i) ==> FirstTrip(r, metric, samples, i);
      NoneTrips(r, metric, samples[..n]);
      assert forall i :: 0 <= i < n ==> samples[i] == samples[..n][i];
      assert samples[n].metric == metric && Trips(r, samples[n].value) ==> FirstTrip(r, metric, samples, n);
    }
  }

  /** A history ends with the last evaluation that sampled the metric. */
  lemma {:induction false} HistoryEnds(evals: seq<Evaluation>, host: string, r: Rule, metric: string)
    ensures var hist := History(evals, host, r, metric);
            && (hist == [] <==> forall k :: !LastSampled(evals, host, metric, k))
            && forall k :: LastSampled(evals, host, metric, k) && hist != [] ==>
                 hist[|hist| - 1] == Observation(evals[k].now, Observe(r, metric, evals[k].samples))
  {
    if evals != [] {
      var n := |evals| - 1;
      var earlier, e := evals[..n], evals[n];
      HistoryEnds(earlier, host, r, metric);
      assert metric in Observed(e) <==> exists s :: s in e.samples && s.metric == metric;
      if SamplesMetric(e, host, metric) {
        assert LastSampled(evals, host, metric, n);
      } else {
        assert forall k :: LastSampled(earlier, host, metric, k) <==> LastSampled(evals, host, metric, k);
      }
    }
  }

  /** After every run, the alert of a fixed enabled rule is stored if and only if in the last evaluation that sampled
      the metric some sample of it was at or past a threshold, and it is critical if and only if the first such
      sample was at or past the critical one. */
  lemma StoredBySamples(evals: seq<Evaluation>, host: string, r: Rule, metric: string)
    requires Fixed(evals, r) && r.enabled && r.forSeconds >= 0 && NoColon(host) && NoColon(r.id)
    ensures var a := Lookup(Run(evals), Print(MetricRule(r.id), host, metric));
            && (a.Some? <==>
                  && MetricMatches(r.pattern, metric)
                  && exists k, i :: LastSampled(evals, host, metric, k) && FirstTrip(r, metric, evals[k].samples, i))
            && forall k, i ::
                 a.Some? && LastSampled(evals, host, metric, k) && FirstTrip(r, metric, evals[k].samples, i) ==>
                   (a.value.severity == Critical <==> TripsCritically(r, evals[k].samples[i].value))
  {
    StoredAlertIsItsHistory(evals, host, r, metric);
    HistoryEnds(evals, host, r, metric);
    forall k | LastSampled(evals, host, metric, k)
      ensures ObservesFirst(r, metric, evals[k].samples, Observe(r, metric, evals[k].samples))
    {
      ObserveMeans(r, metric, evals[k].samples);
    }
  }

  predicate Chronological(hist: seq<Observation>) {
    forall i, j :: 0 <= i <= j < |hist| ==> hist[i].now <= hist[j].now
  }

  lemma {:induction false} HistoryIsChronological(evals: seq<Evaluation>, host: string, r: Rule, metric: string)
    requires forall i, j :: 0 <= i <= j < |evals| ==> evals[i].now <= evals[j].now
    ensures Chronological(History(evals, host, r, metric))
    ensures forall i :: 0 <= i < |History(evals, host, r, metric)| ==>
              History(evals, host, r, metric)[i].now <= evals[|evals| - 1].now
  {
    if evals != [] {
      HistoryIsChronological(evals[..|evals| - 1], host, r, metric);
    }
  }

  lemma LaterIsLonger(wait: int, since: int, t: int, u: int)
    requires t <= u && wait >= 0 && Waited(wait, since, t)
    ensures Waited(wait, since, u)
  {
    if wait > 0 && t >= since {
      DivisionGrows(t - since, u - since);
    }
  }

  lemma DivisionGrows(a: int, b: int)
    requires 0 <= a <= b
    ensures a / SECOND <= b / SECOND
  {
  }

  /** Pending since the start of the episode, and firing exactly when that start is by now as long ago as the wait. */
  ghost predicate FiringIsDue(hist: seq<Observation>, wait: int, a: Alert) {
    exists start :: EpisodeStart(hist, start) && a.pendingSince == Millis(hist[start].now)
                    && (a.state == Firing <==>
                          wait == 0 || hist[|hist| - 1].now - Millis(hist[start].now) >= wait * 1_000_000_000)
  }

  /** When evaluation times do not decrease, an alert is firing exactly when its episode has by now lasted the
      rule's wait. */
  lemma FiresExactlyWhenDue(hist: seq<Observation>, wait: int, a: Option<Alert>)
    requires Explains(hist, wait, a) && a.Some? && Chronological(hist) && wait >= 0
    ensures FiringIsDue(hist, wait, a.value)
  {
    var start :| EpisodeStart(hist, start) && Tells(hist, start, wait, a.value);
    var n := |hist| - 1;
    if a.value.state == Firing {
      var f :| FirstDue(hist, start, f, wait) && a.value.activeSince == Some(Millis(hist[f].now));
      LaterIsLonger(wait, Millis(hist[start].now), hist[f].now, hist[n].now);
    }
    assert Due(hist, start, n, wait) <==> Waited(wait, Millis(hist[start].now), hist[n].now);
    WaitedExactly(wait, Millis(hist[start].now), hist[n].now);
  }

  /** In every run with times that do not decrease, the alert stored for a fixed rule is firing exactly when its
      episode, begun at the first breach, has by the last observation lasted the rule's wait. */
  lemma RunFiresExactlyWhenDue(evals: seq<Evaluation>, host: string, r: Rule, metric: string)
    requires Fixed(evals, r) && r.enabled && r.forSeconds >= 0 && NoColon(host) && NoColon(r.id)
    requires forall i, j :: 0 <= i <= j < |evals| ==> evals[i].now <= evals[j].now
    ensures var a, hist := Lookup(Run(evals), Print(MetricRule(r.id), host, metric)), History(evals, host, r, metric);
            a.Some? ==> FiringIsDue(hist, r.forSeconds, a.value)
  {
    StoredAlertIsItsHistory(evals, host, r, metric);
    HistoryIsChronological(evals, host, r, metric);
    var a, hist := Lookup(Run(evals), Print(MetricRule(r.id), host, metric)), History(evals, host, r, metric);
    if a.Some? {
      FiresExactlyWhenDue(hist, r.forSeconds, a);
    }
  }

  predicate AllOk(evals: seq<Evaluation>) {
    forall e :: e in evals ==> EvaluationOk(e)
  }

  lemma {:induction false} RunStoreOk(evals: seq<Evaluation>)
    requires AllOk(evals)
    ensures StoreOk(Run(evals)) && forall fp :: fp in Run(evals) ==> Telemetry(Run(evals)[fp].key)
  {
    if evals != [] {
      var earlier, e := evals[..|evals| - 1], evals[|evals| - 1];
      RunStoreOk(earlier);
      EvaluateKeepsStoreOk(Run(earlier), e);
      EvaluateKeepsTelemetry(Run(earlier), e);
    }
  }

  /** After any run, with any rules and times, the next evaluation splits every stored alert exactly. */
  lemma RunSplits(evals: seq<Evaluation>, e: Evaluation, fp: string)
    requires AllOk(evals) && EvaluationOk(e) && fp in Run(evals)
    ensures Splits(Run(evals), e, fp)
  {
    RunStoreOk(evals);
    SplitExactly(Run(evals), e, fp);
  }

  predicate SameFiring(a: Alert, b: Alert) {
    a.state == Firing && b.state == Firing && a.activeSince == b.activeSince && a.pendingSince == b.pendingSince
  }

  /** The alert stored after the first `k` evaluations. */
  function AlertAt(evals: seq<Evaluation>, k: nat, fp: string): Option<Alert>
    requires k <= |evals|
  {
    Lookup(Run(evals[..k]), fp)
  }

  lemma FiringOnce(evals: seq<Evaluation>, k: nat, fp: string)
    requires AllOk(evals) && k < |evals| && AlertAt(evals, k, fp).Some? && AlertAt(evals, k + 1, fp).Some?
    requires AlertAt(evals, k, fp).value.state == Firing
    ensures SameFiring(AlertAt(evals, k, fp).value, AlertAt(evals, k + 1, fp).value)
  {
    assert evals[..k + 1][..k] == evals[..k];
    RunStoreOk(evals[..k]);
    FiringSticks(Run(evals[..k]), evals[k], fp);
  }

  /** A chain of alerts in which each firing one is followed by the same. */
  lemma {:induction false} SameAlong(alerts: seq<Option<Alert>>, n: nat, m: nat)
    requires n <= m < |alerts| && (forall k :: n <= k <= m ==> alerts[k].Some?) && alerts[n].value.state == Firing
    requires forall k :: n <= k < m && alerts[k].value.state == Firing ==>
               SameFiring(alerts[k].value, alerts[k + 1].value)
    ensures SameFiring(alerts[n].value, alerts[m].value)
  {
    if n < m {
      SameAlong(alerts, n, m - 1);
      assert SameFiring(alerts[m - 1].value, alerts[m - 1 + 1].value);
    }
  }

  /** The alert stored under a fingerprint after each number of evaluations. */
  predicate AlertsOf(evals: seq<Evaluation>, fp: string, alerts: seq<Option<Alert>>) {
    |alerts| == |evals| + 1 && forall k :: 0 <= k < |alerts| ==> alerts[k] == AlertAt(evals, k, fp)
  }

  /** A firing alert stays firing with the same times for as long as it is stored, over any run, with any rules and
      times. */
  lemma FiringUntilDeleted(evals: seq<Evaluation>, fp: string, alerts: seq<Option<Alert>>, n: nat, m: nat)
    requires AllOk(evals) && AlertsOf(evals, fp, alerts)
    requires n <= m < |alerts| && (forall k :: n <= k <= m ==> alerts[k].Some?) && alerts[n].value.state == Firing
    ensures SameFiring(alerts[n].value, alerts[m].value)
  {
    forall k | n <= k < m && alerts[k].value.state == Firing ensures SameFiring(alerts[k].value, alerts[k + 1].value) {
      FiringOnce(evals, k, fp);
    }
    SameAlong(alerts, n, m);
  }

  /** An episode has one start and one first due observation, so the explanation determines the alert. */
  lemma ExplanationIsUnique(hist: seq<Observation>, wait: int, key: Key, host: string, a: Option<Alert>,
                            b: Option<Alert>)
    requires Explains(hist, wait, a) && Explains(hist, wait, b) && Owned(a, key, host) && Owned(b, key, host)
    ensures a == b
  {
    if a.Some? {
      var s :| EpisodeStart(hist, s) && Tells(hist, s, wait, a.value);
      var t :| EpisodeStart(hist, t) && Tells(hist, t, wait, b.value);
      assert s == t;
      if a.value.state == Firing {
        var f :| FirstDue(hist, s, f, wait) && a.value.activeSince == Some(Millis(hist[f].now));
        var g :| FirstDue(hist, s, g, wait) && b.value.activeSince == Some(Millis(hist[g].now));
        assert f == g by {
          assert Due(hist, s, f, wait) && Due(hist, s, g, wait);
        }
      }
    }
  }
}
