/** Telemetry alert evaluation: `active_conditions`, `reconcile`, `reconcile_telemetry` and `alert_metric`.

    Times are nanoseconds; a stored time keeps whole milliseconds, as the text written to the store does. Rule keys
    are kept in the parsed form that `rule_key` writes and `alert_metric` reads back. */
module Alerts {
  import opened Text

  datatype Direction = Above | Under

  datatype Severity = High | Critical

  datatype Rule = Rule(
    id: string,
    pattern: string,
    direction: Direction,
    high: real,
    critical: real,
    forSeconds: int,
    enabled: bool)

  datatype Sample = Sample(metric: string, value: real)

  datatype Key = MetricRule(id: string) | HardwareEcc | HardwareXid | Elsewhere(name: string)

  predicate Telemetry(k: Key) {
    !k.Elsewhere?
  }

  // ---- Fingerprints ----

  /** What an alert's fingerprint starts with; other components name their alerts themselves. */
  function Prefix(key: Key, host: string): Option<string> {
    match key
    case MetricRule(id) => Some("metric" + [':'] + (id + [':'] + (host + [':'])))
    case HardwareEcc | HardwareXid => Some("hardware" + [':'] + (host + [':']))
    case Elsewhere(_) => None
  }

  function Print(key: Key, host: string, metric: string): string
    requires Telemetry(key)
  {
    Prefix(key, host).value + metric
  }

  /** `alert_metric`. */
  function AlertMetric(fingerprint: string, key: Key, host: string): Option<string> {
    var prefix := Prefix(key, host);
    if prefix.None? || !StartsWith(fingerprint, prefix.value) then None else Some(fingerprint[|prefix.value|..])
  }

  lemma AlertMetricInverts(key: Key, host: string, metric: string)
    requires Telemetry(key)
    ensures AlertMetric(Print(key, host, metric), key, host) == Some(metric)
  {
    var prefix := Prefix(key, host).value;
    assert (prefix + metric)[..|prefix|] == prefix;
    assert (prefix + metric)[|prefix|..] == metric;
  }

  /** And conversely: a metric read back names the fingerprint it was read from. */
  lemma AlertMetricOnlyInverts(fingerprint: string, key: Key, host: string)
    ensures var m := AlertMetric(fingerprint, key, host); m.Some? ==>
              Telemetry(key) && fingerprint == Print(key, host, m.value)
  {
  }

  /** The fingerprints as they are written. */
  lemma FingerprintText(key: Key, host: string, metric: string)
    requires Telemetry(key)
    ensures key.MetricRule? ==> Print(key, host, metric) == "metric:" + key.id + ":" + host + ":" + metric
    ensures !key.MetricRule? ==> Print(key, host, metric) == "hardware:" + host + ":" + metric
  {
    assert "metric" + [':'] == "metric:" && "hardware" + [':'] == "hardware:";
  }

  predicate NoColon(s: string) {
    ':' !in s
  }

  predicate KeyOk(k: Key) {
    k.MetricRule? ==> NoColon(k.id)
  }

  lemma CanonicalHasNoColon(id: string)
    requires Canonical(id)
    ensures NoColon(id)
  {
  }

  /** Hardware alerts share one family of fingerprints. */
  predicate SameFamily(a: Key, b: Key) {
    a == b || (a.HardwareEcc? && b.HardwareXid?) || (a.HardwareXid? && b.HardwareEcc?)
  }

  lemma MetricPrintParts(id: string, host: string, metric: string)
    ensures Print(MetricRule(id), host, metric) == "metric" + [':'] + (id + [':'] + (host + [':'] + metric))
  {
    calc {
      Print(MetricRule(id), host, metric);
      "metric" + [':'] + (id + [':'] + (host + [':'])) + metric;
      "metric" + [':'] + (id + [':'] + (host + [':']) + metric);
      "metric" + [':'] + (id + [':'] + (host + [':'] + metric));
    }
  }

  lemma HardwarePrintParts(key: Key, host: string, metric: string)
    requires key.HardwareEcc? || key.HardwareXid?
    ensures Print(key, host, metric) == "hardware" + [':'] + (host + [':'] + metric)
  {
    assert "hardware" + [':'] + (host + [':']) + metric == "hardware" + [':'] + (host + [':'] + metric);
  }

  /** Fingerprints are injective in (rule, host, metric). */
  lemma PrintInjective(k1: Key, h1: string, m1: string, k2: Key, h2: string, m2: string)
    requires Telemetry(k1) && Telemetry(k2) && KeyOk(k1) && KeyOk(k2) && NoColon(h1) && NoColon(h2)
    ensures Print(k1, h1, m1) == Print(k2, h2, m2) <==> SameFamily(k1, k2) && h1 == h2 && m1 == m2
  {
    var p1, p2 := Print(k1, h1, m1), Print(k2, h2, m2);
    assert k1.MetricRule? != k2.MetricRule? ==> p1[0] != p2[0];
    if p1 == p2 {
      if k1.MetricRule? && k2.MetricRule? {
        MetricPrintParts(k1.id, h1, m1);
        MetricPrintParts(k2.id, h2, m2);
        var host1, host2 := h1 + [':'] + m1, h2 + [':'] + m2;
        SeparatorInjective("metric", k1.id + [':'] + host1, "metric", k2.id + [':'] + host2, ':');
        SeparatorInjective(k1.id, host1, k2.id, host2, ':');
        SeparatorInjective(h1, m1, h2, m2, ':');
      } else if !k1.MetricRule? && !k2.MetricRule? {
        HardwarePrintParts(k1, h1, m1);
        HardwarePrintParts(k2, h2, m2);
        SeparatorInjective("hardware", h1 + [':'] + m1, "hardware", h2 + [':'] + m2, ':');
        SeparatorInjective(h1, m1, h2, m2, ':');
      }
    }
  }

  // ---- Active conditions ----

  function Split(s: string, sep: char): (parts: seq<string>)
    ensures |parts| > 0
  {
    if s == [] then [""]
    else
      var rest := Split(s[1..], sep);
      if s[0] == sep then [""] + rest else [[s[0]] + rest[0]] + rest[1..]
  }

  function Join(parts: seq<string>, sep: char): string
    requires |parts| > 0
  {
    if |parts| == 1 then parts[0] else parts[0] + [sep] + Join(parts[1..], sep)
  }

  lemma {:induction false} JoinFront(c: char, parts: seq<string>, sep: char)
    requires |parts| > 0
    ensures Join([[c] + parts[0]] + parts[1..], sep) == [c] + Join(parts, sep)
  {
    var longer := [[c] + parts[0]] + parts[1..];
    assert longer[1..] == parts[1..];
    if |parts| > 1 {
      var rest := Join(parts[1..], sep);
      assert [c] + parts[0] + [sep] + rest == [c] + (parts[0] + [sep] + rest);
    }
  }

  lemma {:induction false} JoinSplit(s: string, sep: char)
    ensures Join(Split(s, sep), sep) == s
  {
    if s != [] {
      JoinSplit(s[1..], sep);
      var rest := Split(s[1..], sep);
      assert s == [s[0]] + s[1..];
      if s[0] == sep {
        assert ([""] + rest)[1..] == rest;
      } else {
        JoinFront(s[0], rest, sep);
      }
    }
  }

  lemma {:induction false} SplitOne(s: string, sep: char)
    requires sep !in s
    ensures Split(s, sep) == [s]
  {
    if s != [] {
      SplitOne(s[1..], sep);
      assert s == [s[0]] + s[1..];
    }
  }

  /** Splitting at the first separator. */
  lemma {:induction false} SplitFirst(a: string, b: string, sep: char)
    requires sep !in a
    ensures Split(a + [sep] + b, sep) == [a] + Split(b, sep)
  {
    var whole := a + [sep] + b;
    if a == [] {
      assert whole[1..] == b;
    } else {
      assert whole[1..] == a[1..] + [sep] + b;
      SplitFirst(a[1..], b, sep);
      assert whole[0] == a[0] && a == [a[0]] + a[1..];
      assert ([a[1..]] + Split(b, sep))[1..] == Split(b, sep);
    }
  }

  lemma {:induction false} SplitJoin(parts: seq<string>, sep: char)
    requires |parts| > 0 && forall p :: p in parts ==> sep !in p
    ensures Split(Join(parts, sep), sep) == parts
  {
    assert parts[0] in parts;
    if |parts| == 1 {
      SplitOne(parts[0], sep);
    } else {
      SplitJoin(parts[1..], sep);
      SplitFirst(parts[0], Join(parts[1..], sep), sep);
    }
  }

  lemma {:induction false} SplitHasNoSeparator(s: string, sep: char)
    ensures forall p :: p in Split(s, sep) ==> sep !in p
  {
    if s != [] {
      SplitHasNoSeparator(s[1..], sep);
      var rest := Split(s[1..], sep);
      assert rest[0] in rest;
    }
  }

  predicate LetterOrDigit(c: char) {
    'a' <= c <= 'z' || '0' <= c <= '9'
  }

  /** A word of lower-case letters and digits. */
  predicate Word(w: string) {
    w != "" && forall i :: 0 <= i < |w| ==> LetterOrDigit(w[i])
  }

  predicate AllWords(words: seq<string>) {
    forall i :: 0 <= i < |words| ==> Word(words[i])
  }

  /** Canonical but for its length. */
  predicate Kebab(s: string) {
    && s != "" && s[0] != '-' && s[|s| - 1] != '-'
    && (forall i :: 0 <= i < |s| ==> LetterOrDigit(s[i]) || s[i] == '-')
    && (forall i :: 0 <= i < |s| - 1 ==> !(s[i] == '-' && s[i + 1] == '-'))
  }

  /** A letter or digit in front. */
  lemma KebabFront(c: char, rest: string)
    requires c != '-' && rest != "" && rest[0] != '-'
    ensures Kebab([c] + rest) <==> LetterOrDigit(c) && Kebab(rest)
  {
    var s := [c] + rest;
    assert forall i :: 0 <= i < |rest| ==> rest[i] == s[i + 1];
    assert forall i :: 0 < i < |s| ==> s[i] == rest[i - 1];
  }

  /** A letter or digit and a hyphen in front. */
  lemma KebabHyphen(c: char, rest: string)
    requires c != '-'
    ensures Kebab([c] + ['-'] + rest) <==> LetterOrDigit(c) && Kebab(rest)
  {
    var s := [c] + ['-'] + rest;
    assert s[0] == c && s[1] == '-';
    assert forall i :: 0 <= i < |rest| ==> rest[i] == s[i + 2];
    assert forall i :: 1 < i < |s| ==> s[i] == rest[i - 2];
    if Kebab(s) {
      assert rest != "" && s[|s| - 1] == rest[|rest| - 1];
      assert !(s[1] == '-' && s[1 + 1] == '-');
      forall i | 0 <= i < |rest| - 1 ensures !(rest[i] == '-' && rest[i + 1] == '-') {
        assert !(s[i + 2] == '-' && s[i + 2 + 1] == '-');
      }
    }
  }

  lemma WordsCons(w: string, words: seq<string>)
    ensures AllWords([w] + words) <==> Word(w) && AllWords(words)
  {
    var longer := [w] + words;
    assert longer[0] == w;
    assert forall i :: 0 < i < |longer| ==> longer[i] == words[i - 1];
    assert forall i :: 0 <= i < |words| ==> words[i] == longer[i + 1];
  }

  lemma WordsFront(c: char, words: seq<string>)
    requires |words| > 0 && words[0] != ""
    ensures AllWords([[c] + words[0]] + words[1..]) <==> LetterOrDigit(c) && AllWords(words)
  {
    var longer, w := [[c] + words[0]] + words[1..], [c] + words[0];
    assert longer[0] == w && w[0] == c;
    assert forall i :: 0 <= i < |words[0]| ==> words[0][i] == w[i + 1];
    assert forall i :: 0 < i < |w| ==> w[i] == words[0][i - 1];
    assert Word(w) <==> LetterOrDigit(c) && Word(words[0]);
    assert forall i :: 0 < i < |words| ==> longer[i] == words[i];
  }

  lemma {:induction false} KebabIsWords(s: string)
    ensures Kebab(s) <==> AllWords(Split(s, '-'))
    decreases |s|
  {
    var words := Split(s, '-');
    if s == "" || s[0] == '-' {
      assert words[0] == "";
      assert !Word(words[0]);
    } else if |s| == 1 {
      assert s == [s[0]];
      SplitOne(s, '-');
      assert words[0] == s;
    } else if s[1] == '-' {
      KebabIsWords(s[2..]);
      assert s == [s[0]] + ['-'] + s[2..];
      KebabHyphen(s[0], s[2..]);
      SplitFirst([s[0]], s[2..], '-');
      var first := [s[0]];
      assert first[0] == s[0];
      WordsCons(first, Split(s[2..], '-'));
    } else {
      KebabIsWords(s[1..]);
      assert s == [s[0]] + s[1..];
      KebabFront(s[0], s[1..]);
      WordsFront(s[0], Split(s[1..], '-'));
    }
  }

  /** Canonical ids are words joined by single hyphens, no longer than 64 characters. */
  lemma CanonicalExactly(id: string)
    ensures Canonical(id) <==> |id| <= 64 && AllWords(Split(id, '-'))
  {
    KebabIsWords(id);
    assert forall i :: 0 <= i < |id| ==> id[i] in id;
  }

  /** The metric consists of as many segments as the pattern, each equal to the pattern's, or any at a `*`. */
  ghost predicate Follows(pattern: seq<string>, metric: string) {
    exists segments: seq<string> ::
      && |segments| == |pattern| > 0 && Join(segments, '.') == metric
      && forall i :: 0 <= i < |pattern| ==> '.' !in segments[i] && (pattern[i] == "*" || segments[i] == pattern[i])
  }

  /** What a pattern with wildcards matches. */
  lemma WildcardPattern(pattern: seq<string>, metric: string)
    requires |pattern| > 0 && forall p :: p in pattern ==> '.' !in p
    ensures MetricMatches(Join(pattern, '.'), metric) <==> Follows(pattern, metric)
  {
    SplitJoin(pattern, '.');
    JoinSplit(metric, '.');
    SplitHasNoSeparator(metric, '.');
    if Follows(pattern, metric) {
      var segments: seq<string> :|
        && |segments| == |pattern| > 0 && Join(segments, '.') == metric
        && forall i :: 0 <= i < |pattern| ==> '.' !in segments[i] && (pattern[i] == "*" || segments[i] == pattern[i]);
      SplitJoin(segments, '.');
    }
  }

  /** `metric_matches`: segment by segment, `*` standing for any one segment. */
  predicate MetricMatches(pattern: string, metric: string) {
    var ps, ms := Split(pattern, '.'), Split(metric, '.');
    |ps| == |ms| && forall i :: 0 <= i < |ps| ==> ps[i] == "*" || ps[i] == ms[i]
  }

  /** A pattern without wildcards matches itself and nothing else. */
  lemma LiteralPattern(pattern: string, metric: string)
    requires forall segment :: segment in Split(pattern, '.') ==> segment != "*"
    ensures MetricMatches(pattern, metric) <==> pattern == metric
  {
    var ps, ms := Split(pattern, '.'), Split(metric, '.');
    if MetricMatches(pattern, metric) {
      forall i | 0 <= i < |ps| ensures ps[i] == ms[i] {
        assert ps[i] in Split(pattern, '.');
      }
      assert ps == ms;
      JoinSplit(pattern, '.');
      JoinSplit(metric, '.');
    }
  }

  /** `threshold_severity`. */
  function ThresholdSeverity(r: Rule, value: real): Option<Severity> {
    match r.direction
    case Above => if value >= r.critical then Some(Critical) else if value >= r.high then Some(High) else None
    case Under => if value <= r.critical then Some(Critical) else if value <= r.high then Some(High) else None
  }

  /** The value is at or past one of the rule's thresholds. */
  predicate Trips(r: Rule, value: real) {
    || (r.direction == Above && (value >= r.high || value >= r.critical))
    || (r.direction == Under && (value <= r.high || value <= r.critical))
  }

  /** The value is at or past the rule's critical threshold. */
  predicate TripsCritically(r: Rule, value: real) {
    (r.direction == Above && value >= r.critical) || (r.direction == Under && value <= r.critical)
  }

  lemma ThresholdExactly(r: Rule, value: real)
    ensures ThresholdSeverity(r, value).Some? <==> Trips(r, value)
    ensures ThresholdSeverity(r, value) == Some(Critical) <==> TripsCritically(r, value)
  {
  }

  datatype Condition = Condition(fingerprint: string, key: Key, severity: Severity)

  predicate EndsWith(s: string, suffix: string) {
    |suffix| <= |s| && s[|s| - |suffix|..] == suffix
  }

  const ECC := ".ecc_dbe"
  const XID := ".xid"
  const XID_LAST := "gpu.xid_last"

  predicate IndexedXid(s: Sample) {
    StartsWith(s.metric, "gpu.") && EndsWith(s.metric, XID) && s.metric != XID_LAST && s.value > 0.0
  }

  predicate EccTrips(s: Sample) {
    EndsWith(s.metric, ECC) && s.value > 0.0
  }

  /** The last XID is passed over when an indexed one is reported beside it. */
  predicate XidTrips(s: Sample, indexed: bool) {
    (EndsWith(s.metric, XID) || s.metric == XID_LAST) && s.value > 0.0 && !(s.metric == XID_LAST && indexed)
  }

  /** The metrics a hardware rule speaks about. */
  predicate OfRule(key: Key, metric: string) {
    match key
    case HardwareEcc => EndsWith(metric, ECC)
    case HardwareXid => EndsWith(metric, XID) || metric == XID_LAST
    case _ => true
  }

  /** The two hardware rules share their fingerprints, but no metric: its last character tells them apart. */
  lemma HardwareRulesNeverMeet(metric: string)
    ensures !(OfRule(HardwareEcc, metric) && OfRule(HardwareXid, metric))
  {
    EndsIn(metric, ECC);
    EndsIn(metric, XID);
    assert ECC[|ECC| - 1] == 'e' && XID[|XID| - 1] == 'd' && XID_LAST[|XID_LAST| - 1] == 't';
  }

  lemma EndsIn(s: string, suffix: string)
    requires suffix != []
    ensures EndsWith(s, suffix) ==> s != [] && s[|s| - 1] == suffix[|suffix| - 1]
  {
    if EndsWith(s, suffix) {
      assert s[|s| - |suffix|..][|suffix| - 1] == s[|s| - 1];
    }
  }

  function HardwareCondition(host: string, s: Sample, key: Key): Condition
    requires Telemetry(key)
  {
    Condition(Print(key, host, s.metric), key, Critical)
  }

  function HardwareConditions(host: string, s: Sample, indexed: bool): seq<Condition> {
    (if EccTrips(s) then [HardwareCondition(host, s, HardwareEcc)] else [])
    + (if XidTrips(s, indexed) then [HardwareCondition(host, s, HardwareXid)] else [])
  }

  /** A sample trips a hardware rule. */
  predicate HardwareTrips(key: Key, s: Sample, indexed: bool) {
    (key.HardwareEcc? && EccTrips(s)) || (key.HardwareXid? && XidTrips(s, indexed))
  }

  lemma HardwareListed(host: string, s: Sample, indexed: bool, c: Condition)
    ensures c in HardwareConditions(host, s, indexed) <==>
            (c.key.HardwareEcc? || c.key.HardwareXid?) && HardwareTrips(c.key, s, indexed)
            && c == HardwareCondition(host, s, c.key)
  {
  }

  predicate Breaches(r: Rule, s: Sample) {
    r.enabled && MetricMatches(r.pattern, s.metric) && ThresholdSeverity(r, s.value).Some?
  }

  function RuleConditions(host: string, rules: seq<Rule>, s: Sample): seq<Condition> {
    if rules == [] then []
    else
      var earlier, r := RuleConditions(host, rules[..|rules| - 1], s), rules[|rules| - 1];
      if Breaches(r, s)
      then earlier + [Condition(Print(MetricRule(r.id), host, s.metric), MetricRule(r.id),
                                ThresholdSeverity(r, s.value).value)]
      else earlier
  }

  /** The conditions in the order they are found, before sorting. */
  function Found(host: string, rules: seq<Rule>, samples: seq<Sample>, indexed: bool): seq<Condition> {
    if samples == [] then []
    else
      var s := samples[|samples| - 1];
      Found(host, rules, samples[..|samples| - 1],
            indexed) + (HardwareConditions(host, s, indexed) + RuleConditions(host, rules, s))
  }

  function First(cs: seq<Condition>, fingerprint: string): Option<Condition> {
    if cs == [] then None else if cs[0].fingerprint == fingerprint then Some(cs[0]) else First(cs[1..], fingerprint)
  }

  lemma {:induction false} FirstOfConcat(a: seq<Condition>, b: seq<Condition>, fp: string)
    ensures First(a + b, fp) == if First(a, fp).Some? then First(a, fp) else First(b, fp)
  {
    if a == [] {
      assert a + b == b;
    } else {
      assert (a + b)[1..] == a[1..] + b;
      FirstOfConcat(a[1..], b, fp);
    }
  }

  lemma {:induction false} FirstIsListed(cs: seq<Condition>, fp: string)
    ensures First(cs, fp).Some? <==> exists c :: c in cs && c.fingerprint == fp
    ensures First(cs, fp).Some? ==> First(cs, fp).value in cs && First(cs, fp).value.fingerprint == fp
  {
    if cs != [] {
      FirstIsListed(cs[1..], fp);
      assert cs == [cs[0]] + cs[1..];
    }
  }

  // ---- Sorting and removing duplicates ----

  /** Stable insertion: in front of every condition that is not below the inserted one. */
  function Insert(c: Condition, cs: seq<Condition>): seq<Condition> {
    if cs == [] || !Below(cs[0].fingerprint, c.fingerprint) then [c] + cs else [cs[0]] + Insert(c, cs[1..])
  }

  function StableSort(cs: seq<Condition>): seq<Condition> {
    if cs == [] then [] else Insert(cs[0], StableSort(cs[1..]))
  }

  /** `dedup_by`: drops every condition whose fingerprint equals that of its predecessor. */
  function Dedup(cs: seq<Condition>): seq<Condition>
    decreases |cs|
  {
    if |cs| <= 1 then cs
    else if cs[0].fingerprint == cs[1].fingerprint then Dedup([cs[0]] + cs[2..])
    else [cs[0]] + Dedup(cs[1..])
  }

  /** Sorted by fingerprint, duplicates side by side. */
  predicate Ordered(cs: seq<Condition>) {
    |cs| > 1 ==> !Below(cs[1].fingerprint, cs[0].fingerprint) && Ordered(cs[1..])
  }

  predicate StrictlyOrdered(cs: seq<Condition>) {
    |cs| > 1 ==> Below(cs[0].fingerprint, cs[1].fingerprint) && StrictlyOrdered(cs[1..])
  }

  lemma {:induction false} InsertKeeps(c: Condition, cs: seq<Condition>, fp: string)
    requires Ordered(cs)
    ensures Ordered(Insert(c, cs))
    ensures First(Insert(c, cs), fp) == First([c] + cs, fp)
    ensures |Insert(c, cs)| > 0 && (Insert(c, cs)[0] == c || (cs != [] && Insert(c, cs)[0] == cs[0]))
  {
    var r := Insert(c, cs);
    if cs == [] || !Below(cs[0].fingerprint, c.fingerprint) {
      assert r[1..] == cs;
    } else {
      InsertKeeps(c, cs[1..], fp);
      assert r[1..] == Insert(c, cs[1..]);
      assert ([c] + cs)[1..] == cs && ([c] + cs[1..])[1..] == cs[1..];
      NotBelowBack(cs[0].fingerprint, c.fingerprint);
    }
  }

  lemma NotBelowBack(a: string, b: string)
    requires Below(a, b)
    ensures a != b && !Below(b, a)
  {
    BelowIrreflexive(a);
    if Below(b, a) {
      BelowTransitive(a, b, a);
    }
  }

  lemma {:induction false} SortKeeps(cs: seq<Condition>, fp: string)
    ensures Ordered(StableSort(cs)) && First(StableSort(cs), fp) == First(cs, fp)
  {
    if cs != [] {
      SortKeeps(cs[1..], fp);
      InsertKeeps(cs[0], StableSort(cs[1..]), fp);
      assert ([cs[0]] + StableSort(cs[1..]))[1..] == StableSort(cs[1..]);
    }
  }

  lemma {:induction false} DedupKeeps(cs: seq<Condition>, fp: string)
    requires Ordered(cs)
    ensures First(Dedup(cs), fp) == First(cs, fp)
    ensures StrictlyOrdered(Dedup(cs))
    ensures cs != [] ==> Dedup(cs) != [] && Dedup(cs)[0] == cs[0]
    decreases |cs|
  {
    if |cs| > 1 {
      if cs[0].fingerprint == cs[1].fingerprint {
        var shorter := [cs[0]] + cs[2..];
        assert shorter[1..] == cs[2..] == cs[1..][1..];
        DedupKeeps(shorter, fp);
      } else {
        BelowTotal(cs[0].fingerprint, cs[1].fingerprint);
        DedupKeeps(cs[1..], fp);
        assert Dedup(cs)[1..] == Dedup(cs[1..]);
      }
    }
  }

  lemma {:induction false} StrictlyOrderedDistinct(cs: seq<Condition>, j: nat)
    requires StrictlyOrdered(cs) && 0 < j < |cs|
    ensures Below(cs[0].fingerprint, cs[j].fingerprint)
  {
    if j > 1 {
      StrictlyOrderedDistinct(cs[1..], j - 1);
      BelowTransitive(cs[0].fingerprint, cs[1].fingerprint, cs[j].fingerprint);
    }
  }

  /** In a list without repeated fingerprints every condition is the first of its fingerprint. */
  lemma {:induction false} StrictlyOrderedFirst(cs: seq<Condition>, j: nat)
    requires StrictlyOrdered(cs) && j < |cs|
    ensures First(cs, cs[j].fingerprint) == Some(cs[j])
  {
    if j > 0 {
      StrictlyOrderedDistinct(cs, j);
      NotBelowBack(cs[0].fingerprint, cs[j].fingerprint);
      StrictlyOrderedFirst(cs[1..], j - 1);
    }
  }

  lemma {:induction false} RuleConditionsListed(host: string, rules: seq<Rule>, s: Sample, c: Condition)
    ensures c in RuleConditions(host, rules, s) <==>
            exists r :: r in rules && Breaches(r, s)
                        && c ==
                          Condition(Print(MetricRule(r.id), host, s.metric), MetricRule(r.id),
                                    ThresholdSeverity(r, s.value).value)
  {
    if rules != [] {
      var r := rules[|rules| - 1];
      RuleConditionsListed(host, rules[..|rules| - 1], s, c);
      assert rules == rules[..|rules| - 1] + [r];
    }
  }

  predicate ConditionOf(host: string, rules: seq<Rule>, s: Sample, indexed: bool, c: Condition) {
    c in HardwareConditions(host, s, indexed) || c in RuleConditions(host, rules, s)
  }

  lemma {:induction false} FoundListed(host: string, rules: seq<Rule>, samples: seq<Sample>, indexed: bool,
                                       c: Condition)
    ensures c in Found(host, rules, samples, indexed) <==>
              exists s :: s in samples && ConditionOf(host, rules, s, indexed, c)
  {
    if samples != [] {
      var s := samples[|samples| - 1];
      FoundListed(host, rules, samples[..|samples| - 1], indexed, c);
      FoundLast(host, rules, samples, indexed, c);
      assert forall x :: x in samples <==> x in samples[..|samples| - 1] || x == s;
    }
  }

  lemma FoundLast(host: string, rules: seq<Rule>, samples: seq<Sample>, indexed: bool, c: Condition)
    requires samples != []
    ensures c in Found(host, rules, samples, indexed) <==>
            || c in Found(host, rules, samples[..|samples| - 1], indexed)
            || ConditionOf(host, rules, samples[|samples| - 1], indexed, c)
  {
  }

  // ---- What raises a condition ----

  /** The sample trips the rule with this key; `indexed` says that an indexed XID is reported beside it. */
  predicate TripsKey(rules: seq<Rule>, s: Sample, indexed: bool, key: Key) {
    match key
    case HardwareEcc => EndsWith(s.metric, ".ecc_dbe") && s.value > 0.0
    case HardwareXid => s.value > 0.0 && if s.metric == "gpu.xid_last" then !indexed else EndsWith(s.metric, ".xid")
    case MetricRule(id) =>
      exists r :: r in rules && r.id == id && r.enabled && MetricMatches(r.pattern, s.metric) && Trips(r, s.value)
    case Elsewhere(_) => false
  }

  /** The condition a sample raises: under the fingerprint of its rule, host and metric; hardware conditions are
      critical, others as the value is at or past the critical threshold or only the high one. */
  predicate Raises(host: string, rules: seq<Rule>, s: Sample, indexed: bool, c: Condition) {
    && TripsKey(rules, s, indexed, c.key) && c.fingerprint == Print(c.key, host, s.metric)
    && (c.key.HardwareEcc? || c.key.HardwareXid? ==> c.severity == Critical)
    && (c.key.MetricRule? ==>
          exists r :: && r in rules && r.id == c.key.id && r.enabled && MetricMatches(r.pattern, s.metric)
                      && Trips(r, s.value) && (c.severity == Critical <==> TripsCritically(r, s.value)))
  }

  lemma RaisedByRule(host: string, rules: seq<Rule>, s: Sample, indexed: bool, c: Condition)
    requires c.key.MetricRule?
    ensures c in RuleConditions(host, rules, s) <==> Raises(host, rules, s, indexed, c)
  {
    RuleConditionsListed(host, rules, s, c);
    forall r | r in rules ensures ThresholdSeverity(r, s.value).Some? <==> Trips(r, s.value) {
      ThresholdExactly(r, s.value);
    }
  }

  /** The conditions listed for a sample are exactly those it raises. */
  lemma RaisedExactly(host: string, rules: seq<Rule>, s: Sample, indexed: bool, c: Condition)
    ensures ConditionOf(host, rules, s, indexed, c) <==> Raises(host, rules, s, indexed, c)
  {
    HardwareListed(host, s, indexed, c);
    if c.key.MetricRule? {
      RaisedByRule(host, rules, s, indexed, c);
    } else {
      RuleConditionsListed(host, rules, s, c);
    }
  }

  /** Some sample of the evaluation raises the condition. */
  predicate RaisedIn(host: string, rules: seq<Rule>, samples: seq<Sample>, c: Condition) {
    exists s :: s in samples && Raises(host, rules, s, ReportsIndexedXid(samples), c)
  }

  /** An XID event is reported for a GPU by its index. */
  predicate ReportsIndexedXid(samples: seq<Sample>) {
    exists s :: s in samples && StartsWith(s.metric, "gpu.") && EndsWith(s.metric, ".xid")
                && s.metric != "gpu.xid_last" && s.value > 0.0
  }

  lemma FoundExactly(host: string, rules: seq<Rule>, samples: seq<Sample>, indexed: bool, c: Condition)
    requires indexed == ReportsIndexedXid(samples)
    ensures c in Found(host, rules, samples, indexed) <==> RaisedIn(host, rules, samples, c)
  {
    FoundListed(host, rules, samples, indexed, c);
    forall s | s in samples ensures ConditionOf(host, rules, s, indexed, c) <==> Raises(host, rules, s, indexed, c) {
      RaisedExactly(host, rules, s, indexed, c);
    }
  }

  /** The conditions of one sample: hardware first, then the enabled matching rules in order. */
  method SampleConditions(host: string, rules: seq<Rule>, s: Sample, indexed: bool) returns (added: seq<Condition>)
    ensures added == HardwareConditions(host, s, indexed) + RuleConditions(host, rules, s)
  {
    added := [];
    if EccTrips(s) {
      added := added + [HardwareCondition(host, s, HardwareEcc)];
    }
    if XidTrips(s, indexed) {
      added := added + [HardwareCondition(host, s, HardwareXid)];
    }
    assert added == HardwareConditions(host, s, indexed);
    for j := 0 to |rules|
      invariant added == HardwareConditions(host, s, indexed) + RuleConditions(host, rules[..j], s)
    {
      assert rules[..j + 1][..j] == rules[..j];
      if Breaches(rules[j], s) {
        var severity := ThresholdSeverity(rules[j], s.value).value;
        added := added + [Condition(Print(MetricRule(rules[j].id), host, s.metric), MetricRule(rules[j].id), severity)];
      }
    }
    assert rules[..|rules|] == rules;
  }

  lemma SortedDedup(found: seq<Condition>)
    ensures StrictlyOrdered(Dedup(StableSort(found)))
    ensures forall fp :: First(Dedup(StableSort(found)), fp) == First(found, fp)
  {
    forall fp ensures First(Dedup(StableSort(found)), fp) == First(found, fp) {
      SortKeeps(found, fp);
      DedupKeeps(StableSort(found), fp);
    }
    SortKeeps(found, "");
    DedupKeeps(StableSort(found), "");
  }

  /** `active_conditions`: sorted by fingerprint, one condition for each, the first one found in sample order. */
  method ActiveConditions(host: string, rules: seq<Rule>, samples: seq<Sample>) returns (cs: seq<Condition>)
    ensures StrictlyOrdered(cs)
    ensures forall fp ::
              First(cs, fp) == First(Found(host, rules, samples, exists s :: s in samples && IndexedXid(s)), fp)
    ensures forall c :: c in cs ==> RaisedIn(host, rules, samples, c)
    ensures forall c :: RaisedIn(host, rules, samples, c) ==> First(cs, c.fingerprint).Some?
  {
    cs := [];
    var indexed := exists s :: s in samples && IndexedXid(s);
    for i := 0 to |samples|
      invariant cs == Found(host, rules, samples[..i], indexed)
    {
      assert samples[..i + 1][..i] == samples[..i];
      var added := SampleConditions(host, rules, samples[i], indexed);
      cs := cs + added;
    }
    assert samples[..|samples|] == samples;
    SortedDedup(cs);
    ghost var found := cs;
    cs := Dedup(StableSort(cs));
    ListedAsFound(host, rules, samples, indexed, found, cs);
  }

  lemma ListedAsFound(host: string, rules: seq<Rule>, samples: seq<Sample>, indexed: bool, found: seq<Condition>,
                      cs: seq<Condition>)
    requires indexed == (exists s :: s in samples && IndexedXid(s)) && found == Found(host, rules, samples, indexed)
    requires StrictlyOrdered(cs) && forall fp :: First(cs, fp) == First(found, fp)
    ensures forall c :: c in cs ==> RaisedIn(host, rules, samples, c)
    ensures forall c :: RaisedIn(host, rules, samples, c) ==> First(cs, c.fingerprint).Some?
  {
    assert indexed == ReportsIndexedXid(samples);
    forall c | c in cs ensures RaisedIn(host, rules, samples, c) {
      var j :| 0 <= j < |cs| && cs[j] == c;
      StrictlyOrderedFirst(cs, j);
      FirstIsListed(found, c.fingerprint);
      FoundExactly(host, rules, samples, indexed, c);
    }
    forall c | RaisedIn(host, rules, samples, c) ensures First(cs, c.fingerprint).Some? {
      FoundExactly(host, rules, samples, indexed, c);
      FirstIsListed(found, c.fingerprint);
    }
  }

  // ---- Reconciliation with the stored alerts ----

  datatype State = Pending | Firing

  datatype Alert = Alert(
    host: string,
    key: Key,
    severity: Severity,
    state: State,
    pendingSince: int,
    activeSince: Option<int>)

  /** An alert read back for evaluation, with its fingerprint and the metric read from it. */
  datatype Prior = Prior(fingerprint: string, alert: Alert, metric: Option<string>)

  const SECOND := 1_000_000_000

  /** A time as it is stored. */
  function Millis(t: int): int {
    t - t % 1_000_000
  }

  lemma MillisTwice(t: int)
    ensures Millis(Millis(t)) == Millis(t)
  {
  }

  /** Whole seconds of a duration, cut toward zero. */
  function NumSeconds(d: int): int {
    if d >= 0 then d / SECOND else -(-d / SECOND)
  }

  /** The wait of a rule key: ordered-map semantics, a later rule replaces an earlier one; other keys do not wait. */
  function Wait(rules: seq<Rule>, key: Key): int {
    if rules == [] then 0
    else if MetricRule(rules[|rules| - 1].id) == key then rules[|rules| - 1].forSeconds
    else Wait(rules[..|rules| - 1], key)
  }

  predicate Waited(wait: int, since: int, now: int) {
    wait == 0 || NumSeconds(now - since) >= wait
  }

  /** The wait is over when it is none, or when so many seconds have passed. */
  lemma WaitedExactly(wait: int, since: int, now: int)
    requires wait >= 0
    ensures Waited(wait, since, now) <==> wait == 0 || now - since >= wait * 1_000_000_000
  {
  }

  /** A stored time is the last whole millisecond before it. */
  lemma MillisExactly(t: int)
    ensures Millis(t) % 1_000_000 == 0 && Millis(t) <= t < Millis(t) + 1_000_000
  {
  }

  /** The alert written for an active condition. */
  function Project(host: string, c: Condition, prior: Option<Alert>, wait: int, now: int): Alert {
    var since := if prior.Some? then prior.value.pendingSince else now;
    var firing := Waited(wait, since, now) || (prior.Some? && prior.value.state == Firing);
    var active :=
      if !firing then None
      else if prior.Some? && prior.value.activeSince.Some? then Some(Millis(prior.value.activeSince.value))
      else Some(Millis(now));
    Alert(host, c.key, c.severity, if firing then Firing else Pending, Millis(since), active)
  }

  /** The first rule with a key. */
  function FindRule(rules: seq<Rule>, key: Key): Option<Rule> {
    if rules == [] then None else if MetricRule(rules[0].id) == key then Some(rules[0]) else FindRule(rules[1..], key)
  }

  /** Whether an alert without an active condition is deleted. */
  predicate Resolved(key: Key, metric: Option<string>, rules: seq<Rule>, observed: set<string>) {
    var sampled := metric.Some? && metric.value in observed;
    match key
    case HardwareEcc | HardwareXid => sampled
    case MetricRule(_) =>
      var rule := FindRule(rules, key);
      rule.None? || !rule.value.enabled || sampled
    case Elsewhere(_) => false
  }

  /** The prior alert with a fingerprint: ordered-map semantics, a later row replaces an earlier one. */
  function PriorOf(prior: seq<Prior>, fp: string): Option<Alert> {
    if prior == [] then None
    else if prior[|prior| - 1].fingerprint == fp then Some(prior[|prior| - 1].alert)
    else PriorOf(prior[..|prior| - 1], fp)
  }

  method IndexPrior(prior: seq<Prior>) returns (index: map<string, Alert>)
    ensures forall fp :: PriorOf(prior, fp) == if fp in index then Some(index[fp]) else None
  {
    index := map[];
    for i := 0 to |prior|
      invariant forall fp :: PriorOf(prior[..i], fp) == if fp in index then Some(index[fp]) else None
    {
      assert prior[..i + 1][..i] == prior[..i];
      index := index[prior[i].fingerprint := prior[i].alert];
    }
    assert prior[..|prior|] == prior;
  }

  method IndexWaits(rules: seq<Rule>) returns (waits: map<Key, int>)
    ensures forall k :: Wait(rules, k) == if k in waits then waits[k] else 0
  {
    waits := map[];
    for i := 0 to |rules|
      invariant forall k :: Wait(rules[..i], k) == if k in waits then waits[k] else 0
    {
      assert rules[..i + 1][..i] == rules[..i];
      waits := waits[MetricRule(rules[i].id) := rules[i].forSeconds];
    }
    assert rules[..|rules|] == rules;
  }

  /** `reconcile`: the alerts to write, one for each active condition, and the fingerprints to delete. */
  method Reconcile(host: string, active: seq<Condition>, prior: seq<Prior>, rules: seq<Rule>, observed: set<string>,
                   now: int)
    returns (keep: seq<Alert>, resolved: seq<string>)
    ensures |keep| == |active|
    ensures forall i :: 0 <= i < |active| ==>
                          keep[i] ==
                            Project(host, active[i], PriorOf(prior, active[i].fingerprint), Wait(rules, active[i].key),
                                    now)
    ensures forall fp :: fp in resolved <==>
                         First(active, fp).None? && exists p ::
                             p in prior && p.fingerprint == fp && Resolved(p.alert.key, p.metric, rules, observed)
  {
    var index := IndexPrior(prior);
    var waits := IndexWaits(rules);
    keep := [];
    for i := 0 to |active|
      invariant |keep| == i
      invariant forall j :: 0 <= j < i ==>
                              keep[j] ==
                                Project(host, active[j], PriorOf(prior, active[j].fingerprint),
                                        Wait(rules, active[j].key), now)
    {
      var c := active[i];
      var wait := if c.key in waits then waits[c.key] else 0;
      keep := keep + [Project(host, c, if c.fingerprint in index then Some(index[c.fingerprint]) else None, wait, now)];
    }
    resolved := [];
    for i := 0 to |prior|
      invariant forall fp :: fp in resolved <==>
                             First(active, fp).None? && exists p ::
                                 p in prior[..i] && p.fingerprint == fp
                                 && Resolved(p.alert.key, p.metric, rules, observed)
    {
      var p := prior[i];
      assert prior[..i + 1] == prior[..i] + [p];
      if First(active, p.fingerprint).None? && Resolved(p.alert.key, p.metric, rules, observed) {
        resolved := resolved + [p.fingerprint];
      }
    }
    assert prior[..|prior|] == prior;
  }
}
