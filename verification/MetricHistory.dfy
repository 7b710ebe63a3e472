/** Metric history: `rebucket` aggregates a series into buckets, `history_coverage` reports what is missing from it.

    Times are whole seconds, the only part of a timestamp that bucketing looks at; values are reals. */
module MetricHistory {

  datatype Point = Point(at: int, average: real, minimum: real, maximum: real, samples: nat)

  // ---- Aggregates ----

  datatype Agg = Empty | Agg(weight: real, samples: nat, low: real, high: real)

  function Min(a: real, b: real): real {
    if a <= b then a else b
  }

  function Max(a: real, b: real): real {
    if a >= b then a else b
  }

  /** Two aggregates taken together. */
  function Plus(a: Agg, b: Agg): Agg {
    if a.Empty? then b
    else if b.Empty? then a
    else Agg(a.weight + b.weight, a.samples + b.samples, Min(a.low, b.low), Max(a.high, b.high))
  }

  function Times(x: real, n: nat): real {
    x * n as real
  }

  function One(p: Point): Agg {
    Agg(Times(p.average, p.samples), p.samples, p.minimum, p.maximum)
  }

  lemma PlusShuffles(a: Agg, b: Agg, c: Agg)
    ensures Plus(a, b) == Plus(b, a)
    ensures Plus(Plus(a, b), c) == Plus(a, Plus(b, c))
    ensures Plus(Plus(a, b), c) == Plus(Plus(a, c), b)
  {
  }

  /** The start of the bucket a time falls in. */
  function Bucket(t: int, step: int): int
    requires step > 0
  {
    t / step * step
  }

  /** A set of times: all of them, or one bucket. */
  datatype Scope = Everything | InBucket(step: int, start: int)

  predicate Holds(scope: Scope, t: int) {
    scope.Everything? || (scope.step > 0 && Bucket(t, scope.step) == scope.start)
  }

  function Share(p: Point, scope: Scope): Agg {
    if Holds(scope, p.at) then One(p) else Empty
  }

  /** The aggregate of the points within a scope. */
  function Total(ps: seq<Point>, scope: Scope): Agg {
    if ps == [] then Empty else Plus(Total(ps[..|ps| - 1], scope), Share(ps[|ps| - 1], scope))
  }

  lemma {:induction false} TotalOfConcat(a: seq<Point>, b: seq<Point>, scope: Scope)
    ensures Total(a + b, scope) == Plus(Total(a, scope), Total(b, scope))
  {
    if b == [] {
      assert a + b == a;
    } else {
      var n := |b| - 1;
      assert (a + b)[..|a + b| - 1] == a + b[..n];
      TotalOfConcat(a, b[..n], scope);
      PlusShuffles(Total(a, scope), Total(b[..n], scope), Share(b[n], scope));
    }
  }

  /** The order of the points does not matter. */
  lemma {:induction false} TotalOfPermutation(ps: seq<Point>, qs: seq<Point>, scope: Scope)
    requires multiset(ps) == multiset(qs)
    ensures Total(ps, scope) == Total(qs, scope)
    decreases |ps|
  {
    if ps == [] {
      assert |multiset(qs)| == 0;
    } else {
      var n, x := |ps| - 1, ps[|ps| - 1];
      assert ps == ps[..n] + [x];
      assert x in multiset(qs);
      var i :| 0 <= i < |qs| && qs[i] == x;
      var left, right := qs[..i], qs[i + 1..];
      SplitAt(qs, i);
      Without(left, x, right);
      Without(ps[..n], x, []);
      assert ps[..n] + [x] + [] == ps && ps[..n] + [] == ps[..n];
      TotalOfPermutation(ps[..n], left + right, scope);
      TotalOfMoved(left, x, right, scope);
    }
  }

  lemma SplitAt(qs: seq<Point>, i: nat)
    requires i < |qs|
    ensures qs == qs[..i] + [qs[i]] + qs[i + 1..]
  {
    assert qs[i..] == [qs[i]] + qs[i + 1..];
    assert qs == qs[..i] + qs[i..];
  }

  lemma Without(left: seq<Point>, x: Point, right: seq<Point>)
    ensures multiset(left + right) == multiset(left + [x] + right) - multiset{x}
  {
  }

  lemma TotalOfMoved(left: seq<Point>, x: Point, right: seq<Point>, scope: Scope)
    ensures Total(left + [x] + right, scope) == Plus(Total(left + right, scope), Share(x, scope))
  {
    TotalOfConcat(left, right, scope);
    TotalOfConcat(left + [x], right, scope);
    assert (left + [x])[..|left|] == left;
    PlusShuffles(Total(left, scope), Share(x, scope), Total(right, scope));
  }

  lemma {:induction false} TotalNeedsPoint(ps: seq<Point>, scope: Scope)
    ensures Total(ps, scope) != Empty <==> exists p :: p in ps && Holds(scope, p.at)
  {
    if ps != [] {
      var n := |ps| - 1;
      TotalNeedsPoint(ps[..n], scope);
      assert ps == ps[..n] + [ps[n]];
    }
  }

  // ---- Bucketing ----

  predicate Increasing(ps: seq<Point>) {
    forall i, j :: 0 <= i < j < |ps| ==> ps[i].at < ps[j].at
  }

  predicate HasPoint(ps: seq<Point>, t: int) {
    exists p :: p in ps && p.at == t
  }

  /** Every point stands for at least one sample, as the parsed rows do. */
  predicate Sampled(ps: seq<Point>) {
    forall p :: p in ps ==> p.samples > 0
  }

  /** `rs` is the series `ps` in buckets of `step` seconds: in time order, one point for each bucket that holds a
      point of `ps`, aggregating exactly those. */
  ghost predicate IsRebucket(rs: seq<Point>, ps: seq<Point>, step: int) {
    && step > 0
    && Increasing(rs)
    && (forall r :: r in rs ==> One(r) == Total(ps, InBucket(step, r.at)))
    && (forall t :: Total(ps, InBucket(step, t)) != Empty ==> HasPoint(rs, t))
  }

  predicate Earliest(keys: set<int>, k: int) {
    k in keys && forall x :: x in keys ==> k <= x
  }

  lemma EarlierOfTwo(keys: set<int>, k: int, rest: int)
    requires k in keys && Earliest(keys - {k}, rest)
    ensures Earliest(keys, if k <= rest then k else rest)
  {
    forall x | x in keys ensures rest <= x || x == k {
      assert x != k ==> x in keys - {k};
    }
  }

  lemma {:induction false} HasEarliest(keys: set<int>)
    requires keys != {}
    ensures exists k :: Earliest(keys, k)
  {
    assert (forall k :: k !in keys) ==> keys == {};
    var k :| k in keys;
    if keys == {k} {
      assert Earliest(keys, k);
    } else {
      HasEarliest(keys - {k});
      var rest :| Earliest(keys - {k}, rest);
      EarlierOfTwo(keys, k, rest);
    }
  }

  /** The keys of an ordered map, in the order iteration yields them. */
  function Ascending(keys: set<int>): (r: seq<int>)
    ensures forall i, j :: 0 <= i < j < |r| ==> r[i] < r[j]
    ensures forall k :: k in r <==> k in keys
  {
    if keys == {} then [] else
      HasEarliest(keys);
      var k :| k in keys && Earliest(keys, k);
      var rest := Ascending(keys - {k});
      assert forall i :: 0 <= i < |rest| ==> rest[i] in keys - {k};
      [k] + rest
  }

  /** The accumulators of `rebucket`: one entry for each bucket met so far. */
  method Accumulate(ps: seq<Point>, step: int) returns (buckets: map<int, Agg>)
    requires step > 0
    ensures forall t :: Total(ps, InBucket(step, t)) == if t in buckets then buckets[t] else Empty
    ensures forall t :: t in buckets ==> buckets[t] != Empty
  {
    buckets := map[];
    for i := 0 to |ps|
      invariant forall t :: Total(ps[..i], InBucket(step, t)) == if t in buckets then buckets[t] else Empty
      invariant forall t :: t in buckets ==> buckets[t] != Empty
    {
      assert ps[..i + 1][..i] == ps[..i];
      var t := Bucket(ps[i].at, step);
      var bucket := if t in buckets then buckets[t] else Empty;
      buckets := buckets[t := Plus(bucket, One(ps[i]))];
    }
    assert ps[..|ps|] == ps;
  }

  /** A bucket's point: the weighted sum becomes an average again. */
  function PointOf(t: int, a: Agg): (p: Point)
    requires a.Agg? && a.samples > 0
    ensures One(p) == a
  {
    Restore(a.weight, a.samples as real);
    Point(t, a.weight / a.samples as real, a.low, a.high, a.samples)
  }

  lemma Restore(w: real, n: real)
    requires n > 0.0
    ensures w / n * n == w
  {
  }

  lemma {:induction false} SampledTotal(ps: seq<Point>, scope: Scope)
    requires Sampled(ps)
    ensures Total(ps, scope).Agg? ==> Total(ps, scope).samples > 0
  {
    if ps != [] {
      SampledTotal(ps[..|ps| - 1], scope);
    }
  }

  /** Bucketing when points may stand for no sample: a bucket without samples yields no point. */
  ghost predicate IsFilteredRebucket(rs: seq<Point>, ps: seq<Point>, step: int) {
    && step > 0
    && Increasing(rs) && Sampled(rs)
    && (forall r :: r in rs ==> One(r) == Total(ps, InBucket(step, r.at)))
    && (forall t :: HasSamples(Total(ps, InBucket(step, t))) ==> HasPoint(rs, t))
  }

  predicate HasSamples(a: Agg) {
    a.Agg? && a.samples > 0
  }

  lemma FilterKeepsSampled(rs: seq<Point>, ps: seq<Point>, step: int)
    requires IsFilteredRebucket(rs, ps, step) && Sampled(ps)
    ensures IsRebucket(rs, ps, step)
  {
    forall t | Total(ps, InBucket(step, t)) != Empty ensures HasPoint(rs, t) {
      SampledTotal(ps, InBucket(step, t));
    }
  }

  /** `rebucket`. */
  method Rebucket(ps: seq<Point>, step: int) returns (rs: seq<Point>)
    requires step > 0
    ensures IsFilteredRebucket(rs, ps, step)
    ensures Sampled(ps) ==> IsRebucket(rs, ps, step)
  {
    var buckets := Accumulate(ps, step);
    var keys := Ascending(set t | t in buckets && HasSamples(buckets[t]));
    rs := [];
    for i := 0 to |keys|
      invariant |rs| == i
      invariant forall j :: 0 <= j < i ==>
                  rs[j].at == keys[j] && rs[j].samples > 0 && keys[j] in buckets && One(rs[j]) == buckets[keys[j]]
    {
      assert keys[i] in keys;
      rs := rs + [PointOf(keys[i], buckets[keys[i]])];
    }
    CollectedIsRebucket(rs, keys, buckets, ps, step);
    if Sampled(ps) {
      FilterKeepsSampled(rs, ps, step);
    }
  }

  lemma CollectedIsRebucket(rs: seq<Point>, keys: seq<int>, buckets: map<int, Agg>, ps: seq<Point>, step: int)
    requires step > 0 && |rs| == |keys|
    requires forall i, j :: 0 <= i < j < |keys| ==> keys[i] < keys[j]
    requires forall k :: k in buckets && HasSamples(buckets[k]) ==> k in keys
    requires forall j :: 0 <= j < |rs| ==>
               rs[j].at == keys[j] && rs[j].samples > 0 && keys[j] in buckets && One(rs[j]) == buckets[keys[j]]
    requires forall t :: Total(ps, InBucket(step, t)) == if t in buckets then buckets[t] else Empty
    ensures IsFilteredRebucket(rs, ps, step)
  {
    forall t | HasSamples(Total(ps, InBucket(step, t))) ensures HasPoint(rs, t) {
      var i :| 0 <= i < |keys| && keys[i] == t;
      assert rs[i] in rs;
    }
  }

  /** Bucketing has one result. */
  lemma {:induction false} RebucketUnique(rs: seq<Point>, qs: seq<Point>, ps: seq<Point>, step: int)
    requires IsRebucket(rs, ps, step) && IsRebucket(qs, ps, step) && Sampled(ps)
    ensures rs == qs
  {
    forall r | r in rs ensures r in qs { SharedPoint(rs, qs, ps, step, r); }
    forall q | q in qs ensures q in rs { SharedPoint(qs, rs, ps, step, q); }
    IncreasingUnique(rs, qs);
  }

  lemma SharedPoint(rs: seq<Point>, qs: seq<Point>, ps: seq<Point>, step: int, r: Point)
    requires IsRebucket(rs, ps, step) && IsRebucket(qs, ps, step) && Sampled(ps) && r in rs
    ensures r in qs
  {
    assert One(r) == Total(ps, InBucket(step, r.at));
    assert HasPoint(qs, r.at);
    var q :| q in qs && q.at == r.at;
    SampledTotal(ps, InBucket(step, r.at));
    SamePoint(r, q);
  }

  lemma SamePoint(r: Point, q: Point)
    requires r.at == q.at && One(r) == One(q) && r.samples > 0
    ensures r == q
  {
    assert One(r).weight == One(q).weight && r.samples == q.samples;
    Cancel(r.average, q.average, r.samples);
  }

  lemma Cancel(x: real, y: real, n: nat)
    requires n > 0 && Times(x, n) == Times(y, n)
    ensures x == y
  {
    Undo(x, n as real);
    Undo(y, n as real);
  }

  lemma Undo(x: real, n: real)
    requires n > 0.0
    ensures x * n / n == x
  {
  }

  lemma {:induction false} IncreasingUnique(a: seq<Point>, b: seq<Point>)
    requires Increasing(a) && Increasing(b)
    requires (forall p :: p in a ==> p in b) && (forall p :: p in b ==> p in a)
    ensures a == b
  {
    assert a != [] ==> a[0] in b;
    assert b != [] ==> b[0] in a;
    if a != [] {
      var i :| 0 <= i < |b| && b[i] == a[0];
      var j :| 0 <= j < |a| && a[j] == b[0];
      assert i == 0;
      forall p | p in a[1..] ensures p in b[1..] {
        assert p in b && p != a[0];
        assert b == [b[0]] + b[1..];
      }
      forall p | p in b[1..] ensures p in a[1..] {
        assert p in a && p != b[0];
        assert a == [a[0]] + a[1..];
      }
      IncreasingUnique(a[1..], b[1..]);
      assert a == [a[0]] + a[1..] && b == [b[0]] + b[1..];
    }
  }

  /** Points in another order bucket to the same series. */
  lemma RebucketOfPermutation(rs: seq<Point>, ps: seq<Point>, qs: seq<Point>, step: int)
    requires IsRebucket(rs, ps, step) && multiset(ps) == multiset(qs)
    ensures IsRebucket(rs, qs, step)
  {
    forall t ensures Total(ps, InBucket(step, t)) == Total(qs, InBucket(step, t)) {
      TotalOfPermutation(ps, qs, InBucket(step, t));
    }
  }

  // ---- Bucketing what is already bucketed ----

  /** A scope that does not cut through a bucket. */
  ghost predicate Respects(scope: Scope, step: int)
    requires step > 0
  {
    forall t :: Holds(scope, t) <==> Holds(scope, Bucket(t, step))
  }

  /** The aggregates of the listed buckets whose start lies in the scope, taken together. */
  function Gathered(times: seq<int>, ps: seq<Point>, step: int, scope: Scope): Agg {
    if times == [] then Empty
    else
      var n := |times| - 1;
      Plus(Gathered(times[..n], ps, step, scope),
           if Holds(scope, times[n]) then Total(ps, InBucket(step, times[n])) else Empty)
  }

  predicate Distinct(times: seq<int>) {
    forall i, j :: 0 <= i < j < |times| ==> times[i] != times[j]
  }

  lemma {:induction false} GatheredNothing(times: seq<int>, step: int, scope: Scope)
    ensures Gathered(times, [], step, scope) == Empty
  {
    if times != [] {
      GatheredNothing(times[..|times| - 1], step, scope);
    }
  }

  /** One more point goes to one bucket only. */
  lemma {:induction false} GatheredOneMore(times: seq<int>, ps: seq<Point>, p: Point, step: int, scope: Scope)
    requires step > 0 && Distinct(times)
    ensures Gathered(times, ps + [p], step, scope) ==
            Plus(Gathered(times, ps, step, scope),
                 if Bucket(p.at, step) in times && Holds(scope, Bucket(p.at, step)) then One(p) else Empty)
  {
    if times != [] {
      var n, t := |times| - 1, times[|times| - 1];
      var earlier := times[..n];
      GatheredOneMore(earlier, ps, p, step, scope);
      assert (ps + [p])[..|ps|] == ps;
      assert times == earlier + [t];
      assert t !in earlier;
      PlusShuffles(Gathered(earlier, ps, step, scope), One(p), Total(ps, InBucket(step, t)));
      PlusShuffles(Gathered(earlier, ps, step, scope), Total(ps, InBucket(step, t)), One(p));
    }
  }

  lemma {:induction false} GatheredIsTotal(times: seq<int>, ps: seq<Point>, step: int, scope: Scope)
    requires step > 0 && Distinct(times) && Respects(scope, step)
    requires forall p :: p in ps ==> Bucket(p.at, step) in times
    ensures Gathered(times, ps, step, scope) == Total(ps, scope)
  {
    if ps == [] {
      GatheredNothing(times, step, scope);
    } else {
      var n := |ps| - 1;
      assert ps == ps[..n] + [ps[n]];
      GatheredIsTotal(times, ps[..n], step, scope);
      GatheredOneMore(times, ps[..n], ps[n], step, scope);
    }
  }

  function Moments(ps: seq<Point>): (ts: seq<int>)
    ensures |ts| == |ps| && forall i :: 0 <= i < |ps| ==> ts[i] == ps[i].at
  {
    if ps == [] then [] else Moments(ps[..|ps| - 1]) + [ps[|ps| - 1].at]
  }

  lemma {:induction false} TotalIsGathered(mid: seq<Point>, ps: seq<Point>, step: int, scope: Scope)
    requires forall m :: m in mid ==> One(m) == Total(ps, InBucket(step, m.at))
    ensures Total(mid, scope) == Gathered(Moments(mid), ps, step, scope)
  {
    if mid != [] {
      var n := |mid| - 1;
      TotalIsGathered(mid[..n], ps, step, scope);
      assert Moments(mid)[..n] == Moments(mid[..n]);
      assert mid[n] in mid;
    }
  }

  lemma PointIsBucketed(mid: seq<Point>, ps: seq<Point>, step: int, p: Point)
    requires IsRebucket(mid, ps, step) && p in ps
    ensures Bucket(p.at, step) in Moments(mid)
  {
    var t := Bucket(p.at, step);
    TotalNeedsPoint(ps, InBucket(step, t));
    assert Holds(InBucket(step, t), p.at);
    assert HasPoint(mid, t);
    var i :| 0 <= i < |mid| && mid[i].at == t;
    assert Moments(mid)[i] == t;
  }

  /** Bucketing changes no aggregate over a scope made of whole buckets. */
  lemma BucketingKeepsTotals(mid: seq<Point>, ps: seq<Point>, step: int, scope: Scope)
    requires IsRebucket(mid, ps, step) && Respects(scope, step)
    ensures Total(mid, scope) == Total(ps, scope)
  {
    TotalIsGathered(mid, ps, step, scope);
    forall p | p in ps ensures Bucket(p.at, step) in Moments(mid) { PointIsBucketed(mid, ps, step, p); }
    GatheredIsTotal(Moments(mid), ps, step, scope);
  }

  /** Nothing is lost or counted twice: samples, weighted sum, minimum and maximum of the whole series are the same. */
  lemma BucketingConserves(rs: seq<Point>, ps: seq<Point>, step: int)
    requires IsRebucket(rs, ps, step)
    ensures Total(rs, Everything) == Total(ps, Everything)
  {
    BucketingKeepsTotals(rs, ps, step, Everything);
  }

  lemma NestedBuckets(t: int, fine: int, times: int)
    requires fine > 0 && times > 0
    ensures Bucket(Bucket(t, fine), fine * times) == Bucket(t, fine * times)
  {
    var step := fine * times;
    var q := t / step;
    var inner := (t - q * step) / fine;
    QuotientOf(t, step);
    assert 0 <= t - q * step < step;
    QuotientOf(t - q * step, fine);
    assert inner * fine <= t - q * step < inner * fine + fine;
    assert 0 <= inner;
    assert inner * fine < step;
    Nested(q, times, inner, fine);
    QuotientUnique(t, fine, q * times + inner);
    QuotientUnique(q * step + inner * fine, step, q);
  }

  lemma Nested(q: int, times: int, inner: int, fine: int)
    ensures (q * times + inner) * fine == q * (fine * times) + inner * fine
  {
    assert q * times * fine == q * (fine * times);
  }

  lemma QuotientOf(a: int, d: int)
    requires d > 0
    ensures a / d * d <= a < a / d * d + d
  {
  }

  lemma QuotientUnique(a: int, d: int, q: int)
    requires d > 0
    ensures q * d <= a < q * d + d ==> a / d == q
  {
    var r := a / d;
    QuotientOf(a, d);
    if q * d <= a < q * d + d {
      Difference(r, q, d);
      Squeeze(r - q, d);
    }
  }

  lemma Difference(r: int, q: int, d: int)
    ensures (r - q) * d == r * d - q * d
  {
  }

  lemma Squeeze(k: int, d: int)
    requires -d < k * d < d
    ensures k == 0
  {
    if k > 0 {
      AtLeastOnce(k, d);
    } else if k < 0 {
      AtLeastOnce(-k, d);
    }
  }

  lemma {:induction false} AtLeastOnce(k: int, d: int)
    requires k > 0 && d > 0
    ensures k * d >= d
  {
    if k > 1 {
      AtLeastOnce(k - 1, d);
    }
  }

  /** Re-aggregating a bucketed series at a multiple of its step is bucketing the original points directly. */
  lemma RebucketComposes(out: seq<Point>, mid: seq<Point>, ps: seq<Point>, fine: int, times: int)
    requires times > 0 && IsRebucket(mid, ps, fine) && IsRebucket(out, mid, fine * times)
    ensures IsRebucket(out, ps, fine * times)
  {
    forall b ensures Total(mid, InBucket(fine * times, b)) == Total(ps, InBucket(fine * times, b)) {
      var scope := InBucket(fine * times, b);
      forall t ensures Holds(scope, t) <==> Holds(scope, Bucket(t, fine)) {
        NestedBuckets(t, fine, times);
      }
      BucketingKeepsTotals(mid, ps, fine, scope);
    }
  }

  // ---- Averages stay between the extremes ----

  predicate Sound(p: Point) {
    p.samples > 0 && p.minimum <= p.average <= p.maximum
  }

  predicate SoundAgg(a: Agg) {
    a.Agg? ==> a.samples > 0 && a.low * a.samples as real <= a.weight <= a.high * a.samples as real
  }

  lemma Scale(x: real, y: real, n: real)
    requires n > 0.0
    ensures x <= y <==> x * n <= y * n
  {
    if x * n <= y * n {
      assert x * n / n <= y * n / n;
    }
  }

  lemma SoundExactly(p: Point)
    ensures Sound(p) <==> SoundAgg(One(p))
  {
    if p.samples > 0 {
      Scale(p.minimum, p.average, p.samples as real);
      Scale(p.average, p.maximum, p.samples as real);
    }
  }

  lemma PlusSound(a: Agg, b: Agg)
    requires SoundAgg(a) && SoundAgg(b)
    ensures SoundAgg(Plus(a, b))
  {
    if a.Agg? && b.Agg? {
      var low, high, n, m := Min(a.low, b.low), Max(a.high, b.high), a.samples as real, b.samples as real;
      Scale(low, a.low, n);
      Scale(low, b.low, m);
      Scale(a.high, high, n);
      Scale(b.high, high, m);
      Distribute(low, n, m);
      Distribute(high, n, m);
      assert (a.samples + b.samples) as real == n + m;
    }
  }

  lemma Distribute(x: real, n: real, m: real)
    ensures x * (n + m) == x * n + x * m
  {
  }

  lemma {:induction false} TotalSound(ps: seq<Point>, scope: Scope)
    requires forall p :: p in ps ==> Sound(p)
    ensures SoundAgg(Total(ps, scope))
  {
    if ps != [] {
      var n := |ps| - 1;
      TotalSound(ps[..n], scope);
      SoundExactly(ps[n]);
      PlusSound(Total(ps[..n], scope), Share(ps[n], scope));
    }
  }

  /** A bucketed series keeps every average between its minimum and its maximum. */
  lemma BucketingKeepsSound(rs: seq<Point>, ps: seq<Point>, step: int, r: Point)
    requires IsRebucket(rs, ps, step) && (forall p :: p in ps ==> Sound(p)) && r in rs
    ensures Sound(r)
  {
    TotalSound(ps, InBucket(step, r.at));
    SoundExactly(r);
  }

  // ---- A series cut to a range ----

  /** The points of a series with `from <= time < to`. */
  function Within(ps: seq<Point>, from: real, to: real): seq<Point> {
    if ps == [] then []
    else
      var n := |ps| - 1;
      Within(ps[..n], from, to) + if InRange(ps[n].at, from, to) then [ps[n]] else []
  }

  predicate InRange(t: int, from: real, to: real) {
    from <= t as real < to
  }

  /** The points whose bucket starts in the range. */
  function WithinBuckets(ps: seq<Point>, step: int, from: real, to: real): seq<Point>
    requires step > 0
  {
    if ps == [] then []
    else
      var n := |ps| - 1;
      WithinBuckets(ps[..n], step, from, to) + if InRange(Bucket(ps[n].at, step), from, to) then [ps[n]] else []
  }

  lemma {:induction false} WithinExactly(ps: seq<Point>, from: real, to: real)
    ensures forall p :: p in Within(ps, from, to) <==> p in ps && InRange(p.at, from, to)
    ensures Increasing(ps) ==> Increasing(Within(ps, from, to))
  {
    if ps != [] {
      var n := |ps| - 1;
      WithinExactly(ps[..n], from, to);
      assert ps == ps[..n] + [ps[n]];
      forall i | 0 <= i < |Within(ps[..n], from, to)|
      && Increasing(ps) ensures Within(ps[..n], from, to)[i].at < ps[n].at {
        assert Within(ps[..n], from, to)[i] in ps[..n];
      }
    }
  }

  lemma {:induction false} WithinBucketsTotal(ps: seq<Point>, step: int, from: real, to: real, t: int)
    requires step > 0
    ensures Total(WithinBuckets(ps, step, from, to), InBucket(step, t)) ==
            if InRange(t, from, to) then Total(ps, InBucket(step, t)) else Empty
  {
    if ps != [] {
      var n := |ps| - 1;
      WithinBucketsTotal(ps[..n], step, from, to, t);
      var earlier := WithinBuckets(ps[..n], step, from, to);
      assert (earlier + [ps[n]])[..|earlier|] == earlier && earlier + [] == earlier;
    }
  }

  /** Cutting a bucketed series to a range is bucketing the points whose bucket starts in the range. */
  lemma WithinIsRebucket(rs: seq<Point>, ps: seq<Point>, step: int, from: real, to: real)
    requires IsRebucket(rs, ps, step)
    ensures IsRebucket(Within(rs, from, to), WithinBuckets(ps, step, from, to), step)
  {
    var cut, kept := Within(rs, from, to), WithinBuckets(ps, step, from, to);
    WithinExactly(rs, from, to);
    forall t ensures Total(kept, InBucket(step, t)) == if InRange(t, from, to) then Total(ps, InBucket(step, t))
      else Empty {
      WithinBucketsTotal(ps, step, from, to, t);
    }
    forall t | Total(kept, InBucket(step, t)) != Empty ensures HasPoint(cut, t) {
      assert HasPoint(rs, t);
      var p :| p in rs && p.at == t;
      assert p in cut;
    }
  }
}
