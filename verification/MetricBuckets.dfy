/** What a bucketed series says, point by point, about the points it was made from: nothing here speaks of how they
    are aggregated. */
module MetricBuckets {
  import opened MetricHistory

  /** The point falls in the bucket that starts at `t`. */
  predicate Falls(p: Point, t: int, step: int) {
    t <= p.at < t + step
  }

  function SamplesIn(ps: seq<Point>, t: int, step: int): nat {
    if ps == [] then 0
    else
      var n := |ps| - 1;
      SamplesIn(ps[..n], t, step) + if Falls(ps[n], t, step) then ps[n].samples else 0
  }

  /** Each average counted once for each of its samples. */
  function WeightIn(ps: seq<Point>, t: int, step: int): real {
    if ps == [] then 0.0
    else
      var n := |ps| - 1;
      WeightIn(ps[..n], t, step) + if Falls(ps[n], t, step) then ps[n].average * ps[n].samples as real else 0.0
  }

  predicate Occupied(ps: seq<Point>, t: int, step: int) {
    exists p :: p in ps && Falls(p, t, step)
  }

  /** The smallest minimum and the largest maximum in the bucket. */
  predicate Spans(ps: seq<Point>, t: int, step: int, low: real, high: real) {
    && (forall p :: p in ps && Falls(p, t, step) ==> low <= p.minimum && p.maximum <= high)
    && (exists p :: p in ps && Falls(p, t, step) && p.minimum == low)
    && (exists p :: p in ps && Falls(p, t, step) && p.maximum == high)
  }

  lemma HoldsExactly(at: int, t: int, step: int)
    requires step > 0
    ensures Holds(InBucket(step, t), at) <==> t % step == 0 && t <= at < t + step
  {
    QuotientOf(at, step);
    if t % step == 0 && t <= at < t + step {
      assert t == t / step * step;
      QuotientUnique(at, step, t / step);
    }
    if Holds(InBucket(step, t), at) {
      QuotientUnique(t, step, at / step);
    }
  }

  /** The aggregate of an aligned bucket, by its points. */
  ghost predicate Sums(ps: seq<Point>, t: int, step: int, a: Agg) {
    && (a.Empty? <==> !Occupied(ps, t, step))
    && (a.Empty? ==> SamplesIn(ps, t, step) == 0 && WeightIn(ps, t, step) == 0.0)
    && (a.Agg? ==> && a.samples == SamplesIn(ps, t, step) && a.weight == WeightIn(ps, t, step)
                   && Spans(ps, t, step, a.low, a.high))
  }

  lemma OneMoreFalls(ps: seq<Point>, p: Point, t: int, step: int, a: Agg)
    requires Sums(ps, t, step, a) && Falls(p, t, step)
    ensures Sums(ps + [p], t, step, Plus(a, One(p)))
  {
    var more := ps + [p];
    assert more[..|ps|] == ps && more[|ps|] == p && p in more;
    assert forall q :: q in more <==> q in ps || q == p;
    var b := Plus(a, One(p));
    if a.Agg? {
      var x :| x in ps && Falls(x, t, step) && x.minimum == a.low;
      var y :| y in ps && Falls(y, t, step) && y.maximum == a.high;
      assert x in more && y in more;
    }
    assert Spans(more, t, step, b.low, b.high);
  }

  lemma OneMoreMisses(ps: seq<Point>, p: Point, t: int, step: int, a: Agg)
    requires Sums(ps, t, step, a) && !Falls(p, t, step)
    ensures Sums(ps + [p], t, step, a)
  {
    var more := ps + [p];
    assert more[..|ps|] == ps && more[|ps|] == p;
    assert forall q :: q in more <==> q in ps || q == p;
    if a.Agg? {
      var x :| x in ps && Falls(x, t, step) && x.minimum == a.low;
      var y :| y in ps && Falls(y, t, step) && y.maximum == a.high;
      assert x in more && y in more;
    }
  }

  lemma {:induction false} TotalSums(ps: seq<Point>, t: int, step: int)
    requires step > 0 && t % step == 0
    ensures Sums(ps, t, step, Total(ps, InBucket(step, t)))
  {
    if ps != [] {
      var n := |ps| - 1;
      var earlier, p := ps[..n], ps[n];
      TotalSums(earlier, t, step);
      HoldsExactly(p.at, t, step);
      assert ps == earlier + [p];
      if Falls(p, t, step) {
        OneMoreFalls(earlier, p, t, step, Total(earlier, InBucket(step, t)));
      } else {
        OneMoreMisses(earlier, p, t, step, Total(earlier, InBucket(step, t)));
      }
    }
  }

  /** What a point of the bucketed series tells. */
  ghost predicate PointOfBucket(r: Point, ps: seq<Point>, step: int) {
    && r.samples == SamplesIn(ps, r.at, step) && r.average * r.samples as real == WeightIn(ps, r.at, step)
    && Spans(ps, r.at, step, r.minimum, r.maximum)
  }

  /** A bucketed series has a point at exactly the multiples of the step that begin an occupied bucket, and each point
      counts the samples of its bucket, averages over them, and spans them from the smallest minimum to the largest
      maximum. */
  lemma BucketContents(rs: seq<Point>, ps: seq<Point>, step: int)
    requires IsRebucket(rs, ps, step)
    ensures forall t :: HasPoint(rs, t) <==> t % step == 0 && Occupied(ps, t, step)
    ensures forall r :: r in rs ==> PointOfBucket(r, ps, step)
  {
    forall t ensures HasPoint(rs, t) <==> t % step == 0 && Occupied(ps, t, step) {
      BucketHasPoint(rs, ps, step, t);
    }
    forall r | r in rs ensures PointOfBucket(r, ps, step) {
      BucketHasPoint(rs, ps, step, r.at);
      TotalSums(ps, r.at, step);
      assert One(r) == Total(ps, InBucket(step, r.at));
    }
  }

  lemma BucketHasPoint(rs: seq<Point>, ps: seq<Point>, step: int, t: int)
    requires IsRebucket(rs, ps, step)
    ensures HasPoint(rs, t) <==> t % step == 0 && Occupied(ps, t, step)
  {
    TotalNeedsPoint(ps, InBucket(step, t));
    forall p | p in ps ensures Holds(InBucket(step, t), p.at) <==> t % step == 0 && Falls(p, t, step) {
      HoldsExactly(p.at, t, step);
    }
    if HasPoint(rs, t) {
      var r :| r in rs && r.at == t;
      assert One(r) == Total(ps, InBucket(step, t));
    }
  }
}
