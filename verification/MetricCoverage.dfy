/** What a bucketed series covers: `history_coverage`, and the ranges and intervals a request may combine. */
module MetricCoverage {
  import opened Text
  import opened MetricHistory

  // ---- Ranges and intervals ----

  datatype Range = Minutes5Range | Minutes30Range | Hours24Range | Days7Range | Days30Range

  datatype Interval = Auto | Seconds5 | Minute1 | Minutes5 | Minutes15 | Hour1 | Hours6 | Day1

  function Duration(r: Range): int {
    match r
    case Minutes5Range => 300
    case Minutes30Range => 1_800
    case Hours24Range => 86_400
    case Days7Range => 604_800
    case Days30Range => 2_592_000
  }

  function Seconds(i: Interval): int {
    match i
    case Auto => 0
    case Seconds5 => 5
    case Minute1 => 60
    case Minutes5 => 300
    case Minutes15 => 900
    case Hour1 => 3_600
    case Hours6 => 21_600
    case Day1 => 86_400
  }

  /** The persisted tier an interval is served from. */
  function Source(i: Interval): Interval {
    match i
    case Minutes15 => Minutes5
    case Day1 => Hours6
    case _ => i
  }

  function Resolve(r: Range, requested: Interval): Option<Interval> {
    match r
    case Minutes5Range =>
      if requested == Auto then Some(Seconds5) else if requested in {Seconds5, Minute1} then Some(requested) else None
    case Minutes30Range =>
      if requested == Auto then Some(Minutes5) else if requested in {Minute1, Minutes5} then Some(requested) else None
    case Hours24Range =>
      if requested == Auto then Some(Minutes15)
        else if requested in {Minutes5, Minutes15, Hour1} then Some(requested) else None
    case Days7Range =>
      if requested == Auto then Some(Hour1) else if requested in {Hour1, Hours6} then Some(requested) else None
    case Days30Range =>
      if requested == Auto then Some(Hours6) else if requested in {Hours6, Day1} then Some(requested) else None
  }

  /** The requests served as asked for; all others but `Auto` are refused. */
  const SERVED: set<(Range, Interval)> := {
    (Minutes5Range, Seconds5), (Minutes5Range, Minute1), (Minutes30Range, Minute1), (Minutes30Range, Minutes5),
    (Hours24Range, Minutes5), (Hours24Range, Minutes15), (Hours24Range, Hour1), (Days7Range, Hour1),
    (Days7Range, Hours6), (Days30Range, Hours6), (Days30Range, Day1)}

  /** What `Auto` picks for each range. */
  const AUTO: map<Range, Interval> := map[Minutes5Range := Seconds5, Minutes30Range := Minutes5,
                                          Hours24Range := Minutes15, Days7Range := Hour1, Days30Range := Hours6]

  lemma ResolveExactly(r: Range, requested: Interval)
    ensures requested != Auto ==> Resolve(r, requested) == if (r, requested) in SERVED then Some(requested) else None
    ensures r in AUTO && Resolve(r, Auto) == Some(AUTO[r]) && (r, AUTO[r]) in SERVED
  {
  }

  /** How long ranges and intervals are, in minutes. */
  lemma UnitsExactly()
    ensures Duration(Minutes5Range) == 5 * 60 && Duration(Minutes30Range) == 30 * 60
    ensures Duration(Hours24Range) == 24 * 60 * 60 && Duration(Days7Range) == 7 * Duration(Hours24Range)
    ensures Duration(Days30Range) == 30 * Duration(Hours24Range)
    ensures 12 * Seconds(Seconds5) == Seconds(Minute1) == 60 && Seconds(Minutes5) == 5 * 60
    ensures Seconds(Minutes15) == 15 * 60 && Seconds(Hour1) == 60 * 60
    ensures Seconds(Hours6) == 6 * Seconds(Hour1) && Seconds(Day1) == 24 * Seconds(Hour1)
  {
  }

  /** Every request that resolves is served from a tier whose step divides the interval, which divides the range
      into at most 288 buckets. */
  lemma ResolvedIntervals(r: Range, requested: Interval)
    requires Resolve(r, requested).Some?
    ensures var i := Resolve(r, requested).value;
            && Source(i) !in {Auto, Minutes15, Day1}
            && Seconds(Source(i)) > 0 && Seconds(i) % Seconds(Source(i)) == 0
            && Duration(r) % Seconds(i) == 0 && 2 <= Duration(r) / Seconds(i) <= 288
  {
  }

  function Factor(i: Interval): (k: int)
    ensures k > 0 && Seconds(i) == Seconds(Source(i)) * k
  {
    match i
    case Minutes15 => 3
    case Day1 => 4
    case _ => 1
  }

  // ---- Coverage ----

  datatype Gap = Gap(from: int, to: int)

  datatype Coverage = Coverage(start: Option<int>, end: Option<int>, complete: bool, truncated: bool)

  /** The gaps between neighbouring points further apart than one and a half steps. */
  function GapsOf(ps: seq<Point>, step: int): seq<Gap> {
    if |ps| < 2 then []
    else
      var n := |ps| - 1;
      GapsOf(ps[..n], step)
      + if 2 * (ps[n].at - ps[n - 1].at) > 3 * step then [Gap(ps[n - 1].at + step, ps[n].at)] else []
  }

  /** `history_coverage`, with the requested times as reals. */
  method HistoryCoverage(ps: seq<Point>, from: real, to: real, step: int, sourceTruncated: bool) returns (c: Coverage,
                         gaps: seq<Gap>)
    ensures gaps == GapsOf(ps, step)
    ensures ps == [] ==> c == Coverage(None, None, false, sourceTruncated)
    ensures ps != [] ==>
              && c.start == Some(ps[0].at) && c.end == Some(ps[|ps| - 1].at + step)
              && (c.complete <==> && gaps == [] && ps[0].at as real <= from + step as real
                                  && (ps[|ps| - 1].at + step) as real >= to - step as real)
              && (c.truncated <==> sourceTruncated && ps[0].at as real > from + step as real)
  {
    gaps := [];
    var i := 1;
    while i < |ps|
      invariant 1 <= i && (ps != [] ==> i <= |ps| && gaps == GapsOf(ps[..i], step))
      invariant ps == [] ==> gaps == []
    {
      assert ps[..i + 1][..i] == ps[..i];
      if 2 * (ps[i].at - ps[i - 1].at) > 3 * step {
        gaps := gaps + [Gap(ps[i - 1].at + step, ps[i].at)];
      }
      i := i + 1;
    }
    assert ps[..|ps|] == ps;
    if ps == [] {
      return Coverage(None, None, false, sourceTruncated), gaps;
    }
    var start, end := ps[0].at, ps[|ps| - 1].at + step;
    var startsInRange := start as real <= from + step as real;
    var reachesPresent := end as real >= to - step as real;
    c :=
      Coverage(Some(start), Some(end), startsInRange && reachesPresent && gaps == [],
               sourceTruncated && !startsInRange);
  }

  predicate Reaches(ps: seq<Point>, from: real, to: real, step: int)
    requires ps != []
  {
    ps[0].at as real <= from + step as real && (ps[|ps| - 1].at + step) as real >= to - step as real
  }

  // ---- Gaps are the missing buckets ----

  predicate Aligned(t: int, step: int)
    requires step > 0
  {
    t % step == 0
  }

  /** A series in buckets, as bucketing leaves it. */
  predicate Bucketed(ps: seq<Point>, step: int) {
    step > 0 && Increasing(ps) && forall p :: p in ps ==> Aligned(p.at, step)
  }

  lemma RebucketIsBucketed(rs: seq<Point>, ps: seq<Point>, step: int)
    requires IsRebucket(rs, ps, step)
    ensures Bucketed(rs, step)
  {
    forall r | r in rs ensures Aligned(r.at, step) {
      TotalNeedsPoint(ps, InBucket(step, r.at));
      assert One(r) == Total(ps, InBucket(step, r.at));
      var p :| p in ps && Holds(InBucket(step, r.at), p.at);
      MultipleIsAligned(p.at / step, step);
    }
  }

  lemma MultipleIsAligned(k: int, step: int)
    requires step > 0
    ensures Aligned(k * step, step)
  {
    QuotientUnique(k * step, step, k);
  }

  /** Aligned times are whole steps apart. */
  lemma AlignedApart(a: int, b: int, step: int)
    requires step > 0 && Aligned(a, step) && Aligned(b, step) && a < b
    ensures a + step <= b
  {
    var i, j := a / step, b / step;
    assert a == i * step && b == j * step;
    Difference(j, i, step);
    if j <= i {
      if j < i {
        AtLeastOnce(i - j, step);
        Difference(i, j, step);
      }
    } else {
      AtLeastOnce(j - i, step);
    }
  }

  predicate WideAt(ps: seq<Point>, step: int, i: int) {
    0 <= i < |ps| - 1 && 2 * (ps[i + 1].at - ps[i].at) > 3 * step
  }

  lemma {:induction false} GapsListed(ps: seq<Point>, step: int, g: Gap)
    ensures g in GapsOf(ps, step) <==> exists i :: WideAt(ps, step, i) && g == Gap(ps[i].at + step, ps[i + 1].at)
  {
    if |ps| >= 2 {
      var n := |ps| - 1;
      var earlier := ps[..n];
      GapsListed(earlier, step, g);
      if g in GapsOf(earlier, step) {
        var i :| WideAt(earlier, step, i) && g == Gap(earlier[i].at + step, earlier[i + 1].at);
        assert WideAt(ps, step, i) && g == Gap(ps[i].at + step, ps[i + 1].at);
      } else if g in GapsOf(ps, step) {
        assert WideAt(ps, step, n - 1);
      }
      forall i | WideAt(ps, step, i) && g == Gap(ps[i].at + step, ps[i + 1].at) ensures g in GapsOf(ps, step) {
        assert i < n - 1 ==> WideAt(earlier, step, i) && g == Gap(earlier[i].at + step, earlier[i + 1].at);
      }
    }
  }

  /** A maximal run of missing buckets: a point just before it, a point right after it, none inside. */
  ghost predicate MissingRun(ps: seq<Point>, step: int, g: Gap)
    requires step > 0
  {
    && g.from < g.to && HasPoint(ps, g.from - step) && HasPoint(ps, g.to)
    && forall b :: g.from <= b < g.to && Aligned(b, step) ==> !HasPoint(ps, b)
  }

  /** The reported gaps are exactly the maximal runs of missing buckets. */
  lemma GapsAreMissingRuns(ps: seq<Point>, step: int, g: Gap)
    requires Bucketed(ps, step)
    ensures g in GapsOf(ps, step) <==> MissingRun(ps, step, g)
  {
    if g in GapsOf(ps, step) {
      GapIsRun(ps, step, g);
    }
    if MissingRun(ps, step, g) {
      RunIsGap(ps, step, g);
      GapsListed(ps, step, g);
    }
  }

  lemma GapIsRun(ps: seq<Point>, step: int, g: Gap)
    requires Bucketed(ps, step) && g in GapsOf(ps, step)
    ensures MissingRun(ps, step, g)
  {
    GapsListed(ps, step, g);
    var i :| WideAt(ps, step, i) && g == Gap(ps[i].at + step, ps[i + 1].at);
    WideIsRun(ps, step, i);
  }

  lemma WideIsRun(ps: seq<Point>, step: int, i: int)
    requires Bucketed(ps, step) && WideAt(ps, step, i)
    ensures MissingRun(ps, step, Gap(ps[i].at + step, ps[i + 1].at))
  {
    NothingBetween(ps, i);
    assert ps[i] in ps && ps[i + 1] in ps;
    assert HasPoint(ps, ps[i].at) && HasPoint(ps, ps[i + 1].at);
  }

  lemma NothingBetween(ps: seq<Point>, i: int)
    requires Increasing(ps) && 0 <= i < |ps| - 1
    ensures forall b :: ps[i].at < b < ps[i + 1].at ==> !HasPoint(ps, b)
  {
    forall b | ps[i].at < b < ps[i + 1].at ensures !HasPoint(ps, b) {
      forall j | 0 <= j < |ps| ensures ps[j].at != b {
        assert j <= i || j >= i + 1;
      }
    }
  }

  lemma RunIsGap(ps: seq<Point>, step: int, g: Gap)
    requires Bucketed(ps, step) && MissingRun(ps, step, g)
    ensures exists i :: WideAt(ps, step, i) && g == Gap(ps[i].at + step, ps[i + 1].at)
  {
    var i :| 0 <= i < |ps| && ps[i].at == g.from - step;
    var j :| 0 <= j < |ps| && ps[j].at == g.to;
    assert i < j;
    var next := ps[i + 1];
    assert next in ps && ps[i] in ps && ps[j] in ps;
    AlignedApart(ps[i].at, next.at, step);
    AlignedApart(ps[i].at, g.to, step);
    assert HasPoint(ps, next.at);
    assert j == i + 1;
    NextAligned(ps[i].at, step);
    AlignedApart(g.from, g.to, step);
    assert WideAt(ps, step, i);
  }

  /** A bucket between the first and the last point is missing exactly when it lies in a reported gap. */
  lemma {:induction false} MissingIsInGap(ps: seq<Point>, step: int, b: int)
    requires Bucketed(ps, step) && ps != [] && Aligned(b, step) && ps[0].at <= b <= ps[|ps| - 1].at
    ensures !HasPoint(ps, b) <==> exists g :: g in GapsOf(ps, step) && g.from <= b < g.to
  {
    forall g | g in GapsOf(ps, step) && g.from <= b < g.to ensures !HasPoint(ps, b) {
      GapsAreMissingRuns(ps, step, g);
    }
    if !HasPoint(ps, b) {
      Surrounded(ps, b);
      var i :| 0 <= i < |ps| - 1 && ps[i].at < b < ps[i + 1].at;
      assert ps[i] in ps && ps[i + 1] in ps;
      AlignedApart(ps[i].at, b, step);
      AlignedApart(b, ps[i + 1].at, step);
      var g := Gap(ps[i].at + step, ps[i + 1].at);
      assert WideAt(ps, step, i);
      GapsListed(ps, step, g);
    }
  }

  lemma {:induction false} Surrounded(ps: seq<Point>, b: int)
    requires Increasing(ps) && ps != [] && ps[0].at <= b <= ps[|ps| - 1].at && !HasPoint(ps, b)
    ensures exists i :: 0 <= i < |ps| - 1 && ps[i].at < b < ps[i + 1].at
  {
    var n := |ps| - 1;
    assert ps[0] in ps && ps[n] in ps;
    assert n > 0;
    assert ps[n - 1] in ps;
    if b < ps[n - 1].at {
      assert forall p :: p in ps[..n] ==> p in ps;
      Surrounded(ps[..n], b);
      var i :| 0 <= i < n - 1 && ps[..n][i].at < b < ps[..n][i + 1].at;
      assert ps[i].at < b < ps[i + 1].at;
    } else {
      assert ps[n - 1].at < b < ps[n - 1 + 1].at;
    }
  }

  /** Without gaps no bucket between the first and the last point is missing, and conversely. */
  lemma NoGapsExactly(ps: seq<Point>, step: int)
    requires Bucketed(ps, step) && ps != []
    ensures GapsOf(ps, step) == [] <==> Unbroken(ps, step)
  {
    var gaps := GapsOf(ps, step);
    if gaps == [] {
      forall b | Aligned(b, step) && ps[0].at <= b <= ps[|ps| - 1].at ensures HasPoint(ps, b) {
        MissingIsInGap(ps, step, b);
      }
    } else {
      assert gaps[0] in gaps;
      GapMisses(ps, step, gaps[0]);
    }
  }

  lemma GapMisses(ps: seq<Point>, step: int, g: Gap)
    requires Bucketed(ps, step) && ps != [] && g in GapsOf(ps, step)
    ensures Aligned(g.from, step) && ps[0].at <= g.from <= ps[|ps| - 1].at && !HasPoint(ps, g.from)
  {
    GapsListed(ps, step, g);
    var i :| WideAt(ps, step, i) && g == Gap(ps[i].at + step, ps[i + 1].at);
    WideMisses(ps, step, i);
  }

  lemma WideMisses(ps: seq<Point>, step: int, i: int)
    requires Bucketed(ps, step) && WideAt(ps, step, i)
    ensures Aligned(ps[i].at + step, step) && ps[0].at <= ps[i].at + step <= ps[|ps| - 1].at
    ensures !HasPoint(ps, ps[i].at + step)
  {
    assert ps[i] in ps && ps[0].at <= ps[i].at && ps[i + 1].at <= ps[|ps| - 1].at;
    NothingBetween(ps, i);
    NextAligned(ps[i].at, step);
  }

  lemma NextAligned(a: int, step: int)
    requires step > 0 && Aligned(a, step)
    ensures Aligned(a + step, step)
  {
    QuotientUnique(a + step, step, a / step + 1);
  }

  /** Nothing is missing between the first and the last point. */
  ghost predicate Unbroken(ps: seq<Point>, step: int)
    requires step > 0 && ps != []
  {
    forall b :: Aligned(b, step) && ps[0].at <= b <= ps[|ps| - 1].at ==> HasPoint(ps, b)
  }

  /** A point in every bucket that starts a step after the requested start and ends a step before the requested end. */
  ghost predicate Covered(ps: seq<Point>, from: real, to: real, step: int)
    requires step > 0
  {
    forall b :: Aligned(b, step) && from + step as real <= b as real && (b + 2 * step) as real <= to ==> HasPoint(ps, b)
  }

  lemma UnbrokenCovers(ps: seq<Point>, from: real, to: real, step: int)
    requires step > 0 && ps != [] && Unbroken(ps, step) && Reaches(ps, from, to, step)
    ensures Covered(ps, from, to, step)
  {
  }

  /** The tail of `series`: the listed points cut to the range, bucketed, and what they cover. History is complete
      exactly when there is some, it reaches both ends of the range to within a step, and no bucket between its
      first and last point is missing; and then the range is covered. */
  method ServeHistory(i: Interval, listed: seq<Point>, from: real, to: real, sourceTruncated: bool)
    returns (points: seq<Point>, c: Coverage, gaps: seq<Gap>)
    requires Seconds(i) > 0 && Sampled(listed)
    ensures IsRebucket(points, Within(listed, from, to), Seconds(i))
    ensures forall g :: g in gaps <==> MissingRun(points, Seconds(i), g)
    ensures c.complete <==>
              && points != [] && Unbroken(points, Seconds(i))
              && points[0].at as real <= from + Seconds(i) as real
              && (points[|points| - 1].at + Seconds(i)) as real >= to - Seconds(i) as real
    ensures c.complete ==> Covered(points, from, to, Seconds(i))
  {
    var step := Seconds(i);
    var cut := Within(listed, from, to);
    WithinExactly(listed, from, to);
    points := Rebucket(cut, step);
    RebucketIsBucketed(points, cut, step);
    c, gaps := HistoryCoverage(points, from, to, step, sourceTruncated);
    forall g ensures g in gaps <==> MissingRun(points, step, g) { GapsAreMissingRuns(points, step, g); }
    if points != [] {
      NoGapsExactly(points, step);
      if c.complete {
        UnbrokenCovers(points, from, to, step);
      }
    }
  }

  // ---- Serving a range from its tier ----

  /** How many rows of the tier are listed, newest first. */
  function ListLimit(r: Range, i: Interval): int {
    var expected := if Seconds(Source(i)) > 0 then Duration(r) / Seconds(Source(i)) + 4 else 10;
    if expected < 10 then 10 else if expected > 500 then 500 else expected
  }

  /** The limits that come of it. */
  const LIMITS: map<(Range, Interval), int> := map[
    (Minutes5Range, Seconds5) := 64, (Minutes5Range, Minute1) := 10, (Minutes30Range, Minute1) := 34,
    (Minutes30Range, Minutes5) := 10, (Hours24Range, Minutes5) := 292, (Hours24Range, Minutes15) := 292,
    (Hours24Range, Hour1) := 28, (Days7Range, Hour1) := 172, (Days7Range, Hours6) := 32,
    (Days30Range, Hours6) := 124, (Days30Range, Day1) := 124]

  lemma LimitsExactly(r: Range, i: Interval)
    requires (r, i) in SERVED
    ensures (r, i) in LIMITS && ListLimit(r, i) == LIMITS[(r, i)]
  {
  }

  /** The newest points of a series in time order. */
  function Newest(tier: seq<Point>, limit: nat): seq<Point> {
    if |tier| <= limit then tier else tier[|tier| - limit..]
  }

  /** At most four points of the series start at or after the end of the range. */
  predicate FewLater(tier: seq<Point>, to: real) {
    |tier| <= 4 || (tier[|tier| - 5].at as real) < to
  }

  lemma {:induction false} StepsApart(ps: seq<Point>, step: int, n: nat)
    requires Bucketed(ps, step) && n < |ps|
    ensures ps[0].at + n * step <= ps[n].at
  {
    if n > 0 {
      StepsApart(ps, step, n - 1);
      assert ps[n - 1] in ps && ps[n] in ps;
      AlignedApart(ps[n - 1].at, ps[n].at, step);
      Difference(n, 1, step);
    }
  }

  /** A range of so many steps holds at most as many aligned buckets. */
  lemma RangeHolds(ps: seq<Point>, step: int, steps: int, from: real, to: real)
    requires Bucketed(ps, step) && to == from + (steps * step) as real && steps >= 0
    requires forall p :: p in ps ==> InRange(p.at, from, to)
    ensures |ps| <= steps
  {
    if ps != [] {
      var n := |ps| - 1;
      StepsApart(ps, step, n);
      assert ps[0] in ps && ps[n] in ps;
      assert n * step < steps * step;
      if n >= steps {
        Difference(n, steps, step);
        if n > steps {
          AtLeastOnce(n - steps, step);
        }
      }
    }
  }

  lemma {:induction false} WithinOfConcat(a: seq<Point>, b: seq<Point>, from: real, to: real)
    ensures Within(a + b, from, to) == Within(a, from, to) + Within(b, from, to)
  {
    if b == [] {
      assert a + b == a;
    } else {
      var n := |b| - 1;
      assert (a + b)[..|a + b| - 1] == a + b[..n];
      WithinOfConcat(a, b[..n], from, to);
    }
  }

  lemma {:induction false} NoneWithin(ps: seq<Point>, from: real, to: real)
    requires forall p :: p in ps ==> !InRange(p.at, from, to)
    ensures Within(ps, from, to) == []
  {
    if ps != [] {
      NoneWithin(ps[..|ps| - 1], from, to);
      assert ps[|ps| - 1] in ps;
    }
  }

  /** A point within the range is among the newest, when few points are later. */
  lemma ListedIfInRange(tier: seq<Point>, step: int, steps: int, limit: nat, from: real, to: real, j: nat)
    requires Bucketed(tier, step) && steps >= 0 && to == from + (steps * step) as real && FewLater(tier, to)
    requires j < |tier| - limit && limit >= steps + 4
    ensures !InRange(tier[j].at, from, to)
  {
    if InRange(tier[j].at, from, to) {
      var within := tier[j..|tier| - 4];
      forall p | p in within ensures InRange(p.at, from, to) && p in tier {
        var k :| 0 <= k < |within| && within[k] == p;
        assert p == tier[j + k] && tier[j].at <= tier[j + k].at <= tier[|tier| - 5].at;
      }
      assert Increasing(within);
      RangeHolds(within, step, steps, from, to);
      assert false;
    }
  }

  /** The limit on listed rows cuts nothing of the range, unless five or more buckets after it exist. */
  lemma ListingReachesRange(tier: seq<Point>, step: int, steps: int, limit: nat, from: real, to: real)
    requires Bucketed(tier, step) && steps >= 0 && to == from + (steps * step) as real && FewLater(tier, to)
    requires limit >= steps + 4
    ensures Within(Newest(tier, limit), from, to) == Within(tier, from, to)
  {
    if |tier| > limit {
      var n := |tier| - limit;
      forall p | p in tier[..n] ensures !InRange(p.at, from, to) {
        var j :| 0 <= j < n && tier[j] == p;
        ListedIfInRange(tier, step, steps, limit, from, to, j);
      }
      assert tier == tier[..n] + tier[n..];
      WithinOfConcat(tier[..n], tier[n..], from, to);
      NoneWithin(tier[..n], from, to);
      assert [] + Within(tier[n..], from, to) == Within(tier[n..], from, to);
    }
  }

  /** The number of tier steps in a range, and the limit that leaves room for four more. */
  lemma LimitLeavesRoom(r: Range, requested: Interval)
    requires Resolve(r, requested).Some?
    ensures var i := Resolve(r, requested).value;
            var fine := Seconds(Source(i));
            && fine > 0 && Duration(r) / fine * fine == Duration(r) && Duration(r) / fine >= 0
            && ListLimit(r, i) >= Duration(r) / fine + 4
  {
  }

  /** Serving a range from the tier is serving it from the points the tier was bucketed from, those whose tier
      bucket starts in the range: the newest rows are listed up to the limit, in any order, cut to the range, and
      bucketed again. */
  lemma TierServesInterval(r: Range, requested: Interval, out: seq<Point>, listed: seq<Point>, tier: seq<Point>,
                           ps: seq<Point>,
                           from: real, to: real)
    requires Resolve(r, requested).Some? && to == from + Duration(r) as real && FewLater(tier, to)
    requires var i := Resolve(r, requested).value;
             && IsRebucket(tier, ps, Seconds(Source(i))) && IsRebucket(out, listed, Seconds(i))
             && ListLimit(r, i) >= 0 && multiset(listed) == multiset(Within(Newest(tier, ListLimit(r, i)), from, to))
    ensures var i := Resolve(r, requested).value;
            IsRebucket(out, WithinBuckets(ps, Seconds(Source(i)), from, to), Seconds(i))
  {
    var i := Resolve(r, requested).value;
    LimitLeavesRoom(r, requested);
    RebucketIsBucketed(tier, ps, Seconds(Source(i)));
    ListingReachesRange(tier, Seconds(Source(i)), Duration(r) / Seconds(Source(i)), ListLimit(r, i), from, to);
    IntervalFromTier(i, out, listed, tier, ps, from, to);
  }

  lemma IntervalFromTier(i: Interval, out: seq<Point>, listed: seq<Point>, tier: seq<Point>, ps: seq<Point>,
                         from: real, to: real)
    requires IsRebucket(tier, ps, Seconds(Source(i))) && multiset(listed) == multiset(Within(tier, from, to))
    requires IsRebucket(out, listed, Seconds(i))
    ensures IsRebucket(out, WithinBuckets(ps, Seconds(Source(i)), from, to), Seconds(i))
  {
    var fine := Seconds(Source(i));
    WithinIsRebucket(tier, ps, fine, from, to);
    RebucketOfPermutation(out, listed, Within(tier, from, to), Seconds(i));
    RebucketComposes(out, Within(tier, from, to), WithinBuckets(ps, fine, from, to), fine, Factor(i));
  }
}
