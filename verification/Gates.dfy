/** Validation gates: how recorded check results become a gate status (`aggregate_status` and the page logic of
    `validation_record`). */
module Gates {
  import opened Text

  datatype Gate = Commissioning | Qualification

  datatype Outcome = Pass | Warn | Fail | Skipped | NotApplicable

  datatype Result = Result(check: string, outcome: Outcome, observedAt: int)

  datatype GateStatus = NotConfigured | Pending | Running | Passed | Warning | Failed

  predicate GatePassed(s: GateStatus) {
    s == Passed || s == Warning
  }

  /** The first outcome listed for a check; on a newest-first listing, its latest one. */
  function Latest(rows: seq<Result>, check: string): Option<Outcome> {
    if rows == [] then None
    else if rows[0].check == check then Some(rows[0].outcome)
    else Latest(rows[1..], check)
  }

  predicate Blocking(o: Option<Outcome>) {
    o == Some(Fail) || o == Some(Skipped)
  }

  /** The verdict of a gate over a newest-first listing. */
  function Verdict(required: seq<string>, rows: seq<Result>, truncated: bool): GateStatus {
    if required == [] then NotConfigured
    else if exists c :: c in required && Blocking(Latest(rows, c)) then Failed
    else if exists c :: c in required && Latest(rows, c).None? then (if rows == [] then Pending else Running)
    else if truncated then Running
    else if exists c :: c in required && Latest(rows, c) == Some(Warn) then Warning
    else Passed
  }

  lemma {:induction false} LatestOfPrefix(a: seq<Result>, b: seq<Result>, check: string)
    ensures Latest(a + b, check) == if Latest(a, check).Some? then Latest(a, check) else Latest(b, check)
  {
    if a == [] {
      assert a + b == b;
    } else {
      assert (a + b)[1..] == a[1..] + b;
      LatestOfPrefix(a[1..], b, check);
    }
  }

  /** The first row listed for a check has this outcome. */
  ghost predicate FirstIs(rows: seq<Result>, check: string, o: Outcome) {
    exists i :: 0 <= i < |rows| && rows[i].check == check && rows[i].outcome == o
                && forall j :: 0 <= j < i ==> rows[j].check != check
  }

  lemma {:induction false} LatestExactly(rows: seq<Result>, check: string, o: Outcome)
    ensures Latest(rows, check) == Some(o) <==> FirstIs(rows, check, o)
  {
    if Latest(rows, check) == Some(o) {
      var i := LatestIsListed(rows, check);
    }
    if FirstIs(rows, check, o) {
      var i :| 0 <= i < |rows| && rows[i].check == check && rows[i].outcome == o
               && forall j :: 0 <= j < i ==> rows[j].check != check;
      LatestAt(rows, check, i);
    }
  }

  lemma {:induction false} LatestAt(rows: seq<Result>, check: string, i: nat)
    requires i < |rows| && rows[i].check == check && forall j :: 0 <= j < i ==> rows[j].check != check
    ensures Latest(rows, check) == Some(rows[i].outcome)
  {
    if i > 0 {
      LatestAt(rows[1..], check, i - 1);
    }
  }

  /** Which status a gate has, with every outcome named: failed on a failed or skipped check; otherwise pending or
      running while results are missing or cut off; otherwise warning on a warning; and passed when every check has
      passed or is not applicable. */
  ghost predicate StatusOfFirst(required: seq<string>, rows: seq<Result>, truncated: bool, s: GateStatus) {
    && (s == NotConfigured <==> required == [])
    && (s == Failed <==> exists c :: c in required && (FirstIs(rows, c, Fail) || FirstIs(rows, c, Skipped)))
    && (s == Pending <==> required != [] && rows == [])
    && (s == Warning <==>
          && !truncated && (exists c :: c in required && FirstIs(rows, c, Warn))
          && forall c :: c in required ==> FirstIs(rows, c, Pass) || FirstIs(rows, c, NotApplicable)
                                           || FirstIs(rows, c, Warn))
    && (s == Passed <==>
          && required != [] && !truncated
          && forall c :: c in required ==> FirstIs(rows, c, Pass) || FirstIs(rows, c, NotApplicable))
  }

  lemma VerdictExactly(required: seq<string>, rows: seq<Result>, truncated: bool)
    ensures StatusOfFirst(required, rows, truncated, Verdict(required, rows, truncated))
  {
    forall c, o ensures Latest(rows, c) == Some(o) <==> FirstIs(rows, c, o) {
      LatestExactly(rows, c, o);
    }
    VerdictOpen(required, rows, truncated);
    VerdictSettled(required, rows, truncated);
  }

  lemma VerdictOpen(required: seq<string>, rows: seq<Result>, truncated: bool)
    requires forall c, o :: Latest(rows, c) == Some(o) <==> FirstIs(rows, c, o)
    ensures var s := Verdict(required, rows, truncated);
            && (s == NotConfigured <==> required == [])
            && (s == Failed <==> exists c :: c in required && (FirstIs(rows, c, Fail) || FirstIs(rows, c, Skipped)))
            && (s == Pending <==> required != [] && rows == [])
  {
    assert required != [] ==> required[0] in required;
  }

  lemma VerdictSettled(required: seq<string>, rows: seq<Result>, truncated: bool)
    requires forall c, o :: Latest(rows, c) == Some(o) <==> FirstIs(rows, c, o)
    ensures var s := Verdict(required, rows, truncated);
            && (s == Warning <==>
                  && !truncated && (exists c :: c in required && FirstIs(rows, c, Warn))
                  && forall c :: c in required ==> FirstIs(rows, c, Pass) || FirstIs(rows, c, NotApplicable)
                                                   || FirstIs(rows, c, Warn))
            && (s == Passed <==>
                  && required != [] && !truncated
                  && forall c :: c in required ==> FirstIs(rows, c, Pass) || FirstIs(rows, c, NotApplicable))
  {
    assert required != [] ==> required[0] in required;
  }

  /** `aggregate_status`: the first row seen for each check is kept, then the required checks are consulted. */
  method AggregateStatus(required: seq<string>, rows: seq<Result>, truncated: bool) returns (s: GateStatus)
    ensures s == Verdict(required, rows, truncated)
    ensures StatusOfFirst(required, rows, truncated, s)
  {
    VerdictExactly(required, rows, truncated);
    if required == [] {
      return NotConfigured;
    }
    var latest := FirstRows(rows);
    if exists c :: c in required && c in latest && (latest[c] == Fail || latest[c] == Skipped) {
      return Failed;
    }
    if exists c :: c in required && c !in latest {
      return if rows == [] then Pending else Running;
    }
    if truncated {
      return Running;
    }
    if exists c :: c in required && c in latest && latest[c] == Warn {
      return Warning;
    }
    return Passed;
  }

  /** The outcome of the first row of each check. */
  method FirstRows(rows: seq<Result>) returns (latest: map<string, Outcome>)
    ensures forall c :: Latest(rows, c) == if c in latest then Some(latest[c]) else None
  {
    latest := map[];
    for i := 0 to |rows|
      invariant forall c :: c in latest <==> Latest(rows[..i], c).Some?
      invariant forall c :: c in latest ==> Latest(rows[..i], c) == Some(latest[c])
    {
      forall c
        ensures Latest(rows[..i + 1], c) == if Latest(rows[..i], c).Some? then Latest(rows[..i], c)
                                            else if rows[i].check == c then Some(rows[i].outcome) else None
      {
        var last := [rows[i]];
        assert rows[..i + 1] == rows[..i] + last && last[1..] == [];
        LatestOfPrefix(rows[..i], last, c);
      }
      if rows[i].check !in latest {
        latest := latest[rows[i].check := rows[i].outcome];
      }
    }
    assert rows[..|rows|] == rows;
  }

  // ---- The page of newest results ----

  const PAGE: nat := 200

  ghost predicate NewestFirst(rows: seq<Result>) {
    forall i, j :: 0 <= i < j < |rows| ==> rows[i].observedAt >= rows[j].observedAt
  }

  function InCycle(rows: seq<Result>, start: int): seq<Result> {
    if rows == [] then []
    else if rows[0].observedAt >= start then [rows[0]] + InCycle(rows[1..], start)
    else InCycle(rows[1..], start)
  }

  /** What one `validation_record` concludes from the page it reads: `all` is the complete newest-first listing, of
      which the page holds the first 200. */
  function PageVerdict(required: seq<string>, all: seq<Result>, start: int): GateStatus {
    var page := if |all| > PAGE then all[..PAGE] else all;
    var truncated := |all| > PAGE && page[|page| - 1].observedAt >= start;
    Verdict(required, InCycle(page, start), truncated)
  }

  /** The newest result of a check in the cycle, listed at `i`. */
  predicate NewestAt(rows: seq<Result>, start: int, check: string, i: int) {
    && 0 <= i < |rows| && rows[i].check == check && rows[i].observedAt >= start
    && forall j :: 0 <= j < i && rows[j].check == check ==> rows[j].observedAt < start
  }

  ghost predicate NewestIs(rows: seq<Result>, start: int, check: string, o: Outcome) {
    exists i :: NewestAt(rows, start, check, i) && rows[i].outcome == o
  }

  lemma {:induction false} NewestExactly(rows: seq<Result>, start: int, check: string, o: Outcome)
    ensures Latest(InCycle(rows, start), check) == Some(o) <==> NewestIs(rows, start, check, o)
  {
    if rows != [] {
      var r, rest := rows[0], rows[1..];
      NewestExactly(rest, start, check, o);
      if r.check == check && r.observedAt >= start {
        assert NewestAt(rows, start, check, 0);
      } else {
        assert forall i :: NewestAt(rest, start, check, i) ==> NewestAt(rows, start, check, i + 1);
        assert forall i :: NewestAt(rows, start, check, i) ==> NewestAt(rest, start, check, i - 1);
      }
    }
  }

  /** Something on the page belongs to the cycle. */
  predicate Begun(page: seq<Result>, start: int) {
    exists i :: 0 <= i < |page| && page[i].observedAt >= start
  }

  lemma BegunExactly(page: seq<Result>, start: int)
    ensures InCycle(page, start) == [] <==> !Begun(page, start)
  {
    InCycleContents(page, start);
    var rows := InCycle(page, start);
    if rows != [] {
      assert rows[0] in rows;
    }
    if Begun(page, start) {
      var i :| 0 <= i < |page| && page[i].observedAt >= start;
      assert page[i] in rows;
    }
  }

  /** Which status a gate has by the newest in-cycle result of each check, with every outcome named; in all other
      cases it is running. */
  ghost predicate StatusOfNewest(required: seq<string>, page: seq<Result>, start: int, cut: bool, s: GateStatus) {
    && (s == NotConfigured <==> required == [])
    && (s == Failed <==> exists c :: c in required && (NewestIs(page, start, c, Fail)
                                                      || NewestIs(page, start, c, Skipped)))
    && (s == Pending <==> required != [] && !Begun(page, start))
    && (s == Warning <==>
          && !cut && (exists c :: c in required && NewestIs(page, start, c, Warn))
          && forall c :: c in required ==> NewestIs(page, start, c, Pass) || NewestIs(page, start, c, NotApplicable)
                                           || NewestIs(page, start, c, Warn))
    && (s == Passed <==>
          && required != [] && !cut
          && forall c :: c in required ==> NewestIs(page, start, c, Pass) || NewestIs(page, start, c, NotApplicable))
  }

  lemma StatusCarriesOver(required: seq<string>, rows: seq<Result>, page: seq<Result>, start: int, cut: bool,
                          s: GateStatus)
    requires StatusOfFirst(required, rows, cut, s) && (rows == [] <==> !Begun(page, start))
    requires forall c, o :: FirstIs(rows, c, o) <==> NewestIs(page, start, c, o)
    ensures StatusOfNewest(required, page, start, cut, s)
  {
  }

  /** What `validation_record` concludes from the newest 200 results, said by indices into the listing; the cycle is
      cut when it reaches beyond them. */
  lemma PageVerdictExactly(required: seq<string>, all: seq<Result>, start: int)
    ensures StatusOfNewest(required, if |all| > 200 then all[..200] else all, start,
                           |all| > 200 && all[199].observedAt >= start, PageVerdict(required, all, start))
  {
    var page, cut := if |all| > 200 then all[..200] else all, |all| > 200 && all[199].observedAt >= start;
    var rows := InCycle(page, start);
    forall c, o ensures FirstIs(rows, c, o) <==> NewestIs(page, start, c, o) {
      NewestExactly(page, start, c, o);
      LatestExactly(rows, c, o);
    }
    BegunExactly(page, start);
    VerdictExactly(required, rows, cut);
    StatusCarriesOver(required, rows, page, start, cut, PageVerdict(required, all, start));
  }

  lemma {:induction false} InCycleSplit(a: seq<Result>, b: seq<Result>, start: int)
    ensures InCycle(a + b, start) == InCycle(a, start) + InCycle(b, start)
  {
    if a == [] {
      assert a + b == b;
    } else {
      assert (a + b)[1..] == a[1..] + b;
      InCycleSplit(a[1..], b, start);
    }
  }

  lemma {:induction false} InCycleContents(rows: seq<Result>, start: int)
    ensures forall r :: r in InCycle(rows, start) <==> r in rows && r.observedAt >= start
  {
    if rows != [] {
      InCycleContents(rows[1..], start);
      assert rows == [rows[0]] + rows[1..];
    }
  }

  /** A verdict a cut listing reaches at all is not changed by what was cut off. */
  lemma CutVerdictStands(required: seq<string>, shown: seq<Result>, hidden: seq<Result>)
    requires shown != [] && Verdict(required, shown, true) != Running
    ensures Verdict(required, shown + hidden, false) == Verdict(required, shown, true)
  {
    if required != [] {
      var c :| c in required && Blocking(Latest(shown, c));
      LatestOfPrefix(shown, hidden, c);
    }
  }

  lemma NothingHidden(all: seq<Result>, start: int)
    requires NewestFirst(all) && |all| > PAGE && all[PAGE - 1].observedAt < start
    ensures InCycle(all, start) == InCycle(all[..PAGE], start)
  {
    var rest := all[PAGE..];
    assert all == all[..PAGE] + rest;
    InCycleSplit(all[..PAGE], rest, start);
    forall i | 0 <= i < |rest| ensures rest[i].observedAt < start {
      assert all[PAGE + i] == rest[i];
    }
    NoneInCycle(rest, start);
  }

  lemma {:induction false} NoneInCycle(rows: seq<Result>, start: int)
    requires forall i :: 0 <= i < |rows| ==> rows[i].observedAt < start
    ensures InCycle(rows, start) == []
  {
    if rows != [] {
      NoneInCycle(rows[1..], start);
    }
  }

  /** Every verdict other than running, taken from the page, is the verdict over the complete history of the cycle. */
  lemma PageVerdictIsComplete(required: seq<string>, all: seq<Result>, start: int)
    requires NewestFirst(all)
    ensures PageVerdict(required, all, start) != Running ==>
              PageVerdict(required, all, start) == Verdict(required, InCycle(all, start), false)
  {
    if |all| > PAGE {
      var page, rest := all[..PAGE], all[PAGE..];
      if page[PAGE - 1].observedAt >= start {
        InCycleContents(page, start);
        assert page[PAGE - 1] in page;
        assert all == page + rest;
        InCycleSplit(page, rest, start);
        if PageVerdict(required, all, start) != Running {
          CutVerdictStands(required, InCycle(page, start), InCycle(rest, start));
        }
      } else {
        NothingHidden(all, start);
      }
    }
  }

  predicate Fails(required: seq<string>, rows: seq<Result>) {
    exists c :: c in required && Blocking(Latest(rows, c))
  }

  lemma FailedExactly(required: seq<string>, all: seq<Result>, start: int)
    ensures PageVerdict(required, all, start) == Failed <==>
              Fails(required, InCycle(if |all| > PAGE then all[..PAGE] else all, start))
  {
  }

  /** One more passing result never makes a gate fail. */
  lemma PassDoesNotFail(required: seq<string>, all: seq<Result>, start: int, r: Result)
    requires r.outcome == Pass && PageVerdict(required, all, start) != Failed
    ensures PageVerdict(required, [r] + all, start) != Failed
  {
    FailedExactly(required, all, start);
    FailedExactly(required, [r] + all, start);
    var shown := if |all| > PAGE then all[..PAGE] else all;
    var kept := if |all| >= PAGE then all[..PAGE - 1] else all;
    var rest := shown[|kept|..];
    assert shown == kept + rest;
    assert (if |[r] + all| > PAGE then ([r] + all)[..PAGE] else [r] + all) == [r] + kept;
    assert ([r] + kept)[1..] == kept;
    InCycleSplit(kept, rest, start);
    var first := if r.observedAt >= start then [r] else [];
    assert InCycle([r] + kept, start) == first + InCycle(kept, start);
    forall c | c in required ensures !Blocking(Latest(first + InCycle(kept, start), c)) {
      assert !Blocking(Latest(InCycle(shown, start), c));
      LatestOfPrefix(InCycle(kept, start), InCycle(rest, start), c);
      LatestOfPrefix(first, InCycle(kept, start), c);
    }
  }

  lemma {:induction false} LatestIsListed(rows: seq<Result>, check: string) returns (i: nat)
    requires Latest(rows, check).Some?
    ensures i < |rows| && rows[i].check == check && Latest(rows, check) == Some(rows[i].outcome)
    ensures forall j :: 0 <= j < i ==> rows[j].check != check
  {
    if rows[0].check == check {
      i := 0;
    } else {
      i := LatestIsListed(rows[1..], check);
      i := i + 1;
      assert forall j :: 0 < j < i ==> rows[j] == rows[1..][j - 1];
    }
  }

  /** A result that lets a check through: the newest of its cycle for that check, and neither failed nor skipped. */
  ghost predicate Clears(all: seq<Result>, start: int, check: string, r: Result) {
    && r in all && r.check == check && r.observedAt >= start && r.outcome != Fail && r.outcome != Skipped
    && forall q :: q in all && q.check == check && q.outcome != r.outcome ==> q.observedAt <= r.observedAt
  }

  /** The newest in-cycle result of a check clears it, unless it blocks. */
  lemma LatestClears(all: seq<Result>, start: int, check: string)
    requires NewestFirst(all) && Latest(InCycle(all, start), check).Some?
    requires !Blocking(Latest(InCycle(all, start), check))
    ensures exists r :: Clears(all, start, check, r)
  {
    var rows := InCycle(all, start);
    InCycleContents(all, start);
    InCycleKeepsOrder(all, start);
    var i := LatestIsListed(rows, check);
    var r := rows[i];
    assert r in rows;
    forall q | q in all && q.check == check && q.outcome != r.outcome ensures q.observedAt <= r.observedAt {
      if q.observedAt >= start {
        assert q in rows;
        var j :| 0 <= j < |rows| && rows[j] == q;
        assert j > i;
      }
    }
    assert Clears(all, start, check, r);
  }

  lemma PassedSpelledOut(required: seq<string>, rows: seq<Result>, c: string)
    requires GatePassed(Verdict(required, rows, false)) && c in required
    ensures Latest(rows, c).Some? && !Blocking(Latest(rows, c))
  {
  }

  /** A gate passes only with a cleared newest result, observed in the cycle, for each required check. */
  lemma PassedIsEarned(required: seq<string>, all: seq<Result>, start: int)
    requires NewestFirst(all) && GatePassed(PageVerdict(required, all, start))
    ensures required != []
    ensures forall c :: c in required ==> exists r :: Clears(all, start, c, r)
  {
    PageVerdictIsComplete(required, all, start);
    forall c | c in required ensures exists r :: Clears(all, start, c, r) {
      PassedSpelledOut(required, InCycle(all, start), c);
      LatestClears(all, start, c);
    }
  }

  lemma {:induction false} InCycleKeepsOrder(rows: seq<Result>, start: int)
    requires NewestFirst(rows)
    ensures NewestFirst(InCycle(rows, start))
  {
    if rows != [] {
      InCycleKeepsOrder(rows[1..], start);
      InCycleContents(rows[1..], start);
      var rest := InCycle(rows[1..], start);
      forall i | 0 <= i < |rest| ensures rest[i].observedAt <= rows[0].observedAt {
        assert rest[i] in rest;
        var j :| 0 <= j < |rows[1..]| && rows[1..][j] == rest[i];
        assert rows[j + 1] == rest[i];
      }
    }
  }
}
