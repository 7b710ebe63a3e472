/** How much room a gate needs: what `validation_record` concludes when every required check has passed. */
module GateRoom {
  import opened Text
  import opened Gates

  /** So many results fit on a page, or on it together with everything stored before. */
  predicate Fits(results: nat, before: nat) {
    results < PAGE || results + before <= PAGE
  }

  /** Nothing but passes since the cycle began, at least one for each required check. */
  predicate AllPassed(required: seq<string>, recent: seq<Result>, start: int) {
    && required != []
    && (forall r :: r in recent ==> r.outcome == Pass && r.observedAt >= start)
    && (forall c :: c in required ==> exists r :: r in recent && r.check == c)
  }

  predicate Older(stored: seq<Result>, start: int) {
    forall r :: r in stored ==> r.observedAt < start
  }

  lemma {:induction false} HasLatest(rows: seq<Result>, check: string, r: Result)
    requires r in rows && r.check == check
    ensures Latest(rows, check).Some?
  {
    if rows[0].check != check {
      HasLatest(rows[1..], check, r);
    }
  }

  lemma OnlyPasses(rows: seq<Result>, check: string)
    requires forall r :: r in rows ==> r.outcome == Pass
    ensures Latest(rows, check).Some? ==> Latest(rows, check) == Some(Pass)
  {
    if Latest(rows, check).Some? {
      var i := LatestIsListed(rows, check);
      assert rows[i] in rows;
    }
  }

  /** The page of a cycle without failures holds no failure. */
  lemma PagePasses(recent: seq<Result>, stored: seq<Result>, start: int, page: seq<Result>)
    requires page <= recent + stored && Older(stored, start) && (forall r :: r in recent ==> r.outcome == Pass)
    ensures forall r :: r in InCycle(page, start) ==> r.outcome == Pass
  {
    InCycleContents(page, start);
    forall r | r in InCycle(page, start) ensures r.outcome == Pass {
      assert r in recent + stored;
    }
  }

  lemma NotFailed(required: seq<string>, rows: seq<Result>, truncated: bool)
    requires required != [] && forall r :: r in rows ==> r.outcome == Pass
    ensures Verdict(required, rows, truncated) ==
            if exists c :: c in required && Latest(rows, c).None? then (if rows == [] then Pending else Running)
            else if truncated then Running else Passed
  {
    forall c | c in required ensures Latest(rows, c).Some? ==> Latest(rows, c) == Some(Pass) {
      OnlyPasses(rows, c);
    }
  }

  /** When all results of the cycle are passes and every required check has one, the gate has passed if those
      results fit on a page, or on it together with everything older; otherwise it is reported running. */
  lemma PassingGateExactly(required: seq<string>, recent: seq<Result>, stored: seq<Result>, start: int)
    requires AllPassed(required, recent, start) && Older(stored, start)
    ensures PageVerdict(required, recent + stored, start) == if Fits(|recent|, |stored|) then Passed else Running
  {
    var all := recent + stored;
    var page := if |all| > PAGE then all[..PAGE] else all;
    var rows := InCycle(page, start);
    PagePasses(recent, stored, start, page);
    InCycleContents(page, start);
    if Fits(|recent|, |stored|) {
      NotFailed(required, rows, false);
      forall d | d in required ensures Latest(rows, d).Some? {
        RecentOnPage(recent, stored, start, page, d);
      }
      assert |all| > PAGE ==> page[PAGE - 1] in stored;
    } else {
      NotFailed(required, rows, true);
      assert page[PAGE - 1] == recent[PAGE - 1] && recent[PAGE - 1] in recent && page[PAGE - 1] in page;
    }
  }

  lemma RecentOnPage(recent: seq<Result>, stored: seq<Result>, start: int, page: seq<Result>, check: string)
    requires page <= recent + stored && |recent| <= |page| && exists r :: r in recent && r.check == check
    requires forall r :: r in recent ==> r.observedAt >= start
    ensures Latest(InCycle(page, start), check).Some?
  {
    var r :| r in recent && r.check == check;
    var i :| 0 <= i < |recent| && recent[i] == r;
    assert page[i] == r;
    InCycleContents(page, start);
    HasLatest(InCycle(page, start), check, r);
  }

  /** A gate of 200 checks or more can never pass again once the stored results exceed a page, however often its
      checks pass. */
  lemma LargeGateStaysRunning(required: seq<string>, recent: seq<Result>, stored: seq<Result>, start: int)
    requires AllPassed(required, recent, start) && Older(stored, start) && StrictlySorted(required)
    requires |required| >= PAGE && |recent| + |stored| > PAGE
    ensures PageVerdict(required, recent + stored, start) == Running
  {
    var checks := set r | r in recent :: r.check;
    SortedFits(required, checks);
    ChecksAtMost(recent, checks);
    PassingGateExactly(required, recent, stored, start);
  }

  lemma {:induction false} ChecksAtMost(recent: seq<Result>, checks: set<string>)
    requires forall c :: c in checks ==> exists r :: r in recent && r.check == c
    ensures |checks| <= |recent|
    decreases |recent|
  {
    if recent != [] {
      var rest := checks - {recent[0].check};
      forall c | c in rest ensures exists r :: r in recent[1..] && r.check == c {
        var r :| r in recent && r.check == c;
        assert recent == [recent[0]] + recent[1..];
      }
      ChecksAtMost(recent[1..], rest);
      assert checks <= rest + {recent[0].check};
    } else {
      assert (forall c :: c !in checks) ==> checks == {};
    }
  }

  /** One pass of each check, all at one time. */
  function PassOfEach(required: seq<string>, at: int): (recent: seq<Result>)
    ensures |recent| == |required| && forall i :: 0 <= i < |required| ==> recent[i] == Result(required[i], Pass, at)
  {
    seq(|required|, i requires 0 <= i < |required| => Result(required[i], Pass, at))
  }

  lemma PassOfEachPasses(required: seq<string>, at: int)
    requires required != []
    ensures AllPassed(required, PassOfEach(required, at), at)
  {
    var recent := PassOfEach(required, at);
    forall c | c in required ensures exists r :: r in recent && r.check == c {
      var i :| 0 <= i < |required| && required[i] == c;
      assert recent[i] in recent;
    }
  }

  /** Such a gate exists: 200 checks, each passed once, and one older result keep it running. */
  lemma GateOf200(older: Result, at: int) returns (required: seq<string>)
    requires older.observedAt < at
    ensures |required| == PAGE && StrictlySorted(required)
    ensures PageVerdict(required, PassOfEach(required, at) + [older], at) == Running
  {
    required := ManyKeys(PAGE);
    PassOfEachPasses(required, at);
    LargeGateStaysRunning(required, PassOfEach(required, at), [older], at);
  }
}
