/** What the windowed rules say, in terms of the log alone. */
module RunWindows {
  import opened Prelude
  import opened EventLog
  import opened RobustStats
  import opened WindowRules

  // ----- the retry spike, by the latest runs

  ghost predicate DistinctIds(s: seq<Event>) {
    forall i, j :: 0 <= i < j < |s| ==> s[i].id != s[j].id
  }

  ghost predicate StrictlyLatestFirst(s: seq<Event>) {
    forall i, j :: 0 <= i < j < |s| ==> ComesAfter(s[i], s[j])
  }

  lemma {:induction false} InsertLatestStrict(e: Event, s: seq<Event>)
    requires StrictlyLatestFirst(s) && forall x :: x in s ==> x.id != e.id
    ensures StrictlyLatestFirst(InsertLatest(e, s))
  {
    if s != [] {
      assert s[0] in s;
      if ComesAfter(s[0], e) {
        InsertLatestStrict(e, s[1..]);
        var rest := InsertLatest(e, s[1..]);
        forall j | 0 <= j < |rest| ensures ComesAfter(s[0], rest[j]) {
          InsertedFrom(e, s[1..], rest[j]);
        }
      }
    }
  }

  lemma SameMember(s: seq<Event>, x: Event)
    ensures x in LatestFirst(s) <==> x in s
  {
    assert x in multiset(LatestFirst(s)) <==> x in multiset(s);
  }

  lemma SameMembers(s: seq<Event>)
    ensures forall x :: x in LatestFirst(s) <==> x in s
  {
    forall x ensures x in LatestFirst(s) <==> x in s {
      assert x in multiset(LatestFirst(s)) <==> x in multiset(s);
    }
  }

  lemma {:induction false} LatestFirstStrict(s: seq<Event>)
    requires DistinctIds(s)
    ensures StrictlyLatestFirst(LatestFirst(s))
  {
    if s != [] {
      LatestFirstStrict(s[..|s| - 1]);
      SameMembers(s[..|s| - 1]);
      InsertLatestStrict(s[|s| - 1], LatestFirst(s[..|s| - 1]));
    }
  }

  lemma InLonger(s: seq<Event>, last: Event, e: Event)
    ensures e in s + [last] <==> e in s || e == last
  {
  }

  lemma {:induction false} WhereMembers(table: seq<Event>, p: Event -> bool, e: Event)
    ensures e in Where(table, p) <==> e in table && p(e)
  {
    if table != [] {
      var before, last := table[..|table| - 1], table[|table| - 1];
      WhereMembers(before, p, e);
      assert table == before + [last];
      InLonger(before, last, e);
      InLonger(Where(before, p), last, e);
    }
  }

  lemma NewId(s: seq<Event>, e: Event)
    requires DistinctIds(s) && forall x :: x in s ==> x.id != e.id
    ensures DistinctIds(s + [e])
  {
  }

  lemma LastIsNew(s: seq<Event>)
    requires s != [] && DistinctIds(s)
    ensures forall x :: x in s[..|s| - 1] ==> x.id != s[|s| - 1].id
  {
    forall x | x in s[..|s| - 1] ensures x.id != s[|s| - 1].id {
      var i :| 0 <= i < |s| - 1 && s[..|s| - 1][i] == x;
      assert s[i] == x;
    }
  }

  lemma {:induction false} WhereDistinct(table: seq<Event>, p: Event -> bool)
    requires DistinctIds(table)
    ensures DistinctIds(Where(table, p))
  {
    if table != [] {
      var before, last := table[..|table| - 1], table[|table| - 1];
      WhereDistinct(before, p);
      LastIsNew(table);
      NewId(Where(before, p), last);
    }
  }

  ghost function Members(s: seq<Event>): set<Event> {
    set e | e in s
  }

  ghost function Retried(runs: set<Event>): set<Event> {
    set e | e in runs && e.runAttempt.Some? && e.runAttempt.value > 1.0
  }

  ghost function Later(runs: set<Event>, e: Event): set<Event> {
    set f | f in runs && (f.eventTs > e.eventTs || (f.eventTs == e.eventTs && f.id > e.id))
  }

  lemma MembersOfLonger(s: seq<Event>, e: Event)
    ensures Members(s + [e]) == Members(s) + {e}
  {
  }

  lemma RetriedOfLonger(runs: set<Event>, e: Event)
    ensures Retried(runs + {e}) == Retried(runs) + (if IsRetried(e) then {e} else {})
  {
  }

  lemma StrictLast(s: seq<Event>)
    requires s != [] && StrictlyLatestFirst(s)
    ensures s[|s| - 1] !in Members(s[..|s| - 1]) && StrictlyLatestFirst(s[..|s| - 1])
  {
    forall i | 0 <= i < |s| - 1 ensures s[i] != s[|s| - 1] {
      assert ComesAfter(s[i], s[|s| - 1]);
    }
  }

  lemma {:induction false} StrictCounts(s: seq<Event>)
    requires StrictlyLatestFirst(s)
    ensures |Members(s)| == |s| && |Retried(Members(s))| == CountRetried(s)
  {
    if s != [] {
      var last, before := s[|s| - 1], s[..|s| - 1];
      StrictLast(s);
      StrictCounts(before);
      assert s == before + [last];
      MembersOfLonger(before, last);
      RetriedOfLonger(Members(before), last);
    }
  }

  lemma LaterThan(s: seq<Event>, i: nat)
    requires StrictlyLatestFirst(s) && i < |s|
    ensures |Later(Members(s), s[i])| == i
  {
    forall f ensures f in Later(Members(s), s[i]) <==> f in Members(s[..i]) {
      if f in Later(Members(s), s[i]) {
        var j :| 0 <= j < |s| && s[j] == f;
        assert j < i;
        assert s[..i][j] == f;
      }
    }
    assert Later(Members(s), s[i]) == Members(s[..i]);
    StrictCounts(s[..i]);
  }

  /** The finished runs of the window. */
  ghost function WindowRuns(table: seq<Event>, tenant: string, system: string, since: int): set<Event> {
    set e | e in table && e.tenant == tenant && e.source == "github_actions" && e.system == system && since <= e.eventTs
            && e.eventType in {"workflow_completed", "workflow_failed", "job_completed", "job_failed"}
  }

  /** Those that fewer than so many others came after. */
  ghost function LatestRuns(runs: set<Event>, n: nat): set<Event> {
    set e | e in runs && |Later(runs, e)| < n
  }

  lemma LatestRunsAreFirst(s: seq<Event>, n: nat)
    requires StrictlyLatestFirst(s)
    ensures LatestRuns(Members(s), n) == Members(Take(s, n))
  {
    forall e ensures e in LatestRuns(Members(s), n) <==> e in Take(s, n) {
      if e in s {
        var i :| 0 <= i < |s| && s[i] == e;
        LaterThan(s, i);
        assert i < n ==> Take(s, n)[i] == e;
        if e in Take(s, n) {
          var j :| 0 <= j < |Take(s, n)| && Take(s, n)[j] == e;
          LaterThan(s, j);
        }
      }
    }
  }

  lemma FinishedTypes(e: Event)
    ensures IsTerminal(e) <==> e.eventType in {"workflow_completed", "workflow_failed", "job_completed", "job_failed"}
  {
  }

  lemma SortedWindow(table: seq<Event>, tenant: string, system: string, since: int)
    requires DistinctIds(table)
    ensures var w := LatestFirst(Where(table, e => FromGitHub(e, tenant, system) && IsTerminal(e) && e.eventTs >= since));
      StrictlyLatestFirst(w) && Members(w) == WindowRuns(table, tenant, system, since)
  {
    var p := (e: Event) => FromGitHub(e, tenant, system) && IsTerminal(e) && e.eventTs >= since;
    WhereDistinct(table, p);
    LatestFirstStrict(Where(table, p));
    forall e ensures e in WindowRuns(table, tenant, system, since) <==> e in Members(LatestFirst(Where(table, p))) {
      WhereMembers(table, p, e);
      FinishedTypes(e);
      SameMember(Where(table, p), e);
    }
  }

  /** However many runs finished in the last half hour, the rule looks at those that fewer than eighty others came
      after, in whatever order events arrived: at least three of them, and at least 35 percent, were retried. */
  lemma SpikeByLatestRuns(table: seq<Event>, tenant: string, system: string, now: int)
    requires DistinctIds(table)
    ensures var runs := LatestRuns(WindowRuns(table, tenant, system, now - 30 * 60_000), 80);
      IsSpike(table, tenant, system, now) <==> |Retried(runs)| >= 3 && 100 * |Retried(runs)| >= 35 * |runs|
  {
    var since := now - 30 * 60_000;
    var s := LatestFirst(Where(table, e => FromGitHub(e, tenant, system) && IsTerminal(e) && e.eventTs >= since));
    SortedWindow(table, tenant, system, since);
    LatestRunsAreFirst(s, 80);
    StrictCounts(Take(s, 80));
  }

  // ----- how long a run took, and what it is compared with

  /** An event that starts a run of the correlation, not after that moment. */
  predicate StartsRun(e: Event, tenant: string, correlation: string, family: string, until: int) {
    && e.tenant == tenant && e.source == "github_actions" && e.correlation == Some(correlation) && e.eventTs <= until
    && e.eventType in if family == "workflow" then {"workflow_requested", "workflow_started"} else {"job_queued", "job_started"}
  }

  ghost predicate LatestStartIs(table: seq<Event>, tenant: string, correlation: string, family: string, until: int, start: Event) {
    && start in table && StartsRun(start, tenant, correlation, family, until)
    && (forall e :: e in table && StartsRun(e, tenant, correlation, family, until) ==> e.eventTs <= start.eventTs)
  }

  /** A run has taken the time from the latest start of its correlation, if there is one and it came before. */
  lemma DurationMeans(table: seq<Event>, tenant: string, family: string, terminal: Event)
    ensures terminal.correlation.None? || terminal.correlation == Some("") ==> DurationMs(table, tenant, family, terminal).None?
    ensures terminal.correlation.Some? && terminal.correlation.value != "" ==>
      && ((forall e :: e in table ==> !StartsRun(e, tenant, terminal.correlation.value, family, terminal.eventTs)) ==>
            DurationMs(table, tenant, family, terminal).None?)
      && (forall start :: LatestStartIs(table, tenant, terminal.correlation.value, family, terminal.eventTs, start) ==>
            DurationMs(table, tenant, family, terminal)
            == if start.eventTs < terminal.eventTs then Some((terminal.eventTs - start.eventTs) as real) else None)
  {
    if Correlated(terminal) {
      var c := terminal.correlation.value;
      forall e: Event ensures Starts(e, tenant, c, family, terminal.eventTs) <==> StartsRun(e, tenant, c, family, terminal.eventTs) {
      }
      var r := LatestStart(table, tenant, c, family, terminal.eventTs);
      forall start | LatestStartIs(table, tenant, c, family, terminal.eventTs, start) ensures r.Some? && r.value.eventTs == start.eventTs {
        assert Starts(start, tenant, c, family, terminal.eventTs);
      }
    }
  }

  /** The runs of a system that finished in the twelve hours before one did. */
  ghost function EarlierRuns(table: seq<Event>, tenant: string, system: string, family: string, terminal: Event): set<Event> {
    set e | e in table && e.tenant == tenant && e.source == "github_actions" && e.system == system
            && terminal.eventTs - 12 * 60 * 60_000 <= e.eventTs < terminal.eventTs
            && e.eventType in if family == "workflow" then {"workflow_completed", "workflow_failed"} else {"job_completed", "job_failed"}
  }

  /** The baseline is taken from those of them that fewer than 25 others came after. */
  lemma BaselineIsLatestRuns(table: seq<Event>, tenant: string, system: string, family: string, terminal: Event)
    requires DistinctIds(table)
    ensures var events := BaselineEvents(table, tenant, system, family, terminal);
      && Members(events) == LatestRuns(EarlierRuns(table, tenant, system, family, terminal), 25)
      && StrictlyLatestFirst(events)
  {
    var from := terminal.eventTs - DRIFT_LOOKBACK_MIN * 60_000;
    var p := (e: Event) => FromGitHub(e, tenant, system) && e.eventType in TerminalTypes(family) && from <= e.eventTs < terminal.eventTs;
    WhereDistinct(table, p);
    var w := LatestFirst(Where(table, p));
    LatestFirstStrict(Where(table, p));
    SameMembers(Where(table, p));
    forall e ensures e in EarlierRuns(table, tenant, system, family, terminal) <==> e in Members(w) {
      WhereMembers(table, p, e);
    }
    assert Members(w) == EarlierRuns(table, tenant, system, family, terminal);
    LatestRunsAreFirst(w, 25);
  }

  /** Every one of them whose duration is known counts with it, and the others not at all. */
  lemma {:induction false} DurationsJoin(table: seq<Event>, tenant: string, family: string, a: seq<Event>, b: seq<Event>)
    ensures DurationsOf(table, tenant, family, a + b) == DurationsOf(table, tenant, family, a) + DurationsOf(table, tenant, family, b)
  {
    if b == [] {
      assert a + b == a;
    } else {
      WithoutLast(a, b);
      DurationsJoin(table, tenant, family, a, b[..|b| - 1]);
    }
  }

  lemma WithoutLast(a: seq<Event>, b: seq<Event>)
    requires b != []
    ensures a + b != [] && (a + b)[..|a + b| - 1] == a + b[..|b| - 1] && (a + b)[|a + b| - 1] == b[|b| - 1]
  {
  }

  lemma DurationOfOne(table: seq<Event>, tenant: string, family: string, e: Event)
    ensures DurationsOf(table, tenant, family, [e]) == match DurationMs(table, tenant, family, e) case None => [] case Some(d) => [d]
  {
    assert [e][..0] == [];
  }

  /** The drift rule: judged are runs of known duration against at least three others, and drifted have those that
      took at least twice the median and at least two minutes more. */
  lemma DriftMeans(table: seq<Event>, tenant: string, system: string, family: string, terminal: Event)
    ensures var current := DurationMs(table, tenant, family, terminal);
      var baseline := DurationsOf(table, tenant, family, BaselineEvents(table, tenant, system, family, terminal));
      var judged := DriftOf(table, tenant, system, family, terminal);
      && (judged.Some? <==> current.Some? && |baseline| >= 3)
      && (judged.Some? ==> (judged.value <==>
            current.value >= 2.0 * Median(baseline) && current.value >= Median(baseline) + 120_000.0))
  {
    var baseline := DurationsOf(table, tenant, family, BaselineEvents(table, tenant, system, family, terminal));
    if DurationMs(table, tenant, family, terminal).Some? && |baseline| >= 3 {
      PositiveMedian(baseline);
      RatioAgainst(DurationMs(table, tenant, family, terminal).value, Median(baseline));
    }
  }
}
