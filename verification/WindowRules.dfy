/** The rules that look at windows of the event log: counts, retry spikes and run durations. */
module WindowRules {
  import opened Prelude
  import opened EventLog
  import opened RobustStats
  import opened SortedSamples

  const WORKFLOW_TERMINAL: set<string> := {"workflow_completed", "workflow_failed"}
  const WORKFLOW_START: set<string> := {"workflow_requested", "workflow_started"}
  const JOB_TERMINAL: set<string> := {"job_completed", "job_failed"}
  const JOB_START: set<string> := {"job_queued", "job_started"}

  const RETRY_SPIKE_WINDOW_MIN := 30
  const RETRY_SPIKE_THRESHOLD := 3
  const RETRY_SPIKE_MAX_EVENTS: nat := 80
  const DRIFT_LOOKBACK_MIN := 12 * 60
  const DRIFT_MIN_SAMPLES := 3
  const DRIFT_MAX_SAMPLES: nat := 25
  const DRIFT_RATIO := 2.0
  const DRIFT_DELTA_MS := 120_000.0

  predicate FromGitHub(e: Event, tenant: string, system: string) {
    e.tenant == tenant && e.source == "github_actions" && e.system == system
  }

  /** Events of one type on a system since a moment. */
  function WindowCount(table: seq<Event>, tenant: string, system: string, eventType: string, since: int): nat {
    if table == [] then 0
    else
      var e := table[|table| - 1];
      WindowCount(table[..|table| - 1], tenant, system, eventType, since)
      + (if FromGitHub(e, tenant, system) && e.eventType == eventType && e.eventTs >= since then 1 else 0)
  }

  /** The places in the log of a system's events of one type from a moment on. */
  ghost function WindowPositions(table: seq<Event>, tenant: string, system: string, eventType: string, since: int): set<nat> {
    set i | 0 <= i < |table| && table[i].tenant == tenant && table[i].source == "github_actions" && table[i].system == system
            && table[i].eventType == eventType && since <= table[i].eventTs
  }

  lemma WindowPositionsLonger(table: seq<Event>, e: Event, tenant: string, system: string, eventType: string, since: int)
    ensures WindowPositions(table + [e], tenant, system, eventType, since)
         == WindowPositions(table, tenant, system, eventType, since)
            + (if e.tenant == tenant && e.source == "github_actions" && e.system == system && e.eventType == eventType && since <= e.eventTs
               then {|table|} else {})
  {
  }

  /** The count is that of those places. */
  lemma {:induction false} WindowCountCounts(table: seq<Event>, tenant: string, system: string, eventType: string, since: int)
    ensures WindowCount(table, tenant, system, eventType, since) == |WindowPositions(table, tenant, system, eventType, since)|
  {
    if table != [] {
      var before, e := table[..|table| - 1], table[|table| - 1];
      WindowCountCounts(before, tenant, system, eventType, since);
      WindowPositionsLonger(before, e, tenant, system, eventType, since);
      assert table == before + [e];
    }
  }

  predicate ComesAfter(a: Event, b: Event) {
    a.eventTs > b.eventTs || (a.eventTs == b.eventTs && a.id > b.id)
  }

  function Where(table: seq<Event>, p: Event -> bool): (r: seq<Event>)
    ensures |r| <= |table| && forall e :: e in r ==> e in table && p(e)
  {
    if table == [] then []
    else
      var rest := Where(table[..|table| - 1], p);
      if p(table[|table| - 1]) then rest + [table[|table| - 1]] else rest
  }

  function InsertLatest(e: Event, s: seq<Event>): (r: seq<Event>)
    ensures |r| == |s| + 1 && multiset(r) == multiset(s) + multiset{e}
  {
    if s == [] || !ComesAfter(s[0], e) then [e] + s
    else
      assert s == [s[0]] + s[1..];
      [s[0]] + InsertLatest(e, s[1..])
  }

  /** The events, latest first. */
  function LatestFirst(s: seq<Event>): (r: seq<Event>)
    ensures |r| == |s| && multiset(r) == multiset(s)
  {
    if s == [] then []
    else
      assert s == s[..|s| - 1] + [s[|s| - 1]];
      InsertLatest(s[|s| - 1], LatestFirst(s[..|s| - 1]))
  }

  // ----- retry spikes

  predicate IsTerminal(e: Event) {
    e.eventType in WORKFLOW_TERMINAL || e.eventType in JOB_TERMINAL
  }

  predicate IsRetried(e: Event) {
    e.runAttempt.Some? && e.runAttempt.value > 1.0
  }

  function RetryCandidates(table: seq<Event>, tenant: string, system: string, since: int): seq<Event> {
    Take(LatestFirst(Where(table, e => FromGitHub(e, tenant, system) && IsTerminal(e) && e.eventTs >= since)), RETRY_SPIKE_MAX_EVENTS)
  }

  function CountRetried(s: seq<Event>): (n: nat)
    ensures n <= |s|
  {
    if s == [] then 0 else CountRetried(s[..|s| - 1]) + (if IsRetried(s[|s| - 1]) then 1 else 0)
  }

  /** At least three retried events, making up at least 35 percent of all. */
  predicate SpikeCounts(retried: nat, total: nat) {
    retried >= RETRY_SPIKE_THRESHOLD && 100 * retried >= 35 * total
  }

  predicate IsSpike(table: seq<Event>, tenant: string, system: string, now: int) {
    var candidates := RetryCandidates(table, tenant, system, now - RETRY_SPIKE_WINDOW_MIN * 60_000);
    SpikeCounts(CountRetried(candidates), |candidates|)
  }

  // ----- durations

  predicate Correlated(e: Event) {
    e.correlation.Some? && e.correlation.value != ""
  }

  function FamilyOf(eventType: string): string {
    if "workflow_" <= eventType then "workflow" else if "job_" <= eventType then "job" else ""
  }

  function StartTypes(family: string): set<string> {
    if family == "workflow" then WORKFLOW_START else JOB_START
  }

  function TerminalTypes(family: string): set<string> {
    if family == "workflow" then WORKFLOW_TERMINAL else JOB_TERMINAL
  }

  predicate Starts(e: Event, tenant: string, correlation: string, family: string, until: int) {
    e.tenant == tenant && e.source == "github_actions" && e.correlation == Some(correlation)
    && e.eventType in StartTypes(family) && e.eventTs <= until
  }

  /** The latest start of a correlation up to a moment. */
  function LatestStart(table: seq<Event>, tenant: string, correlation: string, family: string, until: int): (r: Option<Event>)
    ensures r.Some? ==> r.value in table && Starts(r.value, tenant, correlation, family, until)
    ensures forall e :: e in table && Starts(e, tenant, correlation, family, until) ==> r.Some? && !ComesAfter(e, r.value)
  {
    if table == [] then None
    else
      var e := table[|table| - 1];
      var best := LatestStart(table[..|table| - 1], tenant, correlation, family, until);
      assert table == table[..|table| - 1] + [e];
      if Starts(e, tenant, correlation, family, until) && (best.None? || ComesAfter(e, best.value)) then Some(e) else best
  }

  /** How long the run that a terminal event ends has taken, if its start is known and came before. */
  function DurationMs(table: seq<Event>, tenant: string, family: string, terminal: Event): (d: Option<real>)
    ensures d.Some? ==> d.value > 0.0
  {
    if !Correlated(terminal) then None
    else
      match LatestStart(table, tenant, terminal.correlation.value, family, terminal.eventTs)
      case None => None
      case Some(start) => if terminal.eventTs - start.eventTs <= 0 then None else Some((terminal.eventTs - start.eventTs) as real)
  }

  function BaselineEvents(table: seq<Event>, tenant: string, system: string, family: string, terminal: Event): seq<Event> {
    var from := terminal.eventTs - DRIFT_LOOKBACK_MIN * 60_000;
    Take(LatestFirst(Where(table, e => FromGitHub(e, tenant, system) && e.eventType in TerminalTypes(family) && from <= e.eventTs < terminal.eventTs)),
         DRIFT_MAX_SAMPLES)
  }

  function DurationsOf(table: seq<Event>, tenant: string, family: string, events: seq<Event>): (r: seq<real>)
    ensures forall x :: x in r ==> x > 0.0
  {
    if events == [] then []
    else
      var rest := DurationsOf(table, tenant, family, events[..|events| - 1]);
      var d := DurationMs(table, tenant, family, events[|events| - 1]);
      if d.Some? then rest + [d.value] else rest
  }

  /** At least twice the baseline's median, and at least two minutes above it. */
  predicate Drifts(current: real, baseline: seq<real>) {
    var m := Median(baseline);
    (if m > 0.0 then current / m else 0.0) >= DRIFT_RATIO && current - m >= DRIFT_DELTA_MS
  }

  /** Whether the run ended by the terminal event drifted; no answer without a duration or with too small a baseline. */
  function DriftOf(table: seq<Event>, tenant: string, system: string, family: string, terminal: Event): Option<bool> {
    match DurationMs(table, tenant, family, terminal)
    case None => None
    case Some(current) =>
      var baseline := DurationsOf(table, tenant, family, BaselineEvents(table, tenant, system, family, terminal));
      if |baseline| < DRIFT_MIN_SAMPLES then None else Some(Drifts(current, baseline))
  }

  method BaselineDurations(table: seq<Event>, tenant: string, family: string, events: seq<Event>) returns (durations: seq<real>)
    ensures durations == DurationsOf(table, tenant, family, events)
  {
    durations := [];
    for i := 0 to |events|
      invariant durations == DurationsOf(table, tenant, family, events[..i])
    {
      assert events[..i + 1][..i] == events[..i];
      var duration := DurationMs(table, tenant, family, events[i]);
      if duration.Some? {
        durations := durations + [duration.value];
      }
    }
    assert events[..|events|] == events;
  }

  // ----- what the drift rule cannot be fooled by

  lemma RatioAgainst(current: real, m: real)
    requires m > 0.0
    ensures current / m >= 2.0 <==> current >= 2.0 * m
  {
  }

  /** Where more than half of the baseline runs took between lo and hi, the others cannot matter: a run that
      clears the bar set by hi drifts, and one that misses the bar set by lo does not. */
  lemma MajorityDecidesDrift(current: real, baseline: seq<real>, lo: real, hi: real)
    requires forall x :: x in baseline ==> x > 0.0
    requires 2 * CountIn(baseline, lo, hi) > |baseline|
    ensures current >= 2.0 * hi && current - hi >= DRIFT_DELTA_MS ==> Drifts(current, baseline)
    ensures lo > 0.0 && (current < 2.0 * lo || current - lo < DRIFT_DELTA_MS) ==> !Drifts(current, baseline)
  {
    MedianInMajorityRange(baseline, lo, hi);
    PositiveMedian(baseline);
    RatioAgainst(current, Median(baseline));
  }

  lemma PositiveMedian(values: seq<real>)
    requires values != [] && forall x :: x in values ==> x > 0.0
    ensures Median(values) > 0.0
  {
    SortSorts(values);
    var s := Sort(values);
    assert s[0] in multiset(s);
    assert s[0] in multiset(values);
    assert s[0] in values;
  }

  // ----- and what the spike rule counts

  function CountWhere(table: seq<Event>, tenant: string, system: string, since: int, retriedOnly: bool): nat {
    if table == [] then 0
    else
      var e := table[|table| - 1];
      CountWhere(table[..|table| - 1], tenant, system, since, retriedOnly)
      + (if FromGitHub(e, tenant, system) && IsTerminal(e) && e.eventTs >= since && (retriedOnly ==> IsRetried(e)) then 1 else 0)
  }

  lemma {:induction false} CountRetriedInsert(e: Event, s: seq<Event>)
    ensures CountRetried(InsertLatest(e, s)) == CountRetried(s) + (if IsRetried(e) then 1 else 0)
  {
    if s == [] || !ComesAfter(s[0], e) {
      CountRetriedJoin([e], s);
    } else {
      CountRetriedInsert(e, s[1..]);
      CountRetriedJoin([s[0]], InsertLatest(e, s[1..]));
      CountRetriedJoin([s[0]], s[1..]);
      assert s == [s[0]] + s[1..];
    }
  }

  lemma {:induction false} CountRetriedJoin(a: seq<Event>, b: seq<Event>)
    ensures CountRetried(a + b) == CountRetried(a) + CountRetried(b)
  {
    if b == [] {
      assert a + b == a;
    } else {
      assert (a + b)[..|a + b| - 1] == a + b[..|b| - 1];
      CountRetriedJoin(a, b[..|b| - 1]);
    }
  }

  lemma {:induction false} CountRetriedSorted(s: seq<Event>)
    ensures CountRetried(LatestFirst(s)) == CountRetried(s)
  {
    if s != [] {
      CountRetriedInsert(s[|s| - 1], LatestFirst(s[..|s| - 1]));
      CountRetriedSorted(s[..|s| - 1]);
    }
  }

  lemma {:induction false} CountsOfWindow(table: seq<Event>, tenant: string, system: string, since: int)
    ensures var w := Where(table, e => FromGitHub(e, tenant, system) && IsTerminal(e) && e.eventTs >= since);
      |w| == CountWhere(table, tenant, system, since, false) && CountRetried(w) == CountWhere(table, tenant, system, since, true)
  {
    if table != [] {
      CountsOfWindow(table[..|table| - 1], tenant, system, since);
      var p := (e: Event) => FromGitHub(e, tenant, system) && IsTerminal(e) && e.eventTs >= since;
      var before := Where(table[..|table| - 1], p);
      assert (before + [table[|table| - 1]])[..|before|] == before;
    }
  }

  /** With no more finished runs in the window than the rule looks at, it is a spike exactly when the
      window's own counts say so, in whatever order events arrived. */
  lemma SpikeByWindowCounts(table: seq<Event>, tenant: string, system: string, now: int)
    requires CountWhere(table, tenant, system, now - RETRY_SPIKE_WINDOW_MIN * 60_000, false) <= RETRY_SPIKE_MAX_EVENTS
    ensures var since := now - RETRY_SPIKE_WINDOW_MIN * 60_000;
      IsSpike(table, tenant, system, now)
      <==> SpikeCounts(CountWhere(table, tenant, system, since, true), CountWhere(table, tenant, system, since, false))
  {
    var since := now - RETRY_SPIKE_WINDOW_MIN * 60_000;
    var w := Where(table, e => FromGitHub(e, tenant, system) && IsTerminal(e) && e.eventTs >= since);
    CountsOfWindow(table, tenant, system, since);
    CountRetriedSorted(w);
  }

  lemma InsertedFrom(e: Event, s: seq<Event>, x: Event)
    requires x in InsertLatest(e, s)
    ensures x == e || x in s
  {
    assert x in multiset(InsertLatest(e, s));
  }

  lemma {:induction false} InsertLatestOrdered(e: Event, s: seq<Event>)
    requires IsLatestFirst(s)
    ensures IsLatestFirst(InsertLatest(e, s))
  {
    if !(s == [] || !ComesAfter(s[0], e)) {
      InsertLatestOrdered(e, s[1..]);
      var rest := InsertLatest(e, s[1..]);
      forall j | 0 <= j < |rest| ensures !ComesAfter(rest[j], s[0]) {
        InsertedFrom(e, s[1..], rest[j]);
        if rest[j] != e {
          var i :| 0 <= i < |s[1..]| && s[1..][i] == rest[j];
          assert s[i + 1] == rest[j];
        }
      }
    }
  }

  ghost predicate IsLatestFirst(s: seq<Event>) {
    forall i, j :: 0 <= i < j < |s| ==> !ComesAfter(s[j], s[i])
  }

  /** The rows looked at are the latest of the window: whatever was left out came no later than any of them. */
  lemma {:induction false} LatestFirstOrders(s: seq<Event>)
    ensures IsLatestFirst(LatestFirst(s))
  {
    if s != [] {
      LatestFirstOrders(s[..|s| - 1]);
      InsertLatestOrdered(s[|s| - 1], LatestFirst(s[..|s| - 1]));
    }
  }
}
