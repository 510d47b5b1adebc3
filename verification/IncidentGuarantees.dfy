/** What every reachable incident table guarantees: deadlines, alert throttling, and breach marks. */
module IncidentGuarantees {
  import opened Prelude
  import opened Incidents
  import opened AnomalyPolicies
  import opened IncidentTable

  /** What people do to a row, and whether it is active. */
  lemma ManualSteps(cfg: Config, s: State, k: nat, now: int)
    requires k < |s.incidents|
    ensures var i := s.incidents[k];
      && Apply(cfg, s, Ack(k)) == s.(incidents := s.incidents[k := i.(status := Acked)])
      && Apply(cfg, s, Resolve(k, now))
         == s.(incidents := s.incidents[k := i.(status := Resolved, resolvedAt := Some(now), details := i.details.(cooldownHits := 0))])
      && (i.Active() <==> !i.status.Resolved?)
  {
  }

  /** Whoever wrote a row last, its deadline is its start plus the minutes its severity allows. */
  lemma DeadlineFollowsSeverity(cfg: Config, time: int, acts: seq<Action>, t: State, k: nat)
    requires Executes(cfg, Start(time), acts, t) && k < |t.incidents|
    ensures t.incidents[k].slaDueAt
         == t.incidents[k].startedAt
            + (match t.incidents[k].severity case Critical => 15 case High => 60 case Medium => 120 case Low => 180 case Warn => 240) * 60_000
  {
    InvAlways(cfg, Start(time), acts, t);
    assert RowOk(t.incidents[k], t.jobTime);
  }

  /** However often it is re-evaluated, acknowledged, cleared or resolved, a policy's incident gets one alert
      for its opening, at most one escalation, and one more for each half hour it has been seen. */
  lemma AlertsAreThrottled(cfg: Config, time: int, acts: seq<Action>, t: State, k: nat)
    requires Executes(cfg, Start(time), acts, t) && k < |t.incidents| && t.incidents[k].policy.Some?
    ensures var i := t.incidents[k];
      i.startedAt <= i.lastSeenAt && i.alerts <= (if i.severity.Critical? then 2 else 1) + (i.lastSeenAt - i.startedAt) / RENOTIFY_MS
  {
    InvAlways(cfg, Start(time), acts, t);
    var i := t.incidents[k];
    assert RowOk(i, t.jobTime);
  }

  // One more triggering window for the only incident there is.
  lemma OneMoreWindow(cfg: Config, s: State, p: Policy, tg: Target, now: int)
    requires |s.incidents| == 1 && s.jobTime <= now && p.metric == MISSING_HEARTBEAT && HeartbeatMatch(s.incidents[0], p, tg)
    ensures Executes(cfg, s, [Trigger(p, tg, None, now, Some(0), None)],
      State([PolicyRefreshed(cfg, s.incidents[0], p, now)], now, s.passes))
  {
  }

  // ----- the bound is met

  // The only incident is this policy's, has had so many alerts and was last refreshed and alerted then.
  predicate Alerted(s: State, p: Policy, tg: Target, critical: bool, alerts: nat, lastAlertAt: int) {
    && |s.incidents| == 1
    && var i := s.incidents[0];
    && HeartbeatMatch(i, p, tg) && i.policy == Some(p.id) && i.startedAt == 0 && i.severity.Critical? == critical
    && i.alerts == alerts && i.details.lastAlertAt == Some(lastAlertAt) && i.lastSeenAt == s.jobTime
  }

  lemma Opening(cfg: Config, p: Policy, tg: Target) returns (acts: seq<Action>, t: State)
    requires p.metric == MISSING_HEARTBEAT
    ensures Executes(cfg, Start(0), acts, t) && Alerted(t, p, tg, p.severity.Critical?, 1, 0) && t.jobTime == 0
  {
    var first := Trigger(p, tg, None, 0, None, None);
    t := State([PolicyOpened(p, tg, PolicyFingerprint(p, tg, None, 0), 0)], 0, map[]);
    assert Apply(cfg, Start(0), first) == t;
    acts := [first];
    assert acts[1..] == [];
  }

  lemma Refreshing(cfg: Config, p: Policy, tg: Target, acts: seq<Action>, s: State, now: int) returns (acts': seq<Action>, t: State)
    requires Executes(cfg, Start(0), acts, s) && p.metric == MISSING_HEARTBEAT && s.jobTime <= now
    requires |s.incidents| == 1 && HeartbeatMatch(s.incidents[0], p, tg)
    ensures Executes(cfg, Start(0), acts', t) && t == State([PolicyRefreshed(cfg, s.incidents[0], p, now)], now, s.passes)
  {
    OneMoreWindow(cfg, s, p, tg, now);
    t := State([PolicyRefreshed(cfg, s.incidents[0], p, now)], now, s.passes);
    JoinRuns(cfg, Start(0), acts, s, [Trigger(p, tg, None, now, Some(0), None)], t);
    acts' := acts + [Trigger(p, tg, None, now, Some(0), None)];
  }

  function LastBefore(n: nat): int {
    if n == 0 then 0 else n * RENOTIFY_MS + 1
  }

  // An alert every half hour, one millisecond late: before escalation is due, where there is none, or where it
  // falls together with the first of them.
  lemma {:induction false} HalfHourly(cfg: Config, p: Policy, tg: Target, n: nat) returns (acts: seq<Action>, t: State)
    requires p.metric == MISSING_HEARTBEAT
    requires p.severity.Critical? || cfg.escalationMinutes == 30 || n == 0 || LastBefore(n) < cfg.escalationMinutes * 60_000
    ensures Executes(cfg, Start(0), acts, t)
    ensures Alerted(t, p, tg, p.severity.Critical? || (cfg.escalationMinutes == 30 && 0 < n), 1 + n, LastBefore(n))
    ensures t.jobTime == LastBefore(n)
  {
    if n == 0 {
      acts, t := Opening(cfg, p, tg);
    } else {
      acts, t := HalfHourly(cfg, p, tg, n - 1);
      acts, t := Refreshing(cfg, p, tg, acts, t, n * RENOTIFY_MS + 1);
    }
  }

  // How many of those alerts fit before escalation is due.
  function AlertsBefore(cfg: Config): nat
    requires 0 < cfg.escalationMinutes
  {
    (cfg.escalationMinutes * 60_000 - 1) / RENOTIFY_MS
  }

  lemma EscalationFallsBetween(cfg: Config)
    requires 0 < cfg.escalationMinutes != 30
    ensures LastBefore(AlertsBefore(cfg)) < cfg.escalationMinutes * 60_000 < LastBefore(AlertsBefore(cfg)) + RENOTIFY_MS
  {
  }

  lemma EscalatedRow(cfg: Config, i: Incident, p: Policy, n: nat, last: int, now: int)
    requires i.startedAt == 0 && !i.severity.Critical? && i.alerts == 1 + n && i.details.lastAlertAt == Some(last)
    requires now == cfg.escalationMinutes * 60_000 && last < now < last + RENOTIFY_MS
    ensures var r := PolicyRefreshed(cfg, i, p, now);
      r == i.(lastSeenAt := now, severity := Critical, slaDueAt := r.slaDueAt, details := r.details, alerts := 2 + n)
      && r.details.lastAlertAt == Some(last) && r.details.metric == Some(p.metric)
  {
  }

  lemma Escalating(cfg: Config, p: Policy, tg: Target) returns (acts: seq<Action>, t: State)
    requires 0 < cfg.escalationMinutes != 30 && p.metric == MISSING_HEARTBEAT && !p.severity.Critical?
    ensures Executes(cfg, Start(0), acts, t) && t.jobTime == cfg.escalationMinutes * 60_000
    ensures Alerted(t, p, tg, true, 2 + AlertsBefore(cfg), LastBefore(AlertsBefore(cfg)))
  {
    var n := AlertsBefore(cfg);
    EscalationFallsBetween(cfg);
    var before, s := HalfHourly(cfg, p, tg, n);
    EscalatedRow(cfg, s.incidents[0], p, n, LastBefore(n), cfg.escalationMinutes * 60_000);
    acts, t := Refreshing(cfg, p, tg, before, s, cfg.escalationMinutes * 60_000);
  }

  // Then escalating between two of them, and going on alerting every half hour.
  lemma {:induction false} AfterEscalation(cfg: Config, p: Policy, tg: Target, n: nat) returns (acts: seq<Action>, t: State)
    requires 0 < cfg.escalationMinutes != 30 && p.metric == MISSING_HEARTBEAT && !p.severity.Critical? && AlertsBefore(cfg) <= n
    ensures Executes(cfg, Start(0), acts, t)
    ensures Alerted(t, p, tg, true, 2 + n, LastBefore(n))
    ensures t.jobTime == if n == AlertsBefore(cfg) then cfg.escalationMinutes * 60_000 else n * RENOTIFY_MS + 1
    decreases n
  {
    if n == AlertsBefore(cfg) {
      acts, t := Escalating(cfg, p, tg);
    } else {
      acts, t := AfterEscalation(cfg, p, tg, n - 1);
      acts, t := Refreshing(cfg, p, tg, acts, t, n * RENOTIFY_MS + 1);
    }
  }

  // Whole minutes and half hours.
  lemma MinutesLeft(minutes: int, n: nat, q: int)
    requires q * 1_800_000 <= minutes * 60_000 - 1 && n <= q
    ensures n * 1_800_000 + 1 < minutes * 60_000
  {
    assert 30 * n < minutes;
  }

  lemma NotYetDue(cfg: Config, n: nat)
    requires 0 < cfg.escalationMinutes && n <= AlertsBefore(cfg)
    ensures n == 0 || LastBefore(n) < cfg.escalationMinutes * 60_000
  {
    MinutesLeft(cfg.escalationMinutes, n, AlertsBefore(cfg));
  }

  // What such an incident shows, as the bound counts it.
  lemma ShowsBound(s: State, p: Policy, tg: Target, critical: bool, alerts: nat, last: int, n: nat)
    requires Alerted(s, p, tg, critical, alerts, last) && n * RENOTIFY_MS <= s.jobTime < n * RENOTIFY_MS + RENOTIFY_MS
    ensures var i := s.incidents[0];
      i.startedAt == 0 && n * RENOTIFY_MS <= i.lastSeenAt && (i.lastSeenAt - i.startedAt) / RENOTIFY_MS == n
  {
    HalfHours(n, s.jobTime);
  }

  lemma HalfHours(n: nat, ms: int)
    requires n * RENOTIFY_MS <= ms < n * RENOTIFY_MS + RENOTIFY_MS
    ensures ms / RENOTIFY_MS == n
  {
  }

  // So many half hours after its opening an incident has had so many alerts.
  ghost predicate BoundReached(cfg: Config, acts: seq<Action>, t: State, p: Policy, tg: Target, critical: bool, alerts: nat, n: nat) {
    && Executes(cfg, Start(0), acts, t) && |t.incidents| == 1 && HeartbeatMatch(t.incidents[0], p, tg)
    && var i := t.incidents[0];
    && i.startedAt == 0 && n * RENOTIFY_MS <= i.lastSeenAt && (i.lastSeenAt - i.startedAt) / RENOTIFY_MS == n
    && i.severity.Critical? == critical && i.alerts == alerts
  }

  lemma BoundByHalfHours(cfg: Config, p: Policy, tg: Target, n: nat) returns (acts: seq<Action>, t: State)
    requires p.metric == MISSING_HEARTBEAT
    requires p.severity.Critical? || cfg.escalationMinutes == 30 || n == 0 || LastBefore(n) < cfg.escalationMinutes * 60_000
    ensures BoundReached(cfg, acts, t, p, tg, p.severity.Critical? || (cfg.escalationMinutes == 30 && 0 < n), 1 + n, n)
  {
    acts, t := HalfHourly(cfg, p, tg, n);
    ShowsBound(t, p, tg, p.severity.Critical? || (cfg.escalationMinutes == 30 && 0 < n), 1 + n, LastBefore(n), n);
  }

  lemma BoundByEscalation(cfg: Config, p: Policy, tg: Target, n: nat) returns (acts: seq<Action>, t: State)
    requires 0 < cfg.escalationMinutes != 30 && p.metric == MISSING_HEARTBEAT && !p.severity.Critical? && AlertsBefore(cfg) < n
    ensures BoundReached(cfg, acts, t, p, tg, true, 2 + n, n)
  {
    acts, t := AfterEscalation(cfg, p, tg, n);
    ShowsBound(t, p, tg, true, 2 + n, LastBefore(n), n);
  }

  lemma FirstHalfHour(cfg: Config)
    requires cfg.escalationMinutes == 30
    ensures AlertsBefore(cfg) == 0
  {
  }

  /** The bounds are met at every length of time, for every policy and every escalation delay. An incident can
      have an alert for its opening and one for each half hour; once escalation is due it can have one more, by
      escalating between two half-hourly alerts, unless it was critical to begin with or the delay is half an
      hour, so that escalating always coincides with the first of them. */
  lemma AlertBoundIsMet(cfg: Config, p: Policy, tg: Target, n: nat) returns (acts: seq<Action>, t: State)
    requires 0 < cfg.escalationMinutes && p.metric == MISSING_HEARTBEAT
    ensures Executes(cfg, Start(0), acts, t) && |t.incidents| == 1 && HeartbeatMatch(t.incidents[0], p, tg)
    ensures var i := t.incidents[0];
      && i.startedAt == 0 && n * RENOTIFY_MS <= i.lastSeenAt
      && (i.severity.Critical? <==> p.severity.Critical? || AlertsBefore(cfg) < n)
      && i.alerts == (if i.severity.Critical? && !p.severity.Critical? && cfg.escalationMinutes != 30 then 2 else 1) + n
      && (i.lastSeenAt - i.startedAt) / RENOTIFY_MS == n
  {
    if cfg.escalationMinutes == 30 {
      FirstHalfHour(cfg);
    }
    if n <= AlertsBefore(cfg) {
      NotYetDue(cfg, n);
    }
    if p.severity.Critical? || cfg.escalationMinutes == 30 || n <= AlertsBefore(cfg) {
      acts, t := BoundByHalfHours(cfg, p, tg, n);
    } else {
      acts, t := BoundByEscalation(cfg, p, tg, n);
    }
  }

  // ----- where escalating costs no alert

  /** Escalating when the first half hour is over, an incident escalates as it is alerted; and what this policy
      opens is critical to begin with. */
  predicate NoExtraAlert(cfg: Config, policy: Option<string>, id: string) {
    policy.Some? && (cfg.escalationMinutes == 30 || policy == Some(id))
  }

  predicate OneLess(cfg: Config, i: Incident, id: string) {
    NoExtraAlert(cfg, i.policy, id) ==>
      && i.details.lastAlertAt.Some? && i.startedAt <= i.details.lastAlertAt.value
      && i.alerts <= 1 + (i.details.lastAlertAt.value - i.startedAt) / RENOTIFY_MS
      && (!i.severity.Critical? ==> cfg.escalationMinutes == 30 && i.details.lastAlertAt.value == i.startedAt)
  }

  ghost predicate AllOneLess(cfg: Config, s: State, id: string) {
    forall k :: 0 <= k < |s.incidents| ==> OneLess(cfg, s.incidents[k], id)
  }

  /** Whatever triggers under this policy's id triggers as critical, unless the delay is half an hour anyway. */
  predicate TriggersCritical(cfg: Config, a: Action, id: string) {
    a.Trigger? && a.p.id == id && cfg.escalationMinutes != 30 ==> a.p.severity.Critical?
  }

  predicate AllTriggerCritical(cfg: Config, acts: seq<Action>, id: string) {
    forall i :: 0 <= i < |acts| ==> TriggersCritical(cfg, acts[i], id)
  }

  lemma OneLessRefreshed(cfg: Config, i: Incident, p: Policy, jobTime: int, now: int, id: string)
    requires OneLess(cfg, i, id) && RowOk(i, jobTime) && jobTime <= now
    ensures OneLess(cfg, PolicyRefreshed(cfg, i, p, now), id)
  {
  }

  lemma OneLessTrigger(cfg: Config, s: State, a: Action, id: string)
    requires RowsOk(s) && AllOneLess(cfg, s, id) && a.Trigger? && Enabled(s, a) && TriggersCritical(cfg, a, id)
    ensures AllOneLess(cfg, Apply(cfg, s, a), id)
  {
    var t := Apply(cfg, s, a);
    if a.found.Some? {
      assert RowOk(s.incidents[a.found.value], s.jobTime);
      OneLessRefreshed(cfg, s.incidents[a.found.value], a.p, s.jobTime, a.now, id);
    } else {
      forall k | 0 <= k < |s.incidents| ensures OneLess(cfg, t.incidents[k], id) {
        assert OneLess(cfg, s.incidents[k], id);
      }
    }
  }

  predicate SameForAlerts(i: Incident, r: Incident) {
    r.policy == i.policy
    && (i.policy.Some? ==>
          r.alerts == i.alerts && r.startedAt == i.startedAt && r.severity == i.severity && r.details.lastAlertAt == i.details.lastAlertAt)
  }

  // Only triggers alert, restart or escalate an incident that a policy opened.
  lemma OtherKeepsAlerts(cfg: Config, s: State, a: Action)
    requires !a.Trigger? && Enabled(s, a)
    requires forall k :: 0 <= k < |s.incidents| ==> (s.incidents[k].policy.Some? <==> s.incidents[k].fingerprint.OfPolicy?)
    ensures |s.incidents| <= |Apply(cfg, s, a).incidents|
    ensures forall k :: 0 <= k < |s.incidents| ==> SameForAlerts(s.incidents[k], Apply(cfg, s, a).incidents[k])
    ensures forall k :: |s.incidents| <= k < |Apply(cfg, s, a).incidents| ==> Apply(cfg, s, a).incidents[k].policy.None?
  {
  }

  lemma OneLessSame(cfg: Config, i: Incident, r: Incident, id: string)
    requires OneLess(cfg, i, id) && SameForAlerts(i, r)
    ensures OneLess(cfg, r, id)
  {
  }

  lemma OneLessOther(cfg: Config, s: State, a: Action, id: string)
    requires RowsOk(s) && AllOneLess(cfg, s, id) && !a.Trigger? && Enabled(s, a)
    ensures AllOneLess(cfg, Apply(cfg, s, a), id)
  {
    var t := Apply(cfg, s, a);
    forall k | 0 <= k < |s.incidents| ensures s.incidents[k].policy.Some? <==> s.incidents[k].fingerprint.OfPolicy? {
      assert RowOk(s.incidents[k], s.jobTime);
    }
    OtherKeepsAlerts(cfg, s, a);
    forall k | 0 <= k < |s.incidents| ensures OneLess(cfg, t.incidents[k], id) {
      assert OneLess(cfg, s.incidents[k], id);
      OneLessSame(cfg, s.incidents[k], t.incidents[k], id);
    }
  }

  lemma OneLessStep(cfg: Config, s: State, a: Action, id: string)
    requires RowsOk(s) && AllOneLess(cfg, s, id) && Enabled(s, a) && TriggersCritical(cfg, a, id)
    ensures AllOneLess(cfg, Apply(cfg, s, a), id)
  {
    if a.Trigger? {
      OneLessTrigger(cfg, s, a, id);
    } else {
      OneLessOther(cfg, s, a, id);
    }
  }

  lemma {:induction false} OneLessAlways(cfg: Config, s: State, acts: seq<Action>, t: State, id: string)
    requires Inv(s) && AllOneLess(cfg, s, id) && Executes(cfg, s, acts, t) && AllTriggerCritical(cfg, acts, id)
    ensures Inv(t) && AllOneLess(cfg, t, id)
    decreases |acts|
  {
    if acts != [] {
      InvStep(cfg, s, acts[0]);
      OneLessStep(cfg, s, acts[0], id);
      OneLessAlways(cfg, Apply(cfg, s, acts[0]), acts[1..], t, id);
    }
  }

  /** A policy whose incidents are critical to begin with never has one escalated, so each gets one alert for
      its opening and one for each half hour it has been seen. */
  lemma CriticalPolicyNeverEscalates(cfg: Config, time: int, acts: seq<Action>, t: State, k: nat, id: string)
    requires Executes(cfg, Start(time), acts, t) && k < |t.incidents| && t.incidents[k].policy == Some(id)
    requires forall i :: 0 <= i < |acts| && acts[i].Trigger? && acts[i].p.id == id ==> acts[i].p.severity.Critical?
    ensures t.incidents[k].alerts <= 1 + (t.incidents[k].lastSeenAt - t.incidents[k].startedAt) / RENOTIFY_MS
  {
    OneLessAlways(cfg, Start(time), acts, t, id);
    assert OneLess(cfg, t.incidents[k], id) && RowOk(t.incidents[k], t.jobTime);
  }

  /** With a delay of exactly half an hour the escalation always coincides with the first half-hourly alert,
      and an incident gets one alert less than the bound. */
  lemma HalfHourEscalationCostsNoAlert(cfg: Config, time: int, acts: seq<Action>, t: State, k: nat)
    requires Executes(cfg, Start(time), acts, t) && k < |t.incidents| && t.incidents[k].policy.Some? && cfg.escalationMinutes == 30
    ensures t.incidents[k].alerts <= 1 + (t.incidents[k].lastSeenAt - t.incidents[k].startedAt) / RENOTIFY_MS
  {
    var id := t.incidents[k].policy.value;
    OneLessAlways(cfg, Start(time), acts, t, id);
    assert OneLess(cfg, t.incidents[k], id) && RowOk(t.incidents[k], t.jobTime);
  }

  // ----- breach marks

  /** A policy's incident is never marked breached before its deadline. */
  lemma PolicyBreachNeverEarly(cfg: Config, time: int, acts: seq<Action>, t: State, k: nat)
    requires Executes(cfg, Start(time), acts, t) && k < |t.incidents|
    requires t.incidents[k].policy.Some? && t.incidents[k].slaBreachedAt.Some?
    ensures t.incidents[k].slaDueAt <= t.incidents[k].slaBreachedAt.value
  {
    InvAlways(cfg, Start(time), acts, t);
    assert RowOk(t.incidents[k], t.jobTime);
  }
}
