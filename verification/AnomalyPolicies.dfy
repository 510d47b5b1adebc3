/** What an alert policy's evaluation does to an incident, and which one it finds. */
module AnomalyPolicies {
  import opened Prelude
  import opened Incidents
  import GroupKeys

  const MISSING_HEARTBEAT := "missing_heartbeat"
  const RENOTIFY_MS := 30 * 60_000
  const CLEAR_STREAK := 3

  datatype Config = Config(escalationMinutes: nat, cooldownWindows: nat)
  {
    predicate Valid() {
      0 < escalationMinutes <= 10080 && 0 < cooldownWindows <= 20
    }
  }

  datatype Policy = Policy(tenant: string, id: string, metric: string, severity: Severity, windowSec: nat)

  datatype Target = Target(workflow: string, env: string)

  // ----- is a heartbeat missing?

  function Round(x: real): int {
    (x + 0.5).Floor
  }

  datatype Heartbeat = Heartbeat(gapSec: Option<real>, count: int, inferredIntervalSec: Option<real>)

  /** The interval inferred from earlier heartbeats, or else the policy's window. */
  function IntervalSec(h: Heartbeat, windowSec: nat): real {
    if h.inferredIntervalSec.Some? then h.inferredIntervalSec.value else windowSec as real
  }

  /** The nearest whole second, halves going up, but never less than a minute. */
  function ExpectedIntervalSec(h: Heartbeat, windowSec: nat): (r: int)
    ensures if IntervalSec(h, windowSec) < 60.5 then r == 60
            else r as real - 0.5 <= IntervalSec(h, windowSec) < r as real + 0.5
  {
    Max(60, if h.inferredIntervalSec.Some? then Round(h.inferredIntervalSec.value) else windowSec)
  }

  /** A gap triggers when it exceeds three expected intervals; without a heartbeat there is no baseline and nothing triggers. */
  predicate HeartbeatMissing(h: Heartbeat, windowSec: nat) {
    0 < h.count && h.gapSec.Some? && h.gapSec.value > (ExpectedIntervalSec(h, windowSec) * 3) as real
  }

  /** Without a heartbeat in the window, or a gap since it, nothing triggers. With one, a gap of more than three
      intervals does, within what rounding the interval may matter, a second and a half; and no gap of three minutes
      or less ever triggers. */
  lemma HeartbeatThreshold(h: Heartbeat, windowSec: nat)
    ensures h.count <= 0 || h.gapSec.None? ==> !HeartbeatMissing(h, windowSec)
    ensures 0 < h.count && h.gapSec.Some? ==>
      var interval := IntervalSec(h, windowSec);
      && (h.gapSec.value > 3.0 * interval + 1.5 && h.gapSec.value > 180.0 ==> HeartbeatMissing(h, windowSec))
      && (h.gapSec.value <= 180.0 || h.gapSec.value <= 3.0 * interval - 1.5 ==> !HeartbeatMissing(h, windowSec))
  {
  }

  lemma WholeIsNearest(n: int, r: int)
    requires r as real - 0.5 <= n as real < r as real + 0.5
    ensures r == n
  {
  }

  /** Where the interval is a whole number of seconds, a minute at least, exactly the gaps over three of them trigger. */
  lemma WholeIntervalThreshold(h: Heartbeat, windowSec: nat, n: int)
    requires 0 < h.count && h.gapSec.Some? && IntervalSec(h, windowSec) == n as real && 60 <= n
    ensures HeartbeatMissing(h, windowSec) <==> h.gapSec.value > (3 * n) as real
  {
    if n > 60 {
      WholeIsNearest(n, ExpectedIntervalSec(h, windowSec));
    }
  }

  // ----- one incident

  function MinuteOf(t: int): int {
    t / 60_000
  }

  function PolicyFingerprint(p: Policy, tg: Target, bucket: Option<int>, now: int): Fingerprint {
    OfPolicy(p.tenant, tg.workflow, p.metric, MinuteOf(if bucket.Some? then bucket.value else now))
  }

  /** Two triggers of a policy share a fingerprint exactly when their buckets fall in the same minute of the
      clock; the environment plays no part. */
  lemma FingerprintPerMinute(p: Policy, a: Target, b: Target, s: int, t: int)
    ensures PolicyFingerprint(p, a, Some(s), s) == PolicyFingerprint(p, b, Some(t), t)
      <==> a.workflow == b.workflow && exists m :: m * 60_000 <= s < (m + 1) * 60_000 && m * 60_000 <= t < (m + 1) * 60_000
  {
    var m := MinuteOf(s);
    assert m * 60_000 <= s < (m + 1) * 60_000;
  }

  /** The text such a fingerprint is hashed from. */
  function PolicyText(tenant: string, workflow: string, metric: string, minute: string): string {
    tenant + "|" + workflow + "|" + metric + "|" + minute
  }

  /** Within a tenant it tells workflow, metric and minute apart whatever workflows are called, since the names of
      metrics and the texts of minutes hold no bar: the parts may be compared one by one. */
  lemma PolicyTextsIdentify(tenant: string, w: string, m: string, t: string, w': string, m': string, t': string)
    requires '|' !in m && '|' !in t && '|' !in m' && '|' !in t'
    ensures PolicyText(tenant, w, m, t) == PolicyText(tenant, w', m', t') <==> w == w' && m == m' && t == t'
  {
    GroupKeys.PeelLast(tenant + "|" + w + "|" + m, t, tenant + "|" + w' + "|" + m', t');
    GroupKeys.PeelLast(tenant + "|" + w, m, tenant + "|" + w', m');
    assert (tenant + "|" + w)[|tenant| + 1..] == w && (tenant + "|" + w')[|tenant| + 1..] == w';
  }

  function PolicyOpened(p: Policy, tg: Target, fp: Fingerprint, now: int): Incident {
    Incident(p.tenant, Some(p.id), Some(tg.workflow), Some(tg.env), Open, p.severity, now, now, None,
             SlaDueAt(now, p.severity), None, fp, Details(Some(p.metric), 0, 0, 1, Some(now)), 1, 0)
  }

  predicate Escalates(cfg: Config, i: Incident, now: int) {
    now - i.startedAt >= cfg.escalationMinutes * 60_000 && !i.severity.Critical?
  }

  predicate Notifies(i: Incident, now: int) {
    now - (if i.details.lastAlertAt.Some? then i.details.lastAlertAt.value else 0) >= RENOTIFY_MS
  }

  /** Another triggering window. Escalating raises an alert of its own and no second one; the time of the
      last alert moves only when the re-notify interval has passed. */
  function PolicyRefreshed(cfg: Config, i: Incident, p: Policy, now: int): Incident {
    var escalates := Escalates(cfg, i, now);
    var severity := if escalates then Critical else i.severity;
    var preserved := if i.details.lastAlertAt.Some? then i.details.lastAlertAt.value else now;
    i.(lastSeenAt := now,
       severity := severity,
       slaDueAt := if severity.Critical? then SlaDueAt(i.startedAt, Critical) else i.slaDueAt,
       details := Details(Some(p.metric), 0, 0, i.details.consecutive + 1, Some(if Notifies(i, now) then now else preserved)),
       alerts := i.alerts + (if escalates || Notifies(i, now) then 1 else 0))
  }

  /** A window without a trigger; the third in a row resolves the incident. */
  function WindowCleared(i: Incident, now: int): Incident {
    var streak := i.details.clearStreak + 1;
    if streak >= CLEAR_STREAK
    then i.(status := Resolved, resolvedAt := Some(now), details := i.details.(clearStreak := streak, cooldownHits := 0))
    else i.(details := i.details.(clearStreak := streak))
  }

  function WithCooldownHits(i: Incident, hits: int): Incident {
    i.(details := i.details.(cooldownHits := hits))
  }

  // ----- which incident

  predicate OfTarget(i: Incident, p: Policy, tg: Target) {
    i.tenant == p.tenant && i.workflow == Some(tg.workflow) && i.environment == Some(tg.env)
  }

  predicate HeartbeatMatch(i: Incident, p: Policy, tg: Target) {
    OfTarget(i, p, tg) && i.Active() && (i.details.metric == Some(MISSING_HEARTBEAT) || i.policy == Some(p.id))
  }

  predicate FingerprintMatch(i: Incident, p: Policy, fp: Fingerprint) {
    i.tenant == p.tenant && i.fingerprint == fp && i.Active()
  }

  predicate Clearable(i: Incident, p: Policy, tg: Target) {
    OfTarget(i, p, tg) && i.policy == Some(p.id) && i.Active()
  }

  predicate CooledDown(i: Incident, p: Policy, tg: Target) {
    OfTarget(i, p, tg) && i.policy == Some(p.id) && i.status.Resolved?
  }

  /** The latest-started of the matching incidents, if any; incidents started together are in either order. */
  ghost predicate IsLatestStarted(incidents: seq<Incident>, matches: Incident -> bool, r: Option<nat>) {
    if r.None? then forall j :: 0 <= j < |incidents| ==> !matches(incidents[j])
    else
      && r.value < |incidents| && matches(incidents[r.value])
      && (forall j :: 0 <= j < |incidents| && matches(incidents[j]) ==> incidents[j].startedAt <= incidents[r.value].startedAt)
  }

  /** The incident a triggering evaluation refreshes: for heartbeats the target's active one, and failing
      that an active one with the same fingerprint, whatever its environment. */
  ghost predicate IsExisting(incidents: seq<Incident>, p: Policy, tg: Target, fp: Fingerprint, r: Option<nat>) {
    if p.metric == MISSING_HEARTBEAT && exists j :: 0 <= j < |incidents| && HeartbeatMatch(incidents[j], p, tg)
    then r.Some? && IsLatestStarted(incidents, i => HeartbeatMatch(i, p, tg), r)
    else IsLatestStarted(incidents, i => FingerprintMatch(i, p, fp), r)
  }

  predicate NotAfter(a: Option<int>, b: Option<int>) {
    a.None? || b.None? || a.value <= b.value
  }

  /** The latest-resolved incident of the policy and target, if any. */
  ghost predicate IsLatestResolved(incidents: seq<Incident>, p: Policy, tg: Target, r: Option<nat>) {
    if r.None? then forall j :: 0 <= j < |incidents| ==> !CooledDown(incidents[j], p, tg)
    else
      && r.value < |incidents| && CooledDown(incidents[r.value], p, tg)
      && (forall j :: 0 <= j < |incidents| && CooledDown(incidents[j], p, tg) ==>
            NotAfter(incidents[j].resolvedAt, incidents[r.value].resolvedAt))
  }

  predicate InCooldown(cfg: Config, p: Policy, i: Incident, now: int) {
    i.resolvedAt.Some? && now - i.resolvedAt.value <= p.windowSec * cfg.cooldownWindows * 1000
  }

  /** Whether a trigger that found nothing active opens nothing either, and the hits it leaves behind. */
  function Suppressed(cfg: Config, incidents: seq<Incident>, p: Policy, latest: Option<nat>, now: int): (seq<Incident>, bool)
    requires latest.Some? ==> latest.value < |incidents|
  {
    if latest.None? || !InCooldown(cfg, p, incidents[latest.value], now) then (incidents, false)
    else
      var k := latest.value;
      var hits := incidents[k].details.cooldownHits + 1;
      if hits < cfg.cooldownWindows then (incidents[k := WithCooldownHits(incidents[k], hits)], true)
      else (incidents[k := WithCooldownHits(incidents[k], 0)], false)
  }

  /** The incident table after a triggering evaluation. */
  function Triggered(cfg: Config, incidents: seq<Incident>, p: Policy, tg: Target, bucket: Option<int>, now: int,
                     found: Option<nat>, latest: Option<nat>): seq<Incident>
    requires found.Some? ==> found.value < |incidents|
    requires found.None? && latest.Some? ==> latest.value < |incidents|
  {
    match found
    case Some(k) => incidents[k := PolicyRefreshed(cfg, incidents[k], p, now)]
    case None =>
      var (rows, suppressed) := Suppressed(cfg, incidents, p, latest, now);
      if suppressed then rows else rows + [PolicyOpened(p, tg, PolicyFingerprint(p, tg, bucket, now), now)]
  }

  /** The incident table after an evaluation that does not trigger. */
  function Cleared(incidents: seq<Incident>, p: Policy, tg: Target, now: int): (r: seq<Incident>)
    ensures |r| == |incidents|
    ensures forall k :: 0 <= k < |r| ==> r[k] == if Clearable(incidents[k], p, tg) then WindowCleared(incidents[k], now) else incidents[k]
  {
    seq(|incidents|, k requires 0 <= k < |incidents| =>
      if Clearable(incidents[k], p, tg) then WindowCleared(incidents[k], now) else incidents[k])
  }
}
