/** Incident rows and the writes that each service makes to one. */
module Incidents {
  import opened Prelude

  datatype Severity = Warn | Low | Medium | High | Critical

  datatype Status = Open | Acked | Resolved

  function SlaMinutes(s: Severity): int {
    match s
    case Warn => 240
    case Low => 180
    case Medium => 120
    case High => 60
    case Critical => 15
  }

  function SlaDueAt(startedAt: int, severity: Severity): int {
    startedAt + SlaMinutes(severity) * 60_000
  }

  // What an incident's fingerprint is hashed from; the three preimages start differently and the hash is
  // taken to be injective, so fingerprints of different makers never meet.
  datatype Fingerprint =
    | OfFinding(tenant: string, findingFingerprint: string)
    | OfPolicy(tenant: string, workflow: string, metric: string, minute: int)
    | OfWorkflow(joined: string)

  // The fields of details_json that are read back; a field never written reads as its default.
  datatype Details = Details(metric: Option<string>, clearStreak: int, cooldownHits: int, consecutive: int, lastAlertAt: Option<int>)

  const NO_DETAILS: Details := Details(None, 0, 0, 0, None)

  // `alerts` and `breaches` count the incident's ALERT_PENDING and SLA_BREACHED events.
  datatype Incident = Incident(
    tenant: string,
    policy: Option<string>,
    workflow: Option<string>,
    environment: Option<string>,
    status: Status,
    severity: Severity,
    startedAt: int,
    lastSeenAt: int,
    resolvedAt: Option<int>,
    slaDueAt: int,
    slaBreachedAt: Option<int>,
    fingerprint: Fingerprint,
    details: Details,
    alerts: nat,
    breaches: nat)
  {
    predicate Active() {
      status.Open? || status.Acked?
    }
  }

  // ----- the bridge, shared by findings and generic workflow events

  function BridgeOpened(tenant: string, fp: Fingerprint, severity: Severity, lastSeenAt: int, now: int): Incident {
    Incident(tenant, None, None, None, Open, severity, now, lastSeenAt, None, SlaDueAt(now, severity), None, fp, NO_DETAILS, 1, 0)
  }

  /** A refresh reopens a resolved incident, which restarts it and raises an alert. */
  function BridgeRefreshed(i: Incident, fp: Fingerprint, severity: Severity, lastSeenAt: int, now: int): Incident {
    var reopens := i.status.Resolved?;
    var startedAt := if reopens then now else i.startedAt;
    i.(status := Open, severity := severity, resolvedAt := None, startedAt := startedAt, lastSeenAt := lastSeenAt,
       slaDueAt := SlaDueAt(startedAt, severity), fingerprint := fp, details := NO_DETAILS,
       alerts := i.alerts + (if reopens then 1 else 0))
  }

  function BridgeResolved(i: Incident, resolvedAt: int): Incident {
    if i.status.Resolved? then i else i.(status := Resolved, resolvedAt := Some(resolvedAt))
  }

  // ----- manual actions

  function AckedBy(i: Incident): Incident {
    i.(status := Acked)
  }

  function ResolvedManually(i: Incident, now: int): Incident {
    i.(status := Resolved, resolvedAt := Some(now), details := i.details.(cooldownHits := 0))
  }

  /** The latest-started incident of a tenant with a fingerprint, whatever its status. */
  function FindByFingerprint(incidents: seq<Incident>, tenant: string, fp: Fingerprint): (r: Option<nat>)
    ensures r.Some? ==> r.value < |incidents| && incidents[r.value].tenant == tenant && incidents[r.value].fingerprint == fp
    ensures forall i :: 0 <= i < |incidents| && incidents[i].tenant == tenant && incidents[i].fingerprint == fp ==>
      r.Some? && incidents[i].startedAt <= incidents[r.value].startedAt
  {
    if incidents == [] then None
    else
      var n := |incidents| - 1;
      var best := FindByFingerprint(incidents[..n], tenant, fp);
      if incidents[n].tenant == tenant && incidents[n].fingerprint == fp
         && (best.None? || incidents[best.value].startedAt < incidents[n].startedAt)
      then Some(n) else best
  }

  datatype BridgeAction = CreatedNew(id: nat) | Updated(id: nat) | Reopened(id: nat)

  /** Which incident an open-or-refresh lands on: the one named, or else the latest with the fingerprint. */
  function BridgeTarget(incidents: seq<Incident>, tenant: string, incidentId: Option<nat>, fp: Fingerprint): (r: Option<nat>)
    ensures r.Some? ==> r.value < |incidents|
  {
    match incidentId
    case Some(id) => if id < |incidents| && incidents[id].tenant == tenant then Some(id) else None
    case None => FindByFingerprint(incidents, tenant, fp)
  }

  function OpenOrRefresh(incidents: seq<Incident>, tenant: string, incidentId: Option<nat>, severity: Severity, fp: Fingerprint,
                         lastSeenAt: int, now: int): (seq<Incident>, BridgeAction)
  {
    match BridgeTarget(incidents, tenant, incidentId, fp)
    case None => (incidents + [BridgeOpened(tenant, fp, severity, lastSeenAt, now)], CreatedNew(|incidents|))
    case Some(id) =>
      (incidents[id := BridgeRefreshed(incidents[id], fp, severity, lastSeenAt, now)],
       if incidents[id].status.Resolved? then Reopened(id) else Updated(id))
  }

  /** Resolving through the bridge; the flag says whether anything was resolved. */
  function ResolveThroughBridge(incidents: seq<Incident>, tenant: string, id: nat, resolvedAt: int): (seq<Incident>, bool) {
    if id < |incidents| && incidents[id].tenant == tenant && !incidents[id].status.Resolved?
    then (incidents[id := BridgeResolved(incidents[id], resolvedAt)], true)
    else (incidents, false)
  }
}
