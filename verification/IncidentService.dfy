/** The operations that every writer of incidents shares. */
module IncidentService {
  import opened Prelude
  import opened Incidents
  import opened IncidentTable

  /** The incident a bridge write is meant for: the one named, if it is the tenant's, or else a latest-started one of
      the tenant with the fingerprint. */
  ghost predicate MeantFor(incidents: seq<Incident>, tenant: string, incidentId: Option<nat>, fp: Fingerprint, k: nat) {
    && k < |incidents| && incidents[k].tenant == tenant
    && (incidentId.Some? ==> k == incidentId.value)
    && (incidentId.None? ==> incidents[k].fingerprint == fp && forall j :: 0 <= j < |incidents| ==>
          incidents[j].tenant == tenant && incidents[j].fingerprint == fp ==> incidents[j].startedAt <= incidents[k].startedAt)
  }

  ghost predicate NoneMeant(incidents: seq<Incident>, tenant: string, incidentId: Option<nat>, fp: Fingerprint) {
    match incidentId
    case Some(k) => k < |incidents| ==> incidents[k].tenant != tenant
    case None => forall j :: 0 <= j < |incidents| ==> !(incidents[j].tenant == tenant && incidents[j].fingerprint == fp)
  }

  /** An unresolved incident whose deadline has come is marked and logged, once. */
  function MarkedIfLate(i: Incident, now: int): Incident {
    if !i.status.Resolved? && i.slaDueAt <= now && i.slaBreachedAt.None?
    then i.(slaBreachedAt := Some(now), breaches := i.breaches + 1) else i
  }

  lemma PassMarksTheLate(before: seq<Incident>, now: int)
    ensures var ids := OverdueIds(before, now);
      var after := LoggedRows(MarkedRows(before, ids, now), ids);
      && |after| == |before| && OverdueIds(after, now) == {}
      && forall k :: 0 <= k < |after| ==> after[k] == MarkedIfLate(before[k], now)
  {
    var ids := OverdueIds(before, now);
    forall k | 0 <= k < |before| ensures k in ids <==> !before[k].status.Resolved? && before[k].slaDueAt <= now && before[k].slaBreachedAt.None? {
    }
  }

  class Service {
    var incidents: seq<Incident>

    constructor ()
      ensures incidents == []
    {
      incidents := [];
    }

    method OpenOrRefreshBridgeIncident(tenant: string, incidentId: Option<nat>, severity: Severity, fp: Fingerprint, lastSeenAt: int, now: int)
      returns (action: BridgeAction)
      modifies this`incidents
      ensures (incidents, action) == OpenOrRefresh(old(incidents), tenant, incidentId, severity, fp, lastSeenAt, now)
      ensures var k := action.id;
        && k < |incidents| && incidents[k].tenant == tenant && incidents[k].status.Open? && incidents[k].severity == severity
        && incidents[k].lastSeenAt == lastSeenAt && incidents[k].resolvedAt.None? && incidents[k].fingerprint == fp
        && incidents[k].slaDueAt == incidents[k].startedAt + SlaMinutes(severity) * 60_000
        && (action.CreatedNew? ==> k == |old(incidents)| && incidents[..k] == old(incidents) && incidents[k].startedAt == now && incidents[k].alerts == 1)
        && (!action.CreatedNew? ==>
              && k < |old(incidents)| && incidents == old(incidents)[k := incidents[k]]
              && (action.Reopened? <==> old(incidents)[k].status.Resolved?)
              && incidents[k].startedAt == (if action.Reopened? then now else old(incidents)[k].startedAt)
              && incidents[k].alerts == old(incidents)[k].alerts + (if action.Reopened? then 1 else 0)
              && incidents[k].slaBreachedAt == old(incidents)[k].slaBreachedAt && incidents[k].breaches == old(incidents)[k].breaches)
      ensures !action.CreatedNew? ==> MeantFor(old(incidents), tenant, incidentId, fp, action.id)
      ensures action.CreatedNew? ==> NoneMeant(old(incidents), tenant, incidentId, fp)
    {
      var target := BridgeTarget(incidents, tenant, incidentId, fp);
      if target.None? {
        action := CreatedNew(|incidents|);
        incidents := incidents + [Incident(tenant, None, None, None, Open, severity, now, lastSeenAt, None,
                                           SlaDueAt(now, severity), None, fp, NO_DETAILS, 1, 0)];
        return;
      }
      var id := target.value;
      var existing := incidents[id];
      var reopened := existing.status.Resolved?;
      var startedAt := if reopened then now else existing.startedAt;
      var updated := existing.(status := Open, severity := severity, resolvedAt := None, startedAt := startedAt,
                               lastSeenAt := lastSeenAt, slaDueAt := SlaDueAt(startedAt, severity), fingerprint := fp, details := NO_DETAILS);
      if reopened {
        updated := updated.(alerts := updated.alerts + 1);
      }
      incidents := incidents[id := updated];
      action := if reopened then Reopened(id) else Updated(id);
    }

    method ResolveBridgeIncident(tenant: string, id: nat, resolvedAt: int) returns (resolved: bool)
      modifies this`incidents
      ensures (incidents, resolved) == ResolveThroughBridge(old(incidents), tenant, id, resolvedAt)
      ensures resolved <==> id < |old(incidents)| && old(incidents)[id].tenant == tenant && !old(incidents)[id].status.Resolved?
      ensures incidents == if resolved then old(incidents)[id := old(incidents)[id].(status := Resolved, resolvedAt := Some(resolvedAt))] else old(incidents)
    {
      if id >= |incidents| || incidents[id].tenant != tenant || incidents[id].status.Resolved? {
        return false;
      }
      incidents := incidents[id := incidents[id].(status := Resolved, resolvedAt := Some(resolvedAt))];
      return true;
    }

    /** Acknowledging does not ask for the status. */
    method AckIncident(tenant: string, k: nat) returns (found: bool)
      modifies this`incidents
      ensures found <==> k < |old(incidents)| && old(incidents)[k].tenant == tenant
      ensures incidents == if found then old(incidents)[k := old(incidents)[k].(status := Acked)] else old(incidents)
      ensures found ==> incidents[k] == AckedBy(old(incidents)[k])
    {
      if k >= |incidents| || incidents[k].tenant != tenant {
        return false;
      }
      incidents := incidents[k := incidents[k].(status := Acked)];
      return true;
    }

    method ResolveIncident(tenant: string, k: nat, now: int) returns (found: bool)
      modifies this`incidents
      ensures found <==> k < |old(incidents)| && old(incidents)[k].tenant == tenant
      ensures incidents == if found then old(incidents)[k := ResolvedManually(old(incidents)[k], now)] else old(incidents)
      ensures found ==>
        incidents[k] == old(incidents)[k].(status := Resolved, resolvedAt := Some(now), details := old(incidents)[k].details.(cooldownHits := 0))
    {
      if k >= |incidents| || incidents[k].tenant != tenant {
        return false;
      }
      incidents := incidents[k := incidents[k].(status := Resolved, resolvedAt := Some(now), details := incidents[k].details.(cooldownHits := 0))];
      return true;
    }

    /** Marks every overdue incident and logs one event for each; a second pass at the same time finds none. */
    method MarkBreachedSla(now: int) returns (marked: nat)
      modifies this`incidents
      ensures var ids := OverdueIds(old(incidents), now);
        marked == |ids| && incidents == LoggedRows(MarkedRows(old(incidents), ids, now), ids)
      ensures OverdueIds(incidents, now) == {}
      ensures |incidents| == |old(incidents)|
      ensures forall k :: 0 <= k < |incidents| ==> incidents[k] == MarkedIfLate(old(incidents)[k], now)
    {
      var ids: set<nat> := {};
      for k := 0 to |incidents|
        invariant ids == OverdueIds(incidents[..k], now)
      {
        if Overdue(incidents[k], now) {
          ids := ids + {k};
        }
      }
      assert incidents[..|incidents|] == incidents;
      PassMarksTheLate(incidents, now);
      incidents := MarkedRows(incidents, ids, now);
      incidents := LoggedRows(incidents, ids);
      return |ids|;
    }
  }
}
