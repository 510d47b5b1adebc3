/** Incidents driven by workflow events, and the fold over events they refine. */
module GenericWorkflow {
  import opened Prelude
  import opened Incidents
  import opened IncidentService
  import opened GroupKeys

  datatype EventStatus = Started | Succeeded | Failed | Cancelled | TimedOut

  datatype Rule = FailedRule | TimedOutRule

  datatype Event = Event(
    tenant: string,
    sourceType: string,
    sourceId: Option<string>,
    sourceKey: Option<string>,
    workflow: string,
    environment: Option<string>,
    status: EventStatus,
    occurredAt: int,
    ingested: nat)

  datatype Outcome = Skipped | Bridged(action: BridgeAction) | RecoveryNoop | IncidentResolved(id: nat)

  predicate Supported(sourceType: string) {
    sourceType == "webhook" || sourceType == "n8n" || sourceType == "make" || sourceType == "zapier"
  }

  function SourceIdentity(e: Event): string {
    if e.sourceId.Some? then e.sourceId.value
    else if e.sourceKey.Some? then e.sourceKey.value
    else "source"
  }

  function EnvironmentText(e: Event): string {
    if e.environment.Some? then e.environment.value else "default"
  }

  function RuleText(rule: Rule): string {
    match rule
    case FailedRule => "failed"
    case TimedOutRule => "timed_out"
  }

  function Join(parts: seq<string>): string
    requires parts != []
  {
    if |parts| == 1 then parts[0] else parts[0] + "|" + Join(parts[1..])
  }

  function FingerprintText(e: Event, rule: Rule): string {
    Join(["generic_workflow", e.tenant, e.sourceType, SourceIdentity(e), e.workflow, EnvironmentText(e), RuleText(rule)])
  }

  /** The parts of the text, with what stands in for a missing source or environment. */
  lemma FingerprintTextIs(e: Event, rule: Rule)
    ensures FingerprintText(e, rule)
         == "generic_workflow" + "|" + (e.tenant + "|" + (e.sourceType + "|"
            + ((if e.sourceId.Some? then e.sourceId.value else if e.sourceKey.Some? then e.sourceKey.value else "source") + "|"
            + (e.workflow + "|" + ((if e.environment.Some? then e.environment.value else "default") + "|"
            + (if rule == FailedRule then "failed" else "timed_out"))))))
  {
    var parts := ["generic_workflow", e.tenant, e.sourceType, SourceIdentity(e), e.workflow, EnvironmentText(e), RuleText(rule)];
    assert parts[1..][1..] == parts[2..] && parts[2..][1..] == parts[3..] && parts[3..][1..] == parts[4..];
    assert parts[4..][1..] == parts[5..] && parts[5..][1..] == parts[6..];
    assert Join(parts[6..]) == RuleText(rule);
    assert Join(parts[5..]) == EnvironmentText(e) + "|" + Join(parts[6..]);
    assert Join(parts[4..]) == e.workflow + "|" + Join(parts[5..]);
    assert Join(parts[3..]) == SourceIdentity(e) + "|" + Join(parts[4..]);
    assert Join(parts[2..]) == e.sourceType + "|" + Join(parts[3..]);
    assert Join(parts[1..]) == e.tenant + "|" + Join(parts[2..]);
  }

  function FingerprintFor(e: Event, rule: Rule): Fingerprint {
    OfWorkflow(FingerprintText(e, rule))
  }

  function SeverityFor(rule: Rule): Severity {
    match rule
    case FailedRule => Medium
    case TimedOutRule => High
  }

  /** The handler acts on events that were newly ingested from a supported source. */
  predicate Handled(e: Event) {
    e.ingested > 0 && Supported(e.sourceType)
  }

  function RuleOf(status: EventStatus): Option<Rule> {
    match status
    case Failed => Some(FailedRule)
    case TimedOut => Some(TimedOutRule)
    case _ => None
  }

  // ----- what one event does to the incident table

  function FindActive(incidents: seq<Incident>, tenant: string, fp: Fingerprint): (r: Option<nat>)
    ensures r.Some? ==> r.value < |incidents| && incidents[r.value].tenant == tenant && incidents[r.value].fingerprint == fp && incidents[r.value].Active()
    ensures forall i :: 0 <= i < |incidents| && incidents[i].tenant == tenant && incidents[i].fingerprint == fp && incidents[i].Active() ==>
      r.Some? && incidents[i].startedAt <= incidents[r.value].startedAt
  {
    if incidents == [] then None
    else
      var n := |incidents| - 1;
      var best := FindActive(incidents[..n], tenant, fp);
      if incidents[n].tenant == tenant && incidents[n].fingerprint == fp && incidents[n].Active()
         && (best.None? || incidents[best.value].startedAt < incidents[n].startedAt)
      then Some(n) else best
  }

  function RuleRecovered(incidents: seq<Incident>, e: Event, rule: Rule): (seq<Incident>, Option<nat>) {
    match FindActive(incidents, e.tenant, FingerprintFor(e, rule))
    case None => (incidents, None)
    case Some(k) =>
      var (rows, resolved) := ResolveThroughBridge(incidents, e.tenant, k, e.occurredAt);
      (rows, if resolved then Some(k) else None)
  }

  function OutcomeOf(resolved: Option<nat>): Outcome {
    if resolved.Some? then IncidentResolved(resolved.value) else RecoveryNoop
  }

  function Recovered(incidents: seq<Incident>, e: Event): (seq<Incident>, Outcome) {
    var (rows1, first) := RuleRecovered(incidents, e, FailedRule);
    var (rows2, second) := RuleRecovered(rows1, e, TimedOutRule);
    (rows2, OutcomeOf(if second.Some? then second else first))
  }

  function Detected(incidents: seq<Incident>, e: Event, now: int): (seq<Incident>, Outcome) {
    if !Handled(e) then (incidents, Skipped)
    else if e.status.Succeeded? then Recovered(incidents, e)
    else
      match RuleOf(e.status)
      case None => (incidents, Skipped)
      case Some(rule) =>
        var (rows, action) := OpenOrRefresh(incidents, e.tenant, None, SeverityFor(rule), FingerprintFor(e, rule), e.occurredAt, now);
        (rows, Bridged(action))
  }

  // An incident that a rule would have opened, and that is not resolved.
  predicate ActiveOf(i: Incident, e: Event, rule: Rule) {
    i.tenant == e.tenant && i.fingerprint == OfWorkflow(FingerprintText(e, rule)) && (i.status.Open? || i.status.Acked?)
  }

  /** Recovering reports the incident it resolved last, the time-out's after the failure's, and none only if neither
      rule has an active one. */
  lemma RecoveryReports(incidents: seq<Incident>, e: Event)
    ensures var (rows, r) := Recovered(incidents, e);
      && |rows| == |incidents| && (r.RecoveryNoop? || r.IncidentResolved?)
      && (r.RecoveryNoop? <==> forall k :: 0 <= k < |incidents| ==> !ActiveOf(incidents[k], e, FailedRule) && !ActiveOf(incidents[k], e, TimedOutRule))
      && (r.IncidentResolved? ==>
            && r.id < |incidents| && rows[r.id] == incidents[r.id].(status := Resolved, resolvedAt := Some(e.occurredAt))
            && (ActiveOf(incidents[r.id], e, TimedOutRule)
                || (ActiveOf(incidents[r.id], e, FailedRule) && forall k :: 0 <= k < |incidents| ==> !ActiveOf(incidents[k], e, TimedOutRule))))
  {
    RuleTextsDiffer(e);
    var (rows1, first) := RuleRecovered(incidents, e, FailedRule);
    forall k | 0 <= k < |incidents| ensures ActiveOf(rows1[k], e, TimedOutRule) <==> ActiveOf(incidents[k], e, TimedOutRule) {
    }
  }

  lemma RuleTextsDiffer(e: Event)
    ensures FingerprintText(e, FailedRule) != FingerprintText(e, TimedOutRule)
  {
    FingerprintTextIs(e, FailedRule);
    FingerprintTextIs(e, TimedOutRule);
  }

  method ResolveMatching(service: Service, e: Event) returns (r: Outcome)
    modifies service
    ensures (service.incidents, r) == Recovered(old(service.incidents), e)
  {
    var resolvedIncidentId: Option<nat> := None;
    var rules := [FailedRule, TimedOutRule];
    for i := 0 to |rules|
      invariant i == 0 ==> service.incidents == old(service.incidents) && resolvedIncidentId == None
      invariant i == 1 ==> (service.incidents, resolvedIncidentId) == RuleRecovered(old(service.incidents), e, FailedRule)
      invariant i == 2 ==> (service.incidents, OutcomeOf(resolvedIncidentId)) == Recovered(old(service.incidents), e)
    {
      var incident := FindActive(service.incidents, e.tenant, FingerprintFor(e, rules[i]));
      if incident.None? {
        continue;
      }
      var resolved := service.ResolveBridgeIncident(e.tenant, incident.value, e.occurredAt);
      if resolved {
        resolvedIncidentId := incident;
      }
    }
    return OutcomeOf(resolvedIncidentId);
  }

  method HandleGenericWorkflowEventDetection(service: Service, e: Event, now: int) returns (r: Outcome)
    modifies service
    ensures (service.incidents, r) == Detected(old(service.incidents), e, now)
    ensures r.Skipped? <==>
      e.ingested == 0 || e.sourceType !in {"webhook", "n8n", "make", "zapier"} || e.status.Started? || e.status.Cancelled?
    ensures r.Skipped? ==> service.incidents == old(service.incidents)
    ensures !r.Skipped? ==> (e.status.Succeeded? <==> r.RecoveryNoop? || r.IncidentResolved?)
    ensures r.Bridged? ==>
      var i := service.incidents[r.action.id];
      && i.status.Open? && i.tenant == e.tenant && i.lastSeenAt == e.occurredAt
      && i.severity == (if e.status.Failed? then Medium else High)
      && i.fingerprint == OfWorkflow(FingerprintText(e, if e.status.Failed? then FailedRule else TimedOutRule))
  {
    if e.ingested <= 0 || !Supported(e.sourceType) {
      return Skipped;
    }
    if e.status == Succeeded {
      r := ResolveMatching(service, e);
      return;
    }
    if e.status != Failed && e.status != TimedOut {
      return Skipped;
    }
    var rule := if e.status == Failed then FailedRule else TimedOutRule;
    var action := service.OpenOrRefreshBridgeIncident(e.tenant, None, SeverityFor(rule), FingerprintFor(e, rule), e.occurredAt, now);
    return Bridged(action);
  }

  // ----- runs of events, with other writers' incidents coming and going

  datatype Step = Deliver(e: Event, now: int) | Foreign(k: nat, i: Incident)

  predicate StepAllowed(incidents: seq<Incident>, a: Step) {
    a.Foreign? ==>
      !a.i.fingerprint.OfWorkflow? && a.k <= |incidents| && (a.k < |incidents| ==> !incidents[a.k].fingerprint.OfWorkflow?)
  }

  function AfterStep(incidents: seq<Incident>, a: Step): seq<Incident>
    requires StepAllowed(incidents, a)
  {
    match a
    case Deliver(e, now) => Detected(incidents, e, now).0
    case Foreign(k, i) => if k == |incidents| then incidents + [i] else incidents[k := i]
  }

  ghost predicate Executes(incidents: seq<Incident>, steps: seq<Step>, final: seq<Incident>)
    decreases |steps|
  {
    if steps == [] then incidents == final
    else StepAllowed(incidents, steps[0]) && Executes(AfterStep(incidents, steps[0]), steps[1..], final)
  }

  function EventsOf(steps: seq<Step>): seq<Event> {
    if steps == [] then []
    else
      var rest := EventsOf(steps[..|steps| - 1]);
      if steps[|steps| - 1].Deliver? then rest + [steps[|steps| - 1].e] else rest
  }

  // ----- the fold over events

  predicate Reports(e: Event, tenant: string, text: string) {
    Handled(e) && e.tenant == tenant && RuleOf(e.status).Some? && FingerprintText(e, RuleOf(e.status).value) == text
  }

  predicate Clears(e: Event, tenant: string, text: string) {
    Handled(e) && e.tenant == tenant && e.status.Succeeded? && (FingerprintText(e, FailedRule) == text || FingerprintText(e, TimedOutRule) == text)
  }

  /** An event of the rule has been ingested since the last success. */
  predicate Troubled(events: seq<Event>, tenant: string, text: string) {
    if events == [] then false
    else
      var e := events[|events| - 1];
      if Clears(e, tenant, text) then false
      else Reports(e, tenant, text) || Troubled(events[..|events| - 1], tenant, text)
  }

  // A newly ingested event of the tenant, from one of the four kinds of source.
  predicate Taken(e: Event, tenant: string) {
    e.tenant == tenant && 0 < e.ingested && e.sourceType in {"webhook", "n8n", "make", "zapier"}
  }

  predicate TroubleOf(e: Event, tenant: string, text: string) {
    Taken(e, tenant)
    && ((e.status.Failed? && FingerprintText(e, FailedRule) == text) || (e.status.TimedOut? && FingerprintText(e, TimedOutRule) == text))
  }

  predicate SuccessOf(e: Event, tenant: string, text: string) {
    Taken(e, tenant) && e.status.Succeeded? && (FingerprintText(e, FailedRule) == text || FingerprintText(e, TimedOutRule) == text)
  }

  /** A failure or time-out of the rule at position i, and no success after it. */
  ghost predicate LastsFrom(events: seq<Event>, tenant: string, text: string, i: nat) {
    i < |events| && TroubleOf(events[i], tenant, text) && forall j :: i < j < |events| ==> !SuccessOf(events[j], tenant, text)
  }

  lemma ReportsAndClears(e: Event, tenant: string, text: string)
    ensures Reports(e, tenant, text) <==> TroubleOf(e, tenant, text)
    ensures Clears(e, tenant, text) <==> SuccessOf(e, tenant, text)
  {
  }

  /** The fold, in terms of positions. */
  lemma {:induction false} TroubledMeans(events: seq<Event>, tenant: string, text: string)
    ensures Troubled(events, tenant, text) <==> exists i :: LastsFrom(events, tenant, text, i)
  {
    if events != [] {
      var n := |events| - 1;
      TroubledMeans(events[..n], tenant, text);
      ReportsAndClears(events[n], tenant, text);
      forall i | 0 <= i < n
        ensures LastsFrom(events, tenant, text, i) <==> LastsFrom(events[..n], tenant, text, i) && !Clears(events[n], tenant, text)
      {
        LastsOn(events, tenant, text, i);
      }
      assert LastsFrom(events, tenant, text, n) <==> Reports(events[n], tenant, text);
      if exists i :: LastsFrom(events[..n], tenant, text, i) {
        var i :| LastsFrom(events[..n], tenant, text, i);
        assert !Clears(events[n], tenant, text) ==> LastsFrom(events, tenant, text, i);
      }
    }
  }

  lemma LastsOn(events: seq<Event>, tenant: string, text: string, i: nat)
    requires i < |events| - 1
    ensures LastsFrom(events, tenant, text, i)
        <==> LastsFrom(events[..|events| - 1], tenant, text, i) && !SuccessOf(events[|events| - 1], tenant, text)
  {
  }

  predicate IsFor(i: Incident, tenant: string, text: string) {
    i.tenant == tenant && i.fingerprint == OfWorkflow(text)
  }

  ghost predicate OneRowEach(incidents: seq<Incident>) {
    forall i, j :: 0 <= i < j < |incidents| && incidents[i].fingerprint.OfWorkflow? ==>
      !(incidents[i].tenant == incidents[j].tenant && incidents[i].fingerprint == incidents[j].fingerprint)
  }

  ghost predicate Follows(incidents: seq<Incident>, events: seq<Event>) {
    && (forall k :: 0 <= k < |incidents| && incidents[k].fingerprint.OfWorkflow? ==>
          (incidents[k].status.Open? <==> Troubled(events, incidents[k].tenant, incidents[k].fingerprint.joined)) && !incidents[k].status.Acked?)
    && (forall tenant, text :: Troubled(events, tenant, text) ==> exists k :: 0 <= k < |incidents| && IsFor(incidents[k], tenant, text))
  }

  ghost predicate Inv(incidents: seq<Incident>, events: seq<Event>) {
    OneRowEach(incidents) && Follows(incidents, events)
  }

  lemma TroubledNext(events: seq<Event>, e: Event, tenant: string, text: string)
    ensures Troubled(events + [e], tenant, text)
        <==> !Clears(e, tenant, text) && (Reports(e, tenant, text) || Troubled(events, tenant, text))
  {
  }

  lemma IgnoredEvent(incidents: seq<Incident>, events: seq<Event>, e: Event)
    requires Inv(incidents, events) && !(Handled(e) && (e.status.Succeeded? || RuleOf(e.status).Some?))
    ensures Inv(incidents, events + [e])
  {
  }

  // A report leaves one open row of its rule and every other row as it was.
  lemma ReportedRows(incidents: seq<Incident>, e: Event, rule: Rule, now: int) returns (row: nat)
    requires OneRowEach(incidents)
    ensures var after := OpenOrRefresh(incidents, e.tenant, None, SeverityFor(rule), FingerprintFor(e, rule), e.occurredAt, now).0;
      && |incidents| <= |after| <= |incidents| + 1 && row < |after|
      && IsFor(after[row], e.tenant, FingerprintText(e, rule)) && after[row].status.Open?
      && (forall k :: 0 <= k < |after| && k != row ==> k < |incidents| && after[k] == incidents[k])
      && (row < |incidents| ==> IsFor(incidents[row], e.tenant, FingerprintText(e, rule)))
      && OneRowEach(after)
  {
    row := OpenOrRefresh(incidents, e.tenant, None, SeverityFor(rule), FingerprintFor(e, rule), e.occurredAt, now).1.id;
  }

  lemma ReportedEvent(incidents: seq<Incident>, events: seq<Event>, e: Event, rule: Rule, now: int)
    requires Inv(incidents, events) && Handled(e) && RuleOf(e.status) == Some(rule)
    ensures Inv(OpenOrRefresh(incidents, e.tenant, None, SeverityFor(rule), FingerprintFor(e, rule), e.occurredAt, now).0, events + [e])
  {
    var text := FingerprintText(e, rule);
    var after := OpenOrRefresh(incidents, e.tenant, None, SeverityFor(rule), FingerprintFor(e, rule), e.occurredAt, now).0;
    var row := ReportedRows(incidents, e, rule, now);
    forall tenant, t
      ensures Troubled(events + [e], tenant, t) <==> ((tenant == e.tenant && t == text) || Troubled(events, tenant, t))
    {
      TroubledNext(events, e, tenant, t);
    }
    forall tenant, t | Troubled(events + [e], tenant, t) ensures exists k :: 0 <= k < |after| && IsFor(after[k], tenant, t) {
      if tenant == e.tenant && t == text {
        assert IsFor(after[row], tenant, t);
      } else {
        var k :| 0 <= k < |incidents| && IsFor(incidents[k], tenant, t);
        assert IsFor(after[k], tenant, t);
      }
    }
  }

  // The rule's row, if there is one, is resolved; every other row is as it was.
  ghost predicate RuleDone(before: seq<Incident>, after: seq<Incident>, e: Event, rule: Rule) {
    && |after| == |before|
    && forall k :: 0 <= k < |before| ==>
         if IsFor(before[k], e.tenant, FingerprintText(e, rule))
         then IsFor(after[k], e.tenant, FingerprintText(e, rule)) && after[k].status.Resolved?
         else after[k] == before[k]
  }

  lemma RuleRecovers(incidents: seq<Incident>, e: Event, rule: Rule)
    requires OneRowEach(incidents)
    ensures RuleDone(incidents, RuleRecovered(incidents, e, rule).0, e, rule)
    ensures OneRowEach(RuleRecovered(incidents, e, rule).0)
  {
  }

  lemma RecoveredEvent(incidents: seq<Incident>, events: seq<Event>, e: Event)
    requires Inv(incidents, events) && Handled(e) && e.status.Succeeded?
    ensures Inv(Recovered(incidents, e).0, events + [e])
  {
    var middle := RuleRecovered(incidents, e, FailedRule).0;
    var after := RuleRecovered(middle, e, TimedOutRule).0;
    RuleRecovers(incidents, e, FailedRule);
    RuleRecovers(middle, e, TimedOutRule);
    forall k | 0 <= k < |after|
      ensures after[k].tenant == incidents[k].tenant && after[k].fingerprint == incidents[k].fingerprint
      ensures after[k].fingerprint.OfWorkflow? ==>
        after[k].status == if Clears(e, after[k].tenant, after[k].fingerprint.joined) then Resolved else incidents[k].status
    {
      assert IsFor(incidents[k], e.tenant, FingerprintText(e, FailedRule)) ==> middle[k].status.Resolved?;
    }
    forall tenant, text
      ensures Troubled(events + [e], tenant, text) <==> !Clears(e, tenant, text) && Troubled(events, tenant, text)
    {
      TroubledNext(events, e, tenant, text);
    }
    forall tenant, text | Troubled(events + [e], tenant, text) ensures exists k :: 0 <= k < |after| && IsFor(after[k], tenant, text) {
      var k :| 0 <= k < |incidents| && IsFor(incidents[k], tenant, text);
      assert IsFor(after[k], tenant, text);
    }
  }

  lemma ForeignStep(incidents: seq<Incident>, events: seq<Event>, a: Step)
    requires Inv(incidents, events) && a.Foreign? && StepAllowed(incidents, a)
    ensures Inv(AfterStep(incidents, a), events)
  {
  }

  lemma StepKeepsInv(incidents: seq<Incident>, events: seq<Event>, a: Step)
    requires Inv(incidents, events) && StepAllowed(incidents, a)
    ensures Inv(AfterStep(incidents, a), if a.Deliver? then events + [a.e] else events)
  {
    match a
    case Foreign(_, _) => ForeignStep(incidents, events, a);
    case Deliver(e, now) =>
      if Handled(e) && e.status.Succeeded? {
        RecoveredEvent(incidents, events, e);
      } else if Handled(e) && RuleOf(e.status).Some? {
        ReportedEvent(incidents, events, e, RuleOf(e.status).value, now);
      } else {
        IgnoredEvent(incidents, events, e);
      }
  }

  lemma Rejoin(past: seq<Step>, steps: seq<Step>)
    requires steps != []
    ensures past + [steps[0]] + steps[1..] == past + steps
  {
  }

  lemma {:induction false} InvAlways(incidents: seq<Incident>, past: seq<Step>, steps: seq<Step>, final: seq<Incident>)
    requires Inv(incidents, EventsOf(past)) && Executes(incidents, steps, final)
    ensures Inv(final, EventsOf(past + steps))
    decreases |steps|
  {
    if steps == [] {
      assert past + steps == past;
    } else {
      StepKeepsInv(incidents, EventsOf(past), steps[0]);
      InvAlways(AfterStep(incidents, steps[0]), past + [steps[0]], steps[1..], final);
      Rejoin(past, steps);
    }
  }

  // ----- the refinement

  /** However events and other writers alternate, a tenant has at most one incident row for a fingerprint. */
  lemma OneIncidentPerRule(steps: seq<Step>, final: seq<Incident>, j: nat, k: nat, tenant: string, text: string)
    requires Executes([], steps, final)
    requires j < |final| && IsFor(final[j], tenant, text) && k < |final| && IsFor(final[k], tenant, text)
    ensures j == k
  {
    InvAlways([], [], steps, final);
    assert [] + steps == steps;
  }

  /** And the row is there and active exactly when an event of its rule was ingested after the last success. */
  lemma {:induction false} ActiveExactlyWhenTroubled(steps: seq<Step>, final: seq<Incident>, tenant: string, text: string)
    requires Executes([], steps, final)
    ensures (exists k :: 0 <= k < |final| && IsFor(final[k], tenant, text) && final[k].Active()) <==> Troubled(EventsOf(steps), tenant, text)
  {
    InvAlways([], [], steps, final);
    assert [] + steps == steps;
    if Troubled(EventsOf(steps), tenant, text) {
      var k :| 0 <= k < |final| && IsFor(final[k], tenant, text);
      assert final[k].Active();
    }
  }

  // ----- what a fingerprint tells apart

  lemma JoinMore(part: string, parts: seq<string>)
    requires parts != []
    ensures Join([part] + parts) == part + "|" + Join(parts)
  {
  }

  /** The text between the tenant and source type in front and the environment and rule at the end. */
  function Inner(e: Event): string {
    SourceIdentity(e) + "|" + e.workflow
  }

  lemma InnerShape(a: string, b: string, c: string, d: string)
    ensures a + "|" + (b + "|" + (c + "|" + d)) == a + "|" + b + "|" + c + "|" + d
  {
  }

  lemma TextShape(e: Event, rule: Rule)
    ensures FingerprintText(e, rule)
         == "generic_workflow" + "|" + (e.tenant + "|" + (e.sourceType + "|" + (Inner(e) + "|" + EnvironmentText(e) + "|" + RuleText(rule))))
  {
    var p2 := [RuleText(rule)];
    var p3 := [EnvironmentText(e)] + p2;
    var p4 := [e.workflow] + p3;
    var p5 := [SourceIdentity(e)] + p4;
    var p6 := [e.sourceType] + p5;
    var p7 := [e.tenant] + p6;
    assert ["generic_workflow", e.tenant, e.sourceType, SourceIdentity(e), e.workflow, EnvironmentText(e), RuleText(rule)] == ["generic_workflow"] + p7;
    JoinMore("generic_workflow", p7);
    JoinMore(e.tenant, p6);
    JoinMore(e.sourceType, p5);
    JoinMore(SourceIdentity(e), p4);
    JoinMore(e.workflow, p3);
    JoinMore(EnvironmentText(e), p2);
    InnerShape(SourceIdentity(e), e.workflow, EnvironmentText(e), RuleText(rule));
  }

  lemma NoBars(e: Event, rule: Rule)
    requires Supported(e.sourceType)
    ensures '|' !in e.sourceType && '|' !in RuleText(rule)
  {
  }

  lemma SameHead(head: string, x: string, y: string)
    ensures head + "|" + x == head + "|" + y <==> x == y
  {
    assert (head + "|" + x)[|head| + 1..] == x && (head + "|" + y)[|head| + 1..] == y;
  }

  /** Two events of a tenant share a fingerprint exactly when they agree on source type and rule, and on source,
      workflow and environment written one after the other. A missing environment and one called "default"
      agree, and so do a source id and an equal source key. */
  lemma FingerprintsIdentify(e: Event, r: Rule, f: Event, q: Rule)
    requires Supported(e.sourceType) && Supported(f.sourceType) && e.tenant == f.tenant
    ensures FingerprintText(e, r) == FingerprintText(f, q)
      <==> e.sourceType == f.sourceType && r == q && Inner(e) + "|" + EnvironmentText(e) == Inner(f) + "|" + EnvironmentText(f)
  {
    TextShape(e, r);
    TextShape(f, q);
    NoBars(e, r);
    NoBars(f, q);
    var x := Inner(e) + "|" + EnvironmentText(e) + "|" + RuleText(r);
    var y := Inner(f) + "|" + EnvironmentText(f) + "|" + RuleText(q);
    SameHead("generic_workflow", e.tenant + "|" + (e.sourceType + "|" + x), f.tenant + "|" + (f.sourceType + "|" + y));
    SameHead(e.tenant, e.sourceType + "|" + x, f.sourceType + "|" + y);
    PeelFirst(e.sourceType, x, f.sourceType, y);
    PeelLast(Inner(e) + "|" + EnvironmentText(e), RuleText(r), Inner(f) + "|" + EnvironmentText(f), RuleText(q));
  }

  /** The environment is told apart from what is written before it unless it spills into it past a bar. */
  lemma EnvironmentsIdentify(e: Event, f: Event)
    ensures Inner(e) + "|" + EnvironmentText(e) == Inner(f) + "|" + EnvironmentText(f) <==>
      (Inner(e) == Inner(f) && EnvironmentText(e) == EnvironmentText(f))
      || Spills(Inner(e), EnvironmentText(e), Inner(f), EnvironmentText(f), "|")
      || Spills(Inner(f), EnvironmentText(f), Inner(e), EnvironmentText(e), "|")
    ensures '|' !in EnvironmentText(e) && '|' !in EnvironmentText(f) ==>
      (Inner(e) + "|" + EnvironmentText(e) == Inner(f) + "|" + EnvironmentText(f)
       <==> Inner(e) == Inner(f) && EnvironmentText(e) == EnvironmentText(f))
  {
    JoinedTextsAgree(Inner(e), EnvironmentText(e), Inner(f), EnvironmentText(f), "|");
    if '|' !in EnvironmentText(e) && '|' !in EnvironmentText(f) {
      PeelLast(Inner(e), EnvironmentText(e), Inner(f), EnvironmentText(f));
    }
  }

  /** Source and workflow are told apart unless one source, a bar, and more is the other source, and that
      more is what the first workflow starts with. */
  lemma InnerIdentifies(e: Event, f: Event)
    ensures Inner(e) == Inner(f) <==>
      (SourceIdentity(e) == SourceIdentity(f) && e.workflow == f.workflow)
      || Spills(SourceIdentity(e), e.workflow, SourceIdentity(f), f.workflow, "|")
      || Spills(SourceIdentity(f), f.workflow, SourceIdentity(e), e.workflow, "|")
  {
    JoinedTextsAgree(SourceIdentity(e), e.workflow, SourceIdentity(f), f.workflow, "|");
  }

  /** So two workflows of two sources can share their incidents. */
  lemma BarsConfuse(e: Event, a: string, b: string, c: string, rule: Rule)
    ensures FingerprintText(e.(sourceId := Some(a + "|" + b), workflow := c), rule) == FingerprintText(e.(sourceId := Some(a), workflow := b + "|" + c), rule)
  {
    var f := e.(sourceId := Some(a + "|" + b), workflow := c);
    var g := e.(sourceId := Some(a), workflow := b + "|" + c);
    TextShape(f, rule);
    TextShape(g, rule);
    assert Inner(f) == Inner(g);
  }

  lemma RulesApart(e: Event)
    ensures FingerprintText(e, FailedRule) != FingerprintText(e, TimedOutRule)
  {
    TextShape(e, FailedRule);
    TextShape(e, TimedOutRule);
    var a := FingerprintText(e, FailedRule);
    var b := FingerprintText(e, TimedOutRule);
    assert |b| == |a| + 3;
  }
}
