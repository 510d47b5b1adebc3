/** The rows that one missing_heartbeat policy keeps for one workflow, in all its environments, and what each
    step of the incident table does to them. */
module HeartbeatRows {
  import opened Prelude
  import opened Incidents
  import opened AnomalyPolicies
  import opened IncidentTable

  /** No other policy watches this workflow's heartbeat, and nobody else uses this policy's id on it. */
  predicate SolePolicy(a: Action, p: Policy, workflow: string) {
    (a.Trigger? || a.Clear?) && a.p.tenant == p.tenant && a.tg.workflow == workflow && (a.p.metric == MISSING_HEARTBEAT || a.p.id == p.id)
    ==> a.p == p
  }

  predicate Watched(i: Incident, p: Policy, workflow: string) {
    i.tenant == p.tenant && i.workflow == Some(workflow) && i.policy == Some(p.id) && i.Active()
  }

  // What a row's fingerprint tells, and what the policy's own rows look like.
  predicate OriginOk(i: Incident, p: Policy, workflow: string) {
    && (i.policy.None? ==> i.workflow.None? && !i.fingerprint.OfPolicy?)
    && (i.policy.Some? ==>
          i.fingerprint.OfPolicy? && i.fingerprint.tenant == i.tenant && i.workflow == Some(i.fingerprint.workflow) && i.environment.Some?)
    && (i.tenant == p.tenant && i.workflow == Some(workflow) && i.policy.Some? ==>
          i.details.metric == Some(i.fingerprint.metric) && (i.fingerprint.metric == MISSING_HEARTBEAT <==> i.policy == Some(p.id)))
  }

  ghost predicate OriginsOk(incidents: seq<Incident>, p: Policy, workflow: string) {
    forall k :: 0 <= k < |incidents| ==> OriginOk(incidents[k], p, workflow)
  }

  ghost predicate OneActive(incidents: seq<Incident>, p: Policy, workflow: string) {
    forall j, k :: 0 <= j < k < |incidents| && Watched(incidents[j], p, workflow) && Watched(incidents[k], p, workflow) ==>
      incidents[j].environment != incidents[k].environment
  }

  /** Acknowledging brings a resolved incident back. That adds no second active incident to its environment. */
  ghost predicate AckHarmless(incidents: seq<Incident>, k: nat, p: Policy, workflow: string)
    requires k < |incidents|
  {
    !(incidents[k].status.Resolved? && incidents[k].tenant == p.tenant && incidents[k].workflow == Some(workflow) && incidents[k].policy == Some(p.id)
      && exists j :: 0 <= j < |incidents| && j != k && Watched(incidents[j], p, workflow) && incidents[j].environment == incidents[k].environment)
  }

  ghost predicate AcksHarmless(cfg: Config, s: State, acts: seq<Action>, p: Policy, workflow: string)
    decreases |acts|
  {
    acts == [] ||
    (Enabled(s, acts[0])
     && (acts[0].Ack? ==> AckHarmless(s.incidents, acts[0].k, p, workflow))
     && AcksHarmless(cfg, Apply(cfg, s, acts[0]), acts[1..], p, workflow))
  }

  predicate SolePolicyOf(acts: seq<Action>, p: Policy, workflow: string) {
    forall i :: 0 <= i < |acts| ==> SolePolicy(acts[i], p, workflow)
  }

  // ----- the evaluations of one target

  /** The outcomes of the target's evaluations so far, oldest first: did each trigger? */
  function Outcomes(past: seq<Action>, p: Policy, tg: Target): seq<bool> {
    if past == [] then []
    else
      var a := past[|past| - 1];
      var before := Outcomes(past[..|past| - 1], p, tg);
      if (a.Trigger? || a.Clear?) && a.p == p && a.tg == tg then before + [a.Trigger?] else before
  }

  /** The last n of them all stayed quiet. */
  predicate LastQuiet(outcomes: seq<bool>, n: int) {
    n <= |outcomes| && forall j :: 0 <= j < |outcomes| && |outcomes| - n <= j ==> !outcomes[j]
  }

  lemma OutcomesNext(past: seq<Action>, a: Action, p: Policy, tg: Target)
    ensures Outcomes(past + [a], p, tg)
         == if (a.Trigger? || a.Clear?) && a.p == p && a.tg == tg then Outcomes(past, p, tg) + [a.Trigger?] else Outcomes(past, p, tg)
  {
  }

  // ----- rows that keep who they are

  predicate SameRow(i: Incident, r: Incident, p: Policy, workflow: string) {
    && r.tenant == i.tenant && r.policy == i.policy && r.workflow == i.workflow && r.environment == i.environment
    && (i.policy.Some? ==> r.fingerprint == i.fingerprint)
    && (i.policy.None? ==> !r.fingerprint.OfPolicy?)
    && (i.tenant == p.tenant && i.workflow == Some(workflow) && i.policy.Some? ==> r.details.metric == i.details.metric)
    && (Watched(r, p, workflow) ==> Watched(i, p, workflow))
  }

  // A watched row was watched before, and its streak is reset or as it was.
  predicate Calm(i: Incident, r: Incident, p: Policy, workflow: string) {
    && SameRow(i, r, p, workflow)
    && (Watched(r, p, workflow) ==> r.details.clearStreak == i.details.clearStreak || r.details.clearStreak == 0)
  }

  ghost predicate SameRows(before: seq<Incident>, after: seq<Incident>, p: Policy, workflow: string) {
    && |before| <= |after|
    && (forall k :: 0 <= k < |before| ==> SameRow(before[k], after[k], p, workflow))
    && (forall k :: |before| <= k < |after| ==> OriginOk(after[k], p, workflow))
  }

  lemma SameRowsKeepOrigins(before: seq<Incident>, after: seq<Incident>, p: Policy, workflow: string)
    requires SameRows(before, after, p, workflow) && OriginsOk(before, p, workflow)
    ensures OriginsOk(after, p, workflow)
  {
  }

  lemma SameRowsKeepOneActive(before: seq<Incident>, after: seq<Incident>, p: Policy, workflow: string)
    requires SameRows(before, after, p, workflow) && OneActive(before, p, workflow)
    requires forall k :: |before| <= k < |after| ==> !Watched(after[k], p, workflow)
    ensures OneActive(after, p, workflow)
  {
  }

  predicate EvaluatesOurs(a: Action, p: Policy, workflow: string) {
    (a.Trigger? || a.Clear?) && a.p == p && a.tg.workflow == workflow
  }

  // Every row is treated calmly and none of this policy's is appended.
  ghost predicate AllCalm(before: seq<Incident>, after: seq<Incident>, p: Policy, workflow: string) {
    && SameRows(before, after, p, workflow)
    && (forall k :: 0 <= k < |before| ==> Calm(before[k], after[k], p, workflow))
    && (forall k :: |before| <= k < |after| ==> !Watched(after[k], p, workflow))
  }

  lemma RefreshIsCalm(cfg: Config, s: State, a: Action, p: Policy, workflow: string)
    requires OriginsOk(s.incidents, p, workflow) && a.Trigger? && a.found.Some? && Enabled(s, a) && SolePolicy(a, p, workflow)
    ensures var k := a.found.value; Calm(s.incidents[k], PolicyRefreshed(cfg, s.incidents[k], a.p, a.now), p, workflow)
  {
  }

  lemma ForeignRefreshIsCalm(cfg: Config, s: State, a: Action, p: Policy, workflow: string)
    requires OriginsOk(s.incidents, p, workflow) && a.Trigger? && a.found.Some? && Enabled(s, a) && SolePolicy(a, p, workflow)
    ensures AllCalm(s.incidents, Apply(cfg, s, a).incidents, p, workflow)
  {
    RefreshIsCalm(cfg, s, a, p, workflow);
  }

  lemma CountedHitIsCalm(i: Incident, hits: int, p: Policy, workflow: string)
    requires OriginOk(i, p, workflow)
    ensures Calm(i, i, p, workflow) && Calm(i, WithCooldownHits(i, hits), p, workflow)
  {
  }

  lemma ForeignOpeningIsCalm(cfg: Config, s: State, a: Action, p: Policy, workflow: string)
    requires OriginsOk(s.incidents, p, workflow) && a.Trigger? && a.found.None? && p.metric == MISSING_HEARTBEAT
    requires !EvaluatesOurs(a, p, workflow) && Enabled(s, a) && SolePolicy(a, p, workflow)
    ensures AllCalm(s.incidents, Apply(cfg, s, a).incidents, p, workflow)
  {
    var t := Apply(cfg, s, a);
    forall k | 0 <= k < |s.incidents| ensures Calm(s.incidents[k], t.incidents[k], p, workflow) {
      CountedHitIsCalm(s.incidents[k], t.incidents[k].details.cooldownHits, p, workflow);
    }
    assert |t.incidents| > |s.incidents| ==>
      t.incidents[|s.incidents|] == PolicyOpened(a.p, a.tg, PolicyFingerprint(a.p, a.tg, a.bucket, a.now), a.now);
  }

  lemma ForeignTriggerIsCalm(cfg: Config, s: State, a: Action, p: Policy, workflow: string)
    requires OriginsOk(s.incidents, p, workflow) && p.metric == MISSING_HEARTBEAT
    requires a.Trigger? && !EvaluatesOurs(a, p, workflow) && Enabled(s, a) && SolePolicy(a, p, workflow)
    ensures AllCalm(s.incidents, Apply(cfg, s, a).incidents, p, workflow)
  {
    if a.found.Some? {
      ForeignRefreshIsCalm(cfg, s, a, p, workflow);
    } else {
      ForeignOpeningIsCalm(cfg, s, a, p, workflow);
    }
  }

  lemma BridgeIsCalm(cfg: Config, s: State, a: Action, p: Policy, workflow: string)
    requires OriginsOk(s.incidents, p, workflow) && RowsOk(s) && Enabled(s, a) && (a.BridgeWrite? || a.BridgeResolve?)
    ensures AllCalm(s.incidents, Apply(cfg, s, a).incidents, p, workflow)
  {
    var t := Apply(cfg, s, a);
    forall k | 0 <= k < |s.incidents| ensures Calm(s.incidents[k], t.incidents[k], p, workflow) {
      assert OriginOk(s.incidents[k], p, workflow) && RowOk(s.incidents[k], s.jobTime);
    }
  }

  lemma RowIsCalm(cfg: Config, s: State, a: Action, p: Policy, workflow: string)
    requires OriginsOk(s.incidents, p, workflow) && Enabled(s, a) && SolePolicy(a, p, workflow)
    requires !a.Trigger? && !a.BridgeWrite? && !a.BridgeResolve?
    requires !EvaluatesOurs(a, p, workflow) && (a.Ack? ==> !s.incidents[a.k].status.Resolved?)
    ensures AllCalm(s.incidents, Apply(cfg, s, a).incidents, p, workflow)
  {
    var t := Apply(cfg, s, a);
    forall k | 0 <= k < |s.incidents| ensures Calm(s.incidents[k], t.incidents[k], p, workflow) {
      assert OriginOk(s.incidents[k], p, workflow);
    }
  }

  /** Everything but an evaluation of the policy itself is calm, and so is acknowledging what is not resolved. */
  lemma {:induction false} OtherIsCalm(cfg: Config, s: State, a: Action, p: Policy, workflow: string)
    requires OriginsOk(s.incidents, p, workflow) && RowsOk(s) && Enabled(s, a) && SolePolicy(a, p, workflow)
    requires !a.Trigger? && !EvaluatesOurs(a, p, workflow) && (a.Ack? ==> !s.incidents[a.k].status.Resolved?)
    ensures AllCalm(s.incidents, Apply(cfg, s, a).incidents, p, workflow)
  {
    if a.BridgeWrite? || a.BridgeResolve? {
      BridgeIsCalm(cfg, s, a, p, workflow);
    } else {
      RowIsCalm(cfg, s, a, p, workflow);
    }
  }

  lemma OurTriggerOrigins(cfg: Config, s: State, a: Action, p: Policy, workflow: string)
    requires OriginsOk(s.incidents, p, workflow) && p.metric == MISSING_HEARTBEAT
    requires a.Trigger? && EvaluatesOurs(a, p, workflow) && Enabled(s, a) && SolePolicy(a, p, workflow)
    ensures OriginsOk(Apply(cfg, s, a).incidents, p, workflow)
  {
    if a.found.Some? {
      RefreshIsCalm(cfg, s, a, p, workflow);
    }
    SameRowsKeepOrigins(s.incidents, Apply(cfg, s, a).incidents, p, workflow);
  }

  lemma OurTriggerTable(cfg: Config, s: State, a: Action, p: Policy, workflow: string)
    requires OriginsOk(s.incidents, p, workflow) && OneActive(s.incidents, p, workflow) && p.metric == MISSING_HEARTBEAT
    requires a.Trigger? && EvaluatesOurs(a, p, workflow) && Enabled(s, a) && SolePolicy(a, p, workflow)
    ensures OneActive(Apply(cfg, s, a).incidents, p, workflow)
  {
    var t := Apply(cfg, s, a);
    if a.found.Some? {
      RefreshIsCalm(cfg, s, a, p, workflow);
      SameRowsKeepOneActive(s.incidents, t.incidents, p, workflow);
    } else {
      forall j, k | 0 <= j < k < |t.incidents| && Watched(t.incidents[j], p, workflow) && Watched(t.incidents[k], p, workflow)
        ensures t.incidents[j].environment != t.incidents[k].environment
      {
        assert Watched(s.incidents[j], p, workflow) && OriginOk(s.incidents[j], p, workflow);
        assert k == |s.incidents| ==> !HeartbeatMatch(s.incidents[j], p, a.tg);
      }
    }
  }

  // The policy's own trigger finds the one active incident that its target has.
  lemma TriggerFinds(s: State, a: Action, p: Policy, workflow: string, k: nat)
    requires OriginsOk(s.incidents, p, workflow) && OneActive(s.incidents, p, workflow) && p.metric == MISSING_HEARTBEAT
    requires a.Trigger? && EvaluatesOurs(a, p, workflow) && Enabled(s, a)
    requires k < |s.incidents| && Watched(s.incidents[k], p, workflow) && s.incidents[k].environment == Some(a.tg.env)
    ensures a.found == Some(k)
  {
    assert OriginOk(s.incidents[k], p, workflow) && HeartbeatMatch(s.incidents[k], p, a.tg);
    assert a.found.Some?;
    assert HeartbeatMatch(s.incidents[a.found.value], p, a.tg) && OriginOk(s.incidents[a.found.value], p, workflow);
  }

  lemma OurClearTable(cfg: Config, s: State, a: Action, p: Policy, workflow: string)
    requires OriginsOk(s.incidents, p, workflow) && OneActive(s.incidents, p, workflow)
    requires a.Clear? && EvaluatesOurs(a, p, workflow) && Enabled(s, a)
    ensures OneActive(Apply(cfg, s, a).incidents, p, workflow)
  {
    SameRowsKeepOneActive(s.incidents, Apply(cfg, s, a).incidents, p, workflow);
  }

  // ----- what one step does to the table

  /** Whether an acknowledgement leaves one active incident each is decided by the row it acknowledges. */
  lemma AckKeepsOneActive(incidents: seq<Incident>, k: nat, p: Policy, workflow: string)
    requires OneActive(incidents, p, workflow) && k < |incidents|
    ensures OneActive(incidents[k := AckedBy(incidents[k])], p, workflow) <==> AckHarmless(incidents, k, p, workflow)
  {
    var after := incidents[k := AckedBy(incidents[k])];
    if !AckHarmless(incidents, k, p, workflow) {
      var j :| 0 <= j < |incidents| && j != k && Watched(incidents[j], p, workflow) && incidents[j].environment == incidents[k].environment;
      assert Watched(after[k], p, workflow) && Watched(after[j], p, workflow) && after[j].environment == after[k].environment;
    }
  }

  lemma AckKeepsOrigins(incidents: seq<Incident>, k: nat, p: Policy, workflow: string)
    requires OriginsOk(incidents, p, workflow) && k < |incidents|
    ensures OriginsOk(incidents[k := AckedBy(incidents[k])], p, workflow)
  {
  }

  /** No step at all changes what a row's fingerprint tells. */
  lemma {:induction false} OriginsStep(cfg: Config, s: State, a: Action, p: Policy, workflow: string)
    requires OriginsOk(s.incidents, p, workflow) && RowsOk(s) && p.metric == MISSING_HEARTBEAT && Enabled(s, a) && SolePolicy(a, p, workflow)
    ensures OriginsOk(Apply(cfg, s, a).incidents, p, workflow)
  {
    if a.Ack? {
      AckKeepsOrigins(s.incidents, a.k, p, workflow);
    } else if EvaluatesOurs(a, p, workflow) && a.Trigger? {
      OurTriggerOrigins(cfg, s, a, p, workflow);
    } else {
      if a.Trigger? {
        ForeignTriggerIsCalm(cfg, s, a, p, workflow);
      } else if !EvaluatesOurs(a, p, workflow) {
        OtherIsCalm(cfg, s, a, p, workflow);
      }
      SameRowsKeepOrigins(s.incidents, Apply(cfg, s, a).incidents, p, workflow);
    }
  }

  lemma {:induction false} OriginsAlways(cfg: Config, s: State, acts: seq<Action>, t: State, p: Policy, workflow: string)
    requires OriginsOk(s.incidents, p, workflow) && IncidentTable.Inv(s) && p.metric == MISSING_HEARTBEAT
    requires Executes(cfg, s, acts, t) && SolePolicyOf(acts, p, workflow)
    ensures OriginsOk(t.incidents, p, workflow) && IncidentTable.Inv(t)
    decreases |acts|
  {
    if acts != [] {
      IncidentTable.InvStep(cfg, s, acts[0]);
      OriginsStep(cfg, s, acts[0], p, workflow);
      OriginsAlways(cfg, Apply(cfg, s, acts[0]), acts[1..], t, p, workflow);
    }
  }

  lemma TableStep(cfg: Config, s: State, a: Action, p: Policy, workflow: string)
    requires OriginsOk(s.incidents, p, workflow) && OneActive(s.incidents, p, workflow) && RowsOk(s) && p.metric == MISSING_HEARTBEAT
    requires Enabled(s, a) && SolePolicy(a, p, workflow)
    ensures OriginsOk(Apply(cfg, s, a).incidents, p, workflow)
    ensures OneActive(Apply(cfg, s, a).incidents, p, workflow) <==> (a.Ack? ==> AckHarmless(s.incidents, a.k, p, workflow))
  {
    OriginsStep(cfg, s, a, p, workflow);
    if a.Ack? {
      AckKeepsOneActive(s.incidents, a.k, p, workflow);
    } else if EvaluatesOurs(a, p, workflow) && a.Trigger? {
      OurTriggerTable(cfg, s, a, p, workflow);
    } else if EvaluatesOurs(a, p, workflow) {
      OurClearTable(cfg, s, a, p, workflow);
    } else {
      CalmTable(cfg, s, a, p, workflow);
    }
  }

  lemma CalmTable(cfg: Config, s: State, a: Action, p: Policy, workflow: string)
    requires OriginsOk(s.incidents, p, workflow) && OneActive(s.incidents, p, workflow) && RowsOk(s) && p.metric == MISSING_HEARTBEAT
    requires Enabled(s, a) && SolePolicy(a, p, workflow) && !EvaluatesOurs(a, p, workflow) && !a.Ack?
    ensures OneActive(Apply(cfg, s, a).incidents, p, workflow)
  {
    if a.Trigger? {
      ForeignTriggerIsCalm(cfg, s, a, p, workflow);
    } else {
      OtherIsCalm(cfg, s, a, p, workflow);
    }
    SameRowsKeepOneActive(s.incidents, Apply(cfg, s, a).incidents, p, workflow);
  }

  // ----- counting quiet evaluations

  lemma TriggerRestartsCount(outcomes: seq<bool>, n: int)
    requires 0 < n
    ensures !LastQuiet(outcomes + [true], n)
  {
    assert (outcomes + [true])[|outcomes|];
  }

  lemma QuietExtendsCount(outcomes: seq<bool>, n: int)
    requires 0 < n && !LastQuiet(outcomes, n)
    ensures !LastQuiet(outcomes + [false], n + 1)
  {
    var longer := outcomes + [false];
    if LastQuiet(longer, n + 1) {
      forall j | 0 <= j < |outcomes| && |outcomes| - n <= j ensures !outcomes[j] {
        assert !longer[j];
      }
    }
  }

  // A trigger that is not the policy's own finds none of its incidents.
  lemma ForeignTriggerMisses(s: State, a: Action, p: Policy, workflow: string)
    requires OriginsOk(s.incidents, p, workflow) && a.Trigger? && a.found.Some? && Enabled(s, a) && SolePolicy(a, p, workflow)
    requires !EvaluatesOurs(a, p, workflow)
    ensures !Watched(s.incidents[a.found.value], p, workflow)
  {
  }

  // A watched row was watched before, with the same streak.
  ghost predicate KeepsStreak(s: State, t: State, k: nat, p: Policy, workflow: string) {
    k < |t.incidents| && Watched(t.incidents[k], p, workflow) ==>
      && k < |s.incidents| && Watched(s.incidents[k], p, workflow)
      && t.incidents[k].environment == s.incidents[k].environment
      && t.incidents[k].details.clearStreak == s.incidents[k].details.clearStreak
  }

  lemma ForeignTriggerKeepsStreaks(cfg: Config, s: State, a: Action, p: Policy, workflow: string)
    requires OriginsOk(s.incidents, p, workflow) && p.metric == MISSING_HEARTBEAT
    requires a.Trigger? && Enabled(s, a) && SolePolicy(a, p, workflow) && !EvaluatesOurs(a, p, workflow)
    ensures forall k: nat :: KeepsStreak(s, Apply(cfg, s, a), k, p, workflow)
  {
    if a.found.Some? {
      ForeignTriggerMisses(s, a, p, workflow);
    }
  }

  lemma OtherKeepsStreaks(cfg: Config, s: State, a: Action, p: Policy, workflow: string)
    requires OriginsOk(s.incidents, p, workflow) && RowsOk(s)
    requires !a.Trigger? && !a.Ack? && Enabled(s, a) && SolePolicy(a, p, workflow) && !EvaluatesOurs(a, p, workflow)
    ensures forall k: nat :: KeepsStreak(s, Apply(cfg, s, a), k, p, workflow)
  {
    var t := Apply(cfg, s, a);
    forall k: nat ensures KeepsStreak(s, t, k, p, workflow) {
      if k < |s.incidents| {
        assert OriginOk(s.incidents[k], p, workflow) && RowOk(s.incidents[k], s.jobTime);
      }
    }
  }
}
