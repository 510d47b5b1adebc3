/** When is an acknowledged incident resolved too early? */
module QuietStreaks {
  import opened Prelude
  import opened Incidents
  import opened AnomalyPolicies
  import opened IncidentTable
  import opened HeartbeatRows
  import opened HeartbeatIncidents

  predicate OwnRow(i: Incident, p: Policy, tg: Target) {
    OfTarget(i, p, tg) && i.policy == Some(p.id)
  }

  /** The streak the row carries was quiet, as far as it can matter: two more make a third enough. */
  predicate TrueStreak(i: Incident, past: seq<Action>, p: Policy, tg: Target) {
    LastQuiet(Outcomes(past, p, tg), Min(i.details.clearStreak, 2))
  }

  predicate RowTrue(i: Incident, past: seq<Action>, p: Policy, workflow: string) {
    Watched(i, p, workflow) && i.environment.Some? ==> TrueStreak(i, past, p, Target(workflow, i.environment.value))
  }

  ghost predicate AllTrue(incidents: seq<Incident>, past: seq<Action>, p: Policy, workflow: string) {
    forall k :: 0 <= k < |incidents| ==> RowTrue(incidents[k], past, p, workflow)
  }

  /** The acknowledgement makes no second active incident, and brings back no streak that is out of date. */
  ghost predicate AckAllowed(incidents: seq<Incident>, past: seq<Action>, k: nat, p: Policy, workflow: string)
    requires k < |incidents|
  {
    AckHarmless(incidents, k, p, workflow) && RowTrue(AckedBy(incidents[k]), past, p, workflow)
  }

  ghost predicate AcksAllowed(cfg: Config, s: State, past: seq<Action>, acts: seq<Action>, p: Policy, workflow: string)
    decreases |acts|
  {
    acts == [] ||
    (Enabled(s, acts[0]) && SolePolicy(acts[0], p, workflow)
     && (acts[0].Ack? ==> AckAllowed(s.incidents, past, acts[0].k, p, workflow))
     && AcksAllowed(cfg, Apply(cfg, s, acts[0]), past + [acts[0]], acts[1..], p, workflow))
  }

  ghost predicate TrueInv(s: State, past: seq<Action>, p: Policy, workflow: string) {
    OriginsOk(s.incidents, p, workflow) && OneActive(s.incidents, p, workflow) && AllTrue(s.incidents, past, p, workflow)
  }

  lemma QuietGoesOn(outcomes: seq<bool>, n: int)
    ensures LastQuiet(outcomes, n) ==> LastQuiet(outcomes + [false], n + 1)
    ensures 0 < n && LastQuiet(outcomes + [false], n + 1) ==> LastQuiet(outcomes, n)
  {
    if 0 < n && !LastQuiet(outcomes, n) {
      QuietExtendsCount(outcomes, n);
    }
  }

  lemma CalmKeepsTrue(before: seq<Incident>, after: seq<Incident>, past: seq<Action>, a: Action, p: Policy, workflow: string)
    requires AllTrue(before, past, p, workflow) && AllCalm(before, after, p, workflow) && !EvaluatesOurs(a, p, workflow)
    ensures AllTrue(after, past + [a], p, workflow)
  {
    forall k | 0 <= k < |after| ensures RowTrue(after[k], past + [a], p, workflow) {
      if k < |before| && after[k].environment.Some? {
        assert RowTrue(before[k], past, p, workflow) && Calm(before[k], after[k], p, workflow);
        OutcomesNext(past, a, p, Target(workflow, after[k].environment.value));
      }
    }
  }

  lemma TriggerKeepsTrue(cfg: Config, s: State, past: seq<Action>, a: Action, p: Policy, workflow: string, k: nat)
    requires TrueInv(s, past, p, workflow) && p.metric == MISSING_HEARTBEAT
    requires a.Trigger? && EvaluatesOurs(a, p, workflow) && Enabled(s, a) && k < |Apply(cfg, s, a).incidents|
    ensures RowTrue(Apply(cfg, s, a).incidents[k], past + [a], p, workflow)
  {
    var t := Apply(cfg, s, a);
    if t.incidents[k].environment.Some? {
      OutcomesNext(past, a, p, Target(workflow, t.incidents[k].environment.value));
    }
    if k < |s.incidents| {
      assert RowTrue(s.incidents[k], past, p, workflow);
      if Watched(s.incidents[k], p, workflow) && s.incidents[k].environment == Some(a.tg.env) {
        TriggerFinds(s, a, p, workflow, k);
      }
    }
  }

  lemma ClearKeepsTrue(cfg: Config, s: State, past: seq<Action>, a: Action, p: Policy, workflow: string, k: nat)
    requires TrueInv(s, past, p, workflow) && a.Clear? && EvaluatesOurs(a, p, workflow) && Enabled(s, a) && k < |s.incidents|
    ensures RowTrue(Apply(cfg, s, a).incidents[k], past + [a], p, workflow)
  {
    var i := s.incidents[k];
    assert RowTrue(i, past, p, workflow);
    if i.environment.Some? {
      var tg := Target(workflow, i.environment.value);
      OutcomesNext(past, a, p, tg);
      QuietGoesOn(Outcomes(past, p, tg), Min(i.details.clearStreak, 2));
    }
  }

  lemma AckKeepsTrue(cfg: Config, s: State, past: seq<Action>, a: Action, p: Policy, workflow: string, k: nat)
    requires TrueInv(s, past, p, workflow) && a.Ack? && Enabled(s, a) && k < |s.incidents|
    requires RowTrue(AckedBy(s.incidents[a.k]), past, p, workflow)
    ensures RowTrue(Apply(cfg, s, a).incidents[k], past + [a], p, workflow)
  {
    var i := s.incidents[k];
    assert RowTrue(i, past, p, workflow);
    if i.environment.Some? {
      OutcomesNext(past, a, p, Target(workflow, i.environment.value));
    }
  }

  lemma TrueStep(cfg: Config, s: State, past: seq<Action>, a: Action, p: Policy, workflow: string)
    requires TrueInv(s, past, p, workflow) && RowsOk(s) && p.metric == MISSING_HEARTBEAT && Enabled(s, a) && SolePolicy(a, p, workflow)
    requires a.Ack? ==> AckAllowed(s.incidents, past, a.k, p, workflow)
    ensures TrueInv(Apply(cfg, s, a), past + [a], p, workflow)
  {
    var t := Apply(cfg, s, a);
    TableStep(cfg, s, a, p, workflow);
    if a.Ack? {
      forall k | 0 <= k < |t.incidents| ensures RowTrue(t.incidents[k], past + [a], p, workflow) {
        AckKeepsTrue(cfg, s, past, a, p, workflow, k);
      }
    } else if EvaluatesOurs(a, p, workflow) {
      forall k | 0 <= k < |t.incidents| ensures RowTrue(t.incidents[k], past + [a], p, workflow) {
        if a.Trigger? {
          TriggerKeepsTrue(cfg, s, past, a, p, workflow, k);
        } else {
          ClearKeepsTrue(cfg, s, past, a, p, workflow, k);
        }
      }
    } else {
      if a.Trigger? {
        ForeignTriggerIsCalm(cfg, s, a, p, workflow);
      } else {
        OtherIsCalm(cfg, s, a, p, workflow);
      }
      CalmKeepsTrue(s.incidents, t.incidents, past, a, p, workflow);
    }
  }

  lemma Rejoin(past: seq<Action>, acts: seq<Action>)
    requires acts != []
    ensures past + [acts[0]] + acts[1..] == past + acts
  {
  }

  lemma {:induction false} TrueAlways(cfg: Config, s: State, past: seq<Action>, acts: seq<Action>, t: State, p: Policy, workflow: string)
    requires TrueInv(s, past, p, workflow) && IncidentTable.Inv(s) && p.metric == MISSING_HEARTBEAT
    requires Executes(cfg, s, acts, t) && AcksAllowed(cfg, s, past, acts, p, workflow)
    ensures TrueInv(t, past + acts, p, workflow)
    decreases |acts|
  {
    if acts == [] {
      assert past + acts == past;
    } else {
      IncidentTable.InvStep(cfg, s, acts[0]);
      TrueStep(cfg, s, past, acts[0], p, workflow);
      TrueAlways(cfg, Apply(cfg, s, acts[0]), past + [acts[0]], acts[1..], t, p, workflow);
      Rejoin(past, acts);
    }
  }

  lemma ThirdQuiet(i: Incident, past: seq<Action>, p: Policy, tg: Target, now: int)
    requires TrueStreak(i, past, p, tg) && i.Active() && WindowCleared(i, now).status.Resolved?
    ensures LastQuiet(Outcomes(past + [Clear(p, tg, now)], p, tg), 3)
  {
    OutcomesNext(past, Clear(p, tg, now), p, tg);
    QuietGoesOn(Outcomes(past, p, tg), 2);
  }

  /** An evaluation resolves the target's incident only when it and the two before it all stayed quiet, in
      every run whose acknowledgements are allowed. */
  lemma {:induction false} ResolvedOnlyAfterThreeQuiet(cfg: Config, time: int, acts: seq<Action>, s: State, p: Policy, tg: Target, now: int, k: nat)
    requires p.metric == MISSING_HEARTBEAT && Executes(cfg, Start(time), acts, s) && AcksAllowed(cfg, Start(time), [], acts, p, tg.workflow)
    requires Enabled(s, Clear(p, tg, now)) && k < |s.incidents| && HeartbeatMatch(s.incidents[k], p, tg)
    requires Apply(cfg, s, Clear(p, tg, now)).incidents[k].status.Resolved?
    ensures LastQuiet(Outcomes(acts + [Clear(p, tg, now)], p, tg), 3)
  {
    TrueAlways(cfg, Start(time), [], acts, s, p, tg.workflow);
    assert [] + acts == acts;
    assert OriginOk(s.incidents[k], p, tg.workflow) && RowTrue(s.incidents[k], acts, p, tg.workflow);
    ThirdQuiet(s.incidents[k], acts, p, tg, now);
  }

  // ----- the guard on streaks is exact

  function Clears(n: nat, p: Policy, tg: Target, now: int): (acts: seq<Action>)
    ensures |acts| == n
  {
    if n == 0 then [] else Clears(n - 1, p, tg, now) + [Clear(p, tg, now)]
  }

  // A row after so many quiet evaluations.
  function RowAfter(i: Incident, n: nat, now: int): Incident {
    if n == 0 then i
    else
      var r := RowAfter(i, n - 1, now);
      if r.Active() then WindowCleared(r, now) else r
  }

  lemma {:induction false} RowClears(i: Incident, n: nat, now: int)
    requires i.Active()
    ensures var r := RowAfter(i, n, now);
      && r.tenant == i.tenant && r.workflow == i.workflow && r.environment == i.environment && r.policy == i.policy
      && (r.Active() <==> n == 0 || i.details.clearStreak + n < CLEAR_STREAK)
      && (r.Active() ==> r.details.clearStreak == i.details.clearStreak + n)
  {
    if n > 0 {
      RowClears(i, n - 1, now);
    }
  }

  lemma {:induction false} ClearsRun(cfg: Config, s: State, k: nat, p: Policy, tg: Target, now: int, n: nat) returns (t: State)
    requires k < |s.incidents| && OwnRow(s.incidents[k], p, tg) && s.incidents[k].Active() && s.jobTime <= now
    ensures Executes(cfg, s, Clears(n, p, tg, now), t) && |t.incidents| == |s.incidents| && t.jobTime <= now
    ensures t.incidents[k] == RowAfter(s.incidents[k], n, now)
  {
    if n == 0 {
      t := s;
    } else {
      var m := ClearsRun(cfg, s, k, p, tg, now, n - 1);
      RowClears(s.incidents[k], n - 1, now);
      t := Apply(cfg, m, Clear(p, tg, now));
      assert [Clear(p, tg, now)][1..] == [];
      JoinRuns(cfg, s, Clears(n - 1, p, tg, now), m, [Clear(p, tg, now)], t);
    }
  }

  lemma NoClears(past: seq<Action>, p: Policy, tg: Target, now: int)
    ensures past + Clears(0, p, tg, now) == past
  {
  }

  lemma OneMoreClear(past: seq<Action>, n: nat, p: Policy, tg: Target, now: int)
    requires 0 < n
    ensures past + Clears(n, p, tg, now) == past + Clears(n - 1, p, tg, now) + [Clear(p, tg, now)]
  {
  }

  lemma {:induction false} ClearsOutcomes(past: seq<Action>, n: nat, p: Policy, tg: Target, now: int, c: int)
    requires 0 < c
    ensures LastQuiet(Outcomes(past + Clears(n, p, tg, now), p, tg), n + c) <==> LastQuiet(Outcomes(past, p, tg), c)
  {
    if n == 0 {
      NoClears(past, p, tg, now);
    } else {
      var most := past + Clears(n - 1, p, tg, now);
      ClearsOutcomes(past, n - 1, p, tg, now, c);
      OneMoreClear(past, n, p, tg, now);
      OutcomesNext(most, Clear(p, tg, now), p, tg);
      QuietGoesOn(Outcomes(most, p, tg), n - 1 + c);
    }
  }

  /** Acknowledged and then left quiet for n evaluations, the incident is resolved by the n-th although the last
      three evaluations were not all quiet. */
  ghost predicate ResolvedEarly(cfg: Config, s: State, past: seq<Action>, k: nat, p: Policy, tg: Target, now: int, n: nat)
    requires k < |s.incidents|
  {
    var i := AckedBy(s.incidents[k]);
    0 < n && RowAfter(i, n - 1, now).Active() && RowAfter(i, n, now).status.Resolved?
    && !LastQuiet(Outcomes(past + [Ack(k)] + Clears(n, p, tg, now), p, tg), 3)
  }

  lemma {:induction false} AllQuiet(past: seq<Action>, n: nat, p: Policy, tg: Target, now: int)
    ensures LastQuiet(Outcomes(past + Clears(n, p, tg, now), p, tg), n)
  {
    if n > 0 {
      var most := past + Clears(n - 1, p, tg, now);
      AllQuiet(past, n - 1, p, tg, now);
      OneMoreClear(past, n, p, tg, now);
      OutcomesNext(most, Clear(p, tg, now), p, tg);
      QuietGoesOn(Outcomes(most, p, tg), n - 1);
    }
  }

  lemma StreaksWeaken(outcomes: seq<bool>, m: int, n: int)
    requires LastQuiet(outcomes, n) && m <= n
    ensures LastQuiet(outcomes, m)
  {
  }

  lemma {:induction false} LeftQuiet(past: seq<Action>, k: nat, p: Policy, tg: Target, now: int, n: nat)
    requires 0 < n
    ensures n < 3 ==> (LastQuiet(Outcomes(past + [Ack(k)] + Clears(n, p, tg, now), p, tg), 3) <==> LastQuiet(Outcomes(past, p, tg), 3 - n))
    ensures n >= 3 ==> LastQuiet(Outcomes(past + [Ack(k)] + Clears(n, p, tg, now), p, tg), 3)
  {
    OutcomesNext(past, Ack(k), p, tg);
    if n < 3 {
      ClearsOutcomes(past + [Ack(k)], n, p, tg, now, 3 - n);
    } else {
      AllQuiet(past + [Ack(k)], n, p, tg, now);
      StreaksWeaken(Outcomes(past + [Ack(k)] + Clears(n, p, tg, now), p, tg), 3, n);
    }
  }

  lemma EarlyAt(cfg: Config, s: State, past: seq<Action>, k: nat, p: Policy, tg: Target, now: int, n: nat)
    requires k < |s.incidents| && 0 < n
    ensures ResolvedEarly(cfg, s, past, k, p, tg, now, n)
      <==> n == Max(1, 3 - s.incidents[k].details.clearStreak) && !TrueStreak(s.incidents[k], past, p, tg)
  {
    var i := AckedBy(s.incidents[k]);
    RowClears(i, n - 1, now);
    RowClears(i, n, now);
    LeftQuiet(past, k, p, tg, now, n);
  }

  /** An acknowledged incident can be resolved too early exactly if the streak it brings back is not true. The
      evaluations that do it make a run, so the guard cannot be relaxed. */
  lemma ResolvedEarlyExactly(cfg: Config, s: State, past: seq<Action>, k: nat, p: Policy, tg: Target, now: int)
    requires k < |s.incidents| && OwnRow(s.incidents[k], p, tg) && s.jobTime <= now
    ensures (exists n :: ResolvedEarly(cfg, s, past, k, p, tg, now, n)) <==> !TrueStreak(s.incidents[k], past, p, tg)
    ensures forall n: nat :: exists t :: Executes(cfg, Apply(cfg, s, Ack(k)), Clears(n, p, tg, now), t)
                                         && k < |t.incidents| && t.incidents[k] == RowAfter(AckedBy(s.incidents[k]), n, now)
  {
    var i := AckedBy(s.incidents[k]);
    var c := i.details.clearStreak;
    forall n: nat ensures exists t :: Executes(cfg, Apply(cfg, s, Ack(k)), Clears(n, p, tg, now), t) && k < |t.incidents| && t.incidents[k] == RowAfter(i, n, now) {
      var t := ClearsRun(cfg, Apply(cfg, s, Ack(k)), k, p, tg, now, n);
    }
    forall n: nat | 0 < n ensures ResolvedEarly(cfg, s, past, k, p, tg, now, n) <==> n == Max(1, 3 - c) && !TrueStreak(s.incidents[k], past, p, tg) {
      EarlyAt(cfg, s, past, k, p, tg, now, n);
    }
    if !TrueStreak(s.incidents[k], past, p, tg) {
      assert ResolvedEarly(cfg, s, past, k, p, tg, now, Max(1, 3 - c));
    }
  }
}
