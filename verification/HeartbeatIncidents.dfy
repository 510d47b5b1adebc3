/** One heartbeat policy on one workflow, over whole runs. */
module HeartbeatIncidents {
  import opened Prelude
  import opened Incidents
  import opened AnomalyPolicies
  import opened IncidentTable
  import opened HeartbeatRows

  // ----- at most one active incident, exactly

  /** In no state of the run has an environment two active incidents. */
  ghost predicate OneActiveThroughout(cfg: Config, s: State, acts: seq<Action>, p: Policy, workflow: string)
    decreases |acts|
  {
    OneActive(s.incidents, p, workflow)
    && (acts == [] || (Enabled(s, acts[0]) && OneActiveThroughout(cfg, Apply(cfg, s, acts[0]), acts[1..], p, workflow)))
  }

  lemma {:induction false} OneActiveAlways(cfg: Config, s: State, acts: seq<Action>, t: State, p: Policy, workflow: string)
    requires OriginsOk(s.incidents, p, workflow) && OneActive(s.incidents, p, workflow) && IncidentTable.Inv(s) && p.metric == MISSING_HEARTBEAT
    requires Executes(cfg, s, acts, t) && SolePolicyOf(acts, p, workflow)
    ensures AcksHarmless(cfg, s, acts, p, workflow) ==> OriginsOk(t.incidents, p, workflow) && OneActive(t.incidents, p, workflow)
    ensures OneActiveThroughout(cfg, s, acts, p, workflow) <==> AcksHarmless(cfg, s, acts, p, workflow)
    decreases |acts|
  {
    if acts != [] {
      var m := Apply(cfg, s, acts[0]);
      IncidentTable.InvStep(cfg, s, acts[0]);
      TableStep(cfg, s, acts[0], p, workflow);
      if OneActive(m.incidents, p, workflow) {
        OneActiveAlways(cfg, m, acts[1..], t, p, workflow);
      }
    }
  }

  /** With one policy on the target, no environment ever has two active incidents exactly if every
      acknowledgement in the run is harmless: it is not given to a resolved incident of the policy while
      another one is active in the same environment. */
  lemma OneActiveExactly(cfg: Config, time: int, acts: seq<Action>, t: State, p: Policy, workflow: string)
    requires p.metric == MISSING_HEARTBEAT && Executes(cfg, Start(time), acts, t) && SolePolicyOf(acts, p, workflow)
    ensures OneActiveThroughout(cfg, Start(time), acts, p, workflow) <==> AcksHarmless(cfg, Start(time), acts, p, workflow)
  {
    OneActiveAlways(cfg, Start(time), acts, t, p, workflow);
  }

  /** And then, whatever else happens in between, a target never has two incidents that a trigger could refresh. */
  lemma AtMostOneActive(cfg: Config, time: int, acts: seq<Action>, t: State, p: Policy, tg: Target, j: nat, k: nat)
    requires p.metric == MISSING_HEARTBEAT && Executes(cfg, Start(time), acts, t)
    requires SolePolicyOf(acts, p, tg.workflow) && AcksHarmless(cfg, Start(time), acts, p, tg.workflow)
    requires j < |t.incidents| && HeartbeatMatch(t.incidents[j], p, tg)
    requires k < |t.incidents| && HeartbeatMatch(t.incidents[k], p, tg)
    ensures j == k
  {
    OneActiveAlways(cfg, Start(time), acts, t, p, tg.workflow);
    assert OriginOk(t.incidents[j], p, tg.workflow) && OriginOk(t.incidents[k], p, tg.workflow);
    assert Watched(t.incidents[j], p, tg.workflow) && Watched(t.incidents[k], p, tg.workflow);
  }

  // ----- does a missed heartbeat leave an incident for its own target?

  ghost predicate Covered(incidents: seq<Incident>, p: Policy, tg: Target) {
    exists j :: 0 <= j < |incidents| && HeartbeatMatch(incidents[j], p, tg)
  }

  /** An incident opened for that minute is active, in whatever environment. */
  ghost predicate MinuteTaken(incidents: seq<Incident>, p: Policy, fp: Fingerprint) {
    exists j :: 0 <= j < |incidents| && FingerprintMatch(incidents[j], p, fp)
  }

  /** The target's latest resolved incident is still cooling down and has hits to spare. */
  predicate HeldBack(cfg: Config, incidents: seq<Incident>, p: Policy, latest: Option<nat>, now: int) {
    latest.Some? && latest.value < |incidents|
    && InCooldown(cfg, p, incidents[latest.value], now) && incidents[latest.value].details.cooldownHits + 1 < cfg.cooldownWindows
  }

  lemma TriggerCovers(cfg: Config, s: State, p: Policy, tg: Target, bucket: Option<int>, now: int, found: Option<nat>, latest: Option<nat>)
    requires p.metric == MISSING_HEARTBEAT && OriginsOk(s.incidents, p, tg.workflow)
    requires Enabled(s, Trigger(p, tg, bucket, now, found, latest))
    ensures Covered(Apply(cfg, s, Trigger(p, tg, bucket, now, found, latest)).incidents, p, tg)
      <==> Covered(s.incidents, p, tg)
           || (!MinuteTaken(s.incidents, p, PolicyFingerprint(p, tg, bucket, now)) && !HeldBack(cfg, s.incidents, p, latest, now))
  {
    var t := Apply(cfg, s, Trigger(p, tg, bucket, now, found, latest));
    forall j | 0 <= j < |s.incidents| ensures HeartbeatMatch(t.incidents[j], p, tg) <==> HeartbeatMatch(s.incidents[j], p, tg) {
      assert OriginOk(s.incidents[j], p, tg.workflow);
    }
    assert |t.incidents| > |s.incidents| ==> HeartbeatMatch(t.incidents[|s.incidents|], p, tg);
  }

  /** A missed heartbeat leaves an active incident for its own target exactly if there was one before, or
      none opened for the same minute is active in any environment and the cooldown does not hold it back. */
  lemma TriggerCoversExactly(cfg: Config, time: int, acts: seq<Action>, s: State, p: Policy, tg: Target, bucket: Option<int>, now: int,
                             found: Option<nat>, latest: Option<nat>)
    requires p.metric == MISSING_HEARTBEAT && Executes(cfg, Start(time), acts, s) && SolePolicyOf(acts, p, tg.workflow)
    requires Enabled(s, Trigger(p, tg, bucket, now, found, latest))
    ensures Covered(Apply(cfg, s, Trigger(p, tg, bucket, now, found, latest)).incidents, p, tg)
      <==> Covered(s.incidents, p, tg)
           || (!MinuteTaken(s.incidents, p, PolicyFingerprint(p, tg, bucket, now)) && !HeldBack(cfg, s.incidents, p, latest, now))
  {
    OriginsAlways(cfg, Start(time), acts, s, p, tg.workflow);
    TriggerCovers(cfg, s, p, tg, bucket, now, found, latest);
  }

  /** In particular fingerprints leave the environment out: while an incident opened in the same minute is
      active in another environment, a heartbeat missed here leaves this target without one. */
  lemma OtherEnvironmentTakesIt(cfg: Config, time: int, acts: seq<Action>, s: State, p: Policy, here: Target, there: Target, k: nat,
                                bucket: Option<int>, now: int, found: Option<nat>, latest: Option<nat>)
    requires p.metric == MISSING_HEARTBEAT && here.workflow == there.workflow
    requires Executes(cfg, Start(time), acts, s) && SolePolicyOf(acts, p, here.workflow)
    requires k < |s.incidents| && HeartbeatMatch(s.incidents[k], p, there)
    requires FingerprintMatch(s.incidents[k], p, PolicyFingerprint(p, here, bucket, now)) && !Covered(s.incidents, p, here)
    requires Enabled(s, Trigger(p, here, bucket, now, found, latest))
    ensures var t := Apply(cfg, s, Trigger(p, here, bucket, now, found, latest));
      |t.incidents| == |s.incidents| && !Covered(t.incidents, p, here)
  {
    TriggerCoversExactly(cfg, time, acts, s, p, here, bucket, now, found, latest);
  }

  /** And that happens: two triggers in the first minute, for two environments, leave one incident. */
  lemma OtherEnvironmentRun(cfg: Config, p: Policy, here: Target, there: Target, now: int) returns (t: State)
    requires p.metric == MISSING_HEARTBEAT && here.workflow == there.workflow && here.env != there.env && 0 <= now < 60_000
    ensures Executes(cfg, Start(0), [Trigger(p, there, None, 0, None, None), Trigger(p, here, None, now, Some(0), None)], t)
    ensures |t.incidents| == 1 && HeartbeatMatch(t.incidents[0], p, there) && !HeartbeatMatch(t.incidents[0], p, here)
    ensures t.incidents[0].details.consecutive == 2 && t.incidents[0].lastSeenAt == now
  {
    var first, second := Trigger(p, there, None, 0, None, None), Trigger(p, here, None, now, Some(0), None);
    var s := State([PolicyOpened(p, there, PolicyFingerprint(p, there, None, 0), 0)], 0, map[]);
    assert Apply(cfg, Start(0), first) == s;
    assert Enabled(s, second);
    t := Apply(cfg, s, second);
    assert [first, second][1..] == [second];
    assert Executes(cfg, s, [second], t);
  }

  // ----- why resolved incidents must not be acknowledged

  predicate OneTarget(acts: seq<Action>, p: Policy, tg: Target) {
    forall i :: 0 <= i < |acts| && EvaluatesOurs(acts[i], p, tg.workflow) ==> acts[i].tg == tg
  }

  // Opening an incident and letting it be resolved, in a table that holds nothing else.
  lemma OpenAndResolve(cfg: Config, p: Policy, tg: Target) returns (acts: seq<Action>, t: State)
    requires p.metric == MISSING_HEARTBEAT
    ensures Executes(cfg, Start(0), acts, t) && OneTarget(acts, p, tg)
    ensures var i := PolicyOpened(p, tg, PolicyFingerprint(p, tg, None, 0), 0);
      t == State([i.(status := Resolved, resolvedAt := Some(3), details := i.details.(clearStreak := 3))], 3, map[])
  {
    var i := PolicyOpened(p, tg, PolicyFingerprint(p, tg, None, 0), 0);
    var first := Trigger(p, tg, None, 0, None, None);
    var s1 := State([i], 0, map[]);
    assert Apply(cfg, Start(0), first) == s1 && [first][1..] == [];
    var clears;
    clears, t := ThreeClears(cfg, p, tg, i);
    JoinRuns(cfg, Start(0), [first], s1, clears, t);
    acts := [first] + clears;
  }

  lemma ThreeClears(cfg: Config, p: Policy, tg: Target, i: Incident) returns (acts: seq<Action>, t: State)
    requires Clearable(i, p, tg) && i.details.clearStreak == 0 && i.details.cooldownHits == 0
    ensures acts == [Clear(p, tg, 1), Clear(p, tg, 2), Clear(p, tg, 3)] && Executes(cfg, State([i], 0, map[]), acts, t)
    ensures t == State([i.(status := Resolved, resolvedAt := Some(3), details := i.details.(clearStreak := 3))], 3, map[])
  {
    acts := [Clear(p, tg, 1), Clear(p, tg, 2), Clear(p, tg, 3)];
    var s1 := State([i], 0, map[]);
    var s2 := State([i.(details := i.details.(clearStreak := 1))], 1, map[]);
    var s3 := State([i.(details := i.details.(clearStreak := 2))], 2, map[]);
    t := State([i.(status := Resolved, resolvedAt := Some(3), details := i.details.(clearStreak := 3))], 3, map[]);
    assert Apply(cfg, s1, acts[0]) == s2 && Apply(cfg, s2, acts[1]) == s3 && Apply(cfg, s3, acts[2]) == t;
    assert acts[2..] == [acts[2]];
    assert Executes(cfg, s3, acts[2..], t) && Executes(cfg, s2, acts[1..], t);
  }

  /** Acknowledging a resolved incident while another is active makes two, whatever the policy's window and
      the cooldown, and the next quiet evaluation resolves it although the evaluation before triggered. */
  lemma LateAckBreaksBoth(cfg: Config, p: Policy, tg: Target) returns (acts: seq<Action>, t: State)
    requires p.metric == MISSING_HEARTBEAT
    ensures Executes(cfg, Start(0), acts, t) && OneTarget(acts, p, tg)
    ensures |t.incidents| == 2 && HeartbeatMatch(t.incidents[0], p, tg) && HeartbeatMatch(t.incidents[1], p, tg)
    ensures Cleared(t.incidents, p, tg, t.jobTime)[0].status.Resolved?
    ensures !LastQuiet(Outcomes(acts + [Clear(p, tg, t.jobTime)], p, tg), 2)
  {
    var before, s := OpenAndResolve(cfg, p, tg);
    var again := Trigger(p, tg, None, 4 + p.windowSec * cfg.cooldownWindows * 1000, None, Some(0));
    assert Enabled(s, again);
    var s1 := Apply(cfg, s, again);
    t := Apply(cfg, s1, Ack(0));
    assert [again, Ack(0)][1..] == [Ack(0)];
    assert Executes(cfg, s1, [Ack(0)], t);
    JoinRuns(cfg, Start(0), before, s, [again, Ack(0)], t);
    acts := before + [again, Ack(0)];
    TriggeredLately(before, again, p, tg, t.jobTime);
  }

  lemma TriggeredLately(before: seq<Action>, again: Action, p: Policy, tg: Target, now: int)
    requires again.Trigger? && again.p == p && again.tg == tg
    ensures !LastQuiet(Outcomes(before + [again, Ack(0)] + [Clear(p, tg, now)], p, tg), 2)
  {
    OutcomesNext(before, again, p, tg);
    OutcomesNext(before + [again], Ack(0), p, tg);
    assert before + [again, Ack(0)] == before + [again] + [Ack(0)];
    OutcomesNext(before + [again, Ack(0)], Clear(p, tg, now), p, tg);
    TriggerRestartsCount(Outcomes(before, p, tg), 1);
    QuietExtendsCount(Outcomes(before, p, tg) + [true], 1);
  }
}
