/** Do three quiet evaluations in a row leave nothing active? */
module QuietResolution {
  import opened Prelude
  import opened Incidents
  import opened AnomalyPolicies
  import opened IncidentTable
  import opened HeartbeatRows
  import opened HeartbeatIncidents
  import opened QuietStreaks

  /** The target's evaluations were quieter of late than its active incident has counted. */
  predicate Lags(i: Incident, past: seq<Action>, p: Policy, tg: Target) {
    OwnRow(i, p, tg) && i.Active() && LastQuiet(Outcomes(past, p, tg), Min(i.details.clearStreak + 1, CLEAR_STREAK))
  }

  ghost predicate NoneLags(incidents: seq<Incident>, past: seq<Action>, p: Policy, tg: Target) {
    forall k :: 0 <= k < |incidents| ==> !Lags(incidents[k], past, p, tg)
  }

  /** Two things make an incident lag: a trigger for another environment that refreshes it although the target's own
      last evaluation stayed quiet, and bringing it back with a streak that has missed quiet evaluations since. */
  predicate KeepsPace(s: State, past: seq<Action>, a: Action, p: Policy, tg: Target) {
    match a
    case Trigger(q, other, _, _, found, _) =>
      q == p && other != tg && found.Some? && found.value < |s.incidents| && OwnRow(s.incidents[found.value], p, tg) ==>
        !LastQuiet(Outcomes(past, p, tg), 1)
    case Ack(k) => k < |s.incidents| ==> !Lags(AckedBy(s.incidents[k]), past, p, tg)
    case _ => true
  }

  ghost predicate PaceKept(cfg: Config, s: State, past: seq<Action>, acts: seq<Action>, p: Policy, tg: Target)
    decreases |acts|
  {
    acts == [] ||
    (Enabled(s, acts[0]) && KeepsPace(s, past, acts[0], p, tg) && PaceKept(cfg, Apply(cfg, s, acts[0]), past + [acts[0]], acts[1..], p, tg))
  }

  // Streaks never go below zero.
  predicate StreakCounts(i: Incident) {
    0 <= i.details.clearStreak
  }

  ghost predicate StreaksCount(incidents: seq<Incident>) {
    forall k :: 0 <= k < |incidents| ==> StreakCounts(incidents[k])
  }

  lemma TriggerStreaks(cfg: Config, s: State, a: Action)
    requires StreaksCount(s.incidents) && a.Trigger? && Enabled(s, a)
    ensures StreaksCount(Apply(cfg, s, a).incidents)
  {
    var t := Apply(cfg, s, a);
    forall k | 0 <= k < |s.incidents| ensures StreakCounts(t.incidents[k]) {
      assert StreakCounts(s.incidents[k]);
    }
  }

  lemma OtherStreaks(cfg: Config, s: State, a: Action)
    requires StreaksCount(s.incidents) && !a.Trigger? && !a.BridgeWrite? && !a.BridgeResolve? && Enabled(s, a)
    ensures StreaksCount(Apply(cfg, s, a).incidents)
  {
    var t := Apply(cfg, s, a);
    forall k | 0 <= k < |s.incidents| ensures StreakCounts(t.incidents[k]) {
      assert StreakCounts(s.incidents[k]);
    }
  }

  lemma BridgeStreaks(cfg: Config, s: State, a: Action)
    requires StreaksCount(s.incidents) && (a.BridgeWrite? || a.BridgeResolve?) && Enabled(s, a)
    ensures StreaksCount(Apply(cfg, s, a).incidents)
  {
  }

  lemma {:induction false} StreaksCountStep(cfg: Config, s: State, a: Action)
    requires StreaksCount(s.incidents) && Enabled(s, a)
    ensures StreaksCount(Apply(cfg, s, a).incidents)
  {
    if a.Trigger? {
      TriggerStreaks(cfg, s, a);
    } else if a.BridgeWrite? || a.BridgeResolve? {
      BridgeStreaks(cfg, s, a);
    } else {
      OtherStreaks(cfg, s, a);
    }
  }

  ghost predicate PaceInv(s: State, past: seq<Action>, p: Policy, tg: Target) {
    OriginsOk(s.incidents, p, tg.workflow) && StreaksCount(s.incidents) && NoneLags(s.incidents, past, p, tg)
  }

  // ----- one step

  lemma OwnTriggerPace(cfg: Config, s: State, past: seq<Action>, a: Action, p: Policy, tg: Target)
    requires StreaksCount(s.incidents) && a.Trigger? && a.p == p && a.tg == tg && Enabled(s, a)
    ensures NoneLags(Apply(cfg, s, a).incidents, past + [a], p, tg)
  {
    var t := Apply(cfg, s, a);
    StreaksCountStep(cfg, s, a);
    OutcomesNext(past, a, p, tg);
    forall k | 0 <= k < |t.incidents| ensures !Lags(t.incidents[k], past + [a], p, tg) {
      assert StreakCounts(t.incidents[k]);
      TriggerRestartsCount(Outcomes(past, p, tg), Min(t.incidents[k].details.clearStreak + 1, CLEAR_STREAK));
    }
  }

  lemma OwnClearPace(cfg: Config, s: State, past: seq<Action>, a: Action, p: Policy, tg: Target)
    requires StreaksCount(s.incidents) && NoneLags(s.incidents, past, p, tg)
    requires a.Clear? && a.p == p && a.tg == tg && Enabled(s, a)
    ensures NoneLags(Apply(cfg, s, a).incidents, past + [a], p, tg)
  {
    var t := Apply(cfg, s, a);
    OutcomesNext(past, a, p, tg);
    forall k | 0 <= k < |t.incidents| ensures !Lags(t.incidents[k], past + [a], p, tg) {
      assert !Lags(s.incidents[k], past, p, tg);
      if OwnRow(t.incidents[k], p, tg) && t.incidents[k].Active() {
        assert StreakCounts(s.incidents[k]);
        QuietExtendsCount(Outcomes(past, p, tg), s.incidents[k].details.clearStreak + 1);
      }
    }
  }

  // An active row of the target's was there before, with the same streak.
  ghost predicate Undisturbed(s: State, t: State, k: nat, p: Policy, tg: Target) {
    k < |t.incidents| && OwnRow(t.incidents[k], p, tg) && t.incidents[k].Active() ==>
      && k < |s.incidents| && OwnRow(s.incidents[k], p, tg) && s.incidents[k].Active()
      && t.incidents[k].details.clearStreak == s.incidents[k].details.clearStreak
  }

  lemma UndisturbedPace(s: State, t: State, past: seq<Action>, a: Action, p: Policy, tg: Target)
    requires NoneLags(s.incidents, past, p, tg) && forall k: nat :: Undisturbed(s, t, k, p, tg)
    requires !((a.Trigger? || a.Clear?) && a.p == p && a.tg == tg)
    ensures NoneLags(t.incidents, past + [a], p, tg)
  {
    OutcomesNext(past, a, p, tg);
    forall k | 0 <= k < |t.incidents| ensures !Lags(t.incidents[k], past + [a], p, tg) {
      assert Undisturbed(s, t, k, p, tg);
      assert k < |s.incidents| ==> !Lags(s.incidents[k], past, p, tg);
    }
  }

  lemma ForeignPace(cfg: Config, s: State, past: seq<Action>, a: Action, p: Policy, tg: Target)
    requires PaceInv(s, past, p, tg) && RowsOk(s) && p.metric == MISSING_HEARTBEAT
    requires Enabled(s, a) && SolePolicy(a, p, tg.workflow) && !EvaluatesOurs(a, p, tg.workflow) && !a.Ack?
    ensures NoneLags(Apply(cfg, s, a).incidents, past + [a], p, tg)
  {
    var t := Apply(cfg, s, a);
    if a.Trigger? {
      ForeignTriggerKeepsStreaks(cfg, s, a, p, tg.workflow);
    } else {
      OtherKeepsStreaks(cfg, s, a, p, tg.workflow);
    }
    forall k: nat ensures Undisturbed(s, t, k, p, tg) {
      assert KeepsStreak(s, t, k, p, tg.workflow);
    }
    UndisturbedPace(s, t, past, a, p, tg);
  }

  lemma OtherClearPace(cfg: Config, s: State, past: seq<Action>, a: Action, p: Policy, tg: Target)
    requires NoneLags(s.incidents, past, p, tg) && Enabled(s, a)
    requires a.Clear? && a.p == p && a.tg != tg && a.tg.workflow == tg.workflow
    ensures NoneLags(Apply(cfg, s, a).incidents, past + [a], p, tg)
  {
    UndisturbedPace(s, Apply(cfg, s, a), past, a, p, tg);
  }

  lemma OtherTriggerPace(cfg: Config, s: State, past: seq<Action>, a: Action, p: Policy, tg: Target)
    requires NoneLags(s.incidents, past, p, tg) && Enabled(s, a)
    requires a.Trigger? && a.p == p && a.tg != tg && a.tg.workflow == tg.workflow
    ensures NoneLags(Apply(cfg, s, a).incidents, past + [a], p, tg) <==> KeepsPace(s, past, a, p, tg)
  {
    var t := Apply(cfg, s, a);
    if a.found.Some? && OwnRow(s.incidents[a.found.value], p, tg) {
      var k := a.found.value;
      OutcomesNext(past, a, p, tg);
      assert s.incidents[k].Active();
      assert Lags(t.incidents[k], past + [a], p, tg) <==> LastQuiet(Outcomes(past, p, tg), 1);
      forall j | 0 <= j < |t.incidents| && j != k ensures !Lags(t.incidents[j], past + [a], p, tg) {
        assert !Lags(s.incidents[j], past, p, tg);
      }
    } else {
      forall k: nat ensures Undisturbed(s, t, k, p, tg) {
      }
      UndisturbedPace(s, t, past, a, p, tg);
    }
  }

  lemma AckPace(cfg: Config, s: State, past: seq<Action>, a: Action, p: Policy, tg: Target)
    requires NoneLags(s.incidents, past, p, tg) && a.Ack? && Enabled(s, a)
    ensures NoneLags(Apply(cfg, s, a).incidents, past + [a], p, tg) <==> KeepsPace(s, past, a, p, tg)
  {
    var t := Apply(cfg, s, a);
    OutcomesNext(past, a, p, tg);
    assert Lags(t.incidents[a.k], past + [a], p, tg) <==> !KeepsPace(s, past, a, p, tg);
    forall j | 0 <= j < |t.incidents| && j != a.k ensures !Lags(t.incidents[j], past + [a], p, tg) {
      assert !Lags(s.incidents[j], past, p, tg);
    }
  }

  lemma {:induction false} PaceStep(cfg: Config, s: State, past: seq<Action>, a: Action, p: Policy, tg: Target)
    requires PaceInv(s, past, p, tg) && RowsOk(s) && p.metric == MISSING_HEARTBEAT && Enabled(s, a) && SolePolicy(a, p, tg.workflow)
    ensures NoneLags(Apply(cfg, s, a).incidents, past + [a], p, tg) <==> KeepsPace(s, past, a, p, tg)
  {
    if a.Ack? {
      AckPace(cfg, s, past, a, p, tg);
    } else if !EvaluatesOurs(a, p, tg.workflow) {
      ForeignPace(cfg, s, past, a, p, tg);
      assert KeepsPace(s, past, a, p, tg) by {
        ForeignKeepsPace(s, past, a, p, tg);
      }
    } else if a.tg == tg {
      if a.Trigger? {
        OwnTriggerPace(cfg, s, past, a, p, tg);
      } else {
        OwnClearPace(cfg, s, past, a, p, tg);
      }
    } else if a.Trigger? {
      OtherTriggerPace(cfg, s, past, a, p, tg);
    } else {
      OtherClearPace(cfg, s, past, a, p, tg);
    }
  }

  lemma ForeignKeepsPace(s: State, past: seq<Action>, a: Action, p: Policy, tg: Target)
    requires OriginsOk(s.incidents, p, tg.workflow) && p.metric == MISSING_HEARTBEAT
    requires Enabled(s, a) && SolePolicy(a, p, tg.workflow) && !EvaluatesOurs(a, p, tg.workflow) && !a.Ack?
    ensures KeepsPace(s, past, a, p, tg)
  {
    if a.Trigger? && a.found.Some? {
      ForeignTriggerMisses(s, a, p, tg.workflow);
    }
  }

  lemma {:induction false} PaceAlways(cfg: Config, s: State, past: seq<Action>, acts: seq<Action>, t: State, p: Policy, tg: Target)
    requires PaceInv(s, past, p, tg) && IncidentTable.Inv(s) && p.metric == MISSING_HEARTBEAT
    requires Executes(cfg, s, acts, t) && SolePolicyOf(acts, p, tg.workflow) && PaceKept(cfg, s, past, acts, p, tg)
    ensures PaceInv(t, past + acts, p, tg) && IncidentTable.Inv(t)
    decreases |acts|
  {
    if acts == [] {
      assert past + acts == past;
    } else {
      IncidentTable.InvStep(cfg, s, acts[0]);
      OriginsStep(cfg, s, acts[0], p, tg.workflow);
      StreaksCountStep(cfg, s, acts[0]);
      PaceStep(cfg, s, past, acts[0], p, tg);
      PaceAlways(cfg, Apply(cfg, s, acts[0]), past + [acts[0]], acts[1..], t, p, tg);
      Rejoin(past, acts);
    }
  }

  // ----- whole runs

  /** Three quiet evaluations in a row leave nothing active for the target, in any number of environments, in
      every run that keeps its incidents in pace. */
  lemma {:induction false} ThreeQuietResolve(cfg: Config, time: int, acts: seq<Action>, t: State, p: Policy, tg: Target)
    requires p.metric == MISSING_HEARTBEAT && Executes(cfg, Start(time), acts, t) && SolePolicyOf(acts, p, tg.workflow)
    requires PaceKept(cfg, Start(time), [], acts, p, tg) && LastQuiet(Outcomes(acts, p, tg), 3)
    ensures !Covered(t.incidents, p, tg)
  {
    PaceAlways(cfg, Start(time), [], acts, t, p, tg);
    assert [] + acts == acts;
    forall k | 0 <= k < |t.incidents| ensures !HeartbeatMatch(t.incidents[k], p, tg) {
      assert OriginOk(t.incidents[k], p, tg.workflow) && !Lags(t.incidents[k], acts, p, tg);
      StreaksWeaken(Outcomes(acts, p, tg), Min(t.incidents[k].details.clearStreak + 1, CLEAR_STREAK), 3);
    }
  }

  /** So many quiet evaluations, three in a row with those before them, and an incident still active. */
  ghost predicate StaysOpen(cfg: Config, s: State, past: seq<Action>, p: Policy, tg: Target, now: int, n: nat, t: State) {
    Executes(cfg, s, Clears(n, p, tg, now), t) && LastQuiet(Outcomes(past + Clears(n, p, tg, now), p, tg), 3) && Covered(t.incidents, p, tg)
  }

  lemma LaggingStaysOpen(cfg: Config, s: State, past: seq<Action>, k: nat, p: Policy, tg: Target, now: int) returns (n: nat, t: State)
    requires k < |s.incidents| && Lags(s.incidents[k], past, p, tg) && 0 <= s.incidents[k].details.clearStreak && s.jobTime <= now
    ensures StaysOpen(cfg, s, past, p, tg, now, n, t)
  {
    var streak := s.incidents[k].details.clearStreak;
    n := Max(0, 2 - streak);
    t := ClearsRun(cfg, s, k, p, tg, now, n);
    RowClears(s.incidents[k], n, now);
    ClearsOutcomes(past, n, p, tg, now, Min(streak + 1, 3));
    assert HeartbeatMatch(t.incidents[k], p, tg);
  }

  lemma {:induction false} InPaceResolves(cfg: Config, s: State, past: seq<Action>, p: Policy, tg: Target, now: int, n: nat, t: State)
    requires PaceInv(s, past, p, tg) && IncidentTable.Inv(s) && p.metric == MISSING_HEARTBEAT
    ensures !StaysOpen(cfg, s, past, p, tg, now, n, t)
  {
    if Executes(cfg, s, Clears(n, p, tg, now), t) {
      ClearsKeepPace(cfg, s, past, n, p, tg, now, t);
      PaceAlways(cfg, s, past, Clears(n, p, tg, now), t, p, tg);
      var all := past + Clears(n, p, tg, now);
      forall k | 0 <= k < |t.incidents| && HeartbeatMatch(t.incidents[k], p, tg) ensures !LastQuiet(Outcomes(all, p, tg), 3) {
        assert OriginOk(t.incidents[k], p, tg.workflow) && !Lags(t.incidents[k], all, p, tg);
        if LastQuiet(Outcomes(all, p, tg), 3) {
          StreaksWeaken(Outcomes(all, p, tg), Min(t.incidents[k].details.clearStreak + 1, CLEAR_STREAK), 3);
        }
      }
    }
  }

  lemma {:induction false} AllClears(n: nat, p: Policy, tg: Target, now: int)
    ensures forall i :: 0 <= i < n ==> Clears(n, p, tg, now)[i] == Clear(p, tg, now)
  {
    if n > 0 {
      AllClears(n - 1, p, tg, now);
    }
  }

  lemma {:induction false} QuietPaceKept(cfg: Config, s: State, past: seq<Action>, acts: seq<Action>, p: Policy, tg: Target, t: State)
    requires Executes(cfg, s, acts, t) && forall i :: 0 <= i < |acts| ==> acts[i].Clear? && acts[i].p == p && acts[i].tg == tg
    ensures PaceKept(cfg, s, past, acts, p, tg) && SolePolicyOf(acts, p, tg.workflow)
    decreases |acts|
  {
    if acts != [] {
      QuietPaceKept(cfg, Apply(cfg, s, acts[0]), past + [acts[0]], acts[1..], p, tg, t);
    }
  }

  lemma ClearsKeepPace(cfg: Config, s: State, past: seq<Action>, n: nat, p: Policy, tg: Target, now: int, t: State)
    requires Executes(cfg, s, Clears(n, p, tg, now), t)
    ensures PaceKept(cfg, s, past, Clears(n, p, tg, now), p, tg) && SolePolicyOf(Clears(n, p, tg, now), p, tg.workflow)
  {
    AllClears(n, p, tg, now);
    QuietPaceKept(cfg, s, past, Clears(n, p, tg, now), p, tg, t);
  }

  /** The guard is exact: from a run in pace, the next step keeps pace precisely if, however many quiet
      evaluations follow it, none ends three in a row with an incident still active. */
  lemma KeepsPaceExactly(cfg: Config, time: int, acts: seq<Action>, s: State, p: Policy, tg: Target, a: Action, now: int)
    requires p.metric == MISSING_HEARTBEAT && Executes(cfg, Start(time), acts, s) && SolePolicyOf(acts, p, tg.workflow)
    requires PaceKept(cfg, Start(time), [], acts, p, tg) && Enabled(s, a) && SolePolicy(a, p, tg.workflow) && Apply(cfg, s, a).jobTime <= now
    ensures KeepsPace(s, acts, a, p, tg) <==> forall n, t :: !StaysOpen(cfg, Apply(cfg, s, a), acts + [a], p, tg, now, n, t)
  {
    var m := Apply(cfg, s, a);
    PaceAlways(cfg, Start(time), [], acts, s, p, tg);
    assert [] + acts == acts;
    IncidentTable.InvStep(cfg, s, a);
    OriginsStep(cfg, s, a, p, tg.workflow);
    StreaksCountStep(cfg, s, a);
    PaceStep(cfg, s, acts, a, p, tg);
    if KeepsPace(s, acts, a, p, tg) {
      forall n, t ensures !StaysOpen(cfg, m, acts + [a], p, tg, now, n, t) {
        InPaceResolves(cfg, m, acts + [a], p, tg, now, n, t);
      }
    } else {
      var k :| 0 <= k < |m.incidents| && Lags(m.incidents[k], acts + [a], p, tg);
      assert StreakCounts(m.incidents[k]);
      var n, t := LaggingStaysOpen(cfg, m, acts + [a], k, p, tg, now);
    }
  }

  // One minute's incident, opened here and once left quiet.
  lemma OpenedAndQuiet(cfg: Config, p: Policy, here: Target) returns (s: State)
    requires p.metric == MISSING_HEARTBEAT
    ensures Executes(cfg, Start(0), [Trigger(p, here, None, 0, None, None), Clear(p, here, 1)], s) && |s.incidents| == 1 && s.jobTime == 1
    ensures OwnRow(s.incidents[0], p, here) && s.incidents[0].Active() && s.incidents[0].fingerprint == PolicyFingerprint(p, here, None, 0)
  {
    var first, quiet := Trigger(p, here, None, 0, None, None), Clear(p, here, 1);
    var i := PolicyOpened(p, here, PolicyFingerprint(p, here, None, 0), 0);
    var m := State([i], 0, map[]);
    assert Apply(cfg, Start(0), first) == m;
    s := State([WindowCleared(i, 1)], 1, map[]);
    assert Apply(cfg, m, quiet) == s;
    assert [first, quiet][1..] == [quiet] && Executes(cfg, m, [quiet], s);
  }

  lemma RefreshedElsewhere(cfg: Config, s: State, p: Policy, here: Target, there: Target) returns (t: State)
    requires p.metric == MISSING_HEARTBEAT && here.workflow == there.workflow && here.env != there.env
    requires |s.incidents| == 1 && s.jobTime == 1 && OwnRow(s.incidents[0], p, here) && s.incidents[0].Active()
    requires s.incidents[0].fingerprint == PolicyFingerprint(p, here, None, 0)
    ensures Executes(cfg, s, [Trigger(p, there, None, 2, Some(0), None)], t) && |t.incidents| == 1 && t.jobTime == 2
    ensures OwnRow(t.incidents[0], p, here) && t.incidents[0].Active() && t.incidents[0].details.clearStreak == 0
  {
    var other := Trigger(p, there, None, 2, Some(0), None);
    assert !HeartbeatMatch(s.incidents[0], p, there) && FingerprintMatch(s.incidents[0], p, PolicyFingerprint(p, there, None, 2));
    t := Apply(cfg, s, other);
    assert [other][1..] == [];
  }

  /** And such a refresh happens: in one minute an incident opened here, one quiet evaluation here, a trigger for
      another environment, and two more quiet evaluations here leave the incident active. */
  lemma RefreshedElsewhereStaysOpen(cfg: Config, p: Policy, here: Target, there: Target) returns (acts: seq<Action>, t: State)
    requires p.metric == MISSING_HEARTBEAT && here.workflow == there.workflow && here.env != there.env
    ensures acts == [Trigger(p, here, None, 0, None, None), Clear(p, here, 1), Trigger(p, there, None, 2, Some(0), None)] + Clears(2, p, here, 3)
    ensures Executes(cfg, Start(0), acts, t) && LastQuiet(Outcomes(acts, p, here), 3) && Covered(t.incidents, p, here)
  {
    var first, quiet, other := Trigger(p, here, None, 0, None, None), Clear(p, here, 1), Trigger(p, there, None, 2, Some(0), None);
    var s := OpenedAndQuiet(cfg, p, here);
    var m := RefreshedElsewhere(cfg, s, p, here, there);
    JoinRuns(cfg, Start(0), [first, quiet], s, [other], m);
    assert [first, quiet] + [other] == [first, quiet, other];
    OpeningOutcomes(first, quiet, other, p, here);
    t := ClearsRun(cfg, m, 0, p, here, 3, 2);
    RowClears(m.incidents[0], 2, 3);
    ClearsOutcomes([first, quiet, other], 2, p, here, 3, 1);
    acts := [first, quiet, other] + Clears(2, p, here, 3);
    JoinRuns(cfg, Start(0), [first, quiet, other], m, Clears(2, p, here, 3), t);
    assert HeartbeatMatch(t.incidents[0], p, here);
  }

  lemma OpeningOutcomes(first: Action, quiet: Action, other: Action, p: Policy, here: Target)
    requires first.Trigger? && quiet.Clear? && quiet.p == p && quiet.tg == here && other.Trigger? && other.tg != here
    ensures LastQuiet(Outcomes([first, quiet, other], p, here), 1)
  {
    OutcomesNext([first], quiet, p, here);
    OutcomesNext([first, quiet], other, p, here);
    assert [first] + [quiet] == [first, quiet] && [first, quiet] + [other] == [first, quiet, other];
  }
}
