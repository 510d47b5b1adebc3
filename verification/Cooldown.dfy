/** Triggers that find nothing active while the latest resolved incident is still in its cooldown. */
module Cooldown {
  import opened Prelude
  import opened Incidents
  import opened AnomalyPolicies
  import opened IncidentTable

  predicate TriggersFor(a: Action, p: Policy, tg: Target) {
    a.Trigger? && a.p == p && a.tg == tg
  }

  /** Every trigger of the policy and target finds nothing active and the same incident r as the latest
      resolved, still cooling down; and nothing else writes that incident's hits. */
  ghost predicate CoolingDown(cfg: Config, s: State, acts: seq<Action>, p: Policy, tg: Target, r: nat)
    decreases |acts|
  {
    acts == [] ||
    (&& Enabled(s, acts[0]) && r < |s.incidents|
     && (if TriggersFor(acts[0], p, tg)
         then acts[0].found.None? && acts[0].latest == Some(r) && InCooldown(cfg, p, s.incidents[r], acts[0].now)
         else HitsOf(Apply(cfg, s, acts[0]), r) == HitsOf(s, r))
     && CoolingDown(cfg, Apply(cfg, s, acts[0]), acts[1..], p, tg, r))
  }

  function HitsOf(s: State, r: nat): int {
    if r < |s.incidents| then s.incidents[r].details.cooldownHits else 0
  }

  function Triggers(acts: seq<Action>, p: Policy, tg: Target): nat {
    if acts == [] then 0 else (if TriggersFor(acts[0], p, tg) then 1 else 0) + Triggers(acts[1..], p, tg)
  }

  /** How many of those triggers opened an incident. */
  ghost function Openings(cfg: Config, s: State, acts: seq<Action>, p: Policy, tg: Target): nat
    requires exists t :: Executes(cfg, s, acts, t)
    decreases |acts|
  {
    if acts == [] then 0
    else
      var next := Apply(cfg, s, acts[0]);
      assert forall t :: Executes(cfg, s, acts, t) ==> Executes(cfg, next, acts[1..], t);
      (if TriggersFor(acts[0], p, tg) && |next.incidents| > |s.incidents| then 1 else 0) + Openings(cfg, next, acts[1..], p, tg)
  }

  lemma {:induction false} DivAtLeast(x: int, n: int)
    requires 0 < n
    ensures (n + x) / n == 1 + x / n
  {
    var q := x / n;
    assert n + x == n * (q + 1) + x % n;
    DivUnique(n + x, n, q + 1, x % n);
  }

  lemma MultipleIsFar(n: int, d: int)
    requires 0 < n
    ensures (d > 0 ==> n * d >= n) && (d < 0 ==> n * d <= -n)
  {
  }

  lemma {:induction false} DivUnique(a: int, n: int, q: int, r: int)
    requires 0 < n && a == n * q + r && 0 <= r < n
    ensures a / n == q
  {
    assert n * (a / n - q) == r - a % n;
    MultipleIsFar(n, a / n - q);
  }

  // One such trigger opens an incident exactly if its hit is the last one, and then the count starts again.
  lemma OneTrigger(cfg: Config, s: State, a: Action, p: Policy, tg: Target, r: nat)
    requires 0 < cfg.cooldownWindows && r < |s.incidents| && 0 <= HitsOf(s, r) && TriggersFor(a, p, tg) && Enabled(s, a)
    requires a.found.None? && a.latest == Some(r) && InCooldown(cfg, p, s.incidents[r], a.now)
    ensures var h, t := Min(HitsOf(s, r), cfg.cooldownWindows - 1), Apply(cfg, s, a);
      && |s.incidents| <= |t.incidents| && (|t.incidents| > |s.incidents| <==> h + 1 == cfg.cooldownWindows)
      && HitsOf(t, r) == if h + 1 == cfg.cooldownWindows then 0 else h + 1
  {
  }

  /** Of k such triggers, with the incident at any h hits to begin with, exactly floor((h + k) / N) open a new
      incident, where a count at or beyond N - 1, as a larger N before may have left it, is as good as N - 1. */
  lemma {:induction false} OpeningsFromAnyHits(cfg: Config, s: State, acts: seq<Action>, t: State, p: Policy, tg: Target, r: nat)
    requires cfg.Valid() && Executes(cfg, s, acts, t) && CoolingDown(cfg, s, acts, p, tg, r) && r < |s.incidents|
    requires 0 <= HitsOf(s, r)
    ensures Openings(cfg, s, acts, p, tg) == (Min(HitsOf(s, r), cfg.cooldownWindows - 1) + Triggers(acts, p, tg)) / cfg.cooldownWindows
    decreases |acts|
  {
    var n := cfg.cooldownWindows;
    var h := Min(HitsOf(s, r), n - 1);
    if acts == [] {
      DivUnique(h, n, 0, h);
    } else {
      var next := Apply(cfg, s, acts[0]);
      if TriggersFor(acts[0], p, tg) {
        OneTrigger(cfg, s, acts[0], p, tg, r);
      } else {
        RowsStay(cfg, s, acts[0]);
      }
      OpeningsFromAnyHits(cfg, next, acts[1..], t, p, tg, r);
      if TriggersFor(acts[0], p, tg) && h + 1 == n {
        DivAtLeast(Triggers(acts[1..], p, tg), n);
      }
    }
  }

  lemma RowsStay(cfg: Config, s: State, a: Action)
    requires Enabled(s, a)
    ensures |s.incidents| <= |Apply(cfg, s, a).incidents|
  {
  }

  // Hits stay below the number of windows a cooldown lasts.
  predicate HitsFit(cfg: Config, i: Incident) {
    0 <= i.details.cooldownHits < cfg.cooldownWindows
  }

  ghost predicate HitsOk(cfg: Config, s: State) {
    forall k :: 0 <= k < |s.incidents| ==> HitsFit(cfg, s.incidents[k])
  }

  lemma TriggerHits(cfg: Config, s: State, a: Action)
    requires 0 < cfg.cooldownWindows && HitsOk(cfg, s) && a.Trigger? && Enabled(s, a)
    ensures HitsOk(cfg, Apply(cfg, s, a))
  {
    var t := Apply(cfg, s, a);
    forall k | 0 <= k < |s.incidents| ensures HitsFit(cfg, t.incidents[k]) {
      assert HitsFit(cfg, s.incidents[k]);
    }
  }

  lemma BridgeHits(cfg: Config, s: State, a: Action)
    requires 0 < cfg.cooldownWindows && HitsOk(cfg, s) && (a.BridgeWrite? || a.BridgeResolve?) && Enabled(s, a)
    ensures HitsOk(cfg, Apply(cfg, s, a))
  {
  }

  lemma OtherHits(cfg: Config, s: State, a: Action)
    requires 0 < cfg.cooldownWindows && HitsOk(cfg, s) && !a.Trigger? && !a.BridgeWrite? && !a.BridgeResolve? && Enabled(s, a)
    ensures HitsOk(cfg, Apply(cfg, s, a))
  {
    var t := Apply(cfg, s, a);
    forall k | 0 <= k < |s.incidents| ensures HitsFit(cfg, t.incidents[k]) {
      assert HitsFit(cfg, s.incidents[k]);
    }
  }

  lemma {:induction false} HitsStep(cfg: Config, s: State, a: Action)
    requires 0 < cfg.cooldownWindows && HitsOk(cfg, s) && Enabled(s, a)
    ensures HitsOk(cfg, Apply(cfg, s, a))
  {
    if a.Trigger? {
      TriggerHits(cfg, s, a);
    } else if a.BridgeWrite? || a.BridgeResolve? {
      BridgeHits(cfg, s, a);
    } else {
      OtherHits(cfg, s, a);
    }
  }

  lemma {:induction false} HitsAlways(cfg: Config, s: State, acts: seq<Action>, t: State)
    requires 0 < cfg.cooldownWindows && HitsOk(cfg, s) && Executes(cfg, s, acts, t)
    ensures HitsOk(cfg, t)
    decreases |acts|
  {
    if acts != [] {
      HitsStep(cfg, s, acts[0]);
      HitsAlways(cfg, Apply(cfg, s, acts[0]), acts[1..], t);
    }
  }

  ghost predicate Reachable(cfg: Config, s: State) {
    exists time, before :: Executes(cfg, Start(time), before, s)
  }

  lemma HitsReached(cfg: Config, s: State, r: nat)
    requires 0 < cfg.cooldownWindows && Reachable(cfg, s) && r < |s.incidents|
    ensures 0 <= HitsOf(s, r) < cfg.cooldownWindows && Min(HitsOf(s, r), cfg.cooldownWindows - 1) == HitsOf(s, r)
  {
    var time, before :| Executes(cfg, Start(time), before, s);
    HitsAlways(cfg, Start(time), before, s);
    assert HitsFit(cfg, s.incidents[r]);
  }

  /** In every run an incident's hits stay below N; and of k such triggers, with the incident at h hits to
      begin with, exactly floor((h + k) / N) open a new incident. */
  lemma {:induction false} EveryNthTriggerOpens(cfg: Config, s: State, acts: seq<Action>, t: State, p: Policy, tg: Target, r: nat)
    requires cfg.Valid() && Reachable(cfg, s) && r < |s.incidents|
    requires Executes(cfg, s, acts, t) && CoolingDown(cfg, s, acts, p, tg, r)
    ensures 0 <= HitsOf(s, r) < cfg.cooldownWindows
    ensures Openings(cfg, s, acts, p, tg) == (HitsOf(s, r) + Triggers(acts, p, tg)) / cfg.cooldownWindows
  {
    HitsReached(cfg, s, r);
    OpeningsFromAnyHits(cfg, s, acts, t, p, tg, r);
  }
}
