/** When an incident's breach mark is no older than its deadline. */
module BreachMarks {
  import opened Prelude
  import opened Incidents
  import opened AnomalyPolicies
  import opened IncidentTable
  import opened BreachEvents

  predicate MarkOnTime(i: Incident) {
    i.slaBreachedAt.Some? ==> i.slaDueAt <= i.slaBreachedAt.value
  }

  ghost predicate MarksOnTime(s: State) {
    forall k :: 0 <= k < |s.incidents| ==> MarkOnTime(s.incidents[k])
  }

  /** In no state of the run is an incident marked breached before its deadline. */
  ghost predicate OnTimeThroughout(cfg: Config, s: State, acts: seq<Action>)
    decreases |acts|
  {
    MarksOnTime(s)
    && (acts == [] || (Enabled(s, acts[0]) && OnTimeThroughout(cfg, Apply(cfg, s, acts[0]), acts[1..])))
  }

  /** The deadline a bridge write gives to a row that it finds. */
  function NewDeadline(i: Incident, severity: Severity, now: int): int {
    SlaDueAt(if i.status.Resolved? then now else i.startedAt, severity)
  }

  /** A bridge write moves the deadline of no marked incident beyond its mark, and a pass marks no bridge
      incident whose deadline has moved beyond the pass since it was listed. */
  ghost predicate WriteOnTime(s: State, a: Action)
    requires Enabled(s, a)
  {
    match a
    case BridgeWrite(tenant, id, severity, fp, _, now) =>
      var target := BridgeTarget(s.incidents, tenant, id, fp);
      target.Some? && s.incidents[target.value].slaBreachedAt.Some? ==>
        NewDeadline(s.incidents[target.value], severity, now) <= s.incidents[target.value].slaBreachedAt.value
    case MarkBreached(w) =>
      forall k :: k in s.passes[w].ids && k < |s.incidents| && s.incidents[k].policy.None? ==> s.incidents[k].slaDueAt <= s.passes[w].at
    case _ => true
  }

  ghost predicate WritesOnTime(cfg: Config, s: State, acts: seq<Action>)
    decreases |acts|
  {
    acts == [] ||
    (Enabled(s, acts[0]) && WriteOnTime(s, acts[0]) && WritesOnTime(cfg, Apply(cfg, s, acts[0]), acts[1..]))
  }

  // A row that keeps its mark, and whose deadline moves forward only, stays on time.
  predicate Forward(i: Incident, r: Incident) {
    r.slaBreachedAt == i.slaBreachedAt && r.slaDueAt <= i.slaDueAt
  }

  ghost predicate AllForward(before: seq<Incident>, after: seq<Incident>) {
    && |before| <= |after|
    && (forall k :: 0 <= k < |before| ==> Forward(before[k], after[k]))
    && (forall k :: |before| <= k < |after| ==> after[k].slaBreachedAt.None?)
  }

  lemma TriggerForward(cfg: Config, s: State, a: Action)
    requires RowsOk(s) && a.Trigger? && Enabled(s, a)
    ensures AllForward(s.incidents, Apply(cfg, s, a).incidents)
  {
    if a.found.Some? {
      assert RowOk(s.incidents[a.found.value], s.jobTime);
    }
  }

  lemma OtherForward(cfg: Config, s: State, a: Action)
    requires Enabled(s, a) && !a.Trigger? && !a.BridgeWrite? && !a.MarkBreached?
    ensures AllForward(s.incidents, Apply(cfg, s, a).incidents)
  {
  }

  lemma BridgeWriteOnTime(cfg: Config, s: State, a: Action)
    requires MarksOnTime(s) && a.BridgeWrite? && Enabled(s, a)
    ensures MarksOnTime(Apply(cfg, s, a)) <==> WriteOnTime(s, a)
  {
    var t := Apply(cfg, s, a);
    var target := BridgeTarget(s.incidents, a.tenant, a.id, a.fp);
    if target.Some? {
      assert MarkOnTime(t.incidents[target.value]) <==> WriteOnTime(s, a);
    }
  }

  lemma MarkingOnTime(cfg: Config, s: State, a: Action)
    requires Inv(s) && MarksOnTime(s) && a.MarkBreached? && Enabled(s, a)
    ensures MarksOnTime(Apply(cfg, s, a)) <==> WriteOnTime(s, a)
  {
    var t := Apply(cfg, s, a);
    var pass := s.passes[a.w];
    forall k | k in pass.ids ensures k < |s.incidents| && (MarkOnTime(t.incidents[k]) <==> s.incidents[k].slaDueAt <= pass.at) {
    }
    forall k | k in pass.ids && s.incidents[k].policy.Some? ensures s.incidents[k].slaDueAt <= pass.at {
    }
  }

  /** One step from a table whose marks are on time leaves them so exactly if it writes on time. */
  lemma OnTimeStep(cfg: Config, s: State, a: Action)
    requires Inv(s) && MarksOnTime(s) && Enabled(s, a)
    ensures MarksOnTime(Apply(cfg, s, a)) <==> WriteOnTime(s, a)
  {
    if a.BridgeWrite? {
      BridgeWriteOnTime(cfg, s, a);
    } else if a.MarkBreached? {
      MarkingOnTime(cfg, s, a);
    } else if a.Trigger? {
      TriggerForward(cfg, s, a);
    } else {
      OtherForward(cfg, s, a);
    }
  }

  lemma {:induction false} OnTimeAlways(cfg: Config, s: State, acts: seq<Action>, t: State)
    requires Inv(s) && MarksOnTime(s) && Executes(cfg, s, acts, t)
    ensures OnTimeThroughout(cfg, s, acts) <==> WritesOnTime(cfg, s, acts)
    decreases |acts|
  {
    if acts != [] {
      var m := Apply(cfg, s, acts[0]);
      InvStep(cfg, s, acts[0]);
      OnTimeStep(cfg, s, acts[0]);
      if MarksOnTime(m) {
        OnTimeAlways(cfg, m, acts[1..], t);
      }
    }
  }

  /** No incident is ever marked breached before its deadline exactly if no bridge write, in reopening or
      refreshing a marked incident, gives it a deadline after its mark, and no pass marks a bridge incident
      that has been given a deadline after the pass since it was listed. Policies' incidents need no condition. */
  lemma MarksOnTimeExactly(cfg: Config, time: int, acts: seq<Action>, t: State)
    requires Executes(cfg, Start(time), acts, t)
    ensures OnTimeThroughout(cfg, Start(time), acts) <==> WritesOnTime(cfg, Start(time), acts)
  {
    OnTimeAlways(cfg, Start(time), acts, t);
  }

  // ----- the two ways to an early mark

  lemma ReopeningRuns(cfg: Config, s: State, k: nat, at: int) returns (acts: seq<Action>, t: State)
    requires k < |s.incidents| && s.incidents[k].policy.None? && !s.incidents[k].fingerprint.OfPolicy? && !s.incidents[k].status.Resolved?
    ensures Executes(cfg, s, acts, t) && |t.incidents| == |s.incidents| && t.passes == s.passes
    ensures t.incidents[k].slaBreachedAt == s.incidents[k].slaBreachedAt && t.incidents[k].slaDueAt == SlaDueAt(at, s.incidents[k].severity)
  {
    var i := s.incidents[k];
    var close, reopen := BridgeResolve(i.tenant, k, at), BridgeWrite(i.tenant, Some(k), i.severity, i.fingerprint, at, at);
    var m := Apply(cfg, s, close);
    t := Apply(cfg, m, reopen);
    acts := [close, reopen];
    assert acts[1..] == [reopen];
    assert Executes(cfg, m, [reopen], t);
  }

  /** From any state, a bridge incident that is marked breached, resolved and reopened carries a breach mark
      older than its new deadline. */
  lemma ReopenedBreachIsEarly(cfg: Config, s: State, k: nat, now: int) returns (acts: seq<Action>, t: State)
    requires s.passes == map[] && k < |s.incidents| && Overdue(s.incidents[k], now)
    requires s.incidents[k].policy.None? && !s.incidents[k].fingerprint.OfPolicy?
    ensures Executes(cfg, s, acts, t) && |t.incidents| == |s.incidents|
    ensures !MarkOnTime(t.incidents[k])
  {
    var first, m := PassMarks(cfg, s, k, now);
    var more;
    more, t := ReopeningRuns(cfg, m, k, now);
    JoinRuns(cfg, s, first, m, more, t);
    acts := first + more;
  }

  lemma MarkingEarly(cfg: Config, s: State, w: nat, k: nat) returns (t: State)
    requires w in s.passes && s.passes[w].Found? && k in s.passes[w].ids && k < |s.incidents| && s.passes[w].at < s.incidents[k].slaDueAt
    ensures Executes(cfg, s, [MarkBreached(w)], t) && |t.incidents| == |s.incidents| && !MarkOnTime(t.incidents[k])
  {
    t := Apply(cfg, s, MarkBreached(w));
    assert [MarkBreached(w)][1..] == [];
  }

  /** So does one that is resolved and reopened between a pass's listing it and marking it. */
  lemma ReopenedWhileListedIsEarly(cfg: Config, s: State, w: nat, k: nat, now: int) returns (acts: seq<Action>, t: State)
    requires w !in s.passes && k < |s.incidents| && Overdue(s.incidents[k], now)
    requires s.incidents[k].policy.None? && !s.incidents[k].fingerprint.OfPolicy?
    ensures Executes(cfg, s, acts, t) && |t.incidents| == |s.incidents|
    ensures !MarkOnTime(t.incidents[k])
  {
    var find := FindBreached(w, now);
    var m := Apply(cfg, s, find);
    assert k in OverdueIds(s.incidents, now);
    assert [find][1..] == [];
    var more, u := ReopeningRuns(cfg, m, k, now);
    t := MarkingEarly(cfg, u, w, k);
    JoinRuns(cfg, s, [find], m, more, u);
    JoinRuns(cfg, s, [find] + more, u, [MarkBreached(w)], t);
    acts := [find] + more + [MarkBreached(w)];
  }
}
