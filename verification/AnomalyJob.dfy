/** The detection job: evaluate every policy's targets, then mark deadlines. */
module AnomalyJob {
  import opened Prelude
  import opened Incidents
  import opened AnomalyPolicies
  import opened IncidentTable
  import opened IncidentService

  datatype Workflow = Workflow(id: string, environment: string)

  // Which of a tenant's workflows a policy asks for.
  datatype Filter = Filter(workflow: Option<string>, env: Option<string>)

  // What an evaluation has to go on: a heartbeat reading, or the verdict of the metric's own rule.
  datatype Evidence = Reading(h: Heartbeat) | Verdict(triggered: bool, bucket: Option<int>)

  predicate FirstWithId(workflows: seq<Workflow>, id: string, i: nat) {
    i < |workflows| && workflows[i].id == id && forall j :: 0 <= j < i ==> workflows[j].id != id
  }

  function FirstEnvironment(workflows: seq<Workflow>, id: string): (r: Option<string>)
    ensures r.None? <==> forall i :: 0 <= i < |workflows| ==> workflows[i].id != id
    ensures r.Some? ==> exists i :: 0 <= i < |workflows| && FirstWithId(workflows, id, i) && workflows[i].environment == r.value
  {
    if workflows == [] then None
    else if workflows[0].id == id then
      assert FirstWithId(workflows, id, 0);
      Some(workflows[0].environment)
    else
      var rest := FirstEnvironment(workflows[1..], id);
      assert forall i :: 0 < i < |workflows| ==> workflows[i] == workflows[1..][i - 1];
      assert forall i :: 0 < i < |workflows| && FirstWithId(workflows[1..], id, i - 1) ==> FirstWithId(workflows, id, i);
      rest
  }

  function TargetOf(f: Filter, w: Workflow): Target {
    Target(w.id, if f.env.Some? then f.env.value else w.environment)
  }

  function AllTargets(f: Filter, workflows: seq<Workflow>): (r: seq<Target>)
    ensures forall w :: w in workflows ==> TargetOf(f, w) in r
    ensures forall t :: t in r ==> exists w :: w in workflows && TargetOf(f, w) == t
    ensures forall i, j :: 0 <= i < j < |r| ==> r[i] != r[j]
  {
    if workflows == [] then []
    else
      var rest := AllTargets(f, workflows[..|workflows| - 1]);
      var t := TargetOf(f, workflows[|workflows| - 1]);
      if t in rest then rest else rest + [t]
  }

  /** The targets of a policy: the workflow it names, or each of the tenant's once. */
  function BuildTargets(f: Filter, workflows: seq<Workflow>): (r: seq<Target>)
    ensures forall i, j :: 0 <= i < j < |r| ==> r[i] != r[j]
    ensures f.workflow.Some? ==> |r| == 1 && r[0].workflow == f.workflow.value
    ensures f.workflow.Some? && f.env.Some? ==> r[0].env == f.env.value
    ensures f.workflow.Some? && f.env.None? ==>
      if forall i :: 0 <= i < |workflows| ==> workflows[i].id != f.workflow.value then r[0].env == "prod"
      else exists i :: 0 <= i < |workflows| && FirstWithId(workflows, f.workflow.value, i) && r[0].env == workflows[i].environment
    ensures f.workflow.None? ==> forall w :: w in workflows ==> TargetOf(f, w) in r
  {
    match f.workflow
    case Some(id) =>
      var known := FirstEnvironment(workflows, id);
      [Target(id, if f.env.Some? then f.env.value else if known.Some? then known.value else "prod")]
    case None => AllTargets(f, workflows)
  }

  function TargetsFor(filters: Policy -> Filter, workflows: string -> seq<Workflow>): Policy -> seq<Target> {
    (p: Policy) => BuildTargets(filters(p), workflows(p.tenant))
  }

  /** Does the evidence trigger the policy? */
  predicate Fires(e: Evidence, p: Policy) {
    match e
    case Reading(h) => HeartbeatMissing(h, p.windowSec)
    case Verdict(triggered, _) => triggered
  }

  /** The step is the evaluation of this target on this evidence: a trigger if the evidence fires, quiet if not. */
  predicate Evaluates(a: Action, p: Policy, tg: Target, e: Evidence, now: int) {
    (a.Trigger? || a.Clear?) && a.p == p && a.tg == tg && a.now == now && (a.Trigger? <==> Fires(e, p))
    && (a.Trigger? ==> a.bucket == if e.Reading? then Some(now) else e.bucket)
  }

  /** There is no heartbeat to measure a gap from. */
  predicate NoBaseline(e: Evidence) {
    e.Reading? && (e.h.count <= 0 || e.h.gapSec.None?)
  }

  // What a quiet evaluation may do to a row: count it, and resolve it.
  predicate OnlyQuieter(i: Incident, r: Incident) {
    r == i.(status := r.status, resolvedAt := r.resolvedAt,
            details := i.details.(clearStreak := r.details.clearStreak, cooldownHits := r.details.cooldownHits))
    && (r.status == i.status || r.status.Resolved?)
  }

  /** No row is added, and none is refreshed: what was seen, alerted, escalated or due stays. */
  ghost predicate NothingRaised(before: seq<Incident>, after: seq<Incident>) {
    |after| == |before| && forall k :: 0 <= k < |before| ==> OnlyQuieter(before[k], after[k])
  }

  lemma ClearRaisesNothing(cfg: Config, s: State, a: Action)
    requires a.Clear? && Enabled(s, a)
    ensures NothingRaised(s.incidents, Apply(cfg, s, a).incidents)
  {
  }

  lemma RaisedBefore(a: seq<Incident>, b: seq<Incident>, c: seq<Incident>)
    requires NothingRaised(a, b) && NothingRaised(b, c)
    ensures NothingRaised(a, c)
  {
    forall k | 0 <= k < |a| ensures OnlyQuieter(a[k], c[k]) {
      assert OnlyQuieter(a[k], b[k]) && OnlyQuieter(b[k], c[k]);
    }
  }

  lemma {:induction false} ClearsRaiseNothing(cfg: Config, s: State, acts: seq<Action>, t: State)
    requires Executes(cfg, s, acts, t) && forall i :: 0 <= i < |acts| ==> acts[i].Clear?
    ensures NothingRaised(s.incidents, t.incidents)
    decreases |acts|
  {
    if acts != [] {
      var m := Apply(cfg, s, acts[0]);
      ClearRaisesNothing(cfg, s, acts[0]);
      ClearsRaiseNothing(cfg, m, acts[1..], t);
      RaisedBefore(s.incidents, m.incidents, t.incidents);
    }
  }

  /** Without a baseline an evaluation is a quiet one, whatever the policy and the target. */
  lemma NoBaselineIsQuiet(a: Action, p: Policy, tg: Target, e: Evidence, now: int)
    requires Evaluates(a, p, tg, e, now) && NoBaseline(e)
    ensures a == Clear(p, tg, now)
  {
    HeartbeatThreshold(e.h, p.windowSec);
  }

  function Pairs(p: Policy, targets: seq<Target>): (r: seq<(Policy, Target)>)
    ensures |r| == |targets| && forall i :: 0 <= i < |r| ==> r[i] == (p, targets[i])
  {
    seq(|targets|, i requires 0 <= i < |targets| => (p, targets[i]))
  }

  /** What a job has to evaluate: the targets of each policy that the tenant's plan supports. */
  function Agenda(policies: seq<Policy>, supported: Policy -> bool, targets: Policy -> seq<Target>): seq<(Policy, Target)> {
    if policies == [] then []
    else
      var p := policies[|policies| - 1];
      Agenda(policies[..|policies| - 1], supported, targets) + (if supported(p) then Pairs(p, targets(p)) else [])
  }

  ghost predicate Follows(acts: seq<Action>, agenda: seq<(Policy, Target)>, evidence: (Policy, Target) -> Evidence, now: int) {
    |acts| == |agenda| &&
    forall i :: 0 <= i < |agenda| ==> Evaluates(acts[i], agenda[i].0, agenda[i].1, evidence(agenda[i].0, agenda[i].1), now)
  }

  lemma FollowsOn(acts: seq<Action>, agenda: seq<(Policy, Target)>, more: seq<Action>, p: Policy, targets: seq<Target>,
                  evidence: (Policy, Target) -> Evidence, now: int)
    requires Follows(acts, agenda, evidence, now)
    requires |more| == |targets| && forall i :: 0 <= i < |targets| ==> Evaluates(more[i], p, targets[i], evidence(p, targets[i]), now)
    ensures Follows(acts + more, agenda + Pairs(p, targets), evidence, now)
  {
  }

  /** Every target of every supported policy is evaluated, nothing else is, and none twice unless a policy is listed twice. */
  ghost predicate EvaluatesEach(acts: seq<Action>, policies: seq<Policy>, supported: Policy -> bool, targets: Policy -> seq<Target>,
                                evidence: (Policy, Target) -> Evidence, now: int)
  {
    && (forall p, tg :: p in policies && supported(p) && tg in targets(p) ==> exists a :: a in acts && Evaluates(a, p, tg, evidence(p, tg), now))
    && (forall a :: a in acts ==> (a.Trigger? || a.Clear?) && a.p in policies && supported(a.p) && a.tg in targets(a.p)
                                  && Evaluates(a, a.p, a.tg, evidence(a.p, a.tg), now))
    && (Distinct(policies) ==> forall i, j :: 0 <= i < j < |acts| ==> (acts[i].p, acts[i].tg) != (acts[j].p, acts[j].tg))
  }

  ghost predicate Distinct<T(!new)>(xs: seq<T>) {
    forall i, j :: 0 <= i < j < |xs| ==> xs[i] != xs[j]
  }

  lemma {:induction false} AgendaMembers(policies: seq<Policy>, supported: Policy -> bool, targets: Policy -> seq<Target>, x: (Policy, Target))
    ensures x in Agenda(policies, supported, targets) <==> x.0 in policies && supported(x.0) && x.1 in targets(x.0)
  {
    if policies != [] {
      var p, before := policies[|policies| - 1], policies[..|policies| - 1];
      AgendaMembers(before, supported, targets, x);
      PairsMembers(p, targets(p), x);
      assert policies == before + [p];
      var earlier := Agenda(before, supported, targets);
      var added := if supported(p) then Pairs(p, targets(p)) else [];
      assert x in earlier + added <==> x in earlier || x in added;
    }
  }

  lemma PairsMembers(p: Policy, targets: seq<Target>, x: (Policy, Target))
    ensures x in Pairs(p, targets) <==> x.0 == p && x.1 in targets
  {
    if x.0 == p && x.1 in targets {
      var i :| 0 <= i < |targets| && targets[i] == x.1;
      assert Pairs(p, targets)[i] == x;
    }
  }

  lemma DistinctJoins<T(!new)>(a: seq<T>, b: seq<T>)
    requires Distinct(a) && Distinct(b) && forall x :: x in a ==> x !in b
    ensures Distinct(a + b)
  {
    forall i, j | 0 <= i < |a| && 0 <= j < |b| ensures a[i] != b[j] {
      assert a[i] in a && b[j] in b;
    }
  }

  lemma {:induction false} AgendaDistinct(policies: seq<Policy>, supported: Policy -> bool, targets: Policy -> seq<Target>)
    requires Distinct(policies) && forall p :: Distinct(targets(p))
    ensures Distinct(Agenda(policies, supported, targets))
  {
    if policies != [] {
      var p, before := policies[|policies| - 1], policies[..|policies| - 1];
      AgendaDistinct(before, supported, targets);
      if supported(p) {
        assert Distinct(targets(p));
        forall x | x in Agenda(before, supported, targets) ensures x !in Pairs(p, targets(p)) {
          AgendaMembers(before, supported, targets, x);
          PairsMembers(p, targets(p), x);
        }
        DistinctJoins(Agenda(before, supported, targets), Pairs(p, targets(p)));
      } else {
        assert Agenda(policies, supported, targets) == Agenda(before, supported, targets);
      }
    }
  }

  /** A run that follows the agenda evaluates each target once. */
  lemma FollowedIsEach(acts: seq<Action>, policies: seq<Policy>, supported: Policy -> bool, targets: Policy -> seq<Target>,
                       evidence: (Policy, Target) -> Evidence, now: int)
    requires Follows(acts, Agenda(policies, supported, targets), evidence, now) && forall p :: Distinct(targets(p))
    ensures EvaluatesEach(acts, policies, supported, targets, evidence, now)
  {
    var agenda := Agenda(policies, supported, targets);
    forall p, tg | p in policies && supported(p) && tg in targets(p)
      ensures exists a :: a in acts && Evaluates(a, p, tg, evidence(p, tg), now)
    {
      AgendaMembers(policies, supported, targets, (p, tg));
      var i :| 0 <= i < |agenda| && agenda[i] == (p, tg);
      assert acts[i] in acts && Evaluates(acts[i], p, tg, evidence(p, tg), now);
    }
    forall a | a in acts
      ensures (a.Trigger? || a.Clear?) && a.p in policies && supported(a.p) && a.tg in targets(a.p)
              && Evaluates(a, a.p, a.tg, evidence(a.p, a.tg), now)
    {
      var i :| 0 <= i < |acts| && acts[i] == a;
      AgendaMembers(policies, supported, targets, agenda[i]);
    }
    if Distinct(policies) {
      AgendaDistinct(policies, supported, targets);
      forall i, j | 0 <= i < j < |acts| ensures (acts[i].p, acts[i].tg) != (acts[j].p, acts[j].tg) {
        assert agenda[i] != agenda[j];
      }
    }
  }

  // What a whole job leaves of the rows when nothing had a baseline: breaches may be marked, and no more.
  ghost predicate NothingRaisedButBreaches(before: seq<Incident>, after: seq<Incident>) {
    |after| == |before| && forall k :: 0 <= k < |before| ==>
      OnlyQuieter(before[k], after[k].(slaBreachedAt := before[k].slaBreachedAt, breaches := before[k].breaches))
  }

  lemma {:induction false} QuietJob(cfg: Config, s: State, acts: seq<Action>, t: State, agenda: seq<(Policy, Target)>,
                                    evidence: (Policy, Target) -> Evidence, now: int)
    requires Executes(cfg, s, acts, t) && Follows(acts, agenda, evidence, now) && forall p, tg :: NoBaseline(evidence(p, tg))
    ensures NothingRaised(s.incidents, t.incidents)
  {
    forall i | 0 <= i < |acts| ensures acts[i].Clear? {
      NoBaselineIsQuiet(acts[i], agenda[i].0, agenda[i].1, evidence(agenda[i].0, agenda[i].1), now);
    }
    ClearsRaiseNothing(cfg, s, acts, t);
  }

  lemma PassRaisesNothing(before: seq<Incident>, rows: seq<Incident>, now: int)
    requires NothingRaised(before, rows)
    ensures var ids := OverdueIds(rows, now); NothingRaisedButBreaches(before, LoggedRows(MarkedRows(rows, ids, now), ids))
  {
    forall k | 0 <= k < |before| ensures OnlyQuieter(before[k], rows[k]) {
    }
  }

  lemma PolicyEvaluated(cfg: Config, s: State, acts: seq<Action>, m: State, more: seq<Action>, t: State, agenda: seq<(Policy, Target)>,
                        p: Policy, targets: seq<Target>, evidence: (Policy, Target) -> Evidence, now: int)
    requires Executes(cfg, s, acts, m) && Executes(cfg, m, more, t) && Follows(acts, agenda, evidence, now)
    requires |more| == |targets| && forall i :: 0 <= i < |targets| ==> Evaluates(more[i], p, targets[i], evidence(p, targets[i]), now)
    ensures Executes(cfg, s, acts + more, t) && Follows(acts + more, agenda + Pairs(p, targets), evidence, now)
  {
    JoinRuns(cfg, s, acts, m, more, t);
    FollowsOn(acts, agenda, more, p, targets, evidence, now);
  }

  function BreachPass(now: int): seq<Action> {
    [FindBreached(0, now), MarkBreached(0), LogBreached(0)]
  }

  lemma {:induction false} BreachPassRuns(cfg: Config, s: State, now: int)
    requires s.passes == map[]
    ensures var ids := OverdueIds(s.incidents, now);
      Executes(cfg, s, BreachPass(now), s.(incidents := LoggedRows(MarkedRows(s.incidents, ids, now), ids)))
  {
    var s1 := Apply(cfg, s, FindBreached(0, now));
    var s2 := Apply(cfg, s1, MarkBreached(0));
    assert Apply(cfg, s2, LogBreached(0)).passes == map[];
    assert BreachPass(now)[1..] == [MarkBreached(0), LogBreached(0)];
    assert [MarkBreached(0), LogBreached(0)][1..] == [LogBreached(0)];
    assert Executes(cfg, s1, [MarkBreached(0), LogBreached(0)], Apply(cfg, s2, LogBreached(0)));
  }

  /** A quiet evaluation moves an active incident of the policy and target one window on, and resolves it at the third. */
  predicate OneWindowOn(i: Incident, r: Incident, p: Policy, tg: Target, now: int) {
    if i.tenant == p.tenant && i.policy == Some(p.id) && i.workflow == Some(tg.workflow) && i.environment == Some(tg.env) && !i.status.Resolved?
    then
      if i.details.clearStreak >= 2
      then r == i.(status := Resolved, resolvedAt := Some(now), details := i.details.(clearStreak := i.details.clearStreak + 1, cooldownHits := 0))
      else r == i.(details := i.details.(clearStreak := i.details.clearStreak + 1))
    else r == i
  }

  /** When an alert is owed for an incident still seen: half an hour after the last one. */
  predicate AlertOwed(i: Incident, now: int) {
    (if i.details.lastAlertAt.Some? then i.details.lastAlertAt.value else 0) + 30 * 60_000 <= now
  }

  /** A refresh escalates what has been open for too long, and alerts for that or when an alert is owed. */
  predicate RefreshedTo(cfg: Config, i: Incident, r: Incident, p: Policy, now: int) {
    var late := i.startedAt + cfg.escalationMinutes * 60_000 <= now;
    && r == i.(lastSeenAt := r.lastSeenAt, severity := r.severity, slaDueAt := r.slaDueAt, details := r.details, alerts := r.alerts)
    && r.lastSeenAt == now && r.severity == (if late then Critical else i.severity)
    && r.slaDueAt == (if r.severity.Critical? then i.startedAt + 15 * 60_000 else i.slaDueAt)
    && r.alerts == i.alerts + (if (late && !i.severity.Critical?) || AlertOwed(i, now) then 1 else 0)
    && r.details == Details(Some(p.metric), 0, 0, i.details.consecutive + 1,
                            if i.details.lastAlertAt.None? || AlertOwed(i, now) then Some(now) else i.details.lastAlertAt)
  }

  predicate ActiveHere(i: Incident, p: Policy, tg: Target) {
    i.tenant == p.tenant && i.workflow == Some(tg.workflow) && i.environment == Some(tg.env) && !i.status.Resolved?
    && (i.details.metric == Some("missing_heartbeat") || i.policy == Some(p.id))
  }

  predicate ActiveThatMinute(i: Incident, p: Policy, fp: Fingerprint) {
    i.tenant == p.tenant && i.fingerprint == fp && !i.status.Resolved?
  }

  /** For a missed heartbeat a latest-started active incident of the target, if there is one; otherwise a latest-started
      active one with the minute's fingerprint, if there is one. */
  ghost predicate RightOne(incidents: seq<Incident>, p: Policy, tg: Target, fp: Fingerprint, r: Option<nat>) {
    if p.metric == "missing_heartbeat" && exists j :: 0 <= j < |incidents| && ActiveHere(incidents[j], p, tg)
    then
      r.Some? && r.value < |incidents| && ActiveHere(incidents[r.value], p, tg)
      && forall j :: 0 <= j < |incidents| && ActiveHere(incidents[j], p, tg) ==> incidents[j].startedAt <= incidents[r.value].startedAt
    else
      match r
      case None => forall j :: 0 <= j < |incidents| ==> !ActiveThatMinute(incidents[j], p, fp)
      case Some(k) =>
        k < |incidents| && ActiveThatMinute(incidents[k], p, fp)
        && forall j :: 0 <= j < |incidents| && ActiveThatMinute(incidents[j], p, fp) ==> incidents[j].startedAt <= incidents[k].startedAt
  }

  lemma ExistingIsRightOne(incidents: seq<Incident>, p: Policy, tg: Target, fp: Fingerprint, r: Option<nat>)
    requires IsExisting(incidents, p, tg, fp, r)
    ensures RightOne(incidents, p, tg, fp, r)
  {
    forall j | 0 <= j < |incidents|
      ensures ActiveHere(incidents[j], p, tg) <==> HeartbeatMatch(incidents[j], p, tg)
      ensures ActiveThatMinute(incidents[j], p, fp) <==> FingerprintMatch(incidents[j], p, fp)
    {
    }
  }

  /** An incident of this very policy and target that has been resolved. */
  predicate ResolvedHere(i: Incident, p: Policy, tg: Target) {
    i.tenant == p.tenant && i.policy == Some(p.id) && i.workflow == Some(tg.workflow) && i.environment == Some(tg.env) && i.status.Resolved?
  }

  ghost predicate LatestResolvedHere(incidents: seq<Incident>, p: Policy, tg: Target, r: Option<nat>) {
    match r
    case None => forall j :: 0 <= j < |incidents| ==> !ResolvedHere(incidents[j], p, tg)
    case Some(k) =>
      && k < |incidents| && ResolvedHere(incidents[k], p, tg)
      && forall j :: 0 <= j < |incidents| && ResolvedHere(incidents[j], p, tg) && incidents[j].resolvedAt.Some? && incidents[k].resolvedAt.Some? ==>
           incidents[j].resolvedAt.value <= incidents[k].resolvedAt.value
  }

  lemma LatestIsResolvedHere(incidents: seq<Incident>, p: Policy, tg: Target, r: Option<nat>)
    requires IsLatestResolved(incidents, p, tg, r)
    ensures LatestResolvedHere(incidents, p, tg, r)
  {
    forall j | 0 <= j < |incidents| ensures ResolvedHere(incidents[j], p, tg) <==> CooledDown(incidents[j], p, tg) {
    }
  }

  lemma TargetsOnce(filters: Policy -> Filter, workflows: string -> seq<Workflow>)
    ensures forall p :: Distinct(TargetsFor(filters, workflows)(p))
  {
    forall p ensures Distinct(TargetsFor(filters, workflows)(p)) {
      assert TargetsFor(filters, workflows)(p) == BuildTargets(filters(p), workflows(p.tenant));
    }
  }

  lemma JobEnds(cfg: Config, s: State, acts: seq<Action>, m: State, policies: seq<Policy>, supported: Policy -> bool,
                targets: Policy -> seq<Target>, evidence: (Policy, Target) -> Evidence, now: int)
    requires Executes(cfg, s, acts, m) && m.passes == map[] && Follows(acts, Agenda(policies, supported, targets), evidence, now)
    requires forall p :: Distinct(targets(p))
    ensures var ids := OverdueIds(m.incidents, now);
      var t := m.(incidents := LoggedRows(MarkedRows(m.incidents, ids, now), ids));
      && Executes(cfg, s, acts + BreachPass(now), t)
      && EvaluatesEach(acts, policies, supported, targets, evidence, now)
      && ((forall p, tg :: NoBaseline(evidence(p, tg))) ==> NothingRaisedButBreaches(s.incidents, t.incidents))
  {
    FollowedIsEach(acts, policies, supported, targets, evidence, now);
    if forall p, tg :: NoBaseline(evidence(p, tg)) {
      QuietJob(cfg, s, acts, m, Agenda(policies, supported, targets), evidence, now);
      PassRaisesNothing(s.incidents, m.incidents, now);
    }
    var ids := OverdueIds(m.incidents, now);
    BreachPassRuns(cfg, m, now);
    JoinRuns(cfg, s, acts, m, BreachPass(now), m.(incidents := LoggedRows(MarkedRows(m.incidents, ids, now), ids)));
  }

  class DetectionJob {
    const service: Service
    var jobTime: int

    // No breach pass is under way between the steps of a job that runs alone.
    ghost function View(): State
      reads this, service
    {
      State(service.incidents, jobTime, map[])
    }

    constructor (service: Service, time: int)
      ensures this.service == service && View() == Start(time).(incidents := service.incidents)
    {
      this.service, jobTime := service, time;
    }

    method LatestStarted(matches: Incident -> bool) returns (r: Option<nat>)
      ensures IsLatestStarted(service.incidents, matches, r)
    {
      r := None;
      for i := 0 to |service.incidents|
        invariant IsLatestStarted(service.incidents[..i], matches, r)
      {
        if matches(service.incidents[i]) && (r.None? || service.incidents[r.value].startedAt < service.incidents[i].startedAt) {
          r := Some(i);
        }
      }
      assert service.incidents[..|service.incidents|] == service.incidents;
    }

    method LatestResolved(p: Policy, tg: Target) returns (r: Option<nat>)
      ensures IsLatestResolved(service.incidents, p, tg, r)
    {
      r := None;
      for i := 0 to |service.incidents|
        invariant IsLatestResolved(service.incidents[..i], p, tg, r)
      {
        if CooledDown(service.incidents[i], p, tg) && (r.None? || !NotAfter(service.incidents[i].resolvedAt, service.incidents[r.value].resolvedAt)
                                               || (service.incidents[i].resolvedAt.None? && service.incidents[r.value].resolvedAt.Some?)) {
          r := Some(i);
        }
      }
      assert service.incidents[..|service.incidents|] == service.incidents;
    }

    method FindExisting(p: Policy, tg: Target, fp: Fingerprint) returns (r: Option<nat>)
      ensures IsExisting(service.incidents, p, tg, fp, r) && RightOne(service.incidents, p, tg, fp, r)
    {
      if p.metric == MISSING_HEARTBEAT {
        r := LatestStarted(i => HeartbeatMatch(i, p, tg));
        if r.Some? {
          ExistingIsRightOne(service.incidents, p, tg, fp, r);
          return;
        }
      }
      r := LatestStarted(i => FingerprintMatch(i, p, fp));
      ExistingIsRightOne(service.incidents, p, tg, fp, r);
    }

    /** Counts a hit against the latest resolved incident while it cools down. */
    method ShouldSuppressReopen(cfg: Config, p: Policy, tg: Target, now: int) returns (suppress: bool, ghost latest: Option<nat>)
      modifies service
      ensures IsLatestResolved(old(service.incidents), p, tg, latest) && LatestResolvedHere(old(service.incidents), p, tg, latest)
      ensures (service.incidents, suppress) == Suppressed(cfg, old(service.incidents), p, latest, now)
      ensures var cooling := latest.Some? && old(service.incidents)[latest.value].resolvedAt.Some?
          && now <= old(service.incidents)[latest.value].resolvedAt.value + 1000 * (p.windowSec * cfg.cooldownWindows);
        && (suppress <==> cooling && old(service.incidents)[latest.value].details.cooldownHits + 1 < cfg.cooldownWindows)
        && (!cooling ==> service.incidents == old(service.incidents))
        && (cooling ==>
              service.incidents
              == old(service.incidents)[latest.value := WithCooldownHits(old(service.incidents)[latest.value],
                                          if suppress then old(service.incidents)[latest.value].details.cooldownHits + 1 else 0)])
    {
      var found := LatestResolved(p, tg);
      latest := found;
      LatestIsResolvedHere(service.incidents, p, tg, latest);
      if found.None? || service.incidents[found.value].resolvedAt.None? {
        return false, latest;
      }
      var k := found.value;
      var cooldownWindowSec := p.windowSec * cfg.cooldownWindows;
      if now - service.incidents[k].resolvedAt.value > cooldownWindowSec * 1000 {
        return false, latest;
      }
      var nextHits := service.incidents[k].details.cooldownHits + 1;
      if nextHits < cfg.cooldownWindows {
        service.incidents := service.incidents[k := service.incidents[k].(details := service.incidents[k].details.(cooldownHits := nextHits))];
        return true, latest;
      }
      service.incidents := service.incidents[k := service.incidents[k].(details := service.incidents[k].details.(cooldownHits := 0))];
      return false, latest;
    }

    method RefreshIncident(cfg: Config, k: nat, p: Policy, now: int)
      requires k < |service.incidents|
      modifies service
      ensures service.incidents == old(service.incidents)[k := PolicyRefreshed(cfg, old(service.incidents)[k], p, now)]
      ensures RefreshedTo(cfg, old(service.incidents)[k], service.incidents[k], p, now)
    {
      var existing := service.incidents[k];
      var lastAlertAt := if existing.details.lastAlertAt.Some? then existing.details.lastAlertAt.value else 0;
      var shouldNotify := now - lastAlertAt >= RENOTIFY_MS;
      var nextSeverity := existing.severity;
      if now - existing.startedAt >= cfg.escalationMinutes * 60_000 && !existing.severity.Critical? {
        nextSeverity := Critical;
      }
      var alertAt := existing.details.lastAlertAt;
      if shouldNotify || alertAt.None? {
        alertAt := Some(now);
      }
      var updated := existing.(
        lastSeenAt := now,
        severity := nextSeverity,
        slaDueAt := if nextSeverity.Critical? then SlaDueAt(existing.startedAt, Critical) else existing.slaDueAt,
        details := Details(Some(p.metric), 0, 0, existing.details.consecutive + 1, alertAt));
      if nextSeverity != existing.severity {
        updated := updated.(alerts := updated.alerts + 1);
      } else if shouldNotify {
        updated := updated.(alerts := updated.alerts + 1);
      }
      service.incidents := service.incidents[k := updated];
    }

    /** A triggering evaluation: refresh what is active, or open an incident unless the cooldown suppresses it. */
    method UpsertIncident(cfg: Config, p: Policy, tg: Target, bucket: Option<int>, now: int)
      returns (ghost act: Action)
      requires jobTime <= now
      modifies this`jobTime, service
      ensures act.Trigger? && act.p == p && act.tg == tg && act.bucket == bucket && act.now == now
      ensures Enabled(old(View()), act) && View() == Apply(cfg, old(View()), act)
      ensures RightOne(old(service.incidents), p, tg, PolicyFingerprint(p, tg, bucket, now), act.found)
      ensures act.found.None? ==> LatestResolvedHere(old(service.incidents), p, tg, act.latest)
      ensures |old(service.incidents)| <= |service.incidents| <= |old(service.incidents)| + 1
      ensures |service.incidents| > |old(service.incidents)| ==>
        && act.found.None?
        && service.incidents[|old(service.incidents)|]
           == Incident(p.tenant, Some(p.id), Some(tg.workflow), Some(tg.env), Open, p.severity, now, now, None,
                       now + SlaMinutes(p.severity) * 60_000, None,
                       OfPolicy(p.tenant, tg.workflow, p.metric, (if bucket.Some? then bucket.value else now) / 60_000),
                       Details(Some(p.metric), 0, 0, 1, Some(now)), 1, 0)
    {
      var fp := PolicyFingerprint(p, tg, bucket, now);
      var existing := FindExisting(p, tg, fp);
      jobTime := now;
      if existing.Some? {
        RefreshIncident(cfg, existing.value, p, now);
        return Trigger(p, tg, bucket, now, existing, None);
      }
      var suppress, latest := ShouldSuppressReopen(cfg, p, tg, now);
      act := Trigger(p, tg, bucket, now, None, latest);
      if !suppress {
        service.incidents := service.incidents + [Incident(p.tenant, Some(p.id), Some(tg.workflow), Some(tg.env), Open, p.severity, now, now, None,
                                           SlaDueAt(now, p.severity), None, fp, Details(Some(p.metric), 0, 0, 1, Some(now)), 1, 0)];
      }
    }

    /** A quiet evaluation: every active incident of the policy and target is one window nearer to its resolution. */
    method ClearIncidentIfStable(p: Policy, tg: Target, now: int)
      modifies this`jobTime, service
      ensures service.incidents == Cleared(old(service.incidents), p, tg, now) && jobTime == now
      ensures |service.incidents| == |old(service.incidents)|
      ensures forall k :: 0 <= k < |service.incidents| ==> OneWindowOn(old(service.incidents)[k], service.incidents[k], p, tg, now)
    {
      for k := 0 to |service.incidents|
        invariant |service.incidents| == |old(service.incidents)|
        invariant forall j :: 0 <= j < k ==> service.incidents[j] == Cleared(old(service.incidents), p, tg, now)[j]
        invariant forall j :: k <= j < |service.incidents| ==> service.incidents[j] == old(service.incidents)[j]
      {
        var incident := service.incidents[k];
        if !Clearable(incident, p, tg) {
          continue;
        }
        var nextStreak := incident.details.clearStreak + 1;
        if nextStreak >= CLEAR_STREAK {
          service.incidents := service.incidents[k := incident.(status := Resolved, resolvedAt := Some(now),
                                                details := incident.details.(clearStreak := nextStreak, cooldownHits := 0))];
          continue;
        }
        service.incidents := service.incidents[k := incident.(details := incident.details.(clearStreak := nextStreak))];
      }
      jobTime := now;
    }

    /** One target of one policy: a trigger opens or refreshes, anything else counts as quiet. A missing baseline
        always does, and so raises nothing. */
    method EvaluateTarget(cfg: Config, p: Policy, tg: Target, e: Evidence, now: int) returns (ghost act: Action)
      requires jobTime <= now
      modifies this`jobTime, service
      ensures Enabled(old(View()), act) && View() == Apply(cfg, old(View()), act)
      ensures Evaluates(act, p, tg, e, now) && jobTime == now
      ensures NoBaseline(e) ==> act == Clear(p, tg, now) && NothingRaised(old(service.incidents), service.incidents)
      ensures e.Verdict? ==> (act.Trigger? <==> e.triggered)
    {
      if NoBaseline(e) {
        HeartbeatThreshold(e.h, p.windowSec);
      }
      if Fires(e, p) {
        act := UpsertIncident(cfg, p, tg, if e.Reading? then Some(now) else e.bucket, now);
      } else {
        ClearIncidentIfStable(p, tg, now);
        act := Clear(p, tg, now);
      }
    }

    method EvaluatePolicy(cfg: Config, p: Policy, targets: seq<Target>, evidence: (Policy, Target) -> Evidence, now: int)
      returns (ghost acts: seq<Action>)
      requires jobTime <= now
      modifies this`jobTime, service
      ensures Executes(cfg, old(View()), acts, View()) && jobTime <= now
      ensures |acts| == |targets| && forall i :: 0 <= i < |targets| ==> Evaluates(acts[i], p, targets[i], evidence(p, targets[i]), now)
    {
      acts := [];
      for i := 0 to |targets|
        invariant jobTime <= now && Executes(cfg, old(View()), acts, View())
        invariant |acts| == i && forall j :: 0 <= j < i ==> Evaluates(acts[j], p, targets[j], evidence(p, targets[j]), now)
      {
        ghost var s := View();
        ghost var act := EvaluateTarget(cfg, p, targets[i], evidence(p, targets[i]), now);
        JoinRuns(cfg, old(View()), acts, s, [act], View());
        acts := acts + [act];
      }
    }

    method EvaluatePolicies(cfg: Config, policies: seq<Policy>, supported: Policy -> bool, filters: Policy -> Filter,
                            workflows: string -> seq<Workflow>, evidence: (Policy, Target) -> Evidence, now: int)
      returns (ghost acts: seq<Action>)
      requires jobTime <= now
      modifies this`jobTime, service
      ensures Executes(cfg, old(View()), acts, View()) && jobTime <= now
      ensures Follows(acts, Agenda(policies, supported, TargetsFor(filters, workflows)), evidence, now)
    {
      acts := [];
      for i := 0 to |policies|
        invariant jobTime <= now && Executes(cfg, old(View()), acts, View())
        invariant Follows(acts, Agenda(policies[..i], supported, TargetsFor(filters, workflows)), evidence, now)
      {
        assert policies[..i + 1][..i] == policies[..i];
        if !supported(policies[i]) {
          continue;
        }
        ghost var s := View();
        var targets := BuildTargets(filters(policies[i]), workflows(policies[i].tenant));
        ghost var more := EvaluatePolicy(cfg, policies[i], targets, evidence, now);
        PolicyEvaluated(cfg, old(View()), acts, s, more, View(), Agenda(policies[..i], supported, TargetsFor(filters, workflows)),
                        policies[i], targets, evidence, now);
        acts := acts + more;
      }
      assert policies[..|policies|] == policies;
    }

    /** The whole job is a run of the incident table: each supported policy evaluates each of its targets once,
        in order, and then one breach pass runs. Where nothing has a baseline it opens and refreshes nothing. */
    method RunAnomalyDetectionJob(cfg: Config, policies: seq<Policy>, supported: Policy -> bool, filters: Policy -> Filter,
                                  workflows: string -> seq<Workflow>, evidence: (Policy, Target) -> Evidence, now: int)
      returns (ghost acts: seq<Action>)
      requires jobTime <= now
      modifies this`jobTime, service
      ensures Executes(cfg, old(View()), acts + BreachPass(now), View())
      ensures Follows(acts, Agenda(policies, supported, TargetsFor(filters, workflows)), evidence, now)
      ensures EvaluatesEach(acts, policies, supported, TargetsFor(filters, workflows), evidence, now)
      ensures OverdueIds(service.incidents, now) == {}
      ensures (forall p, tg :: NoBaseline(evidence(p, tg))) ==> NothingRaisedButBreaches(old(service.incidents), service.incidents)
    {
      acts := EvaluatePolicies(cfg, policies, supported, filters, workflows, evidence, now);
      ghost var s := View();
      TargetsOnce(filters, workflows);
      JobEnds(cfg, old(View()), acts, s, policies, supported, TargetsFor(filters, workflows), evidence, now);
      var _ := service.MarkBreachedSla(now);
    }
  }
}
