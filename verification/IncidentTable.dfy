/** The incident table under all its writers: policy evaluations, the bridge, people, and passes that mark
    breached service levels, interleaved in any order. */
module IncidentTable {
  import opened Prelude
  import opened Incidents
  import opened AnomalyPolicies

  // A breach pass first lists overdue incidents, then marks them, then appends their events.
  datatype Pass = Found(ids: set<nat>, at: int) | Marked(ids: set<nat>)

  datatype State = State(incidents: seq<Incident>, jobTime: int, passes: map<nat, Pass>)

  datatype Action =
    | Trigger(p: Policy, tg: Target, bucket: Option<int>, now: int, found: Option<nat>, latest: Option<nat>)
    | Clear(p: Policy, tg: Target, now: int)
    | Ack(k: nat)
    | Resolve(k: nat, now: int)
    | BridgeWrite(tenant: string, id: Option<nat>, severity: Severity, fp: Fingerprint, lastSeenAt: int, now: int)
    | BridgeResolve(tenant: string, k: nat, resolvedAt: int)
    | FindBreached(w: nat, now: int)
    | MarkBreached(w: nat)
    | LogBreached(w: nat)
    | AbandonPass(w: nat)

  predicate Overdue(i: Incident, now: int) {
    i.Active() && i.slaDueAt <= now && i.slaBreachedAt.None?
  }

  function OverdueIds(incidents: seq<Incident>, now: int): set<nat> {
    set k | 0 <= k < |incidents| && Overdue(incidents[k], now)
  }

  /** Every row marked, whatever has become of it since it was listed. */
  function MarkedRows(incidents: seq<Incident>, ids: set<nat>, at: int): (r: seq<Incident>)
    ensures |r| == |incidents|
    ensures forall k :: 0 <= k < |r| ==> r[k] == if k in ids then incidents[k].(slaBreachedAt := Some(at)) else incidents[k]
  {
    seq(|incidents|, k requires 0 <= k < |incidents| => if k in ids then incidents[k].(slaBreachedAt := Some(at)) else incidents[k])
  }

  function LoggedRows(incidents: seq<Incident>, ids: set<nat>): (r: seq<Incident>)
    ensures |r| == |incidents|
    ensures forall k :: 0 <= k < |r| ==> r[k] == if k in ids then incidents[k].(breaches := incidents[k].breaches + 1) else incidents[k]
  {
    seq(|incidents|, k requires 0 <= k < |incidents| => if k in ids then incidents[k].(breaches := incidents[k].breaches + 1) else incidents[k])
  }

  /** Job times never run backwards, and the bridge writes only to incidents that no policy opened. */
  ghost predicate Enabled(s: State, a: Action) {
    match a
    case Trigger(p, tg, bucket, now, found, latest) =>
      && s.jobTime <= now
      && IsExisting(s.incidents, p, tg, PolicyFingerprint(p, tg, bucket, now), found)
      && (found.None? ==> IsLatestResolved(s.incidents, p, tg, latest))
    case Clear(_, _, now) => s.jobTime <= now
    case Ack(k) => k < |s.incidents|
    case Resolve(k, _) => k < |s.incidents|
    case BridgeWrite(_, id, _, fp, _, _) =>
      !fp.OfPolicy? && (id.Some? && id.value < |s.incidents| ==> s.incidents[id.value].policy.None?)
    case BridgeResolve(_, k, _) => k < |s.incidents| ==> s.incidents[k].policy.None?
    case FindBreached(w, _) => w !in s.passes
    case MarkBreached(w) => w in s.passes && s.passes[w].Found?
    case LogBreached(w) => w in s.passes && s.passes[w].Marked?
    case AbandonPass(w) => w in s.passes
  }

  ghost function Apply(cfg: Config, s: State, a: Action): State
    requires Enabled(s, a)
  {
    match a
    case Trigger(p, tg, bucket, now, found, latest) =>
      s.(incidents := Triggered(cfg, s.incidents, p, tg, bucket, now, found, latest), jobTime := now)
    case Clear(p, tg, now) => s.(incidents := Cleared(s.incidents, p, tg, now), jobTime := now)
    case Ack(k) => s.(incidents := s.incidents[k := AckedBy(s.incidents[k])])
    case Resolve(k, now) => s.(incidents := s.incidents[k := ResolvedManually(s.incidents[k], now)])
    case BridgeWrite(tenant, id, severity, fp, lastSeenAt, now) =>
      s.(incidents := OpenOrRefresh(s.incidents, tenant, id, severity, fp, lastSeenAt, now).0)
    case BridgeResolve(tenant, k, resolvedAt) => s.(incidents := ResolveThroughBridge(s.incidents, tenant, k, resolvedAt).0)
    case FindBreached(w, now) => s.(passes := s.passes[w := Found(OverdueIds(s.incidents, now), now)])
    case MarkBreached(w) =>
      s.(incidents := MarkedRows(s.incidents, s.passes[w].ids, s.passes[w].at), passes := s.passes[w := Marked(s.passes[w].ids)])
    case LogBreached(w) => s.(incidents := LoggedRows(s.incidents, s.passes[w].ids), passes := s.passes - {w})
    case AbandonPass(w) => s.(passes := s.passes - {w})
  }

  ghost predicate Executes(cfg: Config, s: State, acts: seq<Action>, t: State)
    decreases |acts|
  {
    if acts == [] then s == t
    else Enabled(s, acts[0]) && Executes(cfg, Apply(cfg, s, acts[0]), acts[1..], t)
  }

  function Start(time: int): State {
    State([], time, map[])
  }

  // ----- what holds of every row

  /** The deadline always follows from the start and the severity, and the fingerprint tells who opened the row. */
  predicate DeadlineOk(i: Incident) {
    i.slaDueAt == SlaDueAt(i.startedAt, i.severity) && (i.policy.Some? <==> i.fingerprint.OfPolicy?)
  }

  /** A policy's incident has had one alert for its opening, one if it is critical, and one for each
      re-notify interval up to the last throttled alert. */
  predicate ThrottleOk(i: Incident, jobTime: int) {
    i.policy.Some? ==>
      && i.details.lastAlertAt.Some?
      && i.startedAt <= i.details.lastAlertAt.value <= i.lastSeenAt <= jobTime
      && i.alerts <= (if i.severity.Critical? then 2 else 1) + (i.details.lastAlertAt.value - i.startedAt) / RENOTIFY_MS
  }

  predicate BreachTimeOk(i: Incident) {
    i.policy.Some? && i.slaBreachedAt.Some? ==> i.slaDueAt <= i.slaBreachedAt.value
  }

  predicate RowOk(i: Incident, jobTime: int) {
    DeadlineOk(i) && ThrottleOk(i, jobTime) && BreachTimeOk(i)
  }

  lemma RefreshedRowOk(cfg: Config, i: Incident, p: Policy, jobTime: int, now: int)
    requires RowOk(i, jobTime) && i.policy.Some? && jobTime <= now
    ensures var r := PolicyRefreshed(cfg, i, p, now);
      RowOk(r, now) && r.slaDueAt <= i.slaDueAt && r.breaches == i.breaches && r.slaBreachedAt == i.slaBreachedAt && r.policy == i.policy
  {
  }

  // What a write may do to a row without touching what a breach pass relies on.
  predicate GentleTo(i: Incident, r: Incident) {
    && r.policy == i.policy && r.breaches == i.breaches && r.slaBreachedAt == i.slaBreachedAt
    && (i.policy.Some? ==> r.slaDueAt <= i.slaDueAt)
  }

  // A step that treats the rows it finds gently and appends rows as good as new.
  ghost predicate GentleStep(s: State, t: State) {
    && |s.incidents| <= |t.incidents|
    && (forall k :: 0 <= k < |s.incidents| ==> GentleTo(s.incidents[k], t.incidents[k]))
    && (forall k :: |s.incidents| <= k < |t.incidents| ==> t.incidents[k].slaBreachedAt.None? && t.incidents[k].breaches == 0)
  }

  ghost predicate RowsOk(s: State) {
    forall k :: 0 <= k < |s.incidents| ==> RowOk(s.incidents[k], s.jobTime)
  }

  ghost predicate PassTimesOk(s: State) {
    forall w :: w in s.passes ==>
      forall k :: k in s.passes[w].ids ==>
        k < |s.incidents| && (s.passes[w].Found? && s.incidents[k].policy.Some? ==> s.incidents[k].slaDueAt <= s.passes[w].at)
  }

  ghost predicate Inv(s: State) {
    RowsOk(s) && PassTimesOk(s)
  }

  lemma RefreshStep(cfg: Config, s: State, a: Action)
    requires RowsOk(s) && a.Trigger? && a.found.Some? && Enabled(s, a)
    ensures RowsOk(Apply(cfg, s, a)) && GentleStep(s, Apply(cfg, s, a))
  {
    var i := s.incidents[a.found.value];
    assert RowOk(i, s.jobTime);
    if i.policy.Some? {
      RefreshedRowOk(cfg, i, a.p, s.jobTime, a.now);
    }
  }

  lemma OpenStep(cfg: Config, s: State, a: Action)
    requires RowsOk(s) && a.Trigger? && a.found.None? && Enabled(s, a)
    ensures RowsOk(Apply(cfg, s, a)) && GentleStep(s, Apply(cfg, s, a))
  {
    var t := Apply(cfg, s, a);
    forall k | 0 <= k < |s.incidents| ensures RowOk(t.incidents[k], a.now) && GentleTo(s.incidents[k], t.incidents[k]) {
      assert RowOk(s.incidents[k], s.jobTime);
    }
  }

  lemma TriggerStep(cfg: Config, s: State, a: Action)
    requires RowsOk(s) && a.Trigger? && Enabled(s, a)
    ensures RowsOk(Apply(cfg, s, a)) && GentleStep(s, Apply(cfg, s, a))
  {
    if a.found.Some? {
      RefreshStep(cfg, s, a);
    } else {
      OpenStep(cfg, s, a);
    }
  }

  lemma BridgeStep(cfg: Config, s: State, a: Action)
    requires RowsOk(s) && (a.BridgeWrite? || a.BridgeResolve?) && Enabled(s, a)
    ensures RowsOk(Apply(cfg, s, a)) && GentleStep(s, Apply(cfg, s, a))
  {
    if a.BridgeWrite? {
      var target := BridgeTarget(s.incidents, a.tenant, a.id, a.fp);
      if target.Some? {
        assert RowOk(s.incidents[target.value], s.jobTime);
      }
    }
  }

  lemma RowStep(cfg: Config, s: State, a: Action)
    requires RowsOk(s) && (a.Clear? || a.Ack? || a.Resolve?) && Enabled(s, a)
    ensures RowsOk(Apply(cfg, s, a)) && GentleStep(s, Apply(cfg, s, a))
  {
    var t := Apply(cfg, s, a);
    forall k | 0 <= k < |s.incidents| ensures RowOk(t.incidents[k], t.jobTime) && GentleTo(s.incidents[k], t.incidents[k]) {
      assert RowOk(s.incidents[k], s.jobTime);
    }
  }

  lemma MarkedRowOk(i: Incident, at: int, jobTime: int)
    requires RowOk(i, jobTime) && (i.policy.Some? ==> i.slaDueAt <= at)
    ensures RowOk(i.(slaBreachedAt := Some(at)), jobTime)
  {
  }

  lemma MarkedRowsOk(s: State, ids: set<nat>, at: int)
    requires RowsOk(s) && forall k :: k in ids ==> k < |s.incidents| && (s.incidents[k].policy.Some? ==> s.incidents[k].slaDueAt <= at)
    ensures forall k :: 0 <= k < |s.incidents| ==> RowOk(MarkedRows(s.incidents, ids, at)[k], s.jobTime)
  {
    forall k | 0 <= k < |s.incidents| ensures RowOk(MarkedRows(s.incidents, ids, at)[k], s.jobTime) {
      assert RowOk(s.incidents[k], s.jobTime);
      if k in ids {
        MarkedRowOk(s.incidents[k], at, s.jobTime);
      }
    }
  }

  lemma LoggedRowOk(i: Incident, jobTime: int)
    requires RowOk(i, jobTime)
    ensures RowOk(i.(breaches := i.breaches + 1), jobTime)
  {
  }

  lemma {:induction false} LoggedRowsOk(s: State, ids: set<nat>)
    requires RowsOk(s)
    ensures forall k :: 0 <= k < |s.incidents| ==> RowOk(LoggedRows(s.incidents, ids)[k], s.jobTime)
  {
    var rows := LoggedRows(s.incidents, ids);
    forall k | 0 <= k < |s.incidents| ensures RowOk(rows[k], s.jobTime) {
      var i := s.incidents[k];
      assert RowOk(i, s.jobTime);
      LoggedRowOk(i, s.jobTime);
      assert rows[k] == i || rows[k] == i.(breaches := i.breaches + 1);
    }
  }

  lemma PassStep(cfg: Config, s: State, a: Action)
    requires Inv(s) && (a.FindBreached? || a.MarkBreached? || a.LogBreached? || a.AbandonPass?) && Enabled(s, a)
    ensures Inv(Apply(cfg, s, a))
  {
    match a
    case FindBreached(w, now) =>
      var t := Apply(cfg, s, a);
      assert forall k :: k in t.passes[w].ids ==> k < |s.incidents| && Overdue(s.incidents[k], now);
    case MarkBreached(w) =>
      MarkedRowsOk(s, s.passes[w].ids, s.passes[w].at);
    case LogBreached(w) =>
      LoggedRowsOk(s, s.passes[w].ids);
    case AbandonPass(w) =>
  }

  predicate Gentle(a: Action) {
    a.Trigger? || a.BridgeWrite? || a.BridgeResolve? || a.Clear? || a.Ack? || a.Resolve?
  }

  lemma {:induction false} GentleActionStep(cfg: Config, s: State, a: Action)
    requires RowsOk(s) && Gentle(a) && Enabled(s, a)
    ensures RowsOk(Apply(cfg, s, a)) && GentleStep(s, Apply(cfg, s, a)) && Apply(cfg, s, a).passes == s.passes
  {
    if a.Trigger? {
      TriggerStep(cfg, s, a);
    } else if a.BridgeWrite? || a.BridgeResolve? {
      BridgeStep(cfg, s, a);
    } else {
      RowStep(cfg, s, a);
    }
  }

  lemma {:induction false} InvStep(cfg: Config, s: State, a: Action)
    requires Inv(s) && Enabled(s, a)
    ensures Inv(Apply(cfg, s, a))
  {
    if Gentle(a) {
      GentleActionStep(cfg, s, a);
    } else {
      PassStep(cfg, s, a);
    }
  }

  lemma {:induction false} InvAlways(cfg: Config, s: State, acts: seq<Action>, t: State)
    requires Inv(s) && Executes(cfg, s, acts, t)
    ensures Inv(t)
    decreases |acts|
  {
    if acts != [] {
      InvStep(cfg, s, acts[0]);
      InvAlways(cfg, Apply(cfg, s, acts[0]), acts[1..], t);
    }
  }

  lemma TailOfJoin(xs: seq<Action>, ys: seq<Action>)
    ensures xs == [] ==> xs + ys == ys
    ensures xs != [] ==> xs + ys != [] && (xs + ys)[0] == xs[0] && (xs + ys)[1..] == xs[1..] + ys
  {
  }

  lemma {:induction false} JoinRuns(cfg: Config, s: State, xs: seq<Action>, m: State, ys: seq<Action>, t: State)
    requires Executes(cfg, s, xs, m) && Executes(cfg, m, ys, t)
    ensures Executes(cfg, s, xs + ys, t)
    decreases |xs|
  {
    TailOfJoin(xs, ys);
    if xs != [] {
      JoinRuns(cfg, Apply(cfg, s, xs[0]), xs[1..], m, ys, t);
    }
  }
}
