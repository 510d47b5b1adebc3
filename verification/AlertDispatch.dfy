/** Alert events and the dispatch workers that claim, send, retry and skip them, one database operation at a
    time, with the invariant they keep. */
module AlertDispatch {
  import opened Prelude

  datatype Config = Config(maxRetries: nat, backoffBaseSec: nat)

  datatype Kind = Pending | Claimed | Sent | Failed | Skipped

  // The row of one alert event. `claimedAt` and `retried` are read off its payload: when it was claimed,
  // and whether a retry names it as its previous event.
  datatype Alert = Alert(
    tenant: string,
    kind: Kind,
    attempt: nat,
    notBefore: Option<int>,
    previous: Option<nat>,
    claimedAt: Option<int>,
    retried: bool)

  // ----- backoff

  function Pow2(n: nat): (r: nat)
    ensures r >= 1
  {
    if n == 0 then 1 else 2 * Pow2(n - 1)
  }

  const BACKOFF_CAP_SEC: int := 3600

  function RetryBackoffSec(cfg: Config, nextAttempt: int): int {
    Max(cfg.backoffBaseSec, Min(cfg.backoffBaseSec * Pow2(Max(0, nextAttempt - 1)), BACKOFF_CAP_SEC))
  }

  // ----- competing workers

  type WorkerId = nat

  datatype Work = Sending(id: nat) | Reporting(id: nat)

  // `claims` lists the claims that succeeded, in order.
  datatype State = State(clock: int, alerts: seq<Alert>, busy: map<WorkerId, Work>, claims: seq<nat>)

  datatype Action =
    | Tick(to: int)
    | Raise(tenant: string)
    | Claim(w: WorkerId, id: nat)
    | Skip(id: nat)
    | Deliver(w: WorkerId)
    | DeliveryFails(w: WorkerId, now: int)
    | ReportFailed(w: WorkerId)
    | Crash(w: WorkerId)

  predicate Due(a: Alert, now: int) {
    a.notBefore.None? || a.notBefore.value <= now
  }

  predicate Enabled(s: State, a: Action) {
    match a
    case Tick(t) => s.clock <= t
    case Raise(_) => true
    case Claim(w, id) => w !in s.busy && id < |s.alerts| && Due(s.alerts[id], s.clock)
    case Skip(id) => id < |s.alerts|
    case Deliver(w) => w in s.busy && s.busy[w].Sending? && s.busy[w].id < |s.alerts|
    case DeliveryFails(w, now) =>
      w in s.busy && s.busy[w].Sending? && s.busy[w].id < |s.alerts| && now <= s.clock
      && (s.alerts[s.busy[w].id].claimedAt.Some? ==> s.alerts[s.busy[w].id].claimedAt.value <= now)
    case ReportFailed(w) => w in s.busy && s.busy[w].Reporting? && s.busy[w].id < |s.alerts|
    case Crash(w) => w in s.busy
  }

  function NewAlert(tenant: string): Alert {
    Alert(tenant, Pending, 0, None, None, None, false)
  }

  function RetryOf(cfg: Config, a: Alert, id: nat, now: int): Alert {
    Alert(a.tenant, Pending, a.attempt + 1, Some(now + 1000 * RetryBackoffSec(cfg, a.attempt + 1)), Some(id), None, false)
  }

  function Apply(cfg: Config, s: State, a: Action): State
    requires Enabled(s, a)
  {
    match a
    case Tick(t) => s.(clock := t)
    case Raise(tenant) => s.(alerts := s.alerts + [NewAlert(tenant)])
    case Claim(w, id) =>
      if s.alerts[id].kind.Pending? then
        s.(alerts := s.alerts[id := s.alerts[id].(kind := Claimed, claimedAt := Some(s.clock))],
           busy := s.busy[w := Sending(id)], claims := s.claims + [id])
      else s
    case Skip(id) =>
      if s.alerts[id].kind.Pending? then s.(alerts := s.alerts[id := s.alerts[id].(kind := Skipped)]) else s
    case Deliver(w) =>
      var id := s.busy[w].id;
      s.(alerts := s.alerts[id := s.alerts[id].(kind := Sent)], busy := s.busy - {w})
    case DeliveryFails(w, now) =>
      var id := s.busy[w].id;
      if s.alerts[id].attempt < cfg.maxRetries then
        s.(alerts := s.alerts[id := s.alerts[id].(retried := true)] + [RetryOf(cfg, s.alerts[id], id, now)],
           busy := s.busy[w := Reporting(id)])
      else s.(busy := s.busy[w := Reporting(id)])
    case ReportFailed(w) =>
      var id := s.busy[w].id;
      s.(alerts := s.alerts[id := s.alerts[id].(kind := Failed)], busy := s.busy - {w})
    case Crash(w) => s.(busy := s.busy - {w})
  }

  ghost predicate Executes(cfg: Config, s: State, acts: seq<Action>, t: State)
    decreases |acts|
  {
    if acts == [] then s == t
    else Enabled(s, acts[0]) && Executes(cfg, Apply(cfg, s, acts[0]), acts[1..], t)
  }

  function Init(clock: int): State {
    State(clock, [], map[], [])
  }

  // ----- the invariant

  predicate WasClaimed(a: Alert) {
    a.kind.Claimed? || a.kind.Sent? || a.kind.Failed?
  }

  predicate AlertOk(cfg: Config, a: Alert, clock: int) {
    && a.attempt <= cfg.maxRetries
    && (a.previous.None? <==> a.attempt == 0)
    && (a.claimedAt.Some? <==> WasClaimed(a))
    && (a.claimedAt.Some? ==> a.claimedAt.value <= clock && Due(a, a.claimedAt.value))
    && (a.retried ==> a.kind.Claimed? || a.kind.Failed?)
  }

  // A retry follows a claimed predecessor, one attempt later and a backoff after its claim.
  predicate LinkOk(cfg: Config, prev: Alert, a: Alert) {
    && prev.retried && a.attempt == prev.attempt + 1
    && a.notBefore.Some? && prev.claimedAt.Some?
    && a.notBefore.value >= prev.claimedAt.value + 1000 * RetryBackoffSec(cfg, a.attempt)
  }

  ghost predicate LinksOk(cfg: Config, alerts: seq<Alert>) {
    && (forall i :: 0 <= i < |alerts| && alerts[i].previous.Some? ==>
          alerts[i].previous.value < i && LinkOk(cfg, alerts[alerts[i].previous.value], alerts[i]))
    && (forall i, j :: 0 <= i < j < |alerts| && alerts[i].previous.Some? ==> alerts[i].previous != alerts[j].previous)
  }

  ghost predicate RowsOk(cfg: Config, alerts: seq<Alert>, clock: int) {
    forall i :: 0 <= i < |alerts| ==> AlertOk(cfg, alerts[i], clock)
  }

  ghost predicate WorkOk(alerts: seq<Alert>, busy: map<WorkerId, Work>) {
    && (forall w :: w in busy ==> busy[w].id < |alerts| && alerts[busy[w].id].kind.Claimed?)
    && (forall w :: w in busy && busy[w].Sending? ==> !alerts[busy[w].id].retried)
    && (forall w, v :: w in busy && v in busy && busy[w].id == busy[v].id ==> w == v)
  }

  ghost predicate ClaimsOk(alerts: seq<Alert>, claims: seq<nat>) {
    && (forall i :: 0 <= i < |claims| ==> claims[i] < |alerts| && WasClaimed(alerts[claims[i]]))
    && (forall i, j :: 0 <= i < j < |claims| ==> claims[i] != claims[j])
  }

  ghost predicate Inv(cfg: Config, s: State) {
    RowsOk(cfg, s.alerts, s.clock) && LinksOk(cfg, s.alerts) && WorkOk(s.alerts, s.busy) && ClaimsOk(s.alerts, s.claims)
  }

  // A row keeps its place in its chain through every later change.
  predicate SameLink(a: Alert, b: Alert) {
    && b.attempt == a.attempt && b.previous == a.previous && b.notBefore == a.notBefore
    && (a.retried ==> b.retried) && (a.claimedAt.Some? ==> b.claimedAt == a.claimedAt)
  }

  lemma LinksUpdate(cfg: Config, alerts: seq<Alert>, id: nat, b: Alert)
    requires LinksOk(cfg, alerts) && id < |alerts| && SameLink(alerts[id], b)
    ensures LinksOk(cfg, alerts[id := b])
  {
  }

  lemma LinksAppend(cfg: Config, alerts: seq<Alert>, a: Alert)
    requires LinksOk(cfg, alerts)
    requires a.previous.Some? ==> a.previous.value < |alerts| && LinkOk(cfg, alerts[a.previous.value], a)
    requires a.previous.Some? ==> forall i :: 0 <= i < |alerts| ==> alerts[i].previous != a.previous
    ensures LinksOk(cfg, alerts + [a])
  {
  }

  lemma UnretriedHasNoRetry(cfg: Config, alerts: seq<Alert>, id: nat)
    requires LinksOk(cfg, alerts) && id < |alerts| && !alerts[id].retried
    ensures forall i :: 0 <= i < |alerts| ==> alerts[i].previous != Some(id)
  {
  }

  // A claimed event changing hands or settling.
  lemma InvUpdate(cfg: Config, s: State, id: nat, b: Alert)
    requires Inv(cfg, s) && id < |s.alerts| && SameLink(s.alerts[id], b) && AlertOk(cfg, b, s.clock)
    ensures RowsOk(cfg, s.alerts[id := b], s.clock) && LinksOk(cfg, s.alerts[id := b])
    ensures WasClaimed(b) ==> ClaimsOk(s.alerts[id := b], s.claims)
    ensures s.alerts[id].kind.Pending? ==> ClaimsOk(s.alerts[id := b], s.claims) && id !in s.claims && WorkOk(s.alerts[id := b], s.busy)
  {
    LinksUpdate(cfg, s.alerts, id, b);
  }

  lemma {:induction false} InvRetry(cfg: Config, s: State, w: WorkerId, now: int)
    requires Inv(cfg, s) && Enabled(s, DeliveryFails(w, now))
    ensures Inv(cfg, Apply(cfg, s, DeliveryFails(w, now)))
  {
    var t := Apply(cfg, s, DeliveryFails(w, now));
    var id := s.busy[w].id;
    if s.alerts[id].attempt < cfg.maxRetries {
      var marked := s.alerts[id].(retried := true);
      assert AlertOk(cfg, s.alerts[id], s.clock);
      InvUpdate(cfg, s, id, marked);
      UnretriedHasNoRetry(cfg, s.alerts, id);
      var alerts := s.alerts[id := marked];
      var retry := RetryOf(cfg, s.alerts[id], id, now);
      assert LinkOk(cfg, marked, retry) && AlertOk(cfg, retry, s.clock);
      LinksAppend(cfg, alerts, retry);
      RetryKeepsWork(s, w, alerts, retry);
    }
  }

  lemma RetryKeepsWork(s: State, w: WorkerId, alerts: seq<Alert>, retry: Alert)
    requires WorkOk(s.alerts, s.busy) && ClaimsOk(alerts, s.claims) && w in s.busy
    requires alerts == s.alerts[s.busy[w].id := s.alerts[s.busy[w].id].(retried := true)]
    ensures WorkOk(alerts + [retry], s.busy[w := Reporting(s.busy[w].id)])
    ensures ClaimsOk(alerts + [retry], s.claims)
  {
  }

  lemma InvSettle(cfg: Config, s: State, w: WorkerId, kind: Kind)
    requires Inv(cfg, s) && w in s.busy && (kind.Sent? || kind.Failed?)
    requires kind.Sent? ==> s.busy[w].Sending?
    ensures var id := s.busy[w].id;
      Inv(cfg, s.(alerts := s.alerts[id := s.alerts[id].(kind := kind)], busy := s.busy - {w}))
  {
    var id := s.busy[w].id;
    assert AlertOk(cfg, s.alerts[id], s.clock);
    InvUpdate(cfg, s, id, s.alerts[id].(kind := kind));
  }

  lemma InvRaise(cfg: Config, s: State, tenant: string)
    requires Inv(cfg, s)
    ensures Inv(cfg, s.(alerts := s.alerts + [NewAlert(tenant)]))
  {
  }

  lemma ClaimedRow(cfg: Config, s: State, w: WorkerId, id: nat)
    requires Inv(cfg, s) && Enabled(s, Claim(w, id)) && s.alerts[id].kind.Pending?
    ensures var b := s.alerts[id].(kind := Claimed, claimedAt := Some(s.clock));
      SameLink(s.alerts[id], b) && AlertOk(cfg, b, s.clock)
  {
    assert AlertOk(cfg, s.alerts[id], s.clock);
  }

  lemma ClaimedWork(alerts: seq<Alert>, busy: map<WorkerId, Work>, claims: seq<nat>, w: WorkerId, id: nat)
    requires WorkOk(alerts, busy) && ClaimsOk(alerts, claims) && id < |alerts| && alerts[id].kind.Claimed? && id !in claims
    requires w !in busy && !alerts[id].retried && forall v :: v in busy ==> busy[v].id != id
    ensures WorkOk(alerts, busy[w := Sending(id)]) && ClaimsOk(alerts, claims + [id])
  {
  }

  lemma {:induction false} InvClaim(cfg: Config, s: State, w: WorkerId, id: nat)
    requires Inv(cfg, s) && Enabled(s, Claim(w, id))
    ensures Inv(cfg, Apply(cfg, s, Claim(w, id)))
  {
    if s.alerts[id].kind.Pending? {
      var b := s.alerts[id].(kind := Claimed, claimedAt := Some(s.clock));
      ClaimedRow(cfg, s, w, id);
      InvUpdate(cfg, s, id, b);
      ClaimedWork(s.alerts[id := b], s.busy, s.claims, w, id);
    }
  }

  lemma InvSkip(cfg: Config, s: State, id: nat)
    requires Inv(cfg, s) && Enabled(s, Skip(id))
    ensures Inv(cfg, Apply(cfg, s, Skip(id)))
  {
    if s.alerts[id].kind.Pending? {
      assert AlertOk(cfg, s.alerts[id], s.clock);
      InvUpdate(cfg, s, id, s.alerts[id].(kind := Skipped));
    }
  }

  lemma {:induction false} InvStep(cfg: Config, s: State, a: Action)
    requires Inv(cfg, s) && Enabled(s, a)
    ensures Inv(cfg, Apply(cfg, s, a))
  {
    match a
    case Raise(tenant) => InvRaise(cfg, s, tenant);
    case Claim(w, id) => InvClaim(cfg, s, w, id);
    case Skip(id) => InvSkip(cfg, s, id);
    case Deliver(w) => InvSettle(cfg, s, w, Sent);
    case DeliveryFails(w, now) => InvRetry(cfg, s, w, now);
    case ReportFailed(w) => InvSettle(cfg, s, w, Failed);
    case _ =>
  }

  lemma {:induction false} InvAlways(cfg: Config, s: State, acts: seq<Action>, t: State)
    requires Inv(cfg, s) && Executes(cfg, s, acts, t)
    ensures Inv(cfg, t)
    decreases |acts|
  {
    if acts != [] {
      InvStep(cfg, s, acts[0]);
      InvAlways(cfg, Apply(cfg, s, acts[0]), acts[1..], t);
    }
  }

  // ----- work left

  /** Deliveries an event may still cause, itself included. */
  function Weight(cfg: Config, a: Alert): nat {
    if a.kind.Pending? || (a.kind.Claimed? && !a.retried) then Max(0, cfg.maxRetries + 1 - a.attempt) else 0
  }

  function WorkLeft(cfg: Config, alerts: seq<Alert>): nat {
    if alerts == [] then 0 else WorkLeft(cfg, alerts[..|alerts| - 1]) + Weight(cfg, alerts[|alerts| - 1])
  }

  lemma {:induction false} WorkLeftUpdate(cfg: Config, alerts: seq<Alert>, i: nat, a: Alert)
    requires i < |alerts|
    ensures WorkLeft(cfg, alerts[i := a]) == WorkLeft(cfg, alerts) - Weight(cfg, alerts[i]) + Weight(cfg, a)
  {
    var n := |alerts| - 1;
    if i == n {
      assert alerts[i := a][..n] == alerts[..n];
    } else {
      assert alerts[i := a][..n] == alerts[..n][i := a];
      WorkLeftUpdate(cfg, alerts[..n], i, a);
    }
  }

  lemma {:induction false} WorkLeftAppend(cfg: Config, alerts: seq<Alert>, a: Alert)
    ensures WorkLeft(cfg, alerts + [a]) == WorkLeft(cfg, alerts) + Weight(cfg, a)
  {
    assert (alerts + [a])[..|alerts|] == alerts;
  }

  lemma {:induction false} WorkLeftRetry(cfg: Config, alerts: seq<Alert>, id: nat, now: int)
    requires id < |alerts| && alerts[id].kind.Claimed? && !alerts[id].retried && alerts[id].attempt < cfg.maxRetries
    ensures WorkLeft(cfg, alerts[id := alerts[id].(retried := true)] + [RetryOf(cfg, alerts[id], id, now)]) == WorkLeft(cfg, alerts) - 1
  {
    var marked := alerts[id := alerts[id].(retried := true)];
    WorkLeftUpdate(cfg, alerts, id, marked[id]);
    WorkLeftAppend(cfg, marked, RetryOf(cfg, alerts[id], id, now));
  }

  // An event that is settled takes the whole of its weight away.
  lemma WorkLeftSettle(cfg: Config, alerts: seq<Alert>, id: nat, kind: Kind)
    requires id < |alerts| && alerts[id].attempt <= cfg.maxRetries && (kind.Skipped? || kind.Sent? || kind.Failed?)
    ensures WorkLeft(cfg, alerts[id := alerts[id].(kind := kind)]) == WorkLeft(cfg, alerts) - Weight(cfg, alerts[id])
    ensures alerts[id].kind.Pending? || (alerts[id].kind.Claimed? && !alerts[id].retried) ==> Weight(cfg, alerts[id]) > 0
  {
    WorkLeftUpdate(cfg, alerts, id, alerts[id].(kind := kind));
  }

  lemma WorkLeftClaim(cfg: Config, alerts: seq<Alert>, id: nat, clock: int)
    requires id < |alerts| && alerts[id].kind.Pending?
    ensures WorkLeft(cfg, alerts[id := alerts[id].(kind := Claimed, claimedAt := Some(clock))]) <= WorkLeft(cfg, alerts)
  {
    WorkLeftUpdate(cfg, alerts, id, alerts[id].(kind := Claimed, claimedAt := Some(clock)));
  }

  lemma {:induction false} WorkLeftRaise(cfg: Config, alerts: seq<Alert>, tenant: string)
    ensures WorkLeft(cfg, alerts + [NewAlert(tenant)]) == WorkLeft(cfg, alerts) + cfg.maxRetries + 1
  {
    WorkLeftAppend(cfg, alerts, NewAlert(tenant));
  }
}
