/** What any number of dispatch workers guarantee. */
module AlertGuarantees {
  import opened Prelude
  import opened AlertDispatch

  // ----- backoff

  lemma {:induction false} Pow2Grows(m: nat, n: nat)
    requires m <= n
    ensures Pow2(m) <= Pow2(n)
  {
    if m < n {
      Pow2Grows(m, n - 1);
    }
  }

  /** Waits never shrink from one attempt to the next, start at the base, double until the one-hour cap,
      and exceed the cap only if the base does. */
  lemma {:induction false} BackoffShape(cfg: Config, m: nat, n: nat)
    requires 1 <= m <= n
    ensures cfg.backoffBaseSec <= RetryBackoffSec(cfg, m) <= RetryBackoffSec(cfg, n) <= Max(cfg.backoffBaseSec, BACKOFF_CAP_SEC)
    ensures RetryBackoffSec(cfg, 1) == cfg.backoffBaseSec
    ensures cfg.backoffBaseSec <= BACKOFF_CAP_SEC ==>
      RetryBackoffSec(cfg, n + 1) == Min(2 * RetryBackoffSec(cfg, n), BACKOFF_CAP_SEC)
  {
    Pow2Grows(m - 1, n - 1);
    Pow2Grows(0, m - 1);
    Pow2Grows(0, n - 1);
    ScaleGrows(cfg.backoffBaseSec, Pow2(m - 1), Pow2(n - 1));
    ScaleGrows(cfg.backoffBaseSec, 1, Pow2(m - 1));
    ScaleGrows(cfg.backoffBaseSec, 1, Pow2(n - 1));
    DoubleScale(cfg.backoffBaseSec, Pow2(n - 1));
  }

  lemma ScaleGrows(b: nat, x: nat, y: nat)
    requires x <= y
    ensures b * x <= b * y
  {
  }

  lemma DoubleScale(b: nat, x: nat)
    ensures b * (2 * x) == 2 * (b * x)
  {
  }

  // ----- what follows for any number of concurrent workers

  /** No alert event is claimed twice. */
  lemma ClaimedAtMostOnce(cfg: Config, clock: int, acts: seq<Action>, t: State)
    requires Executes(cfg, Init(clock), acts, t)
    ensures forall i, j :: 0 <= i < j < |t.claims| ==> t.claims[i] != t.claims[j]
    ensures forall w, v :: w in t.busy && v in t.busy && t.busy[w].id == t.busy[v].id ==> w == v
  {
    InvAlways(cfg, Init(clock), acts, t);
  }

  predicate CanBecome(k: Kind, l: Kind) {
    k == l || k.Pending? || (k.Claimed? && (l.Sent? || l.Failed?))
  }

  ghost predicate KindsForward(before: seq<Alert>, after: seq<Alert>) {
    |before| <= |after| && forall i :: 0 <= i < |before| ==> CanBecome(before[i].kind, after[i].kind)
  }

  lemma KindsStep(cfg: Config, s: State, a: Action)
    requires WorkOk(s.alerts, s.busy) && Enabled(s, a)
    ensures KindsForward(s.alerts, Apply(cfg, s, a).alerts)
  {
  }

  lemma KindsCompose(before: seq<Alert>, mid: seq<Alert>, after: seq<Alert>)
    requires KindsForward(before, mid) && KindsForward(mid, after)
    ensures KindsForward(before, after)
  {
  }

  /** Event types only move from pending to claimed to sent or failed, or from pending to skipped, and
      rows are never removed. */
  lemma {:induction false} KindsMoveForward(cfg: Config, s: State, acts: seq<Action>, t: State)
    requires Inv(cfg, s) && Executes(cfg, s, acts, t)
    ensures KindsForward(s.alerts, t.alerts)
    decreases |acts|
  {
    if acts != [] {
      var m := Apply(cfg, s, acts[0]);
      InvStep(cfg, s, acts[0]);
      KindsStep(cfg, s, acts[0]);
      KindsMoveForward(cfg, m, acts[1..], t);
      KindsCompose(s.alerts, m.alerts, t.alerts);
    }
  }

  /** The alert a retry chain goes back to. */
  function RootOf(alerts: seq<Alert>, id: nat): nat
    decreases id
  {
    if id < |alerts| && alerts[id].previous.Some? && alerts[id].previous.value < id
    then RootOf(alerts, alerts[id].previous.value) else id
  }

  ghost function Chain(alerts: seq<Alert>, root: nat): set<nat> {
    set i | 0 <= i < |alerts| && RootOf(alerts, i) == root
  }

  lemma {:induction false} OneMemberPerAttempt(cfg: Config, s: State, i: nat, j: nat)
    requires Inv(cfg, s) && i < |s.alerts| && j < |s.alerts|
    requires RootOf(s.alerts, i) == RootOf(s.alerts, j) && s.alerts[i].attempt == s.alerts[j].attempt
    ensures i == j
    decreases i
  {
    assert AlertOk(cfg, s.alerts[i], s.clock) && AlertOk(cfg, s.alerts[j], s.clock);
    if s.alerts[i].attempt > 0 {
      var p, q := s.alerts[i].previous.value, s.alerts[j].previous.value;
      assert LinkOk(cfg, s.alerts[p], s.alerts[i]) && LinkOk(cfg, s.alerts[q], s.alerts[j]);
      OneMemberPerAttempt(cfg, s, p, q);
    }
  }

  lemma {:induction false} DistinctBelow(n: nat, ids: set<nat>, rank: map<nat, nat>)
    requires forall i :: i in ids ==> i in rank && rank[i] < n
    requires forall i, j :: i in ids && j in ids && rank[i] == rank[j] ==> i == j
    ensures |ids| <= n
    decreases n
  {
    if ids != {} {
      var i :| i in ids;
      assert n > 0;
      var top := set j | j in ids && rank[j] == n - 1;
      var rest := ids - top;
      assert ids == rest + top;
      if top == {} {
        assert rest == ids;
      } else {
        var k :| k in top;
        assert top == {k};
      }
      DistinctBelow(n - 1, rest, rank);
    }
  }

  /** A root alert and all its retries number at most MAX_RETRIES + 1. */
  lemma ChainBounded(cfg: Config, clock: int, acts: seq<Action>, t: State, root: nat)
    requires Executes(cfg, Init(clock), acts, t)
    ensures |Chain(t.alerts, root)| <= cfg.maxRetries + 1
  {
    InvAlways(cfg, Init(clock), acts, t);
    var rank := map i | 0 <= i < |t.alerts| :: t.alerts[i].attempt;
    forall i | i in Chain(t.alerts, root) ensures rank[i] < cfg.maxRetries + 1 {
      assert AlertOk(cfg, t.alerts[i], t.clock);
    }
    forall i, j | i in Chain(t.alerts, root) && j in Chain(t.alerts, root) && rank[i] == rank[j] ensures i == j {
      OneMemberPerAttempt(cfg, t, i, j);
    }
    DistinctBelow(cfg.maxRetries + 1, Chain(t.alerts, root), rank);
  }

  /** The waits a chain owes before its `attempt`-th retry may be claimed. */
  function TotalBackoffSec(cfg: Config, attempt: nat): int {
    if attempt == 0 then 0 else TotalBackoffSec(cfg, attempt - 1) + RetryBackoffSec(cfg, attempt)
  }

  lemma {:induction false} ChainSpaced(cfg: Config, s: State, id: nat)
    requires Inv(cfg, s) && id < |s.alerts| && s.alerts[id].claimedAt.Some?
    ensures var r := RootOf(s.alerts, id);
      r < |s.alerts| && s.alerts[r].claimedAt.Some?
      && s.alerts[id].claimedAt.value >= s.alerts[r].claimedAt.value + 1000 * TotalBackoffSec(cfg, s.alerts[id].attempt)
    decreases id
  {
    assert AlertOk(cfg, s.alerts[id], s.clock);
    if s.alerts[id].previous.Some? {
      var p := s.alerts[id].previous.value;
      assert LinkOk(cfg, s.alerts[p], s.alerts[id]);
      ChainSpaced(cfg, s, p);
    }
  }

  /** No retry is claimed before every backoff since its root was claimed has run its full length. */
  lemma RetriesWaitTheirTurn(cfg: Config, clock: int, acts: seq<Action>, t: State, id: nat)
    requires Executes(cfg, Init(clock), acts, t) && id < |t.alerts| && WasClaimed(t.alerts[id])
    ensures t.alerts[id].claimedAt.Some?
    ensures var r := RootOf(t.alerts, id);
      r < |t.alerts| && t.alerts[r].claimedAt.Some?
      && t.alerts[id].claimedAt.value >= t.alerts[r].claimedAt.value + 1000 * TotalBackoffSec(cfg, t.alerts[id].attempt)
  {
    InvAlways(cfg, Init(clock), acts, t);
    assert AlertOk(cfg, t.alerts[id], t.clock);
    ChainSpaced(cfg, t, id);
  }

  // ----- every retry's time comes

  /** An alert once raised waits to be claimed, and may be at once. */
  lemma RaisedIsDue(cfg: Config, s: State, tenant: string, at: int)
    ensures var t := Apply(cfg, s, Raise(tenant));
      |t.alerts| == |s.alerts| + 1 && t.alerts[..|s.alerts|] == s.alerts
      && var a := t.alerts[|s.alerts|]; a.kind.Pending? && a.tenant == tenant && a.attempt == 0 && a.previous.None? && Due(a, at)
  {
  }

  /** A delivery that fails with attempts left leaves one pending retry, which is due exactly once its backoff,
      counted from the failure, has run. */
  lemma FailureSchedulesRetry(cfg: Config, s: State, w: WorkerId, now: int)
    requires Enabled(s, DeliveryFails(w, now)) && s.alerts[s.busy[w].id].attempt < cfg.maxRetries
    ensures var t := Apply(cfg, s, DeliveryFails(w, now));
      var failed, retry := s.alerts[s.busy[w].id], t.alerts[|t.alerts| - 1];
      && |t.alerts| == |s.alerts| + 1 && retry.kind.Pending? && retry.tenant == failed.tenant
      && retry.attempt == failed.attempt + 1 && retry.previous == Some(s.busy[w].id)
      && forall at :: Due(retry, at) <==> now + 1000 * RetryBackoffSec(cfg, failed.attempt + 1) <= at
  {
  }

  // No alert has to wait for longer than the longest backoff.
  ghost predicate WaitsBounded(cfg: Config, s: State) {
    forall i :: 0 <= i < |s.alerts| && s.alerts[i].notBefore.Some? ==>
      s.alerts[i].notBefore.value <= s.clock + 1000 * Max(cfg.backoffBaseSec, 3600)
  }

  lemma WaitsStep(cfg: Config, s: State, a: Action)
    requires WaitsBounded(cfg, s) && Enabled(s, a)
    ensures WaitsBounded(cfg, Apply(cfg, s, a))
  {
    if a.DeliveryFails? {
      BackoffShape(cfg, s.alerts[s.busy[a.w].id].attempt + 1, s.alerts[s.busy[a.w].id].attempt + 1);
    }
  }

  lemma {:induction false} WaitsAlways(cfg: Config, s: State, acts: seq<Action>, t: State)
    requires WaitsBounded(cfg, s) && Executes(cfg, s, acts, t)
    ensures WaitsBounded(cfg, t)
    decreases |acts|
  {
    if acts != [] {
      WaitsStep(cfg, s, acts[0]);
      WaitsAlways(cfg, Apply(cfg, s, acts[0]), acts[1..], t);
    }
  }

  /** In every run, whatever is pending is due an hour from now at the latest, or the base backoff if that is longer. */
  lemma RetriesBecomeDue(cfg: Config, clock: int, acts: seq<Action>, t: State, id: nat, at: int)
    requires Executes(cfg, Init(clock), acts, t) && id < |t.alerts| && t.clock + 1000 * Max(cfg.backoffBaseSec, 3600) <= at
    ensures Due(t.alerts[id], at)
  {
    WaitsAlways(cfg, Init(clock), acts, t);
  }

  // ----- work left

  /** The step that settles an event: skipping it, sending it, scheduling its retry, or reporting the
      failure of its last attempt. */
  predicate Settles(cfg: Config, s: State, a: Action)
    requires Enabled(s, a)
  {
    match a
    case Skip(id) => s.alerts[id].kind.Pending?
    case Deliver(_) => true
    case DeliveryFails(w, _) => s.alerts[s.busy[w].id].attempt < cfg.maxRetries
    case ReportFailed(w) => !s.alerts[s.busy[w].id].retried
    case _ => false
  }

  lemma WorkLeftStep(cfg: Config, s: State, a: Action)
    requires Inv(cfg, s) && Enabled(s, a)
    ensures WorkLeft(cfg, Apply(cfg, s, a).alerts) + (if Settles(cfg, s, a) then 1 else 0)
         <= WorkLeft(cfg, s.alerts) + (if a.Raise? then cfg.maxRetries + 1 else 0)
  {
    match a
    case Raise(tenant) => WorkLeftRaise(cfg, s.alerts, tenant);
    case Claim(_, id) =>
      if s.alerts[id].kind.Pending? {
        WorkLeftClaim(cfg, s.alerts, id, s.clock);
      }
    case Skip(id) =>
      assert AlertOk(cfg, s.alerts[id], s.clock);
      WorkLeftSettle(cfg, s.alerts, id, Skipped);
    case Deliver(w) =>
      assert AlertOk(cfg, s.alerts[s.busy[w].id], s.clock);
      WorkLeftSettle(cfg, s.alerts, s.busy[w].id, Sent);
    case DeliveryFails(w, now) =>
      if s.alerts[s.busy[w].id].attempt < cfg.maxRetries {
        WorkLeftRetry(cfg, s.alerts, s.busy[w].id, now);
      }
    case ReportFailed(w) =>
      assert AlertOk(cfg, s.alerts[s.busy[w].id], s.clock);
      WorkLeftSettle(cfg, s.alerts, s.busy[w].id, Failed);
    case _ =>
  }

  ghost function Settled(cfg: Config, s: State, acts: seq<Action>, t: State): nat
    requires Executes(cfg, s, acts, t)
    decreases |acts|
  {
    if acts == [] then 0
    else (if Settles(cfg, s, acts[0]) then 1 else 0) + Settled(cfg, Apply(cfg, s, acts[0]), acts[1..], t)
  }

  function Raised(acts: seq<Action>): nat {
    if acts == [] then 0 else (if acts[0].Raise? then 1 else 0) + Raised(acts[1..])
  }

  // The work that the raised alerts bring in.
  function WorkRaised(cfg: Config, acts: seq<Action>): nat {
    if acts == [] then 0 else (if acts[0].Raise? then cfg.maxRetries + 1 else 0) + WorkRaised(cfg, acts[1..])
  }

  lemma {:induction false} SettledWithinWork(cfg: Config, s: State, acts: seq<Action>, t: State)
    requires Inv(cfg, s) && Executes(cfg, s, acts, t)
    ensures Settled(cfg, s, acts, t) + WorkLeft(cfg, t.alerts) <= WorkLeft(cfg, s.alerts) + WorkRaised(cfg, acts)
    decreases |acts|
  {
    if acts != [] {
      WorkLeftStep(cfg, s, acts[0]);
      InvStep(cfg, s, acts[0]);
      SettledWithinWork(cfg, Apply(cfg, s, acts[0]), acts[1..], t);
    }
  }

  lemma {:induction false} WorkRaisedIsProduct(cfg: Config, acts: seq<Action>)
    ensures WorkRaised(cfg, acts) == (cfg.maxRetries + 1) * Raised(acts)
  {
    if acts != [] {
      WorkRaisedIsProduct(cfg, acts[1..]);
      AddTimes(cfg.maxRetries + 1, if acts[0].Raise? then 1 else 0, Raised(acts[1..]));
    }
  }

  /** Every completed dispatch or skip uses up work, and only raising an alert adds any: over a run the
      settled events never exceed the work there was plus MAX_RETRIES + 1 for each alert raised. */
  lemma {:induction false} SettlementsBounded(cfg: Config, s: State, acts: seq<Action>, t: State)
    requires Inv(cfg, s) && Executes(cfg, s, acts, t)
    ensures Settled(cfg, s, acts, t) + WorkLeft(cfg, t.alerts) <= WorkLeft(cfg, s.alerts) + (cfg.maxRetries + 1) * Raised(acts)
  {
    SettledWithinWork(cfg, s, acts, t);
    WorkRaisedIsProduct(cfg, acts);
  }

  lemma AddTimes(k: nat, x: nat, y: nat)
    ensures k * (x + y) == k * x + k * y && k * 1 == k && k * 0 == 0
  {
  }
}
