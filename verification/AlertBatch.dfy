/** One dispatch batch, as a loop over the pending alerts it read at its start. */
module AlertBatch {
  import opened Prelude
  import opened AlertDispatch

  const FREE_BASIC_EMAIL_MAX_EVENTS_PER_BATCH: nat := 10

  // What a tenant's plan allows: full alerting, entitled or not, or basic mail to some recipients.
  datatype Access = Full(entitled: bool) | Basic(recipients: nat)

  /** The first pending alerts, oldest first: one is passed over only if the limit was reached by older ones. */
  function PendingIds(alerts: seq<Alert>, limit: nat): (ids: seq<nat>)
    ensures |ids| <= limit
    ensures forall i :: 0 <= i < |ids| ==> ids[i] < |alerts| && alerts[ids[i]].kind.Pending?
    ensures forall i, j :: 0 <= i < j < |ids| ==> ids[i] < ids[j]
    ensures forall n :: 0 <= n < |alerts| && alerts[n].kind.Pending? && n !in ids ==>
      |ids| == limit && forall i :: 0 <= i < |ids| ==> ids[i] < n
  {
    if alerts == [] then []
    else
      var n := |alerts| - 1;
      var ids := PendingIds(alerts[..n], limit);
      if alerts[n].kind.Pending? && |ids| < limit then ids + [n] else ids
  }

  /** The pending alerts older than this one. */
  ghost function OlderPending(alerts: seq<Alert>, n: nat): set<nat> {
    set m | 0 <= m < |alerts| && m < n && alerts[m].kind.Pending?
  }

  ghost function IdSet(ids: seq<nat>): set<nat> {
    set id | id in ids
  }

  lemma OneMoreId(ids: seq<nat>, id: nat)
    ensures IdSet(ids + [id]) == IdSet(ids) + {id}
  {
  }

  lemma {:induction false} IncreasingSize(ids: seq<nat>)
    requires forall i, j :: 0 <= i < j < |ids| ==> ids[i] < ids[j]
    ensures |IdSet(ids)| == |ids|
  {
    if ids != [] {
      var last, before := ids[|ids| - 1], ids[..|ids| - 1];
      IncreasingSize(before);
      OneMoreId(before, last);
      assert ids == before + [last];
      forall id | id in before ensures id < last {
      }
    }
  }

  lemma SubsetSize(a: set<nat>, b: set<nat>)
    requires a <= b
    ensures |a| <= |b|
  {
    if a != b {
      assert b == a + (b - a);
    }
  }

  /** A pending alert with fewer older ones than the limit is among those read. */
  lemma OldestAreRead(alerts: seq<Alert>, limit: nat, n: nat)
    requires n < |alerts| && alerts[n].kind.Pending? && |OlderPending(alerts, n)| < limit
    ensures n in PendingIds(alerts, limit)
  {
    var ids := PendingIds(alerts, limit);
    if n !in ids {
      IncreasingSize(ids);
      assert IdSet(ids) <= OlderPending(alerts, n);
      SubsetSize(IdSet(ids), OlderPending(alerts, n));
    }
  }

  /** How many of the listed alerts of a tenant have been claimed. */
  function ClaimedOf(alerts: seq<Alert>, ids: seq<nat>, tenant: string): nat
    requires forall i :: 0 <= i < |ids| ==> ids[i] < |alerts|
  {
    if ids == [] then 0
    else
      var last := alerts[ids[|ids| - 1]];
      ClaimedOf(alerts, ids[..|ids| - 1], tenant) + (if last.tenant == tenant && WasClaimed(last) then 1 else 0)
  }

  lemma {:induction false} ClaimedOfFrame(before: seq<Alert>, after: seq<Alert>, ids: seq<nat>, tenant: string)
    requires forall i :: 0 <= i < |ids| ==> ids[i] < |before| && ids[i] < |after| && after[ids[i]] == before[ids[i]]
    ensures ClaimedOf(after, ids, tenant) == ClaimedOf(before, ids, tenant)
  {
    if ids != [] {
      ClaimedOfFrame(before, after, ids[..|ids| - 1], tenant);
    }
  }

  lemma {:induction false} ClaimedOfNext(before: seq<Alert>, after: seq<Alert>, ids: seq<nat>, k: nat, tenant: string)
    requires k < |ids| && forall i :: 0 <= i <= k ==> ids[i] < |before| && ids[i] < |after|
    requires forall i :: 0 <= i < k ==> after[ids[i]] == before[ids[i]]
    ensures ClaimedOf(after, ids[..k + 1], tenant)
         == ClaimedOf(before, ids[..k], tenant) + (if after[ids[k]].tenant == tenant && WasClaimed(after[ids[k]]) then 1 else 0)
  {
    assert ids[..k + 1][..k] == ids[..k];
    ClaimedOfFrame(before, after, ids[..k], tenant);
  }

  function CountOf(counts: map<string, nat>, tenant: string): nat {
    if tenant in counts then counts[tenant] else 0
  }

  // ----- what the loop does to one alert

  datatype Verdict = Leave | Skipping | Dispatching(allOk: bool)

  /** The decision for one pending alert, given how many basic mails its tenant has had in this batch. */
  function Judge(a: Alert, clock: int, access: Access, basicCount: nat, allOk: bool): Verdict {
    if access == Full(false) || access == Basic(0) then Skipping
    else if access.Basic? && basicCount >= FREE_BASIC_EMAIL_MAX_EVENTS_PER_BATCH then Skipping
    else if !Due(a, clock) then Leave
    else Dispatching(allOk)
  }

  /** The alert rows after one pending alert has been handled. */
  function Handled(cfg: Config, clock: int, alerts: seq<Alert>, id: nat, v: Verdict): seq<Alert>
    requires id < |alerts|
  {
    var a := alerts[id];
    match v
    case Leave => alerts
    case Skipping => alerts[id := a.(kind := Skipped)]
    case Dispatching(allOk) =>
      if allOk then alerts[id := a.(kind := Sent, claimedAt := Some(clock))]
      else if a.attempt < cfg.maxRetries then
        alerts[id := a.(kind := Failed, claimedAt := Some(clock), retried := true)] + [RetryOf(cfg, a, id, clock)]
      else alerts[id := a.(kind := Failed, claimedAt := Some(clock))]
  }

  /** The protocol steps behind it, by a worker that was idle. */
  function StepsFor(clock: int, id: nat, v: Verdict): seq<Action> {
    match v
    case Leave => []
    case Skipping => [Skip(id)]
    case Dispatching(allOk) => if allOk then [Claim(0, id), Deliver(0)] else [Claim(0, id), DeliveryFails(0, clock), ReportFailed(0)]
  }

  function ClaimsFor(id: nat, v: Verdict): seq<nat> {
    if v.Dispatching? then [id] else []
  }

  lemma FailedRun(cfg: Config, s: State, id: nat)
    requires s.busy == map[] && id < |s.alerts| && s.alerts[id].kind.Pending? && Due(s.alerts[id], s.clock)
    ensures Executes(cfg, s, [Claim(0, id), DeliveryFails(0, s.clock), ReportFailed(0)],
      State(s.clock, Handled(cfg, s.clock, s.alerts, id, Dispatching(false)), map[], s.claims + [id]))
  {
    var s1 := Apply(cfg, s, Claim(0, id));
    var s2 := Apply(cfg, s1, DeliveryFails(0, s.clock));
    var s3 := Apply(cfg, s2, ReportFailed(0));
    assert s3.busy == map[];
    assert s3.alerts == Handled(cfg, s.clock, s.alerts, id, Dispatching(false));
    assert [Claim(0, id), DeliveryFails(0, s.clock), ReportFailed(0)][1..] == [DeliveryFails(0, s.clock), ReportFailed(0)];
    assert [DeliveryFails(0, s.clock), ReportFailed(0)][1..] == [ReportFailed(0)];
    assert Executes(cfg, s2, [ReportFailed(0)], s3);
    assert Executes(cfg, s1, [DeliveryFails(0, s.clock), ReportFailed(0)], s3);
  }

  /** Handling one alert alone is a run of the dispatch protocol. */
  lemma HandledIsRun(cfg: Config, s: State, id: nat, v: Verdict)
    requires s.busy == map[] && id < |s.alerts| && s.alerts[id].kind.Pending?
    requires v.Dispatching? ==> Due(s.alerts[id], s.clock)
    ensures Executes(cfg, s, StepsFor(s.clock, id, v), State(s.clock, Handled(cfg, s.clock, s.alerts, id, v), map[], s.claims + ClaimsFor(id, v)))
  {
    match v
    case Leave => assert s.claims + [] == s.claims;
    case Skipping =>
      assert s.claims + [] == s.claims;
      assert [Skip(id)][1..] == [];
    case Dispatching(allOk) =>
      if allOk {
      } else {
        FailedRun(cfg, s, id);
      }
  }

  lemma {:induction false} JoinRuns(cfg: Config, s: State, xs: seq<Action>, m: State, ys: seq<Action>, t: State)
    requires Executes(cfg, s, xs, m) && Executes(cfg, m, ys, t)
    ensures Executes(cfg, s, xs + ys, t)
    decreases |xs|
  {
    if xs == [] {
      assert xs + ys == ys;
    } else {
      assert (xs + ys)[1..] == xs[1..] + ys;
      JoinRuns(cfg, Apply(cfg, s, xs[0]), xs[1..], m, ys, t);
    }
  }

  /** What becomes of one alert that a batch read, after so many of its tenant's had been claimed before it. */
  predicate Outcome(first: Alert, last: Alert, clock: int, access: Access, claimed: nat, ok: bool) {
    if access == Full(false) || access == Basic(0) || (access.Basic? && claimed >= FREE_BASIC_EMAIL_MAX_EVENTS_PER_BATCH)
    then last == first.(kind := Skipped)
    else if first.notBefore.Some? && clock < first.notBefore.value then last == first
    else last.tenant == first.tenant && last.kind == (if ok then Sent else Failed) && last.claimedAt == Some(clock)
  }

  /** A retry of the alert, scheduled for when its backoff will have run, among the rows from this one on. */
  ghost predicate RetryScheduled(cfg: Config, alerts: seq<Alert>, id: nat, clock: int, from: nat)
    requires id < |alerts|
  {
    exists r :: from <= r < |alerts| && alerts[r].previous == Some(id) && alerts[r].kind.Pending? && alerts[r].tenant == alerts[id].tenant
                && alerts[r].attempt == alerts[id].attempt + 1
                && alerts[r].notBefore == Some(clock + 1000 * RetryBackoffSec(cfg, alerts[id].attempt + 1))
  }

  ghost predicate AmongFirst(first: seq<Alert>, ids: seq<nat>) {
    (forall i :: 0 <= i < |ids| ==> ids[i] < |first|) && (forall i, j :: 0 <= i < j < |ids| ==> ids[i] < ids[j])
  }

  ghost predicate OutcomeAt(cfg: Config, clock: int, first: seq<Alert>, alerts: seq<Alert>, ids: seq<nat>, i: nat,
                            access: string -> Access, allOk: nat -> bool)
    requires AmongFirst(first, ids) && |first| <= |alerts| && i < |ids|
  {
    var id, tenant := ids[i], first[ids[i]].tenant;
    && Outcome(first[id], alerts[id], clock, access(tenant), ClaimedOf(alerts, ids[..i], tenant), allOk(id))
    && (alerts[id].kind.Failed? && alerts[id].attempt < cfg.maxRetries ==> RetryScheduled(cfg, alerts, id, clock, |first|))
  }

  /** The first k alerts of a batch have come to what plan, cap and due time say; and those that failed with
      attempts left will be retried. */
  ghost predicate Outcomes(cfg: Config, clock: int, first: seq<Alert>, alerts: seq<Alert>, ids: seq<nat>, k: nat,
                           access: string -> Access, allOk: nat -> bool)
  {
    && k <= |ids| && |first| <= |alerts| && AmongFirst(first, ids)
    && (forall i :: 0 <= i < k ==> OutcomeAt(cfg, clock, first, alerts, ids, i, access, allOk))
  }

  lemma HandledOutcome(cfg: Config, clock: int, before: seq<Alert>, id: nat, access: Access, claimed: nat, ok: bool, from: nat)
    requires id < |before| && from <= |before| && before[id].kind.Pending?
    ensures var after := Handled(cfg, clock, before, id, Judge(before[id], clock, access, claimed, ok));
      && Outcome(before[id], after[id], clock, access, claimed, ok)
      && (after[id].kind.Failed? && after[id].attempt < cfg.maxRetries ==> RetryScheduled(cfg, after, id, clock, from))
  {
    var after := Handled(cfg, clock, before, id, Judge(before[id], clock, access, claimed, ok));
    if after[id].kind.Failed? && after[id].attempt < cfg.maxRetries {
      assert after[|before|].previous == Some(id);
    }
  }

  // An alert handled earlier is not touched again.
  lemma OutcomeStays(cfg: Config, clock: int, first: seq<Alert>, before: seq<Alert>, after: seq<Alert>, ids: seq<nat>, i: nat, k: nat,
                     access: string -> Access, allOk: nat -> bool)
    requires AmongFirst(first, ids) && |first| <= |before| <= |after| && i < k < |ids|
    requires forall r :: 0 <= r < |before| && r != ids[k] ==> after[r] == before[r]
    requires OutcomeAt(cfg, clock, first, before, ids, i, access, allOk)
    ensures OutcomeAt(cfg, clock, first, after, ids, i, access, allOk)
  {
    ClaimedOfFrame(before, after, ids[..i], first[ids[i]].tenant);
    if after[ids[i]].kind.Failed? && after[ids[i]].attempt < cfg.maxRetries {
      RetryStays(cfg, clock, before, after, ids[i], |first|);
    }
  }

  lemma OutcomeReached(cfg: Config, clock: int, first: seq<Alert>, before: seq<Alert>, ids: seq<nat>, k: nat,
                       access: string -> Access, allOk: nat -> bool, claimed: nat)
    requires AmongFirst(first, ids) && |first| <= |before| && k < |ids|
    requires before[ids[k]] == first[ids[k]] && before[ids[k]].kind.Pending?
    requires access(before[ids[k]].tenant).Basic? ==> claimed == ClaimedOf(before, ids[..k], before[ids[k]].tenant)
    ensures var v := Judge(before[ids[k]], clock, access(before[ids[k]].tenant), claimed, allOk(ids[k]));
      OutcomeAt(cfg, clock, first, Handled(cfg, clock, before, ids[k], v), ids, k, access, allOk)
  {
    var id := ids[k];
    var v := Judge(before[id], clock, access(before[id].tenant), claimed, allOk(id));
    HandledOutcome(cfg, clock, before, id, access(before[id].tenant), claimed, allOk(id), |first|);
    ClaimedOfFrame(before, Handled(cfg, clock, before, id, v), ids[..k], first[id].tenant);
  }

  lemma OutcomesStep(cfg: Config, clock: int, first: seq<Alert>, before: seq<Alert>, ids: seq<nat>, k: nat,
                     access: string -> Access, allOk: nat -> bool, claimed: nat)
    requires Outcomes(cfg, clock, first, before, ids, k, access, allOk) && k < |ids|
    requires before[ids[k]] == first[ids[k]] && before[ids[k]].kind.Pending?
    requires access(before[ids[k]].tenant).Basic? ==> claimed == ClaimedOf(before, ids[..k], before[ids[k]].tenant)
    ensures var v := Judge(before[ids[k]], clock, access(before[ids[k]].tenant), claimed, allOk(ids[k]));
      Outcomes(cfg, clock, first, Handled(cfg, clock, before, ids[k], v), ids, k + 1, access, allOk)
  {
    var v := Judge(before[ids[k]], clock, access(before[ids[k]].tenant), claimed, allOk(ids[k]));
    OutcomeReached(cfg, clock, first, before, ids, k, access, allOk, claimed);
    forall i | 0 <= i < k ensures OutcomeAt(cfg, clock, first, Handled(cfg, clock, before, ids[k], v), ids, i, access, allOk) {
      OutcomeStays(cfg, clock, first, before, Handled(cfg, clock, before, ids[k], v), ids, i, k, access, allOk);
    }
  }

  lemma RetryStays(cfg: Config, clock: int, before: seq<Alert>, after: seq<Alert>, id: nat, from: nat)
    requires id < |before| <= |after| && after[id] == before[id] && RetryScheduled(cfg, before, id, clock, from)
    requires forall r :: from <= r < |before| ==> after[r] == before[r]
    ensures RetryScheduled(cfg, after, id, clock, from)
  {
    var r :| from <= r < |before| && before[r].previous == Some(id) && before[r].kind.Pending? && before[r].tenant == before[id].tenant
             && before[r].attempt == before[id].attempt + 1
             && before[r].notBefore == Some(clock + 1000 * RetryBackoffSec(cfg, before[id].attempt + 1));
    assert after[r] == before[r];
  }

  // Where a batch stands after its first k alerts: those settled if due, the rest as read, and the
  // counts of basic mails equal to the claims made.
  ghost predicate Progress(clock: int, first: seq<Alert>, alerts: seq<Alert>, ids: seq<nat>, k: nat,
                           access: string -> Access, counts: map<string, nat>)
  {
    && k <= |ids| && |alerts| >= |first|
    && (forall i :: 0 <= i < |ids| ==> ids[i] < |first| && first[ids[i]].kind.Pending?)
    && (forall i, j :: 0 <= i < j < |ids| ==> ids[i] < ids[j])
    && (forall i :: k <= i < |ids| ==> alerts[ids[i]] == first[ids[i]])
    && (forall id :: 0 <= id < |first| && id !in ids ==> alerts[id] == first[id])
    && (forall i :: 0 <= i < k ==> alerts[ids[i]].kind.Pending? ==> !Due(alerts[ids[i]], clock))
    && (forall tenant :: access(tenant).Basic? ==>
          ClaimedOf(alerts, ids[..k], tenant) == CountOf(counts, tenant) <= FREE_BASIC_EMAIL_MAX_EVENTS_PER_BATCH)
    && (forall tenant :: access(tenant) == Full(false) || access(tenant) == Basic(0) ==> ClaimedOf(alerts, ids[..k], tenant) == 0)
  }

  /** What a batch leaves behind: of the alerts it read, none still pending is due; the others are as
      they were; and no tenant had more claimed than its plan allows. */
  ghost predicate BatchDone(clock: int, first: seq<Alert>, alerts: seq<Alert>, ids: seq<nat>, access: string -> Access) {
    && |alerts| >= |first|
    && (forall i :: 0 <= i < |ids| ==> ids[i] < |alerts| && (alerts[ids[i]].kind.Pending? ==> !Due(alerts[ids[i]], clock)))
    && (forall id :: 0 <= id < |first| && id !in ids ==> alerts[id] == first[id])
    && (forall tenant :: access(tenant).Basic? ==> ClaimedOf(alerts, ids, tenant) <= FREE_BASIC_EMAIL_MAX_EVENTS_PER_BATCH)
    && (forall tenant :: access(tenant) == Full(false) || access(tenant) == Basic(0) ==> ClaimedOf(alerts, ids, tenant) == 0)
  }

  lemma ProgressDone(clock: int, first: seq<Alert>, alerts: seq<Alert>, ids: seq<nat>, access: string -> Access, counts: map<string, nat>)
    requires Progress(clock, first, alerts, ids, |ids|, access, counts)
    ensures BatchDone(clock, first, alerts, ids, access)
  {
    assert ids[..|ids|] == ids;
  }

  ghost function AllPending(alerts: seq<Alert>): set<nat> {
    set m | 0 <= m < |alerts| && alerts[m].kind.Pending?
  }

  /** None of the alerts there at the start that had fewer older ones pending than the limit still waits to be
      sent; so with no more pending than the limit, none at all does. */
  ghost predicate NoneLeftDue(clock: int, first: seq<Alert>, alerts: seq<Alert>, limit: nat) {
    && |first| <= |alerts|
    && (forall n :: 0 <= n < |first| && first[n].kind.Pending? && |OlderPending(first, n)| < limit ==>
          alerts[n].kind.Pending? ==> !Due(alerts[n], clock))
    && (|AllPending(first)| <= limit ==> forall n :: 0 <= n < |first| ==> alerts[n].kind.Pending? ==> !Due(alerts[n], clock))
  }

  lemma BatchLeavesNoneDue(clock: int, first: seq<Alert>, alerts: seq<Alert>, limit: nat, access: string -> Access)
    requires BatchDone(clock, first, alerts, PendingIds(first, limit), access)
    ensures NoneLeftDue(clock, first, alerts, limit)
  {
    forall n | 0 <= n < |first| && first[n].kind.Pending? && |OlderPending(first, n)| < limit
      ensures alerts[n].kind.Pending? ==> !Due(alerts[n], clock)
    {
      OldestAreRead(first, limit, n);
    }
    if |AllPending(first)| <= limit {
      forall n | 0 <= n < |first| ensures alerts[n].kind.Pending? ==> !Due(alerts[n], clock) {
        if first[n].kind.Pending? {
          SubsetSize(OlderPending(first, n) + {n}, AllPending(first));
        } else {
          assert n !in PendingIds(first, limit);
        }
      }
    }
  }

  lemma ExtendRun(cfg: Config, s: State, acts: seq<Action>, m: State, id: nat, v: Verdict)
    requires Executes(cfg, s, acts, m)
    requires m.busy == map[] && id < |m.alerts| && m.alerts[id].kind.Pending?
    requires v.Dispatching? ==> Due(m.alerts[id], m.clock)
    ensures Executes(cfg, s, acts + StepsFor(m.clock, id, v),
      State(m.clock, Handled(cfg, m.clock, m.alerts, id, v), map[], m.claims + ClaimsFor(id, v)))
  {
    HandledIsRun(cfg, m, id, v);
    JoinRuns(cfg, s, acts, m, StepsFor(m.clock, id, v),
      State(m.clock, Handled(cfg, m.clock, m.alerts, id, v), map[], m.claims + ClaimsFor(id, v)));
  }

  lemma HandledTouchesOne(cfg: Config, clock: int, before: seq<Alert>, id: nat, v: Verdict)
    requires id < |before| && before[id].kind.Pending?
    ensures var after := Handled(cfg, clock, before, id, v);
      && |before| <= |after| && after[id].tenant == before[id].tenant && (WasClaimed(after[id]) <==> v.Dispatching?)
      && forall i :: 0 <= i < |before| && i != id ==> after[i] == before[i]
  {
  }

  lemma ProgressStep(cfg: Config, clock: int, first: seq<Alert>, before: seq<Alert>, ids: seq<nat>, k: nat,
                     access: string -> Access, counts: map<string, nat>, allOk: bool)
    requires Progress(clock, first, before, ids, k, access, counts) && k < |ids|
    ensures var tenant := before[ids[k]].tenant;
      var v := Judge(before[ids[k]], clock, access(tenant), CountOf(counts, tenant), allOk);
      var counts' := if access(tenant).Basic? && v.Dispatching? then counts[tenant := CountOf(counts, tenant) + 1] else counts;
      Progress(clock, first, Handled(cfg, clock, before, ids[k], v), ids, k + 1, access, counts')
  {
    var id := ids[k];
    var tenant := before[id].tenant;
    var v := Judge(before[id], clock, access(tenant), CountOf(counts, tenant), allOk);
    HandledTouchesOne(cfg, clock, before, id, v);
    forall t: string
      ensures ClaimedOf(Handled(cfg, clock, before, id, v), ids[..k + 1], t)
           == ClaimedOf(before, ids[..k], t) + (if t == tenant && v.Dispatching? then 1 else 0)
    {
      ClaimedOfNext(before, Handled(cfg, clock, before, id, v), ids, k, t);
    }
  }

  // One turn of the loop, on the rows.
  lemma TurnKeeps(cfg: Config, clock: int, first: seq<Alert>, before: seq<Alert>, ids: seq<nat>, k: nat,
                  access: string -> Access, counts: map<string, nat>, allOk: nat -> bool)
    requires k < |ids| && Progress(clock, first, before, ids, k, access, counts)
    requires Outcomes(cfg, clock, first, before, ids, k, access, allOk)
    ensures var tenant := before[ids[k]].tenant;
      var v := Judge(before[ids[k]], clock, access(tenant), CountOf(counts, tenant), allOk(ids[k]));
      var counts' := if access(tenant).Basic? && v.Dispatching? then counts[tenant := CountOf(counts, tenant) + 1] else counts;
      && Progress(clock, first, Handled(cfg, clock, before, ids[k], v), ids, k + 1, access, counts')
      && Outcomes(cfg, clock, first, Handled(cfg, clock, before, ids[k], v), ids, k + 1, access, allOk)
  {
    ProgressStep(cfg, clock, first, before, ids, k, access, counts, allOk(ids[k]));
    OutcomesStep(cfg, clock, first, before, ids, k, access, allOk, CountOf(counts, before[ids[k]].tenant));
  }

  class Dispatcher {
    var clock: int
    var alerts: seq<Alert>
    ghost var claims: seq<nat>

    // No worker is busy between batches of a dispatcher that runs alone.
    ghost function View(): State
      reads this
    {
      State(clock, alerts, map[], claims)
    }

    constructor (clock: int)
      ensures View() == Init(clock)
    {
      this.clock := clock;
      alerts, claims := [], [];
    }

    /** Claims one due alert and delivers it: sent, or failed with a retry scheduled if any is left. */
    method DispatchOne(cfg: Config, id: nat, allOk: bool)
      requires id < |alerts| && alerts[id].kind.Pending? && Due(alerts[id], clock)
      modifies this`alerts, this`claims
      ensures alerts == Handled(cfg, clock, old(alerts), id, Dispatching(allOk)) && claims == old(claims) + [id]
    {
      var pending := alerts[id];
      alerts := alerts[id := pending.(kind := Claimed, claimedAt := Some(clock))];
      claims := claims + [id];
      if allOk {
        alerts := alerts[id := alerts[id].(kind := Sent)];
        return;
      }
      if pending.attempt < cfg.maxRetries {
        var retry := RetryOf(cfg, pending, id, clock);
        alerts := alerts[id := alerts[id].(retried := true)] + [retry];
      }
      alerts := alerts[id := alerts[id].(kind := Failed)];
    }

    method SkipForPlan(cfg: Config, id: nat)
      requires id < |alerts| && alerts[id].kind.Pending?
      modifies this`alerts
      ensures alerts == Handled(cfg, clock, old(alerts), id, Skipping)
    {
      alerts := alerts[id := alerts[id].(kind := Skipped)];
    }

    /** Decides one pending alert of the batch and carries the decision out. */
    method HandlePending(cfg: Config, id: nat, access: Access, basicCount: nat, allOk: bool)
      requires id < |alerts| && alerts[id].kind.Pending?
      modifies this`alerts, this`claims
      ensures var v := Judge(old(alerts)[id], clock, access, basicCount, allOk);
        alerts == Handled(cfg, clock, old(alerts), id, v) && claims == old(claims) + ClaimsFor(id, v)
    {
      if access == Full(false) || access == Basic(0) {
        SkipForPlan(cfg, id);
      } else if access.Basic? && basicCount >= FREE_BASIC_EMAIL_MAX_EVENTS_PER_BATCH {
        SkipForPlan(cfg, id);
      } else if Due(alerts[id], clock) {
        DispatchOne(cfg, id, allOk);
      }
    }

    /** One turn of the batch loop: the alert is decided, and the tenant's basic mails are counted. */
    method TakeTurn(cfg: Config, ids: seq<nat>, k: nat, access: string -> Access, allOk: nat -> bool, counts: map<string, nat>,
                    ghost first: seq<Alert>, ghost start: State, ghost acts: seq<Action>)
      returns (counts': map<string, nat>, ghost acts': seq<Action>)
      requires Progress(clock, first, alerts, ids, k, access, counts) && k < |ids|
      requires Executes(cfg, start, acts, View()) && Outcomes(cfg, clock, first, alerts, ids, k, access, allOk)
      modifies this`alerts, this`claims
      ensures Executes(cfg, start, acts', View())
      ensures Progress(clock, first, alerts, ids, k + 1, access, counts')
      ensures Outcomes(cfg, clock, first, alerts, ids, k + 1, access, allOk)
    {
      ghost var before := View();
      var tenant := alerts[ids[k]].tenant;
      TurnKeeps(cfg, clock, first, alerts, ids, k, access, counts, allOk);
      var verdict := Judge(alerts[ids[k]], clock, access(tenant), CountOf(counts, tenant), allOk(ids[k]));
      HandlePending(cfg, ids[k], access(tenant), CountOf(counts, tenant), allOk(ids[k]));
      counts' := if access(tenant).Basic? && verdict.Dispatching? then counts[tenant := CountOf(counts, tenant) + 1] else counts;
      ExtendRun(cfg, start, acts, before, ids[k], verdict);
      acts' := acts + StepsFor(clock, ids[k], verdict);
    }

    /** A batch that runs alone is a run of the dispatch protocol; it brings each of the oldest pending alerts, up
        to the limit, to what plan, cap and due time say, so that none of them is left due; and it claims at most
        ten for a tenant on basic mail and none for one not entitled. */
    method DispatchPendingAlertEvents(cfg: Config, limit: nat, access: string -> Access, allOk: nat -> bool)
      returns (ghost acts: seq<Action>)
      modifies this`alerts, this`claims
      ensures Executes(cfg, old(View()), acts, View())
      ensures BatchDone(clock, old(alerts), alerts, PendingIds(old(alerts), limit), access)
      ensures Outcomes(cfg, clock, old(alerts), alerts, PendingIds(old(alerts), limit), |PendingIds(old(alerts), limit)|, access, allOk)
      ensures NoneLeftDue(clock, old(alerts), alerts, limit)
    {
      var ids := PendingIds(alerts, limit);
      ghost var start := View();
      ghost var first := alerts;
      var basicCounts: map<string, nat> := map[];
      acts := [];
      for k := 0 to |ids|
        invariant Executes(cfg, start, acts, View())
        invariant Progress(clock, first, alerts, ids, k, access, basicCounts)
        invariant Outcomes(cfg, clock, first, alerts, ids, k, access, allOk)
      {
        basicCounts, acts := TakeTurn(cfg, ids, k, access, allOk, basicCounts, first, start, acts);
      }
      ProgressDone(clock, first, alerts, ids, access, basicCounts);
      BatchLeavesNoneDue(clock, first, alerts, limit, access);
    }
  }
}
