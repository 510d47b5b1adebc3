/** The renewal heartbeat around a leased run: when does the lease never lapse? */
module LeaseHeartbeat {
  import opened Prelude
  import WL = WorkerLease

  // ----- settings

  const DEFAULT_LEASE_DURATION_MS: int := 90_000
  const DEFAULT_RENEW_INTERVAL_MS: int := 30_000

  // A configured value as the environment yields it: absent or not a number, or a number.
  function AsPositiveInt(configured: Option<real>, fallback: int): int {
    match configured
    case None => fallback
    case Some(x) => if x <= 0.0 then fallback else x.Floor
  }

  datatype Settings = Settings(leaseDurationMs: int, renewIntervalMs: int)

  function LeaseSettings(durationEnv: Option<real>, renewEnv: Option<real>): Settings {
    var leaseDurationMs := AsPositiveInt(durationEnv, DEFAULT_LEASE_DURATION_MS);
    var configured := AsPositiveInt(renewEnv, DEFAULT_RENEW_INTERVAL_MS);
    Settings(leaseDurationMs, Min(configured, Max(1_000, leaseDurationMs / 2)))
  }

  /** The period of the renewal timer. */
  function TimerPeriod(s: Settings): int {
    Max(1_000, s.renewIntervalMs)
  }

  // ----- the session in time

  // One session on its lease row, with an exact timer of period `every` and operations that take at
  // most `latency` from reading the clock to completion. A renewal in flight has read the clock at
  // `started`; `outcome` is set once it has taken effect in the database.
  datatype Renewal = Renewal(started: int, outcome: Option<bool>)

  datatype Session = Session(
    lease: int,
    every: int,
    latency: int,
    token: WL.Token,
    clock: int,
    row: WL.Row,
    nextTick: int,
    inFlight: Option<Renewal>,
    lost: bool)

  datatype Action =
    | Wait(ms: nat)
    | TimerTick
    | RenewalTakesEffect
    | RenewalSettles
    | RivalAcquires(rival: WL.Token, now: int, durationMs: int)
    | RivalRenews(rival: WL.Token, now: int, durationMs: int)
    | RivalReleases(rival: WL.Token, now: int, completed: bool)
    | StageMark(now: int, success: bool)

  /** Timers fire on time and operations finish within their latency: the clock waits for neither. */
  predicate Enabled(s: Session, a: Action) {
    match a
    case Wait(ms) => s.clock + ms <= s.nextTick && (s.inFlight.Some? ==> s.clock + ms <= s.inFlight.value.started + s.latency)
    case TimerTick => s.clock == s.nextTick
    case RenewalTakesEffect => s.inFlight.Some? && s.inFlight.value.outcome.None?
    case RenewalSettles => s.inFlight.Some? && s.inFlight.value.outcome.Some?
    case RivalAcquires(rival, now, _) => rival != s.token && now <= s.clock
    case RivalRenews(rival, now, _) => rival != s.token && now <= s.clock
    case RivalReleases(rival, now, _) => rival != s.token && now <= s.clock
    case StageMark(now, _) => now <= s.clock
  }

  function Apply(s: Session, a: Action): Session
    requires Enabled(s, a)
  {
    match a
    case Wait(ms) => s.(clock := s.clock + ms)
    case TimerTick =>
      s.(nextTick := s.nextTick + s.every,
         inFlight := if s.lost || s.inFlight.Some? then s.inFlight else Some(Renewal(s.clock, None)))
    case RenewalTakesEffect =>
      var r := s.inFlight.value;
      if WL.Renewable(s.row, s.token, r.started) then
        s.(row := WL.Renewed(s.row, r.started, s.lease), inFlight := Some(Renewal(r.started, Some(true))))
      else s.(inFlight := Some(Renewal(r.started, Some(false))))
    case RenewalSettles => s.(lost := s.lost || s.inFlight.value.outcome == Some(false), inFlight := None)
    case RivalAcquires(rival, now, d) => s.(row := WL.AcquireAlone(Some(s.row), rival, now, d).0)
    case RivalRenews(rival, now, d) => if WL.Renewable(s.row, rival, now) then s.(row := WL.Renewed(s.row, now, d)) else s
    case RivalReleases(rival, now, completed) => if s.row.owner == Some(rival) then s.(row := WL.Released(s.row, completed, now)) else s
    case StageMark(now, success) => s.(row := WL.Marked(Some(s.row), now, success))
  }

  ghost predicate Executes(s: Session, acts: seq<Action>, t: Session)
    decreases |acts|
  {
    if acts == [] then s == t
    else Enabled(s, acts[0]) && Executes(Apply(s, acts[0]), acts[1..], t)
  }

  /** The session once its acquisition has completed: the clock was read at 0, the acquisition completed
      at `done`, and the timer was started then. */
  function Started(lease: int, every: int, latency: int, token: WL.Token, done: int): Session {
    Session(lease, every, latency, token, done, WL.NewRow(token, 0, lease), done + every, None, false)
  }

  /** The lease is held right now and has not been reported lost. */
  predicate Safe(s: Session) {
    s.row.owner == Some(s.token) && s.row.expiresAt.Some? && s.row.expiresAt.value > s.clock && !s.lost
  }

  // The lease runs from the clock reading of the last renewal that took effect; the next one takes
  // effect at most one completion, one period and one latency later.
  ghost predicate OnSchedule(s: Session) {
    && Safe(s) && s.latency >= 0 && s.every > 0
    && var last := s.row.expiresAt.value - s.lease;
    && s.clock <= s.nextTick <= s.clock + s.every
    && match s.inFlight
       case None => s.nextTick <= last + s.latency + s.every
       case Some(r) =>
         && s.clock <= r.started + s.latency
         && match r.outcome
            case None => r.started <= last + s.latency + s.every && r.started <= s.clock
            case Some(ok) => ok && r.started == last
  }

  // ----- the session's own flags

  /** The mutable flags of one leased run. */
  class LeaseSession {
    var leaseLost: bool
    var renewInFlight: bool

    /** The flags are those of the session in time. */
    ghost predicate Mirrors(s: Session)
      reads this
    {
      leaseLost == s.lost && renewInFlight == s.inFlight.Some?
    }

    constructor (ghost lease: int, ghost every: int, ghost latency: int, ghost token: WL.Token, ghost done: int)
      ensures Mirrors(Started(lease, every, latency, token, done))
    {
      leaseLost, renewInFlight := false, false;
    }

    /** A timer tick: start a renewal unless one is running or the lease is gone. */
    method OnTick(ghost s: Session) returns (start: bool)
      requires Mirrors(s) && Enabled(s, TimerTick)
      modifies this
      ensures Mirrors(Apply(s, TimerTick))
      ensures start <==> !old(leaseLost) && !old(renewInFlight)
      ensures start ==> Apply(s, TimerTick).inFlight == Some(Renewal(s.clock, None))
    {
      if leaseLost || renewInFlight {
        return false;
      }
      renewInFlight := true;
      return true;
    }

    /** The renewal came back; refused or failed counts as lost. */
    method OnRenewalSettled(renewed: bool, ghost s: Session)
      requires Mirrors(s) && Enabled(s, RenewalSettles) && s.inFlight.value.outcome == Some(renewed)
      modifies this
      ensures Mirrors(Apply(s, RenewalSettles))
      ensures leaseLost == (old(leaseLost) || !renewed) && !renewInFlight
    {
      if !renewed {
        leaseLost := true;
      }
      renewInFlight := false;
    }

    /** Whether the run's result stands: it must not have failed and the lease must not be lost. A session
        on schedule has not lost it. */
    method Conclude(runSucceeded: bool, ghost s: Session) returns (completed: bool)
      requires Mirrors(s)
      ensures completed <==> runSucceeded && !leaseLost
      ensures OnSchedule(s) ==> completed == runSucceeded
    {
      completed := runSucceeded && !leaseLost;
    }
  }

  // ----- when the lease never lapses

  lemma OnScheduleStep(s: Session, a: Action)
    requires OnSchedule(s) && Enabled(s, a) && 2 * s.latency + s.every < s.lease
    ensures OnSchedule(Apply(s, a))
    ensures a.RivalAcquires? ==> Apply(s, a).row == s.row
    ensures var t := Apply(s, a); t.lease == s.lease && t.every == s.every && t.latency == s.latency && t.token == s.token
  {
  }

  lemma {:induction false} OnScheduleAlways(s: Session, acts: seq<Action>, t: Session)
    requires OnSchedule(s) && Executes(s, acts, t) && 2 * s.latency + s.every < s.lease
    ensures OnSchedule(t)
    decreases |acts|
  {
    if acts != [] {
      OnScheduleStep(s, acts[0]);
      OnScheduleAlways(Apply(s, acts[0]), acts[1..], t);
    }
  }

  lemma {:induction false} JoinRuns(s: Session, xs: seq<Action>, m: Session, ys: seq<Action>, t: Session)
    requires Executes(s, xs, m) && Executes(m, ys, t)
    ensures Executes(s, xs + ys, t)
    decreases |xs|
  {
    if xs == [] {
      assert xs + ys == ys;
    } else {
      assert (xs + ys)[1..] == xs[1..] + ys;
      JoinRuns(Apply(s, xs[0]), xs[1..], m, ys, t);
    }
  }

  // A renewal in flight can drag on to any time within its latency; ticks meanwhile are skipped.
  lemma {:induction false} RenewalDrags(s: Session, target: int) returns (acts: seq<Action>, t: Session)
    requires s.inFlight.Some? && s.inFlight.value.outcome.None? && s.every > 0
    requires s.clock <= target <= s.inFlight.value.started + s.latency && s.clock <= s.nextTick
    ensures Executes(s, acts, t)
    ensures t.clock == target && t.row == s.row && t.inFlight == s.inFlight && t.token == s.token
    decreases target - s.nextTick
  {
    if target <= s.nextTick {
      acts := [Wait(target - s.clock)];
      t := Apply(s, acts[0]);
      assert Executes(t, acts[1..], t);
    } else {
      var wait := Wait(s.nextTick - s.clock);
      var m := Apply(Apply(s, wait), TimerTick);
      var rest;
      rest, t := RenewalDrags(m, target);
      JoinRuns(s, [wait, TimerTick], m, rest, t);
      acts := [wait, TimerTick] + rest;
    }
  }

  /** A schedule that uses the bounds up: the acquisition and the first renewal both take their full
      latency, a rival gets in first, and the renewal reports the lease lost. */
  lemma LateRenewalLosesLease(lease: int, every: int, latency: int, token: WL.Token, rival: WL.Token)
    returns (acts: seq<Action>, t: Session)
    requires every > 0 && latency >= 0 && rival != token && lease <= 2 * latency + every
    ensures Executes(Started(lease, every, latency, token, latency), acts, t)
    ensures t.row.owner == Some(rival) && t.lost
  {
    var s0 := Started(lease, every, latency, token, latency);
    var s1 := Apply(Apply(s0, Wait(every)), TimerTick);
    var drag, s2 := RenewalDrags(s1, 2 * latency + every);
    JoinRuns(s0, [Wait(every), TimerTick], s1, drag, s2);
    var steal := RivalAcquires(rival, s2.clock, lease);
    var s3 := Apply(Apply(s2, steal), RenewalTakesEffect);
    JoinRuns(s0, [Wait(every), TimerTick] + drag, s2, [steal, RenewalTakesEffect], s3);
    t := Apply(s3, RenewalSettles);
    assert [RenewalSettles][1..] == [];
    assert Executes(s3, [RenewalSettles], t);
    acts := [Wait(every), TimerTick] + drag + [steal, RenewalTakesEffect] + [RenewalSettles];
    JoinRuns(s0, [Wait(every), TimerTick] + drag + [steal, RenewalTakesEffect], s3, [RenewalSettles], t);
  }

  /** Some schedule within the latency bound takes a session to `t`. */
  ghost predicate Reaches(lease: int, every: int, latency: int, token: WL.Token, done: int, acts: seq<Action>, t: Session) {
    0 <= done <= latency && Executes(Started(lease, every, latency, token, done), acts, t)
  }

  /** The lease never lapses, is never taken and is never reported lost, whatever the rivals do and
      however operations are delayed within their latency and ticks skipped, exactly when a lease
      outlasts one timer period and two operations. */
  lemma LeaseNeverLapsesExactly(lease: int, every: int, latency: int, token: WL.Token, rival: WL.Token)
    requires every > 0 && latency >= 0 && rival != token
    ensures (forall done, acts, t :: Reaches(lease, every, latency, token, done, acts, t) ==> Safe(t))
      <==> 2 * latency + every < lease
  {
    if 2 * latency + every < lease {
      forall done, acts, t | Reaches(lease, every, latency, token, done, acts, t)
        ensures Safe(t)
      {
        OnScheduleAlways(Started(lease, every, latency, token, done), acts, t);
      }
    } else {
      var acts, t := LateRenewalLosesLease(lease, every, latency, token, rival);
      assert Reaches(lease, every, latency, token, latency, acts, t) && !Safe(t);
    }
  }

  /** Whatever is configured, a lease of at least two seconds leaves room for operations that take less
      than a quarter of it. */
  lemma SettingsLeaveRoom(durationEnv: Option<real>, renewEnv: Option<real>, latency: int)
    requires var s := LeaseSettings(durationEnv, renewEnv); s.leaseDurationMs >= 2_000 && 4 * latency < s.leaseDurationMs
    ensures var s := LeaseSettings(durationEnv, renewEnv); 2 * latency + TimerPeriod(s) < s.leaseDurationMs
  {
  }

  /** So under the program's own settings a run keeps its lease throughout. */
  lemma ConfiguredRunKeepsItsLease(durationEnv: Option<real>, renewEnv: Option<real>, latency: int, token: WL.Token,
                                   done: int, acts: seq<Action>, t: Session)
    requires var s := LeaseSettings(durationEnv, renewEnv);
      s.leaseDurationMs >= 2_000 && 4 * latency < s.leaseDurationMs && 0 <= done <= latency
      && Executes(Started(s.leaseDurationMs, TimerPeriod(s), latency, token, done), acts, t)
    ensures Safe(t)
  {
    SettingsLeaveRoom(durationEnv, renewEnv, latency);
    var s := LeaseSettings(durationEnv, renewEnv);
    OnScheduleAlways(Started(s.leaseDurationMs, TimerPeriod(s), latency, token, done), acts, t);
  }

  /** A quarter exactly is one millisecond too much: with the default lease and a renewal interval of
      half of it, operations of 22.5 s can lose the lease. */
  lemma QuarterExactlyIsTooLate(token: WL.Token, rival: WL.Token) returns (acts: seq<Action>, t: Session)
    requires rival != token
    ensures LeaseSettings(None, Some(45_000.0)) == Settings(90_000, 45_000)
    ensures Executes(Started(90_000, 45_000, 22_500, token, 22_500), acts, t) && t.row.owner == Some(rival) && t.lost
  {
    acts, t := LateRenewalLosesLease(90_000, 45_000, 22_500, token, rival);
  }
}
