/** The idempotency ledger row of one (tenant, source, key) and the workers that reserve, persist and
    mark it, interleaved one database operation at a time. */
module IdempotencyLedger {
  import opened Prelude

  const PROCESSING_TTL_MS: int := 300 * 1000

  datatype Status = Processing | Completed | Failed

  datatype Row = Row(
    status: Status,
    firstSeenAt: int,
    lastSeenAt: int,
    lockExpiresAt: Option<int>,
    completedAt: Option<int>,
    error: Option<string>,
    eventId: Option<nat>,
    seenCount: nat,
    attemptCount: nat)

  datatype Outcome =
    | Reserved
    | RecoveredFailed
    | RecoveredStale
    | DuplicateCompleted(eventId: Option<nat>)
    | DuplicateInflight
  {
    predicate Granted() {
      Reserved? || RecoveredFailed? || RecoveredStale?
    }
  }

  // ----- the database operations on a row

  function FreshRow(now: int): Row {
    Row(Processing, now, now, Some(now + PROCESSING_TTL_MS), None, None, None, 1, 1)
  }

  function Touched(r: Row, now: int): Row {
    r.(lastSeenAt := now, seenCount := r.seenCount + 1)
  }

  predicate Stale(r: Row, now: int) {
    r.lockExpiresAt.None? || r.lockExpiresAt.value <= now
  }

  function ReclaimedFailed(r: Row, now: int): Row {
    r.(status := Processing, lastSeenAt := now, lockExpiresAt := Some(now + PROCESSING_TTL_MS), completedAt := None,
       error := None, attemptCount := r.attemptCount + 1, seenCount := r.seenCount + 1)
  }

  function ReclaimedStale(r: Row, now: int): Row {
    r.(status := Processing, lastSeenAt := now, lockExpiresAt := Some(now + PROCESSING_TTL_MS),
       error := None, attemptCount := r.attemptCount + 1, seenCount := r.seenCount + 1)
  }

  function MarkedCompleted(r: Row, eventId: nat, now: int): Row {
    r.(status := Completed, completedAt := Some(now), lastSeenAt := now, lockExpiresAt := None, error := None,
       eventId := Some(eventId))
  }

  function MarkedFailed(r: Row, error: string, now: int): Row {
    r.(status := Failed, completedAt := None, lastSeenAt := now, lockExpiresAt := None, error := Some(error))
  }

  /** A reservation that nobody interrupts. */
  function ReserveAlone(entry: Option<Row>, now: int): (Row, Outcome) {
    match entry
    case None => (FreshRow(now), Reserved)
    case Some(r) =>
      match r.status
      case Completed => (Touched(r, now), DuplicateCompleted(r.eventId))
      case Failed => (ReclaimedFailed(r, now), RecoveredFailed)
      case Processing =>
        if Stale(r, now) then (ReclaimedStale(r, now), RecoveredStale) else (Touched(r, now), DuplicateInflight)
  }

  // ----- workers as program counters

  type Pid = nat

  datatype Pc =
    | Looking(now: int)
    | Creating(now: int)
    | Refetching(now: int)
    | Deciding(now: int, entry: Row)
    | Holding(lockExpiresAt: int, granted: Outcome)
    | MarkingFailed(lockExpiresAt: int)
    | Finished(outcome: Outcome)
    | Aborted

  // `events` lists, for each stored operational event of this key, the worker that stored it.
  datatype State = State(clock: int, row: Option<Row>, events: seq<Pid>, workers: map<Pid, Pc>)

  datatype Action =
    | Tick(to: int)
    | Begin(p: Pid, now: int)
    | Reserve(p: Pid)
    | Persist(p: Pid)
    | PersistFails(p: Pid)
    | MarkFailed(p: Pid, error: string)

  predicate Enabled(s: State, a: Action) {
    match a
    case Tick(t) => s.clock <= t
    case Begin(p, now) => p !in s.workers && now <= s.clock
    case Reserve(p) => p in s.workers && (s.workers[p].Looking? || s.workers[p].Creating? || s.workers[p].Refetching? || s.workers[p].Deciding?)
    case Persist(p) => p in s.workers && s.workers[p].Holding? && s.row.Some?
    case PersistFails(p) => p in s.workers && s.workers[p].Holding?
    case MarkFailed(p, _) => p in s.workers && s.workers[p].MarkingFailed? && s.row.Some?
  }

  function Grant(s: State, p: Pid, r: Row, now: int, o: Outcome): State {
    s.(row := Some(r), workers := s.workers[p := Holding(now + PROCESSING_TTL_MS, o)])
  }

  function Finish(s: State, p: Pid, r: Option<Row>, o: Outcome): State {
    s.(row := r, workers := s.workers[p := Finished(o)])
  }

  // The conditional write a worker makes on the strength of the row it read a moment ago.
  function Decide(s: State, p: Pid, now: int, entry: Row): State {
    match s.row
    case None => Finish(s, p, None, DuplicateInflight)
    case Some(r) =>
      match entry.status
      case Completed => Finish(s, p, Some(Touched(r, now)), DuplicateCompleted(entry.eventId))
      case Failed =>
        if r.status.Failed? then Grant(s, p, ReclaimedFailed(r, now), now, RecoveredFailed)
        else Finish(s, p, s.row, DuplicateInflight)
      case Processing =>
        if !Stale(entry, now) then Finish(s, p, Some(Touched(r, now)), DuplicateInflight)
        else if r.status.Processing? && Stale(r, now) then Grant(s, p, ReclaimedStale(r, now), now, RecoveredStale)
        else Finish(s, p, s.row, DuplicateInflight)
  }

  function Apply(s: State, a: Action): State
    requires Enabled(s, a)
  {
    match a
    case Tick(t) => s.(clock := t)
    case Begin(p, now) => s.(workers := s.workers[p := Looking(now)])
    case Reserve(p) =>
      (match s.workers[p]
       case Looking(now) =>
         s.(workers := s.workers[p := if s.row.Some? then Deciding(now, s.row.value) else Creating(now)])
       case Creating(now) =>
         if s.row.None? then Grant(s, p, FreshRow(now), now, Reserved)
         else s.(workers := s.workers[p := Refetching(now)])
       case Refetching(now) =>
         if s.row.Some? then s.(workers := s.workers[p := Deciding(now, s.row.value)])
         else Finish(s, p, None, DuplicateInflight)
       case Deciding(now, entry) => Decide(s, p, now, entry)
       case _ => s)
    case Persist(p) =>
      State(s.clock, Some(MarkedCompleted(s.row.value, |s.events|, s.clock)), s.events + [p],
            s.workers[p := Finished(s.workers[p].granted)])
    case PersistFails(p) => s.(workers := s.workers[p := MarkingFailed(s.workers[p].lockExpiresAt)])
    case MarkFailed(p, error) =>
      s.(row := Some(MarkedFailed(s.row.value, error, s.clock)), workers := s.workers[p := Aborted])
  }

  ghost predicate Executes(s: State, acts: seq<Action>, t: State)
    decreases |acts|
  {
    if acts == [] then s == t
    else Enabled(s, acts[0]) && Executes(Apply(s, acts[0]), acts[1..], t)
  }

  function Init(clock: int): State {
    State(clock, None, [], map[])
  }

  // ----- counters bound what is stored, with no assumption on timing

  ghost function Holders(s: State): set<Pid> {
    set p | p in s.workers && s.workers[p].Holding?
  }

  ghost predicate Counted(s: State) {
    match s.row
    case None => s.events == [] && Holders(s) == {}
              && forall p :: p in s.workers ==> !s.workers[p].MarkingFailed? && !s.workers[p].Deciding?
    case Some(r) => |s.events| + |Holders(s)| <= r.attemptCount <= r.seenCount
  }

  lemma HoldersChange(s: State, p: Pid, pc: Pc)
    ensures var t := s.(workers := s.workers[p := pc]);
      |Holders(t)| == |Holders(s)| - (if p in Holders(s) then 1 else 0) + (if pc.Holding? then 1 else 0)
  {
    var t := s.(workers := s.workers[p := pc]);
    assert Holders(t) == Holders(s) - {p} + (if pc.Holding? then {p} else {});
    assert |Holders(s) - {p}| == |Holders(s)| - (if p in Holders(s) then 1 else 0);
  }

  lemma CountedStep(s: State, a: Action)
    requires Counted(s) && Enabled(s, a)
    ensures Counted(Apply(s, a))
  {
    var t := Apply(s, a);
    if a.Tick? {
      assert Holders(t) == Holders(s);
    } else {
      HoldersChange(s, a.p, t.workers[a.p]);
      assert Holders(t) == Holders(s.(workers := t.workers));
    }
  }

  lemma {:induction false} CountedAlways(s: State, acts: seq<Action>, t: State)
    requires Counted(s) && Executes(s, acts, t)
    ensures Counted(t)
    decreases |acts|
  {
    if acts != [] {
      CountedStep(s, acts[0]);
      CountedAlways(Apply(s, acts[0]), acts[1..], t);
    }
  }

  // ----- at most one event when holders commit within their lock

  predicate Timely(s: State, a: Action) {
    match a
    case Persist(p) => p in s.workers && s.workers[p].Holding? && s.clock < s.workers[p].lockExpiresAt
    case MarkFailed(p, _) => p in s.workers && s.workers[p].MarkingFailed? && s.clock < s.workers[p].lockExpiresAt
    case _ => true
  }

  ghost predicate AllTimely(s: State, acts: seq<Action>)
    decreases |acts|
  {
    acts == [] || (Timely(s, acts[0]) && Enabled(s, acts[0]) && AllTimely(Apply(s, acts[0]), acts[1..]))
  }

  /** The worker was granted the row and its lock has not run out. */
  predicate LiveHolder(s: State, p: Pid) {
    p in s.workers
    && ((s.workers[p].Holding? && s.workers[p].lockExpiresAt > s.clock)
        || (s.workers[p].MarkingFailed? && s.workers[p].lockExpiresAt > s.clock))
  }

  ghost predicate Fenced(s: State) {
    && (forall p :: LiveHolder(s, p) ==>
          s.row.Some? && s.row.value.status.Processing? && s.row.value.lockExpiresAt == Some(s.workers[p].lockExpiresAt))
    && (forall p, q :: LiveHolder(s, p) && LiveHolder(s, q) ==> p == q)
    && |s.events| == (if s.row.Some? && s.row.value.status.Completed? then 1 else 0)
    && (s.row.Some? && s.row.value.status.Completed? ==> s.row.value.eventId == Some(0))
  }

  lemma NowNeverAhead(s: State, p: Pid)
    requires Clocked(s) && p in s.workers && (s.workers[p].Looking? || s.workers[p].Creating? || s.workers[p].Refetching? || s.workers[p].Deciding?)
    ensures s.workers[p].now <= s.clock
  {
  }

  ghost predicate Clocked(s: State) {
    forall p :: p in s.workers && (s.workers[p].Looking? || s.workers[p].Creating? || s.workers[p].Refetching? || s.workers[p].Deciding?)
      ==> s.workers[p].now <= s.clock
  }

  lemma ClockedReserve(s: State, p: Pid)
    requires Clocked(s) && Enabled(s, Reserve(p))
    ensures Clocked(Apply(s, Reserve(p)))
  {
  }

  // The row is up for grabs: nobody holds it within a lock that still runs.
  predicate Free(s: State) {
    s.row.None? || s.row.value.status.Failed? || (s.row.value.status.Processing? && Stale(s.row.value, s.clock))
  }

  lemma GrantKeepsFence(s: State, p: Pid, r: Row, now: int, o: Outcome)
    requires Fenced(s) && Free(s) && p in s.workers
    requires r.status.Processing? && r.lockExpiresAt == Some(now + PROCESSING_TTL_MS)
    ensures Fenced(Grant(s, p, r, now, o))
  {
    var t := Grant(s, p, r, now, o);
    assert forall q :: !LiveHolder(s, q);
    assert forall q :: q != p ==> LiveHolder(t, q) == LiveHolder(s, q);
  }

  // A reservation that is granted nothing leaves the row's status and lock.
  lemma LeavingKeepsFence(s: State, t: State, p: Pid)
    requires Fenced(s) && !LiveHolder(s, p) && !LiveHolder(t, p) && t.clock == s.clock && t.events == s.events
    requires forall q :: q != p ==> (q in t.workers <==> q in s.workers) && (q in s.workers ==> t.workers[q] == s.workers[q])
    requires t.row.Some? <==> s.row.Some?
    requires s.row.Some? ==> t.row.value.status == s.row.value.status && t.row.value.lockExpiresAt == s.row.value.lockExpiresAt
                             && t.row.value.eventId == s.row.value.eventId
    ensures Fenced(t)
  {
    assert forall q :: LiveHolder(t, q) == LiveHolder(s, q);
  }

  lemma FencedReserve(s: State, p: Pid)
    requires Fenced(s) && Clocked(s) && Enabled(s, Reserve(p))
    ensures Fenced(Apply(s, Reserve(p))) && Clocked(Apply(s, Reserve(p)))
  {
    var t := Apply(s, Reserve(p));
    NowNeverAhead(s, p);
    ClockedReserve(s, p);
    if t.workers[p].Holding? {
      GrantKeepsFence(s, p, t.row.value, s.workers[p].now, t.workers[p].granted);
    } else {
      LeavingKeepsFence(s, t, p);
    }
  }

  lemma FencedStep(s: State, a: Action)
    requires Fenced(s) && Clocked(s) && Enabled(s, a) && Timely(s, a)
    ensures Fenced(Apply(s, a)) && Clocked(Apply(s, a))
    ensures s.row.Some? && s.row.value.status.Completed? ==>
      var t := Apply(s, a);
      t.row.Some? && t.row.value.status.Completed? && t.row.value.completedAt == s.row.value.completedAt && t.events == s.events
  {
    var t := Apply(s, a);
    match a
    case Tick(_) => assert forall q :: LiveHolder(t, q) ==> LiveHolder(s, q);
    case Reserve(p) => FencedReserve(s, p);
    case Begin(p, _) =>
      assert forall q :: q != p ==> LiveHolder(t, q) == LiveHolder(s, q);
    case Persist(p) =>
      assert LiveHolder(s, p);
      assert forall q :: q != p ==> LiveHolder(t, q) == LiveHolder(s, q);
    case PersistFails(p) =>
      assert forall q :: LiveHolder(t, q) == LiveHolder(s, q);
    case MarkFailed(p, _) =>
      assert LiveHolder(s, p);
      assert forall q :: q != p ==> LiveHolder(t, q) == LiveHolder(s, q);
  }

  lemma {:induction false} FencedAlways(s: State, acts: seq<Action>, t: State)
    requires Fenced(s) && Clocked(s) && Executes(s, acts, t) && AllTimely(s, acts)
    ensures Fenced(t) && Clocked(t)
    ensures s.row.Some? && s.row.value.status.Completed? ==>
      t.row.Some? && t.row.value.status.Completed? && t.row.value.completedAt == s.row.value.completedAt && t.events == s.events
    decreases |acts|
  {
    if acts != [] {
      FencedStep(s, acts[0]);
      FencedAlways(Apply(s, acts[0]), acts[1..], t);
    }
  }
}
