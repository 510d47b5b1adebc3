/** What the idempotency ledger guarantees, and exactly how late its workers may be. */
module LedgerGuarantees {
  import opened Prelude
  import opened IdempotencyLedger

  /** However the workers interleave and however late they are, events stored never exceed attempts
      granted, and those never exceed sightings. */
  lemma StoredWithinAttempts(clock: int, acts: seq<Action>, t: State)
    requires Executes(Init(clock), acts, t)
    ensures t.events != [] ==> t.row.Some?
    ensures t.row.Some? ==> |t.events| <= t.row.value.attemptCount <= t.row.value.seenCount
  {
    assert Holders(Init(clock)) == {};
    CountedAlways(Init(clock), acts, t);
  }

  /** If every worker that was granted the row commits its persist or its failure mark before its lock
      runs out, at most one operational event is ever stored for the key, the row is completed exactly
      when it is, and names it. */
  lemma AtMostOneEvent(clock: int, acts: seq<Action>, t: State)
    requires Executes(Init(clock), acts, t) && AllTimely(Init(clock), acts)
    ensures |t.events| <= 1
    ensures |t.events| == 1 <==> t.row.Some? && t.row.value.status.Completed? && t.row.value.eventId == Some(0)
  {
    FencedAlways(Init(clock), acts, t);
  }

  lemma {:induction false} SplitRun(s: State, first: seq<Action>, mid: State, then': seq<Action>)
    requires Executes(s, first, mid) && AllTimely(s, first + then')
    ensures AllTimely(s, first) && AllTimely(mid, then')
    decreases |first|
  {
    if first == [] {
      assert first + then' == then';
    } else {
      assert (first + then')[1..] == first[1..] + then';
      SplitRun(Apply(s, first[0]), first[1..], mid, then');
    }
  }

  /** Under the same timing, a row once completed stays completed and no further event appears. */
  lemma CompletedIsFinal(clock: int, first: seq<Action>, mid: State, more: seq<Action>, t: State)
    requires Executes(Init(clock), first, mid) && Executes(mid, more, t) && AllTimely(Init(clock), first + more)
    requires mid.row.Some? && mid.row.value.status.Completed?
    ensures t.row.Some? && t.row.value.status.Completed? && t.row.value.completedAt == mid.row.value.completedAt
    ensures t.events == mid.events
  {
    SplitRun(Init(clock), first, mid, more);
    FencedAlways(Init(clock), first, mid);
    FencedAlways(mid, more, t);
  }

  // ----- how late a commit may be

  /** Persists commit within `persistMs` of the clock reading their lock was granted on, failure marks within `markMs`. */
  predicate Prompt(s: State, a: Action, persistMs: int, markMs: int) {
    match a
    case Persist(p) =>
      p in s.workers && s.workers[p].Holding? && s.clock < s.workers[p].lockExpiresAt - PROCESSING_TTL_MS + persistMs
    case MarkFailed(p, _) =>
      p in s.workers && s.workers[p].MarkingFailed? && s.clock < s.workers[p].lockExpiresAt - PROCESSING_TTL_MS + markMs
    case _ => true
  }

  ghost predicate AllPrompt(s: State, acts: seq<Action>, persistMs: int, markMs: int)
    decreases |acts|
  {
    acts == [] ||
    (Enabled(s, acts[0]) && Prompt(s, acts[0], persistMs, markMs) && AllPrompt(Apply(s, acts[0]), acts[1..], persistMs, markMs))
  }

  /** A run from an empty ledger that keeps the two bounds. */
  ghost predicate Reaches(clock: int, acts: seq<Action>, t: State, persistMs: int, markMs: int) {
    Executes(Init(clock), acts, t) && AllPrompt(Init(clock), acts, persistMs, markMs)
  }

  /** No run that keeps the two bounds stores the event twice. */
  ghost predicate NeverTwice(persistMs: int, markMs: int) {
    forall clock, acts, t :: Reaches(clock, acts, t, persistMs, markMs) ==> |t.events| <= 1
  }

  lemma {:induction false} PromptIsTimely(s: State, acts: seq<Action>, persistMs: int, markMs: int)
    requires AllPrompt(s, acts, persistMs, markMs) && persistMs <= PROCESSING_TTL_MS && markMs <= PROCESSING_TTL_MS
    ensures AllTimely(s, acts)
    decreases |acts|
  {
    if acts != [] {
      PromptIsTimely(Apply(s, acts[0]), acts[1..], persistMs, markMs);
    }
  }

  // No lock was granted on a reading from the future.
  ghost predicate GrantsPast(s: State) {
    Clocked(s) && forall p :: p in s.workers && s.workers[p].Holding? ==> s.workers[p].lockExpiresAt <= s.clock + PROCESSING_TTL_MS
  }

  lemma {:induction false} NothingStored(s: State, acts: seq<Action>, t: State, persistMs: int, markMs: int)
    requires Executes(s, acts, t) && AllPrompt(s, acts, persistMs, markMs) && persistMs <= 0 && GrantsPast(s)
    ensures t.events == s.events
    decreases |acts|
  {
    if acts != [] {
      NothingStored(Apply(s, acts[0]), acts[1..], t, persistMs, markMs);
    }
  }

  lemma {:induction false} JoinRuns(s: State, xs: seq<Action>, m: State, ys: seq<Action>, t: State, persistMs: int, markMs: int)
    requires Executes(s, xs, m) && Executes(m, ys, t)
    requires AllPrompt(s, xs, persistMs, markMs) && AllPrompt(m, ys, persistMs, markMs)
    ensures Executes(s, xs + ys, t) && AllPrompt(s, xs + ys, persistMs, markMs)
    decreases |xs|
  {
    if xs == [] {
      assert xs + ys == ys;
    } else {
      assert (xs + ys)[1..] == xs[1..] + ys;
      JoinRuns(Apply(s, xs[0]), xs[1..], m, ys, t, persistMs, markMs);
    }
  }

  /** For which bounds the key is stored at most once: unless no persist is ever quick enough to commit at
      all, both persists and failure marks must be bounded by the lock's five minutes, and that is enough. */
  lemma AtMostOneEventExactly(persistMs: int, markMs: int)
    ensures NeverTwice(persistMs, markMs) <==> persistMs <= 0 || (persistMs <= PROCESSING_TTL_MS && markMs <= PROCESSING_TTL_MS)
  {
    if persistMs <= 0 || (persistMs <= PROCESSING_TTL_MS && markMs <= PROCESSING_TTL_MS) {
      forall clock, acts, t | Reaches(clock, acts, t, persistMs, markMs) ensures |t.events| <= 1 {
        if persistMs <= 0 {
          NothingStored(Init(clock), acts, t, persistMs, markMs);
        } else {
          PromptIsTimely(Init(clock), acts, persistMs, markMs);
          AtMostOneEvent(clock, acts, t);
        }
      }
    } else if persistMs > PROCESSING_TTL_MS {
      var acts, t := LatePersistDuplicates(persistMs, markMs);
    } else {
      var acts, t := LateFailureMarkDuplicates(persistMs, markMs);
    }
  }

  /** With one bound for both: the lock's length is exactly the longest a commit may take. */
  lemma OneBoundForBoth(ms: int)
    ensures NeverTwice(ms, ms) <==> ms <= PROCESSING_TTL_MS
  {
    AtMostOneEventExactly(ms, ms);
  }

  /** A failure mark that arrives just after its lock has run out is enough to store the event twice, however
      quick the persists: it throws a row that is being reprocessed back to failed, and a third worker
      recovers it. */
  lemma LateFailureMarkDuplicates(persistMs: int, markMs: int) returns (acts: seq<Action>, t: State)
    requires 0 < persistMs && PROCESSING_TTL_MS < markMs
    ensures Reaches(0, acts, t, persistMs, markMs) && |t.events| == 2
  {
    var a1, s1 := FirstHolderStalls(true, persistMs, markMs);
    var a2, s2 := SecondHolderRecovers(s1, persistMs, markMs);
    var a3, s3 := LateMarkLetsThirdIn(s2, persistMs, markMs);
    var a4, s4 := BothPersist(s3, 2, 3, persistMs, markMs);
    JoinRuns(Init(0), a1, s1, a2, s2, persistMs, markMs);
    JoinRuns(Init(0), a1 + a2, s2, a3, s3, persistMs, markMs);
    JoinRuns(Init(0), a1 + a2 + a3, s3, a4, s4, persistMs, markMs);
    acts, t := a1 + a2 + a3 + a4, s4;
  }

  /** And so is a persist that arrives just after its lock has run out, once a second worker has taken over. */
  lemma LatePersistDuplicates(persistMs: int, markMs: int) returns (acts: seq<Action>, t: State)
    requires PROCESSING_TTL_MS < persistMs
    ensures Reaches(0, acts, t, persistMs, markMs) && |t.events| == 2
  {
    var a1, s1 := FirstHolderStalls(false, persistMs, markMs);
    var a2, s2 := SecondHolderRecovers(s1, persistMs, markMs);
    var a3, s3 := BothPersist(s2, 1, 2, persistMs, markMs);
    JoinRuns(Init(0), a1, s1, a2, s2, persistMs, markMs);
    JoinRuns(Init(0), a1 + a2, s2, a3, s3, persistMs, markMs);
    acts, t := a1 + a2 + a3, s3;
  }

  function Stalled(failing: bool): Pc {
    if failing then MarkingFailed(300_000) else Holding(300_000, Reserved)
  }

  lemma FirstHolderStalls(failing: bool, persistMs: int, markMs: int) returns (acts: seq<Action>, t: State)
    ensures Executes(Init(0), acts, t) && AllPrompt(Init(0), acts, persistMs, markMs)
    ensures t == State(300_000, Some(FreshRow(0)), [], map[1 := Stalled(failing)])
  {
    acts := [Begin(1, 0), Reserve(1), Reserve(1), if failing then PersistFails(1) else Tick(0), Tick(300_000)];
    var s1 := Apply(Init(0), acts[0]);
    var s2 := Apply(s1, acts[1]);
    var s3 := Apply(s2, acts[2]);
    var s4 := Apply(s3, acts[3]);
    t := Apply(s4, acts[4]);
    assert t.workers == map[1 := Stalled(failing)];
    assert acts[4..] == [acts[4]];
    assert Executes(s4, acts[4..], t) && AllPrompt(s4, acts[4..], persistMs, markMs);
    assert Executes(s3, acts[3..], t) && AllPrompt(s3, acts[3..], persistMs, markMs);
    assert Executes(s2, acts[2..], t) && AllPrompt(s2, acts[2..], persistMs, markMs);
    assert Executes(s1, acts[1..], t) && AllPrompt(s1, acts[1..], persistMs, markMs);
  }

  lemma SecondHolderRecovers(s: State, persistMs: int, markMs: int) returns (acts: seq<Action>, t: State)
    requires s.clock == 300_000 && s.row == Some(FreshRow(0)) && 2 !in s.workers
    ensures Executes(s, acts, t) && AllPrompt(s, acts, persistMs, markMs)
    ensures t.clock == 300_000 && t.row == Some(ReclaimedStale(FreshRow(0), 300_000)) && t.events == s.events
    ensures t.workers == s.workers[2 := Holding(600_000, RecoveredStale)]
  {
    acts := [Begin(2, 300_000), Reserve(2), Reserve(2)];
    var s1 := Apply(s, acts[0]);
    var s2 := Apply(s1, acts[1]);
    t := Apply(s2, acts[2]);
    assert acts[2..] == [acts[2]];
    assert Executes(s2, acts[2..], t) && AllPrompt(s2, acts[2..], persistMs, markMs);
    assert Executes(s1, acts[1..], t) && AllPrompt(s1, acts[1..], persistMs, markMs);
  }

  lemma LateMarkLetsThirdIn(s: State, persistMs: int, markMs: int) returns (acts: seq<Action>, t: State)
    requires s.clock == 300_000 && s.row.Some? && PROCESSING_TTL_MS < markMs
    requires 1 in s.workers && s.workers[1] == MarkingFailed(300_000) && 3 !in s.workers
    ensures Executes(s, acts, t) && AllPrompt(s, acts, persistMs, markMs)
    ensures t.clock == 300_000 && t.row.Some? && t.events == s.events
    ensures t.workers == s.workers[1 := Aborted][3 := Holding(600_000, RecoveredFailed)]
  {
    acts := [MarkFailed(1, "PERSIST_FAILED"), Begin(3, 300_000), Reserve(3), Reserve(3)];
    var s1 := Apply(s, acts[0]);
    var s2 := Apply(s1, acts[1]);
    var s3 := Apply(s2, acts[2]);
    t := Apply(s3, acts[3]);
    assert acts[3..] == [acts[3]];
    assert Executes(s3, acts[3..], t) && AllPrompt(s3, acts[3..], persistMs, markMs);
    assert Executes(s2, acts[2..], t) && AllPrompt(s2, acts[2..], persistMs, markMs);
    assert Executes(s1, acts[1..], t) && AllPrompt(s1, acts[1..], persistMs, markMs);
  }

  lemma BothPersist(s: State, p: Pid, q: Pid, persistMs: int, markMs: int) returns (acts: seq<Action>, t: State)
    requires s.row.Some? && s.events == [] && p != q
    requires p in s.workers && s.workers[p].Holding? && s.clock < s.workers[p].lockExpiresAt - PROCESSING_TTL_MS + persistMs
    requires q in s.workers && s.workers[q].Holding? && s.clock < s.workers[q].lockExpiresAt - PROCESSING_TTL_MS + persistMs
    ensures Executes(s, acts, t) && AllPrompt(s, acts, persistMs, markMs) && |t.events| == 2
  {
    acts := [Persist(p), Persist(q)];
    var s1 := Apply(s, acts[0]);
    t := Apply(s1, acts[1]);
    assert acts[1..] == [acts[1]];
    assert Executes(s1, acts[1..], t) && AllPrompt(s1, acts[1..], persistMs, markMs);
  }

  // ----- a reservation that runs alone

  /** With no one else moving, the operations of one reservation compose to `ReserveAlone`. */
  lemma SoloReservation(s: State, p: Pid, now: int) returns (acts: seq<Action>, t: State)
    requires p !in s.workers && now <= s.clock
    ensures Executes(s, acts, t)
    ensures t.row == Some(ReserveAlone(s.row, now).0) && t.events == s.events && t.clock == s.clock
    ensures p in t.workers
    ensures t.workers[p] == if ReserveAlone(s.row, now).1.Granted() then Holding(now + PROCESSING_TTL_MS, ReserveAlone(s.row, now).1)
                            else Finished(ReserveAlone(s.row, now).1)
  {
    acts := [Begin(p, now), Reserve(p), Reserve(p)];
    var s1 := Apply(s, acts[0]);
    var s2 := Apply(s1, acts[1]);
    t := Apply(s2, acts[2]);
    assert acts[2..] == [acts[2]];
    assert Executes(s2, acts[2..], t) && Executes(s1, acts[1..], t);
  }
  /** And a worker that found no row but is beaten to creating it finds that row and decides on it as if it had
      come upon it alone, if nobody else moves meanwhile. */
  lemma BeatenReservation(s: State, p: Pid, now: int) returns (t: State)
    requires p in s.workers && s.workers[p] == Creating(now) && s.row.Some?
    ensures Executes(s, [Reserve(p), Reserve(p), Reserve(p)], t)
    ensures t.row == Some(ReserveAlone(s.row, now).0) && t.events == s.events
    ensures p in t.workers
    ensures t.workers[p] == if ReserveAlone(s.row, now).1.Granted() then Holding(now + PROCESSING_TTL_MS, ReserveAlone(s.row, now).1)
                            else Finished(ReserveAlone(s.row, now).1)
  {
    var acts := [Reserve(p), Reserve(p), Reserve(p)];
    var s1 := Apply(s, acts[0]);
    var s2 := Apply(s1, acts[1]);
    t := Apply(s2, acts[2]);
    assert acts[2..] == [acts[2]];
    assert Executes(s2, acts[2..], t) && Executes(s1, acts[1..], t);
  }
}
