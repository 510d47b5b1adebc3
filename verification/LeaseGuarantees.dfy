/** Mutual exclusion on a worker's lease row, and exactly how far ahead a clock may be. */
module LeaseGuarantees {
  import opened Prelude
  import opened WorkerLease

  /** From any row, over every interleaving of acquire, renew, release and stage marks with outdated
      clock readings, at most one token believes in an unexpired lease, and the row agrees with it. */
  lemma OneHolder(clock: int, row: Option<Row>, acts: seq<Action>, t: State)
    requires var s := State(clock, row, map[], map[]); Executes(s, acts, t) && AllHonest(s, acts)
    ensures forall a, b :: Live(t, a) && Live(t, b) ==> a == b
    ensures forall a :: Live(t, a) ==>
      t.row.Some? && t.row.value.owner == Some(a) && t.row.value.expiresAt == Some(t.held[a])
  {
    GuardedAlways(State(clock, row, map[], map[]), acts, t);
  }

  /** A live holder cannot be turned away: its renewals and its release take effect, and nobody else's
      acquire, renew or release does. */
  lemma LiveHolderPrevails(s: State, token: Token, other: Token, op: OpId, now: int, d: int, completed: bool)
    requires Guarded(s) && Live(s, token) && other != token && now <= s.clock && op !in s.creating
    ensures Apply(s, Renew(token, now, d)).row == Some(Renewed(s.row.value, now, d))
    ensures Apply(s, Release(token, now, completed)).row == Some(Released(s.row.value, completed, now))
    ensures Apply(s, AcquireUpdate(op, other, now, d)).row == s.row
    ensures Apply(Apply(s, AcquireUpdate(op, other, now, d)), AcquireCreate(op)).row == s.row
    ensures Apply(s, Renew(other, now, d)).row == s.row
    ensures Apply(s, Release(other, now, completed)).row == s.row
  {
  }

  /** The other operations take effect in one step each, as on the table. */
  lemma SoloSteps(s: State, token: Token, now: int, d: int, completed: bool)
    ensures Apply(s, Renew(token, now, d)).row
         == if s.row.Some? && s.row.value.owner == Some(token) && s.row.value.expiresAt.Some? && now < s.row.value.expiresAt.value
            then Some(s.row.value.(expiresAt := Some(now + d), renewedAt := Some(now), heartbeatAt := Some(now))) else s.row
    ensures Apply(s, Release(token, now, completed)).row
         == if s.row.Some? && s.row.value.owner == Some(token)
            then Some(Row(None, None, s.row.value.acquiredAt, Some(now), Some(now), if completed then Some(now) else s.row.value.completedAt))
            else s.row
    ensures var marked := Apply(s, Mark(now, completed)).row;
      && marked.Some? && marked.value.heartbeatAt == Some(now) && (completed ==> marked.value.completedAt == Some(now))
      && (s.row.Some? ==> marked.value == s.row.value.(heartbeatAt := Some(now), completedAt := marked.value.completedAt))
  {
  }

  // ----- what a release leaves

  /** Steps that are no acquisition's conditional update. */
  predicate NoneAcquires(acts: seq<Action>) {
    forall i :: 0 <= i < |acts| ==> !acts[i].AcquireUpdate?
  }

  lemma {:induction false} StaysFree(s: State, acts: seq<Action>, t: State)
    requires s.row.Some? && Free(s.row.value) && Executes(s, acts, t) && NoneAcquires(acts)
    ensures t.row.Some? && Free(t.row.value)
    decreases |acts|
  {
    if acts != [] {
      StaysFree(Apply(s, acts[0]), acts[1..], t);
    }
  }

  /** Once the owner releases, whatever renewals, releases, marks and late creations come in between, the next
      acquisition takes the row at once, whoever makes it and whenever, and whoever renews or releases before it
      does so in vain. */
  lemma {:induction false} ReleaseFreesTheRow(s: State, token: Token, at: int, completed: bool, acts: seq<Action>, t: State,
                                              other: Token, op: OpId, now: int, d: int)
    requires s.row.Some? && s.row.value.owner == Some(token) && op !in t.creating
    requires Executes(Apply(s, Release(token, at, completed)), acts, t) && NoneAcquires(acts)
    ensures t.row.Some? && Free(t.row.value)
    ensures var u := Apply(t, AcquireUpdate(op, other, now, d));
      && u.row.Some? && TakenAt(u.row.value, other, now, d)
      && u.held == t.held[other := now + d] && u.creating == t.creating
    ensures Apply(t, Renew(other, now, d)) == t && Apply(t, Release(other, now, completed)).row == t.row
  {
    StaysFree(Apply(s, Release(token, at, completed)), acts, t);
  }

  // ----- how far ahead a clock may be

  /** The operation's clock reading is at most `skewMs` ahead of the moment it takes effect. */
  predicate Within(s: State, a: Action, skewMs: int) {
    match a
    case AcquireUpdate(_, _, now, _) => now <= s.clock + skewMs
    case Renew(_, now, _) => now <= s.clock + skewMs
    case _ => true
  }

  ghost predicate AllWithin(s: State, acts: seq<Action>, skewMs: int)
    decreases |acts|
  {
    acts == [] || (Enabled(s, acts[0]) && Within(s, acts[0], skewMs) && AllWithin(Apply(s, acts[0]), acts[1..], skewMs))
  }

  ghost predicate Reaches(clock: int, row: Option<Row>, acts: seq<Action>, t: State, skewMs: int) {
    var s := State(clock, row, map[], map[]);
    Executes(s, acts, t) && AllWithin(s, acts, skewMs)
  }

  ghost predicate Exclusive(t: State) {
    forall a, b :: Live(t, a) && Live(t, b) ==> a == b
  }

  lemma {:induction false} WithinIsHonest(s: State, acts: seq<Action>, skewMs: int)
    requires AllWithin(s, acts, skewMs) && skewMs <= 0
    ensures AllHonest(s, acts)
    decreases |acts|
  {
    if acts != [] {
      WithinIsHonest(Apply(s, acts[0]), acts[1..], skewMs);
    }
  }

  /** The least clock reading ahead of its time is enough to break exclusion, however long leases are: a
      worker a millisecond fast takes a lease in its last millisecond. */
  lemma FastClockBreaksExclusion(skewMs: int, durationMs: int, a: Token, b: Token) returns (acts: seq<Action>, t: State)
    requires skewMs > 0 && durationMs > 0 && a != b
    ensures Reaches(0, None, acts, t, skewMs) && Live(t, a) && Live(t, b)
  {
    var s0 := State(0, None, map[], map[]);
    acts := [AcquireUpdate(0, a, 0, durationMs), AcquireCreate(0), Tick(durationMs - 1), AcquireUpdate(1, b, durationMs, durationMs)];
    var s1 := Apply(s0, acts[0]);
    var s2 := Apply(s1, acts[1]);
    var s3 := Apply(s2, acts[2]);
    t := Apply(s3, acts[3]);
    assert acts[3..] == [acts[3]];
    assert Executes(s3, acts[3..], t) && AllWithin(s3, acts[3..], skewMs);
    assert Executes(s2, acts[2..], t) && AllWithin(s2, acts[2..], skewMs);
    assert Executes(s1, acts[1..], t) && AllWithin(s1, acts[1..], skewMs);
  }

  /** So in all runs at most one token believes in a live lease exactly if no clock is ahead. */
  lemma ExclusionExactly(skewMs: int)
    ensures (forall clock, row, acts, t :: Reaches(clock, row, acts, t, skewMs) ==> Exclusive(t)) <==> skewMs <= 0
  {
    if skewMs <= 0 {
      forall clock, row, acts, t | Reaches(clock, row, acts, t, skewMs) ensures Exclusive(t) {
        WithinIsHonest(State(clock, row, map[], map[]), acts, skewMs);
        OneHolder(clock, row, acts, t);
      }
    } else {
      var acts, t := FastClockBreaksExclusion(skewMs, 1, "a", "b");
      assert !Exclusive(t);
    }
  }

  /** With no one else moving, the two operations of one acquisition compose to `AcquireAlone`. */
  lemma SoloAcquire(s: State, op: OpId, token: Token, now: int, d: int) returns (acts: seq<Action>, t: State)
    requires op !in s.creating
    ensures Executes(s, acts, t)
    ensures t.row == Some(AcquireAlone(s.row, token, now, d).0)
    ensures AcquireAlone(s.row, token, now, d).1.Acquired? ==> t.held == s.held[token := now + d]
    ensures AcquireAlone(s.row, token, now, d).1.Held? ==> t.held == s.held
  {
    var first := AcquireUpdate(op, token, now, d);
    var s1 := Apply(s, first);
    if op in s1.creating {
      acts := [first, AcquireCreate(op)];
      t := Apply(s1, acts[1]);
      assert acts[1..] == [acts[1]];
      assert Executes(s1, acts[1..], t);
    } else {
      acts := [first];
      t := s1;
    }
  }
}
