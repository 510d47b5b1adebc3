/** The lease row of a worker name: acquire, renew and release by conditional update, and the freshness
    marks that write the same row. */
module WorkerLease {
  import opened Prelude

  type Token = string

  datatype Row = Row(
    owner: Option<Token>,
    expiresAt: Option<int>,
    acquiredAt: Option<int>,
    renewedAt: Option<int>,
    heartbeatAt: Option<int>,
    completedAt: Option<int>)

  datatype AcquireResult = Acquired(leaseExpiresAt: int) | Held(heldUntil: Option<int>, heldBy: Option<Token>)

  // ----- the database operations

  /** The row may be taken: no expiry, an expiry that has passed, or already owned by this token. */
  predicate Claimable(r: Row, token: Token, now: int) {
    r.expiresAt.None? || r.expiresAt.value <= now || r.owner == Some(token)
  }

  function Claimed(r: Row, token: Token, now: int, durationMs: int): Row {
    r.(owner := Some(token), expiresAt := Some(now + durationMs), acquiredAt := Some(now), renewedAt := Some(now),
       heartbeatAt := Some(now))
  }

  function NewRow(token: Token, now: int, durationMs: int): Row {
    Row(Some(token), Some(now + durationMs), Some(now), Some(now), Some(now), None)
  }

  predicate Renewable(r: Row, token: Token, now: int) {
    r.owner == Some(token) && r.expiresAt.Some? && r.expiresAt.value > now
  }

  function Renewed(r: Row, now: int, durationMs: int): Row {
    r.(expiresAt := Some(now + durationMs), renewedAt := Some(now), heartbeatAt := Some(now))
  }

  function Released(r: Row, completed: bool, now: int): Row {
    r.(owner := None, expiresAt := None, renewedAt := Some(now), heartbeatAt := Some(now),
       completedAt := if completed then Some(now) else r.completedAt)
  }

  /** A freshness mark: it writes the heartbeat and, on success, the completion time. */
  function Marked(row: Option<Row>, now: int, success: bool): Row {
    match row
    case None => Row(None, None, None, None, Some(now), if success then Some(now) else None)
    case Some(r) => r.(heartbeatAt := Some(now), completedAt := if success then Some(now) else r.completedAt)
  }

  function Lookup(rows: map<string, Row>, name: string): Option<Row> {
    if name in rows then Some(rows[name]) else None
  }

  /** An acquisition that nobody interrupts. */
  function AcquireAlone(row: Option<Row>, token: Token, now: int, durationMs: int): (Row, AcquireResult) {
    match row
    case None => (NewRow(token, now, durationMs), Acquired(now + durationMs))
    case Some(r) =>
      if Claimable(r, token, now) then (Claimed(r, token, now, durationMs), Acquired(now + durationMs))
      else (r, Held(r.expiresAt, r.owner))
  }

  /** Nobody holds the row, and nothing has to expire before it can be taken. */
  predicate Free(r: Row) {
    r.owner.None? && r.expiresAt.None?
  }

  /** The row is the token's until a lease from this moment runs out, and says so in every field. */
  predicate TakenAt(r: Row, token: Token, now: int, durationMs: int) {
    r.owner == Some(token) && r.expiresAt == Some(now + durationMs)
    && r.acquiredAt == Some(now) && r.renewedAt == Some(now) && r.heartbeatAt == Some(now)
  }

  /** Whoever asks for the row next gets it, at any time. */
  ghost predicate AnyoneAcquires(r: Row) {
    forall token, now, d ::
      AcquireAlone(Some(r), token, now, d).1 == Acquired(now + d) && TakenAt(AcquireAlone(Some(r), token, now, d).0, token, now, d)
  }

  class LeaseTable {
    var rows: map<string, Row>

    constructor ()
      ensures rows == map[]
    {
      rows := map[];
    }

    method Acquire(name: string, token: Token, now: int, durationMs: int) returns (r: AcquireResult)
      modifies this
      ensures r == AcquireAlone(Lookup(old(rows), name), token, now, durationMs).1
      ensures rows == old(rows)[name := AcquireAlone(Lookup(old(rows), name), token, now, durationMs).0]
      ensures r.Acquired? ==> r.leaseExpiresAt == now + durationMs && TakenAt(rows[name], token, now, durationMs)
      ensures r.Held? ==> rows == old(rows) && name in rows && rows[name].expiresAt == r.heldUntil && rows[name].owner == r.heldBy
      ensures r.Held? ==> r.heldUntil.Some? && now < r.heldUntil.value && r.heldBy != Some(token)
    {
      var expiresAt := now + durationMs;
      if name in rows && Claimable(rows[name], token, now) {
        rows := rows[name := rows[name].(owner := Some(token), expiresAt := Some(expiresAt), acquiredAt := Some(now),
                                         renewedAt := Some(now), heartbeatAt := Some(now))];
        return Acquired(expiresAt);
      }
      if name !in rows {
        rows := rows[name := Row(Some(token), Some(expiresAt), Some(now), Some(now), Some(now), None)];
        return Acquired(expiresAt);
      }
      assert rows[name := rows[name]] == rows;
      return Held(rows[name].expiresAt, rows[name].owner);
    }

    method Renew(name: string, token: Token, now: int, durationMs: int) returns (renewed: bool)
      modifies this
      ensures renewed <==>
        name in old(rows) && old(rows)[name].owner == Some(token) && old(rows)[name].expiresAt.Some? && now < old(rows)[name].expiresAt.value
      ensures rows == if renewed then old(rows)[name := Renewed(old(rows)[name], now, durationMs)] else old(rows)
      ensures renewed ==>
        && TakenAt(rows[name].(acquiredAt := Some(now)), token, now, durationMs)
        && rows[name].acquiredAt == old(rows)[name].acquiredAt && rows[name].completedAt == old(rows)[name].completedAt
    {
      if name in rows && Renewable(rows[name], token, now) {
        rows := rows[name := rows[name].(expiresAt := Some(now + durationMs), renewedAt := Some(now), heartbeatAt := Some(now))];
        return true;
      }
      return false;
    }

    method Release(name: string, token: Token, completed: bool, now: int) returns (released: bool)
      modifies this
      ensures released <==> name in old(rows) && old(rows)[name].owner == Some(token)
      ensures rows == if released then old(rows)[name := Released(old(rows)[name], completed, now)] else old(rows)
      ensures released ==>
        && Free(rows[name]) && rows[name].renewedAt == Some(now) && rows[name].heartbeatAt == Some(now)
        && rows[name].completedAt == if completed then Some(now) else old(rows)[name].completedAt
      ensures released ==> AnyoneAcquires(rows[name])
    {
      if name in rows && rows[name].owner == Some(token) {
        var freed := rows[name].(owner := None, expiresAt := None, renewedAt := Some(now), heartbeatAt := Some(now));
        if completed {
          freed := freed.(completedAt := Some(now));
        }
        rows := rows[name := freed];
        return true;
      }
      return false;
    }

    method MarkStage(name: string, now: int, success: bool)
      modifies this
      ensures rows == old(rows)[name := Marked(Lookup(old(rows), name), now, success)]
      ensures rows[name].heartbeatAt == Some(now) && (success ==> rows[name].completedAt == Some(now))
      ensures name in old(rows) ==>
        rows[name] == old(rows)[name].(heartbeatAt := Some(now), completedAt := if success then Some(now) else old(rows)[name].completedAt)
    {
      var row := if name in rows then rows[name] else Row(None, None, None, None, None, None);
      if success {
        row := row.(completedAt := Some(now));
      }
      rows := rows[name := row.(heartbeatAt := Some(now))];
    }
  }

  // ----- every interleaving on one worker name

  type OpId = nat

  datatype Pending = Pending(token: Token, now: int, durationMs: int)

  // `held` records, for each token, the expiry returned by its latest successful acquire or renew,
  // until it releases; `creating` holds the acquisitions whose conditional update found nothing.
  datatype State = State(clock: int, row: Option<Row>, held: map<Token, int>, creating: map<OpId, Pending>)

  datatype Action =
    | Tick(to: int)
    | AcquireUpdate(op: OpId, token: Token, now: int, durationMs: int)
    | AcquireCreate(op: OpId)
    | Renew(token: Token, now: int, durationMs: int)
    | Release(token: Token, now: int, completed: bool)
    | Mark(now: int, success: bool)

  predicate Enabled(s: State, a: Action) {
    match a
    case Tick(t) => s.clock <= t
    case AcquireUpdate(op, _, _, _) => op !in s.creating
    case AcquireCreate(op) => op in s.creating
    case _ => true
  }

  /** The operation's own clock reading is not ahead of the moment it takes effect. */
  predicate Honest(s: State, a: Action) {
    match a
    case AcquireUpdate(_, _, now, _) => now <= s.clock
    case Renew(_, now, _) => now <= s.clock
    case _ => true
  }

  function Apply(s: State, a: Action): State
    requires Enabled(s, a)
  {
    match a
    case Tick(t) => s.(clock := t)
    case AcquireUpdate(op, token, now, d) =>
      if s.row.Some? && Claimable(s.row.value, token, now) then
        s.(row := Some(Claimed(s.row.value, token, now, d)), held := s.held[token := now + d])
      else s.(creating := s.creating[op := Pending(token, now, d)])
    case AcquireCreate(op) =>
      var p := s.creating[op];
      if s.row.None? then
        State(s.clock, Some(NewRow(p.token, p.now, p.durationMs)), s.held[p.token := p.now + p.durationMs], s.creating - {op})
      else s.(creating := s.creating - {op})
    case Renew(token, now, d) =>
      if s.row.Some? && Renewable(s.row.value, token, now) then
        s.(row := Some(Renewed(s.row.value, now, d)), held := s.held[token := now + d])
      else s
    case Release(token, now, completed) =>
      if s.row.Some? && s.row.value.owner == Some(token) then
        s.(row := Some(Released(s.row.value, completed, now)), held := s.held - {token})
      else s.(held := s.held - {token})
    case Mark(now, success) => s.(row := Some(Marked(s.row, now, success)))
  }

  ghost predicate Executes(s: State, acts: seq<Action>, t: State)
    decreases |acts|
  {
    if acts == [] then s == t
    else Enabled(s, acts[0]) && Executes(Apply(s, acts[0]), acts[1..], t)
  }

  ghost predicate AllHonest(s: State, acts: seq<Action>)
    decreases |acts|
  {
    acts == [] || (Enabled(s, acts[0]) && Honest(s, acts[0]) && AllHonest(Apply(s, acts[0]), acts[1..]))
  }

  /** The token was told it holds the lease until a time that has not come. */
  predicate Live(s: State, token: Token) {
    token in s.held && s.held[token] > s.clock
  }

  ghost predicate Guarded(s: State) {
    forall token :: Live(s, token) ==>
      s.row.Some? && s.row.value.owner == Some(token) && s.row.value.expiresAt == Some(s.held[token])
  }

  lemma {:induction false} GuardedAlways(s: State, acts: seq<Action>, t: State)
    requires Guarded(s) && Executes(s, acts, t) && AllHonest(s, acts)
    ensures Guarded(t)
    decreases |acts|
  {
    if acts != [] {
      GuardedAlways(Apply(s, acts[0]), acts[1..], t);
    }
  }
}
