/** One bridge batch, as a loop over the findings it read. */
module BridgeBatch {
  import opened Prelude
  import opened Incidents
  import opened IncidentBridge
  import opened IncidentService

  datatype RunResult = RunResult(processed: nat, created: nat, refreshed: nat, resolved: nat, cursorAdvanced: bool)

  datatype Effect = NoEffect | CreatedOne | RefreshedOne | ResolvedOne

  // The two tables that a batch writes.
  datatype Tables = Tables(links: map<FindingId, nat>, incidents: seq<Incident>)

  /** What the loop does to the tables for one finding of an entitled tenant. */
  function Bridged(t: Tables, f: Finding, now: int): (Tables, Effect) {
    if f.isOpen then
      var (incidents, action) := OpenOrRefresh(t.incidents, f.tenant, Lookup(t.links, f.id), f.severity, IncidentFingerprint(f), f.lastSeenAt, now);
      (Tables(t.links[f.id := action.id], incidents), if action.CreatedNew? then CreatedOne else RefreshedOne)
    else if f.id in t.links then
      var (incidents, done) := ResolveThroughBridge(t.incidents, f.tenant, t.links[f.id], f.lastSeenAt);
      (t.(incidents := incidents), if done then ResolvedOne else NoEffect)
    else (t, NoEffect)
  }

  function StepsFor(f: Finding, now: int): seq<Action> {
    if f.isOpen then [HandleFinding(now), WriteLink] else [HandleFinding(now)]
  }

  function ViewOf(findings: map<FindingId, Finding>, t: Tables, cursor: Option<Key>, batch: Batch): State {
    State(findings, t.links, t.incidents, cursor, batch)
  }

  lemma BridgedIsRun(findings: map<FindingId, Finding>, t: Tables, cursor: Option<Key>, queue: seq<Finding>, last: Key, now: int)
    requires queue != []
    ensures Executes(ViewOf(findings, t, cursor, Running(queue, last, None)), StepsFor(queue[0], now),
      ViewOf(findings, Bridged(t, queue[0], now).0, cursor, Running(queue[1..], last, None)))
  {
  }

  lemma {:induction false} JoinRuns(s: State, xs: seq<Action>, m: State, ys: seq<Action>, t: State)
    requires Executes(s, xs, m) && Executes(m, ys, t)
    ensures Executes(s, xs + ys, t)
    decreases |xs|
  {
    if xs == [] {
      assert xs + ys == ys;
    } else {
      assert (xs + ys)[1..] == xs[1..] + ys;
      JoinRuns(Apply(s, xs[0]), xs[1..], m, ys, t);
    }
  }

  // A run without finding writes meets the bridge's ordering hypothesis.
  lemma {:induction false} NoWritesAhead(s: State, acts: seq<Action>, t: State)
    requires Executes(s, acts, t) && forall i :: 0 <= i < |acts| ==> !acts[i].Write?
    ensures AllAhead(s, acts)
    decreases |acts|
  {
    if acts != [] {
      NoWritesAhead(Apply(s, acts[0]), acts[1..], t);
    }
  }

  /** How many incidents are not resolved. */
  function Unresolved(incidents: seq<Incident>): nat {
    if incidents == [] then 0
    else Unresolved(incidents[..|incidents| - 1]) + (if incidents[|incidents| - 1].status.Resolved? then 0 else 1)
  }

  function One(i: Incident): nat {
    if i.status.Resolved? then 0 else 1
  }

  lemma {:induction false} UnresolvedUpdate(incidents: seq<Incident>, k: nat, i: Incident)
    requires k < |incidents|
    ensures Unresolved(incidents[k := i]) == Unresolved(incidents) - One(incidents[k]) + One(i)
  {
    var n := |incidents| - 1;
    if k == n {
      assert incidents[k := i][..n] == incidents[..n];
    } else {
      assert incidents[k := i][..n] == incidents[..n][k := i];
      UnresolvedUpdate(incidents[..n], k, i);
    }
  }

  /** What one finding does to the number of incidents and of unresolved ones. */
  lemma BridgedCounts(t: Tables, f: Finding, now: int)
    ensures var (u, e) := Bridged(t, f, now);
      && |u.incidents| == |t.incidents| + (if e.CreatedOne? then 1 else 0)
      && (e.CreatedOne? ==> Unresolved(u.incidents) == Unresolved(t.incidents) + 1)
      && (e.RefreshedOne? ==> Unresolved(t.incidents) <= Unresolved(u.incidents) <= Unresolved(t.incidents) + 1)
      && (e.ResolvedOne? ==> Unresolved(u.incidents) == Unresolved(t.incidents) - 1)
      && (e.NoEffect? ==> u == t)
  {
    if f.isOpen {
      match BridgeTarget(t.incidents, f.tenant, Lookup(t.links, f.id), IncidentFingerprint(f))
      case None =>
      case Some(k) =>
        UnresolvedUpdate(t.incidents, k, BridgeRefreshed(t.incidents[k], IncidentFingerprint(f), f.severity, f.lastSeenAt, now));
    } else if f.id in t.links && t.links[f.id] < |t.incidents| {
      UnresolvedUpdate(t.incidents, t.links[f.id], BridgeResolved(t.incidents[t.links[f.id]], f.lastSeenAt));
    }
  }

  /** The database's answer to the batch's query: all that is unread, or as much of it as fits. */
  ghost predicate Answers(s: State, rows: seq<Finding>, batchSize: nat) {
    && |rows| <= batchSize
    && (if rows == [] then forall id :: id in s.findings && s.findings[id].bridged ==> !Beyond(s.findings[id], s.cursor)
        else IsNextRows(s, rows))
    && (|rows| < batchSize ==> forall id :: id in s.findings && s.findings[id].bridged && Beyond(s.findings[id], s.cursor) ==> s.findings[id] in rows)
  }

  ghost predicate AllSynced(s: State) {
    forall id :: id in s.findings && s.findings[id].bridged ==> InSync(s.links, s.incidents, s.findings[id])
  }

  // A batch that was not filled has read everything, so nothing lies beyond its cursor.
  lemma DrainedIsSynced(s: State, rows: seq<Finding>, batchSize: nat, t: State)
    requires Answers(s, rows, batchSize) && rows != [] && |rows| < batchSize
    requires Inv(t) && t.findings == s.findings && t.cursor == Some(KeyOf(rows[|rows| - 1]))
    ensures AllSynced(t)
  {
  }

  ghost predicate AllEntitled(rows: seq<Finding>, entitled: string -> bool) {
    forall f :: f in rows ==> entitled(f.tenant)
  }

  // The protocol state after the first k rows.
  ghost function Midway(s: State, t: Tables, rows: seq<Finding>, k: nat): State
    requires k <= |rows| && rows != []
  {
    ViewOf(s.findings, t, s.cursor, Running(rows[k..], KeyOf(rows[|rows| - 1]), None))
  }

  ghost predicate RunSoFar(s: State, acts: seq<Action>, t: Tables, rows: seq<Finding>, k: nat)
    requires k <= |rows| && rows != []
  {
    Executes(s, acts, Midway(s, t, rows, k)) && forall i :: 0 <= i < |acts| ==> !acts[i].Write?
  }

  lemma RunGoesOn(s: State, acts: seq<Action>, t: Tables, rows: seq<Finding>, k: nat, now: int)
    requires rows != [] && k < |rows|
    ensures RunSoFar(s, acts, t, rows, k) ==> RunSoFar(s, acts + StepsFor(rows[k], now), Bridged(t, rows[k], now).0, rows, k + 1)
  {
    if !RunSoFar(s, acts, t, rows, k) {
      return;
    }
    BridgedIsRun(s.findings, t, s.cursor, rows[k..], KeyOf(rows[|rows| - 1]), now);
    assert rows[k..][1..] == rows[k + 1..];
    JoinRuns(s, acts, Midway(s, t, rows, k), StepsFor(rows[k], now), Midway(s, Bridged(t, rows[k], now).0, rows, k + 1));
  }

  lemma RunEnds(s: State, acts: seq<Action>, u: Tables, rows: seq<Finding>, batchSize: nat)
    requires rows != [] && s.batch.Idle? && Answers(s, rows, batchSize) && RunSoFar(s, acts, u, rows, |rows|)
    ensures var t := ViewOf(s.findings, u, Some(KeyOf(rows[|rows| - 1])), Idle);
      && Executes(s, acts + [Commit], t)
      && (Inv(s) ==> Inv(t))
      && (Inv(s) && |rows| < batchSize ==> AllSynced(t))
  {
    var t := ViewOf(s.findings, u, Some(KeyOf(rows[|rows| - 1])), Idle);
    assert rows[|rows|..] == [];
    assert [Commit][1..] == [];
    assert Executes(Midway(s, u, rows, |rows|), [Commit], t);
    JoinRuns(s, acts, Midway(s, u, rows, |rows|), [Commit], t);
    NoWritesAhead(s, acts + [Commit], t);
    if Inv(s) {
      InvAlways(s, acts + [Commit], t);
      if |rows| < batchSize {
        DrainedIsSynced(s, rows, batchSize, t);
      }
    }
  }

  datatype Counts = Counts(created: nat, refreshed: nat, resolved: nat)

  function Tallied(c: Counts, e: Effect): Counts {
    match e
    case NoEffect => c
    case CreatedOne => c.(created := c.created + 1)
    case RefreshedOne => c.(refreshed := c.refreshed + 1)
    case ResolvedOne => c.(resolved := c.resolved + 1)
  }

  /** The counters account for every incident made and bound the change in unresolved ones. */
  predicate Accounts(before: seq<Incident>, after: seq<Incident>, c: Counts) {
    && |after| == |before| + c.created
    && c.created - c.resolved <= Unresolved(after) - Unresolved(before) <= c.created + c.refreshed - c.resolved
  }

  lemma AccountsStep(before: seq<Incident>, t: Tables, c: Counts, f: Finding, now: int)
    requires Accounts(before, t.incidents, c)
    ensures var (u, e) := Bridged(t, f, now); Accounts(before, u.incidents, Tallied(c, e))
  {
    BridgedCounts(t, f, now);
  }

  lemma NothingUnread(s: State, batchSize: nat)
    requires Answers(s, [], batchSize) && Inv(s)
    ensures AllSynced(s)
  {
  }

  // ----- batches over tenants of whom some are entitled and some are not

  ghost function With(s: State, t: Tables): State {
    s.(links := t.links, incidents := t.incidents)
  }

  // One finding's handling as the other incidents see it.
  ghost predicate OnlyItsIncident(before: seq<Incident>, after: seq<Incident>, fp: Fingerprint) {
    && |before| <= |after|
    && (forall j :: 0 <= j < |before| && before[j].fingerprint != fp ==> after[j] == before[j])
    && (forall j :: 0 <= j < |after| && (j < |before| ==> before[j].fingerprint == fp) ==> after[j].fingerprint == fp)
  }

  // The tables after an open finding's handling, as the protocol's step describes them.
  lemma OpenBridgedStructure(s: State, t: Tables, f: Finding, now: int)
    requires Structure(With(s, t)) && f.id in s.findings && s.findings[f.id] == f && f.isOpen
    ensures var u := Bridged(t, f, now).0;
      && Structure(With(s, u)) && InSync(u.links, u.incidents, f) && u.links == t.links[f.id := u.links[f.id]]
  {
    var u := Bridged(t, f, now).0;
    OpenTarget(With(s, t), f, now);
    forall id | id in u.links ensures id in s.findings && MadeFor(u.incidents, u.links[id], s.findings[id]) {
      assert id in t.links ==> MadeFor(t.incidents, t.links[id], s.findings[id]);
    }
  }

  lemma OpenBridgedOthers(s: State, t: Tables, f: Finding, now: int, g: Finding)
    requires Structure(With(s, t)) && f.id in s.findings && s.findings[f.id] == f && f.isOpen
    requires g.id in s.findings && s.findings[g.id] == g && g.id != f.id
    ensures var u := Bridged(t, f, now).0; InSync(u.links, u.incidents, g) == InSync(t.links, t.incidents, g)
  {
    var u := Bridged(t, f, now).0;
    OpenTarget(With(s, t), f, now);
    assert g.id in t.links ==> MadeFor(t.incidents, t.links[g.id], g);
    if u.links[f.id] < |t.incidents| {
      OthersKeepSync(With(s, t), f, u.links[f.id], u.incidents[u.links[f.id]], g);
    }
  }

  lemma OpenBridgedIncidents(s: State, t: Tables, f: Finding, now: int)
    requires Structure(With(s, t)) && f.id in s.findings && s.findings[f.id] == f && f.isOpen
    ensures OnlyItsIncident(t.incidents, Bridged(t, f, now).0.incidents, IncidentFingerprint(f))
  {
    OpenTarget(With(s, t), f, now);
  }

  lemma OpenBridged(s: State, t: Tables, f: Finding, now: int)
    requires Structure(With(s, t)) && f.id in s.findings && s.findings[f.id] == f && f.isOpen
    ensures var u := Bridged(t, f, now).0;
      && Structure(With(s, u)) && InSync(u.links, u.incidents, f) && OnlyItsIncident(t.incidents, u.incidents, IncidentFingerprint(f))
      && u.links == t.links[f.id := u.links[f.id]]
      && forall g: Finding :: g.id in s.findings && s.findings[g.id] == g && g.id != f.id ==>
           InSync(u.links, u.incidents, g) == InSync(t.links, t.incidents, g)
  {
    OpenBridgedStructure(s, t, f, now);
    OpenBridgedIncidents(s, t, f, now);
    forall g: Finding | g.id in s.findings && s.findings[g.id] == g && g.id != f.id
      ensures var u := Bridged(t, f, now).0; InSync(u.links, u.incidents, g) == InSync(t.links, t.incidents, g)
    {
      OpenBridgedOthers(s, t, f, now, g);
    }
  }

  lemma ResolvedBridged(s: State, t: Tables, f: Finding, now: int)
    requires Structure(With(s, t)) && f.id in s.findings && s.findings[f.id] == f && !f.isOpen
    ensures var u := Bridged(t, f, now).0;
      && Structure(With(s, u)) && InSync(u.links, u.incidents, f) && OnlyItsIncident(t.incidents, u.incidents, IncidentFingerprint(f))
      && u.links == t.links
      && forall g: Finding :: g.id in s.findings && s.findings[g.id] == g && g.id != f.id ==>
           InSync(u.links, u.incidents, g) == InSync(t.links, t.incidents, g)
  {
    var m, u := With(s, t), Bridged(t, f, now).0;
    if f.id in t.links {
      var k := t.links[f.id];
      assert MadeFor(t.incidents, k, f);
      forall id | id in t.links ensures MadeFor(u.incidents, u.links[id], s.findings[id]) {
        assert MadeFor(t.incidents, t.links[id], s.findings[id]);
      }
      forall g: Finding | g.id in s.findings && s.findings[g.id] == g && g.id != f.id
        ensures InSync(u.links, u.incidents, g) == InSync(t.links, t.incidents, g)
      {
        OthersKeepSync(m, f, k, u.incidents[k], g);
      }
    }
  }

  // A fingerprint that no entitled tenant's finding has.
  predicate Outside(fp: Fingerprint, entitled: string -> bool) {
    fp.OfFinding? ==> !entitled(fp.tenant)
  }

  /** Findings of tenants who are not entitled keep their links, and the incidents made for them, as well as
      all that are made for no finding, are those that were there, as they were. */
  ghost predicate OutsideUntouched(s: State, t: Tables, entitled: string -> bool) {
    && |s.incidents| <= |t.incidents|
    && (forall id :: id in s.findings && !entitled(s.findings[id].tenant) ==> Lookup(t.links, id) == Lookup(s.links, id))
    && (forall j :: 0 <= j < |s.incidents| && Outside(s.incidents[j].fingerprint, entitled) ==> t.incidents[j] == s.incidents[j])
    && (forall j :: 0 <= j < |t.incidents| && Outside(t.incidents[j].fingerprint, entitled) ==> j < |s.incidents| && t.incidents[j] == s.incidents[j])
  }

  lemma OutsideStays(s: State, t: Tables, u: Tables, f: Finding, entitled: string -> bool)
    requires OutsideUntouched(s, t, entitled) && entitled(f.tenant) && f.id in s.findings && s.findings[f.id] == f
    requires OnlyItsIncident(t.incidents, u.incidents, IncidentFingerprint(f)) && forall id :: id != f.id ==> Lookup(u.links, id) == Lookup(t.links, id)
    ensures OutsideUntouched(s, u, entitled)
  {
    forall j | 0 <= j < |s.incidents| && Outside(s.incidents[j].fingerprint, entitled) ensures u.incidents[j] == s.incidents[j] {
      assert t.incidents[j] == s.incidents[j];
    }
    forall j | 0 <= j < |u.incidents| && Outside(u.incidents[j].fingerprint, entitled)
      ensures j < |s.incidents| && u.incidents[j] == s.incidents[j]
    {
      assert j < |t.incidents| && u.incidents[j] == t.incidents[j];
    }
  }

  /** After its first k rows a batch has brought those of entitled tenants in step, and put none out of step. */
  ghost predicate CaughtUpTo(s: State, t: Tables, rows: seq<Finding>, k: nat, entitled: string -> bool) {
    && k <= |rows| && Structure(With(s, t))
    && (forall i :: 0 <= i < k && entitled(rows[i].tenant) ==> InSync(t.links, t.incidents, rows[i]))
    && (forall id :: id in s.findings && InSync(s.links, s.incidents, s.findings[id]) ==> InSync(t.links, t.incidents, s.findings[id]))
  }

  ghost predicate AsRead(s: State, rows: seq<Finding>) {
    forall i :: 0 <= i < |rows| ==> rows[i].id in s.findings && s.findings[rows[i].id] == rows[i]
  }

  // What handling one finding leaves, whichever way it went.
  ghost predicate OneHandled(s: State, t: Tables, u: Tables, f: Finding) {
    && Structure(With(s, u)) && InSync(u.links, u.incidents, f) && OnlyItsIncident(t.incidents, u.incidents, IncidentFingerprint(f))
    && (forall id :: id != f.id ==> Lookup(u.links, id) == Lookup(t.links, id))
    && (forall g: Finding :: g.id in s.findings && s.findings[g.id] == g && g.id != f.id ==>
          InSync(u.links, u.incidents, g) == InSync(t.links, t.incidents, g))
  }

  lemma BridgedHandles(s: State, t: Tables, f: Finding, now: int)
    requires Structure(With(s, t)) && f.id in s.findings && s.findings[f.id] == f
    ensures OneHandled(s, t, Bridged(t, f, now).0, f)
  {
    if f.isOpen {
      OpenBridged(s, t, f, now);
    } else {
      ResolvedBridged(s, t, f, now);
    }
  }

  lemma CaughtUpOn(s: State, t: Tables, u: Tables, rows: seq<Finding>, k: nat, entitled: string -> bool)
    requires CaughtUpTo(s, t, rows, k, entitled) && AsRead(s, rows) && FindingsOk(s.findings) && k < |rows| && OneHandled(s, t, u, rows[k])
    ensures CaughtUpTo(s, u, rows, k + 1, entitled)
  {
    forall i | 0 <= i < k + 1 && entitled(rows[i].tenant) ensures InSync(u.links, u.incidents, rows[i]) {
      StaysInSync(s, t, u, rows[k], rows[i]);
    }
    forall id | id in s.findings && InSync(s.links, s.incidents, s.findings[id]) ensures InSync(u.links, u.incidents, s.findings[id]) {
      assert s.findings[id].id == id;
      StaysInSync(s, t, u, rows[k], s.findings[id]);
    }
  }

  lemma StaysInSync(s: State, t: Tables, u: Tables, f: Finding, g: Finding)
    requires OneHandled(s, t, u, f) && f.id in s.findings && s.findings[f.id] == f && g.id in s.findings && s.findings[g.id] == g
    ensures InSync(t.links, t.incidents, g) || g == f ==> InSync(u.links, u.incidents, g)
  {
    assert g.id == f.id ==> g == f;
  }

  lemma RowCaughtUp(s: State, t: Tables, rows: seq<Finding>, k: nat, entitled: string -> bool, now: int)
    requires CaughtUpTo(s, t, rows, k, entitled) && OutsideUntouched(s, t, entitled) && AsRead(s, rows) && FindingsOk(s.findings)
    requires k < |rows| && entitled(rows[k].tenant)
    ensures var u := Bridged(t, rows[k], now).0; CaughtUpTo(s, u, rows, k + 1, entitled) && OutsideUntouched(s, u, entitled)
  {
    var u := Bridged(t, rows[k], now).0;
    BridgedHandles(s, t, rows[k], now);
    CaughtUpOn(s, t, u, rows, k, entitled);
    OutsideStays(s, t, u, rows[k], entitled);
  }

  ghost predicate Serves(s: State, t: Tables, rows: seq<Finding>, k: nat, entitled: string -> bool) {
    CaughtUpTo(s, t, rows, k, entitled) && OutsideUntouched(s, t, entitled)
  }

  lemma NothingYet(s: State, rows: seq<Finding>, entitled: string -> bool)
    requires Structure(s)
    ensures Serves(s, Tables(s.links, s.incidents), rows, 0, entitled)
  {
    assert With(s, Tables(s.links, s.incidents)) == s;
  }

  lemma ServesOn(s: State, t: Tables, rows: seq<Finding>, k: nat, entitled: string -> bool, now: int)
    requires AsRead(s, rows) && FindingsOk(s.findings) && k < |rows| && Serves(s, t, rows, k, entitled)
    ensures Serves(s, if entitled(rows[k].tenant) then Bridged(t, rows[k], now).0 else t, rows, k + 1, entitled)
  {
    if entitled(rows[k].tenant) {
      RowCaughtUp(s, t, rows, k, entitled, now);
    }
  }

  /** What holds between the batches of a bridge that serves some tenants: what they have behind the cursor is in step. */
  ghost predicate ServedInv(s: State, entitled: string -> bool) {
    && Structure(s)
    && (forall id :: id in s.findings && s.findings[id].bridged && entitled(s.findings[id].tenant) && !Beyond(s.findings[id], s.cursor) ==>
          InSync(s.links, s.incidents, s.findings[id]))
  }

  ghost predicate ServedSynced(s: State, entitled: string -> bool) {
    forall id :: id in s.findings && s.findings[id].bridged && entitled(s.findings[id].tenant) ==> InSync(s.links, s.incidents, s.findings[id])
  }

  ghost predicate RowsSynced(rows: seq<Finding>, t: Tables, entitled: string -> bool) {
    forall f :: f in rows && entitled(f.tenant) ==> InSync(t.links, t.incidents, f)
  }

  lemma BatchServes(s: State, u: Tables, rows: seq<Finding>, batchSize: nat, entitled: string -> bool)
    requires ServedInv(s, entitled) && rows != [] && Answers(s, rows, batchSize) && CaughtUpTo(s, u, rows, |rows|, entitled)
    ensures var t := With(s, u).(cursor := Some(KeyOf(rows[|rows| - 1])));
      && ServedInv(t, entitled) && RowsSynced(rows, u, entitled)
      && (|rows| < batchSize ==> ServedSynced(t, entitled))
  {
    forall id | id in s.findings && s.findings[id].bridged && entitled(s.findings[id].tenant)
      ensures s.findings[id] in rows || !Beyond(s.findings[id], s.cursor) ==> InSync(u.links, u.incidents, s.findings[id])
    {
    }
  }

  ghost predicate NoneEntitled(rows: seq<Finding>, entitled: string -> bool) {
    forall f :: f in rows ==> !entitled(f.tenant)
  }

  /** Where the loop stands after its first k rows. */
  ghost predicate TurnsOk(s: State, t: Tables, acts: seq<Action>, c: Counts, rows: seq<Finding>, k: nat, entitled: string -> bool) {
    && rows != [] && k <= |rows| && c.created + c.refreshed + c.resolved <= k
    && Accounts(s.incidents, t.incidents, c)
    && (AllEntitled(rows, entitled) ==> RunSoFar(s, acts, t, rows, k))
    && (NoneEntitled(rows, entitled) ==> t == Tables(s.links, s.incidents))
    && (Structure(s) ==> Serves(s, t, rows, k, entitled))
  }

  lemma ReadRuns(s: State, rows: seq<Finding>)
    requires rows != [] && s.batch.Idle? && IsNextRows(s, rows)
    ensures RunSoFar(s, [Read(rows)], Tables(s.links, s.incidents), rows, 0)
  {
    assert rows[0..] == rows && [Read(rows)][1..] == [];
  }

  lemma NoTurnYet(s: State, rows: seq<Finding>, entitled: string -> bool)
    requires rows != [] && s.batch.Idle? && IsNextRows(s, rows)
    ensures TurnsOk(s, Tables(s.links, s.incidents), [Read(rows)], Counts(0, 0, 0), rows, 0, entitled)
  {
    ReadRuns(s, rows);
    if Structure(s) {
      NothingYet(s, rows, entitled);
    }
  }

  lemma TurnTaken(s: State, t: Tables, acts: seq<Action>, c: Counts, rows: seq<Finding>, k: nat, entitled: string -> bool, now: int)
    requires TurnsOk(s, t, acts, c, rows, k, entitled) && k < |rows| && AsRead(s, rows) && entitled(rows[k].tenant)
    ensures TurnsOk(s, Bridged(t, rows[k], now).0, acts + StepsFor(rows[k], now), Tallied(c, Bridged(t, rows[k], now).1), rows, k + 1, entitled)
  {
    assert rows[k] in rows;
    AccountsStep(s.incidents, t, c, rows[k], now);
    RunGoesOn(s, acts, t, rows, k, now);
    if Structure(s) {
      ServesOn(s, t, rows, k, entitled, now);
    }
  }

  lemma TurnSkipped(s: State, t: Tables, acts: seq<Action>, c: Counts, rows: seq<Finding>, k: nat, entitled: string -> bool, now: int)
    requires TurnsOk(s, t, acts, c, rows, k, entitled) && k < |rows| && AsRead(s, rows) && !entitled(rows[k].tenant)
    ensures TurnsOk(s, t, acts, c, rows, k + 1, entitled)
  {
    assert rows[k] in rows;
    if Structure(s) {
      ServesOn(s, t, rows, k, entitled, now);
    }
  }

  /** What a batch has done once its cursor is written. */
  ghost predicate BatchServed(s: State, t: State, acts: seq<Action>, rows: seq<Finding>, batchSize: nat, entitled: string -> bool) {
    && (AllEntitled(rows, entitled) ==> Executes(s, acts, t) && (Inv(s) ==> Inv(t) && (|rows| < batchSize ==> AllSynced(t))))
    && (NoneEntitled(rows, entitled) ==> t.incidents == s.incidents && t.links == s.links)
    && (ServedInv(s, entitled) ==>
          && ServedInv(t, entitled) && RowsSynced(rows, Tables(t.links, t.incidents), entitled)
          && (|rows| < batchSize ==> ServedSynced(t, entitled)))
    && (Structure(s) ==> OutsideUntouched(s, Tables(t.links, t.incidents), entitled))
  }

  lemma TurnsEnd(s: State, u: Tables, acts: seq<Action>, c: Counts, rows: seq<Finding>, batchSize: nat, entitled: string -> bool)
    requires s.batch.Idle? && Answers(s, rows, batchSize) && TurnsOk(s, u, acts, c, rows, |rows|, entitled)
    ensures BatchServed(s, ViewOf(s.findings, u, Some(KeyOf(rows[|rows| - 1])), Idle), acts + [Commit], rows, batchSize, entitled)
  {
    assert With(s, u).(cursor := Some(KeyOf(rows[|rows| - 1]))) == ViewOf(s.findings, u, Some(KeyOf(rows[|rows| - 1])), Idle);
    if AllEntitled(rows, entitled) {
      RunEnds(s, acts, u, rows, batchSize);
    }
    if ServedInv(s, entitled) {
      BatchServes(s, u, rows, batchSize, entitled);
    }
  }

  lemma EmptyBatch(s: State, batchSize: nat, entitled: string -> bool)
    requires Answers(s, [], batchSize)
    ensures BatchServed(s, s, [], [], batchSize, entitled)
  {
    if Inv(s) {
      NothingUnread(s, batchSize);
    }
  }

  /** The protocol's invariant gives what a bridge that serves some tenants keeps, whichever they are. */
  lemma InvServes(s: State, entitled: string -> bool)
    requires Inv(s)
    ensures ServedInv(s, entitled)
  {
  }

  class Bridge {
    var findings: map<FindingId, Finding>
    var links: map<FindingId, nat>
    const service: Service
    var cursor: Option<Key>

    ghost function View(): State
      reads this, service
    {
      State(findings, links, service.incidents, cursor, Idle)
    }

    constructor (service: Service)
      ensures this.service == service && View() == START.(incidents := service.incidents)
    {
      this.service := service;
      findings, links, cursor := map[], map[], None;
    }

    method BridgeFinding(f: Finding, now: int) returns (e: Effect)
      modifies this`links, service
      ensures (Tables(links, service.incidents), e) == Bridged(Tables(old(links), old(service.incidents)), f, now)
      ensures f.isOpen ==>
        && f.id in links && links == old(links)[f.id := links[f.id]] && links[f.id] < |service.incidents|
        && service.incidents[links[f.id]].status.Open? && service.incidents[links[f.id]].severity == f.severity
        && service.incidents[links[f.id]].fingerprint == OfFinding(f.tenant, f.fingerprint)
        && service.incidents[links[f.id]].lastSeenAt == f.lastSeenAt
        && (e.CreatedOne? || e.RefreshedOne?)
      ensures f.isOpen && f.id in old(links) && old(links)[f.id] < |old(service.incidents)| && old(service.incidents)[old(links)[f.id]].tenant == f.tenant ==>
        links == old(links) && e.RefreshedOne?
      ensures !f.isOpen ==> links == old(links)
      ensures !f.isOpen && f.id in old(links) && old(links)[f.id] < |old(service.incidents)| && old(service.incidents)[old(links)[f.id]].tenant == f.tenant ==>
        service.incidents[old(links)[f.id]].status.Resolved?
    {
      if f.isOpen {
        var action := service.OpenOrRefreshBridgeIncident(f.tenant, Lookup(links, f.id), f.severity, IncidentFingerprint(f), f.lastSeenAt, now);
        links := links[f.id := action.id];
        return if action.CreatedNew? then CreatedOne else RefreshedOne;
      }
      if f.id !in links {
        return NoEffect;
      }
      var resolved := service.ResolveBridgeIncident(f.tenant, links[f.id], f.lastSeenAt);
      return if resolved then ResolvedOne else NoEffect;
    }

    /** Handles the rows of entitled tenants in order, counting what was done. */
    method BridgeAll(rows: seq<Finding>, entitled: string -> bool, clock: nat -> int, ghost start: State)
      returns (c: Counts, ghost acts: seq<Action>)
      requires rows != [] && start == View() && IsNextRows(start, rows)
      modifies this`links, service
      ensures TurnsOk(start, Tables(links, service.incidents), acts, c, rows, |rows|, entitled)
    {
      acts := [Read(rows)];
      c := Counts(0, 0, 0);
      NoTurnYet(start, rows, entitled);
      for k := 0 to |rows|
        invariant TurnsOk(start, Tables(links, service.incidents), acts, c, rows, k, entitled)
      {
        if !entitled(rows[k].tenant) {
          TurnSkipped(start, Tables(links, service.incidents), acts, c, rows, k, entitled, clock(k));
          continue;
        }
        TurnTaken(start, Tables(links, service.incidents), acts, c, rows, k, entitled, clock(k));
        var e := BridgeFinding(rows[k], clock(k));
        c := Tallied(c, e);
        acts := acts + StepsFor(rows[k], clock(k));
      }
    }

    /** A batch over the rows its query returned. It accounts for every incident it makes or resolves; and
        when every tenant in it is entitled it is a run of the bridge protocol, so it keeps the invariant,
        and one that was not filled leaves every bridged finding in step with its incident. Whatever mixture of
        tenants it reads, it brings every row of an entitled one in step, and one that was not filled leaves all
        their bridged findings in step; what belongs to tenants who are not entitled stays as it was. */
    method RunIncidentBridgeBatch(rows: seq<Finding>, batchSize: nat, entitled: string -> bool, clock: nat -> int)
      returns (r: RunResult, ghost acts: seq<Action>)
      requires Answers(View(), rows, batchSize)
      modifies this`links, this`cursor, service
      ensures rows == [] ==> View() == old(View()) && r == RunResult(0, 0, 0, 0, false)
      ensures rows != [] ==> r.processed == |rows| && r.cursorAdvanced && cursor == Some(KeyOf(rows[|rows| - 1]))
      ensures r.created + r.refreshed + r.resolved <= r.processed
      ensures Accounts(old(service.incidents), service.incidents, Counts(r.created, r.refreshed, r.resolved))
      ensures BatchServed(old(View()), View(), acts, rows, batchSize, entitled)
    {
      ghost var start := View();
      if rows == [] {
        EmptyBatch(start, batchSize, entitled);
        return RunResult(0, 0, 0, 0, false), [];
      }
      var c: Counts;
      c, acts := BridgeAll(rows, entitled, clock, start);
      cursor := Some(KeyOf(rows[|rows| - 1]));
      r := RunResult(|rows|, c.created, c.refreshed, c.resolved, true);
      TurnsEnd(start, Tables(links, service.incidents), acts, c, rows, batchSize, entitled);
      acts := acts + [Commit];
    }
  }
}
