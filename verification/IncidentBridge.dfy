/** The bridge from findings to incidents: batches behind an (updated_at, id) cursor, one database write at
    a time, with findings being written meanwhile and batches that may die half-way. */
module IncidentBridge {
  import opened Prelude
  import opened Incidents

  type FindingId = nat

  // The position of a finding write: its updated_at and the finding's id.
  datatype Key = Key(updatedAt: int, id: FindingId)

  // `bridged` says that source and rule are among those the bridge takes; neither ever changes.
  datatype Finding = Finding(
    id: FindingId,
    tenant: string,
    fingerprint: string,
    bridged: bool,
    isOpen: bool,
    severity: Severity,
    lastSeenAt: int,
    updatedAt: int)

  function KeyOf(f: Finding): Key {
    Key(f.updatedAt, f.id)
  }

  predicate Before(a: Key, b: Key) {
    a.updatedAt < b.updatedAt || (a.updatedAt == b.updatedAt && a.id < b.id)
  }

  /** Keys are in one line, by time first: of two different ones exactly one is before the other. */
  lemma KeysInLine(a: Key, b: Key, c: Key)
    ensures !(Before(a, b) && Before(b, a)) && (a != b ==> Before(a, b) || Before(b, a))
    ensures Before(a, b) && Before(b, c) ==> Before(a, c)
    ensures a.updatedAt < b.updatedAt ==> Before(a, b)
    ensures a.updatedAt == b.updatedAt && a.id < b.id ==> Before(a, b)
  {
  }

  predicate Beyond(f: Finding, cursor: Option<Key>) {
    cursor.None? || Before(cursor.value, KeyOf(f))
  }

  function IncidentFingerprint(f: Finding): Fingerprint {
    OfFinding(f.tenant, f.fingerprint)
  }

  // A batch in progress: the findings as read and not yet handled, the key the cursor will move to, and
  // the incident just opened or refreshed for the first of them whose link is still to be written.
  datatype Batch = Idle | Running(queue: seq<Finding>, last: Key, linking: Option<nat>)

  datatype State = State(
    findings: map<FindingId, Finding>,
    links: map<FindingId, nat>,
    incidents: seq<Incident>,
    cursor: Option<Key>,
    batch: Batch)

  datatype Action =
    | Write(f: Finding)
    | Read(rows: seq<Finding>)
    | HandleFinding(now: int)
    | WriteLink
    | Commit
    | Crash
    | ForeignIncident(k: nat, i: Incident)

  // ----- what a batch reads

  ghost predicate InOrder(rows: seq<Finding>) {
    forall i, j :: 0 <= i < j < |rows| ==> Before(KeyOf(rows[i]), KeyOf(rows[j]))
  }

  /** The rows are the first unread bridged findings in key order: whatever is unread and not among them
      comes after them all. */
  ghost predicate IsNextRows(s: State, rows: seq<Finding>) {
    && rows != [] && InOrder(rows)
    && (forall i :: 0 <= i < |rows| ==> rows[i].id in s.findings && s.findings[rows[i].id] == rows[i] && rows[i].bridged && Beyond(rows[i], s.cursor))
    && (forall id :: id in s.findings && s.findings[id].bridged && Beyond(s.findings[id], s.cursor) && s.findings[id] !in rows ==>
          Before(KeyOf(rows[|rows| - 1]), KeyOf(s.findings[id])))
  }

  /** Identity fields never change, and no two findings share tenant and fingerprint. */
  ghost predicate WriteAllowed(s: State, f: Finding) {
    && (f.id in s.findings ==>
          var g := s.findings[f.id]; f.tenant == g.tenant && f.fingerprint == g.fingerprint && f.bridged == g.bridged)
    && (forall id :: id in s.findings && id != f.id ==> !(s.findings[id].tenant == f.tenant && s.findings[id].fingerprint == f.fingerprint))
  }

  /** The write's key lies above the cursor, and above the rows of a batch in progress. */
  predicate WriteAhead(s: State, f: Finding) {
    Beyond(f, s.cursor) && (s.batch.Running? ==> Before(s.batch.last, KeyOf(f)))
  }

  ghost predicate Enabled(s: State, a: Action) {
    match a
    case Write(f) => WriteAllowed(s, f)
    case Read(rows) => s.batch.Idle? && IsNextRows(s, rows)
    case HandleFinding(_) => s.batch.Running? && s.batch.queue != [] && s.batch.linking.None?
    case WriteLink => s.batch.Running? && s.batch.queue != [] && s.batch.linking.Some?
    case Commit => s.batch.Running? && s.batch.queue == []
    case Crash => s.batch.Running?
    case ForeignIncident(k, i) => k <= |s.incidents| && ForeignAllowed(s.incidents, k, i)
  }

  /** Other writers keep to other makers' incidents, except that breach passes mark a finding's incident too:
      that leaves its status, its tenant and its fingerprint. */
  predicate ForeignAllowed(incidents: seq<Incident>, k: nat, i: Incident)
    requires k <= |incidents|
  {
    if k < |incidents| && incidents[k].fingerprint.OfFinding?
    then i.status == incidents[k].status && i.tenant == incidents[k].tenant && i.fingerprint == incidents[k].fingerprint
    else !i.fingerprint.OfFinding?
  }

  function Lookup(links: map<FindingId, nat>, id: FindingId): Option<nat> {
    if id in links then Some(links[id]) else None
  }

  ghost function Apply(s: State, a: Action): State
    requires Enabled(s, a)
  {
    match a
    case Write(f) => s.(findings := s.findings[f.id := f])
    case Read(rows) => s.(batch := Running(rows, KeyOf(rows[|rows| - 1]), None))
    case HandleFinding(now) =>
      var f := s.batch.queue[0];
      if f.isOpen then
        var (incidents, action) := OpenOrRefresh(s.incidents, f.tenant, Lookup(s.links, f.id), f.severity, IncidentFingerprint(f), f.lastSeenAt, now);
        s.(incidents := incidents, batch := s.batch.(linking := Some(action.id)))
      else if f.id in s.links then
        s.(incidents := ResolveThroughBridge(s.incidents, f.tenant, s.links[f.id], f.lastSeenAt).0,
           batch := s.batch.(queue := s.batch.queue[1..]))
      else s.(batch := s.batch.(queue := s.batch.queue[1..]))
    case WriteLink =>
      s.(links := s.links[s.batch.queue[0].id := s.batch.linking.value],
         batch := s.batch.(queue := s.batch.queue[1..], linking := None))
    case Commit => s.(cursor := Some(s.batch.last), batch := Idle)
    case Crash => s.(batch := Idle)
    case ForeignIncident(k, i) =>
      s.(incidents := if k == |s.incidents| then s.incidents + [i] else s.incidents[k := i])
  }

  ghost predicate Executes(s: State, acts: seq<Action>, t: State)
    decreases |acts|
  {
    if acts == [] then s == t
    else Enabled(s, acts[0]) && Executes(Apply(s, acts[0]), acts[1..], t)
  }

  /** Every finding write lands ahead of the bridge. */
  ghost predicate AllAhead(s: State, acts: seq<Action>)
    decreases |acts|
  {
    acts == [] ||
    (Enabled(s, acts[0]) && (acts[0].Write? ==> WriteAhead(s, acts[0].f)) && AllAhead(Apply(s, acts[0]), acts[1..]))
  }

  const START: State := State(map[], map[], [], None, Idle)

  // ----- the invariant

  ghost predicate FindingsOk(findings: map<FindingId, Finding>) {
    && (forall id :: id in findings ==> findings[id].id == id)
    && (forall i, j :: i in findings && j in findings && i != j ==>
          !(findings[i].tenant == findings[j].tenant && findings[i].fingerprint == findings[j].fingerprint))
  }

  /** Incidents made for findings carry their tenant, and there is at most one for each finding. */
  ghost predicate IncidentsOk(incidents: seq<Incident>) {
    && (forall i :: 0 <= i < |incidents| && incidents[i].fingerprint.OfFinding? ==> incidents[i].tenant == incidents[i].fingerprint.tenant)
    && (forall i, j :: 0 <= i < j < |incidents| && incidents[i].fingerprint.OfFinding? ==> incidents[i].fingerprint != incidents[j].fingerprint)
  }

  ghost predicate MadeFor(incidents: seq<Incident>, k: nat, f: Finding) {
    k < |incidents| && incidents[k].fingerprint == IncidentFingerprint(f) && incidents[k].tenant == f.tenant
  }

  ghost predicate LinksOk(findings: map<FindingId, Finding>, links: map<FindingId, nat>, incidents: seq<Incident>) {
    forall id :: id in links ==> id in findings && MadeFor(incidents, links[id], findings[id])
  }

  /** The finding's incident says what the finding says. */
  ghost predicate InSync(links: map<FindingId, nat>, incidents: seq<Incident>, f: Finding) {
    && (f.isOpen ==> f.id in links)
    && (f.id in links ==> links[f.id] < |incidents| && (incidents[links[f.id]].status.Open? <==> f.isOpen))
  }

  ghost predicate CaughtUp(s: State) {
    forall id :: id in s.findings && s.findings[id].bridged && !Beyond(s.findings[id], s.cursor) ==>
      InSync(s.links, s.incidents, s.findings[id])
  }

  // A finding read into the batch is still as read, or has been written again beyond the batch.
  ghost predicate SnapshotOk(s: State, f: Finding)
    requires s.batch.Running?
  {
    && f.id in s.findings && f.bridged && Beyond(f, s.cursor) && !Before(s.batch.last, KeyOf(f))
    && f.tenant == s.findings[f.id].tenant && f.fingerprint == s.findings[f.id].fingerprint
    && (s.findings[f.id] == f || Before(s.batch.last, KeyOf(s.findings[f.id])))
  }

  ghost predicate BatchOk(s: State) {
    s.batch.Running? ==>
      && (forall i :: 0 <= i < |s.batch.queue| ==> SnapshotOk(s, s.batch.queue[i]))
      && (forall id :: id in s.findings && s.findings[id].bridged && !Before(s.batch.last, KeyOf(s.findings[id])) ==>
            s.findings[id] in s.batch.queue || InSync(s.links, s.incidents, s.findings[id]))
      && (s.cursor.Some? ==> Before(s.cursor.value, s.batch.last))
      && (s.batch.linking.Some? ==>
            && s.batch.queue != [] && s.batch.queue[0].isOpen
            && MadeFor(s.incidents, s.batch.linking.value, s.batch.queue[0])
            && s.incidents[s.batch.linking.value].status.Open?)
  }

  /** What holds whether or not writes land ahead of the bridge. */
  ghost predicate Structure(s: State) {
    FindingsOk(s.findings) && IncidentsOk(s.incidents) && LinksOk(s.findings, s.links, s.incidents)
  }

  ghost predicate Inv(s: State) {
    Structure(s) && CaughtUp(s) && BatchOk(s)
  }

  predicate IdentityOf(s: State, f: Finding) {
    f.id in s.findings && f.tenant == s.findings[f.id].tenant && f.fingerprint == s.findings[f.id].fingerprint
  }

  // Writing to one finding's own incident leaves every other finding as it was.
  lemma OthersKeepSync(s: State, f: Finding, k: nat, i: Incident, g: Finding)
    requires Structure(s) && IdentityOf(s, f) && g.id in s.findings && s.findings[g.id] == g && g.id != f.id
    requires MadeFor(s.incidents, k, f)
    ensures InSync(s.links, s.incidents[k := i], g) == InSync(s.links, s.incidents, g)
  {
  }

  // Where an open finding's incident is found or made.
  lemma OpenTarget(s: State, f: Finding, now: int)
    requires Structure(s) && IdentityOf(s, f)
    ensures var (incidents, action) := OpenOrRefresh(s.incidents, f.tenant, Lookup(s.links, f.id), f.severity, IncidentFingerprint(f), f.lastSeenAt, now);
      && MadeFor(incidents, action.id, f) && incidents[action.id].status.Open?
      && IncidentsOk(incidents)
      && (f.id in s.links ==> action.id == s.links[f.id])
      && (if action.CreatedNew? then f.id !in s.links && incidents == s.incidents + [incidents[action.id]]
          else MadeFor(s.incidents, action.id, f) && incidents == s.incidents[action.id := incidents[action.id]])
  {
    if f.id in s.links {
      assert MadeFor(s.incidents, s.links[f.id], s.findings[f.id]);
    }
  }

  lemma HandleOpen(s: State, now: int)
    requires Inv(s) && Enabled(s, HandleFinding(now)) && s.batch.queue[0].isOpen
    ensures Inv(Apply(s, HandleFinding(now)))
  {
    var t := Apply(s, HandleFinding(now));
    var f := s.batch.queue[0];
    OpenTarget(s, f, now);
    var k := t.batch.linking.value;
    forall id | id in s.links ensures MadeFor(t.incidents, t.links[id], t.findings[id]) {
      assert MadeFor(s.incidents, s.links[id], s.findings[id]);
    }
    forall id | id in s.findings && id != f.id && InSync(s.links, s.incidents, s.findings[id])
      ensures InSync(t.links, t.incidents, t.findings[id])
    {
      assert s.findings[id].id == id;
      if k < |s.incidents| {
        OthersKeepSync(s, f, k, t.incidents[k], s.findings[id]);
      }
    }
    HeadStaysQueued(s, t);
  }

  // A step that handles the head of the queue answers for the head's finding only.
  lemma HeadStaysQueued(s: State, t: State)
    requires Inv(s) && s.batch.Running? && s.batch.queue != [] && t.batch.Running?
    requires t.findings == s.findings && t.cursor == s.cursor && t.batch.queue == s.batch.queue && t.batch.last == s.batch.last
    requires forall id :: id in s.findings && id != s.batch.queue[0].id && InSync(s.links, s.incidents, s.findings[id]) ==>
               InSync(t.links, t.incidents, t.findings[id])
    ensures CaughtUp(t)
    ensures forall id :: id in t.findings && t.findings[id].bridged && !Before(t.batch.last, KeyOf(t.findings[id])) ==>
              t.findings[id] in t.batch.queue || InSync(t.links, t.incidents, t.findings[id])
    ensures forall i :: 0 <= i < |t.batch.queue| ==> SnapshotOk(t, t.batch.queue[i])
  {
  }

  // Dropping the head once its finding is in sync, or has moved beyond the batch.
  lemma HeadLeaves(s: State, t: State)
    requires Inv(s) && s.batch.Running? && s.batch.queue != [] && t.batch == Running(s.batch.queue[1..], s.batch.last, None)
    requires t.findings == s.findings && t.cursor == s.cursor
    requires forall id :: id in s.findings && id != s.batch.queue[0].id && InSync(s.links, s.incidents, s.findings[id]) ==>
               InSync(t.links, t.incidents, t.findings[id])
    requires s.findings[s.batch.queue[0].id] == s.batch.queue[0] ==> InSync(t.links, t.incidents, s.batch.queue[0])
    ensures CaughtUp(t) && BatchOk(t)
  {
  }

  lemma HandleResolved(s: State, now: int)
    requires Inv(s) && Enabled(s, HandleFinding(now)) && !s.batch.queue[0].isOpen
    ensures Inv(Apply(s, HandleFinding(now)))
  {
    var t := Apply(s, HandleFinding(now));
    var f := s.batch.queue[0];
    assert SnapshotOk(s, f);
    if f.id in s.links {
      var k := s.links[f.id];
      assert MadeFor(s.incidents, k, s.findings[f.id]);
      assert t.incidents == s.incidents[k := t.incidents[k]];
      forall id | id in s.findings && id != f.id && InSync(s.links, s.incidents, s.findings[id])
        ensures InSync(t.links, t.incidents, t.findings[id])
      {
        assert s.findings[id].id == id;
        OthersKeepSync(s, f, k, t.incidents[k], s.findings[id]);
      }
      forall id | id in s.links ensures MadeFor(t.incidents, t.links[id], t.findings[id]) {
        assert MadeFor(s.incidents, s.links[id], s.findings[id]);
      }
    }
    HeadLeaves(s, t);
  }

  lemma LinkStep(s: State)
    requires Inv(s) && Enabled(s, WriteLink)
    ensures Inv(Apply(s, WriteLink))
  {
    var t := Apply(s, WriteLink);
    var f := s.batch.queue[0];
    assert SnapshotOk(s, f);
    HeadLeaves(s, t);
  }

  lemma ReadStep(s: State, rows: seq<Finding>)
    requires Inv(s) && Enabled(s, Read(rows))
    ensures Inv(Apply(s, Read(rows)))
  {
  }

  lemma WriteStep(s: State, f: Finding)
    requires Inv(s) && Enabled(s, Write(f)) && WriteAhead(s, f)
    ensures Inv(Apply(s, Write(f)))
  {
    var t := Apply(s, Write(f));
    forall id | id in t.links ensures id in t.findings && MadeFor(t.incidents, t.links[id], t.findings[id]) {
      assert MadeFor(s.incidents, s.links[id], s.findings[id]);
    }
    if s.batch.Running? {
      forall i | 0 <= i < |t.batch.queue| ensures SnapshotOk(t, t.batch.queue[i]) {
        assert SnapshotOk(s, s.batch.queue[i]);
      }
    }
  }

  // What a foreign write leaves of the table, as far as findings are concerned.
  ghost predicate SameForFindings(before: seq<Incident>, after: seq<Incident>) {
    && |before| <= |after|
    && (forall k :: 0 <= k < |before| && before[k].fingerprint.OfFinding? ==>
          after[k].fingerprint == before[k].fingerprint && after[k].tenant == before[k].tenant && after[k].status == before[k].status)
    && (forall k :: 0 <= k < |after| && (k < |before| ==> !before[k].fingerprint.OfFinding?) ==> !after[k].fingerprint.OfFinding?)
  }

  lemma ForeignKeepsIncidents(before: seq<Incident>, after: seq<Incident>)
    requires SameForFindings(before, after) && IncidentsOk(before)
    ensures IncidentsOk(after)
  {
  }

  lemma ForeignKeepsFinding(s: State, after: seq<Incident>, id: FindingId)
    requires Structure(s) && SameForFindings(s.incidents, after) && id in s.findings
    ensures id in s.links ==> MadeFor(after, s.links[id], s.findings[id])
    ensures InSync(s.links, after, s.findings[id]) == InSync(s.links, s.incidents, s.findings[id])
  {
    assert s.findings[id].id == id;
    assert id in s.links ==> MadeFor(s.incidents, s.links[id], s.findings[id]);
  }

  lemma ForeignKeepsStructure(s: State, t: State)
    requires Structure(s) && SameForFindings(s.incidents, t.incidents) && t == s.(incidents := t.incidents)
    ensures Structure(t)
  {
    ForeignKeepsIncidents(s.incidents, t.incidents);
    forall id | id in t.links ensures id in t.findings && MadeFor(t.incidents, t.links[id], t.findings[id]) {
      ForeignKeepsFinding(s, t.incidents, id);
    }
  }

  lemma ForeignKeepsBatch(s: State, t: State)
    requires Inv(s) && SameForFindings(s.incidents, t.incidents) && t == s.(incidents := t.incidents)
    requires forall id :: id in s.findings ==> InSync(t.links, t.incidents, s.findings[id]) == InSync(s.links, s.incidents, s.findings[id])
    ensures CaughtUp(t) && BatchOk(t)
  {
    if s.batch.Running? {
      forall j | 0 <= j < |t.batch.queue| ensures SnapshotOk(t, t.batch.queue[j]) {
        assert SnapshotOk(s, s.batch.queue[j]);
      }
    }
  }

  lemma ForeignStep(s: State, k: nat, i: Incident)
    requires Inv(s) && Enabled(s, ForeignIncident(k, i))
    ensures Inv(Apply(s, ForeignIncident(k, i)))
  {
    var t := Apply(s, ForeignIncident(k, i));
    forall id | id in s.findings
      ensures InSync(t.links, t.incidents, s.findings[id]) == InSync(s.links, s.incidents, s.findings[id])
    {
      ForeignKeepsFinding(s, t.incidents, id);
    }
    ForeignKeepsStructure(s, t);
    ForeignKeepsBatch(s, t);
  }

  lemma InvStep(s: State, a: Action)
    requires Inv(s) && Enabled(s, a) && (a.Write? ==> WriteAhead(s, a.f))
    ensures Inv(Apply(s, a))
  {
    match a
    case Write(f) => WriteStep(s, f);
    case Read(rows) => ReadStep(s, rows);
    case HandleFinding(now) =>
      if s.batch.queue[0].isOpen {
        HandleOpen(s, now);
      } else {
        HandleResolved(s, now);
      }
    case WriteLink => LinkStep(s);
    case Commit =>
    case Crash =>
    case ForeignIncident(k, i) => ForeignStep(s, k, i);
  }

  lemma {:induction false} InvAlways(s: State, acts: seq<Action>, t: State)
    requires Inv(s) && Executes(s, acts, t) && AllAhead(s, acts)
    ensures Inv(t)
    decreases |acts|
  {
    if acts != [] {
      InvStep(s, acts[0]);
      InvAlways(Apply(s, acts[0]), acts[1..], t);
    }
  }
}
