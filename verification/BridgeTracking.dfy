/** The bridge without any assumption on where finding writes land, and one finding from one write of it to
    the next. */
module BridgeTracking {
  import opened Prelude
  import opened Incidents
  import opened IncidentBridge

  // ----- what holds in every run, wherever writes land

  ghost predicate QueueKnown(s: State) {
    s.batch.Running? ==>
      && (forall i :: 0 <= i < |s.batch.queue| ==> IdentityOf(s, s.batch.queue[i]) && !Before(s.batch.last, KeyOf(s.batch.queue[i])))
      && (s.batch.linking.Some? ==>
            s.batch.queue != [] && s.batch.queue[0].isOpen && MadeFor(s.incidents, s.batch.linking.value, s.batch.queue[0]))
  }

  ghost predicate Sound(s: State) {
    Structure(s) && QueueKnown(s)
  }

  lemma SoundOpen(s: State, now: int)
    requires Sound(s) && Enabled(s, HandleFinding(now)) && s.batch.queue[0].isOpen
    ensures Sound(Apply(s, HandleFinding(now)))
  {
    var t := Apply(s, HandleFinding(now));
    OpenTarget(s, s.batch.queue[0], now);
    forall id | id in s.links ensures id in t.findings && MadeFor(t.incidents, t.links[id], t.findings[id]) {
      assert MadeFor(s.incidents, s.links[id], s.findings[id]);
    }
  }

  lemma SameOwnersKeepStructure(s: State, t: State)
    requires Structure(s) && t.findings == s.findings && t.links == s.links && |t.incidents| == |s.incidents|
    requires forall k :: 0 <= k < |s.incidents| ==>
               t.incidents[k].tenant == s.incidents[k].tenant && t.incidents[k].fingerprint == s.incidents[k].fingerprint
    ensures Structure(t)
  {
    forall id | id in s.links ensures id in t.findings && MadeFor(t.incidents, t.links[id], t.findings[id]) {
      assert MadeFor(s.incidents, s.links[id], s.findings[id]);
    }
  }

  lemma SoundResolved(s: State, now: int)
    requires Sound(s) && Enabled(s, HandleFinding(now)) && !s.batch.queue[0].isOpen
    ensures Sound(Apply(s, HandleFinding(now)))
  {
    SameOwnersKeepStructure(s, Apply(s, HandleFinding(now)));
  }

  lemma SoundWrite(s: State, f: Finding)
    requires Sound(s) && Enabled(s, Write(f))
    ensures Sound(Apply(s, Write(f)))
  {
    var t := Apply(s, Write(f));
    forall id | id in t.links ensures id in t.findings && MadeFor(t.incidents, t.links[id], t.findings[id]) {
      assert MadeFor(s.incidents, s.links[id], s.findings[id]);
    }
  }

  lemma SoundForeign(s: State, k: nat, i: Incident)
    requires Sound(s) && Enabled(s, ForeignIncident(k, i))
    ensures Sound(Apply(s, ForeignIncident(k, i)))
  {
    ForeignKeepsStructure(s, Apply(s, ForeignIncident(k, i)));
  }

  lemma SoundStep(s: State, a: Action)
    requires Sound(s) && Enabled(s, a)
    ensures Sound(Apply(s, a))
  {
    match a
    case Write(f) => SoundWrite(s, f);
    case HandleFinding(now) =>
      if s.batch.queue[0].isOpen {
        SoundOpen(s, now);
      } else {
        SoundResolved(s, now);
      }
    case ForeignIncident(k, i) => SoundForeign(s, k, i);
    case Read(rows) => SoundRead(s, rows);
    case WriteLink =>
    case Commit =>
    case Crash =>
  }

  lemma SoundRead(s: State, rows: seq<Finding>)
    requires Sound(s) && Enabled(s, Read(rows))
    ensures Sound(Apply(s, Read(rows)))
  {
    forall i | 0 <= i < |rows| ensures !Before(KeyOf(rows[|rows| - 1]), KeyOf(rows[i])) {
      assert i < |rows| - 1 ==> Before(KeyOf(rows[i]), KeyOf(rows[|rows| - 1]));
    }
  }

  // ----- one finding, from one write of it to the next

  predicate Rewrites(a: Action, id: FindingId) {
    a.Write? && a.f.id == id
  }

  predicate Queued(s: State, id: FindingId) {
    s.batch.Running? && exists i :: 0 <= i < |s.batch.queue| && s.batch.queue[i].id == id
  }

  /** The finding is as written, the cursor has passed it, and no batch in progress holds it. */
  ghost predicate Passed(s: State, f: Finding) {
    && f.id in s.findings && s.findings[f.id] == f && !Beyond(f, s.cursor)
    && !Queued(s, f.id) && (s.batch.Running? ==> !Before(s.batch.last, KeyOf(f)))
  }

  /** The finding is as written, and either the bridge will still come to it or its incident is in step. */
  ghost predicate Awaited(s: State, f: Finding) {
    && f.id in s.findings && s.findings[f.id] == f && f.bridged
    && (Beyond(f, s.cursor) || InSync(s.links, s.incidents, f))
    && (s.batch.Running? ==>
          && (forall i :: 0 <= i < |s.batch.queue| && s.batch.queue[i].id == f.id ==>
                Beyond(f, s.cursor) && (s.batch.queue[i] == f || Before(s.batch.last, KeyOf(f))))
          && (Queued(s, f.id) || Before(s.batch.last, KeyOf(f)) || InSync(s.links, s.incidents, f))
          && (s.batch.linking.Some? && s.batch.queue != [] && s.batch.queue[0] == f && s.batch.linking.value < |s.incidents| ==>
                s.incidents[s.batch.linking.value].status.Open?))
  }

  // Handling another finding, or writing its link, leaves this one's incident as it was.
  lemma OtherHandled(s: State, a: Action, f: Finding)
    requires Sound(s) && Enabled(s, a) && (a.HandleFinding? || a.WriteLink?)
    requires f.id in s.findings && s.findings[f.id] == f && s.batch.queue[0].id != f.id
    ensures var t := Apply(s, a); InSync(t.links, t.incidents, f) == InSync(s.links, s.incidents, f)
  {
    var g := s.batch.queue[0];
    if a.HandleFinding? && g.isOpen {
      OpenTarget(s, g, a.now);
      var t := Apply(s, a);
      var k := t.batch.linking.value;
      if k < |s.incidents| {
        OthersKeepSync(s, g, k, t.incidents[k], f);
      }
      assert f.id in s.links ==> MadeFor(s.incidents, s.links[f.id], f);
    } else if a.HandleFinding? && g.id in s.links {
      var k := s.links[g.id];
      assert MadeFor(s.incidents, k, s.findings[g.id]);
      OthersKeepSync(s, g, k, Apply(s, a).incidents[k], f);
    }
  }

  lemma OtherStepKeepsSync(s: State, a: Action, f: Finding)
    requires Sound(s) && Enabled(s, a) && f.id in s.findings && s.findings[f.id] == f && !Rewrites(a, f.id)
    requires (a.HandleFinding? || a.WriteLink?) ==> s.batch.queue[0].id != f.id
    ensures var t := Apply(s, a); InSync(t.links, t.incidents, f) == InSync(s.links, s.incidents, f)
  {
    if a.HandleFinding? || a.WriteLink? {
      OtherHandled(s, a, f);
    } else if a.ForeignIncident? {
      ForeignKeepsFinding(s, Apply(s, a).incidents, f.id);
    }
  }

  lemma PassedStep(s: State, a: Action, f: Finding)
    requires Passed(s, f) && Enabled(s, a) && !Rewrites(a, f.id)
    ensures Passed(Apply(s, a), f)
  {
    var t := Apply(s, a);
    if t.batch.Running? {
      forall i | 0 <= i < |t.batch.queue| ensures t.batch.queue[i].id != f.id {
        assert s.batch.Running? ==> t.batch.queue[i] in s.batch.queue;
      }
    }
  }

  lemma {:induction false} PassedAlways(s: State, f: Finding, acts: seq<Action>, t: State)
    requires Sound(s) && Passed(s, f) && Executes(s, acts, t) && forall i :: 0 <= i < |acts| ==> !Rewrites(acts[i], f.id)
    ensures Passed(t, f) && InSync(t.links, t.incidents, f) == InSync(s.links, s.incidents, f)
    decreases |acts|
  {
    if acts != [] {
      SoundStep(s, acts[0]);
      PassedStep(s, acts[0], f);
      OtherStepKeepsSync(s, acts[0], f);
      PassedAlways(Apply(s, acts[0]), f, acts[1..], t);
    }
  }

  lemma AwaitedHandled(s: State, now: int, f: Finding)
    requires Sound(s) && Awaited(s, f) && Enabled(s, HandleFinding(now)) && s.batch.queue[0].id == f.id
    ensures Awaited(Apply(s, HandleFinding(now)), f)
  {
    var t := Apply(s, HandleFinding(now));
    if s.batch.queue[0].isOpen {
      OpenTarget(s, s.batch.queue[0], now);
      assert t.batch.queue[0].id == f.id;
    } else if f.id in s.links {
      assert MadeFor(s.incidents, s.links[f.id], s.findings[f.id]);
    }
  }

  lemma AwaitedLinked(s: State, f: Finding)
    requires Sound(s) && Awaited(s, f) && Enabled(s, WriteLink) && s.batch.queue[0].id == f.id
    ensures Awaited(Apply(s, WriteLink), f)
  {
    assert s.batch.queue[0] == f || Before(s.batch.last, KeyOf(f));
  }

  // The head is another finding's: it leaves the queue, or waits there for its link.
  lemma AwaitedBehind(s: State, t: State, f: Finding)
    requires Awaited(s, f) && s.batch.Running? && s.batch.queue != [] && s.batch.queue[0].id != f.id
    requires t.findings == s.findings && t.cursor == s.cursor && t.batch.Running? && t.batch.last == s.batch.last
    requires t.batch.queue == s.batch.queue || (t.batch.queue == s.batch.queue[1..] && t.batch.linking.None?)
    requires InSync(t.links, t.incidents, f) == InSync(s.links, s.incidents, f)
    ensures Awaited(t, f)
  {
    if Queued(s, f.id) {
      var i :| 0 <= i < |s.batch.queue| && s.batch.queue[i].id == f.id;
      assert t.batch.queue == s.batch.queue[1..] ==> t.batch.queue[i - 1].id == f.id;
      assert t.batch.queue == s.batch.queue ==> t.batch.queue[i].id == f.id;
    }
  }

  lemma AwaitedOther(s: State, a: Action, f: Finding)
    requires Sound(s) && Awaited(s, f) && Enabled(s, a) && (a.HandleFinding? || a.WriteLink?) && s.batch.queue[0].id != f.id
    ensures Awaited(Apply(s, a), f)
  {
    OtherHandled(s, a, f);
    AwaitedBehind(s, Apply(s, a), f);
  }

  lemma AwaitedRead(s: State, rows: seq<Finding>, f: Finding)
    requires Sound(s) && Awaited(s, f) && Enabled(s, Read(rows))
    ensures Awaited(Apply(s, Read(rows)), f)
  {
    var t := Apply(s, Read(rows));
    if f in rows {
      var i :| 0 <= i < |rows| && rows[i] == f;
      assert t.batch.queue[i].id == f.id;
    }
  }

  lemma AwaitedStep(s: State, a: Action, f: Finding)
    requires Sound(s) && Awaited(s, f) && Enabled(s, a) && !Rewrites(a, f.id)
    ensures Awaited(Apply(s, a), f)
  {
    match a
    case HandleFinding(now) =>
      if s.batch.queue[0].id == f.id {
        AwaitedHandled(s, now, f);
      } else {
        AwaitedOther(s, a, f);
      }
    case WriteLink =>
      if s.batch.queue[0].id == f.id {
        AwaitedLinked(s, f);
      } else {
        AwaitedOther(s, a, f);
      }
    case Read(rows) => AwaitedRead(s, rows, f);
    case ForeignIncident(_, _) => ForeignKeepsFinding(s, Apply(s, a).incidents, f.id);
    case Write(_) =>
    case Commit =>
    case Crash =>
  }

  lemma {:induction false} AwaitedAlways(s: State, f: Finding, acts: seq<Action>, t: State)
    requires Sound(s) && Awaited(s, f) && Executes(s, acts, t) && forall i :: 0 <= i < |acts| ==> !Rewrites(acts[i], f.id)
    ensures Awaited(t, f)
    decreases |acts|
  {
    if acts != [] {
      SoundStep(s, acts[0]);
      AwaitedStep(s, acts[0], f);
      AwaitedAlways(Apply(s, acts[0]), f, acts[1..], t);
    }
  }

  lemma WrittenIsAwaited(s: State, f: Finding)
    requires Sound(s) && Enabled(s, Write(f)) && f.bridged && Beyond(f, s.cursor) && (s.batch.Idle? || WriteAhead(s, f))
    ensures Awaited(Apply(s, Write(f)), f)
  {
  }
}
