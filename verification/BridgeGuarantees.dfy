/** What the bridge guarantees once it has caught up, and what it never sees. */
module BridgeGuarantees {
  import opened Prelude
  import opened Incidents
  import opened IncidentBridge
  import opened BridgeLateWrites
  import opened BridgeTracking

  /** Distinct findings never share an incident. */
  lemma LinksAreInjective(acts: seq<Action>, t: State, f: FindingId, g: FindingId)
    requires Executes(START, acts, t) && AllAhead(START, acts) && f in t.links && g in t.links && f != g
    ensures t.links[f] != t.links[g]
  {
    InvAlways(START, acts, t);
    assert MadeFor(t.incidents, t.links[f], t.findings[f]) && MadeFor(t.incidents, t.links[g], t.findings[g]);
  }

  /** However finding writes, batches and crashes interleave, once no bridged finding lies beyond the
      cursor every open finding is linked, and every linked incident is open exactly when its finding is. */
  lemma BridgeConverges(acts: seq<Action>, t: State)
    requires Executes(START, acts, t) && AllAhead(START, acts)
    requires forall id :: id in t.findings && t.findings[id].bridged ==> !Beyond(t.findings[id], t.cursor)
    ensures forall id :: id in t.findings && t.findings[id].bridged && t.findings[id].isOpen ==> id in t.links
    ensures forall id :: id in t.links && id in t.findings && t.findings[id].bridged ==>
      t.links[id] < |t.incidents| && (t.incidents[t.links[id]].status.Open? <==> t.findings[id].isOpen)
  {
    InvAlways(START, acts, t);
    forall id | id in t.findings && t.findings[id].bridged
      ensures InSync(t.links, t.incidents, t.findings[id])
    {
      assert t.findings[id].id == id;
    }
    forall id | id in t.findings && t.findings[id].bridged
      ensures t.findings[id].isOpen ==> id in t.links
      ensures id in t.links ==> t.links[id] < |t.incidents| && (t.incidents[t.links[id]].status.Open? <==> t.findings[id].isOpen)
    {
      assert InSync(t.links, t.incidents, t.findings[id]) && t.findings[id].id == id;
    }
  }

  // ----- where writes must land

  /** When one write of a finding reaches its incident, wherever all other writes land and however batches and
      crashes go on. Once the cursor has passed the finding and until it is written again, its incident is in
      step with it exactly if the write changed nothing that mattered, or landed above the cursor and no batch
      then moved the cursor past it unread: none was in progress, the one in progress ended below it, or died. */
  lemma {:induction false} WriteReachesIncidentExactly(before: seq<Action>, s: State, f: Finding, acts: seq<Action>, t: State)
    requires Executes(START, before, s) && Enabled(s, Write(f)) && f.bridged
    requires s.batch.Idle? || WriteAhead(s, f) || !Queued(s, f.id)
    requires Executes(Apply(s, Write(f)), acts, t) && forall i :: 0 <= i < |acts| ==> !Rewrites(acts[i], f.id)
    requires !Beyond(f, t.cursor)
    ensures InSync(t.links, t.incidents, f)
      <==> InSync(s.links, s.incidents, f) || (Beyond(f, s.cursor) && (s.batch.Idle? || WriteAhead(s, f) || Dies(acts)))
  {
    QueueAlways(START, before, s);
    if s.batch.Running? && Before(s.batch.last, KeyOf(f)) {
      AboveTheBatch(s, f);
    }
    if s.batch.Running? && !Before(s.batch.last, KeyOf(f)) {
      UnreadWrite(s, f, acts, t);
    } else if Beyond(f, s.cursor) {
      AwaitedWrite(s, f, acts, t);
    } else {
      PassedWrite(s, f, acts, t);
    }
  }

  /** Where the batch in progress still holds an older reading of the finding, that reading decides if the batch
      finishes, whatever the write said; a batch that dies leaves a write above the cursor to the next one. */
  lemma {:induction false} OlderReadingDecides(before: seq<Action>, s: State, f: Finding, g: Finding, acts: seq<Action>, t: State)
    requires Executes(START, before, s) && Enabled(s, Write(f)) && f.bridged
    requires s.batch.Running? && !Before(s.batch.last, KeyOf(f)) && g in s.batch.queue && g.id == f.id
    requires Executes(Apply(s, Write(f)), acts, t) && forall i :: 0 <= i < |acts| ==> !Rewrites(acts[i], f.id)
    requires !Beyond(f, t.cursor) && (Finishes(acts) || (Dies(acts) && Beyond(f, s.cursor)))
    ensures InSync(t.links, t.incidents, f) <==> Dies(acts) || g.isOpen == f.isOpen
  {
    QueueAlways(START, before, s);
    SoundStep(s, Write(f));
    QueueStep(s, Write(f));
    ReadingExactly(Apply(s, Write(f)), f, g, acts, t);
  }

  /** In particular a finding first written at or below the cursor while no batch runs is passed over for
      good: it stays without an incident until it is written again. */
  lemma {:induction false} LateWriteStaysUnlinked(s: State, f: Finding, acts: seq<Action>, t: State)
    requires s.batch.Idle? && f.id !in s.links && !Beyond(f, s.cursor) && Enabled(s, Write(f))
    requires Executes(Apply(s, Write(f)), acts, t) && forall i :: 0 <= i < |acts| ==> !Rewrites(acts[i], f.id)
    ensures f.id !in t.links && f.id in t.findings && t.findings[f.id] == f && !Beyond(f, t.cursor)
  {
    UnlinkedAlways(Apply(s, Write(f)), f, acts, t);
  }

  lemma {:induction false} UnlinkedAlways(s: State, f: Finding, acts: seq<Action>, t: State)
    requires Passed(s, f) && f.id !in s.links && Executes(s, acts, t) && forall i :: 0 <= i < |acts| ==> !Rewrites(acts[i], f.id)
    ensures Passed(t, f) && f.id !in t.links
    decreases |acts|
  {
    if acts != [] {
      PassedStep(s, acts[0], f);
      assert acts[0].WriteLink? ==> s.batch.queue[0].id != f.id;
      UnlinkedAlways(Apply(s, acts[0]), f, acts[1..], t);
    }
  }
}
