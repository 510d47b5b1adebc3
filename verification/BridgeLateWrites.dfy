/** A finding written at or below the last row of a batch in progress: whether the batch finishes or dies, and
    whether it still holds an older reading of the finding, decides what becomes of the write. */
module BridgeLateWrites {
  import opened Prelude
  import opened Incidents
  import opened IncidentBridge
  import opened BridgeTracking

  /** The batch in progress ends, and it ends by dying. */
  predicate Dies(acts: seq<Action>) {
    acts != [] && (acts[0].Crash? || (!acts[0].Commit? && Dies(acts[1..])))
  }

  /** The batch in progress ends, and it ends by moving the cursor. */
  predicate Finishes(acts: seq<Action>) {
    acts != [] && (acts[0].Commit? || (!acts[0].Crash? && Finishes(acts[1..])))
  }

  /** The finding is as written, within what the batch in progress will move the cursor past. */
  ghost predicate Within(s: State, f: Finding) {
    s.batch.Running? && f.id in s.findings && s.findings[f.id] == f && f.bridged && !Before(s.batch.last, KeyOf(f))
  }

  predicate NoRewrite(acts: seq<Action>, id: FindingId) {
    forall i :: 0 <= i < |acts| ==> !Rewrites(acts[i], id)
  }

  // ----- the batch holds no reading of it

  lemma WithinStep(s: State, a: Action, f: Finding)
    requires Sound(s) && Within(s, f) && !Queued(s, f.id) && Enabled(s, a) && !Rewrites(a, f.id) && !a.Commit? && !a.Crash?
    ensures var t := Apply(s, a);
      Within(t, f) && !Queued(t, f.id) && t.cursor == s.cursor && InSync(t.links, t.incidents, f) == InSync(s.links, s.incidents, f)
  {
    var t := Apply(s, a);
    OtherStepKeepsSync(s, a, f);
    forall i | 0 <= i < |t.batch.queue| ensures t.batch.queue[i].id != f.id {
      assert t.batch.queue[i] in s.batch.queue;
    }
  }

  lemma AfterDying(s: State, f: Finding, acts: seq<Action>, t: State)
    requires Sound(s) && Within(s, f) && Executes(Apply(s, Crash), acts, t) && NoRewrite(acts, f.id) && !Beyond(f, t.cursor)
    ensures InSync(t.links, t.incidents, f) <==> InSync(s.links, s.incidents, f) || Beyond(f, s.cursor)
  {
    var m := Apply(s, Crash);
    SoundStep(s, Crash);
    if Beyond(f, s.cursor) {
      AwaitedAlways(m, f, acts, t);
    } else {
      PassedAlways(m, f, acts, t);
    }
  }

  lemma AfterFinishing(s: State, f: Finding, acts: seq<Action>, t: State)
    requires Sound(s) && Within(s, f) && Enabled(s, Commit) && Executes(Apply(s, Commit), acts, t) && NoRewrite(acts, f.id)
    ensures InSync(t.links, t.incidents, f) == InSync(s.links, s.incidents, f)
  {
    SoundStep(s, Commit);
    PassedAlways(Apply(s, Commit), f, acts, t);
  }

  lemma {:induction false} UnreadExactly(s: State, f: Finding, acts: seq<Action>, t: State)
    requires Sound(s) && Within(s, f) && !Queued(s, f.id) && Executes(s, acts, t) && NoRewrite(acts, f.id) && !Beyond(f, t.cursor)
    ensures InSync(t.links, t.incidents, f) <==> InSync(s.links, s.incidents, f) || (Beyond(f, s.cursor) && Dies(acts))
    decreases |acts|
  {
    if acts != [] {
      if acts[0].Crash? {
        AfterDying(s, f, acts[1..], t);
      } else if acts[0].Commit? {
        AfterFinishing(s, f, acts[1..], t);
      } else {
        SoundStep(s, acts[0]);
        WithinStep(s, acts[0], f);
        UnreadExactly(Apply(s, acts[0]), f, acts[1..], t);
      }
    }
  }

  lemma UnreadWrite(s: State, f: Finding, acts: seq<Action>, t: State)
    requires Sound(s) && Enabled(s, Write(f)) && f.bridged && s.batch.Running? && !Before(s.batch.last, KeyOf(f)) && !Queued(s, f.id)
    requires Executes(Apply(s, Write(f)), acts, t) && NoRewrite(acts, f.id) && !Beyond(f, t.cursor)
    ensures InSync(t.links, t.incidents, f) <==> InSync(s.links, s.incidents, f) || (Beyond(f, s.cursor) && Dies(acts))
  {
    SoundStep(s, Write(f));
    UnreadExactly(Apply(s, Write(f)), f, acts, t);
  }

  // ----- a write ahead of the bridge, or between batches

  lemma AwaitedWrite(s: State, f: Finding, acts: seq<Action>, t: State)
    requires Sound(s) && Enabled(s, Write(f)) && f.bridged && Beyond(f, s.cursor) && (s.batch.Idle? || WriteAhead(s, f))
    requires Executes(Apply(s, Write(f)), acts, t) && NoRewrite(acts, f.id) && !Beyond(f, t.cursor)
    ensures InSync(t.links, t.incidents, f)
  {
    SoundStep(s, Write(f));
    WrittenIsAwaited(s, f);
    AwaitedAlways(Apply(s, Write(f)), f, acts, t);
  }

  lemma PassedWrite(s: State, f: Finding, acts: seq<Action>, t: State)
    requires Sound(s) && Enabled(s, Write(f)) && !Beyond(f, s.cursor) && s.batch.Idle?
    requires Executes(Apply(s, Write(f)), acts, t) && NoRewrite(acts, f.id)
    ensures InSync(t.links, t.incidents, f) == InSync(s.links, s.incidents, f)
  {
    SoundStep(s, Write(f));
    PassedAlways(Apply(s, Write(f)), f, acts, t);
  }

  // ----- the batch still holds an older reading of it

  // A batch lies above the cursor, holds one reading of a finding, and opens an incident before it links it.
  ghost predicate QueueInv(s: State) {
    s.batch.Running? ==>
      && (s.cursor.Some? ==> Before(s.cursor.value, s.batch.last))
      && (forall i, j :: 0 <= i < j < |s.batch.queue| ==> s.batch.queue[i].id != s.batch.queue[j].id)
      && (s.batch.linking.Some? ==> s.batch.linking.value < |s.incidents| && s.incidents[s.batch.linking.value].status.Open?)
  }

  lemma QueueStep(s: State, a: Action)
    requires Sound(s) && QueueInv(s) && Enabled(s, a)
    ensures QueueInv(Apply(s, a))
  {
    if a.HandleFinding? && s.batch.queue[0].isOpen {
      OpenTarget(s, s.batch.queue[0], a.now);
    }
    if a.Read? {
      forall i, j | 0 <= i < j < |a.rows| ensures a.rows[i].id != a.rows[j].id {
        assert Before(KeyOf(a.rows[i]), KeyOf(a.rows[j]));
      }
    }
  }

  lemma {:induction false} QueueAlways(s: State, acts: seq<Action>, t: State)
    requires Sound(s) && QueueInv(s) && Executes(s, acts, t)
    ensures Sound(t) && QueueInv(t)
    decreases |acts|
  {
    if acts != [] {
      SoundStep(s, acts[0]);
      QueueStep(s, acts[0]);
      QueueAlways(Apply(s, acts[0]), acts[1..], t);
    }
  }

  lemma AboveTheBatch(s: State, f: Finding)
    requires QueueInv(s) && s.batch.Running? && Before(s.batch.last, KeyOf(f))
    ensures Beyond(f, s.cursor)
  {
  }

  ghost predicate Holds(s: State, g: Finding) {
    s.batch.Running? && g in s.batch.queue
  }

  predicate Handles(a: Action, g: Finding) {
    if g.isOpen then a.WriteLink? else a.HandleFinding?
  }

  // Until its reading is handled, the batch goes on holding it.
  lemma HoldsStep(s: State, a: Action, f: Finding, g: Finding)
    requires Sound(s) && QueueInv(s) && Within(s, f) && Holds(s, g) && g.id == f.id
    requires Enabled(s, a) && !Rewrites(a, f.id) && !a.Crash?
    requires s.batch.queue[0] == g ==> !Handles(a, g)
    ensures var t := Apply(s, a); Within(t, f) && Holds(t, g) && t.cursor == s.cursor
  {
    var t := Apply(s, a);
    var i :| 0 <= i < |s.batch.queue| && s.batch.queue[i] == g;
    assert t.batch.queue == s.batch.queue || (i > 0 && t.batch.queue == s.batch.queue[1..] && t.batch.queue[i - 1] == g);
  }

  // The reading that a batch handles last decides.
  lemma HandledReading(s: State, a: Action, f: Finding, g: Finding)
    requires Sound(s) && QueueInv(s) && Within(s, f) && s.batch.queue != [] && s.batch.queue[0] == g && g.id == f.id
    requires Enabled(s, a) && Handles(a, g)
    ensures var t := Apply(s, a);
      Within(t, f) && !Queued(t, f.id) && t.cursor == s.cursor && (InSync(t.links, t.incidents, f) <==> g.isOpen == f.isOpen)
  {
    var t := Apply(s, a);
    forall i | 0 <= i < |t.batch.queue| ensures t.batch.queue[i].id != f.id {
      assert t.batch.queue[i] == s.batch.queue[i + 1];
    }
    if f.id in s.links {
      assert MadeFor(s.incidents, s.links[f.id], f);
    }
  }

  lemma {:induction false} HandledExactly(s: State, f: Finding, g: Finding, acts: seq<Action>, t: State)
    requires Sound(s) && QueueInv(s) && Within(s, f) && s.batch.queue != [] && s.batch.queue[0] == g && g.id == f.id
    requires acts != [] && Executes(s, acts, t) && Handles(acts[0], g) && NoRewrite(acts, f.id) && !Beyond(f, t.cursor)
    requires Finishes(acts) || (Dies(acts) && Beyond(f, s.cursor))
    ensures InSync(t.links, t.incidents, f) <==> Dies(acts) || g.isOpen == f.isOpen
  {
    SoundStep(s, acts[0]);
    HandledReading(s, acts[0], f, g);
    UnreadExactly(Apply(s, acts[0]), f, acts[1..], t);
    EndsOneWay(acts[1..]);
  }

  lemma {:induction false} ReadingExactly(s: State, f: Finding, g: Finding, acts: seq<Action>, t: State)
    requires Sound(s) && QueueInv(s) && Within(s, f) && Holds(s, g) && g.id == f.id
    requires Executes(s, acts, t) && NoRewrite(acts, f.id) && !Beyond(f, t.cursor)
    requires Finishes(acts) || (Dies(acts) && Beyond(f, s.cursor))
    ensures InSync(t.links, t.incidents, f) <==> Dies(acts) || g.isOpen == f.isOpen
    decreases |acts|
  {
    if acts[0].Crash? {
      AfterDying(s, f, acts[1..], t);
    } else if s.batch.queue[0] == g && Handles(acts[0], g) {
      HandledExactly(s, f, g, acts, t);
    } else {
      SoundStep(s, acts[0]);
      QueueStep(s, acts[0]);
      HoldsStep(s, acts[0], f, g);
      ReadingExactly(Apply(s, acts[0]), f, g, acts[1..], t);
    }
  }

  lemma {:induction false} EndsOneWay(acts: seq<Action>)
    ensures !(Finishes(acts) && Dies(acts))
  {
    if acts != [] && !acts[0].Crash? && !acts[0].Commit? {
      EndsOneWay(acts[1..]);
    }
  }
}
