/** How many breach events an incident gets. */
module BreachEvents {
  import opened Prelude
  import opened Incidents
  import opened IncidentTable
  import opened AnomalyPolicies

  /** What is overdue now is on no list that still waits to be marked. */
  ghost predicate ListsApart(s: State, now: int) {
    forall v :: v in s.passes && s.passes[v].Found? ==> s.passes[v].ids !! OverdueIds(s.incidents, now)
  }

  /** No breach pass lists an incident between another's listing it and marking it. */
  ghost predicate PassesApart(cfg: Config, s: State, acts: seq<Action>)
    decreases |acts|
  {
    acts == [] ||
    (Enabled(s, acts[0]) && (acts[0].FindBreached? ==> ListsApart(s, acts[0].now)) && PassesApart(cfg, Apply(cfg, s, acts[0]), acts[1..]))
  }

  // An incident has a breach event only once marked, and one that a pass has listed has none yet.
  ghost predicate RowsOnce(incidents: seq<Incident>) {
    forall k :: 0 <= k < |incidents| ==> incidents[k].breaches <= 1 && (incidents[k].slaBreachedAt.None? ==> incidents[k].breaches == 0)
  }

  // What a pass has listed is unmarked until the pass marks it, and marked then; either way it is not logged.
  ghost predicate ListOk(incidents: seq<Incident>, p: Pass) {
    forall k :: k in p.ids ==> k < |incidents| && incidents[k].breaches == 0 && (incidents[k].slaBreachedAt.Some? <==> p.Marked?)
  }

  ghost predicate Apart(passes: map<nat, Pass>) {
    forall v, w :: v in passes && w in passes && v != w ==> passes[v].ids !! passes[w].ids
  }

  ghost predicate OnceInv(s: State) {
    && RowsOnce(s.incidents)
    && (forall w :: w in s.passes ==> ListOk(s.incidents, s.passes[w]))
    && Apart(s.passes)
  }

  lemma FindKeepsOnce(cfg: Config, s: State, w: nat, now: int)
    requires OnceInv(s) && Enabled(s, FindBreached(w, now)) && ListsApart(s, now)
    ensures OnceInv(Apply(cfg, s, FindBreached(w, now)))
  {
    forall v | v in s.passes ensures s.passes[v].ids !! OverdueIds(s.incidents, now) {
      assert ListOk(s.incidents, s.passes[v]);
    }
  }

  lemma MarkKeepsOnce(cfg: Config, s: State, w: nat)
    requires OnceInv(s) && Enabled(s, MarkBreached(w))
    ensures OnceInv(Apply(cfg, s, MarkBreached(w)))
  {
    var t := Apply(cfg, s, MarkBreached(w));
    assert ListOk(s.incidents, s.passes[w]);
    forall v | v in t.passes ensures ListOk(t.incidents, t.passes[v]) {
      assert ListOk(s.incidents, s.passes[v]);
      assert v != w ==> s.passes[v].ids !! s.passes[w].ids;
    }
  }

  lemma LogKeepsOnce(cfg: Config, s: State, w: nat)
    requires OnceInv(s) && Enabled(s, LogBreached(w))
    ensures OnceInv(Apply(cfg, s, LogBreached(w)))
  {
    var t := Apply(cfg, s, LogBreached(w));
    assert ListOk(s.incidents, s.passes[w]);
    forall v | v in t.passes ensures ListOk(t.incidents, t.passes[v]) {
      assert ListOk(s.incidents, s.passes[v]);
      assert s.passes[v].ids !! s.passes[w].ids;
    }
  }

  lemma PassKeepsOnce(cfg: Config, s: State, a: Action)
    requires OnceInv(s) && !Gentle(a) && Enabled(s, a) && (a.FindBreached? ==> ListsApart(s, a.now))
    ensures OnceInv(Apply(cfg, s, a))
  {
    match a
    case FindBreached(w, now) => FindKeepsOnce(cfg, s, w, now);
    case MarkBreached(w) => MarkKeepsOnce(cfg, s, w);
    case LogBreached(w) => LogKeepsOnce(cfg, s, w);
    case AbandonPass(w) =>
  }

  lemma GentleKeepsOnce(s: State, t: State)
    requires OnceInv(s) && GentleStep(s, t) && t.passes == s.passes
    ensures OnceInv(t)
  {
    forall w | w in t.passes ensures ListOk(t.incidents, t.passes[w]) {
      assert ListOk(s.incidents, s.passes[w]);
    }
  }

  lemma OnceStep(cfg: Config, s: State, a: Action)
    requires RowsOk(s) && OnceInv(s) && Enabled(s, a) && (a.FindBreached? ==> ListsApart(s, a.now))
    ensures OnceInv(Apply(cfg, s, a))
  {
    if Gentle(a) {
      GentleActionStep(cfg, s, a);
      GentleKeepsOnce(s, Apply(cfg, s, a));
    } else {
      PassKeepsOnce(cfg, s, a);
    }
  }

  lemma {:induction false} OnceAlways(cfg: Config, s: State, acts: seq<Action>, t: State)
    requires Inv(s) && OnceInv(s) && Executes(cfg, s, acts, t) && PassesApart(cfg, s, acts)
    ensures OnceInv(t)
    decreases |acts|
  {
    if acts != [] {
      InvStep(cfg, s, acts[0]);
      OnceStep(cfg, s, acts[0]);
      OnceAlways(cfg, Apply(cfg, s, acts[0]), acts[1..], t);
    }
  }

  /** While no breach pass lists an incident between another's listing and marking it, an incident gets at
      most one breach event, and none before it is marked. */
  lemma AtMostOneBreachEvent(cfg: Config, time: int, acts: seq<Action>, t: State, k: nat)
    requires Executes(cfg, Start(time), acts, t) && PassesApart(cfg, Start(time), acts) && k < |t.incidents|
    ensures t.incidents[k].breaches <= 1 && (t.incidents[k].breaches == 1 ==> t.incidents[k].slaBreachedAt.Some?)
  {
    OnceAlways(cfg, Start(time), acts, t);
  }

  // A pass that has listed its incidents runs to its end.
  lemma PassRuns(cfg: Config, s: State, w: nat) returns (t: State)
    requires w in s.passes && s.passes[w].Found?
    ensures Executes(cfg, s, [MarkBreached(w), LogBreached(w)], t)
    ensures t.passes == s.passes - {w} && t.jobTime == s.jobTime && |t.incidents| == |s.incidents|
    ensures forall k :: 0 <= k < |s.incidents| ==>
      t.incidents[k] == if k in s.passes[w].ids
                        then s.incidents[k].(slaBreachedAt := Some(s.passes[w].at), breaches := s.incidents[k].breaches + 1)
                        else s.incidents[k]
  {
    var m := Apply(cfg, s, MarkBreached(w));
    t := Apply(cfg, m, LogBreached(w));
    assert [MarkBreached(w), LogBreached(w)][1..] == [LogBreached(w)];
    assert Executes(cfg, m, [LogBreached(w)], t);
  }

  lemma PassMarks(cfg: Config, s: State, k: nat, now: int) returns (acts: seq<Action>, t: State)
    requires s.passes == map[] && k < |s.incidents| && Overdue(s.incidents[k], now)
    ensures Executes(cfg, s, acts, t) && |t.incidents| == |s.incidents|
    ensures t.incidents[k] == s.incidents[k].(slaBreachedAt := Some(now), breaches := s.incidents[k].breaches + 1)
  {
    var find := FindBreached(0, now);
    var m := Apply(cfg, s, find);
    assert k in OverdueIds(s.incidents, now);
    assert [find][1..] == [];
    t := PassRuns(cfg, m, 0);
    JoinRuns(cfg, s, [find], m, [MarkBreached(0), LogBreached(0)], t);
    acts := [find] + [MarkBreached(0), LogBreached(0)];
  }

  /** Two passes that listed an incident before either had marked it both log it: whenever an incident is
      overdue while it waits on another pass's list, a new pass can make it get two events. */
  lemma OverlappingPassesLogTwice(cfg: Config, s: State, v: nat, w: nat, k: nat, now: int) returns (acts: seq<Action>, t: State)
    requires v in s.passes && s.passes[v].Found? && w !in s.passes && k in s.passes[v].ids && k in OverdueIds(s.incidents, now)
    ensures acts == [MarkBreached(v), LogBreached(v)] + [MarkBreached(w), LogBreached(w)]
    ensures Executes(cfg, Apply(cfg, s, FindBreached(w, now)), acts, t)
    ensures |t.incidents| == |s.incidents| && t.incidents[k].breaches == s.incidents[k].breaches + 2
  {
    var s1 := Apply(cfg, s, FindBreached(w, now));
    var s2 := PassRuns(cfg, s1, v);
    t := PassRuns(cfg, s2, w);
    JoinRuns(cfg, s1, [MarkBreached(v), LogBreached(v)], s2, [MarkBreached(w), LogBreached(w)], t);
    acts := [MarkBreached(v), LogBreached(v)] + [MarkBreached(w), LogBreached(w)];
  }

  predicate NoFinds(acts: seq<Action>) {
    forall i :: 0 <= i < |acts| ==> !acts[i].FindBreached?
  }

  /** A run that goes on after one more pass has listed, with no further pass starting. */
  ghost predicate GoesOn(cfg: Config, s: State, w: nat, now: int, more: seq<Action>, t: State) {
    Enabled(s, FindBreached(w, now)) && Executes(cfg, Apply(cfg, s, FindBreached(w, now)), more, t) && NoFinds(more)
  }

  ghost predicate LoggedOnce(t: State) {
    forall k :: 0 <= k < |t.incidents| ==> t.incidents[k].breaches <= 1
  }

  lemma {:induction false} NoFindsApart(cfg: Config, s: State, acts: seq<Action>, t: State)
    requires Executes(cfg, s, acts, t) && NoFinds(acts)
    ensures PassesApart(cfg, s, acts)
    decreases |acts|
  {
    if acts != [] {
      NoFindsApart(cfg, Apply(cfg, s, acts[0]), acts[1..], t);
    }
  }

  // In a state where events are still single, a shared list that would be logged twice.
  lemma SharedListLogsTwice(cfg: Config, s: State, w: nat, now: int) returns (more: seq<Action>, t: State)
    requires w !in s.passes && !ListsApart(s, now)
    ensures GoesOn(cfg, s, w, now, more, t) && !LoggedOnce(t)
  {
    var v :| v in s.passes && s.passes[v].Found? && !(s.passes[v].ids !! OverdueIds(s.incidents, now));
    var k :| k in s.passes[v].ids && k in OverdueIds(s.incidents, now);
    more, t := OverlappingPassesLogTwice(cfg, s, v, w, k, now);
    assert t.incidents[k].breaches >= 2;
  }

  /** The condition is exact: one more pass can lead to a second event for some incident precisely if it
      lists an incident that is on a list not yet marked. */
  lemma NextPassSafeExactly(cfg: Config, time: int, acts: seq<Action>, s: State, w: nat, now: int)
    requires Executes(cfg, Start(time), acts, s) && PassesApart(cfg, Start(time), acts) && w !in s.passes
    ensures ListsApart(s, now) <==> forall more, t :: GoesOn(cfg, s, w, now, more, t) ==> LoggedOnce(t)
  {
    if ListsApart(s, now) {
      InvAlways(cfg, Start(time), acts, s);
      OnceAlways(cfg, Start(time), acts, s);
      var m := Apply(cfg, s, FindBreached(w, now));
      InvStep(cfg, s, FindBreached(w, now));
      FindKeepsOnce(cfg, s, w, now);
      forall more, t | GoesOn(cfg, s, w, now, more, t) ensures LoggedOnce(t) {
        NoFindsApart(cfg, m, more, t);
        OnceAlways(cfg, m, more, t);
      }
    } else {
      var more, t := SharedListLogsTwice(cfg, s, w, now);
    }
  }
}
