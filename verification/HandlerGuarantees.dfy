/** What overlapping event handlers guarantee. */
module HandlerGuarantees {
  import opened Prelude
  import opened Incidents
  import opened GenericWorkflow
  import opened WorkflowHandlers

  // ----- when a second row appears

  /** A fingerprint gets a second incident row exactly when, at the moment its first row is written, another
      handler has already looked in vain and goes on to write. */
  lemma SecondRowExactly(acts: seq<Action>, t: State, tenant: string, text: string)
    requires Runs(START, acts, t)
    ensures Rows(t.incidents, tenant, text) >= 2 <==> BlindWritesOverlap(START, acts, tenant, text)
  {
    SecondRowFrom(START, acts, t, tenant, text);
  }

  // ----- what the row says

  /** However handlers overlap, are given up half-way or run late, a report that no success has followed
      leaves an active incident. */
  lemma TroubleIsNeverMissed(acts: seq<Action>, t: State, tenant: string, text: string)
    requires Runs(START, acts, t) && TaskTroubled(t.log, tenant, text)
    ensures SomeActive(t.incidents, tenant, text)
  {
    StatusAlways(START, acts, t, tenant, text);
  }

  /** Unless blind writes overlap, the fingerprint has at most one row, and it is active exactly when the last
      task completed on it was a report. */
  lemma OneRowUnlessBlindWritesOverlap(acts: seq<Action>, t: State, tenant: string, text: string)
    requires Runs(START, acts, t) && !BlindWritesOverlap(START, acts, tenant, text)
    ensures Rows(t.incidents, tenant, text) <= 1
    ensures forall j, k :: 0 <= j < k < |t.incidents| ==> !(IsFor(t.incidents[j], tenant, text) && IsFor(t.incidents[k], tenant, text))
    ensures SomeActive(t.incidents, tenant, text) <==> TaskTroubled(t.log, tenant, text)
  {
    SecondRowExactly(acts, t, tenant, text);
    StatusAlways(START, acts, t, tenant, text);
    forall j, k | 0 <= j < k < |t.incidents| && IsFor(t.incidents[j], tenant, text) && IsFor(t.incidents[k], tenant, text) ensures false {
      OnlyRow(t.incidents, j, k, tenant, text);
    }
  }

  // ----- handlers that keep out of each other's way

  predicate PendingOn(pc: Pc, tenant: string, text: string) {
    (pc.Opening? || pc.Checking? || pc.Closing?) && On(pc.task, tenant, text)
  }

  /** No handler looks for the fingerprint's incident while another one has looked and not yet written. */
  ghost predicate LooksApart(s: State, acts: seq<Action>, tenant: string, text: string)
    decreases |acts|
  {
    acts == [] ||
    (Enabled(s, acts[0])
     && (acts[0].Look? && On(s.handlers[acts[0].h].task, tenant, text) ==> forall g :: g in s.handlers ==> !PendingOn(s.handlers[g], tenant, text))
     && LooksApart(Apply(s, acts[0]), acts[1..], tenant, text))
  }

  ghost predicate OnePending(s: State, tenant: string, text: string) {
    forall g, h :: g in s.handlers && h in s.handlers && PendingOn(s.handlers[g], tenant, text) && PendingOn(s.handlers[h], tenant, text) ==> g == h
  }

  lemma OnePendingStep(s: State, a: Action, tenant: string, text: string)
    requires OnePending(s, tenant, text) && Enabled(s, a)
    requires a.Look? && On(s.handlers[a.h].task, tenant, text) ==> forall g :: g in s.handlers ==> !PendingOn(s.handlers[g], tenant, text)
    ensures OnePending(Apply(s, a), tenant, text)
  {
    var t := Apply(s, a);
    forall h | h in t.handlers && PendingOn(t.handlers[h], tenant, text) && !(h in s.handlers && PendingOn(s.handlers[h], tenant, text))
      ensures a.Look? && a.h == h && On(s.handlers[h].task, tenant, text)
    {
    }
  }

  lemma {:induction false} ApartNeverOverlaps(s: State, acts: seq<Action>, t: State, tenant: string, text: string)
    requires OnePending(s, tenant, text) && Runs(s, acts, t) && LooksApart(s, acts, tenant, text)
    ensures !BlindWritesOverlap(s, acts, tenant, text)
    decreases |acts|
  {
    if acts != [] {
      var m := Apply(s, acts[0]);
      OnePendingStep(s, acts[0], tenant, text);
      if WritesBlindly(s, acts[0], tenant, text) {
        forall h: nat ensures !BlindIn(m, h, tenant, text) {
          assert BlindIn(m, h, tenant, text) ==> PendingOn(s.handlers[acts[0].h], tenant, text) && PendingOn(s.handlers[h], tenant, text);
        }
      } else {
        ApartNeverOverlaps(m, acts[1..], t, tenant, text);
      }
    }
  }

  /** So it is enough that looks and writes on one fingerprint do not overlap. */
  lemma OneRowWhenLooksApart(acts: seq<Action>, t: State, tenant: string, text: string)
    requires Runs(START, acts, t) && LooksApart(START, acts, tenant, text)
    ensures Rows(t.incidents, tenant, text) <= 1
    ensures SomeActive(t.incidents, tenant, text) <==> TaskTroubled(t.log, tenant, text)
  {
    ApartNeverOverlaps(START, acts, t, tenant, text);
    OneRowUnlessBlindWritesOverlap(acts, t, tenant, text);
  }

  // ----- a handler that runs alone

  lemma {:induction false} JoinRuns(s: State, xs: seq<Action>, m: State, ys: seq<Action>, t: State)
    requires Runs(s, xs, m) && Runs(m, ys, t)
    ensures Runs(s, xs + ys, t)
    decreases |xs|
  {
    if xs == [] {
      assert xs + ys == ys;
    } else {
      assert (xs + ys)[1..] == xs[1..] + ys;
      JoinRuns(Apply(s, xs[0]), xs[1..], m, ys, t);
    }
  }

  lemma OneStep(s: State, a: Action)
    requires Enabled(s, a)
    ensures Runs(s, [a], Apply(s, a))
  {
    assert [a][1..] == [];
  }

  lemma SerialReport(s: State, h: nat, e: Event, now: int) returns (acts: seq<Action>, t: State)
    requires h !in s.handlers && Handled(e) && RuleOf(e.status).Some?
    ensures Runs(s, acts, t) && t.incidents == Detected(s.incidents, e, now).0 && t.handlers == s.handlers[h := Done]
  {
    var s1 := Apply(s, Start(h, e));
    var s2 := Apply(s1, Look(h, now));
    t := Apply(s2, Write(h));
    OneStep(s, Start(h, e));
    OneStep(s1, Look(h, now));
    OneStep(s2, Write(h));
    JoinRuns(s, [Start(h, e)], s1, [Look(h, now)], s2);
    JoinRuns(s, [Start(h, e)] + [Look(h, now)], s2, [Write(h)], t);
    acts := [Start(h, e)] + [Look(h, now)] + [Write(h)];
    assert t.handlers == s.handlers[h := Done];
  }

  lemma SerialRule(s: State, h: nat, e: Event, rule: Rule, now: int) returns (acts: seq<Action>, t: State)
    requires h in s.handlers && s.handlers[h] == Seeking(Task(e, rule)) && e.status.Succeeded?
    ensures Runs(s, acts, t) && t.incidents == RuleRecovered(s.incidents, e, rule).0
    ensures t.handlers == s.handlers[h := After(Task(e, rule))] && t.log == s.log + [Task(e, rule)]
  {
    var s1 := Apply(s, Look(h, now));
    OneStep(s, Look(h, now));
    if FindActive(s.incidents, e.tenant, FingerprintFor(e, rule)).None? {
      acts, t := [Look(h, now)], s1;
    } else {
      var s2 := Apply(s1, Check(h));
      t := Apply(s2, Write(h));
      OneStep(s1, Check(h));
      OneStep(s2, Write(h));
      JoinRuns(s, [Look(h, now)], s1, [Check(h)], s2);
      JoinRuns(s, [Look(h, now)] + [Check(h)], s2, [Write(h)], t);
      acts := [Look(h, now)] + [Check(h)] + [Write(h)];
      assert t.handlers == s.handlers[h := After(Task(e, rule))];
    }
  }

  lemma SerialRecovery(s: State, h: nat, e: Event, now: int) returns (acts: seq<Action>, t: State)
    requires h !in s.handlers && Handled(e) && e.status.Succeeded?
    ensures Runs(s, acts, t) && t.incidents == Recovered(s.incidents, e).0
    ensures t.handlers == s.handlers[h := Done] && t.log == s.log + [Task(e, FailedRule)] + [Task(e, TimedOutRule)]
  {
    var s1 := Apply(s, Start(h, e));
    OneStep(s, Start(h, e));
    var more, s2 := SerialRule(s1, h, e, FailedRule, now);
    var rest;
    rest, t := SerialRule(s2, h, e, TimedOutRule, now);
    JoinRuns(s, [Start(h, e)], s1, more, s2);
    JoinRuns(s, [Start(h, e)] + more, s2, rest, t);
    acts := [Start(h, e)] + more + rest;
    assert t.handlers == s.handlers[h := Done];
  }

  /** With no one else moving, a handler's steps compose to what handling the event at once does. */
  lemma SerialHandler(s: State, h: nat, e: Event, now: int) returns (acts: seq<Action>, t: State)
    requires h !in s.handlers && Detects(e)
    ensures Runs(s, acts, t) && t.incidents == Detected(s.incidents, e, now).0 && t.handlers == s.handlers[h := Done]
  {
    if e.status.Succeeded? {
      acts, t := SerialRecovery(s, h, e, now);
    } else {
      acts, t := SerialReport(s, h, e, now);
    }
  }

  // ----- two rows, by a run

  function RowOf(e: Event, now: int): Incident {
    BridgeOpened(e.tenant, FingerprintFor(e, FailedRule), Medium, e.occurredAt, now)
  }

  function BothBlind(e: Event, now: int): State {
    State([], map[1 := Opening(Task(e, FailedRule), now, None), 2 := Opening(Task(e, FailedRule), now, None)], [])
  }

  // Two reports of one failure that both look before either writes.
  lemma TwoLook(e: Event, now: int) returns (acts: seq<Action>)
    requires Handled(e) && e.status.Failed?
    ensures Runs(START, acts, BothBlind(e, now))
  {
    var task := Task(e, FailedRule);
    var s1 := State([], map[1 := Seeking(task)], []);
    var s2 := State([], map[1 := Seeking(task), 2 := Seeking(task)], []);
    var s3 := State([], map[1 := Opening(task, now, None), 2 := Seeking(task)], []);
    assert Apply(START, Start(1, e)) == s1 && Apply(s1, Start(2, e)) == s2;
    assert Apply(s2, Look(1, now)) == s3 && Apply(s3, Look(2, now)) == BothBlind(e, now);
    OneStep(START, Start(1, e));
    OneStep(s1, Start(2, e));
    OneStep(s2, Look(1, now));
    OneStep(s3, Look(2, now));
    JoinRuns(START, [Start(1, e)], s1, [Start(2, e)], s2);
    JoinRuns(s2, [Look(1, now)], s3, [Look(2, now)], BothBlind(e, now));
    JoinRuns(START, [Start(1, e)] + [Start(2, e)], s2, [Look(1, now)] + [Look(2, now)], BothBlind(e, now));
    acts := [Start(1, e)] + [Start(2, e)] + ([Look(1, now)] + [Look(2, now)]);
  }

  lemma TwoBlindReports(e: Event, now: int) returns (acts: seq<Action>, t: State)
    requires Handled(e) && e.status.Failed?
    ensures Runs(START, acts, t)
    ensures t == State([RowOf(e, now), RowOf(e, now)], map[1 := Done, 2 := Done], [Task(e, FailedRule), Task(e, FailedRule)])
  {
    var task := Task(e, FailedRule);
    var looks := TwoLook(e, now);
    t := State([RowOf(e, now), RowOf(e, now)], map[1 := Done, 2 := Done], [task, task]);
    var writes := TwoWrite(e, now, t);
    JoinRuns(START, looks, BothBlind(e, now), writes, t);
    acts := looks + writes;
  }

  lemma TwoWrite(e: Event, now: int, t: State) returns (acts: seq<Action>)
    requires Handled(e) && e.status.Failed?
    requires t == State([RowOf(e, now), RowOf(e, now)], map[1 := Done, 2 := Done], [Task(e, FailedRule), Task(e, FailedRule)])
    ensures Runs(BothBlind(e, now), acts, t)
  {
    var task := Task(e, FailedRule);
    var m := State([RowOf(e, now)], map[1 := Done, 2 := Opening(task, now, None)], [task]);
    assert Apply(BothBlind(e, now), Write(1)) == m;
    OneStep(BothBlind(e, now), Write(1));
    assert Apply(m, Write(2)) == t;
    OneStep(m, Write(2));
    JoinRuns(BothBlind(e, now), [Write(1)], m, [Write(2)], t);
    acts := [Write(1)] + [Write(2)];
  }

  // A success that follows finds one of the two.
  lemma RecoveryFindsOne(e: Event, recovery: Event, now: int)
    requires recovery == e.(status := Succeeded)
    ensures var rows := [RowOf(e, now), RowOf(e, now)];
      Recovered(rows, recovery).0 == [RowOf(e, now).(status := Resolved, resolvedAt := Some(e.occurredAt)), RowOf(e, now)]
  {
    var rows := [RowOf(e, now), RowOf(e, now)];
    var text := FingerprintText(e, FailedRule);
    assert recovery.tenant == e.tenant && FingerprintText(recovery, FailedRule) == text;
    assert rows[..1] == [RowOf(e, now)] && [RowOf(e, now)][..0] == [];
    assert FindActive([RowOf(e, now)], e.tenant, OfWorkflow(text)) == Some(0);
    assert FindActive(rows, e.tenant, OfWorkflow(text)) == Some(0);
    RulesApart(recovery);
  }

  lemma TwoRows(a: Incident, b: Incident, tenant: string, text: string)
    requires IsFor(a, tenant, text) && IsFor(b, tenant, text)
    ensures Rows([a, b], tenant, text) == 2
  {
    AppendedRow([], a, tenant, text);
    AppendedRow([a], b, tenant, text);
    assert [] + [a] == [a] && [a] + [b] == [a, b];
  }

  lemma SuccessLast(log: seq<Task>, e: Event)
    requires e.status.Succeeded?
    ensures !TaskTroubled(log + [Task(e, FailedRule)] + [Task(e, TimedOutRule)], e.tenant, FingerprintText(e, FailedRule))
  {
    RulesApart(e);
    TaskTroubledNext(log, Task(e, FailedRule), e.tenant, FingerprintText(e, FailedRule));
    TaskTroubledNext(log + [Task(e, FailedRule)], Task(e, TimedOutRule), e.tenant, FingerprintText(e, FailedRule));
  }

  /** Two handlers that both looked before either wrote open two incidents for one fingerprint, and the
      success handled after them resolves only one: the other stays active with nothing left to do. */
  lemma OverlappingHandlersLeaveOneOpen(e: Event, now: int) returns (acts: seq<Action>, t: State)
    requires Handled(e) && e.status.Failed?
    ensures Runs(START, acts, t) && forall h :: h in t.handlers ==> t.handlers[h].Done?
    ensures Rows(t.incidents, e.tenant, FingerprintText(e, FailedRule)) == 2
    ensures SomeActive(t.incidents, e.tenant, FingerprintText(e, FailedRule))
    ensures !TaskTroubled(t.log, e.tenant, FingerprintText(e, FailedRule))
  {
    var recovery := e.(status := Succeeded);
    var text := FingerprintText(e, FailedRule);
    var before, s := TwoBlindReports(e, now);
    var more;
    more, t := SerialRecovery(s, 3, recovery, now);
    JoinRuns(START, before, s, more, t);
    acts := before + more;
    RecoveryFindsOne(e, recovery, now);
    assert FingerprintText(recovery, FailedRule) == text;
    TwoRows(t.incidents[0], t.incidents[1], e.tenant, text);
    assert IsFor(t.incidents[1], e.tenant, text) && t.incidents[1].Active();
    SuccessLast(s.log, recovery);
  }
}
