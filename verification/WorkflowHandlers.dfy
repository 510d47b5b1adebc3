/** Event handlers that overlap: each looks at the incident table and writes to it in separate steps, and may
    be given up in between. */
module WorkflowHandlers {
  import opened Prelude
  import opened Incidents
  import opened GenericWorkflow

  // What a handler does for one rule: a report opens or refreshes its rule's incident, a success resolves
  // the incident of each rule in turn.
  datatype Task = Task(e: Event, rule: Rule)

  datatype Seen = Seen(k: nat, row: Incident)

  datatype Pc =
    | Seeking(task: Task)
    | Opening(task: Task, now: int, seen: Option<Seen>)
    | Checking(task: Task, k: nat)
    | Closing(task: Task, k: nat)
    | Done

  // `log` lists every task completed so far; `handlers` is never shrunk.
  datatype State = State(incidents: seq<Incident>, handlers: map<nat, Pc>, log: seq<Task>)

  datatype Action =
    | Start(h: nat, e: Event)
    | Look(h: nat, now: int)
    | Check(h: nat)
    | Write(h: nat)
    | Abandon(h: nat)
    | Foreign(k: nat, i: Incident)

  predicate Detects(e: Event) {
    Handled(e) && (e.status.Succeeded? || RuleOf(e.status).Some?)
  }

  function FirstTask(e: Event): Task {
    Task(e, if RuleOf(e.status).Some? then RuleOf(e.status).value else FailedRule)
  }

  /** A success goes on from the failed rule to the timed-out rule. */
  function After(task: Task): Pc {
    if task.e.status.Succeeded? && task.rule.FailedRule? then Seeking(Task(task.e, TimedOutRule)) else Done
  }

  predicate Enabled(s: State, a: Action) {
    match a
    case Start(h, e) => h !in s.handlers && Detects(e)
    case Look(h, _) => h in s.handlers && s.handlers[h].Seeking?
    case Check(h) => h in s.handlers && s.handlers[h].Checking?
    case Write(h) =>
      h in s.handlers
      && ((s.handlers[h].Opening? && (s.handlers[h].seen.Some? ==> s.handlers[h].seen.value.k < |s.incidents|))
          || (s.handlers[h].Closing? && s.handlers[h].k < |s.incidents|))
    case Abandon(h) => h in s.handlers
    case Foreign(k, i) =>
      !i.fingerprint.OfWorkflow? && k <= |s.incidents| && (k < |s.incidents| ==> !s.incidents[k].fingerprint.OfWorkflow?)
  }

  /** A refresh writes what it made of the row it saw, whatever has become of the row since. */
  function Rewritten(i: Incident, seen: Incident, task: Task, now: int): Incident {
    var startedAt := if seen.status.Resolved? then now else seen.startedAt;
    i.(status := Open, severity := SeverityFor(task.rule), resolvedAt := None, startedAt := startedAt, lastSeenAt := task.e.occurredAt,
       slaDueAt := SlaDueAt(startedAt, SeverityFor(task.rule)), fingerprint := FingerprintFor(task.e, task.rule), details := NO_DETAILS,
       alerts := i.alerts + (if seen.status.Resolved? then 1 else 0))
  }

  function Opened(incidents: seq<Incident>, task: Task, now: int, seen: Option<Seen>): seq<Incident>
    requires seen.Some? ==> seen.value.k < |incidents|
  {
    match seen
    case None =>
      incidents + [BridgeOpened(task.e.tenant, FingerprintFor(task.e, task.rule), SeverityFor(task.rule), task.e.occurredAt, now)]
    case Some(saw) => incidents[saw.k := Rewritten(incidents[saw.k], saw.row, task, now)]
  }

  function Looked(incidents: seq<Incident>, task: Task, now: int): Pc {
    if task.e.status.Succeeded? then
      match FindActive(incidents, task.e.tenant, FingerprintFor(task.e, task.rule))
      case None => After(task)
      case Some(k) => Checking(task, k)
    else
      match FindByFingerprint(incidents, task.e.tenant, FingerprintFor(task.e, task.rule))
      case None => Opening(task, now, None)
      case Some(k) => Opening(task, now, Some(Seen(k, incidents[k])))
  }

  function Checked(incidents: seq<Incident>, task: Task, k: nat): Pc {
    if k < |incidents| && incidents[k].tenant == task.e.tenant && !incidents[k].status.Resolved? then Closing(task, k) else After(task)
  }

  // A handler that moves on; its task is logged when nothing is left to do for it.
  function Moved(s: State, h: nat, pc: Pc, task: Task): State {
    State(s.incidents, s.handlers[h := pc], if pc == After(task) then s.log + [task] else s.log)
  }

  function Apply(s: State, a: Action): State
    requires Enabled(s, a)
  {
    match a
    case Start(h, e) => s.(handlers := s.handlers[h := Seeking(FirstTask(e))])
    case Look(h, now) => var task := s.handlers[h].task; Moved(s, h, Looked(s.incidents, task, now), task)
    case Check(h) => var task := s.handlers[h].task; Moved(s, h, Checked(s.incidents, task, s.handlers[h].k), task)
    case Write(h) =>
      var task := s.handlers[h].task;
      var incidents :=
        if s.handlers[h].Opening? then Opened(s.incidents, task, s.handlers[h].now, s.handlers[h].seen)
        else var k := s.handlers[h].k; s.incidents[k := s.incidents[k].(status := Resolved, resolvedAt := Some(task.e.occurredAt))];
      State(incidents, s.handlers[h := After(task)], s.log + [task])
    case Abandon(h) => s.(handlers := s.handlers[h := Done])
    case Foreign(k, i) => s.(incidents := if k == |s.incidents| then s.incidents + [i] else s.incidents[k := i])
  }

  ghost predicate Runs(s: State, acts: seq<Action>, t: State)
    decreases |acts|
  {
    if acts == [] then s == t
    else Enabled(s, acts[0]) && Runs(Apply(s, acts[0]), acts[1..], t)
  }

  const START: State := State([], map[], [])

  // ----- one tenant's fingerprint

  predicate On(task: Task, tenant: string, text: string) {
    task.e.tenant == tenant && FingerprintText(task.e, task.rule) == text
  }

  /** The last completed task on the fingerprint was a report. */
  predicate TaskTroubled(log: seq<Task>, tenant: string, text: string) {
    if log == [] then false
    else
      var last := log[|log| - 1];
      if On(last, tenant, text) then !last.e.status.Succeeded? else TaskTroubled(log[..|log| - 1], tenant, text)
  }

  function Rows(incidents: seq<Incident>, tenant: string, text: string): nat {
    if incidents == [] then 0
    else
      var n := |incidents| - 1;
      Rows(incidents[..n], tenant, text) + (if IsFor(incidents[n], tenant, text) then 1 else 0)
  }

  ghost predicate SomeActive(incidents: seq<Incident>, tenant: string, text: string) {
    exists k :: 0 <= k < |incidents| && IsFor(incidents[k], tenant, text) && incidents[k].Active()
  }

  /** The handler has looked for the fingerprint's incident, found none, and has not written yet. */
  predicate Blind(pc: Pc, tenant: string, text: string) {
    pc.Opening? && pc.seen.None? && On(pc.task, tenant, text)
  }

  predicate BlindIn(s: State, h: nat, tenant: string, text: string) {
    h in s.handlers && Blind(s.handlers[h], tenant, text)
  }

  predicate WritesBlindly(s: State, a: Action, tenant: string, text: string) {
    a.Write? && BlindIn(s, a.h, tenant, text)
  }

  // ----- what holds in every run

  predicate SawRow(incidents: seq<Incident>, k: nat, task: Task) {
    k < |incidents| && IsFor(incidents[k], task.e.tenant, FingerprintText(task.e, task.rule))
  }

  predicate PcOk(incidents: seq<Incident>, pc: Pc) {
    match pc
    case Seeking(task) => true
    case Opening(task, _, seen) => !task.e.status.Succeeded? && (seen.Some? ==> SawRow(incidents, seen.value.k, task))
    case Checking(task, k) => task.e.status.Succeeded? && SawRow(incidents, k, task)
    case Closing(task, k) => task.e.status.Succeeded? && SawRow(incidents, k, task)
    case Done => true
  }

  ghost predicate Sound(s: State) {
    && (forall h :: h in s.handlers ==> PcOk(s.incidents, s.handlers[h]))
    && (forall k :: 0 <= k < |s.incidents| && s.incidents[k].fingerprint.OfWorkflow? ==> !s.incidents[k].status.Acked?)
  }

  // No step takes a row from its fingerprint or gives one away.
  ghost predicate KeepsOwners(before: seq<Incident>, after: seq<Incident>) {
    && |before| <= |after|
    && forall k :: 0 <= k < |before| ==>
         after[k].fingerprint.OfWorkflow? == before[k].fingerprint.OfWorkflow?
         && (before[k].fingerprint.OfWorkflow? ==> after[k].tenant == before[k].tenant && after[k].fingerprint == before[k].fingerprint)
  }

  lemma StepKeepsOwners(s: State, a: Action)
    requires Sound(s) && Enabled(s, a)
    ensures KeepsOwners(s.incidents, Apply(s, a).incidents)
    ensures forall k :: 0 <= k < |Apply(s, a).incidents| && Apply(s, a).incidents[k].fingerprint.OfWorkflow? ==> !Apply(s, a).incidents[k].status.Acked?
  {
    if a.Write? {
      assert PcOk(s.incidents, s.handlers[a.h]);
    }
  }

  lemma OwnersKeepPc(before: seq<Incident>, after: seq<Incident>, pc: Pc)
    requires PcOk(before, pc) && KeepsOwners(before, after)
    ensures PcOk(after, pc)
  {
  }

  lemma SoundStep(s: State, a: Action)
    requires Sound(s) && Enabled(s, a)
    ensures Sound(Apply(s, a)) && KeepsOwners(s.incidents, Apply(s, a).incidents)
  {
    var t := Apply(s, a);
    StepKeepsOwners(s, a);
    forall h | h in t.handlers ensures PcOk(t.incidents, t.handlers[h]) {
      if h in s.handlers {
        OwnersKeepPc(s.incidents, t.incidents, s.handlers[h]);
      }
    }
  }

  // ----- how many rows a fingerprint has

  lemma {:induction false} SameOwnersSameRows(before: seq<Incident>, after: seq<Incident>, tenant: string, text: string)
    requires KeepsOwners(before, after) && |after| == |before|
    ensures Rows(after, tenant, text) == Rows(before, tenant, text)
  {
    if before != [] {
      var n := |before| - 1;
      SameOwnersSameRows(before[..n], after[..n], tenant, text);
      assert IsFor(after[n], tenant, text) == IsFor(before[n], tenant, text);
    }
  }

  lemma AppendedRow(incidents: seq<Incident>, i: Incident, tenant: string, text: string)
    ensures Rows(incidents + [i], tenant, text) == Rows(incidents, tenant, text) + (if IsFor(i, tenant, text) then 1 else 0)
  {
    assert (incidents + [i])[..|incidents|] == incidents;
  }

  lemma RowsAfterBlindWrite(s: State, h: nat, tenant: string, text: string)
    requires Enabled(s, Write(h)) && s.handlers[h].Opening? && s.handlers[h].seen.None?
    ensures Rows(Apply(s, Write(h)).incidents, tenant, text) == Rows(s.incidents, tenant, text) + (if BlindIn(s, h, tenant, text) then 1 else 0)
  {
    var task := s.handlers[h].task;
    AppendedRow(s.incidents, BridgeOpened(task.e.tenant, FingerprintFor(task.e, task.rule), SeverityFor(task.rule), task.e.occurredAt, s.handlers[h].now),
                tenant, text);
  }

  /** A row is added for the fingerprint exactly when a handler writes blindly. */
  lemma RowsStep(s: State, a: Action, tenant: string, text: string)
    requires Sound(s) && Enabled(s, a)
    ensures Rows(Apply(s, a).incidents, tenant, text) == Rows(s.incidents, tenant, text) + (if WritesBlindly(s, a, tenant, text) then 1 else 0)
  {
    var t := Apply(s, a);
    if a.Write? && s.handlers[a.h].Opening? && s.handlers[a.h].seen.None? {
      RowsAfterBlindWrite(s, a.h, tenant, text);
    } else if a.Foreign? && a.k == |s.incidents| {
      AppendedRow(s.incidents, a.i, tenant, text);
    } else {
      StepKeepsOwners(s, a);
      SameOwnersSameRows(s.incidents, t.incidents, tenant, text);
    }
  }

  lemma {:induction false} RowIsThere(incidents: seq<Incident>, tenant: string, text: string) returns (k: nat)
    requires Rows(incidents, tenant, text) > 0
    ensures k < |incidents| && IsFor(incidents[k], tenant, text)
  {
    var n := |incidents| - 1;
    if IsFor(incidents[n], tenant, text) {
      k := n;
    } else {
      k := RowIsThere(incidents[..n], tenant, text);
    }
  }

  lemma {:induction false} RowCounts(incidents: seq<Incident>, k: nat, tenant: string, text: string)
    requires k < |incidents| && IsFor(incidents[k], tenant, text)
    ensures Rows(incidents, tenant, text) > 0
  {
    if k < |incidents| - 1 {
      RowCounts(incidents[..|incidents| - 1], k, tenant, text);
    }
  }

  lemma {:induction false} OnlyRow(incidents: seq<Incident>, j: nat, k: nat, tenant: string, text: string)
    requires Rows(incidents, tenant, text) <= 1
    requires j < |incidents| && IsFor(incidents[j], tenant, text) && k < |incidents| && IsFor(incidents[k], tenant, text)
    ensures j == k
  {
    var n := |incidents| - 1;
    if j < n && k < n {
      OnlyRow(incidents[..n], j, k, tenant, text);
    } else if j < n {
      RowCounts(incidents[..n], j, tenant, text);
    } else if k < n {
      RowCounts(incidents[..n], k, tenant, text);
    }
  }

  // ----- blind writes

  predicate Finishes(acts: seq<Action>, h: nat) {
    exists i :: 0 <= i < |acts| && acts[i] == Write(h)
  }

  lemma FinishesNext(acts: seq<Action>, h: nat)
    requires acts != []
    ensures Finishes(acts, h) <==> acts[0] == Write(h) || Finishes(acts[1..], h)
  {
    if Finishes(acts[1..], h) {
      var i :| 0 <= i < |acts[1..]| && acts[1..][i] == Write(h);
      assert acts[i + 1] == Write(h);
    }
    if Finishes(acts, h) && acts[0] != Write(h) {
      var i :| 0 <= i < |acts| && acts[i] == Write(h);
      assert acts[1..][i - 1] == Write(h);
    }
  }

  ghost predicate BlindFinishes(s: State, acts: seq<Action>, tenant: string, text: string) {
    exists h :: BlindIn(s, h, tenant, text) && Finishes(acts, h)
  }

  /** When a first handler writes blindly, another one is blind too and goes on to write. */
  ghost predicate BlindWritesOverlap(s: State, acts: seq<Action>, tenant: string, text: string)
    decreases |acts|
  {
    acts != [] && Enabled(s, acts[0]) &&
    var m := Apply(s, acts[0]);
    if WritesBlindly(s, acts[0], tenant, text) then BlindFinishes(m, acts[1..], tenant, text)
    else BlindWritesOverlap(m, acts[1..], tenant, text)
  }

  // A look that comes after the first row finds it.
  lemma NoneNewlyBlind(s: State, a: Action, h: nat, tenant: string, text: string)
    requires Sound(s) && Enabled(s, a) && Rows(s.incidents, tenant, text) > 0
    ensures BlindIn(Apply(s, a), h, tenant, text) ==> BlindIn(s, h, tenant, text) && a != Write(h)
    ensures BlindIn(s, h, tenant, text) && a != Write(h) && a != Abandon(h) ==> BlindIn(Apply(s, a), h, tenant, text)
  {
    var k := RowIsThere(s.incidents, tenant, text);
  }

  lemma {:induction false} GivenUpNeverFinishes(s: State, acts: seq<Action>, t: State, h: nat)
    requires Runs(s, acts, t) && h in s.handlers && s.handlers[h].Done?
    ensures !Finishes(acts, h)
    decreases |acts|
  {
    if acts != [] {
      FinishesNext(acts, h);
      GivenUpNeverFinishes(Apply(s, acts[0]), acts[1..], t, h);
    }
  }

  lemma BlindFinishesStep(s: State, acts: seq<Action>, t: State, tenant: string, text: string)
    requires Sound(s) && acts != [] && Runs(s, acts, t) && Rows(s.incidents, tenant, text) > 0
    ensures BlindFinishes(s, acts, tenant, text)
        <==> WritesBlindly(s, acts[0], tenant, text) || BlindFinishes(Apply(s, acts[0]), acts[1..], tenant, text)
  {
    var m := Apply(s, acts[0]);
    forall h: nat
      ensures BlindIn(s, h, tenant, text) && Finishes(acts, h)
          <==> (acts[0] == Write(h) && BlindIn(s, h, tenant, text)) || (BlindIn(m, h, tenant, text) && Finishes(acts[1..], h))
    {
      FinishesNext(acts, h);
      NoneNewlyBlind(s, acts[0], h, tenant, text);
      if acts[0] == Abandon(h) {
        GivenUpNeverFinishes(m, acts[1..], t, h);
      }
    }
    if WritesBlindly(s, acts[0], tenant, text) {
      assert BlindIn(s, acts[0].h, tenant, text) && Finishes(acts, acts[0].h);
    }
    if BlindFinishes(m, acts[1..], tenant, text) {
      var h :| BlindIn(m, h, tenant, text) && Finishes(acts[1..], h);
      assert BlindIn(s, h, tenant, text) && Finishes(acts, h);
    }
  }

  lemma {:induction false} RowsGrowExactly(s: State, acts: seq<Action>, t: State, tenant: string, text: string)
    requires Sound(s) && Runs(s, acts, t) && Rows(s.incidents, tenant, text) > 0
    ensures Rows(t.incidents, tenant, text) >= Rows(s.incidents, tenant, text)
    ensures Rows(t.incidents, tenant, text) > Rows(s.incidents, tenant, text) <==> BlindFinishes(s, acts, tenant, text)
    decreases |acts|
  {
    if acts != [] {
      SoundStep(s, acts[0]);
      RowsStep(s, acts[0], tenant, text);
      BlindFinishesStep(s, acts, t, tenant, text);
      RowsGrowExactly(Apply(s, acts[0]), acts[1..], t, tenant, text);
    }
  }

  lemma {:induction false} SecondRowFrom(s: State, acts: seq<Action>, t: State, tenant: string, text: string)
    requires Sound(s) && Runs(s, acts, t) && Rows(s.incidents, tenant, text) == 0
    ensures Rows(t.incidents, tenant, text) >= 2 <==> BlindWritesOverlap(s, acts, tenant, text)
    decreases |acts|
  {
    if acts != [] {
      var m := Apply(s, acts[0]);
      SoundStep(s, acts[0]);
      RowsStep(s, acts[0], tenant, text);
      if WritesBlindly(s, acts[0], tenant, text) {
        RowsGrowExactly(m, acts[1..], t, tenant, text);
      } else {
        SecondRowFrom(m, acts[1..], t, tenant, text);
      }
    }
  }

  // ----- the status of the rows

  /** A report leaves an active row of its fingerprint behind, however handlers overlap. */
  ghost predicate NotMissed(s: State, tenant: string, text: string) {
    TaskTroubled(s.log, tenant, text) ==> SomeActive(s.incidents, tenant, text)
  }

  /** Nothing is left active after a success. */
  ghost predicate NotLeftOpen(s: State, tenant: string, text: string) {
    SomeActive(s.incidents, tenant, text) ==> TaskTroubled(s.log, tenant, text)
  }

  lemma TaskTroubledNext(log: seq<Task>, task: Task, tenant: string, text: string)
    ensures TaskTroubled(log + [task], tenant, text)
        <==> if On(task, tenant, text) then !task.e.status.Succeeded? else TaskTroubled(log, tenant, text)
  {
    assert (log + [task])[..|log|] == log;
  }

  // Rows of this fingerprint keep their status in a step that completes no task on it.
  ghost predicate KeepsStatus(before: seq<Incident>, after: seq<Incident>, tenant: string, text: string) {
    && |before| <= |after|
    && (forall k :: 0 <= k < |before| ==>
          IsFor(after[k], tenant, text) == IsFor(before[k], tenant, text) && (IsFor(before[k], tenant, text) ==> after[k].status == before[k].status))
    && (forall k :: |before| <= k < |after| ==> !IsFor(after[k], tenant, text))
  }

  lemma StatusKept(before: seq<Incident>, after: seq<Incident>, tenant: string, text: string)
    requires KeepsStatus(before, after, tenant, text)
    ensures SomeActive(after, tenant, text) <==> SomeActive(before, tenant, text)
  {
    if SomeActive(before, tenant, text) {
      var k :| 0 <= k < |before| && IsFor(before[k], tenant, text) && before[k].Active();
      assert IsFor(after[k], tenant, text) && after[k].Active();
    }
  }

  /** The step completes this task. */
  predicate Completes(s: State, a: Action, task: Task)
    requires Enabled(s, a)
  {
    Apply(s, a).log == s.log + [task]
  }

  lemma OtherTasksKeepStatus(s: State, a: Action, tenant: string, text: string)
    requires Sound(s) && Enabled(s, a) && (a.Write? ==> !On(s.handlers[a.h].task, tenant, text))
    ensures KeepsStatus(s.incidents, Apply(s, a).incidents, tenant, text)
  {
    if a.Write? {
      assert PcOk(s.incidents, s.handlers[a.h]);
    }
  }

  lemma ReportWritten(s: State, h: nat, tenant: string, text: string)
    requires Sound(s) && Enabled(s, Write(h)) && s.handlers[h].Opening? && On(s.handlers[h].task, tenant, text)
    ensures var t := Apply(s, Write(h)); SomeActive(t.incidents, tenant, text) && TaskTroubled(t.log, tenant, text)
  {
    var t := Apply(s, Write(h));
    assert PcOk(s.incidents, s.handlers[h]);
    var k := if s.handlers[h].seen.Some? then s.handlers[h].seen.value.k else |s.incidents|;
    assert IsFor(t.incidents[k], tenant, text) && t.incidents[k].Active();
    TaskTroubledNext(s.log, s.handlers[h].task, tenant, text);
  }

  lemma RecoveryWritten(s: State, h: nat, tenant: string, text: string)
    requires Sound(s) && Enabled(s, Write(h)) && s.handlers[h].Closing? && On(s.handlers[h].task, tenant, text)
    ensures var t := Apply(s, Write(h));
      !TaskTroubled(t.log, tenant, text) && (Rows(s.incidents, tenant, text) <= 1 ==> !SomeActive(t.incidents, tenant, text))
  {
    var t := Apply(s, Write(h));
    assert PcOk(s.incidents, s.handlers[h]);
    TaskTroubledNext(s.log, s.handlers[h].task, tenant, text);
    if Rows(s.incidents, tenant, text) <= 1 && SomeActive(t.incidents, tenant, text) {
      var k :| 0 <= k < |t.incidents| && IsFor(t.incidents[k], tenant, text) && t.incidents[k].Active();
      OnlyRow(s.incidents, s.handlers[h].k, k, tenant, text);
    }
  }

  // Looking in vain, or finding the incident resolved by the time it is read again.
  lemma NothingToResolve(s: State, a: Action, tenant: string, text: string)
    requires Sound(s) && Enabled(s, a) && (a.Look? || a.Check?) && On(s.handlers[a.h].task, tenant, text)
    requires Completes(s, a, s.handlers[a.h].task)
    ensures s.handlers[a.h].task.e.status.Succeeded?
    ensures Rows(s.incidents, tenant, text) <= 1 ==> !SomeActive(s.incidents, tenant, text)
  {
    assert PcOk(s.incidents, s.handlers[a.h]);
    if a.Check? && Rows(s.incidents, tenant, text) <= 1 && SomeActive(s.incidents, tenant, text) {
      var k :| 0 <= k < |s.incidents| && IsFor(s.incidents[k], tenant, text) && s.incidents[k].Active();
      OnlyRow(s.incidents, s.handlers[a.h].k, k, tenant, text);
    }
  }

  lemma QuietStep(s: State, a: Action, tenant: string, text: string)
    requires Sound(s) && Enabled(s, a) && !a.Write?
    ensures var t := Apply(s, a);
      && (SomeActive(t.incidents, tenant, text) <==> SomeActive(s.incidents, tenant, text))
      && (TaskTroubled(t.log, tenant, text) ==> TaskTroubled(s.log, tenant, text))
      && (TaskTroubled(s.log, tenant, text) && !TaskTroubled(t.log, tenant, text) && Rows(s.incidents, tenant, text) <= 1 ==>
            !SomeActive(s.incidents, tenant, text))
  {
    OtherTasksKeepStatus(s, a, tenant, text);
    StatusKept(s.incidents, Apply(s, a).incidents, tenant, text);
    QuietLog(s, a, tenant, text);
  }

  lemma QuietLog(s: State, a: Action, tenant: string, text: string)
    requires Sound(s) && Enabled(s, a) && !a.Write?
    ensures var t := Apply(s, a);
      && (TaskTroubled(t.log, tenant, text) ==> TaskTroubled(s.log, tenant, text))
      && (TaskTroubled(s.log, tenant, text) && !TaskTroubled(t.log, tenant, text) && Rows(s.incidents, tenant, text) <= 1 ==>
            !SomeActive(s.incidents, tenant, text))
  {
    if a.Look? || a.Check? {
      var task := s.handlers[a.h].task;
      TaskTroubledNext(s.log, task, tenant, text);
      if Completes(s, a, task) && On(task, tenant, text) {
        NothingToResolve(s, a, tenant, text);
      }
    }
  }

  lemma StatusStep(s: State, a: Action, tenant: string, text: string)
    requires Sound(s) && Enabled(s, a)
    ensures NotMissed(s, tenant, text) ==> NotMissed(Apply(s, a), tenant, text)
    ensures NotLeftOpen(s, tenant, text) && Rows(s.incidents, tenant, text) <= 1 ==> NotLeftOpen(Apply(s, a), tenant, text)
  {
    if !a.Write? {
      QuietStep(s, a, tenant, text);
    } else if !On(s.handlers[a.h].task, tenant, text) {
      OtherTasksKeepStatus(s, a, tenant, text);
      StatusKept(s.incidents, Apply(s, a).incidents, tenant, text);
      TaskTroubledNext(s.log, s.handlers[a.h].task, tenant, text);
    } else if s.handlers[a.h].Opening? {
      ReportWritten(s, a.h, tenant, text);
    } else {
      RecoveryWritten(s, a.h, tenant, text);
    }
  }

  lemma {:induction false} StatusAlways(s: State, acts: seq<Action>, t: State, tenant: string, text: string)
    requires Sound(s) && Runs(s, acts, t)
    ensures Rows(s.incidents, tenant, text) <= Rows(t.incidents, tenant, text)
    ensures NotMissed(s, tenant, text) ==> NotMissed(t, tenant, text)
    ensures NotLeftOpen(s, tenant, text) && Rows(t.incidents, tenant, text) <= 1 ==> NotLeftOpen(t, tenant, text)
    decreases |acts|
  {
    if acts != [] {
      SoundStep(s, acts[0]);
      RowsStep(s, acts[0], tenant, text);
      StatusStep(s, acts[0], tenant, text);
      StatusAlways(Apply(s, acts[0]), acts[1..], t, tenant, text);
    }
  }
}
