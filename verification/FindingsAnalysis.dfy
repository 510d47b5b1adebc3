/** One analysis batch: events read, findings opened and resolved, counters. */
module FindingsAnalysis {
  import opened Prelude
  import opened EventLog
  import opened GroupKeys
  import opened WindowRules

  const JOB_FAILED_BURST_THRESHOLD: nat := 3
  const JOB_FAILED_BURST_WINDOW_MIN: int := 15
  const WORKFLOW_FAILED_BURST_THRESHOLD: nat := 3
  const WORKFLOW_FAILED_BURST_WINDOW_MIN: int := 20
  const WORKFLOW_STUCK_MIN: int := 30
  const JOB_STUCK_MIN: int := 20

  datatype Rule = WorkflowFailed | JobFailedBurst | RetrySpike | DurationDrift | WorkflowStuck | JobStuck

  // What a finding's fingerprint is hashed from; the hash is taken to be injective.
  datatype Fingerprint = Fingerprint(rule: Rule, tenant: string, subject: string)

  datatype Finding = Finding(isOpen: bool, firstSeenAt: int, lastSeenAt: int, resolvedAt: Option<int>, eventCount: nat)

  type Findings = map<Fingerprint, Finding>

  datatype FindingState = Created | Reopened | Updated | Resolved | Unchanged

  // One verdict of the batch on one fingerprint: to open or refresh it, or to resolve it, as seen at `at`.
  datatype Verdict = Verdict(fp: Fingerprint, opens: bool, at: int)

  function OpenOrRefreshed(fs: Findings, fp: Fingerprint, at: int): (Findings, FindingState) {
    if fp !in fs then (fs[fp := Finding(true, at, at, None, 1)], Created)
    else
      var f := fs[fp];
      (fs[fp := f.(isOpen := true, resolvedAt := None, lastSeenAt := at, eventCount := Max(1, f.eventCount) + 1)],
       if f.isOpen then Updated else Reopened)
  }

  function ResolvedIn(fs: Findings, fp: Fingerprint, at: int): (Findings, FindingState) {
    if fp !in fs || !fs[fp].isOpen then (fs, Unchanged)
    else (fs[fp := fs[fp].(isOpen := false, resolvedAt := Some(at), lastSeenAt := at)], Resolved)
  }

  function Ruled(fs: Findings, v: Verdict): (Findings, FindingState) {
    if v.opens then OpenOrRefreshed(fs, v.fp, v.at) else ResolvedIn(fs, v.fp, v.at)
  }

  datatype Tally = Tally(findings: Findings, openings: nat, resolutions: nat)

  function Count(t: Tally, v: Verdict): Tally {
    var (fs, state) := Ruled(t.findings, v);
    Tally(fs, t.openings + (if state.Created? || state.Reopened? then 1 else 0), t.resolutions + (if state.Resolved? then 1 else 0))
  }

  function CountAll(t: Tally, vs: seq<Verdict>): Tally {
    if vs == [] then t else Count(CountAll(t, vs[..|vs| - 1]), vs[|vs| - 1])
  }

  // ----- conservation of open findings

  ghost function OpenSet(fs: Findings): set<Fingerprint> {
    set fp | fp in fs && fs[fp].isOpen
  }

  ghost predicate IsOpen(fs: Findings, fp: Fingerprint) {
    fp in fs && fs[fp].isOpen
  }

  lemma OpenSetGrows(fs: Findings, fp: Fingerprint, at: int)
    ensures var (fs', state) := OpenOrRefreshed(fs, fp, at);
      && OpenSet(fs') == OpenSet(fs) + {fp}
      && |OpenSet(fs')| == |OpenSet(fs)| + (if state.Created? || state.Reopened? then 1 else 0)
      && !state.Resolved?
  {
    var (fs', state) := OpenOrRefreshed(fs, fp, at);
    assert OpenSet(fs') == OpenSet(fs) + {fp};
    if fp in OpenSet(fs) {
      assert OpenSet(fs) + {fp} == OpenSet(fs);
    }
  }

  lemma OpenSetShrinks(fs: Findings, fp: Fingerprint, at: int)
    ensures var (fs', state) := ResolvedIn(fs, fp, at);
      && OpenSet(fs') == OpenSet(fs) - {fp}
      && |OpenSet(fs')| == |OpenSet(fs)| - (if state.Resolved? then 1 else 0)
      && !state.Created? && !state.Reopened?
  {
    var (fs', state) := ResolvedIn(fs, fp, at);
    assert OpenSet(fs') == OpenSet(fs) - {fp};
  }

  lemma CountConserves(t: Tally, v: Verdict)
    ensures var u := Count(t, v);
      |OpenSet(u.findings)| - |OpenSet(t.findings)| == (u.openings - t.openings) - (u.resolutions - t.resolutions)
    ensures IsOpen(Count(t, v).findings, v.fp) == v.opens
    ensures forall fp :: fp != v.fp ==> IsOpen(Count(t, v).findings, fp) == IsOpen(t.findings, fp)
  {
    if v.opens {
      OpenSetGrows(t.findings, v.fp, v.at);
    } else {
      OpenSetShrinks(t.findings, v.fp, v.at);
    }
  }

  /** Over any verdicts, findings opened minus findings resolved is the change in the number open. */
  lemma {:induction false} TallyConserves(t: Tally, vs: seq<Verdict>)
    ensures var u := CountAll(t, vs);
      (u.openings - t.openings) - (u.resolutions - t.resolutions) == |OpenSet(u.findings)| - |OpenSet(t.findings)|
  {
    if vs != [] {
      TallyConserves(t, vs[..|vs| - 1]);
      CountConserves(CountAll(t, vs[..|vs| - 1]), vs[|vs| - 1]);
    }
  }

  /** The last verdict on a fingerprint decides whether it ends up open. */
  lemma {:induction false} LastVerdictDecides(t: Tally, vs: seq<Verdict>, i: nat)
    requires i < |vs| && forall j :: i < j < |vs| ==> vs[j].fp != vs[i].fp
    ensures IsOpen(CountAll(t, vs).findings, vs[i].fp) == vs[i].opens
  {
    var n := |vs| - 1;
    CountConserves(CountAll(t, vs[..n]), vs[n]);
    if i < n {
      LastVerdictDecides(t, vs[..n], i);
    }
  }

  // ----- the verdicts of a batch

  predicate Contains(v: string, part: string) {
    exists i :: 0 <= i <= |v| - |part| && v[i..][..|part|] == part
  }

  predicate IsWorkflowCorrelation(correlation: string) {
    Contains(correlation, ":workflow_run:")
  }

  predicate IsJobCorrelation(correlation: string) {
    Contains(correlation, ":workflow_job:")
  }

  /** The latest event of a correlation. */
  function LatestOf(table: seq<Event>, tenant: string, correlation: string): Option<Event> {
    if table == [] then None
    else
      var e := table[|table| - 1];
      var best := LatestOf(table[..|table| - 1], tenant, correlation);
      if e.tenant == tenant && e.source == "github_actions" && e.correlation == Some(correlation)
         && (best.None? || ComesAfter(e, best.value))
      then Some(e) else best
  }

  // What the batch is run on: the whole log, the clock, the tenants entitled to findings, and how the two
  // sampled rules judge: a system's retry spike, and a duration group's drift, given the run that closes it.
  datatype Inputs = Inputs(
    table: seq<Event>,
    now: int,
    entitled: string -> bool,
    spike: (string, string) -> bool,
    drift: (string, Event) -> Option<bool>)

  function WorkflowVerdict(inp: Inputs, tenant: string, system: string): Verdict {
    var n := WindowCount(inp.table, tenant, system, "workflow_failed", inp.now - WORKFLOW_FAILED_BURST_WINDOW_MIN * 60_000);
    Verdict(Fingerprint(WorkflowFailed, tenant, system), n >= WORKFLOW_FAILED_BURST_THRESHOLD, inp.now)
  }

  function BurstVerdict(inp: Inputs, tenant: string, system: string): Verdict {
    var n := WindowCount(inp.table, tenant, system, "job_failed", inp.now - JOB_FAILED_BURST_WINDOW_MIN * 60_000);
    Verdict(Fingerprint(JobFailedBurst, tenant, system), n >= JOB_FAILED_BURST_THRESHOLD, inp.now)
  }

  function SpikeVerdict(inp: Inputs, tenant: string, system: string): Verdict {
    Verdict(Fingerprint(RetrySpike, tenant, system), inp.spike(tenant, system), inp.now)
  }

  function SystemVerdicts(inp: Inputs, systemKey: string): seq<Verdict> {
    var (tenant, system) := ParseSystemKey(systemKey);
    [WorkflowVerdict(inp, tenant, system), BurstVerdict(inp, tenant, system), SpikeVerdict(inp, tenant, system)]
  }

  function DriftFingerprint(durationKey: string): Fingerprint
    requires '|' in durationKey
  {
    var (tenant, system, family) := ParseDurationKey(durationKey);
    Fingerprint(DurationDrift, tenant, system + "|" + family)
  }

  function DriftVerdicts(inp: Inputs, durationKey: string, terminal: Event): seq<Verdict>
    requires '|' in durationKey
  {
    match inp.drift(durationKey, terminal)
    case None => []
    case Some(drifts) => [Verdict(DriftFingerprint(durationKey), drifts, if drifts then terminal.eventTs else inp.now)]
  }

  /** The verdict on a correlation rests on its latest event alone: finished, started long ago, or neither. */
  function CorrelationVerdicts(inp: Inputs, tenant: string, correlation: string): seq<Verdict> {
    match LatestOf(inp.table, tenant, correlation)
    case None => []
    case Some(latest) =>
      if IsWorkflowCorrelation(correlation) then
        var fp := Fingerprint(WorkflowStuck, tenant, correlation);
        if latest.eventType in WORKFLOW_TERMINAL then [Verdict(fp, false, inp.now)]
        else if latest.eventType in WORKFLOW_START then [Verdict(fp, inp.now - latest.eventTs >= WORKFLOW_STUCK_MIN * 60_000, inp.now)]
        else []
      else if IsJobCorrelation(correlation) then
        var fp := Fingerprint(JobStuck, tenant, correlation);
        if latest.eventType in JOB_TERMINAL then [Verdict(fp, false, inp.now)]
        else if latest.eventType in JOB_START then [Verdict(fp, inp.now - latest.eventTs >= JOB_STUCK_MIN * 60_000, inp.now)]
        else []
      else []
  }

  function StuckVerdicts(inp: Inputs, groupKey: string): seq<Verdict> {
    var (tenant, _, correlation) := ParseCorrelationKey(groupKey);
    CorrelationVerdicts(inp, tenant, correlation)
  }

  predicate Eligible(inp: Inputs, e: Event) {
    e.source == "github_actions" && inp.entitled(e.tenant)
  }

  predicate ClosesDuration(e: Event) {
    Correlated(e) && FamilyOf(e.eventType) != "" && e.eventType in TerminalTypes(FamilyOf(e.eventType))
  }

  function AddOnce(keys: seq<string>, key: string): (r: seq<string>)
    ensures forall k :: k in r <==> k in keys || k == key
    ensures (forall i, j :: 0 <= i < j < |keys| ==> keys[i] != keys[j]) ==> forall i, j :: 0 <= i < j < |r| ==> r[i] != r[j]
  {
    if key in keys then keys else keys + [key]
  }

  /** The systems, correlations and duration groups a batch touches, each once, in order of appearance,
      with the latest closing event of each duration group. */
  datatype Groups = Groups(systems: seq<string>, correlations: seq<string>, durations: seq<string>, terminals: map<string, Event>)

  function KeyOfClosing(e: Event): string {
    DurationKey(e.tenant, e.system, FamilyOf(e.eventType))
  }

  function WithTerminal(terminals: map<string, Event>, e: Event): map<string, Event> {
    var key := KeyOfClosing(e);
    if key !in terminals || ComesAfter(e, terminals[key]) then terminals[key := e] else terminals
  }

  function GroupsOf(inp: Inputs, batch: seq<Event>): Groups {
    if batch == [] then Groups([], [], [], map[])
    else
      var g := GroupsOf(inp, batch[..|batch| - 1]);
      var e := batch[|batch| - 1];
      if !Eligible(inp, e) then g
      else
        Groups(
          AddOnce(g.systems, SystemKey(e.tenant, e.system)),
          if Correlated(e) then AddOnce(g.correlations, CorrelationGroupKey(e.tenant, e.system, e.correlation.value)) else g.correlations,
          if ClosesDuration(e) then AddOnce(g.durations, KeyOfClosing(e)) else g.durations,
          if ClosesDuration(e) then WithTerminal(g.terminals, e) else g.terminals)
  }

  lemma {:induction false} GroupsWellFormed(inp: Inputs, batch: seq<Event>)
    ensures var g := GroupsOf(inp, batch);
      && (forall i, j :: 0 <= i < j < |g.systems| ==> g.systems[i] != g.systems[j])
      && (forall k :: k in g.systems ==> '|' in k)
      && (forall i :: 0 <= i < |batch| && Eligible(inp, batch[i]) ==> SystemKey(batch[i].tenant, batch[i].system) in g.systems)
  {
    if batch != [] {
      var n := |batch| - 1;
      GroupsWellFormed(inp, batch[..n]);
      var e := batch[n];
      assert SystemKey(e.tenant, e.system)[|e.tenant|] == '|';
      forall i | 0 <= i < |batch| && Eligible(inp, batch[i])
        ensures SystemKey(batch[i].tenant, batch[i].system) in GroupsOf(inp, batch).systems
      {
        assert i < n ==> batch[i] == batch[..n][i];
      }
    }
  }

  predicate Closes(inp: Inputs, e: Event) {
    Eligible(inp, e) && ClosesDuration(e)
  }

  ghost predicate TwoBars(key: string) {
    '|' in key && IndexOf(key, '|') < LastIndexOf(key, '|')
  }

  lemma ClosingKeyHasTwoBars(e: Event)
    ensures TwoBars(KeyOfClosing(e))
  {
    var v := KeyOfClosing(e);
    assert v[|e.tenant|] == '|' && v[|e.tenant| + 1 + |e.system|] == '|';
  }

  // The keys are those of the terminals, each once.
  ghost predicate KeysOk(keys: seq<string>, terminals: map<string, Event>) {
    && (forall i, j :: 0 <= i < j < |keys| ==> keys[i] != keys[j])
    && (forall k :: k in keys <==> k in terminals)
    && (forall k :: k in keys ==> TwoBars(k))
  }

  // Each terminal is the latest closing event of the batch under its key.
  ghost predicate TerminalsOk(inp: Inputs, batch: seq<Event>, terminals: map<string, Event>) {
    TerminalsAreIn(inp, batch, terminals) && TerminalsCover(inp, batch, terminals)
  }

  ghost predicate TerminalsAreIn(inp: Inputs, batch: seq<Event>, terminals: map<string, Event>) {
    forall k :: k in terminals ==> terminals[k] in batch && Closes(inp, terminals[k]) && k == KeyOfClosing(terminals[k])
  }

  ghost predicate TerminalsCover(inp: Inputs, batch: seq<Event>, terminals: map<string, Event>) {
    forall e :: e in batch && Closes(inp, e) ==> KeyOfClosing(e) in terminals && !ComesAfter(e, terminals[KeyOfClosing(e)])
  }

  lemma {:induction false} DurationKeysOk(inp: Inputs, batch: seq<Event>)
    ensures KeysOk(GroupsOf(inp, batch).durations, GroupsOf(inp, batch).terminals)
  {
    if batch != [] {
      var n := |batch| - 1;
      DurationKeysOk(inp, batch[..n]);
      ClosingKeyHasTwoBars(batch[n]);
    }
  }

  lemma LatestAgain(a: Event, b: Event, c: Event)
    requires !ComesAfter(a, b) && !ComesAfter(b, c)
    ensures !ComesAfter(a, c)
  {
  }

  // What is there under a key afterwards came no earlier than what was, nor than the new event.
  lemma WithTerminalAt(terminals: map<string, Event>, e: Event)
    ensures var after, key := WithTerminal(terminals, e), KeyOfClosing(e);
      && after.Keys == terminals.Keys + {key}
      && (after[key] == e || (key in terminals && after[key] == terminals[key]))
      && !ComesAfter(e, after[key])
      && (key in terminals ==> !ComesAfter(terminals[key], after[key]))
      && forall k :: k in terminals && k != key ==> after[k] == terminals[k]
  {
  }

  lemma EarlierTerminal(inp: Inputs, batch: seq<Event>, terminals: map<string, Event>, e: Event, x: Event)
    requires TerminalsCover(inp, batch, terminals) && x in batch && Closes(inp, x)
    ensures var after := WithTerminal(terminals, e); KeyOfClosing(x) in after && !ComesAfter(x, after[KeyOfClosing(x)])
  {
    WithTerminalAt(terminals, e);
    if KeyOfClosing(x) == KeyOfClosing(e) {
      LatestAgain(x, terminals[KeyOfClosing(e)], WithTerminal(terminals, e)[KeyOfClosing(e)]);
    }
  }

  lemma TerminalsStep(inp: Inputs, batch: seq<Event>, terminals: map<string, Event>, e: Event)
    requires TerminalsOk(inp, batch, terminals)
    ensures TerminalsOk(inp, batch + [e], if Closes(inp, e) then WithTerminal(terminals, e) else terminals)
  {
    if Closes(inp, e) {
      NewTerminalsAreIn(inp, batch, terminals, e);
      NewTerminalsCover(inp, batch, terminals, e);
    } else {
      assert forall x :: x in batch + [e] <==> x in batch || x == e;
    }
  }

  lemma NewTerminalsAreIn(inp: Inputs, batch: seq<Event>, terminals: map<string, Event>, e: Event)
    requires TerminalsAreIn(inp, batch, terminals) && Closes(inp, e)
    ensures TerminalsAreIn(inp, batch + [e], WithTerminal(terminals, e))
  {
    assert e in batch + [e] && forall x :: x in batch ==> x in batch + [e];
  }

  lemma NewTerminalsCover(inp: Inputs, batch: seq<Event>, terminals: map<string, Event>, e: Event)
    requires TerminalsCover(inp, batch, terminals) && Closes(inp, e)
    ensures TerminalsCover(inp, batch + [e], WithTerminal(terminals, e))
  {
    var after := WithTerminal(terminals, e);
    WithTerminalAt(terminals, e);
    forall x | x in batch + [e] && Closes(inp, x) ensures KeyOfClosing(x) in after && !ComesAfter(x, after[KeyOfClosing(x)]) {
      if x != e {
        EarlierTerminal(inp, batch, terminals, e, x);
      }
    }
  }

  /** A batch rules on each duration group it closes, with the latest closing event it saw of it. */
  lemma {:induction false} TerminalsAreLatest(inp: Inputs, batch: seq<Event>)
    ensures TerminalsOk(inp, batch, GroupsOf(inp, batch).terminals)
  {
    if batch != [] {
      var n := |batch| - 1;
      TerminalsAreLatest(inp, batch[..n]);
      TerminalsStep(inp, batch[..n], GroupsOf(inp, batch[..n]).terminals, batch[n]);
      assert batch[..n] + [batch[n]] == batch;
    }
  }

  function AllSystemVerdicts(inp: Inputs, keys: seq<string>): (vs: seq<Verdict>)
    ensures |vs| == 3 * |keys|
  {
    if keys == [] then [] else AllSystemVerdicts(inp, keys[..|keys| - 1]) + SystemVerdicts(inp, keys[|keys| - 1])
  }

  function AllDriftVerdicts(inp: Inputs, keys: seq<string>, terminals: map<string, Event>): seq<Verdict>
    requires forall k :: k in keys ==> k in terminals && '|' in k
  {
    if keys == [] then []
    else
      var last := keys[|keys| - 1];
      assert last in keys;
      AllDriftVerdicts(inp, keys[..|keys| - 1], terminals) + DriftVerdicts(inp, last, terminals[last])
  }

  function AllStuckVerdicts(inp: Inputs, keys: seq<string>): seq<Verdict> {
    if keys == [] then [] else AllStuckVerdicts(inp, keys[..|keys| - 1]) + StuckVerdicts(inp, keys[|keys| - 1])
  }

  /** Everything a batch decides, in the order it decides it. */
  function VerdictsOf(inp: Inputs, batch: seq<Event>): seq<Verdict> {
    var g := GroupsOf(inp, batch);
    DurationKeysOk(inp, batch);
    AllSystemVerdicts(inp, g.systems) + AllDriftVerdicts(inp, g.durations, g.terminals) + AllStuckVerdicts(inp, g.correlations)
  }

  // ----- the two burst rules

  predicate IsSystemRule(r: Rule) {
    r.WorkflowFailed? || r.JobFailedBurst? || r.RetrySpike?
  }

  ghost predicate NoSystemRule(vs: seq<Verdict>) {
    forall i :: 0 <= i < |vs| ==> !IsSystemRule(vs[i].fp.rule)
  }

  lemma NoSystemRuleJoins(a: seq<Verdict>, b: seq<Verdict>)
    requires NoSystemRule(a) && NoSystemRule(b)
    ensures NoSystemRule(a + b)
  {
  }

  lemma {:induction false} DriftRulesDiffer(inp: Inputs, keys: seq<string>, terminals: map<string, Event>)
    requires forall k :: k in keys ==> k in terminals && '|' in k
    ensures NoSystemRule(AllDriftVerdicts(inp, keys, terminals))
  {
    if keys != [] {
      var n := |keys| - 1;
      assert keys[n] in keys;
      DriftRulesDiffer(inp, keys[..n], terminals);
      NoSystemRuleJoins(AllDriftVerdicts(inp, keys[..n], terminals), DriftVerdicts(inp, keys[n], terminals[keys[n]]));
    }
  }

  lemma {:induction false} StuckRulesDiffer(inp: Inputs, correlations: seq<string>)
    ensures NoSystemRule(AllStuckVerdicts(inp, correlations))
  {
    if correlations != [] {
      var n := |correlations| - 1;
      StuckRulesDiffer(inp, correlations[..n]);
      NoSystemRuleJoins(AllStuckVerdicts(inp, correlations[..n]), StuckVerdicts(inp, correlations[n]));
    }
  }

  lemma {:induction false} SystemVerdictAt(inp: Inputs, keys: seq<string>, k: nat)
    requires k < |keys|
    ensures AllSystemVerdicts(inp, keys)[3 * k..3 * k + 3] == SystemVerdicts(inp, keys[k])
  {
    var n := |keys| - 1;
    var init := AllSystemVerdicts(inp, keys[..n]);
    if k < n {
      SystemVerdictAt(inp, keys[..n], k);
      assert keys[..n][k] == keys[k];
      assert AllSystemVerdicts(inp, keys)[3 * k..3 * k + 3] == init[3 * k..3 * k + 3];
    } else {
      assert AllSystemVerdicts(inp, keys) == init + SystemVerdicts(inp, keys[n]);
    }
  }

  lemma SystemVerdictNames(inp: Inputs, key: string, r: nat)
    requires r < 3
    ensures var (tenant, system) := ParseSystemKey(key);
      SystemVerdicts(inp, key)[r].fp == Fingerprint([WorkflowFailed, JobFailedBurst, RetrySpike][r], tenant, system)
  {
  }

  lemma OneSystemPerFingerprint(inp: Inputs, keys: seq<string>, k: nat, r: nat, j: nat)
    requires forall i, j :: 0 <= i < j < |keys| ==> keys[i] != keys[j]
    requires forall key :: key in keys ==> '|' in key
    requires k < |keys| && r < 3 && 3 * k + r < j < 3 * |keys|
    ensures AllSystemVerdicts(inp, keys)[j].fp != AllSystemVerdicts(inp, keys)[3 * k + r].fp
  {
    var vs := AllSystemVerdicts(inp, keys);
    var l := j / 3;
    SystemVerdictAt(inp, keys, k);
    SystemVerdictAt(inp, keys, l);
    assert vs[3 * k + r] == vs[3 * k..3 * k + 3][r] == SystemVerdicts(inp, keys[k])[r];
    assert vs[j] == vs[3 * l..3 * l + 3][j - 3 * l] == SystemVerdicts(inp, keys[l])[j - 3 * l];
    SystemVerdictNames(inp, keys[k], r);
    SystemVerdictNames(inp, keys[l], j - 3 * l);
    if l != k {
      assert keys[k] in keys && keys[l] in keys;
      SystemKeyRejoins(keys[k]);
      SystemKeyRejoins(keys[l]);
    }
  }

  lemma {:induction false} VerdictsSplit(inp: Inputs, batch: seq<Event>) returns (drift: seq<Verdict>, stuck: seq<Verdict>)
    ensures VerdictsOf(inp, batch) == AllSystemVerdicts(inp, GroupsOf(inp, batch).systems) + drift + stuck
    ensures NoSystemRule(drift) && NoSystemRule(stuck)
  {
    var g := GroupsOf(inp, batch);
    DurationKeysOk(inp, batch);
    drift, stuck := AllDriftVerdicts(inp, g.durations, g.terminals), AllStuckVerdicts(inp, g.correlations);
    DriftRulesDiffer(inp, g.durations, g.terminals);
    StuckRulesDiffer(inp, g.correlations);
  }

  lemma LastAmongSystems(inp: Inputs, keys: seq<string>, k: nat, r: nat)
    requires forall i, j :: 0 <= i < j < |keys| ==> keys[i] != keys[j]
    requires forall key :: key in keys ==> '|' in key
    requires k < |keys| && r < 3
    ensures var vs := AllSystemVerdicts(inp, keys);
      && vs[3 * k + r] == SystemVerdicts(inp, keys[k])[r]
      && IsSystemRule(vs[3 * k + r].fp.rule)
      && forall j :: 3 * k + r < j < |vs| ==> vs[j].fp != vs[3 * k + r].fp
  {
    var vs := AllSystemVerdicts(inp, keys);
    SystemVerdictAt(inp, keys, k);
    assert vs[3 * k + r] == vs[3 * k..3 * k + 3][r];
    SystemVerdictNames(inp, keys[k], r);
    forall j | 3 * k + r < j < |vs| ensures vs[j].fp != vs[3 * k + r].fp {
      OneSystemPerFingerprint(inp, keys, k, r, j);
    }
  }

  lemma {:induction false} SystemVerdictIsLast(inp: Inputs, batch: seq<Event>, k: nat, r: nat)
    requires k < |GroupsOf(inp, batch).systems| && r < 3
    ensures var vs := VerdictsOf(inp, batch);
      && 3 * k + r < |vs|
      && vs[3 * k + r] == SystemVerdicts(inp, GroupsOf(inp, batch).systems[k])[r]
      && forall j :: 3 * k + r < j < |vs| ==> vs[j].fp != vs[3 * k + r].fp
  {
    var keys := GroupsOf(inp, batch).systems;
    GroupsWellFormed(inp, batch);
    LastAmongSystems(inp, keys, k, r);
    var drift, stuck := VerdictsSplit(inp, batch);
  }

  lemma SystemVerdictStands(t: Tally, inp: Inputs, batch: seq<Event>, key: string, r: nat)
    requires key in GroupsOf(inp, batch).systems && r < 3
    ensures var v := SystemVerdicts(inp, key)[r];
      IsOpen(CountAll(t, VerdictsOf(inp, batch)).findings, v.fp) == v.opens
  {
    var g := GroupsOf(inp, batch);
    var k :| 0 <= k < |g.systems| && g.systems[k] == key;
    SystemVerdictIsLast(inp, batch, k, r);
    LastVerdictDecides(t, VerdictsOf(inp, batch), 3 * k + r);
  }

  lemma SystemVerdictsOf(inp: Inputs, tenant: string, system: string)
    requires '|' !in tenant
    ensures SystemVerdicts(inp, SystemKey(tenant, system))
         == [WorkflowVerdict(inp, tenant, system), BurstVerdict(inp, tenant, system), SpikeVerdict(inp, tenant, system)]
  {
    SystemKeyRoundTrip(tenant, system);
  }

  /** After a batch, the workflow-failed finding of every system it touched is open exactly when at least three of
      its workflows failed in the last twenty minutes, its job-burst finding exactly when at least three of its jobs
      failed in the last fifteen, and its retry-spike finding exactly when the system is judged to spike, whatever
      the findings were before. */
  lemma BurstFindingsMatchCounts(t: Tally, inp: Inputs, batch: seq<Event>, e: Event)
    requires e in batch && e.source == "github_actions" && inp.entitled(e.tenant) && '|' !in e.tenant
    ensures var fs := CountAll(t, VerdictsOf(inp, batch)).findings;
      && (IsOpen(fs, Fingerprint(WorkflowFailed, e.tenant, e.system)) <==>
            |WindowPositions(inp.table, e.tenant, e.system, "workflow_failed", inp.now - 20 * 60_000)| >= 3)
      && (IsOpen(fs, Fingerprint(JobFailedBurst, e.tenant, e.system)) <==>
            |WindowPositions(inp.table, e.tenant, e.system, "job_failed", inp.now - 15 * 60_000)| >= 3)
      && (IsOpen(fs, Fingerprint(RetrySpike, e.tenant, e.system)) <==> inp.spike(e.tenant, e.system))
  {
    WindowCountCounts(inp.table, e.tenant, e.system, "workflow_failed", inp.now - 20 * 60_000);
    WindowCountCounts(inp.table, e.tenant, e.system, "job_failed", inp.now - 15 * 60_000);
    TouchedSystem(inp, batch, e);
    SystemVerdictsOf(inp, e.tenant, e.system);
    SystemVerdictStands(t, inp, batch, SystemKey(e.tenant, e.system), 0);
    SystemVerdictStands(t, inp, batch, SystemKey(e.tenant, e.system), 1);
    SystemVerdictStands(t, inp, batch, SystemKey(e.tenant, e.system), 2);
  }

  lemma TouchedSystem(inp: Inputs, batch: seq<Event>, e: Event)
    requires e in batch && Eligible(inp, e)
    ensures SystemKey(e.tenant, e.system) in GroupsOf(inp, batch).systems
  {
  }
}
