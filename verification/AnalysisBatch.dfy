/** The analysis batch as it runs: cursor read, grouping loop, rule loops, cursor write. */
module AnalysisBatch {
  import opened Prelude
  import opened EventLog
  import opened GroupKeys
  import opened RobustStats
  import opened SortedSamples
  import opened WindowRules
  import opened FindingsAnalysis
  import opened DriftFindings

  datatype RunResult = RunResult(processedEvents: nat, findingsOpened: nat, findingsResolved: nat, cursorAdvanced: bool)

  lemma CountAllNext(t: Tally, vs: seq<Verdict>, v: Verdict)
    ensures CountAll(t, vs + [v]) == Count(CountAll(t, vs), v)
  {
  }

  lemma Regroup(a: seq<Verdict>, b: seq<Verdict>, c: seq<Verdict>)
    ensures a + b + c == a + (b + c)
  {
  }

  lemma NothingBefore(vs: seq<Verdict>)
    ensures [] + vs == vs
  {
  }

  class AnalysisWorker {
    var findings: Findings
    var cursor: Option<Key>

    constructor ()
      ensures findings == map[] && cursor == None
    {
      findings, cursor := map[], None;
    }

    method OpenOrRefreshFinding(fp: Fingerprint, seenAt: int) returns (state: FindingState)
      modifies this`findings
      ensures (findings, state) == OpenOrRefreshed(old(findings), fp, seenAt)
      ensures fp in findings && findings == old(findings)[fp := findings[fp]]
      ensures fp !in old(findings) ==> state.Created? && findings[fp] == Finding(true, seenAt, seenAt, None, 1)
      ensures fp in old(findings) ==>
        && state == (if old(findings)[fp].isOpen then Updated else Reopened)
        && findings[fp] == Finding(true, old(findings)[fp].firstSeenAt, seenAt, None, Max(old(findings)[fp].eventCount + 1, 2))
    {
      if fp !in findings {
        findings := findings[fp := Finding(true, seenAt, seenAt, None, 1)];
        return Created;
      }
      var existing := findings[fp];
      var count := if existing.eventCount < 1 then 1 else existing.eventCount;
      findings := findings[fp := Finding(true, existing.firstSeenAt, seenAt, None, count + 1)];
      return if existing.isOpen then Updated else Reopened;
    }

    method ResolveFinding(fp: Fingerprint, resolvedAt: int) returns (state: FindingState)
      modifies this`findings
      ensures (findings, state) == ResolvedIn(old(findings), fp, resolvedAt)
      ensures state.Resolved? <==> IsOpen(old(findings), fp)
      ensures !state.Resolved? ==> state.Unchanged? && findings == old(findings)
      ensures state.Resolved? ==>
        var f := old(findings)[fp];
        findings == old(findings)[fp := Finding(false, f.firstSeenAt, resolvedAt, Some(resolvedAt), f.eventCount)]
    {
      if fp !in findings || !findings[fp].isOpen {
        return Unchanged;
      }
      var existing := findings[fp];
      findings := findings[fp := Finding(false, existing.firstSeenAt, resolvedAt, Some(resolvedAt), existing.eventCount)];
      return Resolved;
    }

    /** Carries out the verdicts of one group and adds to the running counters. */
    method Rule(vs: seq<Verdict>, openings: nat, resolutions: nat, ghost start: Tally, ghost done: seq<Verdict>)
      returns (openings': nat, resolutions': nat)
      requires Tally(findings, openings, resolutions) == CountAll(start, done)
      modifies this`findings
      ensures Tally(findings, openings', resolutions') == CountAll(start, done + vs)
    {
      openings', resolutions' := openings, resolutions;
      assert done + vs[..0] == done;
      for i := 0 to |vs|
        invariant Tally(findings, openings', resolutions') == CountAll(start, done + vs[..i])
      {
        CountAllNext(start, done + vs[..i], vs[i]);
        assert done + vs[..i] + [vs[i]] == done + vs[..i + 1];
        if vs[i].opens {
          var state := OpenOrRefreshFinding(vs[i].fp, vs[i].at);
          if state == Created || state == Reopened {
            openings' := openings' + 1;
          }
        } else {
          var state := ResolveFinding(vs[i].fp, vs[i].at);
          if state == Resolved {
            resolutions' := resolutions' + 1;
          }
        }
      }
      assert vs[..|vs|] == vs;
    }

    method GroupBatch(inp: Inputs, events: seq<Event>) returns (g: Groups)
      ensures g == GroupsOf(inp, events)
    {
      var systems: seq<string>, correlations: seq<string>, durations: seq<string> := [], [], [];
      var terminals: map<string, Event> := map[];
      for i := 0 to |events|
        invariant Groups(systems, correlations, durations, terminals) == GroupsOf(inp, events[..i])
      {
        assert events[..i + 1][..i] == events[..i];
        var e := events[i];
        if e.source != "github_actions" || !inp.entitled(e.tenant) {
          continue;
        }
        systems := AddOnce(systems, SystemKey(e.tenant, e.system));
        if Correlated(e) {
          correlations := AddOnce(correlations, CorrelationGroupKey(e.tenant, e.system, e.correlation.value));
        }
        if ClosesDuration(e) {
          var terminalKey := DurationKey(e.tenant, e.system, FamilyOf(e.eventType));
          durations := AddOnce(durations, terminalKey);
          if terminalKey !in terminals || ComesAfter(e, terminals[terminalKey]) {
            terminals := terminals[terminalKey := e];
          }
        }
      }
      assert events[..|events|] == events;
      return Groups(systems, correlations, durations, terminals);
    }

    method RuleSystems(inp: Inputs, keys: seq<string>, openings: nat, resolutions: nat, ghost start: Tally, ghost done: seq<Verdict>)
      returns (openings': nat, resolutions': nat)
      requires Tally(findings, openings, resolutions) == CountAll(start, done)
      modifies this`findings
      ensures Tally(findings, openings', resolutions') == CountAll(start, done + AllSystemVerdicts(inp, keys))
    {
      openings', resolutions' := openings, resolutions;
      assert done + [] == done;
      for i := 0 to |keys|
        invariant Tally(findings, openings', resolutions') == CountAll(start, done + AllSystemVerdicts(inp, keys[..i]))
      {
        ghost var ruled := AllSystemVerdicts(inp, keys[..i]);
        var vs := SystemVerdicts(inp, keys[i]);
        openings', resolutions' := Rule(vs, openings', resolutions', start, done + ruled);
        assert keys[..i + 1][..i] == keys[..i];
        Regroup(done, ruled, vs);
      }
      assert keys[..|keys|] == keys;
    }

    /** Judges one closed run against the runs before it; a method of the log alone. */
    method JudgeRun(table: seq<Event>, durationKey: string, terminal: Event) returns (judgement: Option<bool>)
      requires '|' in durationKey
      ensures judgement == JudgeDrift(table, durationKey, terminal)
    {
      var (tenant, system, family) := ParseDurationKey(durationKey);
      var currentDurationMs := DurationMs(table, tenant, family, terminal);
      if currentDurationMs.None? {
        return None;
      }
      var baselineDurations := BaselineDurations(table, tenant, family, BaselineEvents(table, tenant, system, family, terminal));
      if |baselineDurations| < DRIFT_MIN_SAMPLES {
        return None;
      }
      var baselineMs := Median(baselineDurations);
      var ratio := if baselineMs > 0.0 then currentDurationMs.value / baselineMs else 0.0;
      var deltaMs := currentDurationMs.value - baselineMs;
      return Some(ratio >= DRIFT_RATIO && deltaMs >= DRIFT_DELTA_MS);
    }

    method RuleOnRun(inp: Inputs, durationKey: string, terminal: Event) returns (vs: seq<Verdict>)
      requires '|' in durationKey && inp.drift(durationKey, terminal) == JudgeDrift(inp.table, durationKey, terminal)
      ensures vs == DriftVerdicts(inp, durationKey, terminal)
    {
      var judgement := JudgeRun(inp.table, durationKey, terminal);
      if judgement.None? {
        return [];
      }
      return [Verdict(DriftFingerprint(durationKey), judgement.value, if judgement.value then terminal.eventTs else inp.now)];
    }

    method RuleDurations(inp: Inputs, keys: seq<string>, terminals: map<string, Event>, openings: nat, resolutions: nat,
                         ghost start: Tally, ghost done: seq<Verdict>)
      returns (openings': nat, resolutions': nat)
      requires forall k :: k in keys ==> k in terminals && '|' in k
      requires forall key, terminal :: inp.drift(key, terminal) == JudgeDrift(inp.table, key, terminal)
      requires Tally(findings, openings, resolutions) == CountAll(start, done)
      modifies this`findings
      ensures Tally(findings, openings', resolutions') == CountAll(start, done + AllDriftVerdicts(inp, keys, terminals))
    {
      openings', resolutions' := openings, resolutions;
      assert done + [] == done;
      for i := 0 to |keys|
        invariant Tally(findings, openings', resolutions') == CountAll(start, done + AllDriftVerdicts(inp, keys[..i], terminals))
      {
        assert keys[i] in keys;
        ghost var ruled := AllDriftVerdicts(inp, keys[..i], terminals);
        var vs := RuleOnRun(inp, keys[i], terminals[keys[i]]);
        openings', resolutions' := Rule(vs, openings', resolutions', start, done + ruled);
        assert keys[..i + 1][..i] == keys[..i];
        Regroup(done, ruled, vs);
      }
      assert keys[..|keys|] == keys;
    }

    method RuleCorrelations(inp: Inputs, keys: seq<string>, openings: nat, resolutions: nat, ghost start: Tally, ghost done: seq<Verdict>)
      returns (openings': nat, resolutions': nat)
      requires Tally(findings, openings, resolutions) == CountAll(start, done)
      modifies this`findings
      ensures Tally(findings, openings', resolutions') == CountAll(start, done + AllStuckVerdicts(inp, keys))
    {
      openings', resolutions' := openings, resolutions;
      assert done + [] == done;
      for i := 0 to |keys|
        invariant Tally(findings, openings', resolutions') == CountAll(start, done + AllStuckVerdicts(inp, keys[..i]))
      {
        ghost var ruled := AllStuckVerdicts(inp, keys[..i]);
        var vs := StuckVerdicts(inp, keys[i]);
        openings', resolutions' := Rule(vs, openings', resolutions', start, done + ruled);
        assert keys[..i + 1][..i] == keys[..i];
        Regroup(done, ruled, vs);
      }
      assert keys[..|keys|] == keys;
    }

    /** Every rule on everything the events touch: systems, then durations, then correlations. */
    method RuleAll(inp: Inputs, events: seq<Event>) returns (openings: nat, resolutions: nat)
      requires forall key, terminal :: inp.drift(key, terminal) == JudgeDrift(inp.table, key, terminal)
      modifies this`findings
      ensures Tally(findings, openings, resolutions) == CountAll(Tally(old(findings), 0, 0), VerdictsOf(inp, events))
    {
      ghost var start := Tally(findings, 0, 0);
      var g := GroupBatch(inp, events);
      DurationKeysOk(inp, events);
      ghost var first := AllSystemVerdicts(inp, g.systems);
      ghost var second := first + AllDriftVerdicts(inp, g.durations, g.terminals);
      NothingBefore(first);
      openings, resolutions := RuleSystems(inp, g.systems, 0, 0, start, []);
      openings, resolutions := RuleDurations(inp, g.durations, g.terminals, openings, resolutions, start, first);
      openings, resolutions := RuleCorrelations(inp, g.correlations, openings, resolutions, start, second);
    }

    /** One batch: the next unread events, every verdict on what they touch, then the cursor. */
    method RunBatch(table: seq<Event>, now: int, entitled: string -> bool, batchSize: nat) returns (r: RunResult)
      modifies this
      ensures var batch := Take(Unread(table, old(cursor)), batchSize);
        var u := CountAll(Tally(old(findings), 0, 0), VerdictsOf(Judged(table, now, entitled), batch));
        if batch == [] then
          r == RunResult(0, 0, 0, false) && cursor == old(cursor) && findings == old(findings)
        else
          r == RunResult(|batch|, u.openings, u.resolutions, true) && findings == u.findings
          && cursor == Some(KeyOf(batch[|batch| - 1]))
      ensures r.findingsOpened - r.findingsResolved == |OpenSet(findings)| - |OpenSet(old(findings))|
    {
      var events := Take(Unread(table, cursor), batchSize);
      if events == [] {
        return RunResult(0, 0, 0, false);
      }
      var openings, resolutions := RuleAll(Judged(table, now, entitled), events);
      TallyConserves(Tally(old(findings), 0, 0), VerdictsOf(Judged(table, now, entitled), events));
      cursor := Some(KeyOf(events[|events| - 1]));
      r := RunResult(|events|, openings, resolutions, true);
    }
  }
}
