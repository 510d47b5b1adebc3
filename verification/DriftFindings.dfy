/** What a batch leaves of the findings that rest on sampled runs: retry spikes and duration drift. */
module DriftFindings {
  import opened Prelude
  import opened EventLog
  import opened GroupKeys
  import opened WindowRules
  import opened FindingsAnalysis

  function JudgeDrift(table: seq<Event>, durationKey: string, terminal: Event): Option<bool> {
    if '|' !in durationKey then None
    else
      var (tenant, system, family) := ParseDurationKey(durationKey);
      DriftOf(table, tenant, system, family, terminal)
  }

  /** The inputs with the rules as they are. */
  function Judged(table: seq<Event>, now: int, entitled: string -> bool): Inputs {
    Inputs(table, now, entitled,
           (tenant: string, system: string) => IsSpike(table, tenant, system, now),
           (key: string, terminal: Event) => JudgeDrift(table, key, terminal))
  }

  lemma {:induction false} CountAllJoin(t: Tally, a: seq<Verdict>, b: seq<Verdict>)
    ensures CountAll(t, a + b) == CountAll(CountAll(t, a), b)
  {
    if b == [] {
      assert a + b == a;
    } else {
      assert (a + b)[..|a + b| - 1] == a + b[..|b| - 1];
      CountAllJoin(t, a, b[..|b| - 1]);
    }
  }

  lemma {:induction false} UnruledStays(t: Tally, vs: seq<Verdict>, fp: Fingerprint)
    requires forall v :: v in vs ==> v.fp != fp
    ensures IsOpen(CountAll(t, vs).findings, fp) == IsOpen(t.findings, fp)
  {
    if vs != [] {
      var n := |vs| - 1;
      assert vs[n] in vs;
      UnruledStays(t, vs[..n], fp);
      CountConserves(CountAll(t, vs[..n]), vs[n]);
    }
  }

  lemma {:induction false} DriftFingerprintRejoins(key: string)
    requires TwoBars(key)
    ensures key == DriftFingerprint(key).tenant + "|" + DriftFingerprint(key).subject
  {
    ParsedParts(key);
    CutTwice(key, IndexOf(key, '|'), LastIndexOf(key, '|'), ParseDurationKey(key));
  }

  lemma {:induction false} ParsedParts(key: string)
    requires TwoBars(key)
    ensures var i, j := IndexOf(key, '|'), LastIndexOf(key, '|');
      i < j < |key| && key[i] == '|' && key[j] == '|' && ParseDurationKey(key) == (key[..i], key[i + 1..j], key[j + 1..])
  {
  }

  lemma CutTwice(v: string, i: nat, j: nat, parts: (string, string, string))
    requires i < j < |v| && v[i] == '|' && v[j] == '|' && parts == (v[..i], v[i + 1..j], v[j + 1..])
    ensures v == parts.0 + "|" + (parts.1 + "|" + parts.2)
  {
  }

  lemma DifferentKeysDifferentFingerprints(a: string, b: string)
    requires TwoBars(a) && TwoBars(b) && a != b
    ensures DriftFingerprint(a) != DriftFingerprint(b)
  {
    DriftFingerprintRejoins(a);
    DriftFingerprintRejoins(b);
  }

  /** What a verdict on a group leaves of its finding: open as judged, or as it was without a judgement. */
  predicate Settled(judgement: Option<bool>, openBefore: bool, openAfter: bool) {
    openAfter == if judgement.Some? then judgement.value else openBefore
  }

  lemma OneDrift(t: Tally, inp: Inputs, key: string, terminal: Event)
    requires '|' in key
    ensures Settled(inp.drift(key, terminal), IsOpen(t.findings, DriftFingerprint(key)),
                    IsOpen(CountAll(t, DriftVerdicts(inp, key, terminal)).findings, DriftFingerprint(key)))
  {
  }

  lemma {:induction false} DriftVerdictsNameTheirGroups(inp: Inputs, keys: seq<string>, terminals: map<string, Event>, other: string)
    requires forall k :: k in keys ==> k in terminals && '|' in k && TwoBars(k)
    requires '|' in other && TwoBars(other) && other !in keys
    ensures forall v :: v in AllDriftVerdicts(inp, keys, terminals) ==> v.fp != DriftFingerprint(other)
  {
    if keys != [] {
      var n := |keys| - 1;
      assert keys[n] in keys;
      DriftVerdictsNameTheirGroups(inp, keys[..n], terminals, other);
      DifferentKeysDifferentFingerprints(keys[n], other);
    }
  }

  lemma {:induction false} DriftDecides(start: Tally, inp: Inputs, keys: seq<string>, terminals: map<string, Event>, key: string)
    requires forall k :: k in keys ==> k in terminals && '|' in k && TwoBars(k)
    requires (forall i, j :: 0 <= i < j < |keys| ==> keys[i] != keys[j]) && key in keys
    ensures Settled(inp.drift(key, terminals[key]), IsOpen(start.findings, DriftFingerprint(key)),
                    IsOpen(CountAll(start, AllDriftVerdicts(inp, keys, terminals)).findings, DriftFingerprint(key)))
  {
    var n := |keys| - 1;
    assert keys[n] in keys;
    var earlier, last := AllDriftVerdicts(inp, keys[..n], terminals), DriftVerdicts(inp, keys[n], terminals[keys[n]]);
    CountAllJoin(start, earlier, last);
    assert AllDriftVerdicts(inp, keys, terminals) == earlier + last;
    if key == keys[n] {
      LastDrift(start, inp, keys[..n], terminals, key);
    } else {
      DriftDecides(start, inp, keys[..n], terminals, key);
      OtherDrift(CountAll(start, earlier), inp, keys[n], terminals[keys[n]], key);
    }
  }

  // The verdict on a group comes after those on other groups, which leave its finding alone.
  lemma LastDrift(start: Tally, inp: Inputs, keys: seq<string>, terminals: map<string, Event>, key: string)
    requires forall k :: k in keys ==> k in terminals && '|' in k && TwoBars(k)
    requires key in terminals && '|' in key && TwoBars(key) && key !in keys
    ensures Settled(inp.drift(key, terminals[key]), IsOpen(start.findings, DriftFingerprint(key)),
                    IsOpen(CountAll(CountAll(start, AllDriftVerdicts(inp, keys, terminals)), DriftVerdicts(inp, key, terminals[key])).findings,
                           DriftFingerprint(key)))
  {
    var earlier := AllDriftVerdicts(inp, keys, terminals);
    DriftVerdictsNameTheirGroups(inp, keys, terminals, key);
    UnruledStays(start, earlier, DriftFingerprint(key));
    OneDrift(CountAll(start, earlier), inp, key, terminals[key]);
  }

  lemma OtherDrift(t: Tally, inp: Inputs, key: string, terminal: Event, other: string)
    requires '|' in key && '|' in other && TwoBars(key) && TwoBars(other) && key != other
    ensures IsOpen(CountAll(t, DriftVerdicts(inp, key, terminal)).findings, DriftFingerprint(other)) == IsOpen(t.findings, DriftFingerprint(other))
  {
    DifferentKeysDifferentFingerprints(key, other);
    UnruledStays(t, DriftVerdicts(inp, key, terminal), DriftFingerprint(other));
  }

  lemma {:induction false} NoDriftAmongSystems(inp: Inputs, keys: seq<string>)
    ensures forall v :: v in AllSystemVerdicts(inp, keys) ==> !v.fp.rule.DurationDrift?
  {
    if keys != [] {
      NoDriftAmongSystems(inp, keys[..|keys| - 1]);
    }
  }

  lemma {:induction false} NoDriftAmongStuck(inp: Inputs, keys: seq<string>)
    ensures forall v :: v in AllStuckVerdicts(inp, keys) ==> !v.fp.rule.DurationDrift?
  {
    if keys != [] {
      NoDriftAmongStuck(inp, keys[..|keys| - 1]);
    }
  }

  lemma DriftBetween(t: Tally, first: seq<Verdict>, drift: seq<Verdict>, stuck: seq<Verdict>, fp: Fingerprint)
    requires forall v :: v in first ==> v.fp != fp
    requires forall v :: v in stuck ==> v.fp != fp
    ensures IsOpen(CountAll(t, first).findings, fp) == IsOpen(t.findings, fp)
    ensures IsOpen(CountAll(t, first + drift + stuck).findings, fp) == IsOpen(CountAll(CountAll(t, first), drift).findings, fp)
  {
    CountAllJoin(t, first + drift, stuck);
    CountAllJoin(t, first, drift);
    UnruledStays(t, first, fp);
    UnruledStays(CountAll(t, first + drift), stuck, fp);
  }

  /** After a batch, the drift finding of every duration group it closed is open exactly when the latest run
      it saw of the group is judged to have drifted; without a judgement it is as it was. */
  lemma DriftFindingsFollowJudgements(t: Tally, inp: Inputs, batch: seq<Event>, key: string)
    requires key in GroupsOf(inp, batch).durations
    ensures key in GroupsOf(inp, batch).terminals && '|' in key
    ensures Settled(inp.drift(key, GroupsOf(inp, batch).terminals[key]), IsOpen(t.findings, DriftFingerprint(key)),
                    IsOpen(CountAll(t, VerdictsOf(inp, batch)).findings, DriftFingerprint(key)))
  {
    var g := GroupsOf(inp, batch);
    DurationKeysOk(inp, batch);
    NoDriftAmongSystems(inp, g.systems);
    NoDriftAmongStuck(inp, g.correlations);
    var first := AllSystemVerdicts(inp, g.systems);
    DriftBetween(t, first, AllDriftVerdicts(inp, g.durations, g.terminals), AllStuckVerdicts(inp, g.correlations), DriftFingerprint(key));
    DriftDecides(CountAll(t, first), inp, g.durations, g.terminals, key);
  }

  /** The event closes a run or a job of that family. */
  predicate ClosesRun(e: Event, entitled: string -> bool, family: string) {
    && e.source == "github_actions" && entitled(e.tenant) && e.correlation.Some? && e.correlation.value != ""
    && ((family == "workflow" && e.eventType in {"workflow_completed", "workflow_failed"})
        || (family == "job" && e.eventType in {"job_completed", "job_failed"}))
  }

  lemma FamiliesOfTypes()
    ensures FamilyOf("workflow_completed") == FamilyOf("workflow_failed") == "workflow"
    ensures FamilyOf("job_completed") == FamilyOf("job_failed") == "job"
  {
    assert "workflow_completed"[..9] == "workflow_" && "workflow_failed"[..9] == "workflow_";
    assert "job_completed"[..4] == "job_" && "job_failed"[..4] == "job_";
    assert "job_completed"[0] == "job_failed"[0] == 'j' && "workflow_"[0] == 'w';
  }

  lemma ClosesRunMeans(table: seq<Event>, now: int, entitled: string -> bool, e: Event)
    ensures Closes(Judged(table, now, entitled), e) <==> exists family :: ClosesRun(e, entitled, family)
    ensures forall family :: ClosesRun(e, entitled, family) ==> FamilyOf(e.eventType) == family
  {
    FamiliesOfTypes();
    forall family | ClosesRun(e, entitled, family) ensures FamilyOf(e.eventType) == family && Closes(Judged(table, now, entitled), e) {
    }
    if Closes(Judged(table, now, entitled), e) {
      assert ClosesRun(e, entitled, FamilyOf(e.eventType));
    }
  }

  /** In terms of the log: once a batch has closed a run of a system whose tenant holds no bar, the finding
      follows the latest run it saw, its baseline, and nothing else. */
  lemma {:induction false} ClosedRunDecidesDrift(t: Tally, table: seq<Event>, now: int, entitled: string -> bool, batch: seq<Event>,
                                                 e: Event, family: string)
    requires e in batch && ClosesRun(e, entitled, family) && '|' !in e.tenant
    ensures var fp := Fingerprint(DurationDrift, e.tenant, e.system + "|" + family);
      exists latest :: latest in batch && ClosesRun(latest, entitled, family) && KeyOfClosing(latest) == KeyOfClosing(e)
        && (latest.eventTs > e.eventTs || (latest.eventTs == e.eventTs && latest.id >= e.id))
        && Settled(DriftOf(table, e.tenant, e.system, family, latest), IsOpen(t.findings, fp),
                   IsOpen(CountAll(t, VerdictsOf(Judged(table, now, entitled), batch)).findings, fp))
  {
    var inp := Judged(table, now, entitled);
    var key := KeyOfClosing(e);
    ClosesRunMeans(table, now, entitled, e);
    TerminalsAreLatest(inp, batch);
    DurationKeysOk(inp, batch);
    FamilyHasNoBar(e);
    DurationKeyRoundTrip(e.tenant, e.system, FamilyOf(e.eventType));
    DriftFindingsFollowJudgements(t, inp, batch, key);
    var latest := GroupsOf(inp, batch).terminals[key];
    ClosesRunMeans(table, now, entitled, latest);
    SameFamily(e, latest);
    assert inp.drift(key, latest) == DriftOf(table, e.tenant, e.system, FamilyOf(e.eventType), latest);
  }

  lemma SameFamily(e: Event, latest: Event)
    requires KeyOfClosing(latest) == KeyOfClosing(e)
    ensures FamilyOf(latest.eventType) == FamilyOf(e.eventType)
  {
    FamilyHasNoBar(e);
    FamilyHasNoBar(latest);
    PeelLast(e.tenant + "|" + e.system, FamilyOf(e.eventType), latest.tenant + "|" + latest.system, FamilyOf(latest.eventType));
  }

  lemma FamilyHasNoBar(e: Event)
    ensures '|' !in FamilyOf(e.eventType)
  {
  }
}
