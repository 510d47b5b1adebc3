/** What a batch leaves of the findings on runs that appear stuck. */
module StuckFindings {
  import opened Prelude
  import opened EventLog
  import opened GroupKeys
  import opened WindowRules
  import opened FindingsAnalysis
  import opened DriftFindings
  import opened RunWindows

  predicate OfCorrelation(e: Event, tenant: string, correlation: string) {
    e.tenant == tenant && e.source == "github_actions" && e.correlation == Some(correlation)
  }

  lemma {:induction false} LatestOfIsLatest(table: seq<Event>, tenant: string, correlation: string)
    ensures var r := LatestOf(table, tenant, correlation);
      && (r.Some? ==> r.value in table && OfCorrelation(r.value, tenant, correlation))
      && (forall e :: e in table && OfCorrelation(e, tenant, correlation) ==> r.Some? && !ComesAfter(e, r.value))
  {
    if table != [] {
      LatestOfIsLatest(table[..|table| - 1], tenant, correlation);
      assert table == table[..|table| - 1] + [table[|table| - 1]];
    }
  }

  /** Verdicts on one fingerprint that all agree decide it, in whatever order they come. */
  lemma {:induction false} AgreeingVerdicts(t: Tally, vs: seq<Verdict>, fp: Fingerprint, opens: bool)
    requires forall v :: v in vs && v.fp == fp ==> v.opens == opens
    requires exists v :: v in vs && v.fp == fp
    ensures IsOpen(CountAll(t, vs).findings, fp) == opens
  {
    var n := |vs| - 1;
    assert vs == vs[..n] + [vs[n]] && vs[n] in vs;
    CountConserves(CountAll(t, vs[..n]), vs[n]);
    if vs[n].fp != fp {
      AgreeingVerdicts(t, vs[..n], fp, opens);
    }
  }

  predicate IsStuckRule(r: Rule) {
    r.WorkflowStuck? || r.JobStuck?
  }

  lemma {:induction false} NoStuckAmongSystems(inp: Inputs, keys: seq<string>)
    ensures forall v :: v in AllSystemVerdicts(inp, keys) ==> !IsStuckRule(v.fp.rule)
  {
    if keys != [] {
      NoStuckAmongSystems(inp, keys[..|keys| - 1]);
    }
  }

  lemma {:induction false} NoStuckAmongDrifts(inp: Inputs, keys: seq<string>, terminals: map<string, Event>)
    requires forall k :: k in keys ==> k in terminals && '|' in k
    ensures forall v :: v in AllDriftVerdicts(inp, keys, terminals) ==> !IsStuckRule(v.fp.rule)
  {
    if keys != [] {
      assert keys[|keys| - 1] in keys;
      NoStuckAmongDrifts(inp, keys[..|keys| - 1], terminals);
    }
  }

  // Whoever names the correlation gives the same verdict on it.
  lemma SameCorrelationSameVerdict(inp: Inputs, key: string, tenant: string, correlation: string, v: Verdict)
    requires v in StuckVerdicts(inp, key) && v.fp.tenant == tenant && v.fp.subject == correlation
    ensures CorrelationVerdicts(inp, tenant, correlation) == [v]
  {
  }

  lemma {:induction false} StuckVerdictsAgree(inp: Inputs, keys: seq<string>, tenant: string, correlation: string)
    ensures forall v :: v in AllStuckVerdicts(inp, keys) && v.fp.tenant == tenant && v.fp.subject == correlation ==>
      CorrelationVerdicts(inp, tenant, correlation) == [v]
  {
    if keys != [] {
      var n := |keys| - 1;
      StuckVerdictsAgree(inp, keys[..n], tenant, correlation);
      forall v | v in StuckVerdicts(inp, keys[n]) && v.fp.tenant == tenant && v.fp.subject == correlation
        ensures CorrelationVerdicts(inp, tenant, correlation) == [v]
      {
        SameCorrelationSameVerdict(inp, keys[n], tenant, correlation, v);
      }
    }
  }

  lemma {:induction false} ListedKeyIsRuled(inp: Inputs, keys: seq<string>, key: string)
    requires key in keys
    ensures forall v :: v in StuckVerdicts(inp, key) ==> v in AllStuckVerdicts(inp, keys)
  {
    var n := |keys| - 1;
    if key != keys[n] {
      ListedKeyIsRuled(inp, keys[..n], key);
    }
  }

  lemma {:induction false} TouchedCorrelation(inp: Inputs, batch: seq<Event>, e: Event)
    requires e in batch && Eligible(inp, e) && Correlated(e)
    ensures CorrelationGroupKey(e.tenant, e.system, e.correlation.value) in GroupsOf(inp, batch).correlations
  {
    var n := |batch| - 1;
    if e != batch[n] {
      assert e in batch[..n];
      TouchedCorrelation(inp, batch[..n], e);
    }
  }

  /** After a batch, the stuck finding of each correlation it touched is open exactly when the correlation's
      latest event is a start of long enough ago; a latest event of another kind leaves it as it was. */
  lemma StuckFindingsFollowLatest(t: Tally, inp: Inputs, batch: seq<Event>, e: Event)
    requires e in batch && Eligible(inp, e) && Correlated(e) && '|' !in e.tenant && '|' !in e.system
    ensures var vs := CorrelationVerdicts(inp, e.tenant, e.correlation.value);
      var after := CountAll(t, VerdictsOf(inp, batch)).findings;
      && (forall v :: v in vs ==> IsOpen(after, v.fp) == v.opens)
      && (vs == [] ==> forall r: Rule :: IsStuckRule(r) ==>
            var fp := Fingerprint(r, e.tenant, e.correlation.value); IsOpen(after, fp) == IsOpen(t.findings, fp))
  {
    var others, stuck := StuckPart(inp, batch);
    OwnVerdictsListed(inp, batch, e);
    StuckVerdictsAgree(inp, GroupsOf(inp, batch).correlations, e.tenant, e.correlation.value);
    CorrelationVerdictsNamed(inp, e.tenant, e.correlation.value);
    OnlyLastPartRules(t, others, stuck, e.tenant, e.correlation.value, CorrelationVerdicts(inp, e.tenant, e.correlation.value));
  }

  lemma CorrelationVerdictsNamed(inp: Inputs, tenant: string, correlation: string)
    ensures forall v :: v in CorrelationVerdicts(inp, tenant, correlation) ==>
      IsStuckRule(v.fp.rule) && v.fp.tenant == tenant && v.fp.subject == correlation
  {
  }

  lemma OwnVerdictsListed(inp: Inputs, batch: seq<Event>, e: Event)
    requires e in batch && Eligible(inp, e) && Correlated(e) && '|' !in e.tenant && '|' !in e.system
    ensures forall v :: v in CorrelationVerdicts(inp, e.tenant, e.correlation.value) ==> v in AllStuckVerdicts(inp, GroupsOf(inp, batch).correlations)
  {
    var key := CorrelationGroupKey(e.tenant, e.system, e.correlation.value);
    TouchedCorrelation(inp, batch, e);
    CorrelationKeyRoundTrip(e.tenant, e.system, e.correlation.value);
    ListedKeyIsRuled(inp, GroupsOf(inp, batch).correlations, key);
  }

  lemma {:induction false} StuckPart(inp: Inputs, batch: seq<Event>) returns (others: seq<Verdict>, stuck: seq<Verdict>)
    ensures VerdictsOf(inp, batch) == others + stuck && stuck == AllStuckVerdicts(inp, GroupsOf(inp, batch).correlations)
    ensures forall v :: v in others ==> !IsStuckRule(v.fp.rule)
  {
    var g := GroupsOf(inp, batch);
    DurationKeysOk(inp, batch);
    others := AllSystemVerdicts(inp, g.systems) + AllDriftVerdicts(inp, g.durations, g.terminals);
    stuck := AllStuckVerdicts(inp, g.correlations);
    NoStuckAmongSystems(inp, g.systems);
    NoStuckAmongDrifts(inp, g.durations, g.terminals);
  }

  lemma OnlyLastPartRules(t: Tally, others: seq<Verdict>, stuck: seq<Verdict>, tenant: string, correlation: string, vs: seq<Verdict>)
    requires forall v :: v in others ==> !IsStuckRule(v.fp.rule)
    requires forall v :: v in stuck && v.fp.tenant == tenant && v.fp.subject == correlation ==> vs == [v]
    requires forall v :: v in vs ==> v in stuck
    requires forall v :: v in vs ==> IsStuckRule(v.fp.rule) && v.fp.tenant == tenant && v.fp.subject == correlation
    ensures forall v :: v in vs ==> IsOpen(CountAll(t, others + stuck).findings, v.fp) == v.opens
    ensures vs == [] ==> forall r: Rule :: IsStuckRule(r) ==>
      var fp := Fingerprint(r, tenant, correlation); IsOpen(CountAll(t, others + stuck).findings, fp) == IsOpen(t.findings, fp)
  {
    CountAllJoin(t, others, stuck);
    forall v | v in vs ensures IsOpen(CountAll(t, others + stuck).findings, v.fp) == v.opens {
      AgreeingVerdicts(CountAll(t, others), stuck, v.fp, v.opens);
    }
    if vs == [] {
      forall r: Rule | IsStuckRule(r)
        ensures var fp := Fingerprint(r, tenant, correlation); IsOpen(CountAll(t, others + stuck).findings, fp) == IsOpen(t.findings, fp)
      {
        UnruledStays(t, others, Fingerprint(r, tenant, correlation));
        UnruledStays(CountAll(t, others), stuck, Fingerprint(r, tenant, correlation));
      }
    }
  }

  // ----- in terms of the log alone

  /** The text holds the other one somewhere. */
  lemma ContainsMeans(v: string, part: string)
    ensures Contains(v, part) <==> exists a, b :: v == a + part + b
  {
    forall a, b | v == a + part + b ensures Contains(v, part) {
      assert v[|a|..] == part + b;
      assert v[|a|..][..|part|] == part;
    }
    if Contains(v, part) {
      var i :| 0 <= i <= |v| - |part| && v[i..][..|part|] == part;
      assert v == v[..i] + part + v[i..][|part|..];
    }
  }

  /** The correlation's latest event in the log, by time and then id. */
  ghost predicate IsLatestEvent(table: seq<Event>, tenant: string, correlation: string, latest: Event) {
    && latest in table && OfCorrelation(latest, tenant, correlation)
    && (forall e :: e in table && OfCorrelation(e, tenant, correlation) ==>
          e.eventTs < latest.eventTs || (e.eventTs == latest.eventTs && e.id <= latest.id))
  }

  lemma LatestOfIs(table: seq<Event>, tenant: string, correlation: string, latest: Event)
    requires DistinctIds(table) && IsLatestEvent(table, tenant, correlation, latest)
    ensures LatestOf(table, tenant, correlation) == Some(latest)
  {
    LatestOfIsLatest(table, tenant, correlation);
    var r := LatestOf(table, tenant, correlation).value;
    assert r.id == latest.id;
    var i :| 0 <= i < |table| && table[i] == r;
    var j :| 0 <= j < |table| && table[j] == latest;
    assert i == j;
  }

  /** A run is stuck once it was last heard of when it started, so long ago. */
  predicate StuckAs(latest: Event, now: int, started: set<string>, finished: set<string>, minutes: int, before: bool, after: bool) {
    && (latest.eventType in finished ==> !after)
    && (latest.eventType in started ==> (after <==> latest.eventTs + minutes * 60_000 <= now))
    && (latest.eventType !in started + finished ==> after == before)
  }

  /** A batch that touches a workflow run settles whether it is stuck: if it has finished it is not, and if its
      latest event is its start it is exactly after thirty minutes. */
  lemma StuckWorkflow(t: Tally, table: seq<Event>, now: int, entitled: string -> bool, batch: seq<Event>, e: Event, latest: Event, a: string, b: string)
    requires e in batch && e.source == "github_actions" && entitled(e.tenant) && '|' !in e.tenant && '|' !in e.system
    requires e.correlation == Some(a + ":workflow_run:" + b) && DistinctIds(table) && IsLatestEvent(table, e.tenant, e.correlation.value, latest)
    ensures var fp := Fingerprint(WorkflowStuck, e.tenant, e.correlation.value);
      StuckAs(latest, now, {"workflow_requested", "workflow_started"}, {"workflow_completed", "workflow_failed"}, 30,
              IsOpen(t.findings, fp), IsOpen(CountAll(t, VerdictsOf(Judged(table, now, entitled), batch)).findings, fp))
  {
    var inp := Judged(table, now, entitled);
    ContainsMeans(e.correlation.value, ":workflow_run:");
    LatestOfIs(table, e.tenant, e.correlation.value, latest);
    StuckFindingsFollowLatest(t, inp, batch, e);
    var vs := CorrelationVerdicts(inp, e.tenant, e.correlation.value);
    if vs != [] {
      assert vs[0] in vs;
    }
  }

  /** And so it does for a job, whose start is too long ago after twenty. */
  lemma StuckJob(t: Tally, table: seq<Event>, now: int, entitled: string -> bool, batch: seq<Event>, e: Event, latest: Event, a: string, b: string)
    requires e in batch && e.source == "github_actions" && entitled(e.tenant) && '|' !in e.tenant && '|' !in e.system
    requires e.correlation == Some(a + ":workflow_job:" + b) && forall x, y :: e.correlation.value != x + ":workflow_run:" + y
    requires DistinctIds(table) && IsLatestEvent(table, e.tenant, e.correlation.value, latest)
    ensures var fp := Fingerprint(JobStuck, e.tenant, e.correlation.value);
      StuckAs(latest, now, {"job_queued", "job_started"}, {"job_completed", "job_failed"}, 20,
              IsOpen(t.findings, fp), IsOpen(CountAll(t, VerdictsOf(Judged(table, now, entitled), batch)).findings, fp))
  {
    var inp := Judged(table, now, entitled);
    ContainsMeans(e.correlation.value, ":workflow_run:");
    ContainsMeans(e.correlation.value, ":workflow_job:");
    LatestOfIs(table, e.tenant, e.correlation.value, latest);
    StuckFindingsFollowLatest(t, inp, batch, e);
    var vs := CorrelationVerdicts(inp, e.tenant, e.correlation.value);
    if vs != [] {
      assert vs[0] in vs;
    }
  }
}
