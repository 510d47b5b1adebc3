# Verified model of the pipeline's coordination protocols

This project models, in Dafny, the parts of the API that keep a multi-worker event pipeline correct, and
proves what they promise. Run `dafny verify dfyconfig.toml` to verify it all.

Each protocol is modelled twice where the program works step by step: as a class whose methods carry out
the operation in place, and as a function of the rows it touches; a method's contract ties the two. Where
workers compete, a state machine over single database operations (`Action`, `Enabled`, `Apply`,
`Executes`) interleaves them in every possible way, with each worker acting on a clock reading or a row
it may have taken long before.

| files | what they model |
|---|---|
| CanonicalJson, CanonicalMeaning, CanonicalEquality, EventKeys | the canonical serializer behind dedupe keys, over UTF-16 code units, with a parser that undoes it |
| IdempotencyLedger, LedgerGuarantees, Ingestion | reserving, persisting and failing operational events, and the batch loop over them |
| WorkerLease, LeaseGuarantees, LeaseHeartbeat | the lease row of a worker name, its renewal timer, and the freshness marks that share the row |
| EventLog, LogGuarantees, GroupKeys, WindowRules, RunWindows, FindingsAnalysis, DriftFindings, StuckFindings, AnalysisBatch | the cursor worker from operational events to findings |
| IncidentBridge, BridgeTracking, BridgeLateWrites, BridgeGuarantees, BridgeBatch | the cursor worker from findings to incidents |
| Incidents, IncidentService, AnomalyPolicies, IncidentTable, IncidentGuarantees, BreachEvents, BreachMarks, HeartbeatRows, HeartbeatIncidents, QuietStreaks, QuietResolution, Cooldown, AnomalyJob | the incident lifecycle under policies, people, the bridge and breach passes |
| GenericWorkflow, WorkflowHandlers, HandlerGuarantees | incidents driven by ingested workflow events, by handlers one at a time and overlapping |
| AlertDispatch, AlertGuarantees, AlertBatch | competing claimers of alert events and their retry chains |
| SortedSamples, RobustStats | median, MAD, robust score and smoothing, over exact reals |
| FallbackStore, RateWindows, RateLimiter | the in-process store behind the rate limiter |
| Prelude | what the others share |

Conventions: times are integers in milliseconds. SHA-256 is taken to be injective, so a hash is modelled
by the text it is taken of. A single database call, or a transaction, is one atomic step that reports what
it did; a clock reading used by an operation is never later than the moment the operation takes effect,
unless a lemma says what happens otherwise. Ids stand for row identifiers in their order.

Some promises hold only under a condition the code does not enforce. For those the condition is exact, and a
run shows what happens without it: how late a persist or a failure mark may be (AtMostOneEventExactly), how
far ahead a clock (ExclusionExactly), how slow a renewal (LeaseNeverLapsesExactly), where an append or a write
may land (ReadWithoutGapsExactly, WriteReachesIncidentExactly), when breach passes may overlap
(NextPassSafeExactly) and their marks are on time (MarksOnTimeExactly), which incidents may be acknowledged
(OneActiveExactly, ResolvedEarlyExactly), when triggers for other environments are harmless (TriggerCoversExactly,
KeepsPaceExactly), which keys may be tied (KeyOrderShowsExactlyOnTies, OneTextPerMeaningExactly), when bars confuse
names (HintedKeysIdentifyDeliveries, InnerIdentifies), when handlers may overlap (SecondRowExactly), and when a rate
window restarts (RestartsExactly).

## Model

| member | source | states |
|---|---|---|
| CanonicalJson.CanonicalIsPrintedNormalForm | apps/api/src/services/event-idempotency-service.ts:34-57 | the serializer, which sorts and prints in one pass, prints exactly the key-sorted normal form of the value |
| CanonicalJson.EscapedReads | apps/api/src/services/event-idempotency-service.ts:34-57 | JSON string escaping (RFC 8259, section 7, with lone surrogates escaped) is undone by a reader, whatever follows the closing quote |
| CanonicalJson.EscapesAsJson | apps/api/src/services/event-idempotency-service.ts:34-57 | only quotation marks, backslashes, control characters and lone surrogates are escaped, the common control characters by a letter |
| CanonicalJson.DecimalForm | apps/api/src/services/event-idempotency-service.ts:34-57 | numbers are printed without leading zeros, with a sign only if negative |
| CanonicalJson.PrintedReads | apps/api/src/services/event-idempotency-service.ts:34-57 | a parser reads any printed value back and stops exactly where it ended, so no text is a prefix trap for another |
| CanonicalJson.DecodeUndoesCanonicalize | apps/api/src/services/event-idempotency-service.ts:34-57 | decoding the canonical text gives back the key-sorted value, under any key comparison |
| CanonicalEquality.EqualTextsMeanEqualValues | apps/api/src/services/event-idempotency-service.ts:34-57 | equal canonical texts mean equal values up to key order: no two different events are taken for one another |
| CanonicalEquality.CanonicalTextNamesTheValue | apps/api/src/services/event-idempotency-service.ts:34-57 | under a comparison without ties, two values have the same text if and only if they agree up to the order of object keys |
| CanonicalMeaning.NormalKeepsMeaning | apps/api/src/services/event-idempotency-service.ts:34-57 | sorting keys at every depth changes nothing a value says |
| CanonicalEquality.OneTextPerMeaningExactly | apps/api/src/services/event-idempotency-service.ts:34-57 | all values that mean what this one means share its text if and only if the comparison ties no two keys of an object at any depth of it |
| CanonicalEquality.KeyOrderShowsExactlyOnTies | apps/api/src/services/event-idempotency-service.ts:46-50 | all orderings of an object's keys give one text if and only if the locale comparison ties no two of them |
| CanonicalEquality.TieShows | apps/api/src/services/event-idempotency-service.ts:46-50 | two keys the comparison ties appear in insertion order, so swapping them changes the text |
| EventKeys.ContentKeysIdentifyEvents | apps/api/src/services/event-idempotency-service.ts:59-87 | without a delivery identifier two events share a ledger row exactly when tenant, source and every field agree, metadata up to key order |
| EventKeys.MaterialIs | apps/api/src/services/event-idempotency-service.ts:59-87 | the nine fields hashed for an event without a delivery identifier, by name |
| EventKeys.HintedKeysIdentifyDeliveries | apps/api/src/services/event-idempotency-service.ts:59-87 | with delivery identifiers two events share a row exactly when tenant and source agree and either namespace and identifier do or one namespace, the key mark and more is the other namespace and that more begins the first identifier; with no bar in a namespace, exactly when all four agree |
| EventKeys.HintedAndContentKeysNeverMeet | apps/api/src/services/event-idempotency-service.ts:59-87 | the two kinds of key never collide |
| LedgerGuarantees.StoredWithinAttempts | apps/api/src/services/event-idempotency-service.ts:93-304 | with no timing assumption at all, stored events never exceed attempt_count, which never exceeds seen_count |
| LedgerGuarantees.AtMostOneEvent | apps/api/src/services/event-idempotency-service.ts:93-304 | if every holder commits its persist or its failure mark before its lock expires, at most one event is stored, and one exactly when the row is completed |
| LedgerGuarantees.CompletedIsFinal | apps/api/src/services/event-idempotency-service.ts:93-304 | under the same timing a completed row stays completed and no further event appears |
| LedgerGuarantees.AtMostOneEventExactly | apps/api/src/services/event-idempotency-service.ts:93-304 | for bounds on how long after its lock was granted a persist and a failure mark may commit: no run stores the event twice if and only if both bounds are within the five minutes of the lock (or no persist can commit at all) |
| LedgerGuarantees.OneBoundForBoth | apps/api/src/services/event-idempotency-service.ts:93-304 | with one bound for both, that is exactly the length of the lock |
| LedgerGuarantees.LateFailureMarkDuplicates | apps/api/src/services/event-idempotency-service.ts:287-303 | under every larger bound on failure marks some run stores the event twice, however prompt its persists |
| LedgerGuarantees.LatePersistDuplicates | apps/api/src/services/event-idempotency-service.ts:250-286 | and so it does under every larger bound on persists |
| LedgerGuarantees.SoloReservation | apps/api/src/services/event-idempotency-service.ts:93-244 | the find, create, re-find and conditional update steps of an uninterrupted reservation compose to one function of the row |
| LedgerGuarantees.BeatenReservation | apps/api/src/services/event-idempotency-service.ts:93-244 | and a worker beaten to creating the row finds it and decides on it as if it had come upon it alone |
| Ingestion.Ledger.Reserve | apps/api/src/services/event-idempotency-service.ts:93-244 | the reservation's row update and answer, branch by branch |
| Ingestion.Ledger.IngestOperationalEvents | apps/api/src/services/operational-event-ingestion-service.ts:91-224 | the batch loop computes the fold of its per-event effect, and an empty batch does nothing |
| Ingestion.CountsConserve | apps/api/src/services/operational-event-ingestion-service.ts:146-204 | accepted = ingested + duplicates + skipped + failed, and stored events grow by exactly ingested |
| Ingestion.EventFate | apps/api/src/services/operational-event-ingestion-service.ts:146-204 | one event is a duplicate if its row is completed, skipped if its lock is still running, and otherwise ingested or failed as its transaction goes, as its row then says |
| Ingestion.QuietBatchInsertsKeys | apps/api/src/services/operational-event-ingestion-service.ts:146-204 | on a fault-free ledger of completed rows a batch is set insertion: ingested counts the new distinct keys, in order of first appearance |
| Ingestion.NewKeysDistinct | apps/api/src/services/operational-event-ingestion-service.ts:146-204 | those new keys are exactly the batch's keys not yet known, each once |
| Ingestion.ReplayIngestsNothing | apps/api/src/services/operational-event-ingestion-service.ts:146-204 | sending the same keys again ingests nothing and stores nothing |
| Ingestion.AloneNoKeyStoredTwice | apps/api/src/services/operational-event-ingestion-service.ts:146-204 | run alone, with faults, stale locks and repeats, a batch never stores a key twice |
| WorkerLease.LeaseTable.Acquire | apps/api/src/services/worker-lease-service.ts:88-172 | conditional update, then create: the fields of the row taken, and refusal only while another token's lease is running, which the caller is told |
| WorkerLease.LeaseTable.Renew | apps/api/src/services/worker-lease-service.ts:174-204 | renews exactly when owner and unexpired lease match, and changes nothing otherwise |
| WorkerLease.LeaseTable.Release | apps/api/src/services/worker-lease-service.ts:206-241 | frees the row exactly for its owner, so that anyone acquires it at any time, stamping completion on request |
| WorkerLease.LeaseTable.MarkStage | apps/api/src/services/pipeline-freshness-service.ts:77-123 | a freshness mark writes heartbeat and completion and leaves the lease alone |
| LeaseGuarantees.OneHolder | apps/api/src/services/worker-lease-service.ts:88-241 | over every interleaving of acquire, renew, release and stage marks with outdated clock readings, at most one token holds an unexpired lease, and the row says so |
| LeaseGuarantees.LiveHolderPrevails | apps/api/src/services/worker-lease-service.ts:88-241 | a live holder's renewals and release take effect, and no other token's operation does |
| LeaseGuarantees.ReleaseFreesTheRow | apps/api/src/services/worker-lease-service.ts:206-241 | in every run, once the owner has released, the next conditional update takes the row at once, whoever makes it and whenever, whatever renewals, releases, marks and creations came between |
| LeaseGuarantees.FastClockBreaksExclusion | apps/api/src/services/worker-lease-service.ts:88-123 | however long leases are, a worker one millisecond fast is enough for two live holders |
| LeaseGuarantees.ExclusionExactly | apps/api/src/services/worker-lease-service.ts:88-241 | all runs with clock readings at most so far ahead have at most one live holder if and only if none is ahead at all |
| LeaseGuarantees.SoloAcquire | apps/api/src/services/worker-lease-service.ts:88-172 | the two operations of an uninterrupted acquisition compose to one function of the row |
| LeaseGuarantees.SoloSteps | apps/api/src/services/worker-lease-service.ts:174-241 | a renewal, a release and a freshness mark write the row in one step each, field by field |
| LeaseHeartbeat.LeaseSession.OnTick | apps/api/src/services/worker-lease-service.ts:296-303 | a timer tick starts a renewal unless one is in flight or the lease is lost, as the session in time does |
| LeaseHeartbeat.LeaseSession.OnRenewalSettled | apps/api/src/services/worker-lease-service.ts:303-337 | a refused or failed renewal loses the lease for good, as in the session in time |
| LeaseHeartbeat.LeaseSession.Conclude | apps/api/src/services/worker-lease-service.ts:339-383 | a run completes exactly when it succeeded with its lease intact, so on schedule exactly when it succeeded |
| LeaseHeartbeat.LeaseNeverLapsesExactly | apps/api/src/services/worker-lease-service.ts:260-383 | the lease never lapses, is never taken and is never reported lost, whatever rivals do, if and only if twice the operation latency plus the timer period is below the lease |
| LeaseHeartbeat.SettingsLeaveRoom | apps/api/src/services/worker-lease-service.ts:47-63 | whatever is configured, the effective settings leave that room for latencies under a quarter of a lease of at least two seconds |
| LeaseHeartbeat.ConfiguredRunKeepsItsLease | apps/api/src/services/worker-lease-service.ts:55-63 | so a run under the program's own settings keeps its lease throughout, skipped ticks included |
| LeaseHeartbeat.LateRenewalLosesLease | apps/api/src/services/worker-lease-service.ts:296-337 | outside the condition some schedule within the latency bound hands the lease to a rival |
| LeaseHeartbeat.QuarterExactlyIsTooLate | apps/api/src/services/worker-lease-service.ts:55-63 | a latency of exactly a quarter of the default lease is already too slow |
| LogGuarantees.BatchesReadTheSortedLog | apps/api/src/services/operational-events-analysis-service.ts:376-419 | over any run of batches and appends above the cursor, what has been read is the key-sorted log up to the cursor, without gap or repeat |
| LogGuarantees.DrainsInCeilBatches | apps/api/src/services/operational-events-analysis-service.ts:382-419 | n unread events drain in ceil(n / batchSize) batches |
| LogGuarantees.LateAppendNeverRead | apps/api/src/services/operational-events-analysis-service.ts:382-407 | an event that lands at or below the cursor is never read by any later run |
| LogGuarantees.ReadWithoutGapsExactly | apps/api/src/services/operational-events-analysis-service.ts:376-419 | a run has read exactly the events up to the cursor if and only if every append in it landed above the cursor of its moment |
| AnalysisBatch.AnalysisWorker.OpenOrRefreshFinding | apps/api/src/services/operational-events-analysis-service.ts:203-270 | the finding row and the state reported for create, reopen and refresh |
| AnalysisBatch.AnalysisWorker.ResolveFinding | apps/api/src/services/operational-events-analysis-service.ts:272-306 | resolves exactly the open finding of the fingerprint |
| AnalysisBatch.AnalysisWorker.GroupBatch | apps/api/src/services/operational-events-analysis-service.ts:434-461 | the loop's three collections equal the fold that groups the batch |
| AnalysisBatch.AnalysisWorker.JudgeRun | apps/api/src/services/operational-events-analysis-service.ts:682-750 | judging one closed run against its baseline computes the drift rule |
| AnalysisBatch.AnalysisWorker.RunBatch | apps/api/src/services/operational-events-analysis-service.ts:338-961 | a batch applies every verdict once, in order, moves the cursor to its last event, and findings_opened - findings_resolved is the change in the number of open findings |
| FindingsAnalysis.TallyConserves | apps/api/src/services/operational-events-analysis-service.ts:203-306 | over any verdicts, opened minus resolved is the change in the open set |
| FindingsAnalysis.LastVerdictDecides | apps/api/src/services/operational-events-analysis-service.ts:203-306 | the last verdict on a fingerprint decides whether it ends up open |
| FindingsAnalysis.BurstFindingsMatchCounts | apps/api/src/services/operational-events-analysis-service.ts:463-680 | after a batch, for each affected system of an entitled tenant: the workflow-failed finding is open exactly when at least three workflow_failed events of it have come in the last 20 minutes, the job-burst finding exactly when at least three job_failed events have in the last 15, and the retry-spike finding exactly when the system is judged to spike |
| FindingsAnalysis.TerminalsAreLatest | apps/api/src/services/operational-events-analysis-service.ts:447-460 | each duration group is ruled on with the latest closing event the batch saw of it |
| DriftFindings.DriftFindingsFollowJudgements | apps/api/src/services/operational-events-analysis-service.ts:682-791 | each duration group's finding is open exactly as judged, and as before when there is no judgement |
| DriftFindings.ClosedRunDecidesDrift | apps/api/src/services/operational-events-analysis-service.ts:682-791 | for a workflow_completed, workflow_failed, job_completed or job_failed event with a correlation, the finding follows the latest closing event of its group in the batch and that run's baseline alone |
| StuckFindings.StuckFindingsFollowLatest | apps/api/src/services/operational-events-analysis-service.ts:793-930 | each touched correlation's stuck finding ends as the verdict on its latest event says, whoever names the correlation, and as before without a verdict |
| StuckFindings.StuckWorkflow | apps/api/src/services/operational-events-analysis-service.ts:817-873 | a workflow run whose latest event in the log is a completion or failure has no open stuck finding, one whose latest event is a request or start has one exactly after thirty minutes, and any other latest event changes nothing |
| StuckFindings.StuckJob | apps/api/src/services/operational-events-analysis-service.ts:874-930 | and so for a job, with its own types and twenty minutes |
| StuckFindings.LatestOfIsLatest | apps/api/src/services/operational-events-analysis-service.ts:795-816 | the event a correlation is judged by is one of its own, and none of its own comes after it |
| WindowRules.BaselineDurations | apps/api/src/services/operational-events-analysis-service.ts:726-738 | the loop that collects baseline durations computes the fold over the baseline's events |
| WindowRules.LatestStart | apps/api/src/services/operational-events-analysis-service.ts:153-188 | the start found for a run is the latest one, by time and then id, not after its end |
| WindowRules.LatestFirstOrders | apps/api/src/services/operational-events-analysis-service.ts:134-139 | rows taken for a sample are in order of recency, so what the limit cuts off is no later than what is kept |
| WindowRules.MajorityDecidesDrift | apps/api/src/services/operational-events-analysis-service.ts:101-114 | where a majority of baseline runs lies in a range, no other run can raise or hide a drift |
| WindowRules.SpikeByWindowCounts | apps/api/src/services/operational-events-analysis-service.ts:609-646 | with at most 80 finished runs in the window, it is a spike exactly when its plain counts say so, in whatever order events arrived |
| WindowRules.WindowCountCounts | apps/api/src/services/operational-events-analysis-service.ts:467-476 | a window count is the number of places in the log that hold an event of the tenant, source, system and type, not before the window's start |
| RunWindows.SpikeByLatestRuns | apps/api/src/services/operational-events-analysis-service.ts:609-646 | however many runs finished in the last thirty minutes, it is a spike exactly when of those that fewer than eighty others came after at least three, and at least 35 percent, have a run attempt above one |
| RunWindows.DurationMeans | apps/api/src/services/operational-events-analysis-service.ts:153-200 | a run has taken the time from the latest start event of its correlation, if it has a correlation and a start, and the start came before its end |
| RunWindows.BaselineIsLatestRuns | apps/api/src/services/operational-events-analysis-service.ts:700-738 | the baseline is taken from the runs of the system that finished in the twelve hours before and that fewer than 25 such others came after |
| RunWindows.DurationsJoin | apps/api/src/services/operational-events-analysis-service.ts:726-738 | the durations of several runs are those of each, in order |
| RunWindows.DurationOfOne | apps/api/src/services/operational-events-analysis-service.ts:726-738 | a run of known duration counts with it, and another not at all |
| RunWindows.DriftMeans | apps/api/src/services/operational-events-analysis-service.ts:682-750 | a run of known duration with at least three others is judged, and has drifted exactly if it took at least twice their median and two minutes more than it |
| GroupKeys.SystemKeyRoundTrip | apps/api/src/services/operational-events-analysis-service.ts:308-314 | a system key reads back if and only if the tenant holds no bar |
| GroupKeys.CorrelationKeyRoundTrip | apps/api/src/services/operational-events-analysis-service.ts:316-323 | a correlation key reads back if and only if neither tenant nor system holds a bar |
| GroupKeys.DurationKeyRoundTrip | apps/api/src/services/operational-events-analysis-service.ts:325-336 | a duration key reads back if and only if the tenant holds no bar |
| GroupKeys.SystemKeyRejoins | apps/api/src/services/operational-events-analysis-service.ts:308-314 | the parts of any key that holds a bar join back to it |
| IncidentService.Service.OpenOrRefreshBridgeIncident | apps/api/src/services/incidents-service.ts:197-324 | create, refresh and reopen: the row written, the alert raised and the action reported |
| IncidentService.Service.ResolveBridgeIncident | apps/api/src/services/incidents-service.ts:326-373 | resolves exactly an unresolved incident of the tenant |
| Incidents.FindByFingerprint | apps/api/src/services/incidents-service.ts:216-224 | the latest-started incident of the tenant with the fingerprint, and none only if there is none |
| BridgeGuarantees.BridgeConverges | apps/api/src/services/incident-bridge-service.ts:170-352 | however finding writes above the cursor, batches and crashes interleave, once nothing lies beyond the cursor every open finding is linked and each linked incident is open exactly when its finding is |
| BridgeGuarantees.LinksAreInjective | apps/api/src/services/incident-bridge-service.ts:234-352 | distinct findings never link to the same incident |
| BridgeGuarantees.WriteReachesIncidentExactly | apps/api/src/services/incident-bridge-service.ts:170-352 | a finding written anywhere, unless a batch in progress still holds an older reading of it, with writes of other findings landing anywhere: once the cursor has passed it and until it is written again, its incident is in step with it if and only if the write left it in step already, or landed above the cursor and no batch was in progress, or it ended below the write, or it died |
| BridgeGuarantees.OlderReadingDecides | apps/api/src/services/incident-bridge-service.ts:170-352 | where the batch in progress still holds an older reading of the finding: if it finishes, the incident is in step if and only if that reading said the same as the write; if it dies and the write landed above the cursor, it always is |
| BridgeLateWrites.AfterDying | apps/api/src/services/incident-bridge-service.ts:210-352 | whatever a batch had handled when it died, the finding ends up in step if and only if it was in step then or lies above the cursor |
| BridgeGuarantees.LateWriteStaysUnlinked | apps/api/src/services/incident-bridge-service.ts:176-205 | so a finding first written at or below the cursor stays without an incident in every later run, until it is written again |
| BridgeBatch.Bridge.BridgeFinding | apps/api/src/services/incident-bridge-service.ts:243-327 | one finding's effect on links and incidents |
| BridgeBatch.Bridge.RunIncidentBridgeBatch | apps/api/src/services/incident-bridge-service.ts:132-369 | a batch's counters account for every incident made and bound the change in unresolved ones; with all tenants entitled it is a run of the protocol, and an unfilled one leaves every bridged finding in step; other tenants' rows are passed over; with any mixture of tenants it brings each row of an entitled one in step, keeps what they have behind the cursor in step, leaves all of theirs in step if it was not filled, and leaves the links and incidents of the others as they were |
| BridgeBatch.RowCaughtUp | apps/api/src/services/incident-bridge-service.ts:245-327 | handling one row of an entitled tenant brings it in step, puts nothing else out of step, and touches no other tenant's links or incidents |
| BridgeBatch.InvServes | apps/api/src/services/incident-bridge-service.ts:132-369 | whatever keeps the protocol's invariant also keeps what a bridge that serves some tenants relies on, whichever they are |
| IncidentBridge.KeysInLine | apps/api/src/services/incident-bridge-service.ts:170-215 | the cursor's keys are totally ordered, by time and then id |
| BridgeBatch.BridgedCounts | apps/api/src/services/incident-bridge-service.ts:243-327 | what one finding does to the number of incidents and of unresolved ones, by reported effect |
| BridgeBatch.BridgedIsRun | apps/api/src/services/incident-bridge-service.ts:243-327 | handling a row in the loop is the protocol's incident write followed by its link write |
| IncidentGuarantees.DeadlineFollowsSeverity | apps/api/src/services/anomaly-service.ts:632-651 | under all writers interleaved, every incident's sla_due_at is its start plus the minutes of its severity |
| IncidentGuarantees.ManualSteps | apps/api/src/services/incidents-service.ts:124-195 | what acknowledging and resolving by hand write, in any run |
| IncidentGuarantees.AlertsAreThrottled | apps/api/src/services/anomaly-service.ts:621-752 | a policy's incident gets one alert for its opening, at most one for an escalation, and at most one more per half hour seen |
| IncidentGuarantees.CriticalPolicyNeverEscalates | apps/api/src/services/anomaly-service.ts:621-709 | an incident of a policy that triggers as critical never escalates, so it gets one alert for its opening and at most one per half hour seen |
| IncidentGuarantees.AlertBoundIsMet | apps/api/src/services/anomaly-service.ts:613-709 | the bounds are attained at every length of time, before and after escalation, for every severity and every escalation delay: one more alert from escalation on, unless the incident was critical to begin with or the delay is thirty minutes |
| IncidentGuarantees.HalfHourEscalationCostsNoAlert | apps/api/src/services/anomaly-service.ts:613-709 | with a delay of thirty minutes the escalation coincides with a re-notification, and every incident stays one alert below the bound |
| BreachEvents.AtMostOneBreachEvent | apps/api/src/services/incidents-service.ts:80-122 | while no breach pass lists an incident between another's listing and marking it, an incident gets at most one SLA_BREACHED event, and only once marked |
| BreachEvents.OverlappingPassesLogTwice | apps/api/src/services/incidents-service.ts:80-122 | whenever an incident is overdue while it waits on another pass's list, a new pass can make it get two events |
| BreachEvents.NextPassSafeExactly | apps/api/src/services/incidents-service.ts:80-122 | one more pass can lead to a second event if and only if it lists an incident that is on a list not yet marked |
| IncidentGuarantees.PolicyBreachNeverEarly | apps/api/src/services/incidents-service.ts:80-122 | a policy's incident is never marked breached before its deadline, escalations in the middle of a pass included |
| BreachMarks.MarksOnTimeExactly | apps/api/src/services/incidents-service.ts:80-122 | no incident is ever marked breached before its deadline if and only if no bridge write gives a marked incident a deadline after its mark, and no pass marks a bridge incident given a deadline after the pass since it was listed |
| BreachMarks.OnTimeStep | apps/api/src/services/incidents-service.ts:268-283 | step by step: marks on time stay so exactly if the step is not such a write or mark, whatever policies, people and other passes do |
| BreachMarks.ReopenedBreachIsEarly | apps/api/src/services/incidents-service.ts:268-283 | from any state, a bridge incident that is marked breached, resolved and reopened carries a breach mark older than its new deadline |
| BreachMarks.ReopenedWhileListedIsEarly | apps/api/src/services/incidents-service.ts:80-122 | and so does one resolved and reopened between a pass's listing it and marking it |
| HeartbeatIncidents.OneActiveExactly | apps/api/src/services/anomaly-service.ts:559-595 | with one missing_heartbeat policy on a workflow, whatever all other writers do, no environment has two active incidents at any point of a run if and only if no acknowledgement in it is given to a resolved incident of the policy while another is active in its environment |
| HeartbeatIncidents.AtMostOneActive | apps/api/src/services/anomaly-service.ts:559-595 | and then a target never has two incidents that a trigger could refresh |
| HeartbeatRows.AckKeepsOneActive | apps/api/src/services/incidents-service.ts:124-155 | whether an acknowledgement makes a second active incident is decided by just that |
| QuietStreaks.ResolvedOnlyAfterThreeQuiet | apps/api/src/services/anomaly-service.ts:755-828 | an evaluation resolves the incident only when it and the two before it stayed quiet, if besides no acknowledgement brings back a streak that is out of date |
| QuietStreaks.ResolvedEarlyExactly | apps/api/src/services/anomaly-service.ts:755-828 | an acknowledged incident can be resolved by quiet evaluations before three in a row if and only if the streak it carries is out of date |
| QuietResolution.ThreeQuietResolve | apps/api/src/services/anomaly-service.ts:755-828 | with one policy on the workflow and any number of environments, three quiet evaluations leave nothing active, provided every step kept pace: no trigger for another environment refreshed the target's incident right after a quiet evaluation of the target, and no acknowledgement brought back a resolved incident with a streak that has missed quiet evaluations |
| QuietResolution.KeepsPaceExactly | apps/api/src/services/anomaly-service.ts:755-828 | that condition on a step is exact: it holds if and only if, however many quiet evaluations follow the step, none ends three in a row with an incident still active |
| QuietResolution.RefreshedElsewhereStaysOpen | apps/api/src/services/anomaly-service.ts:580-595 | a run in which a trigger for another environment in the same minute keeps the target's incident active after three quiet evaluations |
| HeartbeatIncidents.LateAckBreaksBoth | apps/api/src/services/incidents-service.ts:136-141 | for every policy window and cooldown, a run in which acknowledging a resolved incident makes two active ones and an early resolution |
| HeartbeatIncidents.TriggerCoversExactly | apps/api/src/services/anomaly-service.ts:541-753 | with one policy on the workflow, in every reachable table, a missed heartbeat leaves an active incident for its own target if and only if there was one before, or no incident with the minute's fingerprint is active in any environment and the cooldown does not hold it back |
| HeartbeatIncidents.OtherEnvironmentTakesIt | apps/api/src/services/anomaly-service.ts:580-595 | so an active incident of the same minute in another environment swallows this one's trigger, whatever the bucket |
| HeartbeatIncidents.OtherEnvironmentRun | apps/api/src/services/anomaly-service.ts:580-595 | and two triggers in one minute, for two environments, are a run that does it |
| Cooldown.EveryNthTriggerOpens | apps/api/src/services/anomaly-service.ts:466-539 | in every run hits stay below N; and while the same latest-resolved incident with h hits cools down, exactly floor((h + k) / N) of k triggers that find nothing active open an incident |
| Cooldown.OpeningsFromAnyHits | apps/api/src/services/anomaly-service.ts:466-539 | and from any table, a count of hits at or beyond N - 1, as a larger N before may have left it, counts as N - 1 |
| AnomalyPolicies.HeartbeatThreshold | apps/api/src/services/anomaly-service.ts:292-320 | without a heartbeat or a gap nothing triggers; else a gap triggers above three expected intervals, up to the rounding of the interval, and never at three minutes or less |
| AnomalyPolicies.WholeIntervalThreshold | apps/api/src/services/anomaly-service.ts:292-320 | with a whole number of seconds as the interval, a minute at least, exactly the gaps over three of them trigger |
| AnomalyPolicies.FingerprintPerMinute | apps/api/src/services/anomaly-service.ts:550-557 | two triggers of a policy share a fingerprint exactly when workflow and clock minute agree; the environment plays no part |
| AnomalyPolicies.ExpectedIntervalSec | apps/api/src/services/anomaly-service.ts:292-300 | the expected heartbeat interval is the nearest whole second of the inferred one, or the window, and a minute for anything below 60.5 seconds |
| AnomalyPolicies.PolicyTextsIdentify | apps/api/src/utils/crypto.ts:52-59 | within a tenant the text a policy fingerprint is hashed from tells workflow, metric and minute apart, bars in workflow ids included |
| AnomalyJob.BuildTargets | apps/api/src/services/anomaly-service.ts:830-850 | targets are distinct, cover every workflow, or are the one workflow named |
| AnomalyJob.DetectionJob.LatestStarted | apps/api/src/services/anomaly-service.ts:561-579 | the search loop finds a latest-started match, and none only if there is none |
| AnomalyJob.DetectionJob.LatestResolved | apps/api/src/services/anomaly-service.ts:474-486 | the search loop finds a latest-resolved incident of policy and target |
| AnomalyJob.DetectionJob.FindExisting | apps/api/src/services/anomaly-service.ts:556-595 | for a missed heartbeat a latest-started active incident of the very target, if there is one, and otherwise a latest-started active one of the tenant with the minute's fingerprint, if there is one |
| AnomalyJob.DetectionJob.ShouldSuppressReopen | apps/api/src/services/anomaly-service.ts:466-539 | while the policy and target's latest resolved incident cools down, counts a hit against it and suppresses, or at the last hit opens the way and restarts the count |
| AnomalyJob.DetectionJob.RefreshIncident | apps/api/src/services/anomaly-service.ts:621-709 | severity, deadline, alert time and alerts of a refresh |
| AnomalyJob.DetectionJob.UpsertIncident | apps/api/src/services/anomaly-service.ts:541-753 | a triggering evaluation is a legal step of the incident table |
| AnomalyJob.DetectionJob.ClearIncidentIfStable | apps/api/src/services/anomaly-service.ts:755-828 | the loop moves every active incident of policy and target one window on, resolving those at the third |
| AnomalyJob.DetectionJob.EvaluateTarget | apps/api/src/services/anomaly-service.ts:903-1011 | a target is triggered exactly when its evidence fires and counted quiet otherwise; without a baseline it is always counted quiet, so no row is added or refreshed |
| AnomalyJob.DetectionJob.RunAnomalyDetectionJob | apps/api/src/services/anomaly-service.ts:852-1017 | the job is a run of the incident table that evaluates each target of each supported policy once, in order, and then leaves nothing overdue unmarked; where nothing has a baseline it opens and refreshes nothing |
| AnomalyJob.NoBaselineIsQuiet | apps/api/src/services/anomaly-service.ts:302-311 | an evaluation without a baseline is a quiet one, whatever the policy and target |
| AnomalyJob.FollowedIsEach | apps/api/src/services/anomaly-service.ts:852-1017 | a run that follows the agenda evaluates every target of every supported policy, nothing else, and nothing twice |
| AnomalyJob.BreachPassRuns | apps/api/src/services/incidents-service.ts:80-122 | the three writes of an undisturbed breach pass compose to one update |
| IncidentService.Service.AckIncident | apps/api/src/services/incidents-service.ts:124-155 | acknowledges an incident of the tenant whatever its status |
| IncidentService.Service.ResolveIncident | apps/api/src/services/incidents-service.ts:157-195 | resolves an incident of the tenant by hand, restarting its cooldown hits |
| IncidentService.Service.MarkBreachedSla | apps/api/src/services/incidents-service.ts:80-122 | marks and logs exactly the overdue incidents, and a second pass finds none |
| GenericWorkflow.HandleGenericWorkflowEventDetection | apps/api/src/services/generic-workflow-incident-service.ts:199-280 | the handler's effect and outcome, branch by branch |
| GenericWorkflow.ResolveMatching | apps/api/src/services/generic-workflow-incident-service.ts:142-197 | the loop over both rules resolves the active incident of each and reports the last |
| GenericWorkflow.RecoveryReports | apps/api/src/services/generic-workflow-incident-service.ts:142-197 | recovery resolves an active incident of either rule and reports it, the time-out's after the failure's, and reports none only if neither rule has one |
| GenericWorkflow.FindActive | apps/api/src/services/generic-workflow-incident-service.ts:107-123 | the latest-started active incident with the fingerprint, and none only if there is none |
| GenericWorkflow.OneIncidentPerRule | apps/api/src/services/generic-workflow-incident-service.ts:142-280 | with handlers one after the other a tenant has at most one incident row per fingerprint |
| GenericWorkflow.ActiveExactlyWhenTroubled | apps/api/src/services/generic-workflow-incident-service.ts:142-280 | it is there and active exactly when an event of its rule was ingested after the last success |
| GenericWorkflow.TroubledMeans | apps/api/src/services/generic-workflow-incident-service.ts:199-280 | the fold over events says just that: some newly ingested failure or time-out of a supported source has no success after it |
| GenericWorkflow.FingerprintsIdentify | apps/api/src/services/generic-workflow-incident-service.ts:35-54 | within a tenant fingerprints agree exactly on source type, rule, and source, workflow and environment written together |
| GenericWorkflow.EnvironmentsIdentify | apps/api/src/services/generic-workflow-incident-service.ts:35-54 | what is written together tells the environment apart, exactly unless it spills into what stands before it past a bar |
| GenericWorkflow.InnerIdentifies | apps/api/src/services/generic-workflow-incident-service.ts:31-54 | source and workflow are told apart exactly unless one source, a bar and more is the other source and that more begins the first workflow |
| GenericWorkflow.BarsConfuse | apps/api/src/services/generic-workflow-incident-service.ts:31-54 | so moving a bar between source and workflow keeps the fingerprint, and two workflows of two sources share their incidents |
| HandlerGuarantees.SecondRowExactly | apps/api/src/services/generic-workflow-incident-service.ts:107-280 | with handlers that look and write in separate steps, overlap and may die: a fingerprint gets a second row if and only if, when its first row is written, another handler has already looked in vain and goes on to write |
| HandlerGuarantees.OneRowUnlessBlindWritesOverlap | apps/api/src/services/generic-workflow-incident-service.ts:107-280 | otherwise it has at most one row, active exactly when the last task completed on it was a report |
| HandlerGuarantees.OneRowWhenLooksApart | apps/api/src/services/generic-workflow-incident-service.ts:107-280 | for which it is enough that looks and writes on the fingerprint do not overlap |
| HandlerGuarantees.TroubleIsNeverMissed | apps/api/src/services/generic-workflow-incident-service.ts:107-280 | however handlers overlap, a report that no success has followed leaves an active incident |
| HandlerGuarantees.SerialHandler | apps/api/src/services/generic-workflow-incident-service.ts:107-280 | the look, check and write steps of a handler that runs alone compose to the effect of handling its event at once |
| HandlerGuarantees.OverlappingHandlersLeaveOneOpen | apps/api/src/services/generic-workflow-incident-service.ts:107-197 | a run in which two handlers both look before either writes ends with two rows, one of them active after the success that follows |
| AlertGuarantees.BackoffShape | apps/api/src/services/alert-service.ts:52-56 | waits start at the base, never shrink, and stay within the cap unless the base exceeds it |
| AlertGuarantees.ClaimedAtMostOnce | apps/api/src/services/alert-service.ts:92-118 | with any number of workers no alert event is claimed twice, and no two work on the same one |
| AlertGuarantees.KindsMoveForward | apps/api/src/services/alert-service.ts:92-204 | types only move pending to claimed to sent or failed, or pending to skipped, and rows stay |
| AlertGuarantees.RaisedIsDue | apps/api/src/services/alert-service.ts:207-230 | an alert once raised waits to be claimed, and may be at once |
| AlertGuarantees.ChainBounded | apps/api/src/services/alert-service.ts:120-157 | a root alert and its retries number at most MAX_RETRIES + 1 |
| AlertGuarantees.RetriesWaitTheirTurn | apps/api/src/services/alert-service.ts:120-157 | no retry is claimed before all the backoffs since its root was claimed have run |
| AlertGuarantees.FailureSchedulesRetry | apps/api/src/services/alert-service.ts:120-157 | a delivery that fails with attempts left leaves one pending retry, due exactly once the backoff from the failure has run |
| AlertGuarantees.RetriesBecomeDue | apps/api/src/services/alert-service.ts:52-56 | in every run whatever is pending is due an hour later at the latest, or the base backoff if that is longer |
| AlertGuarantees.SettlementsBounded | apps/api/src/services/alert-service.ts:327-541 | the sum of (MAX_RETRIES + 1 - attempt) over unfinished events pays for every completed dispatch or skip |
| AlertGuarantees.WorkLeftStep | apps/api/src/services/alert-service.ts:327-541 | each settling step uses up at least one unit of that sum, and only raising an alert adds to it |
| AlertBatch.PendingIds | apps/api/src/services/alert-service.ts:207-240 | a batch takes the first pending alerts, oldest first, and passes one over only if the limit was reached by older ones |
| AlertBatch.OldestAreRead | apps/api/src/services/alert-service.ts:207-240 | so a pending alert, retries included, with fewer older ones pending than the limit is among those read |
| AlertBatch.Dispatcher.DispatchOne | apps/api/src/services/alert-service.ts:327-541 | claim, deliver, and on failure schedule a retry or give up |
| AlertBatch.Dispatcher.SkipForPlan | apps/api/src/services/alert-service.ts:159-204 | skipping changes the one alert's type |
| AlertBatch.Dispatcher.HandlePending | apps/api/src/services/alert-service.ts:272-333 | the decision for one pending alert, in the order plan, per-batch cap, due time |
| AlertBatch.HandledIsRun | apps/api/src/services/alert-service.ts:92-204 | that decision is a run of the dispatch protocol |
| AlertBatch.Dispatcher.DispatchPendingAlertEvents | apps/api/src/services/alert-service.ts:206-542 | a batch is a run of the protocol; it brings each alert it read to what plan, per-batch cap, due time and delivery say, with a retry scheduled for each failure with attempts left; with no more pending than its limit none is left pending and due; a basic tenant is mailed at most ten times and an unentitled one never |
| SortedSamples.SortSorts | apps/api/src/utils/anomaly-math.ts:23-36 | sorting orders the values and keeps them all |
| RobustStats.MedianMinimises | apps/api/src/utils/anomaly-math.ts:23-36 | no centre has a smaller sum of absolute deviations than the median |
| RobustStats.MajorityConfinesMedianAndMad | apps/api/src/utils/anomaly-math.ts:23-46 | if more than half of the samples lie in [lo, hi], so does the median, and the MAD is at most hi - lo, whatever the others are |
| RobustStats.MadSpansHalf | apps/api/src/utils/anomaly-math.ts:38-46 | at least half of the samples lie within the MAD of the median, and at most half within anything less |
| RobustStats.FlatMajoritySilencesScore | apps/api/src/utils/anomaly-math.ts:48-62 | a history constant on a majority scores every value zero |
| RobustStats.ScoreMirrors | apps/api/src/utils/anomaly-math.ts:23-62 | turning the scale around changes the sign of the score and nothing else, so even-sized histories take the midpoint |
| RobustStats.MedianAndMadRescale | apps/api/src/utils/anomaly-math.ts:23-46 | in another unit, from another zero, the median moves along and the MAD is rescaled |
| RobustStats.ScoreHasNoUnit | apps/api/src/utils/anomaly-math.ts:48-62 | the score does not depend on unit or zero, as long as the spread is not cut off as nothing |
| RobustStats.MinorityCannotMask | apps/api/src/utils/anomaly-math.ts:48-62 | whatever a minority of the samples are, a value k times 1.4826 times the width of the majority's range above or below that range scores at least k, or at most -k, unless the spread is cut off as nothing |
| RobustStats.Ewma | apps/api/src/utils/anomaly-math.ts:101-112 | the smoothing loop computes the weighted fold |
| RobustStats.EwmaWithinRange | apps/api/src/utils/anomaly-math.ts:101-112 | smoothing never leaves the range of its samples |
| RobustStats.EwmaShift | apps/api/src/utils/anomaly-math.ts:101-112 | a level shift of the history shifts the smoothed value by as much |
| RobustStats.EwmaMoves | apps/api/src/utils/anomaly-math.ts:101-112 | each further sample moves the smoothed value by alpha of its distance from it |
| FallbackStore.Store.Fetch | apps/api/src/lib/redis.ts:35-47 | reading an expired entry removes it and answers none |
| FallbackStore.Store.Set | apps/api/src/lib/redis.ts:53-56 | writes the entry with its expiry |
| FallbackStore.Store.SetNx | apps/api/src/lib/redis.ts:58-65 | writes exactly when no live entry exists |
| FallbackStore.Store.Ttl | apps/api/src/lib/redis.ts:76-87 | seconds to live, -1 without expiry, -2 without entry |
| FallbackStore.Store.IncrWithTtl | apps/api/src/lib/redis.ts:89-104 | the counter after a hit, its re-rounded expiry, and the seconds reported |
| FallbackStore.ExpiryCases | apps/api/src/lib/redis.ts:89-104 | a hit on a key without a live entry, or whose entry never runs out, opens a whole window; any other ends in the least whole seconds, one at least, that cover what is left |
| FallbackStore.TtlCases | apps/api/src/lib/redis.ts:76-104 | a hit reports the window for a new entry, and else the least whole seconds, one at least, to the end |
| FallbackStore.Store.ConsumeRateLimit | apps/api/src/services/rate-limit-service.ts:13-26 | allowed exactly while the counter is within the maximum |
| FallbackStore.CeilSeconds | apps/api/src/lib/redis.ts:81-86 | whole seconds rounded up |
| RateWindows.RoundingOnlyExtends | apps/api/src/lib/redis.ts:97-101 | re-rounding on a hit never moves expiry earlier and, with one clock reading, adds less than a second |
| RateWindows.WindowLasts | apps/api/src/lib/redis.ts:89-104 | a window once opened lasts its full length |
| RateLimiter.AtMostTwiceTheLimit | apps/api/src/services/rate-limit-service.ts:13-26 | in a closed interval shorter than the window at most 2 * max requests pass, and at most 2 * max - 1 from an empty key |
| RateLimiter.BoundIsMet | apps/api/src/lib/redis.ts:89-104 | the bound for an empty key is attained, for every limit and every window longer than a second |
| RateLimiter.BoundIsMetFrom | apps/api/src/lib/redis.ts:89-104 | and so is the bound for a key that already holds an entry |
| RateLimiter.OneSecondWindows | apps/api/src/lib/redis.ts:89-104 | with one-second windows the limit itself is the bound |
| RateLimiter.IdleKeyForgotten | apps/api/src/lib/redis.ts:89-104 | an idle key's counter is gone one window after its last hit |
| RateLimiter.RestartsExactly | apps/api/src/lib/redis.ts:89-104 | with one clock reading per request the counter has never restarted if and only if the whole seconds between requests, each gap rounded down, add up to less than the window; then the entry expires after the last request by the difference |
| RateLimiter.RapidHitsNeverReset | apps/api/src/lib/redis.ts:97-101 | so requests that keep coming less than a second apart push the expiry on forever |
| RateLimiter.StoreRunsTheLimiter | apps/api/src/lib/redis.ts:35-104 | to every later reader the store's entries after any requests for a key are what is said above of its entry, and other keys are untouched |

## Left out

- CanonicalJson.Canonicalize: numbers are integers, and undefined, NaN and Date values do not occur; the key comparison is any total preorder, since the order of localeCompare depends on the host.
- EventKeys.ContentKeysIdentifyEvents: assumes that the nine field names are not tied by the comparison, and that hashes do not collide.
- LedgerGuarantees.AtMostOneEvent: transactions that commit but report an error, and clocks that run backwards, are excluded.
- LeaseHeartbeat.LeaseNeverLapsesExactly: timers fire exactly on time, and an operation takes effect at once when it completes.
- RateLimiter.RestartsExactly: each request reads the clock once, as the rounding is then exact.
- FallbackStore.Store.ConsumeRateLimit: the real Redis client is not modelled, nor the switch between it and the store; stored counters are natural numbers or text that does not parse.
- RateLimiter.AtMostTwiceTheLimit: asks that requests read the clock one after the other and that readings are positive.
- AlertBatch.Dispatcher.DispatchPendingAlertEvents: the batch reads one clock; deliveries are given as an outcome per event, and channel by channel results, strategies and message texts are left out.
- AnomalyPolicies.PolicyRefreshed: of details_json only the fields that are read back are kept; event payloads are counted, not stored.
- AnomalyJob.DetectionJob.UpsertIncident: its reads and its write are one step; an acknowledgement in between changes nothing it writes, a manual resolution in between is not modelled.
- AnomalyJob.DetectionJob.EvaluateTarget: heartbeat readings are inputs, and so are the verdicts of the other metrics' rules, which rest on warehouse queries and square-root scores.
- BridgeBatch.Bridge.RunIncidentBridgeBatch: the query's answer is a parameter, described by Answers; the cache of plan lookups is a function.
- BridgeGuarantees.BridgeConverges: assumes that tenants stay entitled and that nobody acts on bridge incidents by hand.
- FindingsAnalysis.BurstFindingsMatchCounts: asks that the tenant id holds no bar, which the key format needs to be read back.
- WindowRules.IsSpike: the run attempt of an event is a field; looking for it in three places of the metadata is left out.
- DriftFindings.ClosedRunDecidesDrift: durations and their ratio are exact reals, not floating point.
- GenericWorkflow.ActiveExactlyWhenTroubled: nobody acts on these incidents by hand; incident texts and context are left out. Overlapping handlers are in HandlerGuarantees.
- HandlerGuarantees.SecondRowExactly: writing a row and appending its events is one step, and nobody acts on these incidents by hand.
- BridgeGuarantees.OlderReadingDecides: for a write at or below the cursor while a batch holds an older reading, and that batch dies, AfterDying says only that the finding stays as the batch left it.
- RobustStats.MedianMinimises: over exact reals; NaN, infinities and rounding are left out, as are compareValue, rollingAverage, smoothedBaseline and the two square-root scores.
- Daylight-saving effects of setMinutes on deadlines: minutes are added as milliseconds.
- Ties in an order by start time: the search loops may return any of the tied rows, and the shared lookup functions return the first.
- HTTP routes, authentication, mail and webhook delivery, warehouse queries, dashboards, read models and entitlement tables: foreign systems or counting next to these protocols.
