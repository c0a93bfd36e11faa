# LivePulse verification

A Dafny model of the parts of LivePulse in which several components have to agree: the durable event
pipeline, the football diff and its reducer, the realtime recovery protocol, and the provider paths
around them. `dafny verify dfyconfig.toml` checks the project.

## What is modelled

- **Football.** `FixtureDiff` is one diff of a provider snapshot against a checkpoint; `FixtureDiffer` is
  the same diff as an object with its nested updates. `FixtureHistory` states a grammar of event logs and
  proves that every diff extends a log within it; `FixtureRuns`, `FixtureStatus` and `FixtureCheckpoints`
  read the properties of whole runs off that grammar. `FixtureOutcome` and `FixtureCourse` tell one diff and
  its checkpoint from outside, event by event and field by field, in terms of the course of a match.
  `MatchReducer` is the reducer and its fold, `MatchStory` what a fold shows, told from the list of events,
  and `FootballStore` the ingestion of many fixtures with the pending index and the quiet baseline.
- **Event pipeline.** `EventStore` holds the tables and their transactions as functions, `EventInvariants`
  what each transaction keeps, `Pipeline` the state machine in which ingestion, publishers, broker,
  projector and retention interleave and fail, `PipelineRuntime` the services as they run on mutable
  tables. `OutboxClaims` and `RetentionBatches` are about single transactions. `FirstDelivery` says what
  takes effect of a log with duplicates and in which order, `OrderedDelivery` when a publisher keeps the
  order and `Overtaking` how it fails to, with the lists of `EnvelopeLists`; `MatchProvenance` tells which
  event a match row names; `StoredLog` joins the store of the pipeline with that of the fixtures, and
  `EndToEnd` everything from a snapshot to a match row.
- **Realtime.** `Realtime` is the fan-out with bounded queues and markers, `Recovery` the protocol of
  replay, queue, cursor filter and REST watermarks, `RecoveryHole` runs that leave a row missing, and
  `PulseClient` the state that the client hook keeps.
- **Providers.** `PollDelay` and `PollScheduler` are the backoff and the two locks of the scheduler,
  `GmailSync` the mailbox deltas and their ingestion, `GithubPaths` webhooks, reconciliation and their
  shared store, `GithubHistory` what the two paths store of consistent snapshots, `WeatherLocations` the
  recents list on both sides.
- `Common` and `Ordering` hold small types and query results in order.

Concurrent parts are state machines: one step is one transaction, or one stretch of code between two
awaits. A run is any sequence of enabled steps. History variables (`Past`, `accepted`, `applied`,
`dropped`) record what a run did and are read by no step.

## Findings

The model follows the code where documentation or expectation says otherwise.

- After full time the diff goes on to emit goals, which the reducer ignores. `Synchronised` says from the
  polls alone when checkpoint and projection still show one score.
- A kickoff time that changes during play sends a live projection back to scheduled, until the next event.
  `Unstarted` says from the polls alone when a projection shows as scheduled.
- A first failure with an interval above the cap can wait longer than a second one.
- Repeated retention batches remove the same events whatever their size, but not always the same match rows.
- One failed send can let a later event of the same match overtake; the overtaken one then has no effect, and
  the match row stays wrong although everything was delivered. `NeverOvertaken` is the exact condition for
  effects in stored order: failures, crashes and duplicates alone do no harm.
- A refresh that an arriving item outdates can leave a row that an overflow dropped uncovered. A publication
  that fails after its commit is not repeated, so a listening client misses that row without any marker.
  `dropped` lists exactly the rows that a client past them is missing.
- A location selected with a clock behind five others is itself dropped, and then nothing is selected.
- Reconciliation gives no start event for a run whose start time lacks an offset; webhooks do. It also
  starts runs with conclusions for which the completed webhook gives nothing.
- Two statuses of one deployment and state share a checkpoint, and so do two conclusions of one run attempt:
  a poll may skip the second. Without such a pair both paths store one history in any causal order.

## Model

| member | source | states |
|---|---|---|
| FixtureRuns.IdentitiesAreFreshAndVersionsContiguous | backend/app/providers/football/ingestion.py:87-123 | over any run of snapshots of one fixture, from no checkpoint, no two emitted events share a dedupe key and versions count 1, 2, 3 across the calls, ending at the checkpoint version |
| FixtureRuns.ProviderEventsAreLoggedOnce | backend/app/providers/football/ingestion.py:202-237 | every accepted provider event of every snapshot is in the history exactly once |
| FixtureRuns.LifecycleIsOrdered | backend/app/providers/football/ingestion.py:126-210 | each lifecycle event occurs at most once in a whole history and only after all its prerequisites, written out for every pair: halftime after kickoff, second half after both, extra time and full time after those, penalties after extra time |
| FixtureRuns.PayloadScoresAgree | backend/app/providers/football/ingestion.py:72-124 | up to and including full time every payload score is the score that the reducer reaches with that event; the projection is finished exactly when the checkpoint says that full time was emitted |
| FixtureRuns.ScoresAgreeUpToTheWhistle | backend/app/providers/football/ingestion.py:244-325 | a diff that starts before full time leaves checkpoint and projection with one score |
| FixtureRuns.ScoresAgreeAfterTheWhistle | backend/app/providers/football/ingestion.py:244-292 | after full time a diff leaves one score exactly when a correction is emitted, or both agreed before and the known score is reported |
| FixtureRuns.AgreementOverWholeRuns | backend/app/providers/football/ingestion.py:36-325 | over every run checkpoint and projection show one score exactly when the polls are synchronised, a condition on the polls; the projection never shows more goals than the checkpoint; before full time they always agree |
| FixtureRuns.HistoryIsFaithful | backend/app/providers/football/ingestion.py:36-325 | the checkpoint summarises the history after any run: version, stages, event ids, score and status match the events emitted, and the history obeys the log grammar |
| FixtureRuns.DiffKeepsIds | backend/app/providers/football/ingestion.py:212-235 | the known event ids are kept and every accepted one of the snapshot is added |
| FixtureHistory.DiffKeepsFaith | backend/app/providers/football/ingestion.py:36-325 | one diff extends a legal history legally and keeps its checkpoint a faithful summary, whatever the snapshot |
| FixtureHistory.LegalFold | backend/app/projections/reducer.py:7-89 | folding a legal history is finished exactly when it contains full time, and its version never exceeds the number of events |
| FixtureHistory.KindsAreClosed | backend/app/providers/football/ingestion.py:131-178 | no stage event stands in a legal history without all stages before it |
| FixtureHistory.ScoredCloses | backend/app/providers/football/ingestion.py:239-265 | generic goals raise the counted score to the reported one, or leave it above for a correction, with fresh identities |
| FixtureHistory.AbsorbAllRuns | backend/app/providers/football/ingestion.py:201-237 | absorbing the sorted event array keeps log, score, stages and ids in step |
| FixtureSnapshots.ChronologicalSorts | backend/app/providers/football/ingestion.py:202-202 | of two processed events the earlier has the lower minute, or the same and no higher identity; none is lost and none added, and events with one sort key stay in the order in which the provider listed them |
| FixtureCheckpoints.DiffIsAFixpoint | backend/app/providers/football/ingestion.py:36-325 | the same snapshot on the resulting checkpoint emits nothing and changes only the observation time |
| FixtureCheckpoints.CheckpointsNeverRegress | backend/app/providers/football/ingestion.py:56-67 | between any two points of any run of polls status rank, minute, version and event ids never fall, a terminal checkpoint stays terminal, and a verified full time stays verified |
| FixtureCheckpoints.StaleSnapshotsKeepTheScore | backend/app/providers/football/ingestion.py:58-61 | after any run of polls a snapshot with an earlier minute or a lower status leaves the checkpoint score alone, whatever goals it lists, and before full time the projected score too |
| FixtureCheckpoints.VerificationIsFinal | backend/app/providers/football/ingestion.py:294-298 | between any two points of any run of polls a pending fixture has emitted full time, stays pending exactly until a snapshot verifies it, and never becomes pending again |
| FixtureCheckpoints.LateGoalsEscapeTheProjection | backend/app/providers/football/ingestion.py:254-265 | a goal reported after full time moves the checkpoint score but not the projected one, shown on two snapshots |
| FixtureCourse.TheCourseIsFollowed | backend/app/providers/football/ingestion.py:13-67 | for every checkpoint and snapshot: the status is the reported one exactly when it follows on in the course of a match, written out status by status; each side of the score is the reported value, unless the snapshot lies behind in minute or status; the minute is the later one, and terminal are exactly the final and called-off codes |
| FixtureCourse.StatusIsTheFurthest | backend/app/providers/football/ingestion.py:56-67 | after any run of polls the status is that of the last poll that no other passes in the course of a match, and the minute the latest of all polls |
| FixtureCourse.ScoreIsTheLastReport | backend/app/providers/football/ingestion.py:244-248 | after any run of polls the score of each side is the last value reported by a poll that did not lie behind the polls before it |
| FixtureCourse.TheRestIsSaved | backend/app/providers/football/ingestion.py:294-325 | kickoff, observation time, announcement and pending verification of the saved checkpoint, from the fields of old checkpoint and snapshot |
| FixtureOutcome.EventsComeInTurn | backend/app/providers/football/ingestion.py:183-304 | for every checkpoint and snapshot the events stand in one order: announcement, kickoff, provider events by minute with each stage before the first event that proves it, generic home goals, away goals, correction, full time; versions count on and each payload carries the score so far |
| FixtureOutcome.EventsCarryTheirFacts | backend/app/providers/football/ingestion.py:72-124 | kind, minute, clock, side and score of every emitted event, by what its key stands for: fixed minutes for stages, the fields of the retold provider event with yellow, red and annulled goals told apart, the reported score for correction and full time |
| FixtureOutcome.EventsAreTheNews | backend/app/providers/football/ingestion.py:126-237 | a stage event comes exactly when the status has passed the stage and the checkpoint has not recorded it; a provider event exactly when it tells something, carries the side it needs and is not known |
| FixtureOutcome.GoalsFillTheScore | backend/app/providers/football/ingestion.py:244-292 | there is a generic goal for each number of either side from the counted to the reported score, and no other; a correction comes exactly when more was counted than reported |
| FixtureOutcome.SchedulesAreTheNews | backend/app/providers/football/ingestion.py:183-191 | a schedule comes exactly for a new kickoff time while announcing is on |
| FixtureOutcome.TheRecordIsKept | backend/app/providers/football/ingestion.py:298-325 | stages, event ids and version of the saved checkpoint: what was recorded before and what the status and the snapshot add |
| FixtureStatus.DiffDecidesStatus | backend/app/providers/football/ingestion.py:183-195 | for every faithful checkpoint and snapshot: the projection is scheduled after the diff exactly when full time was not out, the snapshot settles nothing new, and either its new kickoff is announced or the projection was scheduled before |
| FixtureStatus.StatusOverWholeRuns | backend/app/providers/football/ingestion.py:36-325 | over every run of polls the projection is scheduled exactly when the polls leave the match unstarted, a condition on the polls |
| FixtureStatus.OnlyAMovedKickoffUnstarts | backend/app/providers/football/ingestion.py:183-195 | a match that has kicked off but shows as scheduled had its kickoff moved and announced by some poll, and every poll since was quiet |
| FixtureStatus.MovedKickoffUnstartsTheMatch | backend/app/providers/football/ingestion.py:183-195 | two polls from nothing, in the first half, the second with a moved kickoff, leave a checkpoint in play and a projection that is scheduled |
| FixtureStatus.FulltimeComesFromStatus | backend/app/providers/football/ingestion.py:294-298 | full time is on record after a diff exactly when it was before or the effective status says so |
| FixtureDiffer.DiffFixture | backend/app/providers/football/ingestion.py:36-325 | the diff as written, with its nested updates, computes the outcome of which FixtureOutcome and FixtureCourse tell every event and every checkpoint field, and FixtureHistory and FixtureRuns the properties of whole runs |
| FixtureDiffer.Differ.Emit | backend/app/providers/football/ingestion.py:72-124 | one emission advances version and running score, and appends one event with clamped minutes |
| FixtureDiffer.Differ.AbsorbEvents | backend/app/providers/football/ingestion.py:201-237 | the loop over the sorted events equals absorbing them all |
| FixtureDiffer.Differ.AddScoreGoals | backend/app/providers/football/ingestion.py:254-265 | the loop over missing goal numbers equals scoring them one by one |
| MatchReducer.ReduceMatchState | backend/app/projections/reducer.py:7-89 | the reducer as written, the refused goal without a side included, computes the step whose folds MatchStory tells from the list of events: status, phase, score, minute and version |
| MatchReducer.ReachableStatesAreWellPhased | backend/app/projections/reducer.py:39-88 | whatever the events, scheduled goes with pre-match, halftime with halftime, finished with full time, and live with a half, extra time or penalties |
| MatchReducer.FoldNeverRegresses | backend/app/projections/reducer.py:10-38 | over any further events version and minute never fall and a finished match stays finished |
| MatchReducer.OnlyCorrectionsMoveAFinalScore | backend/app/projections/reducer.py:15-20 | after full time the state is untouched or carries the score of an accepted correction |
| MatchStory.StatusIsTold | backend/app/projections/reducer.py:39-88 | for any list of events the last stage event that counts decides status and phase; after a kickoff a counted goal of minute 45 or later shows the second half; before any stage the first goal, card or substitution shows play, in the half that the clock says; a schedule sends both back |
| MatchStory.ScoreIsTold | backend/app/projections/reducer.py:45-62 | for any list of events the score is the last counted correction and the goals counted after it, or all counted goals |
| MatchStory.MinuteIsTold | backend/app/projections/reducer.py:29-88 | for any list of events the minute is the latest that a counted event tells, with at least 90 for extra time and 120 for penalties |
| MatchStory.VersionIsTold | backend/app/projections/reducer.py:15-38 | a row exists from the first counted event on and has the version of the last one |
| MatchStory.LegalEventsCount | backend/app/projections/reducer.py:15-20 | in the log of any run of polls an event counts exactly when it precedes full time, is full time, or is a correction |
| MatchStory.RecordDecidesPhase | backend/app/projections/reducer.py:39-88 | after any run of polls that moved no kickoff once the match had begun, the furthest stage of the checkpoint decides status and phase of the projected log until full time: penalties, extra time, second half and halftime, each with its own |
| FootballStore.IngestsStayConsistent | backend/app/providers/football/store.py:87-183 | after any run of ingests the pending index is the set of fixtures whose checkpoint is pending, each checkpoint is faithful to its stored events, and the next ingest stores every event it emits |
| FootballStore.FreshEventsAreAllStored | backend/app/providers/football/store.py:130-132 | a legal extension of a stored log is stored whole: no dedupe key suppresses any of it |
| FootballStore.IngestAllKeepsConsistent | backend/app/providers/football/store.py:117-149 | ingesting any list of snapshots keeps checkpoints, logs and pending index consistent, and counts what it stores |
| FootballStore.BaselineIsQuiet | backend/app/providers/football/store.py:109-129 | a schedule is announced exactly when its kickoff is new and the fixture is not first met by the establishing synchronisation |
| FootballStore.OnlyTheFirstIngestIsQuiet | backend/app/providers/football/store.py:93-183 | over any run of ingests, an empty one included, only the first is quiet: afterwards the first sight of a fixture is announced, and a known fixture exactly when its kickoff moves |
| FootballStore.BaselineSinceTheFirst | backend/app/providers/football/store.py:165-209 | after any run of ingests the baseline marker tells the number of fixtures of the first one |
| FootballStore.EachSnapshotIsCounted | backend/app/providers/football/store.py:117-149 | each snapshot counts for as many events as the log of its fixture grows by |
| FootballStore.FootballCheckpointStore.IngestBatch | backend/app/providers/football/store.py:87-183 | the transaction as written equals ingesting the snapshots one by one, each reading the checkpoint that the one before left, the empty baseline included, and returns the number of new events |
| FootballStore.FootballCheckpointStore.IngestObservation | backend/app/providers/football/store.py:117-149 | one snapshot overwrites the checkpoint, stores the events and adds to or discards from the pending index |
| Pipeline.NothingIsLost | backend/app/outbox/publisher.py:56-117 | in every interleaving of ingestion, any number of publishers that claim, send, mark, fail, crash and overlap, consumption and retention, a stored event that is not projected is unpublished or has a broker record at or after the committed offset; it has exactly one outbox row |
| Pipeline.QuietMeansProjected | backend/app/projections/projector.py:183-191 | when every row is published and every offset committed, every stored event is projected and on the timeline |
| Pipeline.PublicationIsFinal | backend/app/outbox/publisher.py:84-90 | between any two states of a run a set publication time and the event of its row stay as they are while the row exists |
| Pipeline.EffectsHappenOnce | backend/app/projections/projector.py:25-92 | for any deliveries with duplicates, replays and restarts the timeline holds each processed event once in cursor order, and each match row is the fold of the events entered for it since it was last pruned |
| Pipeline.RetiredNeverReturns | backend/app/events/repository.py:18-27 | once retired, an event is never stored or projected again, whatever late broker copies arrive, and its dedupe key is refused |
| Pipeline.StepsKeepSystem | backend/app/outbox/publisher.py:56-117 | every step keeps the whole invariant of store, claims, broker log and consumer offsets |
| Pipeline.PublisherStaysOk | backend/app/outbox/publisher.py:81-108 | a published row, and the row of an acknowledged send, stays safe: handled, or in the log past the committed offset |
| Pipeline.ConsumerStaysOk | backend/app/projections/projector.py:183-191 | everything below a committed offset is handled, and everything below the local position is handled or in the batch |
| Pipeline.RetiredAlong | backend/app/maintenance/retention.py:229-246 | a tombstone, once written, is in every later state |
| EventInvariants.TimelineIsProcessedOnce | backend/app/storage/models.py:124-143 | timeline ids are the processed ids, each once, cursors ascending |
| EventInvariants.PersistKeepsStore | backend/app/events/repository.py:16-66 | an insert keeps keys unique among live and retired events, one outbox row per event, and all projections |
| EventInvariants.PersistKeepsOutbox | backend/app/events/repository.py:28-43 | event and outbox row are inserted together or not at all |
| EventInvariants.ProjectKeepsStore | backend/app/projections/projector.py:25-92 | a projection, refused or not, keeps the store consistent with its history |
| EventInvariants.ProjectKeepsMatches | backend/app/projections/projector.py:41-82 | the match row after a projection is the fold of the events entered so far |
| EventInvariants.RetireKeepsStore | backend/app/maintenance/retention.py:229-250 | a retention batch, cascade included, keeps the store consistent |
| EventInvariants.KeepSound | backend/app/maintenance/retention.py:244-246 | removing events from the timeline keeps the rest in order, once each |
| OutboxClaims.ClaimsHoldForThirtySeconds | backend/app/outbox/publisher.py:60-76 | a claimed row is claimable again exactly when 30 seconds have passed, and no pass takes it before |
| OutboxClaims.LowestRowsGoFirst | backend/app/outbox/publisher.py:70-71 | a claimable row is left behind only by a full claim of lower row ids |
| OutboxClaims.OutcomesDecideTheNextClaim | backend/app/outbox/publisher.py:84-108 | a marked row is never claimed again; a failed one at once, with its attempt counted |
| PipelineRuntime.EventPipeline.PersistEventAndOutbox | backend/app/events/repository.py:16-66 | the insert as written, for any event: event and outbox row are added together or nothing changes, it fails exactly when the key is free and the id is not, and in every other case the key is taken afterwards; with a fresh id it is the persist step |
| Pipeline.KeysAreAdmittedOnce | backend/app/events/repository.py:18-65 | over any run no two events are ever stored under one dedupe key, and whatever carries a key that was ever stored is refused as a live or a retired duplicate and changes nothing |
| PipelineRuntime.EventPipeline.SelectRows | backend/app/outbox/publisher.py:62-72 | the query returns at most `limit` rows, upwards, all unpublished and not claimed within the last thirty seconds, and leaves such a row out only when it is full of lower ones |
| PipelineRuntime.EventPipeline.ClaimPending | backend/app/outbox/publisher.py:57-77 | the claiming transaction as written is the claim step |
| PipelineRuntime.EventPipeline.Deliver | backend/app/outbox/publisher.py:81-108 | sending and marking one row, or its failure before or after the broker took the record, are the steps of the machine |
| PipelineRuntime.EventPipeline.PublishPendingOnce | backend/app/outbox/publisher.py:56-133 | one pass claims, then deals with every claim in order, goes on after failures and returns the number of claims that were delivered |
| PipelineRuntime.PassIsTold | backend/app/outbox/publisher.py:79-108 | for any answers of the broker each claimed row ends published at the time of its mark, or open with one more attempt, all other rows and tables stay as they were, and each partition has got its records in the order of the claims |
| PipelineRuntime.EventPipeline.ProcessCanonicalEvent | backend/app/projections/projector.py:25-92 | the transaction as written is the projection step of the machine, skipping missing and processed events and rolling back on a refused event; MatchProvenance tells what the row then names |
| MatchProvenance.RowsNameTheirEvent | backend/app/projections/reducer.py:34-38 | in every reachable state a match row carries the id of the last event since pruning whose projection changed it, and the time of that projection; that event is in the record of applied events at that place, and no step since has changed the row |
| MatchProvenance.GuardedRowsKeepTheirEvent | backend/app/maintenance/retention.py:71-79 | no retention batch takes a row that is recent, in play or active, nor the event that it names |
| PipelineRuntime.EventPipeline.ProjectorRound | backend/app/projections/projector.py:182-191 | one turn fetches from every partition, projects record by record and commits only after the whole batch; a refusal restarts from the committed offsets |
| PipelineRuntime.EventPipeline.SelectRetired | backend/app/maintenance/retention.py:143-175 | the query returns the oldest eligible events, as many as the batch allows |
| PipelineRuntime.EventPipeline.SelectStaleMatches | backend/app/maintenance/retention.py:202-227 | the loop over the football events of each stale subject finds the rows that leave with the batch |
| PipelineRuntime.EventPipeline.ApplyRetention | backend/app/maintenance/retention.py:44-264 | one batch as written: refused for less than 30 days or an empty batch, reported with all its counters, and applied unless it is a dry run |
| PipelineRuntime.OldEventsAreAccountedFor | backend/app/maintenance/retention.py:80-142 | each event older than the cutoff is either eligible or counted as protected, unpublished, unprojected or last of its match, never both, so the counters of a report add up to the old events or more |
| PipelineRuntime.CountsSayWhy | backend/app/maintenance/retention.py:80-142 | each of the four counts is the number of old events that are unpublished, published and not projected, of a match in play or active, or last of a row that is recent, in play or active |
| PipelineRuntime.ReportTellsTheBatch | backend/app/maintenance/retention.py:228-264 | the reported numbers are those by which the batch shrinks events, timeline and match rows, and a dry run reports none as removed |
| PipelineRuntime.DeliveriesKeepSystem | backend/app/outbox/publisher.py:81-108 | any answers of the broker to a whole pass keep the invariant |
| RetentionBatches.BatchesRetireTheSameEvents | backend/app/maintenance/retention.py:143-250 | for a fixed cutoff, repeated batches of any size end with nothing eligible and remove exactly what one unbounded batch removes, tombstones, outbox, timeline and processed rows alike |
| RetentionBatches.ReachableBatchesAgree | backend/app/maintenance/retention.py:143-250 | the same for every store that satisfies the invariant of reachable states |
| RetentionBatches.EligibilityUnmoved | backend/app/maintenance/retention.py:66-79 | retiring events, with their match rows, leaves every other event exactly as eligible as before |
| RetentionBatches.RetentionSparesTheRest | backend/app/maintenance/retention.py:143-175 | an event that leaves is older than the cutoff, published and projected, of no match in play or active, and named by no row that is recent, in play or active; a batch takes at most its limit and leaves each key in a tombstone |
| RetentionBatches.OnlyFullBatchesSpare | backend/app/maintenance/retention.py:143-175 | an event that may leave stays only when the batch is full of events that are no younger |
| RetentionBatches.RowsGoWithTheirMatch | backend/app/maintenance/retention.py:202-227 | a batch prunes a match row exactly when it takes the event that the row names and the last of the football events of its match; such a row is old, not in play and not active |
| RetentionBatches.RowsLeaveWithTheirLastEvent | backend/app/maintenance/retention.py:202-227 | a match row is pruned exactly when it is stale and its last event leaves in the same batch as the last of its football events |
| RetentionBatches.SmallBatchesMayKeepARow | backend/app/maintenance/retention.py:202-227 | a concrete store where batches of one event keep a match row that a batch of two removes |
| FirstDelivery.EffectsAreFirstCopies | backend/app/projections/projector.py:25-92 | in every run whose sends respect the key hash, with failed sends, crashes, several publishers, duplicates and projector restarts: what took effect of a partition is the first copy of each record handled so far, once each, in log order |
| FirstDelivery.FirstCopiesTakeEffect | backend/app/projections/projector.py:30-40 | a delivered record takes effect exactly when no copy of it took effect before |
| FirstDelivery.OrderHoldsUnlessOvertaken | backend/app/outbox/publisher.py:70-117 | in every such run the first records of the events of a subject stand in stored order, without a hole, exactly when no send overtook one of them |
| FirstDelivery.EffectsKeepStoredOrder | backend/app/projections/projector.py:25-92 | as long as no send overtook, the football events of a subject that took effect are the first ones stored for it, in order |
| FirstDelivery.EffectsAreOrderedExactly | backend/app/projections/projector.py:25-92 | once the partition is consumed, the effects of a subject are a prefix of its stored events exactly when no send overtook one: nothing later repairs the order |
| OrderedDelivery.OrderlyRunsNeverOvertake | backend/app/outbox/publisher.py:81-117 | one publisher that meets no failure and does not crash overtakes nothing, so the order of effects holds for it |
| OrderedDelivery.OrderlyRunsStayInOrder | backend/app/outbox/publisher.py:81-108 | with one publisher that meets no failure and does not crash, each partition holds exactly the stored events routed to it, in order, up to the number of sends |
| OrderedDelivery.ClaimsTheNext | backend/app/outbox/publisher.py:62-76 | a claim takes the next unsent rows without a hole |
| OrderedDelivery.AFailureOvertakes | backend/app/outbox/publisher.py:100-108 | after a failed send the next record enters the log while the failed row waits unpublished |
| OrderedDelivery.OvertakenEventsAreLost | backend/app/projections/reducer.py:10-11 | an event that comes after a newer one of a running match is recorded but changes no match row |
| Overtaking.OneFailureLosesAGoal | backend/app/outbox/publisher.py:81-108 | a run with one failed send, in which every event is in the end published, committed, processed and on the timeline, but the match row shows one goal where the stored events make two |
| EndToEnd.RowFollowsFirstCopies | backend/app/projections/projector.py:41-82 | in every run whose sends respect the key hash a match row is the fold of the first copies handled since its last pruning, whatever failed or was repeated |
| EndToEnd.RowFollowsLog | backend/app/projections/projector.py:41-82 | as long as no send overtook, a match row is the fold of a stretch of the events stored for the match, from its last pruning or the first |
| EndToEnd.RowAgreesWithPolls | backend/app/providers/football/ingestion.py:244-325 | from snapshots through store, broker and projector, with failures, crashes and duplicates but no overtaking: the stored events are those of the polls, the row shows the score of the last event in effect up to full time, and once all are in effect it is finished exactly when full time was emitted, shows the checkpoint score exactly when the polls are synchronised, and is scheduled exactly when they leave the match unstarted |
| StoredLog.StoredIsFixtureLog | backend/app/events/repository.py:16-66 | in every run the football events stored for a subject are, in stored order, what the fixture store keeps of the events offered for it, duplicates suppressed, whatever is retired in between |
| StoredLog.InsertsAgree | backend/app/events/repository.py:16-66 | the insert of the pipeline and that of the fixture store suppress the same events |
| Realtime.QueueIsBoundedAndOrdered | backend/app/realtime/manager.py:12-35 | under any mix of publications and reads a queue holds at most 100 messages, in publication order, and each publication is kept or counted as an overflow |
| Realtime.OverflowsAtAHundred | backend/app/realtime/manager.py:22-35 | in every reachable state a publication overflows exactly when a hundred messages wait, and then the oldest and the new one give way to one marker |
| Realtime.NoSilentGap | backend/app/realtime/manager.py:22-33 | a lost message is followed by a marker, queued or read, with only later messages behind it, even if earlier markers were dropped; without an overflow nothing is lost and no marker appears |
| Realtime.RealtimeManager.PublishMessage | backend/app/realtime/manager.py:22-35 | each client queue gets its own offer, and the overflow count grows by the number of full queues |
| Realtime.RealtimeManager.Subscribe | backend/app/realtime/manager.py:14-17 | a new empty queue joins the clients |
| Realtime.RealtimeManager.Unsubscribe | backend/app/realtime/manager.py:19-20 | the queue leaves the clients |
| Recovery.NoRowIsMissed | backend/app/api/routes.py:809-856 | over any run of commits, publications, failed ones included, restarts, connects, replays, drains, refreshes and prunes, of the rows at or below the client cursor exactly the dropped ones were neither accepted nor lie under an applied watermark, on its page or behind it; each of these was taken by an overflow or a failed publication before the client had come as far |
| Recovery.AcceptedOnce | web/src/hooks/useLivePulse.ts:179-182 | accepted cursors strictly increase up to the client cursor, so none is accepted twice |
| Recovery.AppliedRefreshHeals | web/src/hooks/useLivePulse.ts:83-91 | a refresh that is applied covers every row at or below the cursor, dropped ones included |
| Recovery.CaughtUp | backend/app/api/routes.py:813-856 | for a client that has received all messages of its socket every row of the table that was not dropped is covered and at or below its cursor, and no dropped row is covered |
| Recovery.PageHasNoHole | backend/app/api/routes.py:743-755 | the watermark of a table that is read first and a page that is read afterwards: whatever is committed or pruned before, between and after, each row up to the watermark is on the page or older than all of it |
| Recovery.WatermarkIsTheNewest | backend/app/api/routes.py:743-755 | the first read notes the newest row, and the watermark is the newest of what was noted and what the page shows, so that no row of the table lies above it |
| Recovery.PageHoldsTheNewest | backend/app/api/routes.py:737-747 | a page is all rows up to forty, and of more the forty newest |
| Recovery.ReplaysStartAtTheCursor | backend/app/api/routes.py:825-850 | a connection resumes from the cursor of the client, and its replay is each row past it, once and upwards |
| Recovery.CursorsPastTheTableAreTold | backend/app/api/routes.py:813-824 | a client whose cursor lies past the whole table is told to refresh and gets no replay; any other gets one |
| Recovery.ReversedReadsLeaveAHole | backend/app/api/routes.py:743-755 | why the order of the reads matters: page first, the watermark would cover every row committed in between, and none of them is on the page or behind it |
| Recovery.StepsKeepWorld | backend/app/api/routes.py:809-856 | every step keeps rows, stream, refreshes and accepted cursors consistent |
| Recovery.DeliversReplay | backend/app/api/routes.py:825-850 | subscribing before querying: the replay and the queue behind it hold every row past the cursor, in order |
| Recovery.DeliversOverflowed | backend/app/realtime/manager.py:24-33 | an overflow loses only the queue head and the new message, where the client lacks them |
| Recovery.ADiscardedRefreshLeavesAHole | web/src/hooks/useLivePulse.ts:86-182 | a refresh outdated by an item leaves a dropped row below the cursor and uncovered, with no other refresh in flight |
| RecoveryHole.OverflowsMayHideARow | web/src/hooks/useLivePulse.ts:83-196 | a run that ends with nothing left to read and no refresh in flight, while a row of the table below the client cursor was neither accepted nor fetched |
| RecoveryHole.AFailedPublicationHidesARow | backend/app/projections/projector.py:24-125 | a run in which a row is committed but its publication fails, and its redelivery returns early: a listening client moves past it with the next row, without an overflow or a marker |
| PulseClient.VersionsNeverGoBack | web/src/hooks/useLivePulse.ts:8-35 | while one match stays on screen its version never falls, however answers and messages interleave |
| PulseClient.UpsertKeepsNewest | web/src/hooks/useLivePulse.ts:37-45 | an upsert keeps the list in order of falling timestamp, then cursor, and free of repeats; it drops nothing below 100 items, and above that one item that is no newer than any kept one; an item newer than all shown stands first |
| PulseClient.PulseHook.OnItem | web/src/hooks/useLivePulse.ts:178-209 | an item message as handled: stale cursors change nothing; a new one moves the cursor, outdates all refreshes, starts a state refresh and enters the list, which stays newest first with the newest item in front; its match replaces the one on screen unless that is another or newer |
| PulseClient.PulseHook.FinishRefresh | web/src/hooks/useLivePulse.ts:85-90 | a refresh is applied only if no other began and no item came since; then the list is the fetched one, newest first, and an older version of the match on screen is refused |
| PulseClient.RefreshedIsLatestFirst | web/src/hooks/useLivePulse.ts:37-45 | a refreshed list holds exactly the fetched items, newest first |
| PulseClient.PulseHook.BeginRefresh | web/src/hooks/useLivePulse.ts:83-84 | a refresh takes a new generation |
| PulseClient.PulseHook.FinishStateRefresh | web/src/hooks/useLivePulse.ts:78-82 | an outdated answer changes nothing; after a current one the screen shows that answer or what it had, for one match a version no older than either, and for another match the answer |
| PulseClient.PulseHook.OnGap | web/src/hooks/useLivePulse.ts:168-177 | a resync marker starts a refresh |
| PollDelay.NextPollDelay | backend/app/providers/scheduler.py:31-68 | the delay as written equals its specification, with the four refusals |
| PollDelay.Doubled | backend/app/providers/scheduler.py:52-55 | the loop with early exit doubles once for each failure after the first, up to the cap |
| PollDelay.BaseInClosedForm | backend/app/providers/scheduler.py:49-56 | for an interval within the cap the base is the least of interval times 2^(k-1) and the cap |
| PollDelay.DelayGrowsWithFailures | backend/app/providers/scheduler.py:49-60 | for fixed jitter the delay never falls from k to k+1 failures, exactly unless k is 1, the interval exceeds the cap, the jitter shortens, and the minimum does not hide it |
| PollDelay.TheFirstFailureMayWaitLonger | backend/app/providers/scheduler.py:49-60 | an interval of twice the cap with jitter that halves waits 1 s after the first failure and half a second after the second |
| PollDelay.DelayIsBounded | backend/app/providers/scheduler.py:57-68 | the delay is at least a thousandth of a second, after a failure at most the cap (or that minimum) unless Retry-After asks for more, and never earlier than Retry-After |
| PollDelay.JitterSpreadsTheDelay | backend/app/providers/scheduler.py:57-60 | within its bounds the delay is the base shortened by the ratio at random value 0, the base at one half, and lengthened by the ratio at 1 |
| PollDelay.RefusalsAreExact | backend/app/providers/scheduler.py:43-66 | each of the refusals comes exactly for its own inputs, in the order of the checks, and nothing else is refused |
| PollScheduler.PollsAreBounded | backend/app/providers/scheduler.py:126-138 | in every interleaving at most `max_concurrency` polls are inside the semaphore, at most one observes each source, and every observer is inside the semaphore |
| PollScheduler.NoDeadlock | backend/app/providers/scheduler.py:257-264 | while polls remain one can proceed by itself, and each step lessens the work that is left |
| PollScheduler.PermitsAreConserved | backend/app/providers/scheduler.py:176-180 | free permits and holders always add up to the same number, through success, failure and cancellation |
| PollScheduler.StepsDoWork | backend/app/providers/scheduler.py:169-190 | every step but an arrival strictly lessens the remaining work, so polls without newcomers end |
| GmailSync.IncrementalSync | backend/app/providers/gmail/sync.py:135-192 | told over the records: a delta says removed, with the last such record, exactly when a numbered record removes its message; else added when one adds it; else label change, with the last numbered record that names it; each message with metadata that the records name has exactly one; changes come by message id, then removals in the order of their first naming |
| GmailSync.ReadHistory | backend/app/providers/gmail/sync.py:142-167 | the loops collect additions, latest label changes and latest deletions as specified |
| GmailSync.ReplayStoresNothing | backend/app/providers/gmail/sync.py:281-362 | ingesting a batch with one delta per message a second time stores no new event |
| GmailSync.RepeatedMessagesMayStoreMore | backend/app/providers/gmail/sync.py:328-346 | why one delta for each message is needed, which every batch of IncrementalSync has: with two label deltas for one message a replay would store an event that the first time did not |
| GmailSync.StatesAreBounded | backend/app/providers/gmail/sync.py:453-469 | after every commit at most 500 message states remain, none is dropped below that and exactly 500 stay of more, and a kept state is never written before a dropped one |
| GmailSync.LatestFirstTrims | backend/app/providers/gmail/sync.py:453-469 | deleting what the query by update time and row id lists after its 500th row keeps exactly the states with fewer than 500 later ones |
| GmailSync.MailStore.IngestBatch | backend/app/providers/gmail/sync.py:281-369 | the ingestion as written, its sort and slice included, equals ingesting delta by delta and keeping the states with fewer than 500 later ones |
| GmailSync.MailStore.IngestOne | backend/app/providers/gmail/sync.py:285-360 | one delta stores its keys and sets or deletes the message state |
| GmailSync.BatchStoresItsNews | backend/app/providers/gmail/sync.py:285-360 | a batch with one delta per message stores exactly the keys that tell of its deltas, two for a new message, one for a label change that differs from the known flags, one for a removal; each delta leaves the state it reports and no other message is touched |
| GithubPaths.TwoPathsOneHistory | backend/app/providers/github/reconcile.py:97-253 | for one snapshot of a pull request, a run attempt or a deployment status, webhooks and reconciliation give the same dedupe keys and checkpoints exactly when the listing has the merge time of a merged pull request and a start time with an offset for a started run |
| GithubPaths.RunsAgree | backend/app/providers/github/events.py:120-190 | the same for run attempts, conclusions that neither path reports included |
| GithubPaths.ChangesSayWhatTheyAre | backend/app/providers/github/events.py:60-228 | on both paths the event type, checkpoint and key of every change fit each other: success completes and every other reported conclusion fails, a successful deployment completes and a failed or errored one fails, no id is below one |
| GithubPaths.DeliveryTells | backend/app/providers/github/events.py:60-228 | which dedupe keys a delivery gives, key by key from the fields of the payload, in both directions |
| GithubPaths.DeliveriesAreDated | backend/app/providers/github/events.py:60-239 | a delivery is dated by the first of its timestamps that can be read, with or without offset, and else by its receipt |
| GithubPaths.TimesAgree | backend/app/providers/github/reconcile.py:97-253 | of a snapshot whose times all have an offset both paths give one key with one event type at one time |
| GithubPaths.NaiveStartsAreNotListed | backend/app/providers/github/reconcile.py:175-210 | a run in progress whose start time has no offset: the webhook gives its start key, the listing nothing, and the histories differ |
| GithubPaths.UnreportedRunsStartByListing | backend/app/providers/github/reconcile.py:175-210 | a finished run with a conclusion that is not reported: the listing gives its start, the completed webhook nothing |
| GithubPaths.OrderDoesNotMatter | backend/app/providers/github/storage.py:64-122 | in any order, with any repetition and with checkpoints read at any earlier time, deliveries and polls store exactly the keys that occur in any of them, when a checkpoint stands for one key and a delivery id for one content |
| GithubPaths.DeploymentStatusesDependOnOrder | backend/app/providers/github/events.py:199-228 | two statuses of one deployment share a checkpoint, so the order of delivery and poll decides what is stored |
| GithubHistory.CheckpointsStandForOneKey | backend/app/providers/github/events.py:120-228 | two snapshots share a checkpoint under different keys exactly when they contradict each other: two conclusions of one run attempt, or two statuses of one deployment and state |
| GithubHistory.RealReportsAreCoherent | backend/app/providers/github/events.py:60-228 | webhooks and listings of snapshots that do not contradict each other are coherent: in them a checkpoint stands for one key |
| GithubHistory.BothPathsStoreOneHistory | backend/app/providers/github/reconcile.py:62-253 | deliveries and polls of such snapshots, in any causal order, repeated and with checkpoints as old as they may be, store exactly the keys of these snapshots, once each was polled or fully delivered |
| GithubHistory.OrderMattersExactly | backend/app/providers/github/storage.py:64-122 | for two changes with one checkpoint the order of delivery and poll decides what is stored exactly when their keys differ |
| GithubPaths.RepositoryChanges | backend/app/providers/github/reconcile.py:97-253 | the three listing loops produce the changes of every pull request, run and deployment, in order |
| GithubPaths.GithubStore.PersistObservations | backend/app/providers/github/storage.py:64-93 | the loop stores each new key once, counts it, and sets every checkpoint |
| GithubPaths.GithubStore.PersistWebhookDelivery | backend/app/providers/github/storage.py:96-122 | a delivery id is claimed once; a repeated delivery changes nothing |
| GithubPaths.GithubStore.Observe | backend/app/providers/github/reconcile.py:62-69 | a poll keeps exactly the candidates whose checkpoint it did not see |
| WeatherLocations.RecentsAgree | backend/app/providers/weather/locations.py:65-128 | after any selections in order of time the table answers the last five distinct ones, latest first, with the last one selected, and the client list is the same |
| WeatherLocations.OptimisticListIsTheServers | web/src/hooks/useWeatherLocation.ts:71-80 | for any table a later selection moves to the front of what the server answers, as the client assumed, and is among the kept rows |
| WeatherLocations.LocationStore.SelectLocation | backend/app/providers/weather/locations.py:95-128 | the transaction as written leaves the recent rows only, at most five; selected later than all others the location moves to the front, and its own row is dropped, and the selection cleared, exactly when five other rows stand before it |
| WeatherLocations.AnEarlyClockLosesTheSelection | backend/app/providers/weather/locations.py:71-128 | five locations used later than the clock of a sixth: the sixth is gone as soon as it is selected, and nothing is selected |
| WeatherLocations.LocationHook.Select | web/src/hooks/useWeatherLocation.ts:71-78 | the optimistic update moves the location to the front and keeps five |
| WeatherLocations.LocationHook.Choose | web/src/hooks/useWeatherLocation.ts:71-92 | the whole selection: a failure leaves the state as it was before the optimistic update, and the answer of the server shows the list that the client had already shown |

## Left out

- Texts and formats: JSON, timestamps as strings, names, payload texts, key formats and column widths. Keys are datatypes, event ids and identities numbers in the order of their strings, the detail of a card or goal the classes that the code looks for.
- SHA-256 of dedupe keys: a tombstone keeps the key itself, so hash collisions are not modelled. GitHub checkpoint keys keep the repository instead of a shortened digest.
- Isolation levels: every database transaction is one serialisable step. In `persist_event_and_outbox` lookup and insert are separate statements, and a weaker isolation would let a retired key return.
- Event ids: fresh for every event offered to the state machine, as UUIDs are assumed to be; the insert itself is modelled for every id.
- Kafka: partitions are append-only logs with one consumer; broker retention, rebalancing, topic settings and the row limit of one fetch are not modelled. The partition of a record is free, except in a `RoutedRun`, where it is the same for all records of one subject.
- A record that the reducer refuses blocks its batch for ever, in the model as in the code; it is not counted as lost.
- `purge.py` and the demo reset, which delete data on purpose, and the runtime mode check of the retention command.
- Stored JSON that does not decode (checkpoints, pending index, Gmail states), which the code treats as absent.
- Football: fields of the payload that no branch reads (teams, competition, player), and `occurred_at`; unknown status codes have rank zero like the known early ones and are otherwise inert.
- The websocket heartbeat, connection states, reconnect delays and the timers of the hook; `loadOlder` and its paging.
- FootballStore.FootballCheckpointStore.IngestBatch: does not model a batch that names a fixture without a checkpoint row twice, for which the second row violates the unique key; the dictionary by fixture id of the poll source never hands one over.
- EndToEnd.RowAgreesWithPolls: is about rows that were never pruned, because a pruned row starts from nothing; for those EndToEnd.RowFollowsLog gives the stretch of events that the row shows.
- Retention counters are numbers of events; the query counts rows of a join, the same number as every event has one outbox row.
- Several clients of the recovery protocol at once: each has its own queue, and publication treats them alike.
- Timeline items with malformed timestamps, for which the comparison of the hook is no order.
- Scheduler: cadence hooks, health registries and fairness of the semaphore; time is real-valued, without the rounding of `timedelta`.
- Gmail and GitHub API clients, signatures, the list of configured repositories, and the first full scan of a mailbox.
- GithubPaths.TwoPathsOneHistory: about keys and checkpoints only; times and payloads of the two paths differ by design.
- Weather: geocoding, the configured default location and the texts of a location; ids are already in the form of the server.
- Focus scoring, request budgets and all rendering, which are case tables or presentation.
