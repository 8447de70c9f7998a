# Evo Flow: a verified model of its stateful core

Evo Flow runs campaigns and journeys for a CRM. What is hard in it is state that
several parties change while calls fail: executions that Temporal, Postgres and
five HTTP handlers must agree on, caches in two layers and under two keys, locks
and markers that expire, an audience that is checked, stored and cut into
batches, and a circuit breaker in front of the CRM. This project models those
parts and proves what they promise, or exactly when they do not keep it.

Classes carry the fields that the services update, and their methods are proved
against functions on the state before the call. The lemmas then speak about
those functions: about every interleaving, every run of calls, every expiry,
every point at which an awaited call can fail. A remote call ends as `Ok`, as
`Failed`, or as `AckLost`, where the effect took place and the caller sees an
exception all the same.

## Modules

- `ExecutionProtocol` - the campaign execution endpoints as interleaved steps;
  `CampaignsController` - the same handlers as sequential code, each proved to be
  the protocol's run without interleaving; `HandlerOutcomes` - where each endpoint
  ends when it runs alone; `CampaignStatus` - the status column.
- `BaseCache` - the two-layer cache with its id index; `CacheCoherence` - what runs
  of it guarantee; `CacheEffects` - what each call leaves behind; `CacheKeys` - the
  names in Redis; `CacheIsolation` - scopes kept apart by those names.
- `Journeys`, `LinkCache`, `SessionStore` - the services on top; `JourneyChanges`,
  `LinkChanges`, `SessionChanges` - what their requests do, field by field.
- `Idempotency` - markers, locks and trigger claims over time.
- `CircuitBreaker`, `CrmClient` - the breaker and the request loop behind it.
- `SegmentReference` - the search for a segment id in a campaign's steps.
- `ContactsClient`, `CampaignContacts`, `AudienceValidation`,
  `AudienceComputation`, `Batches` - the audience pipeline.
- `RedirectUrl`, `Quantile` - the query merge of a click and the benchmark quantile.

## Where the code does not do what is said of it

All but the last of these are lemmas, with the exact condition or a concrete run.

- The breaker is documented to open after five consecutive failures
  (src/shared/crm-client/crm-client.service.ts:134). It also opens when half of
  at least ten recent calls failed, so calls that alternate between success and
  failure open it: `AlternatingCallsOpen`.
- It is documented to recover after 60 seconds. The client's pre-check refuses
  every request while the state is OPEN, before the breaker could move to
  HALF_OPEN, so an open circuit stays open: `OpenIsForever`.
- A circuit that was opened by its failure rate may stay HALF_OPEN when the trial call
  fails: `TrialDecides`.
- The breaker's own limit of five minutes covers waits between attempts. A 429
  that asks for a longer wait counts as a failure, unless the wait is so long that
  the timer fires at once: `RateLimitedOnceIff`.
- STOPPED is not final when a stop overlaps a pause, or an update that only renames
  the campaign: `AStoppedCampaignIsReopened`, `RenameReopensAStoppedCampaign`.
  `FinalUnderOverlapIff` says exactly when the HTTP handlers keep it final. The
  workers' own UPDATE of the column is outside of that theorem
  (src/modules/temporal/activities/campaign-execution.activities.ts:270-306,
  src/runners/campaign-tracker/services/campaign-tracker.service.ts:171-186).
- An active row can outlive its workflow, and then refuses every later execution:
  `LostInsertLeavesAHollowRow`, `EarlyEndLeavesAHollowRow`, and `BecomesHollowIff`
  for exactly the steps that do this.
- The compensation of a refused or failed pause or resume can leave the last signal
  and the status in disagreement: `AgreesIff`. No fault is needed: after pausing a
  paused campaign the last signal its workflow got is resume,
  `SecondPauseSignalsResume`.
- Workers are not told of a status set by an update, nor of a save whose
  acknowledgement was lost: `ToldIff`.
- Cancelling with the id of a foreign workflow closes the campaign's own row and
  leaves its workflow running: `CancelEndsTheCampaignIff`.
- Hits can exceed requests, because a batch lookup that throws has counted its
  hits but not its requests: `BatchBreaksTheCountIff`.
- A save that is not followed by a cache write (a lost Redis write, a lost
  acknowledgement of the table) leaves a stale copy: `SaveKeepsCoherenceIff`,
  `LostAcknowledgement`, `BrokenUpdateKeepsIff`, `InterruptedUpdateKeepsIff`.
- An update of a link that only the cache still has stores it again:
  `UpdateRevivesALink`.
- Deleting a link leaves its short-code copy: `DeleteKeepsIff`. Updating one cannot
  clear its expiry: `UpdateWritesThePatch`.
- A session field cleared by leaving it undefined vanishes from Redis and stays in
  Postgres: `UpdateAgreesIff`. So a completed wait comes back: `TheOldWaitComesBack`.
- A marking whose answer is lost makes every retry within the hour drop an event
  that nobody processed: `LostMarkIsNeverProcessed`.
- Of contacts that share a key, all are removed if the first one fetched cannot be
  reached, reachable ones included: `KeyIsKeptIff`. A missing address or number is
  reported as invalid, never as missing: `OnlyAbsentContactsMissAField`.
- When the index key expires and one journey is saved, `findActive` serves that
  journey alone: `LoneSaveHidesTheRest`.
- The batch read of journeys (src/modules/cache/services/journey-cache.service.ts:97-101)
  uses a MongoDB operator on a Postgres repository. The model lets a batch read
  either answer correctly or throw, so what is proved holds in both cases.

## Model

| member | source | states |
|---|---|---|
| `ExecutionProtocol.RunKeeps` | src/modules/campaigns/controllers/campaigns.controller.ts:188-285 | every step of every interleaving, with every call failing, succeeding or losing its acknowledgement, keeps the index unique, rows with their campaign, handlers consistent, and each live workflow covered |
| `ExecutionProtocol.LiveWorkflowsAreCovered` | src/modules/campaigns/controllers/campaigns.controller.ts:567-626 | after any run from an empty system a live workflow has an active row, or its execute handler is still between start and insert, or a named step left it behind |
| `ExecutionProtocol.StrandsNothingKeepsNoStrays` | src/modules/campaigns/controllers/campaigns.controller.ts:610-626 | if no start loses its acknowledgement, no compensating cancel fails and no cancel names a foreign workflow, nothing is left behind |
| `ExecutionProtocol.AtMostOneLiveWorkflow` | src/database/migrations/1762200000000-CreateCampaignExecutionsTable.ts:111-115 | at rest, with nothing left behind, a campaign has at most one live workflow |
| `ExecutionProtocol.CancelEndsTheCampaignIff` | src/modules/campaigns/controllers/campaigns.controller.ts:687-716 | a cancel in which every call succeeds ends the campaign's workflow, and leaves none unaccounted for, if and only if it names no workflow or the one in the active row |
| `ExecutionProtocol.StopCanBeUndoneByAnOverlappingPause` | src/modules/campaigns/services/campaigns.service.ts:231-279 | a stop that runs between the load and the save of a pause is overwritten: the campaign ends PAUSED with its cancelled row active again |
| `ExecutionProtocol.FinalUnderOverlapIff` | src/modules/campaigns/services/campaigns.service.ts:183-344 | from any state in which a campaign is STOPPED or COMPLETED, every run of the handlers, updates, schedules and bulk turns included, leaves it so if and only if no handler is about to save another status over it |
| `ExecutionProtocol.HeldPauseIsReached` | src/modules/campaigns/services/campaigns.service.ts:231-244 | a run from a draft campaign on which nothing has happened leads to a pause that holds an older status |
| `ExecutionProtocol.AStoppedCampaignIsReopened` | src/modules/campaigns/services/campaigns.service.ts:231-279 | one run from a draft campaign stops it and then finds it PAUSED, its cancelled row active and no workflow alive |
| `ExecutionProtocol.RenameReopensAStoppedCampaign` | src/modules/campaigns/services/campaigns.service.ts:183-209 | an update that only renames a draft saves the status it loaded: after a stop in between the stopped campaign is a draft again |
| `ExecutionProtocol.BecomesHollowIff` | src/modules/campaigns/controllers/campaigns.controller.ts:567-626 | a step leaves an active row without a live workflow if and only if it ends or cancels the workflow of an active row, inserts the row of a dead one, or makes a closed row of a dead one active again |
| `ExecutionProtocol.ActiveRowsNameLiveWorkflows` | src/modules/campaigns/controllers/campaigns.controller.ts:567-626 | the converse of coverage: after any run an active row that was not so before names a live workflow, or the run contains one of those steps for it |
| `ExecutionProtocol.UntouchedRowsAreLive` | src/modules/campaigns/controllers/campaigns.controller.ts:567-626 | from an empty system, a row that is active and met none of those steps names a live workflow |
| `ExecutionProtocol.HollowRowRefusesExecution` | src/modules/campaigns/controllers/campaigns.controller.ts:567-585 | while such a row is active an execute request of its campaign ends at once and changes nothing |
| `ExecutionProtocol.LostInsertLeavesAHollowRow` | src/modules/campaigns/controllers/campaigns.controller.ts:605-626 | an insert that loses its acknowledgement and a compensating cancel that goes through leave such a row and no workflow |
| `ExecutionProtocol.EarlyEndLeavesAHollowRow` | src/modules/temporal/workflows/campaign-execution.workflow.ts:159-178 | so does a workflow that has handed over and ended before its row is inserted |
| `CampaignsController.CampaignsController.ExecuteCampaign` | src/modules/campaigns/controllers/campaigns.controller.ts:567-626 | the handler with its compensating cancel ends where the protocol's run in which it moves alone ends, with the answer of that run |
| `CampaignsController.CampaignsController.PersistOrRevert` | src/modules/campaigns/services/campaign-executions.service.ts:22-37 | the insert under the partial unique index and the cancel that undoes the start when it fails |
| `CampaignsController.CampaignsController.PauseOrResume` | src/modules/campaigns/controllers/campaigns.controller.ts:188-253 | signal, save, mark and the opposite signal on an exception, as the protocol runs them alone |
| `CampaignsController.CampaignsController.StopOrCancel` | src/modules/campaigns/controllers/campaigns.controller.ts:270-285 | stop and cancel without compensation, as the protocol runs them alone |
| `CampaignsController.CampaignsController.GetActiveExecution` | src/modules/campaigns/services/campaign-executions.service.ts:39-51 | finds the one running or paused row of the campaign |
| `CampaignsController.CampaignsController.UpdateStatus` | src/modules/campaigns/services/campaign-executions.service.ts:62-79 | the row update, refused when it would make a second active row |
| `CampaignsController.PauseOrResumeEnds` | src/modules/campaigns/controllers/campaigns.controller.ts:188-253 | the status of the campaign, that of its execution row, the last signal to the workflow and the answer to the caller, for a pause or a resume in any state and all call outcomes |
| `CampaignsController.AgreesIff` | src/modules/campaigns/controllers/campaigns.controller.ts:188-253 | exactly when the last signal and the campaign's status agree afterwards, in terms of the campaign's guard, the state before and the six outcomes |
| `CampaignsController.FaultFreeAgreesIff` | src/modules/campaigns/controllers/campaigns.controller.ts:188-253 | with no fault and agreement before, the last signal agrees with the status after if and only if the campaign accepts the action or it is a pause of a campaign that is not paused |
| `CampaignsController.SecondPauseSignalsResume` | src/modules/campaigns/controllers/campaigns.controller.ts:205-211 | a second pause is refused, and after its compensation the last signal the workflow got is resume while the campaign is PAUSED |
| `CampaignsController.ResumeWhileSendingSignalsPause` | src/modules/campaigns/controllers/campaigns.controller.ts:246-252 | a resume of a campaign that is sending is refused, and after its compensation the last signal the workflow got is pause while the campaign is SENDING |
| `CampaignsController.SuccessMeansAgreement` | src/modules/campaigns/controllers/campaigns.controller.ts:188-253 | a pause or a resume is answered as a success if and only if the campaign accepts it and the first five calls succeed, and then the last signal and the status agree |
| `HandlerOutcomes.ExecuteEnds` | src/modules/campaigns/controllers/campaigns.controller.ts:567-626 | for any state and all four outcomes: which running row is inserted, which workflow lives, and when the caller is told of a success |
| `HandlerOutcomes.StopOrCancelEnds` | src/modules/campaigns/controllers/campaigns.controller.ts:270-285 | for any state and all five outcomes: the workflow told to end, the campaign STOPPED, the row CANCELLED, each exactly when its call arrives, and the answer |
| `HandlerOutcomes.StopOrCancelOfNothingEnds` | src/modules/campaigns/controllers/campaigns.controller.ts:687-716 | without an execution a stop still stops the campaign, and a cancel that names no workflow is refused |
| `HandlerOutcomes.PauseOrResumeOfNothingEnds` | src/modules/campaigns/controllers/campaigns.controller.ts:188-230 | a pause or a resume without an execution is refused and changes nothing |
| `HandlerOutcomes.EditEnds` | src/modules/campaigns/services/campaigns.service.ts:183-344 | an update, a schedule or a bulk turn saves what it makes of the status it loaded and leaves executions alone |
| `HandlerOutcomes.RefusedEditEnds` | src/modules/campaigns/services/campaigns.service.ts:183-344 | one that the loaded status does not allow changes nothing |
| `CampaignStatus.FinalStatusesStay` | src/modules/campaigns/services/campaigns.service.ts:382-422 | STOPPED and COMPLETED are never left by any run of update, schedule, pause, resume, stop and bulk calls over any campaigns |
| `CampaignStatus.TestAbIsNeverEntered` | src/modules/campaigns/services/campaigns.service.ts:382-422 | no run enters SENDING_TESTAB |
| `CampaignStatus.EnteredOnlyFrom` | src/modules/campaigns/services/campaigns.service.ts:382-422 | at every step of every run PAUSED and COMPLETED are entered from another status only from SENDING, SCHEDULED only from DRAFT |
| `CampaignStatus.SendingComesFirst` | src/modules/campaigns/services/campaigns.service.ts:382-422 | a run from DRAFT to PAUSED or COMPLETED passes through SENDING |
| `CampaignStatus.CampaignsService.Guarded` | src/modules/campaigns/services/campaigns.service.ts:216-279 | schedule, pause, resume and stop: the answer in each case, the stored status and the message |
| `CampaignStatus.CampaignsService.Change` | src/modules/campaigns/services/campaigns.service.ts:183-209 | an update in the order of its checks: missing campaign, name conflict, invalid transition, save |
| `CampaignStatus.TransitionEnds` | src/modules/campaigns/services/campaigns.service.ts:216-279 | the status each guarded call leads to and from which, and the message it publishes |
| `CampaignStatus.UpdateEnds` | src/modules/campaigns/services/campaigns.service.ts:183-209 | an update is stored if and only if its move is one of eleven or none, no other campaign has its name, and the save arrives |
| `CampaignStatus.BrokerDecidesNothing` | src/modules/campaigns/services/campaigns.service.ts:49-72 | over every run what is stored is what the run with a dead broker stores |
| `CampaignStatus.ToldIff` | src/modules/campaigns/services/campaigns.service.ts:49-72 | the workers' latest word on a campaign stays true if and only if nobody was told before, or the call publishes, or its guard, its target or a failed save leaves the status alone |
| `CampaignStatus.ControlsTellTheStatus` | src/modules/campaigns/services/campaigns.service.ts:231-279 | over every run of such calls the latest message about a campaign tells its status |
| `CampaignStatus.CampaignsService.BulkAction` | src/modules/campaigns/services/campaigns.service.ts:302-350 | pause, resume and delete in the order found: statuses, messages and count, or the two refusals |
| `CampaignStatus.BulkEnds` | src/modules/campaigns/services/campaigns.service.ts:321-344 | what a bulk pause, resume or delete leaves of each campaign it found |
| `CampaignStatus.BulkCountIs` | src/modules/campaigns/services/campaigns.service.ts:319-350 | the reported count is the number of found campaigns that had the required status and were saved with an acknowledgement |
| `CampaignStatus.BulkIsOneTurn` | src/modules/campaigns/services/campaigns.service.ts:321-344 | a bulk call does to each campaign it found what one turn would do, whatever becomes of the others |
| `CampaignStatus.NamesStayApart` | src/modules/campaigns/services/campaigns.service.ts:189-200 | no run of updates gives two campaigns one name that is not empty |
| `BaseCache.BaseCacheService.Get` | src/modules/cache/services/base-cache.service.ts:82-132 | answer, layers and counters of a lookup for every combination of failing calls, the catch block included |
| `BaseCache.BaseCacheService.GetMultiple` | src/modules/cache/services/base-cache.service.ts:137-197 | answer, layers and counters of the three loops of a batch, and what is left when it throws |
| `BaseCache.BaseCacheService.GetAll` | src/modules/cache/services/base-cache.service.ts:202-255 | indexed ids through a batch, or the table with index and layers refilled, also after a key of the wrong type was dropped, or nothing when a call fails |
| `BaseCache.BaseCacheService.Put` | src/modules/cache/services/base-cache.service.ts:260-272 | `set`: the value in both layers and the id in the index, each Redis write failing unnoticed |
| `BaseCache.BaseCacheService.Invalidate` | src/modules/cache/services/base-cache.service.ts:306-318 | a delete that throws leaves memory and index alone |
| `BaseCache.BaseCacheService.InvalidateAll` | src/modules/cache/services/base-cache.service.ts:323-341 | drops what the index lists and the index, no more |
| `CacheEffects.LookupGoesDownTheLayers` | src/modules/cache/services/base-cache.service.ts:82-132 | which layer answers a lookup, coherent store or not, what is written into the layers above it, and the one hit and the misses counted |
| `CacheEffects.BatchCountsItsHits` | src/modules/cache/services/base-cache.service.ts:137-197 | of an answered batch each id is a hit or a miss of memory, each miss a hit or a miss of Redis, the table counts the rest that exist, and the answer has one value per hit |
| `CacheEffects.BatchFillsTheLayers` | src/modules/cache/services/base-cache.service.ts:144-190 | key by key, what an answered batch has cached in either layer |
| `CacheEffects.LimitedAll` | src/modules/cache/services/base-cache.service.ts:222-229 | with a limit `getAll` answers the existing ones of the first so many indexed ids, or the first so many rows |
| `CacheEffects.FallingBackRefillsTheCache` | src/modules/cache/services/base-cache.service.ts:207-250 | after a fallback the index lists all rows and both layers have them, also when a key of the wrong type was dropped |
| `CacheEffects.BrokenFallback` | src/modules/cache/services/base-cache.service.ts:207-255 | a fallback that breaks off answers nothing; what it has written by then, by outcome |
| `CacheEffects.SaveWrites` | src/modules/cache/services/base-cache.service.ts:260-272 | a save changes the row, its copies and its index entry, as far as the writes arrive, and nothing else |
| `CacheEffects.InvalidationDrops` | src/modules/cache/services/base-cache.service.ts:306-318 | which of row copy, memory copy and index entry an invalidation drops, by outcome |
| `CacheEffects.ClearDrops` | src/modules/cache/services/base-cache.service.ts:323-341 | it drops copies of listed ids only, and the index last |
| `CacheCoherence.SaveKeepsCoherenceIff` | src/modules/cache/services/base-cache.service.ts:510-523 | after a save all cached copies show the rows if and only if the Redis write arrives, or Redis held nothing for the id, or the same |
| `CacheCoherence.RemoveKeepsCoherenceIff` | src/modules/cache/services/base-cache.service.ts:306-318 | after a removal they do if and only if both deletions happen or had nothing to delete |
| `CacheCoherence.GetIsTransparent` | src/modules/cache/services/base-cache.service.ts:82-132 | on a coherent cache a lookup shows the transformed row, and throws only if both table reads fail |
| `CacheCoherence.LookupsAreTransparent` | src/modules/cache/services/base-cache.service.ts:82-132 | after any run of reads, writes, evictions and expiries in any scopes, with failing Redis reads, a lookup shows the row as it is |
| `CacheCoherence.BatchIsComplete` | src/modules/cache/services/base-cache.service.ts:137-197 | a batch that does not throw answers each existing requested id, once if the request names it once, with its row |
| `CacheCoherence.BatchAnswersRows` | src/modules/cache/services/base-cache.service.ts:137-197 | in what order: memory's ids as requested, then Redis's, then the rest as the table lists them |
| `CacheCoherence.AllIsTheIndexOrEverything` | src/modules/cache/services/base-cache.service.ts:202-255 | `getAll` answers exactly the indexed rows, or all rows when the index is empty, or nothing when a call fails |
| `CacheCoherence.BatchSurplus` | src/modules/cache/services/base-cache.service.ts:192-196 | an answered batch never counts more hits than requests; a throwing one counts its hits and no request |
| `CacheCoherence.BatchBreaksTheCountIff` | src/modules/cache/services/base-cache.service.ts:144-170 | from balanced counters a batch leaves more hits than requests if and only if one of its calls throws after a layer answered some id |
| `CacheCoherence.HitsWithinRequests` | src/modules/cache/services/base-cache.service.ts:570-580 | over every run hits exceed requests by no more than the hits of the batches that threw |
| `CacheCoherence.ScopesAreIsolated` | src/modules/cache/services/base-cache.service.ts:481-495 | no run under other scopes, failures included, changes a scope's cached values or index |
| `CacheIsolation.ScopesAreIsolatedByName` | src/modules/cache/services/base-cache.service.ts:481-495 | the same of the names that Redis compares: with scopes and ids free of colons, no run under other scopes changes what stands under a scope's names or writes to one of them |
| `CacheKeys.SameTextIff` | src/modules/cache/services/base-cache.service.ts:481-495 | two keys of any of the services without colons in their parts have one name if and only if they are equal or one of four listed clashes |
| `CacheKeys.ValueKeysAreDistinct` | src/modules/cache/services/base-cache.service.ts:493-495 | the value keys of a service are told apart by scope and id, and differ from every index key unless an id is "index" |
| `CacheKeys.SplitJoin` | src/modules/cache/services/journey-session-cache.service.ts:361-367 | splitting a key at its colons gives back its parts, whatever the last part contains |
| `CacheKeys.ClashingKeysMeet` | src/modules/cache/services/link-cache.service.ts:196-198 | the listed clashes are real: a scope called "code", "clicks" or "waiting" shares names with those keys |
| `CacheKeys.ColonsMixScopes` | src/modules/cache/services/base-cache.service.ts:487-495 | with a colon in an id, an entity of the shared namespace has the name of one in another scope |
| `Journeys.JourneysService.Create` | src/modules/journeys/journeys.service.ts:40-50 | the row and then the cache, or neither, or the row alone when its acknowledgement is lost |
| `Journeys.JourneysService.Update` | src/modules/journeys/journeys.service.ts:116-129 | lookup through the cache, the patch, the row, the cache |
| `Journeys.JourneysService.ToggleActive` | src/modules/journeys/journeys.service.ts:139-149 | the same with the active flag flipped |
| `Journeys.JourneysService.UpdateJourneyVariables` | src/modules/journeys/journeys.service.ts:412-437 | the same with the variables replaced |
| `Journeys.JourneysService.Remove` | src/modules/journeys/journeys.service.ts:131-137 | the row and then the invalidation, which may throw |
| `Journeys.JourneysService.Duplicate` | src/modules/journeys/journeys.service.ts:151-164 | an inactive copy under a fresh id, not cached |
| `Journeys.JourneysService.FindOne` | src/modules/journeys/journeys.service.ts:86-114 | the journey rebuilt from the cached one, or not found, or thrown |
| `Journeys.JourneysService.FindActive` | src/modules/journeys/journeys.service.ts:179-231 | the active ones of the cache, or the table with the cache refilled |
| `Journeys.JourneysService.WarmActiveJourneysCache` | src/modules/journeys/journeys.service.ts:240-261 | caches every active row, whatever single writes fail |
| `JourneyChanges.LookupShowsTheRow` | src/modules/journeys/journeys.service.ts:86-114 | `findOne` shows the row field by field, with its triggers parsed, and says not found only without a row |
| `JourneyChanges.ChangeWritesTheRow` | src/modules/journeys/journeys.service.ts:116-149 | after a change the named fields have the given values, a toggle has flipped the flag, all other fields say what they said, and the answer is the row |
| `JourneyChanges.ChangeIsWhatLookupsShow` | src/modules/journeys/journeys.service.ts:116-149 | later lookups show the journey so changed |
| `JourneyChanges.ToggleEntersOrLeaves` | src/modules/journeys/journeys.service.ts:139-149 | a toggle moves the journey into the answer of `findActive` or out of it, and moves no other |
| `JourneyChanges.TwoTogglesRestore` | src/modules/journeys/journeys.service.ts:139-149 | two toggles restore what the row says |
| `JourneyChanges.CreateStoresTheJourney` | src/modules/journeys/journeys.service.ts:40-50 | a created journey is in the table, in Redis and in the index, by outcome |
| `JourneyChanges.DuplicateIsAnInactiveCopy` | src/modules/journeys/journeys.service.ts:151-164 | the copy is inactive, named so, otherwise the journey, and not cached |
| `JourneyChanges.RemoveForgetsTheJourney` | src/modules/journeys/journeys.service.ts:131-137 | what is left of a removed journey in table, Redis and index, by outcome |
| `JourneyChanges.WarmingCountsTheActive` | src/modules/journeys/journeys.service.ts:240-261 | the reported count is the number of active rows |
| `JourneyChanges.WarmingCachesTheActive` | src/modules/journeys/journeys.service.ts:240-261 | each active journey whose writes arrive is indexed and cached as its row is |
| `JourneyChanges.FallingBackRepairsTheIndex` | src/modules/journeys/journeys.service.ts:197-231 | when the cache shows no active journey, `findActive` makes the index complete again |
| `JourneyChanges.FindActiveOtherwiseOnlyReads` | src/modules/journeys/journeys.service.ts:179-261 | otherwise, and without the table, it writes nothing again |
| `JourneyChanges.NotFoundChangesNothing` | src/modules/journeys/journeys.service.ts:116-164 | requests for a journey that is not found change no row and no index entry |
| `JourneyChanges.FindActiveShowsTheRows` | src/modules/journeys/journeys.service.ts:179-196 | each journey that `findActive` shows is its row, field by field |
| `Journeys.ChangesCommuteWithCaching` | src/modules/cache/services/journey-cache.service.ts:63-97 | caching a journey, changing the rebuilt journey and caching that shows the same as changing the row |
| `Journeys.ChangeIsVisible` | src/modules/journeys/journeys.service.ts:116-149 | a change that goes through is what the next lookup shows |
| `Journeys.WarmingCompletesTheIndex` | src/modules/journeys/journeys.service.ts:240-261 | after warming every active journey is indexed, whatever the index held |
| `Journeys.StepKeepsInv` | src/modules/cache/services/base-cache.service.ts:583-605 | create, change, remove, copy, lookups, warming and expiry of values keep the cache coherent and every active journey indexed |
| `Journeys.FindActiveIsExactIff` | src/modules/journeys/journeys.service.ts:179-231 | `findActive` shows no journey twice, inactive or outdated, and shows all active ones if and only if the index lists all of them or none, or the cache could not be read |
| `Journeys.ActiveJourneysAreNeverMissed` | src/modules/journeys/journeys.service.ts:233-241 | once warmed, after any such run `findActive` answers exactly the active rows |
| `Journeys.LoneSaveHidesTheRest` | src/modules/cache/services/base-cache.service.ts:202-228 | after the index key expires and one active journey is saved, `findActive` is exact if and only if no other is active |
| `Journeys.LostAcknowledgement` | src/modules/journeys/journeys.service.ts:116-129 | when the table loses the acknowledgement of a change, the cache stays coherent if and only if Redis held nothing for the row or what it shows now |
| `LinkCache.LinkCacheService.GetByShortCode` | src/modules/cache/services/link-cache.service.ts:32-87 | answer, layers and counters of a lookup by code; unlike `get`, a failing Redis call leads to the catch block |
| `LinkCache.LinkCacheService.SetLink` | src/modules/cache/services/link-cache.service.ts:123-128 | both views; the code view throws where the id view fails unnoticed |
| `LinkCache.LinkCacheService.Invalidate` | src/modules/cache/services/link-cache.service.ts:130-140 | the code view is dropped only if the row is still there to name its code |
| `LinkCache.ClickTrackingService.Create` | src/modules/click-tracking/services/click-tracking.service.ts:52-190 | link, parameters, both views, and the listener that invalidates all |
| `LinkCache.ClickTrackingService.Update` | src/modules/click-tracking/services/click-tracking.service.ts:413-471 | the table writes in their order, the invalidation, and the listener's own |
| `LinkCache.ClickTrackingService.Delete` | src/modules/click-tracking/services/click-tracking.service.ts:476-489 | the row, then an invalidation that no longer finds it |
| `LinkChanges.CodeLookupAnswers` | src/modules/cache/services/link-cache.service.ts:32-87 | a lookup by code answers the link with that code, or none if there is none, and throws only if the catch block cannot read the table after another call failed |
| `LinkChanges.CodeLookupCounts` | src/modules/cache/services/link-cache.service.ts:32-87 | the hit and the misses it counts, and what it caches |
| `LinkChanges.FindByIdAnswers` | src/modules/click-tracking/services/click-tracking.service.ts:226-248 | a lookup by id answers the row, and not found only without one |
| `LinkChanges.VisitorsSeeTheUpdate` | src/modules/click-tracking/services/click-tracking.service.ts:413-471 | after an update whose calls arrive, every lookup by code or id shows the patched fields, so that a deactivated link is active for nobody |
| `LinkChanges.UpdateLeavesTheIndex` | src/modules/cache/services/link-cache.service.ts:130-140 | the index forgets an updated link as soon as one of the two invalidations removes its entry |
| `LinkChanges.UpdateRevivesALink` | src/modules/click-tracking/services/click-tracking.service.ts:413-460 | an update of a link whose row is gone stores it again as patched, unless it has parameters to store |
| `LinkChanges.CreationWritesTheLink` | src/modules/click-tracking/services/click-tracking.service.ts:107-150 | what a creation leaves in the table, by outcome |
| `LinkChanges.CreationCachesTheCode` | src/modules/click-tracking/services/click-tracking.service.ts:150-167 | after a smooth creation the copy under the code is in both layers and the one under the id has been dropped again by the listener |
| `LinkChanges.BrokenCachingKeepsTheIdCopy` | src/modules/cache/services/link-cache.service.ts:123-128 | when the copy under the code cannot be written the creation throws, and the copy under the id stays |
| `LinkChanges.DeletionRemovesTheRow` | src/modules/click-tracking/services/click-tracking.service.ts:476-489 | a deletion removes the row alone, and then nobody finds the link by its id |
| `LinkCache.CreateKeeps` | src/modules/click-tracking/services/click-tracking.service.ts:107-167 | a creation keeps both views right wherever it breaks off |
| `LinkCache.UpdateKeeps` | src/modules/click-tracking/services/click-tracking.service.ts:457-466 | so does an update whose table writes and invalidation arrive |
| `LinkCache.BrokenUpdateKeepsIff` | src/modules/click-tracking/services/click-tracking.service.ts:441-460 | after an update that throws in the table the views are right if and only if the rows are what they were, or its lookup went to the catch block and the link was cached nowhere |
| `LinkCache.InterruptedUpdateKeepsIff` | src/modules/click-tracking/services/click-tracking.service.ts:460-463 | after an update whose table writes arrive and whose invalidation breaks off they are right if and only if it changed nothing, or its lookup went to the catch block and no copy outlives the invalidation |
| `LinkCache.UpdateWritesThePatch` | src/modules/click-tracking/services/click-tracking.service.ts:436-460 | field by field and for every outcome of the table writes: named fields are written, an expiry cannot be cleared, and named parameters are lost if the writes break off between deleting and saving them |
| `LinkCache.DeleteKeepsIff` | src/modules/cache/services/link-cache.service.ts:130-140 | after a deletion in which every call succeeds the views are right if and only if the link was not cached under its code |
| `LinkCache.ViewsAgree` | src/modules/cache/services/link-cache.service.ts:32-87 | over every run of create, update, lookups and expiry the redirect fields found by code and by id, in any layer, are those of the row, and a lookup throws only if its calls fail |
| `SessionStore.JourneySessionCacheService.SetSession` | src/modules/cache/services/journey-session-cache.service.ts:84-137 | Redis, then the contact row, then the session row, and where each failure leaves them |
| `SessionStore.JourneySessionCacheService.EnsureContactRow` | src/modules/cache/services/journey-session-cache.service.ts:162-170 | inserts a missing contact and never touches one that exists |
| `SessionStore.JourneySessionCacheService.UpdateSessionStatus` | src/modules/cache/services/journey-session-cache.service.ts:248-284 | lookup, merge of data that may set and clear fields, store, and the waiting index under the contact the session had |
| `SessionStore.WaitRegistryService.RegisterWait` | src/modules/journeys/services/wait-registry.service.ts:39-76 | the row past the cache, then the same through it |
| `SessionStore.WaitRegistryService.CompleteWait` | src/modules/journeys/services/wait-registry.service.ts:143-190 | the same for a completed wait, which clears what was waited for |
| `SessionStore.JourneySessionCacheService.CreateFailedDispatchSession` | src/modules/cache/services/journey-session-cache.service.ts:214-239 | stores the failed session through the same path |
| `SessionChanges.SetWorksIff` | src/modules/cache/services/journey-session-cache.service.ts:84-170 | exactly when a `set` succeeds |
| `SessionChanges.SetStores` | src/modules/cache/services/journey-session-cache.service.ts:84-137 | field by field, the copy in Redis, the contact row and the session row that a `set` leaves, by outcome; fields that are undefined keep what the row had |
| `SessionChanges.UpdateStoresTheSession` | src/modules/cache/services/journey-session-cache.service.ts:248-268 | after a status update copy and row are the session found, with status, contact, variables, logs and counters edited as the data says |
| `SessionChanges.UpdateWritesTheFields` | src/modules/cache/services/journey-session-cache.service.ts:252-261 | field by field: named values win, cleared ones vanish from the copy and stay in the row, all others are as found |
| `SessionChanges.UpdateAnswersIff` | src/modules/cache/services/journey-session-cache.service.ts:248-268 | a status update succeeds if and only if its lookup answers and Postgres takes what it found |
| `SessionChanges.FailedUpdateLeavesTheIndex` | src/modules/cache/services/journey-session-cache.service.ts:248-280 | one that fails leaves the waiting index alone and the edited copy in Redis |
| `SessionChanges.RegisteredWaitShows` | src/modules/journeys/services/wait-registry.service.ts:39-76 | once a wait is registered row and lookups say waiting, at that node and for that, and all else as before |
| `SessionChanges.RegisteredWaitIsIndexed` | src/modules/cache/services/journey-session-cache.service.ts:269-276 | and its contact's waiting index lists the session |
| `SessionChanges.CompletedWaitShows` | src/modules/journeys/services/wait-registry.service.ts:160-181 | once it is completed lookups from Redis show the session active without a wait, or cancelled with its time |
| `SessionChanges.CompletedWaitIsForgotten` | src/modules/cache/services/journey-session-cache.service.ts:269-276 | and no contact's index lists it |
| `SessionChanges.FailedWaitChanges` | src/modules/journeys/services/wait-registry.service.ts:39-76 | a wait whose row update throws changes nothing, or the row alone |
| `SessionChanges.NobodyWaits` | src/modules/journeys/services/wait-registry.service.ts:148-158 | completing a wait of a session without a row changes nothing |
| `SessionChanges.WaitAnswersIff` | src/modules/journeys/services/wait-registry.service.ts:62-76 | a wait succeeds if and only if its row update is acknowledged, the lookup answers and Postgres takes what it found |
| `SessionChanges.FailedDispatchIsStored` | src/modules/cache/services/journey-session-cache.service.ts:214-239 | the failed session is on record with no retries made and three allowed |
| `SessionStore.ContactsAreSafe` | src/modules/cache/services/journey-session-cache.service.ts:139-170 | over any run with any failures every stored session's contact exists and no existing contact row is altered |
| `SessionStore.SetAgreesIff` | src/modules/cache/services/journey-session-cache.service.ts:110-128 | after a `set` that succeeds Redis and Postgres agree if and only if the session names its contact and counters and every optional field the row has |
| `SessionStore.UpdateAgreesIff` | src/modules/cache/services/journey-session-cache.service.ts:248-284 | after a status update that succeeds they agree if and only if it cleared nothing that the row holds |
| `SessionStore.CompletedWaitAgreesIff` | src/modules/journeys/services/wait-registry.service.ts:160-181 | after a completed wait they agree if and only if it was cancelled or the row held no wait |
| `SessionStore.TheOldWaitComesBack` | src/modules/journeys/services/wait-registry.service.ts:165-180 | otherwise the session is active and, once the copy in Redis expires, waits again for what it had been waiting for |
| `SessionStore.RetriesComplete` | src/modules/cache/services/journey-session-cache.service.ts:77-83 | any number of failed attempts followed by one that succeeds ends where that one alone would have ended |
| `SessionStore.SetKeepsWaitingIff` | src/modules/cache/services/journey-session-cache.service.ts:84-87 | a plain `set` keeps the waiting index exact if and only if the session is not stored, or, merged with its row, waits for the same contact as before, or still for none |
| `SessionStore.UpdateKeepsWaitingIff` | src/modules/cache/services/journey-session-cache.service.ts:248-284 | a successful status update keeps it exact if and only if the merged session would wait as the named status says for the contact the row had |
| `SessionStore.WaitingIndexStaysExact` | src/modules/cache/services/journey-session-cache.service.ts:403-442 | over every run of sets, updates, waits and lookups whose writes arrive, each contact's index is exactly its waiting sessions, even where Redis and Postgres disagree |
| `SessionStore.StoreStaysExact` | src/modules/cache/services/journey-session-cache.service.ts:403-442 | if besides nothing is cleared that a row holds, Redis and Postgres agree as well |
| `SessionStore.FailedDispatchIsSteady` | src/modules/cache/services/journey-session-cache.service.ts:214-239 | a failed dispatch on a fresh id belongs to such runs |
| `Idempotency.IdempotencyService.CheckAndMark` | src/shared/idempotency/idempotency.service.ts:101-114 | the reply, the store and the hit and miss counters of one marking |
| `Idempotency.IdempotencyService.AcquireLock` | src/shared/idempotency/idempotency.service.ts:121-134 | the token comes back if and only if the lock was free |
| `Idempotency.IdempotencyService.ReleaseLock` | src/shared/idempotency/idempotency.service.ts:136-143 | compare and delete |
| `Idempotency.TriggerClaims.TryClaimTriggerMessage` | src/modules/cache/services/journey-session-cache.service.ts:381-400 | SET NX with a time to live, granting when Redis cannot be asked |
| `Idempotency.TakersAreApart` | src/shared/idempotency/idempotency.service.ts:18-27 | over every interleaving a slot is taken again only after its time to live or, for a lock, a release by its token |
| `Idempotency.ProcessedOncePerHour` | src/shared/idempotency/idempotency.service.ts:101-114 | two callers are told to process one payload only a full hour apart |
| `Idempotency.FirstIffUnmarked` | src/shared/idempotency/idempotency.service.ts:101-114 | a caller is told to process if and only if no marking of the payload reached Redis in the hour before |
| `Idempotency.LostMarkIsNeverProcessed` | src/shared/idempotency/idempotency.service.ts:101-114 | after a marking whose answer was lost every retry within the hour is told to drop |
| `Idempotency.OneHolder` | src/shared/idempotency/idempotency.service.ts:121-134 | at any instant at most one acquisition holds a lock |
| `Idempotency.AcquiredIff` | src/shared/idempotency/idempotency.service.ts:121-134 | a lock is given if and only if every acquisition of the last minute has been released by its token since |
| `Idempotency.ThrewIff` | src/shared/idempotency/idempotency.service.ts:101-143 | whoever gets no answer is told so, except for a claim, which is granted |
| `Idempotency.ReleaseConfirmedIff` | src/shared/idempotency/idempotency.service.ts:22-27 | a release is confirmed if and only if its token is that of the current unexpired holder |
| `Idempotency.LateReleaseIsHarmless` | src/shared/idempotency/idempotency.service.ts:22-27 | a release with another token, however late, leaves the holder its lock |
| `Idempotency.GrantedIff` | src/modules/cache/services/journey-session-cache.service.ts:381-400 | a trigger is granted if and only if Redis does not answer or no claim of the same triple stands |
| `Idempotency.GrantedOncePerTtl` | src/modules/cache/services/journey-session-cache.service.ts:381-400 | with Redis up a triple is granted at most once per time to live |
| `Idempotency.NamesAreDistinct` | src/shared/idempotency/idempotency.service.ts:7-8 | marks and locks never share a name |
| `CircuitBreaker.CircuitBreaker.OnFailure` | src/modules/processing/resilience/circuit-breaker.ts:117-148 | one failed call |
| `CircuitBreaker.CircuitBreaker.OnSuccess` | src/modules/processing/resilience/circuit-breaker.ts:101-115 | one successful call |
| `CircuitBreaker.CircuitBreaker.Enter` | src/modules/processing/resilience/circuit-breaker.ts:66-81 | the check before a call |
| `CircuitBreaker.StateMirrorsHistory` | src/modules/processing/resilience/circuit-breaker.ts:101-201 | counters and window are functions of the history: trailing failures, recent calls, totals |
| `CircuitBreaker.OpensIff` | src/modules/processing/resilience/circuit-breaker.ts:150-164 | a closed circuit opens if and only if the call fails and the trailing run reaches the threshold or half of at least ten recent calls failed |
| `CircuitBreaker.RecentIs` | src/modules/processing/resilience/circuit-breaker.ts:193-201 | the window is the calls that settled less than a minute before the last |
| `CircuitBreaker.FiveInARowOpen` | src/shared/crm-client/crm-client.service.ts:134-136 | five failures in a row open the client's circuit, whatever came before |
| `CircuitBreaker.FourStayClosed` | src/modules/processing/resilience/circuit-breaker.ts:150-164 | four calls, however they end, leave it closed |
| `CircuitBreaker.RefusedForAMinute` | src/modules/processing/resilience/circuit-breaker.ts:66-81 | the call that opens the circuit closes it to others for sixty seconds, and the next one is let through on trial |
| `CircuitBreaker.TrialDecides` | src/modules/processing/resilience/circuit-breaker.ts:101-148 | on trial a success closes the circuit, and a failure opens it if and only if the failures in a row or the recent calls say so |
| `CircuitBreaker.AlternatingCallsOpen` | src/shared/crm-client/crm-client.service.ts:134-136 | calls that alternate between success and failure open the circuit with the fifth failure |
| `CircuitBreaker.SuccessesNeverOpen` | src/modules/processing/resilience/circuit-breaker.ts:101-115 | calls that all succeed leave the circuit closed and count no failure |
| `CrmClient.Transport` | src/shared/crm-client/crm-client.service.ts:345-463 | attempts, reported reason and last status are those of the actual sequence of replies, within the breaker's limit |
| `CrmClient.CrmClient.RequestGeneric` | src/shared/crm-client/crm-client.service.ts:274-536 | cache, pre-check, loop and mapping: the result by status code and verb, the reason by the last reply; the breaker hears of a request if and only if it was sent, and hears a failure if and only if the CRM did not answer |
| `CrmClient.OneRequest` | src/shared/crm-client/crm-client.service.ts:294-345 | a request alone is, to the breaker, a begin and its end |
| `CrmClient.UnansweredIff` | src/shared/crm-client/crm-client.service.ts:345-463 | a request goes unanswered if and only if all attempts break or the first answer would come after the limit |
| `CrmClient.RetriesFollowTheSchedule` | src/shared/crm-client/crm-client.service.ts:345-416 | the n-th reply arrives after the replies and the first n - 1 pauses of the schedule |
| `CrmClient.AnOutageTakesSevenSeconds` | src/shared/crm-client/crm-client.service.ts:317-320 | with the default schedule an outage is given up after seven seconds |
| `CrmClient.LastStatusIs` | src/shared/crm-client/crm-client.service.ts:393-420 | the reported status is that of the last reply that had one |
| `CrmClient.RateLimitedOnceIff` | src/shared/crm-client/crm-client.service.ts:417-444 | for any schedule of retries, a 429 followed by an answer is recorded as a failure if and only if the wait it asks for ends too late and the timer can measure it, or even an immediate retry is too late |
| `CrmClient.LongRetryAfterIsAFailure` | src/shared/crm-client/crm-client.service.ts:417-444 | with instant replies that is every `Retry-After` from 301 to 2147483 seconds and no other |
| `CrmClient.OpenCircuitWasEarned` | src/shared/crm-client/crm-client.service.ts:134-143 | over every interleaving of requests an open circuit had, at some settlement, threshold-many unanswered requests in a row or half of ten recent ones unanswered |
| `CrmClient.AnsweredRequestsNeverOpen` | src/shared/crm-client/crm-client.service.ts:138-143 | no interleaving of answered requests, client errors included, opens the circuit or counts a failure |
| `CrmClient.ClientErrorsNeverOpen` | src/shared/crm-client/crm-client.service.ts:138-143 | no interleaving of requests answered with a status below 500 other than 429 opens the circuit |
| `CrmClient.FiveUnansweredOpen` | src/shared/crm-client/crm-client.service.ts:134-136 | five unanswered requests in a row open the client's circuit, whatever else is in flight |
| `CrmClient.OpenIsForever` | src/shared/crm-client/crm-client.service.ts:294-306 | once open, no interleaving of starts and settlements closes the circuit or sends a request, and with nothing in flight the breaker does not change |
| `CrmClient.NeverHalfOpen` | src/shared/crm-client/crm-client.service.ts:294-306 | no interleaving of requests brings the breaker to HALF_OPEN |
| `CrmClient.BreakerReplaysSettlements` | src/shared/crm-client/crm-client.service.ts:294-345 | the breaker after any interleaving is what the settlements in their order make of a fresh one |
| `SegmentReference.ExtractSegmentId` | src/shared/audience/segment-query-builder.service.ts:295-336 | terminates on cyclic graphs, finds an id if and only if a reachable node carries one, and then that of a node nearest to the root |
| `SegmentReference.ReferenceIffPath` | src/shared/audience/segment-query-builder.service.ts:295-336 | an id is found if and only if some path of children leads from the root to a node with one of the two fields not empty |
| `SegmentReference.NearestIsShortest` | src/shared/audience/segment-query-builder.service.ts:300-330 | the path to the node found is a shortest such path |
| `SegmentReference.AnalyzeSegmentationStrategy` | src/shared/audience/segment-query-builder.service.ts:58-105 | falls through to tags, SQL or all if and only if no reachable node carries an id |
| `ContactsClient.FindByIds` | src/shared/crm-client/contacts-client.service.ts:46-70 | each requested id once, where it first occurs, if the CRM knows it |
| `ContactsClient.FoundInOrder` | src/shared/crm-client/contacts-client.service.ts:46-70 | the contacts come in the order in which the request first names them |
| `ContactsClient.ListAllIds` | src/shared/crm-client/contacts-client.service.ts:85-121 | exactly min(maxPages, n / pageSize + 1) requests, and the well-formed entries among the first min(n, maxPages * pageSize), or no answer at the first of them that throws |
| `ContactsClient.WellFormedSnoc` | src/shared/crm-client/contacts-client.service.ts:105-113 | entry by entry: text and numeric ids are kept with their flag, others left out |
| `ContactsClient.DecimalReads` | src/shared/crm-client/contacts-client.service.ts:108-112 | the text of a numeric id reads as the number |
| `ContactsClient.WindowsTile` | src/shared/audience/segment-query-builder.service.ts:143-159 | windows of one size tile the unblocked list |
| `ContactsClient.UnblockedCons` | src/shared/audience/segment-query-builder.service.ts:143-159 | the windows are over the ids that are not blocked, in their order |
| `ContactsClient.ValidateContactForChannel` | src/shared/audience/segment-query-builder.service.ts:359-398 | exactly when a contact passes, and for each refusal exactly when it is given |
| `ContactsClient.ValidEmailIff` | src/shared/audience/segment-query-builder.service.ts:392-398 | an address is valid if and only if it is user@domain.rest with parts that are not empty and free of spaces and of @ |
| `ContactsClient.SpacesAre` | src/shared/audience/segment-query-builder.service.ts:395-398 | the white space of the regular expression, by code point |
| `AudienceValidation.AudienceValidationService.ValidateAudience` | src/modules/campaigns/services/audience-validation.service.ts:67-179 | counts, issues and summary of a validation |
| `AudienceValidation.AudienceValidationService.FindDuplicates` | src/modules/campaigns/services/audience-validation.service.ts:329-361 | every contact whose key an earlier one has |
| `AudienceValidation.AudienceValidationService.RemoveInvalidContacts` | src/modules/campaigns/services/audience-validation.service.ts:418-442 | deletes the campaign's rows of reported contacts and counts them |
| `AudienceValidation.ValidationAddsUp` | src/modules/campaigns/services/audience-validation.service.ts:98-179 | each row is valid or has one issue of its own, and the summary adds up to the issues |
| `AudienceValidation.SummaryCounts` | src/modules/campaigns/services/audience-validation.service.ts:98-179 | each number of the summary is the number of issues of its kind |
| `AudienceValidation.ValidRowsAreWritable` | src/modules/campaigns/services/audience-validation.service.ts:98-150 | the valid rows are those whose contact the CRM knows, is not blocked and has what the channel needs |
| `AudienceValidation.RowIsReportedFor` | src/modules/campaigns/services/audience-validation.service.ts:366-387 | what a row is reported for, on a channel that exists |
| `AudienceValidation.UnknownChannelIsReportedFor` | src/modules/campaigns/services/audience-validation.service.ts:366-387 | on an unknown channel the words in the channel's name decide |
| `AudienceValidation.SharedKeyIff` | src/modules/campaigns/services/audience-validation.service.ts:329-361 | two contacts share a key if and only if they share a phone number, or an address but for its case |
| `AudienceValidation.OnlyAbsentContactsMissAField` | src/modules/campaigns/services/audience-validation.service.ts:366-387 | on a channel that exists a field is reported missing if and only if the contact is not in the CRM |
| `AudienceValidation.ReportedIff` | src/modules/campaigns/services/audience-validation.service.ts:110-165 | reported are exactly the contacts that cannot be reached and those that share a key with one fetched earlier |
| `AudienceValidation.KeyIsKeptIff` | src/modules/campaigns/services/audience-validation.service.ts:329-361 | of the contacts sharing a key one is kept if and only if the first one fetched can be reached |
| `AudienceValidation.SurvivorsShareNoKey` | src/modules/campaigns/services/audience-validation.service.ts:329-361 | two contacts that both remain share no email or phone key |
| `AudienceValidation.OneRemovalIsEnough` | src/modules/campaigns/services/audience-validation.service.ts:418-442 | after one removal a validation in any fetch order finds nothing and a second removal changes nothing |
| `AudienceValidation.OnlyReportedRowsGo` | src/modules/campaigns/services/audience-validation.service.ts:430-435 | a row goes if and only if it is the campaign's and its contact is reported |
| `AudienceComputation.AudienceComputationService.ComputeAudience` | src/shared/audience/audience-computation.service.ts:64-134 | the table and the report, with the search's own total, for every failing call; clearing comes first, so a failure leaves the audience empty or a prefix |
| `AudienceComputation.AudienceComputationService.InsertChunks` | src/shared/audience/audience-computation.service.ts:228-242 | the chunked inserts store the first contacts up to the chunk that throws |
| `CampaignContacts.WrittenUpToTheFailure` | src/shared/audience/audience-computation.service.ts:228-242 | if the k-th chunk of a thousand is the first to throw, the k chunks before it are stored, and it as well if only its acknowledgement was lost |
| `CampaignContacts.NothingThrows` | src/shared/audience/audience-computation.service.ts:228-242 | if none throws everything is |
| `AudienceComputation.ChosenInOrder` | src/shared/audience/audience-computation.service.ts:195-226 | the stored contacts come in the order of the candidates |
| `AudienceComputation.AudienceIsAPrefix` | src/shared/audience/audience-computation.service.ts:181-261 | however far the inserts get, that many of the valid contacts have one row each, in no batch, created with their chunk of a thousand, and other campaigns are untouched |
| `AudienceComputation.ComputingIsRepeatable` | src/shared/audience/audience-computation.service.ts:64-134 | a successful run leaves exactly the valid candidates whatever was there before, so a second run gives the same audience |
| `Batches.AudienceBatches.Number` | src/shared/audience/audience-computation.service.ts:373-380 | the in-place loop: each entity's number and the number of batches, for any batch size |
| `Batches.AudienceBatches.AssignBatchSequences` | src/shared/audience/audience-computation.service.ts:355-395 | the numbered table, or the chunks before the one that throws |
| `Batches.AudienceBatches.GetCampaignBatch` | src/shared/audience/audience-computation.service.ts:400-422 | the rows of one number in order, cut to the batch size, for any batch size |
| `Batches.BatchesRebuildTheAudience` | src/shared/audience/audience-computation.service.ts:355-422 | for a size of at least one, concatenating the reported batches rebuilds the audience in order; row k has number k / size + 1 and nothing else changes |
| `Batches.CountCovers` | src/shared/audience/audience-computation.service.ts:373-380 | the reported number is max(1, ceil(n / size)) |
| `Batches.BatchesAreCut` | src/shared/audience/audience-computation.service.ts:400-422 | a batch read with another size than it was numbered with is cut to its first rows |
| `Batches.SizeZeroIsOneBatch` | src/shared/audience/audience-computation.service.ts:373-422 | a batch size of zero makes one batch that reads back the whole audience |
| `Batches.OddBatchSizes` | src/shared/audience/audience-computation.service.ts:373-380 | a negative size numbers like its absolute value |
| `RedirectUrl.BuildRedirectUrl` | src/modules/click-tracking/services/click-processor.service.ts:164-190 | the merged query, or the original URL when one of the two does not parse |
| `RedirectUrl.SearchParams.Set` | src/modules/click-tracking/services/click-processor.service.ts:170-181 | `set` as in section 6.2 of the URL Standard |
| `RedirectUrl.MergedQuery` | src/modules/click-tracking/services/click-processor.service.ts:164-190 | a named key occurs once with the request's last value or else the link's; all other pairs keep value, number and order; keys appear in the order of their first naming |
| `Quantile.QuantileBetween` | scripts/bench-segment-queries.ts:223-233 | the quantile lies between the bounds of the samples |
| `Quantile.QuantileMonotone` | scripts/bench-segment-queries.ts:223-233 | it grows with q, across the points where floor and ceiling change |
| `Quantile.QuantileIgnoresOrder` | scripts/bench-segment-queries.ts:225 | it does not depend on the order of the samples |
| `Quantile.QuantileAtSample` | scripts/bench-segment-queries.ts:228-232 | at q = k / (n - 1) it is a sample with at most k samples below it and more than k up to it |
| `Quantile.QuantileInterpolates` | scripts/bench-segment-queries.ts:228-232 | between two neighbouring ranks it moves in a straight line from one order statistic to the next |
| `Quantile.QuantileOfFew` | scripts/bench-segment-queries.ts:224-227 | zero without samples, the sample if there is one |

## Left out

- BaseCache.BaseCacheService.GetAll: a key of the wrong type is what reading the index may find, and the state does not say how it came there, which takes an entity with the id "index" (`CacheKeys.ValueKeysAreDistinct`); `addToIndex` meeting such a key is not modelled. The order of set members and table rows is a parameter.
- Batches.AudienceBatches.GetCampaignBatch: that a size of zero is no limit and a negative one an error is how the ORM and Postgres behave, and their code is not part of this model.
- ContactsClient.ListAllIds: the page size is at least one, because what the CRM answers to a size of zero is not visible.
- BaseCache.BaseCacheService.Get: does not model `hitRatePercent`, which is rounding of the modelled counters.
- Journeys.JourneysService.FindOne: a row that another process inserts between the cached lookup and the second table read is not modelled, because operations run one at a time.
- LinkCache.ClickTrackingService.Update: click counts are not modelled (cached copies of them go stale by design of the periodic sync, and an update writes a cached count back), nor the ORM's cascade on a link's parameters.
- ExecutionProtocol.RunKeeps: looking the campaign up and looking for its active row are one step of an execute, because campaigns are not deleted in the model.
- LinkCache.ClickTrackingService.Create: the checks on custom domains and slugs are a flag; the short code is given.
- SessionStore.JourneySessionCacheService.SetSession: the optional columns are one map, and a null read back from Postgres counts as an absent field.
- SessionStore.JourneySessionCacheService.UpdateSessionStatus: additional data that clears the status or the journey is not modelled, because no caller passes it.
- ContactsClient.FindByIds: the concurrency of a chunk is not modelled, its answers arrive in the order of the ids as `Promise.all` delivers them.
- AudienceValidation.Categorize: matches the words inside the five sentences by case, because the sentences are constants; only an unknown channel's own name is searched as text. Lower-casing is a parameter.
- CampaignsController.AgreesIff: speaks of the last signal sent, not of what the workflow does with it. In src/modules/temporal/workflows/campaign-execution.workflow.ts:100-117 the pause handler only notes the signal, the resume handler only logs, and no step reads either. It covers executions whose workflow lives, because one that has ended gets no signal.
- ExecutionProtocol.FinalUnderOverlapIff: the workers' UPDATE of the status column (`CampaignWritten`) is excluded, because no load precedes it and no guard of the handlers applies to it.
- BaseCache.BaseCacheService.Put: an index write that finds a key of the wrong type and replaces it is not modelled, as said of `GetAll`.
- ExecutionProtocol.AtMostOneLiveWorkflow: a workflow that closes its own row counts as ended from then on, because its completion inside Temporal is not part of this model.
- Rows written under several scopes: a save under one scope leaves the copies of the others as they are, which is what `CacheCoherence.ScopesAreIsolated` says, so coherence is claimed for the scope that writes.
- Concurrent readers and writers of a cache, and several instances with memory layers of their own: a slow reader can write an old row back, and one instance does not see another's memory.
- `setMultiple`, which nothing in the repository calls, `findAll`, `getStats`, health checks and connection handling.
- The breaker's manual `reset` and `forceOpen`, which only tests and maintenance call.
- `SegmentCacheService.clearAllCaches`, the contact and segment caches: they add no new protocol.
- Segment computation, journey workflows, packer, sender, tracker and event runners.
- Guards, DTO validation, SQL text checks, geo and user-agent parsing, logging, metrics other than the counters named above.
- Hashing and ids: SHA-256 is taken as injective, UUIDs as opaque tokens, JSON and dates as opaque values.
- Floating-point rounding in the quantile.
