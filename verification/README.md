# ai-home-assistant: ingest and topology core, in Dafny

The repository listens to Home Assistant: it takes events off a WebSocket, drops those the privacy
patterns hide, enriches the rest from an in-memory index of the entity registry, and writes them in
batches to SQLite beside counters derived from them. Registry snapshots are stored as deduplicated
versions, upserted into tables and turned into that index. This project models that core and proves
what its parts promise each other.

## How it is built

- **Components as classes.** Each object whose methods change state is a Dafny class with the same
  fields, and each method is proved against a function of its inputs and of the old state. The loops are
  the source's loops: building a batch, writing counters, the WHERE clause, the index, the orphan scan,
  the migration run, the deque, the reconnect loop, the fan-out.
- **Interleavings as a transition system.** `Machine` has one step for each thing that runs between two
  awaits: `submit` up to the lock, taking the lock, starting a commit, each database call of a commit
  taking effect, a call raising, a tick, a matcher swap, a version being stored, an upsert, an index
  rebuild, and the process dying and starting again. A step that is not enabled does nothing, so every
  sequence of steps is a run, and the theorems quantify over all sequences. `State.hist` holds history
  that no step reads. The step function is `Machine.Exec`, and `Machine.After` runs a sequence of steps.
- **The two tied together.** `Pipeline.IngestPipeline` and `Wiring.OnRegistryUpdated` carry a ghost
  machine state that is always reachable and always equals the object's fields and tables. So what is
  proved of all runs of the machine holds of the objects as well.
- **Failures.** Any database call may raise. In a method, `faultAt` numbers the call that does (a
  negative number is none of them); in the machine, `Fail`, `DropFail` and `Crash` may come at any point.
- **Induction.** Inductive proofs are written out; none leans on automatic induction.
- **Parameters.** Clock readings, the hash of a snapshot, compiled patterns, received frames, the
  stream's choice of what to write out early, and which call raises are inputs. Buckets and days are
  Python's floor division, which for a positive divisor is Dafny's `/`. A registry object is a map from
  keys to strings or null.

| file | what it holds |
|---|---|
| `Store`, `Batches`, `Counters` | tables and data access, the rows and dictionaries of one batch, hour buckets |
| `Machine` | the transition system |
| `CounterIndex`, `Conservation`, `Provenance`, `BatchAge`, `EntityCounts` | invariants of every run |
| `Batching` | batching refines one-at-a-time handling; settling is always possible; hiding more filters |
| `Pipeline`, `Wiring` | the pipeline object and the registry handler, tied to the machine |
| `Topology`, `Snapshots`, `Orchestrator`, `TopologyRuns` | index, orphans, versions, refreshes and sequences of them |
| `Lamp` | one lamp in two rooms, for the concrete runs |
| `AreasRoute`, `Paging` | the areas page and its 24-hour figure; cursors |
| `Broadcaster`, `HealthWindow`, `WsClient`, `Migrations`, `Archive`, `Privacy` | the bounded-state components |

## Where the code differs from its names, comments or intent

The model does what the code does; each of these is a theorem.

- `total_event_count` grows by one for a batch that mentions the entity, not for an event. Without failures
  it is the number of the entity's rows if and only if no batch since its row existed holds two of them
  (`EntityCounts.TotalCountsRowsExactly`); `EntityCounts.TwoEventsCountOnce` is a run where it is not.
- A row's snapshot id is taken at submit and its area, device and class when its batch is built. The id names
  the row's attribution if and only if the two versions attribute the entity alike
  (`Provenance.IdNamesAttributionExactly`), in particular when no rebuild falls between
  (`Provenance.UnrebuiltRowsAreExact`); `Provenance.IdAndAttributionPart` is a run with rows, one of them
  with id 0, where they part.
- The snapshot store's description speaks of the most recent snapshot, but any earlier version is
  matched, and a refresh that fails after its version is stored is never made up for: the retry sees a known
  version and skips the upserts (`TopologyRuns.FailedApplyIsNeverRepaired`). So table and index may part, as
  after A, B, A (`TopologyRuns.ReturnToOldVersion`) or after a failure and a retry
  (`TopologyRuns.RetryLeavesNoRow`). They agree on an indexed entity if and only if the version that last
  wrote its row is the one its index entry is stamped with (`TopologyRuns.AgreementExactly`).
- A device without a `device_id` key, or an area with an explicit null name, makes a new refresh raise
  (`TopologyRuns.NewApplySucceedsIff`); building the index from the same payload does not.
- A device whose id is null lends its area to device-less entities in the index but not in the orphan
  scan, and an empty device area is read differently by the two (`Topology.OrphansAgreeWithIndex`).
- A failed commit in the periodic flush ends that loop; `stop` then raises before its final flush
  (`Pipeline.IngestPipeline.Stop`).
- The reset of the reconnect delay never affects a later attempt (`WsClient.HAWSClient.Run`), and the
  first wait is not capped: the waits respect the cap if and only if the initial delay does
  (`WsClient.WaitsCappedIff`).
- Message ids increase within a connection, but the last id of a subscribed connection is the first of the
  next (`WsClient.IdReusedAcrossConnections`); `WsClient.IdsIncreaseAcrossExactly` says exactly when ids
  increase from one connection to the next.
- The events route returns a timestamp as next cursor while the data access compares it with event ids:
  with millisecond timestamps it serves its first page again (`Paging.RouteServesFirstPageAgain`;
  `Paging.RouteCursorExactly` says exactly when following it is right).

## Model

| member | source | states |
|---|---|---|
| `CounterIndex.CountersIndexEvents` | src/ai_ha/ingest/pipeline.py:84-114 | in every run, whatever failed or crashed, an (area, hour) counter is at most the number of stored rows of that area and hour; with no failure and no batch being counted, so whenever the lock is free, they are equal |
| `CounterIndex.AlwaysTallied` | src/ai_ha/ingest/pipeline.py:104-110 | the inductive form: counter plus what the batch in flight still owes never exceeds the row count, and equals it without failures |
| `Batches.PerAreaCounts` | src/ai_ha/ingest/pipeline.py:104-106 | the batch's per-area dictionary counts exactly its own rows of each area and hour |
| `Batches.LastTsIs` | src/ai_ha/ingest/pipeline.py:107-107 | the per-entity dictionary holds exactly the batch's entities, each with the time of its last row |
| `Batches.RowIs` | src/ai_ha/ingest/pipeline.py:91-103 | every column of a row: the event's own, the commit's clock reading, the submit-time snapshot id, and what the index says of the entity |
| `Batches.CountKeyIs` | src/ai_ha/store/dao.py:239-250 | the rows counted for an area and an hour are those of that named area with a time in that hour |
| `Batches.RowRemembersPending` | src/ai_ha/ingest/pipeline.py:91-103 | a row keeps all of its event and its submit-time snapshot id, so the pending event can be read back from it |
| `Batches.CountKeyConcat` | src/ai_ha/ingest/pipeline.py:108-110 | counting rows is additive over appended batches |
| `Counters.BucketIsHour` | src/ai_ha/ingest/counters.py:6-11 | a bucket is exactly one half-open span of 3 600 000 ms, for negative times too |
| `Counters.BucketAbove` | src/ai_ha/store/dao.py:252-259 | "bucket above now - 24" is a cut at the start of the 24th hour bucket counted back, the current one included |
| `Conservation.NoEventLost` | src/ai_ha/ingest/pipeline.py:61-114 | in every run without a crash, failed calls included, an accepted event has its own row with its own data in the events table, or is in the buffer, or queued for the lock |
| `Conservation.ExactlyOnceInOrder` | src/ai_ha/ingest/pipeline.py:61-114 | without failures and with the lock free, rows, then buffer, then queue are the accepted events in submit order, each once, and rows, buffered, queued and dropped add up to the submits |
| `Conservation.RowsCarryReception` | src/ai_ha/ingest/pipeline.py:87-103 | every row of every run carries the clock reading of the batch that stored it |
| `Conservation.CommitReadsClock` | src/ai_ha/ingest/pipeline.py:84-98 | a commit reads the clock once, when it starts, and every row it builds carries that reading |
| `Conservation.StoredRowsWereUnhidden` | src/ai_ha/ingest/pipeline.py:61-74 | every stored row is an accepted event that the matcher in force at its submit did not hide, across swaps |
| `Conservation.AlwaysConserved` | src/ai_ha/ingest/pipeline.py:61-114 | the invariant behind these, for every run: rows enriched from their batch's one index, nothing lost or invented, order, totals |
| `Conservation.StepConserved` | src/ai_ha/ingest/pipeline.py:84-114 | every single step keeps that invariant |
| `Conservation.NoCrashNoneLost` | src/ai_ha/ingest/pipeline.py:113-114 | only a crash of the process loses anything |
| `Provenance.RowProvenance` | src/ai_ha/ingest/pipeline.py:62-103 | a row's snapshot id is 0, the entity being unknown at submit, or names a stored payload listing it; a batch's attribution comes from one whole index map, that of a stored version |
| `Provenance.UnrebuiltRowsAreExact` | src/ai_ha/ingest/pipeline.py:72-95 | with no rebuild between submit and the building of the batch, a row carries exactly what the index said at submit, whatever happens while the insert is awaited and later; for a listed entity that is the build of the payload its snapshot id names |
| `Provenance.IdNamesAttributionExactly` | src/ai_ha/ingest/pipeline.py:72-103 | for every row of every run, its attribution is what the version named by its snapshot id says if and only if that version and the one its batch was built with attribute the entity alike |
| `Provenance.IdAndAttributionPart` | src/ai_ha/ingest/pipeline.py:72-103 | a run whose rows, one with id 0 and one with the id of the version that puts the lamp in the hall, are both attributed to the den |
| `Provenance.AlwaysTraced` | src/ai_ha/topology/entity_index.py:37-63 | in every run the index is the whole build of one stored version, or empty |
| `Provenance.SidNamesListing` | src/ai_ha/ingest/pipeline.py:62-72 | the id taken at submit names a version that lists the entity, or is 0 for an unlisted one |
| `BatchAge.BufferBounded` | src/ai_ha/ingest/pipeline.py:73-78 | with the lock free, the first-added time is absent exactly for an empty buffer and else that of the oldest event; without failures a non-empty buffer is below the batch size |
| `BatchAge.TickLeavesYoungEvents` | src/ai_ha/ingest/pipeline.py:123-127 | a wake-up starts committing the whole buffer or leaves only events younger than the interval |
| `BatchAge.FreeAfterTick` | src/ai_ha/ingest/pipeline.py:113-127 | when the lock is next free after a wake-up, without failure, every buffered event is younger than the interval, and the buffer is empty if the wake-up committed |
| `EntityCounts.TotalCountsBatches` | src/ai_ha/ingest/pipeline.py:107-112 | without failures an entity's total is the number of committed batches mentioning it since its row existed, hence at most its events rows |
| `EntityCounts.TotalCountsRowsExactly` | src/ai_ha/ingest/pipeline.py:107-112 | without failures the total is at most the rows of the entity stored since its own row existed, and equal to them if and only if no batch from then on holds two of them |
| `EntityCounts.TwoEventsCountOnce` | src/ai_ha/ingest/pipeline.py:107-112 | a run with two events of one entity in one batch: total one, rows two |
| `EntityCounts.AlwaysRecorded` | src/ai_ha/ingest/pipeline.py:91-112 | in every run the entities a batch bumps are exactly those of the rows it stored |
| `EntityCounts.TotalCountsRowsWhenUnbatched` | src/ai_ha/ingest/pipeline.py:77-112 | with batches of one the total is exactly the entity's rows stored since its own row existed |
| `EntityCounts.AlwaysCredited` | src/ai_ha/store/dao.py:145-157 | the credit invariant for every run, upserts included |
| `Batching.BatchingRefinesOneAtATime` | src/ai_ha/ingest/pipeline.py:61-127 | under a fixed index and matcher and without failures, any batch size and any schedule that ends settled leaves the rows (up to reception time), area counters, drop total and last-seen times of handling one event at a time |
| `Batching.ScheduleInvisible` | src/ai_ha/ingest/pipeline.py:61-127 | two runs over the same submits, with different batch sizes and schedules, cannot be told apart in the tables |
| `Batching.ReachableGood` | src/ai_ha/ingest/pipeline.py:61-114 | every failure-free reachable state qualifies as the start of such runs |
| `Batching.ReachableCanSettle` | src/ai_ha/ingest/pipeline.py:80-114 | never stuck: from every reachable state, whatever failed before, steps without failure lead to one with nothing in flight and no submit added |
| `Batching.CanSettle` | src/ai_ha/ingest/pipeline.py:84-114 | the settling run, built by a measure that every next step lowers |
| `Batching.HidingMoreFilters` | src/ai_ha/ingest/pipeline.py:61-74 | for the same submits, store and index, a matcher that hides at least as much adds exactly the other run's added rows filtered by it, and rows plus drops stay the same |
| `Privacy.MorePatternsHideMore` | src/ai_ha/privacy/hide_matcher.py:44-45 | a superset of patterns hides at least as much |
| `Privacy.CompileAll` | src/ai_ha/privacy/hide_matcher.py:38-42 | a matcher results exactly when no pattern is risky or malformed, and then matches exactly what some given pattern matches |
| `Pipeline.BuildBatch` | src/ai_ha/ingest/pipeline.py:87-107 | the row-building loop yields the rows and both dictionaries of the buffer under one index map |
| `Pipeline.AddCounters` | src/ai_ha/ingest/pipeline.py:109-110 | in any order of the dictionary, adds exactly the counters written before a call raised; it completes exactly when none of its calls raises |
| `Pipeline.BumpEntities` | src/ai_ha/ingest/pipeline.py:111-112 | in any order, bumps each entity of a set exactly once; it completes exactly when none of its calls raises |
| `Pipeline.WriteBatch` | src/ai_ha/ingest/pipeline.py:108-112 | the tables at every point where a call of a commit can raise, and when none does |
| `Pipeline.CommitReceives` | src/ai_ha/ingest/pipeline.py:87-108 | whatever a commit leaves behind, complete or cut short, rows were only added and the added ones carry its one clock reading |
| `Pipeline.IngestPipeline.RunCommit` | src/ai_ha/ingest/pipeline.py:108-114 | success writes everything and clears the buffer; a raising call leaves the buffer and the partial tables; either way the object stays on a run of the machine |
| `Pipeline.IngestPipeline.FlushBuffer` | src/ai_ha/ingest/pipeline.py:80-114 | the whole new state of a flush: nothing for an empty buffer, the committed tables, or the cut-short ones with buffer and first-added time kept; fails exactly when one of its calls raises; added rows carry its clock reading |
| `Pipeline.IngestPipeline.SubmitEvent` | src/ai_ha/ingest/pipeline.py:61-78 | a hidden event is counted and goes no further; another is buffered with its snapshot id, and a full batch, this event included, is committed or cut short |
| `Pipeline.IngestPipeline.DropHidden` | src/ai_ha/ingest/pipeline.py:63-71 | a hidden submit adds one to its hour's drop counter, or nothing if the call raises |
| `Pipeline.IngestPipeline.SubmitHidden` | src/ai_ha/ingest/pipeline.py:62-71 | the hidden part of a submit: only the drop counter of its hour changes |
| `Pipeline.IngestPipeline.SubmitVisible` | src/ai_ha/ingest/pipeline.py:72-78 | the other part: the event with its snapshot id joins the buffer, which is committed or cut short when full |
| `Pipeline.IngestPipeline.AppendAndCommit` | src/ai_ha/ingest/pipeline.py:73-78 | the locked part of a submit: below the batch size only the buffer grows, at it the batch is committed or cut short |
| `Pipeline.IngestPipeline.WakeUp` | src/ai_ha/ingest/pipeline.py:116-127 | one wake-up: commits a due buffer, leaves a young one alone, and dies with the buffer kept exactly when a call of its commit raises |
| `Pipeline.IngestPipeline.Stop` | src/ai_ha/ingest/pipeline.py:55-59 | stops cleanly exactly when the flush loop has not died and the final commit, if any, goes through; after it the buffer is empty exactly if it was or the stop was clean |
| `Pipeline.IngestPipeline.SwapHide` | src/ai_ha/main.py:190-197 | the swapped matcher is the one later submits meet; buffer and tables stay |
| `Pipeline.CommitReachable` | src/ai_ha/ingest/pipeline.py:108-114 | an uninterrupted commit, cut short anywhere or not, is a run of the machine ending in exactly those tables |
| `Pipeline.CountsReachable` | src/ai_ha/ingest/pipeline.py:109-110 | writing any subset of the counters is a run of the machine |
| `Pipeline.BumpsReachable` | src/ai_ha/ingest/pipeline.py:111-112 | bumping any subset of the entities is a run of the machine |
| `Wiring.RefreshReachable` | src/ai_ha/topology/orchestrator.py:17-22 | every outcome of a refresh, failures included, is reached by steps of the machine |
| `Wiring.OnRegistryUpdated` | src/ai_ha/main.py:123-159 | the registry handler leaves pipeline and orchestrator tied to the same run, with the refresh's outcome and the buffer untouched |
| `Wiring.ApplyFrame` | src/ai_ha/topology/orchestrator.py:17-58 | a refresh writes neither events nor counters nor drops |
| `Store.UpsertEntitiesLast` | src/ai_ha/store/dao.py:123-143 | in a bulk upsert the last row for an id decides its registry data, while counts and first-seen time stay with the stored row |
| `Store.UpsertEntitiesKeep` | src/ai_ha/store/dao.py:132-137 | no upsert resets the counts or the first-seen time of an entity that has a row |
| `Store.UpsertEntitiesOthers` | src/ai_ha/store/dao.py:123-143 | entities absent from the batch are untouched |
| `Store.UpsertEntitiesFresh` | src/ai_ha/store/dao.py:127-143 | a created row starts from the counts of one of the batch's rows |
| `Store.BumpIs` | src/ai_ha/store/dao.py:149-156 | an existing row has one more on both counts and the given last-seen time, and nothing else changes |
| `Store.IncrementIs` | src/ai_ha/store/dao.py:243-249 | one counter grows by the amount, from nothing if it was not there, and the others stay |
| `Store.SelectsEvents` | src/ai_ha/store/dao.py:210-221 | which rows a filter selects: absent or empty ids do not restrict, both time bounds are inclusive |
| `Store.SelectsEntities` | src/ai_ha/store/dao.py:166-173 | which entities a listing selects: asking for orphans overrides the area |
| `Store.UpsertAreasLast` | src/ai_ha/store/dao.py:81-91 | in a bulk upsert the last row for an area decides everything but its first-seen time |
| `Store.UpsertAreasFirst` | src/ai_ha/store/dao.py:81-91 | an area keeps its stored first-seen time, or takes that of the batch's first row for it |
| `Store.UpsertAreasOthers` | src/ai_ha/store/dao.py:81-91 | areas absent from the batch are untouched |
| `Store.UpsertDevicesLast` | src/ai_ha/store/dao.py:107-119 | the last row for a device decides everything but its first-seen time |
| `Store.UpsertDevicesFirst` | src/ai_ha/store/dao.py:107-119 | a device keeps its stored first-seen time, or takes that of the batch's first row for it |
| `Store.UpsertDevicesOthers` | src/ai_ha/store/dao.py:107-119 | devices absent from the batch are untouched |
| `Store.StoreDAO.UpsertEntityRows` | src/ai_ha/store/dao.py:123-143 | the new entities table as a function of the old, all or nothing; no rows is a call that cannot fail |
| `Store.StoreDAO.UpsertAreaRows` | src/ai_ha/store/dao.py:77-92 | the areas table becomes the bulk upsert of the rows, all or nothing; a null name is refused |
| `Store.StoreDAO.UpsertDeviceRows` | src/ai_ha/store/dao.py:103-120 | the devices table becomes the bulk upsert of the rows, all or nothing |
| `Store.StoreDAO.BumpEntityEventCounts` | src/ai_ha/store/dao.py:145-157 | one more on both counts and a new last-seen time for an existing row, nothing for a missing one |
| `Store.StoreDAO.ListEntities` | src/ai_ha/store/dao.py:159-184 | stored rows satisfying the filter, each entity once, at most the limit, and all of them when fewer than the limit come back |
| `Store.StoreDAO.InsertEvents` | src/ai_ha/store/dao.py:187-201 | rows go to the end of the table, all or nothing |
| `Store.WhereClause` | src/ai_ha/store/dao.py:208-226 | the clauses assembled piece by piece hold of a row exactly when the caller's filter selects it and its id is below the cursor |
| `Store.Scan` | src/ai_ha/store/dao.py:228-236 | a newest-first scan with a limit returns exactly the page: the newest selected rows below the cursor |
| `Store.StoreDAO.ListEvents` | src/ai_ha/store/dao.py:203-236 | the stored rows of the page of a filter, cursor and limit, in its order |
| `Store.StoreDAO.IncrementCounter` | src/ai_ha/store/dao.py:239-250 | adds to one counter, creating it at the amount |
| `Store.StoreDAO.GetCounters24h` | src/ai_ha/store/dao.py:252-259 | exactly the counters of buckets above now - 24 |
| `Store.StoreDAO.IncrementPrivacyDrop` | src/ai_ha/store/dao.py:262-271 | adds to one hour's drop count, creating it at the amount |
| `Paging.PagingIsComplete` | src/ai_ha/store/dao.py:203-236 | paging by the last row's event id lists every selected row present at the first call exactly once, newest first, and ends, whatever is inserted between pages |
| `Paging.WalkFrom` | src/ai_ha/store/dao.py:222-235 | the pages from any cursor on concatenate to one listing below it |
| `Paging.PageIs` | src/ai_ha/store/dao.py:222-235 | a page holds selected rows below the cursor, newest first, at most the limit; a selected row below the cursor is left out only by a full page, all of it newer |
| `Paging.DescIdsAre` | src/ai_ha/store/dao.py:229-233 | a listing holds exactly the selected ids, strictly descending |
| `Paging.DescIdsStable` | src/ai_ha/store/dao.py:187-201 | rows inserted later change nothing below |
| `Paging.RouteCursorExactly` | src/ai_ha/web/routes/events.py:36-44 | following the route's timestamp cursor gives the true next page if and only if that timestamp, as an id, is not above the last row and no selected row lies from it up to that row |
| `Paging.RouteFollowsExactly` | src/ai_ha/web/routes/events.py:31-44 | the route offers a next cursor exactly after a full page, and following it gives the true next page exactly under that condition on the page's last row |
| `Paging.RouteServesFirstPageAgain` | src/ai_ha/web/routes/events.py:43-43 | with timestamps above every id the route's cursor leads back to its first page |
| `AreasRoute.FigureCountsRows` | src/ai_ha/web/routes/areas.py:22-26 | the 24-hour figure read at any step of any run is at most a direct count of the area's rows from the start of the 24th bucket back, and equals it without failures whenever no batch is being counted |
| `AreasRoute.FoldCounters` | src/ai_ha/web/routes/areas.py:24-26 | the summing loop, in any order, gives each area the sum of its counters |
| `AreasRoute.SumOfCounts` | src/ai_ha/web/routes/areas.py:24-26 | summing the per-bucket counts counts each row once |
| `AreasRoute.CountSinceIs` | src/ai_ha/web/routes/areas.py:24-26 | the direct count is the number of positions holding a row of the area at or after the time |
| `AreasRoute.CountClassIs` | src/ai_ha/web/routes/areas.py:33-35 | the class distribution counts the positions holding an entity of the class |
| `AreasRoute.FetchArea` | src/ai_ha/web/routes/areas.py:30-30 | the rows fetched for an area are its entities, each once, all of them or a thousand |
| `AreasRoute.ViewArea` | src/ai_ha/web/routes/areas.py:30-44 | entity count, class distribution, activity and its time mean what they say about the fetched rows |
| `AreasRoute.ListAreas` | src/ai_ha/web/routes/areas.py:17-45 | every area once, with its own figure and the digest of its own entities |
| `Topology.EntityIndex.BuildMap` | src/ai_ha/topology/entity_index.py:46-63 | the index loop computes the build of the payload |
| `Topology.EntityIndex.RebuildFromPayload` | src/ai_ha/topology/entity_index.py:37-39 | the map is replaced as a whole by one payload's build |
| `Topology.BuildKeys` | src/ai_ha/topology/entity_index.py:51-54 | the index holds exactly the non-empty ids the payload lists |
| `Topology.BuildLast` | src/ai_ha/topology/entity_index.py:51-63 | an entity listed more than once is described by its last listing |
| `Topology.EntryIs` | src/ai_ha/topology/entity_index.py:46-63 | an index entry said of the payload alone: device id and class of the last listing, its own area if it names one, else the area of the last device listing under that id, else none |
| `Topology.OwnAreaWins` | src/ai_ha/topology/entity_index.py:56-56 | an entity that names an area is indexed under it, wherever its device is |
| `Topology.DeviceAreasAre` | src/ai_ha/topology/entity_index.py:47-49 | a device id, null included, stands for the area of its last listing |
| `Topology.BuildStamps` | src/ai_ha/topology/entity_index.py:57-62 | every entry carries the snapshot id of its build |
| `Topology.FindOrphans` | src/ai_ha/topology/orphan_detector.py:7-21 | the scanning loop with its early continues computes the orphan list |
| `Topology.OrphansAre` | src/ai_ha/topology/orphan_detector.py:12-20 | an id is listed exactly when some enabled listing of it has neither an area nor a device with one |
| `Topology.OrphansExactly` | src/ai_ha/topology/orphan_detector.py:8-20 | said of the payload alone: an id is listed exactly when some listing of it names no disabler, no area, and no device whose last listing names an area |
| `Topology.OrphansAgreeWithIndex` | src/ai_ha/topology/orphan_detector.py:7-21 | with unique ids, the scan lists exactly the enabled entities the index leaves without an area if and only if every enabled entity's attribution is clean |
| `Topology.TidyOrphansAgree` | src/ai_ha/topology/orphan_detector.py:7-21 | with named devices and areas absent or named, the two attribution algorithms agree |
| `Snapshots.SnapshotStore.InsertIfChanged` | src/ai_ha/topology/snapshot_store.py:57-79 | append-only and unique by hash; the id returned names the payload's hash; new exactly when no stored version has it |
| `Snapshots.SnapshotStore.GetCurrent` | src/ai_ha/topology/snapshot_store.py:47-55 | the stored version with the largest id, absent exactly when there is none |
| `Snapshots.InsertedVersioned` | src/ai_ha/topology/snapshot_store.py:57-79 | an insertion keeps ids counting up, hashes unique and old rows unchanged |
| `Snapshots.FindHash` | src/ai_ha/topology/snapshot_store.py:66-71 | finds a stored version with the hash, any of them, exactly when there is one |
| `Orchestrator.TopologyOrchestrator.ApplyPayload` | src/ai_ha/topology/orchestrator.py:17-22 | the whole new state and outcome of a refresh with any of its calls raising |
| `Orchestrator.TopologyOrchestrator.UpsertTables` | src/ai_ha/topology/orchestrator.py:24-58 | the three upserts in order, up to the first failure, the device comprehension's missing key included |
| `Orchestrator.Domain` | src/ai_ha/topology/orchestrator.py:49-49 | the part of an entity id before its first dot |
| `Orchestrator.AreaRowIs` | src/ai_ha/topology/orchestrator.py:28-33 | every column of an area row; without a name key it is named by its id |
| `Orchestrator.DeviceRowIs` | src/ai_ha/topology/orchestrator.py:37-42 | every column of a device row |
| `Orchestrator.EntityRowIs` | src/ai_ha/topology/orchestrator.py:47-56 | every column of an entity row, attributed as the payload says, counts at zero |
| `TopologyRuns.VersionsAppendOnly` | src/ai_ha/topology/snapshot_store.py:57-79 | over any sequence of refreshes, failing ones included, ids count up, hashes are unique and stored rows never change |
| `TopologyRuns.StoredIffInserted` | src/ai_ha/topology/snapshot_store.py:64-79 | a hash is stored exactly when some refresh with it got past its own insertion |
| `TopologyRuns.DoneNamesHash` | src/ai_ha/topology/orchestrator.py:17-22 | a completed refresh returns the id of its payload's hash, and is new exactly at the hash's first insertion |
| `TopologyRuns.SameIdIffSameHash` | src/ai_ha/topology/orchestrator.py:17-22 | two completed refreshes return the same id exactly when their payloads hash alike |
| `TopologyRuns.IndexIsOneBuild` | src/ai_ha/topology/orchestrator.py:21-22 | the index is never torn: empty, or the build of one refresh's payload under the id it returned |
| `TopologyRuns.UpsertedAgree` | src/ai_ha/topology/orchestrator.py:45-58 | building rows and building the index give every listed entity the same attribution, duplicates included, and leave others' rows alone |
| `TopologyRuns.NewApplyAgrees` | src/ai_ha/topology/orchestrator.py:17-58 | after a refresh that stored a new version, table and index agree on device, area, class and snapshot id of every listed entity, and that version is current |
| `TopologyRuns.NewApplyRegistry` | src/ai_ha/topology/orchestrator.py:27-44 | after a refresh that stored a new version, each listed area and device has the row of its last listing under the first-seen time it had, and unlisted ones are untouched |
| `TopologyRuns.NewApplyEntity` | src/ai_ha/topology/orchestrator.py:45-58 | after a refresh that stored a new version, every column of a listed entity's row, said of its last listing and of the row it had |
| `TopologyRuns.NewApplySucceedsIff` | src/ai_ha/topology/orchestrator.py:24-58 | without database errors a new version goes through exactly when every device has its id key and no named area's name is null |
| `TopologyRuns.FailedApplyIsNeverRepaired` | src/ai_ha/topology/orchestrator.py:18-22 | applying the payload of a refresh that failed after its insertion again reports an old version and leaves the tables as the failure left them |
| `TopologyRuns.FailedApplyTables` | src/ai_ha/topology/orchestrator.py:24-58 | a refresh that fails after its insertion has done the upserts before the one that failed and nothing of that one or after |
| `TopologyRuns.RunTracksUpserts` | src/ai_ha/topology/orchestrator.py:17-58 | over every run, failing refreshes included, an entity's row is what the version of the last completed new refresh listing it says, and absent if there is none |
| `TopologyRuns.IndexTracksVersion` | src/ai_ha/topology/orchestrator.py:21-22 | over every run an index entry is that of the stored version it is stamped with |
| `TopologyRuns.CompletedRunsTrackNewest` | src/ai_ha/topology/orchestrator.py:17-22 | when no refresh has failed, the row comes from the newest stored version listing the entity |
| `TopologyRuns.AgreementExactly` | src/ai_ha/topology/orchestrator.py:17-22 | after any run, failing refreshes included, the table agrees with an indexed entity if and only if the version that last wrote its row is the one its index entry is stamped with |
| `TopologyRuns.ReturnToOldVersion` | src/ai_ha/topology/snapshot_store.py:66-71 | a concrete A, B, A run that ends with the tables at B and the index at A |
| `TopologyRuns.RetryLeavesNoRow` | src/ai_ha/topology/orchestrator.py:18-22 | a concrete refresh that fails at its last upsert and its retry: the lamp is in the index and has no row |
| `TopologyRuns.ReappliedOld` | src/ai_ha/topology/orchestrator.py:18-22 | applying a known payload only rebuilds the index, under the id first given |
| `TopologyRuns.NewApplyOrphans` | src/ai_ha/store/dao.py:166-167 | after a new version of a tidy payload, scan, index and SQL filter agree on which enabled entities are orphans |
| `TopologyRuns.OrphanListingsAgree` | src/ai_ha/store/dao.py:159-184 | after any run ending in a new tidy version, an enabled payload entity is in the scan's list, without area in the index and in the orphan listing under a limit no smaller than the table, or in none of them |
| `TopologyRuns.ListingShows` | src/ai_ha/store/dao.py:159-184 | under a limit no smaller than the table a listing shows exactly the entities its filter selects |
| `Broadcaster.EveryQueueSound` | src/ai_ha/web/routes/stream.py:16-37 | in every run each queue is a contiguous suffix of what was published since it joined, within its bound; deliveries are in order without repeats; delivered, queued and dropped add up to published |
| `Broadcaster.HistoryIsWhatWasPublished` | src/ai_ha/web/routes/stream.py:21-37 | in every run a subscriber's history, said of the operations alone, is what was published while it was subscribed |
| `Broadcaster.TakeDelivers` | src/ai_ha/web/routes/stream.py:34-35 | in every run a get delivers the oldest event heard and neither lost nor delivered yet |
| `Broadcaster.SubscribersIndependent` | src/ai_ha/web/routes/stream.py:21-28 | erasing everything one subscriber does changes nothing for another |
| `Broadcaster.OfferSound` | src/ai_ha/web/routes/stream.py:22-28 | a publish keeps the queue invariant, puts the event last, and drops the oldest exactly when the bound's number of items is undelivered |
| `Broadcaster.DeliverSound` | src/ai_ha/web/routes/stream.py:34-35 | a get keeps it and delivers the oldest undelivered item |
| `Broadcaster.SubQueue.PutDroppingOldest` | src/ai_ha/web/routes/stream.py:23-28 | a full queue loses its oldest item and the new one goes last |
| `Broadcaster.SubQueue.GetItem` | src/ai_ha/web/routes/stream.py:35-35 | hands over the oldest item |
| `Broadcaster.EventBroadcaster.PublishEvent` | src/ai_ha/web/routes/stream.py:21-28 | the event is on every queue, in the last place, offered once in any order of the set |
| `Broadcaster.EventBroadcaster.Subscribe` | src/ai_ha/web/routes/stream.py:30-32 | a fresh empty queue joins; the others stay |
| `Broadcaster.EventBroadcaster.Unsubscribe` | src/ai_ha/web/routes/stream.py:36-37 | exactly that queue leaves |
| `HealthWindow.HealthMetrics.Snapshot` | src/ai_ha/health/metrics.py:51-61 | the hourly figure is never below the events at or above the highest cutoff used so far, and on a clock that never ran backwards exactly the events of the last hour; uptime is whole seconds, never negative |
| `HealthWindow.HealthMetrics.RecordEvent` | src/ai_ha/health/metrics.py:42-46 | history grows by the event and the deque stays its suffix holding all at or above the highest cutoff |
| `HealthWindow.HealthMetrics.Prune` | src/ai_ha/health/metrics.py:44-46 | removes exactly a leading part, all of it below the cutoff, and stops at the first that is not |
| `HealthWindow.SuffixCounts` | src/ai_ha/health/metrics.py:51-59 | for arbitrary clocks the deque's length bounds the full-history count, with equality exactly when all it holds is recent |
| `HealthWindow.CountFromIs` | src/ai_ha/health/metrics.py:42-59 | the full-history count is the number of recorded times at or after the cut |
| `HealthWindow.SortedWindowExact` | src/ai_ha/health/metrics.py:51-59 | for nondecreasing times the deque's length is the full-history count |
| `WsClient.HAWSClient.Run` | src/ai_ha/ha_adapter/ws_client.py:50-73 | waits double up to the cap and never restart; attempts go on until the time budget is used up, a stop is requested or the credentials are refused, and no longer; only failures are followed by another attempt; a session that refuses the credentials is the last one attempted; the disconnect count counts the failures; on_event gets exactly the event messages of subscribed sessions in order |
| `WsClient.HAWSClient.Reconnect` | src/ai_ha/ha_adapter/ws_client.py:50-73 | the loop itself |
| `WsClient.AttemptExactly` | src/ai_ha/ha_adapter/ws_client.py:75-121 | said of the session alone: which frames and sends lead to auth-invalid, to a subscription, to a return, to a failure, and which ids are sent |
| `WsClient.EventsInAre` | src/ai_ha/ha_adapter/ws_client.py:115-121 | event messages are delivered in order, others are not, and nothing from the first malformed frame on |
| `WsClient.HAWSClient.Turn` | src/ai_ha/ha_adapter/ws_client.py:57-67 | one attempt with its handlers: flag, error kind, disconnect count and deliveries for each way out |
| `WsClient.HAWSClient.ConnectAndLoop` | src/ai_ha/ha_adapter/ws_client.py:75-121 | exit, ids sent, id counter, deliveries and connected flag for any frames, send failures and stops |
| `WsClient.HAWSClient.SendSubscriptions` | src/ai_ha/ha_adapter/ws_client.py:88-99 | the ids of the four subscriptions, one id skipped after the first, and the counter after a send that raises |
| `WsClient.HAWSClient.ReadFrames` | src/ai_ha/ha_adapter/ws_client.py:101-121 | delivers exactly the events before the first malformed frame |
| `WsClient.WaitsGrow` | src/ai_ha/ha_adapter/ws_client.py:51-73 | for 0 < initial <= max the k-th wait is min(max, initial * 2^k) and never shrinks |
| `WsClient.WaitsCappedIff` | src/ai_ha/ha_adapter/ws_client.py:51-73 | every wait is within the cap if and only if the initial delay is |
| `WsClient.DefaultWaits` | src/ai_ha/ha_adapter/ws_client.py:26-73 | with the default delays the waits are 1, 2, 4, 8, 16, 32 and then 60 seconds |
| `WsClient.IdsIncrease` | src/ai_ha/ha_adapter/ws_client.py:88-99 | message ids strictly increase within a connection |
| `WsClient.IdReusedAcrossConnections` | src/ai_ha/ha_adapter/ws_client.py:88-99 | the last id of a subscribed connection is the first of the next |
| `WsClient.IdsIncreaseAcrossExactly` | src/ai_ha/ha_adapter/ws_client.py:88-99 | ids increase from one attempt to the next if and only if it is not the case that the first subscribed in full and the next sends any |
| `WsClient.ReturnsOnlyOnStop` | src/ai_ha/ha_adapter/ws_client.py:112-114 | every way out of an attempt other than a stop request is an exception |
| `Migrations.Database.ApplyMigrations` | src/ai_ha/store/db.py:106-124 | runs, in order, a prefix of what is due, all of it exactly when no script fails; the stored version is that of the last script that went through |
| `Migrations.Database.RunFiles` | src/ai_ha/store/db.py:109-124 | the loop itself, on files in any order |
| `Migrations.DueAreFirsts` | src/ai_ha/store/db.py:108-116 | due are exactly the first files of the distinct versions above the stored one |
| `Migrations.DueAreRecords` | src/ai_ha/store/db.py:113-116 | in any order of files, due are exactly those whose version beats the start and every earlier file |
| `Migrations.DueAscends` | src/ai_ha/store/db.py:109-121 | executed versions strictly ascend, so none runs twice |
| `Migrations.ReachedIsLargest` | src/ai_ha/store/db.py:109-121 | a complete run ends at the larger of the start and the largest version |
| `Migrations.SecondOpenRunsNothing` | src/ai_ha/store/db.py:46-54 | after a complete run another has nothing due |
| `Migrations.NameOrderIsVersionOrder` | src/ai_ha/store/db.py:31-31 | for names of the migration pattern, string order implies version order |
| `Migrations.VersionIsWritten` | src/ai_ha/store/db.py:110-112 | a name that starts with the three decimal digits of a number has that number as its version |
| `Migrations.PatternAccepts` | src/ai_ha/store/db.py:31-31 | three characters, an underscore, a middle and .sql match exactly when the three are digits |
| `Migrations.AtMostIs` | src/ai_ha/store/db.py:108-108 | names sort with a prefix first, else by the first difference |
| `Migrations.OpenFresh` | src/ai_ha/store/db.py:46-54 | opening a fresh database over the shipped migration runs exactly that and ends at version 1 |
| `Migrations.FreshRunsInitial` | src/ai_ha/store/db.py:106-121 | the shipped migration alone is listed, due at version 0, and leads to version 1 |
| `Migrations.ListingAscends` | src/ai_ha/store/db.py:108-108 | the sorted listing comes in nondecreasing version order |
| `Migrations.Listing` | src/ai_ha/store/db.py:108-108 | holds exactly the directory's files that match the pattern, each as often as it occurs there |
| `Archive.RoundTripExactly` | src/ai_ha/archive/jsonl_writer.py:42-47 | splitting a day's text on newlines returns its records if and only if no encoded record has a newline |
| `Archive.SplitJoined` | src/ai_ha/archive/jsonl_writer.py:47-47 | the sufficient half, by induction over the records |
| `Archive.DayIs` | src/ai_ha/archive/jsonl_writer.py:43-43 | a day is a half-open span of 86 400 000 ms, for times before the epoch too |
| `Archive.LinesOfNext` | src/ai_ha/archive/jsonl_writer.py:42-47 | a record is added to the lines of its own day, at the end, and to no other |
| `Archive.JsonlWriter.Append` | src/ai_ha/archive/jsonl_writer.py:42-47 | the record joins its own day, in order; the one open handle is that day's; files plus unwritten text stay the appended text of each day |
| `Archive.JsonlWriter.WriteLine` | src/ai_ha/archive/jsonl_writer.py:46-47 | a write, of which the stream may pass on any leading part, keeps file plus buffer |
| `Archive.JsonlWriter.EnsureDay` | src/ai_ha/archive/jsonl_writer.py:30-40 | keeps a handle of the day, else closes the old one and opens the day's; at most one is open, and it belongs to the current day |
| `Archive.JsonlWriter.FlushFile` | src/ai_ha/archive/jsonl_writer.py:49-52 | afterwards each day's file holds exactly what was found there and that day's records in append order |
| `Archive.JsonlWriter.Close` | src/ai_ha/archive/jsonl_writer.py:54-59 | the same, and no handle is open and no day current |
| `Archive.DiskHoldsPrefixes` | src/ai_ha/archive/jsonl_writer.py:42-52 | at any moment each day's file is a prefix of that day's text, complete for every day but the current one |

## Left out

- IngestPipeline methods: describe calls that do not overlap; overlapping ones are the subject of `Machine`. A call that raises in these methods has had no effect; one that raises after taking effect is covered in `Machine`, where a failure may follow any step.
- asyncio.Lock: the machine lets the lock be taken by a queued submit, a flush or a tick in any order, with submits among themselves in arrival order; its fairness between kinds of caller is not modelled.
- Concurrent refreshes: the machine lets versions, upserts and rebuilds of several refreshes interleave in any way, and proves of them only what holds regardless, such as the index never being torn; agreement of tables and index is proved for refreshes in sequence.
- `AreasRoute.ListAreas`: describes a store that stands still during the request; the figure's theorem covers any moment. The order of areas by name is not modelled.
- `Store.StoreDAO.ListEntities`: does not model the order of rows, which the query leaves open.
- `WsClient.HAWSClient.Run`: a run whose scripted sessions are used up is unfinished rather than ended.
- `HealthWindow.HealthMetrics.Snapshot`: leaves out the connection flag, failure counters, version and database size, which are fields set and read back.
- SHA-256, the JSON encoder and decoder, gzip and calendar formatting: the hash is a function of the payload, assumed free of collisions where a theorem says so; a stored payload reads back as it was written; a day is a number.
- Registry values that are neither strings nor null, such as lists of aliases.
- The regular-expression engine and the complexity guard: patterns are predicates on entity ids, and the guard and compilation are parameters of `CompileAll`.
- Migration names with non-ASCII digits or a line break, which the pattern can also match.
- Statement-level effects of a migration script that fails half way; only the stored version and which scripts completed are modelled.
- Other data access: reading privacy drops back and the key-value table.
- Claims that hidden events stay out of the archive or the live stream: the event handler appends and publishes whatever `submit` decided, so none is made.
- Rounding: clocks, intervals and delays are exact reals.
- Cancellation of a coroutine in mid-call.
- Routing, authentication, templates, configuration watching, the registry fetcher, dashboards, scripts and packaging, which carry no further state of this core.
