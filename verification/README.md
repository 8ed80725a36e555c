# A verified model of the durable ordered outbox and its pipeline

Events are admitted into a durable outbox, sent to Kafka by one worker, and kept until Kafka
acknowledges them. Each call (a topic and a call id) has a cursor: only the row at the cursor may be
sent, and only its acknowledgement moves the cursor on. This project models that protocol and proves
what it is for: whatever is lost, repeated, retried, rebuilt or crashed, a call's events reach the log
in order, and no admitted event disappears.

## How it is built

- `Model.dfy` holds the values of a database (rows, cursors, fences, the scheduler turn) and each
  operation as a guarded atomic change, `None` being a thrown error whose transaction is rolled back.
  `Effects.dfy` says of each, in the fields of rows and cursors alone, when it succeeds, what it writes and
  that it writes nothing else; `StepEffects.dfy` says it of the steps of runs.
  `Invariant.dfy`, `Capacity.dfy`, `Fetch.dfy`, `Retire.dfy` prove what those changes keep.
- `Table.dfy` and `Outbox.dfy` are the outbox as the program has it: a class whose tables are scanned
  and rewritten by loops, statement by statement, inside transactions that roll back. Every method is
  proved to do exactly what the value-level operation says. `Upgrade.dfy` is opening a file.
- `Protocol.dfy` is the state machine: the worker's steps, admissions from any thread between any two
  of them, delivery reports, rebuilds, crashes, storage faults, operator commands, and a broker that may
  append any copy ever handed over, at any time, any number of times. A `Run` is any finite sequence of
  its steps from any stopped world whose store is sound and whose past fits it. `History.dfy` and
  `Safety.dfy` prove one invariant of every run. `Ordering.dfy`, `Runs.dfy`, `Blocking.dfy`, `Draining.dfy`,
  `Termination.dfy`, `Ttl.dfy` and `Fairness.dfy` are what follows from it.
- `Pipeline.dfy` is the pipeline object over its outbox. It carries its own history as a ghost `Run`, and
  each method is proved to extend that run by named protocol steps, so all theorems about runs hold of it.
- `Migrate.dfy`, `RetireTool.dfy` and `Startup.dfy` are the offline tool and where runs begin.
- `Contract.dfy` says what the run verifier reads and what its exit codes promise, of the files themselves.
  `Evidence.dfy` is the verifier as a decision procedure, `Meaning.dfy` proves that it keeps the promise, and
  `EndToEnd.dfy` is what it says of real runs.
- `Witnesses.dfy` and `Overtaking.dfy` hold inputs at which the code does less than one might expect.

## What is assumed of the environment

Each assumption is the guard of one step in `Protocol.dfy`, or a hypothesis of the theorem that needs it.

- What was sent before a run begins is given with its first world. The results about the order of the logs
  ask that those logs are in order and that no copy still on its way lacks an earlier position of its call;
  `PipelineOrdering.BeginningDecidesOrder` shows that this is exactly what they need. All other results hold
  for any such past. Copies of events that are neither rows nor in the history of the run are not looked at.
- A success report implies that the copy is in the log (`acks=all`, src/kafka_pipeline.cpp:115).
- A message handed over gets at most one report, and none once its producer is destroyed.
- The partition is a fixed function of a nonempty key.
- Event ids are never offered twice; the store itself only keeps ids apart among the rows it holds.
- Broker error texts are not blank and are not the TTL marker.
- A transaction is atomic and durable, and one process owns the database. Operators act on a database
  whose pipeline is down.
- Times are inputs. Only the TTL results ask for a nondecreasing clock, and for retries to be due at least
  200 ms after they are decided, which `PipelineDriver.BackoffBounds` shows the backoff to be.

## Where the code falls short of what one might expect

- **Order for a migrated backlog** holds exactly if the older program's copies are in order. Rows in flight
  at the cutover may have been delivered in any order, and the tool cannot know: `PipelineWitnesses` has two
  such rows whose log begins with the second, and the run verifier reports that call.
- **Nothing stale is fetched** fails in one case: an admission reads the clock before its transaction, so
  an event already older than the TTL can be admitted between a worker's expiry scan and its fetch.
  `PipelineTtl.WindowIsFresh` shows that this is the only way, in both directions, and
  `PipelineWitnesses.StaleIsFetched` is a run in which it happens.
- **The seeded turn is at or above every call's turn** fails for calls still to come exactly when every
  legacy service time is negative (`PipelineStartup.UpgradedBegins`). Then a call can be overtaken again and
  again: `PipelineOvertaking.NewcomerIsOvertaken` is a run in which it is.
- **Nobody is overtaken twice** holds for each call that stood no later than the scheduler when the other was
  first served (`PipelineFairness.OvertakenOnce`), which is every call once the turn is not negative
  (`PipelineFairness.AllStayBehind`). Where it stood past the turn then given, the other goes first again;
  `PipelineFairness.RankAfterService` gives the order in both directions.
- **Fair service** is between calls only. Events outside calls rank as never served, so once every due call
  has been served a batch full of such events starves all calls (`PipelineFairness.CallsStarve`;
  `PipelineWitnesses.CrowdStarvesCall` is a store in which it does).
- **The guards are never violated** except once the scheduler has used up all its 2^63 - 1 turns
  (`PipelineRuns.GuardsHold`).
- **Dead ordered rows are call heads** in pipeline runs (`PipelineBlocking.DeadStayHeads`), but `mark_dead`
  itself accepts any live row: it keeps them heads exactly if the row it kills is one
  (`PipelineBlocking.MarkDeadKeepsDeadHeads`; `PipelineWitnesses.KilledBehindItsHead` is a store where it is
  not).
- **Draining to empty** needs a backlog without gaps, and that is all it needs (`PipelineDraining.SuccessDrains`;
  `PipelineWitnesses.GapBlocksForever` is a store with one).
- docs/TEST-PLAN.md:62 describes exit code 2 of the verifier as order failures only. The code returns 2 only for
  exactly one failure, that failure being one inverted call; two inverted calls give 1.
- docs/DESIGN.md and docs/RELIABILITY.md describe an older in-memory queue. The code, and
  docs/STRICT-CALL-ORDER.md, were followed.

## Model

| member | source | states |
|---|---|---|
| PipelineOrdering.LogsAreOrdered | src/kafka_pipeline.cpp:167-222 | In every world of every run with an ordered beginning, a call's positions in the broker log are exactly those below some k, in one partition under one key, no copy of a position preceding the first copy of an earlier one; and k is the call's cursor, or one more, or was reached by a copy sent before the run. |
| PipelineOrdering.BeginningDecidesOrder | docs/STRICT-CALL-ORDER.md:35-36 | All runs from a beginning keep their logs in order if and only if its logs are in order and no copy still on its way lacks an earlier position of its call. |
| PipelineOrdering.FirstsIncrease | docs/STRICT-CALL-ORDER.md:35-36 | In such a log, first occurrences of a call's positions come in strictly increasing order, and conversely. |
| PipelineOrdering.EventsAreConserved | src/kafka_outbox.cpp:382-424 | An event admitted by some step is, unchanged, in exactly one place in every later world: acknowledged and in the log, still a row, or reclaimed; an ordered event is never reclaimed. |
| PipelineOrdering.RowsLeaveOnlyThus | src/kafka_outbox.cpp:234-250 | In every run, a step removes a row only by acknowledging that row's own message, or by reclaiming an ungrouped TTL-expired row for an admission that found the outbox full. |
| PipelineOrdering.PositionsAreNeverReused | src/kafka_outbox.cpp:251-296 | Over whole histories, in both modes, across acknowledgement, restart and retirement, one (topic, call, sequence) is never given to two events, and a call's events share a key. |
| PipelineSafety.RunKeeps | src/kafka_pipeline.cpp:180-222 | The invariant of store, history and worker holds in every world of every run, from any stopped world with a sound store and a past that fits it. |
| PipelineSafety.StepKeepsStore | src/kafka_outbox.cpp:221-517 | Every protocol step keeps the store invariant. |
| PipelineSafety.StepKeepsHistory | src/kafka_pipeline.cpp:180-206 | Every step keeps the relation between store, network and log: conservation, one event per position, nothing on the network but copies of admitted events, everything below a cursor logged. |
| PipelineSafety.StepKeepsOrder | src/kafka_pipeline.cpp:190-206 | Every step keeps the logs in order and every copy on its way harmless. |
| PipelineSafety.StepKeepsWorker | src/kafka_pipeline.cpp:190-206 | Every step keeps the worker's books: in-flight rows are the unreported messages and the marked row, and the rest of the batch stays serviceable. |
| PipelineSafety.InsertedServes | src/kafka_pipeline.cpp:190-193 | An admission between fetch and send, even one that reclaims rows, leaves every fetched record a pending call head. |
| PipelineSafety.AckedServes | src/kafka_pipeline.cpp:190-193 | Acknowledging another row leaves every fetched record a pending call head. |
| PipelineSafety.ServiceableIsMarked | src/kafka_outbox.cpp:349-381 | A serviceable record is marked in flight, and then just that row is added to those in flight, unless the scheduler's turns are used up: in no other case does the guard fail. |
| PipelineSafety.ReportFindsItsRow | src/kafka_outbox.cpp:382-402 | A success report about an in-flight row passes both guards of the acknowledgement and takes that row out. |
| PipelineRuns.GuardsHold | src/kafka_pipeline.cpp:75-100 | While the process is up and storage has not failed, in-flight rows are exactly the messages awaiting a report and the row just marked; each report, success or failure, and each refused hand-over settles its row; the state-error branches are reached only with all turns used up. |
| PipelineRuns.OrdinalsAreConsecutive | src/kafka_outbox.cpp:262-295 | However admissions are interleaved, refused or cut by restarts, the n-th admission to a self-numbering call receives ordinal n from where the run began, and the window grows by exactly the successes. |
| PipelineRuns.EnqueueTakesOrdinal | src/kafka_outbox.cpp:255-295 | A successful admission takes the call's next ordinal; one that fails leaves the store as it was. |
| PipelineRuns.RefusalChangesNothing | src/kafka_pipeline.cpp:42-73 | A failed admission changes neither the store nor the worker. |
| PipelineRuns.CallsKeepIdentity | src/kafka_outbox.cpp:262-270 | A known call keeps its key and mode for ever, its cursor and window never shrink, and a retired call stays retired as it was. |
| PipelineRuns.StepKeepsIdentity | src/kafka_outbox.cpp:221-424 | Every step keeps a known call's key, mode and fence, and only an admission changes how far a call has been admitted. |
| PipelineRuns.RetiredStaysShut | src/kafka_outbox.cpp:226-233 | In every continuation, an admission to a retired call fails and changes nothing. |
| PipelineRuns.LimitsHold | src/kafka_outbox.cpp:234-287 | A run that begins within its row, stream and byte limits stays within them. |
| PipelineRuns.DeliveredKeepsLimits | src/kafka_outbox.cpp:382-424 | An acknowledgement keeps the limits. |
| PipelineBlocking.DeadStayHeads | src/kafka_pipeline.cpp:276-290 | Runs that begin without a dead row behind its call's head never get one. |
| PipelineBlocking.StepKeepsDeadHeads | src/kafka_outbox.cpp:498-517 | No step kills or strands a dead row behind its call's head. |
| PipelineBlocking.MarkDeadKeepsDeadHeads | src/kafka_outbox.cpp:445-462 | A direct mark_dead keeps dead rows at their calls' heads if and only if the row it kills is a head. |
| PipelineWitnesses.KilledBehindItsHead | src/kafka_outbox.cpp:445-462 | A sound store in which it kills a row waiting behind its head. |
| PipelineBlocking.QuiescentIsBlocked | src/kafka_outbox.cpp:333-348 | When nothing is in flight and nothing could ever be sent, each row is dead or waits behind a position held by a dead row or by none; in a self-numbering call always behind a dead head. |
| PipelineBlocking.FetchFindsWork | src/kafka_outbox.cpp:333-348 | A fetch is empty exactly when no row is due. |
| PipelineBlocking.AckExposesNext | src/kafka_outbox.cpp:403-413 | Acknowledging a head makes the row at the next position a pending deliverable head whose age starts at that moment. |
| PipelineBlocking.AckExposesSuccessor | src/kafka_outbox.cpp:382-424 | In a self-numbering call with any other row, acknowledging the head, revived or not, always exposes a live successor. |
| PipelineDraining.SendsAreBounded | src/kafka_pipeline.cpp:276-290 | While nothing is admitted, requeued or revived, all sends together are bounded by the sum over live rows of their remaining attempts, at least one for a pending row. |
| PipelineDraining.SuccessDrains | src/kafka_pipeline.cpp:180-210 | With successful delivery, no expiry and no dead rows at the start, each acknowledgement removes one row and nothing else does; and once nothing can be sent the store is empty, after exactly as many acknowledgements as it had rows, if and only if it had no gap at the start. |
| PipelineWitnesses.GapBlocksForever | src/kafka_outbox.cpp:337-341 | A sound store without dead rows that a source gap leaves quiescent and not empty. |
| PipelineDraining.StepGapFree | src/kafka_outbox.cpp:382-424 | Without admissions no step opens a gap between a cursor and a row, and none closes one. |
| PipelineDraining.WorkExists | src/kafka_outbox.cpp:333-348 | A nonempty store without dead rows and gaps has a row in flight or one to send. |
| PipelineDraining.StepSpends | src/kafka_outbox.cpp:349-462 | Each send spends one unit of the budget, and no settling, expiry or acknowledgement adds to it. |
| PipelineTermination.WorkRunsOut | src/kafka_pipeline.cpp:180-210 | While nothing is admitted, requeued or revived, of any more whole rounds than the rows' remaining attempts one finds no row due; and if nothing is in flight then and no retry put off, every row left is dead, or pending behind a dead head or a gap. |
| PipelineTermination.EmptyFetchIsQuiescent | src/kafka_pipeline.cpp:180-210 | After an empty fetch nothing can ever be sent without further events if and only if nothing is in flight and no sendable row is put off. |
| PipelineTtl.StampsHold | scripts/verify_event_ids.py:86-89 | Under a nondecreasing clock, in every world, a row is created before it was updated, its age counts from its creation or later, and a row expiry killed was updated more than the TTL after its creation. |
| PipelineTtl.ExpiryMeansDeliverable | src/kafka_outbox.cpp:498-517 | A row is expired only if it is pending and was deliverable in every world that had it since the clock read now - ttl, however long its admission took to commit. |
| PipelineTtl.PromptExpiry | src/kafka_outbox.cpp:498-517 | When admissions commit within the step that read their clock, it was there and deliverable all that time. |
| PipelineTtl.StepAges | src/kafka_outbox.cpp:403-413 | A row's age changes only by being admitted as deliverable or by becoming its call's head, and is that moment. |
| PipelineTtl.WaitersNeverExpire | src/kafka_outbox.cpp:498-517 | A row waiting behind its call's head is never expired. |
| PipelineTtl.WindowIsFresh | src/kafka_pipeline.cpp:185-190 | Between a scan and its fetch no due row is past its age if and only if no admission since that scan brought in an event already overdue. |
| PipelineTtl.FetchedAreFresh | src/kafka_pipeline.cpp:185-190 | With a TTL and no such admission since its own scan, each record an iteration fetches satisfies now - eligible_at <= ttl; after one, a stale record is fetched or the batch is full. |
| PipelineWitnesses.StaleIsFetched | src/kafka_pipeline.cpp:64-67 | A run in which an event 50 ms old is admitted after the scan and fetched under a TTL of 10 ms. |
| PipelineTtl.EnqueueKeepsFresh | src/kafka_outbox.cpp:305-323 | An admission between scan and fetch breaks that property if and only if it commits a deliverable event already older than the TTL. |
| PipelineTtl.AckFresh | src/kafka_outbox.cpp:403-413 | An acknowledgement between scan and fetch exposes only a row whose age starts then. |
| PipelineFairness.StepTurns | src/kafka_outbox.cpp:362-374 | Serving a call gives it a turn above the scheduler's, hence above every other call's; no other step moves a call that keeps its stream. |
| PipelineFairness.TurnsHold | src/kafka_outbox.cpp:362-374 | The scheduler stays at or past every call, served or yet to come, in runs that begin so. |
| PipelineFairness.UnservedKeepsTurn | src/kafka_outbox.cpp:362-374 | A call that is not served keeps its turn exactly, through whatever happens, as long as it has a stream. |
| PipelineFairness.ServedStaysHigh | src/kafka_outbox.cpp:362-374 | A call served since some moment keeps, while it has a stream, a turn above the scheduler's at that moment. |
| PipelineFairness.UnservedStaysLow | src/kafka_outbox.cpp:338-346 | A call not served since some moment, at which it stood no later than the scheduler, still stands no later than the scheduler did then. |
| PipelineFairness.BatchProgress | src/kafka_pipeline.cpp:190-206 | Until the next fetch, what is left of a batch is a tail of it whose missing records were marked one after the other, in order, or nothing. |
| PipelineFairness.OvertakenOnce | src/kafka_outbox.cpp:338-346 | Between two services of one call, every other call due at the fetch of the second was served, if at the first it stood no later than the scheduler. |
| PipelineFairness.NobodyIsOvertakenTwice | src/kafka_outbox.cpp:338-346 | In runs that begin with the scheduler at or past every call, that is every other call due. |
| PipelineFairness.RankAfterService | src/kafka_outbox.cpp:338-346 | At a later fetch, neither having been served in between, a served call ranks ahead of another if and only if that one stood past the turn then given, or at it with a younger row. |
| PipelineFairness.OvertakenAgain | src/kafka_outbox.cpp:338-346 | A fetch that takes a row of a call that stood past that turn has taken the served call's row before it. |
| PipelineOvertaking.NewcomerIsOvertaken | src/kafka_outbox.cpp:178-181 | A run of twelve steps from a schema 2 file with a negative service time: one call is served twice while a newcomer due at the second fetch is never served. |
| PipelineFairness.RoundAdvances | src/kafka_pipeline.cpp:190-206 | One whole round serves every competing call still unserved, or at least 32 - u new ones, u being the events outside calls in the batch. |
| PipelineFairness.NobodyTwice | src/kafka_outbox.cpp:338-346 | A round that leaves some competing call unserved serves no call that was already served. |
| PipelineFairness.RoundsServeAll | src/kafka_pipeline.cpp:190-206 | While a fixed set of calls competes, none past the scheduler at the beginning, whole rounds serve all of them or at least as many as they had places for calls, that is 32 m places in m rounds less the events outside calls. |
| PipelineFairness.EnoughPlacesServeAll | src/kafka_pipeline.cpp:190-206 | Once the rounds have had a place for each of n calls they have served every one. |
| PipelineFairness.AllPlacesAreOpen | src/kafka_pipeline.cpp:190 | Rounds without events outside calls have 32 places each, so n/32 of them, rounded up, serve n calls. |
| PipelineFairness.CallsStarve | src/kafka_outbox.cpp:338-346 | Once every due call has been served, a fetch returns no row of any call if and only if at least 32 events outside calls are due. |
| PipelineWitnesses.CrowdStarvesCall | src/kafka_outbox.cpp:338-346 | A sound store with 32 due events outside calls, whose one due call no fetch returns. |
| OutboxInvariant.MarkInFlightKeeps | src/kafka_outbox.cpp:349-381 | Marking keeps the invariant and changes no row's identity and no cursor. |
| OutboxInvariant.InsertIs | src/kafka_outbox.cpp:221-332 | An accepted admission adds one pending row at or past its call's cursor (exactly the next ordinal in admission mode), stretches one window to include it, makes it deliverable exactly at the cursor, and drops only reclaimable rows. |
| OutboxInvariant.InsertedKeeps | src/kafka_outbox.cpp:221-332 | An admission keeps the invariant: unique positions, rows inside their windows, windows without gaps in admission mode. |
| OutboxInvariant.AckKeepsRow | src/kafka_outbox.cpp:403-413 | After an acknowledgement every other row is still well placed, and differs at most in having become deliverable. |
| OutboxInvariant.MarkAckedKeeps | src/kafka_outbox.cpp:382-424 | An acknowledgement keeps the invariant. |
| OutboxInvariant.MovesKeep | src/kafka_outbox.cpp:425-517 | Changes that only move rows between states keep the invariant and every identity and cursor. |
| OutboxCapacity.InsertWithinLimits | src/kafka_outbox.cpp:234-287 | An accepted admission leaves rows, streams and total payload within their limits. |
| OutboxCapacity.InsertDeletesOnlyExpired | src/kafka_outbox.cpp:234-243 | An admission deletes only ungrouped expired rows, and none unless the outbox was full. |
| OutboxEffects.InsertAccepts | src/kafka_outbox.cpp:221-332 | An admission succeeds if and only if the call is not retired, there is room once expired rows are reclaimed, a request without a call asks for no sequence, one with a call has a key, agrees with a known call in key and mode and is not below its cursor or finds a stream slot, its position is in range, and id and position are free; the position is the one asked for or the next ordinal. |
| OutboxEffects.RefusalsAre | src/kafka_outbox.cpp:226-298 | Each of the nine errors is given exactly under its own condition. |
| OutboxEffects.InsertWrites | src/kafka_outbox.cpp:290-323 | The row, the window, the reclaimed rows and the row id an admission writes, field by field; an age exactly at the cursor. |
| OutboxEffects.NextInTurnIsAdmitted | src/kafka_outbox.cpp:268-270 | A source event at its call's cursor is never refused as already acknowledged. |
| OutboxEffects.MarkInFlightDoes | src/kafka_outbox.cpp:349-381 | A mark succeeds exactly on a pending row at its cursor while a turn is left; it counts the attempt, gives the next turn to that call and changes nothing else. |
| OutboxEffects.MarkAckedAccepts | src/kafka_outbox.cpp:386-402 | An acknowledgement succeeds exactly on a row in flight that is outside calls or at its cursor, an absent sequence reading as 0. |
| OutboxEffects.MarkAckedDoes | src/kafka_outbox.cpp:394-418 | It deletes the row, moves that one cursor on by one, gives the row at the new position, if it has no age, the present moment as its age, and changes nothing else. |
| OutboxEffects.MarkRetryDoes | src/kafka_outbox.cpp:425-444 | Exactly a row in flight becomes pending with the given time and error, its attempts and age as they were. |
| OutboxEffects.MarkDeadDoes | src/kafka_outbox.cpp:445-462 | Exactly a live row dies, keeping the error given and all else. |
| OutboxEffects.RetryDeadDoes | src/kafka_outbox.cpp:463-482 | Exactly a dead row becomes pending without its error, its attempts and age as they were. |
| OutboxEffects.RequeueDoes | src/kafka_outbox.cpp:483-497 | Every row in flight, whatever its attempts, becomes pending and due at the given time, and no other row changes. |
| OutboxEffects.ExpireDoes | src/kafka_outbox.cpp:498-517 | With a TTL, exactly the rows that are pending, outside calls or at their cursor, and past their age die, with the marker and the time, whether due or put off; without one nothing changes. |
| OutboxEffects.NoneLeftOverage | src/kafka_outbox.cpp:498-517 | After an expiry no deliverable row, due or put off, is past its age. |
| OutboxEffects.SettleDoes | src/kafka_pipeline.cpp:276-290 | A failure is settled exactly for a row in flight; it dies if and only if the error is permanent or its attempts have reached the maximum, else it is pending with the given time; it keeps error, attempts and age, and the answer tells which. |
| PipelineEffects.FailuresSettle | src/kafka_pipeline.cpp:81-88 | The same of every failed report and refused hand-over of every run, and a rebuild is asked for exactly after a fatal error. |
| PipelineEffects.ReportsAcknowledge | src/kafka_pipeline.cpp:89-92 | Every success report of every run deletes its row, moves its cursor on by one and makes the next row deliverable from then on. |
| PipelineEffects.ScansExpire | src/kafka_pipeline.cpp:185-189 | Every scan of every run kills exactly the rows past their age and leaves none that is. |
| PipelineEffects.OffersAreAnswered | src/kafka_pipeline.cpp:42-73 | An offered event is admitted if and only if its request is acceptable and free and storing it does not fail; where source sequences are required no call event comes without one. |
| PipelineEffects.SendsOnlyWhileRunning | src/kafka_pipeline.cpp:192 | Nothing is sent while the worker is stopped or a rebuild is asked for. |
| PipelineEffects.BeginningsAreClean | src/kafka_pipeline.cpp:15-31 | A start or rebuild requeues all that was in flight, leaves nothing outstanding, and a working pipeline exactly if it got a client. |
| PipelineEffects.FaultsStopEverything | src/kafka_pipeline.cpp:211-216 | A storage fault or a crash stops admission and sending and leaves the store as it was. |
| OutboxFetch.SelectDue | src/kafka_outbox.cpp:333-348 | The query's loop returns due rows in service order, at most the limit, and leaves out only rows that come after a full answer. |
| OutboxFetch.FetchIsUnique | src/kafka_outbox.cpp:338-346 | The conditions on a fetch have one answer: the first due rows by last service, creation and rowid. |
| OutboxFetch.FetchOnePerCall | src/kafka_outbox.cpp:338-346 | A fetch never returns two rows of one call, nor one row twice. |
| OutboxFetch.FetchIsRanked | src/kafka_outbox.cpp:338-346 | The k-th record fetched has exactly k sendable rows of an earlier turn, creation or row id before it, and a sendable row is fetched if and only if fewer rows than the limit go before it. |
| OutboxRetire.ClosedWindowHasNoRows | scripts/outbox_ops.py:122-126 | A call whose cursor equals its window's end has no rows, so the tool's row check refuses nothing more. |
| OutboxRetire.RetireDoes | scripts/outbox_ops.py:119-137 | Retirement succeeds exactly with a reason, for a call at the end of its window, without rows or fence, within the limits; the fence keeps key, cursor, time and reason, and nothing else changes. |
| OutboxRetire.RetireKeeps | scripts/outbox_ops.py:119-131 | Retirement keeps the store invariant, fences and cursors disjoint. |
| OutboxRetire.FencedStaysOut | src/kafka_outbox.cpp:226-233 | A fenced call is refused whatever the request. |
| OutboxRetire.RetireLeavesOthers | scripts/outbox_ops.py:119-131 | Every other admission answers and changes the store as it would have before, except that the freed stream slot may let in a first event the stream limit would have refused. |
| OutboxRetireTool.RetireCall | scripts/outbox_ops.py:96-137 | The command succeeds exactly when the file is an ordered v3 to v5 file and the call may be retired, and then changes only that call's cursor, its fence, the version and a scheduler row that was missing; a refusal names the first condition that fails. |
| OutboxRetireTool.RetiredFileOpens | src/kafka_outbox.cpp:182-202 | The published file opens, to what retiring in the opened store would give. |
| OutboxMigrate.NumberGroup | scripts/outbox_ops.py:114-116 | The loop gives the k-th row of a group ordinal k and touches nothing else. |
| OutboxMigrate.SelectGroup | scripts/outbox_ops.py:109 | The selection has each row of the group once, ordered by creation and event id. |
| OutboxMigrate.GroupIsNumbered | scripts/outbox_ops.py:107-116 | A group so numbered holds ordinals 0 to n-1 once each, in the declared order, under one nonempty key, with next_seq 0 and admit_seq n. |
| OutboxMigrate.NumberedFields | scripts/outbox_ops.py:46-56 | Numbering a group changes no legacy field of any row and no row outside the group. |
| OutboxMigrate.Migrate | scripts/outbox_ops.py:89-137 | The command refuses with the first condition that fails (schema, already ordered, unknown state, disagreeing keys, capacity), and otherwise every group's ordinals are a bijection onto 0 to n-1 in the declared order and all legacy fields survive. |
| OutboxMigrate.RefusalsAre | scripts/outbox_ops.py:85-136 | Each reason for refusing has its condition on the rows: the schema, an ordinal column, a state text, two rows of a call without a common nonempty key, too many rows or calls. |
| OutboxMigrate.OrdinalsFollowCreation | scripts/outbox_ops.py:109 | Of two rows of a call the one created earlier has the smaller ordinal; of two created together the one whose id is a proper prefix, or has the smaller character where they first differ. |
| OutboxMigrate.OrdinalIsRank | scripts/outbox_ops.py:109-116 | A row's ordinal is the number of rows of its call that come before it, and its call's cursor is at 0 with the number of its rows as the end. |
| OutboxMigrate.TextBeforeIs | scripts/outbox_ops.py:109 | The order of ids is the order of texts: a proper prefix, or the smaller character at the first difference, goes first. |
| OutboxMigrate.OnlyOrdinalsChange | scripts/outbox_ops.py:46-56 | A migration changes nothing of any row but its ordinal. |
| OutboxMigrate.StatesAreRead | scripts/outbox_ops.py:92-94 | The three state texts are read as the states they name. |
| OutboxMigrate.MigrationStarts | src/kafka_outbox.cpp:182-202 | A migrated database passes the checks on opening, and after the start-up requeue satisfies the store invariant, wherever its in-flight and dead rows stand. |
| PipelineStartup.MigratedBegins | src/kafka_pipeline.cpp:21-22 | Migrate, open and requeue lead into a world in which runs begin, whatever copies of the backlog were sent before and in whatever order, with the scheduler at or past every call. |
| PipelineStartup.UpgradedBegins | src/kafka_outbox.cpp:178-203 | Any recoverable file, with its cursors and fences, begins runs once opened and requeued, given a past that fits it; a scheduler seeded from old times is at or past every call if and only if there is no call or one with a nonnegative time. |
| PipelineWitnesses.HalfDoneBegins | src/kafka_outbox.cpp:178-203 | A schema 2 file with one event of a call acknowledged and the next in flight begins runs, with the scheduler at or past its call. |
| PipelineWitnesses.HalfPastIsOrdered | src/kafka_outbox.cpp:178-203 | The past of that file is in order. |
| PipelineWitnesses.BacklogBegins | scripts/outbox_ops.py:118 | Two rows in flight when the old program stopped migrate, and runs begin with them and a log that has the second before the first. |
| PipelineWitnesses.SecondCameFirst | scripts/outbox_ops.py:118 | That past is not in order. |
| PipelineWitnesses.ReorderedIsReported | scripts/verify_event_ids.py:135-141 | The order check on evidence of it reports the call. |
| PipelineStartup.EmptyFileBegins | src/kafka_outbox.cpp:159-181 | A fresh file opens to the empty store, in which runs begin, in order. |
| OutboxUpgrade.StartRecovers | src/kafka_outbox.cpp:182-202 | Opening and requeueing any recoverable file establishes the store invariant. |
| OutboxUpgrade.ReopeningChangesNothing | src/kafka_outbox.cpp:197-203 | A crash after the upgrade committed repeats nothing: the file opens again to the same store. |
| OutboxUpgrade.SoundStoreReopens | src/kafka_outbox.cpp:182-203 | A store that satisfies the invariant closes and opens unchanged. |
| OutboxUpgrade.SeedDominates | src/kafka_outbox.cpp:178-181 | The seeded turn is at or above every call's turn; it is nonnegative exactly if there is no call, or one with a nonnegative legacy time. |
| OutboxUpgrade.OpeningIs | src/kafka_outbox.cpp:132-196 | Which files open, and which of five errors the others give, said of rows, cursors and fences. |
| OutboxUpgrade.OpeningWrites | src/kafka_outbox.cpp:178-202 | Opening gives an age, their creation, exactly to the rows without one that may be sent, seeds a missing scheduler with the latest service time or 0, and changes nothing else. |
| OutboxDatabase.Outbox.Open | src/kafka_outbox.cpp:122-213 | Opening refuses with the first error found, a position held twice among them, and leaves the file alone, or upgrades it to the store the specification says. |
| OutboxDatabase.Outbox.Inspect | src/kafka_outbox.cpp:132-196 | The checks find the first reason to refuse the file. |
| OutboxUpgrade.LastTurn | src/kafka_outbox.cpp:180-181 | The scan over cursors computes the seed of the scheduler. |
| OutboxDatabase.Outbox.InsertPending | src/kafka_outbox.cpp:221-332 | Admission is all or nothing: it answers and leaves the store exactly as specified, and on refusal even its own reclaim is rolled back. |
| OutboxDatabase.Outbox.TakePosition | src/kafka_outbox.cpp:251-297 | The cursor statements give the position, deliverability and window the specification says, with the same errors. |
| OutboxDatabase.Outbox.FetchDue | src/kafka_outbox.cpp:333-348 | The method returns the one answer of the query, and nothing when closed. |
| OutboxDatabase.Outbox.MarkInFlight | src/kafka_outbox.cpp:349-381 | The three statements commit together, giving the row, the turn and the call's service, or leave every table as it was. |
| OutboxDatabase.Outbox.MarkAcked | src/kafka_outbox.cpp:382-424 | Cursor, promotion and deletion commit together, or nothing changes. |
| OutboxDatabase.Outbox.MarkRetry | src/kafka_outbox.cpp:425-444 | Only an in-flight row is made pending again, at the given time. |
| OutboxDatabase.Outbox.MarkDead | src/kafka_outbox.cpp:445-462 | Any live row, head or not, becomes dead. |
| OutboxDatabase.Outbox.RetryDead | src/kafka_outbox.cpp:463-482 | A dead row becomes pending with its attempts and its age as they were. |
| OutboxDatabase.Outbox.RequeueInFlight | src/kafka_outbox.cpp:483-497 | All in-flight rows and only those become pending, whatever their attempts. |
| OutboxDatabase.Outbox.ExpireTtl | src/kafka_outbox.cpp:498-517 | The rows die as `OutboxEffects.ExpireDoes` says, and the result counts exactly those that were pending, at their cursor or outside calls, and past their age. |
| OutboxDatabase.Outbox.Get | src/kafka_outbox.cpp:518-530 | The scan finds the row by id, or reports that there is none. |
| OutboxDatabase.Outbox.SettleSendFailure | src/kafka_pipeline.cpp:276-290 | The row in flight dies if the error is permanent or its attempts are used up, else it is pending at the given time, and the answer tells which; without such a row nothing changes. |
| OutboxTable.UpdateRows | src/kafka_outbox.cpp:498-512 | An UPDATE over the rows is the update of the map they hold, keeps their order, and counts the rows matched. |
| OutboxTable.DeleteRows | src/kafka_outbox.cpp:240-242 | A DELETE drops exactly the rows matched and keeps the order of the others. |
| OutboxTable.CountRows | src/kafka_outbox.cpp:235-250 | Counting and summing over the rows gives the size and payload bytes of the map they hold. |
| OutboxTable.Admissible | src/kafka_outbox.cpp:172 | The primary key and the unique (topic, call, sequence) index admit exactly the events that clash with no row. |
| PipelineDriver.KafkaPipeline.Start | src/kafka_pipeline.cpp:15-31 | Starting opens, requeues and begins, as one protocol step; it refuses when already started, and leaves the database open exactly if a client was made. |
| PipelineDriver.KafkaPipeline.Stop | src/kafka_pipeline.cpp:32-39 | Stopping loses what the worker held and nothing of the store, which opens again unchanged. |
| PipelineDriver.KafkaPipeline.Enqueue | src/kafka_pipeline.cpp:42-73 | A request that the pipeline does not pass on changes nothing; one that it does is the admission step, and success means the event is durable with the ordinal returned. |
| PipelineDriver.KafkaPipeline.OnDelivery | src/kafka_pipeline.cpp:75-100 | A delivery report is the report step of the protocol: it settles its row, asks for a rebuild after a fatal error, and stops the pipeline if there is nothing to settle. |
| PipelineDriver.KafkaPipeline.RebuildProducer | src/kafka_pipeline.cpp:167-178 | A rebuild requeues what the old client owed a report for, as one protocol step; if no client can be made the worker stops. |
| PipelineDriver.KafkaPipeline.SendBatch | src/kafka_pipeline.cpp:191-206 | The loop sends the records in turn until a stop or a rebuild request, each marked before it is handed over, by exactly the protocol's steps. |
| PipelineDriver.KafkaPipeline.Iterate | src/kafka_pipeline.cpp:182-206 | One pass of the worker up to its poll, undisturbed, is rebuild if asked for, expiry, the one fetch of that store, and the sending of that batch. |
| PipelineDriver.KafkaPipeline.Poll | src/kafka_pipeline.cpp:208 | Polling runs the callback for each report the client has, each by exactly its protocol step. |
| PipelineHistory.ExtendIsRun | src/kafka_pipeline.cpp:180-222 | A run extended by an enabled step is a run, so all that is proved of runs holds of the object's history. |
| PipelineDriver.AttemptBackoff | src/kafka_pipeline.cpp:269-274 | The doubling loop computes 200 ms times a power of two, capped at the seventh, plus a jitter. |
| PipelineDriver.BackoffBounds | src/kafka_pipeline.cpp:269-274 | The backoff lies between 200 ms and 25.7 s for times past the epoch. |
| PipelineDriver.BackoffDoubles | src/kafka_pipeline.cpp:269-274 | 200 ms for the first attempt, doubled by each further one up to 25.6 s for the eighth and later, plus the clock modulo 97, truncated toward zero. |
| PipelineDriver.PermanentErrorsAre | src/kafka_pipeline.cpp:256-267 | Exactly the two authorization failures, invalid messages, oversized messages and invalid records are permanent. |
| PipelineDriver.ReportedFailureDoes | src/kafka_pipeline.cpp:81-88 | A failed report kills its row exactly if the error is permanent or the attempts are used up, else puts it off by its backoff; a fatal error and no other asks for a rebuild. |
| EvidenceVerifier.Verify | scripts/verify_event_ids.py:64-186 | The program returns exactly the code its evidence deserves: 3 unreadable, 1 outcome or recovery failure, 2 exactly one inverted call and nothing else, 1 several, 0 otherwise. |
| EvidenceVerifier.PassMeans | scripts/verify_event_ids.py:64-186 | Code 0 means exactly that the evidence can be read, injected is the disjoint union of consumed, rejected, expired and expected-dead ids, nothing is live, rejections are allowed or absent, expiries have strict evidence, recovery is clean if asked for, and, if checked, each call's first observations increase with sequence. |
| EvidenceMeaning.CodeMeans | scripts/verify_event_ids.py:176-204 | Said of the files alone: 3 exactly if something asked for cannot be read; 0 exactly if each injected id ended in one way and no other id in any, the dead are those expected, nothing is live, expiries took longer than the TTL, recovery is proved and no call is out of order where asked; 2 exactly if one call is out of order and nothing else is wrong. |
| EvidenceMeaning.VerifyRun | scripts/verify_event_ids.py:64-204 | The program returns such a code. |
| EvidenceVerifier.CheckOutcomes | scripts/verify_event_ids.py:66-114 | The loops and set tests count no failure exactly when the outcomes partition the run. |
| EvidenceVerifier.Classify | scripts/verify_event_ids.py:77-95 | The loop sorts the snapshot into expired, dead and live, and counts no failure exactly when each expiry has strict TTL evidence. |
| EvidenceVerifier.CheckOrder | scripts/verify_event_ids.py:124-141 | The order check counts exactly the calls for which some event was first observed before one of smaller sequence, and refuses repeated sequences and missing calls. |
| EvidenceVerifier.InCallOrder | scripts/verify_event_ids.py:135-141 | Sorting a call's events and comparing their first positions decides whether two are inverted. |
| EvidenceVerifier.CheckRecovery | scripts/verify_event_ids.py:142-174 | The recovery checks count no failure exactly when identity, fault, phases and observations are as required. |
| PipelineEvidence.MergeIsClosed | scripts/verify_event_ids.py:124-127 | Any order-preserving merge of prefix-closed partition logs is prefix-closed. |
| PipelineEvidence.FirstsFollow | scripts/verify_event_ids.py:135-141 | In whatever a consumer has read, the first observations of two events of a call are in the order of their positions. |
| PipelineEvidence.NoInversionsInRuns | scripts/verify_event_ids.py:124-141 | At any moment of any run with an ordered beginning, for any order-preserving reading of the partitions, complete or not, the order check reports no call. |
| PipelineEvidence.VerdictOnRuns | scripts/verify_event_ids.py:176-186 | On evidence of a run under its own TTL and a nondecreasing clock (with an ordered beginning, if order is checked), the code is 0 exactly when the files can be read, everything is settled, the dead are those expected, rejections are allowed or absent, no row still held reached the log and every reclaimed one did; and it is never 2. |
| PipelineEvidence.FinalTtl | scripts/verify_event_ids.py:86-89 | Each row expired under the run's TTL passes the verifier's strict test on the snapshot. |

## Left out

- PipelineFairness.RoundsServeAll: counts whole rounds; that nobody is served a second time until the round in which the last call is served is `PipelineFairness.NobodyTwice`, and a call due again by then may share that last round.
- PipelineFairness.OvertakenOnce: does not hold for a call past the scheduler, as the seed of an upgraded file can leave newcomers; `PipelineFairness.RankAfterService` gives the exact order.
- PipelineFairness.RoundsServeAll: asks that none of the calls stands past the scheduler at the beginning (in `Competing`), which `PipelineFairness.AllStayBehind` shows of every call in runs whose turn is not negative.
- PipelineOrdering.LogsAreOrdered: asks for an ordered beginning; `PipelineOrdering.BeginningDecidesOrder` shows that nothing less will do.
- PipelineTtl.ExpiryMeansDeliverable: rows present at the beginning count as deliverable since then.
- PipelineEvidence.VerdictOnRuns: takes a consumer that read each partition once to its end.
- PipelineDriver.KafkaPipeline.constructor: is over a file whose store satisfies the invariant when opened; a migrated file with in-flight rows satisfies it one requeue later (`PipelineStartup.MigratedBegins`).
- PipelineDriver.KafkaPipeline.Iterate: runs one thread undisturbed; admissions between its statements, and what the broker does before the poll, are steps of the state machine, whose theorems cover every interleaving.
- OutboxMigrate.Migrate: does not model an input that already carries cursor tables without a call_seq column, or one without an outbox table.
- Delivery reports may come in any order and at any stage of the worker, a superset of what polling at the end of a pass allows.
- Storage errors are one step of the protocol that stops the worker and may lose reports; the error branches of single statements are not modelled one by one.
- Row ids come from a counter; SQLite reuses the largest id after deletion of the newest row, which keeps the same order among rows present.
- SQLite itself, WAL, fsync, busy timeouts, file locks and schema text: transactions are atomic and durable, one process owns the file.
- librdkafka configuration and producer construction, headers, flushing and purging: only hand-over, report and the network remain.
- Event id generation, clocks and error-message wording are inputs; payload sizes are mathematical integers, sequences and turns keep their 64-bit ceilings.
- Metrics, logging, the statistics query, the inspect command, the audit row, confirmation flags, hashing and file publication of the offline tool.
- CSV, JSON and text parsing of the evidence, and the command lines of both scripts.
- mod_event_kafka.cpp and include/bounded_queue.hpp: FreeSWITCH glue, and a queue no longer on the pipeline's path.
