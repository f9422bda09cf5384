# Verified model of the off-chain oracle services

A Dafny 4.11 model of the off-chain pipeline around the price oracle, and proofs of what its
docstrings promise. `dafny verify dfyconfig.toml` checks everything.

| Part | Files | What is modelled |
|---|---|---|
| Event indexer | `Authenticity`, `Store`, `Gaps`, `Resume`, `ResumeLimits`, `Reorg`, `Reindex`, `Indexer`, `Outcomes`, `Recompute`, `SourceTable`, `Views`, `Examples` | The trust check in front of every write, the tables, cursor and gap set, reorg rollback, materialised views, and `ingest` as code that updates its tables |
| Ingest pump | `Batches`, `Buffer`, `Pump` | The bounded producer/consumer buffer under every interleaving, and whole histories of pump runs |
| Region router | `Routing`, `Answers`, `Outages`, `Router` | Submissions and probes under an arbitrary transport and clock, with write-ahead intent, quarantine, health, idle recovery and failover |
| Retry budget | `RetryBudget` | Token bucket, slots and deadline shared by arbitrarily interleaved callers, time spent waiting included |
| Source queue | `SourceQueue` | Bounded retry queue with saturating backoff, and whole runs of the queue with its caller |
| Statistics and shared | `Options`, `Sorting`, `Strings`, `Sums`, `Medians`, `Detector`, `Alerts`, `Streaming`, `StreamLimits`, `SlaMonitor`, `SlaClauses` | Both median ports, round scoring, streaming detection, the SLA monitor's bounded windows |
| Provenance | `Provenance` | Hash-chained metadata revisions, verification and point-in-time lookup |
| Transaction review | `Payload`, `Document`, `KeyOrder`, `Canonical`, `Refusals`, `Render`, `Review`, `Verdicts` | Recursive normalisation of typed payloads, the canonical form, the rendered summary, approval verification |
| Soak rig | `Regression`, `Soak` | Retention models, sampling loop, least-squares growth check |
| Static-analysis baseline | `Baseline` | Count view with the baseline's own errors, location view and allowlist scoping |

Code that updates state is a class or a method with loops (`Indexing.Indexer`, `Buffers.BoundedBuffer`,
`Routers.RegionRouter`, `RetryBudgets.RetryBudget`, `SourceQueues.SourceSubmissionQueue`,
`Streaming.StreamingDetector`, `SlaMonitors.SlaMonitor`, `Provenance.AssetMetadataProvenanceTracker`,
`Soaks.StateModel`), proved against a specification function; the theorems are about those functions. What an operation answers
is stated apart from the function that computes it: by first failed check (`Outcomes`,
`Refusals`, `Verdicts`), over the tables
(`Recomputes`, `Views`, `SourceTables`), from the call log (`Answers`, `Outages`), by counting rounds
(`SlaClauses`) or prices (`Alerts`, `Medians.MedianByCounting`).

## What the proofs found

Each is stated with the exact condition under which the code does meet its promise.

- Indexer: an event whose `data` lacks a key its topic needs, or has one it cannot use
  (`Store.ReadableExactly`), is written to the events table before the error and before the cursor moves.
  One row keeps the gap invariant if and only if it is not such a row, new and above the cursor
  (`Gaps.StepKeepsInv`); for the first row of a store that means if and only if it is readable
  (`Gaps.FirstRowExactly`); every run over readable rows keeps the invariant (`Gaps.ReadableRunsKeepInv`).
- Pump and indexer: "no event is lost" fails after such a row. Delivered again, as it was or corrected, it is
  taken for indexed (`Views.RetryPassesOver`): the next run of the open store passes over it in silence
  (`Views.LossIsSilent`), and the run's commit makes that last; then, short of a reorg or a rollback below its
  ledger, nothing brings it back (`Views.RunStaysLost`). One row
  leaves the submission and aggregate tables telling what the events say if and only if it is not an
  unreadable new price event (`Views.StepTells`); every run over readable price rows does
  (`Views.AlwaysTold`), and so does every pump history over a stream plain ingest accepts
  (`Views.NoEventIsLost`).
- Resume: for an arrival-numbered, ledger-ordered stream with one hash per ledger, restarting from the cursor
  works from every crash point if and only if no ledger carries two close times
  (`ResumeLimits.ResumableExactly`); such a stream is accepted by plain ingest
  (`Examples.TwoCloseTimesAreAccepted`).
- Rollback restores the source table if and only if nothing rolled back had re-added or re-removed a
  source of the base (`Reorg.RollbackRestores`, `Examples.ReAddedSourceIsLost`). It deletes gaps by where
  they start, so the gap of a rolled-back jump from below the rollback point stays
  (`Reorg.GapsRestoredExactly`, `Examples.JumpOutlivesRollback`).
- Router: probe calls counted, a key is called at most once in every run if and only if it is not the
  probe's own (`Routing.AtMostOnceExactly`, `Routing.ProbeKeyIsNotGuarded`). A key identifies its submission
  if and only if neither source nor asset contains a bar (`Routing.KeyIsIdentityExactly`,
  `Routing.BarsCollide`). The pending keys are the quarantined ones in every run if and only if no region
  is named "pending" (`Routing.PendingExactly`): what is delivered to such a region reads as pending
  (`Routing.DeliveredReadsAsPending`).
- Retry budget: the deadline is checked before the lock is taken, so time spent waiting for it comes on top.
  Calls that keep their bounds and wait at most `w` after their last deadline check meet the deadline in every
  run if and only if `w` is zero (`RetryBudgets.DeadlineExactly`); they overrun by at most `w`
  (`RetryBudgets.HonestCallsMeetTheDeadline`), and some overrun by all of it (`RetryBudgets.WaitingMakesLate`).
- Detector: a round never loses more than half its submissions if and only if the threshold times the MAD
  scale exceeds one (`Detection.AtMostHalfExactly`); rounds are scored once each, and stream and batch report
  the same alerts under every configuration, if and only if no asset returns to a ledger it has left
  (`Streaming.RoundsScoredExactly`, `StreamLimits.AgreesExactly`).
- Provenance: verification checks neither ledger or timestamp order, nor the asset, nor `prior_config`,
  although its comment speaks of monotonic constraints. A chain is one that commits could produce if and
  only if it verifies and is also governed (`Provenance.CommittableExactly`); the early exit of the lookups
  is right for every query if and only if the chain ascends (`Provenance.EarlyExitExactly`).
- Review: `build_approval` says it verifies what it builds; it does not (`Reviews.BuiltApprovalExactly`).
  The stored summary is compared with its trailing newlines removed and the regenerated one is not, so no
  approval whatsoever releases a payload whose summary ends in a newline (`Reviews.NewlineIsNeverApproved`);
  a summary cut at its length limit right after a line break is one (`Reviews.NeverApprovable`). With
  that, a document can be approved if and only if it normalises, its summary does not end in a newline
  and its fee is within the cap (`Reviews.ApprovableExactly`). The rendering of an argument is called
  unambiguous; the values of a kind can be told from all others by it if and only if the kind is neither vec
  nor map (`Renders.UnambiguousExactly`).
- Soak: either model is reported, at ceiling zero, if and only if some key was still filling after the
  warm-up (`Soaks.GrowthReportedExactly`), so a key first seen late reads as a leak
  (`Soaks.LateSourceReadsAsLeak`).
- Baseline: the count view and the location view part only on negative baseline entries
  (`Baselines.ViewsAgreeExactly`, `Baselines.NegativeEntryParts`); the gate never passes one
  (`Baselines.Gate`).

## Model

| member | source | states |
|---|---|---|
| `Authenticity.VerifiedExactly` | services/indexer/authenticity.py:100-199 | A row is admitted as an event if and only if the row proves every field of that event under the policy: range, contract, topic, hash presence, close time not before the last |
| `Outcomes.RefusedExactly` | services/indexer/authenticity.py:100-199 | A row is refused with the code of the first check it does not pass, of twelve in order, and verified if it passes them all |
| `Outcomes.CloseTimeTells` | services/indexer/indexer.py:228-237 | The close time asked for is that of the last event at or below the ledger |
| `Outcomes.HashTells` | services/indexer/indexer.py:239-266 | The hash asked for is that of the first event of the ledger |
| `Outcomes.RefusalTells` | services/indexer/indexer.py:165-185 | A refused row is logged under its ledger, index and code and leaves no other trace |
| `Outcomes.VerifiedTells` | services/indexer/indexer.py:185-225 | A verified row is refused as a fork exactly when it contradicts a hash of its own batch; otherwise replayed exactly when held, refused as the jump it is, or written, after a logged reorg if it contradicts the stored hash |
| `Outcomes.RollbackTells` | services/indexer/indexer.py:327-335 | A rollback keeps the events, submissions, aggregates, sources and gaps that start at or below the ledger, and forgets later removals |
| `Outcomes.NumberTells` | services/indexer/indexer.py:150-163 | A row goes under its own index, or one past the last row of its ledger in the batch, or zero |
| `Store.WriteEffect` | services/indexer/indexer.py:190-225 | What one write does to events, gaps, cursor, contract and batch marker, in both the readable and the unreadable case |
| `Store.MaterializeKeeps` | services/indexer/indexer.py:287-310 | Materialising touches the three views and nothing else |
| `Store.MaterializeReads` | services/indexer/indexer.py:287-325 | Materialising depends on the three views and the event and nothing else |
| `Store.ReadableExactly` | services/indexer/indexer.py:287-310 | In any store, an event materialises, and its write is complete, if and only if its data has every key its topic reads in usable form |
| `Gaps.RollbackKeepsInv` | services/indexer/indexer.py:327-335 | Rolling back to any ledger keeps the gap invariant |
| `Gaps.SplitCovers` | services/indexer/indexer.py:268-277 | Splitting gaps at an arriving ledger uncovers that ledger and no other, overlapping gaps included |
| `Gaps.AcceptKeepsInv` | services/indexer/indexer.py:190-225 | Accepting, replaying or refusing a jump keeps the invariant exactly unless an unreadable event lands above the cursor |
| `Gaps.StepKeepsInv` | services/indexer/indexer.py:165-225 | One delivered row of any kind keeps the invariant if and only if it is not a verified new event above the cursor, past fork and jump checks, whose data its topic cannot read |
| `Gaps.RowsIsIngest` | services/indexer/indexer.py:144-163 | The run that carries the origin along is the ingest loop |
| `Gaps.RowsKeepInv` | services/indexer/indexer.py:144-163 | A batch, wherever it stops, keeps the invariant if and only if no row of it was such a one |
| `Gaps.RunKeepsInv` | services/indexer/indexer.py:117-141 | Every run of batches and rollbacks without such a row: cursor is the maximum indexed ledger, no gap holds an indexed ledger, gaps start just after one, everything between origin and cursor is indexed or in a gap |
| `Gaps.ReadableRunsKeepInv` | services/indexer/indexer.py:117-141 | In particular every run from an empty store whose rows are readable, whatever refusals, replays, jumps, reorgs and rollbacks it contains |
| `Gaps.FirstRowExactly` | services/indexer/indexer.py:190-225 | The first admitted row of a store keeps the invariant if and only if it is readable |
| `Gaps.TrustedIsComplete` | services/indexer/indexer.py:123-135 | The trusted ledger never exceeds the cursor, is indexed, everything from the origin up to it is indexed, and it is the cursor or the next ledger starts a gap |
| `Gaps.TrustedAlways` | services/indexer/indexer.py:123-135 | All of it, in every state reached from an empty store over readable rows |
| `Gaps.UnreadableEventStrands` | services/indexer/indexer.py:200-222 | A concrete row after which a ledger is indexed and the cursor is still unset |
| `Views.WrittenRows` | services/indexer/indexer.py:198-225 | A write adds the event, and a row saying what it says to exactly the table of its topic, if its data can be read |
| `Views.StepTells` | services/indexer/indexer.py:165-225 | Submissions and aggregates, one row for exactly the events of their topic with the values these carry, stay so under a delivered row of any kind if and only if it is not a verified new price event, past fork and jump checks, without the data its topic needs |
| `Views.RunTells` | services/indexer/indexer.py:117-141 | They stay so in every run of batches and rollbacks over readable price rows |
| `Views.AlwaysTold` | services/indexer/indexer.py:117-141 | In particular in every such run from an empty store |
| `Views.FirstRowTells` | services/indexer/indexer.py:190-225 | The first admitted row of a store is told if and only if it is no price event or can be read |
| `Recomputes.LatestPricesTell` | services/indexer/indexer.py:312-325 | The prices gathered for an aggregate: one for each source with an earlier row of the asset that is not removed by that ledger, and that is the price of its last such row |
| `Recomputes.WriteDerives` | services/indexer/indexer.py:300-310 | The recomputed column of a written aggregate is the median of such prices over the tables it was written to |
| `Recomputes.AlwaysDerived` | services/indexer/indexer.py:287-325 | In every state of every run each aggregate's recomputed column is such a median over the tables of some point of the run that hold it |
| `SourceTables.WriteTells` | services/indexer/indexer.py:287-297 | An event adds its source afresh, or marks it removed if it is there, and touches no other |
| `SourceTables.AlwaysBacked` | services/indexer/indexer.py:287-335 | In every state of every run each source row, and each removal, is backed by an indexed event of that ledger and name |
| `Views.RetryPassesOver` | services/indexer/indexer.py:192-196 | A row that raised is replayed when delivered again, with whatever data, in any batch, and changes nothing |
| `Views.RunStaysLost` | services/indexer/indexer.py:117-225 | A price event without its row stays without it over every later run with neither a rollback below its ledger nor a reorg |
| `Views.LossIsSilent` | services/indexer/backpressure.py:17-21 | A row that stops its batch; ingested again, or corrected, it is accepted, adds nothing and stays out of the table |
| `Views.AcceptedIsHeld` | services/indexer/indexer.py:144-163 | After a plain ingest without an error every row is indexed under its stamped key and the tables tell what the events say |
| `Views.NoEventIsLost` | services/indexer/backpressure.py:17-21 | The same after any history of pump runs over such a stream once a run finishes |
| `Resume.StampingFrom` | services/indexer/backpressure.py:119-151 | Numbering the stream ahead of the buffer and letting ingest number it are the same ingest, row for row |
| `Resume.ReplayIsNoOp` | services/indexer/indexer.py:144-225 | In a store holding a prefix of a stream with one close time and one hash per ledger, re-delivering any row of the prefix changes nothing and counts nothing |
| `Resume.AcceptedStep` | services/indexer/indexer.py:165-225 | On a regular stream a fresh row that is accepted is written and nothing else happens |
| `Resume.FeedBatches` | services/indexer/backpressure.py:193-240 | Feeding any batching of any slice that starts within what is held ends at the further of the two points, adding exactly the difference |
| `Resume.SkippingIsDropping` | services/indexer/backpressure.py:119-151 | Resuming drops a prefix of the stamped stream and renumbers nothing |
| `Resume.CrashResume` | services/indexer/backpressure.py:167-240 | Any batch sizes, failures after any stored prefix and restarts from the cursor, then one completed run: same tables as one plain ingest, same number of events added, no row refused |
| `Resume.ReplayAddsNothing` | services/indexer/backpressure.py:193-240 | After a plain ingest, replaying any prefix in any batches adds zero events |
| `ResumeLimits.TwoCloseTimesRefuse` | services/indexer/backpressure.py:119-151 | Two close times in one ledger: a crash after the later one makes the restart fail |
| `ResumeLimits.ResumableExactly` | services/indexer/backpressure.py:119-151 | Every crash point resumes if and only if each ledger has one close time |
| `Examples.TwoCloseTimesAreAccepted` | services/indexer/backpressure.py:119-151 | A stream plain ingest accepts, with two close times in one ledger, and a crash point it cannot resume from |
| `Reorg.InvisibleExactly` | services/indexer/indexer.py:287-335 | One event's effect on the sources is undone by rollback if and only if it overwrites no source row of the base |
| `Reorg.StepExtends` | services/indexer/indexer.py:165-266 | One accepted row above a ledger, reorganising or not, leaves everything at or below that ledger alone |
| `Reorg.HistoryExtends` | services/indexer/indexer.py:144-266 | The same for a whole later history, and whether the sources are still restorable |
| `Reorg.RollbackRestores` | services/indexer/indexer.py:327-335 | Rolling back over any accepted later history restores events, submissions, aggregates and cursor; the sources if and only if nothing overwrote them |
| `Examples.ReAddedSourceIsLost` | services/indexer/indexer.py:290-335 | A source added at ledger 1 and again at ledger 2 is gone after rolling back to ledger 1 |
| `Reorg.GapsRestoredExactly` | services/indexer/indexer.py:327-335 | Rolling back over a write restores the gaps if and only if the write split no gap reaching down to the rollback point and did not jump from below it |
| `Examples.JumpOutlivesRollback` | services/indexer/indexer.py:190-225 | After a rolled-back jump the tables are those before it and its gap is still recorded |
| `Reindex.PrefixIsBelow` | services/indexer/indexer.py:144-225 | Indexing a prefix from an empty store leaves nothing above it |
| `Reindex.StepSameView` | services/indexer/indexer.py:165-225 | Stores that agree on everything but their logs decide and change alike |
| `Reindex.RedeliveryMeetsPrefix` | services/indexer/indexer.py:239-266 | The redelivered row that rolls back gives the state the surviving prefix gives |
| `Reindex.ReorgIsReindex` | services/indexer/indexer.py:239-335 | An accepted redelivery with its replacement, in any number of batches that may replay rows of the prefix first, equals indexing prefix then those batches from scratch: events, submissions, aggregates with their recomputed medians, sources, cursor, contract, the number added, and the gaps when jumps are refused |
| `Reindex.FeedWithoutGaps` | services/indexer/indexer.py:195-206 | A run that refuses jumps and was refused nothing records no gap |
| `Indexing.Indexer.constructor` | services/indexer/indexer.py:96-107 | A new indexer is the empty store under its policy |
| `Indexing.Indexer.TrustedLedger` | services/indexer/indexer.py:123-135 | The least gap start minus one, or the newest ledger |
| `Indexing.Indexer.MaxLedger` | services/indexer/indexer.py:327-335 | The newest indexed ledger, by a scan |
| `Indexing.Indexer.LastCloseTime` | services/indexer/indexer.py:228-237 | The timestamp of the last event at or below a ledger |
| `Indexing.Indexer.StoredHash` | services/indexer/indexer.py:239-266 | The hash kept for a ledger |
| `Indexing.Indexer.RollbackTo` | services/indexer/indexer.py:327-335 | Deletes and updates table by table; the new state is the specified rollback |
| `Indexing.Indexer.CheckLedgerHash` | services/indexer/indexer.py:239-266 | Refuses a fork inside a batch, rolls back and logs on a redelivery, otherwise changes nothing |
| `Indexing.Indexer.CloseGapAt` | services/indexer/indexer.py:268-277 | The gap-by-gap loop equals splitting all covering gaps at once |
| `Indexing.Indexer.LatestPrices` | services/indexer/indexer.py:312-325 | The dictionary loop yields the last price of each feeding source, as a multiset |
| `Indexing.Indexer.Materialize` | services/indexer/indexer.py:287-310 | The view update, or nothing and failure when a key is missing |
| `Indexing.Indexer.IngestOne` | services/indexer/indexer.py:165-225 | New state and outcome of one row are the specified ones |
| `Indexing.Indexer.Accept` | services/indexer/indexer.py:190-225 | The same for the part after the hash check |
| `Indexing.Indexer.Ingest` | services/indexer/indexer.py:144-163 | New state, number added and outcome of a batch are the specified ones |
| `Indexing.SetInDict` | services/indexer/indexer.py:312-325 | Setting a key replaces one value of the dictionary or adds one |
| `Indexing.AppendRow` | services/indexer/indexer.py:312-325 | One more row replaces its source's last price and leaves the others |
| `Buffers.BoundedBuffer.Put` | services/indexer/backpressure.py:69-89 | Blocks exactly while full for the row, refuses exactly after an abort, otherwise appends and updates bytes and high-water marks |
| `Buffers.BoundedBuffer.GetBatch` | services/indexer/backpressure.py:91-102 | Hands over the oldest rows, up to the batch size, and accounts for their bytes |
| `Buffers.BoundedBuffer.Discard` | services/indexer/backpressure.py:109-114 | Abort empties the buffer and refuses what follows |
| `Buffers.StepKeepsInv` | services/indexer/backpressure.py:51-116 | Every producer, consumer, failure or end step keeps order, ceilings and accounting |
| `Buffers.RunKeepsInv` | services/indexer/backpressure.py:51-116 | ... under every interleaving |
| `Buffers.BufferIsFaithful` | services/indexer/backpressure.py:51-116 | Consumed, buffered and unread rows are the stream in order; count within its ceiling; bytes within theirs or one row held; a finished consumer has everything |
| `Buffers.NeverBothBlocked` | services/indexer/backpressure.py:69-102 | Some party can always move until both are done, and every move uses up work |
| `Buffers.SchedulesAreFinite` | services/indexer/backpressure.py:51-116 | No schedule is longer than the work there was |
| `Buffers.RunToTheEnd` | services/indexer/backpressure.py:193-240 | A stuck undisturbed run has delivered the whole stream within a linear number of steps |
| `Buffers.PutTells` | services/indexer/backpressure.py:63-89 | A put is refused after an abort, blocks exactly while the row does not fit beside what is held, and else appends |
| `Buffers.MarksArePeaks` | services/indexer/backpressure.py:69-89 | Over every schedule the high-water marks are the most events and bytes ever held, and the wait counter counts the times the producer started waiting |
| `Pump.StoredIsPrefix` | services/indexer/backpressure.py:193-240 | Failing inside a batch stores a prefix of what was consumed |
| `Pump.PumpRunIsRestart` | services/indexer/backpressure.py:193-240 | Whatever the interleaving and the failure point, a pump run stores a prefix of the resumed stream, all of it when it finishes |
| `Pump.PumpHistory` | services/indexer/backpressure.py:167-240 | Any history of pump runs under any limits, batch sizes, interleavings and failures inside or between batches, each restarted from the cursor, then a finished one: the store of plain ingest, the same number added, no row refused |
| `Pump.Consume` | services/indexer/backpressure.py:217-228 | The consuming loop leaves the indexer where feeding the batches leaves it |
| `Routing.AtMostOnceAcrossTheFleet` | services/ingest_failover/router.py:238-299 | Over any run of submissions and probes, with time passing between calls or not, the submissions sent under a key are refusals, then at most one that was not refused, then none; probes included for every key but their own |
| `Routing.ProbeKeyIsNotGuarded` | services/ingest_failover/router.py:168-186 | A probe and a submission under its identity are both delivered |
| `Routing.AtMostOnceExactly` | services/ingest_failover/router.py:168-299 | Probes included, a key is called at most once in every run if and only if it is not the one probes use |
| `Routing.RunConserves` | services/ingest_failover/router.py:238-299 | Every run keeps region counters, ledger and quarantine in balance |
| `Routing.NothingIsLost` | services/ingest_failover/router.py:238-299 | Between calls the regions' submissions add up to the settled keys; quarantined keys read as pending, and no others do unless a region is named "pending" |
| `Routing.DeliveredReadsAsPending` | services/ingest_failover/router.py:238-299 | A submission delivered to a region of that name reads as pending, nothing being quarantined |
| `Routing.PendingExactly` | services/ingest_failover/router.py:238-299 | The pending keys are the quarantined ones in every run if and only if no region has that name |
| `Routing.GivesUpOnlyWhenDone` | services/ingest_failover/router.py:255-299 | The loop gives up only when each available region name was refused in this call |
| `Answers.AnswersTell` | services/ingest_failover/router.py:238-299 | In every run: answered as an ambiguous duplicate if and only if a submission under the key was ambiguous before, as a settled one if and only if one was delivered before, both without a call; otherwise accepted by, or unknown at, the region its own last call went to, with that outcome |
| `Answers.SuppressedCounts` | services/ingest_failover/router.py:255-270 | The suppressed counter is the number of submissions of the run under whose key one was delivered or ambiguous before |
| `Answers.ProbeCalls` | services/ingest_failover/router.py:168-186 | A probe answers whether its call got through, calls unless the region cools down, and files nothing |
| `Outages.OutagesAreLogged` | services/ingest_failover/router.py:301-313 | In every run the log has exactly one degradation, of that region, for each time the failures of a region since its last good probe reach its limit, in that order; success counters are the good probes since the last failure |
| `Outages.FailoverTells` | services/ingest_failover/router.py:200-215 | A failover logs one event saying from where and to where, or that there is nowhere |
| `Outages.EnsuringTells` | services/ingest_failover/router.py:217-235 | A usable active region stays, without an event; with nowhere to go the region stays too, with one |
| `Routing.NoRegionIsHonest` | services/ingest_failover/router.py:255-299 | "No region" means that for every available region one of its name refused in this very call, and the key is free again |
| `Routing.HealthAlwaysTracks` | services/ingest_failover/router.py:168-186 | In every reachable state a region's counter is the number of its failed calls, probes and submissions alike, since its last good probe, and it is unavailable if and only if that number has reached its threshold |
| `Routing.RecoversWhileIdle` | services/ingest_failover/router.py:168-186 | A region out of service is not called while it cools down and returns with the first good probe after that, though nothing was submitted in between |
| `Routing.OutageAndRecovery` | services/ingest_failover/router.py:168-186 | Every fresh fleet whose first region has a positive cooldown has such a run, whatever its threshold: as many refused probes, idleness, and one good probe |
| `Routing.KeyIsIdentity` | services/ingest_failover/router.py:61-70 | Without bars in the sources, keys agree if and only if source, asset and ledger do |
| `Routing.KeyIsIdentityExactly` | services/ingest_failover/router.py:61-70 | A key belongs to one source, asset and ledger only if and only if neither name contains a bar |
| `Routing.BarsCollide` | services/ingest_failover/router.py:61-70 | With one, two different submissions share a key |
| `Routers.RegionRouter.NoteFailure` | services/ingest_failover/router.py:301-313 | The region object's counters and health after a failure |
| `Routers.RegionRouter.FirstUsable` | services/ingest_failover/router.py:188-215 | The first available region that is neither current nor skipped |
| `Routers.RegionRouter.DoFailover` | services/ingest_failover/router.py:200-215 | The new active region, or none, and the event logged |
| `Routers.RegionRouter.EnsureActive` | services/ingest_failover/router.py:217-235 | Keeps the active region while usable, else fails over |
| `Routers.RegionRouter.Submit` | services/ingest_failover/router.py:238-299 | The retry loop on region objects ends in the specified state with the specified result; it terminates because each round tries a new name |
| `Routers.RegionRouter.Probe` | services/ingest_failover/router.py:168-186 | Cooldown, probe call and recovery, as specified |
| `RetryBudgets.StepKeepsInv` | services/rpc_guard/budget.py:135-209 | Any caller's next atomic step keeps tokens in range, the paid retries bounded and the slots counted |
| `RetryBudgets.RunKeepsInv` | services/rpc_guard/budget.py:135-209 | ... under every interleaving |
| `RetryBudgets.FleetIsBounded` | services/rpc_guard/budget.py:95-105 | Tokens in range, retries within bucket plus ratio times calls, attempts within `max_attempts_for`, slots equal to live calls and within the cap |
| `RetryBudgets.MaxAttemptsTells` | services/rpc_guard/budget.py:99-105 | The stated bound is the lesser of every call at its cap and every call once plus the allowance |
| `RetryBudgets.StepTells` | services/rpc_guard/budget.py:135-209 | Each atomic step moves tokens, slots, counters, elapsed time and the phase of the call at hand as its phase and outcome call for, refusals counted; other calls stay as they were |
| `RetryBudgets.AdmittedTells` | services/rpc_guard/budget.py:135-148 | An admitted call starts with nothing spent; a refused one leaves no call |
| `RetryBudgets.BackoffIsCappedDoubling` | services/rpc_guard/budget.py:95-97 | The first backoff is the base, each next one twice the last up to the cap |
| `RetryBudgets.HonestCallsMeetTheDeadline` | services/rpc_guard/budget.py:168-209 | A call whose attempts and sleeps keep their bounds ends within its attempts and overruns the deadline by at most the time it waited, outside them, since the last deadline check it passed; without waiting it is on time |
| `RetryBudgets.DeadlineExactly` | services/rpc_guard/budget.py:187-207 | Calls that keep their bounds and wait at most w after their last deadline check are on time in every run if and only if w is zero |
| `RetryBudgets.WaitingMakesLate` | services/rpc_guard/budget.py:187-194 | Under every policy and for every w some call that keeps its bounds and waits w after its last deadline check ends exactly w late |
| `RetryBudgets.RetryBudget.Admit` | services/rpc_guard/budget.py:135-148 | Takes a slot or refuses, and refills the bucket |
| `RetryBudgets.RetryBudget.TakeRetryToken` | services/rpc_guard/budget.py:154-160 | Spends a whole token or refuses |
| `RetryBudgets.RetryBudget.BeginAttempt` | services/rpc_guard/budget.py:190-194 | Counts the attempt and enters the operation with the timeout fixed before |
| `RetryBudgets.RetryBudget.CheckDeadline` | services/rpc_guard/budget.py:187-194 | Ends the call once its deadline is spent, else fixes the timeout from what remains |
| `RetryBudgets.RetryBudget.AttemptOnce` | services/rpc_guard/budget.py:186-205 | One pass of the loop, waiting for the lock included, is a run of the atomic steps |
| `RetryBudgets.RetryBudget.Settle` | services/rpc_guard/budget.py:193-209 | What an attempt's outcome leads to, each exactly when: return, raise, refusal by attempts, refusal by budget, or a paid retry |
| `RetryBudgets.RetryBudget.BackOff` | services/rpc_guard/budget.py:206-207 | The sleep is bounded by backoff and remaining time, never negative |
| `RetryBudgets.RetryBudget.Perform` | services/rpc_guard/budget.py:168-209 | The retry loop with arbitrary waits is a run of the shared machine, and gives its slot back on every path |
| `SourceQueues.BackoffIsMonotone` | src/source_client.rs:156-165 | More attempts never wait less, and never more than the cap |
| `SourceQueues.BackoffIsCappedDoubling` | src/source_client.rs:156-165 | The minimum of base times two to the n-1 and the cap up to 32 attempts; the saturated factor beyond; once capped, capped |
| `SourceQueues.SourceSubmissionQueue.Enqueue` | src/source_client.rs:99-113 | Appends, or refuses exactly when full |
| `SourceQueues.SourceSubmissionQueue.NextForDelivery` | src/source_client.rs:115-123 | Drops every stale submission, then hands out the oldest left, which is young enough |
| `SourceQueues.SourceSubmissionQueue.DropStale` | src/source_client.rs:167-171 | Keeps exactly the young ones, in order |
| `SourceQueues.SourceSubmissionQueue.RecordResult` | src/source_client.rs:125-154 | Delivered exactly on success; dropped as stale exactly on a failure at or past the age; put back one attempt on with its backoff exactly on a failure in time with retries and room left; dropped as exhausted otherwise |
| `SourceQueues.RecordedExactly` | src/source_client.rs:125-154 | The same of the specification |
| `SourceQueues.RetainInOrder` | src/source_client.rs:167-171 | What stays of the queue is exactly the young, in the order they had |
| `SourceQueues.RunKeepsInv` | src/source_client.rs:99-154 | Over any run each live submission is in one place and was handed out once per attempt, each time young enough |
| `SourceQueues.NoneLostNoneRepeated` | src/source_client.rs:99-154 | Accepted equals queued plus in flight plus delivered plus dropped; length within its bound; no submission handed out more than retries plus one times, and none, first try or retry, at or past the maximum age |
| `SourceQueues.DeliveredCounts` | src/source_client.rs:125-154 | Over any run the delivered tally is the number of successful reports |
| `SourceQueues.DeliveredIsOver` | src/source_client.rs:115-154 | A submission reported delivered is never handed out again |
| `Sorting.SortIsAscending` | services/indexer/indexer.py:82-92 | Sorting by a total preorder ascends |
| `Sorting.SortIgnoresOrder` | services/indexer/indexer.py:82-92 | ... and forgets arrival order when there are no ties |
| `Sorting.OrderStatistic` | services/indexer/indexer.py:82-92 | The k-th smallest is at or below x if and only if more than k elements are |
| `Medians.PortsAgree` | services/sla_monitor/monitor.py:113-122 | The truncating and the flooring port agree on every input |
| `Medians.MedianByCounting` | services/indexer/indexer.py:82-92 | The price of middle rank, counted by how many are at or below; halfway between the middle two, rounded down, of an even number; zero of none |
| `Medians.IgnoresOrder` | services/indexer/indexer.py:82-92 | The median does not depend on order |
| `Medians.Monotone` | services/indexer/indexer.py:82-92 | Raising prices never lowers it |
| `Medians.ByzantineRobust` | README.md:10-13 | With fewer than half the prices arbitrary it lies within the honest range |
| `Medians.HalfBreaksIt` | README.md:10-13 | With half of them it can be carried past any bound |
| `Strings.Transitive` | services/anomaly_detection/detector.py:116-129 | Python's string order is transitive |
| `Detection.ScoreRoundInOrder` | services/anomaly_detection/detector.py:69-113 | The scoring loop equals the specified alerts, in order |
| `Alerts.AlertedExactly` | services/anomaly_detection/detector.py:69-113 | With median and spread given by counting: alerted, in order, are exactly the submissions of a round with enough peers at least the threshold times the scaled spread, and enough basis points, from the median; each alert says its own source, price, time, score and deviation |
| `Alerts.ScaleChangesNothing` | services/anomaly_detection/detector.py:69-113 | Quoting all prices in another unit changes no verdict |
| `Detection.AtMostHalf` | services/anomaly_detection/detector.py:69-113 | With spread or without, at most half a round is flagged when threshold times scale exceeds one |
| `Detection.LowThresholdFlagsAll` | services/anomaly_detection/detector.py:69-113 | Otherwise some round is flagged entirely, whatever the other settings |
| `Detection.AtMostHalfExactly` | services/anomaly_detection/detector.py:69-113 | So the condition is exact |
| `Streaming.DetectAnomalies` | services/anomaly_detection/detector.py:116-129 | Grouping into a dictionary, scoring and sorting equals the specified batch |
| `Streaming.DetectIsOrdered` | services/anomaly_detection/detector.py:116-129 | The batch is ordered by ledger, asset, source |
| `Streaming.StreamingDetector.Feed` | services/anomaly_detection/detector.py:194-204 | Buffer and alerts after one event, and what was flushed |
| `Streaming.StreamingDetector.FlushAll` | services/anomaly_detection/detector.py:206-213 | Scores and removes every open round |
| `Streaming.StreamingDetector.Run` | services/anomaly_detection/detector.py:215-220 | Feeding a stream and flushing |
| `Streaming.RoundsScoredExactly` | services/anomaly_detection/detector.py:194-229 | At least one scored round per distinct asset and ledger; exactly one if and only if no asset returns to a ledger it left |
| `Streaming.StreamingEqualsBatch` | services/anomaly_detection/detector.py:194-229 | On such streams, the same multiset of alerts as the batch |
| `Streaming.AscendingDoesNotReturn` | services/anomaly_detection/detector.py:175-181 | Non-decreasing ledgers per asset are enough |
| `Streaming.RunIsBatch` | services/anomaly_detection/detector.py:215-229 | The detector object returns the batch's alerts, scores one round per key, and counts every alert it emits |
| `StreamLimits.AgreesExactly` | services/anomaly_detection/detector.py:175-229 | Stream and batch report the same multiset of alerts under every configuration if and only if no asset returns to a ledger it left |
| `StreamLimits.ReturningDisagrees` | services/anomaly_detection/detector.py:194-204 | For a returning key, requiring as many peers as the batch finds makes the stream miss alerts of the batch |
| `SlaMonitors.SlaMonitor.Observe` | services/sla_monitor/monitor.py:171-248 | The deques keep holding the end of the run, and with fitting windows the violations, each with the source it names, are those the whole run calls for |
| `SlaMonitors.RaisedIsOwed` | services/sla_monitor/monitor.py:217-246 | Clauses 9.2, 9.4 and 4.1 read the same from bounded windows as from full history |
| `SlaClauses.OwedExactly` | services/sla_monitor/monitor.py:113-135 | Exactly which violations a round calls for, clause by clause, from the run alone: medians by rank, deviation by quotient, the last rounds of the asset and the stale rounds of a window by position and count |
| `SlaMonitors.WindowsAgreeExactly` | services/sla_monitor/monitor.py:238-246 | The burn window holds the short window if and only if short is not longer than long |
| `SlaMonitors.Watch` | services/sla_monitor/monitor.py:154-248 | Over a whole run the recorded violations are the full-history ones |
| `Provenance.NoIssuesExactly` | services/provenance/asset_metadata.py:250-291 | Verification reports nothing if and only if every revision links, matches its commitment and is numbered by position |
| `Provenance.IssuesTell` | services/provenance/asset_metadata.py:250-291 | A revision is reported as mislinked, miscommitted or misnumbered exactly when it is |
| `Provenance.ValidateTells` | services/provenance/asset_metadata.py:43-57 | A configuration is refused for the first question it fails, and accepted if it fails none |
| `Provenance.RefusalTells` | services/provenance/asset_metadata.py:160-200 | A proposal is refused for its configuration first, then its ledger, then its timestamp |
| `Provenance.TamperEvident` | services/provenance/asset_metadata.py:117-146 | Two verifying chains with one head hash are the same chain, or exhibit a collision |
| `Provenance.EditsAreCaught` | services/provenance/asset_metadata.py:250-291 | An edit that keeps the head hash is reported, or exhibits a collision |
| `Provenance.PrefixVerifies` | services/provenance/asset_metadata.py:250-291 | A truncated chain still verifies: only the head hash shows it |
| `Provenance.CommitsVerify` | services/provenance/asset_metadata.py:160-223 | Every chain built by commits verifies, carries the real prior configurations and moves forward |
| `Provenance.CommittableExactly` | services/provenance/asset_metadata.py:160-291 | A chain is one commits can produce if and only if it verifies and is governed |
| `Provenance.VerifiesWithoutGovernance` | services/provenance/asset_metadata.py:250-291 | A verifying chain whose ledgers run backwards |
| `Provenance.EarlyExitExactly` | services/provenance/asset_metadata.py:228-248 | The early exit finds the last effective revision for every query if and only if the chain ascends |
| `Provenance.AssetMetadataProvenanceTracker.ProposeAndCommitRevision` | services/provenance/asset_metadata.py:160-223 | The refusal, leaving no trace, or the next revision; other assets untouched; all chains stay committed ones |
| `Provenance.AssetMetadataProvenanceTracker.VerifyProvenanceChain` | services/provenance/asset_metadata.py:250-291 | The loop lists the specified issues, and is content exactly when the chain verifies |
| `Provenance.AssetMetadataProvenanceTracker.GetMetadataAt` | services/provenance/asset_metadata.py:228-248 | The configuration of the last revision effective at a ledger or timestamp, none if there is none |
| `Payloads.NormaliseIsNormal` | services/tx_review/payload.py:171-251 | What normalising yields is well typed, in range and sorted by unique names at every level |
| `Payloads.TypedRoundTrip` | services/tx_review/payload.py:171-251 | Normalising the encoding of a normal value gives it back |
| `Payloads.SameValueExactly` | services/tx_review/payload.py:171-251 | Two typed documents have one value if and only if they differ only in key order and integer spelling |
| `Documents.NormalisePayload` | services/tx_review/payload.py:254-324 | The operation loop equals the specified normalisation, first refusal included |
| `Refusals.TypedTells` | services/tx_review/payload.py:171-251 | A typed value is refused with a code if and only if that is what is wrong with it: shape, type, or value, and of a list or object its first wrong part |
| `Refusals.ScalarTells` | services/tx_review/payload.py:187-236 | A scalar is read as the one value that fits its type, and refused if none does |
| `Refusals.OperationTells` | services/tx_review/payload.py:284-314 | An operation is refused for the first of seven questions it fails, then for its first wrong argument; otherwise read, its arguments sorted by name |
| `Refusals.DocumentTells` | services/tx_review/payload.py:254-324 | A document is refused for the first of twelve questions it fails, then for its first wrong operation; otherwise read, field by field |
| `Documents.SameDocumentExactly` | services/tx_review/payload.py:254-324 | The documents that normalise to one payload are exactly those alike: key order, integer spelling, defaults |
| `KeyOrders.KeyOrderIsIrrelevant` | services/tx_review/payload.py:254-324 | Key order at any nesting level changes neither acceptance nor the payload |
| `Canonicals.PayloadIsNormal` | services/tx_review/payload.py:254-324 | Every accepted payload is within the stated limits and sorted |
| `Canonicals.PayloadRoundTrip` | services/tx_review/payload.py:254-324 | A payload's own encoding normalises to it |
| `Canonicals.NormalisingIsIdempotent` | services/tx_review/payload.py:254-324 | Normalising twice is normalising once |
| `Canonicals.CanonicalIsInjective` | services/tx_review/payload.py:126-137 | Different normalised payloads have different canonical forms |
| `Canonicals.SameCanonicalExactly` | services/tx_review/payload.py:126-141 | Two documents have one canonical form if and only if they are alike |
| `Reviews.ReviewersExactly` | services/tx_review/review.py:252-281 | The set arithmetic accepts exactly enough, distinct, named reviewers other than the requester |
| `Reviews.ApprovedExactly` | services/tx_review/review.py:153-314 | Approved if and only if well formed, bound by digest and summary, simulated, independently reviewed and in force |
| `Verdicts.VerdictTells` | services/tx_review/review.py:153-314 | An approval is refused with the code of the first of twenty-three checks it does not pass; passing them all it releases the payload under its digest, with its reviewers sorted and its two times |
| `Verdicts.LowerTells` | services/tx_review/review.py:181-196 | Lower-casing changes the capital letters of a digest and nothing else |
| `Verdicts.StripTells` | services/tx_review/review.py:252-281 | Stripping takes the white space off both ends of a name, and all of it |
| `Reviews.FourEyes` | services/tx_review/review.py:93-113 | In a guarded environment two different people other than the requester stand behind every approval |
| `Reviews.OneApprovalOneDocument` | services/tx_review/review.py:181-232 | Everything one approval ever releases is alike, or a collision of the hash |
| `Reviews.AlikeDecidedAlike` | services/tx_review/review.py:153-314 | Alike documents get the same decision |
| `Reviews.BuiltApprovalExactly` | services/tx_review/review.py:317-342 | When a built approval would be accepted: its summary does not end in a newline, it is simulated, independently reviewed and in force |
| `Reviews.NewlineIsNeverApproved` | services/tx_review/review.py:197-207 | No approval releases a payload whose summary ends in a newline |
| `Reviews.NeverApprovable` | services/tx_review/review.py:197-207 | A document that normalises and that no approval, policy or time releases |
| `Reviews.ApprovableExactly` | services/tx_review/review.py:153-314 | Given a review window, some approval releases a document if and only if it normalises, its summary does not end in a newline and its fee is within the cap |
| `Reviews.RStripExactly` | services/tx_review/review.py:197-207 | Trimming newlines leaves none at the end, and changes a text if and only if it ended in one |
| `Renders.CutAfterLineBreak` | services/tx_review/render.py:14-32 | A normalised payload whose summary is cut at the limit right after a line break |
| `Renders.LinesTell` | services/tx_review/render.py:18-32 | The summary of an accepted payload has its line for every fact and every operation in its place, none dropped, and is cut only by length |
| `Renders.OperationLinesTell` | services/tx_review/render.py:28-30 | An operation's line has its number, contract, function and arguments |
| `Renders.TypedTells` | services/tx_review/payload.py:144-154 | A value reads as its type and text, a list or object as its parts in brackets |
| `Renders.DecimalTells` | services/tx_review/render.py:22-26 | The digits of a number spell it |
| `Renders.ScalarsRenderApart` | services/tx_review/payload.py:144-154 | A value that is neither vec nor map shares its rendering with no other value |
| `Renders.UnambiguousExactly` | services/tx_review/payload.py:144-154 | Values of a kind can be told from all others by their rendering if and only if the kind is neither vec nor map |
| `Regression.SlopeOfLine` | services/soak/rig.py:337-356 | Samples on a line have its slope; flat samples have slope zero |
| `Regression.RisingExactly` | services/soak/rig.py:337-356 | For samples that never fall the slope is positive if and only if the last exceeds the first |
| `Soaks.StateModel.Apply` | services/soak/rig.py:98-128 | Each key keeps exactly its last window of prices, or all when leaky, and the byte count is theirs |
| `Soaks.HeldStep` | services/soak/rig.py:98-128 | A submission grows the retained state by one entry exactly when nothing is pruned or its key is not full |
| `Soaks.LeakyHoldsAll` | services/soak/rig.py:112-128 | The leaky model retains one entry per submission |
| `Soaks.BoundedHolds` | services/soak/rig.py:98-110 | The bounded one at most a window per key |
| `Soaks.MarksAscend` | services/soak/rig.py:462-487 | Submission marks increase strictly |
| `Soaks.RunSoak` | services/soak/rig.py:425-491 | The sampling loop takes the retained bytes at exactly the specified marks |
| `Soaks.LeakIsCaughtExactly` | services/soak/rig.py:387-392 | The leaky run is reported if and only if it has two samples and its bytes per thousand exceed the ceiling |
| `Soaks.GrowthReportedExactly` | services/soak/rig.py:337-392 | At ceiling zero, growth is reported if and only if a key was still filling between the first and last sample after the warm-up |
| `Soaks.LateSourceReadsAsLeak` | services/soak/rig.py:337-392 | A bounded run in which a key is first seen late is reported |
| `Soaks.FullKeysPass` | services/soak/rig.py:337-392 | The bounded run passes once every key is full by the end of the warm-up |
| `Baselines.UnsafeCounts` | services/static_analysis/sast.py:138-151 | The count of every key that occurs, and no other key |
| `Baselines.CheckUnsafe` | services/static_analysis/policy.py:247-274 | Without a baseline one error; otherwise creep is exactly the keys over it and the errors are the baseline's own followed by exactly the keys under it, each once, in key order |
| `Baselines.Errors` | services/static_analysis/policy.py:186-201 | A missing or outdated approval digest, then exactly the negative entries in key order |
| `Baselines.ApprovalTells` | services/static_analysis/policy.py:186-197 | No approval, an outdated one, or neither, by the digest of the counts |
| `Baselines.Exceedances` | services/static_analysis/policy.py:378-396 | Spending the baseline reports exactly the findings with the accepted number of their key before them |
| `Baselines.ExcessPerKey` | services/static_analysis/policy.py:378-396 | Per key, observed minus accepted, not below zero |
| `Baselines.LastOnesOfKey` | services/static_analysis/policy.py:378-396 | And they are the last ones in scan order |
| `Baselines.ViewsAgreeExactly` | services/static_analysis/policy.py:247-274 | No creep if and only if nothing is located beyond the baseline and no entry is negative |
| `Baselines.NegativeEntryParts` | services/static_analysis/policy.py:378-396 | With a negative entry nothing is located and creep is still counted |
| `Baselines.Gate` | services/static_analysis/policy.py:247-274 | Neither creep nor error if and only if an approved baseline agrees with the counts on every key; a clean gate has no negative entry and locates nothing beyond it |
| `Baselines.PartitionExactly` | services/static_analysis/policy.py:399-423 | A key splits back into rule and path if and only if the rule has no colon |
| `Baselines.ScopedOutTogether` | services/static_analysis/policy.py:143-156 | An allowlisted pair leaves both sides of the comparison and no other pair moves |

## Left out

Assumptions that shape the theorems:

- `Resume.CrashResume`: the stream is ledger-ordered with one close time and one hash per ledger; the result is about every table, not the per-batch hash marker, which each batch resets.
- `Reindex.ReorgIsReindex`: gaps are compared only when jumps are refused, because a rolled-back jump can leave one behind (`Reorg.GapsRestoredExactly`); nothing in the replaced history re-adds or re-removes a source of the prefix; logs of rejections and reorgs are not compared.
- `Views.LossIsSilent`: the store stays open between the two batches; closing the database before the next commit discards the row that raised, and the stored part of its batch with it.
- `Recomputes.AlwaysDerived`: an aggregate is recomputed once, when it is written; later backfill does not recompute it, so the tables it derives from are those of a point of the run and not the last ones.
- `SourceTables.AlwaysBacked`: the converse, that every source event has its row, fails after a rollback (`Reorg.RollbackRestores`).
- `Gaps.RunKeepsInv`: stated from the origin up; backfill below the ledger of the first stored event is not claimed complete.
- `Indexing.Indexer.StoredHash`: the row with the lowest event index answers, as primary-key order gives it.
- `Indexing.Indexer.LatestPrices`: states the prices as a multiset, because only their median is used.
- `Buffers.BoundedBuffer.Put`: one lock region; waiting on a condition is a blocked step tried again.
- `Routers.RegionRouter.Submit`: region objects are taken to be distinct, and calls do not overlap; the key keeps source with asset and ledger apart instead of hashing them together.
- `RetryBudgets.RetryBudget.Perform`: waits for the lock without interference from the callers that hold it; interleavings are the subject of the step machine. Per-reason rejection counters are one counter.
- `SourceQueues.NoneLostNoneRepeated`: the caller hands every popped submission back; the payload is a tag; attempt counts stay below 2^32.
- `Detection.ScoreRoundInOrder`: exact reals for floats, so rounding at a threshold is not modelled. The same holds for `RetryBudgets`, `SlaMonitors` burn rates and `Regression`.
- `Streaming.StreamingDetector.Feed`: alert sinks are the list of what was delivered; webhooks and logging are not part of this model.
- `Provenance.TamperEvident`: the hash is an arbitrary function and a collision is exhibited, not assumed away; JSON text and SHA-256 are not part of this model.
- `Reviews.OneApprovalOneDocument`: the same for the payload digest; the JSON text of a canonical list is taken to determine the list. Integer parsing and timestamp parsing are arbitrary functions; lower-casing and stripping cover ASCII.
- `SlaMonitors.SlaMonitor.Observe`: violation texts beyond the source they name, metrics and owners are constants of the clause and left out; `check_relationships` and the clause table's consistency check are not modelled.
- `Soaks.RunSoak`: the stream is arbitrary, so workload generation is not part of this model; latency, memory and peak checks are left out.
- `Baselines.CheckUnsafe`: the approval digest is an arbitrary function of the counts; message texts are left out; path patterns are an arbitrary relation.

Not modelled, because it would only add easy members or lies outside the logic: SQLite and its commits,
JSON parsing, HTTP and subprocess calls, metric and Markdown rendering, command lines; non-integer ledgers
share one arrival counter; detail texts of rejections; blank strings are ASCII whitespace; the on-chain
contract; regex-driven scanners and document linters; forecasting and capacity formulas; checklist
validators; the router's drill and cost summary; the optional isolation-forest detector.
