# Proofs about llm_bench

llm_bench runs many language models over the same task units, drops the weaker half after every
round, and must neither lose paid answers nor overspend nor let an eliminated model back in. This
project states those promises in Dafny and proves them. Code that changes state step by step is a
class with the same fields, a method with a loop, or a machine whose runs are arbitrary interleavings;
code made of expressions is functions. Money is `real`. Random draws, shuffles, `pstdev`, provider
answers, scores and the iteration order of dicts and sets are arbitrary, so every theorem holds for
every seed and every order of events.

## The parts

1. **Storage.** `MemoryStorage` is one dict and serves as the specification. `FileStorage` is a log per
   tag, an index without tags and last-wins reading; `PostgresStorage` a conditional upsert.
   `StorageSimulation` runs the first two side by side over every trace of writes and deletes and gives
   the exact conditions under which bulk loads and queries agree. `UpsertLaw` says which attempt at a
   key each backend ends up with. `FileCrash` lets the process die between any two steps.
   `FileLifecycle` interleaves any number of `initialize` and `close` calls. `LanguageSpend` tells spend
   per op by the stage labels.
2. **Resume.** `ResumeCache` and `CacheCoherence` keep the cache and storage coherent while pipelines
   run; `ResumeComplete` shows that a second run after a clean one makes no provider call.
3. **Budget.** `BudgetGate` has the two operations, `ProjectionLaws` says what is admitted after any run,
   `BudgetProtocol` interleaves them and bounds the overshoot, `GateRefinement` ties the running total to
   a full recount of storage.
4. **The cascade.** `RoundRunner` is the pipeline loop with its counters, `QuarantineLaws` why a pipeline
   stops, `Pruner` the statistical prune, `PrunerLaws` what it means in scores, prices and counts,
   `Halving` the promotion, `HalvingLaws` its guarantees, and `Cascade` whole rounds and phases.
5. **Algorithms.** `Pairing`, `StageGraph`, `Estimator`, with `Scoring`, `Schedule`, `AliveFilter` and
   `Hashing` as the small rules they rest on. `Common`, `Sums`, `Sorting`, `Rows` and `Calls` hold
   shared vocabulary.

## Where the code and its own words differ

The model follows the code.

- `core/types.py:163-165` says the cycle check should never trigger once all parents exist. Two stages
  that name each other pass the parent check and are rejected only by the search
  (`StageGraph.TwoStageCycle`).
- `storage/postgres.py:405-424` promises that only a usable row is final. A clean answer shorter than 20
  characters is final too, and a usable retry after it is dropped (`UpsertLaw.PgDropsUsableRetry`; exact
  conditions in `PgStepAgreesIff`, `PgHistoryAgreesIff`, `PgServesSameIff` and `PgAgreesThroughoutIff`).
- `halving/driver.py:37-58` describes `specialty_preserved` as the models the rescue kept. It lists every
  stage winner that is not dead, and after the last round also eliminated ones
  (`HalvingLaws.OverlapsIff`, `LastRoundOverlapsIff`; an input in `OverlapHappens`).
- The coverage gate divides by `units_per_arm` although the slice is clamped to the pool: with a pool
  below 70% of `units_per_arm` even a fully cached round excludes every candidate
  (`Cascade.CachedRoundExcludesNobodyIff`).
- An empty stage graph switches the gate off, and then a model that never entered a round can come out
  of it; with any stage it cannot (`Cascade.OutsidersComeOutIff`).
- The file backend is said to behave like the in-memory one. Their row queries differ exactly from the
  first retry that moves a failed row to another tag, or the first delete that wipes other tags
  (`StorageSimulation.QueriesAgreeIff`).
- `storage/file.py:614-619` orders the two delete steps so that no index row refers to a log that is gone.
  The tag `.` passes the tag check and names the storage root: deleting it removes every tag's log while
  the index keeps the other tags' rows (`FileCrash.BackedThroughoutIff`, `RootDeleteOrphans`,
  `StorageSimulation.FileSimulatesMemory`).
- The cache serves a parsed answer shorter than 20 characters until the process ends and has lost it
  after a reload (`CacheCoherence.SurvivesReloadIff`).

## Model

| member | source | states |
|---|---|---|
| Calls.UsableIffCacheableAndLong | src/llm_bench/runner/round_runner.py:451-472 | a row built from a call outcome is usable for storage exactly when the pipeline's verdict is cacheable and the answer has 20 characters, and reloading it gives the very entry the pipeline puts in the cache |
| Calls.VerdictIs | src/llm_bench/runner/round_runner.py:451-472 | money was spent unless the provider failed, only a parsed answer is cached, and an unparsed one leaves its first 200 characters |
| Calls.SpendOfCall | src/llm_bench/runner/round_runner.py:664-671 | a recorded call adds the effective cost to the spend where one is reported, 0 included, else the raw cost |
| MemoryStorage.InMemoryStorage.RecordCall | src/llm_bench/storage/memory.py:80-107 | an existing usable row is kept, anything else is replaced; every other key is untouched |
| MemoryStorage.InMemoryStorage.PrefetchResumeCache | src/llm_bench/storage/memory.py:111-143 | returns exactly the served rows, in cached form, whatever order the dict is walked in |
| MemoryStorage.InMemoryStorage.GetCached | src/llm_bench/storage/memory.py:145-170 | a hit exactly for a stored usable row, with that row's answer |
| MemoryStorage.InMemoryStorage.QueryRows | src/llm_bench/storage/memory.py:172-187 | yields each row of the tag and stage once and nothing else |
| MemoryStorage.InMemoryStorage.QuerySpendByOp | src/llm_bench/storage/memory.py:206-220 | one entry for each op that has a row under the tag, worth the sum of their effective costs; `LanguageSpend.SpendMapIs` says which rows those are |
| MemoryStorage.InMemoryStorage.DeleteExperiment | src/llm_bench/storage/memory.py:249-259 | removes the rows of the tag, keeps all others, returns how many a query of the tag would have listed |
| MemoryStorage.SpendOfUpdate | src/llm_bench/storage/memory.py:206-220 | one write moves the spend of its own tag and op by the new cost minus the replaced one, and no other spend |
| LanguageSpend.LanguageIsStripped | src/llm_bench/storage/memory.py:275-288 | an op followed by an underscore and two lower-case letters belongs to that op |
| LanguageSpend.OpIsBelongsTo | src/llm_bench/storage/memory.py:275-288 | the op of a label is what stands before a language, and the label itself exactly when there is none |
| LanguageSpend.SpendMapIs | src/llm_bench/storage/memory.py:206-220 | a spend map has an entry for an op exactly when some row of the tag is labelled with the op or a language of it, worth the effective costs of just those rows |
| LanguageSpend.LanguagesShareAnEntry | src/llm_bench/storage/memory.py:206-220 | when all rows of the tag are of one op or its languages, the map has one entry, worth all of them |
| FileStorage.FileStorage.RecordCall | src/llm_bench/storage/file.py:291-353 | appends to the tag's log and indexes a usable row, except when the key is indexed already; a malformed tag is an error and changes nothing |
| FileStorage.FileStorage.PrefetchResumeCache | src/llm_bench/storage/file.py:357-394 | returns exactly the index rows that pass the filters |
| FileStorage.FileStorage.GetCached | src/llm_bench/storage/file.py:396-430 | answers from the index alone |
| FileStorage.FileStorage.QueryRows | src/llm_bench/storage/file.py:434-496 | the loop over the log computes the last line of each key, among the lines of the requested stage |
| FileStorage.FileStorage.DeleteExperiment | src/llm_bench/storage/file.py:603-637 | drops the index rows that came from the tag and the tag's log, for the tag `.` (the storage root) every log, and returns the number of distinct keys in the tag's own; a malformed tag is an error |
| FileStorage.ValidTagIff | src/llm_bench/core/types.py:25-43 | a tag with a separator, `..`, nothing or more than 200 characters is refused, and every other tag of letters, digits, `_`, `.` and `-` is accepted |
| PostgresStorage.PostgresStorage.RecordCall | src/llm_bench/storage/postgres.py:395-463 | the conditional upsert: an existing row is replaced exactly when it has an error class or a parse-failure prefix |
| PostgresStorage.PostgresStorage.PrefetchResumeCache | src/llm_bench/storage/postgres.py:467-509 | the rows its WHERE clause selects are exactly those the in-memory backend would serve, for every minimum length and both modes |
| PostgresStorage.PostgresStorage.GetCached | src/llm_bench/storage/postgres.py:511-546 | a hit exactly for a usable row, so a stored clean but short row is not served |
| PostgresStorage.PostgresStorage.QuerySpendByOp | src/llm_bench/storage/postgres.py:603-616 | regrouping the per-stage sums gives the same per-op spend as summing rows directly, so `LanguageSpend.SpendMapIs` holds of it too |
| PostgresStorage.PostgresStorage.DeleteExperiment | src/llm_bench/storage/postgres.py:675-698 | removes the rows of the tag and counts them |
| PostgresStorage.RegroupedSpend | src/llm_bench/storage/postgres.py:585-616 | for every table, summing by stage and then by op loses nothing and counts nothing twice |
| StorageSimulation.FileSimulatesMemory | src/llm_bench/storage/file.py:291-353 | over traces of writes and deletes under any tags, the full simulation (index, and every dict row last of its key in its tag's log) holds at every point if and only if no delete of the tag `.` comes while rows of other tags are stored |
| StorageSimulation.IndexIsUsablePart | src/llm_bench/storage/file.py:291-353 | after every trace under any tags, `.` included, the index is exactly the usable part of the dict |
| StorageSimulation.RecordSimulates | src/llm_bench/storage/file.py:299-353 | one write keeps the simulation |
| StorageSimulation.DeleteSimulatesIff | src/llm_bench/storage/file.py:603-637 | one delete keeps the simulation if and only if it is not a delete of the root over rows of other tags |
| StorageSimulation.LookupsAgree | src/llm_bench/storage/file.py:396-430 | single lookups of both backends agree after every trace |
| StorageSimulation.IndexServesUsable | src/llm_bench/storage/file.py:357-394 | a bulk load from the index is the served rows of the dict that are usable |
| StorageSimulation.PrefetchAgreesIff | src/llm_bench/storage/file.py:357-394 | bulk loads agree if and only if the filters let no unusable row of the dict through |
| StorageSimulation.PrefetchAgreesAtDefaultLength | src/llm_bench/storage/file.py:357-394 | successful-only bulk loads with a minimum length of 20 or more always agree |
| StorageSimulation.QueryContained | src/llm_bench/storage/file.py:434-483 | after every trace that wipes nothing, whatever a memory query shows the file query shows, with the same row |
| StorageSimulation.RecordKeepsViewsIff | src/llm_bench/storage/file.py:299-353 | from equal queries, one write keeps them equal if and only if it is no retry of a failed row under another tag |
| StorageSimulation.DeleteKeepsViewsIff | src/llm_bench/storage/file.py:603-637 | from equal queries, one delete keeps them equal if and only if it is not a delete of the root over rows of other tags |
| StorageSimulation.QueriesAgreeIff | src/llm_bench/storage/file.py:434-483 | over whole traces, queries agree at every point if and only if no write moves a failed row to another tag and no delete of the root wipes other tags |
| StorageSimulation.QueriesAgreeForSingleHome | src/llm_bench/storage/file.py:434-483 | with one tag and stage per key every query agrees after every trace that wipes nothing, with or without a stage filter |
| StorageSimulation.SpendAgreesForSingleHome | src/llm_bench/storage/file.py:508-533 | then the spend per op read from the log is the one read from the dict |
| StorageSimulation.MigratedRowLingers | src/llm_bench/storage/file.py:434-483 | the concrete difference: a failed row retried under a second tag is gone from memory's first tag and still in its log |
| StorageSimulation.RootDeleteForgetsOthers | src/llm_bench/storage/file.py:629-636 | concretely: deleting the tag `.` removes the log of a row under another tag, which memory keeps; lookups still agree |
| UpsertLaw.FirstOrLast | src/llm_bench/storage/memory.py:80-107 | picks an attempt that is final, or else the last attempt of a history without a final one |
| UpsertLaw.KeepsFirstFinalElseLast | src/llm_bench/storage/memory.py:80-107 | over any trace of writes and deletes, an upsert that never replaces final rows holds each key's first final attempt since a delete last removed it, else its last |
| UpsertLaw.MemoryKeepsFirstUsableElseLast | src/llm_bench/storage/memory.py:80-107 | so the dict holds the first usable attempt, else the last, deletes included |
| UpsertLaw.FileKeepsFirstUsableElseLast | src/llm_bench/storage/file.py:315-352 | the last-wins read of the log holds the same attempt, or none when the dict holds none, when the key stays under one tag and is never wiped |
| UpsertLaw.LogHoldsSameKeyIff | src/llm_bench/storage/file.py:434-483 | with one tag per key, log and dict hold the same row of it at every point if and only if the root is never deleted while the key is stored under another tag |
| UpsertLaw.PgStepAgreesIff | src/llm_bench/storage/postgres.py:405-424 | one Postgres write differs from memory's exactly when another attempt follows a clean but short row |
| UpsertLaw.PgHistoryAgreesIff | src/llm_bench/storage/postgres.py:405-424 | for whole histories of a key, both end with the same row if and only if no first clean attempt is short with a usable attempt, or another last one, after it |
| UpsertLaw.PgServesSameIff | src/llm_bench/storage/postgres.py:511-546 | both serve the same answer if and only if no first clean attempt is short with a usable attempt after it |
| UpsertLaw.PgTablesAgreeIff | src/llm_bench/storage/postgres.py:395-424 | the same two conditions for every key of the tables after any writes |
| UpsertLaw.PgAgreesThroughoutIff | src/llm_bench/storage/postgres.py:405-424 | over whole traces with deletes, Postgres holds what memory holds at every point if and only if no different attempt ever follows a stored clean short row |
| UpsertLaw.PgHoldsRecordedRows | src/llm_bench/storage/postgres.py:395-463 | Postgres holds only rows that were recorded, each under its own key |
| UpsertLaw.PgAgreesWithoutShortResponses | src/llm_bench/storage/postgres.py:405-424 | if clean answers always have 20 characters, Postgres holds what memory holds after every trace |
| UpsertLaw.PgDropsUsableRetry | src/llm_bench/storage/postgres.py:405-424 | otherwise a usable retry can be served by memory and lost by Postgres |
| FileCrash.IndexAlwaysBacked | src/llm_bench/storage/file.py:299-353 | at every point of every run with crashes before which the root was not removed from under index rows, each index row is what the last-wins read of its source tag's log returns for that key |
| FileCrash.BackedThroughoutIff | src/llm_bench/storage/file.py:629-636 | over whole runs with crashes anywhere, the index is backed at every point if and only if the root is never removed while the index still has rows of other tags |
| FileCrash.StepKeepsInv | src/llm_bench/storage/file.py:614-636 | append, index commit, index drop, tree removal and crash each keep that, with a half-done call in between, if and only if the step does not remove the root from under index rows |
| FileCrash.RecordIsItsTwoSteps | src/llm_bench/storage/file.py:318-352 | append then index commit, uninterrupted, is record_call |
| FileCrash.DeleteIsItsTwoSteps | src/llm_bench/storage/file.py:629-636 | index drop then tree removal, uninterrupted, is delete_experiment, and unlinks the index exactly for the tags `.` and `_index` |
| FileCrash.RetryAfterCrashRecovers | src/llm_bench/storage/file.py:318-352 | after a crash behind the append, another attempt at the same key, tag and stage, whatever it answers, leaves everything a reader sees as if the crashed attempt had not been |
| FileCrash.RedeleteAfterCrashRecovers | src/llm_bench/storage/file.py:614-636 | after a crash inside a delete, deleting again completes it |
| FileCrash.TreeFirstWouldOrphan | src/llm_bench/storage/file.py:614-619 | the opposite order of the two delete steps can leave an index row without a log |
| FileCrash.RootDeleteOrphans | src/llm_bench/storage/file.py:629-636 | concretely: deleting the tag `.` leaves the index row of another tag without a log until the process ends |
| FileLifecycle.OneOwnerPerConnection | src/llm_bench/storage/file.py:128-181 | in every interleaving each open connection is the published one or held by one call still in flight |
| FileLifecycle.NothingLeaksAtRest | src/llm_bench/storage/file.py:128-181 | when all calls have returned, the open connections are exactly the published one, or none |
| FileLifecycle.OpenConnectionsBounded | src/llm_bench/storage/file.py:141-170 | there are never more open connections than calls in flight plus one |
| ResumeCache.ResumeCache.PopulateFromStorage | src/llm_bench/runner/resume.py:57-72 | afterwards the cache is exactly what storage serves; earlier entries are gone |
| ResumeCache.ResumeCache.Get | src/llm_bench/runner/resume.py:74-85 | the entry of the key, or a miss |
| ResumeCache.ResumeCache.Put | src/llm_bench/runner/resume.py:87-96 | files the answer under its own hash and thinking with the caller's provider and model, and changes no other entry |
| CacheCoherence.AlwaysCoherent | src/llm_bench/runner/round_runner.py:725-753 | in every reachable state each usable stored row is in the cache or held by a pipeline between record_call and put, and each cached answer of 20 characters is backed by a usable row |
| CacheCoherence.StepKeepsInv | src/llm_bench/runner/round_runner.py:740-753 | every step of every pipeline, retry and reload keeps this |
| CacheCoherence.UsableRowsAreFinal | src/llm_bench/storage/memory.py:80-107 | no step changes or removes a usable row |
| CacheCoherence.CachedEntriesStayBacked | src/llm_bench/runner/resume.py:57-96 | a long cached entry has a usable row now and at every later point, and that row does not change |
| CacheCoherence.SurvivesReloadIff | src/llm_bench/runner/round_runner.py:740-753 | from any coherent state a cacheable answer is served, and is still served after a reload if and only if it has 20 characters |
| CacheCoherence.ReloadKeepsIff | src/llm_bench/runner/resume.py:57-72 | in every reachable state a reload keeps a cached entry if and only if its key has a usable row, so it keeps every long one |
| CacheCoherence.ShortAnswersAreForgotten | src/llm_bench/runner/round_runner.py:740-753 | the short case: a short parsed answer is cached and is gone after a reload |
| ResumeComplete.RunKeepsInv | src/llm_bench/runner/round_runner.py:570-753 | in every interleaving of a clean run each pipeline's log is explained by its prompts and parsers and backed by usable rows, and usable rows are cached or on their way |
| ResumeComplete.ReplaysItsLog | src/llm_bench/runner/round_runner.py:570-620 | a pipeline run against any cache that holds those rows produces the same log |
| ResumeComplete.RerunNeedsNoCalls | tests/integration/test_smoke_in_memory.py:199-243 | a new process that loads its cache from storage replays every pipeline as far as it got without one call: same keys, answers, outputs, parent hashes and texts after each stage |
| ResumeComplete.RerunInProcessNeedsNoCalls | tests/integration/test_smoke_in_memory.py:199-243 | the same against the cache the run itself left behind |
| ResumeComplete.SecondRunMakesNoCalls | tests/integration/test_smoke_in_memory.py:199-243 | two runs of the machine: in every interleaving of the second, each step is a cache hit, storage does not change, and each log is a prefix of the log of the finished pipeline it repeats |
| ResumeComplete.SubstrateIsTheWinners | src/llm_bench/runner/round_runner.py:316-342 | where the previous round has a winner's row for the parent stage, its parsed answer, hash and text stand in the context in place of the candidate's, and nothing else changes |
| ResumeComplete.SubstrateDecouples | src/llm_bench/runner/round_runner.py:316-342 | then the prompt does not depend on what the candidate itself made of the parent; without such a row the context is left as it is |
| ResumeComplete.KeysAreEqualIff | src/llm_bench/runner/round_runner.py:604-615 | with a hash that tells prompts apart, two lookups share a key exactly for the same model and the same prompt |
| BudgetGate.Projection | src/llm_bench/runner/budget.py:106-108 | the least amount that covers the latest cost times the headroom, the stage's own figure while there is no such cost, and 0.01 |
| BudgetGate.FitsIffCovers | src/llm_bench/runner/budget.py:107-109 | the projection fits under the cap exactly when each of the three amounts does |
| BudgetGate.BudgetGate.Check | src/llm_bench/runner/budget.py:57-116 | seeds a key once from storage, admits exactly when spent plus reserved plus each of the three amounts fits the cap, reserves the least amount that covers them and nothing otherwise; ops without a budget pass and change nothing |
| BudgetGate.BudgetGate.RecordCost | src/llm_bench/runner/budget.py:118-146 | adds the effective cost to the key's spend, releases its reservation, remembers the raw cost for the op, and touches no other key |
| ProjectionLaws.GateKnowsLatest | src/llm_bench/runner/budget.py:143-144 | after any run of checks and records the gate's last cost of an op is the one of its latest record, under any tag |
| ProjectionLaws.AdmittedIff | src/llm_bench/runner/budget.py:95-116 | after any run, the next check is admitted if and only if the op's latest cost times the headroom, one cent, and before any cost the stage's figure, each fit beside what is spent and reserved |
| BudgetProtocol.RunKeepsInv | src/llm_bench/runner/budget.py:95-146 | in every interleaving with costs within a slack the reserved figure is what is outstanding or stranded, and the spend bound holds |
| BudgetProtocol.AlwaysBalanced | src/llm_bench/runner/budget.py:95-146 | in every run, whatever the calls cost, the reserved figure of every key is the sum of the reservations outstanding plus those stranded by raising writes |
| BudgetProtocol.ClampNeverFires | src/llm_bench/runner/budget.py:146 | in every run, whatever the calls cost, what a call releases was still reserved, so the maximum with 0 is never needed |
| BudgetProtocol.OvershootBound | src/llm_bench/runner/round_runner.py:631-639 | with call costs at most C the money really spent never passes max(seed, cap + (N + raising writes) * (C - 0.01)), however long the run |
| BudgetProtocol.NoOvershootWithinReservations | src/llm_bench/runner/budget.py:71-80 | if each call costs at most its reservation, spend plus reservations stay within the seed or the cap |
| BudgetProtocol.GateKnowsTheTruth | src/llm_bench/runner/round_runner.py:725-739 | without raising writes the gate's total is the money really spent |
| BudgetProtocol.OpenedBounded | src/llm_bench/runner/budget.py:96-103 | seeding keeps the account balanced and bounded |
| BudgetProtocol.AdmittedBounded | src/llm_bench/runner/budget.py:104-116 | admitting a call keeps the account balanced and bounded |
| BudgetProtocol.SettledBounded | src/llm_bench/runner/budget.py:143-146 | settling a call keeps the account balanced, and bounded when its cost is within the slack |
| BudgetProtocol.LeakedBounded | src/llm_bench/runner/round_runner.py:754-777 | a raising write strands its reservation but keeps the account balanced and bounded |
| GateRefinement.RunningTotalRefinesRecount | src/llm_bench/runner/budget.py:96-104 | for every seeded key at every point of every run: the gate's spend plus what is recorded but not accounted equals storage's recount plus what storage dropped or overwrote since seeding |
| GateRefinement.StepKeepsInv | src/llm_bench/runner/round_runner.py:725-739 | check, record_call, record_cost and rows written past the gate each keep that equation |
| GateRefinement.LossesNonNegative | src/llm_bench/storage/memory.py:80-107 | with costs of at least 0 nothing storage lost is negative |
| GateRefinement.LostIffWasted | src/llm_bench/storage/memory.py:80-107 | a seeded key has lost nothing if and only if each of its writes since then was harmless |
| GateRefinement.NeverUndercountsAtRest | src/llm_bench/runner/budget.py:141-146 | so at rest the gate never reports less than the recount |
| GateRefinement.ExactWhenKeysAreNew | src/llm_bench/runner/budget.py:141-146 | and is exact when no key was recorded twice |
| GateRefinement.ExactIffNothingLost | src/llm_bench/runner/budget.py:141-146 | over the run: the two are equal at rest if and only if no write for the key since its seeding was dropped with a price on it or replaced a row that had one |
| StageGraph.TopoSort.Visit | src/llm_bench/core/types.py:175-184 | terminates on every graph; emits the stage after all its ancestors, or reports a cycle that exists |
| StageGraph.TopoOrder | src/llm_bench/core/types.py:170-187 | raises exactly when a parent chain is cyclic, otherwise returns a permutation of the stages with parents first |
| StageGraph.CheckGraph | src/llm_bench/core/types.py:156-168 | construction succeeds exactly for distinct ids, present parents and no cycle; each of the three errors is raised exactly when its condition fails and the earlier ones hold, and a missing parent is reported for the first stage that has one |
| StageGraph.AncestorsComeEarlier | src/llm_bench/core/types.py:170-187 | in a parents-first order every ancestor, not only the parent, comes before |
| StageGraph.OrderedMeansAcyclic | src/llm_bench/core/types.py:170-187 | a graph with a parents-first order has no cycle |
| StageGraph.TwoStageCycle | src/llm_bench/core/types.py:160-168 | two stages naming each other pass the id and parent checks and are cyclic |
| Hashing.BigEndianRoundTrip | src/llm_bench/core/hashing.py:36-38 | the length prefix decodes to the length |
| Hashing.DecodeEncode | src/llm_bench/core/hashing.py:36-38 | both texts can be read back from the encoded bytes |
| Hashing.CompositeHashInjective | src/llm_bench/core/hashing.py:19-38 | with an injective digest two prompts share a hash only if system and user text are both equal |
| Hashing.SeparatorIsAmbiguous | src/llm_bench/core/hashing.py:26-34 | a separator byte instead of the prefix would merge two different prompts |
| Scoring.KeyLeTotalOrder | src/llm_bench/core/scoring.py:38-44 | the sort key is total, transitive and ties only equal keys, with missing prices last |
| Scoring.StrLeIsLexicographic | src/llm_bench/core/scoring.py:44 | names compare as a prefix, or by the first character that differs |
| Scoring.RanksBeforeIffAhead | src/llm_bench/core/scoring.py:20-44 | a model ranks before another if and only if its score is higher, or at the same score its price times a known latency is lower or the only one known, or at the same price its name is smaller |
| Scoring.RankingIsTotalOrder | src/llm_bench/core/scoring.py:38-44 | so it orders the models of any score dict strictly |
| Scoring.RankingSorts | src/llm_bench/halving/driver.py:163-170 | the sorted list has every scored model once, in order |
| Scoring.RankingIsUnique | src/llm_bench/core/scoring.py:23-24 | there is only one such list, so the dict's own order never shows |
| Pairing.AllowedValidatorPairs | src/llm_bench/halving/pairing.py:118-175 | below 3 candidates no pairs; from 3 on, for every shuffle, each producer gets one validator, never itself, never mutually, nobody validates more than twice (with 3, exactly once) |
| Pairing.PickValidator | src/llm_bench/halving/pairing.py:150-174 | each turn picks an eligible validator that no other eligible one beats on load and then on family; the fallback is not reached |
| Pairing.LightestThenOtherFamily | src/llm_bench/halving/pairing.py:163-171 | a greedy pair takes a least loaded eligible validator, and among those one of another family whenever there is one |
| Pairing.SomeoneIsFree | src/llm_bench/halving/pairing.py:154-156 | with 4 or more candidates an eligible validator with load at most 1 always exists |
| Pairing.EligibleCount | src/llm_bench/halving/pairing.py:154 | at most the producer and those whose validator it already is are not eligible |
| Pairing.ChoosersCount | src/llm_bench/halving/pairing.py:172-174 | no more producers chose a model than its load says |
| Pairing.GreedyGrows | src/llm_bench/halving/pairing.py:150-174 | each greedy turn keeps loads at 2 or less |
| Pairing.NeverMutual | src/llm_bench/halving/pairing.py:151-154 | a greedy list has no pair together with its reverse |
| Pairing.GreedyIsIndependent | src/llm_bench/halving/pairing.py:118-128 | a full greedy list is an independent assignment |
| Pairing.TwoAreAlwaysMutual | src/llm_bench/halving/pairing.py:132-139 | for 2 candidates no independent assignment exists |
| Pairing.SelectValidatorForProducer | src/llm_bench/halving/pairing.py:178-210 | none exactly when the pool has nobody else; otherwise the best other model by family, price and name, for every shuffle |
| Pairing.BestValidatorIs | src/llm_bench/halving/pairing.py:188-209 | the selected validator is of another family if any candidate is, within its kind nobody is cheaper or the only one with a price, and at one price it has the smallest name |
| Pairing.BestValidatorUnique | src/llm_bench/halving/pairing.py:191-192 | that best model is unique, so routing is reproducible |
| Estimator.CacheDiscountHelps | src/llm_bench/cost/estimator.py:101-160 | a price is at least the fee, and a positive cache rate below the input rate never makes a call dearer, for every hit ratio even outside 0..1 |
| Estimator.CallCostIs | src/llm_bench/cost/estimator.py:117-125 | cached prompt tokens cost the cache rate where there is one, the rest of the prompt the input rate, answer and reasoning the output rate, all per million, plus the fee |
| Estimator.RatioIsClamped | src/llm_bench/cost/estimator.py:151 | a hit ratio outside 0..1 counts as the nearer bound |
| Estimator.UnpricedIff | src/llm_bench/cost/estimator.py:128-139 | there is no price exactly when a rate is missing or negative; zero is a price |
| Estimator.ByRankSorts | src/llm_bench/cost/estimator.py:278-288 | sorting by the composite key orders the estimates and loses none |
| Estimator.CheaperComesFirst | src/llm_bench/cost/estimator.py:268-287 | the cheaper model comes strictly first, a moderated one counting as dearer by the penalty |
| Estimator.TiesGoByCapability | src/llm_bench/cost/estimator.py:280-287 | at one price longer context, longer answers, reasoning, uptime and then lower known latency come strictly first |
| Estimator.PricedIff | src/llm_bench/cost/estimator.py:241-266 | the estimates are of exactly the named, unblocked, kept entries with a price, at that price |
| Estimator.ProviderIsPrefix | src/llm_bench/cost/estimator.py:163-165 | the vendor is what stands before the first slash, or the whole id |
| Sorting.SortIsStable | src/llm_bench/cost/estimator.py:288 | sorting keeps the order of estimates with equal keys, so which of them gets a seat is fixed |
| Estimator.ReserveSeats | src/llm_bench/cost/estimator.py:290-301 | the grouping loops select exactly the first k estimates of every provider, each once |
| Estimator.TopUp | src/llm_bench/cost/estimator.py:303-314 | then the earliest other estimates are added until n is reached, never dropping a seat |
| Estimator.PickTopN | src/llm_bench/cost/estimator.py:288-317 | the result is sorted, duplicate-free, has max(seats, min(n, estimates)) models, holds every seat, and every omitted model is at or after every topped-up one |
| Estimator.EstimateTopNByCost | src/llm_bench/cost/estimator.py:172-317 | the same for the whole function over a catalogue with distinct ids: the estimates are exactly the priced rows that pass the filter and the blacklist, in rank order |
| Estimator.OmittedHasBetterSiblings | src/llm_bench/cost/estimator.py:200-205 | an omitted model has k selected models of its own provider at or before it |
| Estimator.PositionsByRank | src/llm_bench/cost/estimator.py:294-296 | the r-th member of a provider's group is the estimate with r siblings before it |
| Schedule.HalvingSchedule.NextRoundSize | src/llm_bench/halving/schedule.py:89-103 | defined exactly for the scheduled rounds, never 0, and 1 after the last; `HalvingLaws.PlainRoundCuts`, `CutoffLine` and `Cascade.RoundSizes` fix its value by the plan table |
| Schedule.HalvingSchedule.UnitsFor | src/llm_bench/halving/assignment.py:54-66 | never more units than the pool or the schedule has, and always one of the two |
| Schedule.HalvingSchedule.Slice | src/llm_bench/halving/assignment.py:28-66 | the slice is a prefix of the pool of that size; unknown rounds are an error |
| AliveFilter.CountMonotone | src/llm_bench/halving/alive_filter.py:120-137 | counts of any error kind only grow with the history |
| AliveFilter.DeadIff | src/llm_bench/halving/alive_filter.py:120-137 | a model is dead exactly with three entries of a fatal class that is not transient, or six of a transient one, and the first is named when both hold |
| AliveFilter.DeathIsFinal | src/llm_bench/halving/alive_filter.py:101-137 | a model dead under a history is dead under every extension of it |
| AliveFilter.RateLimitedIsNotPermanent | src/llm_bench/halving/alive_filter.py:120-137 | a model that was only throttled lives exactly below six strikes |
| Pruner.MadBootstrapPrune | src/llm_bench/halving/pruner.py:42-221 | for every draw, the loops of all branches compute the set the branch's threshold line defines |
| PrunerLaws.PriceGap | src/llm_bench/halving/pruner.py:103-113 | a model at r times the least positive price is exactly 0.10*(r-1) below an equally scored model at that price |
| PrunerLaws.UnpricedIsFree | src/llm_bench/halving/pruner.py:103-115 | a model without a positive price has its plain score |
| PrunerLaws.BetterAndCheaperSurvives | src/llm_bench/halving/pruner.py:104-118 | outside the paired branch and without unit scores, no worse and no dearer than a survivor is enough to survive |
| PrunerLaws.SumAppend | src/llm_bench/halving/pruner.py:97 | the sum behind the mean adds up a list piece by piece, in any split |
| PrunerLaws.VariationGap | src/llm_bench/halving/pruner.py:85-101 | against an equally scored model without variation, a model is exactly 20% of its standard deviation over its mean lower, or of the deviation itself where the mean is as good as 0 |
| PrunerLaws.MoreVariationIsNoBetter | src/llm_bench/halving/pruner.py:97-101 | at the same mean a larger standard deviation never raises the value |
| PrunerLaws.MedianIsMiddle | src/llm_bench/halving/pruner.py:120-122 | the median is half way between the two middle values by count, the same one for an odd number |
| PrunerLaws.SpreadIs | src/llm_bench/halving/pruner.py:123-124 | the spread is that median of the distances from the median |
| PrunerLaws.PercentileIsLow | src/llm_bench/halving/pruner.py:196-197 | the lower bound leaves a fortieth of the deviations below it, 25 of 1000 |
| PrunerLaws.MajorityLine | src/llm_bench/halving/pruner.py:134-150 | when more than half of the values are equal, everybody is kept without a spread, and otherwise exactly those within one and a half standard deviations below |
| PrunerLaws.QuietUnpairedLine | src/llm_bench/halving/pruner.py:204-221 | in the unpaired branch, when at least 975 of the 1000 resamples have the median of the field and the others a higher one, exactly those within two and a half MADs below the median are kept |
| PrunerLaws.FlatPairedLine | src/llm_bench/halving/pruner.py:164-202 | in the paired branch with flat unit scores the same line holds for every draw |
| PrunerLaws.PairedTwins | src/llm_bench/halving/pruner.py:172-194 | the draws are shared: in the paired branch two models with the same unit scores and penalties survive together or not at all |
| Pruner.Penalise | src/llm_bench/halving/pruner.py:85-121 | effective scores and penalties in dict order, whose sizes `PrunerLaws.PriceGap` and `VariationGap` fix |
| Pruner.CheapestCost | src/llm_bench/halving/pruner.py:104-108 | the least positive cost, or none when there is no positive one |
| Pruner.PairedDeviations | src/llm_bench/halving/pruner.py:186-194 | one draw per iteration shared by all models gives each model its deviations |
| Pruner.PairedPrune | src/llm_bench/halving/pruner.py:164-202 | the paired branch keeps exactly the models whose lower bound reaches the threshold |
| Pruner.UnpairedPrune | src/llm_bench/halving/pruner.py:204-221 | likewise for the unpaired branch |
| Pruner.ConstantPrune | src/llm_bench/halving/pruner.py:134-150 | likewise for the branch with a zero MAD |
| Pruner.UnpairedBoundShift | src/llm_bench/halving/pruner.py:213-217 | a score better by d has a bound better by d, through the sort and the percentile |
| Pruner.UpwardClosed | src/llm_bench/halving/pruner.py:134-221 | outside the paired branch a model at least as good as a survivor survives |
| Pruner.TopSurvives | src/llm_bench/halving/pruner.py:134-221 | outside the paired branch the best effective score always survives |
| Pruner.HalfSurvive | src/llm_bench/halving/pruner.py:134-150 | the zero-MAD branch keeps at least half of the field |
| Halving.Halving.Promote | src/llm_bench/halving/driver.py:88-263 | the result is the decision that gate, prune, cut, rescue, final-round rule and dead filter define, for every mix of inputs, to the size the plan table gives (`HalvingLaws.PlainRoundCuts`); the memory of the driver changes only when somebody passed the gate |
| Halving.Judge | src/llm_bench/halving/driver.py:120-263 | the same before the fields are written: empty scores, an unknown round, everybody excluded, and the ordinary round |
| Halving.Decide | src/llm_bench/halving/driver.py:154-259 | the ordinary round's edits of promoted, eliminated and reasons add up to that decision |
| Halving.AllExcluded | src/llm_bench/halving/driver.py:144-152 | with everybody below coverage nobody goes on and everybody has that reason |
| Halving.CutAndPrune | src/llm_bench/halving/driver.py:163-180 | promoted are the top of the ranking that survived the prune; everybody else gets the outlier reason if the prune dropped them and the cutoff reason if not |
| Halving.Rescue | src/llm_bench/halving/driver.py:198-215 | in any order of the stages, exactly the covered stage winners are listed with the stages they won, and before the last round they are promoted and lose their reason |
| Halving.DropDead | src/llm_bench/halving/driver.py:232-241 | dead models leave promoted and the specialty list, and death overrides their other reasons |
| HalvingLaws.PromotePartitions | src/llm_bench/halving/driver.py:129-259 | candidates_out and eliminated are disjoint, duplicate-free and together candidates_in; reasons has exactly the eliminated as keys |
| HalvingLaws.OutcomeExists | src/llm_bench/halving/driver.py:88-263 | every schedule, known round, standing and history has an outcome of this kind |
| HalvingLaws.OutputBounded | src/llm_bench/halving/driver.py:163-216 | at most the target plus one per distinct stage winner goes on, after the last round at most the target |
| HalvingLaws.SpecialistsAreKept | src/llm_bench/halving/driver.py:182-215 | before the last round every living stage winner that passed the gate goes on |
| HalvingLaws.CutoffIsEarned | src/llm_bench/halving/driver.py:163-180 | a model cut below the halving cutoff has at least target_size other models ahead in tiebreak order |
| HalvingLaws.CutoffLine | src/llm_bench/halving/driver.py:127-171 | a model cut below the cutoff after round k has at least round_sizes[k] covered models (one after the last round) ahead by score, then weighted price, then name |
| HalvingLaws.PlainRoundCuts | src/llm_bench/halving/driver.py:127-171 | with nobody uncovered, pruned, dead or a stage winner, exactly round_sizes[k] models go on (one after the last round), or all if they are fewer, each ahead of everybody left out |
| HalvingLaws.OnlyLivingAndCovered | src/llm_bench/halving/driver.py:129-142 | whoever goes on is alive, scored and passed the coverage gate |
| HalvingLaws.PrunerSeesCovered | src/llm_bench/halving/driver.py:138-161 | the prune is given exactly the covered models with their own scores, prices and unit scores |
| HalvingLaws.BonusIffWonTwice | src/llm_bench/halving/driver.py:201-229 | the bonus is 0.05 and goes exactly to the covered models that won two different stages |
| HalvingLaws.ReportedFigures | src/llm_bench/halving/driver.py:229-259 | the reported scores are those of the covered models with that bonus, at most 1, and the reported prices those of everybody the gate did not stop |
| HalvingLaws.SpecialtyOverlap | src/llm_bench/halving/driver.py:199-241 | a listed model is eliminated exactly after the last round and when the cut or the prune removed it |
| HalvingLaws.OverlapsIff | src/llm_bench/halving/driver.py:199-241 | some model is both listed and eliminated if and only if it was the last round and a covered stage winner missed the cut or the prune |
| HalvingLaws.LastRoundOverlapsIff | src/llm_bench/halving/driver.py:198-241 | in any last round they overlap if and only if a covered stage winner is not the head of the ranking, or is the head and the prune dropped it |
| HalvingLaws.TwoWinnersOverlap | src/llm_bench/halving/driver.py:198-241 | whenever two covered models won stages, the lists overlap if and only if it was the last round, for every seed |
| HalvingLaws.OverlapHappens | src/llm_bench/halving/driver.py:240-241 | a concrete last round of two models in which they overlap |
| HalvingLaws.PlainOverlapsIff | src/llm_bench/halving/driver.py:198-241 | in a last round with equal costs and no unit breakdown they overlap if and only if a covered stage winner is not the head of the ranking |
| HalvingLaws.SurvivorsAreTopScores | src/llm_bench/halving/driver.py:154-173 | with equal costs and no unit breakdown the prune keeps a prefix of the ranking that includes its head |
| HalvingLaws.CutKeepsPrefix | src/llm_bench/halving/driver.py:163-173 | then cut and prune together leave a non-empty prefix of the ranking, for every seed |
| RoundRunner.Round.RunStage | src/llm_bench/runner/round_runner.py:570-792 | one turn of one pipeline moves counters, history and pipeline as the branch taken says and leaves all other pipelines alone; `QuarantineLaws` says what stops it |
| RoundRunner.Round.RunPipelines | src/llm_bench/runner/round_runner.py:240-260 | any interleaving of the pipelines computes the fold of its turns |
| RoundRunner.PairsAre | src/llm_bench/runner/round_runner.py:217 | a round starts one fresh pipeline for every candidate and unit of the slice and no other |
| QuarantineLaws.StopsForItsCalls | src/llm_bench/runner/round_runner.py:441-448 | at any point of any interleaving a pipeline is quarantined exactly when one of its calls took longer than the limit or cost more than the stage figure times the multiplier, has as many strikes as fatal calls, and has stopped only for one of the two, and surely after three strikes |
| QuarantineLaws.StoppedForAReason | src/llm_bench/runner/round_runner.py:570-792 | a stopped pipeline had an abnormal call or three fatal ones |
| QuarantineLaws.NothingAfterAbnormal | src/llm_bench/runner/round_runner.py:570-581 | after an abnormal call, or three fatal ones, a pipeline makes no attempt in any continuation |
| QuarantineLaws.DearCallIsAbnormal | src/llm_bench/runner/round_runner.py:446-447 | with the default limits a quick call far over the stage figure is abnormal, and is not without a figure |
| QuarantineLaws.CallIsNoted | src/llm_bench/runner/round_runner.py:528-551 | a failed call adds its error class to its own model's history and to no other |
| RoundRunner.CoverageIsExact | src/llm_bench/runner/round_runner.py:570-792 | at any point of any interleaving, attempts plus budget skips plus stages not reached equal stages times units for each time a candidate is listed, and nobody else has an attempt |
| RoundRunner.OutsidersAreNotAttempted | src/llm_bench/runner/round_runner.py:217-260 | a model that is not a candidate has no attempt at any point, for every candidate list |
| RoundRunner.HistoryGrows | src/llm_bench/runner/round_runner.py:528-551 | error histories only get longer in a round |
| RoundRunner.CachedRoundAttemptsAll | src/llm_bench/runner/round_runner.py:605-620 | a finished, fully cached round has attempted stages times units for each time a candidate is listed |
| Cascade.OutsidersFailCoverage | src/llm_bench/runner/round_runner.py:281-299 | with a stage graph, a model that did not enter the round fails its gate although the ranking may score it |
| Cascade.OutputsEntered | src/llm_bench/runner/round_runner.py:202-299 | what a round lets out entered it and is alive |
| Cascade.EmptyGraphAdmitsOutsiders | src/llm_bench/halving/driver.py:132-137 | without stages the gate is off and a lone living outsider comes out |
| Cascade.OutsidersComeOutIff | src/llm_bench/halving/driver.py:132-137 | in any round of any setup there is a run in which a model that did not enter comes out if and only if there are no stages |
| Cascade.SurvivorsShrink | src/llm_bench/runner/benchmark.py:319-350 | what comes out of a round came out of every earlier one and was among the first candidates |
| Cascade.EliminatedNeverReturns | src/llm_bench/runner/benchmark.py:319-350 | a model eliminated in a round is not output by it or any later round |
| Cascade.DeadStaysOut | src/llm_bench/halving/driver.py:232-241 | a model dead at the end of a round is not output by it or any later round |
| Cascade.RoundSizes | src/llm_bench/halving/schedule.py:89-103 | told by the plan table: after round k < last at most round_sizes[k] models plus the distinct stage winners go on, after the last round at most one |
| Cascade.BonusReachesNextRound | src/llm_bench/runner/round_aggregation.py:37-48 | in the next round a model that won two stages is ranked 0.05 above its own score, at most 1, and everybody else by the score itself |
| Cascade.NamedWinnersGoOn | src/llm_bench/runner/round_runner.py:281-299 | before the last round, every model the ranking names best of a stage goes on if it passed the gate and lives |
| Cascade.FedFigures | src/llm_bench/runner/round_runner.py:272-299 | a round is pruned and ranked on the prices, latencies, unit scores and draws it was given |
| Cascade.RoundRunsTheSetup | src/llm_bench/runner/round_runner.py:209-229 | the quarantine limits, the stages and the pipelines of a round are those of the setup, the entered candidates and the slice |
| Cascade.AttemptsBounded | src/llm_bench/runner/round_runner.py:289-299 | no model has more attempts than the gate's denominator times the number of times it is listed |
| Cascade.RatioNeverExceedsOne | src/llm_bench/runner/round_runner.py:289-299 | with distinct candidates no ratio exceeds 1 |
| Cascade.CachedRoundExcludesNobodyIff | src/llm_bench/halving/driver.py:132-137 | with distinct candidates, a finished, fully cached round lets every candidate past the gate if and only if the pool has 70% of units_per_arm |
| Cascade.RunRound | src/llm_bench/runner/round_runner.py:202-313 | a round runs its own turns over the entered candidates only, with fresh counters on top of the history so far, ranks its own input with the bonus of the round before, promotes, and leaves history and bonus for the next; unknown rounds are an error and change nothing |
| Cascade.RunPhase | src/llm_bench/runner/benchmark.py:300-365 | the loop produces a cascade: every round gets the survivors, the error history and the bonus that the rounds before it left, and its own turns and ranking; it stops early only when nobody is left; its report never names anybody but the first candidates as surviving, and nobody eliminated as surviving later |

## Left out

- Provider calls, telemetry, preflight pings and error-text classification: a call is an arbitrary outcome (error class, answer, parsed or not, cost, duration).
- SQL text, DDL, drivers, JSON and base64 encoding, file paths, retries and torn lines: tables, logs and indexes are maps and sequences with atomic steps.
- File tags: the tags `.` and `_index` are modelled as the storage root and the index's own directory. An index whose directory was removed is still seen through the open connection, as POSIX has it, and is empty for the next process. A tag named like one of the backend's files (`results.jsonl`, `_prompts.jsonl`) makes the operating system raise, which is not part of the model. The tag check is modelled in the file backend, where the code makes it; traces in the simulation are of calls that passed it.
- Prompt rows, winner persistence, `ts`, `RoundResult.notes` and telemetry-only row fields.
- SHA-256 is an arbitrary function, injective where a lemma says so; UTF-8 is not modelled, texts are byte sequences.
- Floating-point rounding: scores and money are exact reals; `math.isclose` keeps its tolerance and `pstdev` is an arbitrary non-negative number.
- `compute_ranking` averages, the gold blend and per-stage winner choice: scores, costs, latencies and winners are arbitrary inputs of a round.
- The paired-bootstrap branch: its survivors are defined exactly, but the code does not guarantee that any model survives, so nothing more is claimed.
- The lower-bound map the prune returns next to the survivors, which promotion ignores.
- `cost_tiebreak_key` with `higher_score_better=False`, which promotion does not use.
- Semaphores, the set of prompt hashes seen in a round, logging and throttling: they change no modelled state.
- Cancelled tasks and exceptions that escape a pipeline: the coverage accounting is about pipelines that end normally.
- `load_dead_model_ids` and the vendor-to-family table: families are an arbitrary function.
- The language suffix of a stage is two ASCII lower-case letters; Python's `isalpha` and `islower` also accept other alphabets.
- The order of estimates with equal sort keys in the final TOP-N list, which the contract leaves open; which of them are selected is fixed.
- The order in which queries yield rows and in which reports list models: contracts speak of contents, each once.
- Catalogue fetching and the field checks of `CostFilter`: the filter is an arbitrary predicate.
- ResumeComplete.RerunNeedsNoCalls: about clean runs only, without budget skips, quarantine or validator skips, and with no two pipelines of one model on the same prompt at once; with skips the second run has prompts the first never paid for.
- GateRefinement.RunningTotalRefinesRecount: for keys that stay under one tag and op, stages whose `op` is the one derived from their id, and writes that do not raise; BudgetProtocol has the raising writes.
- BudgetProtocol.OvershootBound: projections are arbitrary from 0.01 upwards, which includes every value the gate computes.
