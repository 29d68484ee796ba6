# Verification of the CRUD handler, its cache, batcher, query language and Postgres statements

A model of the workspace's concurrent and algorithmic core, with proofs.

- **The cache** (`MonoCache`, `InMemoryCache`): the version guard `mono_map`, the rows in
  moka, and the removals that the eviction listener has yet to hear of. Inserting,
  invalidating, evicting and each listener call are steps that may come in any order.
- **The handler over cache and source, interleaved** (`Protocol`, `ProtocolMeaning`,
  `Coherence`, `CoherenceLimits`, `CoherenceRuns`, `Provenance`): every operation is cut where
  the code awaits. Worlds hold the committed table, transactions, handles, running operations
  and the cache.
- **The handler, one operation at a time** (`Source`, `Handler`, `SequentialCache`,
  `SequentialRefinement`): classes that change cache and source in place, refined to a
  cacheless meaning over whole runs.
- **The read batcher** (`Batcher`, `BatcherSafety`, `BatcherProgress`, `BatchedRead`,
  `BatcherAnswers`, `BatcherRuns`, `ReaderLoop`): calls, a bounded channel, the loop with its batch and deadline, queries
  behind a semaphore, one-shot replies, shutdown.
- **The list query language** (`Json`, `JsonGrammar`, `JsonRoundTrip`, `JsonSoundness`,
  `JsonWriter`, `JsonTexts`, `ListQuery`, `ListQueryGrammar`, `ListQueryLaws`,
  `ListQueryTexts`): the parser as it is composed, a grammar of what it accepts, the two
  directions between them, and what particular texts are read as.
- **The Postgres source** (`BulkUpdate`, `BulkUpdateMeaning`, `LockOrder`,
  `PostgresConnection`): the `UPDATE .. FROM (VALUES ..)` builder and what its statement
  means, connection modes, the locking read and the order of its locks.

`dafny verify dfyconfig.toml` checks everything.

## Reading the model

- Keys, row bodies, columns and values are abstract types; versions are integers (any total
  order would do); a row is its key, its version and its body.
- One single-item insert, one single-item invalidation and one listener call are atomic. A
  removal becomes a queued notice that may be delivered at any later moment and in any order.
- The source is atomic statement by statement and read-committed. A transaction sees the
  committed rows and its own changes, and publishes its changes when it commits.
- In the interleaved model a delete's preparatory read is a read operation of its own, and
  writes carry one row per key.
- Which of two payload rows for one key the database writes is left open; whole runs
  (`SequentialRefinement`) have distinct payload keys, so that their outcome is determined.
- Which decimals `serde_json::Number` takes is a constant without a value, `REPRESENTABLE`: the
  library refuses numbers beyond its range, and everything about the parsers holds for any such
  set of texts.
- The parsers yield a remainder and a value, an error (another alternative may be tried) or a
  failure. Input that ends where a streaming combinator wants more is a failure.

## What the code does where one might expect otherwise

- `core/src/lib.rs:38-39` says that invalidating removes versions up to and including the given
  one. The code removes strictly smaller ones after an update
  (`caches/in_memory/src/lib.rs:127`); the model follows the code. An update that does not
  raise the version of a cached row therefore leaves a stale entry: `UpdateKeepsCoherenceIff`.
- If a read misses the cache and an update of the same key is completed between the read's source
  read and its insert, the old row is cached for good, although the version was raised: the
  invalidation finds no entry and leaves no guard behind (`caches/in_memory/src/lib.rs:136-139`).
  `OvertakenReadIsStale` is the run; `AlwaysCoherentIff` says exactly which runs keep the cache
  coherent.
- If a key is deleted and created again at a lower version while a removal of its old row is
  still unreported, the listener's repair branch puts the old row back:
  `RecreatedKeyCoherentIff`.
- If notices are late, an offered version can be lost for an older one, namely when an insert
  meets a newer row that a notice has left without its guard, and only then: `NewestAlwaysIff`,
  with a run in `LateNoticesLoseNewest`.
- Writes made in a transaction bypass the cache, also when they commit:
  `TransactionCoherentIff`.
- `maybe_commit` makes the handle a plain connection before the commit's outcome is known. A
  write on the same handle that checks `should_use_cache` only then offers its rows to the
  cache. They are committed exactly if each was before, or the commit succeeds and the
  transaction has not replaced or deleted the row meanwhile: `FinishThenCheckCleanIff`, with
  runs in `CommitDuringCreateCleanIff` and `OverwrittenRowHandedOver`.
- A read looks at `should_use_cache` once (`core/src/handler.rs:721`). If a transaction begins on
  the same handle before the source read, uncommitted rows are cached, exactly if the transaction
  has one at a missed key: `FetchCleanIff`, with a run in `ReadInTransactionHandedOver`.
- For keys asked for twice, a read returns cached rows twice but rows from the source once, and
  through the batcher all rows twice: `ReadRows`, `ReadRowsBatched`.
- `maybe_commit` fails while another handle still uses the transaction, which then lives on
  (`sources/postgres/src/lib.rs:130`); `Protocol` has the same.
- A payload with different rows for one stored key leaves the result of the bulk update to the
  database: `OneResultIff`.
- The lock order protects each batch; two batches in one transaction are safe only if together
  they ascend: `SafeIffAscending`.

## Model

| member | source | states |
|---|---|---|
| MonoCache.InsertOneMeans | caches/in_memory/src/lib.rs:96-111 | A row is refused exactly when its key is guarded at its version or a later one; otherwise guard and row are set, and a row it replaces is to be reported |
| MonoCache.InvalidateOneMeans | caches/in_memory/src/lib.rs:124-141 | A key guarded above the given version (or, after an update, at it) keeps guard and row; otherwise it is in neither map; no other key changes |
| MonoCache.DeliverMeans | caches/in_memory/src/lib.rs:37-74 | A listener call changes neither map after an explicit removal or where the key is unguarded; it puts a row back that is newer than the guard, and drops any other guard |
| MonoCache.StepConsistent | caches/in_memory/src/lib.rs:37-142 | One insert, invalidation, eviction or late listener call keeps the two maps consistent: rows under their own key, equal versions where both have a key, and every guard without a row awaiting a removal notice |
| MonoCache.ListenerConsistency | caches/in_memory/src/lib.rs:37-142 | The same over every interleaving of such steps, from every consistent cache |
| MonoCache.DrainedMapsMatch | caches/in_memory/src/lib.rs:45-69 | Once no notice is outstanding, every guarded key is cached at exactly the guarded version |
| MonoCache.CacheInventsNothing | caches/in_memory/src/lib.rs:88-142 | A step keeps rows it had or takes the row offered; nothing else ever appears in moka or in a notice |
| MonoCache.DeliverShrinksBacklog | caches/in_memory/src/lib.rs:45-69 | Every listener call lowers a measure, although a repair re-inserts and thereby queues a notice of its own |
| MonoCache.CascadeEnds | caches/in_memory/src/lib.rs:45-69 | However deliveries are ordered, the cascade ends after at most two per outstanding notice |
| MonoCache.SettledInsert | caches/in_memory/src/lib.rs:45-69 | What an insert comes to once its notices are handled: the row is taken unless a newer one is held, with the guard or, through the repair branch, without it |
| MonoCache.SettledStepKeepsNewest | caches/in_memory/src/lib.rs:45-111 | One operation with its notices handled keeps, for each cached key, the greatest version offered since the key was last absent |
| MonoCache.NewestVersionHeld | caches/in_memory/src/lib.rs:45-111 | The same over whole runs: the newest version wins although a Replaced notice drops the guard |
| MonoCache.SettleIsRun | caches/in_memory/src/lib.rs:37-74 | What settling comes to is a run of listener calls that takes the notices first in first out |
| MonoCache.InsertKeepsNewestIff | caches/in_memory/src/lib.rs:96-111 | With any notices outstanding, an insert leaves the newest version offered in the cache exactly when the key was not cached, or is guarded, or the row is not older than the cached one |
| MonoCache.OthersKeepNewest | caches/in_memory/src/lib.rs:37-142 | Evictions, invalidations and late listener calls always leave the newest version in place, a repair counting as an offer |
| MonoCache.NewestAlwaysIff | caches/in_memory/src/lib.rs:37-142 | Over whole runs, with notices however late and in any order: the newest version is held at every moment exactly when no insert of the run meets an unguarded newer row |
| MonoCache.LateNoticesLoseNewest | caches/in_memory/src/lib.rs:45-69 | Such inserts occur: for any four versions in that order, a run with late notices, delivered first in first out, ends with an older version than one offered |
| InMemoryCache.CrudingInMemoryCache.Insert | caches/in_memory/src/lib.rs:88-117 | The loop is the one-by-one insertion of its items and leaves the maps as `InsertAllMeans` says; all items are returned, taken or not |
| InMemoryCache.InsertAllMeans | caches/in_memory/src/lib.rs:88-117 | After a whole call every row is guarded at its version or a later one; guards only grow; where one has grown a row of the call with that version is cached, elsewhere nothing has changed |
| InMemoryCache.CrudingInMemoryCache.Invalidate | caches/in_memory/src/lib.rs:119-142 | The loop leaves a key alone whose guard outlives all invalidations of it, and removes both entries of any other; the comparisons are strict after an update only |
| InMemoryCache.InvalidateAllMeans | caches/in_memory/src/lib.rs:119-142 | A row whose guard is above every invalidation of its key in the list (or, after an update, at it) is still cached; any other invalidated key is in neither map |
| InMemoryCache.CrudingInMemoryCache.Get | caches/in_memory/src/lib.rs:144-163 | One answer per key, aligned with the keys, from moka alone |
| InMemoryCache.CrudingInMemoryCache.OnRemoval | caches/in_memory/src/lib.rs:37-74 | The eviction listener on one notice: explicit and unguarded ones are ignored, a newer row is put back, otherwise the guard goes |
| ProtocolMeaning.CreateSeen | core/src/handler.rs:627-656 | In and out of transactions: after a create its handle sees what it saw and the rows; in a transaction nobody outside it sees them |
| ProtocolMeaning.UpdateSeen | core/src/handler.rs:752-803 | After an update its handle sees the payload's rows in place of the stored ones of their keys, and those are the rows whose versions it goes on to invalidate |
| ProtocolMeaning.DeleteSeen | sources/postgres/src/lib.rs:412-431 | After a delete its handle sees what it saw without the keys; in a transaction the source and all handles outside it see no change |
| ProtocolMeaning.FinishSeen | sources/postgres/src/lib.rs:118-135 | A successful commit makes what the handle saw the source, a failed one changes no committed row; the handle is plain either way, and a transaction that others still use lives on |
| ProtocolMeaning.OuterFinishSeen | sources/postgres/src/lib.rs:118-135 | The same for a transaction ended by its lender, with any borrowing handle, which is then of no use |
| ProtocolMeaning.TransactionsMove | sources/postgres/src/lib.rs:109-135 | When transactions begin, end and are borrowed: a plain handle begins a transaction nobody has used, an owned one commits exactly if nobody borrows it |
| ProtocolMeaning.TransactionDeleteCoherentIff | core/src/handler.rs:855-886 | A delete in an owned transaction and its commit remove the keys from the source without any invalidation: the cache stays coherent exactly when each cached row of a removed key was doomed already |
| ProtocolMeaning.LookUpGives | core/src/handler.rs:721-731 | A cached row is returned and its key done; any other key is left for the source |
| ProtocolMeaning.FetchGives | core/src/handler.rs:705-718 | The source read returns every row its handle sees at a missed key and hands exactly those to the cache |
| ProtocolMeaning.CheckGoesOn | core/src/handler.rs:645-655 | After the cache check a write on a plain handle returns its rows and goes on to insert or invalidate exactly them; in a transaction it ends |
| ProtocolMeaning.InvalidateNextRemoves | caches/in_memory/src/lib.rs:124-141 | Each pending invalidation leaves its key alone if a newer version is guarded and removes it from both maps otherwise |
| Coherence.StepKeepsInv | core/src/handler.rs:627-886 | Every step of every operation keeps: each cached row is the source's or doomed by an unfinished write, and so is every row the listener could put back |
| Coherence.TraceKeepsInv | core/src/handler.rs:627-886 | The invariant at every moment of every disciplined interleaving |
| Coherence.CacheCoherence | core/src/handler.rs:627-886 | A discipline that suffices: at every moment of every interleaving on plain connections in which updates raise versions and no row enters the cache behind a later write of its key (and, where the listener is late rather than prompt, no key is created again below a version the cache still remembers), each cached row is the source's or has a pending invalidation that removes it; when writers are done the cache agrees with the source |
| CoherenceLimits.InsertKeepsCoherenceIff | core/src/handler.rs:705-718 | A row reaching the cache keeps it coherent exactly when it is current, doomed by an unfinished write, or turned away by the guard |
| CoherenceLimits.NotifyKeepsCoherenceIff | caches/in_memory/src/lib.rs:45-69 | A listener call keeps it coherent exactly when it repairs nothing or puts back a good row |
| CoherenceLimits.UpdateKeepsCoherenceIff | caches/in_memory/src/lib.rs:126-136 | An update, whatever else is running, keeps the cache coherent exactly when each cached row it meets is left as it is, was doomed already, or gets a strictly greater version |
| CoherenceLimits.CommitKeepsCoherenceIff | sources/postgres/src/lib.rs:118-135 | A commit keeps the cache coherent exactly when each cached row it meets is left as it is or was doomed already |
| CoherenceLimits.RecreatedKeyCoherentIff | caches/in_memory/src/lib.rs:53-61 | Creating a key again while a removal of its old row is unreported, then the report: the cache is coherent exactly when the old row was not newer |
| CoherenceLimits.LeftoversOccur | caches/in_memory/src/lib.rs:119-142 | From the start, reading any row, evicting it, and deleting and invalidating its key leads to such an unreported removal of that row |
| CoherenceLimits.TransactionCoherentIff | core/src/handler.rs:806-822 | An update inside an owned transaction, its cache check and the commit, from any coherent world: the cache is coherent exactly when every cached row the update meets is unchanged or doomed by another write |
| CoherenceRuns.BypassIff | core/src/handler.rs:806-822 | A write that bypasses the cache because its handle is in a transaction drops its invalidation: this is harmless exactly when the cached rows it doomed are current or doomed by others |
| CoherenceRuns.InvalidateKeeps | caches/in_memory/src/lib.rs:119-142 | An invalidation leaves no cached row stale that it alone still doomed |
| CoherenceRuns.StepCoherentIff | core/src/handler.rs:627-886 | Every event, in every regular and coherent world, keeps coherence exactly when it is harmless |
| CoherenceRuns.AlwaysCoherentIff | core/src/handler.rs:627-886 | Main result: in every run from the start, with any versions, any delay of the listener and handles in and out of transactions, each cached row is the source's or doomed by an unfinished write at every moment, exactly when every step is harmless |
| CoherenceRuns.CoherentMeansAgrees | core/src/handler.rs:627-886 | After harmless steps only, the cache agrees with the source wherever it has an entry once the writers are done |
| CoherenceRuns.OvertakenReadIsStale | caches/in_memory/src/lib.rs:137-139 | From the start, with a raised version and no notice outstanding at any moment: a read overtaken by an update leaves the old row cached with no write under way |
| Provenance.StepCleanIff | core/src/handler.rs:627-886 | Every step, with handles entering and leaving transactions at any moment and batcher queries on a plain connection, keeps all cached and returned rows among those committed so far exactly when it hands no uncommitted row over |
| Provenance.OnlyCommittedRowsIff | core/src/handler.rs:401-412 | Main result: throughout a run, every row in the cache or returned through a cache-using handle was a committed row under its key at some earlier moment, exactly when at each cache check on a handle that is a plain connection again the write's rows are committed by then, and at each source read of a cached read the handle's own transaction has no uncommitted row at a missed key |
| Provenance.FinishThenCheckCleanIff | sources/postgres/src/lib.rs:118-135 | A transaction ends and an open write on its handle then checks the cache, in any world: only committed rows are answered exactly when each row of the write was committed before, or the commit succeeds and the transaction still holds that row |
| Provenance.FetchCleanIff | core/src/handler.rs:702-732 | A source read on a handle that has meanwhile begun a transaction caches committed rows only exactly when that transaction has no uncommitted row at a missed key |
| Provenance.CheckCleanIff | core/src/handler.rs:645-655 | A cache check answers with committed rows only exactly when it bypasses the cache or the write's rows are committed by then |
| Provenance.OnlyCommittedRows | core/src/handler.rs:401-412 | What the owner of a handle can see to: if each transaction end and each source read of a run meets the conditions of the two lemmas above, everything cached or returned had been committed, in every interleaving |
| Provenance.CommitDuringCreateCleanIff | sources/postgres/src/lib.rs:118-135 | A create alone in its transaction, with the commit between it and its cache check: the row it answers with was committed exactly when the commit succeeded |
| Provenance.OverwrittenRowHandedOver | sources/postgres/src/lib.rs:118-135 | If the transaction replaces the created row before it commits, the create answers with a row that was never committed although the commit succeeds |
| Provenance.ReadInTransactionHandedOver | sources/postgres/src/lib.rs:386-397 | If a transaction begins on the handle between a read's cache lookup and its source read, a row the transaction created is cached uncommitted |
| Protocol.BeginSees | sources/postgres/src/lib.rs:109-115 | A handle that begins a transaction still sees exactly the committed rows |
| SequentialCache.InsertAllInStep | core/src/handler.rs:645-652 | Inserting rows of the source keeps cache and source in step |
| SequentialCache.InvalidateAllInStep | core/src/handler.rs:806-817 | Invalidating the keys that a write put out of step restores it |
| SequentialCache.DeliverInStep | caches/in_memory/src/lib.rs:45-69 | Late listener calls keep cache and source in step: the repair branch never fires on an old row |
| Source.AcceptableMeans | sources/postgres/src/lib.rs:197-220 | A create succeeds exactly when its keys are distinct and not stored; the table is then the old one with the rows and nothing else |
| Source.CrudableSource.Create | sources/postgres/src/lib.rs:197-220 | The same of the statement, which otherwise changes nothing |
| Source.CrudableSource.Delete | sources/postgres/src/lib.rs:412-431 | Exactly the keys go, every other key keeps its row, and exactly the removed rows are returned |
| Source.CrudableSource.Read | sources/postgres/src/lib.rs:223-238 | At most one row per key, only for requested keys, every stored one |
| Source.CrudableSource.Update | sources/postgres/src/lib.rs:241-371 | For each stored key of the payload one payload row of that key, whichever the database takes, replaces the stored one and is returned |
| Source.UpdateOfDistinct | sources/postgres/src/lib.rs:331-342 | With distinct payload keys the rows and the table that result are determined |
| Source.PutMeans | sources/postgres/src/lib.rs:241-371 | Putting rows with distinct keys: each is stored under its key and nothing else changes |
| Handler.PlainCreateMeans | core/src/handler.rs:627-656 | The cacheless meaning of a create: it succeeds exactly with distinct new keys, then adds exactly its rows and answers with them |
| Handler.PlainReadMeans | core/src/handler.rs:682-749 | Of a read: nothing changes, the answer is the stored rows of the keys asked |
| Handler.PlainUpdateMeans | core/src/handler.rs:752-823 | Of an update with distinct keys: stored rows of its keys are replaced, others stay, the answer is the payload rows of stored keys |
| Handler.PlainDeleteMeans | core/src/handler.rs:826-886 | Of a delete: exactly the keys are gone |
| Handler.CreatedInStep | core/src/handler.rs:643-656 | New keys leave the cache in step if no unreported removal concerns a newer row of theirs |
| Handler.UpdatedInStepBut | core/src/handler.rs:795-817 | After writing rows with greater versions the cache is out of step at their keys only, and each of those is doomed by the coming invalidation |
| Handler.DeletedInStepBut | core/src/handler.rs:868-882 | The same after a delete, whose invalidation also removes equal versions |
| Handler.CrudableHandler.GetFromMap | core/src/handler.rs:888-902 | Splits the keys into cached rows and missed keys, both in the order asked |
| Handler.CrudableHandler.CreateRows | core/src/handler.rs:627-656 | It succeeds exactly with distinct new keys and then adds exactly its rows, all of which are offered to the cache if it is used; otherwise neither source nor cache changes; the cache stays in step if no unreported removal is newer |
| Handler.CrudableHandler.ReadRows | core/src/handler.rs:659-749 | The rows of exactly the stored keys asked; cached keys' rows as often as asked for, others once; with the cache, rows that were not cached are taken in and nothing else changes there |
| Handler.CrudableHandler.ReadRowsBatched | core/src/handler.rs:682-732 | Through the batcher, the source's row once for every occurrence of an existing key |
| Handler.CrudableHandler.UpdateRows | core/src/handler.rs:752-823 | For each stored key of the payload one of its rows is written and returned, other keys stay; with the cache exactly the returned versions are invalidated, and raised versions keep it in step |
| Handler.CrudableHandler.DeleteRows | core/src/handler.rs:826-886 | No key of the input is in the source afterwards, every other key keeps its row and none is added; with the cache, no key of the input is in either map and no other key changes there; without, the cache is untouched |
| Handler.CrudableHandler.CachedRowsAreCurrent | core/src/handler.rs:721-732 | In step means that every cached row is the source's |
| SequentialRefinement.Perform | core/src/handler.rs:627-886 | Any one operation, eviction or listener call answers and changes the source as its cacheless meaning, evictions and listener calls do to the cache what moka does, and without the cache it is untouched; raised versions are asked for only where the cache is used |
| SequentialRefinement.Drain | caches/in_memory/src/lib.rs:37-74 | Running the listener until nothing is outstanding ends and keeps cache and source in step |
| SequentialRefinement.Execute | core/src/handler.rs:627-886 | Main result: for every sequence of operations, from an empty cache, with raised versions and a prompt listener where the cache is used, or an arbitrarily late one if no key is created again below its earlier versions, the handler with the cache and the one without give every call the same rows and leave the same source |
| SequentialRefinement.FittingIff | core/src/handler.rs:627-886 | What a run is asked for, spelt out for each operation over the tables it meets: distinct payload keys and, with the cache, greater versions; with a late listener, created rows not older than any row their key has had |
| Batcher.ChunkSizes | core/src/handler.rs:509-509 | Every chunk of a call has between 1 and the soft cap keys, and all but the last exactly the soft cap |
| Batcher.ChunksConcatenate | core/src/handler.rs:509-509 | The chunks of a call are its keys, in order, nothing lost or repeated |
| BatcherSafety.ReplyKeepsOnce | core/src/handler.rs:409-412 | A reply moves one request from its query to the answered ones |
| BatcherSafety.StepKeepsOnce | core/src/handler.rs:378-497 | Every step keeps each sent request in exactly one place |
| BatcherSafety.AnsweredExactlyOnce | core/src/handler.rs:378-515 | In every reachable state each request sent is in exactly one of channel, current batch, one query's requesters, or answered, and is there once |
| BatcherSafety.AlwaysWellGathered | core/src/handler.rs:432-456 | In every reachable state the batch and each query hold exactly the union of their requesters' chunks, within the size and deadline limits |
| BatchedRead.BatchSizeBound | core/src/handler.rs:301-304 | A batch being gathered has 1 to soft cap - 1 distinct keys, a dispatched query fewer than twice the soft cap, and each exactly its requesters' keys |
| BatchedRead.DeadlineDiscipline | core/src/handler.rs:434-478 | Later arrivals never move a batch's deadline and at most one request joins a batch after it; whenever the loop goes to sleep, the time to the alarm is not negative and within the limit |
| BatchedRead.AlwaysFresh | core/src/handler.rs:384-412 | Every answer, on its way or delivered, is one read of the source within the life of the call it answers and covers its chunk |
| BatchedRead.MergeResponses | core/src/handler.rs:515-523 | The maps of all chunks are merged in order, later ones winning |
| BatchedRead.MergedFrom | core/src/handler.rs:517-520 | A key of the merged map comes from one of the maps, and no key of any map is lost |
| BatchedRead.LastMapDecides | core/src/handler.rs:517-520 | Of several maps with a key, the last one's row is the result |
| BatchedRead.LastChunkDecides | core/src/handler.rs:515-521 | Of the answers to a call that have a key, the one to the last chunk gives the row |
| BatchedRead.IntervalFreshness | core/src/handler.rs:507-524 | With the source changing concurrently, each row a call returns was held at some moment between its first send and its return, and for each key it does not return there was such a moment without it |
| BatchedRead.InKeyOrder | core/src/handler.rs:691-698 | The final filter gives one row per occurrence of a found key, in the order asked |
| BatchedRead.BatchedReadEqualsDirect | core/src/handler.rs:682-732 | Over a still source that agrees with the cache, a batched read returns, as a multiset, the source's row once per occurrence of an existing key, for every chunking, batching and dispatch order |
| BatcherProgress.PermitsConserved | core/src/handler.rs:303-309 | Free permits, those held by queries, and those held by other users of a shared semaphore add up to the semaphore's |
| BatcherProgress.StepWorks | core/src/handler.rs:384-515 | Every step of a call, the loop or a query lowers a measure of the work left |
| BatcherProgress.OwnStepsBounded | core/src/handler.rs:384-515 | While the environment stands still, the number of own steps is at most the work left |
| BatcherProgress.RestMeansAnswered | core/src/handler.rs:459-515 | Unless other users of the semaphore hold all its permits, a batcher that can take no step has answered every chunk of every call, although calls send all chunks through a bounded channel before awaiting any answer |
| BatcherAnswers.AnswersComeFromReads | core/src/handler.rs:384-412 | Every answer of a run came from one read of a query its requester was part of; it has rows exactly if that read succeeded, and then the source's rows of the query's keys at that moment |
| BatcherAnswers.RestMeansComplete | core/src/handler.rs:384-515 | With no failed read, every call of a batcher at rest has been answered with rows, chunk by chunk |
| BatcherAnswers.BatchedReadServed | core/src/handler.rs:682-732 | Main result, with nothing assumed about the answers: over a source that works and stands still, a batched read is served once the batcher rests, with the source's row once per occurrence of an existing key |
| BatcherAnswers.SendsWhileRoom | core/src/handler.rs:355-355 | A call can send its next chunk exactly while the channel holds fewer than fifty |
| BatcherRuns.SinceFirstSend | core/src/handler.rs:507-513 | The moment from which a call's answers are fresh is that of its first send |
| BatcherRuns.SentWhenRipe | core/src/handler.rs:445-497 | In every run a batch is sent only when it is full, its deadline has come, or the channel is closed and empty |
| BatcherRuns.ComesToRest | core/src/handler.rs:384-515 | Every run can go on, without another call and with no read failing, until the batcher is at rest |
| BatcherRuns.EveryCallServable | core/src/handler.rs:384-524 | Main result: every run without failed reads, whatever calls are under way and unless others hold all permits, can go on until every call has all its chunks answered with rows |
| ReaderLoop.JoinGathers | core/src/handler.rs:434-447 | A request that joins a batch which was in time at the loop head: the batch stands for exactly its requests, keeps the deadline its first one set, has only its last one possibly late, and stays below twice the soft cap |
| ReaderLoop.BatchLoop.TakeRequest | core/src/handler.rs:432-456 | Handling one request keeps every request received so far served by exactly one query or waiting in a batch below the soft cap |
| ReaderLoop.BatchLoop.Run | core/src/handler.rs:418-497 | The loop, for every passing of time and every choice between request and alarm: it ends when the channel is closed, and then the queries serve the requests received, each once and in order; each query has its requesters' keys, 1 to less than twice the soft cap, and the deadline its first request set; all but the last are sent full or at their deadline; the last batch is flushed |
| JsonRoundTrip.PieceReads | common/cruding_qs_list_filter/src/json_parser.rs:56-77 | Each written form of a character, plain, short escape, unit or surrogate pair, reads as that character, whatever follows |
| JsonRoundTrip.NumberReads | common/cruding_qs_list_filter/src/json_parser.rs:90-115 | A number reads as its text if no digit, and no first dot, follows |
| JsonRoundTrip.ValueReads | common/cruding_qs_list_filter/src/json_parser.rs:123-176 | Every document, of any nesting and with any white space, duplicate keys and escapes, reads as its value and leaves any tail it is followed by |
| JsonSoundness.ValueSound | common/cruding_qs_list_filter/src/json_parser.rs:153-176 | Whatever is accepted is such a document followed by the remainder |
| JsonSoundness.ParsesIff | common/cruding_qs_list_filter/src/json_parser.rs:153-176 | Main result, for whatever decimals the number library takes: a text is read as a value with a remainder exactly when it is a document of that value followed by that remainder |
| JsonTexts.CharacterClasses | common/cruding_qs_list_filter/src/json_parser.rs:56-121 | Which characters are digits, white space and short escapes, letter by letter |
| JsonTexts.HexDigitsMean | common/cruding_qs_list_filter/src/json_parser.rs:26-28 | Both cases of the sixteen hexadecimal digits have their values |
| JsonTexts.EscapesRead | common/cruding_qs_list_filter/src/json_parser.rs:56-77 | Each of the eight short escapes, as a literal text, reads as its code point |
| JsonTexts.SurrogatesRead | common/cruding_qs_list_filter/src/json_parser.rs:39-48 | Two escaped surrogates read as the code point of UTF-16 |
| JsonTexts.WordsRead | common/cruding_qs_list_filter/src/json_parser.rs:153-176 | `null`, `true` and `false` read as their values |
| JsonTexts.DecimalsRead | common/cruding_qs_list_filter/src/json_parser.rs:90-115 | Digits without leading zeros, with or without a fraction, read as the number of that text |
| JsonTexts.NumbersRead | common/cruding_qs_list_filter/src/json_parser.rs:90-115 | Nothing else is read as a number: it begins and ends with a digit, holds digits and dots only, and a leading zero is followed by a dot or nothing |
| JsonTexts.PairRead | common/cruding_qs_list_filter/src/json_parser.rs:123-129 | `[x,y]` reads as the array of the two values, for all values |
| JsonTexts.MemberRead | common/cruding_qs_list_filter/src/json_parser.rs:131-144 | `{"k":x}` reads as the object with that member, for all names and values |
| JsonTexts.LastValueCounts | common/cruding_qs_list_filter/src/json_parser.rs:131-144 | Of several members of one name the last one's value counts |
| JsonTexts.ReadPrintsBack | common/cruding_qs_list_filter/src/json_parser.rs:153-176 | Whatever is read can be printed, and the print reads as the same value |
| JsonWriter.Hex4ReadsBack | common/cruding_qs_list_filter/src/json_parser.rs:26-28 | Four hexadecimal digits read back as the number they print |
| JsonWriter.WrittenPieceReads | common/cruding_qs_list_filter/src/json_parser.rs:39-48 | Splitting any code point into surrogates and combining them again gives the code point |
| JsonWriter.WrittenDocMeans | common/cruding_qs_list_filter/src/json_parser.rs:153-176 | Every value has a document that stands for it |
| JsonWriter.RoundTrip | common/cruding_qs_list_filter/src/json_parser.rs:153-176 | Printing any value with unsigned numbers and parsing it, with any tail that does not go on with the number, gives the value and the tail |
| ListQuery.ParseListQuery | common/cruding_qs_list_filter/src/lib.rs:16-57 | The loop, which takes one option off a strictly shrinking input per turn, computes the meaning of the query string or fails as it does |
| ListQuery.AddAllMeans | common/cruding_qs_list_filter/src/lib.rs:26-49 | Options pushed one by one: filters and sorts in order, of page and size the last |
| ListQueryGrammar.SymbolReads | common/cruding_qs_list_filter/src/lib.rs:71-90 | Each of the eight operators before its bracket is read as itself although alternatives share prefixes |
| ListQueryGrammar.ColumnReads | common/cruding_qs_list_filter/src/lib.rs:170-189 | A bracketed alphabetic name is read as its column |
| ListQueryGrammar.OperatorReads | common/cruding_qs_list_filter/src/lib.rs:70-125 | Operator and operand are read as the operation; membership in anything but an array is refused |
| ListQueryGrammar.OptionReads | common/cruding_qs_list_filter/src/lib.rs:28-53 | Every option reads as itself and leaves what follows, including `&` inside JSON strings |
| ListQueryGrammar.OptionSound | common/cruding_qs_list_filter/src/lib.rs:28-53 | Whatever is taken for an option is the text of one that means the same |
| ListQueryGrammar.OptionsThen | common/cruding_qs_list_filter/src/lib.rs:28-55 | Options, `&`, and then any text: the options come out in order and the text is read on its own |
| ListQueryGrammar.QueryRoundTrip | common/cruding_qs_list_filter/src/lib.rs:16-57 | Options joined by `&` mean their filters and sorts in order and the last page and size, 0 and 100 by default |
| ListQueryGrammar.AcceptedIff | common/cruding_qs_list_filter/src/lib.rs:28-55 | Main result: a query string is accepted exactly when it is a list of options joined by `&`, possibly with one more at the end, and then yields those options |
| ListQueryLaws.PrintedQueryMeans | common/cruding_qs_list_filter/src/lib.rs:16-189 | Main result: any filters over any JSON values, sorts and pagination options, printed and parsed, come back: filters and sorts in order, the last page and size |
| ListQueryLaws.ItemsCompose | common/cruding_qs_list_filter/src/lib.rs:28-55 | An accepted text followed by `&` and any other reads as its options and then the other's, or as nothing if it was empty or ended in `&` |
| ListQueryLaws.QueriesCompose | common/cruding_qs_list_filter/src/lib.rs:16-57 | The composition law with its exact condition, and what the composed query means |
| ListQueryTexts.ComparisonsRead | common/cruding_qs_list_filter/src/lib.rs:70-125 | `=`, `!=`, `>`, `>=`, `<` and `<=`, as literal texts in brackets before an operand, give the operation of that name on the operand's value |
| ListQueryTexts.MembershipReads | common/cruding_qs_list_filter/src/lib.rs:104-118 | `in` and `!in` give membership in an array's items and refuse anything else |
| ListQueryTexts.FiltersRead | common/cruding_qs_list_filter/src/lib.rs:59-125 | The same of whole filters `filter[column][operator]=operand`, for all eight operators |
| ListQueryTexts.SortsRead | common/cruding_qs_list_filter/src/lib.rs:144-168 | `sort[column]=asc` and `sort[column]=desc` give the sort in that direction |
| ListQueryTexts.PaginationReads | common/cruding_qs_list_filter/src/lib.rs:144-168 | `pagination[page]=` and `pagination[size]=` before digits give that number if it is below 4294967296, and are refused otherwise |
| ListQueryTexts.LettersAre | common/cruding_qs_list_filter/src/lib.rs:170-189 | Column names are made of exactly the 52 ASCII letters |
| BulkUpdate.PushRow | sources/postgres/src/lib.rs:316-323 | One row's values are bound in column order after those already bound |
| BulkUpdate.BuildUpdate | sources/postgres/src/lib.rs:279-344 | Placeholder `$n` in row r and column c has n = r * width + c + 1, and value n is that row's value in that column; as many values as placeholders |
| BulkUpdate.Update | sources/postgres/src/lib.rs:241-277 | Empty payload: nothing. No updatable column: a read of the payload's keys. Otherwise the bulk statement, well formed |
| BulkUpdate.BulkUpdateRuns | sources/postgres/src/lib.rs:331-344 | The statement has every list it needs, no ambiguous column, and a value for each placeholder |
| BulkUpdateMeaning.JoinsIff | sources/postgres/src/lib.rs:296-304 | The WHERE clause joins a stored row with exactly the payload rows of its key |
| BulkUpdateMeaning.AssignedIs | sources/postgres/src/lib.rs:285-294 | SET turns a joined row into the payload's row in every column |
| BulkUpdateMeaning.PutRowsAt | sources/postgres/src/lib.rs:241-371 | Row-by-row replacement, the reference: a row in the payload becomes the payload's row, any other stays |
| BulkUpdateMeaning.OneResultIff | sources/postgres/src/lib.rs:331-342 | Running the statement has one possible result, that of row-by-row replacement, exactly when payload rows for the same stored row are equal |
| BulkUpdateMeaning.DistinctKeysAgree | sources/postgres/src/lib.rs:331-342 | Payloads with distinct keys meet that condition for every table |
| BulkUpdateMeaning.UpdateMeans | sources/postgres/src/lib.rs:241-371 | Main result: under that condition all three branches do exactly row-by-row replacement and return exactly the replacements of stored rows, each once; only a payload with more values than one statement can bind fails, and changes nothing |
| BulkUpdateMeaning.TooLargeMeans | sources/postgres/src/lib.rs:316-344 | A statement has one placeholder per payload row and column, and can be run exactly up to 65535 of them |
| BulkUpdateMeaning.AllKeyColumns | sources/postgres/src/lib.rs:269-277 | Where every column belongs to the key, replacement changes nothing, so reading is enough |
| LockOrder.LockingMeans | sources/postgres/src/lib.rs:386-396 | A transaction locks its next row exactly when no other has it locked, and then holds it as well; its end, a rollback at any time or a commit once it has all its rows, frees all it holds; nobody else is affected |
| LockOrder.RunKeeps | sources/postgres/src/lib.rs:386-396 | In every reachable state no row is locked by two transactions |
| LockOrder.OrderedRunsNeverDeadlock | sources/postgres/src/lib.rs:381-396 | Main result: any number of transactions locking in ascending key order never reach a cycle of waiting, with commits, rollbacks and new transactions at any time |
| LockOrder.SomeoneProceeds | sources/postgres/src/lib.rs:381-396 | While any transaction is left, one can lock its next row or commit |
| LockOrder.SafeIffAscending | sources/postgres/src/lib.rs:381-396 | Among ascending transactions, one that locks given rows in a given order is free of deadlock exactly when that order is ascending |
| PostgresConnection.LessByColumns | sources/postgres/src/lib.rs:381-384 | Ordering by all key columns one after the other is the order of keys |
| PostgresConnection.AnswerAscends | sources/postgres/src/lib.rs:381-384 | The rows of such a query are locked in ascending key order |
| PostgresConnection.ConnectionHandle.MaybeBeginTransaction | sources/postgres/src/lib.rs:109-115 | Only a plain connection begins; a failure leaves the handle as it was |
| PostgresConnection.ConnectionHandle.MaybeCommit | sources/postgres/src/lib.rs:118-135 | Only an owned transaction commits, and the handle becomes plain whatever the outcome |
| PostgresConnection.ConnectionHandle.ReadForUpdate | sources/postgres/src/lib.rs:373-409 | Rows are locked exactly when locking is on, always in ascending key order, and then the handle no longer uses the cache; an error is returned exactly when a transaction had to begin and could not |

## Left out

- Axum routes, extractors and router (`apis/axum`), proc macros (`macros`), the todo example: plumbing without state of its own.
- The Redis cache: its methods do not match the current `CrudableMap` signatures and are nearly all network calls.
- `serde_json_to_sea_orm_vals.rs`, `read_list` and the list SQL: their work is done by rust_decimal, uuid, chrono, base64 and sea_orm.
- Hooks, tracing, error texts and `Arc`/`MaybeArc` ownership.
- The insides of moka, DashMap, tokio, sea_orm and Postgres, beyond the contracts described above; moka's admission policy (it may evict at any time) and DashMap's shard locks.
- JSON numbers keep their exact text; serde_json's rounding to 64-bit floats is not modelled, and which texts it refuses as out of range is left open (`REPRESENTABLE`).
- SQL text: a statement is its lists of columns, placeholder numbers and bound values; quoting and the types Postgres infers for parameters are not modelled, nor are NULLs in key columns.
- Row locks in the interleaved handler model: there two open transactions may change the same row, and the later commit wins. `LockOrder` models the locks on their own.
- Coherence.CacheCoherence: lock_for_update is off (no handle enters a transaction) and the discipline is sufficient only; the exact condition, in all modes, is `AlwaysCoherentIff`.
- Handler.CrudableHandler.ReadRowsBatched: what the batcher's call returned is a parameter; that a call returns it is `BatchedReadEqualsDirect`, and the batcher's own insert into the cache is a step of `Protocol`.
- SequentialRefinement.Execute: answers are compared as sets of rows, payload keys are distinct.
- Batcher.ChunkSizes: the soft cap and time limit are positive, as their types say; a dropped semaphore, which makes the batcher panic, is not modelled.
- Source.CrudableSource.Read: statements fail only on key conflicts; the 65535 values that the PostgreSQL protocol's Bind message can carry limit `BulkUpdateMeaning.UpdateMeans` alone.
- PostgresConnection.ConnectionHandle.ReadForUpdate: the database's answers are parameters, and errors of the select itself are not modelled.
- LockOrder.OrderedRunsNeverDeadlock: one locking read per transaction, and key columns compared as integers in declared order; what several batches in one transaction need is `SafeIffAscending`.
