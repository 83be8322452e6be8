# Verification of the job-search middleware

The project models the parts of a Beckn middleware that keep state, and proves what each of them
guarantees. A network platform (a BPP) delivers its job catalogue page by page through webhooks;
the middleware stores the jobs, embeds and indexes them, scores them against profiles fetched from
another service, and answers searches. Redis keys, SQL tables and the FAISS index are maps, sets
and sequences here; scores and vectors are over the reals.

| file | models |
|---|---|
| `Prelude.dfy`, `JsonValue.dfy` | finite sets and sequences; JSON documents and JSON pointers |
| `Jobs.dfy` | the jobs table: hash-guarded bulk upsert, stale deactivation, embedding column, extraction of rows from a catalogue page |
| `Extraction.dfy` | what a catalogue page lists, and the rows that come of it |
| `PagingProtocol.dfy`, `PagingOrder.dfy`, `PagingLiveness.dfy`, `PagingExpiry.dfy`, `PagingRuns.dfy` | the paging protocol of one transaction: concurrent webhook handlers, one Redis or SQL command per step; order of the pages, progress, key expiry, one handler alone |
| `CatalogueSync.dfy`, `CatalogueStores.dfy`, `CatalogueMirror.dfy` | the protocol acting on the jobs table; which catalogues can be stored, and which end up in the table |
| `SearchHandler.dfy` | the webhook handler as it is written, shown to perform the steps of the protocol |
| `JoinedKeys.dfy` | keys joined with ':' |
| `VectorMath.dfy`, `FaissIndex.dfy`, `VectorStore.dfy`, `TopResults.dfy` | normalisation and cosine; the id maps and the vector index; the index beside the jobs table; reranked nearest jobs |
| `Batching.dfy`, `MatchTable.dfy`, `MatchScoring.dfy` | the incremental job-profile match pass, alone and with its scorer |
| `Scoring.dfy`, `ScoringLaws.dfy` | the score of one job for one profile; what it means on the texts and numbers of the documents |
| `ProfileSync.dfy` | the paged profile synchronisation and its sweep |
| `Callbacks.dfy` | the table of pending requests shared by init, confirm, select and status |
| `Ranking.dfy`, `TextFilters.dfy`, `FilterLaws.dfy`, `SearchPages.dfy`, `SearchOrder.dfy` | stable ranking and pagination; the text filters, and when an item passes them; the catalogue search, and the entries it goes through |

Protocols are functions from a state and a list of steps to a state. A step that is not enabled
leaves the state alone, so a lemma about every list of steps is about every interleaving. Code
that updates an object in place is a class whose methods are tied to specification functions,
and the properties are proved about those functions. The square root, the text similarity, the
embedding service, lower case, trimming and the text form of a JSON document are parameters. SHA-256 is a datatype
constructor, hence injective.

Some properties one would expect are not what the code does. Each of these has a lemma with the
failing case, and where a condition decides, the exact condition:

- a page counts as received although storing it failed, and then the cleanup switches off jobs that
  the platform has just listed (`FailedStoreDropsListedJobs`, `MovedItemIsRefused`). With the database
  up, the cleaned table is the catalogue in every interleaving if and only if no two listed jobs share
  a digest and every listed job is on a page that fits in its turn, so that each found row holding one
  of the page's digests under another key has been rewritten by then (`CatalogueIsMirroredIff`); when
  every page has a job of its own, this is also the condition for no store to fail
  (`MirroredIffNoStoreFails`, `StoresSucceedIff`). A held digest keeps a job out for as many
  transactions as leave the holder's row unmentioned (`HeldForManyTransactions`);
- expiry of the received set can lose the cleanup (`ExpiryCanLoseTheCleanup`). It runs if and only if
  some handler read the set when every page had been marked since its last expiry, and finished
  (`CleanupRunsIff`). A lost page blocks it until that page is delivered again
  (`LostPageBlocksCleanup`), and redelivery brings it about (`EveryRunCanBeRepaired`);
- a request that is lost after its trigger key was set blocks the transaction while that key lives
  (`LostRequestBlocksCleanup`): without any expiry a reachable state can be repaired if and only if
  there is no such page (`CanBeRepairedIff`), and always once those keys have expired
  (`LostRequestsAreRetried`);
- a job that becomes active again with unchanged content stays out of the index until a rebuild or a
  change of its content (`StoreKeepsCompleteIff`, `ReactivatedStaysOut`);
- an embedding update that is overtaken by a store can leave an embedding of old content
  (`InterleavedUpdateKeepsProvenanceIff`);
- `FaissService::add`, which nothing calls, breaks the index exactly when it adds an indexed job again
  (`AddKeepsInvariantIff`);
- an embedding update whose index add fails leaves an active embedded job out of the index, because it
  is no longer pending (`UpdateKeepsCompleteIff`);
- a match row computed before the job's embedding arrived is never recomputed, because the embedding
  is not part of the hash (`LateEmbeddingKeepsZero`); repeated passes reach the full recompute if and
  only if every row with current hashes already has its score (`RepeatedPassesReachFullIff`);
- leaving out an answer can raise a score (`LeavingOutAnAnswerCanRaise`, and exactly when:
  `LeavingOutAnAnswerRaisesIff`);
- the profile hash joins its six parts without separators, so two profiles can block every
  synchronisation (`TwinsBlockTheSync`), and a changed profile can be taken for unchanged
  (`ChangeCanGoUnseen`, exactly when: `RowShowsRemoteIff`);
- select and status calls that fail leave their entry behind (`FailingCallLeavesEntryIff`,
  `OnlyFailedLookupsLeaveTheirEntry`), and can take away the entry of another call
  (`FailingCallEvictsIff`, `LookupCanEvict`); a call of any kind whose client leaves while it waits
  leaves its entry behind (`DisconnectLeavesEntry`);
- Redis keys of two transactions coincide if and only if an id contains ':' (`BaseKeyIsSharedIff`);
- the catalogue search drops the second of two items with one id, even of different providers
  (`NothingIsDroppedIff`), and an exclusion parameter empties it if and only if one of its pieces between
  commas is blank (`ExcludesEverythingIff`).

## Model

| member | source | states |
|---|---|---|
| Jobs.ExtractJobs | src/utils/search.rs:114-162 | the nested extraction loops produce the rows of all providers and items that have an id, in catalogue order |
| Jobs.ExtractItems | src/utils/search.rs:137-158 | the inner loop yields one row per item with an id, hashed from the item itself |
| Jobs.ExtractionIsExact | src/utils/search.rs:125-161 | a row is extracted if and only if some provider with its provider id lists an item with its job id as content, and its hash is the hash of that content |
| Extraction.ExtractionFollowsTheCatalogue | src/utils/search.rs:114-162 | the rows come one for one from strictly increasing positions (provider, item) of the message's catalogue, each with the ids and content found there, and every position with both ids is used |
| Extraction.RowsNameTheirOrigin | src/utils/search.rs:147-157 | every row carries the transaction id and the BPP id and URI of the message's context, empty where it has none |
| Extraction.DistinctKeysIff | src/utils/search.rs:125-161 | the rows of a message have pairwise different keys if and only if no two of its positions list the same job id under the same provider id |
| Jobs.HashesFitIff | src/db/job.rs:110-137 | the unique hash index accepts a page if and only if no two of its rows share a digest and no row of the table that is still unchanged at that point holds one under another key |
| Jobs.RejectedPageRepeatsAnItem | src/utils/search.rs:143-155 | an extracted page is rejected only for an item that another provider lists identically, on the same page or in a row of the table |
| Jobs.JobsTable.StoreJobs | src/db/job.rs:42-153 | one statement: it fails exactly when a key occurs twice or a unique hash is violated, and then changes nothing; otherwise every row of the batch is merged |
| Jobs.StoreAllAt | src/db/job.rs:110-137 | a batch changes exactly the rows it names, each as if it came alone |
| Jobs.StoredRowMeans | src/db/job.rs:110-137 | a stored job is active with the origin of this delivery; with the hash it had it keeps content and embedding, otherwise it has the new content and no embedding |
| Jobs.GuardRefinesOverwriteAlways | src/db/job.rs:110-137 | over any sequence of batches the hash-guarded upsert holds what a plain overwrite would hold, every row beside the hash of its content, and a kept embedding was computed from that very content |
| Jobs.GuardRefinesOverwrite | src/db/job.rs:110-137 | the same for one batch |
| Jobs.DisjointPagesCommute | src/db/job.rs:110-137 | pages about different jobs can be stored in either order |
| Jobs.RedeliveryIsNoop | src/db/job.rs:110-137 | delivering what the table already holds changes no row and keeps embeddings |
| Jobs.JobsTable.DeactivateStale | src/db/job.rs:155-182 | deactivates the active rows of the BPP from other transactions, returns exactly their ids once each, touches nothing else |
| Jobs.JobsTable.FetchPendingEmbedding | src/db/job.rs:221-237 | returns each active row of the BPP without an embedding once |
| Jobs.JobsTable.FetchActiveWithEmbedding | src/db/job.rs:287-300 | returns each active row with an embedding once |
| Jobs.JobsTable.BatchUpdateEmbeddings | src/db/job.rs:238-257 | writes the embeddings one after the other; an unknown id changes nothing |
| PagingProtocol.PageCountIsCeiling | src/services/search.rs:859-862 | total_pages is the ceiling of total / limit, and 0 only for an empty catalogue |
| PagingProtocol.SafeRun | src/services/search.rs:835-914 | in every interleaving, with duplicates, failures and key expiry, every page that is received, seen in a snapshot or counted for the cleanup lies in 1..T and had store_jobs run for it before |
| PagingProtocol.CleanupComesAfterEveryPage | src/services/search.rs:881-914 | whoever runs the stale cleanup does so after store_jobs ran for every page 1..T, and succeeded for every page unless some call failed |
| PagingOrder.PagesAreRequestedOnceAndInOrder | src/services/search.rs:886-911 | without key expiry the received pages are a prefix, pages are requested as 1, 2, 3, .. once each, at most one ahead and never beyond the last, also by handlers with stale snapshots |
| PagingLiveness.PagingNeverStalls | src/services/search.rs:862-914 | as long as the received set lives and sends succeed, trigger keys may expire, in every reachable state all pages are in and the cleanup ran or is owed, or the next page was requested or is about to be, or a handler in flight still owes its request |
| PagingLiveness.CanAlwaysComplete | src/services/search.rs:862-914 | the number of pages not yet received measures the work left: at most six steps for each and three for the cleanup finish the transaction |
| PagingLiveness.EveryRunCanComplete | src/services/search.rs:862-914 | every such run extends to one that receives all pages and cleans up |
| PagingProtocol.InOrderRun | src/services/search.rs:881-911 | in every interleaving, expiry and failures included, a page is requested, delivered and stored only after store_jobs ran for all pages before it |
| PagingExpiry.ReceivedIffMarked | src/services/search.rs:881-886 | a page is in the received set if and only if it was marked and the set has not expired since |
| PagingExpiry.TriggeredIffWon | src/services/search.rs:892-895 | a page's trigger key is set if and only if a handler won it, as the page after the highest one it saw, and it has not expired since |
| PagingExpiry.CleanupRunsIff | src/services/search.rs:881-914 | the cleanup runs if and only if some handler read the received set when each page 1..T had been marked since its last expiry, and finished |
| PagingExpiry.LostPageBlocksCleanup | src/services/search.rs:883-914 | once a page is in no received set and no snapshot and nobody is about to mark it, the cleanup does not run until that page is delivered again |
| PagingExpiry.CanBeRepairedIff | src/services/search.rs:886-914 | whatever expired, was lost or failed before, a reachable state can be brought to the cleanup without any expiry if and only if every page whose trigger key is set was sent or is about to be; then 6 * T steps suffice |
| PagingExpiry.EveryRunCanBeRepaired | src/services/search.rs:881-914 | when sends succeed every run can be brought to the cleanup within 6 * T steps, whatever keys have expired |
| PagingExpiry.LostRequestBlocksCleanup | src/services/search.rs:892-911 | a page whose trigger key is set but whose request was lost keeps the cleanup from running while that key lives |
| PagingExpiry.LostRequestsAreRetried | src/services/search.rs:881-914 | once the trigger keys of all pages with a lost request have expired, every run can be brought to the cleanup within 6 * T further steps, whatever happened before |
| PagingExpiry.RedeliveryRepairs | src/services/search.rs:881-914 | a run in which all pages were requested, lost sends included, is brought to the cleanup by delivering every page once more |
| PagingExpiry.ExpiryCanLoseTheCleanup | src/services/search.rs:883-913 | a run in which the received set expires: everything is answered and stored, no handler is left, the cleanup has not run and never runs unless page 1 comes again |
| SearchHandler.Handler.Coordinate | src/services/search.rs:864-914 | the Redis commands of a handler mark the page, trigger the page after the highest received one if nobody did, and compare the received count with the page total |
| SearchHandler.Handler.HandleOnSearch | src/services/search.rs:830-937 | the whole handler, uninterrupted: pagination with its defaults, store with its ignored failure, the early return for a total of 0, coordination, and cleanup of table and index when all pages are in |
| SearchHandler.PageMeans | src/services/search.rs:844-847 | the page handled is the whole number in the member "page" of the message's "pagination", and 1 if there is none |
| SearchHandler.LimitMeans | src/services/search.rs:849-852 | the page size is the whole number in its member "limit", and 50 if there is none |
| SearchHandler.TotalMeans | src/services/search.rs:854-857 | the total is the whole number below 2^64 in its member "totalCount", or the one whose digits that text is, after an optional plus sign, and 0 if it is neither |
| SearchHandler.NoPaginationMeans | src/services/search.rs:839-857 | without a "pagination" object page, page size and total are 1, 50 and 0 |
| SearchHandler.HandlerRunsTheProtocol | src/services/search.rs:830-937 | the handler does exactly what its seven protocol steps do: to the keys of its transaction, to the jobs table, and with the cleanup |
| SearchHandler.BaseKeyIsInjective | src/services/search.rs:873-875 | without ':' in the BPP ids, equal key strings mean the same transaction, BPP and page size |
| SearchHandler.BaseKeyIsSharedIff | src/services/search.rs:873-875 | another transaction uses the same key string if and only if the transaction id or the BPP id contains ':' |
| SearchHandler.OtherTransactionsUntouched | src/services/search.rs:873-890 | without ':' in the BPP ids, keys of other transactions, BPPs and page sizes are left alone |
| CatalogueSync.ActiveAfterCleanup | src/services/search.rs:913-914 | after the cleanup, and whatever follows, a job of the BPP is active if and only if a successful store_jobs call had it on its page |
| CatalogueStores.StoresSucceedIff | src/db/job.rs:66-150 | with the database up, every store_jobs call of every interleaving succeeds if and only if no two listed jobs share a digest and no row found at the start holds a listed digest under another key, unless the catalogue rewrites that row before |
| CatalogueStores.FittingCatalogueIsMirrored | src/services/search.rs:835-914 | for such a catalogue, after the cleanup of any interleaving, the active jobs of the BPP are the listed jobs, with their listed content |
| CatalogueMirror.CatalogueIsMirroredIff | src/services/search.rs:835-914 | after the cleanup of every interleaving the active jobs of the BPP are the listed jobs, if and only if no two listed jobs share a digest and every listed job is on a page that fits when the pages are tried in turn |
| CatalogueMirror.StorableIffFits | src/db/job.rs:110-137 | at any moment of a run store_jobs accepts a page if and only if every found row holding one of its digests under another key was rewritten by a stored page, or is earlier on the page |
| CatalogueMirror.MirroredIffNoStoreFails | src/services/search.rs:835-914 | when every page has a job of its own, the table mirrors the catalogue in every interleaving if and only if no store_jobs call of any interleaving fails |
| CatalogueMirror.HeldForManyTransactions | src/services/search.rs:835-838 | over any sequence of transactions that do not mention the holder's row and list the job with no other content, the job is never stored and no cleanup leaves it active |
| CatalogueStores.HeldDigestIsNeverStored | src/services/search.rs:836-838 | a listed job whose digest is held by a row the catalogue does not mention is stored by no run of the transaction, inactive after its cleanup, and the row goes on holding the digest |
| CatalogueStores.MovedItemIsRefused | src/db/job.rs:110-137 | such a case: an item moved to another provider, whose old row is inactive, makes a catalogue of one job fail |
| CatalogueSync.CleanedTableIsTheCatalogue | src/db/job.rs:155-174 | without failed stores the active jobs of the BPP after the cleanup are exactly the jobs of pages 1..T, with their listed content, hash and transaction |
| CatalogueSync.OtherBppsUntouched | src/db/job.rs:165-167 | in every run rows of other BPPs are neither changed nor created |
| CatalogueSync.RedeliveryChangesNothing | src/services/search.rs:835-914 | after such a cleanup late handlers, redelivered pages, repeated cleanups, failed stores and expired keys change no row at all |
| CatalogueSync.WrittenEmbeddingStays | src/db/job.rs:127-131 | an embedding written after such a cleanup is there at the end of everything the protocol can still do, and no other row has changed |
| CatalogueSync.FailedStoreDropsListedJobs | src/services/search.rs:836-838 | a run in which the only page is listed but its store fails, as it must when the page cannot be stored: the cleanup switches off a job that is in the catalogue |
| VectorMath.Normalize | src/vector/faiss_service.rs:195-202 | the two in-place loops divide by the norm, or leave a zero vector alone |
| VectorMath.NormalizedHasUnitLength | src/vector/faiss_service.rs:195-202 | the result has length one unless the vector is zero |
| VectorMath.NormalizedKeepsDirection | src/vector/faiss_service.rs:195-202 | the length is the positive root of the inner product with itself, and multiplied by it every coordinate of the result is the old one |
| VectorMath.DotSplits | src/utils/empeding.rs:102 | the inner product of vectors put together is the sum of those of their parts |
| VectorMath.CosineMeans | src/utils/empeding.rs:98-104 | the cosine times the two lengths, whatever root is used, is the inner product |
| VectorMath.CauchySchwarz | src/utils/empeding.rs:98-104 | the square of the inner product is at most the product of the squared norms, for vectors of any length |
| VectorMath.CosineInRange | src/utils/empeding.rs:98-104 | with the norms the callers compute the cosine lies in [-1, 1], and the guarded cases give 0 |
| VectorMath.NormalizedDotIsCosine | src/vector/faiss_service.rs:94-102 | the inner product of two normalised vectors is their cosine, zero vectors included |
| FaissIndex.FaissService.GetOrCreateId | src/vector/faiss_service.rs:26-60 | an existing id is kept, a new job gets the incremented counter in both maps |
| FaissIndex.FaissService.Upsert | src/vector/faiss_service.rs:151-171 | the job's entry is replaced by the normalised vector, and is gone if the add fails, as it does for a wrong dimension |
| FaissIndex.FaissService.Remove | src/vector/faiss_service.rs:173-192 | the entry and both mappings go; an unknown job changes nothing |
| FaissIndex.FaissService.Search | src/vector/faiss_service.rs:94-119 | an error of the index is passed on; given what a flat inner-product index answers, the result is a best-k list of distinct jobs |
| FaissIndex.UpsertRefines | src/vector/faiss_service.rs:151-171 | an upsert keeps the index invariant and is, seen from outside, a write or a removal in a plain map from jobs to vectors |
| FaissIndex.RemoveRefines | src/vector/faiss_service.rs:173-192 | a removal keeps the invariant and removes exactly this job from that map |
| FaissIndex.IndexRefinesPlainMap | src/vector/faiss_service.rs:132-192 | over every sequence of upserts (failing ones included), removals and resets the two maps stay mutually inverse, no id exceeds the counter, every indexed id has a job and occurs once, and the index acts as a plain map |
| FaissIndex.FaissService.Add | src/vector/faiss_service.rs:79-92 | adds the normalised vector under the job's id and removes nothing |
| FaissIndex.AddKeepsInvariantIff | src/vector/faiss_service.rs:79-92 | an add keeps the index invariant if and only if it fails or the job is not indexed yet; then it indexes this vector or nothing |
| FaissIndex.HitsAreBest | src/vector/faiss_service.rs:107-118 | mapping the labels back to jobs loses none, so no indexed job that was left out is nearer than a listed one |
| VectorStore.Store.CleanUp | src/services/search.rs:913-937 | deactivates stale jobs and removes exactly those from the index |
| VectorStore.Store.UpdateEmbeddings | src/utils/job.rs:20-84 | in chunks of 20, every pending row that gets a non-empty embedding is written and indexed; all others keep row and entry |
| VectorStore.UpdateAchieves | src/utils/job.rs:20-84 | every active row of the BPP without an embedding whose content gets a non-empty one holds it afterwards, and is indexed under its normalised form exactly when the add succeeds; every other row and entry is unchanged |
| VectorStore.Store.EmbedChunk | src/utils/job.rs:41-70 | the chunk loop collects the rows with content and a usable embedding, in order |
| VectorStore.Store.Rebuild | src/vector/index_store.rs:40-86 | whatever the index held, it then holds the normalised embeddings of the active rows whose add succeeds |
| VectorStore.CoherentAlways | src/services/search.rs:930-937 | over every sequence of stores, cleanups, embedding updates and rebuilds, every indexed job is active and its vector is its current normalised embedding unless that was nulled by a content change |
| VectorStore.RebuildIsExact | src/vector/index_store.rs:65-77 | after a rebuild whose adds succeed the indexed jobs are exactly the active ones with an embedding |
| VectorStore.StoreKeepsCompleteIff | src/db/job.rs:110-136 | a page keeps every active embedded job findable if and only if store_jobs refuses it or it reactivates no unchanged row |
| VectorStore.UpdateKeepsCompleteIff | src/utils/job.rs:72-83 | an embedding update keeps every active embedded job findable if and only if the add of every row it embeds succeeds |
| VectorStore.ReactivatedStaysOut | src/db/job.rs:225-232 | such a job stays out of the index through every sequence of stores, cleanups and embedding updates without other content for it; a rebuild brings it back exactly if it is active and the add succeeds |
| VectorStore.ProvenanceAlways | src/db/job.rs:127-131 | over every sequence of stores, cleanups, embedding updates and rebuilds, every kept embedding is the embedding of the content beside it |
| VectorStore.InterleavedUpdateKeepsProvenanceIff | src/utils/job.rs:20-76 | an embedding update whose rows were fetched before other operations ran keeps that property if and only if no updated row was given content with another embedding in between |
| VectorStore.SearchRanksByCosine | src/services/search.rs:1063-1071 | from a coherent store every found job is active and scored with the cosine to its current embedding; from a complete one nothing nearer is left out |
| TopResults.Rerank | src/services/search.rs:1094-1112 | the result loop followed by the stable sort by falling match score |
| TopResults.RerankingKeepsTheHits | src/services/search.rs:1061-1112 | the reply holds exactly the found jobs: at most k, distinct, active, by falling score in 0..10, and equal scores by falling cosine |
| TopResults.ReplyMeans | src/services/match_score.rs:71-113 | a reply names its job, and its score is the integer nearest to ten times the final score of the profile for the content and embedding in that job's row |
| Batching.ChunksConcatenate | src/utils/batching.rs:1-10 | chunks lose, repeat and reorder nothing, and only the last may be short |
| MatchTable.MatchStore.RecomputePairs | src/utils/match_score.rs:135-159 | after the loop exactly the listed pairs are recomputed |
| MatchTable.MatchStore.ProcessNewJobs | src/utils/match_score.rs:161-203 | exactly the pairs of the new jobs with all profiles are recomputed |
| MatchTable.MatchStore.ProcessNewProfiles | src/utils/match_score.rs:205-246 | exactly the pairs of the new profiles with all jobs are recomputed |
| MatchTable.MatchStore.FetchMissing | src/db/match_score.rs:471-489 | returns min(5000, missing) distinct pairs without a row |
| MatchTable.MatchStore.CalculateMatchScore | src/utils/match_score.rs:17-133 | a run is one pass: stale and new pairs as fetched at its start, then a choice of at most 5000 missing ones |
| MatchTable.PassAt | src/utils/match_score.rs:17-133 | a pass keeps every row, does not touch a row with current hashes, and every other row it leaves is the freshly computed one |
| MatchTable.PassMeans | src/utils/match_score.rs:17-133 | after a pass a row whose two hashes were current is as before, any other row holds the current hashes and the score computed now, and a job or a profile that had no row has all of its rows |
| MatchTable.PassFillsOverlooked | src/db/match_score.rs:471-489 | of the pairs without a row whose job and profile both have rows, a pass fills all if they are at most 5000, and 5000 otherwise |
| MatchTable.PassLeavesNoStaleRow | src/db/match_score.rs:74-93 | after one pass no row has outdated hashes |
| MatchTable.MissingAtReconciliation | src/utils/match_score.rs:277-331 | the pairs left for reconciliation are the missing ones whose job and profile both already had a row |
| MatchTable.PassCutsMissing | src/db/match_score.rs:471-489 | reconciliation fills min(5000, missing) of them |
| MatchTable.PassReachesFullIff | src/utils/match_score.rs:17-133 | one pass reaches the table of recomputing every pair if and only if at most 5000 pairs were left for reconciliation and every row with current hashes already had the right score |
| MatchTable.RepeatedPassesReachFullIff | src/utils/match_score.rs:17-133 | repeated passes, at least one and one per 5000 missing pairs, reach the table of recomputing every pair if and only if every row with current hashes already had the right score |
| MatchTable.RepeatedPassesConverge | src/utils/match_score.rs:17-133 | so they do when all scores are a function of the two hashes |
| MatchTable.CurrentRowsAreFrozen | src/db/match_score.rs:87-88 | a row with current hashes is never recomputed, through any number of passes |
| MatchTable.LateEmbeddingIsNeverScored | src/db/match_score.rs:87-88 | a pair scored before the job's embedding arrived keeps that score for good |
| MatchScoring.WrittenScoresFit | src/db/match_score.rs:104-125 | every score a pass writes is in 0..10 and so satisfies the range check of the column |
| MatchScoring.PairScoreMeans | src/services/match_score.rs:29-69 | the score of a pair is the integer nearest to ten times the final score of the documents {"metadata": ..} and the job's content, with the cosine of the asked and the stored embedding |
| MatchScoring.MissingScoresZero | src/services/match_score.rs:35-50 | without metadata, content or one of the embeddings it is 0 |
| MatchScoring.ProfilePathsReadMetadata | src/services/match_score.rs:36 | a profile path "/metadata" + path finds in that document what path finds in the metadata |
| MatchScoring.RoleExample | src/utils/empeding.rs:146-157 | with the role field of the shipped configuration, equal embeddings and rules on, a pair scores 10 if the two roles are similar to at least 0.8, and 6 otherwise |
| MatchScoring.EmbeddedJobsConverge | src/utils/match_score.rs:17-133 | once all jobs are embedded from their current content, repeated passes reach the full recompute with the real scorer |
| MatchScoring.LateEmbeddingKeepsZero | src/services/match_score.rs:44-69 | the failing case: a pair is stored with 0 before the embedding, would score 10 with it, and keeps 0 through all later passes |
| Scoring.SimilarityCache.CachedJaro | src/utils/empeding.rs:8-20 | returns the similarity, from the cache or not, and the cache stays a part of the similarity function |
| Scoring.ApplyField | src/utils/empeding.rs:134-205 | a field multiplies exactly one factor, 1, its penalty or its bonus, and counts at most one mismatch |
| Scoring.ApplyFields | src/utils/empeding.rs:132-205 | the loop multiplies these factors in order and counts the mismatches |
| Scoring.ComputeScore | src/utils/empeding.rs:107-219 | whatever a valid cache holds, the result is clamp(cosine * product of the factors * tier), or the clamped cosine without business rules |
| ScoringLaws.TextsMismatchIff | src/utils/empeding.rs:146-160 | a role or industry whose two texts are found and not empty is penalised if and only if their similarity is below 0.8, and weighs 1 otherwise |
| ScoringLaws.NumbersMismatchIff | src/utils/empeding.rs:169-203 | a manual field whose three numbers are found is penalised if and only if the answer is below the least or above the greatest, and earns its bonus from the one to the other |
| ScoringLaws.OtherwiseOnlyGapsCount | src/utils/empeding.rs:135-145 | where nothing is compared a field is penalised if and only if the job has a value and the profile has none or null; other embed fields never compare texts |
| ScoringLaws.FactorsMultiply | src/utils/empeding.rs:134-205 | the factors of two lists of fields multiply, a single field has its own factor, no field gives 1 |
| ScoringLaws.FinalScoreMeans | src/utils/empeding.rs:207-219 | the score is the cosine times all factors, unchanged for up to one mismatching field, times 0.85 for two and times 0.7 for three or more, cut off at 0 and 1 |
| ScoringLaws.MoreSimilarNeverScoresLower | src/utils/empeding.rs:134-218 | with penalties in [0, 1] and bonuses of at least 1, a similarity that is nowhere lower never lowers a score, nor the rounded one |
| ScoringLaws.RoundedIsNearest | src/services/match_score.rs:63 | the stored integer is the one nearest to ten times the score, halves going up |
| Scoring.FoldIsProduct | src/utils/empeding.rs:134-205 | the running score after all fields is the start value times the product of their factors |
| Scoring.FieldOrderIsIrrelevant | src/utils/empeding.rs:134-218 | permuting the configured fields changes no score |
| Scoring.WorseNeverScoresHigher | src/utils/empeding.rs:134-218 | with penalties in [0, 1] and bonuses of at least 1, turning any matching fields into mismatches never raises the score, through factors, tiers and rounding together, and neither does a lower cosine |
| Scoring.DefaultJobPathIsAlwaysPresent | src/config.rs:114-115 | with the default job path the job always has a value there, so an unanswered field always mismatches |
| Scoring.LeavingOutAnAnswerRaisesIff | src/utils/empeding.rs:134-218 | leaving out one answer raises the score if and only if rules are on, the answer was outside the range with nothing at the job path, cosine and the other fields' factor are positive, the penalty is below 1 or the tier changes, and the score with the mismatch was not capped |
| Scoring.LeavingOutAnAnswerCanRaise | src/utils/empeding.rs:138-188 | two profiles and a job: the answer 5 to a range of 10..20 halves the score, leaving it out does not |
| Scoring.FewerAnswersNeverScoreHigher | src/utils/empeding.rs:134-218 | if every manual field finds something at its job path, leaving out answers never raises a score |
| Scoring.StoredScoreRange | src/services/match_score.rs:63 | the stored score is one of 0..10 |
| Scoring.WithoutRulesTheCosineDecides | src/utils/empeding.rs:125-130 | without business rules the stored score is the rounded cosine, negative ones counting as 0 |
| ProfileSync.ProfileStore.StoreProfiles | src/db/profiles.rs:38-136 | one statement: for a non-empty batch it fails exactly when the database refuses, an id occurs twice or a unique hash is violated, and then changes nothing |
| ProfileSync.ProfileStore.DeleteStale | src/db/profiles.rs:138-154 | deletes the rows with a sync time before the start and returns how many |
| ProfileSync.ProfileStore.Run | src/cron/fetch_profiles.rs:74-193 | the loop with its retry loop, error exits and completion flag is the specified run, for every sequence of answers |
| ProfileSync.StoreAllAt | src/db/profiles.rs:91-123 | a batch changes exactly the rows it names, each as if it came alone |
| ProfileSync.OnlyCompletedRunsDelete | src/cron/fetch_profiles.rs:96-156 | a run stopped by an error, or not finished, deletes no row, whatever it was answered |
| ProfileSync.PagesInOrder | src/cron/fetch_profiles.rs:82-163 | pages are received in order from 1, none beyond the last, and a completed run received them all |
| ProfileSync.OneRequestPerPage | src/cron/fetch_profiles.rs:86-128 | without rate limiting a completed run makes one request for each page it receives |
| ProfileSync.CompletedRunMirrorsRemote | src/cron/fetch_profiles.rs:82-175 | against a fixed remote list a completed run received max(1, ceil(n / 100)) pages and leaves exactly that list, plus untouched rows with no sync time or synced since the start |
| ProfileSync.CompletedRowMeans | src/cron/fetch_profiles.rs:57-150 | after a completed run the row of a remote profile is synced at the start; with the profile's digest it keeps everything else, otherwise it shows user id, type, metadata, digest and the document built from them |
| ProfileSync.RetriesOnlyAddRequests | src/cron/fetch_profiles.rs:92-128 | answers that ask to wait change neither the table nor the end nor the received pages of a run |
| ProfileSync.ErrorsAreFinal | src/cron/fetch_profiles.rs:92-128 | an error, an unreadable page or a page the database does not take is the last answer a run looks at |
| ProfileSync.NeverAsksBeyondTheEnd | src/cron/fetch_profiles.rs:86-161 | of every request, retried and unanswered ones included, page * limit is at most the total count + 99; of an empty list only page 1 is requested |
| ProfileSync.SmoothRunCompletesIff | src/cron/fetch_profiles.rs:152-156 | without request errors the run completes if and only if the unique hash index accepts the list |
| ProfileSync.HashesFitIff | src/db/profiles.rs:91-123 | the index accepts a list if and only if no two of its profiles share a digest and no row still unchanged at that point holds it under another id |
| ProfileSync.TwinsBlockTheSync | src/cron/fetch_profiles.rs:42-55 | while two remote profiles have parts that run together to the same text, no run completes and nothing stale is deleted |
| ProfileSync.TwinsExist | src/cron/fetch_profiles.rs:46-51 | two different profiles with different ids and one digest |
| ProfileSync.ChangeCanGoUnseen | src/cron/fetch_profiles.rs:46-51 | a profile whose text moved from its kind to its user id: the run completes and the row still shows the old version |
| ProfileSync.RowShowsRemoteIff | src/db/profiles.rs:92-123 | after a completed run a row shows its remote profile unless it was written from another version whose parts run together to the same text |
| ProfileSync.FixedWidthsAreUnambiguous | src/cron/fetch_profiles.rs:42-55 | with parts of fixed width, equal digests mean equal profiles |
| JoinedKeys.JoinIsInjective | src/services/job_apply.rs:158-159 | without ':' in the message ids the joined key determines transaction and message id |
| JoinedKeys.JoinIsAmbiguousIff | src/services/job_apply.rs:217 | a joined key stands for a second pair of ids if and only if one of its ids contains ':' |
| JsonValue.PointerIntoObject | src/utils/empeding.rs:135-136 | a pointer goes on from the member named by its first token, and finds nothing if that is missing |
| JsonValue.PointerIntoArray | src/utils/empeding.rs:135-136 | a pointer goes on from the element numbered by its first token |
| JsonValue.PointerFindsMember | src/utils/empeding.rs:135-136 | every member of an object is found under its name, escaped as section 3 of RFC 6901 says |
| JsonValue.ArrayIndexMeans | src/utils/empeding.rs:135-136 | a token is an array index if and only if it is the decimal numeral of that number |
| Callbacks.RunKeepsInv | src/services/job_apply.rs:161-244 | in every interleaving each sender is in at most one place, under its own key or in one callback's hands |
| Callbacks.EveryCallGetsItsOwnAnswer | src/services/job_apply.rs:191-244 | in every interleaving a call returns at most one payload, the one sent to it, and only one addressed to the key it registered |
| Callbacks.EverySendWasAddressed | src/services/select.rs:93-98 | every successful send went to the call that registered the callback's key |
| Callbacks.ReturnedApplyLeavesNoKey | src/services/job_apply.rs:181-207 | no init or confirm call that has returned still owns an entry of the table |
| Callbacks.AnswerReachesTheWaitingCall | src/services/job_apply.rs:211-244 | a callback for a registered key is delivered to the waiting call and its entry is gone afterwards |
| Callbacks.EveryCallCanEnd | src/services/job_apply.rs:181-207 | from every state, a posting call ends with the post error, a waiting one with the timeout, the sent answer or the closed channel, within two steps of its own |
| Callbacks.BeginRegisters | src/services/job_apply.rs:157-166 | a new call owns its key and waits on an open channel; the channel of a call that held the same key is closed, and no other call is touched |
| Callbacks.CallIsAnswered | src/services/job_apply.rs:152-230 | a call that is posted and whose callback arrives returns that payload, or a closed channel if the payload cannot be serialised, whatever else is going on |
| Callbacks.DeliversIff | src/services/job_apply.rs:219-226 | a callback that has taken a sender delivers if and only if the call posts, waits or has failed to post; otherwise the answer is lost and its channel closed |
| Callbacks.OnlyFailedLookupsLeaveTheirEntry | src/services/select.rs:62-84 | in every interleaving, a call that has returned and still owns an entry is a select or status call that failed |
| Callbacks.FailingCallLeavesEntryIff | src/services/select.rs:48-52 | a failing call leaves its entry behind if and only if it is a select or status call whose entry is still there |
| Callbacks.FailingCallEvictsIff | src/services/select.rs:71-76 | a failing call removes another call's entry and closes its channel if and only if the key it removes is the other's; for select and status that needs a transaction id with ':' |
| Callbacks.LookupCanEvict | src/services/status.rs:49-53 | a run in which a failing status call does so to an init call |
| Callbacks.DisconnectLeavesEntry | src/services/job_apply.rs:181-191 | a call of any kind that is dropped while it waits leaves its entry behind |
| Callbacks.LeakedEntryStays | src/services/status.rs:71-76 | the entry of a call that is over, failed or dropped, stays through every run in which nobody answers, registers or removes its key |
| Callbacks.LookupCanLeak | src/services/status.rs:49-53 | a run that leaves such an entry |
| Ranking.SortDescSorts | src/services/search.rs:768-775 | the sort permutes, orders by falling score and keeps equal scores in their order |
| Ranking.StableSortIsUnique | src/services/search.rs:769-774 | these three facts determine the result, whatever algorithm sorts |
| Ranking.PagesConcatenate | src/services/search.rs:777-792 | the first n pages, one after the other, are the first n * limit elements |
| SearchPages.ScoreItem | src/services/search.rs:706-736 | the score of an item is the one computed with nothing remembered, although the cache is shared |
| SearchPages.AddItems | src/services/search.rs:671-760 | the item loop adds exactly the unseen keys of the matching items of one provider, in order |
| SearchPages.AddProviders | src/services/search.rs:655-762 | the provider loop does so for one cached page |
| SearchPages.Search | src/services/search.rs:645-793 | the three nested loops, the sort and the slice return the requested page of one fixed ranked list and its length |
| TextFilters.MatchesQueryDynamic | src/utils/search.rs:15-90 | the loop over the words of the query accepts an item if and only if some non-empty word occurs in one of the searched places |
| FilterLaws.KeepItemIff | src/services/search.rs:671-704 | an item is kept if and only if, where the parameter is given, its name holds a word of the primary filter, neither role nor industry a word of the exclusions, a piece of its name a role asked for, and one of the eight places a word of the query; words are the pieces between commas |
| FilterLaws.KeepProviderIff | src/services/search.rs:656-668 | a provider is kept if and only if the whole provider parameter occurs in its name, both in lower case |
| JsonValue.SplitMeans | src/services/search.rs:609-625 | splitting yields exactly the stretches without a separator that stand between separators or the ends |
| TextFilters.EmptyExclusionRejects | src/utils/search.rs:92-112 | an empty piece in the exclusion list rejects every item, and is the only thing that rejects an item without role and industry |
| TextFilters.ExcludesEverythingIff | src/services/search.rs:621-625 | an exclusion parameter rejects every item if and only if one of its pieces between commas is blank |
| TextFilters.BlankPieceEmptiesTheSearch | src/utils/search.rs:92-112 | then no item is kept, whatever the other filters are |
| SearchPages.MatchingIsExact | src/services/search.rs:648-704 | an entry matches if and only if its item stands in a cached page under a provider that passes the provider filter, and passes the primary, exclusion, role and query filters |
| SearchOrder.SearchFollowsTheCatalogue | src/services/search.rs:648-759 | a search goes through entries at strictly increasing places (page, provider, item) of the cached pages, and through every place whose entry passes both filters |
| SearchOrder.ScoreAloneMeans | src/services/search.rs:706-736 | with both embeddings, the item's being an array of numbers, its score is the integer nearest to ten times the final score of the two |
| SearchOrder.KeyMeans | src/services/search.rs:746-752 | two entries count as one by the text "id" of the item, or by its whole text form if it has none |
| SearchPages.PagesListEveryKeyOnce | src/services/search.rs:645-792 | all pages together list every matching key exactly once, with its first entry, by falling score with a profile embedding and in catalogue order otherwise |
| SearchPages.NothingIsDroppedIff | src/services/search.rs:746-759 | every matching entry is listed if and only if no two of them share a key |

## Left out

- Single-precision rounding and NaN: scores, norms and vectors are reals.
- FAISS internals: the flat index answers as a stated specification, with any choice among equal scores, and reports an error for a vector or a query whose length is not its dimension. SHA-256, Jaro-Winkler, the embedding service with its Redis cache, and the texts it is given are parameters or constructors.
- Parsing of requests, HTTP, axum routing, payload builders, logging, configuration loading, the API-key check, the cron scheduler, drafts, notifications, geocoding and the event worker.
- `handle_cron_on_search` (src/services/search.rs:233-565): the dispatcher calls only the second version.
- Failures of Redis or Postgres in the middle of an operation, other than a failing `store_jobs`, `store_profiles`, send, or index add; a failing embedding write, which makes the code skip the index for that chunk; a failing sweep.
- Overlapping transactions of one BPP, and an upsert and a removal of one job at the same time: the paging and index properties are not kept there, so one transaction and completed index operations are hypotheses.
- The paging lemmas take page total and page size (at least 1) as constant over the transaction, and answers as coming for requested pages only. The suffixes of the Redis keys (`:received`, `:triggered:n`) are two maps over the common part of the key. Page numbers above 32 bits, which the code cuts off when it asks for the next page, and the stored `total_pages` field, which nothing reads, are not modelled.
- Interleaved handlers and the pending table are state machines on values, not classes. The class `Handler` covers one handler that is not interrupted; for the pending table there is no class.
- The on-disk copy of the index and its agreement with Redis after a restart.
- How a number is written in JSON: numbers are reals, so 5.0 counts as the integer 5 in the pagination fields. The sum that the page count divides is not cut to 64 bits.
- Row UUIDs: a job row is known by its unique key, because rows of the jobs table are never deleted. Timestamps other than the sync time of profiles, and the `metadata` column of jobs, which this path always leaves null.
- The row-by-row check of the unique hash indexes follows the order of the list; the order in which Postgres touches the rows of one statement is not specified by the code.
- The match pass runs without errors and without concurrent writes to jobs and profiles, and profile digests are taken as digests of one document there; their own structure is treated in `ProfileSync.dfy`.
- The shape of the search response and the removal of the embedding from shown items are not modelled. Page 0, for which the code subtracts one from an unsigned zero, is excluded.
- `handle_search_v3`, trigram and ILIKE matching, `process_job_apply` beyond its two calls, and `sync_profile_by_id`.
- Weighted texts for embedding (`profile_text_for_embedding`, `job_text_for_embedding`): they only feed the embedding service.
