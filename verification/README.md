# Verification of the evidence and law retrieval pipeline

A Dafny model of the parts of the repository that hold state machines, crash protocols, caches, refinements and
bounded arithmetic, with proofs about every input, every run and every reachable state.

- **Embedding generations** (`Vectors`, `EmbeddingArtifacts`, `VectorReuse`, `GenerationSteps`, `EmbeddingGeneration`,
  `GenerationHistory`). A disk of manifests and shard files and a vector store that is separate from it. The class
  `EmbeddingGenerationManager` builds, resumes, validates, adopts and activates; any durable write may be the last before
  the process dies, the model may fail, and shard files may be damaged between runs. Over every history, a generation the
  disk shows as ACTIVE is in the store under exactly the vectors an uninterrupted build without reuse would leave there
  when no other generation has its index and document, and otherwise exactly when it agrees, in its chunks and in what
  the store keeps of their texts, with the ACTIVE generation that imported there last.
- **Query embedding guard** (`QueryCache`, `GuardProtocol`, `GuardOutcomes`, `QueryEmbeddingGuard`). Every await point is
  a step. Slots are conserved over every interleaving, answers are the embedder's own whatever the cache holds, and a call
  with a miss is refused exactly while the last completed attempts failed recently enough. The breaker is read once, with
  the clock of the entry.
- **Masking** (`Text`, `Sanitization`). The search runs in a folded text, the cut in the source through a position map; a
  source character may fold to any number of characters, so two matches may share one. Nothing is lost but to a match.
- **BM25 twice and the token cache** (`RankedLists`, `LexicalRanking`, `LexicalTokenCache`). The loop refines the staged
  SQL query; the cache is invisible under interleaved searches and writes.
- **Rate limiter and quote window** (`RateLimiting`, `EvidenceQuotes`). Both refine a brute-force specification.
- **Query vector log** (`QueryVectorLog`). An append-only file, torn at any character of any append.
- **Ranking metrics** (`RetrievalMetrics`). NDCG by rearrangement, for every discount that never rises.
- **Chunking and statutes** (`Chunking`, `SectionChunking`, `Decimals`, `LegalChunkIds`, `LegalPacking`, `LegalCorpus`,
  `LegalCitations`). Splitting loses only white space; citing a chunk undoes making it.
- **Fusion and grounds** (`RankFusion`, `FusionBounds`, `LegalPolicy`, `GroundSelection`). The numeric claims in the
  comments, each with its exact condition, and the policy that selection and verification keep.
- **Printers and readers** (`BrazilianAmounts`, `MarkdownEscapes`).
- **Alias generation and JPEG headers** (`AliasGeneration`, `JpegFrames`).

Code that updates fields or lists step by step is a class or a method with loops, proved against a function or a
relation; what the program promises is then proved about that function. Digests are the values they are taken of, real
numbers stand for floating-point ones, and whatever the program gets from outside (the model, the clock, the JSON codec,
the character folding, regular expressions over vocabularies) is a parameter. Assumptions on such a parameter are written
as a predicate, usually `Lawful`, on the datatype that holds it.

## Where the code falls short

Each of these is a theorem with its exact condition, or an input that shows it.

- A rebuild without force of an adopted generation that reuses a vector reports success and leaves a manifest that no
  later unforced run can read (`RebuildAdopted`, reached in `AdoptedIsLocked`).
- Two generations that share an index and a document overwrite each other in the store while the older one stays ACTIVE,
  and its vectors are gone unless the two agree (`ActiveHoldsExactly`, `SiblingImports`, reached in `SiblingsDiverge` by
  one corpus and one model under two chunkings). The index name digests the corpus release and hash and the model with
  its revision (app/consumer/runtime.py:21, app/rag/factory.py:157-163, app/rag/vector_store.py:756-762), so another
  corpus or model gets a slot of its own; it covers neither the chunking version nor the shard size, which the generation
  id does (app/consumer/embedding_generation.py:581-602). Another shard size alone keeps the two in agreement.
- A running embedding is asked to stop exactly when `max_background_tasks` is below `max_concurrency`
  (`BackgroundIsCancelledIff`).
- A flagged text that lies over the mask, inside it or across one of its ends, can be there after masking
  (`ComesBackExactly`, `MaskWordsComeBack`, `BracketComesBack`).
- An upsert that moves a chunk id to another document leaves the old text in the token cache (`MovedChunkOutlives`,
  `UpsertIsSafeExactly`).
- A split can separate a currency symbol from its amount, which its comment rules out (`CutPartsExactly`,
  `AmountIsParted`), and can cut an amount of at most half the budget in two, where only longer words are to be cut
  (`WordIsCutExactly`, `AmountIsCut`).
- A zero overlap carries the whole last piece, so chunks double (`ChunksFitExactlyWithOverlap`).
- An ungrouped amount of a thousand or more is read as its first three digits (`UngroupedReadsRightExactly`).
- The caput of article 42 can be quoted although the gate supported only its sole paragraph (`CaputQuotedUnsupported`).
- A stale alias entry outlives the run that was to replace it when the answer to its article named no unit asked about;
  the documentation of `_replace` says it must not (`StaleEntryOutlivesExactly`).

## Model

| member | source | states |
|---|---|---|
| GenerationHistory.Replay | app/consumer/embedding_generation.py:103-165 | after any history of builds, resumes, forced builds, adoptions, crashes and damage, the state is sound; every ACTIVE embedded generation with a slot of its own, or that imported last, is in the store as exactly what the store keeps of its reference vectors; where another ACTIVE generation imported last, exactly when the two agree; only adoptions leave adopted generations |
| GenerationHistory.Recover | app/consumer/embedding_generation.py:103-144 | after any history an unhindered run activates the generation, brings the store to the reference vectors, bit for bit, and the readiness check behind it answers yes |
| GenerationHistory.Execute | app/consumer/embedding_generation.py:103-165 | one command keeps the invariant, and without force the set of shards whose checksums hold never shrinks |
| GenerationHistory.SiblingImports | app/consumer/embedding_generation.py:303-330 | of two unhindered builds into one slot, whatever their chunks and models, the older generation stays ACTIVE, and the store still holds its vectors exactly when the two have the same chunks and the store keeps one vector for each of their texts |
| GenerationHistory.SiblingsDiverge | app/consumer/embedding_generation.py:581-602 | from an empty machine one corpus and one model, built under two chunkings, leave a generation ACTIVE whose vectors the store no longer holds |
| GenerationHistory.RebuildAdopted | app/consumer/embedding_generation.py:504-512 | the second unforced run fails to read the manifest exactly when a rebuilt shard contained a text on offer for reuse |
| GenerationHistory.AdoptedIsLocked | app/consumer/embedding_generation.py:504-512 | from an empty machine a build, an adoption, a lost shard file and a rebuild that reports success, after which the next run cannot read the manifest |
| EmbeddingGeneration.EmbeddingGenerationManager.BuildAndActivate | app/consumer/embedding_generation.py:103-144 | whatever happens, disk and store stay sound and nothing but this generation and its slot changes; a run that returns shows ACTIVE, has stored the reference vectors, and leaves the generation ready exactly when its manifest can be read back; it raises for an unreadable manifest exactly when one is there and force is off |
| EmbeddingGeneration.EmbeddingGenerationManager.BuildShard | app/consumer/embedding_generation.py:206-254 | adds exactly this shard to those whose checksums hold, keeps the others, and counts as reused exactly the texts on offer |
| EmbeddingGeneration.EmbeddingGenerationManager.WriteShard | app/consumer/embedding_generation.py:430-464 | the file is written before the manifest that vouches for it, so a crash between the two loses no verified shard |
| EmbeddingGeneration.EmbeddingGenerationManager.PendingShards | app/consumer/embedding_generation.py:146-165 | lists each index whose checksums do not hold once, in order |
| EmbeddingGeneration.EmbeddingGenerationManager.CheckReuseCanary | app/consumer/embedding_generation.py:167-204 | with a model that is a function of the text the canary never refuses a faithful index, and a run that goes on has recorded it as passed whenever a text was reused |
| EmbeddingGeneration.EmbeddingGenerationManager.JudgeCanary | app/consumer/embedding_generation.py:167-204 | whatever the index, reuse is refused exactly when some probed vector has a cosine below 0.9999, and the verdict is recorded first |
| EmbeddingGeneration.EmbeddingGenerationManager.BuildMissing | app/consumer/embedding_generation.py:103-144 | a failed build is recorded as failed, keeps every verified shard and stays resumable |
| EmbeddingGeneration.EmbeddingGenerationManager.LoadCompleteGeneration | app/consumer/embedding_generation.py:400-428 | succeeds exactly when every shard verifies, with what the shard files hold, which is the whole corpus in order |
| EmbeddingGeneration.EmbeddingGenerationManager.Activate | app/consumer/embedding_generation.py:303-330 | ACTIVE is written only after the store was read back and agreed |
| EmbeddingGeneration.EmbeddingGenerationManager.AdoptAndActivate | app/consumer/embedding_generation.py:256-296 | refuses vectors exactly when they are not attested for the model; adopted vectors are stored as given and marked so, every shard file verifies and holds them converted, and the generation is ready |
| EmbeddingGeneration.EmbeddingGenerationManager.IsReady | app/consumer/embedding_generation.py:84-101 | ready exactly when the disk shows a readable ACTIVE manifest, every shard file is as recorded, and what the store exports is valid and close to what the files hold; for an embedded generation that is its reference vectors |
| EmbeddingArtifacts.SoundShardVerifies | app/consumer/embedding_generation.py:466-502 | a sound shard entry accepts exactly the file it was written with |
| EmbeddingArtifacts.SoundSourceVerifies | app/consumer/vector_reuse.py:174-203 | the checks on a shard of another generation accept exactly that file too |
| EmbeddingArtifacts.ShardsCover | app/consumer/embedding_generation.py:605-606 | the shards are the chunks, once and in order |
| EmbeddingArtifacts.ShardCount | app/consumer/embedding_generation.py:400-428 | there are as many shards as the manifest expects |
| EmbeddingArtifacts.InOrderVectors | app/consumer/embedding_generation.py:552-578 | matching stored entries to chunks gives back the vectors in corpus order |
| EmbeddingArtifacts.Float32Twice | app/consumer/embedding_artifacts.py:19-25 | converting vectors again changes nothing |
| VectorReuse.FromArtifacts | app/consumer/vector_reuse.py:88-132 | every vector offered is the current model's for its text and from another generation, and the texts offered are exactly those some admissible generation still holds verified |
| VectorReuse.SourceEntriesAreFaithful | app/consumer/vector_reuse.py:155-165 | an admissible source, so never an adopted one, carries the current model's vectors |
| VectorReuse.CosineWithItself | app/consumer/vector_reuse.py:50-57 | a unit vector agrees fully with itself |
| GenerationSteps.ReuseIsInvisible | app/consumer/embedding_generation.py:206-254 | stored vectors are the reference ones whether reused or embedded |
| GenerationSteps.IntactIsVerified | app/consumer/embedding_generation.py:466-502 | a resume accepts a shard exactly when its file is the one recorded |
| GenerationSteps.BuiltIsSound | app/consumer/embedding_generation.py:206-254 | recording one more built shard keeps the manifest sound |
| GenerationSteps.AdoptedAfterRebuild | app/schemas/embedding.py:130-140 | a rebuilt adopted manifest reads back exactly when the rebuild reused nothing |
| GenerationSteps.CompleteCounts | app/consumer/embedding_generation.py:400-428 | with every shard recorded the counts a load compares agree |
| GenerationSteps.GatheredAll | app/consumer/embedding_generation.py:400-428 | a full load is the corpus in order under its reference vectors |
| GenerationSteps.SourcesAreElsewhere | app/consumer/vector_reuse.py:155-165 | a build never feeds on its own shards |
| GenerationSteps.CanaryPasses | app/consumer/embedding_generation.py:167-204 | the verdict over any faithful probe is positive |
| GenerationSteps.ActiveMeansStored | app/consumer/embedding_generation.py:303-330 | in a sound state ACTIVE implies exactly the stored reference vectors, which also pass the comparison, for every generation with a slot of its own |
| GenerationSteps.ActiveIsReady | app/consumer/embedding_generation.py:84-101 | an ACTIVE generation with a slot of its own is ready exactly when its shard files are as recorded and what the store keeps of its reference vectors is valid |
| GenerationSteps.MatchIsClose | app/consumer/embedding_generation.py:609-642 | the comparison passes exactly when every converted number is off by at most two parts in ten million of the larger or by a hundred-millionth |
| GenerationSteps.VouchedGathered | app/consumer/embedding_generation.py:400-428 | what the recorded shards vouch for is the corpus in order, with valid vectors |
| GenerationSteps.ActiveHoldsExactly | app/consumer/embedding_generation.py:303-330 | in a sound state where the last importer of its slot is ACTIVE too, an ACTIVE generation is stored exactly when it agrees with that one |
| GenerationSteps.SiblingsHold | app/consumer/embedding_generation.py:303-330 | what an import of one generation leaves is what another claims exactly when their chunks are the same and the store keeps one vector of each text under both models |
| GuardProtocol.RunKeepsInv | app/rag/resilience.py:68-176 | in every interleaving: free slots plus foreground holders plus background tasks is `max_concurrency`, answers are the embedder's, cache and breaker invariants hold |
| GuardProtocol.StepKeepsSlots | app/rag/resilience.py:91-165 | no step creates, loses or doubles a slot or an owner of a task |
| GuardProtocol.GivingUpHandsOver | app/rag/resilience.py:154-165 | a caller that times out or is cancelled hands its one slot to the background, where exactly its own task is asked to stop, and only when the background is full |
| GuardProtocol.CollectingFreesOneSlot | app/rag/resilience.py:154-165 | a collected task leaves the background and frees one slot, and cannot be collected again |
| GuardProtocol.ConcurrencyIsBounded | app/rag/resilience.py:91-152 | at most `max_concurrency` embeddings run at any moment |
| GuardProtocol.QuiescenceReturnsEverySlot | app/rag/resilience.py:154-165 | corollary of conservation: all slots are free exactly when nothing is held or in the background, and then each slot taken was released once |
| GuardProtocol.ForegroundIsNeverStopped | app/rag/resilience.py:91-165 | corollary of ownership: an embedding with a waiting caller is never cancelled |
| GuardProtocol.BackgroundIsCancelledIff | app/rag/resilience.py:154-165 | some run cancels an embedding exactly when the background bound is below the concurrency |
| GuardProtocol.CircuitOpensExactly | app/rag/resilience.py:68-89 | the circuit is open exactly while the last `circuit_breaker_failures` completed attempts failed and the reset time since the latest has not passed |
| GuardProtocol.StepKeepsAnswers | app/rag/resilience.py:68-152 | every answer is the embedder mapped over the queries, whatever the cache held |
| GuardProtocol.FillCompletes | app/rag/resilience.py:68-89 | cached hits filled up with embedded misses are the embedder's answer in order |
| GuardOutcomes.BeginsExactly | app/rag/resilience.py:68-94 | a call all of whose queries are cached is answered at once; one with a miss is refused exactly while the last `circuit_breaker_failures` attempts failed and the reset time since the latest has not passed, and else waits with its hits; nothing else changes |
| GuardOutcomes.RefusedExactly | app/rag/resilience.py:68-94 | over every run a call ends refused by the breaker exactly when it began so, and then no embedding was ever started for it |
| GuardOutcomes.AttemptOfStep | app/rag/resilience.py:91-175 | a timeout appends a failed attempt and the end of an awaited embedding appends what it was, with the answer or the error its caller gets; no other event appends one |
| GuardOutcomes.EveryAttemptIsRecorded | app/rag/resilience.py:91-175 | over every run the attempts hold one failure for every call that failed or timed out and one success for every call an embedding answered |
| GuardOutcomes.AnsweredIsCached | app/rag/resilience.py:68-89 | what an answered call embedded is served until its time to live ends, when the cache has room for all of it, and fixes the dimension |
| QueryCache.LookupKeeps | app/rag/resilience.py:177-189 | what is served is the embedder's own vector and has not expired; a miss means there was none |
| QueryCache.LookupServesAlive | app/rag/resilience.py:177-189 | a lookup serves exactly what is cached and alive, makes it the most recent, and costs no other key its place |
| QueryCache.StoredAreAlive | app/rag/resilience.py:191-198 | as many stores as the cache holds entries are all served until their time to live ends |
| QueryCache.StoreKeeps | app/rag/resilience.py:191-198 | a store keeps the bound, distinct keys and lifetimes, and holds the new entry |
| QueryCache.RecentEntriesSurvive | app/rag/resilience.py:191-198 | eviction never takes one of the most recent `max_entries - 1` |
| QueryCache.StoredThenServed | app/rag/resilience.py:177-198 | a stored vector is served before its time to live ends and never from then on |
| QueryEmbeddingGuards.QueryEmbeddingGuard.Advance | app/rag/resilience.py:68-198 | whatever happens next, the object moves exactly as the protocol and stays valid |
| QueryEmbeddingGuards.QueryEmbeddingGuard.Begin | app/rag/resilience.py:68-89 | the code up to the semaphore is the protocol's step, of which `BeginsExactly` says what it does |
| QueryEmbeddingGuards.QueryEmbeddingGuard.Resume | app/rag/resilience.py:91-152 | the code behind the embedding is the protocol's step: accept, reject or validate |
| QueryEmbeddingGuards.QueryEmbeddingGuard.TimeOut | app/rag/resilience.py:91-152 | a timeout leaves the embedding its slot and counts a failure |
| QueryEmbeddingGuards.QueryEmbeddingGuard.Abandon | app/rag/resilience.py:91-152 | a cancellation leaves the embedding its slot and counts nothing |
| Sanitization.MaskFlaggedText | app/security/sanitization.py:69-97 | one pass for every quote, the longest first: no flagged target that lies nowhere over the mask (neither inside it, nor across an end, nor around it) occurs in the canonical result; every character of the result is source text, in order, or mask text; a source character is gone only where a match covered it in the text a pass found; a text without a match comes back unchanged |
| Sanitization.LostInAMatch | app/security/sanitization.py:69-97 | for any quotes in any order a source character goes only with a match of the target of the pass that took it |
| Sanitization.NothingToMask | app/security/sanitization.py:69-97 | passes whose targets do not occur leave the text as it was |
| Sanitization.PassPlaces | app/security/sanitization.py:69-97 | one pass keeps every source character outside its matches, in order |
| Sanitization.TrimmedAtEnds | app/security/sanitization.py:80-85 | a target is the canonical quote without the white space at its two ends and nothing else |
| Sanitization.PassIsClean | app/security/sanitization.py:69-97 | a pass removes its own target and brings back none of an earlier pass |
| Sanitization.ComesBackExactly | app/security/sanitization.py:69-97 | over all texts and all other quotes a target of plain characters never comes back exactly when it lies nowhere over the mask |
| Sanitization.BracketFreeIsCoverable | app/security/sanitization.py:69-97 | a target without brackets only has to stay out of the mask's words |
| Sanitization.MaskWordsComeBack | app/security/sanitization.py:69-97 | a bracket-free target survives its own pass exactly when the mask's words contain it and it was there |
| Sanitization.BracketComesBack | app/security/sanitization.py:69-97 | `]x` lies across the end of the mask, and removing it from `]xx` leaves an occurrence of it |
| Sanitization.OutsideSurvives | app/security/sanitization.py:69-97 | the result is the source text outside the spans, in order and unchanged, with one mask for every span |
| Sanitization.ReplaceSpans | app/security/sanitization.py:69-97 | replacing from the last span to the first is one left-to-right weave, also where two spans share a character |
| Sanitization.CanonicalWithPositions | app/security/sanitization.py:37-60 | the loop computes the projection and one position per canonical character |
| Sanitization.SliceCanonical | app/security/sanitization.py:37-60 | a slice of the source projects to the slice of the projection, up to one leading blank |
| Sanitization.PositionsCut | app/security/sanitization.py:37-60 | cutting the source cuts the projection where the positions say |
| Sanitization.FindSpans | app/security/sanitization.py:69-97 | the search loop finds the leftmost matches without overlap |
| Sanitization.PassIsChained | app/security/sanitization.py:69-97 | spans come in order and share at most one source character |
| LexicalRanking.Bm25Rank | app/rag/vector_store.py:886-937 | the loop returns an answer of the staged query for every chunk set, query and k |
| LexicalRanking.SqlAnswersOnce | app/rag/vector_store.py:617-676 | the staged query has one answer |
| LexicalRanking.SqlScoreIsBm25 | app/rag/vector_store.py:617-676 | its score, over candidates and joined frequencies, is the BM25 score over the document |
| LexicalRanking.SameScored | app/rag/vector_store.py:617-676 | its scored rows are exactly the rows the loop scores above zero |
| LexicalRanking.DocumentFrequencyIsContaining | app/rag/vector_store.py:617-676 | counting over candidates alone loses no row that holds a query term |
| LexicalRanking.ScoresOnOverlap | app/rag/vector_store.py:886-937 | a chunk scores above zero exactly when it shares a term with the query |
| LexicalRanking.WeightPositive | app/rag/vector_store.py:886-937 | every term weight is positive for a logarithm positive above one |
| LexicalRanking.RarerWeighsMore | app/rag/vector_store.py:886-937 | with a rising logarithm a term that fewer rows hold weighs more |
| LexicalRanking.RepeatedWeighsMore | app/rag/vector_store.py:886-937 | a term the query holds more often weighs more |
| LexicalRanking.FrequentAndShortWeighMore | app/rag/vector_store.py:886-937 | a term weighs more the more often the chunk holds it and the shorter the chunk |
| RankedLists.OneTop | app/rag/vector_store.py:936-937 | score order with ids as tie-break leaves one list |
| RankedLists.SortedInOrder | app/rag/vector_store.py:936-937 | the sort orders the list and keeps its elements |
| LexicalTokenCaches.RunKeepsInv | app/rag/vector_store.py:163-183 | in every interleaving of searches and writes every cached text is stored or has a write that will forget it |
| LexicalTokenCaches.CachedSearchRanksAsUncached | app/rag/vector_store.py:221-242 | whatever a search found cached, it ranks the same rows as without a cache |
| LexicalTokenCaches.QuietCacheHoldsStoredText | app/rag/vector_store.py:859-883 | with no write pending the cache holds only stored texts |
| LexicalTokenCaches.SearchFillsCache | app/rag/vector_store.py:835-883 | a search that no write comes between leaves the tokens of exactly the stored texts cached |
| LexicalTokenCaches.MovedChunkOutlives | app/rag/vector_store.py:163-165 | an upsert that moves a chunk id leaves the old text cached |
| LexicalTokenCaches.UpsertIsSafeExactly | app/rag/vector_store.py:163-165 | whatever searches and writes are in flight, an upsert of any chunks keeps the invariant exactly when every cached text of a document it does not touch, and that no other write will forget, keeps a chunk whose id it does not give away |
| LexicalTokenCaches.ForgottenUpsertIsSafeExactly | app/rag/vector_store.py:163-165 | the same for an upsert and its own `forget`, after which searches in flight no longer matter |
| LexicalTokenCaches.LateSearchIsIgnored | app/rag/vector_store.py:859-883 | a search that took its tokenizer before a write changes the cache at no later point, whatever happens in between |
| LexicalTokenCaches.ForgetLeavesNothing | app/rag/vector_store.py:859-883 | after a `forget` no tokens of the written documents remain and every search in flight is outdated |
| LexicalTokenCaches.InMemoryVectorStore.Upsert | app/rag/vector_store.py:81-84 | is the write followed by its forget |
| LexicalTokenCaches.InMemoryVectorStore.ReplaceDocument | app/rag/vector_store.py:86-97 | refuses several documents, ignores no chunks, else deletes, writes and forgets |
| LexicalTokenCaches.InMemoryVectorStore.DeleteDocument | app/rag/vector_store.py:128-130 | removes the document and forgets it |
| LexicalTokenCaches.InMemoryVectorStore.LexicalQuery | app/rag/vector_store.py:108-113 | the answer over cached tokens is the staged query's over the stored text |
| RateLimiting.SlidingWindowRateLimiter.Allow | app/api/security.py:154-190 | refused exactly when `limit` admissions of the client's whole history are less than a window ago; the new buckets and histories stated in full; over every run of calls the tracked clients number at most the cap, or one when the cap allows none, so a call ends within the cap exactly when it is at least one |
| RateLimiting.SlidingWindowRateLimiter.EvictExpired | app/api/security.py:168-190 | leaves room below the cap, drops nothing below it, and evicts in the stated order |
| RateLimiting.WindowHoldsAtMostLimit | app/api/security.py:132-166 | a history whose admissions `limit` places apart are a window apart, as every history of a client is, holds at most `limit` in any half-open stretch of a window |
| RateLimiting.RefusedExactlyWhenFull | app/api/security.py:154-166 | a bucket is full exactly when the window ending now holds `limit` admissions of the history |
| RateLimiting.AnswerKeepsInv | app/api/security.py:154-166 | buckets stay ordered, not empty and the live end of their histories |
| RateLimiting.EvictionKeepsInv | app/api/security.py:168-190 | expired clients lose nothing, evicted ones their history |
| RateLimiting.ThrottledGoLast | app/api/security.py:168-190 | a throttled client is evicted only when all tracked clients are throttled, and among alike clients the one idle for longer goes first |
| EvidenceQuotes.BestWindowStart | app/consumer/evidence_support.py:136-152 | the two-pointer pass returns the first matching word of the earliest heaviest window, words longer than a window included |
| EvidenceQuotes.WordsAreExactly | app/consumer/evidence_support.py:102-107 | the words listed are exactly the stretches without blanks between blanks or ends of the text, each with the weight of what it spells |
| EvidenceQuotes.NoRunIsHeavier | app/consumer/evidence_support.py:136-152 | the heaviest window is at least as heavy as any run of words that fits |
| EvidenceQuotes.FirstMatchKeepsEveryMatch | app/consumer/evidence_support.py:136-152 | starting at the first match loses no weight |
| EvidenceQuotes.SupportingQuote | app/consumer/evidence_support.py:88-109 | the quote is the window behind the sentence start of the heaviest window's first match, or of the text when nothing matches, cut at a break and stripped; it is contiguous, at most `max_chars`, and holds that word whole when it is at most a quarter of the window |
| EvidenceQuotes.BoundedKeepsWord | app/consumer/evidence_support.py:162-171 | cutting to word boundaries keeps a short word in the first quarter |
| EvidenceQuotes.KeptBreaks | app/consumer/evidence_support.py:162-171 | a window is cut behind its last sentence or clause end when that keeps half of it, else at its last blank, else not at all |
| EvidenceQuotes.SentenceStart | app/consumer/evidence_support.py:155-159 | goes back to the last sentence break when that costs a quarter at most |
| QueryVectorLog.TornAppendRecovers | app/evaluation/query_vectors.py:151-174 | after a crash at any character of an append a start finds every earlier record and a prefix of the batch, and leaves whole lines that say that |
| QueryVectorLog.NothingDurableIsLost | app/evaluation/query_vectors.py:95-186 | over every history the file stays readable and the first vector per query stays |
| QueryVectorLog.EveryHistoryIsSound | app/evaluation/query_vectors.py:95-186 | from an empty file every history ends running with file and memory equal, and keeps in place all that any earlier moment of it held |
| QueryVectorLog.StepKeepsInv | app/evaluation/query_vectors.py:122-186 | each step keeps file and memory equal; a restart changes nothing |
| QueryVectorLog.SplitRendered | app/evaluation/query_vectors.py:151-174 | splitting a file at newlines gives back its records and its tail |
| QueryVectorLog.QueryVectorCache.Start | app/evaluation/query_vectors.py:151-174 | reads the file as specified, or refuses it and changes nothing |
| QueryVectorLog.QueryVectorCache.Add | app/evaluation/query_vectors.py:122-140 | appends exactly the new keys of a valid batch, once each |
| QueryVectorLog.QueryVectorCache.EmbedQueries | app/evaluation/query_vectors.py:228-238 | the answer is fixed in every case: the embedder's vectors in order, or the number of distinct missing queries when they are required to be cached, or a refusal exactly when the batch of missing ones fails validation |
| RetrievalMetrics.DcgAtMostIdcg | app/evaluation/consumer_runner.py:236-345 | the discounted gain never exceeds the ideal one, for every hits, judgments and k and every positive discount that never rises |
| RetrievalMetrics.ConsumerLegalMetricsAtK | app/evaluation/consumer_runner.py:225-345 | the loop over unique hits fixes recall, reciprocal rank (of the first rank that earned), precision and NDCG by equations, all between zero and one; a cutoff below one is refused and a complaint without grounds scores abstention |
| RetrievalMetrics.EarnedOnce | app/evaluation/consumer_runner.py:236-345 | every gain is that of a judgment of its own |
| RetrievalMetrics.LargestSumMost | app/evaluation/consumer_runner.py:236-345 | no choice of gains sums to more than as many of the largest |
| RetrievalMetrics.PrefixesDominate | app/evaluation/consumer_runner.py:236-345 | dominated prefix sums give dominated discounted sums |
| RetrievalMetrics.DiscountedDiscounts | app/evaluation/consumer_runner.py:236-345 | a positive falling discount is such a worth |
| RetrievalMetrics.JudgedMeansMatched | app/evaluation/consumer_runner.py:202-213 | a judgment is found exactly when some counted hit matches it |
| RetrievalMetrics.CountedIsFirst | app/evaluation/consumer_runner.py:236-246 | the hits counted are exactly the first of every id, under the rank they were returned at |
| RetrievalMetrics.RecallGrows | app/evaluation/consumer_runner.py:225-345 | recall does not fall as k grows |
| Chunking.PiecesTile | app/rag/chunking.py:186-210 | the pieces of a trimmed text cover it in order with only white space between |
| Chunking.PiecesFit | app/rag/chunking.py:186-210 | no piece is longer than the budget |
| Chunking.CutRespectsWords | app/rag/chunking.py:186-210 | every cut is of one of three kinds: behind a blank that follows no currency symbol, behind a sentence or clause end, or at the budget when its second half holds neither |
| Chunking.WordIsCutExactly | app/rag/chunking.py:186-210 | a word of at most half the budget is cut exactly when a currency symbol and a blank stand before it, the budget ends inside it, and the second half of the budget holds no other place to cut |
| Chunking.AmountIsCut | app/rag/chunking.py:186-210 | `abcd R$ 1234 xyz` with a budget of ten becomes `abcd R$ 12` and `34 xyz` |
| Chunking.CutPartsExactly | app/rag/chunking.py:186-210 | exactly when a cut separates a currency symbol from its amount, for every text |
| Chunking.CutPartsSingleBlanks | app/rag/chunking.py:186-210 | without doubled blanks: exactly when nothing in the second half can be broken at and the budget ends at or just behind the blank after a symbol |
| Chunking.AmountIsParted | app/rag/chunking.py:198-206 | `aaaaaaaR$ 100` with a budget of ten becomes `aaaaaaaR$` and `100` |
| Chunking.SplitAtBoundaries | app/rag/chunking.py:186-210 | the loop computes those pieces and ends |
| SectionChunking.PackedHoldsPieces | app/rag/chunking.py:125-178 | dropping carried tails yields every piece once and in order, and no chunk is only a tail |
| SectionChunking.ChunksCoverSection | app/rag/chunking.py:125-210 | without carried tails the chunks of a section are one group of pieces for every paragraph, each covering its paragraph in order up to white space |
| SectionChunking.ChunksFitExactlyWithOverlap | app/rag/chunking.py:125-178 | chunks stay within target plus overlap for every section exactly when the overlap is not zero |
| SectionChunking.ZeroOverlapDoubles | app/rag/chunking.py:213-217 | a section whose second chunk is twice the target under a zero overlap |
| SectionChunking.TailIsTheEnd | app/rag/chunking.py:213-217 | a tail is the longest end of its paragraph of at most an overlap, or what of that is behind its first blank, and never empty; a zero overlap takes the whole paragraph |
| SectionChunking.ChunksOverlap | app/rag/chunking.py:125-178 | a chunk behind another starts with such an end of that one's last piece, when the piece is longer than an overlap |
| SectionChunking.ChunksAreFull | app/rag/chunking.py:125-178 | a chunk ends only where the next piece would have taken it past the target |
| SectionChunking.MadeHolds | app/rag/chunking.py:131-152 | the text of a chunk is its pieces in order, one a line, behind its title |
| SectionChunking.MadeSpans | app/rag/chunking.py:131-152 | its pages run from the first to the last of its pieces |
| SectionChunking.ChunksStayOnPage | app/rag/chunking.py:76-84 | a chunk of a page section spans that page |
| SectionChunking.IdsNumberChunks | app/rag/chunking.py:111-123 | chunk indices run 0, 1, ... across sections |
| SectionChunking.SectionedKeepsBody | app/rag/chunking.py:65-73 | sections hold every paragraph that is no heading, in order |
| SectionChunking.PageSectionsKeepAll | app/rag/chunking.py:76-84 | page sections hold every paragraph, in order |
| SectionChunking.ChunkSection | app/rag/chunking.py:125-178 | the loop with its flushes computes the specified chunks |
| SectionChunking.ChunkDocument | app/rag/chunking.py:111-123 | the chunks of all sections, numbered on |
| SectionChunking.ChunkPages | app/rag/chunking.py:111-123 | in page mode the sections hold every paragraph, in heading mode every one that is no heading, and the chunks are theirs, numbered from zero |
| SectionChunking.SplitSections | app/rag/chunking.py:65-73 | the loop over paragraphs opens a section at every heading and drops those without text |
| LegalChunkIds.IdNamesItsUnit | app/consumer/legal_corpus.py:910-919 | a chunk id contains a unit's marker exactly when it is a part or alias id of that unit |
| LegalChunkIds.IdIsInjective | app/consumer/legal_corpus.py:664-752 | no two names are written as one id |
| LegalPacking.BlocksHoldUnits | app/consumer/legal_corpus.py:1222-1253 | packed blocks hold every unit once and in order, cutting only units longer than the budget |
| LegalPacking.BlocksFit | app/consumer/legal_corpus.py:1222-1253 | every block fits the budget |
| LegalPacking.BlocksAreFull | app/consumer/legal_corpus.py:1222-1247 | a block of whole units ends only in front of a unit it has no room for, or one that has to be split |
| LegalPacking.PackUnits | app/consumer/legal_corpus.py:1222-1247 | the loop computes those blocks |
| LegalCorpora.AllDraftsNamed | app/consumer/legal_corpus.py:601-662 | the chunks of a corpus with unique keys have distinct names |
| LegalCitations.PartCites | app/consumer/legal_corpus.py:979-1074 | citing a part returns its unit and exactly the verbatim piece it was made of, with its metadata or, at the default size, without |
| LegalCitations.AliasCites | app/consumer/legal_corpus.py:1022-1030 | citing an alias returns the first official part of its unit, which exists |
| LegalCitations.PackedArticleCites | app/consumer/legal_corpus.py:705-752 | with the program's own packing, citing an article-level chunk names no unit and returns its packed text |
| LegalCitations.ArticlePiecesHoldUnits | app/consumer/legal_corpus.py:705-752 | the packed texts of an article are not empty, fit the budget, and hold its units once and in order, cutting only a unit longer than the budget |
| LegalCitations.AlteredIsRefused | app/consumer/legal_corpus.py:1003-1020 | corollary: what is cited has the text, page and metadata of a canonical chunk |
| LegalCitations.ChunkIdsDistinct | app/consumer/legal_corpus.py:1044-1052 | no two canonical chunks share an id |
| LegalCitations.UnitForFinds | app/consumer/legal_corpus.py:910-919 | the id of a unit's chunk finds that unit |
| LegalCitations.UnitForFindsNone | app/consumer/legal_corpus.py:910-919 | the id of an article-level chunk finds none |
| LegalCitations.RealSplitsFaithfully | app/consumer/legal_corpus.py:1250-1253 | the splitter of the chunker meets what citing relies on |
| LegalCitations.LegalCorpus.AsChunks | app/consumer/legal_corpus.py:601-662 | the loops generate the specified chunks in order |
| LegalCitations.LegalCorpus.CanonicalChunks | app/consumer/legal_corpus.py:1044-1052 | the memo never changes the answer |
| LegalCitations.LegalCorpus.AuthorityForChunk | app/consumer/legal_corpus.py:979-1001 | answers as the specification that undoes chunking |
| RankFusion.ReciprocalRankFusion | app/rag/pipeline.py:769-814 | the fused list is the k best of every chunk of any channel by its summed shares; invalid input is refused exactly when the code raises |
| RankFusion.ReadOneMore | app/rag/pipeline.py:769-814 | one more chunk counts only at its first rank in a channel |
| FusionBounds.FloorNeverBindsExactly | app/consumer/ground_selection.py:128-143 | a chunk both channels found reaches half the best score of any query, for all rankings, exactly when the depth is at most the constant plus two |
| FusionBounds.AgreementOutranksExactly | app/rag/pipeline.py:825-838 | with equal weights a chunk of both channels outscores any of one, for all rankings, exactly when the depth is at most the constant plus one |
| FusionBounds.TieringChangesNothing | app/rag/pipeline.py:825-838 | within that depth ordering a fused list by agreement leaves it as it is |
| LegalPolicy.OfficialSupportedExactly | app/consumer/legal_policy.py:245-315 | an official chunk is supported exactly when two channels agree in one query or two independent queries rank it near the top |
| LegalPolicy.StronglySupportedChunkIds | app/consumer/legal_policy.py:245-300 | the counters and sets compute exactly the supported chunks |
| LegalPolicy.AliasesAreCapped | app/consumer/legal_policy.py:302-315 | a query lends support to at most the capped number of aliases |
| LegalPolicy.AliasAgreesExactly | app/consumer/legal_policy.py:302-315 | an alias agrees exactly when both channels ranked it high enough with fewer agreeing aliases than the cap before it |
| LegalPolicy.OfficialAgreesExactly | app/consumer/legal_policy.py:302-321 | an official chunk agrees exactly when both channels ranked it high enough |
| LegalPolicy.PrecedenceWindow | app/consumer/legal_policy.py:181-205 | a choice at rising positions of at most the window, at most three complementary and none lexical-only; a candidate is left out only behind a full window, or when it is complementary and lexical-only or behind three complementary ones |
| LegalPolicy.AnchoredFacts | app/consumer/legal_policy.py:208-219 | Civil Code grounds stay only beside the CDC; the rest stays in order |
| GroundSelection.SelectLegalGrounds | app/consumer/ground_selection.py:58-125 | at most eight grounds in rank order, one per provision, at most three complementary and none lexical-only, Civil Code only beside the CDC, each provision with a supported chunk; and every provision with an eligible hit, and the article 42 that falls back on its caput, has a candidate that is a ground unless its score is below half a positive best one, eight candidates ranked no later fill the window, it is complementary and lexical-only or behind three, or its anchor is missing |
| GroundSelection.HeldRepresents | app/consumer/ground_selection.py:238-267 | a candidate has the best rank and the best score of the eligible hits of its provision and quotes one that none of them beats |
| GroundSelection.FallbackFallsBack | app/consumer/ground_selection.py:206-222 | the candidate of article 42 that falls back quotes the first caput among the merged hits, under the best rank and score of the hits it replaces |
| GroundSelection.ApplyVerdicts | app/consumer/ground_verifier.py:147-186 | verification keeps that policy and the order, and drops only rejected grounds and those that lost their anchor |
| GroundSelection.MergeResults | app/consumer/ground_selection.py:270-277 | every chunk once with its best score, best first |
| GroundSelection.EligibleCandidates | app/consumer/ground_selection.py:146-168 | exactly the eligible hits, grouped by provision with their ranks |
| GroundSelection.ProvisionCandidates | app/consumer/ground_selection.py:238-267 | one candidate per group, quoted from a supported provision |
| GroundSelection.NoneIsBetter | app/consumer/ground_selection.py:238-267 | no hit of the provision beats the quoted one |
| GroundSelection.ByRankSorts | app/consumer/ground_selection.py:238-267 | ordering candidates by rank loses none |
| GroundSelection.AboveFloor | app/consumer/ground_selection.py:58-125 | what is selected keeps the order, reaches the floor and numbers eight at most; a candidate is left out only below the floor or behind eight |
| GroundSelection.DisambiguatedBacked | app/consumer/ground_selection.py:171-222 | article 42 keeps a supported chunk through the disambiguation |
| GroundSelection.SoleParagraphNeverCited | app/consumer/ground_selection.py:171-204 | under harassment the sole paragraph of article 42 is never cited |
| GroundSelection.QuotedIsSupported | app/consumer/ground_selection.py:171-222 | with the caput of article 42 in force the quoted chunk cleared the gate itself exactly unless, under harassment, every eligible hit of the article is its sole paragraph |
| GroundSelection.CaputQuotedUnsupported | app/consumer/ground_selection.py:206-222 | a corpus, hits and a gate that supports the sole paragraph alone, where the unsupported caput is quoted |
| BrazilianAmounts.ParsePrinted | app/consumer/monetary.py:48-58 | parsing the grouped print of any amount in cents returns it |
| BrazilianAmounts.ParseGrouped | app/consumer/monetary.py:48-58 | grouped integers without cents parse back |
| BrazilianAmounts.PatternTakesPrinted | app/consumer/monetary.py:15-18 | the pattern takes the whole grouped print, whatever text follows |
| BrazilianAmounts.UngroupedReadsRightExactly | app/consumer/monetary.py:15-18 | an ungrouped amount is read right exactly below a thousand |
| MarkdownEscapes.UnescapeEscape | app/consumer/notice_markdown.py:198-205 | unescaping undoes escaping for every text |
| MarkdownEscapes.EscapedInside | app/reporting/convert.py:27-29 | also inside other text without a dangling backslash before it |
| MarkdownEscapes.UnescapeDistributesExactly | app/reporting/convert.py:27-29 | the exact condition for two texts to be resolved apart |
| MarkdownEscapes.StructuralIsEscaped | app/consumer/notice_markdown.py:198-205 | every structural character of an escaped text follows an odd run of backslashes |
| AliasGeneration.ResumedEqualsUninterrupted | app/consumer/alias_generation.py:146-219 | after any history of stopped and partial runs a complete run leaves the entries one complete run leaves |
| AliasGeneration.AttemptChangesNoOutcome | app/consumer/alias_generation.py:146-219 | an attempt, stopped anywhere, does not change what a complete run would leave |
| AliasGeneration.SecondRunIsQuiet | app/consumer/alias_generation.py:146-219 | a second unforced run asks and saves nothing when every unit was answered |
| AliasGeneration.AskedAgainExactlyUnanswered | app/consumer/alias_generation.py:242-249 | a unit is asked about again exactly when it was asked about and got no answer |
| AliasGeneration.NothingNeededExactlyWhenAnswered | app/consumer/alias_generation.py:242-249 | so nothing is left to ask exactly when every unit was answered |
| AliasGeneration.StepTwice | app/consumer/alias_generation.py:252-269 | asking the same article again changes nothing more, forced or not |
| AliasGeneration.PersonsEntrySurvives | app/consumer/alias_generation.py:252-269 | a person's entry outlives unforced runs; a forced one replaces it only by written aliases |
| AliasGeneration.StaleEntryOutlivesExactly | app/consumer/alias_generation.py:252-269 | a stale entry outlives a run exactly when the answer named no unit asked about |
| AliasGeneration.UnrequestedEntriesGo | app/consumer/alias_generation.py:272-308 | no entry of the generator's stays for a unit it does not request |
| AliasGeneration.WrittenIsAccepted | app/consumer/alias_generation.py:321-355 | what is written passes the entry's validation |
| AliasGeneration.AnswersAreWritten | app/consumer/alias_generation.py:242-269 | after a run over all articles a unit that had no entry, or a stale one of the generator's, or was forced, and was answered, carries the first four valid aliases; with fewer than two it is declined, and a person's entry stays |
| AliasGeneration.AnswerIsKept | app/consumer/alias_generation.py:348-355 | every answered text without a problem is kept up to its folding |
| AliasGeneration.KeptIsAnswer | app/consumer/alias_generation.py:348-355 | and nothing else is |
| AliasGeneration.ProgressIsSaved | app/consumer/alias_generation.py:146-219 | wherever an attempt stops, the file holds every entry it has written |
| AliasGeneration.AliasGenerator.GenerateAliases | app/consumer/alias_generation.py:146-219 | the loop saves after each article that changed an entry, exactly as specified, and stops where the client raises |
| AliasGeneration.AliasGenerator.PruneEntries | app/consumer/alias_generation.py:272-308 | drops exactly the generator's entries for units not requested, and says whether it dropped any |
| AliasGeneration.AliasGenerator.Replace | app/consumer/alias_generation.py:252-269 | the entry of every unit asked about and of every other after an answer |
| JpegFrames.WalkFindsFirstFrame | app/ingestion/pdf_reader.py:153-178 | the walk answers a size exactly when a frame header of that size follows valid segments within the marker limit |
| JpegFrames.WalkReads | app/ingestion/pdf_reader.py:153-178 | reading undoes writing: fill bytes, bare markers and segments are skipped up to the first frame header |
| JpegFrames.Stream.JpegFrameDimensions | app/ingestion/pdf_reader.py:153-178 | the stream loop answers as that format says |
| JpegFrames.Stream.NextJpegMarker | app/ingestion/pdf_reader.py:181-188 | the marker code behind any fill bytes, none on a bad prefix or at the end |

## Left out

- Replay: the manifest's shard list is a map by index and a file name its index; timestamps, hardware and package versions, and the artifact digest of an origin are not modelled.
- EmbeddingGeneration: a failed disk write counts as a crash, and the canary may probe any two texts where the source takes those with the lowest digests.
- SiblingsDiverge: only the square root stays a parameter, which exact reals cannot compute.
- SiblingImports: an index name is any string, as the manager takes it; that the factory derives it from corpus and model is not used, so generations of two models under one name are covered too.
- ActiveHoldsExactly: where the last importer of a slot is not ACTIVE (its run stopped behind the import) or was adopted, the store holds whatever that import left, and nothing is said of the other generations of the slot.
- GuardOutcomes: the failure threshold is at least one, as the settings demand.
- GuardProtocol: the clock is read once per resumed segment, and a task carries the name of its call.
- MaskFlaggedText: the mode with white space kept and `sanitized_document` are not modelled; `ComesBackExactly` is about targets whose characters fold to themselves.
- Bm25Rank: stored vectors and payload columns do not appear, and tokens are any function of the text.
- RunKeepsInv: chunk ids are assumed to keep their document, as the ids of this system do; a failed write that never calls `forget` stays pending.
- Allow: the clock never goes back.
- SupportingQuote: the cleaned text and term weights are parameters, and white space is already collapsed to blanks.
- QueryVectorLog: the JSON codec is a parameter whose strict prefixes do not parse.
- ConsumerLegalMetricsAtK: rounding to three decimals, article-level metrics, hard-negative and inactive rates, and `_merge_normalized_hits` are left out; judgments are graded at least one and absent exactly when no ground applies, as the dataset schema demands.
- Chunking: paragraph extraction and `is_heading` are parameters; Unicode white space beyond the ASCII kinds is left out.
- LegalCitations: lead-in rendering, eligibility tables, other metadata fields and the flags for inactive and uncitable provisions are left out; a chunk is assumed to come from one page, as statute chunks do.
- ApplyVerdicts: quote matching and query normalisation are parameters.
- BrazilianAmounts: inputs of other characters than digits, points and commas, the currency symbol and blanks before an amount, and `extract_brl_mentions` are left out.
- AliasGeneration: the order of entries in the file, the report's counters and messages, and the refusal of unknown article names are left out; the client answers an article the same way each time.
- MarkdownEscapes: `parse_blocks` and the document renderers only add easy members.
- JpegFrames: the format follows the walk, so code 00 and segments behind an end of image count as segments; the PNG header and the pixel limit only add easy members.
- Service and store lifecycle, settlement, label ranks, intervals, SDK clients, HTTP and the user interface: wiring or short arithmetic.
- Floating-point rounding: real numbers are used, with the 32-bit conversion as an abstract idempotent function.
