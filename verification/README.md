# Verified model of the ChatBI backend's deterministic core

This project models, in Dafny, the parts of the ChatBI backend whose behaviour follows from their inputs alone, and
proves properties of them over all inputs, all stores and all runs. `dafny verify dfyconfig.toml` checks it.

The four areas are:

1. **Retrieval and document stores.** Cleaning and cutting a document into overlapping chunks; the knowledge store with
   its three dictionaries; permission filters, ranking, reranking, merging of neighbouring chunks and citing; the
   embedding vector store; the RAG service with its job queue, repository, live evidence store and hydration.
2. **Runtime machines.** The sliding-window rate limiter and the user-then-organisation check built on it, the circuit
   breaker, the idempotency cache of chat queries, and cursor paging. Each is proved equal to a simple function of its
   whole history, and the promise is then proved about that function.
3. **Authentication.** URL-safe base64 without padding (RFC 4648, sections 3.2 and 5), signed tokens, role updates with
   their audit trail, and refresh-token rotation.
4. **Arithmetic.** Rolling z-scores, forecast bounds, calendar steps, and what rounding hides in the release gates.

How the model is built:

- A source class that updates its fields is a Dafny class with those fields. Its methods state the whole new state
  through functions on values; the theorems are lemmas about these functions, invariants that every method keeps, or
  statements over ghost logs of everything that happened.
- A dictionary whose insertion order can be seen (Python keeps it) is `Dict`: the keys in order and a map. `sorted` is
  a stable insertion sort, and `reverse=True` keeps it stable.
- Numbers are exact reals. `round(x, k)` is round-half-even. A square root is any function that satisfies
  `Vectors.IsSqrt`.
- BM25 scores, embeddings, the reranker, tokenisers, JSON, Python's `str` and `int` of odd claim values, keyed hashes,
  password checks and the ISO date parser are function parameters. The assumptions made of them are those named in the
  lemmas: JSON gives back the claims of the token in question, new ids are new, and so is the keyed hash of a new
  refresh token (which stands for the token throughout, as in the session table). The clock is a parameter that does
  not run backwards.

## What the code does differently from what one may expect

- Merging keeps the left chunk index, so a run of neighbours is merged in pairs, not as a whole; one pass is still a
  fixed point (`Dedupe.DedupeIsFixedPoint`, `Dedupe.OutputsSingleOrPair`).
- Reranking zips candidates with scores, so it permutes only the candidates that got a score
  (`Retrieval.RerankPermutes`).
- A queued re-index changes the repository's document row at once and the live store only when the job runs; hydration
  agrees with the live store exactly when the two document rows of every chunked document agree
  (`RagService.HydrationIsExact`), and `RagService.ReindexIsHydratedEarly` is a run in which they do not: a request
  whose permission was withdrawn still finds the document live and no longer finds it after hydration.
- A request refused by the organisation limit has used one of its user's slots (`RateLimit.PassedObeyBothLimits`).
- A refused sign-up leaves its organisation behind (`AuthService.AuthService.SignUp`).
- Rebuilding a chunk id from a printed anchor fails for sources that contain the anchor's own mark
  (`ChunkIds.AnchorRoundTrip` gives the exact condition).
- Rounding can open the suite gate although a case was unsafe, from 20000 cases on, and can pass a case with a wrong
  claim, from 4000 claims on (`ReleaseGate.TwentyThousandCasesHideOne`, `CaseScoring.FourThousandClaimsHideOne`).
- A score for another case's id stops an eval run half way: what was stored stays, and the run stays started
  (`EvalRunner.Run`).

Some corollaries read one branch of a definition back and stand beside the theorems without a row:
`CircuitBreaker.WaitingOnlyHalfOpens`, `CircuitBreaker.ProbeDecides` and `RefreshSessions.RevocationIsPermanent`. So do
lemmas that spell out a table or a small definition in plain terms: `Answers.SourceWeights`, `Answers.ConfidenceSteps`,
`CaseScoring.AverageMeans`, `ReleaseGate.RateMeans`, `ReleaseGate.SmallSuites`, `EvalRunner.StartedRun`,
`EvalRunner.FailuresAre`, `Rounding.Round2Close`, `Statistics.SumOfParts`, `Text.WhiteSpace`, `Vectors.CosineSymmetric`,
`AuthStore.RevokedOnce`, `Dicts.PutValues` and `Dicts.PopAllKeeps`.

## Model

| member | source | states |
|---|---|---|
| Chunking.ChunkText | src/chatbi/knowledge.py:603-629 | the loop returns exactly the overlapping windows of the text's words, and each bad setting gives its own error, checked in the source's order |
| Chunking.ChunkClosedForm | src/chatbi/knowledge.py:617-629 | there are 1 + ceil((n - size) / (size - overlap)) chunks for n > size words, and chunk i holds exactly the words from i * (size - overlap) on, `size` of them or all that remain |
| Chunking.ChunkSizes | src/chatbi/knowledge.py:617-629 | every chunk but the last has exactly `size` words, and every chunk but the first has more than `overlap` |
| Chunking.ChunksReconstruct | src/chatbi/knowledge.py:617-629 | the first chunk followed by every later chunk without its first `overlap` words is the word list: no word is lost or invented |
| Chunking.ChunkTextsReconstruct | src/chatbi/knowledge.py:597-629 | the same from the stored chunk texts alone, through cleaning, joining and splitting again |
| Text.CleaningKeepsWords | src/chatbi/knowledge.py:597-600 | cleaning a document never changes its words |
| Text.BlankIsStripped | src/chatbi/knowledge.py:400-402 | stripping leaves nothing of a text if and only if it is all white space |
| Text.WordsOfJoin | src/chatbi/knowledge.py:617-629 | splitting a chunk text gives back the words it was joined from |
| Text.StripTrims | src/chatbi/knowledge.py:400-402 | stripping cuts white space off both ends and nothing else, and leaves none there |
| Tags.LowerStripped | src/chatbi/rag.py:211-215 | stripping and lower-casing commute, and a normalised tag is its own normal form |
| Ordering.StringLeMeans | src/chatbi/knowledge.py:288-291 | strings sort with a prefix first, else by the first character in which they differ |
| Ordering.SortIsStable | src/chatbi/knowledge.py:783-813 | sorting keeps the order of tied elements, for every comparator |
| ChunkIds.ChunkIdInjective | src/chatbi/knowledge.py:246-262 | the id `<source>_chunk_<n>` determines both the source and n, whatever the source contains |
| ChunkIds.AnchorRoundTrip | src/chatbi/application/app.py:1224-1237 | splitting the printed anchor rebuilds the chunk id if and only if the source does not contain `#chunk-` |
| KnowledgeStore.InMemoryKnowledgeStore.SaveDocument | src/chatbi/knowledge.py:197-201 | stores or replaces the document row under its source id, refuses blank fields and changes nothing then |
| KnowledgeStore.InMemoryKnowledgeStore.SaveChunk | src/chatbi/knowledge.py:203-209 | refuses unknown sources and blank fields, otherwise puts the chunk at its id and keeps the position of an id already there |
| KnowledgeStore.InMemoryKnowledgeStore.SaveEmbedding | src/chatbi/knowledge.py:211-218 | refuses unknown chunks and empty vectors, otherwise stores the embedding under the chunk id |
| KnowledgeStore.InMemoryKnowledgeStore.RemoveDocument | src/chatbi/knowledge.py:220-231 | removes the document, all its chunks and their embeddings, and nothing else; a store of ingested chunks stays one |
| KnowledgeStore.InMemoryKnowledgeStore.IngestDocument | src/chatbi/knowledge.py:233-274 | after success the store holds the document with chunk n and its embedding for every text piece; after a failure exactly what was saved before it; the store stays consistent, and a store of ingested chunks stays one, either way |
| KnowledgeStore.InMemoryKnowledgeStore.ListChunkRecords | src/chatbi/knowledge.py:276-313 | returns the readable and matching chunks with their documents and embeddings, in (source, index) order |
| KnowledgeStore.InMemoryKnowledgeStore.RankRecords | src/chatbi/knowledge.py:471-517 | keeps exactly the records with a positive score, in rank order: falling score, then newer documents, then lower chunk index |
| KnowledgeStore.InMemoryKnowledgeStore.Retrieve | src/chatbi/knowledge.py:338-398 | the pipeline list, narrow, rank, rerank, merge, cut, cite computes the retrieval function that the theorems are about |
| KnowledgeStore.IngestedAt | src/chatbi/knowledge.py:246-274 | after an ingest, chunk i of the document is stored under `<source>_chunk_<i>` with its own text and index, and its embedding with the vector of that text |
| KnowledgeStore.StoredTextReadsBack | src/chatbi/knowledge.py:233-274 | after an ingest the words of the raw text can be read back from the stored chunk texts alone |
| KnowledgeStore.IngestSparesOthers | src/chatbi/knowledge.py:220-274 | ingesting one document never overwrites a chunk or embedding of another, whether it succeeds or stops half way |
| KnowledgeStore.RemoveUndoesIngest | src/chatbi/knowledge.py:220-274 | removing a document after an ingest under a new source id, complete or stopped half way, gives back the very store from before, insertion order included |
| Retrieval.RetrievalSeesOnlyReadable | src/chatbi/knowledge.py:276-398 | two stores that agree on what a requester may read answer each of the requester's queries alike, whatever else they hold and in whatever order it was stored; only the candidate count may differ |
| Answers.ListedExactly | src/chatbi/knowledge.py:276-313 | a stored chunk is listed exactly when its document has the type, dates and tags asked for, admits the role or any role, and is open, owned by the requester or shared with the requester |
| Answers.ListedInOrder | src/chatbi/knowledge.py:276-313 | nothing else is listed, and the list goes by source id and chunk index |
| Answers.CitedIsPermitted | src/chatbi/knowledge.py:338-424 | every citation is of a stored document that meets all these conditions |
| Answers.NothingRelevantIsLost | src/chatbi/knowledge.py:338-398 | without a reranker and with room for all listed records, each listed record with positive relevance has its text in the snippet of a selected record of its document |
| Answers.NarrowedExactly | src/chatbi/knowledge.py:426-469 | narrowing keeps exactly the candidates of the vector source, and everything when there is no source or it fails |
| Answers.RelevanceIsWeighted | src/chatbi/knowledge.py:471-517 | relevance is, to within half a unit of the fourth decimal, 60% keyword score plus 35% similarity to the stored or hashed vector plus the weight of the document type |
| Answers.OnlyOpposedIsDropped | src/chatbi/knowledge.py:498-501 | a record is dropped for its relevance only when its vector points away from the query |
| Answers.ScoredExactly | src/chatbi/knowledge.py:486-509 | the scoring loop keeps exactly the records of positive relevance, each with the relevance for its own keyword score |
| Answers.RerankedByScore | src/chatbi/knowledge.py:783-813 | reranked records come in falling order of their second-pass scores, ties in their old order |
| Answers.QueryWords | src/chatbi/knowledge.py:366-368 | the words searched for are those of the question, then of the metric context, then of the conversation |
| Answers.OwnVectorIsUsed | src/chatbi/knowledge.py:366-368 | a query with a vector of its own never has its text embedded; any other uses the embedding of exactly its text |
| Answers.WindowIsBest | src/chatbi/knowledge.py:369-372 | the reranked window has 2 * topK of the records of positive relevance, or all of them, in rank order, and what it leaves out ranks no higher than anything in it |
| Answers.CitationMeans | src/chatbi/knowledge.py:519-582 | each citation stands for one record of the window or two neighbouring ones of a document, and shows the source, title, date and anchor of the first, their text, and the larger of their relevances |
| Answers.CitationsAreFirst | src/chatbi/knowledge.py:373-376 | the citations are the first topK of the merged records, or all of them |
| Answers.RerankedIsWindow | src/chatbi/knowledge.py:373-395 | the reranked count is the window's exactly when a reranker scored the texts of the window against the question, else 0 |
| Answers.FiguresAddUp | src/chatbi/knowledge.py:376-398 | the other counts, the uncertainty, the confidence and the explanation of an answer belong to its evidence and its narrowed records |
| Answers.ExplanationNamesAll | src/chatbi/knowledge.py:584-589 | the explanation contains the anchor of every citation |
| Retrieval.EvidenceIsReadable | src/chatbi/knowledge.py:276-313 | every citation points at a stored document that passes the role and owner checks for this requester |
| Retrieval.EvidenceRelevanceInUnit | src/chatbi/knowledge.py:471-517 | every cited relevance lies in (0, 1], through ranking and merging, so that building an evidence item never raises |
| Retrieval.EvidenceFallsUnlessReranked | src/chatbi/knowledge.py:338-398 | whenever nothing was reranked, the evidence comes in order of falling relevance, merged neighbours included |
| KnowledgeStore.IngestedPositionsUnique | src/chatbi/knowledge.py:233-313 | in every store that holds only ingested chunks no two readable records share (source, index), which is what RetrievalSeesOnlyReadable and the merge ask for |
| KnowledgeStore.EvidenceQuotesChunks | src/chatbi/knowledge.py:338-398 | in every store of ingested chunks each citation has document, title, date and anchor of one readable and matching stored chunk, and as its snippet the text of that chunk or its text, a blank and the text of the next chunk of the document |
| KnowledgeStore.EvidenceIsApart | src/chatbi/knowledge.py:338-398 | in every store of ingested chunks the anchors of two citations of one document are at least 2 chunks apart, so no stored text is cited twice |
| Retrieval.RerankMembers | src/chatbi/knowledge.py:783-813 | reranking invents no record |
| Retrieval.RerankPermutes | src/chatbi/knowledge.py:783-813 | a scorer with n scores permutes the first n candidates and drops the rest |
| Retrieval.NarrowOnlyNarrows | src/chatbi/knowledge.py:426-469 | the vector narrowing step only drops records |
| Vectors.CauchySchwarz | src/chatbi/knowledge.py:726-736 | the squared dot product is at most the product of the squared lengths, for all vectors of equal length |
| Vectors.CosineSimilarityRange | src/chatbi/knowledge.py:726-736 | cosine similarity on the common prefix lies in [-1, 1] for all vectors |
| Vectors.CosineOfParallel | src/chatbi/knowledge.py:726-736 | vectors that point the same way have similarity 1, whatever their lengths, and a zero vector has 0 |
| Vectors.DotOfSum | src/chatbi/knowledge.py:726-736 | the dot product is additive in its first vector |
| Vectors.OnlyCommonPrefix | src/chatbi/knowledge.py:726-736 | components beyond the shorter vector play no part, and an empty vector is similar to nothing |
| Vectors.ClippedCosineMeans | src/chatbi/embedding_vector_rag.py:596-603 | the vector store's similarity is the plain one where that is positive, and 0 otherwise and for different lengths |
| Vectors.NormalizedScores | src/chatbi/knowledge.py:680-702 | normalised scores lie in [0, 1] and compare exactly as the raw scores do |
| Vectors.NormalizedEnds | src/chatbi/knowledge.py:680-702 | the best raw score becomes 1, the worst 0, and scores that are all equal 0.5 |
| Vectors.EqualStepsStayEqual | src/chatbi/knowledge.py:680-702 | equal differences of raw scores stay equal |
| Dedupe.DedupeAdjacentChunks | src/chatbi/knowledge.py:519-562 | the grouping, sorting and merging loops compute the specification of the merge |
| Dedupe.EachInputLandsOnce | src/chatbi/knowledge.py:519-582 | every input position is merged into exactly one output, exactly once, for every input |
| Dedupe.OutputsHaveGaps | src/chatbi/knowledge.py:533-562 | no two outputs of one document have successive chunk indexes |
| Dedupe.DedupeIsFixedPoint | src/chatbi/knowledge.py:519-562 | merging twice is merging once, for every input |
| Dedupe.OutputsSingleOrPair | src/chatbi/knowledge.py:519-582 | with distinct (source, index), each output is one input record, or a pair (i, i + 1) of one document with document, chunk id, index and embedding of the left one, the left text, a blank and the right text, and the larger score, placed at the earlier of the two inputs |
| Dedupe.OutputsApart | src/chatbi/knowledge.py:519-562 | with distinct (source, index), the outputs are strictly ordered by earliest input position, and two outputs of a document are at least 2 indexes apart |
| Dedupe.FallingStaysFalling | src/chatbi/knowledge.py:519-582 | merging a list of falling scores gives a list of falling scores |
| Dedupe.ScoresStayInRange | src/chatbi/knowledge.py:564-582 | bounds on the scores of the inputs hold for the outputs |
| Dedupe.DocumentsStay | src/chatbi/knowledge.py:564-582 | each output carries the document of one of the inputs |
| Grouping.GroupBy | src/chatbi/rag_hydration.py:54-61 | the append-to-bucket loop gives every key its items in input order, and the keys in order of first appearance |
| Grouping.GroupSizes | src/chatbi/rag_hydration.py:54-61 | the groups split the items: their sizes add up to the number of items |
| VectorStore.ChunkDocument | src/chatbi/embedding_vector_rag.py:527-555 | the strided loop makes exactly the chunks that overlap 0 gives on the same words, numbered in order, and refuses a limit that is not positive |
| VectorStore.InMemoryVectorStore.UpsertDocument | src/chatbi/embedding_vector_rag.py:293-294 | stores or replaces the document under its id and touches no chunk |
| VectorStore.InMemoryVectorStore.UpsertChunks | src/chatbi/embedding_vector_rag.py:299-313 | refuses a length mismatch, an unknown document or a chunk of another organisation than its document; the chunks before a refused one stay written, and no others |
| VectorStore.LastWriteCounts | src/chatbi/embedding_vector_rag.py:299-313 | of all writes to a chunk id the last counts: chunk and vector stored are two given together, and every other id stays as it was |
| VectorStore.InMemoryVectorStore.Search | src/chatbi/embedding_vector_rag.py:315-371 | refuses a trace id without `trc_`, a blank organisation and a limit outside 1 to 20; otherwise returns the selected hits with the title, type and version of their documents and their score to four decimals, and leaves the store unchanged |
| VectorStore.SearchIsTopPositive | src/chatbi/embedding_vector_rag.py:335-371 | the result is the top `limit` of the hits with a positive score: nothing else is in it, it falls by score, then document id, then chunk id, and a positive hit is left out only when the list is full of hits that rank no lower |
| VectorStore.HitsExactly | src/chatbi/embedding_vector_rag.py:335-388 | a stored chunk is a hit exactly when chunk and document are of the organisation, the document is active and the requester has every tag of its policy, stripped and lower-cased |
| VectorStore.SearchIgnoresOrder | src/chatbi/embedding_vector_rag.py:335-388 | two stores with the same allowed chunks answer alike, whatever else they hold and in whatever order it went in |
| VectorStore.SearchScoresInUnit | src/chatbi/embedding_vector_rag.py:390-406 | every returned score lies in [0, 1], so that building an evidence chunk never raises for it |
| RagIndexing.ChunkDocumentText | src/chatbi/rag_indexing.py:113-142 | the while loop makes one chunk per overlapping window, with its position and id |
| RagIndexing.ChunksPassTheirChecks | src/chatbi/rag_indexing.py:113-142 | every chunk made this way passes the validation of its own constructor, and its text has exactly the words of its window |
| RagStores.InMemoryRagRepository.SaveIndexArtifacts | src/chatbi/rag_repository.py:93-99 | replaces the document row and puts every chunk at its id, keeping everything else |
| RagStores.LastWriteCounts | src/chatbi/rag_repository.py:93-99 | of all writes to a chunk id the last counts, and every other id stays as it was |
| RagStores.InMemoryRagRepository.SaveJob | src/chatbi/rag_repository.py:101-102 | records the job under its id and changes nothing else |
| RagStores.InMemoryRagEvidenceStore.AddArtifacts | src/chatbi/rag_retrieval.py:41-46 | adds the document and its chunks; the first foreign chunk stops it, and then exactly the document and the chunks before that one have been added |
| RagStores.InMemoryRagEvidenceStore.RankChunks | src/chatbi/rag_retrieval.py:104-131 | the appending loop scores every chunk that shares a token with the query and sorts the result by rank |
| RagStores.InMemoryRagEvidenceStore.Search | src/chatbi/rag_retrieval.py:48-75 | returns min(limit, matches) items in order of falling relevance; a match is left out only when the list is full of items that are no less relevant; nothing searchable is changed |
| RagStores.SearchIsTopRanked | src/chatbi/rag_retrieval.py:48-131 | the hits are exactly the stored chunks that pass the filters and share a token with the query, each as often as it is stored; the search returns the first `limit` of them by relevance, then date, then position, and whatever it drops ranks no higher than anything it returns |
| RagStores.FilterMeans | src/chatbi/rag_retrieval.py:91-102 | a document passes the filter exactly when the window holds its date, it has every business tag asked for and the requester has every permission tag of it, stripped, lower-cased and blank ones aside |
| RagStores.NormalizeTwice | src/chatbi/rag.py:211-215 | normalising tags twice is normalising them once |
| RagStores.RelevanceIsShare | src/chatbi/rag_retrieval.py:104-120 | relevance is the share of the query's tokens found in the chunk, to four decimals; there is none exactly when no token is shared |
| RagStores.SnippetMeans | src/chatbi/rag_retrieval.py:149-153 | a snippet is the whole text with single blanks when that has at most 240 characters, else its first 237 without trailing white space and an ellipsis |
| RagStores.SearchReturnsPermitted | src/chatbi/rag_retrieval.py:48-142 | every returned item shows id, snippet, source and date of a stored chunk whose document passes all filters, with that chunk's relevance, in [0, 1], and there are at most `limit` |
| RagStores.SortedChunksByContents | src/chatbi/rag_repository.py:137-146 | the listing goes by document id and position and depends on the stored chunks, not on the order in which they were stored |
| RagService.InMemoryRagService.IndexDocument | src/chatbi/rag_service.py:58-74 | over every run the two chunk maps are the same, and the two document rows of every document agree unless a queued job for it is outstanding; a small document is indexed in both stores at once, a large one only queued |
| RagService.InMemoryRagService.RunIndexJob | src/chatbi/rag_service.py:76-113 | keeps the same invariant; unknown ids are refused, finished jobs are answered as they are, and a queued job updates both stores and leaves the queue |
| RagService.IndexedDocumentPasses | src/chatbi/rag_indexing.py:101-110 | the document of an index request carries its id, source, title, type and date, and passes a search exactly when the search's window holds its date, the request has every business tag of the search, and the search every permission tag of the request |
| RagService.FoundOnlyIfPermitted | src/chatbi/rag_retrieval.py:48-102 | whatever else the store holds, a search returns a chunk of an indexed document only under these conditions |
| RagService.FoundIfPermitted | src/chatbi/rag_retrieval.py:48-102 | under these conditions a search that shares a token with a chunk returns it, or a full list |
| RagService.HydrateEvidenceStore | src/chatbi/rag_hydration.py:25-52 | loads every chunk of every known document over what the target held, loaded plus skipped chunks are all chunks, and nothing is skipped when every chunk has its document row |
| RagService.HydrationIsExact | src/chatbi/rag_hydration.py:25-77 | after any run, a freshly hydrated store shows a search exactly what the live store shows it if and only if the two document rows of every chunked document agree |
| RagService.HydratedStoreAnswersAlike | src/chatbi/rag_hydration.py:25-77 | when no chunked document has a queued job outstanding, a freshly hydrated store answers every search request with the same list as the live store |
| RagService.ReindexIsHydratedEarly | src/chatbi/rag_service.py:58-74 | the condition is needed: after a short document is indexed and a long text with another row is queued for the same id, every request that may see the old row and not the new one still finds the old chunks in the live store and gets nothing from a freshly hydrated one |
| RateLimit.SlidingWindowStore.RecordAndCheckLimited | src/chatbi/rate_limit.py:31-51 | the pruned list decides as the full, unpruned history of accepted events would, and records the event exactly when it is accepted |
| RateLimit.RefusedExactly | src/chatbi/rate_limit.py:31-51 | a call is refused exactly when its limit is positive and at least that many earlier calls with its key were accepted in the last 60 seconds |
| RateLimit.NeverRefusedAfterAMinute | src/chatbi/rate_limit.py:31-51 | a call a minute or more after all others with its key is never refused |
| RateLimit.WindowBound | src/chatbi/rate_limit.py:31-51 | every half-open 60-second window holds at most `limit` accepted events of a key |
| RateLimit.DecisionsAreLocal | src/chatbi/rate_limit.py:31-51 | a decision depends on the calls with its own key alone |
| RateLimit.RequestLimiter.Check | src/chatbi/application/app.py:818-858 | refuses a request for its user exactly when that many of the user's requests got past the user check in the last 60 seconds, else for its organisation exactly when that many of the organisation's requests passed in the last 60 seconds, else lets it pass |
| RateLimit.OutcomeExactly | src/chatbi/application/app.py:818-858 | the same over every run of requests |
| RateLimit.PassedObeyBothLimits | src/chatbi/application/app.py:818-858 | over any run, passed requests obey both limits in every window at once, and a request the organisation refused counts against its user |
| RateLimit.RequestLimiter.ObeysBothLimits | src/chatbi/application/app.py:818-858 | the same for whatever a limiter object has let through so far |
| CircuitBreaker.Breaker.ReadState | src/chatbi/resilience.py:69-73 | reading may store the half-open state, and always answers the closed form of the history: closed below the threshold, else open until the cooldown after the latest failure, else half-open |
| CircuitBreaker.Breaker.BeforeCall | src/chatbi/resilience.py:79-81 | a call is let through exactly when the closed form is not open |
| CircuitBreaker.Breaker.RecordSuccess | src/chatbi/resilience.py:83-86 | adds a success to the history and keeps the fields in step with the closed form |
| CircuitBreaker.Breaker.RecordFailure | src/chatbi/resilience.py:88-95 | adds a failure to the history and keeps the fields in step with the closed form, however often the state was read before |
| CircuitBreaker.TripsOnConsecutiveFailures | src/chatbi/resilience.py:69-101 | the breaker is not closed exactly when the last `threshold` events were all failures, and then open exactly until `cooldown` seconds after the last of them |
| Retry.RunWithRetry | src/chatbi/resilience.py:40-52 | calls the action until it returns or raises a foreign exception, at most `max_attempts` times, answers with the last call's outcome, and pauses once between two calls when a backoff is set |
| Idempotency.ChatHandler.HandleChatQuery | src/chatbi/application/app.py:240-345 | answers as the whole history of stored answers says, although the cache drops expired entries on the way |
| Idempotency.ChatHandler.GetCached | src/chatbi/application/app.py:888-907 | pops an expired entry, reports a conflict for another body and the stored envelope for the same one |
| Idempotency.StoredAnswerIsReplayed | src/chatbi/application/app.py:274-345 | for 60 seconds after an answer was stored for (user, key) no call with them reaches the orchestrator; unless rate limited the same body gets the identical envelope and any other body a conflict; the entry and its expiry do not change |
| Idempotency.CachedAnswerHasSource | src/chatbi/application/app.py:888-921 | nothing is replayed that was not stored: an answer from the cache was given to the same user, key and body at most 60 seconds before, and a conflict names the trace of such a call with another body |
| Idempotency.UncachedCalls | src/chatbi/application/app.py:240-345 | a rate-limited call gets the limiter's envelope, and a call without a key, or whose user stored nothing under its key, gets what the orchestrator gives |
| Idempotency.ExpiredAnswerIsRecomputed | src/chatbi/application/app.py:888-921 | the first such call after the 60 seconds reaches the orchestrator again, unless rate limited |
| HistoryPaging.NextCursorAdvances | src/chatbi/application/app.py:440-466 | a next cursor points strictly past its page and inside the history, and a page has between 1 and 100 items when there is a next one |
| HistoryPaging.PageMeans | src/chatbi/application/app.py:440-466 | a page holds exactly the records from the cursor on, as many as asked for between 1 and 100 or all that remain, and names the index after it while there is more |
| HistoryPaging.CursorMeans | src/chatbi/application/app.py:440-466 | a cursor is the index it spells; none, a negative one and anything else mean the start |
| HistoryPaging.PagingIsComplete | src/chatbi/application/app.py:440-466 | following the cursors from none to none terminates and yields every record of the user exactly once, newest first, equal instants in their original order, for any requested page sizes |
| TokenCodec.Base64RoundTrip | src/chatbi/auth.py:1119-1125 | every byte string survives encoding, dropping the padding, restoring it from the length, and decoding; the text never contains '.' or '=' and its length is never 1 modulo 4 |
| TokenCodec.AlphabetIsTable2 | src/chatbi/auth.py:1119-1125 | the alphabet is the URL-safe one of table 2 of RFC 4648 |
| TokenCodec.SameNumber | src/chatbi/auth.py:1119-1125 | four sextets are the same number as the three bytes, most significant first |
| TokenCodec.TestVectors | src/chatbi/auth.py:1119-1125 | the test vectors of section 10 of RFC 4648 without their padding |
| TokenCodec.GarbageIsSkipped | src/chatbi/auth.py:1123-1125 | the decoder skips a character outside the alphabet wherever it stands |
| TokenCodec.PaddingEnds | src/chatbi/auth.py:1123-1125 | two padding signs after two characters of a group, or one after three, end the data; one that comes too early is forgotten |
| TokenCodec.OnlyAscii | src/chatbi/auth.py:1123-1125 | a text with a character beyond ASCII is refused, any other is scanned |
| TokenCodec.TokenRoundTrip | src/chatbi/auth.py:392-410 | a signed token whose claims survive JSON decodes to exactly these claims until the number in `exp`, and is refused as expired from then on; without `exp` it is expired, and with an `exp` that is no number malformed |
| TokenCodec.AcceptedIffSigned | src/chatbi/auth.py:397-410 | a token is accepted with some claims if and only if it is body, dot and signature with the keyed hash of the body, the body reads as an object with those claims, and their expiry is a number in the future |
| TokenCodec.ContextMeans | src/chatbi/auth.py:360-381 | which claims make an access token, and how user, organisation, roles, permissions and version are read, with their defaults |
| TokenCodec.AccessTokenRoundTrip | src/chatbi/auth.py:348-384 | an issued access token gives back user, organisation, roles, permissions and version exactly, if and only if it is unexpired; assumed of JSON is only that it reads these claims back |
| Permissions.PermissionsForRoles | src/chatbi/auth.py:1050-1054 | the loop collects the permissions of the roles, each once, in order of first appearance |
| Permissions.AdminOnly | src/chatbi/auth.py:1004-1054 | each of the ten administrative permissions is granted exactly to those with the admin role |
| Permissions.AnalystsMore | src/chatbi/auth.py:1004-1054 | approved evaluations are granted exactly to analysts, analytics and sharing exactly to analysts and admins |
| Permissions.BasicForAll | src/chatbi/auth.py:1004-1054 | each of the seven basic permissions is granted exactly to those with one of the three roles |
| Permissions.NothingElse | src/chatbi/auth.py:1004-1054 | no other permission is ever granted |
| Permissions.DedupOrder | src/chatbi/auth.py:1050-1054 | of two permissions kept, the first was met first |
| Permissions.DuplicateRolesDoNotMatter | src/chatbi/auth.py:475-480 | the permissions of the stored, deduplicated roles are those of the requested roles |
| Permissions.DedupMembers | src/chatbi/auth.py:475-480 | deduplication keeps exactly the members, each once |
| AuthStore.InMemoryAuthStore.CreateOrganization | src/chatbi/auth.py:422-426 | adds the organisation under its id with a stripped or default name |
| AuthStore.InMemoryAuthStore.CreateUser | src/chatbi/auth.py:428-453 | refuses a bad or taken address without change, otherwise adds the user and its address |
| AuthStore.NormalAddress | src/chatbi/auth.py:1062-1066 | exactly the texts with an `@` are addresses; the normal form has no capitals and no white space around it, is its own normal form, and does not depend on letter case or surrounding white space |
| AuthStore.InMemoryAuthStore.UpdateUserRoles | src/chatbi/auth.py:464-495 | refuses missing users and users of another organisation, otherwise replaces roles and permissions, raises the version by one and appends one audit event |
| AuthStore.InMemoryAuthStore.CreateRefreshSession | src/chatbi/auth.py:497-513 | adds an unrevoked session under its id and its hash |
| AuthStore.InMemoryAuthStore.GetRefreshSessionByTokenHash | src/chatbi/auth.py:515-522 | finds the session of a hash through both dictionaries, or nothing |
| AuthStore.InMemoryAuthStore.RevokeRefreshSession | src/chatbi/auth.py:524-528 | stamps an unrevoked session and leaves every other case alone |
| AuditTrail.ConsecutiveEventsChain | src/chatbi/auth.py:482-494 | in a user's trail each event finds the roles the one before it left, the first finds the initial roles, and the last leaves the current ones |
| AuditTrail.RoleUpdateKeepsDirectory | src/chatbi/auth.py:464-495 | a role update keeps, for every user: version = 1 + number of audit events, the chain of roles, permissions equal to those of the roles, unique addresses; and the trail only grows |
| AuditTrail.SignUpKeepsDirectory | src/chatbi/auth.py:428-453 | a sign-up keeps the same for every user, the new one included |
| AuditTrail.EmailsAreUnique | src/chatbi/auth.py:437-453 | no two users share an address |
| AuditTrail.SameVersionIffNoUpdate | src/chatbi/auth.py:464-495 | between two moments of a run a user's version is the same if and only if no role update of that user came between, and then roles and permissions are the same |
| RefreshSessions.OneUsePerToken | src/chatbi/auth.py:929-944 | in every run a refresh token is consumed at most once, by a refresh or by a revocation |
| RefreshSessions.OneOwner | src/chatbi/auth.py:929-938 | a token belongs to one user, so rotation never moves a session to another |
| RefreshSessions.OneExpiry | src/chatbi/auth.py:983-1001 | a token has one expiry, the one it was issued with |
| RefreshSessions.RotationIsLive | src/chatbi/auth.py:929-938 | a refresh ends the old token and makes the new one live |
| RefreshSessions.IssueKeepsSessions | src/chatbi/auth.py:983-1001 | issuing keeps table and log in step: the table knows exactly the issued tokens, lets through exactly the live ones, and the unrevoked sessions number sign-ups plus sign-ins minus effective revocations |
| RefreshSessions.RevokeKeepsSessions | src/chatbi/auth.py:940-944 | revoking a live token keeps the same |
| RefreshSessions.RefreshKeepsSessions | src/chatbi/auth.py:929-938 | a refresh keeps the same; it revokes one session and creates one |
| AuthService.AuthService.SignUp | src/chatbi/auth.py:908-918 | succeeds exactly for a password of 8 or more characters and a valid, new address, and then adds exactly the record of the source, a business user without the permission to change roles, with a session until now plus the refresh lifetime; the organisation is created in every case; keeps all invariants |
| AuthService.AuthService.SignIn | src/chatbi/auth.py:920-927 | succeeds exactly when a user with that address has a matching password, issues a session and an access token for that user, and keeps all invariants |
| AuthService.AuthService.Refresh | src/chatbi/auth.py:929-938 | succeeds exactly for a token that was issued, not consumed, and whose expiry from its issue is not over; consumes it and issues a pair to the user it was issued to |
| AuthService.AuthService.RevokeRefreshToken | src/chatbi/auth.py:940-944 | afterwards the token is not live; an unknown, used or revoked token changes nothing |
| AuthService.AuthService.AuthenticateAccessToken | src/chatbi/auth.py:946-962 | accepts a token exactly as the function of directory, token and time that the theorems are about |
| AuthService.AuthService.UpdateUserRoles | src/chatbi/auth.py:964-977 | needs the admin permission and a target in the actor's organisation; stores the roles once each with their permissions and keeps all invariants |
| AuthService.TokenValidUntilRoleUpdate | src/chatbi/auth.py:946-1001 | an issued access token authenticates at a later moment of the run if and only if it is unexpired and no role update of its user came between, and then it carries the roles and permissions from its issue |
| AuthService.AuthenticatedIsCurrent | src/chatbi/auth.py:946-962 | whoever authenticates is a user of the directory, in its current organisation, with exactly the permissions of its current roles |
| AuthService.OnlyAdminsChangeRoles | src/chatbi/auth.py:946-977 | whoever authenticates has the permission to change roles exactly when the directory lists the admin role among their current roles |
| Calendar.OrdinalOrder | src/chatbi/analytics.py:314-319 | day numbers order valid dates as the calendar does and tell them apart |
| Calendar.DaysInMonthIsMonthLength | src/chatbi/analytics.py:330-333 | the day before the first of the next month gives the Gregorian month length, leap years included |
| Calendar.MonthStep | src/chatbi/analytics.py:322-327 | a month step lands exactly that many months later, on the same day or on the last day of a shorter month, and fails exactly when the year is out of range |
| Calendar.DayAndWeekSteps | src/chatbi/analytics.py:314-319 | day steps count days from 0001-01-01 to 9999-12-31 and fail exactly outside, and a week is seven of them |
| Calendar.StepsAscend | src/chatbi/analytics.py:314-327 | for every grain a later step lands on a strictly later valid date, and a step that succeeds means all earlier ones do |
| Statistics.StdDevAffine | src/chatbi/analytics.py:347-356 | the standard deviation of a * v + b is the absolute value of a times that of v |
| Statistics.MeanBalances | src/chatbi/analytics.py:347-356 | deviations from the mean add up to 0 |
| Statistics.VarianceFromSquares | src/chatbi/analytics.py:347-356 | the variance is the mean of the squares less the square of the mean, over n values, and the deviation its root |
| AnomalyDetection.DetectAnomalies | src/chatbi/analytics.py:256-282 | the loop reports the flagged points with their rounded scores |
| AnomalyDetection.ReportedExactly | src/chatbi/analytics.py:256-282 | a point is reported, with its value and rounded score, exactly when it lies at least `threshold` standard deviations from the mean of the w values before it, w being half the length but from 3 to 7 |
| AnomalyDetection.FlaggedSoundly | src/chatbi/analytics.py:263-282 | only points whose score reaches the threshold are flagged, in order and once each |
| AnomalyDetection.FlaggedCompletely | src/chatbi/analytics.py:263-282 | every point whose score reaches the threshold is flagged |
| AnomalyDetection.FlagsIgnoreScale | src/chatbi/analytics.py:256-282 | v -> a * v + b with a != 0 changes neither the flagged indexes nor the unrounded scores |
| Forecasting.ComputeForecast | src/chatbi/analytics.py:285-311 | the loop computes the forecast of the trend line, or the error of its first failing step |
| Forecasting.BoundsHold | src/chatbi/analytics.py:297-309 | rounding value and bounds separately keeps lower <= value <= upper |
| Forecasting.ForecastIsSound | src/chatbi/analytics.py:285-333 | a forecast fails exactly when its last date is outside the calendar and never for its bounds; otherwise it has one point per step on the rounded trend line, between its bounds, on that step's date |
| Forecasting.ForecastInNumbers | src/chatbi/analytics.py:285-333 | point k is the last value plus k + 1 average steps, with 1.96 spreads to either side, to two decimals; the spread is that around the trend line or, without any, 5% of the last value and at least 1 |
| Forecasting.StraightLineContinues | src/chatbi/analytics.py:285-311 | a series on a straight line is continued on that line |
| Forecasting.ForecastDatesAscend | src/chatbi/analytics.py:297-311 | forecast dates are strictly after the last observed date and strictly ascending |
| Forecasting.IntervalCovers | src/chatbi/analytics.py:336-344 | the confidence interval contains every forecast value with its bounds, and reaches no further than the outermost of them |
| Analytics.NormalizePoints | src/chatbi/analytics.py:220-243 | the loop returns the points of all rows in date order, or the error of the first bad row |
| Analytics.NormalizedIsSorted | src/chatbi/analytics.py:243-243 | the points are sorted by date and are a permutation of the rows' points |
| Analytics.FirstBadRowDecides | src/chatbi/analytics.py:220-254 | the first row that lacks a time text, a number or an ISO date decides the error, in this order |
| Analytics.PointsOfRows | src/chatbi/analytics.py:220-243 | rows without a flaw give one point each with their own date, text and number, and points of one date keep the order of their rows |
| Analytics.RowOrderDoesNotMatter | src/chatbi/analytics.py:220-243 | rows in any order give the same series when no two different points share a date, and are unreadable together |
| Analytics.Analyze | src/chatbi/analytics.py:157-187 | fewer than 3 points give only the warning; otherwise the anomalies, the forecast and its confidence interval for the normalised series, or the first error |
| Analytics.AnalysisParts | src/chatbi/analytics.py:157-187 | an analysis has the anomalies of the values, each under the text of its own date, and the forecast from the last point on |
| Analytics.AnalysisFailsOnlyByDate | src/chatbi/analytics.py:157-187 | with at least 3 points the analysis fails exactly when the forecast runs past the calendar |
| Rounding.RoundNearest | src/chatbi/evaluation.py:275-278 | rounding gives the nearest integer, and the even one of the two at a tie |
| CaseScoring.CasePassesBySum | src/chatbi/evaluation.py:132-153 | a case passes if and only if its four rounded metrics sum to at least 3.9998 |
| CaseScoring.MetricsMean | src/chatbi/evaluation.py:207-252 | the four metrics in plain terms: share of expected tokens found whatever the letter case, the expected error and no other, the very set of agents, and the share of supported claims |
| CaseScoring.CasePassesExactly | src/chatbi/evaluation.py:132-252 | at any size a case passes if and only if its error is the expected one, its agents are the expected set, it is cited if it has to be, and its missed tokens and unsupported claims are few enough, by integer bounds, for rounding to hide them |
| CaseScoring.SmallCasePassesIffPerfect | src/chatbi/evaluation.py:132-252 | with fewer than 4000 expected tokens and fewer than 4000 claims a case passes if and only if nothing is wrong with it |
| CaseScoring.FourThousandClaimsHideOne | src/chatbi/evaluation.py:242-252 | the bound is tight: one unsupported claim in 4000 passes |
| ReleaseGate.MetricBreakdown | src/chatbi/evaluation.py:155-192 | the accumulating loop averages each metric over all observations |
| ReleaseGate.ScoreSuite | src/chatbi/evaluation.py:83-130 | passed and failed cases add up, the failed detail lists exactly the failed cases in order, and the gate is that of the averages |
| ReleaseGate.FailedAre | src/chatbi/evaluation.py:83-130 | the failed detail holds exactly the cases that did not pass, with question, score and confidence |
| ReleaseGate.TotalsAdd | src/chatbi/evaluation.py:254-265 | claims and unsupported claims are summed over the cases |
| ReleaseGate.SafetyIsOneIff | src/chatbi/evaluation.py:222-229 | the rounded safety average is 1 if and only if at most one case in 20000 is unsafe |
| ReleaseGate.UnsafeCounted | src/chatbi/evaluation.py:222-229 | a case counts as unsafe exactly when its error is not the blocked query expected of a dangerous question, or any error at all on another |
| ReleaseGate.OpenGateMeansSafe | src/chatbi/evaluation.py:194-205 | with fewer than 20000 cases an open gate means that every case was safe, under every policy |
| ReleaseGate.GateOpensExactly | src/chatbi/evaluation.py:194-278 | when the gate opens, in unrounded quantities, for every policy and any number of cases: mean case score, unsafe count, latency percentile and unsupported share |
| ReleaseGate.DefaultGateOpensExactly | src/chatbi/evaluation.py:62-73 | the same for the default policy in plain numbers: a mean of at least 0.98995, at most one unsafe case in 20000, 8000 ms, and at most 401 unsupported claims in 20000 |
| ReleaseGate.TwentyThousandCasesHideOne | src/chatbi/evaluation.py:194-205 | the bound is tight: one unsafe case among 20000 good ones leaves the gate open |
| ReleaseGate.P95Between | src/chatbi/evaluation.py:267-273 | for every limit, the percentile is within it if the upper neighbouring latency is, and only if the lower one is |
| ReleaseGate.PercentileInterpolates | src/chatbi/evaluation.py:267-273 | the percentile is the value at position 0.95 * (n - 1) between its neighbours, cut off to whole milliseconds |
| ReleaseGate.LatencyLimitMeans | src/chatbi/evaluation.py:267-273 | for every limit, a percentile within it means that at least floor(0.95 * (n - 1)) + 1 of the n cases were |
| EvalRunner.InMemoryEvaluationRepository.SaveRun | src/chatbi/evaluation_repository.py:175-178 | refuses a blank id, otherwise inserts or replaces the run row and nothing else |
| EvalRunner.InMemoryEvaluationRepository.SaveScore | src/chatbi/evaluation_repository.py:180-184 | refuses an unknown run, otherwise appends one score to that run |
| EvalRunner.InMemoryEvaluationRepository.SaveFailure | src/chatbi/evaluation_repository.py:186-190 | refuses an unknown run, otherwise appends one failure to that run |
| EvalRunner.FailuresAreExplained | src/chatbi/evaluation_repository.py:319-351 | a score fails if and only if it has a specific reason, so that the catch-all text is never stored |
| EvalRunner.ReasonsAre | src/chatbi/evaluation_repository.py:340-351 | each flaw of a score is named exactly when it is there, in a fixed order |
| EvalRunner.GateMeansAllPassed | src/chatbi/evaluation_repository.py:277-299 | at any size the gate of a run is open if and only if every score is correct, safe, not unfaithful and of full quality, and if and only if no failure was recorded; the record and its counts are those of the scores |
| EvalRunner.Run | src/chatbi/evaluation_repository.py:223-275 | appends one score per case in order and exactly the failures of the scores that did not pass; a score for another case stops the run with what came before it stored and the run row still started; no other run is touched |
| EvalRunner.StoredUnderId | src/chatbi/evaluation_repository.py:223-275 | a run appends its scores and failures after whatever was stored under its id, and to no other id; a missing or empty id is replaced |
| EvalRunner.FreshRunStoresItsScores | src/chatbi/evaluation_repository.py:223-275 | on an unused run id the stored scores are those of the cases, one each and in order, and the failures those of the scores that did not pass |

## Left out

- RagService.InMemoryRagService.RunIndexJob: the branch that records a failed job is not modelled, because building the artifacts of an accepted request raises nothing (RagIndexing.ChunksPassTheirChecks).
- Idempotency.ChatHandler.HandleChatQuery: one reading of the clock at the cache check and one at the store; calls do not overlap.
- AuthService.AuthService.SignUp: one reading of the clock serves a whole call, where the source reads it several times.
- HistoryPaging.PagingIsComplete: the history does not change between the pages, and `int()` forms with spaces, underscores or other digits are not read in cursors.
- Analytics.Analyze: the stored record and the wording of the explanation are not part of the result.
- Forecasting.ComputeForecast: dates stay values and are not printed in ISO form.
- ReleaseGate.ScoreSuite: retrieval metrics, which are only reported, and the ids of runs are not part of the result.
- Floating-point error: all arithmetic is exact. NaN and infinite values do not occur, and observed counts are not negative.
- Unicode: lower-casing and white space are those of ASCII with the four separator controls; Python's wider tables are not modelled.
- The same record object listed twice in one merge, which the source's identity map would number once.
- Embedding metadata rows, the artifacts kept per document, chunk metadata, vector references, evidence-event timestamps, latencies, tracing and API audit records.
- Organisation filters of the repository's listing methods.
- `latest_run`, audit and user listings: short members that a reading settles.
- Tokenisers, BM25 and embedding internals, guardrail patterns, partitioning.
- PBKDF2, HMAC and JSON internals.
- Postgres repositories, HTTP layer, LLM and cross-encoder calls, report rendering and benchmarks.
