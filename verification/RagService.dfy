/** rag_service.py and rag_hydration.py: the repository, the live evidence store, and how they stay together. */
module RagService {
  import opened Text
  import opened Ordering
  import opened Grouping
  import opened Dicts
  import opened Tags
  import opened ChunkIds
  import opened RagIndexing
  import opened RagStores

  /** A queued request for document `d` that no worker has finished. */
  ghost predicate Outstanding(queued: map<string, IndexDocumentRequest>, d: string) {
    exists j :: j in queued && queued[j].documentId == d
  }

  ghost predicate SameDocument(repo: Tables, live: Tables, d: string) {
    d in repo.documents && d in live.documents && repo.documents[d] == live.documents[d]
  }

  /** The two chunk tables are one and the same, and every chunk belongs to a live document. */
  ghost predicate ChunksInStep(repo: Tables, live: Tables) {
    && WellKeyed(repo)
    && live.chunks == repo.chunks
    && (forall id :: id in repo.chunks.vals ==> repo.chunks.vals[id].documentId in live.documents)
  }

  /** The document rows agree, except where a queued request is still outstanding. */
  ghost predicate DocumentsInStep(repo: Tables, live: Tables, queued: map<string, IndexDocumentRequest>) {
    && (forall d :: d in live.documents ==> d in repo.documents)
    && (forall d :: d in repo.documents ==> repo.documents[d].documentId == d)
    && (forall d :: d in live.documents ==> live.documents[d].documentId == d)
    && (forall d :: d in repo.documents ==> SameDocument(repo, live, d) || Outstanding(queued, d))
  }

  /** At rest a job is queued, with its request at hand, or has succeeded. */
  ghost predicate JobsInStep(jobs: map<string, IndexJob>, queued: map<string, IndexDocumentRequest>) {
    forall j :: j in jobs ==>
      && jobs[j].jobId == j && (jobs[j].status == Queued || jobs[j].status == Succeeded)
      && (jobs[j].status == Queued ==> j in queued && queued[j].documentId == jobs[j].documentId)
  }

  /** What every run of the service keeps. */
  ghost predicate InStep(repo: Tables, jobs: map<string, IndexJob>, live: Tables,
                         queued: map<string, IndexDocumentRequest>)
  {
    ChunksInStep(repo, live) && DocumentsInStep(repo, live, queued) && JobsInStep(jobs, queued)
  }

  lemma IndexedChunksGood(documentId: string, text: string, settings: ChunkSettings)
    ensures GoodChunks(documentId, DocumentChunks(documentId, text, settings))
    ensures forall c :: c in DocumentChunks(documentId, text, settings) ==> c.documentId == documentId
  {
    var chunks := DocumentChunks(documentId, text, settings);
    forall c | c in chunks ensures c.documentId == documentId && c.chunkId == ChunkId(documentId, c.position) {
      var i :| 0 <= i < |chunks| && chunks[i] == c;
      ChunksPassTheirChecks(documentId, text, settings, i);
    }
  }

  /** Saving a queued job: the repository's document row moves on, the live store does not. */
  lemma QueueKeepsStep(repo: Tables, jobs: map<string, IndexJob>, live: Tables,
                       queued: map<string, IndexDocumentRequest>,
                       r: IndexDocumentRequest, j: string)
    requires InStep(repo, jobs, live, queued) && j !in queued && j !in jobs
    ensures InStep(AddTo(repo, DocumentOf(r), []), jobs[j := IndexJob(j, r.documentId, Queued)], live, queued[j := r])
  {
    var repo' := AddTo(repo, DocumentOf(r), []);
    var queued' := queued[j := r];
    assert queued'[j].documentId == r.documentId;
    forall d | d in repo'.documents ensures SameDocument(repo', live, d) || Outstanding(queued', d) {
      if d != r.documentId && Outstanding(queued, d) {
        var k :| k in queued && queued[k].documentId == d;
        assert k in queued' && queued'[k].documentId == d;
      }
    }
  }

  lemma FinishKeepsChunks(repo: Tables, live: Tables, d: RagDocument, chunks: seq<RagChunk>)
    requires ChunksInStep(repo, live) && GoodChunks(d.documentId, chunks)
    ensures ChunksInStep(AddTo(repo, d, chunks), AddTo(live, d, chunks))
  {
    PutChunksEffect(repo, d.documentId, chunks);
    var repo', live' := AddTo(repo, d, chunks), AddTo(live, d, chunks);
    forall id | id in repo'.chunks.vals ensures repo'.chunks.vals[id].documentId in live'.documents {
      if repo'.chunks.vals[id] in chunks {
        assert repo'.chunks.vals[id].documentId == d.documentId;
      }
    }
  }

  lemma FinishKeepsDocuments(repo: Tables, live: Tables, queued: map<string, IndexDocumentRequest>,
                             d: RagDocument, chunks: seq<RagChunk>, done: set<string>)
    requires DocumentsInStep(repo, live, queued)
    requires forall k :: k in done ==> k in queued && queued[k].documentId == d.documentId
    ensures DocumentsInStep(AddTo(repo, d, chunks), AddTo(live, d, chunks), queued - done)
  {
    var repo', live', queued' := AddTo(repo, d, chunks), AddTo(live, d, chunks), queued - done;
    forall e | e in repo'.documents ensures SameDocument(repo', live', e) || Outstanding(queued', e) {
      if e != d.documentId {
        if Outstanding(queued, e) {
          var k :| k in queued && queued[k].documentId == e;
          assert k in queued' && queued'[k].documentId == e;
        } else {
          assert SameDocument(repo, live, e);
        }
      }
    }
  }

  /** Finishing a document in both stores, and taking the job `j` off the queue if it is for that document. */
  lemma FinishKeepsStep(repo: Tables, jobs: map<string, IndexJob>, live: Tables,
                        queued: map<string, IndexDocumentRequest>,
                        d: RagDocument, chunks: seq<RagChunk>, j: string, done: set<string>)
    requires InStep(repo, jobs, live, queued) && GoodChunks(d.documentId, chunks)
    requires forall k :: k in done ==> k == j && k in queued && queued[k].documentId == d.documentId
    ensures InStep(AddTo(repo, d, chunks), jobs[j := IndexJob(j, d.documentId, Succeeded)], AddTo(live, d, chunks),
                   queued - done)
  {
    FinishKeepsChunks(repo, live, d, chunks);
    FinishKeepsDocuments(repo, live, queued, d, chunks, done);
  }

  class InMemoryRagService {
    const repository: InMemoryRagRepository
    const evidence: InMemoryRagEvidenceStore
    var queued: map<string, IndexDocumentRequest>

    ghost predicate Valid()
      reads this, repository, evidence
    {
      InStep(repository.Contents(), repository.jobs, evidence.Contents(), queued)
    }

    constructor ()
      ensures Valid() && fresh(repository) && fresh(evidence)
      ensures queued == map[] && repository.jobs == map[]
      ensures repository.Contents() == EmptyTables() && evidence.Contents() == EmptyTables()
    {
      repository := new InMemoryRagRepository();
      evidence := new InMemoryRagEvidenceStore();
      queued := map[];
    }

    /** `freshJobId` is the uuid-based id a queued job would get. */
    method IndexDocument(r: IndexDocumentRequest, settings: ChunkSettings, freshJobId: string) returns (job: IndexJob)
      requires Valid() && freshJobId !in queued && freshJobId !in repository.jobs
      modifies this, repository, evidence
      ensures Valid()
      ensures repository.jobs == old(repository.jobs)[job.jobId := job]
      ensures |r.text| > 50_000 ==>
                && job == IndexJob(freshJobId, r.documentId, Queued) && queued == old(queued)[freshJobId := r]
                && repository.Contents() == AddTo(old(repository.Contents()), DocumentOf(r), [])
                && evidence.Contents() == old(evidence.Contents())
      ensures |r.text| <= 50_000 ==>
                var chunks := DocumentChunks(r.documentId, r.text, settings);
                && job == IndexJob("rag_job_" + r.documentId, r.documentId, Succeeded) && queued == old(queued)
                && repository.Contents() == AddTo(old(repository.Contents()), DocumentOf(r), chunks)
                && evidence.Contents() == AddTo(old(evidence.Contents()), DocumentOf(r), chunks)
    {
      ghost var repo, jobs, live := repository.Contents(), repository.jobs, evidence.Contents();
      var artifacts := BuildIndexArtifacts(r, settings, freshJobId);
      if artifacts.job.status == Queued {
        QueueKeepsStep(repo, jobs, live, queued, r, freshJobId);
        queued := queued[artifacts.job.jobId := r];
        repository.SaveIndexArtifacts(artifacts);
        return artifacts.job;
      }
      IndexedChunksGood(r.documentId, r.text, settings);
      FinishKeepsStep(repo, jobs, live, queued, artifacts.document, artifacts.chunks, artifacts.job.jobId, {});
      repository.SaveIndexArtifacts(artifacts);
      var added := evidence.AddArtifacts(artifacts.document, artifacts.chunks);
      assert queued - {} == queued;
      return artifacts.job;
    }

    /** Unknown ids are refused, finished jobs answered as they are, queued jobs worked off. Building the
        artifacts of an accepted request raises nothing (ChunksPassTheirChecks), so no job ends as failed. */
    method RunIndexJob(jobId: string, settings: ChunkSettings) returns (job: Option<IndexJob>)
      requires Valid()
      modifies this, repository, evidence
      ensures Valid()
      ensures job.Some? <==> jobId in old(repository.jobs)
      ensures jobId !in old(repository.jobs) || old(repository.jobs)[jobId].status != Queued ==>
                repository.Contents() == old(repository.Contents()) && repository.jobs == old(repository.jobs)
                && evidence.Contents() == old(evidence.Contents()) && queued == old(queued)
                && (job.Some? ==> job.value == old(repository.jobs)[jobId])
      ensures jobId in old(repository.jobs) && old(repository.jobs)[jobId].status == Queued ==>
                jobId in old(queued)
                && var r := old(queued)[jobId];
                   var chunks := DocumentChunks(r.documentId, r.text, settings);
                   && job == Some(IndexJob(jobId, r.documentId, Succeeded))
                   && repository.Contents() == AddTo(old(repository.Contents()), DocumentOf(r), chunks)
                   && repository.jobs == old(repository.jobs)[jobId := job.value]
                   && evidence.Contents() == AddTo(old(evidence.Contents()), DocumentOf(r), chunks)
                   && queued == old(queued) - {jobId}
    {
      ghost var repo, jobs, live := repository.Contents(), repository.jobs, evidence.Contents();
      if jobId !in repository.jobs {
        return None;
      }
      var known := repository.jobs[jobId];
      if known.status != Queued {
        return Some(known);
      }
      var r := queued[jobId];
      IndexedChunksGood(r.documentId, r.text, settings);
      var artifacts := WorkerArtifacts(r, jobId, settings);
      FinishKeepsStep(repo, jobs, live, queued, artifacts.document, artifacts.chunks, jobId, {jobId});
      repository.SaveJob(IndexJob(jobId, known.documentId, Running));
      repository.SaveIndexArtifacts(artifacts);
      assert repository.jobs == jobs[jobId := artifacts.job];
      queued := queued - {jobId};
      var added := evidence.AddArtifacts(artifacts.document, artifacts.chunks);
      return Some(artifacts.job);
    }
  }

  // ---- Hydration ----

  function DocumentIdOf(c: RagChunk): string { c.documentId }

  predicate PositionLe(a: RagChunk, b: RagChunk) { a.position <= b.position }

  /** The repository chunks that hydrating the documents `docs` loads. */
  ghost predicate Takes(repo: Tables, docs: seq<string>, id: string) {
    id in repo.chunks.vals && repo.chunks.vals[id].documentId in docs
    && repo.chunks.vals[id].documentId in repo.documents
  }

  /** `after` is `before` with the documents `docs` of `repo` and all their chunks loaded on top. */
  ghost predicate Loaded(before: Tables, after: Tables, repo: Tables, docs: seq<string>) {
    && after.chunks.Valid()
    && (forall d :: d in after.documents <==> d in before.documents || (d in docs && d in repo.documents))
    && (forall d :: d in after.documents ==>
          after.documents[d] == if d in docs && d in repo.documents then repo.documents[d] else before.documents[d])
    && (forall id :: id in after.chunks.vals <==> id in before.chunks.vals || Takes(repo, docs, id))
    && (forall id :: id in after.chunks.vals ==>
          after.chunks.vals[id] == if Takes(repo, docs, id) then repo.chunks.vals[id] else before.chunks.vals[id])
  }

  ghost predicate OneChunkPerId(chunks: seq<RagChunk>) {
    forall a, b :: a in chunks && b in chunks && a.chunkId == b.chunkId ==> a == b
  }

  lemma {:induction false} PutChunksHas(d: Dict<string, RagChunk>, chunks: seq<RagChunk>, c: RagChunk)
    requires OneChunkPerId(chunks) && c in chunks
    ensures c.chunkId in PutChunks(d, chunks).vals && PutChunks(d, chunks).vals[c.chunkId] == c
    decreases |chunks|
  {
    var n := |chunks| - 1;
    assert chunks == chunks[..n] + [chunks[n]] && chunks[n] in chunks;
    if c.chunkId != chunks[n].chunkId {
      PutChunksHas(d, chunks[..n], c);
    }
  }

  lemma {:induction false} PutChunksFrom(d: Dict<string, RagChunk>, chunks: seq<RagChunk>, id: string)
    requires id in PutChunks(d, chunks).vals
    ensures (exists c :: c in chunks && c.chunkId == id)
            || (id in d.vals && PutChunks(d, chunks).vals[id] == d.vals[id])
    decreases |chunks|
  {
    if chunks != [] {
      var n := |chunks| - 1;
      assert chunks == chunks[..n] + [chunks[n]] && chunks[n] in chunks;
      if id != chunks[n].chunkId {
        PutChunksFrom(d, chunks[..n], id);
      }
    }
  }

  lemma {:induction false} PutChunksKeeps(d: Dict<string, RagChunk>, chunks: seq<RagChunk>)
    requires d.Valid()
    ensures PutChunks(d, chunks).Valid() && forall id :: id in d.vals ==> id in PutChunks(d, chunks).vals
    decreases |chunks|
  {
    if chunks != [] {
      var n := |chunks| - 1;
      PutChunksKeeps(d, chunks[..n]);
      PutValid(PutChunks(d, chunks[..n]), chunks[n].chunkId, chunks[n]);
    }
  }

  lemma PutChunksAt(d: Dict<string, RagChunk>, chunks: seq<RagChunk>)
    requires d.Valid() && OneChunkPerId(chunks)
    ensures PutChunks(d, chunks).Valid()
    ensures forall c :: c in chunks ==>
              c.chunkId in PutChunks(d, chunks).vals && PutChunks(d, chunks).vals[c.chunkId] == c
    ensures forall id :: id in PutChunks(d, chunks).vals ==>
              (exists c :: c in chunks && c.chunkId == id)
              || (id in d.vals && PutChunks(d, chunks).vals[id] == d.vals[id])
    ensures forall id :: id in d.vals ==> id in PutChunks(d, chunks).vals
  {
    PutChunksKeeps(d, chunks);
    forall c | c in chunks ensures c.chunkId in PutChunks(d, chunks).vals && PutChunks(d, chunks).vals[c.chunkId] == c {
      PutChunksHas(d, chunks, c);
    }
    forall id | id in PutChunks(d, chunks).vals
      ensures (exists c :: c in chunks && c.chunkId == id)
              || (id in d.vals && PutChunks(d, chunks).vals[id] == d.vals[id])
    {
      PutChunksFrom(d, chunks, id);
    }
  }

  lemma LoadDocument(before: Tables, after: Tables, repo: Tables, docs: seq<string>, d: string, group: seq<RagChunk>)
    requires WellKeyed(repo) && Loaded(before, after, repo, docs) && d !in docs
    requires forall c :: c in group <==>
               c.chunkId in repo.chunks.vals && repo.chunks.vals[c.chunkId] == c && c.documentId == d
    ensures d in repo.documents && repo.documents[d].documentId == d ==>
              Loaded(before, AddTo(after, repo.documents[d], group), repo, docs + [d])
    ensures d !in repo.documents ==> Loaded(before, after, repo, docs + [d])
  {
    forall id ensures Takes(repo, docs + [d], id) <==>
                        Takes(repo, docs, id)
                        || (id in repo.chunks.vals && repo.chunks.vals[id].documentId == d && d in repo.documents)
    {
    }
    if d in repo.documents {
      PutChunksAt(after.chunks, group);
      forall id | id in repo.chunks.vals && repo.chunks.vals[id].documentId == d ensures repo.chunks.vals[id] in group {
      }
    }
  }

  lemma ListedChunks(repo: Tables, c: RagChunk)
    requires WellKeyed(repo)
    ensures c in SortedChunks(repo.chunks) <==> c.chunkId in repo.chunks.vals && repo.chunks.vals[c.chunkId] == c
  {
    SortMembers(ChunkLe, repo.chunks.Values());
    ValueMembers(repo.chunks);
  }

  lemma GroupMembers(repo: Tables, d: string)
    requires WellKeyed(repo)
    ensures forall c :: c in SortBy(PositionLe, Filter(KeyIs(DocumentIdOf, d), SortedChunks(repo.chunks))) <==>
              c.chunkId in repo.chunks.vals && repo.chunks.vals[c.chunkId] == c && c.documentId == d
  {
    var sorted := SortedChunks(repo.chunks);
    SortMembers(PositionLe, Filter(KeyIs(DocumentIdOf, d), sorted));
    FilterMembers(KeyIs(DocumentIdOf, d), sorted);
    forall c: RagChunk
      ensures c in SortBy(PositionLe, Filter(KeyIs(DocumentIdOf, d), sorted)) <==>
                c.chunkId in repo.chunks.vals && repo.chunks.vals[c.chunkId] == c && c.documentId == d
    {
      ListedChunks(repo, c);
      assert KeyIs(DocumentIdOf, d)(c) <==> c.documentId == d;
    }
  }

  ghost predicate SelfKeyed(repo: Tables) {
    forall d :: d in repo.documents ==> repo.documents[d].documentId == d
  }

  /** One turn of the hydration loop: load the group of `docs[i]`, or skip it when no document row is there. */
  method HydrateOne(repository: InMemoryRagRepository, target: InMemoryRagEvidenceStore, docs: seq<string>, i: nat,
                    group: seq<RagChunk>, ghost before: Tables)
    returns (known: bool)
    requires WellKeyed(repository.Contents()) && SelfKeyed(repository.Contents()) && i < |docs| && Distinct(docs)
    requires Loaded(before, target.Contents(), repository.Contents(), docs[..i])
    requires group == SortBy(PositionLe, Filter(KeyIs(DocumentIdOf, docs[i]), SortedChunks(repository.chunks)))
    modifies target
    ensures known <==> docs[i] in repository.documents
    ensures Loaded(before, target.Contents(), repository.Contents(), docs[..i + 1])
  {
    var d := docs[i];
    assert docs[..i + 1] == docs[..i] + [d] && d !in docs[..i];
    GroupMembers(repository.Contents(), d);
    LoadDocument(before, target.Contents(), repository.Contents(), docs[..i], d, group);
    if d !in repository.documents {
      return false;
    }
    var ok := target.AddArtifacts(repository.documents[d], group);
    return true;
  }

  ghost predicate AllKnown(repo: Tables) {
    forall id :: id in repo.chunks.vals ==> repo.chunks.vals[id].documentId in repo.documents
  }

  lemma GroupsAreKnown(repo: Tables, docs: seq<string>)
    requires WellKeyed(repo) && docs == KeyOrder(DocumentIdOf, SortedChunks(repo.chunks))
    ensures Distinct(docs)
    ensures forall id :: id in repo.chunks.vals ==> repo.chunks.vals[id].documentId in docs
    ensures AllKnown(repo) ==> forall d :: d in docs ==> d in repo.documents
    ensures TotalSize(DocumentIdOf, docs, SortedChunks(repo.chunks)) == |repo.chunks.keys|
  {
    var sorted := SortedChunks(repo.chunks);
    KeyOrderComplete(DocumentIdOf, sorted);
    SortMembers(ChunkLe, repo.chunks.Values());
    ValueMembers(repo.chunks);
    SortPermutes(ChunkLe, repo.chunks.Values());
    GroupSizes(DocumentIdOf, docs, sorted);
    forall id | id in repo.chunks.vals ensures repo.chunks.vals[id].documentId in docs {
      assert repo.chunks.vals[id] in sorted;
    }
    forall d | AllKnown(repo) && d in docs ensures d in repo.documents {
      var c :| c in sorted && c.documentId == d;
      assert c in repo.chunks.Values();
      var id :| id in repo.chunks.vals && repo.chunks.vals[id] == c;
    }
  }

  function GroupFor(repo: Tables, d: string): seq<RagChunk>
    requires repo.chunks.Valid()
  {
    Filter(KeyIs(DocumentIdOf, d), SortedChunks(repo.chunks))
  }

  function SizeOfGroups(repo: Tables, docs: seq<string>): nat
    requires repo.chunks.Valid()
  {
    TotalSize(DocumentIdOf, docs, SortedChunks(repo.chunks))
  }

  lemma CountOne(repo: Tables, docs: seq<string>, i: nat)
    requires repo.chunks.Valid() && i < |docs|
    ensures SizeOfGroups(repo, docs[i..]) == |GroupFor(repo, docs[i])| + SizeOfGroups(repo, docs[i + 1..])
    ensures |SortBy(PositionLe, GroupFor(repo, docs[i]))| == |GroupFor(repo, docs[i])|
  {
    assert docs[i..][0] == docs[i] && docs[i..][1..] == docs[i + 1..];
    SortPermutes(PositionLe, GroupFor(repo, docs[i]));
  }

  method LoadGroups(repository: InMemoryRagRepository, target: InMemoryRagEvidenceStore,
                    docs: seq<string>, groups: map<string, seq<RagChunk>>)
    returns (loaded: nat, skipped: nat)
    requires WellKeyed(repository.Contents()) && SelfKeyed(repository.Contents()) && target.chunks.Valid()
    requires Distinct(docs) && forall d :: d in docs ==> d in groups && groups[d] == GroupFor(repository.Contents(), d)
    modifies target
    ensures Loaded(old(target.Contents()), target.Contents(), repository.Contents(), docs)
    ensures loaded + skipped == SizeOfGroups(repository.Contents(), docs)
    ensures (forall d :: d in docs ==> d in repository.documents) ==> skipped == 0
  {
    ghost var repo, before := repository.Contents(), target.Contents();
    loaded, skipped := 0, 0;
    for i := 0 to |docs|
      invariant repository.Contents() == repo
      invariant Loaded(before, target.Contents(), repo, docs[..i])
      invariant loaded + skipped + SizeOfGroups(repo, docs[i..]) == SizeOfGroups(repo, docs)
      invariant (forall d :: d in docs ==> d in repo.documents) ==> skipped == 0
    {
      assert docs[i] in docs;
      CountOne(repo, docs, i);
      var group := SortBy(PositionLe, groups[docs[i]]);
      var known := HydrateOne(repository, target, docs, i, group, before);
      if known {
        loaded := loaded + |group|;
      } else {
        skipped := skipped + |group|;
      }
    }
    assert docs[..|docs|] == docs;
  }

  /** Group the chunk table by document and load each known document; count what was skipped. */
  method HydrateEvidenceStore(repository: InMemoryRagRepository, target: InMemoryRagEvidenceStore)
    returns (loaded: nat, skipped: nat, ghost docs: seq<string>)
    requires WellKeyed(repository.Contents()) && SelfKeyed(repository.Contents()) && target.chunks.Valid()
    modifies target
    ensures Loaded(old(target.Contents()), target.Contents(), repository.Contents(), docs)
    ensures forall id :: id in repository.chunks.vals ==> repository.chunks.vals[id].documentId in docs
    ensures loaded + skipped == |repository.chunks.keys|
    ensures AllKnown(repository.Contents()) ==> skipped == 0
  {
    var order, groups := GroupBy(DocumentIdOf, SortedChunks(repository.chunks));
    GroupsAreKnown(repository.Contents(), order);
    docs := order;
    loaded, skipped := LoadGroups(repository, target, order, groups);
  }

  // ---- A hydrated store answers like the live one ----

  lemma {:induction false} SameView(a: map<string, RagDocument>, b: map<string, RagDocument>, chunks: seq<RagChunk>)
    requires forall c :: c in chunks ==> c.documentId in a && c.documentId in b
    ensures WithDocuments(a, chunks) == WithDocuments(b, chunks) <==>
              forall c :: c in chunks ==> a[c.documentId] == b[c.documentId]
  {
    if chunks == [] {
    } else {
      assert chunks == [chunks[0]] + chunks[1..];
      assert chunks[0] in chunks && forall c :: c in chunks[1..] ==> c in chunks;
      SameView(a, b, chunks[1..]);
      var x, y := StoredChunk(a[chunks[0].documentId], chunks[0]), StoredChunk(b[chunks[0].documentId], chunks[0]);
      assert WithDocuments(a, chunks) == [x] + WithDocuments(a, chunks[1..]);
      assert WithDocuments(b, chunks) == [y] + WithDocuments(b, chunks[1..]);
      assert ([x] + WithDocuments(a, chunks[1..]))[1..] == WithDocuments(a, chunks[1..]);
      assert ([y] + WithDocuments(b, chunks[1..]))[1..] == WithDocuments(b, chunks[1..]);
      if forall c :: c in chunks[1..] ==> a[c.documentId] == b[c.documentId] {
        if x == y {
          assert forall c :: c in chunks ==> c == chunks[0] || c in chunks[1..];
        }
      }
    }
  }

  lemma HydratedChunks(repo: Tables, jobs: map<string, IndexJob>, live: Tables,
                       queued: map<string, IndexDocumentRequest>,
                       hydrated: Tables, docs: seq<string>)
    requires InStep(repo, jobs, live, queued) && Loaded(EmptyTables(), hydrated, repo, docs)
    requires forall id :: id in repo.chunks.vals ==> repo.chunks.vals[id].documentId in docs
    ensures hydrated.chunks.Valid() && live.chunks.Valid()
    ensures SortedChunks(hydrated.chunks) == SortedChunks(live.chunks)
    ensures forall c :: c in SortedChunks(live.chunks) ==>
              c.documentId in live.documents && c.documentId in hydrated.documents
              && hydrated.documents[c.documentId] == repo.documents[c.documentId]
              && c.chunkId in repo.chunks.vals && repo.chunks.vals[c.chunkId] == c
    ensures forall id :: id in repo.chunks.vals ==> repo.chunks.vals[id] in SortedChunks(live.chunks)
  {
    assert hydrated.chunks.vals == live.chunks.vals;
    SortedChunksByContents(hydrated.chunks, live.chunks);
    SortMembers(ChunkLe, live.chunks.Values());
    ValueMembers(live.chunks);
  }

  /** A freshly hydrated store shows a search exactly what the live store shows it if and only if the two
      document rows of every chunked document agree. */
  lemma HydrationIsExact(repo: Tables, jobs: map<string, IndexJob>, live: Tables,
                         queued: map<string, IndexDocumentRequest>,
                         hydrated: Tables, docs: seq<string>)
    requires InStep(repo, jobs, live, queued) && Loaded(EmptyTables(), hydrated, repo, docs)
    requires forall id :: id in repo.chunks.vals ==> repo.chunks.vals[id].documentId in docs
    ensures hydrated.chunks.Valid() && live.chunks.Valid()
    ensures StoredChunks(hydrated) == StoredChunks(live) <==>
              forall id :: id in repo.chunks.vals ==> SameDocument(repo, live, repo.chunks.vals[id].documentId)
  {
    HydratedChunks(repo, jobs, live, queued, hydrated, docs);
    var chunks := SortedChunks(live.chunks);
    SameView(hydrated.documents, live.documents, chunks);
    if forall c :: c in chunks ==> hydrated.documents[c.documentId] == live.documents[c.documentId] {
      forall id | id in repo.chunks.vals ensures SameDocument(repo, live, repo.chunks.vals[id].documentId) {
        assert repo.chunks.vals[id] in chunks;
      }
    }
    if forall id :: id in repo.chunks.vals ==> SameDocument(repo, live, repo.chunks.vals[id].documentId) {
      forall c | c in chunks ensures hydrated.documents[c.documentId] == live.documents[c.documentId] {
        assert SameDocument(repo, live, repo.chunks.vals[c.chunkId].documentId);
      }
    }
  }

  /** After any run of the service: when no chunked document has a queued job outstanding, a freshly hydrated
      store answers every search with the very list the live store returns. */
  lemma HydratedStoreAnswersAlike(repo: Tables, jobs: map<string, IndexJob>, live: Tables,
                                  queued: map<string, IndexDocumentRequest>,
                                  hydrated: Tables, docs: seq<string>, r: SearchRequest, tokens: string -> set<string>)
    requires InStep(repo, jobs, live, queued) && Loaded(EmptyTables(), hydrated, repo, docs)
    requires forall id :: id in repo.chunks.vals ==> repo.chunks.vals[id].documentId in docs
    requires forall id :: id in repo.chunks.vals ==> !Outstanding(queued, repo.chunks.vals[id].documentId)
    ensures AllKnown(repo) && hydrated.chunks.Valid() && live.chunks.Valid()
    ensures SearchIn(StoredChunks(hydrated), r, tokens) == SearchIn(StoredChunks(live), r, tokens)
  {
    HydrationIsExact(repo, jobs, live, queued, hydrated, docs);
    forall id | id in repo.chunks.vals ensures SameDocument(repo, live, repo.chunks.vals[id].documentId) {
      assert repo.chunks.vals[id].documentId in repo.documents;
    }
  }

  // ---- What a search can see of a store ----

  lemma {:induction false} WithDocumentsMembers(documents: map<string, RagDocument>, chunks: seq<RagChunk>)
    ensures forall s :: s in WithDocuments(documents, chunks) <==>
              s.chunk in chunks && s.chunk.documentId in documents && s.document == documents[s.chunk.documentId]
  {
    if chunks == [] {
    } else {
      WithDocumentsMembers(documents, chunks[1..]);
      assert chunks == [chunks[0]] + chunks[1..];
    }
  }

  /** What a search can see of a store: its chunks with their document rows. */
  lemma StoredMembers(t: Tables)
    requires WellKeyed(t)
    ensures forall s :: s in StoredChunks(t) ==>
              s.chunk.documentId in t.documents && s.document == t.documents[s.chunk.documentId]
    ensures forall id :: id in t.chunks.vals && t.chunks.vals[id].documentId in t.documents ==>
              StoredChunk(t.documents[t.chunks.vals[id].documentId], t.chunks.vals[id]) in StoredChunks(t)
  {
    WithDocumentsMembers(t.documents, SortedChunks(t.chunks));
    SortMembers(ChunkLe, t.chunks.Values());
    ValueMembers(t.chunks);
  }

  // ---- What an index request decides about later searches ----

  /** The document of an index request has its id, source, title, type and date, and passes a search's filters exactly
      when the search's time window holds its date, every business tag of the search is one of the index request, and
      every permission tag of the index request is one of the search, all stripped and lower-cased, blank ones
      aside. */
  lemma IndexedDocumentPasses(r: IndexDocumentRequest, s: SearchRequest)
    ensures var d := DocumentOf(r);
            && d.documentId == r.documentId && d.source == r.source && d.title == r.title
            && d.documentType == r.documentType && d.publishedAt == r.publishedAt
    ensures MatchesFilters(DocumentOf(r), s) <==>
              && (s.timeWindow.Some? && s.timeWindow.value.startAt.Some? ==>
                    s.timeWindow.value.startAt.value <= r.publishedAt)
              && (s.timeWindow.Some? && s.timeWindow.value.endAt.Some? ==>
                    r.publishedAt <= s.timeWindow.value.endAt.value)
              && (forall u :: u in s.businessTags && !IsBlank(u) ==>
                    exists t :: t in r.businessTags && Lower(Strip(t)) == Lower(Strip(u)))
              && (forall t :: t in r.permissionTags && !IsBlank(t) ==>
                    exists u :: u in s.permissionTags && Lower(Strip(u)) == Lower(Strip(t)))
  {
    var d := DocumentOf(r);
    FilterMeans(RawDocument(r), s);
    NormalizeTwice(r.businessTags);
    NormalizeTwice(r.permissionTags);
    SameTags(r.businessTags);
    SameTags(r.permissionTags);
  }

  /** The document of the request with its tags as they came. */
  ghost function RawDocument(r: IndexDocumentRequest): RagDocument {
    RagDocument(r.documentId, r.source, r.title, r.documentType, r.publishedAt, NormalizedOf(r.businessTags),
                NormalizedOf(r.permissionTags))
  }

  /** The store after a document was indexed into it, by a worker or at once. */
  ghost predicate IndexedInto(before: Tables, after: Tables, r: IndexDocumentRequest, settings: ChunkSettings) {
    && WellKeyed(before) && (forall d :: d in before.documents ==> before.documents[d].documentId == d)
    && after == AddTo(before, DocumentOf(r), DocumentChunks(r.documentId, r.text, settings))
  }

  /** Whatever else the store holds, a search returns a chunk of the indexed document only when it has all of the
      document's permission tags, the document has all of its business tags, and its time window holds. */
  lemma FoundOnlyIfPermitted(before: Tables, after: Tables, r: IndexDocumentRequest, settings: ChunkSettings,
                             s: SearchRequest, tokens: string -> set<string>, e: EvidenceItem)
    requires IndexedInto(before, after, r, settings) && after.chunks.Valid()
    requires e in SearchIn(StoredChunks(after), s, tokens) && e.documentId == r.documentId
    ensures forall t :: t in r.permissionTags && !IsBlank(t) ==>
              exists u :: u in s.permissionTags && Lower(Strip(u)) == Lower(Strip(t))
    ensures forall u :: u in s.businessTags && !IsBlank(u) ==>
              exists t :: t in r.businessTags && Lower(Strip(t)) == Lower(Strip(u))
    ensures s.timeWindow.Some? && s.timeWindow.value.startAt.Some? ==>
              s.timeWindow.value.startAt.value <= r.publishedAt
    ensures s.timeWindow.Some? && s.timeWindow.value.endAt.Some? ==> r.publishedAt <= s.timeWindow.value.endAt.value
  {
    IndexedChunksGood(r.documentId, r.text, settings);
    PutChunksEffect(before, r.documentId, DocumentChunks(r.documentId, r.text, settings));
    SearchReturnsPermitted(StoredChunks(after), s, tokens);
    var c :| c in StoredChunks(after) && MatchesFilters(c.document, s) && c.document.documentId == e.documentId;
    StoredMembers(after);
    assert c.document == DocumentOf(r);
    IndexedDocumentPasses(r, s);
  }

  /** And it does return the chunk, or a full list of items no less relevant, when these conditions hold and the chunk
      shares a token with the query. */
  lemma FoundIfPermitted(before: Tables, after: Tables, r: IndexDocumentRequest, settings: ChunkSettings,
                         s: SearchRequest, tokens: string -> set<string>, i: nat)
    requires IndexedInto(before, after, r, settings) && after.chunks.Valid()
    requires i < |DocumentChunks(r.documentId, r.text, settings)|
    requires exists t :: t in tokens(s.queryText)
                         && t in tokens(DocumentChunks(r.documentId, r.text, settings)[i].text)
    requires forall t :: t in r.permissionTags && !IsBlank(t) ==>
               exists u :: u in s.permissionTags && Lower(Strip(u)) == Lower(Strip(t))
    requires forall u :: u in s.businessTags && !IsBlank(u) ==>
               exists t :: t in r.businessTags && Lower(Strip(t)) == Lower(Strip(u))
    requires s.timeWindow.Some? && s.timeWindow.value.startAt.Some? ==>
               s.timeWindow.value.startAt.value <= r.publishedAt
    requires s.timeWindow.Some? && s.timeWindow.value.endAt.Some? ==>
               r.publishedAt <= s.timeWindow.value.endAt.value
    ensures var found := SearchIn(StoredChunks(after), s, tokens);
            || |found| == s.limit
            || exists e :: e in found && e.documentId == r.documentId && e.chunkId == ChunkId(r.documentId, i + 1)
  {
    var chunks := DocumentChunks(r.documentId, r.text, settings);
    var c := chunks[i];
    IndexedDocumentPasses(r, s);
    IndexedChunksGood(r.documentId, r.text, settings);
    ChunksPassTheirChecks(r.documentId, r.text, settings, i);
    PutChunksEffect(before, r.documentId, chunks);
    IndexedChunkPut(before.chunks, r, settings, i);
    StoredMembers(after);
    ScoredExactly(StoredChunks(after), s, tokens);
    RelevanceIsShare(tokens(s.queryText), tokens(c.text));
    var hit := (StoredChunk(DocumentOf(r), c), Relevance(tokens(s.queryText), tokens(c.text)).value);
    assert Hit(s, tokens, hit) && hit in Scored(StoredChunks(after), s, tokens);
    EvidenceIsTopRanked(StoredChunks(after), s, tokens);
  }

  /** Chunk `i` of an indexed document sits under its own id. */
  lemma IndexedChunkPut(d: Dict<string, RagChunk>, r: IndexDocumentRequest, settings: ChunkSettings, i: nat)
    requires i < |DocumentChunks(r.documentId, r.text, settings)|
    ensures var chunks := DocumentChunks(r.documentId, r.text, settings);
            chunks[i].chunkId in PutChunks(d, chunks).vals && PutChunks(d, chunks).vals[chunks[i].chunkId] == chunks[i]
  {
    var chunks := DocumentChunks(r.documentId, r.text, settings);
    forall k | 0 <= k < |chunks|
      ensures chunks[k].position == k + 1 && chunks[k].chunkId == ChunkId(r.documentId, k + 1)
    {
      ChunksPassTheirChecks(r.documentId, r.text, settings, k);
    }
    forall a, b | a in chunks && b in chunks && a.chunkId == b.chunkId ensures a == b {
      var j :| 0 <= j < |chunks| && chunks[j] == a;
      var k :| 0 <= k < |chunks| && chunks[k] == b;
      ChunkIdInjective(r.documentId, j + 1, r.documentId, k + 1);
    }
    PutChunksHas(d, chunks, chunks[i]);
  }

  // ---- A queued re-index is seen by a hydrated store before the live store sees it ----

  /** A chunk that matches the request makes its search return something. */
  lemma MatchIsFound(t: Tables, r: SearchRequest, tokens: string -> set<string>, id: string)
    requires WellKeyed(t) && r.limit >= 1
    requires id in t.chunks.vals && t.chunks.vals[id].documentId in t.documents
    requires MatchesFilters(t.documents[t.chunks.vals[id].documentId], r)
    requires Relevance(tokens(r.queryText), tokens(t.chunks.vals[id].text)).Some?
    ensures SearchIn(StoredChunks(t), r, tokens) != []
  {
    StoredMembers(t);
    ScoredExactly(StoredChunks(t), r, tokens);
    var c := t.chunks.vals[id];
    var hit := (StoredChunk(t.documents[c.documentId], c), Relevance(tokens(r.queryText), tokens(c.text)).value);
    assert Hit(r, tokens, hit) && hit in Scored(StoredChunks(t), r, tokens);
    EvidenceIsTopRanked(StoredChunks(t), r, tokens);
  }

  lemma HeadMember<T>(s: seq<T>)
    ensures s != [] ==> s[0] in s
  {
  }

  /** A store none of whose documents passes the filters answers with nothing. */
  lemma NothingPasses(t: Tables, r: SearchRequest, tokens: string -> set<string>)
    requires t.chunks.Valid() && forall d :: d in t.documents ==> !MatchesFilters(t.documents[d], r)
    ensures SearchIn(StoredChunks(t), r, tokens) == []
  {
    HeadMember(Scored(StoredChunks(t), r, tokens));
    WithDocumentsMembers(t.documents, SortedChunks(t.chunks));
    ScoredExactly(StoredChunks(t), r, tokens);
    EvidenceIsTopRanked(StoredChunks(t), r, tokens);
  }

  lemma FirstIndexed(first: IndexDocumentRequest, settings: ChunkSettings, i: nat)
    requires i < |DocumentChunks(first.documentId, first.text, settings)|
    ensures var chunks := DocumentChunks(first.documentId, first.text, settings);
            var live := AddTo(EmptyTables(), DocumentOf(first), chunks);
            && WellKeyed(live) && live.documents == map[first.documentId := DocumentOf(first)]
            && chunks[i].documentId == first.documentId
            && chunks[i].chunkId in live.chunks.vals && live.chunks.vals[chunks[i].chunkId] == chunks[i]
  {
    var id, chunks := first.documentId, DocumentChunks(first.documentId, first.text, settings);
    IndexedChunksGood(id, first.text, settings);
    PutChunksEffect(EmptyTables(), id, chunks);
    ChunksPassTheirChecks(id, first.text, settings, i);
    IndexedChunkPut(Empty(), first, settings, i);
  }

  lemma LiveFinds(first: IndexDocumentRequest, settings: ChunkSettings, i: nat, r: SearchRequest,
                  tokens: string -> set<string>)
    requires MatchesFilters(DocumentOf(first), r) && r.limit >= 1
    requires i < |DocumentChunks(first.documentId, first.text, settings)|
    requires Relevance(tokens(r.queryText),
                       tokens(DocumentChunks(first.documentId, first.text, settings)[i].text)).Some?
    ensures var live := AddTo(EmptyTables(), DocumentOf(first), DocumentChunks(first.documentId, first.text, settings));
            WellKeyed(live) && SearchIn(StoredChunks(live), r, tokens) != []
  {
    var chunks := DocumentChunks(first.documentId, first.text, settings);
    FirstIndexed(first, settings, i);
    MatchIsFound(AddTo(EmptyTables(), DocumentOf(first), chunks), r, tokens, chunks[i].chunkId);
  }

  lemma HydratedFindsNothing(repo: Tables, hydrated: Tables, docs: seq<string>, d: RagDocument, r: SearchRequest,
                             tokens: string -> set<string>)
    requires Loaded(EmptyTables(), hydrated, repo, docs) && repo.documents == map[d.documentId := d]
             && !MatchesFilters(d, r)
    ensures hydrated.chunks.Valid() && SearchIn(StoredChunks(hydrated), r, tokens) == []
  {
    NothingPasses(hydrated, r, tokens);
  }

  lemma InStepIsKeyed(repo: Tables, jobs: map<string, IndexJob>, live: Tables,
                      queued: map<string, IndexDocumentRequest>)
    requires InStep(repo, jobs, live, queued)
    ensures WellKeyed(repo) && SelfKeyed(repo) && live.chunks.Valid()
  {
  }

  /** A service that indexed a short document and then queued a long text under the same id. */
  method ReindexedService(first: IndexDocumentRequest, second: IndexDocumentRequest, settings: ChunkSettings,
                          firstJob: string, secondJob: string) returns (service: InMemoryRagService)
    requires first.documentId == second.documentId && |first.text| <= ASYNC_THRESHOLD < |second.text|
    requires secondJob != "rag_job_" + first.documentId
    ensures WellKeyed(service.repository.Contents()) && SelfKeyed(service.repository.Contents())
    ensures service.evidence.Contents()
         == AddTo(EmptyTables(), DocumentOf(first), DocumentChunks(first.documentId, first.text, settings))
    ensures service.repository.Contents().documents == map[first.documentId := DocumentOf(second)]
    ensures fresh(service.repository)
  {
    service := new InMemoryRagService();
    var firstOutcome := service.IndexDocument(first, settings, firstJob);
    var secondOutcome := service.IndexDocument(second, settings, secondJob);
    InStepIsKeyed(service.repository.Contents(), service.repository.jobs, service.evidence.Contents(), service.queued);
  }

  /** Index a short document, then re-index it with a long text and another document row, for instance with
      permissions withdrawn. Until a worker runs the queued job, a request that may see the old row and not the new
      one finds the old chunks in the live store and nothing in a freshly hydrated one. */
  method ReindexIsHydratedEarly(first: IndexDocumentRequest, second: IndexDocumentRequest, settings: ChunkSettings,
                                firstJob: string, secondJob: string, i: nat, r: SearchRequest,
                                tokens: string -> set<string>)
    returns (live: seq<EvidenceItem>, hydrated: seq<EvidenceItem>)
    requires first.documentId == second.documentId && |first.text| <= ASYNC_THRESHOLD < |second.text|
    requires secondJob != "rag_job_" + first.documentId
    requires MatchesFilters(DocumentOf(first), r) && !MatchesFilters(DocumentOf(second), r) && r.limit >= 1
    requires i < |DocumentChunks(first.documentId, first.text, settings)|
    requires Relevance(tokens(r.queryText),
                       tokens(DocumentChunks(first.documentId, first.text, settings)[i].text)).Some?
    ensures live != [] && hydrated == []
  {
    var service := ReindexedService(first, second, settings, firstJob, secondJob);
    LiveFinds(first, settings, i, r, tokens);
    live := service.evidence.Search(r, tokens);
    var target := new InMemoryRagEvidenceStore();
    var loaded, skipped, docs := HydrateEvidenceStore(service.repository, target);
    HydratedFindsNothing(service.repository.Contents(), target.Contents(), docs, DocumentOf(second), r, tokens);
    hydrated := target.Search(r, tokens);
  }
}
