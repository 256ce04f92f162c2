/** rag.py and rag_indexing.py: contracts and deterministic indexing artifacts. */
module RagIndexing {
  import opened Text
  import opened ChunkIds
  import opened Tags
  import Chunking

  datatype IndexDocumentRequest = IndexDocumentRequest(
    documentId: string,
    source: string,
    title: string,
    documentType: string,
    publishedAt: int,
    businessTags: seq<string>,
    permissionTags: seq<string>,
    text: string)

  /** `normalize_tags` returns the sorted tags; a set carries the same information. */
  datatype RagDocument = RagDocument(
    documentId: string,
    source: string,
    title: string,
    documentType: string,
    publishedAt: int,
    businessTags: set<string>,
    permissionTags: set<string>)

  datatype RagChunk = RagChunk(chunkId: string, documentId: string, position: nat, text: string, tokenCount: nat)

  datatype JobStatus = Queued | Running | Succeeded | Failed

  datatype IndexJob = IndexJob(jobId: string, documentId: string, status: JobStatus)

  datatype IndexArtifacts = IndexArtifacts(document: RagDocument, chunks: seq<RagChunk>, job: IndexJob)

  datatype RawSettings = ChunkSettings(tokenLimit: int, overlap: int)

  /** `ChunkSettings.__post_init__` refuses everything else. */
  type ChunkSettings = s: RawSettings | 0 <= s.overlap < s.tokenLimit witness ChunkSettings(120, 20)

  const ASYNC_THRESHOLD := 50_000

  function DocumentOf(r: IndexDocumentRequest): RagDocument {
    RagDocument(r.documentId, r.source, r.title, r.documentType, r.publishedAt,
                NormalizeTags(r.businessTags), NormalizeTags(r.permissionTags))
  }

  function ChunkFor(documentId: string, window: seq<string>, position: nat): RagChunk {
    RagChunk(ChunkId(documentId, position), documentId, position, Join(window), |window|)
  }

  function ChunksFor(documentId: string, windows: seq<seq<string>>): seq<RagChunk> {
    seq(|windows|, i requires 0 <= i < |windows| => ChunkFor(documentId, windows[i], i + 1))
  }

  function DocumentChunks(documentId: string, text: string, settings: ChunkSettings): seq<RagChunk> {
    ChunksFor(documentId, Chunking.Chunks(Words(CleanDocumentText(text)), settings.tokenLimit, settings.overlap))
  }

  /** The while loop of `chunk_document_text`. */
  method ChunkDocumentText(documentId: string, text: string, settings: ChunkSettings) returns (chunks: seq<RagChunk>)
    ensures chunks == DocumentChunks(documentId, text, settings)
  {
    var words := Words(CleanDocumentText(text));
    ghost var windows := Chunking.Chunks(words, settings.tokenLimit, settings.overlap);
    ghost var step := settings.tokenLimit - settings.overlap;
    Chunking.ChunkClosedForm(words, settings.tokenLimit, settings.overlap, 0);
    chunks := [];
    if words == [] {
      return;
    }
    var start, position := 0, 1;
    while start < |words|
      invariant 0 <= start < |words| && position == |chunks| + 1
      invariant |chunks| < |windows| && start == |chunks| * step
      invariant chunks == ChunksFor(documentId, windows[..|chunks|])
      decreases |windows| - |chunks|
    {
      Chunking.ChunkClosedForm(words, settings.tokenLimit, settings.overlap, |chunks|);
      var end := if start + settings.tokenLimit < |words| then start + settings.tokenLimit else |words|;
      var chunkWords := words[start..end];
      assert chunkWords == windows[|chunks|];
      var chunk := RagChunk(ChunkId(documentId, position), documentId, position, Join(chunkWords), |chunkWords|);
      chunks := chunks + [chunk];
      assert chunks == ChunksFor(documentId, windows[..|chunks|]);
      if end == |words| {
        assert windows[..|chunks|] == windows;
        return;
      }
      Chunking.StepIndex(|chunks| - 1, step);
      start := end - settings.overlap;
      position := position + 1;
      Chunking.ChunkClosedForm(words, settings.tokenLimit, settings.overlap, |chunks|);
    }
  }

  /** Every chunk built this way passes the checks of `RagChunk.__post_init__`, so a worker never fails on one. */
  lemma ChunksPassTheirChecks(documentId: string, text: string, settings: ChunkSettings, i: nat)
    requires i < |DocumentChunks(documentId, text, settings)|
    ensures var c := DocumentChunks(documentId, text, settings)[i];
            && c.position == i + 1 && c.tokenCount >= 1 && c.tokenCount == |Words(c.text)|
            && c.chunkId == ChunkId(documentId, i + 1) && c.documentId == documentId
            && c.text != "" && !IsSpace(c.text[0])
            && i < |Chunking.Chunks(Words(text), settings.tokenLimit, settings.overlap)|
            && Words(c.text) == Chunking.Chunks(Words(text), settings.tokenLimit, settings.overlap)[i]
  {
    var words := Words(CleanDocumentText(text));
    CleaningKeepsWords(text);
    WordsAreWords(CleanDocumentText(text));
    Chunking.ChunkClosedForm(words, settings.tokenLimit, settings.overlap, i);
    var window := Chunking.Chunks(words, settings.tokenLimit, settings.overlap)[i];
    assert IsWord(window[0]);
    WordsOfJoin(window);
  }

  /** Long texts only get a queued job, under the fresh id the caller supplies. */
  function BuildIndexArtifacts(r: IndexDocumentRequest, settings: ChunkSettings, freshJobId: string): IndexArtifacts {
    if |r.text| > ASYNC_THRESHOLD
    then IndexArtifacts(DocumentOf(r), [], IndexJob(freshJobId, r.documentId, Queued))
    else WorkerArtifacts(r, "rag_job_" + r.documentId, settings)
  }

  function WorkerArtifacts(r: IndexDocumentRequest, jobId: string, settings: ChunkSettings): IndexArtifacts {
    IndexArtifacts(DocumentOf(r), DocumentChunks(r.documentId, r.text, settings),
                   IndexJob(jobId, r.documentId, Succeeded))
  }
}
