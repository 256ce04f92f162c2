/** The values knowledge.py passes around. */
module Knowledge {
  import opened Text

  datatype KnowledgeDocument = KnowledgeDocument(
    sourceId: string,
    title: string,
    docType: string,
    publishTime: int,
    tags: seq<string>,
    allowedRoles: seq<string>,
    owner: Option<string>)

  datatype DocumentChunk = DocumentChunk(chunkId: string, sourceId: string, chunkIndex: int, text: string)

  datatype ChunkEmbedding = ChunkEmbedding(embeddingId: string, chunkId: string, vector: seq<real>)

  /** A chunk together with its document, its embedding if it has one, and its relevance. */
  datatype Record = Record(document: KnowledgeDocument, chunk: DocumentChunk, embedding: Option<ChunkEmbedding>,
                           score: real)

  /** `_merge_records`: the left chunk's identity, both texts, the larger score. */
  function MergeRecords(left: Record, right: Record): Record {
    Record(left.document,
           left.chunk.(text := left.chunk.text + " " + right.chunk.text),
           left.embedding,
           if left.score >= right.score then left.score else right.score)
  }
}
