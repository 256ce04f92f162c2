/** knowledge.py `InMemoryKnowledgeStore`: three dictionaries updated in place. */
module KnowledgeStore {
  import opened Text
  import opened Ordering
  import opened Dicts
  import opened ChunkIds
  import opened Knowledge
  import opened Retrieval
  import Chunking
  import Dedupe

  datatype StoreError =
    | TextRequired(field: string)
    | UnknownDocument(sourceId: string)
    | UnknownChunk(chunkId: string)
    | VectorRequired
    | BadSettings(error: Chunking.ChunkError)

  predicate NoneBlank(texts: seq<string>) { forall t :: t in texts ==> !IsBlank(t) }

  predicate GoodDocument(d: KnowledgeDocument) {
    !IsBlank(d.sourceId) && !IsBlank(d.title) && !IsBlank(d.docType)
  }

  // ---- What each operation does to the state ----

  function WithDocument(st: StoreState, d: KnowledgeDocument): StoreState {
    st.(documents := st.documents[d.sourceId := d])
  }

  function WithChunk(st: StoreState, c: DocumentChunk): StoreState {
    st.(chunks := st.chunks.Put(c.chunkId, c))
  }

  function WithEmbedding(st: StoreState, e: ChunkEmbedding): StoreState {
    st.(embeddings := st.embeddings[e.chunkId := e])
  }

  function ChunksOf(st: StoreState, sourceId: string): set<string> {
    set id | id in st.chunks.vals && st.chunks.vals[id].sourceId == sourceId
  }

  function Without(st: StoreState, sourceId: string): StoreState {
    var ids := ChunksOf(st, sourceId);
    StoreState(st.documents - {sourceId}, st.chunks.PopAll(ids), st.embeddings - ids)
  }

  /** The `n`-th chunk of a document, counted from 1, and its embedding. */
  function IngestedChunk(d: KnowledgeDocument, texts: seq<string>, n: nat): DocumentChunk
    requires 1 <= n <= |texts|
  {
    DocumentChunk(ChunkId(d.sourceId, n), d.sourceId, n, texts[n - 1])
  }

  function IngestedEmbedding(d: KnowledgeDocument, texts: seq<string>, n: nat,
                             embed: string -> seq<real>): ChunkEmbedding
    requires 1 <= n <= |texts|
  {
    ChunkEmbedding(d.sourceId + "_embedding_" + ToDecimal(n), ChunkId(d.sourceId, n), embed(texts[n - 1]))
  }

  /** The state after the document and its first `n` chunks have been saved. */
  function Ingest(st: StoreState, d: KnowledgeDocument, texts: seq<string>, n: nat,
                  embed: string -> seq<real>): StoreState
    requires n <= |texts|
  {
    if n == 0 then WithDocument(st, d)
    else WithEmbedding(WithChunk(Ingest(st, d, texts, n - 1, embed), IngestedChunk(d, texts, n)),
                       IngestedEmbedding(d, texts, n, embed))
  }

  /** Every state `ingest_document` can leave once the document row is saved: `n` chunks with their embeddings, and,
      when the embedding of the next chunk was refused, that chunk without one. */
  function IngestState(st: StoreState, d: KnowledgeDocument, texts: seq<string>, n: nat, refused: bool,
                       embed: string -> seq<real>): StoreState
    requires n <= |texts| && (refused ==> n < |texts|)
  {
    var saved := Ingest(st, d, texts, n, embed);
    if refused then WithChunk(saved, IngestedChunk(d, texts, n + 1)) else saved
  }

  function IngestedRecords(d: KnowledgeDocument, texts: seq<string>, n: nat, embed: string -> seq<real>): seq<Record>
    requires n <= |texts|
  {
    if n == 0 then [] else IngestedRecords(d, texts, n - 1, embed) + [IngestedRecord(d, texts, n, embed)]
  }

  function IngestedRecord(d: KnowledgeDocument, texts: seq<string>, n: nat, embed: string -> seq<real>): Record
    requires 1 <= n <= |texts|
  {
    Record(d, IngestedChunk(d, texts, n), Some(IngestedEmbedding(d, texts, n, embed)), 0.0)
  }

  // ---- What every operation keeps ----

  lemma SavingKeepsConsistent(st: StoreState, d: KnowledgeDocument, c: DocumentChunk, e: ChunkEmbedding)
    requires Consistent(st)
    ensures Consistent(WithDocument(st, d))
    ensures c.sourceId in st.documents ==> Consistent(WithChunk(st, c))
    ensures e.chunkId in st.chunks.vals ==> Consistent(WithEmbedding(st, e))
  {
    PutValid(st.chunks, c.chunkId, c);
  }

  lemma RemovingKeepsConsistent(st: StoreState, sourceId: string)
    requires Consistent(st)
    ensures Consistent(Without(st, sourceId))
  {
    PopAllValid(st.chunks, ChunksOf(st, sourceId));
  }

  lemma {:induction false} IngestKeepsConsistent(st: StoreState, d: KnowledgeDocument, texts: seq<string>, n: nat,
                                                 embed: string -> seq<real>)
    requires Consistent(st) && n <= |texts|
    ensures Consistent(Ingest(st, d, texts, n, embed))
    ensures Ingest(st, d, texts, n, embed).documents == st.documents[d.sourceId := d]
  {
    if n == 0 {
      SavingKeepsConsistent(st, d, DocumentChunk("", "", 0, ""), ChunkEmbedding("", "", []));
    } else {
      IngestKeepsConsistent(st, d, texts, n - 1, embed);
      var before := Ingest(st, d, texts, n - 1, embed);
      var c, e := IngestedChunk(d, texts, n), IngestedEmbedding(d, texts, n, embed);
      SavingKeepsConsistent(before, d, c, e);
      SavingKeepsConsistent(WithChunk(before, c), d, c, e);
    }
  }

  lemma IngestStaysConsistent(st: StoreState, d: KnowledgeDocument, texts: seq<string>, n: nat, refused: bool,
                              embed: string -> seq<real>)
    requires Consistent(st) && n <= |texts| && (refused ==> n < |texts|)
    ensures Consistent(IngestState(st, d, texts, n, refused, embed))
  {
    IngestKeepsConsistent(st, d, texts, n, embed);
    if refused {
      SavingKeepsConsistent(Ingest(st, d, texts, n, embed), d, IngestedChunk(d, texts, n + 1),
                            ChunkEmbedding("", "", []));
    }
  }

  /** A store that only `ingest_document` and `remove_document` ever wrote to. */
  ghost predicate OnlyIngested(st: StoreState) {
    forall id :: id in st.chunks.vals ==>
      var c := st.chunks.vals[id];
      c.chunkIndex >= 1 && id == ChunkId(c.sourceId, c.chunkIndex)
  }

  lemma {:induction false} IngestKeepsOnlyIngested(st: StoreState, d: KnowledgeDocument, texts: seq<string>, n: nat,
                                                   embed: string -> seq<real>)
    requires OnlyIngested(st) && n <= |texts|
    ensures OnlyIngested(Ingest(st, d, texts, n, embed))
  {
    if n > 0 {
      IngestKeepsOnlyIngested(st, d, texts, n - 1, embed);
    }
  }

  /** However an ingest ends, the store still holds only ingested chunks. */
  lemma IngestStaysOnlyIngested(st: StoreState, d: KnowledgeDocument, texts: seq<string>, n: nat, refused: bool,
                                embed: string -> seq<real>)
    requires OnlyIngested(st) && n <= |texts| && (refused ==> n < |texts|)
    ensures OnlyIngested(IngestState(st, d, texts, n, refused, embed))
  {
    IngestKeepsOnlyIngested(st, d, texts, n, embed);
  }

  // ---- Ingesting touches nothing but the document's own chunk ids ----

  predicate SameAt(a: StoreState, b: StoreState, id: string) {
    && (id in a.chunks.vals <==> id in b.chunks.vals)
    && (id in a.chunks.vals ==> a.chunks.vals[id] == b.chunks.vals[id])
    && (id in a.embeddings <==> id in b.embeddings)
    && (id in a.embeddings ==> a.embeddings[id] == b.embeddings[id])
  }

  /** After ingesting `n` chunks the ids 1..n of this document hold its new chunks ... */
  lemma {:induction false} IngestedAt(st: StoreState, d: KnowledgeDocument, texts: seq<string>, n: nat,
                                      embed: string -> seq<real>, i: nat)
    requires 1 <= i <= n <= |texts|
    ensures var after, id := Ingest(st, d, texts, n, embed), d.sourceId + "_chunk_" + ToDecimal(i);
            && id in after.chunks.vals && after.chunks.vals[id] == DocumentChunk(id, d.sourceId, i, texts[i - 1])
            && id in after.embeddings
            && after.embeddings[id]
               == ChunkEmbedding(d.sourceId + "_embedding_" + ToDecimal(i), id, embed(texts[i - 1]))
  {
    if i < n {
      IngestedAt(st, d, texts, n - 1, embed, i);
      if ChunkId(d.sourceId, i) == ChunkId(d.sourceId, n) {
        ChunkIdInjective(d.sourceId, i, d.sourceId, n);
      }
    }
  }

  /** ... so that the words of the text can be read back from the stored chunks alone ... */
  lemma StoredTextReadsBack(st: StoreState, d: KnowledgeDocument, rawText: string, size: nat, overlap: nat,
                            embed: string -> seq<real>)
    requires overlap < size
    ensures var texts := Chunking.JoinAll(Chunking.Chunks(Words(CleanDocumentText(rawText)), size, overlap));
            var after := Ingest(st, d, texts, |texts|, embed);
            && (forall i :: 1 <= i <= |texts| ==> ChunkId(d.sourceId, i) in after.chunks.vals)
            && Chunking.Stitch(Chunking.SplitAll(seq(|texts|, i requires 0 <= i < |texts| =>
                                 after.chunks.vals[ChunkId(d.sourceId, i + 1)].text)), overlap) == Words(rawText)
  {
    var texts := Chunking.JoinAll(Chunking.Chunks(Words(CleanDocumentText(rawText)), size, overlap));
    var after := Ingest(st, d, texts, |texts|, embed);
    forall i | 1 <= i <= |texts|
      ensures ChunkId(d.sourceId, i) in after.chunks.vals
      ensures after.chunks.vals[ChunkId(d.sourceId, i)].text == texts[i - 1]
    {
      IngestedAt(st, d, texts, |texts|, embed, i);
    }
    assert seq(|texts|, i requires 0 <= i < |texts| => after.chunks.vals[ChunkId(d.sourceId, i + 1)].text) == texts;
    Chunking.ChunkTextsReconstruct(rawText, size, overlap);
  }

  /** ... and every other id, in this document's stale tail or in another document, is as before. */
  lemma {:induction false} NotIngestedAt(st: StoreState, d: KnowledgeDocument, texts: seq<string>, n: nat,
                                         embed: string -> seq<real>, id: string)
    requires n <= |texts| && forall i :: 1 <= i <= n ==> id != ChunkId(d.sourceId, i)
    ensures SameAt(Ingest(st, d, texts, n, embed), st, id)
  {
    if n > 0 {
      NotIngestedAt(st, d, texts, n - 1, embed, id);
    }
  }

  /** Distinct documents never overwrite each other, however the ingest ends. */
  lemma IngestSparesOthers(st: StoreState, d: KnowledgeDocument, texts: seq<string>, n: nat, refused: bool,
                           embed: string -> seq<real>, id: string)
    requires n <= |texts| && (refused ==> n < |texts|)
    requires OnlyIngested(st) && id in st.chunks.vals && st.chunks.vals[id].sourceId != d.sourceId
    ensures SameAt(IngestState(st, d, texts, n, refused, embed), st, id)
  {
    var c := st.chunks.vals[id];
    forall i | 1 <= i <= |texts| ensures id != ChunkId(d.sourceId, i) {
      if id == ChunkId(d.sourceId, i) {
        ChunkIdInjective(c.sourceId, c.chunkIndex, d.sourceId, i);
      }
    }
    NotIngestedAt(st, d, texts, n, embed, id);
  }

  // ---- Removing undoes ingesting ----

  lemma SkipPopped<K, V>(d: Dict<K, V>, k: K, v: V, ks: set<K>)
    requires d.Valid() && (k in d.vals ==> k in ks)
    ensures d.Put(k, v).PopAll(ks + {k}) == d.PopAll(ks)
  {
    var p, q := Except(ks + {k}), Except(ks);
    assert d.Put(k, v).vals - (ks + {k}) == d.vals - ks;
    FilterAgree(p, q, d.keys);
    if k !in d.vals {
      FilterAppend(p, d.keys, [k]);
      assert Filter(p, [k]) == [];
    }
  }

  lemma {:induction false} FilterAgree<T>(p: T -> bool, q: T -> bool, s: seq<T>)
    requires forall x :: x in s ==> p(x) == q(x)
    ensures Filter(p, s) == Filter(q, s)
  {
    if s == [] {
    } else {
      assert s[0] in s && forall x :: x in s[1..] ==> x in s;
      FilterAgree(p, q, s[1..]);
    }
  }

  /** Saving chunk `n` of source `s` adds its id to the ids of `s`, and never takes one from another source. */
  lemma OneMoreId(st: StoreState, c: DocumentChunk, sourceId: string, n: nat)
    requires OnlyIngested(st) && c.sourceId == sourceId && c.chunkId == ChunkId(sourceId, n)
    ensures ChunksOf(WithChunk(st, c), sourceId) == ChunksOf(st, sourceId) + {c.chunkId}
    ensures c.chunkId in st.chunks.vals ==> c.chunkId in ChunksOf(st, sourceId)
  {
    if c.chunkId in st.chunks.vals {
      var held := st.chunks.vals[c.chunkId];
      ChunkIdInjective(held.sourceId, held.chunkIndex, sourceId, n);
    }
  }

  /** Saving one more chunk of `d` makes no difference to what is left once `d` is removed ... */
  lemma WithoutForgetsChunk(st: StoreState, d: KnowledgeDocument, c: DocumentChunk, n: nat)
    requires st.chunks.Valid() && OnlyIngested(st) && (c.chunkId in st.embeddings ==> c.chunkId in st.chunks.vals)
    requires c.sourceId == d.sourceId && c.chunkId == ChunkId(d.sourceId, n)
    ensures Without(WithChunk(st, c), d.sourceId) == Without(st, d.sourceId)
  {
    var ids := ChunksOf(st, d.sourceId);
    OneMoreId(st, c, d.sourceId, n);
    SkipPopped(st.chunks, c.chunkId, c, ids);
    assert st.embeddings - (ids + {c.chunkId}) == st.embeddings - ids;
  }

  /** ... and neither does saving its embedding. */
  lemma WithoutForgetsEmbedding(st: StoreState, sourceId: string, e: ChunkEmbedding)
    requires e.chunkId in ChunksOf(st, sourceId)
    ensures Without(WithEmbedding(st, e), sourceId) == Without(st, sourceId)
  {
    var ids := ChunksOf(st, sourceId);
    assert st.embeddings[e.chunkId := e] - ids == st.embeddings - ids;
    assert ChunksOf(WithEmbedding(st, e), sourceId) == ids;
  }

  lemma WithoutForgetsDocument(st: StoreState, d: KnowledgeDocument)
    ensures Without(WithDocument(st, d), d.sourceId) == Without(st, d.sourceId)
  {
    assert WithDocument(st, d).documents - {d.sourceId} == st.documents - {d.sourceId};
    assert ChunksOf(WithDocument(st, d), d.sourceId) == ChunksOf(st, d.sourceId);
  }

  lemma WithoutForgetsNext(st: StoreState, d: KnowledgeDocument, texts: seq<string>, n: nat, embed: string -> seq<real>)
    requires Consistent(st) && OnlyIngested(st) && n < |texts|
    ensures Without(IngestState(st, d, texts, n, true, embed), d.sourceId)
         == Without(Ingest(st, d, texts, n, embed), d.sourceId)
    ensures ChunkId(d.sourceId, n + 1) in ChunksOf(IngestState(st, d, texts, n, true, embed), d.sourceId)
  {
    IngestKeepsConsistent(st, d, texts, n, embed);
    IngestKeepsOnlyIngested(st, d, texts, n, embed);
    WithoutForgetsChunk(Ingest(st, d, texts, n, embed), d, IngestedChunk(d, texts, n + 1), n + 1);
    OneMoreId(Ingest(st, d, texts, n, embed), IngestedChunk(d, texts, n + 1), d.sourceId, n + 1);
  }

  lemma {:induction false} WithoutForgetsIngest(st: StoreState, d: KnowledgeDocument, texts: seq<string>, n: nat,
                                                embed: string -> seq<real>)
    requires Consistent(st) && OnlyIngested(st) && n <= |texts|
    ensures Without(Ingest(st, d, texts, n, embed), d.sourceId) == Without(st, d.sourceId)
  {
    if n == 0 {
      WithoutForgetsDocument(st, d);
    } else {
      WithoutForgetsIngest(st, d, texts, n - 1, embed);
      WithoutForgetsNext(st, d, texts, n - 1, embed);
      WithoutForgetsEmbedding(IngestState(st, d, texts, n - 1, true, embed), d.sourceId,
                              IngestedEmbedding(d, texts, n, embed));
    }
  }

  lemma WithoutUnknown(st: StoreState, sourceId: string)
    requires Consistent(st) && sourceId !in st.documents
    ensures Without(st, sourceId) == st
  {
    var ids := ChunksOf(st, sourceId);
    assert ids == {};
    assert st.documents - {sourceId} == st.documents && st.chunks.vals - ids == st.chunks.vals
           && st.embeddings - ids == st.embeddings;
    KeepAll(st.chunks.keys, ids);
  }

  lemma {:induction false} KeepAll(keys: seq<string>, none: set<string>)
    requires none == {}
    ensures Filter(Except(none), keys) == keys
  {
    if keys == [] {
    } else {
      KeepAll(keys[1..], none);
      assert keys == [keys[0]] + keys[1..];
    }
  }

  /** Removing a document undoes the ingest of a source id that was new, however the ingest ended, down to the
      insertion order. */
  lemma RemoveUndoesIngest(st: StoreState, d: KnowledgeDocument, texts: seq<string>, n: nat, refused: bool,
                           embed: string -> seq<real>)
    requires n <= |texts| && (refused ==> n < |texts|)
    requires Consistent(st) && OnlyIngested(st) && d.sourceId !in st.documents
    ensures Without(IngestState(st, d, texts, n, refused, embed), d.sourceId) == st
  {
    WithoutForgetsIngest(st, d, texts, n, embed);
    if refused {
      WithoutForgetsNext(st, d, texts, n, embed);
    }
    WithoutUnknown(st, d.sourceId);
  }

  // ---- What retrieval gives on a store of ingested chunks ----

  /** No two readable records share a position, so retrieval depends on the readable records alone. */
  lemma IngestedPositionsUnique(st: StoreState, role: Option<string>, user: string,
                                shared: KnowledgeDocument -> set<string>)
    requires Consistent(st) && OnlyIngested(st)
    ensures UniquePositions(ReadableRecords(st, role, user, shared))
  {
    ReadableMembers(st, role, user, shared);
  }

  /** `e` cites the document of `a` under the anchor of `a`, with this snippet. */
  predicate CitesChunk(e: Evidence, a: Record, snippet: string) {
    && a.chunk.chunkIndex >= 1
    && e.sourceId == a.document.sourceId && e.title == a.document.title && e.publishTime == a.document.publishTime
    && e.anchor == a.document.sourceId + "#chunk-" + ToDecimal(a.chunk.chunkIndex)
    && e.snippet == snippet
  }

  /** `e` cites one readable and matching chunk, or two neighbouring ones of a document under the anchor of the
      first. */
  ghost predicate Quotes(readable: seq<Record>, q: Query, e: Evidence) {
    || (exists a :: a in readable && Matches(a.document, q) && CitesChunk(e, a, a.chunk.text))
    || (exists a, b :: a in readable && b in readable && Matches(a.document, q)
                       && a.document.sourceId == b.document.sourceId
                       && b.chunk.chunkIndex == a.chunk.chunkIndex + 1
                       && CitesChunk(e, a, a.chunk.text + " " + b.chunk.text))
  }

  /** Every citation quotes one stored chunk or two neighbours joined, all of them readable and matching. */
  lemma EvidenceQuotesChunks(st: StoreState, q: Query, o: Oracles)
    requires Consistent(st) && OnlyIngested(st)
    ensures forall e :: e in Retrieval.Retrieve(st, q, o).evidence ==>
              Quotes(ReadableRecords(st, q.userRole, q.requestingUserId, o.shared), q, e)
  {
    var readable := ReadableRecords(st, q.userRole, q.requestingUserId, o.shared);
    var filtered := FilteredRecords(st, q, o.shared);
    IngestedPositionsUnique(st, q.userRole, q.requestingUserId, o.shared);
    FilteredKeys(st, q, o.shared);
    FilteredMembers(st, q, o.shared);
    ReadableMembers(st, q.userRole, q.requestingUserId, o.shared);
    var selected := Selected(filtered, q, o);
    SelectedPassages(filtered, q, o);
    forall i | 0 <= i < |selected| ensures Quotes(readable, q, Cite(selected)[i]) {
      assert selected[i] in selected;
      PassageQuotes(filtered, readable, q, selected[i]);
    }
  }

  lemma PassageQuotes(filtered: seq<Record>, readable: seq<Record>, q: Query, s: Record)
    requires Passage(filtered, s) && forall r :: r in filtered ==> r in readable && Matches(r.document, q)
    requires forall r :: r in filtered ==> r.chunk.chunkIndex >= 1
    ensures Quotes(readable, q, ToEvidence(s))
  {
    if a :| a in filtered && Rescored(a, s) {
      assert a in readable && CitesChunk(ToEvidence(s), a, a.chunk.text);
    } else {
      var a, b :| a in filtered && b in filtered && Neighbours(a, b) && Rescored(MergeRecords(a, b), s);
      assert a in readable && b in readable;
      assert CitesChunk(ToEvidence(s), a, a.chunk.text + " " + b.chunk.text);
    }
  }

  /** Two citations of one document are at least two chunks apart, so no stored chunk is cited twice. */
  lemma EvidenceIsApart(st: StoreState, q: Query, o: Oracles, i: nat, j: nat)
    returns (m: nat, n: nat)
    requires Consistent(st) && OnlyIngested(st) && i < j < |Retrieval.Retrieve(st, q, o).evidence|
    ensures var a, b := Retrieval.Retrieve(st, q, o).evidence[i], Retrieval.Retrieve(st, q, o).evidence[j];
            && a.anchor == Anchor(a.sourceId, m) && b.anchor == Anchor(b.sourceId, n)
            && (a.sourceId == b.sourceId ==> m + 2 <= n || n + 2 <= m)
  {
    var filtered := FilteredRecords(st, q, o.shared);
    IngestedPositionsUnique(st, q.userRole, q.requestingUserId, o.shared);
    FilteredKeys(st, q, o.shared);
    var selected := Selected(filtered, q, o);
    m := CitedIndex(st, q, o, i);
    n := CitedIndex(st, q, o, j);
    SelectedApart(filtered, q, o, i, j);
  }

  lemma CitedIndex(st: StoreState, q: Query, o: Oracles, i: nat) returns (n: nat)
    requires Consistent(st) && OnlyIngested(st) && i < |Retrieval.Retrieve(st, q, o).evidence|
    ensures var s := Selected(FilteredRecords(st, q, o.shared), q, o)[i];
            && n == s.chunk.chunkIndex
            && Retrieval.Retrieve(st, q, o).evidence[i].anchor == Anchor(s.document.sourceId, n)
  {
    var filtered := FilteredRecords(st, q, o.shared);
    var selected := Selected(filtered, q, o);
    IngestedPositionsUnique(st, q.userRole, q.requestingUserId, o.shared);
    FilteredKeys(st, q, o.shared);
    SelectedPassages(filtered, q, o);
    FilteredMembers(st, q, o.shared);
    ReadableMembers(st, q.userRole, q.requestingUserId, o.shared);
    assert selected[i] in selected;
    n := PassageIndex(filtered, selected[i]);
  }

  lemma PassageIndex(records: seq<Record>, s: Record) returns (n: nat)
    requires Passage(records, s) && forall r :: r in records ==> r.chunk.chunkIndex >= 1
    ensures n == s.chunk.chunkIndex
  {
    if a :| a in records && Rescored(a, s) {
      n := a.chunk.chunkIndex;
    } else {
      var a, b :| a in records && b in records && Neighbours(a, b) && Rescored(MergeRecords(a, b), s);
      n := a.chunk.chunkIndex;
    }
  }

  // ---- Loop invariants of the listing and the scoring loops ----

  ghost predicate ListedUpTo(st: StoreState, q: Query, shared: KnowledgeDocument -> set<string>,
                             sorted: seq<DocumentChunk>, i: nat, records: seq<Record>)
  {
    && i <= |sorted| && KnownSources(st, sorted)
    && (forall c :: c in sorted[i..] ==> c in sorted)
    && records + Filter(Admits(q, shared), RecordsOf(st, sorted[i..]))
       == Filter(Admits(q, shared), RecordsOf(st, sorted))
  }

  lemma ListOne(st: StoreState, q: Query, shared: KnowledgeDocument -> set<string>,
                sorted: seq<DocumentChunk>, i: nat, records: seq<Record>)
    requires ListedUpTo(st, q, shared, sorted, i, records) && i < |sorted|
    ensures sorted[i] in sorted
    ensures var record := RecordOf(st, sorted[i]);
            ListedUpTo(st, q, shared, sorted, i + 1,
                       if Matches(record.document, q)
                       && Readable(record.document, q.userRole, q.requestingUserId, shared)
                       then records + [record] else records)
  {
    var p, record := Admits(q, shared), RecordOf(st, sorted[i]);
    var rest := RecordsOf(st, sorted[i + 1..]);
    assert sorted[i..][0] == sorted[i] && sorted[i..][1..] == sorted[i + 1..];
    assert RecordsOf(st, sorted[i..]) == [record] + rest;
    assert ([record] + rest)[1..] == rest;
    if p(record) {
      assert records + ([record] + Filter(p, rest)) == (records + [record]) + Filter(p, rest);
    } else {
      assert [] + Filter(p, rest) == Filter(p, rest);
    }
  }

  ghost predicate ScoredUpTo(records: seq<Record>, keywords: seq<real>, relevance: (Record, real) -> real, i: nat,
                             scored: seq<Record>)
  {
    && i <= |records| && i <= |keywords|
    && scored + Score(records[i..], keywords[i..], relevance) == Score(records, keywords, relevance)
  }

  lemma ScoreOne(records: seq<Record>, keywords: seq<real>, relevance: (Record, real) -> real, i: nat,
                 scored: seq<Record>)
    requires ScoredUpTo(records, keywords, relevance, i, scored) && i < |records| && i < |keywords|
    ensures var score := relevance(records[i], keywords[i]);
            ScoredUpTo(records, keywords, relevance, i + 1,
                       if score <= 0.0 then scored else scored + [records[i].(score := score)])
  {
    assert records[i..][0] == records[i] && records[i..][1..] == records[i + 1..];
    assert keywords[i..][0] == keywords[i] && keywords[i..][1..] == keywords[i + 1..];
    var rest := Score(records[i + 1..], keywords[i + 1..], relevance);
    var score := relevance(records[i], keywords[i]);
    if score <= 0.0 {
      assert [] + rest == rest;
    } else {
      var one := records[i].(score := score);
      assert scored + ([one] + rest) == (scored + [one]) + rest;
    }
  }

  // ---- The class ----

  ghost predicate AllEmbedded(texts: seq<string>, n: nat, embed: string -> seq<real>)
    requires n <= |texts|
  {
    forall i :: 0 <= i < n ==> embed(texts[i]) != []
  }

  /** The ingest loop has saved the first `n` chunks with their embeddings and collected their records. */
  ghost predicate IngestedUpTo(before: StoreState, d: KnowledgeDocument, texts: seq<string>, n: nat,
                               embed: string -> seq<real>,
                               now: StoreState, records: seq<Record>)
  {
    n <= |texts| && now == Ingest(before, d, texts, n, embed) && records == IngestedRecords(d, texts, n, embed)
    && AllEmbedded(texts, n, embed)
  }

  /** The embedding of chunk `n` was empty: everything before it and the chunk itself stay. */
  ghost predicate IngestRefused(before: StoreState, d: KnowledgeDocument, texts: seq<string>, n: nat,
                                embed: string -> seq<real>,
                                now: StoreState, error: StoreError)
  {
    && 1 <= n <= |texts| && embed(texts[n - 1]) == [] && error == VectorRequired
    && now == IngestState(before, d, texts, n - 1, true, embed)
  }

  lemma ChunkTextsNotBlank(rawText: string, size: nat, overlap: nat)
    requires overlap < size
    ensures NoneBlank(Chunking.JoinAll(Chunking.Chunks(Words(CleanDocumentText(rawText)), size, overlap)))
  {
    var words := Words(CleanDocumentText(rawText));
    WordsAreWords(CleanDocumentText(rawText));
    var chunks := Chunking.Chunks(words, size, overlap);
    var texts := Chunking.JoinAll(chunks);
    forall i | 0 <= i < |texts| ensures !IsBlank(texts[i]) {
      Chunking.ChunkClosedForm(words, size, overlap, i);
      assert IsWord(chunks[i][0]);
      assert texts[i][0] == chunks[i][0][0];
    }
  }

  lemma ChunkIdNotBlank(sourceId: string, n: nat)
    requires !IsBlank(sourceId)
    ensures !IsBlank(ChunkId(sourceId, n)) && !IsBlank(sourceId + "_embedding_" + ToDecimal(n))
  {
    var i :| 0 <= i < |sourceId| && !IsSpace(sourceId[i]);
    assert ChunkId(sourceId, n)[i] == sourceId[i];
    assert (sourceId + "_embedding_" + ToDecimal(n))[i] == sourceId[i];
  }

  class InMemoryKnowledgeStore {
    var documents: map<string, KnowledgeDocument>
    var chunks: Dict<string, DocumentChunk>
    var embeddings: map<string, ChunkEmbedding>

    function State(): StoreState
      reads this
    {
      StoreState(documents, chunks, embeddings)
    }

    ghost predicate Valid()
      reads this
    {
      Consistent(State())
    }

    constructor ()
      ensures Valid() && OnlyIngested(State())
      ensures documents == map[] && chunks == Empty() && embeddings == map[]
    {
      documents, chunks, embeddings := map[], Empty(), map[];
    }

    method SaveDocument(document: KnowledgeDocument) returns (r: Result<(), StoreError>)
      requires Valid()
      modifies this
      ensures Valid()
      ensures r.Ok? <==> !IsBlank(document.sourceId) && !IsBlank(document.title) && !IsBlank(document.docType)
      ensures State() == if r.Ok? then WithDocument(old(State()), document) else old(State())
      ensures r.Ok? ==> documents == old(documents)[document.sourceId := document]
      ensures chunks == old(chunks) && embeddings == old(embeddings)
      ensures r.Err? ==> r.error == TextRequired(if IsBlank(document.sourceId) then "source_id"
                                                 else if IsBlank(document.title) then "title" else "doc_type")
    {
      if IsBlank(document.sourceId) {
        return Err(TextRequired("source_id"));
      }
      if IsBlank(document.title) {
        return Err(TextRequired("title"));
      }
      if IsBlank(document.docType) {
        return Err(TextRequired("doc_type"));
      }
      SavingKeepsConsistent(State(), document, DocumentChunk("", "", 0, ""), ChunkEmbedding("", "", []));
      documents := documents[document.sourceId := document];
      return Ok(());
    }

    method SaveChunk(chunk: DocumentChunk) returns (r: Result<(), StoreError>)
      requires Valid()
      modifies this
      ensures Valid()
      ensures r.Ok? <==> !IsBlank(chunk.chunkId) && !IsBlank(chunk.sourceId) && !IsBlank(chunk.text)
                         && chunk.sourceId in old(documents)
      ensures State() == if r.Ok? then WithChunk(old(State()), chunk) else old(State())
      ensures r.Ok? ==> chunks == old(chunks).Put(chunk.chunkId, chunk)
      ensures documents == old(documents) && embeddings == old(embeddings)
      ensures r.Err? ==>
                r.error == if IsBlank(chunk.chunkId) then TextRequired("chunk_id")
                           else if IsBlank(chunk.sourceId) then TextRequired("source_id")
                           else if IsBlank(chunk.text) then TextRequired("chunk_text")
                           else UnknownDocument(chunk.sourceId)
    {
      if IsBlank(chunk.chunkId) {
        return Err(TextRequired("chunk_id"));
      }
      if IsBlank(chunk.sourceId) {
        return Err(TextRequired("source_id"));
      }
      if IsBlank(chunk.text) {
        return Err(TextRequired("chunk_text"));
      }
      if chunk.sourceId !in documents {
        return Err(UnknownDocument(chunk.sourceId));
      }
      SavingKeepsConsistent(State(), documents[chunk.sourceId], chunk, ChunkEmbedding("", "", []));
      chunks := chunks.Put(chunk.chunkId, chunk);
      return Ok(());
    }

    method SaveEmbedding(embedding: ChunkEmbedding) returns (r: Result<(), StoreError>)
      requires Valid()
      modifies this
      ensures Valid()
      ensures r.Ok? <==> !IsBlank(embedding.embeddingId) && !IsBlank(embedding.chunkId)
                         && embedding.chunkId in old(chunks).vals && embedding.vector != []
      ensures State() == if r.Ok? then WithEmbedding(old(State()), embedding) else old(State())
      ensures r.Ok? ==> embeddings == old(embeddings)[embedding.chunkId := embedding]
      ensures documents == old(documents) && chunks == old(chunks)
      ensures r.Err? ==>
                r.error == if IsBlank(embedding.embeddingId) then TextRequired("embedding_id")
                           else if IsBlank(embedding.chunkId) then TextRequired("chunk_id")
                           else if embedding.chunkId !in old(chunks).vals then UnknownChunk(embedding.chunkId)
                           else VectorRequired
    {
      if IsBlank(embedding.embeddingId) {
        return Err(TextRequired("embedding_id"));
      }
      if IsBlank(embedding.chunkId) {
        return Err(TextRequired("chunk_id"));
      }
      if embedding.chunkId !in chunks.vals {
        return Err(UnknownChunk(embedding.chunkId));
      }
      if embedding.vector == [] {
        return Err(VectorRequired);
      }
      embeddings := embeddings[embedding.chunkId := embedding];
      return Ok(());
    }

    method RemoveDocument(sourceId: string)
      requires Valid()
      modifies this
      ensures Valid() && State() == Without(old(State()), sourceId)
      ensures OnlyIngested(old(State())) ==> OnlyIngested(State())
      ensures documents == old(documents) - {sourceId}
      ensures forall id :: id in chunks.vals <==>
                id in old(chunks).vals && old(chunks).vals[id].sourceId != sourceId
      ensures forall id :: id in chunks.vals ==> chunks.vals[id] == old(chunks).vals[id]
      ensures forall id :: id in embeddings <==> id in old(embeddings) && id in chunks.vals
      ensures forall id :: id in embeddings ==> embeddings[id] == old(embeddings)[id]
    {
      RemovingKeepsConsistent(State(), sourceId);
      documents := documents - {sourceId};
      var stale := set id | id in chunks.vals && chunks.vals[id].sourceId == sourceId;
      assert stale == ChunksOf(old(State()), sourceId);
      chunks := chunks.PopAll(stale);
      embeddings := embeddings - stale;
    }

    /** One turn of the ingest loop: save chunk `n` and its embedding. */
    method IngestOne(document: KnowledgeDocument, texts: seq<string>, n: nat, embed: string -> seq<real>,
                     ghost before: StoreState, ghost records: seq<Record>)
      returns (r: Result<Record, StoreError>)
      requires Consistent(before) && 1 <= n <= |texts| && GoodDocument(document) && NoneBlank(texts)
      requires IngestedUpTo(before, document, texts, n - 1, embed, State(), records)
      modifies this
      ensures r.Ok? ==> IngestedUpTo(before, document, texts, n, embed, State(), records + [r.value])
      ensures r.Err? ==> IngestRefused(before, document, texts, n, embed, State(), r.error)
    {
      IngestKeepsConsistent(before, document, texts, n - 1, embed);
      ChunkIdNotBlank(document.sourceId, n);
      assert texts[n - 1] in texts;
      var chunk, embedding := IngestedChunk(document, texts, n), IngestedEmbedding(document, texts, n, embed);
      var savedChunk := SaveChunk(chunk);
      assert savedChunk.Ok?;
      var savedEmbedding := SaveEmbedding(embedding);
      if savedEmbedding.Err? {
        return Err(savedEmbedding.error);
      }
      return Ok(Record(document, chunk, Some(embedding), 0.0));
    }

    method IngestAll(document: KnowledgeDocument, texts: seq<string>, embed: string -> seq<real>,
                     ghost before: StoreState)
      returns (r: Result<seq<Record>, StoreError>, ghost stop: nat)
      requires Consistent(before) && GoodDocument(document) && NoneBlank(texts)
      requires IngestedUpTo(before, document, texts, 0, embed, State(), [])
      modifies this
      ensures r.Ok? ==> IngestedUpTo(before, document, texts, |texts|, embed, State(), r.value)
      ensures r.Err? ==> IngestRefused(before, document, texts, stop, embed, State(), r.error)
    {
      var records: seq<Record> := [];
      for n := 1 to |texts| + 1
        invariant IngestedUpTo(before, document, texts, n - 1, embed, State(), records)
      {
        var one := IngestOne(document, texts, n, embed, before, records);
        if one.Err? {
          return Err(one.error), n;
        }
        records := records + [one.value];
      }
      return Ok(records), |texts|;
    }

    /** The loop, and what the store is like after it. */
    method IngestTexts(document: KnowledgeDocument, texts: seq<string>, embed: string -> seq<real>,
                       ghost before: StoreState)
      returns (r: Result<seq<Record>, StoreError>, ghost stop: nat)
      requires Consistent(before) && GoodDocument(document) && NoneBlank(texts)
      requires IngestedUpTo(before, document, texts, 0, embed, State(), [])
      modifies this
      ensures Valid() && (OnlyIngested(before) ==> OnlyIngested(State()))
      ensures r.Ok? ==> IngestedUpTo(before, document, texts, |texts|, embed, State(), r.value)
      ensures r.Err? ==> IngestRefused(before, document, texts, stop, embed, State(), r.error)
    {
      r, stop := IngestAll(document, texts, embed, before);
      var n, refused := if r.Ok? then |texts| else stop - 1, r.Err?;
      IngestStaysConsistent(before, document, texts, n, refused, embed);
      if OnlyIngested(before) {
        IngestStaysOnlyIngested(before, document, texts, n, refused, embed);
      }
    }

    /** What comes before the loop: the document row is saved, then the text is cleaned and cut. */
    method SaveAndCut(document: KnowledgeDocument, rawText: string, chunkSize: int, chunkOverlap: int,
                      ghost embed: string -> seq<real>)
      returns (r: Result<seq<string>, StoreError>)
      requires Valid()
      modifies this
      ensures Valid() && (OnlyIngested(old(State())) ==> OnlyIngested(State()))
      ensures r.Ok? <==> GoodDocument(document) && Chunking.GoodSettings(chunkSize, chunkOverlap)
      ensures State() == if GoodDocument(document) then IngestState(old(State()), document, [], 0, false, embed)
                         else old(State())
      ensures GoodDocument(document) && r.Err? ==> r.error.BadSettings?
      ensures r.Ok? ==>
                && r.value == Chunking.JoinAll(Chunking.Chunks(Words(CleanDocumentText(rawText)), chunkSize,
                                                               chunkOverlap))
                && NoneBlank(r.value)
    {
      ghost var before := State();
      var saved := SaveDocument(document);
      if saved.Err? {
        return Err(saved.error);
      }
      if OnlyIngested(before) {
        IngestStaysOnlyIngested(before, document, [], 0, false, embed);
      }
      var cut := Chunking.ChunkText(CleanDocumentText(rawText), chunkSize, chunkOverlap);
      if cut.Err? {
        return Err(BadSettings(cut.error));
      }
      ChunkTextsNotBlank(rawText, chunkSize, chunkOverlap);
      return Ok(cut.value);
    }

    /** On success the state is the ingested one. A bad chunk setting is noticed only after the document
        row is saved; an empty vector only after its chunk is saved (`stop` is that chunk's number). */
    method IngestDocument(document: KnowledgeDocument, rawText: string, chunkSize: int, chunkOverlap: int,
                          embed: string -> seq<real>)
      returns (r: Result<seq<Record>, StoreError>, ghost texts: seq<string>, ghost stop: nat)
      requires Valid()
      modifies this
      ensures Valid() && (OnlyIngested(old(State())) ==> OnlyIngested(State()))
      ensures Chunking.GoodSettings(chunkSize, chunkOverlap) ==>
                texts == Chunking.JoinAll(Chunking.Chunks(Words(CleanDocumentText(rawText)), chunkSize, chunkOverlap))
      ensures r.Ok? <==> GoodDocument(document) && Chunking.GoodSettings(chunkSize, chunkOverlap)
                         && AllEmbedded(texts, |texts|, embed)
      ensures r.Ok? ==> State() == IngestState(old(State()), document, texts, |texts|, false, embed)
                        && r.value == IngestedRecords(document, texts, |texts|, embed)
      ensures !GoodDocument(document) ==> State() == old(State())
      ensures GoodDocument(document) && !Chunking.GoodSettings(chunkSize, chunkOverlap) ==>
                r.Err? && r.error.BadSettings? && State() == IngestState(old(State()), document, [], 0, false, embed)
      ensures GoodDocument(document) && Chunking.GoodSettings(chunkSize, chunkOverlap) && r.Err? ==>
                r.error == VectorRequired && 1 <= stop <= |texts| && embed(texts[stop - 1]) == []
                && State() == IngestState(old(State()), document, texts, stop - 1, true, embed)
    {
      ghost var before := State();
      var cut := SaveAndCut(document, rawText, chunkSize, chunkOverlap, embed);
      texts := if Chunking.GoodSettings(chunkSize, chunkOverlap)
               then Chunking.JoinAll(Chunking.Chunks(Words(CleanDocumentText(rawText)), chunkSize, chunkOverlap))
               else [];
      if cut.Err? {
        return Err(cut.error), texts, 0;
      }
      r, stop := IngestTexts(document, cut.value, embed, before);
    }

    method ListChunkRecords(q: Query, shared: KnowledgeDocument -> set<string>) returns (records: seq<Record>)
      requires Valid()
      ensures records == FilteredRecords(State(), q, shared)
    {
      StoredSourcesKnown(State());
      var sorted := SortBy(ChunkLe, chunks.Values());
      records := [];
      assert sorted[0..] == sorted;
      for i := 0 to |sorted|
        invariant ListedUpTo(State(), q, shared, sorted, i, records)
      {
        ListOne(State(), q, shared, sorted, i, records);
        var record := RecordOf(State(), sorted[i]);
        if Matches(record.document, q) && Readable(record.document, q.userRole, q.requestingUserId, shared) {
          records := records + [record];
        }
      }
    }

    method ScoreRecords(records: seq<Record>, keywords: seq<real>, relevance: (Record, real) -> real)
      returns (scored: seq<Record>)
      ensures scored == Score(records, keywords, relevance)
    {
      scored := [];
      var i := 0;
      assert records[0..] == records && keywords[0..] == keywords;
      while i < |records| && i < |keywords|
        invariant ScoredUpTo(records, keywords, relevance, i, scored)
      {
        ScoreOne(records, keywords, relevance, i, scored);
        var score := relevance(records[i], keywords[i]);
        if !(score <= 0.0) {
          scored := scored + [records[i].(score := score)];
        }
        i := i + 1;
      }
    }

    method RankRecords(records: seq<Record>, queryText: string, embedding: seq<real>, o: Oracles)
      returns (ranked: seq<Record>)
      ensures ranked == Rank(records, queryText, embedding, o)
      ensures forall i, j :: 0 <= i < j < |ranked| ==>
                var a, b := ranked[i], ranked[j];
                a.score > b.score
                || (a.score == b.score && a.document.publishTime > b.document.publishTime)
                || (a.score == b.score && a.document.publishTime == b.document.publishTime
                    && a.chunk.chunkIndex <= b.chunk.chunkIndex)
      ensures multiset(ranked)
           == multiset(Score(records, KeywordScores(records, queryText, o), RelevanceTo(embedding, o)))
    {
      var scored := ScoreRecords(records, KeywordScores(records, queryText, o), RelevanceTo(embedding, o));
      RankOrder();
      SortSorts(RankLe, scored);
      SortPermutes(RankLe, scored);
      ranked := SortBy(RankLe, scored);
      forall i, j | 0 <= i < j < |ranked| ensures RankLe(ranked[i], ranked[j]) {
      }
    }

    method Retrieve(q: Query, o: Oracles) returns (result: RetrievalResult)
      requires Valid()
      ensures result == Retrieval.Retrieve(State(), q, o)
    {
      var filtered := ListChunkRecords(q, o.shared);
      var embedding := QueryEmbedding(q, o);
      var narrowed := Narrow(filtered, q, embedding, o);
      var ranked := RankRecords(narrowed, QueryText(q), embedding, o);
      var window := Take(ranked, if q.topK * 2 >= q.topK then q.topK * 2 else q.topK);
      assert window == Ranked(filtered, q, o);
      var (reranked, didRerank) := Rerank(q.question, window, o);
      var selected := Dedupe.DedupeAdjacentChunks(reranked);
      selected := Take(selected, q.topK);
      assert selected == Selected(filtered, q, o);
      var evidence := Cite(selected);
      result := RetrievalResult(
        evidence, Explain(evidence), Confidence(|evidence|), evidence == [],
        |chunks.vals|, |narrowed|, if didRerank then |window| else 0, |evidence|);
    }
  }
}
