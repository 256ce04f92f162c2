/** knowledge.py `retrieve`: filter by permission, rank, rerank, merge neighbours, cite. */
module Retrieval {
  import opened Text
  import opened Ordering
  import opened Rounding
  import opened Vectors
  import opened Dicts
  import opened ChunkIds
  import opened Knowledge
  import Dedupe

  /** What the store holds. */
  datatype StoreState = StoreState(
    documents: map<string, KnowledgeDocument>,
    chunks: Dict<string, DocumentChunk>,
    embeddings: map<string, ChunkEmbedding>)

  ghost predicate Consistent(st: StoreState) {
    && st.chunks.Valid()
    && (forall id :: id in st.documents ==> st.documents[id].sourceId == id)
    && (forall id :: id in st.chunks.vals ==>
          st.chunks.vals[id].chunkId == id && st.chunks.vals[id].sourceId in st.documents)
    && (forall id :: id in st.embeddings ==> id in st.chunks.vals)
  }

  datatype Query = Query(
    question: string,
    requestingUserId: string,
    metricContext: string,
    conversationContext: string,
    docType: Option<string>,
    docTypes: seq<string>,
    publishedFrom: Option<int>,
    publishedTo: Option<int>,
    userRole: Option<string>,
    tags: seq<string>,
    topK: int,
    queryEmbedding: Option<seq<real>>)

  /** Everything the pipeline asks of code outside the store. `rerank` answers None when the
      cross-encoder raises; `candidates` answers None when the vector source raises. */
  datatype Oracles = Oracles(
    sqrt: real -> real,
    embed: string -> seq<real>,
    hashEmbedding: string -> seq<real>,
    bm25: (seq<string>, string) -> seq<real>,
    rerank: Option<(string, seq<string>) -> Option<seq<real>>>,
    candidates: Option<(Query, seq<real>) -> Option<set<string>>>,
    shared: KnowledgeDocument -> set<string>)

  datatype Evidence = Evidence(
    sourceId: string,
    title: string,
    anchor: string,
    snippet: string,
    publishTime: int,
    relevance: real)

  datatype RetrievalResult = RetrievalResult(
    evidence: seq<Evidence>,
    explanation: string,
    confidence: real,
    uncertainty: bool,
    candidateCount: nat,
    filteredCount: nat,
    rerankedCount: nat,
    selectedCount: nat)

  // ---- Who may read what ----

  predicate RoleCanRead(document: KnowledgeDocument, role: string) {
    document.allowedRoles == [] || role in document.allowedRoles
  }

  predicate OwnerCanRead(document: KnowledgeDocument, user: string, shared: KnowledgeDocument -> set<string>) {
    document.owner == None
    || (user != "" && (document.owner == Some(user) || user in shared(document)))
  }

  /** The permission part of the filter: the requester's role and the document's owner. */
  predicate Readable(document: KnowledgeDocument, role: Option<string>, user: string,
                     shared: KnowledgeDocument -> set<string>)
  {
    (role.Some? ==> RoleCanRead(document, role.value)) && OwnerCanRead(document, user, shared)
  }

  predicate Matches(document: KnowledgeDocument, q: Query) {
    && (q.docType.Some? ==> document.docType == q.docType.value)
    && (q.docTypes != [] ==> document.docType in q.docTypes)
    && (q.publishedFrom.Some? ==> document.publishTime >= q.publishedFrom.value)
    && (q.publishedTo.Some? ==> document.publishTime <= q.publishedTo.value)
    && (forall t | t in q.tags :: t in document.tags)
  }

  // ---- list_chunk_records ----

  predicate ChunkLe(a: DocumentChunk, b: DocumentChunk) {
    if a.sourceId == b.sourceId then a.chunkIndex <= b.chunkIndex else StringLe(a.sourceId, b.sourceId)
  }

  predicate RecordLe(a: Record, b: Record) { ChunkLe(a.chunk, b.chunk) }

  function RecordOf(st: StoreState, chunk: DocumentChunk): Record
    requires chunk.sourceId in st.documents
  {
    Record(st.documents[chunk.sourceId], chunk,
           if chunk.chunkId in st.embeddings then Some(st.embeddings[chunk.chunkId]) else None,
           0.0)
  }

  ghost predicate KnownSources(st: StoreState, chunks: seq<DocumentChunk>) {
    forall c :: c in chunks ==> c.sourceId in st.documents
  }

  function RecordsOf(st: StoreState, chunks: seq<DocumentChunk>): seq<Record>
    requires KnownSources(st, chunks)
  {
    if chunks == [] then []
    else assert chunks[0] in chunks; [RecordOf(st, chunks[0])] + RecordsOf(st, chunks[1..])
  }

  function Admits(q: Query, shared: KnowledgeDocument -> set<string>): Record -> bool {
    (r: Record) => Matches(r.document, q) && Readable(r.document, q.userRole, q.requestingUserId, shared)
  }

  lemma StoredSourcesKnown(st: StoreState)
    requires Consistent(st)
    ensures KnownSources(st, st.chunks.Values())
    ensures KnownSources(st, SortBy(ChunkLe, st.chunks.Values()))
  {
    ValueMembers(st.chunks);
    SortMembers(ChunkLe, st.chunks.Values());
  }

  function FilteredRecords(st: StoreState, q: Query, shared: KnowledgeDocument -> set<string>): seq<Record>
    requires Consistent(st)
  {
    StoredSourcesKnown(st);
    Filter(Admits(q, shared), RecordsOf(st, SortBy(ChunkLe, st.chunks.Values())))
  }

  // ---- The rest of the pipeline sees only the filtered records ----

  function Texts(records: seq<Record>): seq<string> {
    seq(|records|, i requires 0 <= i < |records| => records[i].chunk.text)
  }

  function IsCandidate(ids: set<string>): Record -> bool {
    (r: Record) => r.chunk.chunkId in ids
  }

  function Narrow(records: seq<Record>, q: Query, embedding: seq<real>, o: Oracles): seq<Record> {
    if o.candidates == None then records
    else
      var ids := o.candidates.value(q, embedding);
      if ids == None then records else Filter(IsCandidate(ids.value), records)
  }

  function SourceWeight(docType: string): real {
    if docType == "incident" || docType == "incident_report" then 0.05
    else if docType == "release_note" || docType == "release_notes" then 0.04
    else if docType == "support_ticket" || docType == "campaign" || docType == "finance_report" then 0.03
    else if docType == "report" then 0.02
    else 0.01
  }

  function Relevance(r: Record, keyword: real, embedding: seq<real>, o: Oracles): real {
    var stored := if r.embedding.Some? then r.embedding.value.vector else o.hashEmbedding(r.chunk.text);
    Round4(keyword * 0.60 + CosineSimilarity(o.sqrt, embedding, stored) * 0.35 + SourceWeight(r.document.docType))
  }

  /** The scoring loop: records and keyword scores side by side, non-positive relevance dropped. */
  function Score(records: seq<Record>, keywords: seq<real>, relevance: (Record, real) -> real): seq<Record> {
    if records == [] || keywords == [] then []
    else
      var score := relevance(records[0], keywords[0]);
      (if score <= 0.0 then [] else [records[0].(score := score)]) + Score(records[1..], keywords[1..], relevance)
  }

  function RelevanceTo(embedding: seq<real>, o: Oracles): (Record, real) -> real {
    (r: Record, keyword: real) => Relevance(r, keyword, embedding, o)
  }

  predicate RankLe(a: Record, b: Record) {
    if a.score != b.score then a.score > b.score
    else if a.document.publishTime != b.document.publishTime then a.document.publishTime > b.document.publishTime
    else a.chunk.chunkIndex <= b.chunk.chunkIndex
  }

  function KeywordScores(records: seq<Record>, queryText: string, o: Oracles): seq<real> {
    if records == [] then [] else NormalizeScores(o.bm25(Texts(records), queryText))
  }

  function Rank(records: seq<Record>, queryText: string, embedding: seq<real>, o: Oracles): seq<Record> {
    SortBy(RankLe, Score(records, KeywordScores(records, queryText, o), RelevanceTo(embedding, o)))
  }

  /** Python's `s[:k]`, where a negative `k` counts from the end. */
  function Take<T>(s: seq<T>, k: int): seq<T> {
    if k >= |s| then s else if k >= 0 then s[..k] else if -k >= |s| then [] else s[..|s| + k]
  }

  function Zip(records: seq<Record>, scores: seq<real>): seq<(Record, real)> {
    if records == [] || scores == [] then []
    else [(records[0], scores[0])] + Zip(records[1..], scores[1..])
  }

  predicate ScoreGe(a: (Record, real), b: (Record, real)) { a.1 >= b.1 }

  function Firsts(pairs: seq<(Record, real)>): seq<Record> {
    if pairs == [] then [] else [pairs[0].0] + Firsts(pairs[1..])
  }

  function Rerank(question: string, records: seq<Record>, o: Oracles): (seq<Record>, bool) {
    if o.rerank == None || records == [] then (records, false)
    else
      var scores := o.rerank.value(question, Texts(records));
      if scores == None then (records, false) else (Firsts(SortBy(ScoreGe, Zip(records, scores.value))), true)
  }

  function Numeral(n: int): string { if n < 0 then "-" + ToDecimal(-n) else ToDecimal(n) }

  function ToEvidence(r: Record): Evidence {
    Evidence(r.document.sourceId, r.document.title,
             r.document.sourceId + ANCHOR_MARK + Numeral(r.chunk.chunkIndex),
             r.chunk.text, r.document.publishTime, r.score)
  }

  function Cite(records: seq<Record>): seq<Evidence> {
    seq(|records|, i requires 0 <= i < |records| => ToEvidence(records[i]))
  }

  function JoinAnchors(evidence: seq<Evidence>): string {
    if evidence == [] then ""
    else if |evidence| == 1 then evidence[0].anchor
    else evidence[0].anchor + ", " + JoinAnchors(evidence[1..])
  }

  function Explain(evidence: seq<Evidence>): string {
    if evidence == [] then "No relevant evidence was found, so the explanation is uncertain."
    else "Relevant evidence was found and every returned claim should cite: " + JoinAnchors(evidence) + "."
  }

  function Confidence(n: nat): real {
    if n == 0 then 0.2
    else if 0.55 + n as real * 0.1 < 0.95 then 0.55 + n as real * 0.1 else 0.95
  }

  function QueryText(q: Query): string {
    Strip(q.question + " " + q.metricContext + " " + q.conversationContext)
  }

  function QueryEmbedding(q: Query, o: Oracles): seq<real> {
    if q.queryEmbedding.Some? && q.queryEmbedding.value != [] then q.queryEmbedding.value else o.embed(QueryText(q))
  }

  function Ranked(filtered: seq<Record>, q: Query, o: Oracles): seq<Record> {
    var narrowed := Narrow(filtered, q, QueryEmbedding(q, o), o);
    var ranked := Rank(narrowed, QueryText(q), QueryEmbedding(q, o), o);
    Take(ranked, if q.topK * 2 >= q.topK then q.topK * 2 else q.topK)
  }

  function Selected(filtered: seq<Record>, q: Query, o: Oracles): seq<Record> {
    Take(Dedupe.Dedupe(Rerank(q.question, Ranked(filtered, q, o), o).0), q.topK)
  }

  function RetrieveFrom(filtered: seq<Record>, candidateCount: nat, q: Query, o: Oracles): RetrievalResult {
    var evidence := Cite(Selected(filtered, q, o));
    RetrievalResult(
      evidence, Explain(evidence), Confidence(|evidence|), evidence == [],
      candidateCount,
      |Narrow(filtered, q, QueryEmbedding(q, o), o)|,
      if Rerank(q.question, Ranked(filtered, q, o), o).1 then |Ranked(filtered, q, o)| else 0,
      |evidence|)
  }

  function Retrieve(st: StoreState, q: Query, o: Oracles): RetrievalResult
    requires Consistent(st)
  {
    RetrieveFrom(FilteredRecords(st, q, o.shared), |st.chunks.vals|, q, o)
  }

  // ---- Retrieval depends only on what the requester may read ----

  lemma ChunkOrder()
    ensures TotalPreorder(ChunkLe)
    ensures TotalPreorder(RecordLe)
  {
    StringOrder();
    forall a, b, c | ChunkLe(a, b) && ChunkLe(b, c) ensures ChunkLe(a, c) {
    }
    forall a, b, c | RecordLe(a, b) && RecordLe(b, c) ensures RecordLe(a, c) {
    }
  }

  lemma {:induction false} RecordsOfSorted(st: StoreState, chunks: seq<DocumentChunk>)
    requires KnownSources(st, chunks) && Sorted(ChunkLe, chunks)
    ensures Sorted(RecordLe, RecordsOf(st, chunks))
  {
    RecordsAt(st, chunks);
  }

  lemma {:induction false} RecordsAt(st: StoreState, chunks: seq<DocumentChunk>)
    requires KnownSources(st, chunks)
    ensures |RecordsOf(st, chunks)| == |chunks|
    ensures forall i :: 0 <= i < |chunks| ==> chunks[i] in chunks && RecordsOf(st, chunks)[i] == RecordOf(st, chunks[i])
  {
    if chunks == [] {
    } else {
      RecordsAt(st, chunks[1..]);
    }
  }

  lemma RecordMembers(st: StoreState, a: seq<DocumentChunk>, b: seq<DocumentChunk>)
    requires KnownSources(st, a) && KnownSources(st, b) && forall c :: c in a ==> c in b
    ensures forall r :: r in RecordsOf(st, a) ==> r in RecordsOf(st, b)
  {
    RecordsAt(st, a);
    RecordsAt(st, b);
    forall r | r in RecordsOf(st, a) ensures r in RecordsOf(st, b) {
      var i :| 0 <= i < |a| && RecordsOf(st, a)[i] == r;
      assert a[i] in a && a[i] in b;
      var j :| 0 <= j < |b| && b[j] == a[i];
      assert RecordsOf(st, b)[j] == r;
    }
  }

  function ReadableBy(role: Option<string>, user: string, shared: KnowledgeDocument -> set<string>): Record -> bool {
    (r: Record) => Readable(r.document, role, user, shared)
  }

  /** The records a requester may read, in whatever order the store happens to keep them. */
  function ReadableRecords(st: StoreState, role: Option<string>, user: string,
                           shared: KnowledgeDocument -> set<string>): seq<Record>
    requires Consistent(st)
  {
    StoredSourcesKnown(st);
    Filter(ReadableBy(role, user, shared), RecordsOf(st, st.chunks.Values()))
  }

  ghost predicate UniquePositions(records: seq<Record>) {
    forall a, b | a in records && b in records
      && a.chunk.sourceId == b.chunk.sourceId && a.chunk.chunkIndex == b.chunk.chunkIndex :: a == b
  }

  lemma FilteredSorted(st: StoreState, q: Query, shared: KnowledgeDocument -> set<string>)
    requires Consistent(st)
    ensures Sorted(RecordLe, FilteredRecords(st, q, shared))
  {
    StoredSourcesKnown(st);
    ChunkOrder();
    SortSorts(ChunkLe, st.chunks.Values());
    var chunks := SortBy(ChunkLe, st.chunks.Values());
    RecordsOfSorted(st, chunks);
    FilterSorted(RecordLe, Admits(q, shared), RecordsOf(st, chunks));
  }

  lemma FilteredMembers(st: StoreState, q: Query, shared: KnowledgeDocument -> set<string>)
    requires Consistent(st)
    ensures forall r :: r in FilteredRecords(st, q, shared) <==>
                        r in ReadableRecords(st, q.userRole, q.requestingUserId, shared) && Matches(r.document, q)
  {
    StoredSourcesKnown(st);
    var stored, sorted := st.chunks.Values(), SortBy(ChunkLe, st.chunks.Values());
    SortMembers(ChunkLe, stored);
    RecordMembers(st, stored, sorted);
    RecordMembers(st, sorted, stored);
    FilterMembers(Admits(q, shared), RecordsOf(st, sorted));
    FilterMembers(ReadableBy(q.userRole, q.requestingUserId, shared), RecordsOf(st, stored));
  }

  lemma SortedChunksDistinct(st: StoreState)
    requires Consistent(st)
    ensures Distinct(SortBy(ChunkLe, st.chunks.Values()))
  {
    DistinctValues(st.chunks, (c: DocumentChunk) => c.chunkId);
    SortDistinct(ChunkLe, st.chunks.Values());
  }

  lemma FilteredDistinct(st: StoreState, q: Query, shared: KnowledgeDocument -> set<string>)
    requires Consistent(st)
    ensures Distinct(FilteredRecords(st, q, shared))
  {
    StoredSourcesKnown(st);
    SortedChunksDistinct(st);
    var sorted := SortBy(ChunkLe, st.chunks.Values());
    RecordsAt(st, sorted);
    FilterDistinct(Admits(q, shared), RecordsOf(st, sorted));
  }

  lemma NoTiedRecords(records: seq<Record>, readable: seq<Record>)
    requires UniquePositions(readable) && forall r :: r in records ==> r in readable
    ensures NoTies(RecordLe, records)
  {
    StringOrder();
  }

  lemma OneArrangement(a: seq<Record>, b: seq<Record>)
    requires Sorted(RecordLe, a) && Sorted(RecordLe, b) && NoTies(RecordLe, a)
    requires Distinct(a) && Distinct(b) && forall r :: r in a <==> r in b
    ensures a == b
  {
    ChunkOrder();
    DistinctSameMembers(a, b);
    SortedUnique(RecordLe, a, b);
  }

  /** Same readable records, however stored and in whatever order: same filtered list. */
  lemma SameFilteredRecords(s1: StoreState, s2: StoreState, q: Query, shared: KnowledgeDocument -> set<string>)
    requires Consistent(s1) && Consistent(s2)
    requires var r1, r2 := ReadableRecords(s1, q.userRole, q.requestingUserId, shared),
                           ReadableRecords(s2, q.userRole, q.requestingUserId, shared);
             UniquePositions(r1) && forall r :: r in r1 <==> r in r2
    ensures FilteredRecords(s1, q, shared) == FilteredRecords(s2, q, shared)
  {
    var f1, f2 := FilteredRecords(s1, q, shared), FilteredRecords(s2, q, shared);
    FilteredMembers(s1, q, shared);
    FilteredMembers(s2, q, shared);
    NoTiedRecords(f1, ReadableRecords(s1, q.userRole, q.requestingUserId, shared));
    FilteredDistinct(s1, q, shared);
    FilteredDistinct(s2, q, shared);
    FilteredSorted(s1, q, shared);
    FilteredSorted(s2, q, shared);
    OneArrangement(f1, f2);
  }

  /** Two stores that agree on what this requester may read answer every query of this requester
      alike, whatever else they hold and however they came to hold it; only the size of the store
      shows, in `candidateCount`. */
  lemma RetrievalSeesOnlyReadable(s1: StoreState, s2: StoreState, q: Query, o: Oracles)
    requires Consistent(s1) && Consistent(s2)
    requires var r1, r2 := ReadableRecords(s1, q.userRole, q.requestingUserId, o.shared),
                           ReadableRecords(s2, q.userRole, q.requestingUserId, o.shared);
             UniquePositions(r1) && forall r :: r in r1 <==> r in r2
    ensures Retrieve(s1, q, o) == Retrieve(s2, q, o).(candidateCount := |s1.chunks.vals|)
  {
    SameFilteredRecords(s1, s2, q, o.shared);
  }

  // ---- Relevance stays in (0, 1] ----

  lemma RelevanceBound(r: Record, keyword: real, embedding: seq<real>, o: Oracles)
    requires IsSqrt(o.sqrt) && 0.0 <= keyword <= 1.0
    ensures Relevance(r, keyword, embedding, o) <= 1.0
  {
    var stored := if r.embedding.Some? then r.embedding.value.vector else o.hashEmbedding(r.chunk.text);
    CosineSimilarityRange(o.sqrt, embedding, stored);
    var c := CosineSimilarity(o.sqrt, embedding, stored);
    Round4Unit(keyword * 0.60 + c * 0.35 + SourceWeight(r.document.docType));
  }

  ghost predicate UnitScores(records: seq<Record>) {
    forall r :: r in records ==> 0.0 < r.score <= 1.0
  }

  lemma {:induction false} ScoredInUnit(records: seq<Record>, keywords: seq<real>, relevance: (Record, real) -> real)
    requires forall k :: k in keywords ==> 0.0 <= k <= 1.0
    requires forall r, k :: 0.0 <= k <= 1.0 ==> relevance(r, k) <= 1.0
    ensures UnitScores(Score(records, keywords, relevance))
    decreases |records|
  {
    if records == [] || keywords == [] {
    } else {
      assert keywords[0] in keywords && forall k :: k in keywords[1..] ==> k in keywords;
      ScoredInUnit(records[1..], keywords[1..], relevance);
    }
  }

  lemma RankedInUnit(filtered: seq<Record>, q: Query, o: Oracles)
    requires IsSqrt(o.sqrt)
    ensures UnitScores(Ranked(filtered, q, o))
  {
    var e := QueryEmbedding(q, o);
    var narrowed := Narrow(filtered, q, e, o);
    var keywords := KeywordScores(narrowed, QueryText(q), o);
    NormalizedScores(if narrowed == [] then [] else o.bm25(Texts(narrowed), QueryText(q)));
    forall r, k | 0.0 <= k <= 1.0 ensures RelevanceTo(e, o)(r, k) <= 1.0 {
      RelevanceBound(r, k, e, o);
    }
    ScoredInUnit(narrowed, keywords, RelevanceTo(e, o));
    SortMembers(RankLe, Score(narrowed, keywords, RelevanceTo(e, o)));
    TakeMembers(Rank(narrowed, QueryText(q), e, o), if q.topK * 2 >= q.topK then q.topK * 2 else q.topK);
  }

  lemma TakeMembers<T>(s: seq<T>, k: int)
    ensures forall x :: x in Take(s, k) ==> x in s
  {
  }

  lemma {:induction false} ZipMembers(records: seq<Record>, scores: seq<real>)
    ensures forall p :: p in Zip(records, scores) ==> p.0 in records
    decreases |records|
  {
    if records == [] || scores == [] {
    } else {
      ZipMembers(records[1..], scores[1..]);
    }
  }

  lemma {:induction false} FirstsMembers(pairs: seq<(Record, real)>)
    ensures forall r :: r in Firsts(pairs) ==> exists p :: p in pairs && p.0 == r
  {
    if pairs == [] {
    } else {
      FirstsMembers(pairs[1..]);
      assert pairs[0] in pairs;
      assert forall p :: p in pairs[1..] ==> p in pairs;
    }
  }

  /** Reranking invents no record. */
  lemma RerankMembers(question: string, records: seq<Record>, o: Oracles)
    ensures forall r :: r in Rerank(question, records, o).0 ==> r in records
  {
    if o.rerank.Some? && records != [] {
      var scores := o.rerank.value(question, Texts(records));
      if scores.Some? {
        ZipMembers(records, scores.value);
        var sorted := SortBy(ScoreGe, Zip(records, scores.value));
        SortMembers(ScoreGe, Zip(records, scores.value));
        FirstsMembers(sorted);
      }
    }
  }

  lemma {:induction false} FirstsOfZip(records: seq<Record>, scores: seq<real>)
    ensures Firsts(Zip(records, scores)) == records[..if |records| <= |scores| then |records| else |scores|]
    decreases |records|
  {
    if records == [] || scores == [] {
    } else {
      FirstsOfZip(records[1..], scores[1..]);
    }
  }

  lemma {:induction false} FirstsInsert(x: (Record, real), s: seq<(Record, real)>)
    ensures multiset(Firsts(Insert(ScoreGe, x, s))) == multiset{x.0} + multiset(Firsts(s))
  {
    if s == [] {
    } else if ScoreGe(x, s[0]) {
      assert ([x] + s)[1..] == s;
    } else {
      FirstsInsert(x, s[1..]);
      assert Insert(ScoreGe, x, s)[1..] == Insert(ScoreGe, x, s[1..]);
    }
  }

  lemma {:induction false} FirstsSort(s: seq<(Record, real)>)
    ensures multiset(Firsts(SortBy(ScoreGe, s))) == multiset(Firsts(s))
  {
    if s == [] {
    } else {
      FirstsSort(s[1..]);
      FirstsInsert(s[0], SortBy(ScoreGe, s[1..]));
    }
  }

  /** A scorer that answers permutes the candidates it scored and drops the ones it did not. */
  lemma RerankPermutes(question: string, records: seq<Record>, o: Oracles)
    requires o.rerank.Some? && records != [] && o.rerank.value(question, Texts(records)).Some?
    ensures var n := |o.rerank.value(question, Texts(records)).value|;
            multiset(Rerank(question, records, o).0) == multiset(records[..if |records| <= n then |records| else n])
  {
    var scores := o.rerank.value(question, Texts(records)).value;
    FirstsSort(Zip(records, scores));
    FirstsOfZip(records, scores);
  }

  /** Every returned evidence item has a relevance in (0, 1], so building one never raises. */
  lemma EvidenceRelevanceInUnit(st: StoreState, q: Query, o: Oracles)
    requires Consistent(st) && IsSqrt(o.sqrt)
    ensures forall e :: e in Retrieve(st, q, o).evidence ==> 0.0 < e.relevance <= 1.0
  {
    var filtered := FilteredRecords(st, q, o.shared);
    RankedInUnit(filtered, q, o);
    var reranked := Rerank(q.question, Ranked(filtered, q, o), o).0;
    RerankMembers(q.question, Ranked(filtered, q, o), o);
    Dedupe.ScoresStayInRange(reranked);
    TakeMembers(Dedupe.Dedupe(reranked), q.topK);
    var selected := Selected(filtered, q, o);
    forall i | 0 <= i < |selected| ensures 0.0 < Cite(selected)[i].relevance <= 1.0 {
      assert selected[i] in selected;
    }
  }

  /** Every selected record carries the document of a filtered one. */
  lemma SelectedDocuments(filtered: seq<Record>, q: Query, o: Oracles)
    ensures forall s :: s in Selected(filtered, q, o) ==> exists r :: r in filtered && r.document == s.document
  {
    var reranked := Rerank(q.question, Ranked(filtered, q, o), o).0;
    RankedMembers(filtered, q, o);
    RerankMembers(q.question, Ranked(filtered, q, o), o);
    Dedupe.DocumentsStay(reranked);
    TakeMembers(Dedupe.Dedupe(reranked), q.topK);
    forall s | s in Selected(filtered, q, o) ensures exists r :: r in filtered && r.document == s.document {
      var d :| d in reranked && d.document == s.document;
      assert d in Ranked(filtered, q, o);
      var r :| r in filtered && Rescored(r, d);
    }
  }

  /** Every citation points at a document the requester may read. */
  lemma EvidenceIsReadable(st: StoreState, q: Query, o: Oracles)
    requires Consistent(st)
    ensures forall e :: e in Retrieve(st, q, o).evidence ==>
              exists r :: r in ReadableRecords(st, q.userRole, q.requestingUserId, o.shared)
                          && Matches(r.document, q) && r.document.sourceId == e.sourceId
  {
    var readable := ReadableRecords(st, q.userRole, q.requestingUserId, o.shared);
    var filtered := FilteredRecords(st, q, o.shared);
    FilteredMembers(st, q, o.shared);
    SelectedDocuments(filtered, q, o);
    var selected := Selected(filtered, q, o);
    forall e | e in Cite(selected)
      ensures exists r :: r in readable && Matches(r.document, q) && r.document.sourceId == e.sourceId
    {
      var i :| 0 <= i < |selected| && Cite(selected)[i] == e;
      assert selected[i] in selected;
      var r :| r in filtered && r.document == selected[i].document;
      assert r in readable;
    }
  }

  // ---- Without a reranker the most relevant evidence comes first ----

  lemma RankOrder()
    ensures TotalPreorder(RankLe)
  {
    forall a, b, c | RankLe(a, b) && RankLe(b, c) ensures RankLe(a, c) {
    }
  }

  lemma RankedFalling(filtered: seq<Record>, q: Query, o: Oracles)
    ensures Dedupe.Falling(Ranked(filtered, q, o))
  {
    var e := QueryEmbedding(q, o);
    var narrowed := Narrow(filtered, q, e, o);
    var scored := Score(narrowed, KeywordScores(narrowed, QueryText(q), o), RelevanceTo(e, o));
    RankOrder();
    SortSorts(RankLe, scored);
    var ranked := Ranked(filtered, q, o);
    forall i, j | 0 <= i < j < |ranked| ensures ranked[i].score >= ranked[j].score {
      assert RankLe(SortBy(RankLe, scored)[i], SortBy(RankLe, scored)[j]);
    }
  }

  lemma SelectedFalling(filtered: seq<Record>, q: Query, o: Oracles)
    requires Rerank(q.question, Ranked(filtered, q, o), o).0 == Ranked(filtered, q, o)
    ensures Dedupe.Falling(Selected(filtered, q, o))
  {
    RankedFalling(filtered, q, o);
    Dedupe.FallingStaysFalling(Ranked(filtered, q, o));
    FallingTake(Dedupe.Dedupe(Ranked(filtered, q, o)), q.topK);
  }

  lemma FallingTake(records: seq<Record>, k: int)
    requires Dedupe.Falling(records)
    ensures Dedupe.Falling(Take(records, k))
  {
  }

  lemma FallingEvidence(records: seq<Record>)
    requires Dedupe.Falling(records)
    ensures forall i, j :: 0 <= i < j < |records| ==> Cite(records)[i].relevance >= Cite(records)[j].relevance
  {
  }

  /** Whenever nothing was reranked, the evidence comes in order of falling relevance, merged neighbours included. */
  lemma EvidenceFallsUnlessReranked(st: StoreState, q: Query, o: Oracles)
    requires Consistent(st) && Retrieve(st, q, o).rerankedCount == 0
    ensures var evidence := Retrieve(st, q, o).evidence;
            forall i, j :: 0 <= i < j < |evidence| ==> evidence[i].relevance >= evidence[j].relevance
  {
    var filtered := FilteredRecords(st, q, o.shared);
    assert Rerank(q.question, Ranked(filtered, q, o), o).0 == Ranked(filtered, q, o);
    SelectedFalling(filtered, q, o);
    FallingEvidence(Selected(filtered, q, o));
  }

  /** `s` is `r` with another score. */
  predicate Rescored(r: Record, s: Record) { s == r.(score := s.score) }

  lemma {:induction false} ScoredMembers(records: seq<Record>, keywords: seq<real>, relevance: (Record, real) -> real)
    ensures forall s :: s in Score(records, keywords, relevance) ==> exists r :: r in records && Rescored(r, s)
    decreases |records|
  {
    if records == [] || keywords == [] {
    } else {
      ScoredMembers(records[1..], keywords[1..], relevance);
      assert records[0] in records && forall r :: r in records[1..] ==> r in records;
    }
  }

  lemma RankedMembers(filtered: seq<Record>, q: Query, o: Oracles)
    ensures forall s :: s in Ranked(filtered, q, o) ==> exists r :: r in filtered && Rescored(r, s)
  {
    var e := QueryEmbedding(q, o);
    var narrowed := Narrow(filtered, q, e, o);
    NarrowOnlyNarrows(filtered, q, e, o);
    var keywords := KeywordScores(narrowed, QueryText(q), o);
    ScoredMembers(narrowed, keywords, RelevanceTo(e, o));
    SortMembers(RankLe, Score(narrowed, keywords, RelevanceTo(e, o)));
    TakeMembers(Rank(narrowed, QueryText(q), e, o), if q.topK * 2 >= q.topK then q.topK * 2 else q.topK);
  }

  lemma NarrowOnlyNarrows(records: seq<Record>, q: Query, embedding: seq<real>, o: Oracles)
    ensures forall r :: r in Narrow(records, q, embedding, o) ==> r in records
  {
    if o.candidates.Some? {
      var ids := o.candidates.value(q, embedding);
      if ids.Some? {
        FilterMembers(IsCandidate(ids.value), records);
      }
    }
  }

  // ---- No two records of the pipeline share a position, so a citation is one chunk or two neighbours ----

  predicate SameKey(a: Record, b: Record) {
    a.document.sourceId == b.document.sourceId && a.chunk.chunkIndex == b.chunk.chunkIndex
  }

  lemma KeysOfSet(records: seq<Record>)
    requires Distinct(records) && forall a, b :: a in records && b in records && SameKey(a, b) ==> a == b
    ensures Dedupe.UniqueKeys(records)
  {
    forall i, j | 0 <= i < j < |records| ensures !SameKey(records[i], records[j]) {
      assert records[i] in records && records[j] in records && records[i] != records[j];
    }
  }

  lemma SetOfKeys(records: seq<Record>)
    requires Dedupe.UniqueKeys(records)
    ensures Distinct(records) && forall a, b :: a in records && b in records && SameKey(a, b) ==> a == b
  {
    forall a, b | a in records && b in records && SameKey(a, b) ensures a == b {
      var i :| 0 <= i < |records| && records[i] == a;
      var j :| 0 <= j < |records| && records[j] == b;
      assert i == j;
    }
  }

  lemma FilteredKeys(st: StoreState, q: Query, shared: KnowledgeDocument -> set<string>)
    requires Consistent(st)
    requires UniquePositions(ReadableRecords(st, q.userRole, q.requestingUserId, shared))
    ensures Dedupe.UniqueKeys(FilteredRecords(st, q, shared))
  {
    FilteredDistinct(st, q, shared);
    FilteredMembers(st, q, shared);
    ReadableMembers(st, q.userRole, q.requestingUserId, shared);
    KeysOfSet(FilteredRecords(st, q, shared));
  }

  /** Each readable record is the one of a stored chunk. */
  lemma ReadableMembers(st: StoreState, role: Option<string>, user: string, shared: KnowledgeDocument -> set<string>)
    requires Consistent(st)
    ensures forall r :: r in ReadableRecords(st, role, user, shared) ==>
              && r.chunk.chunkId in st.chunks.vals && st.chunks.vals[r.chunk.chunkId] == r.chunk
              && r == RecordOf(st, r.chunk) && r.document.sourceId == r.chunk.sourceId
  {
    StoredSourcesKnown(st);
    var records := RecordsOf(st, st.chunks.Values());
    FilterMembers(ReadableBy(role, user, shared), records);
    RecordsAt(st, st.chunks.Values());
    ValueMembers(st.chunks);
    forall r | r in ReadableRecords(st, role, user, shared)
      ensures r.chunk.chunkId in st.chunks.vals && st.chunks.vals[r.chunk.chunkId] == r.chunk
      ensures r.chunk.sourceId in st.documents && r == RecordOf(st, r.chunk)
    {
      var i :| 0 <= i < |records| && records[i] == r;
      assert st.chunks.Values()[i] in st.chunks.Values();
    }
  }

  lemma FilteredKeepsKeys(p: Record -> bool, records: seq<Record>)
    requires Dedupe.UniqueKeys(records)
    ensures Dedupe.UniqueKeys(Filter(p, records))
  {
    SetOfKeys(records);
    FilterDistinct(p, records);
    FilterMembers(p, records);
    KeysOfSet(Filter(p, records));
  }

  lemma {:induction false} ScoringKeepsKeys(records: seq<Record>, keywords: seq<real>,
                                            relevance: (Record, real) -> real)
    requires Dedupe.UniqueKeys(records)
    ensures Dedupe.UniqueKeys(Score(records, keywords, relevance))
    decreases |records|
  {
    if records == [] || keywords == [] {
    } else {
      ScoringKeepsKeys(records[1..], keywords[1..], relevance);
      ScoredMembers(records[1..], keywords[1..], relevance);
      var rest := Score(records[1..], keywords[1..], relevance);
      forall j | 0 <= j < |rest| ensures !SameKey(records[0], rest[j]) {
        assert rest[j] in rest;
        var r :| r in records[1..] && Rescored(r, rest[j]);
        var k :| 0 <= k < |records[1..]| && records[1..][k] == r;
        assert records[k + 1] == r;
      }
    }
  }

  lemma PermutingKeepsKeys(a: seq<Record>, b: seq<Record>)
    requires Dedupe.UniqueKeys(a) && multiset(a) == multiset(b)
    ensures Dedupe.UniqueKeys(b)
  {
    SetOfKeys(a);
    SameElements(a, b);
    forall i, j | 0 <= i < j < |b| ensures b[i] != b[j] {
      DistinctMultiplicity(a, b[i]);
      RepeatedTwice(b, i, j);
    }
    KeysOfSet(b);
  }

  lemma NarrowKeepsKeys(records: seq<Record>, q: Query, embedding: seq<real>, o: Oracles)
    requires Dedupe.UniqueKeys(records)
    ensures Dedupe.UniqueKeys(Narrow(records, q, embedding, o))
  {
    if o.candidates.Some? {
      var ids := o.candidates.value(q, embedding);
      if ids.Some? {
        FilteredKeepsKeys(IsCandidate(ids.value), records);
      }
    }
  }

  lemma SortingKeepsKeys(records: seq<Record>)
    requires Dedupe.UniqueKeys(records)
    ensures Dedupe.UniqueKeys(SortBy(RankLe, records))
  {
    SortPermutes(RankLe, records);
    PermutingKeepsKeys(records, SortBy(RankLe, records));
  }

  lemma TakeKeepsKeys(records: seq<Record>, k: int)
    requires Dedupe.UniqueKeys(records)
    ensures Dedupe.UniqueKeys(Take(records, k))
  {
  }

  lemma RankedKeys(filtered: seq<Record>, q: Query, o: Oracles)
    requires Dedupe.UniqueKeys(filtered)
    ensures Dedupe.UniqueKeys(Ranked(filtered, q, o))
  {
    var e := QueryEmbedding(q, o);
    var narrowed := Narrow(filtered, q, e, o);
    NarrowKeepsKeys(filtered, q, e, o);
    var keywords := KeywordScores(narrowed, QueryText(q), o);
    ScoringKeepsKeys(narrowed, keywords, RelevanceTo(e, o));
    SortingKeepsKeys(Score(narrowed, keywords, RelevanceTo(e, o)));
    TakeKeepsKeys(Rank(narrowed, QueryText(q), e, o), if q.topK * 2 >= q.topK then q.topK * 2 else q.topK);
  }

  lemma RerankedKeys(question: string, records: seq<Record>, o: Oracles)
    requires Dedupe.UniqueKeys(records)
    ensures Dedupe.UniqueKeys(Rerank(question, records, o).0)
  {
    if o.rerank.Some? && records != [] && o.rerank.value(question, Texts(records)).Some? {
      var n := |o.rerank.value(question, Texts(records)).value|;
      RerankPermutes(question, records, o);
      PermutingKeepsKeys(records[..if |records| <= n then |records| else n], Rerank(question, records, o).0);
    }
  }

  /** `s` is, up to its score, one of the records or two neighbouring ones of a document joined. */
  ghost predicate Passage(records: seq<Record>, s: Record) {
    || (exists a :: a in records && Rescored(a, s))
    || (exists a, b :: a in records && b in records && Neighbours(a, b) && Rescored(MergeRecords(a, b), s))
  }

  predicate Neighbours(a: Record, b: Record) {
    a.document.sourceId == b.document.sourceId && b.chunk.chunkIndex == a.chunk.chunkIndex + 1
  }

  /** What the merge makes of reranked records. */
  lemma MergedPassages(records: seq<Record>)
    requires Dedupe.UniqueKeys(records)
    ensures forall s :: s in Dedupe.Dedupe(records) ==> Passage(records, s)
  {
    Dedupe.OutputsSingleOrPair(records);
    var out := Dedupe.DedupePlaced(records);
    forall s | s in Dedupe.Dedupe(records) ensures Passage(records, s) {
      var i :| 0 <= i < |out| && out[i].record == s;
      var p := out[i];
      assert p in out;
      if Dedupe.SingleOf(records, p) {
        assert records[p.from[0]] in records && Rescored(records[p.from[0]], s);
      } else {
        var a, b := records[p.from[0]], records[p.from[1]];
        assert s.score == MergeRecords(a, b).score;
        assert a in records && b in records && Neighbours(a, b) && Rescored(MergeRecords(a, b), s);
      }
    }
  }

  lemma PassageFrom(later: seq<Record>, earlier: seq<Record>, s: Record)
    requires Passage(later, s) && forall x :: x in later ==> exists r :: r in earlier && Rescored(r, x)
    ensures Passage(earlier, s)
  {
    if a :| a in later && Rescored(a, s) {
      var r :| r in earlier && Rescored(r, a);
      assert Rescored(r, s);
    } else {
      var a, b :| a in later && b in later && Neighbours(a, b) && Rescored(MergeRecords(a, b), s);
      var x :| x in earlier && Rescored(x, a);
      var y :| y in earlier && Rescored(y, b);
      assert Neighbours(x, y) && Rescored(MergeRecords(x, y), s);
    }
  }

  lemma SelectedPassages(filtered: seq<Record>, q: Query, o: Oracles)
    requires Dedupe.UniqueKeys(filtered)
    ensures forall s :: s in Selected(filtered, q, o) ==> Passage(filtered, s)
  {
    var ranked := Ranked(filtered, q, o);
    var reranked := Rerank(q.question, ranked, o).0;
    RankedKeys(filtered, q, o);
    RankedMembers(filtered, q, o);
    RerankedKeys(q.question, ranked, o);
    RerankMembers(q.question, ranked, o);
    MergedPassages(reranked);
    TakeMembers(Dedupe.Dedupe(reranked), q.topK);
    forall s | s in Selected(filtered, q, o) ensures Passage(filtered, s) {
      PassageFrom(reranked, filtered, s);
    }
  }

  lemma SelectedApart(filtered: seq<Record>, q: Query, o: Oracles, i: nat, j: nat)
    requires Dedupe.UniqueKeys(filtered) && i < j < |Selected(filtered, q, o)|
    ensures var a, b := Selected(filtered, q, o)[i], Selected(filtered, q, o)[j];
            a.document.sourceId == b.document.sourceId ==>
              a.chunk.chunkIndex + 2 <= b.chunk.chunkIndex || b.chunk.chunkIndex + 2 <= a.chunk.chunkIndex
  {
    var ranked := Ranked(filtered, q, o);
    RankedKeys(filtered, q, o);
    RerankedKeys(q.question, ranked, o);
    Dedupe.OutputsApart(Rerank(q.question, ranked, o).0, i, j);
  }
}
