/** rag_repository.py `InMemoryRagRepository` and rag_retrieval.py `InMemoryRagEvidenceStore`. */
module RagStores {
  import opened Text
  import opened Ordering
  import opened Rounding
  import opened Dicts
  import opened ChunkIds
  import opened Tags
  import opened RagIndexing

  /** A document table and a chunk table, as both stores keep them. */
  datatype Tables = Tables(documents: map<string, RagDocument>, chunks: Dict<string, RagChunk>)

  function EmptyTables(): Tables { Tables(map[], Empty()) }

  /** Chunks sit under their own id, and the id is the one indexing gives to (document, position). */
  ghost predicate WellKeyed(t: Tables) {
    && t.chunks.Valid()
    && forall id :: id in t.chunks.vals ==>
         t.chunks.vals[id].chunkId == id && id == ChunkId(t.chunks.vals[id].documentId, t.chunks.vals[id].position)
  }

  function PutChunks(d: Dict<string, RagChunk>, chunks: seq<RagChunk>): Dict<string, RagChunk>
    decreases |chunks|
  {
    if chunks == [] then d
    else PutChunks(d, chunks[..|chunks| - 1]).Put(chunks[|chunks| - 1].chunkId, chunks[|chunks| - 1])
  }

  function AddTo(t: Tables, d: RagDocument, chunks: seq<RagChunk>): Tables {
    Tables(t.documents[d.documentId := d], PutChunks(t.chunks, chunks))
  }

  ghost predicate GoodChunks(documentId: string, chunks: seq<RagChunk>) {
    forall c :: c in chunks ==> c.documentId == documentId && c.chunkId == ChunkId(documentId, c.position)
  }

  lemma {:induction false} PutChunksEffect(t: Tables, documentId: string, chunks: seq<RagChunk>)
    requires WellKeyed(t) && GoodChunks(documentId, chunks)
    ensures WellKeyed(Tables(t.documents, PutChunks(t.chunks, chunks)))
    ensures forall id :: id in PutChunks(t.chunks, chunks).vals ==>
              (id in t.chunks.vals && PutChunks(t.chunks, chunks).vals[id] == t.chunks.vals[id])
              || PutChunks(t.chunks, chunks).vals[id] in chunks
    ensures forall id :: id in t.chunks.vals ==> id in PutChunks(t.chunks, chunks).vals
    decreases |chunks|
  {
    if chunks == [] {
    } else {
      var n := |chunks| - 1;
      assert chunks == chunks[..n] + [chunks[n]];
      assert chunks[n] in chunks;
      PutChunksEffect(t, documentId, chunks[..n]);
      PutValid(PutChunks(t.chunks, chunks[..n]), chunks[n].chunkId, chunks[n]);
    }
  }

  /** Of all writes to an id the last one counts (`i` is its position, or -1 when there is none), and ids that are not
      written stay as they were. */
  lemma {:induction false} LastWriteCounts(d: Dict<string, RagChunk>, chunks: seq<RagChunk>, id: string, i: int)
    requires -1 <= i < |chunks| && (i >= 0 ==> chunks[i].chunkId == id)
    requires forall k :: i < k < |chunks| ==> chunks[k].chunkId != id
    ensures var now := PutChunks(d, chunks).vals;
            if i >= 0 then id in now && now[id] == chunks[i]
            else (id in now <==> id in d.vals) && (id in d.vals ==> now[id] == d.vals[id])
    decreases |chunks|
  {
    if chunks != [] && i < |chunks| - 1 {
      LastWriteCounts(d, chunks[..|chunks| - 1], id, i);
    }
  }

  // ---- The repository ----

  predicate ChunkLe(a: RagChunk, b: RagChunk) {
    if a.documentId == b.documentId then a.position <= b.position else StringLe(a.documentId, b.documentId)
  }

  /** `list_chunks` and the first line of `_stored_chunks`. */
  function SortedChunks(chunks: Dict<string, RagChunk>): seq<RagChunk>
    requires chunks.Valid()
  {
    SortBy(ChunkLe, chunks.Values())
  }

  class InMemoryRagRepository {
    var documents: map<string, RagDocument>
    var chunks: Dict<string, RagChunk>
    var jobs: map<string, IndexJob>

    function Contents(): Tables
      reads this
    {
      Tables(documents, chunks)
    }

    constructor ()
      ensures Contents() == EmptyTables() && jobs == map[]
    {
      documents, chunks, jobs := map[], Empty(), map[];
    }

    method SaveIndexArtifacts(artifacts: IndexArtifacts)
      modifies this
      ensures Contents() == AddTo(old(Contents()), artifacts.document, artifacts.chunks)
      ensures jobs == old(jobs)[artifacts.job.jobId := artifacts.job]
    {
      documents := documents[artifacts.document.documentId := artifacts.document];
      jobs := jobs[artifacts.job.jobId := artifacts.job];
      var all := artifacts.chunks;
      for i := 0 to |all|
        invariant chunks == PutChunks(old(chunks), all[..i])
        invariant documents == old(documents)[artifacts.document.documentId := artifacts.document]
        invariant jobs == old(jobs)[artifacts.job.jobId := artifacts.job]
      {
        assert all[..i + 1][..i] == all[..i];
        chunks := chunks.Put(all[i].chunkId, all[i]);
      }
      assert all[..|all|] == all;
    }

    method SaveJob(job: IndexJob)
      modifies this
      ensures Contents() == old(Contents()) && jobs == old(jobs)[job.jobId := job]
    {
      jobs := jobs[job.jobId := job];
    }
  }

  // ---- The evidence store ----

  datatype TimeWindow = TimeWindow(startAt: Option<int>, endAt: Option<int>) {
    predicate Holds(t: int) {
      (startAt.Some? ==> startAt.value <= t) && (endAt.Some? ==> t <= endAt.value)
    }
  }

  datatype SearchRequest = SearchRequest(
    queryText: string,
    timeWindow: Option<TimeWindow>,
    businessTags: seq<string>,
    permissionTags: seq<string>,
    limit: nat)

  datatype StoredChunk = StoredChunk(document: RagDocument, chunk: RagChunk)

  datatype EvidenceItem = EvidenceItem(
    evidenceId: string,
    documentId: string,
    chunkId: string,
    snippet: string,
    source: string,
    publishedAt: int,
    relevance: real)

  function WithDocuments(documents: map<string, RagDocument>, chunks: seq<RagChunk>): seq<StoredChunk> {
    if chunks == [] then []
    else (if chunks[0].documentId in documents then [StoredChunk(documents[chunks[0].documentId], chunks[0])] else [])
         + WithDocuments(documents, chunks[1..])
  }

  /** `_stored_chunks`: everything a search can ever see of the store. */
  function StoredChunks(t: Tables): seq<StoredChunk>
    requires t.chunks.Valid()
  {
    WithDocuments(t.documents, SortedChunks(t.chunks))
  }

  function Renormalize(tags: set<string>): set<string> {
    set t | t in tags && Strip(t) != "" :: Lower(Strip(t))
  }

  predicate MatchesFilters(d: RagDocument, r: SearchRequest) {
    && (r.timeWindow.Some? ==> r.timeWindow.value.Holds(d.publishedAt))
    && (r.businessTags != [] ==> NormalizeTags(r.businessTags) <= Renormalize(d.businessTags))
    && Renormalize(d.permissionTags) <= NormalizeTags(r.permissionTags)
  }

  /** The filter in plain fields: the time window holds, every business tag asked for is one of the document, and every
      permission tag of the document is one of the requester; tags compare stripped and lower-cased, blank ones never
      count. */
  lemma FilterMeans(d: RagDocument, r: SearchRequest)
    ensures MatchesFilters(d, r) <==>
              && (r.timeWindow.Some? && r.timeWindow.value.startAt.Some? ==>
                    d.publishedAt >= r.timeWindow.value.startAt.value)
              && (r.timeWindow.Some? && r.timeWindow.value.endAt.Some? ==>
                    d.publishedAt <= r.timeWindow.value.endAt.value)
              && (forall u :: u in r.businessTags && !IsBlank(u) ==>
                    exists t :: t in d.businessTags && Lower(Strip(t)) == Lower(Strip(u)))
              && (forall t :: t in d.permissionTags && !IsBlank(t) ==>
                    exists u :: u in r.permissionTags && Lower(Strip(u)) == Lower(Strip(t)))
  {
    TagsWithin(NormalizedOf(r.businessTags), d.businessTags);
    TagsWithin(d.permissionTags, NormalizedOf(r.permissionTags));
    SameTags(r.businessTags);
    SameTags(r.permissionTags);
    if r.businessTags == [] {
      assert NormalizeTags(r.businessTags) == {};
    }
  }

  function NormalizedOf(tags: seq<string>): set<string> { set t | t in tags }

  lemma SameTags(tags: seq<string>)
    ensures Renormalize(NormalizedOf(tags)) == NormalizeTags(tags)
    ensures forall t :: t in NormalizedOf(tags) <==> t in tags
  {
    assert forall t :: t in NormalizedOf(tags) <==> t in tags;
  }

  lemma TagsWithin(a: set<string>, b: set<string>)
    ensures Renormalize(a) <= Renormalize(b) <==>
              forall t :: t in a && !IsBlank(t) ==> exists u :: u in b && Lower(Strip(u)) == Lower(Strip(t))
  {
    forall t ensures Strip(t) != "" <==> !IsBlank(t) {
      BlankIsStripped(t);
    }
    if Renormalize(a) <= Renormalize(b) {
      forall t | t in a && !IsBlank(t) ensures exists u :: u in b && Lower(Strip(u)) == Lower(Strip(t)) {
        assert Lower(Strip(t)) in Renormalize(a);
      }
    }
    if forall t :: t in a && !IsBlank(t) ==> exists u :: u in b && Lower(Strip(u)) == Lower(Strip(t)) {
      forall x | x in Renormalize(a) ensures x in Renormalize(b) {
        var t :| t in a && Strip(t) != "" && Lower(Strip(t)) == x;
        var u :| u in b && Lower(Strip(u)) == Lower(Strip(t));
        assert |Lower(Strip(u))| == |Strip(u)|;
      }
    }
  }

  /** Normalising tags twice is normalising them once. */
  lemma NormalizeTwice(tags: seq<string>)
    ensures Renormalize(NormalizeTags(tags)) == NormalizeTags(tags)
  {
    forall t ensures Strip(Lower(Strip(t))) == Lower(Strip(t)) && Lower(Strip(Lower(Strip(t)))) == Lower(Strip(t)) {
      LowerStripped(t);
    }
    assert forall x :: x in NormalizeTags(tags) ==> |x| > 0;
  }

  function MatchesRequest(r: SearchRequest): StoredChunk -> bool {
    (s: StoredChunk) => MatchesFilters(s.document, r)
  }

  /** `round(min(1.0, overlap / len(query_tokens)), 4)`, or nothing when no token is shared. */
  function Relevance(query: set<string>, chunk: set<string>): Option<real> {
    if query == {} || chunk == {} || query * chunk == {} then None
    else
      var share := |query * chunk| as real / |query| as real;
      Some(Round4(if share < 1.0 then share else 1.0))
  }

  /** Tokens come from a regular expression the model does not open. */
  function RelevanceTo(query: set<string>, tokens: string -> set<string>): StoredChunk -> Option<real> {
    (s: StoredChunk) => Relevance(query, tokens(s.chunk.text))
  }

  function RankInput(chunks: seq<StoredChunk>, relevance: StoredChunk -> Option<real>): seq<(StoredChunk, real)> {
    if chunks == [] then []
    else
      var score := relevance(chunks[0]);
      (if score.Some? then [(chunks[0], score.value)] else []) + RankInput(chunks[1..], relevance)
  }

  predicate RankLe(a: (StoredChunk, real), b: (StoredChunk, real)) {
    if a.1 != b.1 then a.1 > b.1
    else if a.0.document.publishedAt != b.0.document.publishedAt
    then a.0.document.publishedAt > b.0.document.publishedAt
    else a.0.chunk.position <= b.0.chunk.position
  }

  function Snippet(text: string): string {
    var clean := Join(Words(text));
    if |clean| <= 240 then clean else StripRight(clean[..237]) + "..."
  }

  function ToEvidence(ranked: (StoredChunk, real)): EvidenceItem {
    var s := ranked.0;
    EvidenceItem("ev_" + s.chunk.chunkId, s.document.documentId, s.chunk.chunkId, Snippet(s.chunk.text),
                 s.document.source, s.document.publishedAt, ranked.1)
  }

  /** A snippet is the text with its white space collapsed, cut off at 237 characters and an ellipsis when longer
      than 240. */
  lemma SnippetMeans(text: string) returns (cut: string)
    ensures |Snippet(text)| <= 240
    ensures |Join(Words(text))| <= 240 ==> Snippet(text) == Join(Words(text))
    ensures |Join(Words(text))| > 240 ==>
              cut + "..." == Snippet(text) && cut <= Join(Words(text))
              && (cut != "" ==> !IsSpace(cut[|cut| - 1])) && IsBlank(Join(Words(text))[|cut|..237])
  {
    cut := "";
    if |Join(Words(text))| > 240 {
      var head := Join(Words(text))[..237];
      var spaces := RightTrims(head);
      cut := StripRight(head);
      assert head[|cut|..] == spaces && Join(Words(text))[|cut|..237] == spaces;
      assert cut == head[..|cut|] == Join(Words(text))[..|cut|];
    }
  }

  /** The relevance is the share of the query's tokens that the chunk holds, to four decimals; there is none exactly
      when no token is shared. */
  lemma RelevanceIsShare(query: set<string>, chunk: set<string>)
    ensures Relevance(query, chunk) == None <==> forall t :: t in query ==> t !in chunk
    ensures Relevance(query, chunk).Some? ==>
              |query| > 0
              && -0.00005 <= Relevance(query, chunk).value - |query * chunk| as real / |query| as real <= 0.00005
  {
    assert forall t :: t in query * chunk <==> t in query && t in chunk;
    assert query * chunk != {} ==> exists t :: t in query * chunk;
    if query != {} && query * chunk != {} {
      var share := |query * chunk| as real / |query| as real;
      SharedAtMost(query, chunk);
      ShareAtMostOne(|query * chunk|, |query|);
      Round4Close(share);
    }
  }

  lemma SharedAtMost(query: set<string>, chunk: set<string>)
    ensures |query * chunk| <= |query|
  {
    var rest := query - chunk;
    assert query == query * chunk + rest;
  }

  lemma ShareAtMostOne(k: nat, n: nat)
    requires k <= n && n > 0
    ensures k as real / n as real <= 1.0
  {
  }

  /** Everything the filters let through that shares a token with the query, with its relevance. */
  function Scored(stored: seq<StoredChunk>, r: SearchRequest, tokens: string -> set<string>): seq<(StoredChunk, real)> {
    RankInput(Filter(MatchesRequest(r), stored), RelevanceTo(tokens(r.queryText), tokens))
  }

  function RankedHits(stored: seq<StoredChunk>, r: SearchRequest,
                      tokens: string -> set<string>): seq<(StoredChunk, real)>
  {
    First(SortBy(RankLe, Scored(stored, r, tokens)), r.limit)
  }

  function Cite(hits: seq<(StoredChunk, real)>): seq<EvidenceItem> {
    seq(|hits|, i requires 0 <= i < |hits| => ToEvidence(hits[i]))
  }

  function SearchIn(stored: seq<StoredChunk>, r: SearchRequest, tokens: string -> set<string>): seq<EvidenceItem> {
    Cite(RankedHits(stored, r, tokens))
  }

  // ---- A search returns the top of what matches ----

  lemma RankOrder()
    ensures TotalPreorder(RankLe)
  {
    forall a, b, c | RankLe(a, b) && RankLe(b, c) ensures RankLe(a, c) {
    }
  }

  /** This chunk passes the filters of the request and has this relevance for its query. */
  predicate Hit(r: SearchRequest, tokens: string -> set<string>, p: (StoredChunk, real)) {
    MatchesFilters(p.0.document, r) && Relevance(tokens(r.queryText), tokens(p.0.chunk.text)) == Some(p.1)
  }

  lemma {:induction false} RankInputExactly(chunks: seq<StoredChunk>, relevance: StoredChunk -> Option<real>)
    ensures forall p :: p in RankInput(chunks, relevance) <==> p.0 in chunks && relevance(p.0) == Some(p.1)
  {
    if chunks == [] {
    } else {
      RankInputExactly(chunks[1..], relevance);
      assert chunks == [chunks[0]] + chunks[1..];
    }
  }

  lemma ScoredExactly(stored: seq<StoredChunk>, r: SearchRequest, tokens: string -> set<string>)
    ensures forall p :: p in Scored(stored, r, tokens) <==> p.0 in stored && Hit(r, tokens, p)
  {
    FilterMembers(MatchesRequest(r), stored);
    RankInputExactly(Filter(MatchesRequest(r), stored), RelevanceTo(tokens(r.queryText), tokens));
  }

  /** The hits are exactly the stored chunks that match, each as often as it is stored. The search returns the first
      `limit` of them, or all when there are fewer, in rank order, and whatever it drops ranks no higher than
      anything it returns. */
  lemma SearchIsTopRanked(stored: seq<StoredChunk>, r: SearchRequest, tokens: string -> set<string>)
    returns (dropped: seq<(StoredChunk, real)>)
    ensures var scored, found := Scored(stored, r, tokens), RankedHits(stored, r, tokens);
            && (forall p :: p in scored <==> p.0 in stored && Hit(r, tokens, p))
            && |found| == (if |scored| <= r.limit then |scored| else r.limit)
            && Sorted(RankLe, found)
            && (forall i, j :: 0 <= i < j < |found| ==>
                  var a, b := found[i], found[j];
                  a.1 > b.1
                  || (a.1 == b.1 && a.0.document.publishedAt > b.0.document.publishedAt)
                  || (a.1 == b.1 && a.0.document.publishedAt == b.0.document.publishedAt
                      && a.0.chunk.position <= b.0.chunk.position))
            && multiset(found) + multiset(dropped) == multiset(scored)
            && (forall x, y :: x in found && y in dropped ==> RankLe(x, y))
  {
    var scored := Scored(stored, r, tokens);
    ScoredExactly(stored, r, tokens);
    RankOrder();
    SortSorts(RankLe, scored);
    SortPermutes(RankLe, scored);
    dropped := FirstIsTop(RankLe, SortBy(RankLe, scored), r.limit);
    var found := RankedHits(stored, r, tokens);
    forall i, j | 0 <= i < j < |found| ensures RankLe(found[i], found[j]) {
    }
    assert multiset(First(SortBy(RankLe, scored), r.limit) + dropped) == multiset(scored);
  }

  lemma FallingRelevance(hits: seq<(StoredChunk, real)>)
    requires Sorted(RankLe, hits)
    ensures forall i, j :: 0 <= i < j < |hits| ==> Cite(hits)[i].relevance >= Cite(hits)[j].relevance
  {
    forall i, j | 0 <= i < j < |hits| ensures Cite(hits)[i].relevance >= Cite(hits)[j].relevance {
      assert RankLe(hits[i], hits[j]);
    }
  }

  lemma NoLessRelevant(hits: seq<(StoredChunk, real)>, p: (StoredChunk, real))
    requires forall x :: x in hits ==> RankLe(x, p)
    ensures forall e :: e in Cite(hits) ==> e.relevance >= p.1
  {
    forall e | e in Cite(hits) ensures e.relevance >= p.1 {
      var i :| 0 <= i < |hits| && Cite(hits)[i] == e;
      assert hits[i] in hits;
    }
  }

  lemma CitedHit(hits: seq<(StoredChunk, real)>, p: (StoredChunk, real))
    requires p in hits
    ensures ToEvidence(p) in Cite(hits)
  {
    var i :| 0 <= i < |hits| && hits[i] == p;
    assert Cite(hits)[i] == ToEvidence(p);
  }

  /** What a caller sees of that: falling relevance, and a match left out only by a full list of no less relevant
      ones. */
  lemma EvidenceIsTopRanked(stored: seq<StoredChunk>, r: SearchRequest, tokens: string -> set<string>)
    ensures var scored, evidence := Scored(stored, r, tokens), SearchIn(stored, r, tokens);
            && |evidence| == (if |scored| <= r.limit then |scored| else r.limit)
            && (forall i, j :: 0 <= i < j < |evidence| ==> evidence[i].relevance >= evidence[j].relevance)
            && (forall p :: p in scored ==> ToEvidence(p) in evidence
                                            || (|evidence| == r.limit
                                                && forall e :: e in evidence ==> e.relevance >= p.1))
  {
    var scored, found := Scored(stored, r, tokens), RankedHits(stored, r, tokens);
    var dropped := SearchIsTopRanked(stored, r, tokens);
    FallingRelevance(found);
    forall p | p in scored
      ensures ToEvidence(p) in Cite(found)
              || (|found| == r.limit && forall e :: e in Cite(found) ==> e.relevance >= p.1)
    {
      assert p in multiset(found) + multiset(dropped);
      if p in found {
        CitedHit(found, p);
      } else {
        DroppedWhenFull(scored, found, dropped, p);
        NoLessRelevant(found, p);
      }
    }
  }

  lemma DroppedWhenFull(scored: seq<(StoredChunk, real)>, found: seq<(StoredChunk, real)>,
                        dropped: seq<(StoredChunk, real)>, p: (StoredChunk, real))
    requires multiset(found) + multiset(dropped) == multiset(scored) && p in scored && p !in found
    ensures p in dropped && |found| < |scored|
  {
    assert p in multiset(found) + multiset(dropped);
    assert |multiset(found) + multiset(dropped)| == |multiset(scored)|;
  }

  ghost predicate ScoredUpTo(chunks: seq<StoredChunk>, relevance: StoredChunk -> Option<real>, i: nat,
                             scored: seq<(StoredChunk, real)>)
  {
    i <= |chunks| && scored + RankInput(chunks[i..], relevance) == RankInput(chunks, relevance)
  }

  /** One turn of the ranking loop. */
  lemma ScoreOne(chunks: seq<StoredChunk>, relevance: StoredChunk -> Option<real>, i: nat,
                 scored: seq<(StoredChunk, real)>)
    requires i < |chunks| && ScoredUpTo(chunks, relevance, i, scored)
    ensures var score := relevance(chunks[i]);
            ScoredUpTo(chunks, relevance, i + 1, if score.Some? then scored + [(chunks[i], score.value)] else scored)
  {
    var score, rest := relevance(chunks[i]), RankInput(chunks[i + 1..], relevance);
    assert chunks[i..][0] == chunks[i] && chunks[i..][1..] == chunks[i + 1..];
    if score.Some? {
      assert scored + ([(chunks[i], score.value)] + rest) == (scored + [(chunks[i], score.value)]) + rest;
    } else {
      assert [] + rest == rest;
    }
  }

  class InMemoryRagEvidenceStore {
    var documents: map<string, RagDocument>
    var chunks: Dict<string, RagChunk>

    function Contents(): Tables
      reads this
    {
      Tables(documents, chunks)
    }

    constructor ()
      ensures Contents() == EmptyTables()
    {
      documents, chunks := map[], Empty();
    }

    /** False stands for the ValueError a foreign chunk raises; the document and the chunks before it stay. */
    method AddArtifacts(document: RagDocument, newChunks: seq<RagChunk>) returns (ok: bool)
      modifies this
      ensures ok <==> forall c :: c in newChunks ==> c.documentId == document.documentId
      ensures ok ==> Contents() == AddTo(old(Contents()), document, newChunks)
      ensures !ok ==> exists n: nat :: n < |newChunks| && newChunks[n].documentId != document.documentId
                        && Contents() == AddTo(old(Contents()), document, newChunks[..n])
                        && forall k :: 0 <= k < n ==> newChunks[k].documentId == document.documentId
    {
      documents := documents[document.documentId := document];
      for i := 0 to |newChunks|
        invariant chunks == PutChunks(old(chunks), newChunks[..i])
        invariant documents == old(documents)[document.documentId := document]
        invariant forall k :: 0 <= k < i ==> newChunks[k].documentId == document.documentId
      {
        if newChunks[i].documentId != document.documentId {
          assert newChunks[i] in newChunks;
          return false;
        }
        assert newChunks[..i + 1][..i] == newChunks[..i];
        chunks := chunks.Put(newChunks[i].chunkId, newChunks[i]);
      }
      assert newChunks[..|newChunks|] == newChunks;
      return true;
    }

    /** `_rank_chunks` */
    method RankChunks(filtered: seq<StoredChunk>, relevance: StoredChunk -> Option<real>)
      returns (ranked: seq<(StoredChunk, real)>)
      ensures ranked == SortBy(RankLe, RankInput(filtered, relevance))
    {
      ranked := [];
      assert filtered[0..] == filtered;
      for i := 0 to |filtered|
        invariant ScoredUpTo(filtered, relevance, i, ranked)
      {
        ScoreOne(filtered, relevance, i, ranked);
        var score := relevance(filtered[i]);
        if score.Some? {
          ranked := ranked + [(filtered[i], score.value)];
        }
      }
      assert filtered[|filtered|..] == [] && ranked + [] == ranked;
      assert ranked == RankInput(filtered, relevance);
      ranked := SortBy(RankLe, ranked);
    }

    /** The answer depends on the stored chunks and their documents alone, comes in order of falling relevance, and
        leaves a match out only when the list is full of chunks that are no less relevant. */
    method Search(r: SearchRequest, tokens: string -> set<string>) returns (evidence: seq<EvidenceItem>)
      requires chunks.Valid()
      ensures evidence == SearchIn(StoredChunks(Contents()), r, tokens)
      ensures var scored := Scored(StoredChunks(Contents()), r, tokens);
              && |evidence| == (if |scored| <= r.limit then |scored| else r.limit)
              && (forall i, j :: 0 <= i < j < |evidence| ==> evidence[i].relevance >= evidence[j].relevance)
              && (forall p :: p in scored ==> ToEvidence(p) in evidence
                                              || (|evidence| == r.limit
                                                  && forall e :: e in evidence ==> e.relevance >= p.1))
    {
      var stored := StoredChunks(Contents());
      var ranked := RankChunks(Filter(MatchesRequest(r), stored), RelevanceTo(tokens(r.queryText), tokens));
      var selected := First(ranked, r.limit);
      EvidenceIsTopRanked(stored, r, tokens);
      return Cite(selected);
    }
  }

  /** Every returned item is of a document that passes the request's filters, with relevance in [0, 1]. */
  lemma SearchReturnsPermitted(stored: seq<StoredChunk>, r: SearchRequest, tokens: string -> set<string>)
    ensures |SearchIn(stored, r, tokens)| <= r.limit
    ensures forall e :: e in SearchIn(stored, r, tokens) ==>
              0.0 <= e.relevance <= 1.0
              && exists s :: s in stored && MatchesFilters(s.document, r)
                   && Relevance(tokens(r.queryText), tokens(s.chunk.text)) == Some(e.relevance)
                   && e == EvidenceItem("ev_" + s.chunk.chunkId, s.document.documentId, s.chunk.chunkId,
                                        Snippet(s.chunk.text), s.document.source, s.document.publishedAt, e.relevance)
  {
    var dropped := SearchIsTopRanked(stored, r, tokens);
    var hits, found := RankedHits(stored, r, tokens), SearchIn(stored, r, tokens);
    forall i | 0 <= i < |found|
      ensures 0.0 <= found[i].relevance <= 1.0
      ensures exists s :: s in stored && MatchesFilters(s.document, r)
                && Relevance(tokens(r.queryText), tokens(s.chunk.text)) == Some(found[i].relevance)
                && found[i] == EvidenceItem("ev_" + s.chunk.chunkId, s.document.documentId, s.chunk.chunkId,
                                            Snippet(s.chunk.text), s.document.source, s.document.publishedAt,
                                            found[i].relevance)
    {
      assert hits[i] in multiset(hits) && hits[i] in multiset(hits) + multiset(dropped);
      assert hits[i] in Scored(stored, r, tokens);
      assert hits[i].0 in stored && MatchesFilters(hits[i].0.document, r) && found[i] == ToEvidence(hits[i]);
      RelevanceInUnit(tokens(r.queryText), tokens(hits[i].0.chunk.text));
    }
  }

  lemma RelevanceInUnit(query: set<string>, chunk: set<string>)
    ensures Relevance(query, chunk).Some? ==> 0.0 <= Relevance(query, chunk).value <= 1.0
  {
    if query != {} {
      var share := |query * chunk| as real / |query| as real;
      Round4Unit(if share < 1.0 then share else 1.0);
    }
  }

  // ---- The view a search has of the chunk table does not depend on insertion order ----

  lemma ChunkOrder()
    ensures TotalPreorder(ChunkLe)
  {
    StringOrder();
    forall a, b, c | ChunkLe(a, b) && ChunkLe(b, c) ensures ChunkLe(a, c) {
    }
  }

  lemma SortedChunksByContents(a: Dict<string, RagChunk>, b: Dict<string, RagChunk>)
    requires WellKeyed(Tables(map[], a)) && WellKeyed(Tables(map[], b)) && a.vals == b.vals
    ensures SortedChunks(a) == SortedChunks(b)
    ensures forall i, j :: 0 <= i < j < |SortedChunks(a)| ==>
              var x, y := SortedChunks(a)[i], SortedChunks(a)[j];
              if x.documentId == y.documentId then x.position <= y.position else StringLe(x.documentId, y.documentId)
  {
    DistinctValues(a, (c: RagChunk) => c.chunkId);
    DistinctValues(b, (c: RagChunk) => c.chunkId);
    ValueMembers(a);
    ValueMembers(b);
    DistinctSameMembers(a.Values(), b.Values());
    ChunkOrder();
    StringOrder();
    SortOfPermutation(ChunkLe, a.Values(), b.Values());
    SortSorts(ChunkLe, a.Values());
    forall i, j | 0 <= i < j < |SortedChunks(a)| ensures ChunkLe(SortedChunks(a)[i], SortedChunks(a)[j]) {
    }
  }
}
