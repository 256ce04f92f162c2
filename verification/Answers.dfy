/** What a retrieval answer means in the plain fields of the query and of the stored documents. */
module Answers {
  import opened Text
  import opened Ordering
  import opened Rounding
  import opened Vectors
  import opened Dicts
  import opened Knowledge
  import opened Retrieval
  import Dedupe

  // ---- What is listed ----

  /** A stored chunk is listed, with its document and its embedding, exactly when its document passes every condition
      of the query: type, dates, tags, role and owner. */
  lemma ListedExactly(st: StoreState, q: Query, shared: KnowledgeDocument -> set<string>, id: string)
    requires Consistent(st) && id in st.chunks.vals
    ensures var c := st.chunks.vals[id];
            var d := st.documents[c.sourceId];
            var embedding := if id in st.embeddings then Some(st.embeddings[id]) else None;
            Record(d, c, embedding, 0.0) in FilteredRecords(st, q, shared) <==>
              && (q.docType == None || d.docType == q.docType.value)
              && (q.docTypes == [] || d.docType in q.docTypes)
              && (q.publishedFrom == None || q.publishedFrom.value <= d.publishTime)
              && (q.publishedTo == None || d.publishTime <= q.publishedTo.value)
              && (forall t :: t in q.tags ==> t in d.tags)
              && (q.userRole == None || d.allowedRoles == [] || q.userRole.value in d.allowedRoles)
              && (d.owner == None
                  || (q.requestingUserId != ""
                      && (d.owner == Some(q.requestingUserId) || q.requestingUserId in shared(d))))
  {
    var d := st.documents[st.chunks.vals[id].sourceId];
    ListedIfAdmitted(st, q, shared, id);
    MatchesMeans(d, q);
  }

  lemma MatchesMeans(d: KnowledgeDocument, q: Query)
    ensures Matches(d, q) <==>
              && (q.docType == None || d.docType == q.docType.value)
              && (q.docTypes == [] || d.docType in q.docTypes)
              && (q.publishedFrom == None || q.publishedFrom.value <= d.publishTime)
              && (q.publishedTo == None || d.publishTime <= q.publishedTo.value)
              && (forall t :: t in q.tags ==> t in d.tags)
  {
  }

  lemma ListedIfAdmitted(st: StoreState, q: Query, shared: KnowledgeDocument -> set<string>, id: string)
    requires Consistent(st) && id in st.chunks.vals
    ensures var r := RecordOf(st, st.chunks.vals[id]);
            r in FilteredRecords(st, q, shared) <==>
              Matches(r.document, q) && Readable(r.document, q.userRole, q.requestingUserId, shared)
  {
    var c := st.chunks.vals[id];
    var r := RecordOf(st, c);
    StoredSourcesKnown(st);
    ValueMembers(st.chunks);
    var chunks := SortBy(ChunkLe, st.chunks.Values());
    SortMembers(ChunkLe, st.chunks.Values());
    RecordsAt(st, chunks);
    FilterMembers(Admits(q, shared), RecordsOf(st, chunks));
    var i :| 0 <= i < |chunks| && chunks[i] == c;
    assert RecordsOf(st, chunks)[i] == r;
  }

  /** Nothing else is listed, and the list goes by source id and then by chunk index. */
  lemma ListedInOrder(st: StoreState, q: Query, shared: KnowledgeDocument -> set<string>)
    requires Consistent(st)
    ensures forall r :: r in FilteredRecords(st, q, shared) ==>
              && r.chunk.chunkId in st.chunks.vals && st.chunks.vals[r.chunk.chunkId] == r.chunk
              && r.chunk.sourceId in st.documents && r.document == st.documents[r.chunk.sourceId]
    ensures var listed := FilteredRecords(st, q, shared);
            forall i, j :: 0 <= i < j < |listed| ==>
              var a, b := listed[i].chunk, listed[j].chunk;
              if a.sourceId == b.sourceId then a.chunkIndex <= b.chunkIndex else StringLe(a.sourceId, b.sourceId)
  {
    FilteredMembers(st, q, shared);
    ReadableMembers(st, q.userRole, q.requestingUserId, shared);
    FilteredSorted(st, q, shared);
    var listed := FilteredRecords(st, q, shared);
    forall i, j | 0 <= i < j < |listed| ensures RecordLe(listed[i], listed[j]) {
    }
  }

  /** Every citation is of a stored document whose roles admit the requester's, which is open, owned by the requester or
      shared with the requester, and which meets the conditions of the query. */
  lemma CitedIsPermitted(st: StoreState, q: Query, o: Oracles, e: Evidence)
    requires Consistent(st) && e in Retrieve(st, q, o).evidence
    ensures e.sourceId in st.documents
    ensures var d := st.documents[e.sourceId];
            && (q.userRole == None || d.allowedRoles == [] || q.userRole.value in d.allowedRoles)
            && (d.owner == None
                || (q.requestingUserId != ""
                    && (d.owner == Some(q.requestingUserId) || q.requestingUserId in o.shared(d))))
            && (q.docType == None || d.docType == q.docType.value)
            && (q.docTypes == [] || d.docType in q.docTypes)
            && (q.publishedFrom == None || q.publishedFrom.value <= d.publishTime)
            && (q.publishedTo == None || d.publishTime <= q.publishedTo.value)
            && (forall t :: t in q.tags ==> t in d.tags)
  {
    EvidenceIsReadable(st, q, o);
    var readable := ReadableRecords(st, q.userRole, q.requestingUserId, o.shared);
    var r :| r in readable && Matches(r.document, q) && r.document.sourceId == e.sourceId;
    ReadableMembers(st, q.userRole, q.requestingUserId, o.shared);
    ReadableIsReadable(st, q.userRole, q.requestingUserId, o.shared, r);
    MatchesMeans(r.document, q);
    assert st.documents[e.sourceId] == r.document;
  }

  lemma ReadableIsReadable(st: StoreState, role: Option<string>, user: string,
                           shared: KnowledgeDocument -> set<string>, r: Record)
    requires Consistent(st) && r in ReadableRecords(st, role, user, shared)
    ensures Readable(r.document, role, user, shared)
  {
    StoredSourcesKnown(st);
    FilterMembers(ReadableBy(role, user, shared), RecordsOf(st, st.chunks.Values()));
  }

  // ---- How relevance comes about ----

  /** What the type of a document adds. */
  lemma SourceWeights(docType: string)
    ensures docType in ["incident", "incident_report"] ==> SourceWeight(docType) == 0.05
    ensures docType in ["release_note", "release_notes"] ==> SourceWeight(docType) == 0.04
    ensures docType in ["support_ticket", "campaign", "finance_report"] ==> SourceWeight(docType) == 0.03
    ensures docType == "report" ==> SourceWeight(docType) == 0.02
    ensures SourceWeight(docType) == 0.01
            || docType in ["incident", "incident_report", "release_note", "release_notes", "support_ticket", "campaign",
                           "finance_report", "report"]
  {
  }

  /** Up to rounding, relevance is 60% keyword score, 35% similarity to the stored vector, or to the hashed one of the
      text when there is none, and the weight of the type. */
  lemma RelevanceIsWeighted(r: Record, keyword: real, embedding: seq<real>, o: Oracles)
    ensures var v := match r.embedding case Some(e) => e.vector case None => o.hashEmbedding(r.chunk.text);
            var exact := 0.6 * keyword + 0.35 * CosineSimilarity(o.sqrt, embedding, v)
                       + SourceWeight(r.document.docType);
            -0.00005 <= Relevance(r, keyword, embedding, o) - exact <= 0.00005
  {
    var v := match r.embedding case Some(e) => e.vector case None => o.hashEmbedding(r.chunk.text);
    Round4Close(keyword * 0.60 + CosineSimilarity(o.sqrt, embedding, v) * 0.35 + SourceWeight(r.document.docType));
  }

  /** A record is dropped for its relevance only when its vector points away from the query's. */
  lemma OnlyOpposedIsDropped(r: Record, keyword: real, embedding: seq<real>, o: Oracles)
    requires keyword >= 0.0 && Relevance(r, keyword, embedding, o) <= 0.0
    ensures var v := match r.embedding case Some(e) => e.vector case None => o.hashEmbedding(r.chunk.text);
            CosineSimilarity(o.sqrt, embedding, v) < 0.0
  {
    RelevanceIsWeighted(r, keyword, embedding, o);
  }

  /** The scoring loop keeps exactly the records with a positive relevance, each with that relevance for its own
      keyword score. */
  lemma {:induction false} ScoredExactly(records: seq<Record>, keywords: seq<real>, relevance: (Record, real) -> real,
                                         s: Record)
    requires |keywords| >= |records|
    ensures s in Score(records, keywords, relevance) <==>
              exists i :: 0 <= i < |records| && s == records[i].(score := relevance(records[i], keywords[i]))
                          && s.score > 0.0
    decreases |records|
  {
    if records == [] {
    } else {
      ScoredExactly(records[1..], keywords[1..], relevance, s);
      assert forall i :: 0 < i < |records| ==> records[i] == records[1..][i - 1] && keywords[i] == keywords[1..][i - 1];
      if s in Score(records[1..], keywords[1..], relevance) {
        var i :| 0 <= i < |records[1..]|
                 && s == records[1..][i].(score := relevance(records[1..][i], keywords[1..][i]));
        assert s == records[i + 1].(score := relevance(records[i + 1], keywords[i + 1]));
      }
    }
  }

  /** Narrowing keeps exactly the vector source's candidates; without a source, or when it fails, everything. */
  lemma NarrowedExactly(records: seq<Record>, q: Query, embedding: seq<real>, o: Oracles, r: Record)
    ensures r in Narrow(records, q, embedding, o) <==>
              r in records
              && (o.candidates == None || o.candidates.value(q, embedding) == None
                  || r.chunk.chunkId in o.candidates.value(q, embedding).value)
  {
    if o.candidates.Some? {
      var ids := o.candidates.value(q, embedding);
      if ids.Some? {
        FilterMembers(IsCandidate(ids.value), records);
      }
    }
  }

  // ---- Reranking ----

  lemma ScoreOrder()
    ensures TotalPreorder(ScoreGe)
  {
  }

  function ScoredAt(score: real): ((Record, real)) -> bool {
    (p: (Record, real)) => p.1 == score
  }

  lemma {:induction false} FirstsAt(pairs: seq<(Record, real)>)
    ensures |Firsts(pairs)| == |pairs| && forall i :: 0 <= i < |pairs| ==> Firsts(pairs)[i] == pairs[i].0
  {
    if pairs != [] {
      FirstsAt(pairs[1..]);
    }
  }

  lemma {:induction false} ZipAt(records: seq<Record>, scores: seq<real>)
    requires |scores| == |records|
    ensures |Zip(records, scores)| == |records|
    ensures forall i :: 0 <= i < |records| ==> Zip(records, scores)[i] == (records[i], scores[i])
    decreases |records|
  {
    if records != [] {
      ZipAt(records[1..], scores[1..]);
    }
  }

  /** Reranking puts the records in the order of falling second-pass scores, equal scores in their old order. */
  lemma RerankedByScore(question: string, records: seq<Record>, o: Oracles) returns (ranked: seq<(Record, real)>)
    requires o.rerank.Some? && records != [] && o.rerank.value(question, Texts(records)).Some?
    requires |o.rerank.value(question, Texts(records)).value| == |records|
    ensures var scores := o.rerank.value(question, Texts(records)).value;
            var pairs := seq(|records|, i requires 0 <= i < |records| => (records[i], scores[i]));
            && multiset(ranked) == multiset(pairs)
            && (forall i, j :: 0 <= i < j < |ranked| ==> ranked[i].1 >= ranked[j].1)
            && (forall score :: Filter(ScoredAt(score), ranked) == Filter(ScoredAt(score), pairs))
    ensures |ranked| == |Rerank(question, records, o).0|
    ensures forall i :: 0 <= i < |ranked| ==> Rerank(question, records, o).0[i] == ranked[i].0
  {
    var scores := o.rerank.value(question, Texts(records)).value;
    var pairs := Zip(records, scores);
    ZipAt(records, scores);
    assert pairs == seq(|records|, i requires 0 <= i < |records| => (records[i], scores[i]));
    ranked := SortBy(ScoreGe, pairs);
    ScoreOrder();
    SortPermutes(ScoreGe, pairs);
    SortSorts(ScoreGe, pairs);
    FirstsAt(ranked);
    forall i, j | 0 <= i < j < |ranked| ensures ScoreGe(ranked[i], ranked[j]) {
    }
    forall score ensures Filter(ScoredAt(score), ranked) == Filter(ScoredAt(score), pairs) {
      SortIsStable(ScoreGe, ScoredAt(score), pairs);
    }
  }

  // ---- The text and the vector of a query ----

  lemma {:induction false} WordsOfConcat(cur: string, a: string, b: string)
    ensures WordsFrom(cur, a + " " + b) == WordsFrom(cur, a) + Words(b)
    decreases |a|
  {
    var text := a + " " + b;
    if a == "" {
      assert text[0] == ' ' && text[1..] == b;
    } else {
      assert text[1..] == a[1..] + " " + b;
      if IsSpace(a[0]) {
        WordsOfConcat("", a[1..], b);
      } else {
        WordsOfConcat(cur + [a[0]], a[1..], b);
      }
    }
  }

  /** What is searched for is the words of the question, then those of the metric and of the conversation context. */
  lemma QueryWords(q: Query)
    ensures Words(QueryText(q)) == Words(q.question) + Words(q.metricContext) + Words(q.conversationContext)
  {
    var text := q.question + " " + q.metricContext + " " + q.conversationContext;
    StripLeftKeepsWords(text);
    StripRightKeepsWords(StripLeft(text));
    WordsOfConcat("", q.question + " " + q.metricContext, q.conversationContext);
    WordsOfConcat("", q.question, q.metricContext);
  }

  /** A query that brings its own vector is answered without embedding its text; any other is answered as if it had
      brought the embedding of its text. */
  lemma OwnVectorIsUsed(st: StoreState, q: Query, o: Oracles, otherEmbed: string -> seq<real>)
    requires Consistent(st)
    ensures q.queryEmbedding.Some? && q.queryEmbedding.value != [] && o.candidates == None ==>
              Retrieve(st, q, o) == Retrieve(st, q, o.(embed := otherEmbed))
    ensures (q.queryEmbedding == None || q.queryEmbedding.value == []) ==> QueryEmbedding(q, o) == o.embed(QueryText(q))
  {
    var other := o.(embed := otherEmbed);
    if q.queryEmbedding.Some? && q.queryEmbedding.value != [] && o.candidates == None {
      SameAnswer(FilteredRecords(st, q, o.shared), |st.chunks.vals|, q, o, other);
    }
  }

  lemma SameAnswer(filtered: seq<Record>, count: nat, q: Query, o: Oracles, other: Oracles)
    requires q.queryEmbedding.Some? && q.queryEmbedding.value != [] && o.candidates == None
    requires other == o.(embed := other.embed)
    ensures RetrieveFrom(filtered, count, q, o) == RetrieveFrom(filtered, count, q, other)
  {
    SameRanked(filtered, q, o, other);
    SameRerank(q.question, Ranked(filtered, q, o), o, other);
  }

  lemma SameRerank(question: string, records: seq<Record>, o: Oracles, other: Oracles)
    requires other == o.(embed := other.embed)
    ensures Rerank(question, records, o) == Rerank(question, records, other)
  {
  }

  lemma SameRanked(filtered: seq<Record>, q: Query, o: Oracles, other: Oracles)
    requires q.queryEmbedding.Some? && q.queryEmbedding.value != [] && o.candidates == None
    requires other == o.(embed := other.embed)
    ensures Ranked(filtered, q, o) == Ranked(filtered, q, other)
  {
    var e := q.queryEmbedding.value;
    SameScores(filtered, KeywordScores(filtered, QueryText(q), o), e, o, other);
  }

  lemma {:induction false} SameScores(records: seq<Record>, keywords: seq<real>, e: seq<real>, o: Oracles,
                                      other: Oracles)
    requires other == o.(embed := other.embed)
    ensures Score(records, keywords, RelevanceTo(e, o)) == Score(records, keywords, RelevanceTo(e, other))
    decreases |records|
  {
    if records != [] && keywords != [] {
      SameScores(records[1..], keywords[1..], e, o, other);
      assert RelevanceTo(e, o)(records[0], keywords[0]) == RelevanceTo(e, other)(records[0], keywords[0]);
    }
  }

  // ---- The figures and the text of an answer ----

  /** Confidence is 20% without evidence and then 65%, 75%, 85% and 95%. */
  lemma ConfidenceSteps(n: nat)
    ensures Confidence(0) == 0.2 && Confidence(1) == 0.65 && Confidence(2) == 0.75 && Confidence(3) == 0.85
    ensures n >= 4 ==> Confidence(n) == 0.95
  {
  }

  lemma TakeLength<T>(s: seq<T>, k: int)
    requires k >= 0
    ensures |Take(s, k)| == if |s| <= k then |s| else k
    ensures forall i :: 0 <= i < |Take(s, k)| ==> Take(s, k)[i] == s[i]
  {
  }

  lemma NarrowedIsNoLonger(records: seq<Record>, q: Query, embedding: seq<real>, o: Oracles)
    ensures |Narrow(records, q, embedding, o)| <= |records|
  {
    if o.candidates.Some? {
      var ids := o.candidates.value(q, embedding);
      if ids.Some? {
        FilterMembers(IsCandidate(ids.value), records);
      }
    }
  }

  /** The reranked window is the top of the records with positive relevance, 2 * topK of them or all: what it leaves
      out ranks no higher than anything in it. */
  lemma WindowIsBest(filtered: seq<Record>, q: Query, o: Oracles) returns (dropped: seq<Record>)
    requires q.topK >= 0
    ensures var e := QueryEmbedding(q, o);
            var narrowed := Narrow(filtered, q, e, o);
            var scored := Score(narrowed, KeywordScores(narrowed, QueryText(q), o), RelevanceTo(e, o));
            var window := Ranked(filtered, q, o);
            && |window| == (if |scored| <= 2 * q.topK then |scored| else 2 * q.topK)
            && multiset(window) + multiset(dropped) == multiset(scored) && Sorted(RankLe, window)
            && forall a, d :: a in window && d in dropped ==> RankLe(a, d)
  {
    var e := QueryEmbedding(q, o);
    var narrowed := Narrow(filtered, q, e, o);
    var scored := Score(narrowed, KeywordScores(narrowed, QueryText(q), o), RelevanceTo(e, o));
    RankOrder();
    SortSorts(RankLe, scored);
    SortPermutes(RankLe, scored);
    var ranked := SortBy(RankLe, scored);
    dropped := FirstIsTop(RankLe, ranked, 2 * q.topK);
    assert Ranked(filtered, q, o) == First(ranked, 2 * q.topK);
  }

  /** Every citation stands for one record of the window, or for two neighbouring ones of a document under the first;
      it shows their text and the larger of their relevances. */
  lemma CitationMeans(filtered: seq<Record>, stored: nat, q: Query, o: Oracles, i: nat) returns (a: Record, b: Record)
    requires Dedupe.UniqueKeys(filtered) && i < |RetrieveFrom(filtered, stored, q, o).evidence|
    ensures a in Ranked(filtered, q, o) && b in Ranked(filtered, q, o)
    ensures var c := RetrieveFrom(filtered, stored, q, o).evidence[i];
            && c.sourceId == a.document.sourceId && c.title == a.document.title
            && c.publishTime == a.document.publishTime
            && c.anchor == a.document.sourceId + "#chunk-"
                           + (if a.chunk.chunkIndex >= 0 then ToDecimal(a.chunk.chunkIndex)
                              else "-" + ToDecimal(-a.chunk.chunkIndex))
            && c.relevance == (if a.score >= b.score then a.score else b.score)
            && if a == b then c.snippet == a.chunk.text
               else b.document.sourceId == a.document.sourceId && b.chunk.chunkIndex == a.chunk.chunkIndex + 1
                    && c.snippet == a.chunk.text + " " + b.chunk.text
  {
    var window := Ranked(filtered, q, o);
    var reranked := Rerank(q.question, window, o).0;
    RankedKeys(filtered, q, o);
    RerankedKeys(q.question, window, o);
    RerankMembers(q.question, window, o);
    Dedupe.OutputsSingleOrPair(reranked);
    var p := Dedupe.DedupePlaced(reranked)[i];
    assert p in Dedupe.DedupePlaced(reranked) && Selected(filtered, q, o)[i] == p.record;
    a := reranked[p.from[0]];
    b := if |p.from| == 2 then reranked[p.from[1]] else a;
  }

  /** The citations are the first `topK` of the merged records, or all of them. */
  lemma CitationsAreFirst(filtered: seq<Record>, stored: nat, q: Query, o: Oracles, merged: seq<Record>)
    requires q.topK >= 0 && merged == Dedupe.Dedupe(Rerank(q.question, Ranked(filtered, q, o), o).0)
    ensures var r := RetrieveFrom(filtered, stored, q, o);
            && |r.evidence| == r.selectedCount == (if |merged| <= q.topK then |merged| else q.topK)
            && forall i :: 0 <= i < |r.evidence| ==> r.evidence[i] == ToEvidence(merged[i])
  {
    TakeLength(merged, q.topK);
  }

  /** The reranked count is that of the window if a reranker scored the texts of the window against the question, else
      nothing was reranked. */
  lemma RerankedIsWindow(filtered: seq<Record>, stored: nat, q: Query, o: Oracles, window: seq<Record>,
                         texts: seq<string>)
    requires |texts| == |window| && forall i :: 0 <= i < |texts| ==> texts[i] == window[i].chunk.text
    requires window == Ranked(filtered, q, o)
    ensures RetrieveFrom(filtered, stored, q, o).rerankedCount
         == if o.rerank.Some? && texts != [] && o.rerank.value(q.question, texts).Some? then |texts| else 0
  {
    assert texts == Texts(window);
  }

  /** The other figures: the chunks stored, the records left after narrowing, and the confidence and the explanation for
      the citations; the answer is uncertain exactly when there are none. */
  lemma FiguresAddUp(filtered: seq<Record>, stored: nat, q: Query, o: Oracles)
    ensures var r := RetrieveFrom(filtered, stored, q, o);
            && r.candidateCount == stored
            && r.filteredCount == |Narrow(filtered, q, QueryEmbedding(q, o), o)| <= |filtered|
            && (r.uncertainty <==> r.evidence == []) && r.confidence == Confidence(|r.evidence|)
            && r.explanation == Explain(r.evidence)
  {
    NarrowedIsNoLonger(filtered, q, QueryEmbedding(q, o), o);
  }

  // ---- Nothing relevant is lost while there is room ----

  lemma ContainsPart(before: string, part: string, after: string)
    ensures Contains(before + part + after, part)
  {
    var text := before + part + after;
    assert text[|before|..|before| + |part|] == part;
    assert OccursAt(text, part, |before|);
  }

  lemma KeptByOutput(records: seq<Record>, p: Dedupe.Placed, k: nat)
    requires k < |records| && k in p.from && (Dedupe.SingleOf(records, p) || Dedupe.PairOf(records, p))
    ensures p.record.document.sourceId == records[k].document.sourceId
    ensures Contains(p.record.chunk.text, records[k].chunk.text)
  {
    var text := records[k].chunk.text;
    if Dedupe.SingleOf(records, p) {
      ContainsPart("", text, "");
      assert "" + text + "" == text;
    } else if p.from[0] == k {
      ContainsPart("", text, " " + records[p.from[1]].chunk.text);
      assert "" + text + (" " + records[p.from[1]].chunk.text) == p.record.chunk.text;
    } else {
      ContainsPart(records[p.from[0]].chunk.text + " ", text, "");
      assert records[p.from[0]].chunk.text + " " + text + "" == p.record.chunk.text;
    }
  }

  lemma KeptByMerge(records: seq<Record>, k: nat) returns (s: Record)
    requires Dedupe.UniqueKeys(records) && k < |records|
    ensures s in Dedupe.Dedupe(records) && s.document.sourceId == records[k].document.sourceId
    ensures Contains(s.chunk.text, records[k].chunk.text)
  {
    var out := Dedupe.DedupePlaced(records);
    Dedupe.EachInputLandsOnce(records, k);
    var i := Dedupe.PositionHeld(out, k);
    Dedupe.OutputsSingleOrPair(records);
    s := out[i].record;
    assert out[i] in out && Dedupe.Dedupe(records)[i] == s;
    KeptByOutput(records, out[i], k);
  }

  lemma {:induction false} ScoreIsNoLonger(records: seq<Record>, keywords: seq<real>,
                                           relevance: (Record, real) -> real)
    ensures |Score(records, keywords, relevance)| <= |records|
    decreases |records|
  {
    if records != [] && keywords != [] {
      ScoreIsNoLonger(records[1..], keywords[1..], relevance);
    }
  }

  lemma EverythingRanked(filtered: seq<Record>, q: Query, o: Oracles)
    requires o.rerank == None && q.topK >= |filtered|
    ensures var e := QueryEmbedding(q, o);
            var narrowed := Narrow(filtered, q, e, o);
            var scored := Score(narrowed, KeywordScores(narrowed, QueryText(q), o), RelevanceTo(e, o));
            && Selected(filtered, q, o) == Dedupe.Dedupe(Ranked(filtered, q, o))
            && forall s :: s in scored ==> s in Ranked(filtered, q, o)
  {
    var e := QueryEmbedding(q, o);
    var narrowed := Narrow(filtered, q, e, o);
    NarrowedIsNoLonger(filtered, q, e, o);
    var keywords := KeywordScores(narrowed, QueryText(q), o);
    var scored := Score(narrowed, keywords, RelevanceTo(e, o));
    ScoreIsNoLonger(narrowed, keywords, RelevanceTo(e, o));
    SortMembers(RankLe, scored);
    SortPermutes(RankLe, scored);
    assert Ranked(filtered, q, o) == SortBy(RankLe, scored);
    MergedIsNoLonger(Ranked(filtered, q, o));
  }

  lemma MergedIsNoLonger(records: seq<Record>)
    ensures |Dedupe.Dedupe(records)| <= |records|
  {
    Dedupe.NoMoreOutputs(records);
  }

  /** Without a reranker, and with room for everything that is listed, each listed record with a positive relevance is
      cited: some citation of its document has its text in the snippet. */
  lemma NothingRelevantIsLost(filtered: seq<Record>, q: Query, o: Oracles, i: nat) returns (s: Record)
    requires Dedupe.UniqueKeys(filtered) && o.rerank == None && q.topK >= |filtered|
    requires var e := QueryEmbedding(q, o);
             var narrowed := Narrow(filtered, q, e, o);
             var keywords := KeywordScores(narrowed, QueryText(q), o);
             i < |narrowed| <= |keywords| && Relevance(narrowed[i], keywords[i], e, o) > 0.0
    ensures s in Selected(filtered, q, o)
    ensures var r := Narrow(filtered, q, QueryEmbedding(q, o), o)[i];
            s.document.sourceId == r.document.sourceId && Contains(s.chunk.text, r.chunk.text)
  {
    var e := QueryEmbedding(q, o);
    var narrowed := Narrow(filtered, q, e, o);
    var keywords := KeywordScores(narrowed, QueryText(q), o);
    var scored := narrowed[i].(score := RelevanceTo(e, o)(narrowed[i], keywords[i]));
    ScoredExactly(narrowed, keywords, RelevanceTo(e, o), scored);
    EverythingRanked(filtered, q, o);
    RankedKeys(filtered, q, o);
    var ranked := Ranked(filtered, q, o);
    var k :| 0 <= k < |ranked| && ranked[k] == scored;
    s := KeptByMerge(ranked, k);
  }

  lemma {:induction false} AnchorsAreJoined(evidence: seq<Evidence>, i: nat) returns (at: nat)
    requires i < |evidence|
    ensures OccursAt(JoinAnchors(evidence), evidence[i].anchor, at)
  {
    var all := JoinAnchors(evidence);
    if |evidence| == 1 {
      at := 0;
    } else {
      var head, rest := evidence[0].anchor + ", ", JoinAnchors(evidence[1..]);
      assert all == head + rest;
      if i == 0 {
        at := 0;
        assert all[0..|evidence[0].anchor|] == evidence[0].anchor;
      } else {
        at := AnchorsAreJoined(evidence[1..], i - 1);
        var n := |evidence[i].anchor|;
        assert all[|head| + at..|head| + at + n] == rest[at..at + n];
        at := |head| + at;
      }
    }
  }

  /** The explanation names the anchor of every citation. */
  lemma ExplanationNamesAll(evidence: seq<Evidence>, i: nat)
    requires i < |evidence|
    ensures Contains(Explain(evidence), evidence[i].anchor)
  {
    var before := "Relevant evidence was found and every returned claim should cite: ";
    var list := JoinAnchors(evidence);
    var at := AnchorsAreJoined(evidence, i);
    var text, n := before + list + ".", |evidence[i].anchor|;
    assert Explain(evidence) == text;
    assert text[|before| + at..|before| + at + n] == list[at..at + n];
    assert OccursAt(text, evidence[i].anchor, |before| + at);
  }
}
