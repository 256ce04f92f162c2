/** embedding_vector_rag.py: strided chunks and the permission-filtered in-memory vector store. */
module VectorStore {
  import opened Text
  import opened Ordering
  import opened Rounding
  import opened Vectors
  import opened Dicts
  import opened ChunkIds
  import opened Tags
  import Chunking

  datatype Status = Active | Deleted | Disabled

  /** `policyTags` is the policy's `permission_tags` when that is a tuple of strings, else None. */
  datatype DocumentRecord = DocumentRecord(
    documentId: string,
    orgId: string,
    title: string,
    sourceType: string,
    version: string,
    policyTags: Option<seq<string>>,
    status: Status)

  datatype VectorChunk = VectorChunk(
    chunkId: string,
    documentId: string,
    orgId: string,
    text: string,
    tokenCount: nat,
    section: string)

  datatype Evidence = Evidence(chunk: VectorChunk, title: string, sourceType: string, version: string, score: real)

  datatype State = State(
    documents: map<string, DocumentRecord>,
    chunks: Dict<string, VectorChunk>,
    vectors: map<string, seq<real>>)

  ghost predicate Consistent(st: State) {
    && st.chunks.Valid()
    && forall id :: id in st.chunks.vals ==> st.chunks.vals[id].chunkId == id
  }

  // ---- chunk_document ----

  function ChunkAt(d: DocumentRecord, windows: seq<seq<string>>, i: nat): VectorChunk
    requires i < |windows|
  {
    VectorChunk(ChunkId(d.documentId, i + 1), d.documentId, d.orgId, Join(windows[i]), |windows[i]|,
                "section-" + ToDecimal(i + 1))
  }

  /** The strided loop cuts the same words into the same chunks as the overlapping one with overlap 0. */
  method ChunkDocument(d: DocumentRecord, words: seq<string>, tokenLimit: int) returns (r: Option<seq<VectorChunk>>)
    ensures r.Some? <==> tokenLimit > 0
    ensures r.Some? ==> var windows := Chunking.Chunks(words, tokenLimit, 0);
                        |r.value| == |windows|
                        && forall i :: 0 <= i < |windows| ==>
                             r.value[i] == VectorChunk(d.documentId + "_chunk_" + ToDecimal(i + 1), d.documentId,
                                                       d.orgId, Join(windows[i]), |windows[i]|,
                                                       "section-" + ToDecimal(i + 1))
  {
    if tokenLimit <= 0 {
      return None;
    }
    ghost var windows := Chunking.Chunks(words, tokenLimit, 0);
    var chunks: seq<VectorChunk> := [];
    var position, start := 1, 0;
    Chunking.ChunkClosedForm(words, tokenLimit, 0, 0);
    while start < |words|
      invariant position == |chunks| + 1 && start == |chunks| * tokenLimit
      invariant |chunks| <= |windows|
      invariant start < |words| <==> |chunks| < |windows|
      invariant forall i :: 0 <= i < |chunks| ==> chunks[i] == ChunkAt(d, windows, i)
      decreases |words| - start
    {
      Chunking.ChunkClosedForm(words, tokenLimit, 0, |chunks|);
      var chunkWords := words[start..if start + tokenLimit <= |words| then start + tokenLimit else |words|];
      chunks := chunks + [VectorChunk(ChunkId(d.documentId, position), d.documentId, d.orgId, Join(chunkWords),
                                      |chunkWords|, "section-" + ToDecimal(position))];
      Chunking.StepIndex(|chunks| - 1, tokenLimit);
      position := position + 1;
      start := start + tokenLimit;
    }
    return Some(chunks);
  }

  // ---- Permission tags ----

  function PolicyTags(d: DocumentRecord): set<string> {
    if d.policyTags.Some? then NormalizeTags(d.policyTags.value) else {}
  }

  predicate Allowed(st: State, c: VectorChunk, org: string, tags: seq<string>) {
    && c.documentId in st.documents
    && var d := st.documents[c.documentId];
       d.orgId == org && c.orgId == org && d.status == Active && PolicyTags(d) <= NormalizeTags(tags)
  }

  // ---- search ----

  /** An allowed chunk, its document and its similarity to the query. */
  datatype Hit = Hit(chunk: VectorChunk, document: DocumentRecord, score: real)

  function HitsOf(st: State, chunks: seq<VectorChunk>, org: string, query: seq<real>, tags: seq<string>,
                  sqrt: real -> real): seq<Hit>
  {
    if chunks == [] then []
    else
      var c := chunks[0];
      (if Allowed(st, c, org, tags)
       then [Hit(c, st.documents[c.documentId],
                 ClippedCosine(sqrt, query, if c.chunkId in st.vectors then st.vectors[c.chunkId] else []))]
       else [])
      + HitsOf(st, chunks[1..], org, query, tags, sqrt)
  }

  function Hits(st: State, org: string, query: seq<real>, tags: seq<string>, sqrt: real -> real): seq<Hit>
    requires Consistent(st)
  {
    HitsOf(st, st.chunks.Values(), org, query, tags, sqrt)
  }

  predicate HitLe(a: Hit, b: Hit) {
    if a.score != b.score then a.score > b.score
    else if a.chunk.documentId != b.chunk.documentId then StringLe(b.chunk.documentId, a.chunk.documentId)
    else StringLe(b.chunk.chunkId, a.chunk.chunkId)
  }

  predicate Positive(h: Hit) { h.score > 0.0 }

  function ToEvidence(h: Hit): Evidence {
    Evidence(h.chunk, h.document.title, h.document.sourceType, h.document.version, Round4(h.score))
  }

  function Cite(hits: seq<Hit>): seq<Evidence> {
    seq(|hits|, i requires 0 <= i < |hits| => ToEvidence(hits[i]))
  }

  datatype SearchError = BadTraceId | BlankOrg | BadLimit

  function SelectedHits(st: State, org: string, query: seq<real>, tags: seq<string>, limit: nat,
                        sqrt: real -> real): seq<Hit>
    requires Consistent(st)
  {
    Filter(Positive, First(SortBy(HitLe, Hits(st, org, query, tags, sqrt)), limit))
  }

  // ---- The class ----

  datatype UpsertError = LengthMismatch | UnknownDocument(documentId: string) | OrgMismatch

  /** The state after the first `n` chunks and vectors have been written. */
  function Stored(st: State, chunks: seq<VectorChunk>, vectors: seq<seq<real>>, n: nat): State
    requires n <= |chunks| && n <= |vectors|
  {
    if n == 0 then st
    else
      var before := Stored(st, chunks, vectors, n - 1);
      var c := chunks[n - 1];
      before.(chunks := before.chunks.Put(c.chunkId, c), vectors := before.vectors[c.chunkId := vectors[n - 1]])
  }

  lemma {:induction false} StoredConsistent(st: State, chunks: seq<VectorChunk>, vectors: seq<seq<real>>, n: nat)
    requires Consistent(st) && n <= |chunks| && n <= |vectors|
    ensures Consistent(Stored(st, chunks, vectors, n)) && Stored(st, chunks, vectors, n).documents == st.documents
  {
    if n > 0 {
      StoredConsistent(st, chunks, vectors, n - 1);
      PutValid(Stored(st, chunks, vectors, n - 1).chunks, chunks[n - 1].chunkId, chunks[n - 1]);
    }
  }

  /** Of all writes to an id the last one counts (`i` is its position, or -1 when there is none): chunk and vector are
      the ones given together, and ids that are not written stay as they were. */
  lemma {:induction false} LastWriteCounts(st: State, chunks: seq<VectorChunk>, vectors: seq<seq<real>>, n: nat,
                                           id: string, i: int)
    requires n <= |chunks| && n <= |vectors| && -1 <= i < n && (i >= 0 ==> chunks[i].chunkId == id)
    requires forall k :: i < k < n ==> chunks[k].chunkId != id
    ensures var now := Stored(st, chunks, vectors, n);
            if i >= 0
            then id in now.chunks.vals && now.chunks.vals[id] == chunks[i]
                 && id in now.vectors && now.vectors[id] == vectors[i]
            else (id in now.chunks.vals <==> id in st.chunks.vals) && (id in now.vectors <==> id in st.vectors)
                 && (id in st.chunks.vals ==> now.chunks.vals[id] == st.chunks.vals[id])
                 && (id in st.vectors ==> now.vectors[id] == st.vectors[id])
  {
    if n > 0 && i < n - 1 {
      LastWriteCounts(st, chunks, vectors, n - 1, id, i);
    }
  }

  class InMemoryVectorStore {
    var documents: map<string, DocumentRecord>
    var chunks: Dict<string, VectorChunk>
    var vectors: map<string, seq<real>>

    function Contents(): State
      reads this
    {
      State(documents, chunks, vectors)
    }

    constructor ()
      ensures Consistent(Contents()) && documents == map[] && chunks == Empty() && vectors == map[]
    {
      documents, chunks, vectors := map[], Empty(), map[];
    }

    method UpsertDocument(d: DocumentRecord)
      modifies this
      ensures Contents() == old(Contents()).(documents := old(documents)[d.documentId := d])
    {
      documents := documents[d.documentId := d];
    }

    /** A refused chunk stops the loop; the `n` chunks before it stay written. */
    method UpsertChunks(newChunks: seq<VectorChunk>, newVectors: seq<seq<real>>)
      returns (r: Result<(), UpsertError>, ghost n: nat)
      requires Consistent(Contents())
      modifies this
      ensures Consistent(Contents())
      ensures n <= |newChunks| && n <= |newVectors|
      ensures Contents() == Stored(old(Contents()), newChunks, newVectors, n)
      ensures |newChunks| != |newVectors| ==> r == Err(LengthMismatch) && n == 0
      ensures r.Ok? ==> n == |newChunks| == |newVectors|
      ensures forall i :: 0 <= i < n ==>
                newChunks[i].documentId in old(documents)
                && old(documents)[newChunks[i].documentId].orgId == newChunks[i].orgId
      ensures r.Err? && |newChunks| == |newVectors| ==>
                n < |newChunks|
                && if newChunks[n].documentId !in old(documents)
                   then r.error == UnknownDocument(newChunks[n].documentId)
                   else r.error == OrgMismatch
                        && old(documents)[newChunks[n].documentId].orgId != newChunks[n].orgId
    {
      n := 0;
      if |newChunks| != |newVectors| {
        return Err(LengthMismatch), 0;
      }
      ghost var before := Contents();
      for i := 0 to |newChunks|
        invariant n == i && Contents() == Stored(before, newChunks, newVectors, i)
        invariant documents == before.documents
        invariant forall k :: 0 <= k < i ==>
                    newChunks[k].documentId in before.documents
                    && before.documents[newChunks[k].documentId].orgId == newChunks[k].orgId
      {
        StoredConsistent(before, newChunks, newVectors, i);
        var chunk := newChunks[i];
        if chunk.documentId !in documents {
          return Err(UnknownDocument(chunk.documentId)), i;
        }
        if documents[chunk.documentId].orgId != chunk.orgId {
          return Err(OrgMismatch), i;
        }
        chunks := chunks.Put(chunk.chunkId, chunk);
        vectors := vectors[chunk.chunkId := newVectors[i]];
        n := n + 1;
      }
      StoredConsistent(before, newChunks, newVectors, |newChunks|);
      return Ok(()), |newChunks|;
    }

    method Search(traceId: string, org: string, query: seq<real>, tags: seq<string>, limit: int, sqrt: real -> real)
      returns (r: Result<seq<Evidence>, SearchError>)
      requires Consistent(Contents())
      ensures r.Ok? <==> "trc_" <= traceId && !IsBlank(org) && 1 <= limit <= 20
      ensures !("trc_" <= traceId) ==> r == Err(BadTraceId)
      ensures "trc_" <= traceId && IsBlank(org) ==> r == Err(BlankOrg)
      ensures r.Ok? ==>
                var found := SelectedHits(Contents(), org, query, tags, limit, sqrt);
                && r.value == Cite(found) && |r.value| == |found|
                && forall i :: 0 <= i < |found| ==>
                     var h := found[i];
                     r.value[i] == Evidence(h.chunk, h.document.title, h.document.sourceType, h.document.version,
                                            Round4(h.score))
    {
      if !("trc_" <= traceId) {
        return Err(BadTraceId);
      }
      if IsBlank(org) {
        return Err(BlankOrg);
      }
      if !(1 <= limit <= 20) {
        return Err(BadLimit);
      }
      var ranked := SortBy(HitLe, Hits(Contents(), org, query, tags, sqrt));
      return Ok(Cite(Filter(Positive, First(ranked, limit))));
    }
  }

  // ---- search is the top `limit` of the positive allowed chunks, whatever the insertion order ----

  lemma HitOrder()
    ensures TotalPreorder(HitLe)
  {
    StringOrder();
    forall a, b, c | HitLe(a, b) && HitLe(b, c) ensures HitLe(a, c) {
    }
  }

  lemma {:induction false} HitMembers(st: State, chunks: seq<VectorChunk>, org: string, query: seq<real>,
                                      tags: seq<string>, sqrt: real -> real)
    ensures forall h :: h in HitsOf(st, chunks, org, query, tags, sqrt) ==>
              h.chunk in chunks && Allowed(st, h.chunk, org, tags)
              && h == Hit(h.chunk, st.documents[h.chunk.documentId],
                       ClippedCosine(sqrt, query,
                                     if h.chunk.chunkId in st.vectors then st.vectors[h.chunk.chunkId] else []))
    ensures Distinct(chunks) ==> Distinct(HitsOf(st, chunks, org, query, tags, sqrt))
  {
    if chunks == [] {
    } else {
      HitMembers(st, chunks[1..], org, query, tags, sqrt);
      if Distinct(chunks) {
        assert chunks[0] !in chunks[1..];
      }
    }
  }

  lemma HitsAreRanked(st: State, org: string, query: seq<real>, tags: seq<string>, sqrt: real -> real)
    requires Consistent(st)
    ensures Distinct(Hits(st, org, query, tags, sqrt)) && NoTies(HitLe, Hits(st, org, query, tags, sqrt))
  {
    var hits := Hits(st, org, query, tags, sqrt);
    DistinctValues(st.chunks, (c: VectorChunk) => c.chunkId);
    ValueMembers(st.chunks);
    HitMembers(st, st.chunks.Values(), org, query, tags, sqrt);
    StringOrder();
    forall a, b | a in hits && b in hits && HitLe(a, b) && HitLe(b, a) ensures a == b {
      assert a.chunk.chunkId == b.chunk.chunkId;
    }
  }

  /** Two stores with the same allowed chunks answer alike, whatever else they hold and in whatever
      order the chunks went in. */
  lemma SearchIgnoresOrder(s1: State, s2: State, org: string, query: seq<real>, tags: seq<string>, limit: nat,
                           sqrt: real -> real)
    requires Consistent(s1) && Consistent(s2)
    requires forall h :: h in Hits(s1, org, query, tags, sqrt) <==> h in Hits(s2, org, query, tags, sqrt)
    ensures SelectedHits(s1, org, query, tags, limit, sqrt) == SelectedHits(s2, org, query, tags, limit, sqrt)
  {
    var h1, h2 := Hits(s1, org, query, tags, sqrt), Hits(s2, org, query, tags, sqrt);
    HitsAreRanked(s1, org, query, tags, sqrt);
    HitsAreRanked(s2, org, query, tags, sqrt);
    DistinctSameMembers(h1, h2);
    HitOrder();
    SortOfPermutation(HitLe, h1, h2);
  }

  lemma {:induction false} HitsHold(st: State, chunks: seq<VectorChunk>, org: string, query: seq<real>,
                                    tags: seq<string>, sqrt: real -> real, c: VectorChunk)
    requires c in chunks && Allowed(st, c, org, tags)
    ensures var v := if c.chunkId in st.vectors then st.vectors[c.chunkId] else [];
            Hit(c, st.documents[c.documentId], ClippedCosine(sqrt, query, v))
              in HitsOf(st, chunks, org, query, tags, sqrt)
  {
    if c != chunks[0] {
      HitsHold(st, chunks[1..], org, query, tags, sqrt, c);
    }
  }

  lemma TagsMean(d: DocumentRecord, tags: seq<string>)
    ensures PolicyTags(d) <= NormalizeTags(tags) <==>
              (d.policyTags.Some? ==>
                 forall t :: t in d.policyTags.value && !IsBlank(t) ==>
                   exists u :: u in tags && Lower(Strip(u)) == Lower(Strip(t)))
  {
    forall t ensures Strip(t) != "" <==> !IsBlank(t) {
      BlankIsStripped(t);
    }
    if d.policyTags.Some? {
      if PolicyTags(d) <= NormalizeTags(tags) {
        forall t | t in d.policyTags.value && !IsBlank(t)
          ensures exists u :: u in tags && Lower(Strip(u)) == Lower(Strip(t))
        {
          assert Lower(Strip(t)) in PolicyTags(d);
        }
      }
      if forall t :: t in d.policyTags.value && !IsBlank(t) ==>
           exists u :: u in tags && Lower(Strip(u)) == Lower(Strip(t))
      {
        forall x | x in PolicyTags(d) ensures x in NormalizeTags(tags) {
          var t :| t in d.policyTags.value && Strip(t) != "" && Lower(Strip(t)) == x;
          var u :| u in tags && Lower(Strip(u)) == Lower(Strip(t));
          assert |Lower(Strip(u))| == |Strip(u)|;
        }
      }
    }
  }

  /** A stored chunk is a hit, with its document and its similarity to the query, exactly when chunk and document belong
      to the organisation, the document is active, and the requester has every tag of its policy; tags compare
      stripped and lower-cased, blank ones do not count. */
  lemma HitsExactly(st: State, org: string, query: seq<real>, tags: seq<string>, sqrt: real -> real, id: string)
    requires Consistent(st) && id in st.chunks.vals
    ensures var c := st.chunks.vals[id];
            var v := if id in st.vectors then st.vectors[id] else [];
            (c.documentId in st.documents
             && Hit(c, st.documents[c.documentId], ClippedCosine(sqrt, query, v)) in Hits(st, org, query, tags, sqrt))
            <==>
              && c.documentId in st.documents && c.orgId == org
              && st.documents[c.documentId].orgId == org && st.documents[c.documentId].status == Active
              && (st.documents[c.documentId].policyTags.Some? ==>
                    forall t :: t in st.documents[c.documentId].policyTags.value && !IsBlank(t) ==>
                      exists u :: u in tags && Lower(Strip(u)) == Lower(Strip(t)))
    ensures forall h :: h in Hits(st, org, query, tags, sqrt) ==>
              h.chunk.chunkId in st.chunks.vals && st.chunks.vals[h.chunk.chunkId] == h.chunk
  {
    var c := st.chunks.vals[id];
    ValueMembers(st.chunks);
    HitMembers(st, st.chunks.Values(), org, query, tags, sqrt);
    if c.documentId in st.documents {
      TagsMean(st.documents[c.documentId], tags);
    }
    if Allowed(st, c, org, tags) {
      HitsHold(st, st.chunks.Values(), org, query, tags, sqrt, c);
    }
  }

  /** In a ranked list nothing positive follows a hit that is not. */
  lemma NothingAfterNonPositive(s: seq<Hit>)
    requires s != [] && Sorted(HitLe, s) && !Positive(s[0])
    ensures forall h :: h in s ==> !Positive(h)
  {
    forall h | h in s ensures !Positive(h) {
      var i :| 0 <= i < |s| && s[i] == h;
      assert i > 0 ==> HitLe(s[0], s[i]);
    }
  }

  lemma {:induction false} PositivesFirst(s: seq<Hit>, n: nat)
    requires Sorted(HitLe, s)
    ensures Filter(Positive, First(s, n)) == First(Filter(Positive, s), n)
  {
    if s == [] || n == 0 {
    } else if Positive(s[0]) {
      PositivesFirst(s[1..], n - 1);
      assert First(s, n) == [s[0]] + First(s[1..], n - 1);
    } else {
      NothingAfterNonPositive(s);
      NoneKept(s);
      NoneKept(First(s, n));
    }
  }

  lemma {:induction false} NoneKept(s: seq<Hit>)
    requires forall h :: h in s ==> !Positive(h)
    ensures Filter(Positive, s) == []
  {
    if s == [] {
    } else {
      assert s[0] in s && forall h :: h in s[1..] ==> h in s;
      NoneKept(s[1..]);
    }
  }

  /** The result is the top `limit` of the allowed chunks with a positive score: nothing else is in it,
      it is in rank order, and an allowed positive chunk is left out only when `limit` better ones are in. */
  lemma SearchIsTopPositive(st: State, org: string, query: seq<real>, tags: seq<string>, limit: nat, sqrt: real -> real)
    requires Consistent(st)
    ensures var hits := Hits(st, org, query, tags, sqrt);
            var found := SelectedHits(st, org, query, tags, limit, sqrt);
            && |found| <= limit && Sorted(HitLe, found) && Distinct(found)
            && (forall i, j :: 0 <= i < j < |found| ==>
                  var a, b := found[i], found[j];
                  a.score > b.score
                  || (a.score == b.score
                      && if a.chunk.documentId != b.chunk.documentId
                         then StringLe(b.chunk.documentId, a.chunk.documentId)
                         else StringLe(b.chunk.chunkId, a.chunk.chunkId)))
            && (forall h :: h in found ==> h in hits && h.score > 0.0)
            && (forall h :: h in hits && h.score > 0.0 && h !in found ==>
                  |found| == limit && forall f :: f in found ==> HitLe(f, h))
  {
    var positives := RankedPositives(st, org, query, tags, limit, sqrt);
    var dropped := FirstIsTop(HitLe, positives, limit);
    DistinctFirst(positives, limit);
    var found := SelectedHits(st, org, query, tags, limit, sqrt);
    forall i, j | 0 <= i < j < |found| ensures HitLe(found[i], found[j]) {
    }
  }

  lemma RankedPositives(st: State, org: string, query: seq<real>, tags: seq<string>, limit: nat, sqrt: real -> real)
    returns (positives: seq<Hit>)
    requires Consistent(st)
    ensures SelectedHits(st, org, query, tags, limit, sqrt) == First(positives, limit)
    ensures Sorted(HitLe, positives) && Distinct(positives)
    ensures forall h :: h in positives <==> h in Hits(st, org, query, tags, sqrt) && Positive(h)
  {
    var hits := Hits(st, org, query, tags, sqrt);
    var ranked := SortBy(HitLe, hits);
    positives := Filter(Positive, ranked);
    HitOrder();
    SortSorts(HitLe, hits);
    SortMembers(HitLe, hits);
    PositivesFirst(ranked, limit);
    FilterMembers(Positive, ranked);
    FilterSorted(HitLe, Positive, ranked);
    HitsAreRanked(st, org, query, tags, sqrt);
    SortDistinct(HitLe, hits);
    FilterDistinct(Positive, ranked);
  }

  lemma DistinctFirst(s: seq<Hit>, n: nat)
    requires Distinct(s)
    ensures Distinct(First(s, n)) && forall h :: h in First(s, n) ==> h in s
  {
  }

  /** Every returned score lies in [0, 1], so building an evidence chunk never raises for its score. */
  lemma SearchScoresInUnit(st: State, org: string, query: seq<real>, tags: seq<string>, limit: nat, sqrt: real -> real)
    requires Consistent(st) && IsSqrt(sqrt)
    ensures forall e :: e in Cite(SelectedHits(st, org, query, tags, limit, sqrt)) ==> 0.0 <= e.score <= 1.0
  {
    var hits := Hits(st, org, query, tags, sqrt);
    var found := SelectedHits(st, org, query, tags, limit, sqrt);
    HitMembers(st, st.chunks.Values(), org, query, tags, sqrt);
    SearchIsTopPositive(st, org, query, tags, limit, sqrt);
    forall i | 0 <= i < |found| ensures 0.0 <= Cite(found)[i].score <= 1.0 {
      var h := found[i];
      assert h in found && h in hits;
      var stored := if h.chunk.chunkId in st.vectors then st.vectors[h.chunk.chunkId] else [];
      ClippedCosineRange(sqrt, query, stored);
      Round4Unit(h.score);
    }
  }
}
