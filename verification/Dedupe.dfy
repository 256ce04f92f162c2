/** knowledge.py `_dedupe_adjacent_chunks`: join neighbouring chunks of one document. */
module Dedupe {
  import opened Knowledge
  import opened Ordering
  import opened Grouping

  /** A record on its way to the output. `first` is the earliest input position it stands for;
      `from` lists all the positions merged into it, left to right. */
  datatype Placed = Placed(first: nat, record: Record, from: seq<nat>)

  function DocOf(p: Placed): string { p.record.document.sourceId }

  function IndexOf(p: Placed): int { p.record.chunk.chunkIndex }

  function IndexLe(): (Placed, Placed) -> bool {
    (a: Placed, b: Placed) => IndexOf(a) <= IndexOf(b)
  }

  function FirstLe(): (Placed, Placed) -> bool {
    (a: Placed, b: Placed) => a.first <= b.first
  }

  function SameDoc(doc: string): Placed -> bool { KeyIs(DocOf, doc) }

  function InDocs(docs: seq<string>): Placed -> bool {
    p => DocOf(p) in docs
  }

  function Place(records: seq<Record>): seq<Placed> {
    seq(|records|, i requires 0 <= i < |records| => Placed(i, records[i], [i]))
  }

  function Join(left: Placed, right: Placed): Placed {
    Placed(if left.first <= right.first then left.first else right.first,
           MergeRecords(left.record, right.record),
           left.from + right.from)
  }

  /** The inner loop: `current` swallows the next record while that one is its successor. */
  function MergeRun(current: Placed, rest: seq<Placed>): seq<Placed>
    decreases |rest|
  {
    if rest == [] then [current]
    else if IndexOf(rest[0]) == IndexOf(current) + 1 then MergeRun(Join(current, rest[0]), rest[1..])
    else [current] + MergeRun(rest[0], rest[1..])
  }

  function MergeSorted(sorted: seq<Placed>): seq<Placed> {
    if sorted == [] then [] else MergeRun(sorted[0], sorted[1..])
  }

  function MergeDoc(doc: string, placed: seq<Placed>): seq<Placed> {
    MergeSorted(SortBy(IndexLe(), Filter(SameDoc(doc), placed)))
  }

  function MergeDocs(docs: seq<string>, placed: seq<Placed>): seq<Placed> {
    if docs == [] then [] else MergeDoc(docs[0], placed) + MergeDocs(docs[1..], placed)
  }

  /** Documents in the order in which they first appear, as the grouping dictionary keeps them. */
  function DocOrder(placed: seq<Placed>): seq<string> { KeyOrder(DocOf, placed) }

  function DedupePlaced(records: seq<Record>): seq<Placed> {
    var placed := Place(records);
    SortBy(FirstLe(), MergeDocs(DocOrder(placed), placed))
  }

  function Records(placed: seq<Placed>): seq<Record> {
    seq(|placed|, i requires 0 <= i < |placed| => placed[i].record)
  }

  function Dedupe(records: seq<Record>): seq<Record> { Records(DedupePlaced(records)) }

  // ---- The loops of the source ----

  method MergeAdjacent(sorted: seq<Placed>) returns (merged: seq<Placed>)
    requires sorted != []
    ensures merged == MergeSorted(sorted)
  {
    merged := [];
    var current := sorted[0];
    for k := 1 to |sorted|
      invariant merged + MergeRun(current, sorted[k..]) == MergeSorted(sorted)
    {
      assert sorted[k..][0] == sorted[k] && sorted[k..][1..] == sorted[k + 1..];
      if IndexOf(sorted[k]) == IndexOf(current) + 1 {
        current := Join(current, sorted[k]);
      } else {
        merged := merged + [current];
        current := sorted[k];
      }
    }
    merged := merged + [current];
  }

  method MergeGroup(group: seq<Placed>) returns (merged: seq<Placed>)
    requires group != []
    ensures merged == MergeSorted(SortBy(IndexLe(), group))
  {
    SortPermutes(IndexLe(), group);
    merged := MergeAdjacent(SortBy(IndexLe(), group));
  }

  lemma MergeDocsStep(docs: seq<string>, i: nat, placed: seq<Placed>, merged: seq<Placed>)
    requires i < |docs|
    ensures merged + MergeDocs(docs[i..], placed)
         == (merged + MergeDoc(docs[i], placed)) + MergeDocs(docs[i + 1..], placed)
  {
    assert docs[i..][0] == docs[i] && docs[i..][1..] == docs[i + 1..];
  }

  method MergeGroups(docs: seq<string>, groups: map<string, seq<Placed>>, ghost placed: seq<Placed>)
    returns (merged: seq<Placed>)
    requires IsGrouping(DocOf, placed, docs, groups)
    ensures merged == MergeDocs(docs, placed)
  {
    merged := [];
    for i := 0 to |docs|
      invariant merged + MergeDocs(docs[i..], placed) == MergeDocs(docs, placed)
    {
      assert docs[i] in groups;
      var run := MergeGroup(groups[docs[i]]);
      MergeDocsStep(docs, i, placed, merged);
      merged := merged + run;
    }
  }

  method DedupeAdjacentChunks(records: seq<Record>) returns (result: seq<Record>)
    ensures result == Dedupe(records)
  {
    if records == [] {
      return [];
    }
    var placed := Place(records);
    var docs, groups := GroupBy(DocOf, placed);
    var merged := MergeGroups(docs, groups, placed);
    result := Records(SortBy(FirstLe(), merged));
  }

  // ---- Orders ----

  lemma IndexOrder()
    ensures TotalPreorder(IndexLe())
  {
  }

  lemma FirstOrder()
    ensures TotalPreorder(FirstLe())
  {
  }

  // ---- Every input position lands in exactly one output ----

  function Positions(placed: seq<Placed>): multiset<nat> {
    if placed == [] then multiset{} else multiset(placed[0].from) + Positions(placed[1..])
  }

  lemma {:induction false} PositionsAppend(a: seq<Placed>, b: seq<Placed>)
    ensures Positions(a + b) == Positions(a) + Positions(b)
  {
    if a == [] {
      assert a + b == b;
    } else {
      assert (a + b)[1..] == a[1..] + b;
      PositionsAppend(a[1..], b);
    }
  }

  lemma {:induction false} PositionsInsert(le: (Placed, Placed) -> bool, x: Placed, s: seq<Placed>)
    ensures Positions(Insert(le, x, s)) == multiset(x.from) + Positions(s)
  {
    if s == [] {
    } else if le(x, s[0]) {
      assert ([x] + s)[1..] == s;
    } else {
      PositionsInsert(le, x, s[1..]);
      assert Insert(le, x, s)[1..] == Insert(le, x, s[1..]);
    }
  }

  lemma {:induction false} PositionsSort(le: (Placed, Placed) -> bool, s: seq<Placed>)
    ensures Positions(SortBy(le, s)) == Positions(s)
  {
    if s == [] {
    } else {
      PositionsSort(le, s[1..]);
      PositionsInsert(le, s[0], SortBy(le, s[1..]));
    }
  }

  lemma {:induction false} PositionsMergeRun(current: Placed, rest: seq<Placed>)
    ensures Positions(MergeRun(current, rest)) == multiset(current.from) + Positions(rest)
    decreases |rest|
  {
    if rest == [] {
    } else if IndexOf(rest[0]) == IndexOf(current) + 1 {
      PositionsMergeRun(Join(current, rest[0]), rest[1..]);
    } else {
      PositionsMergeRun(rest[0], rest[1..]);
      assert MergeRun(current, rest)[1..] == MergeRun(rest[0], rest[1..]);
    }
  }

  lemma PositionsMergeDoc(doc: string, placed: seq<Placed>)
    ensures Positions(MergeDoc(doc, placed)) == Positions(Filter(SameDoc(doc), placed))
  {
    var sorted := SortBy(IndexLe(), Filter(SameDoc(doc), placed));
    PositionsSort(IndexLe(), Filter(SameDoc(doc), placed));
    if sorted != [] {
      PositionsMergeRun(sorted[0], sorted[1..]);
    }
  }

  lemma FilterHead(p: Placed -> bool, s: seq<Placed>)
    requires s != []
    ensures p(s[0]) ==> Positions(Filter(p, s)) == multiset(s[0].from) + Positions(Filter(p, s[1..]))
    ensures p(s[0]) ==> multiset(Filter(p, s)) == multiset{s[0]} + multiset(Filter(p, s[1..]))
    ensures !p(s[0]) ==> Filter(p, s) == Filter(p, s[1..])
  {
    if p(s[0]) {
      assert Filter(p, s)[1..] == Filter(p, s[1..]);
    } else {
      assert Filter(p, s) == [] + Filter(p, s[1..]);
    }
  }

  /** How the three filters treat the head of `s`: exactly one of the two parts takes it, or none does. */
  lemma SplitHead(docs: seq<string>, x: Placed)
    requires docs != [] && docs[0] !in docs[1..]
    ensures InDocs(docs)(x) <==> SameDoc(docs[0])(x) || InDocs(docs[1..])(x)
    ensures !(SameDoc(docs[0])(x) && InDocs(docs[1..])(x))
  {
    assert docs == [docs[0]] + docs[1..];
  }

  lemma {:induction false} PositionsSplit(docs: seq<string>, s: seq<Placed>)
    requires docs != [] && docs[0] !in docs[1..]
    ensures Positions(Filter(InDocs(docs), s))
         == Positions(Filter(SameDoc(docs[0]), s)) + Positions(Filter(InDocs(docs[1..]), s))
  {
    var all, one, others := InDocs(docs), SameDoc(docs[0]), InDocs(docs[1..]);
    if s == [] {
    } else {
      PositionsSplit(docs, s[1..]);
      SplitHead(docs, s[0]);
      FilterHead(all, s);
      FilterHead(one, s);
      FilterHead(others, s);
    }
  }

  lemma {:induction false} ElementsSplit(docs: seq<string>, s: seq<Placed>)
    requires docs != [] && docs[0] !in docs[1..]
    ensures multiset(Filter(InDocs(docs), s))
         == multiset(Filter(SameDoc(docs[0]), s)) + multiset(Filter(InDocs(docs[1..]), s))
  {
    var all, one, others := InDocs(docs), SameDoc(docs[0]), InDocs(docs[1..]);
    if s == [] {
    } else {
      ElementsSplit(docs, s[1..]);
      SplitHead(docs, s[0]);
      FilterHead(all, s);
      FilterHead(one, s);
      FilterHead(others, s);
    }
  }

  lemma {:induction false} FilterNone(s: seq<Placed>)
    ensures Filter(InDocs([]), s) == []
  {
    if s != [] {
      FilterNone(s[1..]);
    }
  }

  lemma {:induction false} PositionsMergeDocs(docs: seq<string>, placed: seq<Placed>)
    requires Distinct(docs)
    ensures Positions(MergeDocs(docs, placed)) == Positions(Filter(InDocs(docs), placed))
  {
    if docs == [] {
      FilterNone(placed);
    } else {
      PositionsMergeDocs(docs[1..], placed);
      PositionsMergeDoc(docs[0], placed);
      PositionsAppend(MergeDoc(docs[0], placed), MergeDocs(docs[1..], placed));
      PositionsSplit(docs, placed);
    }
  }

  lemma {:induction false} FilterAll(p: Placed -> bool, s: seq<Placed>)
    requires forall x :: x in s ==> p(x)
    ensures Filter(p, s) == s
  {
    if s == [] {
    } else {
      FilterAll(p, s[1..]);
      assert s == [s[0]] + s[1..];
    }
  }

  lemma {:induction false} PositionsOfPlacedFrom(placed: seq<Placed>, base: nat, q: nat)
    requires forall i :: 0 <= i < |placed| ==> placed[i].from == [base + i]
    ensures Positions(placed)[q] == if base <= q < base + |placed| then 1 else 0
    decreases |placed|
  {
    if placed == [] {
    } else {
      PositionsOfPlacedFrom(placed[1..], base + 1, q);
    }
  }

  lemma PositionsKept(placed: seq<Placed>)
    ensures Positions(SortBy(FirstLe(), MergeDocs(DocOrder(placed), placed))) == Positions(placed)
  {
    KeyOrderComplete(DocOf, placed);
    PositionsMergeDocs(DocOrder(placed), placed);
    FilterAll(InDocs(DocOrder(placed)), placed);
    PositionsSort(FirstLe(), MergeDocs(DocOrder(placed), placed));
  }

  /** Each input position is in the `from` list of exactly one output, exactly once. */
  lemma EachInputLandsOnce(records: seq<Record>, q: nat)
    ensures Positions(DedupePlaced(records))[q] == if q < |records| then 1 else 0
  {
    PositionsKept(Place(records));
    PlacePositions(records, q);
  }

  lemma PlacePositions(records: seq<Record>, q: nat)
    ensures Positions(Place(records))[q] == if q < |records| then 1 else 0
  {
    PositionsOfPlacedFrom(Place(records), 0, q);
  }

  // ---- Merging never makes more of them ----

  lemma {:induction false} RunIsNoLonger(current: Placed, rest: seq<Placed>)
    ensures |MergeRun(current, rest)| <= 1 + |rest|
    decreases |rest|
  {
    if rest != [] {
      if IndexOf(rest[0]) == IndexOf(current) + 1 {
        RunIsNoLonger(Join(current, rest[0]), rest[1..]);
      } else {
        RunIsNoLonger(rest[0], rest[1..]);
      }
    }
  }

  lemma {:induction false} DocsAreNoLonger(docs: seq<string>, placed: seq<Placed>)
    requires Distinct(docs)
    ensures |MergeDocs(docs, placed)| <= |Filter(InDocs(docs), placed)|
  {
    if docs != [] {
      DocsAreNoLonger(docs[1..], placed);
      var group := Filter(SameDoc(docs[0]), placed);
      var sorted := SortBy(IndexLe(), group);
      SortPermutes(IndexLe(), group);
      if sorted != [] {
        RunIsNoLonger(sorted[0], sorted[1..]);
      }
      ElementsSplit(docs, placed);
      assert |multiset(Filter(InDocs(docs), placed))|
          == |multiset(Filter(SameDoc(docs[0]), placed))| + |multiset(Filter(InDocs(docs[1..]), placed))|;
    }
  }

  lemma NoMoreOutputs(records: seq<Record>)
    ensures |Dedupe(records)| <= |records|
  {
    var placed := Place(records);
    KeyOrderComplete(DocOf, placed);
    DocsAreNoLonger(DocOrder(placed), placed);
    FilterAll(InDocs(DocOrder(placed)), placed);
    SortPermutes(FirstLe(), MergeDocs(DocOrder(placed), placed));
  }

  // ---- No output is the successor of another one of its document ----

  ghost predicate NoSuccessors(s: seq<Placed>) {
    forall x, y :: x in s && y in s && x.record.document.sourceId == y.record.document.sourceId ==>
                     y.record.chunk.chunkIndex != x.record.chunk.chunkIndex + 1
  }

  lemma {:induction false} MergeRunGaps(current: Placed, rest: seq<Placed>)
    requires Sorted(IndexLe(), [current] + rest)
    ensures forall o :: o in MergeRun(current, rest) ==>
              IndexOf(o) == IndexOf(current) || IndexOf(o) > IndexOf(current) + 1
    ensures NoSuccessors(MergeRun(current, rest))
    decreases |rest|
  {
    if rest == [] {
    } else {
      var all := [current] + rest;
      assert forall i, j :: 0 <= i < j < |all| ==> IndexLe()(all[i], all[j]);
      if IndexOf(rest[0]) == IndexOf(current) + 1 {
        var joined := [Join(current, rest[0])] + rest[1..];
        forall i, j | 0 <= i < j < |joined| ensures IndexLe()(joined[i], joined[j]) {
          assert IndexLe()(all[if i == 0 then 0 else i + 1], all[j + 1]);
        }
        MergeRunGaps(Join(current, rest[0]), rest[1..]);
      } else {
        assert [rest[0]] + rest[1..] == all[1..];
        assert IndexLe()(all[0], all[1]);
        MergeRunGaps(rest[0], rest[1..]);
      }
    }
  }

  lemma {:induction false} MergeRunDoc(current: Placed, rest: seq<Placed>, doc: string)
    requires DocOf(current) == doc && forall r :: r in rest ==> DocOf(r) == doc
    ensures forall o :: o in MergeRun(current, rest) ==> DocOf(o) == doc
    decreases |rest|
  {
    if rest == [] {
    } else {
      assert rest[0] in rest;
      if IndexOf(rest[0]) == IndexOf(current) + 1 {
        MergeRunDoc(Join(current, rest[0]), rest[1..], doc);
      } else {
        MergeRunDoc(rest[0], rest[1..], doc);
      }
    }
  }

  lemma MergeDocFacts(doc: string, placed: seq<Placed>)
    ensures forall o :: o in MergeDoc(doc, placed) ==> DocOf(o) == doc
    ensures NoSuccessors(MergeDoc(doc, placed))
  {
    var group := Filter(SameDoc(doc), placed);
    var sorted := SortBy(IndexLe(), group);
    FilterMembers(SameDoc(doc), placed);
    SortMembers(IndexLe(), group);
    IndexOrder();
    SortSorts(IndexLe(), group);
    if sorted != [] {
      assert sorted == [sorted[0]] + sorted[1..];
      assert sorted[0] in sorted && forall r :: r in sorted[1..] ==> r in sorted;
      MergeRunDoc(sorted[0], sorted[1..], doc);
      MergeRunGaps(sorted[0], sorted[1..]);
    }
  }

  lemma {:induction false} MergeDocsFacts(docs: seq<string>, placed: seq<Placed>)
    requires Distinct(docs)
    ensures forall o :: o in MergeDocs(docs, placed) ==> DocOf(o) in docs
    ensures NoSuccessors(MergeDocs(docs, placed))
  {
    if docs == [] {
    } else {
      MergeDocFacts(docs[0], placed);
      MergeDocsFacts(docs[1..], placed);
      assert docs[0] !in docs[1..];
    }
  }

  lemma OutputsHaveGaps(records: seq<Record>)
    ensures NoSuccessors(DedupePlaced(records))
  {
    var placed := Place(records);
    KeyOrderComplete(DocOf, placed);
    MergeDocsFacts(DocOrder(placed), placed);
    SortMembers(FirstLe(), MergeDocs(DocOrder(placed), placed));
  }

  // ---- One pass is enough ----

  lemma {:induction false} MergeRunIdle(current: Placed, rest: seq<Placed>)
    requires NoSuccessors([current] + rest) && forall r :: r in rest ==> DocOf(r) == DocOf(current)
    ensures MergeRun(current, rest) == [current] + rest
    decreases |rest|
  {
    if rest == [] {
    } else {
      var all := [current] + rest;
      assert current in all && rest[0] in all;
      assert rest == [rest[0]] + rest[1..];
      assert forall r :: r in rest ==> r in all;
      MergeRunIdle(rest[0], rest[1..]);
    }
  }

  lemma MergeSortedIdle(doc: string, sorted: seq<Placed>)
    requires NoSuccessors(sorted) && forall r :: r in sorted ==> DocOf(r) == doc
    ensures MergeSorted(sorted) == sorted
  {
    if sorted != [] {
      assert sorted == [sorted[0]] + sorted[1..];
      assert sorted[0] in sorted && forall r :: r in sorted[1..] ==> r in sorted;
      MergeRunIdle(sorted[0], sorted[1..]);
    }
  }

  lemma MergeDocIdle(doc: string, placed: seq<Placed>)
    requires NoSuccessors(placed)
    ensures multiset(MergeDoc(doc, placed)) == multiset(Filter(SameDoc(doc), placed))
  {
    var group := Filter(SameDoc(doc), placed);
    FilterMembers(SameDoc(doc), placed);
    SortMembers(IndexLe(), group);
    SortPermutes(IndexLe(), group);
    MergeSortedIdle(doc, SortBy(IndexLe(), group));
  }

  lemma {:induction false} MergeDocsIdle(docs: seq<string>, placed: seq<Placed>)
    requires Distinct(docs) && NoSuccessors(placed)
    ensures multiset(MergeDocs(docs, placed)) == multiset(Filter(InDocs(docs), placed))
  {
    if docs == [] {
      FilterNone(placed);
    } else {
      MergeDocsIdle(docs[1..], placed);
      MergeDocIdle(docs[0], placed);
      ElementsSplit(docs, placed);
    }
  }

  lemma NothingMerged(placed: seq<Placed>)
    requires NoSuccessors(placed)
    ensures multiset(MergeDocs(DocOrder(placed), placed)) == multiset(placed)
  {
    KeyOrderComplete(DocOf, placed);
    MergeDocsIdle(DocOrder(placed), placed);
    FilterAll(InDocs(DocOrder(placed)), placed);
  }

  lemma BackInPlace(records: seq<Record>, merged: seq<Placed>)
    requires multiset(merged) == multiset(Place(records))
    ensures SortBy(FirstLe(), merged) == Place(records)
  {
    FirstOrder();
    SortOfPermutation(FirstLe(), Place(records), merged);
    SortOfSorted(FirstLe(), Place(records));
  }

  lemma NothingToMerge(records: seq<Record>)
    requires NoSuccessors(Place(records))
    ensures Dedupe(records) == records
  {
    var placed := Place(records);
    NothingMerged(placed);
    BackInPlace(records, MergeDocs(DocOrder(placed), placed));
  }

  /** Deduplicating twice is deduplicating once, for every input. */
  lemma DedupeIsFixedPoint(records: seq<Record>)
    ensures Dedupe(Dedupe(records)) == Dedupe(records)
  {
    var once := DedupePlaced(records);
    OutputsHaveGaps(records);
    var again := Place(Dedupe(records));
    assert forall i :: 0 <= i < |again| ==> again[i].record == once[i].record;
    forall x, y | x in again && y in again && DocOf(x) == DocOf(y)
      ensures IndexOf(y) != IndexOf(x) + 1
    {
      assert once[x.first] in once && once[y.first] in once;
    }
    NothingToMerge(Dedupe(records));
  }

  // ---- With unique (document, index): one record, or a left-right pair ----

  ghost predicate UniqueKeys(records: seq<Record>) {
    forall i, j :: 0 <= i < j < |records| && records[i].document.sourceId == records[j].document.sourceId
                   ==> records[i].chunk.chunkIndex != records[j].chunk.chunkIndex
  }

  predicate SingleOf(records: seq<Record>, o: Placed) {
    |o.from| == 1 && o.from[0] < |records| && o.first == o.from[0] && o.record == records[o.from[0]]
  }

  predicate PairOf(records: seq<Record>, o: Placed) {
    && |o.from| == 2 && o.from[0] < |records| && o.from[1] < |records|
    && o.first == (if o.from[0] <= o.from[1] then o.from[0] else o.from[1])
    && var left, right := records[o.from[0]], records[o.from[1]];
       && left.document.sourceId == right.document.sourceId
       && right.chunk.chunkIndex == left.chunk.chunkIndex + 1
       && o.record.document == left.document && o.record.embedding == left.embedding
       && o.record.chunk.chunkId == left.chunk.chunkId && o.record.chunk.sourceId == left.chunk.sourceId
       && o.record.chunk.chunkIndex == left.chunk.chunkIndex
       && o.record.chunk.text == left.chunk.text + " " + right.chunk.text
       && o.record.score >= left.score && o.record.score >= right.score
       && (o.record.score == left.score || o.record.score == right.score)
  }

  lemma {:induction false} MergeRunShape(records: seq<Record>, current: Placed, rest: seq<Placed>)
    requires SingleOf(records, current) || PairOf(records, current)
    requires forall r :: r in rest ==> SingleOf(records, r) && DocOf(r) == DocOf(current)
    requires forall i :: 0 <= i < |rest| ==> IndexOf(rest[i]) >= IndexOf(current) + |current.from|
    requires forall i, j :: 0 <= i < j < |rest| ==> IndexOf(rest[i]) < IndexOf(rest[j])
    ensures forall o :: o in MergeRun(current, rest) ==> SingleOf(records, o) || PairOf(records, o)
    decreases |rest|
  {
    if rest == [] {
    } else {
      assert rest[0] in rest;
      assert forall i :: 0 <= i < |rest[1..]| ==> rest[1..][i] == rest[i + 1];
      if IndexOf(rest[0]) == IndexOf(current) + 1 {
        MergeRunShape(records, Join(current, rest[0]), rest[1..]);
      } else {
        MergeRunShape(records, rest[0], rest[1..]);
      }
    }
  }

  lemma {:induction false} StrictlySorted(s: seq<Placed>)
    requires Sorted(IndexLe(), s) && Distinct(s)
    requires forall x, y :: x in s && y in s && x != y ==> IndexOf(x) != IndexOf(y)
    ensures forall i, j :: 0 <= i < j < |s| ==> IndexOf(s[i]) < IndexOf(s[j])
  {
    forall i, j | 0 <= i < j < |s| ensures IndexOf(s[i]) < IndexOf(s[j]) {
      assert IndexLe()(s[i], s[j]) && s[i] != s[j];
    }
  }

  lemma TwoPlaced(records: seq<Record>, x: Placed, y: Placed)
    requires UniqueKeys(records) && x in Place(records) && y in Place(records) && x != y && DocOf(x) == DocOf(y)
    ensures IndexOf(x) != IndexOf(y)
  {
    assert x == Place(records)[x.first] && y == Place(records)[y.first];
    var i, j := if x.first < y.first then x.first else y.first, if x.first < y.first then y.first else x.first;
    assert records[i].document.sourceId == records[j].document.sourceId;
  }

  lemma SortedGroup(records: seq<Record>, doc: string)
    requires UniqueKeys(records)
    ensures var sorted := SortBy(IndexLe(), Filter(SameDoc(doc), Place(records)));
            && (forall r :: r in sorted ==> SingleOf(records, r) && DocOf(r) == doc)
            && (forall i, j :: 0 <= i < j < |sorted| ==> IndexOf(sorted[i]) < IndexOf(sorted[j]))
  {
    var placed := Place(records);
    var group := Filter(SameDoc(doc), placed);
    var sorted := SortBy(IndexLe(), group);
    FilterMembers(SameDoc(doc), placed);
    SortMembers(IndexLe(), group);
    FilterDistinct(SameDoc(doc), placed);
    SortDistinct(IndexLe(), group);
    IndexOrder();
    SortSorts(IndexLe(), group);
    forall x, y | x in sorted && y in sorted && x != y ensures IndexOf(x) != IndexOf(y) {
      TwoPlaced(records, x, y);
    }
    StrictlySorted(sorted);
  }

  lemma MergeDocShape(records: seq<Record>, doc: string)
    requires UniqueKeys(records)
    ensures forall o :: o in MergeDoc(doc, Place(records)) ==> SingleOf(records, o) || PairOf(records, o)
  {
    var sorted := SortBy(IndexLe(), Filter(SameDoc(doc), Place(records)));
    SortedGroup(records, doc);
    if sorted != [] {
      assert sorted[0] in sorted && forall r :: r in sorted[1..] ==> r in sorted;
      MergeRunShape(records, sorted[0], sorted[1..]);
    }
  }

  lemma {:induction false} MergeDocsShape(records: seq<Record>, docs: seq<string>)
    requires UniqueKeys(records)
    ensures forall o :: o in MergeDocs(docs, Place(records)) ==> SingleOf(records, o) || PairOf(records, o)
  {
    if docs == [] {
    } else {
      MergeDocShape(records, docs[0]);
      MergeDocsShape(records, docs[1..]);
    }
  }

  lemma {:induction false} PositionsShared(s: seq<Placed>, i: nat, j: nat, q: nat)
    requires i < j < |s| && q in s[i].from && q in s[j].from
    ensures Positions(s)[q] >= 2
    decreases |s|
  {
    if i == 0 {
      PositionsMember(s[1..], j - 1, q);
    } else {
      PositionsShared(s[1..], i - 1, j - 1, q);
    }
  }

  lemma {:induction false} PositionsMember(s: seq<Placed>, i: nat, q: nat)
    requires i < |s| && q in s[i].from
    ensures Positions(s)[q] >= 1
    decreases |s|
  {
    if i > 0 {
      PositionsMember(s[1..], i - 1, q);
    }
  }

  lemma {:induction false} PositionHeld(s: seq<Placed>, q: nat) returns (i: nat)
    requires Positions(s)[q] >= 1
    ensures i < |s| && q in s[i].from
  {
    if q in s[0].from {
      i := 0;
    } else {
      i := PositionHeld(s[1..], q);
      i := i + 1;
    }
  }

  /** With unique keys every output is one input record, or two neighbours of one document merged left to right. */
  lemma OutputsSingleOrPair(records: seq<Record>)
    requires UniqueKeys(records)
    ensures forall o :: o in DedupePlaced(records) ==> SingleOf(records, o) || PairOf(records, o)
  {
    var placed := Place(records);
    MergeDocsShape(records, DocOrder(placed));
    SortMembers(FirstLe(), MergeDocs(DocOrder(placed), placed));
  }

  lemma OutputsSorted(records: seq<Record>)
    ensures Sorted(FirstLe(), DedupePlaced(records))
  {
    var placed := Place(records);
    FirstOrder();
    SortSorts(FirstLe(), MergeDocs(DocOrder(placed), placed));
  }

  lemma TwoOutputs(records: seq<Record>, a: Placed, b: Placed)
    requires UniqueKeys(records)
    requires SingleOf(records, a) || PairOf(records, a)
    requires SingleOf(records, b) || PairOf(records, b)
    requires a.from[0] != b.from[0] && DocOf(a) == DocOf(b)
    ensures IndexOf(a) != IndexOf(b)
  {
  }

  /** With unique keys the outputs come in the order of their earliest input position, and two outputs of one
      document are at least two indexes apart. */
  lemma OutputsApart(records: seq<Record>, i: nat, j: nat)
    requires UniqueKeys(records) && i < j < |DedupePlaced(records)|
    ensures var a, b := DedupePlaced(records)[i], DedupePlaced(records)[j];
            && a.first < b.first
            && (a.record.document.sourceId == b.record.document.sourceId ==>
                  a.record.chunk.chunkIndex + 2 <= b.record.chunk.chunkIndex
                  || b.record.chunk.chunkIndex + 2 <= a.record.chunk.chunkIndex)
  {
    var out := DedupePlaced(records);
    var a, b := out[i], out[j];
    OutputsSingleOrPair(records);
    assert a in out && b in out;
    OutputsSorted(records);
    assert FirstLe()(a, b);
    DifferentSources(records, i, j, a.first);
    DifferentSources(records, i, j, a.from[0]);
    OutputsHaveGaps(records);
    if DocOf(a) == DocOf(b) {
      TwoOutputs(records, a, b);
    }
  }

  lemma DifferentSources(records: seq<Record>, i: nat, j: nat, q: nat)
    requires i < j < |DedupePlaced(records)| && q in DedupePlaced(records)[i].from
    ensures q !in DedupePlaced(records)[j].from
  {
    EachInputLandsOnce(records, q);
    if q in DedupePlaced(records)[j].from {
      PositionsShared(DedupePlaced(records), i, j, q);
    }
  }

  /** A bound on the scores of the inputs carries over to the outputs. */
  lemma ScoresStayInRange(records: seq<Record>)
    requires forall r :: r in records ==> 0.0 < r.score <= 1.0
    ensures forall r :: r in Dedupe(records) ==> 0.0 < r.score <= 1.0
  {
    var placed := Place(records);
    assert forall p :: p in placed ==> 0.0 < p.record.score <= 1.0;
    MergeDocsScores(DocOrder(placed), placed);
    var merged := MergeDocs(DocOrder(placed), placed);
    SortMembers(FirstLe(), merged);
    var out := DedupePlaced(records);
    assert forall i :: 0 <= i < |out| ==> out[i] in out;
  }

  lemma {:induction false} MergeRunScores(current: Placed, rest: seq<Placed>)
    requires 0.0 < current.record.score <= 1.0 && forall r :: r in rest ==> 0.0 < r.record.score <= 1.0
    ensures forall o :: o in MergeRun(current, rest) ==> 0.0 < o.record.score <= 1.0
    decreases |rest|
  {
    if rest == [] {
    } else {
      assert rest[0] in rest;
      if IndexOf(rest[0]) == IndexOf(current) + 1 {
        MergeRunScores(Join(current, rest[0]), rest[1..]);
      } else {
        MergeRunScores(rest[0], rest[1..]);
      }
    }
  }

  lemma {:induction false} MergeDocsScores(docs: seq<string>, placed: seq<Placed>)
    requires forall p :: p in placed ==> 0.0 < p.record.score <= 1.0
    ensures forall o :: o in MergeDocs(docs, placed) ==> 0.0 < o.record.score <= 1.0
  {
    if docs == [] {
    } else {
      var group := Filter(SameDoc(docs[0]), placed);
      var sorted := SortBy(IndexLe(), group);
      FilterMembers(SameDoc(docs[0]), placed);
      SortMembers(IndexLe(), group);
      if sorted != [] {
        assert sorted[0] in sorted && forall r :: r in sorted[1..] ==> r in sorted;
        MergeRunScores(sorted[0], sorted[1..]);
      }
      MergeDocsScores(docs[1..], placed);
    }
  }

  /** Every output carries the document of one of the inputs. */
  lemma DocumentsStay(records: seq<Record>)
    ensures forall o :: o in Dedupe(records) ==> exists r :: r in records && r.document == o.document
  {
    var placed := Place(records);
    MergeDocsDocuments(DocOrder(placed), placed);
    SortMembers(FirstLe(), MergeDocs(DocOrder(placed), placed));
    var out := DedupePlaced(records);
    forall o | o in Dedupe(records) ensures exists r :: r in records && r.document == o.document {
      var i :| 0 <= i < |out| && out[i].record == o;
      assert out[i] in out;
      var p :| p in placed && p.record.document == o.document;
      var k :| 0 <= k < |placed| && placed[k] == p;
      assert records[k] in records;
    }
  }

  ghost predicate DocumentFrom(source: seq<Placed>, o: Placed) {
    exists p :: p in source && p.record.document == o.record.document
  }

  lemma {:induction false} MergeRunDocuments(source: seq<Placed>, current: Placed, rest: seq<Placed>)
    requires DocumentFrom(source, current) && forall r :: r in rest ==> r in source
    ensures forall o :: o in MergeRun(current, rest) ==> DocumentFrom(source, o)
    decreases |rest|
  {
    if rest == [] {
    } else {
      assert rest[0] in rest && rest[0] in source;
      if IndexOf(rest[0]) == IndexOf(current) + 1 {
        MergeRunDocuments(source, Join(current, rest[0]), rest[1..]);
      } else {
        MergeRunDocuments(source, rest[0], rest[1..]);
      }
    }
  }

  lemma {:induction false} MergeDocsDocuments(docs: seq<string>, placed: seq<Placed>)
    ensures forall o :: o in MergeDocs(docs, placed) ==> DocumentFrom(placed, o)
  {
    if docs == [] {
    } else {
      var group := Filter(SameDoc(docs[0]), placed);
      var sorted := SortBy(IndexLe(), group);
      FilterMembers(SameDoc(docs[0]), placed);
      SortMembers(IndexLe(), group);
      if sorted != [] {
        assert sorted[0] in sorted && forall r :: r in sorted[1..] ==> r in sorted;
        MergeRunDocuments(placed, sorted[0], sorted[1..]);
      }
      MergeDocsDocuments(docs[1..], placed);
    }
  }

  // ---- Falling scores stay falling ----

  ghost predicate Falling(records: seq<Record>) {
    forall i, j :: 0 <= i < j < |records| ==> records[i].score >= records[j].score
  }

  /** Its score is the one of its earliest input. */
  ghost predicate ScoredByFirst(records: seq<Record>, o: Placed) {
    o.first < |records| && o.record.score == records[o.first].score
  }

  lemma JoinScoredByFirst(records: seq<Record>, left: Placed, right: Placed)
    requires Falling(records) && ScoredByFirst(records, left) && ScoredByFirst(records, right)
    ensures ScoredByFirst(records, Join(left, right))
  {
  }

  lemma {:induction false} MergeRunScoredByFirst(records: seq<Record>, current: Placed, rest: seq<Placed>)
    requires Falling(records) && ScoredByFirst(records, current) && forall r :: r in rest ==> ScoredByFirst(records, r)
    ensures forall o :: o in MergeRun(current, rest) ==> ScoredByFirst(records, o)
    decreases |rest|
  {
    if rest == [] {
    } else {
      assert rest[0] in rest && forall r :: r in rest[1..] ==> r in rest;
      if IndexOf(rest[0]) == IndexOf(current) + 1 {
        JoinScoredByFirst(records, current, rest[0]);
        MergeRunScoredByFirst(records, Join(current, rest[0]), rest[1..]);
      } else {
        MergeRunScoredByFirst(records, rest[0], rest[1..]);
      }
    }
  }

  lemma {:induction false} MergeDocsScoredByFirst(records: seq<Record>, docs: seq<string>, placed: seq<Placed>)
    requires Falling(records) && forall p :: p in placed ==> ScoredByFirst(records, p)
    ensures forall o :: o in MergeDocs(docs, placed) ==> ScoredByFirst(records, o)
  {
    if docs == [] {
    } else {
      var group := Filter(SameDoc(docs[0]), placed);
      var sorted := SortBy(IndexLe(), group);
      FilterMembers(SameDoc(docs[0]), placed);
      SortMembers(IndexLe(), group);
      if sorted != [] {
        assert sorted[0] in sorted && forall r :: r in sorted[1..] ==> r in sorted;
        MergeRunScoredByFirst(records, sorted[0], sorted[1..]);
      }
      MergeDocsScoredByFirst(records, docs[1..], placed);
    }
  }

  /** Merging a list of falling scores gives a list of falling scores. */
  lemma FallingStaysFalling(records: seq<Record>)
    requires Falling(records)
    ensures Falling(Dedupe(records))
  {
    var placed, out := Place(records), DedupePlaced(records);
    assert forall p :: p in placed ==> ScoredByFirst(records, p);
    MergeDocsScoredByFirst(records, DocOrder(placed), placed);
    SortMembers(FirstLe(), MergeDocs(DocOrder(placed), placed));
    OutputsSorted(records);
    forall i, j | 0 <= i < j < |out| ensures out[i].record.score >= out[j].record.score {
      assert FirstLe()(out[i], out[j]) && out[i] in out && out[j] in out;
    }
  }
}
