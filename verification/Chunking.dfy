/** Overlapping word chunks (knowledge.py `chunk_text`), and what every chunking keeps. */
module Chunking {
  import opened Text

  /** The word windows the chunking loop visits when it stands at `start`. */
  function Windows(words: seq<string>, size: nat, overlap: nat, start: nat): seq<seq<string>>
    requires overlap < size && start < |words|
    decreases |words| - start
  {
    if start + size >= |words| then [words[start..]]
    else [words[start..start + size]] + Windows(words, size, overlap, start + size - overlap)
  }

  function Chunks(words: seq<string>, size: nat, overlap: nat): seq<seq<string>>
    requires overlap < size
  {
    if words == [] then [] else Windows(words, size, overlap, 0)
  }

  /** ceil(a / b): the q with (q - 1) * b < a <= q * b */
  function CeilDiv(a: nat, b: nat): (q: nat)
    requires b > 0
    ensures a <= q * b
    ensures a > 0 ==> (q - 1) * b < a
    decreases a
  {
    if a == 0 then 0
    else if a <= b then 1
    else
      var q := CeilDiv(a - b, b);
      StepIndex(q, b);
      StepIndex(q - 1, b);
      q + 1
  }

  /** How many chunks a text of `n` words has. */
  function ChunkCount(n: nat, size: nat, overlap: nat): nat
    requires overlap < size
  {
    if n == 0 then 0 else if n <= size then 1 else 1 + CeilDiv(n - size, size - overlap)
  }

  lemma StepIndex(i: int, step: int)
    ensures (i + 1) * step == i * step + step
  {
  }

  /** Closed form of the loop: how many windows follow, and where window `i` begins and ends. */
  lemma {:induction false} WindowAt(words: seq<string>, size: nat, overlap: nat, start: nat, i: nat)
    requires overlap < size && start < |words|
    ensures |Windows(words, size, overlap, start)| == ChunkCount(|words| - start, size, overlap)
    ensures i < |Windows(words, size, overlap, start)| ==>
              var lo := start + i * (size - overlap);
              0 <= lo < |words|
              && Windows(words, size, overlap, start)[i]
                 == words[lo..if lo + size <= |words| then lo + size else |words|]
              && (lo + size < |words| <==> i + 1 < |Windows(words, size, overlap, start)|)
              && (i > 0 ==> lo + overlap < |words|)
    decreases |words| - start
  {
    var step := size - overlap;
    var left := |words| - start;
    if left <= size {
      assert 0 * step == 0;
    } else {
      var next := start + step;
      WindowAt(words, size, overlap, next, if i == 0 then 0 else i - 1);
      if i == 0 {
        assert i * step == 0;
      } else {
        StepIndex(i - 1, step);
        if i == 1 {
          assert (i - 1) * step == 0;
        }
      }
    }
  }

  /** Chunk `i` is exactly the words from i * (size - overlap), `size` of them or all that remain. */
  lemma ChunkClosedForm(words: seq<string>, size: nat, overlap: nat, i: nat)
    requires overlap < size
    ensures |Chunks(words, size, overlap)| == ChunkCount(|words|, size, overlap)
    ensures i < |Chunks(words, size, overlap)| ==>
              var lo := i * (size - overlap);
              0 <= lo < |words|
              && Chunks(words, size, overlap)[i] == words[lo..if lo + size <= |words| then lo + size else |words|]
              && (lo + size < |words| <==> i + 1 < |Chunks(words, size, overlap)|)
              && (i > 0 ==> lo + overlap < |words|)
  {
    if words != [] {
      WindowAt(words, size, overlap, 0, i);
    }
  }

  /** Every chunk but the last has `size` words; every chunk but the first has more than `overlap`. */
  lemma ChunkSizes(words: seq<string>, size: nat, overlap: nat, i: nat)
    requires overlap < size && i < |Chunks(words, size, overlap)|
    ensures 1 <= |Chunks(words, size, overlap)[i]| <= size
    ensures i + 1 < |Chunks(words, size, overlap)| ==> |Chunks(words, size, overlap)[i]| == size
    ensures i > 0 ==> |Chunks(words, size, overlap)[i]| > overlap
  {
    ChunkClosedForm(words, size, overlap, i);
  }

  /** Glue chunks back together, dropping the repeated first `overlap` words of each later chunk. */
  function Stitch(chunks: seq<seq<string>>, overlap: nat): seq<string> {
    if chunks == [] then [] else chunks[0] + StitchRest(chunks[1..], overlap)
  }

  function StitchRest(chunks: seq<seq<string>>, overlap: nat): seq<string> {
    if chunks == [] then []
    else (if overlap <= |chunks[0]| then chunks[0][overlap..] else []) + StitchRest(chunks[1..], overlap)
  }

  lemma SliceFacts(words: seq<string>, size: nat, overlap: nat, start: nat)
    requires overlap <= size && start + size <= |words|
    ensures words[start..start + size] + words[start + size..] == words[start..]
    ensures words[start..start + size][overlap..] == words[start + overlap..start + size]
    ensures words[start + overlap..start + size] + words[start + size..] == words[start + overlap..]
  {
  }

  lemma {:induction false} StitchWindows(words: seq<string>, size: nat, overlap: nat, start: nat)
    requires overlap < size && start < |words|
    requires start > 0 ==> start + overlap < |words|
    ensures Stitch(Windows(words, size, overlap, start), overlap) == words[start..]
    ensures start > 0 ==>
              StitchRest(Windows(words, size, overlap, start), overlap) == words[start + overlap..]
    decreases |words| - start
  {
    var w := Windows(words, size, overlap, start);
    if start + size >= |words| {
      assert w[1..] == [];
    } else {
      var next := start + size - overlap;
      StitchWindows(words, size, overlap, next);
      assert w[1..] == Windows(words, size, overlap, next);
      SliceFacts(words, size, overlap, start);
    }
  }

  /** Chunking loses no word and invents none. */
  lemma ChunksReconstruct(words: seq<string>, size: nat, overlap: nat)
    requires overlap < size
    ensures Stitch(Chunks(words, size, overlap), overlap) == words
  {
    if words != [] {
      StitchWindows(words, size, overlap, 0);
    }
  }

  function JoinAll(chunks: seq<seq<string>>): seq<string> {
    seq(|chunks|, i requires 0 <= i < |chunks| => Join(chunks[i]))
  }

  function SplitAll(texts: seq<string>): seq<seq<string>> {
    seq(|texts|, i requires 0 <= i < |texts| => Words(texts[i]))
  }

  lemma SplitJoinChunks(words: seq<string>, size: nat, overlap: nat)
    requires overlap < size && AllWords(words)
    ensures SplitAll(JoinAll(Chunks(words, size, overlap))) == Chunks(words, size, overlap)
  {
    var c := Chunks(words, size, overlap);
    forall i | 0 <= i < |c| ensures Words(Join(c[i])) == c[i] {
      ChunkClosedForm(words, size, overlap, i);
      WordsOfJoin(c[i]);
    }
  }

  datatype ChunkError = ChunkSizeNotPositive | OverlapNegative | OverlapNotSmaller

  predicate GoodSettings(chunkSize: int, chunkOverlap: int) { 0 <= chunkOverlap < chunkSize }

  /** What the loop still cuts once it stands at `start`. */
  function TextsFrom(words: seq<string>, size: nat, overlap: nat, start: nat): seq<string>
    requires overlap < size && start < |words|
  {
    JoinAll(Windows(words, size, overlap, start))
  }

  /** `texts` holds everything the loop cut before it came to `start`; with the rest it makes `goal`. */
  ghost predicate CutUpTo(words: seq<string>, size: nat, overlap: nat, start: nat, texts: seq<string>,
                          goal: seq<string>)
  {
    overlap < size && start < |words| && texts + TextsFrom(words, size, overlap, start) == goal
  }

  lemma NextTexts(words: seq<string>, size: nat, overlap: nat, start: nat)
    requires overlap < size && start < |words|
    ensures TextsFrom(words, size, overlap, start)
         == if start + size < |words|
            then [Join(words[start..start + size])] + TextsFrom(words, size, overlap, start + size - overlap)
            else [Join(words[start..])]
  {
    if start + size < |words| {
      var rest := Windows(words, size, overlap, start + size - overlap);
      assert JoinAll([words[start..start + size]] + rest) == [Join(words[start..start + size])] + JoinAll(rest);
    } else {
      assert JoinAll([words[start..]]) == [Join(words[start..])];
    }
  }

  /** Where the loop stands after it has cut up to `end`. */
  ghost predicate CutTo(words: seq<string>, size: nat, overlap: nat, end: nat, texts: seq<string>, goal: seq<string>) {
    if end < |words| then overlap <= end && CutUpTo(words, size, overlap, end - overlap, texts, goal) else texts == goal
  }

  /** One turn of the loop. */
  lemma CutOne(words: seq<string>, size: nat, overlap: nat, start: nat, texts: seq<string>, goal: seq<string>, end: nat)
    requires CutUpTo(words, size, overlap, start, texts, goal)
    requires end == if start + size < |words| then start + size else |words|
    ensures CutTo(words, size, overlap, end, texts + [Join(words[start..end])], goal)
  {
    NextTexts(words, size, overlap, start);
    if end == |words| {
      assert words[start..end] == words[start..];
    } else {
      var rest := TextsFrom(words, size, overlap, end - overlap);
      assert texts + ([Join(words[start..end])] + rest) == (texts + [Join(words[start..end])]) + rest;
    }
  }

  /** The loop that cuts a non-empty word list. */
  method ChunkWords(words: seq<string>, chunkSize: nat, chunkOverlap: nat) returns (chunks: seq<string>)
    requires chunkOverlap < chunkSize && words != []
    ensures chunks == TextsFrom(words, chunkSize, chunkOverlap, 0)
  {
    ghost var goal := TextsFrom(words, chunkSize, chunkOverlap, 0);
    chunks := [];
    var start := 0;
    while start < |words|
      invariant 0 <= start < |words|
      invariant CutUpTo(words, chunkSize, chunkOverlap, start, chunks, goal)
      decreases |words| - start
    {
      var end := if start + chunkSize < |words| then start + chunkSize else |words|;
      CutOne(words, chunkSize, chunkOverlap, start, chunks, goal, end);
      chunks := chunks + [Join(words[start..end])];
      if end == |words| {
        return;
      }
      start := end - chunkOverlap;
    }
  }

  method ChunkText(text: string, chunkSize: int := 90, chunkOverlap: int := 15)
    returns (r: Result<seq<string>, ChunkError>)
    ensures r.Ok? <==> 0 <= chunkOverlap < chunkSize
    ensures r.Ok? ==> r.value == JoinAll(Chunks(Words(text), chunkSize, chunkOverlap))
    ensures chunkSize <= 0 ==> r == Err(ChunkSizeNotPositive)
    ensures chunkSize > 0 && chunkOverlap < 0 ==> r == Err(OverlapNegative)
    ensures chunkOverlap >= chunkSize > 0 ==> r == Err(OverlapNotSmaller)
  {
    if chunkSize <= 0 {
      return Err(ChunkSizeNotPositive);
    }
    if chunkOverlap < 0 {
      return Err(OverlapNegative);
    }
    if chunkOverlap >= chunkSize {
      return Err(OverlapNotSmaller);
    }
    var words := Words(text);
    if words == [] {
      return Ok([]);
    }
    var chunks := ChunkWords(words, chunkSize, chunkOverlap);
    return Ok(chunks);
  }

  /** The words of the document can be read back from the chunk texts alone. */
  lemma ChunkTextsReconstruct(rawText: string, size: nat, overlap: nat)
    requires overlap < size
    ensures Stitch(SplitAll(JoinAll(Chunks(Words(CleanDocumentText(rawText)), size, overlap))), overlap)
         == Words(rawText)
  {
    CleaningKeepsWords(rawText);
    WordsAreWords(rawText);
    SplitJoinChunks(Words(rawText), size, overlap);
    ChunksReconstruct(Words(rawText), size, overlap);
  }
}
