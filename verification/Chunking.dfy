/** Cutting a document into overlapping chunks of words
    (backend/internal/rag/knowledge_chunking.go). */
module Chunking {
  import opened Text
  import opened Words

  const CHUNK_SIZE := 320
  const CHUNK_OVERLAP := 48

  // ----------------------------------------------------------------- chunks

  function Texts(chunks: seq<seq<string>>): (r: seq<string>)
    ensures |r| == |chunks| && forall i :: 0 <= i < |r| ==> r[i] == JoinWords(chunks[i])
  {
    seq(|chunks|, i requires 0 <= i < |chunks| => JoinWords(chunks[i]))
  }

  function Min(a: int, b: int): int {
    if a < b then a else b
  }

  /** The window at `start`: full, unless the document ends inside it. */
  function Window(words: seq<string>, start: nat): seq<string>
    requires start <= |words|
  {
    words[start..Min(start + CHUNK_SIZE, |words|)]
  }

  /** The chunks from `start` on: full ones while words remain beyond the window, each
      starting so many words before the end of the one before it. */
  function ChunksFrom(words: seq<string>, start: nat): seq<seq<string>>
    requires start < |words|
    decreases |words| - start
  {
    var end := Min(start + CHUNK_SIZE, |words|);
    [Window(words, start)] + if end == |words| then [] else ChunksFrom(words, end - CHUNK_OVERLAP)
  }

  function Chunks(words: seq<string>): seq<seq<string>> {
    if words == [] then [] else ChunksFrom(words, 0)
  }

  lemma TextsStep(done: seq<seq<string>>, chunk: seq<string>)
    ensures Texts(done + [chunk]) == Texts(done) + [JoinWords(chunk)]
  {
    hide JoinWords;
  }

  lemma ChunksStep(words: seq<string>, start: nat, done: seq<seq<string>>)
    requires start < |words|
    ensures var end := Min(start + CHUNK_SIZE, |words|);
      done + ChunksFrom(words, start) ==
        if end == |words| then done + [words[start..end]]
        else done + [words[start..end]] + ChunksFrom(words, end - CHUNK_OVERLAP)
  {
    var end := Min(start + CHUNK_SIZE, |words|);
    if end < |words| {
      Regroup(done, [words[start..end]], ChunksFrom(words, end - CHUNK_OVERLAP));
    }
  }

  method ChunkText(content: string) returns (chunks: seq<string>)
    ensures chunks == Texts(Chunks(Fields(content)))
  {
    FieldsOfTrim(content);
    var words := Fields(TrimSpace(content));
    hide Fields, TrimSpace, JoinWords;
    if |words| == 0 {
      return [];
    }
    if |words| <= CHUNK_SIZE {
      assert words[0..|words|] == words;
      return [JoinWords(words)];
    }
    chunks := [];
    var start: int := 0;
    ghost var done: seq<seq<string>> := [];
    assert Texts(done) == [];
    assert Chunks(words) == [] + ChunksFrom(words, 0);
    while start < |words|
      invariant 0 <= start < |words|
      invariant chunks == Texts(done)
      invariant Chunks(words) == done + ChunksFrom(words, start)
      decreases |words| - start
    {
      var end := start + CHUNK_SIZE;
      if end > |words| {
        end := |words|;
      }
      TextsStep(done, words[start..end]);
      ChunksStep(words, start, done);
      hide Chunks, ChunksFrom, Texts;
      chunks := chunks + [JoinWords(words[start..end])];
      done := done + [words[start..end]];
      if end == |words| {
        break;
      }
      start := end - CHUNK_OVERLAP;
      if start < 0 {
        start := 0;
      }
    }
  }

  /** The first chunk and what each later one adds to it. */
  function Unlapped(chunks: seq<seq<string>>): seq<string>
    requires forall i :: 0 < i < |chunks| ==> |chunks[i]| >= CHUNK_OVERLAP
  {
    if chunks == [] then []
    else if |chunks| == 1 then chunks[0]
    else Unlapped(chunks[..|chunks| - 1]) + chunks[|chunks| - 1][CHUNK_OVERLAP..]
  }

  /** Every chunk but the last is full, the last is longer than the overlap it starts
      with, and each begins with the end of the one before. */
  ghost predicate WellCut(chunks: seq<seq<string>>) {
    && (forall i :: 0 <= i < |chunks| - 1 ==> |chunks[i]| == CHUNK_SIZE)
    && (forall i :: 0 < i < |chunks| ==> CHUNK_OVERLAP < |chunks[i]| <= CHUNK_SIZE)
    && (forall i :: 0 <= i < |chunks| - 1 ==> chunks[i][CHUNK_SIZE - CHUNK_OVERLAP..] == chunks[i + 1][..CHUNK_OVERLAP])
  }

  function Offset(i: nat): nat {
    if i == 0 then 0 else Offset(i - 1) + CHUNK_SIZE - CHUNK_OVERLAP
  }

  lemma {:induction false} OffsetIs(i: nat)
    ensures Offset(i) == 272 * i
  {
    if i == 0 {
    } else {
      OffsetIs(i - 1);
    }
  }

  /** Chunk `i` is the window 272 words further on than the one before. */
  lemma {:induction false} ChunkAt(words: seq<string>, start: nat, i: nat)
    requires start < |words| && i < |ChunksFrom(words, start)|
    ensures var at := start + Offset(i);
      && at < |words| && ChunksFrom(words, start)[i] == Window(words, at)
      && (at + CHUNK_SIZE >= |words| <==> i == |ChunksFrom(words, start)| - 1)
      && (start + CHUNK_OVERLAP < |words| ==> at + CHUNK_OVERLAP < |words|)
    decreases i
  {
    hide Window;
    if i == 0 {
    } else {
      ChunkAt(words, Min(start + CHUNK_SIZE, |words|) - CHUNK_OVERLAP, i - 1);
    }
  }

  lemma OffsetStep(i: nat)
    ensures Offset(i + 1) == Offset(i) + CHUNK_SIZE - CHUNK_OVERLAP
  {
  }

  lemma ChunkSizes(words: seq<string>, i: nat)
    requires i < |Chunks(words)|
    ensures var chunks := Chunks(words);
      && 0 < |chunks[i]| <= CHUNK_SIZE
      && (i < |chunks| - 1 ==> |chunks[i]| == CHUNK_SIZE)
      && (i > 0 ==> |chunks[i]| > CHUNK_OVERLAP)
  {
    ChunkAt(words, 0, i);
    if i > 0 {
      ChunkAt(words, 0, 0);
    }
    hide ChunksFrom;
  }

  lemma WindowsOverlap(words: seq<string>, at: nat)
    requires at + CHUNK_SIZE <= |words|
    ensures var next := at + CHUNK_SIZE - CHUNK_OVERLAP;
      && |Window(words, next)| >= CHUNK_OVERLAP
      && Window(words, at)[CHUNK_SIZE - CHUNK_OVERLAP..] == Window(words, next)[..CHUNK_OVERLAP]
  {
    var next := at + CHUNK_SIZE - CHUNK_OVERLAP;
    Inside(words, at, at + CHUNK_SIZE, CHUNK_SIZE - CHUNK_OVERLAP, CHUNK_SIZE);
    Inside(words, next, Min(next + CHUNK_SIZE, |words|), 0, CHUNK_OVERLAP);
  }

  lemma ChunksOverlap(words: seq<string>, i: nat)
    requires i + 1 < |Chunks(words)|
    requires |Chunks(words)[i]| == CHUNK_SIZE && |Chunks(words)[i + 1]| >= CHUNK_OVERLAP
    ensures Chunks(words)[i][CHUNK_SIZE - CHUNK_OVERLAP..] == Chunks(words)[i + 1][..CHUNK_OVERLAP]
  {
    hide ChunksFrom, Offset;
    ChunkAt(words, 0, i);
    ChunkAt(words, 0, i + 1);
    OffsetStep(i);
    WindowsOverlap(words, Offset(i));
  }

  /** Above one window, the number of chunks is one more than what is left after the first,
      divided by the step and rounded up. */
  lemma ChunkCount(words: seq<string>)
    ensures var n := |Chunks(words)|;
      && (n == 0 <==> words == []) && (n == 1 <==> 0 < |words| <= CHUNK_SIZE)
      && (n > 1 ==> CHUNK_SIZE + 272 * (n - 2) < |words| <= CHUNK_SIZE + 272 * (n - 1))
  {
    if words != [] {
      var n := |Chunks(words)|;
      ChunkAt(words, 0, n - 1);
      OffsetIs(n - 1);
      if n > 1 {
        ChunkAt(words, 0, n - 2);
        OffsetIs(n - 2);
      }
    }
  }

  /** How long chunks are, how they overlap, and how many there are. */
  lemma ChunksAreWellCut(words: seq<string>)
    ensures var chunks := Chunks(words);
      && WellCut(chunks)
      && (chunks == [] <==> words == [])
      && (forall i :: 0 <= i < |chunks| ==> 0 < |chunks[i]| <= CHUNK_SIZE)
  {
    var chunks := Chunks(words);
    hide Chunks;
    forall i | 0 <= i < |chunks|
      ensures 0 < |chunks[i]| <= CHUNK_SIZE
      ensures i < |chunks| - 1 ==> |chunks[i]| == CHUNK_SIZE
      ensures i > 0 ==> |chunks[i]| > CHUNK_OVERLAP
    {
      ChunkSizes(words, i);
    }
    forall i | 0 <= i < |chunks| - 1
      ensures chunks[i][CHUNK_SIZE - CHUNK_OVERLAP..] == chunks[i + 1][..CHUNK_OVERLAP]
    {
      ChunksOverlap(words, i);
    }
    ChunkCount(words);
  }

  lemma Extended(words: seq<string>, at: nat, end: nat)
    requires at + CHUNK_OVERLAP <= end <= |words|
    ensures words[..at + CHUNK_OVERLAP] + words[at..end][CHUNK_OVERLAP..] == words[..end]
  {
    Inside(words, at, end, CHUNK_OVERLAP, end - at);
    Adjacent(words, 0, at + CHUNK_OVERLAP, end);
  }

  /** The words that the first `k` chunks cover. */
  function Covered(words: seq<string>, k: nat): seq<string>
    requires k > 0
  {
    words[..Min(Offset(k - 1) + CHUNK_SIZE, |words|)]
  }

  lemma CoveredStep(words: seq<string>, k: nat)
    requires words != [] && 1 < k <= |Chunks(words)| && |Chunks(words)[k - 1]| >= CHUNK_OVERLAP
    ensures Covered(words, k) == Covered(words, k - 1) + Chunks(words)[k - 1][CHUNK_OVERLAP..]
  {
    hide ChunksFrom, Offset;
    ChunkAt(words, 0, k - 1);
    ChunkAt(words, 0, k - 2);
    OffsetStep(k - 2);
    var at := Offset(k - 1);
    Extended(words, at, Min(at + CHUNK_SIZE, |words|));
  }

  lemma UnlappedStep(chunks: seq<seq<string>>, k: nat)
    requires 1 < k <= |chunks| && forall i :: 0 < i < |chunks| ==> |chunks[i]| >= CHUNK_OVERLAP
    ensures Unlapped(chunks[..k]) == Unlapped(chunks[..k - 1]) + chunks[k - 1][CHUNK_OVERLAP..]
  {
    assert chunks[..k][..k - 1] == chunks[..k - 1];
  }

  lemma {:induction false} UnlappedPrefix(words: seq<string>, k: nat)
    requires words != [] && 0 < k <= |Chunks(words)|
    requires forall i :: 0 < i < |Chunks(words)| ==> |Chunks(words)[i]| >= CHUNK_OVERLAP
    ensures Unlapped(Chunks(words)[..k]) == Covered(words, k)
    decreases k
  {
    if k > 1 {
      hide Chunks, Covered, Unlapped;
      UnlappedPrefix(words, k - 1);
      UnlappedStep(Chunks(words), k);
      CoveredStep(words, k);
    } else {
      ChunkAt(words, 0, 0);
    }
  }

  /** The chunks hold the document: the first one and each later one without its first
      48 words are the words in order. */
  lemma ChunksRebuild(words: seq<string>)
    ensures WellCut(Chunks(words)) && Unlapped(Chunks(words)) == words
  {
    ChunksAreWellCut(words);
    if words != [] {
      var chunks := Chunks(words);
      UnlappedPrefix(words, |chunks|);
      ChunkAt(words, 0, |chunks| - 1);
      assert chunks[..|chunks|] == chunks;
    }
  }

  function AllFields(texts: seq<string>): (r: seq<seq<string>>)
    ensures |r| == |texts| && forall i :: 0 <= i < |r| ==> r[i] == Fields(texts[i])
  {
    seq(|texts|, i requires 0 <= i < |texts| => Fields(texts[i]))
  }

  lemma {:induction false} ChunksAreOfWords(words: seq<string>, i: nat)
    requires AllWords(words) && i < |Chunks(words)|
    ensures AllWords(Chunks(words)[i])
  {
    ChunkAt(words, 0, i);
  }

  /** The words of the chunk texts put together without the overlaps are the words of the
      document. */
  lemma TextsRebuild(content: string)
    ensures var parts := AllFields(Texts(Chunks(Fields(content))));
      WellCut(parts) && Unlapped(parts) == Fields(content)
  {
    var words := Fields(content);
    var chunks := Chunks(words);
    FieldsAreWords(content);
    hide Chunks, Fields, JoinWords, WellCut, Unlapped, AllWords;
    forall i | 0 <= i < |chunks| ensures Fields(Texts(chunks)[i]) == chunks[i] {
      ChunksAreOfWords(words, i);
      FieldsOfJoin(chunks[i]);
    }
    assert AllFields(Texts(chunks)) == chunks;
    ChunksRebuild(words);
  }

  /** Chunking a chunk gives just that chunk. */
  lemma ChunkOfChunk(content: string, i: nat)
    requires i < |Chunks(Fields(content))|
    ensures var text := Texts(Chunks(Fields(content)))[i];
      Texts(Chunks(Fields(text))) == [text]
  {
    var words := Fields(content);
    var chunk := Chunks(words)[i];
    FieldsAreWords(content);
    ChunksAreOfWords(words, i);
    FieldsOfJoin(chunk);
    ChunksAreWellCut(words);
    assert 0 < |chunk| <= CHUNK_SIZE;
    hide Fields, JoinWords, WellCut;
    assert chunk[0..|chunk|] == chunk;
    assert Chunks(chunk) == [chunk];
  }
}
