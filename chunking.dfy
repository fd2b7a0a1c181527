/**
 * The 20-word chunking shared by both resumable speakers
 * (`SpeechController._speak_resumable` and `UI._speak_message`):
 * from position `i`, the next chunk is `words[i:min(i + 20, len(words))]`.
 */
module Chunking {
  import opened Basics
  import opened Text

  const ChunkSize: nat := 20

  /** Where the chunk that starts at `i` ends: `min(i + 20, n)`. */
  function ChunkEnd(n: nat, i: nat): nat {
    Min(i + ChunkSize, n)
  }

  /** The chunks a run starting at word `i` speaks when nothing interrupts it. */
  function ChunksFrom(words: seq<string>, i: nat): seq<seq<string>>
    decreases |words| - i
  {
    if i >= |words| then []
    else [words[i..ChunkEnd(|words|, i)]] + ChunksFrom(words, ChunkEnd(|words|, i))
  }

  function Flatten(chunks: seq<seq<string>>): seq<string> {
    if chunks == [] then [] else chunks[0] + Flatten(chunks[1..])
  }

  /** What is handed to the engine for each chunk: `' '.join(chunk)`. */
  function Texts(chunks: seq<seq<string>>): seq<string> {
    if chunks == [] then [] else [Join(chunks[0])] + Texts(chunks[1..])
  }

  /** Splitting every spoken text again, in order. */
  function Resplit(texts: seq<string>): seq<string> {
    if texts == [] then [] else Words(texts[0]) + Resplit(texts[1..])
  }

  /** A position a run starting at `start` stops at between two chunks. */
  predicate IsBoundary(start: nat, i: nat) {
    start <= i && (i - start) % ChunkSize == 0
  }

  /**
   * The resume rule: a resumable speak restarts at the stored index exactly when
   * its words equal the stored words and the stored index is positive. What
   * the rule achieves is stated by `SpeechControl.StopThenResume` and
   * `MailUI.StopResumeRepeatsChunk`.
   */
  function ResumeStart(words: seq<string>, storedWords: seq<string>, storedIndex: nat): (s: nat)
    ensures s == storedIndex <==> (words == storedWords && storedIndex > 0) || storedIndex == 0
    ensures s != storedIndex ==> s == 0
  {
    if words == storedWords && storedIndex > 0 then storedIndex else 0
  }

  /** The resumable cursor is empty, or points at a chunk boundary inside its words. */
  predicate CursorOk(words: seq<string>, index: nat) {
    index % ChunkSize == 0 && (index == 0 || index < |words|)
  }

  /** The boundaries of a run that starts on a multiple of the chunk size are
      multiples of it too. */
  lemma BoundaryAligned(start: nat, i: nat)
    requires start % ChunkSize == 0 && IsBoundary(start, i)
    ensures i % ChunkSize == 0
  {
    assert i == ChunkSize * ((i - start) / ChunkSize + start / ChunkSize);
  }

  /** The boundary after a boundary. */
  lemma BoundaryNext(start: nat, i: nat)
    requires IsBoundary(start, i)
    ensures IsBoundary(start, i + ChunkSize)
  {
    assert i + ChunkSize - start == (i - start) + ChunkSize;
  }

  /** Speaking the chunk at `i` moves a run's remaining texts on to the next boundary. */
  lemma NextChunk(words: seq<string>, start: nat, i: nat, spoken: seq<string>)
    requires i < |words|
    requires spoken + Texts(ChunksFrom(words, i)) == Texts(ChunksFrom(words, start))
    ensures (spoken + [Join(words[i..ChunkEnd(|words|, i)])]) + Texts(ChunksFrom(words, ChunkEnd(|words|, i)))
            == Texts(ChunksFrom(words, start))
  {
    var e := ChunkEnd(|words|, i);
    assert ChunksFrom(words, i) == [words[i..e]] + ChunksFrom(words, e);
    TextsAppend([words[i..e]], ChunksFrom(words, e));
  }

  lemma FlattenAppend(a: seq<seq<string>>, b: seq<seq<string>>)
    ensures Flatten(a + b) == Flatten(a) + Flatten(b)
  {
    if a != [] {
      assert (a + b)[1..] == a[1..] + b;
      FlattenAppend(a[1..], b);
    } else {
      assert a + b == b;
    }
  }

  lemma TextsAppend(a: seq<seq<string>>, b: seq<seq<string>>)
    ensures Texts(a + b) == Texts(a) + Texts(b)
  {
    if a != [] {
      assert (a + b)[1..] == a[1..] + b;
      TextsAppend(a[1..], b);
    } else {
      assert a + b == b;
    }
  }

  /** The chunks cover exactly the words from `i` on, in order. */
  lemma {:induction false} ChunksCover(words: seq<string>, i: nat)
    requires i <= |words|
    ensures Flatten(ChunksFrom(words, i)) == words[i..]
    decreases |words| - i
  {
    if i < |words| {
      var e := ChunkEnd(|words|, i);
      ChunksCover(words, e);
      assert words[i..] == words[i..e] + words[e..];
    }
  }

  /** Chunk `k` of a run from `i` is the slice starting `20 * k` words later: the
      chunks are non-empty, at most 20 words long, and contiguous. */
  lemma {:induction false} ChunkAt(words: seq<string>, i: nat, k: nat)
    requires k < |ChunksFrom(words, i)|
    ensures i + ChunkSize * k < |words|
    ensures ChunksFrom(words, i)[k] == words[i + ChunkSize * k .. ChunkEnd(|words|, i + ChunkSize * k)]
    ensures 1 <= |ChunksFrom(words, i)[k]| <= ChunkSize
    decreases |words| - i
  {
    var e := ChunkEnd(|words|, i);
    if k > 0 {
      ChunkAt(words, e, k - 1);
      assert e == i + ChunkSize;
      assert i + ChunkSize * k == e + ChunkSize * (k - 1);
    }
  }

  /** The number of chunks is the number of remaining words divided by 20, rounded up. */
  lemma {:induction false} ChunkCount(words: seq<string>, i: nat)
    requires i <= |words|
    ensures |ChunksFrom(words, i)| == (|words| - i + ChunkSize - 1) / ChunkSize
    decreases |words| - i
  {
    if i < |words| {
      ChunkCount(words, ChunkEnd(|words|, i));
    }
  }

  /** Splitting a run at a chunk boundary `j`: what is spoken before `j` is `words[i..j]`
      and what is spoken from `j` on is exactly a run started at `j`. */
  lemma {:induction false} ChunksSplit(words: seq<string>, i: nat, j: nat)
    requires IsBoundary(i, j) && j <= |words|
    ensures (j - i) / ChunkSize <= |ChunksFrom(words, i)|
    ensures ChunksFrom(words, i) == ChunksFrom(words, i)[..(j - i) / ChunkSize] + ChunksFrom(words, j)
    ensures Flatten(ChunksFrom(words, i)[..(j - i) / ChunkSize]) == words[i..j]
    decreases j - i
  {
    var m := (j - i) / ChunkSize;
    if i < j {
      var e := i + ChunkSize;
      assert ChunkEnd(|words|, i) == e;
      ChunksSplit(words, e, j);
      var rest := ChunksFrom(words, e);
      assert (j - e) / ChunkSize == m - 1;
      assert ChunksFrom(words, i) == [words[i..e]] + rest;
      assert m - 1 <= |rest|;
      assert ChunksFrom(words, i)[..m] == [words[i..e]] + rest[..m - 1];
      assert words[i..j] == words[i..e] + words[e..j];
    }
  }

  /** The chunks of a run from `i`, split around the chunk that starts at boundary `j`. */
  lemma {:induction false} ChunksThrough(words: seq<string>, i: nat, j: nat)
    requires IsBoundary(i, j) && j < |words|
    ensures (j - i) / ChunkSize <= |ChunksFrom(words, i)|
    ensures Texts(ChunksFrom(words, i))
            == Texts(ChunksFrom(words, i)[..(j - i) / ChunkSize] + [words[j..ChunkEnd(|words|, j)]])
               + Texts(ChunksFrom(words, ChunkEnd(|words|, j)))
  {
    var e := ChunkEnd(|words|, j);
    ChunksSplit(words, i, j);
    var pre := ChunksFrom(words, i)[..(j - i) / ChunkSize];
    assert ChunksFrom(words, j) == [words[j..e]] + ChunksFrom(words, e);
    assert pre + ChunksFrom(words, j) == (pre + [words[j..e]]) + ChunksFrom(words, e);
    TextsAppend(pre + [words[j..e]], ChunksFrom(words, e));
  }

  /** Every chunk of a list of words is a list of words. */
  lemma {:induction false} ChunksAllWords(words: seq<string>, i: nat)
    requires AllWords(words)
    ensures forall k :: 0 <= k < |ChunksFrom(words, i)| ==> AllWords(ChunksFrom(words, i)[k])
    decreases |words| - i
  {
    if i < |words| {
      var e := ChunkEnd(|words|, i);
      ChunksAllWords(words, e);
      assert AllWords(words[i..e]);
    }
  }

  /** Splitting again the texts of the chunks of a run from `i` before boundary `j`
      gives the words from `i` to `j`. */
  lemma {:induction false} HeardBefore(words: seq<string>, i: nat, j: nat)
    requires AllWords(words) && IsBoundary(i, j) && j <= |words|
    ensures (j - i) / ChunkSize <= |ChunksFrom(words, i)|
    ensures Resplit(Texts(ChunksFrom(words, i)[..(j - i) / ChunkSize])) == words[i..j]
  {
    ChunksSplit(words, i, j);
    var pre := ChunksFrom(words, i)[..(j - i) / ChunkSize];
    ChunksAllWords(words, i);
    assert forall k :: 0 <= k < |pre| ==> pre[k] == ChunksFrom(words, i)[k];
    HeardChunks(pre);
  }

  /** Splitting again the texts of the chunks of a run from `i` up to and including
      the chunk at boundary `j` gives the words from `i` to that chunk's end. */
  lemma {:induction false} HeardThrough(words: seq<string>, i: nat, j: nat)
    requires AllWords(words) && IsBoundary(i, j) && j < |words|
    ensures (j - i) / ChunkSize <= |ChunksFrom(words, i)|
    ensures Resplit(Texts(ChunksFrom(words, i)[..(j - i) / ChunkSize] + [words[j..ChunkEnd(|words|, j)]]))
            == words[i..ChunkEnd(|words|, j)]
  {
    var e := ChunkEnd(|words|, j);
    var last := words[j..e];
    HeardBefore(words, i, j);
    var pre := ChunksFrom(words, i)[..(j - i) / ChunkSize];
    TextsAppend(pre, [last]);
    assert Texts([last]) == [Join(last)] by {
      assert [last][1..] == [];
    }
    ResplitAppend(Texts(pre), [Join(last)]);
    HeardOne(words[j..e]);
    assert words[i..e] == words[i..j] + last;
  }

  /** One spoken chunk, split again, is the chunk. */
  lemma HeardOne(chunk: seq<string>)
    requires AllWords(chunk)
    ensures Resplit([Join(chunk)]) == chunk
  {
    WordsOfJoin(chunk);
    assert [Join(chunk)][1..] == [];
  }

  lemma ResplitAppend(a: seq<string>, b: seq<string>)
    ensures Resplit(a + b) == Resplit(a) + Resplit(b)
  {
    if a != [] {
      assert (a + b)[1..] == a[1..] + b;
    } else {
      assert a + b == b;
    }
  }

  /** A listener who splits the spoken texts again hears exactly the words from `i` on. */
  lemma {:induction false} HeardWords(words: seq<string>, i: nat)
    requires AllWords(words) && i <= |words|
    ensures Resplit(Texts(ChunksFrom(words, i))) == words[i..]
    decreases |words| - i
  {
    if i < |words| {
      var e := ChunkEnd(|words|, i);
      var c := words[i..e];
      assert AllWords(c);
      WordsOfJoin(c);
      HeardWords(words, e);
      assert words[i..] == c + words[e..];
    }
  }

  /** Splitting the texts of chunks of words again gives the words of the chunks. */
  lemma {:induction false} HeardChunks(chunks: seq<seq<string>>)
    requires forall k :: 0 <= k < |chunks| ==> AllWords(chunks[k])
    ensures Resplit(Texts(chunks)) == Flatten(chunks)
  {
    if chunks != [] {
      WordsOfJoin(chunks[0]);
      HeardChunks(chunks[1..]);
    }
  }
}
