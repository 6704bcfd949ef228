/** Caption chunking (`chunkCaptions` in content.js): consecutive runs of
    `chunkSize` cues become one chunk whose text is the cues' texts joined with
    spaces, whose start is the first cue's start, and whose pause point is the
    start of the next run, or the end of the last cue for the final chunk. */
module Chunker {
  import opened Wrappers
  import Strings

  /** A timed caption line; times are in seconds. */
  datatype Cue = Cue(text: string, start: real, duration: real)

  /** A run of cues treated as one pause unit. */
  datatype Chunk = Chunk(text: string, start: real, pauseAt: real)

  function Min(a: int, b: int): int
  {
    if a < b then a else b
  }

  /** The texts of the cues, in order. */
  function Texts(cues: seq<Cue>): seq<string>
  {
    if |cues| == 0 then [] else [cues[0].text] + Texts(cues[1..])
  }

  /** The chunk whose run of cues begins at offset `i`: the cues
      `captions[i .. min(i + size, n))`. */
  function ChunkAt(captions: seq<Cue>, i: nat, size: nat): (c: Chunk)
    requires i < |captions| && size > 0
    ensures c.start == captions[i].start
    ensures i + size < |captions| ==> c.pauseAt == captions[i + size].start
    ensures |captions| <= i + size ==>
      c.pauseAt == captions[|captions| - 1].start + captions[|captions| - 1].duration
  {
    var group := captions[i..Min(i + size, |captions|)];
    var last := group[|group| - 1];
    Chunk(Strings.Join(Texts(group), " "), group[0].start,
          if i + size < |captions| then captions[i + size].start else last.start + last.duration)
  }

  /** The offsets `i, i + size, i + 2 * size, ...` below `n`: where the runs
      of cues begin. */
  function Starts(n: nat, i: nat, size: nat): (r: seq<nat>)
    requires size > 0
    decreases n - i
    ensures forall j :: 0 <= j < |r| ==> i <= r[j] < n
  {
    if n <= i then [] else [i] + Starts(n, i + size, size)
  }

  /** The offsets begin at `i` when it is below `n`, and the last run reaches
      the end. */
  lemma {:induction false} StartsEnds(n: nat, i: nat, size: nat)
    requires size > 0
    decreases n - i
    ensures var r := Starts(n, i, size);
      (|r| > 0 <==> i < n) && (|r| > 0 ==> r[0] == i && n <= r[|r| - 1] + size)
  {
    if i < n {
      StartsEnds(n, i + size, size);
    }
  }

  /** The chunk list for a positive chunk size: one chunk per run. */
  function Chunked(captions: seq<Cue>, size: nat): (r: seq<Chunk>)
    requires size > 0
    ensures |r| > 0 <==> |captions| > 0
    ensures |r| > 0 ==> r[0].start == captions[0].start
    ensures |r| > 0 ==> r[|r| - 1].pauseAt == captions[|captions| - 1].start + captions[|captions| - 1].duration
  {
    StartsEnds(|captions|, 0, size);
    var starts := Starts(|captions|, 0, size);
    seq(|starts|, k requires 0 <= k < |starts| => ChunkAt(captions, starts[k], size))
  }

  lemma NextStart(starts: seq<nat>, j: nat, n: nat, i: nat, size: nat)
    requires size > 0 && i < n && j <= |starts| && starts[j..] == Starts(n, i, size)
    ensures j < |starts| && starts[j] == i && starts[j + 1..] == Starts(n, i + size, size)
  {
  }

  /** The chunking loop. A non-positive size makes the first iteration read
      a field of `undefined` (the empty slice's first element, or a cue at a
      negative index), which throws a TypeError: that outcome is None. */
  method ChunkCaptions(captions: seq<Cue>, chunkSize: int) returns (r: Option<seq<Chunk>>)
    ensures r.None? <==> |captions| > 0 && chunkSize <= 0
    ensures r.Some? && chunkSize <= 0 ==> r.value == []
    ensures r.Some? && chunkSize > 0 ==> r.value == Chunked(captions, chunkSize)
  {
    if chunkSize <= 0 {
      if |captions| > 0 {
        return None;
      }
      return Some([]);
    }
    ghost var starts := Starts(|captions|, 0, chunkSize);
    var chunks: seq<Chunk> := [];
    var i := 0;
    while i < |captions|
      invariant |chunks| <= |starts|
      invariant starts[|chunks|..] == Starts(|captions|, i, chunkSize)
      invariant forall k :: 0 <= k < |chunks| ==> chunks[k] == ChunkAt(captions, starts[k], chunkSize)
    {
      var group := captions[i..Min(i + chunkSize, |captions|)];
      var text := Strings.Join(Texts(group), " ");
      var start := group[0].start;
      var pauseAt: real;
      if i + chunkSize < |captions| {
        pauseAt := captions[i + chunkSize].start;
      } else {
        var last := group[|group| - 1];
        pauseAt := last.start + last.duration;
      }
      NextStart(starts, |chunks|, |captions|, i, chunkSize);
      assert Chunk(text, start, pauseAt) == ChunkAt(captions, i, chunkSize);
      chunks := chunks + [Chunk(text, start, pauseAt)];
      i := i + chunkSize;
    }
    assert |chunks| == |starts|;
    return Some(chunks);
  }
}

/** What the chunk list looks like: how many chunks there are, which cues
    each one is built from, and how the pause points line up. */
module ChunkerProperties {
  import opened Chunker
  import Strings

  /** `k * size`, spelled out as repeated addition so that the inductions
      over chunks stay linear. */
  function Offset(k: nat, size: nat): nat
  {
    if k == 0 then 0 else Offset(k - 1, size) + size
  }

  lemma {:induction false} OffsetIsProduct(k: nat, size: nat)
    ensures Offset(k, size) == k * size
  {
    if k > 0 {
      OffsetIsProduct(k - 1, size);
      assert (k - 1) * size + size == k * size;
    }
  }

  lemma {:induction false} CountFrom(n: nat, i: nat, size: nat)
    requires size > 0
    decreases n - i
    ensures var m := |Starts(n, i, size)|;
      if n <= i then m == 0
      else m > 0 && i + Offset(m - 1, size) < n <= i + Offset(m, size)
  {
    if i < n {
      CountFrom(n, i + size, size);
    }
  }

  /** There are ceil(n / size) chunks for n cues: the last run of cues
      begins before the end of the list and reaches it. */
  lemma ChunkCount(captions: seq<Cue>, size: nat)
    requires size > 0
    ensures var m := |Chunked(captions, size)|;
      (|captions| == 0 ==> m == 0) &&
      (|captions| > 0 ==> (m - 1) * size < |captions| <= m * size)
  {
    CountFrom(|captions|, 0, size);
    var m := |Chunked(captions, size)|;
    if m > 0 {
      OffsetIsProduct(m - 1, size);
      OffsetIsProduct(m, size);
    }
  }

  lemma {:induction false} StartAt(n: nat, i: nat, size: nat, k: nat)
    requires size > 0 && k < |Starts(n, i, size)|
    decreases k
    ensures Starts(n, i, size)[k] == i + Offset(k, size)
  {
    if k > 0 {
      StartAt(n, i + size, size, k - 1);
    }
  }

  /** Chunk k is built from the cues `captions[k * size .. min(n, (k + 1) * size))`:
      its text joins their texts with single spaces, its start is the first
      one's start, and it pauses at the start of the cue after them, or at the
      end of its own last cue when no cue follows. */
  lemma ChunkShape(captions: seq<Cue>, size: nat, k: nat)
    requires size > 0 && k < |Chunked(captions, size)|
    ensures var c := Chunked(captions, size)[k];
      var lo := k * size;
      var hi := Min(lo + size, |captions|);
      lo < hi <= |captions| &&
      c.text == Strings.Join(Texts(captions[lo..hi]), " ") &&
      c.start == captions[lo].start &&
      c.pauseAt == if hi < |captions| then captions[hi].start
                   else captions[hi - 1].start + captions[hi - 1].duration
  {
    StartAt(|captions|, 0, size, k);
    OffsetIsProduct(k, size);
  }

  /** Every chunk except the last pauses exactly where the next one starts,
      which is the start of cue (k + 1) * size. */
  lemma PauseAtIsNextStart(captions: seq<Cue>, size: nat, k: nat)
    requires size > 0 && k + 1 < |Chunked(captions, size)|
    ensures (k + 1) * size < |captions|
    ensures Chunked(captions, size)[k].pauseAt == captions[(k + 1) * size].start
    ensures Chunked(captions, size)[k].pauseAt == Chunked(captions, size)[k + 1].start
  {
    ChunkShape(captions, size, k);
    ChunkShape(captions, size, k + 1);
    assert (k + 1) * size == k * size + size;
  }

  /** The last chunk pauses at the end of the last cue. */
  lemma LastPauseAtEnd(captions: seq<Cue>, size: nat)
    requires size > 0 && |captions| > 0
    ensures var chunks := Chunked(captions, size);
      |chunks| > 0 &&
      chunks[|chunks| - 1].pauseAt == captions[|captions| - 1].start + captions[|captions| - 1].duration
  {
    CountFrom(|captions|, 0, size);
    var k := |Chunked(captions, size)| - 1;
    OffsetIsProduct(k, size);
    ChunkShape(captions, size, k);
  }

  /** Cue starts never go backwards and durations are not negative: the order
      in which the caption source delivers them. */
  ghost predicate WellTimed(captions: seq<Cue>)
  {
    (forall i, j :: 0 <= i <= j < |captions| ==> captions[i].start <= captions[j].start) &&
    (forall i :: 0 <= i < |captions| ==> 0.0 <= captions[i].duration)
  }

  /** For well-timed cues a chunk never pauses before it starts. */
  lemma StartBeforePause(captions: seq<Cue>, size: nat, k: nat)
    requires size > 0 && WellTimed(captions) && k < |Chunked(captions, size)|
    ensures Chunked(captions, size)[k].start <= Chunked(captions, size)[k].pauseAt
  {
  }

  /** Pause points that never drop from one chunk to the next never drop
      along the whole list. */
  lemma {:induction false} StepsNondecreasing(chunks: seq<Chunk>, i: nat, j: nat)
    requires i <= j < |chunks|
    requires forall k :: 0 <= k < |chunks| - 1 ==> chunks[k].pauseAt <= chunks[k + 1].pauseAt
    decreases j - i
    ensures chunks[i].pauseAt <= chunks[j].pauseAt
  {
    if i < j {
      StepsNondecreasing(chunks, i, j - 1);
    }
  }

  /** For well-timed cues the pause points never go backwards along the chunk
      list. */
  lemma PauseAtNondecreasing(captions: seq<Cue>, size: nat, i: nat, j: nat)
    requires size > 0 && WellTimed(captions) && i <= j < |Chunked(captions, size)|
    ensures Chunked(captions, size)[i].pauseAt <= Chunked(captions, size)[j].pauseAt
  {
    var chunks := Chunked(captions, size);
    forall k | 0 <= k < |chunks| - 1
      ensures chunks[k].pauseAt <= chunks[k + 1].pauseAt
    {
      PauseAtIsNextStart(captions, size, k);
      StartBeforePause(captions, size, k + 1);
    }
    StepsNondecreasing(chunks, i, j);
  }
}
