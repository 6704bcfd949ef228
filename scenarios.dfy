/** Worked scenarios for the chunker and the scheduler: four two-second
    cues grouped in pairs, then ticks and seeks against the two chunks. */
module Scenarios {
  import opened Wrappers
  import opened Chunker
  import opened Scheduler
  import Strings

  const Cues: seq<Cue> := [Cue("a", 0.0, 2.0), Cue("b", 2.0, 2.0), Cue("c", 4.0, 2.0), Cue("d", 6.0, 2.0)]
  const Pairs: seq<Chunk> := [Chunk("a b", 0.0, 4.0), Chunk("c d", 4.0, 8.0)]

  /** Pairs of cues: "a b" pauses where "c" starts, "c d" at the end of "d". */
  lemma ChunkPairs()
    ensures Chunked(Cues, 2) == Pairs
  {
    assert Starts(4, 0, 2) == [0, 2];
    assert Cues[0..2] == [Cues[0], Cues[1]];
    assert Cues[2..4] == [Cues[2], Cues[3]];
    assert Texts([Cues[1]]) == ["b"] by { assert [Cues[1]][1..] == []; }
    assert Texts([Cues[3]]) == ["d"] by { assert [Cues[3]][1..] == []; }
    assert Texts(Cues[0..2]) == ["a", "b"] by { assert [Cues[0], Cues[1]][1..] == [Cues[1]]; }
    assert Texts(Cues[2..4]) == ["c", "d"] by { assert [Cues[2], Cues[3]][1..] == [Cues[3]]; }
    assert Strings.Join(["a", "b"], " ") == "a b" by { assert ["a", "b"][1..] == ["b"]; }
    assert Strings.Join(["c", "d"], " ") == "c d" by { assert ["c", "d"][1..] == ["d"]; }
    assert ChunkAt(Cues, 0, 2) == Pairs[0];
    assert ChunkAt(Cues, 2, 2) == Pairs[1];
    assert |Chunked(Cues, 2)| == 2;
  }

  /** The pairs loaded and monitoring started. */
  const Armed: Tracker := Tracker(Pairs, 0, false, true, -1, 0)

  /** Ticking at 0, 1, 2, 3, 4 and 5 seconds pauses once, for the first
      chunk, at 4 seconds. */
  lemma TicksPauseOnceAtFour()
    ensures Run(Armed, [0.0, 1.0, 2.0, 3.0, 4.0, 5.0], true).1 == [0]
  {
  }

  /** After the first pause, seeking back to 1 second re-arms the first
      chunk and seeking to 5 seconds points at the second. */
  lemma SeeksAfterFirstPause()
    ensures var s := Armed.(overlayShown := true, lastPaused := 0, next := 1);
      SeekStep(s, 1.0).next == 0 && SeekStep(s, 5.0).next == 1
  {
  }

  /** A tick 11 seconds past the first pause point, beyond the grace window,
      does not pause, and the cursor stays on the first chunk: a tick at 16
      seconds does not pause either, although it lies in the second chunk's
      grace window. */
  lemma LateTickStalls()
    ensures TickStep(Armed, 15.0, true) == (Armed, None)
    ensures InGrace(Pairs[1], 16.0) && TickStep(Armed, 16.0, true) == (Armed, None)
  {
  }
}
