/** The pause scheduler of content.js as a state machine over the tracker
    record: the seek listener recomputes the cursor `next` from the playback
    time, and every 100 ms tick may first reset the cursor after a rewind and
    then fire at most one pause. */
module Scheduler {
  import opened Wrappers
  import opened Chunker

  /** How late after its pause point a chunk may still fire, in seconds. */
  const GraceWindow: real := 10.0
  /** How far before the previous pause point the time must drop before a
      tick treats it as a rewind, in seconds. */
  const RewindTolerance: real := 1.0

  /** The global `captionTracker` record. `polling` says whether the 100 ms
      interval is installed. */
  datatype Tracker = Tracker(
    chunks: seq<Chunk>,
    currentChunk: int,
    overlayShown: bool,
    polling: bool,
    lastPaused: int,
    next: int)

  /** The tracker as declared at load time and as rebuilt by `cleanupExtension`. */
  const Initial: Tracker := Tracker([], 0, false, false, -1, 0)

  /** The cursor points at a chunk or just past the last one, and the last
      paused chunk is a chunk or -1. */
  predicate Valid(s: Tracker)
  {
    0 <= s.next <= |s.chunks| && -1 <= s.lastPaused < |s.chunks|
  }

  /** The index of the first chunk whose pause point lies after `t`, or the
      number of chunks when no pause point does. */
  function FirstAfter(chunks: seq<Chunk>, t: real): (k: nat)
    ensures k <= |chunks|
    ensures forall j :: 0 <= j < k ==> chunks[j].pauseAt <= t
    ensures k < |chunks| ==> t < chunks[k].pauseAt
  {
    if |chunks| == 0 || t < chunks[0].pauseAt then 0
    else 1 + FirstAfter(chunks[1..], t)
  }

  /** A chunk may fire at `t` when `t` lies in its grace window. */
  predicate InGrace(c: Chunk, t: real)
  {
    c.pauseAt <= t <= c.pauseAt + GraceWindow
  }

  /** The rewind guard: the time has dropped more than the tolerance below
      the pause point of the chunk before the cursor. */
  predicate RewindDetected(chunks: seq<Chunk>, next: int, t: real)
    requires 0 <= next <= |chunks|
  {
    next > 0 && t < chunks[next - 1].pauseAt - RewindTolerance
  }

  /** The cursor after the rewind guard. It never moves forward: the chunk
      before the cursor pauses after `t`, so the first such chunk is at most
      that one. */
  function CursorAfterGuard(chunks: seq<Chunk>, next: int, t: real): (g: nat)
    requires 0 <= next <= |chunks|
    ensures g <= next
  {
    if RewindDetected(chunks, next, t) then FirstAfter(chunks, t) else next
  }

  /** The seek listener: only the cursor changes. */
  function SeekStep(s: Tracker, t: real): (r: Tracker)
    ensures r.(next := s.next) == s
    ensures 0 <= r.next <= |s.chunks|
    ensures forall j :: 0 <= j < r.next ==> s.chunks[j].pauseAt <= t
    ensures r.next < |s.chunks| ==> t < s.chunks[r.next].pauseAt
  {
    s.(next := FirstAfter(s.chunks, t))
  }

  /** `startMonitoringVideo`: the running interval is cleared; when the
      video element is found the cursor is rewound to the first chunk and a
      new interval is started, otherwise the state waits for the retry. */
  function StartStep(s: Tracker, videoFound: bool): (r: Tracker)
    ensures r.chunks == s.chunks && r.currentChunk == s.currentChunk && r.overlayShown == s.overlayShown
    ensures r.polling == videoFound
    ensures videoFound ==> Valid(r) && r.next == 0 && r.lastPaused == -1
    ensures !videoFound ==> r.next == s.next && r.lastPaused == s.lastPaused
  {
    if videoFound then s.(lastPaused := -1, next := 0, polling := true)
    else s.(polling := false)
  }

  /** One interval tick at time `t`; the second component is the chunk whose
      pause fired, if any. */
  function TickStep(s: Tracker, t: real, enabled: bool): (r: (Tracker, Option<Chunk>))
    requires Valid(s)
    ensures Valid(r.0) && r.0.chunks == s.chunks
    ensures r.1.Some? ==> 0 <= r.0.lastPaused && r.0.next == r.0.lastPaused + 1
    ensures r.1.Some? ==> r.1.value == s.chunks[r.0.lastPaused] && InGrace(r.1.value, t)
  {
    if !enabled || |s.chunks| == 0 then (s, None)
    else
      var g := CursorAfterGuard(s.chunks, s.next, t);
      if g < |s.chunks| && InGrace(s.chunks[g], t) then
        (s.(overlayShown := true, lastPaused := g, next := g + 1), Some(s.chunks[g]))
      else
        (s.(next := g), None)
  }

  /** A sequence of ticks with no seek in between; the second component
      lists the indices of the chunks that fired, in order. */
  function Run(s: Tracker, times: seq<real>, enabled: bool): (r: (Tracker, seq<int>))
    requires Valid(s)
    ensures Valid(r.0) && r.0.chunks == s.chunks
    decreases |times|
  {
    if |times| == 0 then (s, [])
    else
      var (s1, paused) := TickStep(s, times[0], enabled);
      var (s2, fired) := Run(s1, times[1..], enabled);
      (s2, (if paused.Some? then [s1.lastPaused] else []) + fired)
  }
}

/** What the seek listener and the tick promise. */
module SchedulerProperties {
  import opened Wrappers
  import opened Chunker
  import opened Scheduler

  /** The seek target is exactly the smallest index whose pause point lies
      after `t`, or the number of chunks when there is none. */
  lemma FirstAfterIsSmallest(chunks: seq<Chunk>, t: real, k: nat)
    ensures k == FirstAfter(chunks, t) <==>
      k <= |chunks| &&
      (forall j :: 0 <= j < k ==> chunks[j].pauseAt <= t) &&
      (k < |chunks| ==> t < chunks[k].pauseAt)
  {
  }

  /** A later seek never targets an earlier chunk. */
  lemma SeekMonotone(chunks: seq<Chunk>, t1: real, t2: real)
    requires t1 <= t2
    ensures FirstAfter(chunks, t1) <= FirstAfter(chunks, t2)
  {
  }

  /** The initial tracker is valid, holds no chunks and is not polling. */
  lemma InitialValid()
    ensures Valid(Initial) && |Initial.chunks| == 0 && !Initial.polling
  {
  }

  /** Starting with the video present makes any tracker valid, with the
      cursor on the first chunk and nothing paused yet; only those three
      fields change. Without the video, only polling stops. */
  lemma StartArms(s: Tracker, videoFound: bool)
    ensures var r := StartStep(s, videoFound);
      r.chunks == s.chunks && r.currentChunk == s.currentChunk && r.overlayShown == s.overlayShown &&
      (videoFound ==> Valid(r) && r.next == 0 && r.lastPaused == -1 && r.polling) &&
      (!videoFound ==> r == s.(polling := false))
  {
  }

  /** A seek keeps the tracker valid and changes nothing but the cursor. */
  lemma SeekKeepsValid(s: Tracker, t: real)
    requires Valid(s)
    ensures Valid(SeekStep(s, t))
    ensures SeekStep(s, t).(next := s.next) == s
  {
  }

  /** A tick does nothing while the feature is disabled or no chunks are
      loaded. */
  lemma TickIdle(s: Tracker, t: real, enabled: bool)
    requires Valid(s) && (!enabled || |s.chunks| == 0)
    ensures TickStep(s, t, enabled) == (s, None)
  {
  }

  /** The rewind guard moves the cursor back exactly when it fires, and then
      to the seek target of `t`. */
  lemma GuardResets(chunks: seq<Chunk>, next: int, t: real)
    requires 0 <= next <= |chunks|
    ensures CursorAfterGuard(chunks, next, t) < next <==> RewindDetected(chunks, next, t)
    ensures RewindDetected(chunks, next, t) ==> CursorAfterGuard(chunks, next, t) == FirstAfter(chunks, t)
  {
    if RewindDetected(chunks, next, t) {
      assert t < chunks[next - 1].pauseAt;
    }
  }

  /** A pause fires exactly when the feature is on, chunks are loaded, and
      the time lies in the grace window of the chunk at the cursor (after the
      rewind guard). Firing emits that chunk, records it as the last paused
      one and moves the cursor one past it; otherwise the cursor stays where
      the guard left it and the last paused chunk is unchanged. No other field
      changes. */
  lemma TickFiresExactly(s: Tracker, t: real, enabled: bool)
    requires Valid(s) && enabled && |s.chunks| > 0
    ensures var g := CursorAfterGuard(s.chunks, s.next, t);
      var (s', paused) := TickStep(s, t, enabled);
      (paused.Some? <==> g < |s.chunks| && InGrace(s.chunks[g], t)) &&
      (paused.Some? ==> paused.value == s.chunks[g] && s'.lastPaused == g && s'.next == g + 1 && s'.overlayShown) &&
      (paused.None? ==> s'.next == g && s'.lastPaused == s.lastPaused && s'.overlayShown == s.overlayShown) &&
      (paused.Some? ==> s' == s.(overlayShown := true, lastPaused := s.next, next := s.next + 1)) &&
      (paused.None? ==> s' == s.(next := g))
  {
  }

  /** Whatever the cursor, a tick that pauses never follows a rewind (after
      one, the new cursor's chunk pauses after `t`), so it pauses the chunk at
      the cursor the tick started from and advances that cursor by one. */
  lemma FireAdvancesOldCursor(s: Tracker, t: real, enabled: bool)
    requires Valid(s)
    ensures var (s', paused) := TickStep(s, t, enabled);
      paused.Some? ==> s'.lastPaused == s.next && s'.next == s.next + 1 && paused.value == s.chunks[s.next]
  {
  }

  /** No rewind can be detected at `t`: the chunk before the cursor pauses
      no later than the tolerance after `t`. */
  predicate Settled(s: Tracker, t: real)
    requires Valid(s)
  {
    !RewindDetected(s.chunks, s.next, t)
  }

  /** A seek leaves the tracker settled at the seek time. */
  lemma SeekSettles(s: Tracker, t: real)
    requires Valid(s)
    ensures Valid(SeekStep(s, t)) && Settled(SeekStep(s, t), t)
  {
    var k := FirstAfter(s.chunks, t);
    if k > 0 {
      assert s.chunks[k - 1].pauseAt <= t;
    }
  }

  /** With the tracker settled, a tick never moves the cursor back, moves it
      forward only by firing the chunk at the cursor, and leaves the tracker
      settled at that time. */
  lemma SettledTick(s: Tracker, t: real, enabled: bool)
    requires Valid(s) && Settled(s, t)
    ensures var (s', paused) := TickStep(s, t, enabled);
      Settled(s', t) &&
      (paused.None? ==> s'.next == s.next) &&
      (paused.Some? ==> s'.lastPaused == s.next && s'.next == s.next + 1)
  {
  }

  ghost predicate NonDecreasing(times: seq<real>)
  {
    forall i, j :: 0 <= i <= j < |times| ==> times[i] <= times[j]
  }

  /** Between seeks, while the playback time does not go backwards, the
      chunks that fire are exactly those from the old cursor up to the new
      one, each once and in index order: the cursor never passes a chunk
      without firing it and never fires one twice. */
  lemma {:induction false} ForwardRunFiresInOrder(s: Tracker, times: seq<real>, enabled: bool)
    requires Valid(s) && NonDecreasing(times)
    requires |times| > 0 ==> Settled(s, times[0])
    decreases |times|
    ensures var (s', fired) := Run(s, times, enabled);
      s.next <= s'.next && |fired| == s'.next - s.next &&
      (forall i :: 0 <= i < |fired| ==> fired[i] == s.next + i)
  {
    if |times| > 0 {
      var (s1, paused) := TickStep(s, times[0], enabled);
      SettledTick(s, times[0], enabled);
      var rest := times[1..];
      assert NonDecreasing(rest);
      if |rest| > 0 {
        assert times[0] <= rest[0];
      }
      ForwardRunFiresInOrder(s1, rest, enabled);
      var (s2, later) := Run(s1, rest, enabled);
      var first: seq<int> := if paused.Some? then [s1.lastPaused] else [];
      assert Run(s, times, enabled) == (s2, first + later);
    }
  }

  /** Consecutive pause points are at least `gap` apart. */
  ghost predicate Spaced(chunks: seq<Chunk>, gap: real)
  {
    forall k :: 0 <= k < |chunks| - 1 ==> chunks[k].pauseAt + gap <= chunks[k + 1].pauseAt
  }

  /** Each tick time follows the previous one (the first follows `t0`) by at
      most `gap`, never going backwards. */
  ghost predicate DenseFrom(t0: real, times: seq<real>, gap: real)
    decreases |times|
  {
    |times| == 0 || (t0 <= times[0] <= t0 + gap && DenseFrom(times[0], times[1..], gap))
  }

  function LastTime(t0: real, times: seq<real>): real
  {
    if |times| == 0 then t0 else times[|times| - 1]
  }

  /** `k` is the seek target of `t`, stated without the search. */
  predicate Tracks(chunks: seq<Chunk>, k: int, t: real)
  {
    0 <= k <= |chunks| &&
    (forall j :: 0 <= j < k ==> chunks[j].pauseAt <= t) &&
    (k < |chunks| ==> t < chunks[k].pauseAt)
  }

  /** One tick no more than `gap` after `t0`, when the cursor is the seek
      target of `t0`, leaves the cursor at the seek target of the new time. */
  lemma DenseTick(s: Tracker, t0: real, t1: real, gap: real)
    requires Valid(s) && Tracks(s.chunks, s.next, t0)
    requires 0.0 < gap <= GraceWindow && Spaced(s.chunks, gap)
    requires t0 <= t1 <= t0 + gap
    ensures Tracks(s.chunks, TickStep(s, t1, true).0.next, t1)
  {
  }

  /** The first tick of a dense run and what it leaves for the rest. */
  lemma DenseStep(s: Tracker, t0: real, times: seq<real>, gap: real)
    requires Valid(s) && Tracks(s.chunks, s.next, t0)
    requires 0.0 < gap <= GraceWindow && Spaced(s.chunks, gap)
    requires |times| > 0 && DenseFrom(t0, times, gap)
    ensures var (s1, paused) := TickStep(s, times[0], true);
      Valid(s1) && s1.chunks == s.chunks && Tracks(s.chunks, s1.next, times[0]) &&
      (paused.Some? ==> s1.lastPaused == s.next && s1.next == s.next + 1) &&
      (paused.None? ==> s1.next == s.next) &&
      DenseFrom(times[0], times[1..], gap) &&
      LastTime(times[0], times[1..]) == LastTime(t0, times) &&
      Run(s, times, true) == (Run(s1, times[1..], true).0,
                              (if paused.Some? then [s1.lastPaused] else []) + Run(s1, times[1..], true).1)
  {
  }

  lemma {:induction false} DenseRun(s: Tracker, t0: real, times: seq<real>, gap: real)
    requires Valid(s) && Tracks(s.chunks, s.next, t0)
    requires 0.0 < gap <= GraceWindow && Spaced(s.chunks, gap)
    requires DenseFrom(t0, times, gap)
    decreases |times|
    ensures var (s', fired) := Run(s, times, true);
      Tracks(s.chunks, s'.next, LastTime(t0, times)) &&
      s.next <= s'.next && |fired| == s'.next - s.next &&
      (forall i :: 0 <= i < |fired| ==> fired[i] == s.next + i)
  {
    if |times| > 0 {
      DenseStep(s, t0, times, gap);
      var s1 := TickStep(s, times[0], true).0;
      DenseRun(s1, times[0], times[1..], gap);
    }
  }

  /** With pause points spaced at least `gap` apart and ticks at most `gap`
      apart, starting from the seek target of `t0` (as after a seek to `t0`),
      the cursor follows the seek target of the latest tick time, and the
      chunks that fire are exactly those whose pause points were crossed,
      each once and in index order: polling that is this dense misses no
      pause. */
  lemma DensePollingMissesNothing(s: Tracker, t0: real, times: seq<real>, gap: real)
    requires Valid(s) && s.next == FirstAfter(s.chunks, t0)
    requires 0.0 < gap <= GraceWindow && Spaced(s.chunks, gap)
    requires DenseFrom(t0, times, gap)
    ensures var (s', fired) := Run(s, times, true);
      s'.next == FirstAfter(s.chunks, LastTime(t0, times)) &&
      |fired| == s'.next - s.next &&
      (forall i :: 0 <= i < |fired| ==> fired[i] == s.next + i)
  {
    DenseRun(s, t0, times, gap);
    var (s', fired) := Run(s, times, true);
    FirstAfterIsSmallest(s.chunks, LastTime(t0, times), s'.next);
  }
}
