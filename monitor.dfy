/** The playback monitor of content.js as an object: the fields of the
    global `captionTracker`, updated in place by the loader, the seek
    listener, the interval tick and the cleanup. Each method is specified by
    the matching step function of `Scheduler`. */
module PlaybackMonitor {
  import opened Wrappers
  import opened Chunker
  import opened Scheduler
  import SchedulerProperties

  class Monitor {
    var chunks: seq<Chunk>
    var currentChunk: int
    var overlayShown: bool
    /** Whether the 100 ms interval is installed. */
    var polling: bool
    var lastPaused: int
    var next: int

    /** The fields as a tracker value. */
    function State(): Tracker
      reads this
    {
      Tracker(chunks, currentChunk, overlayShown, polling, lastPaused, next)
    }

    /** The tracker as declared when the script loads. */
    constructor()
      ensures State() == Initial
    {
      chunks := [];
      currentChunk := 0;
      overlayShown := false;
      polling := false;
      lastPaused := -1;
      next := 0;
    }

    /** `startMonitoringVideo`; `videoFound` is the outcome of looking up the
        page's video element. */
    method StartMonitoring(videoFound: bool)
      modifies this
      ensures State() == StartStep(old(State()), videoFound)
    {
      polling := false;
      if !videoFound {
        return;
      }
      lastPaused := -1;
      next := 0;
      polling := true;
    }

    /** The part of `fetchAndProcessCaptions` after the captions arrive: an
        empty list, or a chunking that throws, reports failure and leaves the
        tracker alone; otherwise the chunks replace the old ones and
        monitoring restarts. */
    method Load(captions: seq<Cue>, pauseInterval: int, videoFound: bool) returns (ok: bool)
      modifies this
      ensures ok <==> |captions| > 0 && pauseInterval > 0
      ensures ok ==> State() == StartStep(old(State()).(chunks := Chunked(captions, pauseInterval),
                                                       currentChunk := 0, overlayShown := false), videoFound)
      ensures !ok ==> State() == old(State())
    {
      if |captions| == 0 {
        return false;
      }
      var r := ChunkCaptions(captions, pauseInterval);
      if r.None? {
        return false;
      }
      chunks := r.value;
      currentChunk := 0;
      overlayShown := false;
      StartMonitoring(videoFound);
      return true;
    }

    /** The `seeking` listener: scan for the first chunk that pauses after
        `t`; when the scan reaches the last chunk without finding one, the
        cursor goes past the end. */
    method Seek(t: real)
      modifies this
      ensures State() == SeekStep(old(State()), t)
    {
      var newIndex := 0;
      var i := 0;
      while i < |chunks|
        invariant 0 <= i <= |chunks|
        invariant forall j :: 0 <= j < i ==> chunks[j].pauseAt <= t
        invariant newIndex == if i == |chunks| then |chunks| else 0
      {
        if t < chunks[i].pauseAt {
          newIndex := i;
          break;
        }
        if i == |chunks| - 1 {
          newIndex := |chunks|;
        }
        i := i + 1;
      }
      SchedulerProperties.FirstAfterIsSmallest(chunks, t, newIndex);
      next := newIndex;
    }

    /** The interval callback at playback time `t`: nothing while disabled
        or without chunks; otherwise the rewind guard, then at most one
        pause, whose chunk is returned. */
    method Tick(t: real, enabled: bool) returns (paused: Option<Chunk>)
      requires Valid(State())
      modifies this
      ensures (State(), paused) == TickStep(old(State()), t, enabled)
    {
      if !enabled || |chunks| == 0 {
        return None;
      }
      if next > 0 && t < chunks[next - 1].pauseAt - RewindTolerance {
        ghost var before := next;
        var i := 0;
        while i < |chunks|
          invariant 0 <= i <= |chunks|
          invariant forall j :: 0 <= j < i ==> chunks[j].pauseAt <= t
          invariant next == before
        {
          if t < chunks[i].pauseAt {
            next := i;
            break;
          }
          i := i + 1;
        }
        SchedulerProperties.FirstAfterIsSmallest(chunks, t, next);
      }
      if next < |chunks| && chunks[next].pauseAt <= t && t <= chunks[next].pauseAt + GraceWindow {
        var chunk := chunks[next];
        overlayShown := true;
        lastPaused := next;
        next := next + 1;
        return Some(chunk);
      }
      return None;
    }

    /** The Continue button of the pause overlay: the overlay is gone and
        nothing else in the tracker changes. */
    method Continue()
      modifies this
      ensures State() == old(State()).(overlayShown := false)
    {
      overlayShown := false;
    }

    /** `cleanupExtension`: the interval stops and every field returns to
        its initial value. */
    method Cleanup()
      modifies this
      ensures State() == Initial
    {
      polling := false;
      chunks := [];
      currentChunk := 0;
      overlayShown := false;
      lastPaused := -1;
      next := 0;
    }
  }
}
