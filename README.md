# SubScript caption pause scheduler, modelled in Dafny

SubScript is a browser extension that pauses a YouTube video at caption
boundaries and shows the text of the captions just played. This project models
the parts of it that decide when to pause:

- `chunkCaptions` in `content.js` groups timed caption cues
  (`text`, `start`, `duration`) into runs of `chunkSize` cues. Each run
  becomes a chunk (`text`, `start`, `pauseAt`).
- The playback monitor in `content.js` works on the global `captionTracker`
  record:
  - the `seeking` listener recomputes the cursor `nextPauseChunk` from the
    playback time;
  - the 100 ms interval callback first applies a rewind guard, then pauses at
    most once, inside a 10-second grace window after a chunk's pause point;
  - `startMonitoringVideo`, the loader in `fetchAndProcessCaptions` and
    `cleanupExtension` reset the tracker.
- `getYouTubeVideoId` in `content.js` takes the URL as a parameter. It tries
  three regular expressions in order.
- `get_video_id` in `process_captions.py` splits the URL on
  `watch?v=`/`&` or on `youtu.be/`/`?`.

Times are `real` seconds. The three source units map to Dafny as follows.

- Chunking and the monitor are imperative in the source.
  - `Chunker.ChunkCaptions` is a loop.
  - `PlaybackMonitor.Monitor` is a class whose fields are those of
    `captionTracker`. Its methods reproduce the source's scanning loops.
  - Each method is specified by a step function of module `Scheduler`
    (`SeekStep`, `TickStep`, `StartStep`). The scheduler's properties are
    proved as lemmas about those functions.
- Both URL parsers are pure functions.
  - Python's `str.split` is modelled literally. `Split(s, sep)[1]` is the text
    between the first and second separator (`strings.dfy`).
  - Each JavaScript regular expression is a match predicate, a leftmost
    search (what `String.match` reports) and a capture (`video_id.dfy`).

Behaviour of `content.js` worth noting, which the model reproduces:

- `chunkCaptions` returns an empty list for an empty cue list; it does not
  fail. Only the loader's own guard (`content.js:110`) rejects empty captions.
- In `chunkCaptions`, a non-positive chunk size makes the first loop iteration read `.start` of
  `undefined`. The loader catches the resulting TypeError and reports
  failure, so `ChunkCaptions` returns `None`.
- The pause points `chunkCaptions` computes are non-decreasing when cue starts are
  non-decreasing and every duration is non-negative (the last chunk pauses at
  start + duration, `content.js:91`). They are not strictly increasing: equal
  cue starts give equal pause points.
- In the interval callback, a tick that lands beyond the grace window of the chunk at the cursor does
  not skip that chunk. The cursor stays on it, so no later chunk pauses until
  a seek or a rewind moves the cursor (`Scenarios.LateTickStalls`).
  `SchedulerProperties.DensePollingMissesNothing` gives the conditions under
  which this cannot happen.
- `startMonitoringVideo` retries a missing video element once a second, with no bound.
  It has no backoff policy.

## Model

| member | source | states |
|---|---|---|
| Chunker.Starts | content.js:80 | the loop visits offsets 0, size, 2·size, … and every offset lies below the number of cues |
| Chunker.ChunkAt | content.js:81-92 | a chunk starting at cue i starts at that cue's start and pauses at the start of cue i + size, or at the end of the last cue when its run reaches the end of the list |
| Chunker.Chunked | content.js:80-93 | cues give at least one chunk exactly when there are any; the first chunk starts at the first cue and the last chunk pauses at the end of the last cue |
| Strings.Join | content.js:82 | the joined text begins with the first part and its length is the parts' lengths plus one separator between each pair |
| Chunker.ChunkCaptions | content.js:78-96 | the result is `None` exactly when there are cues and the size is not positive (the TypeError); no cues give `[]`; a positive size gives the chunk list `Chunked`, one chunk per run |
| ChunkerProperties.ChunkCount | content.js:80 | n cues give ceil(n / size) chunks: (m-1)·size < n ≤ m·size, and none for no cues |
| ChunkerProperties.ChunkShape | content.js:81-92 | chunk k is built from cues [k·size, min(n, (k+1)·size)): its text is their texts joined with single spaces, its start is the first one's start, and it pauses at the next cue's start or at the end of its own last cue |
| ChunkerProperties.PauseAtIsNextStart | content.js:86-88 | every non-final chunk pauses at cue (k+1)·size's start, which is the next chunk's start |
| ChunkerProperties.LastPauseAtEnd | content.js:89-92 | the last chunk pauses at the end (start + duration) of the last cue |
| ChunkerProperties.StartBeforePause | content.js:82-92 | for ordered cues with non-negative durations a chunk never pauses before it starts |
| ChunkerProperties.PauseAtNondecreasing | content.js:86-92 | for ordered cues with non-negative durations the pause points never go backwards along the chunk list |
| Scheduler.FirstAfter | content.js:178-188 | the seek target: every chunk before it pauses at or before t, and the chunk at it (if any) pauses after t |
| Scheduler.CursorAfterGuard | content.js:200-210 | the rewind guard never moves the cursor forward |
| Scheduler.TickStep | content.js:193-230 | a tick keeps the tracker valid and the chunks unchanged; when it pauses, the emitted chunk is the one recorded as last paused, the cursor is one past it, and the time is inside its grace window |
| Scheduler.Run | content.js:193 | repeated ticks keep the tracker valid and the chunk list unchanged |
| Scheduler.SeekStep | content.js:175-191 | a seek changes only the cursor, which becomes an index in [0, chunk count] with every earlier chunk pausing at or before t and the chunk at it pausing after t |
| Scheduler.StartStep | content.js:162-172 | the chunks, index and overlay flag are kept and polling is on exactly when the video was found; then the tracker is valid with cursor 0 and no paused chunk, otherwise cursor and last paused chunk are kept |
| SchedulerProperties.FirstAfterIsSmallest | content.js:178-190 | k is the seek target if and only if it is the smallest index whose pause point lies after t (or the chunk count when there is none) |
| SchedulerProperties.SeekMonotone | content.js:178-190 | seeking to a later time never targets an earlier chunk |
| SchedulerProperties.SeekKeepsValid | content.js:175-191 | a seek keeps the cursor within [0, chunk count] and changes nothing but the cursor |
| SchedulerProperties.InitialValid | content.js:4-11 | the declared tracker is valid, empty and not polling |
| SchedulerProperties.StartArms | content.js:162-172 | with the video present, the start makes any tracker valid with cursor 0 and no paused chunk; without it, only polling stops |
| SchedulerProperties.TickIdle | content.js:194-196 | a tick changes nothing and pauses nothing while disabled or with no chunks |
| SchedulerProperties.GuardResets | content.js:200-210 | the guard moves the cursor back exactly when a rewind is detected, and then to the seek target of t |
| SchedulerProperties.TickFiresExactly | content.js:215-229 | a tick pauses if and only if the chunk at the guarded cursor exists and t lies in its grace window; it then emits that chunk, records it, sets the overlay flag and advances the cursor by one, and otherwise only the cursor changes, to the guard's value; no other field (chunks, polling, current index) changes |
| SchedulerProperties.FireAdvancesOldCursor | content.js:200-228 | for every valid tracker, a tick that pauses pauses the chunk at the cursor it started from, records it and advances that cursor by exactly one (a pause never follows a rewind) |
| SchedulerProperties.SeekSettles | content.js:175-191 | after a seek to t no rewind is detected at t |
| SchedulerProperties.SettledTick | content.js:200-229 | with no rewind detected, a tick moves the cursor only by pausing the chunk at it, by exactly one, and stays free of rewinds |
| SchedulerProperties.ForwardRunFiresInOrder | content.js:193-230 | between seeks, with time not going backwards, the paused chunks are exactly those from the old cursor up to the new one, each once and in index order |
| SchedulerProperties.DenseTick | content.js:200-229 | with pause points at least a gap apart, the tick at most that gap after the previous time, and the gap within the grace window, a tick moves the cursor to the seek target of its time |
| SchedulerProperties.DensePollingMissesNothing | content.js:193-230 | under that spacing, after a seek the cursor follows the seek target of the latest tick and every chunk whose pause point is crossed pauses exactly once, in order |
| PlaybackMonitor.Monitor.constructor | content.js:4-11 | the object starts as the declared tracker |
| PlaybackMonitor.Monitor.StartMonitoring | content.js:162-172 | the fields become `StartStep` of the old fields |
| PlaybackMonitor.Monitor.Load | content.js:108-136 | success exactly for non-empty captions and a positive interval; on success the chunk list is replaced, the index and overlay reset and monitoring restarts; on failure nothing changes |
| PlaybackMonitor.Monitor.Seek | content.js:175-191 | the scanning loop leaves the fields equal to `SeekStep` of the old fields |
| PlaybackMonitor.Monitor.Tick | content.js:193-230 | the guard loop and the trigger check leave the fields and the result equal to `TickStep` of the old fields |
| PlaybackMonitor.Monitor.Continue | content.js:265-268 | the Continue button clears the overlay flag and nothing else |
| PlaybackMonitor.Monitor.Cleanup | content.js:278-297 | every field returns to its initial value |
| Scenarios.ChunkPairs | content.js:78-96 | four two-second cues in pairs give "a b" pausing at 4 and "c d" pausing at 8 |
| Scenarios.TicksPauseOnceAtFour | content.js:193-230 | ticks at 0 … 5 seconds pause once, for chunk 0 |
| Scenarios.SeeksAfterFirstPause | content.js:175-191 | after the first pause a seek to 1 re-arms chunk 0 and a seek to 5 targets chunk 1 |
| Scenarios.LateTickStalls | content.js:215-229 | a tick 11 s past the pause point does not pause and leaves the cursor where it was |
| VideoId.RunEnd | content.js:52 | the greedy `[^&#]+` run stops at the first `&`, `#` or the end |
| VideoId.Leftmost | content.js:52-59 | the reported match is the first position where the pattern matches |
| VideoId.GetYouTubeVideoId | content.js:49-61 | an extracted ID is non-empty, and the result is `null` exactly when none of the three patterns matches anywhere |
| VideoId.MatchAt | content.js:52-59 | a match begins inside the URL at `?v=`/`&v=`, `youtu.be/` or `embed/` respectively |
| VideoId.Capture | content.js:52-59 | the captured ID is non-empty; for the `v` parameter it is the text right after `=` with no `&` or `#`, ended by one of them or the end; otherwise it is 11 ID characters |
| VideoIdProperties.LeftmostIs | content.js:52-59 | a match with none before it is the reported one |
| VideoIdProperties.WatchParamId | content.js:52-53 | with a `?v=`/`&v=` parameter, the ID is the non-empty text after the first one, up to the next `&`, `#` or the end |
| VideoIdProperties.ShortLinkId | content.js:55-56 | without a `v` parameter, the ID is the 11 ID characters after the first qualifying `youtu.be/` |
| VideoIdProperties.EmbedId | content.js:58-59 | without either, the ID is the 11 ID characters after the first qualifying `embed/` |
| VideoIdProperties.WatchUrlRoundTrip | content.js:52-53 | for a page with no `?` or `&` and a non-empty id with no `&` or `#`, page + `?v=` + id + a tail that is empty or starts with `&` or `#` yields id |
| VideoIdProperties.ShortUrlRoundTrip | content.js:52-56 | for a page with no `?`, `&` or `y` and an id of 11 ID characters, page + `youtu.be/` + id + a tail with no `v` parameter yields id |
| Strings.Split | process_captions.py:10 | splitting yields at least one piece, and at least two when the separator occurs |
| Strings.SplitJoin | process_captions.py:10 | joining the pieces with the separator gives back the string |
| Strings.Find | process_captions.py:9 | the search succeeds exactly when the text occurs, at its leftmost occurrence |
| ProcessCaptions.GetVideoId | process_captions.py:7-13 | a URL with neither marker is returned unchanged |
| ProcessCaptions.WatchLinkId | process_captions.py:9-10 | a watch link yields the field after the first `watch?v=`, ended by `&` (or a second marker), and it holds no `&`; this branch wins even when `youtu.be/` also occurs |
| ProcessCaptions.ShortLinkId | process_captions.py:11-12 | otherwise a short link yields the field after the first `youtu.be/`, ended by `?`, and it holds no `?` |
| ProcessCaptions.FieldAfterUnique | process_captions.py:9-12 | that field is unique, so the two lemmas above determine the result |
| ProcessCaptions.WatchIdIs | process_captions.py:9-10 | for a watch link, any string that is the field after the first `watch?v=` is the extracted ID |
| ProcessCaptions.ShortIdIs | process_captions.py:11-12 | for a short link that is not a watch link, any string that is the field after the first `youtu.be/` is the extracted ID |
| ProcessCaptions.WatchLinkRoundTrip | process_captions.py:9-10 | for a host with no `?` and an id with no `&` or `?`, host + `youtube.com/watch?v=` + id + a query that is empty or starts with `&` yields id |
| ProcessCaptions.ShortLinkRoundTrip | process_captions.py:11-12 | for a host with no `y` and an id with no `?` or `/`, host + `youtu.be/` + id + a query that is empty or starts with `?` yields id when no watch link occurs in the URL |
| LinkAgreement.WatchLinksAgree | process_captions.py:9-10 | on an ordinary watch URL the Python extractor and `getYouTubeVideoId` (content.js:52-53) return the same ID |

## Left out

- Overlay construction and styling (`showCaptionOverlay`, `testForcedCaptionDisplay`): these are DOM only. A pause is the emitted chunk. Only the Continue button's tracker update is modelled.
- `video.pause()` and `video.play()`: they act on the media element, not on the tracker.
- The fetch, the HTTP status check and the JSON parsing in `fetchAndProcessCaptions`, and all of background.js: these are I/O. `Monitor.Load` receives the parsed cue list.
- `null`/`undefined` captions and non-array JSON: the cue list is a sequence.
- `setInterval`/`setTimeout`: a tick and a seek are method calls with the playback time as a parameter. The one-second retry when the video element is missing appears only as `StartMonitoring(false)`, which stops polling and waits.
- The stale cursor while the retry is pending: until the video is found, a freshly loaded list can sit beside the old cursor. No tick runs then, so `Tick` requires a valid tracker and `StartStep` restores one.
- Chrome storage and messaging (settings, `initializeExtension`), popup.js, server.py, and `process_video`/`main`: these are host APIs and thin I/O wrappers. `enabled` and the chunk size are parameters.
- Chunk sizes other than numbers: a string or fractional `pauseInterval` would make JavaScript's `+=` concatenate or step fractionally. The model takes an integer.
- Floating point: times are exact reals, and the `toFixed` logging is omitted.
- The `seeking` listener being added again on every start: the model has one listener.
- Unicode: `\w` is the ASCII word class, and URLs are sequences of characters with no decoding.
- DensePollingMissesNothing: it proves that no pause is missed only when consecutive pause points are at least some gap apart, consecutive ticks at most that gap apart, and the gap is within the grace window. Without that spacing, `ForwardRunFiresInOrder` still gives at most once and in order.
