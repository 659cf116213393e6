# HLS client core in Dafny

A model of the decision logic of a small Swift HLS player. The player fetches
fragments of a multi-variant stream, demuxes them into timed sample buffers,
queues the buffers for the platform renderers and drives a play/pause/buffering
state machine. This project models:

- the adaptive-bitrate estimator and variant selector (`Abr`);
- the session state machine that walks the fragment timeline (`HlsSession`). It
  covers start, seek, the timer-driven evaluation with its single-flight guard,
  and generation-checked completion. `SessionRuns` adds the loads in flight and
  their invariant;
- the playlist loader's read: cursor re-basing, attachment removal and flush
  (`PlaylistLoader`);
- the sample-buffer timing helpers (`SampleTime`);
- the growable FIFO ring buffer (`RingBuffers`), modelled from its tests;
- the renderer's scheduling, seek, play/pause and display-link drain
  (`BuffersRendering`), and the accumulating buffer (`AccumulatingBuffers`);
- the player's play-state machine (`PlayerStates`).

Every state record is an immutable datatype, and every operation is a pure
function from the old state to the new one. Most blocks the source posts to a
dispatch queue become one transition each. A load, from the loader's read to
the session's acceptance, is modelled as one transition of its own, which may
come after any number of other transitions.

Time values are exact reals. The player clock, the load time of a fragment, the
sinks' readiness and the demuxed sample buffers are parameters.

Behaviour of the code worth noting:

- An urgent choice uses margin 2 and a non-urgent one 1.3.
- The projected load time counts bits (`bandwidth * targetDuration * 8`).
- A loader's flush forgets only the previously read asset. It keeps the init
  segment and both timestamp cursors, so cursors are never reset by a seek.
- The trim and decoder-reset attachments are removed whenever the track's
  origin is non-zero. This is not limited to "the first buffer of a fragment".

## Model

| member | source | states |
|---|---|---|
| Abr.Loaded | CustomHLS/HLS.swift:19-27 | the observed rate is appended; the window is the last ten samples of the old window plus the rate; the estimate is the integer mean of the window (estimate·n ≤ sum < (estimate+1)·n); the window invariant is kept |
| Abr.ObservedRate | CustomHLS/HLS.swift:20 | the reported rate is the fragment's byte length in bits over the load time, truncated: rate ≤ 8·length / t < rate + 1 |
| Abr.FeedKeepsLastSamples | CustomHLS/HLS.swift:21-24 | after any run of observations the window is exactly the last ten of the old window followed by the observed rates |
| Abr.FeedEstimateIsMean | CustomHLS/HLS.swift:25 | after at least one observation the estimate is the integer mean of the window |
| Abr.InitialWindow | CustomHLS/HLS.swift:10-11 | starting from the single zero sample, the window after a run of rates is the last ten of `[0] + rates` |
| Abr.InitialEstimatorWellFormed | CustomHLS/HLS.swift:10-11 | the initial state (one zero sample, estimate 0) satisfies the window invariant |
| Abr.ClearsIsRatioAboveOne | CustomHLS/HLS.swift:33-34 | the model's clearing test is the source's `estimate / (bandwidth * margin) > 1`, with the IEEE outcome for bandwidth 0 |
| Abr.ClearsMonotone | CustomHLS/HLS.swift:33-34 | a lower-bandwidth variant clears whenever a higher one does |
| Abr.InsertByBandwidth | CustomHLS/HLS.swift:30 | inserting into a run sorted by descending bandwidth keeps it sorted and adds exactly the new variant |
| Abr.SortByBandwidth | CustomHLS/HLS.swift:30 | the result is sorted by descending bandwidth and is a permutation of the input |
| Abr.FirstClearing | CustomHLS/HLS.swift:32-38 | the scan returns the first index whose variant clears, or the length when none does |
| Abr.Choose | CustomHLS/HLS.swift:29-40 | the chosen variant is one of the inputs; if some variant clears the margin, it is a clearing variant of maximal bandwidth; otherwise it has minimal bandwidth |
| Abr.NeedsToLoad | CustomHLS/HLS.swift:42-46 | with a positive estimate: fetch iff (buffered − current − 30)·estimate < bandwidth·targetDuration·8; with a zero estimate: fetch iff that product is non-zero |
| Abr.NeedsToLoadExample | CustomHLS/HLS.swift:42-46 | bandwidth 1000, target 6 and estimate 2000 give a 24 s projected load, so the client fetches at 10 s played and 15 s buffered, and does not at 64 s buffered |
| SampleTime.AdjustTiming | CustomHLS/CMSampleBuffer+Time.swift:53-74 | nil exactly when the timing is unreadable; with a base, start, end and DTS move by the base and the duration is kept; with no base the buffer is unchanged; attachments are kept |
| SampleTime.AdjustTimingComposes | CustomHLS/CMSampleBuffer+Time.swift:60-64 | shifting by a then by b is shifting by a + b |
| SampleTime.AdjustTimingUndo | CustomHLS/CMSampleBuffer+Time.swift:60-64 | shifting by b then by −b restores the buffer |
| SampleTime.IsKey | CustomHLS/CMSampleBuffer+Time.swift:20-28 | not a key frame exactly when the first per-sample attachment has NotSync = true; a key frame when there are no attachments |
| SampleTime.SumDurationsAppend | CustomHLS/HLS.swift:175 | the summed duration of two runs of buffers is the sum of their summed durations |
| PlaylistLoader.Flush | CustomHLS/HLS.swift:109-111 | flush forgets the previous asset and keeps the playlist, the init segment and both cursors |
| PlaylistLoader.NonEmpty | CustomHLS/HLS.swift:160-162 | every kept buffer has at least one sample and keeps readable timing; a single buffer is kept exactly when it has samples; nothing is added |
| PlaylistLoader.NonEmptyAppend | CustomHLS/HLS.swift:160-162 | the filter splits over concatenation; with the one-buffer case this fixes the result as exactly the buffers with samples, in their original order |
| PlaylistLoader.NonEmptyMembers | CustomHLS/HLS.swift:160-162 | a buffer is kept iff it is one of the read's buffers and has at least one sample |
| PlaylistLoader.Rebased | CustomHLS/HLS.swift:164-171 | a kept buffer is shifted by the track origin with its duration kept; the track's attachment is removed only when the origin is non-zero |
| PlaylistLoader.ReadLoop | CustomHLS/HLS.swift:159-178 | the loop appends the re-based non-empty buffers to what it already holds, and the duration and the cursor each grow by their summed duration |
| PlaylistLoader.ReadTrack | CustomHLS/HLS.swift:157-199 | a track read yields the re-based non-empty buffers; its duration is their summed duration; the cursor advances by exactly that duration |
| PlaylistLoader.Read | CustomHLS/HLS.swift:157-213 | audio is re-based on the audio cursor with trim removed, and video on the video cursor with decoder-reset removed; both cursors advance by their track durations; the fragment record carries the fragment and the asset duration; the asset replaces the previous one |
| PlaylistLoader.ConsecutiveReadsAreContiguous | CustomHLS/HLS.swift:122-199 | after a read each cursor is its origin plus the fragment's track duration, and the next read is re-based on exactly that cursor, so fragments line up end to start |
| PlaylistLoader.FirstReadKeepsAttachments | CustomHLS/HLS.swift:167-194 | a fresh loader's first read keeps every buffer as it is, attachments included, since its origins are zero |
| PlaylistLoader.FlushDoesNotAffectRead | CustomHLS/HLS.swift:109-123 | flushing before a read does not change what the read produces, because the cursors survive flush |
| HlsSession.BuildSlots | CustomHLS/HLS.swift:293-299 | slot k carries index k, all variants, the first variant's k-th duration, and a timestamp equal to the sum of the durations before it |
| HlsSession.Slots | CustomHLS/HLS.swift:293-299 | the timeline has one slot per fragment of the first variant; slot k starts at the summed durations of slots 0..k−1 |
| HlsSession.PrefixEndIsSlotEnd | CustomHLS/HLS.swift:293-299 | on a timeline, slot j ends at its timestamp plus its duration, and the next slot starts there |
| HlsSession.TimelineNonDecreasing | CustomHLS/HLS.swift:293-299 | with non-negative durations the slot timestamps never decrease |
| HlsSession.FullDurationIsTimelineEnd | CustomHLS/HLS.swift:343 | the reported full duration is where the last slot ends |
| HlsSession.FullDurationIsFirstVariantTotal | CustomHLS/HLS.swift:343 | for a new session the full duration is the first variant's total duration |
| HlsSession.BuildLoaders | CustomHLS/HLS.swift:287-291 | every variant's id has a fresh loader, built from a variant with that id |
| HlsSession.InitIsStatic | CustomHLS/HLS.swift:276-301 | when every variant has at least as many fragments as the first, every slot has a variant, and every loader has a fragment at every slot index |
| HlsSession.Start | CustomHLS/HLS.swift:328-346 | the first start marks the session started, opens a grace window of three decisions and reports the full duration; a later start changes nothing |
| HlsSession.StartTakesEffectOnce | CustomHLS/HLS.swift:331 | starting twice is the same as starting once |
| HlsSession.SeekIndex | CustomHLS/HLS.swift:349-358 | the seek lands on the first slot whose cumulative end is past t, or the last slot when no such slot exists |
| HlsSession.SeekLandsInContainingSlot | CustomHLS/HLS.swift:349-358 | a seek to any time inside slot k lands on slot k; in particular, a seek to the start of a slot with positive duration lands on that slot |
| HlsSession.SeekPastEndLandsOnLastSlot | CustomHLS/HLS.swift:350 | a seek at or past the full duration lands on the last slot |
| HlsSession.Run | CustomHLS/HLS.swift:389-415 | without a player clock, or when the look-ahead says no, nothing changes; otherwise the guard is set, the grace counter drops (not below 0) and a load of the chosen variant's fragment is issued iff a loader exists; the load carries the current generation and index, the slot timestamp as basetime, and the fragment the chosen loader's playlist has at the current index |
| HlsSession.ScheduledRun | CustomHLS/HLS.swift:370-387 | a no-op unless the session is started, the index is inside the timeline and the guard is clear; otherwise one run |
| HlsSession.FlushAll | CustomHLS/HLS.swift:363-365 | every loader is flushed and no loader is added or removed |
| HlsSession.Repositioned | CustomHLS/HLS.swift:348-366 | the state a seek leaves before deciding: a new generation, the index on the seek slot, progress t, a reopened grace window and every loader flushed; nothing else changes and the timeline stays aligned |
| HlsSession.Seek | CustomHLS/HLS.swift:348-368 | a seek mints a new generation, moves the index to the seek slot and the progress to t, reopens the grace window and flushes every loader; its result is exactly one unguarded decision on that repositioned state |
| HlsSession.SeekBypassesGuards | CustomHLS/HLS.swift:348-387 | when the decision says fetch and the chosen variant has a loader, a seek issues a load of the new generation and sets the guard even when the session is not started or a load is already pending, where a timer tick would do nothing |
| HlsSession.Complete | CustomHLS/HLS.swift:404-414 | a completion from another generation changes nothing, including the guard, and forwards nothing; a current one forwards the fragment, advances progress by its duration and the index by one, clears the guard, and feeds the observed rate to the estimator |
| HlsSession.Decode | CustomHLS/HLS.swift:91-118 | the loader read runs whatever the generation: the requesting loader becomes the loader after `PlaylistLoader.Read` and the result is that read's fragment record; no other loader changes, and its cursors advance by the fragment's track durations |
| HlsSession.SeekMakesEarlierLoadsStale | CustomHLS/HLS.swift:359-405 | after a seek, completing any load issued before it leaves the session unchanged and forwards nothing |
| HlsSession.StaleCompletionKeepsGuard | CustomHLS/HLS.swift:381-405 | a stale completion forwards nothing and leaves the guard set, so later timer evaluations stay no-ops |
| SessionRuns.InitWorldInv | CustomHLS/HLS.swift:276-301 | a new session with nothing in flight satisfies the session invariant |
| SessionRuns.TickPreservesInv | CustomHLS/HLS.swift:370-415 | a timer tick keeps the invariant: at most one load of the current generation is in flight, it is for the current slot, and the guard is set while it is out |
| SessionRuns.StartPreservesInv | CustomHLS/HLS.swift:328-346 | start keeps the invariant |
| SessionRuns.SeekPreservesInv | CustomHLS/HLS.swift:348-368 | seek keeps the invariant; every load issued earlier becomes stale |
| SessionRuns.DeliverPreservesInv | CustomHLS/HLS.swift:404-414 | completing any in-flight load, current or stale, keeps the invariant |
| SessionRuns.NoSecondLoadUntilCompletion | CustomHLS/HLS.swift:381-398 | once a tick starts a load, later ticks start nothing until it completes or a seek intervenes |
| SessionRuns.AcceptedDeliveryIsCurrentSlot | CustomHLS/HLS.swift:405-410 | an accepted completion is for the current slot and carries the fragment its loader's playlist has there; it moves the index one on, adds the fragment's duration to the progress, clears the guard and appends exactly one record to what has been forwarded: the one the loader's read produced, carrying that fragment and its re-based buffers |
| SessionRuns.StaleDeliveryOnlyMovesLoader | CustomHLS/HLS.swift:405 | a dropped completion changes only the loaders' read state in the session and forwards nothing |
| RingBuffers.Grow | CustomHLSTests/RingBufferTests.swift:52-75 | growth doubles the capacity and keeps the contents in order |
| RingBuffers.Enqueue | CustomHLSTests/RingBufferTests.swift:6-75 | enqueue always succeeds and appends the element; a full ring doubles its capacity, any other ring keeps it |
| RingBuffers.Dequeue | CustomHLSTests/RingBufferTests.swift:6-50 | on an empty ring, dequeue returns nil and changes nothing; otherwise it returns the oldest element and the rest stay in order |
| RingBuffers.Peek | CustomHLSTests/RingBufferTests.swift:94-106 | peek returns the oldest element without removing it, or nil when the ring is empty |
| RingBuffers.Flush | CustomHLSTests/RingBufferTests.swift:77-92 | flush empties the ring and keeps its capacity |
| RingBuffers.Empty | CustomHLSTests/RingBufferTests.swift:7-10 | a new ring is empty, not full, and has the requested capacity |
| RingBuffers.EnqueueAll | CustomHLSTests/RingBufferTests.swift:109-126 | enqueuing a run appends it in order |
| RingBuffers.DequeueAll | CustomHLSTests/RingBufferTests.swift:121-125 | dequeuing until empty yields the contents in FIFO order |
| RingBuffers.RoundTrip | CustomHLSTests/RingBufferTests.swift:129-210 | any run enqueued into a fresh ring comes back out unchanged, across wraps and growth |
| RingBuffers.EnqueueAllCapacity | CustomHLSTests/RingBufferTests.swift:117 | the capacity after a run of enqueues is the old capacity doubled until the elements fit |
| RingBuffers.RepeatedResizes | CustomHLSTests/RingBufferTests.swift:109-126 | ten enqueues into capacity 2 give capacity 16 and the ten elements in order |
| RingBuffers.ResizeWithOffsetHead | CustomHLSTests/RingBufferTests.swift:213-238 | for any seven elements: four into capacity 4, two dequeued so the head is off slot 0, three more enqueued; the capacity becomes 8 and the five remaining elements come out in order |
| RingBuffers.GrowthLeavesRoom | CustomHLSTests/RingBufferTests.swift:52-75 | a full ring of capacity 3 is no longer full after a fourth enqueue, and keeps the order |
| RingBuffers.GrowByCopy | CustomHLSTests/RingBufferTests.swift:129-156 | the element-by-element copy loop into fresh storage builds exactly the grown ring |
| BuffersRendering.NewRenderer | CustomHLS/BuffersRenderer.swift:83-94 | the renderer starts stopped, with empty video and audio queues of capacity 2000 and 500 |
| BuffersRendering.LastNonZero | CustomHLS/BuffersRenderer.swift:118-125 | the result is the index of the last buffer with a non-zero duration, or none when every duration is zero |
| BuffersRendering.ScheduleLoop | CustomHLS/BuffersRenderer.swift:118-126 | the loop queues the rest of the buffers in order and ends with the last timed buffer of the whole run |
| BuffersRendering.ScheduleTrack | CustomHLS/BuffersRenderer.swift:117-128 | every buffer is queued in order after the existing contents; the result is the end of the last buffer with a non-zero duration, or of the last buffer |
| BuffersRendering.Schedule | CustomHLS/BuffersRenderer.swift:116-138 | both tracks are queued and both last-scheduled ends are updated; nothing else changes |
| BuffersRendering.Play | CustomHLS/BuffersRenderer.swift:140-144 | play sets running and rate 1 only if the renderer was stopped |
| BuffersRendering.Pause | CustomHLS/BuffersRenderer.swift:146-150 | pause clears running and sets rate 0 only if the renderer was running |
| BuffersRendering.Seek | CustomHLS/BuffersRenderer.swift:152-165 | after a seek the renderer is stopped at t, the sinks and both queues are empty (capacities kept), and both last-scheduled ends are t |
| BuffersRendering.DrainTrack | CustomHLS/BuffersRenderer.swift:171-176 | the sink grows by a prefix of the queue in FIFO order and the rest stays queued: sink followed by queue is unchanged, capacity kept |
| BuffersRendering.DrainTrackReadiness | CustomHLS/BuffersRenderer.swift:171-176 | each buffer is handed over while the sink reports ready, the old sink is kept as a prefix, and buffers stay queued only when the sink is not ready |
| BuffersRendering.DisplayLinkTrigger | CustomHLS/BuffersRenderer.swift:167-180 | a no-op unless running and not already draining; otherwise video and then audio are drained and nothing else changes |
| BuffersRendering.DrainConservesDelivered | CustomHLS/BuffersRenderer.swift:167-180 | a drain loses, duplicates and reorders nothing: per track, the sink's contents followed by the queue's are unchanged |
| BuffersRendering.ScheduleExtendsDelivered | CustomHLS/BuffersRenderer.swift:119-122 | scheduling extends what each track has been handed by exactly the fragment's buffers |
| BuffersRendering.PlayPauseIdempotent | CustomHLS/BuffersRenderer.swift:140-150 | play and pause are idempotent, keep the rate in step with running and leave the queues alone |
| BuffersRendering.SeekStopsDrain | CustomHLS/BuffersRenderer.swift:152-169 | after a seek nothing drains until play |
| BuffersRendering.SeekThenScheduleHoldsOnlyNewFragment | CustomHLS/BuffersRenderer.swift:116-165 | after a seek and one scheduled fragment, each queue holds exactly that fragment's buffers |
| BuffersRendering.AlwaysReadyDrainsAll | CustomHLS/BuffersRenderer.swift:171-176 | a sink that is always ready takes the whole queue |
| AccumulatingBuffers.Enqueue | CustomHLS/BuffersRenderer.swift:194-197 | the buffer is queued as pending and its duration is added |
| AccumulatingBuffers.Dequeue | CustomHLS/BuffersRenderer.swift:199-203 | the oldest pending buffer is returned and moved to the processed queue; nil and no change when none is pending |
| AccumulatingBuffers.UpdateDuration | CustomHLS/BuffersRenderer.swift:205-210 | a prefix of the processed queue is popped: all popped buffers end at or after ts, the next one (if any) ends before ts, and their summed duration is subtracted |
| AccumulatingBuffers.Flush | CustomHLS/BuffersRenderer.swift:212-216 | flush empties both queues, keeps their capacities and zeroes the duration |
| AccumulatingBuffers.EnqueueKeepsBalance | CustomHLS/BuffersRenderer.swift:194-197 | after enqueue, the tracked duration still equals the summed duration of both queues |
| AccumulatingBuffers.DequeueKeepsBalance | CustomHLS/BuffersRenderer.swift:199-203 | dequeue keeps that balance |
| AccumulatingBuffers.UpdateDurationKeepsBalance | CustomHLS/BuffersRenderer.swift:205-210 | updating the duration keeps that balance |
| PlayerStates.Play | CustomHLS/Player.swift:88-99 | play resumes playback only from pause and only when a session exists; otherwise nothing changes |
| PlayerStates.ResumePlayback | CustomHLS/Player.swift:135-138 | the state becomes playing and the renderer is played |
| PlayerStates.Seek | CustomHLS/Player.swift:107-111 | a seek always moves to buffering and seeks the renderer; the time goes to the session input exactly when there is one |
| PlayerStates.Pause | CustomHLS/Player.swift:119-122 | pause always moves to pause and pauses the renderer |
| PlayerStates.DisplayLinkTick | CustomHLS/Player.swift:125-132 | the renderer drains only while playing |
| PlayerStates.NewFragment | CustomHLS/Player.swift:140-142 | a new fragment is scheduled on the renderer and the play state is unchanged |
| PlayerStates.ScheduleCompleted | CustomHLS/Player.swift:142-148 | the schedule's completion resumes playback only from buffering |
| PlayerStates.TransitionsPreserveInv | CustomHLS/Player.swift:88-148 | every transition keeps the renderer running exactly while playing, at rate 1 |
| PlayerStates.PlayingTickDrains | CustomHLS/Player.swift:125-132 | in the playing state a tick really drains, since the renderer's own guards pass |
| PlayerStates.SeekThenFragmentResumes | CustomHLS/Player.swift:107-148 | a seek followed by one fragment's completion is playing again, with only that fragment queued |
| PlayerStates.PauseWhileBufferingStaysPaused | CustomHLS/Player.swift:119-144 | a pause during buffering wins over the later schedule completion |
| PlayerStates.PlayNeedsSession | CustomHLS/Player.swift:91 | play does nothing before a session is attached |

## Left out

- Networking is not modelled. This covers the master and media playlist fetches, the init-section fetch and its caching, and the byte-range request header. The demuxed buffers of a fragment are inputs.
- AVFoundation is not modelled: asset creation, temporary files, track readers, the display layer, the audio renderer and the synchronizer clock. Sinks are modelled by what they received, with a readiness oracle.
- Concurrency is not modelled: dispatch queues, the 0.1 s timer, the display link and weak captures. Each queued block is one atomic transition, except that a load's read and its completion form one transition (see SessionRuns.Deliver below). A seek's deferred flush on the renderer's buffering queue is folded into the seek.
- Floating-point and CMTime timescale rounding are not modelled: time is exact real arithmetic. The IEEE outcomes the code relies on at a zero divisor are modelled explicitly.
- Abr.ObservedRate: requires a positive load time. A zero time would make the source's integer conversion trap.
- HlsSession.Run: requires every variant to have at least as many fragments as the first (`Static`). A variant with fewer fragments would make the loader's fragment lookup trap at CustomHLS/HLS.swift:94.
- HlsSession.ScheduledRun: requires `Static`, for the same reason as Run.
- HlsSession.Seek: requires `Static`, for the same reason as Run, and a non-empty timeline. On an empty timeline the source sets the index to −1 (CustomHLS/HLS.swift:350), and the decision that follows reads the timeline at −1 (CustomHLS/HLS.swift:392) and traps once the player clock is available.
- HlsSession.Repositioned: requires `Static` and a non-empty timeline, as Seek does.
- SessionRuns.Tick: requires `Static`, for the same reason as Run.
- SessionRuns.SeekWorld: requires `Static` and a non-empty timeline, as Seek does.
- SessionRuns.Deliver: folds three source blocks into one step: the loader-queue block (CustomHLS/HLS.swift:91-104), the read on the decoding queue (CustomHLS/HLS.swift:113-116) and the completion posted back to the session's queue (CustomHLS/HLS.swift:404-414). A seek that the source runs between the read and the completion is ordered before the read here. That differs only in the loader's `previousReadAsset`, because a flush keeps the init segment and both cursors (PlaylistLoader.FlushDoesNotAffectRead), and the completion is stale either way.
- Abr.ObservedRate: integers are unbounded. Swift's `Int` overflow trap on `length * 8` (CustomHLS/HLS.swift:20) is not modelled.
- Abr.Loaded: integers are unbounded. Swift's `Int` overflow trap in the window sum `reduce(0, +)` (CustomHLS/HLS.swift:25) is not modelled.
- Abr.NeedsToLoad: integers are unbounded. Swift's `Int` overflow trap on `bandwidth * targetDuration * 8` (CustomHLS/HLS.swift:43) is not modelled.
- HlsSession.Run: the basetime it passes is not used by the loader's read, which re-bases on its own cursors. The model records the basetime and does not use it either.
- PlaylistLoader.Read: models the timing of each buffer's first sample only. Multi-sample timing arrays are not modelled. A buffer whose timing is unreadable is a precondition, because the source force-unwraps it.
- BuffersRendering.ScheduleTrack: requires a non-empty run of buffers. The source indexes the last buffer when no buffer is timed, and traps on an empty run.
- RingBuffers.Empty: requires a positive capacity. The ring buffer's own source is not part of this model; its behaviour is taken from its tests.
- Session setup, output wiring and the player's load chain are reduced to flags (`hasSession`, `hasInput`). The fragment hand-off is modelled as the forwarded list; the progress callbacks and the full-duration callback are left out, and so are logging, the UI and the app delegate.
- Commented-out code is not modelled: the render-sync class and the re-base-to-zero helper.
