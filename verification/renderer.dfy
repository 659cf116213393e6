/**
 * The renderer's buffering side: two sample queues (video and audio) that
 * fragments are scheduled into, drained into the display layer and the audio
 * renderer on each display-link tick while running. The platform sinks are
 * modelled by what they have received since their last flush, and their
 * `isReadyForMoreMediaData` by a readiness oracle over that history.
 */
module BuffersRendering {
  import opened Common
  import opened SampleTime
  import opened RingBuffers
  import opened PlaylistLoader

  const VideoQueueCapacity: nat := 2000
  const AudioQueueCapacity: nat := 500

  /**
   * Renderer state. `rate` and `syncTime` stand for the synchronizer's rate
   * and the time it was last set to; `videoSink` and `audioSink` are the
   * buffers the sinks hold since their last flush.
   */
  datatype Renderer = Renderer(
    isRunning: bool,
    enqueueInProgress: bool,
    videoQueue: Ring<Sample>,
    audioQueue: Ring<Sample>,
    lastScheduledVideoEnd: Option<real>,
    lastScheduledAudioEnd: Option<real>,
    videoSink: seq<Sample>,
    audioSink: seq<Sample>,
    rate: real,
    syncTime: real)

  predicate Valid(r: Renderer)
  {
    RingBuffers.Valid(r.videoQueue) && RingBuffers.Valid(r.audioQueue)
  }

  /** The synchronizer runs at rate 1 exactly when the renderer is running, and is stopped otherwise. */
  predicate RateFollowsRunning(r: Renderer)
  {
    r.rate == if r.isRunning then 1.0 else 0.0
  }

  function NewRenderer(): (r: Renderer)
    ensures Valid(r) && RateFollowsRunning(r) && !r.isRunning
    ensures Contents(r.videoQueue) == [] && Capacity(r.videoQueue) == VideoQueueCapacity
    ensures Contents(r.audioQueue) == [] && Capacity(r.audioQueue) == AudioQueueCapacity
  {
    Renderer(false, false, Empty(VideoQueueCapacity), Empty(AudioQueueCapacity), None, None, [], [], 0.0, 0.0)
  }

  /** Every buffer of a track handed to the renderer since its last seek: the sink's share, then the queue's. */
  function VideoDelivered(r: Renderer): seq<Sample>
    requires Valid(r)
  {
    r.videoSink + Contents(r.videoQueue)
  }

  function AudioDelivered(r: Renderer): seq<Sample>
    requires Valid(r)
  {
    r.audioSink + Contents(r.audioQueue)
  }

  /** The index of the last buffer with a non-zero duration, searched from the end. */
  function LastNonZero(buffers: seq<Sample>): (o: Option<nat>)
    ensures o.Some? ==>
      && o.value < |buffers|
      && buffers[o.value].timing.duration != 0.0
      && forall k :: o.value < k < |buffers| ==> buffers[k].timing.duration == 0.0
    ensures o.None? ==> forall k :: 0 <= k < |buffers| ==> buffers[k].timing.duration == 0.0
  {
    if |buffers| == 0 then None
    else if buffers[|buffers| - 1].timing.duration != 0.0 then Some(|buffers| - 1)
    else LastNonZero(buffers[..|buffers| - 1])
  }

  /** The buffer whose end the per-track schedule reports: the last timed one, else the last one. */
  function EndBuffer(buffers: seq<Sample>): (b: Sample)
    requires 0 < |buffers|
  {
    match LastNonZero(buffers)
    case Some(j) => buffers[j]
    case None => buffers[|buffers| - 1]
  }

  /** The loop of the per-track schedule from buffer `i`, with `lastConsumed` the last timed buffer before `i`. */
  function ScheduleLoop(buffers: seq<Sample>, i: nat, queue: Ring<Sample>, lastConsumed: Option<Sample>)
    : (res: (Ring<Sample>, Option<Sample>))
    requires RingBuffers.Valid(queue) && i <= |buffers|
    requires lastConsumed == (match LastNonZero(buffers[..i]) case None => None case Some(j) => Some(buffers[j]))
    ensures RingBuffers.Valid(res.0)
    ensures Contents(res.0) == Contents(queue) + buffers[i..]
    ensures res.1 == (match LastNonZero(buffers) case None => None case Some(j) => Some(buffers[j]))
    decreases |buffers| - i
  {
    if i == |buffers| then
      assert buffers[..i] == buffers;
      (queue, lastConsumed)
    else
      var adjusted := buffers[i];
      var q := Enqueue(queue, adjusted).0;
      var last := if adjusted.timing.duration != 0.0 then Some(adjusted) else lastConsumed;
      assert buffers[..i + 1][..i] == buffers[..i];
      assert Contents(queue) + [buffers[i]] + buffers[i + 1..] == Contents(queue) + buffers[i..];
      ScheduleLoop(buffers, i + 1, q, last)
  }

  /**
   * Schedules one track's buffers: all of them are queued in order after the
   * existing contents, and the result is the end of the last buffer with a
   * non-zero duration, or of the last buffer when every duration is zero.
   */
  function ScheduleTrack(buffers: seq<Sample>, queue: Ring<Sample>): (res: (Ring<Sample>, real))
    requires RingBuffers.Valid(queue) && 0 < |buffers|
    ensures RingBuffers.Valid(res.0)
    ensures Contents(res.0) == Contents(queue) + buffers
    ensures res.1 == Time(EndBuffer(buffers)).End()
  {
    var (q, lastConsumed) := ScheduleLoop(buffers, 0, queue, None);
    var end := match lastConsumed case Some(b) => Time(b).End() case None => Time(buffers[|buffers| - 1]).End();
    (q, end)
  }

  /**
   * Schedules a loaded fragment: both tracks are queued and both last-scheduled
   * ends updated. The previous ends are not used: the re-basing they were meant
   * for is disabled, so the buffers are queued with the timing they arrive with.
   */
  function Schedule(r: Renderer, f: LoadedFragment): (r': Renderer)
    requires Valid(r) && 0 < |f.videoBuffers| && 0 < |f.audioBuffers|
    ensures Valid(r')
    ensures Contents(r'.videoQueue) == Contents(r.videoQueue) + f.videoBuffers
    ensures Contents(r'.audioQueue) == Contents(r.audioQueue) + f.audioBuffers
    ensures r'.lastScheduledVideoEnd == Some(Time(EndBuffer(f.videoBuffers)).End())
    ensures r'.lastScheduledAudioEnd == Some(Time(EndBuffer(f.audioBuffers)).End())
    ensures r' == r.(videoQueue := r'.videoQueue, audioQueue := r'.audioQueue,
                     lastScheduledVideoEnd := r'.lastScheduledVideoEnd,
                     lastScheduledAudioEnd := r'.lastScheduledAudioEnd)
  {
    var (vq, vEnd) := ScheduleTrack(f.videoBuffers, r.videoQueue);
    var (aq, aEnd) := ScheduleTrack(f.audioBuffers, r.audioQueue);
    r.(videoQueue := vq, audioQueue := aq, lastScheduledVideoEnd := Some(vEnd), lastScheduledAudioEnd := Some(aEnd))
  }

  /** Starts the synchronizer unless already running. */
  function Play(r: Renderer): (r': Renderer)
    ensures r'.isRunning
    ensures r.isRunning ==> r' == r
    ensures !r.isRunning ==> r' == r.(isRunning := true, rate := 1.0)
  {
    if r.isRunning then r else r.(isRunning := true, rate := 1.0)
  }

  /** Stops the synchronizer unless already stopped. */
  function Pause(r: Renderer): (r': Renderer)
    ensures !r'.isRunning
    ensures !r.isRunning ==> r' == r
    ensures r.isRunning ==> r' == r.(isRunning := false, rate := 0.0)
  {
    if !r.isRunning then r else r.(isRunning := false, rate := 0.0)
  }

  /**
   * Seek to `t`: stopped at `t`, both sinks flushed, both queues emptied (at
   * their current capacity) and both last-scheduled ends set to `t`.
   */
  function Seek(r: Renderer, t: real): (r': Renderer)
    requires Valid(r)
    ensures Valid(r') && !r'.isRunning && r'.rate == 0.0 && r'.syncTime == t
    ensures VideoDelivered(r') == [] && AudioDelivered(r') == []
    ensures Capacity(r'.videoQueue) == Capacity(r.videoQueue) && Capacity(r'.audioQueue) == Capacity(r.audioQueue)
    ensures r'.lastScheduledVideoEnd == Some(t) && r'.lastScheduledAudioEnd == Some(t)
    ensures r'.enqueueInProgress == r.enqueueInProgress
  {
    r.(isRunning := false, rate := 0.0, syncTime := t,
       videoSink := [], audioSink := [],
       lastScheduledVideoEnd := Some(t), lastScheduledAudioEnd := Some(t),
       videoQueue := RingBuffers.Flush(r.videoQueue), audioQueue := RingBuffers.Flush(r.audioQueue))
  }

  /**
   * Hands queued buffers to a sink while it reports ready and the queue is
   * non-empty. Nothing is lost, duplicated or reordered: the sink grows by a
   * prefix of the queue and the rest stays queued. When each buffer was
   * handed over is stated by DrainTrackReadiness.
   */
  function DrainTrack(queue: Ring<Sample>, sink: seq<Sample>, ready: seq<Sample> -> bool)
    : (res: (Ring<Sample>, seq<Sample>))
    requires RingBuffers.Valid(queue)
    ensures RingBuffers.Valid(res.0) && Capacity(res.0) == Capacity(queue)
    ensures |sink| <= |res.1|
    ensures res.1 + Contents(res.0) == sink + Contents(queue)
    decreases queue.count
  {
    if !ready(sink) || queue.count == 0 then (queue, sink)
    else
      var d := Dequeue(queue);
      var res := DrainTrack(d.1, sink + [d.0.value], ready);
      DrainStep(sink, Contents(queue), d.0.value, Contents(d.1), res.1 + Contents(res.0));
      res
  }

  /** Moving the head of a queue onto the end of a sink keeps sink-then-queue unchanged. */
  lemma DrainStep(sink: seq<Sample>, before: seq<Sample>, head: Sample, after: seq<Sample>, total: seq<Sample>)
    requires |before| > 0 && head == before[0] && after == before[1..]
    requires total == (sink + [head]) + after
    ensures total == sink + before
  {
    assert before == [head] + after;
  }

  /**
   * Each buffer the drain hands over goes while the sink reports ready, and
   * the drain leaves buffers queued only because the sink stopped being ready.
   */
  lemma {:induction false} DrainTrackReadiness(queue: Ring<Sample>, sink: seq<Sample>, ready: seq<Sample> -> bool)
    requires RingBuffers.Valid(queue)
    ensures var res := DrainTrack(queue, sink, ready);
      && res.1[..|sink|] == sink
      && (forall k :: |sink| <= k < |res.1| ==> ready(res.1[..k]))
      && (Contents(res.0) != [] ==> !ready(res.1))
    decreases queue.count
  {
    var res := DrainTrack(queue, sink, ready);
    assert (res.1 + Contents(res.0))[..|sink|] == res.1[..|sink|];
    assert (sink + Contents(queue))[..|sink|] == sink;
    if ready(sink) && queue.count > 0 {
      var d := Dequeue(queue);
      {
        var s1 := sink + [d.0.value];
        DrainTrackReadiness(d.1, s1, ready);
        assert res == DrainTrack(d.1, s1, ready);
        forall k | |sink| <= k < |res.1|
          ensures ready(res.1[..k])
        {
          if k == |sink| {
            assert res.1[..k] == sink;
          }
        }
      }
    }
  }

  /**
   * The display-link drain: a no-op unless running and not already draining;
   * otherwise video then audio are drained into their sinks, and the
   * in-progress flag is clear afterwards.
   */
  function DisplayLinkTrigger(r: Renderer, videoReady: seq<Sample> -> bool, audioReady: seq<Sample> -> bool)
    : (r': Renderer)
    requires Valid(r)
    ensures Valid(r')
    ensures !r.isRunning || r.enqueueInProgress ==> r' == r
    ensures r.isRunning && !r.enqueueInProgress ==>
      && (r'.videoQueue, r'.videoSink) == DrainTrack(r.videoQueue, r.videoSink, videoReady)
      && (r'.audioQueue, r'.audioSink) == DrainTrack(r.audioQueue, r.audioSink, audioReady)
      && r' == r.(videoQueue := r'.videoQueue, videoSink := r'.videoSink,
                  audioQueue := r'.audioQueue, audioSink := r'.audioSink)
  {
    if !r.isRunning || r.enqueueInProgress then r
    else
      var (vq, vs) := DrainTrack(r.videoQueue, r.videoSink, videoReady);
      var (aq, as_) := DrainTrack(r.audioQueue, r.audioSink, audioReady);
      r.(videoQueue := vq, videoSink := vs, audioQueue := aq, audioSink := as_, enqueueInProgress := false)
  }

  /** A drain loses, duplicates and reorders nothing: per track, sink then queue is unchanged. */
  lemma DrainConservesDelivered(r: Renderer, videoReady: seq<Sample> -> bool, audioReady: seq<Sample> -> bool)
    requires Valid(r)
    ensures VideoDelivered(DisplayLinkTrigger(r, videoReady, audioReady)) == VideoDelivered(r)
    ensures AudioDelivered(DisplayLinkTrigger(r, videoReady, audioReady)) == AudioDelivered(r)
  {
  }

  /** Scheduling extends what each track has been handed by exactly the fragment's buffers. */
  lemma ScheduleExtendsDelivered(r: Renderer, f: LoadedFragment)
    requires Valid(r) && 0 < |f.videoBuffers| && 0 < |f.audioBuffers|
    ensures VideoDelivered(Schedule(r, f)) == VideoDelivered(r) + f.videoBuffers
    ensures AudioDelivered(Schedule(r, f)) == AudioDelivered(r) + f.audioBuffers
  {
  }

  /** Play and pause are idempotent, keep the rate in step with running, and touch nothing else. */
  lemma PlayPauseIdempotent(r: Renderer)
    ensures Play(Play(r)) == Play(r) && Pause(Pause(r)) == Pause(r)
    ensures RateFollowsRunning(r) ==> RateFollowsRunning(Play(r)) && RateFollowsRunning(Pause(r))
    ensures Play(r).videoQueue == r.videoQueue && Pause(r).videoQueue == r.videoQueue
    ensures Play(r).audioQueue == r.audioQueue && Pause(r).audioQueue == r.audioQueue
  {
  }

  /** After a seek nothing is drained until play, whatever the sinks report. */
  lemma SeekStopsDrain(r: Renderer, t: real, videoReady: seq<Sample> -> bool, audioReady: seq<Sample> -> bool)
    requires Valid(r)
    ensures RateFollowsRunning(Seek(r, t))
    ensures DisplayLinkTrigger(Seek(r, t), videoReady, audioReady) == Seek(r, t)
  {
  }

  /**
   * After a seek and one scheduled fragment, each queue holds exactly that
   * fragment's buffers: nothing scheduled before the seek survives it.
   */
  lemma SeekThenScheduleHoldsOnlyNewFragment(r: Renderer, t: real, f: LoadedFragment)
    requires Valid(r) && 0 < |f.videoBuffers| && 0 < |f.audioBuffers|
    ensures Contents(Schedule(Seek(r, t), f).videoQueue) == f.videoBuffers
    ensures Contents(Schedule(Seek(r, t), f).audioQueue) == f.audioBuffers
    ensures VideoDelivered(Schedule(Seek(r, t), f)) == f.videoBuffers
  {
  }

  /** A sink that is always ready takes the whole queue. */
  lemma AlwaysReadyDrainsAll(queue: Ring<Sample>, sink: seq<Sample>)
    requires RingBuffers.Valid(queue)
    ensures DrainTrack(queue, sink, _ => true).1 == sink + Contents(queue)
    ensures Contents(DrainTrack(queue, sink, _ => true).0) == []
  {
    var always: seq<Sample> -> bool := _ => true;
    DrainTrackReadiness(queue, sink, always);
    var res := DrainTrack(queue, sink, always);
    assert always(res.1);
    assert res.1 + [] == res.1;
  }
}
