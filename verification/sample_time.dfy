/**
 * Timed elementary-stream units (sample buffers) and the timing helpers the
 * engine applies to them: the presentation interval, the timing shift used to
 * re-base a fragment onto the session timeline, and the key-frame flag.
 */
module SampleTime {
  import opened Common

  /** Presentation start and duration of a sample buffer. */
  datatype TimeInfo = TimeInfo(start: real, duration: real)
  {
    /** The instant the buffer stops being presented. */
    function End(): real
    {
      start + duration
    }
  }

  /** Timing of the first sample: presentation and decode timestamps and duration. */
  datatype Timing = Timing(pts: real, dts: real, duration: real)

  /** Buffer-level attachment keys; only the two the loader removes are named. */
  datatype BufferAttachment =
    | TrimDurationAtStart
    | ResetDecoderBeforeDecoding
    | OtherBufferAttachment(key: string)

  /** A per-sample attachment dictionary; `notSync` is `None` when the key is absent or not a boolean. */
  datatype SampleAttachment = SampleAttachment(notSync: Option<bool>)

  /**
   * A sample buffer as the engine sees it. `timingReadable` is false when its
   * sample timing information cannot be read; `sampleAttachments` is `None`
   * when the buffer has no per-sample attachment array.
   */
  datatype Sample = Sample(
    timing: Timing,
    timingReadable: bool,
    numSamples: nat,
    attachments: set<BufferAttachment>,
    sampleAttachments: Option<seq<SampleAttachment>>)

  /** The buffer's presentation interval (`time`). */
  function Time(s: Sample): TimeInfo
  {
    TimeInfo(s.timing.pts, s.timing.duration)
  }

  /** Both timestamps moved by `base`, the duration kept. */
  function Shift(t: Timing, base: real): Timing
  {
    Timing(t.pts + base, t.dts + base, t.duration)
  }

  /**
   * A copy of the buffer whose timestamps are moved by `base` (left as they
   * are when `base` is nil); nil when the timing cannot be read.
   */
  function AdjustTiming(s: Sample, base: Option<real>): (r: Option<Sample>)
    ensures r.None? <==> !s.timingReadable
    ensures r.Some? ==> Time(r.value).duration == Time(s).duration
    ensures r.Some? && base.Some? ==>
      && Time(r.value).start == Time(s).start + base.value
      && Time(r.value).End() == Time(s).End() + base.value
      && r.value.timing.dts == s.timing.dts + base.value
    ensures r.Some? && base.None? ==> r.value == s
    ensures r.Some? ==>
      && r.value.numSamples == s.numSamples
      && r.value.attachments == s.attachments
      && r.value.sampleAttachments == s.sampleAttachments
      && r.value.timingReadable
  {
    if !s.timingReadable then None
    else match base
      case None => Some(s)
      case Some(b) => Some(s.(timing := Shift(s.timing, b)))
  }

  /** Shifting by `a` and then by `b` is shifting by `a + b`. */
  lemma AdjustTimingComposes(s: Sample, a: real, b: real)
    requires s.timingReadable
    ensures AdjustTiming(s, Some(a)).Some?
    ensures AdjustTiming(AdjustTiming(s, Some(a)).value, Some(b)) == AdjustTiming(s, Some(a + b))
  {
  }

  /** Shifting by `b` and then by `-b` gives back the original buffer. */
  lemma AdjustTimingUndo(s: Sample, b: real)
    requires s.timingReadable
    ensures AdjustTiming(s, Some(b)).Some?
    ensures AdjustTiming(AdjustTiming(s, Some(b)).value, Some(-b)) == Some(s)
  {
    assert Shift(Shift(s.timing, b), -b) == s.timing;
    assert s.(timing := s.timing) == s;
  }

  /**
   * Key-frame flag: false exactly when the first per-sample attachment says
   * NotSync = true; true when there is no attachment array or it is empty.
   */
  function IsKey(s: Sample): (r: bool)
    ensures !r <==>
      && s.sampleAttachments.Some?
      && |s.sampleAttachments.value| > 0
      && s.sampleAttachments.value[0].notSync == Some(true)
    ensures s.sampleAttachments.None? ==> r
  {
    match s.sampleAttachments
    case None => true
    case Some(attachments) =>
      if |attachments| == 0 then true
      else
        match attachments[0].notSync
        case Some(notSync) => !notSync
        case None => true
  }

  /** Durations of a run of buffers, in order. */
  function Durations(ss: seq<Sample>): (ds: seq<real>)
    ensures |ds| == |ss|
    ensures forall i :: 0 <= i < |ss| ==> ds[i] == ss[i].timing.duration
  {
    seq(|ss|, i requires 0 <= i < |ss| => ss[i].timing.duration)
  }

  /** Total duration of a run of buffers. */
  function SumDurations(ss: seq<Sample>): real
  {
    SumReals(Durations(ss))
  }

  lemma SumDurationsAppend(a: seq<Sample>, b: seq<Sample>)
    ensures SumDurations(a + b) == SumDurations(a) + SumDurations(b)
  {
    assert Durations(a + b) == Durations(a) + Durations(b);
    SumRealsAppend(Durations(a), Durations(b));
  }

  /** Runs whose buffers have pairwise equal durations have equal totals. */
  lemma SumDurationsPointwise(a: seq<Sample>, b: seq<Sample>)
    requires |a| == |b|
    requires forall i :: 0 <= i < |a| ==> a[i].timing.duration == b[i].timing.duration
    ensures SumDurations(a) == SumDurations(b)
  {
    assert Durations(a) == Durations(b);
  }

  /** The total of a non-empty run is its first duration plus the rest. */
  lemma SumDurationsCons(ss: seq<Sample>)
    requires |ss| > 0
    ensures SumDurations(ss) == ss[0].timing.duration + SumDurations(ss[1..])
  {
    assert ss == [ss[0]] + ss[1..];
    SumDurationsAppend([ss[0]], ss[1..]);
    assert Durations([ss[0]]) == [ss[0].timing.duration];
    assert SumReals([ss[0].timing.duration]) == ss[0].timing.duration + SumReals([]);
  }
}
