/**
 * Per-variant fragment loader. Network fetches, temporary files and the
 * demuxer are outside the model: a read receives the demuxed audio and video
 * buffers of one fragment (timestamps starting at the container's zero) and
 * re-bases them onto a running per-track cursor, so that consecutive
 * fragments of a variant are presented back to back.
 */
module PlaylistLoader {
  import opened Common
  import opened Playlists
  import opened SampleTime

  /**
   * Loader state: the cached initialization segment, the last asset read (its
   * temporary file is removed on the next read), and the start of the next
   * fragment on each track.
   */
  datatype Loader = Loader(
    playlist: Playlist,
    initSegment: Option<seq<bv8>>,
    previousReadAsset: Option<nat>,
    nextAudioStart: real,
    nextVideoStart: real)

  /** A fragment after demuxing and re-basing. */
  datatype LoadedFragment = LoadedFragment(
    fragment: Fragment,
    videoBuffers: seq<Sample>,
    audioBuffers: seq<Sample>,
    videoDuration: real,
    audioDuration: real,
    assetDuration: real)

  function NewLoader(p: Playlist): Loader
  {
    Loader(p, None, None, 0.0, 0.0)
  }

  /** Forgets the previously read asset; the cursors and the initialization segment stay. */
  function Flush(l: Loader): (f: Loader)
    ensures f.previousReadAsset.None?
    ensures f.playlist == l.playlist && f.initSegment == l.initSegment
    ensures f.nextAudioStart == l.nextAudioStart && f.nextVideoStart == l.nextVideoStart
  {
    l.(previousReadAsset := None)
  }

  /** The buffers a read keeps: those carrying at least one sample, in order. */
  function NonEmpty(raw: seq<Sample>): (kept: seq<Sample>)
    ensures |kept| <= |raw|
    ensures forall i :: 0 <= i < |kept| ==> kept[i].numSamples > 0
    ensures |raw| == 1 ==> kept == if raw[0].numSamples > 0 then raw else []
    ensures Readable(raw) ==> forall i :: 0 <= i < |kept| ==> kept[i].timingReadable
  {
    if |raw| == 0 then []
    else
      assert Readable(raw) ==> Readable(raw[1..]) by {
        if Readable(raw) {
          forall i | 0 <= i < |raw[1..]| && raw[1..][i].numSamples > 0
            ensures raw[1..][i].timingReadable
          {
            assert raw[1..][i] == raw[i + 1];
          }
        }
      }
      (if raw[0].numSamples == 0 then [] else [raw[0]]) + NonEmpty(raw[1..])
  }

  /**
   * The filter splits over concatenation; with the one-buffer case of its
   * contract this fixes what is kept: exactly the buffers with samples, in order.
   */
  lemma {:induction false} NonEmptyAppend(a: seq<Sample>, b: seq<Sample>)
    ensures NonEmpty(a + b) == NonEmpty(a) + NonEmpty(b)
    decreases |a|
  {
    if |a| == 0 {
      assert a + b == b;
    } else {
      var x, rest := a[0], a[1..];
      var head := if x.numSamples == 0 then [] else [x];
      calc {
        NonEmpty(a + b);
      == { assert a + b == [x] + (rest + b); }
        NonEmpty([x] + (rest + b));
      == { NonEmptyUnfold(x, rest + b); }
        head + NonEmpty(rest + b);
      == { NonEmptyAppend(rest, b); }
        head + (NonEmpty(rest) + NonEmpty(b));
      == { SeqAssoc(head, NonEmpty(rest), NonEmpty(b)); }
        (head + NonEmpty(rest)) + NonEmpty(b);
      == { assert a == [x] + rest; NonEmptyUnfold(x, rest); }
        NonEmpty(a) + NonEmpty(b);
      }
    }
  }

  lemma SeqAssoc(p: seq<Sample>, q: seq<Sample>, r: seq<Sample>)
    ensures p + (q + r) == (p + q) + r
  {
  }

  /** One step of the filter: the first buffer is kept or dropped, then the rest is filtered. */
  lemma NonEmptyUnfold(x: Sample, rest: seq<Sample>)
    ensures NonEmpty([x] + rest) == (if x.numSamples == 0 then [] else [x]) + NonEmpty(rest)
  {
    assert ([x] + rest)[1..] == rest;
  }

  /** A buffer is kept exactly when it is one of the read's buffers and carries samples. */
  lemma {:induction false} NonEmptyMembers(raw: seq<Sample>, x: Sample)
    ensures x in NonEmpty(raw) <==> x in raw && x.numSamples > 0
    decreases |raw|
  {
    if |raw| > 0 {
      NonEmptyMembers(raw[1..], x);
      assert raw == [raw[0]] + raw[1..];
    }
  }

  /** Every buffer the read keeps has readable timing (the read force-unwraps the re-timed copy). */
  predicate Readable(raw: seq<Sample>)
  {
    forall i :: 0 <= i < |raw| && raw[i].numSamples > 0 ==> raw[i].timingReadable
  }

  /**
   * The copy kept for one non-empty buffer: timestamps moved by the track's
   * origin, and `stripped` removed from its attachments unless the origin is zero.
   */
  function Rebased(s: Sample, origin: real, stripped: BufferAttachment): (r: Sample)
    requires s.timingReadable
    ensures Time(r).start == Time(s).start + origin && r.timing.dts == s.timing.dts + origin
    ensures Time(r).duration == Time(s).duration
    ensures r.numSamples == s.numSamples && r.sampleAttachments == s.sampleAttachments
    ensures origin != 0.0 ==> r.attachments == s.attachments - {stripped}
    ensures origin == 0.0 ==> r.attachments == s.attachments
  {
    var adjusted := AdjustTiming(s, Some(origin)).value;
    if origin != 0.0 then adjusted.(attachments := adjusted.attachments - {stripped}) else adjusted
  }

  /** The re-based copies of a run of kept buffers. */
  function RebaseAll(kept: seq<Sample>, origin: real, stripped: BufferAttachment): (r: seq<Sample>)
    requires forall i :: 0 <= i < |kept| ==> kept[i].timingReadable
    ensures |r| == |kept|
    ensures forall i :: 0 <= i < |kept| ==> r[i] == Rebased(kept[i], origin, stripped)
  {
    seq(|kept|, i requires 0 <= i < |kept| => Rebased(kept[i], origin, stripped))
  }

  /** What reading one track yields: the kept buffers, their total duration and the advanced cursor. */
  datatype TrackRead = TrackRead(buffers: seq<Sample>, duration: real, cursor: real)

  /**
   * The read loop over one track, from the accumulated state `acc`: skip
   * empty buffers, keep the re-based copy of the others, add each kept
   * buffer's duration to the track duration and to the cursor.
   */
  function ReadLoop(raw: seq<Sample>, origin: real, stripped: BufferAttachment, acc: TrackRead): (r: TrackRead)
    requires Readable(raw)
    ensures r.buffers == acc.buffers + RebaseAll(NonEmpty(raw), origin, stripped)
    ensures r.duration == acc.duration + SumDurations(NonEmpty(raw))
    ensures r.cursor == acc.cursor + SumDurations(NonEmpty(raw))
    decreases |raw|
  {
    if |raw| == 0 then acc
    else if raw[0].numSamples == 0 then
      ReadLoopSkip(raw);
      ReadLoop(raw[1..], origin, stripped, acc)
    else
      ReadLoopStep(raw, origin, stripped);
      var b := raw[0];
      var head := Rebased(b, origin, stripped);
      var r := ReadLoop(raw[1..], origin, stripped,
                        TrackRead(acc.buffers + [head],
                                  acc.duration + b.timing.duration,
                                  acc.cursor + b.timing.duration));
      AppendAfterHead(acc.buffers, head, RebaseAll(NonEmpty(raw[1..]), origin, stripped),
                      RebaseAll(NonEmpty(raw), origin, stripped), r.buffers);
      r
  }

  /** Appending a head and then a tail is appending the whole run. */
  lemma AppendAfterHead(prefix: seq<Sample>, head: Sample, tail: seq<Sample>, whole: seq<Sample>, total: seq<Sample>)
    requires whole == [head] + tail && total == (prefix + [head]) + tail
    ensures total == prefix + whole
  {
  }

  /** Skipping an empty first buffer of the run being read. */
  lemma ReadLoopSkip(raw: seq<Sample>)
    requires Readable(raw) && |raw| > 0 && raw[0].numSamples == 0
    ensures Readable(raw[1..]) && NonEmpty(raw) == NonEmpty(raw[1..])
  {
    ReadableSuffix(raw);
    assert NonEmpty(raw) == [] + NonEmpty(raw[1..]);
  }

  /** Peeling a non-empty first buffer off the run being read. */
  lemma ReadLoopStep(raw: seq<Sample>, origin: real, stripped: BufferAttachment)
    requires Readable(raw) && |raw| > 0 && raw[0].numSamples > 0
    ensures Readable(raw[1..]) && raw[0].timingReadable
    ensures RebaseAll(NonEmpty(raw), origin, stripped)
      == [Rebased(raw[0], origin, stripped)] + RebaseAll(NonEmpty(raw[1..]), origin, stripped)
    ensures SumDurations(NonEmpty(raw)) == raw[0].timing.duration + SumDurations(NonEmpty(raw[1..]))
  {
    ReadableSuffix(raw);
    var kept := NonEmpty(raw);
    assert kept == [raw[0]] + NonEmpty(raw[1..]);
    RebaseAllCons(kept, origin, stripped);
    SumDurationsCons(kept);
  }

  lemma ReadableSuffix(raw: seq<Sample>)
    requires Readable(raw) && |raw| > 0
    ensures Readable(raw[1..])
  {
    forall i | 0 <= i < |raw[1..]| && raw[1..][i].numSamples > 0
      ensures raw[1..][i].timingReadable
    {
      assert raw[1..][i] == raw[i + 1];
    }
  }

  lemma RebaseAllCons(kept: seq<Sample>, origin: real, stripped: BufferAttachment)
    requires |kept| > 0 && forall i :: 0 <= i < |kept| ==> kept[i].timingReadable
    ensures RebaseAll(kept, origin, stripped)
      == [Rebased(kept[0], origin, stripped)] + RebaseAll(kept[1..], origin, stripped)
  {
    var l := RebaseAll(kept, origin, stripped);
    var r := [Rebased(kept[0], origin, stripped)] + RebaseAll(kept[1..], origin, stripped);
    assert |l| == |r|;
    forall i | 0 <= i < |l|
      ensures l[i] == r[i]
    {
      if i > 0 {
        assert kept[1..][i - 1] == kept[i];
      }
    }
  }

  /**
   * Reads one track starting at `cursor`: every non-empty buffer, shifted by
   * the cursor value at fragment start; the track duration is the sum of the
   * kept buffers' durations, and the cursor grows by exactly that much.
   */
  function ReadTrack(raw: seq<Sample>, cursor: real, stripped: BufferAttachment): (r: TrackRead)
    requires Readable(raw)
    ensures r.buffers == RebaseAll(NonEmpty(raw), cursor, stripped)
    ensures r.duration == SumDurations(NonEmpty(raw)) == SumDurations(r.buffers)
    ensures r.cursor == cursor + r.duration
  {
    var r := ReadLoop(raw, cursor, stripped, TrackRead([], 0.0, cursor));
    assert [] + RebaseAll(NonEmpty(raw), cursor, stripped) == r.buffers;
    SumDurationsPointwise(r.buffers, NonEmpty(raw));
    r
  }

  /**
   * Reads one demuxed fragment: audio re-based on the audio cursor with the
   * trim-at-start attachment removed, video re-based on the video cursor with
   * the decoder-reset attachment removed (each only when its origin is not
   * zero); the asset just read replaces the previous one.
   */
  function Read(
    l: Loader, fragment: Fragment, rawAudio: seq<Sample>, rawVideo: seq<Sample>,
    asset: nat, assetDuration: real): (res: (Loader, LoadedFragment))
    requires Readable(rawAudio) && Readable(rawVideo)
    ensures res.0.playlist == l.playlist && res.0.initSegment == l.initSegment
    ensures res.0.previousReadAsset == Some(asset)
    ensures res.1.fragment == fragment && res.1.assetDuration == assetDuration
    ensures res.1.audioBuffers == ReadTrack(rawAudio, l.nextAudioStart, TrimDurationAtStart).buffers
    ensures res.1.videoBuffers == ReadTrack(rawVideo, l.nextVideoStart, ResetDecoderBeforeDecoding).buffers
    ensures res.1.audioDuration == SumDurations(NonEmpty(rawAudio))
    ensures res.1.videoDuration == SumDurations(NonEmpty(rawVideo))
    ensures res.0.nextAudioStart == l.nextAudioStart + res.1.audioDuration
    ensures res.0.nextVideoStart == l.nextVideoStart + res.1.videoDuration
  {
    var audio := ReadTrack(rawAudio, l.nextAudioStart, TrimDurationAtStart);
    var video := ReadTrack(rawVideo, l.nextVideoStart, ResetDecoderBeforeDecoding);
    var l' := l.(nextAudioStart := audio.cursor, nextVideoStart := video.cursor,
                 previousReadAsset := Some(asset));
    (l', LoadedFragment(fragment, video.buffers, audio.buffers, video.duration, audio.duration, assetDuration))
  }

  /**
   * Two consecutive reads are contiguous: each track's cursor after the first
   * read is its origin plus the first fragment's duration on that track, and
   * every kept buffer of the second fragment is shifted by exactly that
   * cursor, i.e. it starts where the first fragment ended.
   */
  lemma ConsecutiveReadsAreContiguous(
    l: Loader,
    f1: Fragment, a1: seq<Sample>, v1: seq<Sample>, asset1: nat, d1: real,
    f2: Fragment, a2: seq<Sample>, v2: seq<Sample>, asset2: nat, d2: real)
    requires Readable(a1) && Readable(v1) && Readable(a2) && Readable(v2)
    ensures
      var first := Read(l, f1, a1, v1, asset1, d1);
      var second := Read(first.0, f2, a2, v2, asset2, d2);
      && first.0.nextAudioStart == l.nextAudioStart + first.1.audioDuration
      && first.0.nextVideoStart == l.nextVideoStart + first.1.videoDuration
      && second.1.audioBuffers == RebaseAll(NonEmpty(a2), first.0.nextAudioStart, TrimDurationAtStart)
      && second.1.videoBuffers == RebaseAll(NonEmpty(v2), first.0.nextVideoStart, ResetDecoderBeforeDecoding)
      && second.0.nextAudioStart == l.nextAudioStart + first.1.audioDuration + second.1.audioDuration
      && second.0.nextVideoStart == l.nextVideoStart + first.1.videoDuration + second.1.videoDuration
  {
  }

  /**
   * A loader that has read nothing keeps the trim and decoder-reset
   * attachments of its first fragment: its origins are zero.
   */
  lemma FirstReadKeepsAttachments(p: Playlist, f: Fragment, a: seq<Sample>, v: seq<Sample>, asset: nat, d: real)
    requires Readable(a) && Readable(v)
    ensures var first := Read(NewLoader(p), f, a, v, asset, d).1;
      && (forall i :: 0 <= i < |first.audioBuffers| ==> first.audioBuffers[i] == NonEmpty(a)[i])
      && (forall i :: 0 <= i < |first.videoBuffers| ==> first.videoBuffers[i] == NonEmpty(v)[i])
  {
    var audio := ReadTrack(a, 0.0, TrimDurationAtStart);
    forall i | 0 <= i < |audio.buffers|
      ensures audio.buffers[i] == NonEmpty(a)[i]
    {
      RebasedAtZero(NonEmpty(a)[i], TrimDurationAtStart);
    }
    var video := ReadTrack(v, 0.0, ResetDecoderBeforeDecoding);
    forall i | 0 <= i < |video.buffers|
      ensures video.buffers[i] == NonEmpty(v)[i]
    {
      RebasedAtZero(NonEmpty(v)[i], ResetDecoderBeforeDecoding);
    }
  }

  /** Re-basing onto a zero origin changes nothing, attachments included. */
  lemma RebasedAtZero(s: Sample, stripped: BufferAttachment)
    requires s.timingReadable
    ensures Rebased(s, 0.0, stripped) == s
  {
    assert s.(timing := Shift(s.timing, 0.0)) == s;
  }

  /** Flushing between reads changes nothing the next read produces. */
  lemma FlushDoesNotAffectRead(l: Loader, f: Fragment, a: seq<Sample>, v: seq<Sample>, asset: nat, d: real)
    requires Readable(a) && Readable(v)
    ensures Read(Flush(l), f, a, v, asset, d) == Read(l, f, a, v, asset, d)
  {
  }
}
